/** `SplitBytes` and `AtoIntOfBytes` of parser.go, against reference definitions. */
module FieldSplit {
  import opened Bytes

  type Fields = seq<seq<Byte>>

  // ---------------------------------------------------------------- SplitBytes

  /** The reference split of s[from..]: every piece between separators; for n >= 1 the n-th is the unsplit rest. */
  function PiecesFrom(s: seq<Byte>, sep: Byte, n: int, from: nat): (r: Fields)
    requires from <= |s|
    ensures r != []
    decreases |s| - from
  {
    var p := IndexFrom(s, sep, from);
    if n == 1 || p < 0 then [s[from..]] else [s[from..p]] + PiecesFrom(s, sep, n - 1, p + 1)
  }

  function Pieces(s: seq<Byte>, sep: Byte, n: int): (r: Fields)
    ensures r != []
  {
    PiecesFrom(s, sep, n, 0)
  }

  function DropEmptyLast(ps: Fields): (r: Fields) {
    if ps != [] && ps[|ps| - 1] == [] then ps[..|ps| - 1] else ps
  }

  /** The number of pieces the code really allows: its decrement turns 1 into "no limit". */
  function Allowed(n: int): (m: int) {
    if n >= 2 then n else 0
  }

  function SplitOf(s: seq<Byte>, sep: Byte, n: int): (r: Fields) {
    DropEmptyLast(Pieces(s, sep, Allowed(n)))
  }

  ghost predicate SepFree(s: seq<Byte>, sep: Byte, from: nat, to: nat) {
    to <= |s| && forall k | from <= k < to :: s[k] != sep
  }

  lemma {:induction false} FirstAt(s: seq<Byte>, sep: Byte, from: nat, p: nat)
    requires from <= p < |s| && s[p] == sep && SepFree(s, sep, from, p)
    ensures IndexFrom(s, sep, from) == p
  {
  }

  lemma PiecesStep(s: seq<Byte>, sep: Byte, n: int, from: nat)
    requires from <= |s|
    ensures var p := IndexFrom(s, sep, from);
            PiecesFrom(s, sep, n, from) ==
            if n == 1 || p < 0 then [s[from..]] else [s[from..p]] + PiecesFrom(s, sep, n - 1, p + 1)
  {
  }

  lemma PieceAt(s: seq<Byte>, sep: Byte, pos: nat, idx: nat, n: int)
    requires pos <= idx < |s| && s[idx] == sep && SepFree(s, sep, pos, idx) && n != 1
    ensures PiecesFrom(s, sep, n, pos) == [s[pos..idx]] + PiecesFrom(s, sep, n - 1, idx + 1)
  {
    FirstAt(s, sep, pos, idx);
  }

  /** What the loop still returns from index `idx` on, with `used` separators seen and `found` pieces. */
  function Scan(s: seq<Byte>, sep: Byte, limit: int, idx: nat, pos: nat, used: nat, found: Fields): (r: Fields)
    requires pos <= idx <= |s|
    decreases |s| - idx
  {
    if idx == |s| then if pos < |s| then found + [s[pos..]] else found
    else if s[idx] != sep then Scan(s, sep, limit, idx + 1, pos, used, found)
    else if limit > 0 && used + 1 > limit then found + [s[pos..]]
    else Scan(s, sep, limit, idx + 1, idx + 1, used + 1, found + [s[pos..idx]])
  }

  lemma NextPiece(s: seq<Byte>, sep: Byte, n: int, pos: nat, idx: nat, found: Fields)
    requires pos <= idx < |s| && s[idx] == sep && SepFree(s, sep, pos, idx) && n != 1
    ensures found + PiecesFrom(s, sep, n, pos) == found + [s[pos..idx]] + PiecesFrom(s, sep, n - 1, idx + 1)
  {
    PieceAt(s, sep, pos, idx, n);
  }

  lemma LastPiece(s: seq<Byte>, sep: Byte, n: int, pos: nat, found: Fields)
    requires pos <= |s| && (n == 1 || SepFree(s, sep, pos, |s|))
    ensures DropEmptyLast(found + PiecesFrom(s, sep, n, pos)) == if pos < |s| then found + [s[pos..]] else found
  {
    assert PiecesFrom(s, sep, n, pos) == [s[pos..]];
    assert (found + [s[pos..]])[..|found|] == found;
  }

  /** `m` pieces are still allowed when `used` separators have been cut at; none is counted without a limit. */
  predicate Budgeted(limit: int, used: nat, m: int) {
    if limit > 0 then m == limit + 1 - used >= 1 else m <= 0
  }

  /** Cutting off one piece moves it from the reference split to the pieces found. */
  lemma CutOff(
    s: seq<Byte>, sep: Byte, limit: int, m: int, idx: nat, pos: nat, used: nat, found: Fields, more: Fields)
    requires pos <= idx < |s| && s[idx] == sep && SepFree(s, sep, pos, idx) && Budgeted(limit, used, m) && m != 1
    requires more == found + [s[pos..idx]]
    ensures Budgeted(limit, used + 1, m - 1)
    ensures Scan(s, sep, limit, idx, pos, used, found) == Scan(s, sep, limit, idx + 1, idx + 1, used + 1, more)
    ensures found + PiecesFrom(s, sep, m, pos) == more + PiecesFrom(s, sep, m - 1, idx + 1)
  {
    NextPiece(s, sep, m, pos, idx, found);
  }

  lemma {:induction false} ScanSplits(
    s: seq<Byte>, sep: Byte, limit: int, m: int, idx: nat, pos: nat, used: nat, found: Fields)
    requires pos <= idx <= |s| && SepFree(s, sep, pos, idx) && Budgeted(limit, used, m)
    ensures Scan(s, sep, limit, idx, pos, used, found) == DropEmptyLast(found + PiecesFrom(s, sep, m, pos))
    decreases |s| - idx
  {
    if idx == |s| {
      LastPiece(s, sep, m, pos, found);
    } else if s[idx] != sep {
      ScanSplits(s, sep, limit, m, idx + 1, pos, used, found);
    } else if m == 1 {
      LastPiece(s, sep, m, pos, found);
    } else {
      var more := found + [s[pos..idx]];
      CutOff(s, sep, limit, m, idx, pos, used, found, more);
      ScanSplits(s, sep, limit, m - 1, idx + 1, idx + 1, used + 1, more);
    }
  }

  /** The one-pass splitter; with n == 0 it hands back the old result untouched. */
  method SplitBytes(s: seq<Byte>, sep: Byte, n: int, before: Fields) returns (result: Fields)
    ensures result == if n == 0 then before else SplitOf(s, sep, n)
  {
    if n == 0 {
      return before;
    }
    result := [];
    var limit := if n > 0 then n - 1 else n;
    var rcnt, pos, idx := 0, 0, 0;
    ScanSplits(s, sep, limit, Allowed(n), 0, 0, 0, []);
    assert [] + Pieces(s, sep, Allowed(n)) == Pieces(s, sep, Allowed(n));
    while idx < |s|
      invariant 0 <= pos <= idx <= |s| && 0 <= rcnt
      invariant Scan(s, sep, limit, 0, 0, 0, []) == Scan(s, sep, limit, idx, pos, rcnt, result)
    {
      if s[idx] == sep {
        rcnt := rcnt + 1;
        if limit > 0 && rcnt > limit {
          result := result + [s[pos..]];
          return;
        }
        result := result + [s[pos..idx]];
        pos := idx + 1;
      }
      idx := idx + 1;
    }
    if pos < |s| {
      result := result + [s[pos..]];
    }
  }

  function Join(ps: Fields, sep: Byte): (r: seq<Byte>) {
    if ps == [] then [] else if |ps| == 1 then ps[0] else ps[0] + [sep] + Join(ps[1..], sep)
  }

  lemma JoinCons(piece: seq<Byte>, ps: Fields, sep: Byte)
    requires ps != []
    ensures Join([piece] + ps, sep) == piece + [sep] + Join(ps, sep)
  {
    assert ([piece] + ps)[1..] == ps;
  }

  lemma SplitAtSep(s: seq<Byte>, sep: Byte, from: nat, p: nat)
    requires from <= p < |s| && s[p] == sep
    ensures s[from..] == s[from..p] + [sep] + s[p + 1..]
  {
  }

  lemma {:induction false} JoinPieces(s: seq<Byte>, sep: Byte, n: int, from: nat)
    requires from <= |s|
    ensures Join(PiecesFrom(s, sep, n, from), sep) == s[from..]
    decreases |s| - from
  {
    var p := IndexFrom(s, sep, from);
    PiecesStep(s, sep, n, from);
    if n != 1 && p >= 0 {
      JoinPieces(s, sep, n - 1, p + 1);
      JoinCons(s[from..p], PiecesFrom(s, sep, n - 1, p + 1), sep);
      SplitAtSep(s, sep, from, p);
    }
  }

  lemma {:induction false} JoinWithoutLast(ps: Fields, sep: Byte)
    requires |ps| >= 2 && ps[|ps| - 1] == []
    ensures Join(ps, sep) == Join(ps[..|ps| - 1], sep) + [sep]
  {
    var short := ps[..|ps| - 1];
    if |ps| == 2 {
      assert ps[1..] == [[]];
      assert Join(ps[1..], sep) == [];
    } else {
      JoinWithoutLast(ps[1..], sep);
      assert ps[1..][..|ps| - 2] == short[1..];
    }
  }

  lemma JoinDropped(ps: Fields, sep: Byte, s: seq<Byte>)
    requires ps != [] && Join(ps, sep) == s
    ensures Join(DropEmptyLast(ps), sep) == if ps[|ps| - 1] == [] && s != [] then s[..|s| - 1] else s
    ensures ps[|ps| - 1] == [] && s != [] ==> s[|s| - 1] == sep
  {
    if ps[|ps| - 1] == [] {
      if |ps| >= 2 {
        JoinWithoutLast(ps, sep);
      } else {
        assert ps[..0] == [];
      }
    }
  }

  /** Round trip: joining gives the input back, less one final separator if the last piece was empty. */
  lemma SplitThenJoin(s: seq<Byte>, sep: Byte, n: int)
    ensures var ps := Pieces(s, sep, Allowed(n));
            Join(SplitOf(s, sep, n), sep) == if ps[|ps| - 1] == [] && s != [] then s[..|s| - 1] else s
    ensures Join(SplitOf(s, sep, n), sep) != s ==> s[|s| - 1] == sep
  {
    JoinPieces(s, sep, Allowed(n), 0);
    assert s[0..] == s;
    JoinDropped(Pieces(s, sep, Allowed(n)), sep, s);
  }

  /** No piece holds a separator, except possibly the last of exactly `n`. */
  ghost predicate CleanBut(ps: Fields, sep: Byte, n: int) {
    forall k | 0 <= k < |ps| && (k < |ps| - 1 || |ps| != n) :: SepFree(ps[k], sep, 0, |ps[k]|)
  }

  lemma CleanCons(piece: seq<Byte>, ps: Fields, sep: Byte, n: int)
    requires SepFree(piece, sep, 0, |piece|) && CleanBut(ps, sep, n - 1)
    ensures CleanBut([piece] + ps, sep, n)
  {
  }

  lemma CleanFirst(s: seq<Byte>, sep: Byte, from: nat, to: nat)
    requires from <= to && SepFree(s, sep, from, to)
    ensures SepFree(s[from..to], sep, 0, to - from)
  {
  }

  lemma CleanLast(s: seq<Byte>, sep: Byte, n: int, from: nat)
    requires from <= |s| && (n == 1 || IndexFrom(s, sep, from) < 0)
    ensures CleanBut([s[from..]], sep, n)
  {
    if n != 1 {
      CleanFirst(s, sep, from, |s|);
    }
  }

  /** With a limit at most that many pieces; no separator in any but the unsplit last one. */
  lemma {:induction false} PiecesBounded(s: seq<Byte>, sep: Byte, n: int, from: nat)
    requires from <= |s|
    ensures n >= 1 ==> |PiecesFrom(s, sep, n, from)| <= n
    ensures CleanBut(PiecesFrom(s, sep, n, from), sep, n)
    decreases |s| - from
  {
    var p := IndexFrom(s, sep, from);
    PiecesStep(s, sep, n, from);
    if n == 1 || p < 0 {
      CleanLast(s, sep, n, from);
    } else {
      CleanFirst(s, sep, from, p);
      PiecesBounded(s, sep, n - 1, p + 1);
      CleanCons(s[from..p], PiecesFrom(s, sep, n - 1, p + 1), sep, n);
    }
  }

  lemma SplitBounded(s: seq<Byte>, sep: Byte, n: int)
    requires n >= 2 || n < 0
    ensures var r := SplitOf(s, sep, n);
            && (n > 0 ==> |r| <= n)
            && CleanBut(r, sep, n)
  {
    PiecesBounded(s, sep, Allowed(n), 0);
  }

  /**
   * With n == 1 the documented bound is not kept: the input is split everywhere. It yields at most
   * one piece exactly when no separator stands before the last byte.
   */
  lemma SplitOnePiece(s: seq<Byte>, sep: Byte)
    ensures SplitOf(s, sep, 1) == SplitOf(s, sep, -1)
    ensures |SplitOf(s, sep, 1)| <= 1 <==> (s == [] || sep !in s[..|s| - 1])
  {
    var p := IndexByte(s, sep);
    assert p >= 0 ==> (p < |s| - 1 <==> sep in s[..|s| - 1]) by {
      if 0 <= p < |s| - 1 { assert s[..|s| - 1][p] == sep; }
    }
    if p >= 0 {
      ManyPieces(s, sep, p);
    }
  }

  lemma ManyPieces(s: seq<Byte>, sep: Byte, p: nat)
    requires p == IndexByte(s, sep)
    ensures |SplitOf(s, sep, 1)| <= 1 <==> p == |s| - 1
  {
    var rest := PiecesFrom(s, sep, -1, p + 1);
    assert Pieces(s, sep, 0) == [s[0..p]] + rest;
    if |rest| == 1 {
      assert rest[0] == s[p + 1..];
    }
  }

  // ---------------------------------------------------------------- AtoIntOfBytes

  /** The value of a 64-bit signed integer after wrap-around. */
  function Wrap64(x: int): (r: int)
    ensures -TWO63 <= r < TWO63
  {
    (x + TWO63) % TWO64 - TWO63
  }

  predicate IsDigit(b: Byte) {
    '0' as int <= b <= '9' as int
  }

  predicate AllDigits(s: seq<Byte>) {
    forall k | 0 <= k < |s| :: IsDigit(s[k])
  }

  /** The number a digit string denotes. */
  function Value(s: seq<Byte>): (v: int) {
    if s == [] then 0 else Value(s[..|s| - 1]) * 10 + (s[|s| - 1] - '0' as int)
  }

  datatype Number = Ok(value: int) | Bad

  /** Base 10 with an optional leading minus; the empty string and a lone minus read as zero. */
  function NumberOf(s: seq<Byte>): (r: Number) {
    if s != [] && s[0] == '-' as int then
      if AllDigits(s[1..]) then Ok(Wrap64(-Value(s[1..]))) else Bad
    else if AllDigits(s) then Ok(Wrap64(Value(s))) else Bad
  }

  lemma WrapStep(x: int, y: int, d: int)
    requires y == Wrap64(x)
    ensures Wrap64(y * 10 + d) == Wrap64(x * 10 + d)
    ensures Wrap64(-y) == Wrap64(-x)
  {
    var k := (x + TWO63) / TWO64;
    assert x == y + k * TWO64;
    WrapPeriodic(y * 10 + d, 10 * k);
    WrapPeriodic(-y, -k);
  }

  lemma WrapPeriodic(x: int, k: int)
    ensures Wrap64(x + k * TWO64) == Wrap64(x)
  {
    var a := x + TWO63;
    assert (a + k * TWO64) % TWO64 == a % TWO64;
  }

  lemma OneMoreDigit(done: seq<Byte>, b: Byte, res: int)
    requires AllDigits(done) && IsDigit(b) && res == Wrap64(Value(done))
    ensures AllDigits(done + [b]) && Wrap64(res * 10 + b - '0' as int) == Wrap64(Value(done + [b]))
  {
    assert (done + [b])[..|done|] == done;
    WrapStep(Value(done), res, b - '0' as int);
  }

  method AtoIntOfBytes(s: seq<Byte>) returns (r: Number)
    ensures r == NumberOf(s)
  {
    var res, isnav := 0, false;
    ghost var from := if s != [] && s[0] == '-' as int then 1 else 0;
    for idx := 0 to |s|
      invariant isnav <==> idx > 0 && from == 1
      invariant var k := if idx < from then from else idx;
                AllDigits(s[from..k]) && res == Wrap64(Value(s[from..k]))
    {
      if idx == 0 && s[idx] == '-' as int {
        isnav := true;
        continue;
      }
      if s[idx] < '0' as int || s[idx] > '9' as int {
        assert s[from..][idx - from] == s[idx];
        return Bad;
      }
      assert s[from..idx + 1] == s[from..idx] + [s[idx]];
      OneMoreDigit(s[from..idx], s[idx], res);
      res := Wrap64(res * 10 + s[idx] - '0' as int);
    }
    assert s[from..|s|] == s[from..];
    if isnav {
      WrapStep(Value(s[1..]), res, 0);
      res := Wrap64(-res);
    }
    r := Ok(res);
  }

  function Digits(n: nat): (s: seq<Byte>) {
    if n < 10 then ['0' as int + n] else Digits(n / 10) + ['0' as int + n % 10]
  }

  lemma {:induction false} ValueOfDigits(n: nat)
    ensures AllDigits(Digits(n)) && Digits(n) != [] && Value(Digits(n)) == n
  {
    if n >= 10 {
      ValueOfDigits(n / 10);
      assert Digits(n)[..|Digits(n)| - 1] == Digits(n / 10);
    } else {
      assert Digits(n)[..0] == [];
    }
  }

  /** Printing and reading back: exact for every 64-bit value, negative ones included. */
  lemma ReadBack(n: int)
    requires -TWO63 <= n < TWO63
    ensures NumberOf(if n < 0 then ['-' as int] + Digits(-n) else Digits(n)) == Ok(n)
  {
    ValueOfDigits(if n < 0 then -n else n);
    if n < 0 {
      assert (['-' as int] + Digits(-n))[1..] == Digits(-n);
    } else {
      assert IsDigit(Digits(n)[0]);
    }
  }
}
