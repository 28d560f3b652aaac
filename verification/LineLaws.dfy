/** What the parser makes of any line, which bytes the number reader refuses, and which lines are generated. */
module LineLaws {
  import opened Bytes
  import opened FieldSplit
  import opened LineFile

  // ---------------------------------------------------------------- any line

  /** How often `b` occurs in s[from..end]. */
  function Count(s: seq<Byte>, b: Byte, from: nat, end: nat): (n: nat)
    requires from <= end <= |s|
    decreases end - from
  {
    if from == end then 0 else (if s[from] == b then 1 else 0) + Count(s, b, from + 1, end)
  }

  function Spaces(line: seq<Byte>): (n: nat) {
    Count(line, SPACE, 0, |line|)
  }

  lemma {:induction false} CountFree(s: seq<Byte>, b: Byte, from: nat, end: nat)
    requires from <= end && SepFree(s, b, from, end)
    ensures Count(s, b, from, end) == 0
    decreases end - from
  {
    if from < end {
      CountFree(s, b, from + 1, end);
    }
  }

  lemma {:induction false} CountAt(s: seq<Byte>, b: Byte, from: nat, p: nat, end: nat)
    requires from <= p < end <= |s| && s[p] == b && SepFree(s, b, from, p)
    ensures Count(s, b, from, end) == 1 + Count(s, b, p + 1, end)
    decreases p - from
  {
    if from < p {
      CountAt(s, b, from + 1, p, end);
    }
  }

  lemma {:induction false} CountLast(s: seq<Byte>, b: Byte, from: nat, end: nat)
    requires from < end <= |s| && s[end - 1] == b
    ensures Count(s, b, from, end) >= 1
    decreases end - from
  {
    if from + 1 < end {
      CountLast(s, b, from + 1, end);
    }
  }

  function Least(n: int, all: nat): (r: int) {
    if 1 <= n < all then n else all
  }

  /** There is one piece more than separators, up to the limit. */
  lemma {:induction false} PieceCount(s: seq<Byte>, sep: Byte, n: int, from: nat)
    requires from <= |s|
    ensures |PiecesFrom(s, sep, n, from)| == Least(n, Count(s, sep, from, |s|) + 1)
    decreases |s| - from
  {
    var p := IndexFrom(s, sep, from);
    PiecesStep(s, sep, n, from);
    if p < 0 {
      CountFree(s, sep, from, |s|);
    } else {
      CountAt(s, sep, from, p, |s|);
      if n != 1 {
        PieceCount(s, sep, n - 1, p + 1);
      }
    }
  }

  /** The last piece is not empty and ends with `b`. */
  ghost predicate EndsIn(ps: Fields, b: Byte) {
    ps != [] && ps[|ps| - 1] != [] && ps[|ps| - 1][|ps[|ps| - 1]| - 1] == b
  }

  lemma EndsInCons(piece: seq<Byte>, ps: Fields, b: Byte)
    requires EndsIn(ps, b)
    ensures EndsIn([piece] + ps, b)
  {
    assert ([piece] + ps)[|ps|] == ps[|ps| - 1];
  }

  /** The last piece is the end of the input, and not empty if that is no separator. */
  lemma {:induction false} LastPieceIs(s: seq<Byte>, sep: Byte, n: int, from: nat)
    requires from < |s| && s[|s| - 1] != sep
    ensures EndsIn(PiecesFrom(s, sep, n, from), s[|s| - 1])
    decreases |s| - from
  {
    var p := IndexFrom(s, sep, from);
    PiecesStep(s, sep, n, from);
    if n != 1 && p >= 0 {
      LastPieceIs(s, sep, n - 1, p + 1);
      EndsInCons(s[from..p], PiecesFrom(s, sep, n - 1, p + 1), s[|s| - 1]);
    } else {
      assert s[from..][|s| - from - 1] == s[|s| - 1];
    }
  }

  /** Piece `k` of s[from..]: it starts behind `k` separators and ends at the next. */
  ghost predicate StandsAt(s: seq<Byte>, sep: Byte, from: nat, k: nat, p: nat, q: nat) {
    && from <= p <= q < |s| && Count(s, sep, from, p) == k && (p == from || s[p - 1] == sep)
    && SepFree(s, sep, p, q) && s[q] == sep
  }

  lemma {:induction false} PieceIs(s: seq<Byte>, sep: Byte, n: int, from: nat, k: nat, p: nat, q: nat)
    requires StandsAt(s, sep, from, k, p, q) && (n >= 1 ==> k + 1 < n)
    ensures |PiecesFrom(s, sep, n, from)| > k && PiecesFrom(s, sep, n, from)[k] == s[p..q]
    decreases k
  {
    var r := IndexFrom(s, sep, from);
    PiecesStep(s, sep, n, from);
    if k == 0 {
      FirstPieceIs(s, sep, from, p, q);
    } else {
      LaterPiece(s, sep, from, k, p, q);
      PieceIs(s, sep, n - 1, r + 1, k - 1, p, q);
    }
  }

  lemma FirstPieceIs(s: seq<Byte>, sep: Byte, from: nat, p: nat, q: nat)
    requires StandsAt(s, sep, from, 0, p, q)
    ensures p == from && IndexFrom(s, sep, from) == q
  {
    if p > from {
      CountLast(s, sep, from, p);
    }
    FirstAt(s, sep, from, q);
  }

  lemma LaterPiece(s: seq<Byte>, sep: Byte, from: nat, k: nat, p: nat, q: nat)
    requires StandsAt(s, sep, from, k, p, q) && k > 0
    ensures var r := IndexFrom(s, sep, from); from <= r < p && StandsAt(s, sep, r + 1, k - 1, p, q)
  {
    var r := IndexFrom(s, sep, from);
    if !(from <= r < p) {
      CountFree(s, sep, from, p);
    } else {
      CountAt(s, sep, from, r, p);
    }
  }

  /** Without a minus in front, a byte that is no decimal digit; behind one too. */
  predicate Refused(s: seq<Byte>, k: nat)
    requires k < |s|
  {
    !(48 <= s[k] <= 57) && !(k == 0 && s[0] == 45)
  }

  /** The number reader refuses exactly the inputs with a byte that is neither a digit nor a leading minus. */
  lemma RefusedExactly(s: seq<Byte>)
    ensures NumberOf(s).Bad? <==> exists k: nat :: k < |s| && Refused(s, k)
  {
    if s != [] && s[0] == 45 {
      if k: nat :| k < |s| && Refused(s, k) {
        assert !IsDigit(s[1..][k - 1]);
      }
      if k :| 0 <= k < |s| - 1 && !IsDigit(s[1..][k]) {
        assert Refused(s, k + 1);
      }
    } else if k :| 0 <= k < |s| && !IsDigit(s[k]) {
      assert Refused(s, k);
    }
  }

  lemma FieldsOfLine(line: seq<Byte>)
    requires line != [] && line[|line| - 1] == LF
    ensures |SplitOf(line, SPACE, 10)| == if Spaces(line) < 9 then Spaces(line) + 1 else 10
    ensures SplitOf(line, SPACE, 10) == Pieces(line, SPACE, 10)
  {
    PieceCount(line, SPACE, 10, 0);
    LastPieceIs(line, SPACE, 10, 0);
  }

  /** With fewer than eight spaces a line is logged as invalid. */
  lemma InvalidExactly(stat: Stat, line: seq<Byte>)
    requires line != [] && line[|line| - 1] == LF
    ensures AddLine(stat, line).invalid == stat.invalid + if Spaces(line) < 8 then 1 else 0
    ensures AddLine(stat, line).lines == stat.lines + 1 && AddLine(stat, line).bytes == stat.bytes + |line|
    ensures Spaces(line) < 8 ==>
              AddLine(stat, line).sizes == stat.sizes && AddLine(stat, line).warnings == stat.warnings
  {
    FieldsOfLine(line);
  }

  /**
   * A line of exactly nine fields is never read: its ninth field still has the line end, which is no
   * digit, so it only makes a warning.
   */
  lemma NineFieldsOnlyWarn(stat: Stat, line: seq<Byte>)
    requires line != [] && line[|line| - 1] == LF && Spaces(line) == 8
    ensures AddLine(stat, line)
         == stat.(lines := stat.lines + 1, bytes := stat.bytes + |line|, warnings := stat.warnings + 1)
  {
    FieldsOfLine(line);
    LastPieceIs(line, SPACE, 10, 0);
    var ninth := SplitOf(line, SPACE, 10)[8];
    assert Refused(ninth, |ninth| - 1);
    RefusedExactly(ninth);
  }

  /** With nine spaces or more the field between the eighth and the ninth is the size. */
  lemma NinthFieldIsRead(stat: Stat, line: seq<Byte>, p: nat, q: nat)
    requires line != [] && line[|line| - 1] == LF && StandsAt(line, SPACE, 0, 8, p, q)
    ensures AddLine(stat, line).invalid == stat.invalid
    ensures AddLine(stat, line).sizes
         == stat.sizes + if NumberOf(line[p..q]).Ok? then NumberOf(line[p..q]).value else 0
    ensures AddLine(stat, line).warnings == stat.warnings + if NumberOf(line[p..q]).Ok? then 0 else 1
  {
    FieldsOfLine(line);
    PieceIs(line, SPACE, 10, 0, 8, p, q);
  }

  // ---------------------------------------------------------------- the generated lines

  /** The cursor behind `k` more lines. */
  function CursorAfter(len: nat, c: Cursor, k: nat): (r: Cursor)
    requires len >= 100 && InBounds(len, c)
    ensures InBounds(len, r)
  {
    if k == 0 then c else Advance(len, CursorAfter(len, c, k - 1))
  }

  lemma {:induction false} CursorChain(len: nat, c: Cursor, j: nat, k: nat)
    requires len >= 100 && InBounds(len, c)
    ensures CursorAfter(len, CursorAfter(len, c, j), k) == CursorAfter(len, c, j + k)
  {
    if k > 0 {
      CursorChain(len, c, j, k - 1);
    }
  }

  lemma NextCursor(len: nat, c: Cursor, k: nat)
    requires len >= 100 && InBounds(len, c)
    ensures CursorAfter(len, Advance(len, c), k) == CursorAfter(len, c, k + 1)
  {
    assert CursorAfter(len, c, 1) == Advance(len, CursorAfter(len, c, 0));
    CursorChain(len, c, 1, k);
  }

  /** Bytes 50 k to 50 k + 49. */
  function Line(out: seq<Byte>, k: nat): (line: seq<Byte>)
    requires 50 * k + 50 <= |out|
    ensures |line| == 50
  {
    out[50 * k..50 * k + 50]
  }

  lemma LineBehind(first: seq<Byte>, tail: seq<Byte>, k: nat)
    requires |first| == 50 && 50 * k + 50 <= |tail|
    ensures Line(first + tail, k + 1) == Line(tail, k) && Line(first + tail, 0) == first
  {
  }

  /** The k-th line of the output is the line at the k-th cursor. */
  lemma {:induction false} LineOf(seed: seq<Byte>, c: Cursor, count: nat, k: nat)
    requires |seed| >= 100 && InBounds(|seed|, c) && k < count
    ensures Line(Generated(seed, c, count), k) == LineAt(seed, CursorAfter(|seed|, c, k).seek)
    decreases k
  {
    var next, tail := Advance(|seed|, c), Generated(seed, Advance(|seed|, c), count - 1);
    if k > 0 {
      LineOf(seed, next, count - 1, k - 1);
      LineBehind(LineAt(seed, c.seek), tail, k - 1);
      NextCursor(|seed|, c, k - 1);
    } else {
      assert Generated(seed, c, count)[..50] == LineAt(seed, c.seek);
    }
  }

  /** Lines of one pass over the seed from offset `shift`. */
  function PassLength(len: nat, shift: nat): (n: nat)
    requires shift + 50 <= len
    ensures n >= 1 && 50 * (n - 1) <= len - 50 - shift < 50 * n
  {
    (len - 50 - shift) / 50 + 1
  }

  /** The offsets of successive passes are 0, 1, 2 ... and start again behind the last. */
  function Offsets(len: nat): (m: nat) {
    if len >= 102 then len - 100 else 1
  }

  lemma {:induction false} WithinPass(len: nat, shift: nat, j: nat)
    requires len >= 100 && shift < Offsets(len) && j < PassLength(len, shift)
    ensures CursorAfter(len, Cursor(shift, shift), j) == Cursor(shift + 50 * j, shift)
  {
    if j > 0 {
      WithinPass(len, shift, j - 1);
    }
  }

  lemma NextPass(len: nat, shift: nat)
    requires len >= 100 && shift < Offsets(len)
    ensures var next := if shift + 1 == Offsets(len) then 0 else shift + 1;
            CursorAfter(len, Cursor(shift, shift), PassLength(len, shift)) == Cursor(next, next)
  {
    WithinPass(len, shift, PassLength(len, shift) - 1);
  }

  /** Lines before pass `m`. */
  function LinesBefore(len: nat, m: nat): (n: nat)
    requires len >= 100
  {
    if m == 0 then 0 else LinesBefore(len, m - 1) + PassLength(len, Offset(len, m - 1))
  }

  lemma NextOffset(m: nat, n: nat)
    requires n >= 1
    ensures (m + 1) % n == if m % n + 1 == n then 0 else m % n + 1
  {
    var q, r := m / n, m % n;
    assert m + 1 == q * n + (r + 1);
    if r + 1 == n {
      assert m + 1 == (q + 1) * n;
      Multiple(q + 1, n, 0);
    } else {
      Multiple(q, n, r + 1);
    }
  }

  lemma Multiple(q: nat, n: nat, r: nat)
    requires r < n
    ensures (q * n + r) % n == r
  {
    var x := q * n + r;
    var d := q - x / n;
    assert x == (x / n) * n + x % n;
    assert d * n == q * n - (x / n) * n == x % n - r;
    if d >= 1 {
      FactorGrows(d, n);
    } else if d <= -1 {
      FactorGrows(-d, n);
    }
  }

  lemma FactorGrows(d: int, n: nat)
    requires d >= 1
    ensures d * n >= n
  {
    assert (d - 1) * n >= 0;
  }

  /** The offset of pass `m`. */
  function Offset(len: nat, m: nat): (at: nat)
    ensures at < Offsets(len)
  {
    m % Offsets(len)
  }

  lemma {:induction false} PassStarts(len: nat, m: nat)
    requires len >= 100
    ensures CursorAfter(len, Cursor(0, 0), LinesBefore(len, m)) == Cursor(Offset(len, m), Offset(len, m))
  {
    if m > 0 {
      var shift := Offset(len, m - 1);
      PassStarts(len, m - 1);
      NextPass(len, shift);
      NextOffset(m - 1, Offsets(len));
      CursorChain(len, Cursor(0, 0), LinesBefore(len, m - 1), PassLength(len, shift));
    }
  }

  lemma FitsInPass(len: nat, at: nat, j: nat, pos: nat)
    requires at + 50 <= len && j < PassLength(len, at) && pos == at + 50 * j
    ensures pos + 50 <= len
  {
  }

  lemma CursorInPass(len: nat, m: nat, j: nat, at: nat, k: nat, pos: nat)
    requires len >= 100 && at == Offset(len, m) && j < PassLength(len, at)
    requires k == LinesBefore(len, m) + j && pos == at + 50 * j
    ensures CursorAfter(len, Cursor(0, 0), k) == Cursor(pos, at)
  {
    PassStarts(len, m);
    WithinPass(len, at, j);
    CursorChain(len, Cursor(0, 0), LinesBefore(len, m), j);
  }

  /**
   * The whole output in closed form: line `j` of pass `m` copies the seed from the offset of the pass plus
   * 50 j, so every pass reads the seed one byte further on than the pass before it, up to the last offset.
   */
  lemma GeneratedInClosedForm(seed: seq<Byte>, count: nat, m: nat, j: nat, at: nat, k: nat, pos: nat)
    requires |seed| >= 100 && at == Offset(|seed|, m) && j < PassLength(|seed|, at)
    requires k == LinesBefore(|seed|, m) + j < count && pos == at + 50 * j
    ensures pos + 50 <= |seed| && Line(Generated(seed, Cursor(0, 0), count), k) == LineAt(seed, pos)
  {
    FitsInPass(|seed|, at, j, pos);
    CursorInPass(|seed|, m, j, at, k, pos);
    LineOf(seed, Cursor(0, 0), count, k);
  }
}
