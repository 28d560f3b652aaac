/** The line generator and the line parser of parser.go, and that the parser accepts what is generated. */
module LineFile {
  import opened Bytes
  import opened FieldSplit

  // ---------------------------------------------------------------- the parser

  /**
   * `sizes` is the exact sum of the ninth fields; `invalid` and `warnings` count the two kinds of
   * complaint the parser logs.
   */
  datatype Stat = Stat(lines: nat, bytes: nat, sizes: int, invalid: nat, warnings: nat)

  const ZERO := Stat(0, 0, 0, 0, 0)

  /** A line longer than the read buffer ends the program. */
  datatype Outcome = Done(stat: Stat) | Fatal

  function AddLine(stat: Stat, line: seq<Byte>): (r: Stat) {
    var s := stat.(lines := stat.lines + 1, bytes := stat.bytes + |line|);
    var fields := SplitOf(line, SPACE, 10);
    if |fields| < 9 then s.(invalid := s.invalid + 1)
    else match NumberOf(fields[8])
      case Ok(size) => s.(sizes := s.sizes + size)
      case Bad => s.(warnings := s.warnings + 1)
  }

  type Adder = (Stat, seq<Byte>) -> Stat

  /**
   * Reads data[from..] line by line and adds every complete line with `add`; a last line without LF
   * is dropped at end of file.
   */
  function ParseFrom(data: seq<Byte>, from: nat, bufsize: nat, stat: Stat, add: Adder): (r: Outcome)
    requires from <= |data|
    decreases |data| - from
  {
    var p := IndexFrom(data, LF, from);
    if p < 0 || p - from >= bufsize then if |data| - from >= bufsize then Fatal else Done(stat)
    else ParseFrom(data, p + 1, bufsize, add(stat, data[from..p + 1]), add)
  }

  function ParseOf(data: seq<Byte>, bufsize: nat): (r: Outcome) {
    ParseFrom(data, 0, bufsize, ZERO, AddLine)
  }

  /** The statistics as the program holds them, with the sum in 64 unsigned bits. */
  function Wrapped(stat: Stat): (r: Stat) {
    stat.(sizes := stat.sizes % TWO64)
  }

  /** The sum held is the exact one if that fits in 64 bits, and off by a multiple of 2^64 otherwise. */
  lemma HeldSum(stat: Stat)
    ensures 0 <= Wrapped(stat).sizes < 0x1_0000_0000_0000_0000
    ensures exists k :: stat.sizes == Wrapped(stat).sizes + k * 0x1_0000_0000_0000_0000
    ensures Wrapped(stat).(sizes := stat.sizes) == stat
  {
    assert stat.sizes == Wrapped(stat).sizes + (stat.sizes / TWO64) * 0x1_0000_0000_0000_0000;
  }

  lemma WrapSum(sum: int, size: int)
    ensures (sum % TWO64 + size) % TWO64 == (sum + size) % TWO64
  {
    var k := sum / TWO64;
    assert sum == k * TWO64 + sum % TWO64;
    WrapsAround(sum % TWO64 + size, k);
  }

  lemma WrapsAround(x: int, k: int)
    ensures (x + k * TWO64) % TWO64 == x % TWO64
  {
  }

  /** One line: count it, split it, read its ninth field. */
  method ParseLine(stat: Stat, line: seq<Byte>, slice: Fields, ghost exact: Stat)
    returns (stat': Stat, slice': Fields)
    requires stat == Wrapped(exact)
    ensures stat' == Wrapped(AddLine(exact, line))
  {
    stat' := stat.(lines := stat.lines + 1, bytes := stat.bytes + |line|);
    slice' := SplitBytes(line, SPACE, 10, slice);
    if |slice'| < 9 {
      stat' := stat'.(invalid := stat'.invalid + 1);
      return;
    }
    var size := AtoIntOfBytes(slice'[8]);
    if size.Bad? {
      stat' := stat'.(warnings := stat'.warnings + 1);
    } else {
      WrapSum(exact.sizes, size.value);
      stat' := stat'.(sizes := (stat'.sizes + size.value) % TWO64);
    }
  }

  lemma ParseStep(data: seq<Byte>, from: nat, bufsize: nat, stat: Stat, add: Adder)
    requires from <= |data|
    ensures var p := IndexFrom(data, LF, from);
            ParseFrom(data, from, bufsize, stat, add) ==
            if p < 0 || p - from >= bufsize then if |data| - from >= bufsize then Fatal else Done(stat)
            else ParseFrom(data, p + 1, bufsize, add(stat, data[from..p + 1]), add)
  {
  }

  method Parser(data: seq<Byte>, bufsize: nat) returns (r: Outcome)
    ensures var exact := ParseOf(data, bufsize);
            r == if exact.Fatal? then Fatal else Done(Wrapped(exact.stat))
  {
    var stat, pos, slice: Fields := ZERO, 0, [];
    ghost var exact := ZERO;
    while true
      invariant 0 <= pos <= |data| && stat == Wrapped(exact)
      invariant ParseFrom(data, pos, bufsize, exact, AddLine) == ParseOf(data, bufsize)
      decreases |data| - pos
    {
      var p := IndexFrom(data, LF, pos);
      ParseStep(data, pos, bufsize, exact, AddLine);
      if p < 0 || p - pos >= bufsize {
        return if |data| - pos >= bufsize then Fatal else Done(stat);
      }
      stat, slice := ParseLine(stat, data[pos..p + 1], slice, exact);
      exact := AddLine(exact, data[pos..p + 1]);
      pos := p + 1;
    }
  }

  // ---------------------------------------------------------------- what is accounted for

  /** Where the unfinished last line starts. */
  function LastLine(data: seq<Byte>, from: nat): (k: nat)
    requires from <= |data|
    ensures from <= k <= |data|
    decreases |data| - from
  {
    var p := IndexFrom(data, LF, from);
    if p < 0 then from else LastLine(data, p + 1)
  }

  /** Behind the last LF, or at `from` if there is none. */
  lemma {:induction false} LastLineIs(data: seq<Byte>, from: nat)
    requires from <= |data|
    ensures var k := LastLine(data, from);
            (k == from || data[k - 1] == LF) && forall j | k <= j < |data| :: data[j] != LF
    decreases |data| - from
  {
    var p := IndexFrom(data, LF, from);
    if p >= 0 {
      LastLineIs(data, p + 1);
    }
  }

  ghost predicate CountsBytes(add: Adder) {
    forall stat, line :: add(stat, line).bytes == stat.bytes + |line|
  }

  lemma NextLineParsed(data: seq<Byte>, from: nat, p: nat, bufsize: nat, stat: Stat, add: Adder)
    requires CountsBytes(add) && from <= p < |data| && p == IndexFrom(data, LF, from)
    requires ParseFrom(data, from, bufsize, stat, add).Done?
    ensures var next := add(stat, data[from..p + 1]);
            && ParseFrom(data, from, bufsize, stat, add) == ParseFrom(data, p + 1, bufsize, next, add)
            && LastLine(data, from) == LastLine(data, p + 1)
            && next.bytes == stat.bytes + p + 1 - from
  {
  }

  lemma NoLineParsed(data: seq<Byte>, from: nat, bufsize: nat, stat: Stat, add: Adder)
    requires from <= |data| && IndexFrom(data, LF, from) < 0
    requires ParseFrom(data, from, bufsize, stat, add).Done?
    ensures ParseFrom(data, from, bufsize, stat, add) == Done(stat) && LastLine(data, from) == from
  {
  }

  lemma {:induction false} ParsedUpToLastLine(data: seq<Byte>, from: nat, bufsize: nat, stat: Stat, add: Adder)
    requires CountsBytes(add) && from <= |data| && ParseFrom(data, from, bufsize, stat, add).Done?
    ensures ParseFrom(data, from, bufsize, stat, add).stat.bytes == stat.bytes + LastLine(data, from) - from
    decreases |data| - from
  {
    var p := IndexFrom(data, LF, from);
    if p >= 0 {
      NextLineParsed(data, from, p, bufsize, stat, add);
      ParsedUpToLastLine(data, p + 1, bufsize, add(stat, data[from..p + 1]), add);
    } else {
      NoLineParsed(data, from, bufsize, stat, add);
    }
  }

  lemma LastLineEmpty(data: seq<Byte>, from: nat)
    requires from <= |data|
    ensures LastLine(data, from) == |data| <==> from == |data| || data[|data| - 1] == LF
  {
    LastLineIs(data, from);
  }

  /** A finished parse has accounted for every byte of the file if and only if the file is empty or ends with LF. */
  lemma AllBytesParsed(data: seq<Byte>, bufsize: nat)
    requires ParseOf(data, bufsize).Done?
    ensures ParseOf(data, bufsize).stat.bytes == LastLine(data, 0)
    ensures ParseOf(data, bufsize).stat.bytes == |data| <==> data == [] || data[|data| - 1] == LF
  {
    ParsedUpToLastLine(data, 0, bufsize, ZERO, AddLine);
    LastLineEmpty(data, 0);
  }

  /** The smallest file that is not accounted for: one byte and no line end. */
  lemma UnfinishedLineIgnored(b: Byte, bufsize: nat)
    requires b != LF && bufsize >= 2
    ensures ParseOf([b], bufsize) == Done(ZERO)
  {
  }

  // ---------------------------------------------------------------- the generator

  /** Ten fields of four seed bytes, separated by spaces and ended by LF. */
  function LineAt(seed: seq<Byte>, pos: nat): (line: seq<Byte>)
    requires pos + 49 <= |seed|
    ensures |line| == 50
  {
    seq(50, i requires 0 <= i < 50 => if i == 49 then LF else if i % 5 == 4 then SPACE else seed[pos + i])
  }

  datatype Cursor = Cursor(seek: nat, shift: nat)

  predicate InBounds(len: nat, c: Cursor) {
    c.seek <= len - 50 && (c.shift == 0 || c.shift < len - 100)
  }

  function Advance(len: nat, c: Cursor): (r: Cursor)
    requires len >= 100 && InBounds(len, c)
    ensures InBounds(len, r)
  {
    if c.seek + 50 > len - 50 then
      var shift := if c.shift + 1 >= len - 100 then 0 else c.shift + 1;
      Cursor(shift, shift)
    else Cursor(c.seek + 50, c.shift)
  }

  function Generated(seed: seq<Byte>, c: Cursor, count: nat): (out: seq<Byte>)
    requires |seed| >= 100 && InBounds(|seed|, c)
    ensures |out| == 50 * count
    decreases count
  {
    if count == 0 then [] else LineAt(seed, c.seek) + Generated(seed, Advance(|seed|, c), count - 1)
  }

  /** Copies 49 seed bytes into the line buffer and puts the spaces in; the last byte never changes. */
  method FillLine(linebuf: array<Byte>, seed: seq<Byte>, seekpos: nat)
    requires linebuf.Length == 50 && linebuf[49] == LF && seekpos + 49 <= |seed|
    modifies linebuf
    ensures linebuf[..] == LineAt(seed, seekpos) && linebuf[49] == LF
  {
    forall k | 0 <= k < 49 {
      linebuf[k] := seed[seekpos + k];
    }
    var i := 4;
    while i < 49
      invariant 4 <= i <= 49 && i % 5 == 4 && linebuf[49] == LF
      invariant forall k | 0 <= k < 49 ::
                  linebuf[k] == if k < i && k % 5 == 4 then SPACE else seed[seekpos + k]
    {
      linebuf[i] := SPACE;
      i := i + 5;
    }
  }

  lemma EmitLine(seed: seq<Byte>, c: Cursor, count: nat, out: seq<Byte>)
    requires |seed| >= 100 && InBounds(|seed|, c) && count > 0
    ensures out + Generated(seed, c, count)
         == out + LineAt(seed, c.seek) + Generated(seed, Advance(|seed|, c), count - 1)
  {
  }

  /** The generator; a seed shorter than 100 bytes panics. */
  method Generate(seed: seq<Byte>, total: nat) returns (ok: bool, out: seq<Byte>)
    ensures ok == (|seed| >= 100)
    ensures ok ==> out == Generated(seed, Cursor(0, 0), total)
  {
    out := [];
    if |seed| < 100 {
      return false, out;
    }
    var linebuf := new Byte[50];
    linebuf[49] := LF;
    var seekpos, shift := 0, 0;
    var maxpos, maxshift := |seed| - 50, |seed| - 100;
    ghost var start := Cursor(0, 0);
    ghost var goal := Generated(seed, start, total);
    ghost var rest := goal;
    for count := 0 to total
      invariant linebuf[49] == LF && seekpos >= 0 && shift >= 0
      invariant InBounds(|seed|, Cursor(seekpos, shift))
      invariant rest == Generated(seed, Cursor(seekpos, shift), total - count)
      invariant out + rest == goal
    {
      FillLine(linebuf, seed, seekpos);
      ghost var next := Advance(|seed|, Cursor(seekpos, shift));
      EmitLine(seed, Cursor(seekpos, shift), total - count, out);
      rest := Generated(seed, next, total - count - 1);
      out := out + linebuf[..];
      seekpos := seekpos + 50;
      if seekpos > maxpos {
        shift := shift + 1;
        if shift >= maxshift {
          shift := 0;
        }
        seekpos := shift;
      }
      assert Cursor(seekpos, shift) == next;
    }
    ok := true;
  }

  // ---------------------------------------------------------------- they agree

  /** Four digits from 5k on, then a space, or LF after the tenth. */
  ghost predicate FieldOk(line: seq<Byte>, k: nat)
    requires |line| == 50 && k < 10
  {
    AllDigits(line[5 * k..5 * k + 4]) && line[5 * k + 4] == if k < 9 then SPACE else LF
  }

  ghost predicate LineShape(line: seq<Byte>) {
    |line| == 50 && forall k: nat | k < 10 :: FieldOk(line, k)
  }

  /** From field `k` on there are 10 - k fields, the last not empty, the ninth as it stands in the line. */
  ghost predicate FieldsFrom(ps: Fields, line: seq<Byte>, k: nat)
    requires |line| == 50 && k <= 9
  {
    |ps| == 10 - k && ps[|ps| - 1] != [] && (k <= 8 ==> ps[8 - k] == line[40..44])
  }

  lemma OneMoreField(field: seq<Byte>, ps: Fields, line: seq<Byte>, k: nat)
    requires |line| == 50 && k < 9 && FieldsFrom(ps, line, k + 1) && (k == 8 ==> field == line[40..44])
    ensures FieldsFrom([field] + ps, line, k)
  {
  }

  lemma NextField(line: seq<Byte>, k: nat, pos: nat)
    requires LineShape(line) && k < 9 && pos == 5 * k
    ensures PiecesFrom(line, SPACE, 10 - k, pos) == [line[pos..pos + 4]] + PiecesFrom(line, SPACE, 9 - k, pos + 5)
  {
    assert FieldOk(line, k);
    FieldIsSepFree(line, k, pos);
    PieceAt(line, SPACE, pos, pos + 4, 10 - k);
  }

  lemma {:induction false} LinePieces(line: seq<Byte>, k: nat, pos: nat)
    requires LineShape(line) && k <= 9 && pos == 5 * k
    ensures FieldsFrom(PiecesFrom(line, SPACE, 10 - k, pos), line, k)
    decreases 9 - k
  {
    if k < 9 {
      NextField(line, k, pos);
      LinePieces(line, k + 1, pos + 5);
      OneMoreField(line[pos..pos + 4], PiecesFrom(line, SPACE, 9 - k, pos + 5), line, k);
    } else {
      LastField(line);
    }
  }

  lemma LastField(line: seq<Byte>)
    requires |line| == 50
    ensures FieldsFrom(PiecesFrom(line, SPACE, 1, 45), line, 9)
  {
    assert PiecesFrom(line, SPACE, 1, 45) == [line[45..]];
  }

  lemma FieldIsSepFree(line: seq<Byte>, k: nat, pos: nat)
    requires |line| == 50 && k < 9 && FieldOk(line, k) && pos == 5 * k
    ensures SepFree(line, SPACE, pos, pos + 4) && line[pos + 4] == SPACE
  {
    var field := line[pos..pos + 4];
    assert forall i | pos <= i < pos + 4 :: line[i] == field[i - pos];
  }

  lemma FourDigits(s: seq<Byte>)
    requires |s| == 4 && AllDigits(s)
    ensures 0 <= Value(s) < 10000 && NumberOf(s) == Ok(Value(s))
  {
    assert s[..3][..2] == s[..2] && s[..2][..1] == s[..1] && s[..1][..0] == [];
    assert Value(s[..1]) == s[0] - 48;
    assert Value(s[..2]) == Value(s[..1]) * 10 + s[1] - 48;
    assert Value(s[..3]) == Value(s[..2]) * 10 + s[2] - 48;
  }

  /** No generated line is rejected, and its ninth field is read as its number. */
  lemma LineAccepted(stat: Stat, line: seq<Byte>)
    requires LineShape(line)
    ensures AddLine(stat, line) == AfterLines(stat, 1, Value(line[40..44]))
  {
    LinePieces(line, 0, 0);
    assert FieldOk(line, 8);
    FourDigits(line[40..44]);
  }

  lemma GeneratedField(seed: seq<Byte>, pos: nat, k: nat)
    requires AllDigits(seed) && pos + 49 <= |seed| && k < 10
    ensures FieldOk(LineAt(seed, pos), k)
    ensures LineAt(seed, pos)[5 * k..5 * k + 4] == seed[pos + 5 * k..pos + 5 * k + 4]
  {
    var line, at := LineAt(seed, pos), 5 * k;
    forall i | at <= i < at + 4
      ensures line[i] == seed[pos + i]
    {
      assert i % 5 == i - at;
    }
    assert (at + 4) % 5 == 4;
    assert line[at..at + 4] == seed[pos + at..pos + at + 4];
  }

  lemma GeneratedLineShape(seed: seq<Byte>, pos: nat)
    requires AllDigits(seed) && pos + 49 <= |seed|
    ensures LineShape(LineAt(seed, pos)) && LineAt(seed, pos)[40..44] == seed[pos + 40..pos + 44]
  {
    forall k: nat | k < 10
      ensures FieldOk(LineAt(seed, pos), k)
    {
      GeneratedField(seed, pos, k);
    }
    GeneratedField(seed, pos, 8);
  }

  /** The sum of the ninth fields of `count` generated lines. */
  function NinthFields(seed: seq<Byte>, c: Cursor, count: nat): (sum: int)
    requires |seed| >= 100 && InBounds(|seed|, c)
    decreases count
  {
    if count == 0 then 0
    else Value(seed[c.seek + 40..c.seek + 44]) + NinthFields(seed, Advance(|seed|, c), count - 1)
  }

  /** From `from` on the file is what the generator makes of the cursor. */
  ghost predicate Continues(data: seq<Byte>, from: nat, seed: seq<Byte>, c: Cursor, count: nat)
    requires |seed| >= 100 && InBounds(|seed|, c)
  {
    from <= |data| && data[from..] == Generated(seed, c, count)
  }

  lemma FirstLineOf(data: seq<Byte>, from: nat, seed: seq<Byte>, c: Cursor, count: nat)
    requires AllDigits(seed) && |seed| >= 100 && InBounds(|seed|, c) && count > 0
    requires Continues(data, from, seed, c, count)
    ensures from + 50 <= |data| && data[from..from + 50] == LineAt(seed, c.seek)
    ensures Continues(data, from + 50, seed, Advance(|seed|, c), count - 1)
  {
    assert data[from..from + 50] == data[from..][..50];
    assert data[from + 50..] == data[from..][50..];
  }

  lemma LineEnd(data: seq<Byte>, from: nat, seed: seq<Byte>, pos: nat)
    requires AllDigits(seed) && pos + 49 <= |seed|
    requires from + 50 <= |data| && data[from..from + 50] == LineAt(seed, pos)
    ensures IndexFrom(data, LF, from) == from + 49
  {
    var line := LineAt(seed, pos);
    assert forall k | 0 <= k < 50 :: data[from + k] == line[k];
    assert forall j | from <= j < from + 49 :: data[j] == line[j - from];
    FirstAt(data, LF, from, from + 49);
  }

  /** What parsing `count` more generated lines makes of the statistics. */
  function AfterLines(stat: Stat, count: nat, sum: int): (r: Stat) {
    stat.(lines := stat.lines + count, bytes := stat.bytes + 50 * count, sizes := stat.sizes + sum)
  }

  lemma SumOneMore(seed: seq<Byte>, c: Cursor, count: nat, stat: Stat)
    requires |seed| >= 100 && InBounds(|seed|, c) && count > 0
    ensures var next, first := Advance(|seed|, c), Value(seed[c.seek + 40..c.seek + 44]);
            AfterLines(AfterLines(stat, 1, first), count - 1, NinthFields(seed, next, count - 1))
            == AfterLines(stat, count, NinthFields(seed, c, count))
  {
  }

  /** Adding a generated line counts it, its 50 bytes and its ninth field. */
  ghost predicate AddsLines(add: Adder, seed: seq<Byte>) {
    forall stat: Stat, pos: nat | pos + 49 <= |seed| ::
      add(stat, LineAt(seed, pos)) == AfterLines(stat, 1, Value(seed[pos + 40..pos + 44]))
  }

  lemma AddLineAdds(seed: seq<Byte>)
    requires AllDigits(seed)
    ensures AddsLines(AddLine, seed)
  {
    forall stat: Stat, pos: nat | pos + 49 <= |seed|
      ensures AddLine(stat, LineAt(seed, pos)) == AfterLines(stat, 1, Value(seed[pos + 40..pos + 44]))
    {
      GeneratedLineShape(seed, pos);
      LineAccepted(stat, LineAt(seed, pos));
    }
  }

  lemma ParseFirst(data: seq<Byte>, from: nat, seed: seq<Byte>, pos: nat, bufsize: nat, stat: Stat, add: Adder)
    requires AddsLines(add, seed) && AllDigits(seed) && pos + 49 <= |seed| && bufsize >= 50
    requires from + 50 <= |data| && data[from..from + 50] == LineAt(seed, pos)
    ensures ParseFrom(data, from, bufsize, stat, add)
         == ParseFrom(data, from + 50, bufsize, AfterLines(stat, 1, Value(seed[pos + 40..pos + 44])), add)
  {
    LineEnd(data, from, seed, pos);
    ParseStep(data, from, bufsize, stat, add);
  }

  ghost predicate ParsesTo(
    data: seq<Byte>, from: nat, seed: seq<Byte>, c: Cursor, count: nat, bufsize: nat, stat: Stat, add: Adder)
    requires |seed| >= 100 && InBounds(|seed|, c) && from <= |data|
  {
    ParseFrom(data, from, bufsize, stat, add) == Done(AfterLines(stat, count, NinthFields(seed, c, count)))
  }

  lemma ParseNothing(data: seq<Byte>, from: nat, seed: seq<Byte>, c: Cursor, bufsize: nat, stat: Stat, add: Adder)
    requires |seed| >= 100 && InBounds(|seed|, c) && bufsize >= 1 && Continues(data, from, seed, c, 0)
    ensures ParsesTo(data, from, seed, c, 0, bufsize, stat, add)
  {
    assert |data| == from;
  }

  lemma OneLineMore(
    data: seq<Byte>, from: nat, seed: seq<Byte>, c: Cursor, count: nat, bufsize: nat, stat: Stat, add: Adder)
    requires AllDigits(seed) && |seed| >= 100 && InBounds(|seed|, c) && bufsize >= 50 && AddsLines(add, seed)
    requires count > 0 && from + 50 <= |data| && data[from..from + 50] == LineAt(seed, c.seek)
    requires ParsesTo(data, from + 50, seed, Advance(|seed|, c), count - 1, bufsize,
                      AfterLines(stat, 1, Value(seed[c.seek + 40..c.seek + 44])), add)
    ensures ParsesTo(data, from, seed, c, count, bufsize, stat, add)
  {
    ParseFirst(data, from, seed, c.seek, bufsize, stat, add);
    SumOneMore(seed, c, count, stat);
  }

  lemma {:induction false} ParseGenerated(
    data: seq<Byte>, from: nat, seed: seq<Byte>, c: Cursor, count: nat, bufsize: nat, stat: Stat, add: Adder)
    requires AllDigits(seed) && |seed| >= 100 && InBounds(|seed|, c) && bufsize >= 50 && AddsLines(add, seed)
    requires Continues(data, from, seed, c, count)
    ensures ParsesTo(data, from, seed, c, count, bufsize, stat, add)
    decreases count
  {
    if count == 0 {
      ParseNothing(data, from, seed, c, bufsize, stat, add);
    } else {
      var t := AfterLines(stat, 1, Value(seed[c.seek + 40..c.seek + 44]));
      FirstLineOf(data, from, seed, c, count);
      ParseGenerated(data, from + 50, seed, Advance(|seed|, c), count - 1, bufsize, t, add);
      OneLineMore(data, from, seed, c, count, bufsize, stat, add);
    }
  }

  /**
   * For every digit seed of at least 100 bytes and every number of lines the parser rejects nothing
   * and reports that many lines, 50 bytes for each, and the sum of the ninth fields.
   */
  lemma GeneratorAndParserAgree(seed: seq<Byte>, count: nat, bufsize: nat)
    requires AllDigits(seed) && |seed| >= 100 && bufsize >= 50
    ensures ParseOf(Generated(seed, Cursor(0, 0), count), bufsize) ==
            Done(Stat(count, 50 * count, NinthFields(seed, Cursor(0, 0), count), 0, 0))
  {
    var data := Generated(seed, Cursor(0, 0), count);
    assert data[0..] == data;
    AddLineAdds(seed);
    ParseGenerated(data, 0, seed, Cursor(0, 0), count, bufsize, ZERO, AddLine);
  }
}
