/** Bytes, the width of machine words, and the library searches that the modelled files call. */
module Bytes {

  type Byte = x: int | 0 <= x < 256

  const LF: Byte := 10
  const CR: Byte := 13
  const SPACE: Byte := 32

  const TWO63: int := 0x8000_0000_0000_0000
  const TWO64: int := 0x1_0000_0000_0000_0000

  /** The bytes of an ASCII literal. */
  function Ascii(s: string): (r: seq<Byte>)
    ensures |r| == |s| && forall i | 0 <= i < |s| && s[i] as int < 256 :: r[i] == s[i] as int
  {
    seq(|s|, i requires 0 <= i < |s| => s[i] as int % 256)
  }

  /** `bytes.IndexByte`: the first position of `b`, or -1. */
  function IndexByte(buf: seq<Byte>, b: Byte): (r: int)
    ensures -1 <= r < |buf|
    ensures r >= 0 ==> buf[r] == b && forall i | 0 <= i < r :: buf[i] != b
    ensures r < 0 ==> b !in buf
  {
    IndexFrom(buf, b, 0)
  }

  function IndexFrom(buf: seq<Byte>, b: Byte, from: nat): (r: int)
    requires from <= |buf|
    ensures r == -1 || from <= r < |buf|
    ensures r >= 0 ==> buf[r] == b && forall i | from <= i < r :: buf[i] != b
    ensures r < 0 ==> forall i | from <= i < |buf| :: buf[i] != b
    decreases |buf| - from
  {
    if from == |buf| then -1
    else if buf[from] == b then from
    else IndexFrom(buf, b, from + 1)
  }

  lemma IndexByteIs(buf: seq<Byte>, b: Byte, p: nat)
    requires p < |buf| && buf[p] == b && forall k | 0 <= k < p :: buf[k] != b
    ensures IndexByte(buf, b) == p
  {
  }

  predicate OccursAt(hay: seq<Byte>, needle: seq<Byte>, i: int) {
    0 <= i <= |hay| - |needle| && hay[i..i + |needle|] == needle
  }

  /** `bytes.Index(hay, needle) >= 0`. */
  predicate Contains(hay: seq<Byte>, needle: seq<Byte>) {
    exists i | 0 <= i <= |hay| :: OccursAt(hay, needle, i)
  }

  lemma ContainsInSuffix(hay: seq<Byte>, needle: seq<Byte>, from: nat)
    requires from <= |hay| && Contains(hay[from..], needle)
    ensures Contains(hay, needle)
  {
    var i :| 0 <= i <= |hay| - from && OccursAt(hay[from..], needle, i);
    assert hay[from..][i..i + |needle|] == hay[from + i..from + i + |needle|];
    assert OccursAt(hay, needle, from + i);
  }
}
