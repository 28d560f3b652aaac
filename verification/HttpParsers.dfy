/** The three request parsers of fasthttpserver.go: method, header end and keep-alive. */
module HttpParsers {
  import opened Bytes

  const MINI_HEADER_SIZE: nat := 6

  // ---------------------------------------------------------------- httpMethodParser

  datatype Method = Get | Head | Post | NeedMore | NoAllow | Invalid

  const GET_SLASH: seq<Byte> := Ascii("GET /")
  const HEAD_SLASH: seq<Byte> := Ascii("HEAD /")
  const POST_SLASH: seq<Byte> := Ascii("POST /")

  function MethodParser(buf: seq<Byte>): (m: Method) {
    if |buf| < MINI_HEADER_SIZE then NeedMore
    else if buf[0] != 'G' as int && buf[0] != 'P' as int && buf[0] != 'H' as int then Invalid
    else if buf[..5] == GET_SLASH then Get
    else if buf[..6] == HEAD_SLASH then Head
    else if buf[..6] == POST_SLASH then Post
    else NoAllow
  }

  predicate AcceptedMethod(m: Method) {
    m.Get? || m.Head? || m.Post?
  }

  /** What an accepted request looks like, independently of the parser's branch order. */
  ghost predicate StartsWithMethod(stream: seq<Byte>) {
    && |stream| >= MINI_HEADER_SIZE
    && (Ascii("GET /") <= stream || Ascii("HEAD /") <= stream || Ascii("POST /") <= stream)
  }

  lemma MethodParserMeaning(buf: seq<Byte>)
    ensures AcceptedMethod(MethodParser(buf)) <==> StartsWithMethod(buf)
    ensures MethodParser(buf).NeedMore? <==> |buf| < MINI_HEADER_SIZE
  {
    if |buf| >= MINI_HEADER_SIZE {
      assert GET_SLASH <= buf ==> buf[0] == GET_SLASH[0] == 'G' as int;
      assert HEAD_SLASH <= buf ==> buf[0] == HEAD_SLASH[0] == 'H' as int;
      assert POST_SLASH <= buf ==> buf[0] == POST_SLASH[0] == 'P' as int;
      assert GET_SLASH <= buf <==> buf[..5] == GET_SLASH;
      assert HEAD_SLASH <= buf <==> buf[..6] == HEAD_SLASH;
      assert POST_SLASH <= buf <==> buf[..6] == POST_SLASH;
    }
  }

  /** The verdict is fixed by the first six bytes. */
  lemma MethodParserStable(buf: seq<Byte>, more: seq<Byte>)
    requires |buf| >= MINI_HEADER_SIZE
    ensures MethodParser(buf + more) == MethodParser(buf)
  {
    assert (buf + more)[..5] == buf[..5];
    assert (buf + more)[..6] == buf[..6];
  }

  // ---------------------------------------------------------------- httpURIParser

  /** Found, read more, or short line: the parser's answers 0, 1 and 2. */
  datatype UriCode = Found | More | Short

  function UriCodeOf(buf: seq<Byte>): (code: UriCode)
    decreases |buf|
  {
    var ptr := IndexByte(buf, LF);
    if ptr < 0 then More
    else if ptr < MINI_HEADER_SIZE then Short
    else if ptr + 1 >= |buf| then More
    else if buf[ptr + 1] == LF then Found
    else if ptr + 2 >= |buf| then More
    else if buf[ptr - 1] == CR && buf[ptr + 1] == CR && buf[ptr + 2] == LF then Found
    else UriCodeOf(buf[ptr + 1..])
  }

  /** The loop of the source, which re-slices `buf` line by line. */
  method UriParser(input: seq<Byte>) returns (code: UriCode)
    ensures code == UriCodeOf(input)
  {
    var buf := input;
    while true
      invariant UriCodeOf(buf) == UriCodeOf(input)
      decreases |buf|
    {
      var ptr := IndexByte(buf, LF);
      if ptr < 0 { return More; }
      if ptr < MINI_HEADER_SIZE { return Short; }
      if ptr + 1 >= |buf| { return More; }
      if buf[ptr + 1] == LF { return Found; }
      if ptr + 2 >= |buf| { return More; }
      if buf[ptr - 1] == CR && buf[ptr + 1] == CR && buf[ptr + 2] == LF { return Found; }
      buf := buf[ptr + 1..];
    }
  }

  /** The line ended by the LF at `e` has fewer than six bytes: no six LF-free bytes precede it. */
  ghost predicate ShortLineAt(buf: seq<Byte>, e: int) {
    && 0 <= e < |buf| && buf[e] == LF
    && (e < MINI_HEADER_SIZE || exists j | e - MINI_HEADER_SIZE <= j < e :: buf[j] == LF)
  }

  /** The LF at `e` opens LF LF, or is the middle of CR LF CR LF. */
  ghost predicate TerminatorAt(buf: seq<Byte>, e: int) {
    && 0 <= e < |buf| - 1 && buf[e] == LF
    && (buf[e + 1] == LF
        || (0 < e < |buf| - 2 && buf[e - 1] == CR && buf[e + 1] == CR && buf[e + 2] == LF))
  }

  ghost predicate FoundAt(buf: seq<Byte>, e: int) {
    TerminatorAt(buf, e) && forall k | 0 <= k <= e :: !ShortLineAt(buf, k)
  }

  ghost predicate ShortFirstAt(buf: seq<Byte>, e: int) {
    ShortLineAt(buf, e) && forall k | 0 <= k < e :: !TerminatorAt(buf, k)
  }

  ghost predicate FindsHeaderEnd(buf: seq<Byte>) {
    exists e :: FoundAt(buf, e)
  }

  ghost predicate MeetsShortLineFirst(buf: seq<Byte>) {
    exists e :: ShortFirstAt(buf, e)
  }

  /** Dropping a first line that is long enough and no terminator shifts both events. */
  lemma DropLine(buf: seq<Byte>, ptr: int, e: int)
    requires ptr == IndexByte(buf, LF) >= MINI_HEADER_SIZE
    requires !TerminatorAt(buf, ptr) && 0 <= e
    ensures ShortLineAt(buf[ptr + 1..], e) <==> ShortLineAt(buf, e + ptr + 1)
    ensures TerminatorAt(buf[ptr + 1..], e) <==> TerminatorAt(buf, e + ptr + 1)
  {
    var rest, at := buf[ptr + 1..], e + ptr + 1;
    if e < |rest| {
      assert forall j | 0 <= j < |rest| :: rest[j] == buf[j + ptr + 1];
      if ShortLineAt(buf, at) && e >= MINI_HEADER_SIZE {
        var j :| at - MINI_HEADER_SIZE <= j < at && buf[j] == LF;
        assert rest[j - ptr - 1] == LF;
      }
    }
  }

  /**
   * What the line-by-line scan computes, stated on positions: it finds the header end exactly when
   * some terminator has no short line at or before it, and answers Short exactly when some short
   * line has no terminator before it.
   */
  lemma {:induction false} UriCodeMeaning(buf: seq<Byte>)
    ensures UriCodeOf(buf).Found? <==> FindsHeaderEnd(buf)
    ensures UriCodeOf(buf).Short? <==> MeetsShortLineFirst(buf)
    decreases |buf|
  {
    var ptr := IndexByte(buf, LF);
    assert forall k | 0 <= k < |buf| && buf[k] == LF :: 0 <= ptr <= k;
    if 0 <= ptr < MINI_HEADER_SIZE {
      assert ShortFirstAt(buf, ptr);
    } else if ptr >= 0 {
      if TerminatorAt(buf, ptr) {
        assert FoundAt(buf, ptr);
      } else {
        CodeAfterLine(buf, ptr);
        UriCodeMeaning(buf[ptr + 1..]);
        FoundAfterLine(buf, ptr);
        ShortAfterLine(buf, ptr);
      }
    }
  }

  lemma DropLineEvents(buf: seq<Byte>, ptr: int, e: int)
    requires ptr == IndexByte(buf, LF) >= MINI_HEADER_SIZE
    requires !TerminatorAt(buf, ptr) && !ShortLineAt(buf, ptr) && ptr < e
    ensures FoundAt(buf[ptr + 1..], e - ptr - 1) <==> FoundAt(buf, e)
    ensures ShortFirstAt(buf[ptr + 1..], e - ptr - 1) <==> ShortFirstAt(buf, e)
  {
    var rest := buf[ptr + 1..];
    DropLine(buf, ptr, e - ptr - 1);
    if FoundAt(rest, e - ptr - 1) || ShortFirstAt(rest, e - ptr - 1) {
      forall k | ptr < k <= e
        ensures ShortLineAt(buf, k) <==> ShortLineAt(rest, k - ptr - 1)
        ensures TerminatorAt(buf, k) <==> TerminatorAt(rest, k - ptr - 1)
      {
        DropLine(buf, ptr, k - ptr - 1);
      }
    } else {
      forall k | 0 <= k <= e - ptr - 1
        ensures ShortLineAt(rest, k) <==> ShortLineAt(buf, k + ptr + 1)
        ensures TerminatorAt(rest, k) <==> TerminatorAt(buf, k + ptr + 1)
      {
        DropLine(buf, ptr, k);
      }
    }
  }

  lemma FoundAfterLine(buf: seq<Byte>, ptr: int)
    requires ptr == IndexByte(buf, LF) >= MINI_HEADER_SIZE
    requires !TerminatorAt(buf, ptr) && !ShortLineAt(buf, ptr)
    ensures FindsHeaderEnd(buf) <==> FindsHeaderEnd(buf[ptr + 1..])
  {
    var rest := buf[ptr + 1..];
    if e :| FoundAt(rest, e) {
      DropLineEvents(buf, ptr, e + ptr + 1);
    }
    if e :| FoundAt(buf, e) {
      DropLineEvents(buf, ptr, e);
    }
  }

  lemma ShortAfterLine(buf: seq<Byte>, ptr: int)
    requires ptr == IndexByte(buf, LF) >= MINI_HEADER_SIZE
    requires !TerminatorAt(buf, ptr) && !ShortLineAt(buf, ptr)
    ensures MeetsShortLineFirst(buf) <==> MeetsShortLineFirst(buf[ptr + 1..])
  {
    var rest := buf[ptr + 1..];
    if e :| ShortFirstAt(rest, e) {
      DropLineEvents(buf, ptr, e + ptr + 1);
    }
    if e :| ShortFirstAt(buf, e) {
      DropLineEvents(buf, ptr, e);
    }
  }

  lemma CodeAfterLine(buf: seq<Byte>, ptr: int)
    requires ptr == IndexByte(buf, LF) >= MINI_HEADER_SIZE && !TerminatorAt(buf, ptr)
    ensures UriCodeOf(buf) == UriCodeOf(buf[ptr + 1..])
  {
    if ptr + 2 >= |buf| {
      assert LF !in buf[ptr + 1..];
    }
  }

  /** Answers Found and Short are final: no later byte changes them. */
  lemma UriCodeStable(buf: seq<Byte>, more: seq<Byte>)
    requires !UriCodeOf(buf).More?
    ensures UriCodeOf(buf + more) == UriCodeOf(buf)
  {
    UriCodeMeaning(buf);
    UriCodeMeaning(buf + more);
    var all := buf + more;
    forall e | 0 <= e < |buf|
      ensures ShortLineAt(all, e) <==> ShortLineAt(buf, e)
      ensures TerminatorAt(buf, e) ==> TerminatorAt(all, e)
    {
      assert forall j | 0 <= j < |buf| :: all[j] == buf[j];
    }
    if e :| FoundAt(buf, e) {
      assert FoundAt(all, e);
    } else {
      var e :| ShortFirstAt(buf, e);
      assert forall k | 0 <= k < e :: TerminatorAt(all, k) ==> TerminatorAt(buf, k);
      assert ShortFirstAt(all, e);
    }
  }

  /** A header end proper; section 3.5 of RFC 7230 lets a recipient accept the bare LF form. */
  ghost predicate HasTerminator(stream: seq<Byte>) {
    Contains(stream, [LF, LF]) || Contains(stream, [CR, LF, CR, LF])
  }

  lemma FoundHasTerminator(buf: seq<Byte>)
    requires UriCodeOf(buf).Found?
    ensures HasTerminator(buf)
  {
    UriCodeMeaning(buf);
    var e :| FoundAt(buf, e);
    if buf[e + 1] == LF {
      assert OccursAt(buf, [LF, LF], e);
    } else {
      assert OccursAt(buf, [CR, LF, CR, LF], e - 1);
    }
  }

  // ---------------------------------------------------------------- httpKeepAliveParse

  const HTTP11: seq<Byte> := Ascii("http/1.1")
  const CONNECTION_CLOSE: seq<Byte> := Ascii("connection: close")
  const CONNECTION_KEEPALIVE: seq<Byte> := Ascii("connection: keep-alive")

  function Fold(b: Byte): (r: Byte) {
    if 'A' as int <= b <= 'Z' as int then b + 32 else b
  }

  predicate OccursFoldedAt(hay: seq<Byte>, needle: seq<Byte>, i: int) {
    0 <= i <= |hay| - |needle| && forall j | 0 <= j < |needle| :: Fold(hay[i + j]) == needle[j]
  }

  /** `needle`, in lower case, occurs in `hay` whatever the case of its letters there. */
  predicate OccursFolded(hay: seq<Byte>, needle: seq<Byte>) {
    exists i | 0 <= i <= |hay| :: OccursFoldedAt(hay, needle, i)
  }

  /** Section 6.3 of RFC 7230 at substring level: close wins, then keep-alive, then the version. */
  predicate KeepAliveOf(request: seq<Byte>) {
    if OccursFolded(request, CONNECTION_CLOSE) then false
    else if OccursFolded(request, CONNECTION_KEEPALIVE) then true
    else OccursFolded(request, HTTP11)
  }

  lemma FoldedSearch(hay: seq<Byte>, low: seq<Byte>, needle: seq<Byte>)
    requires |low| == |hay| && forall k | 0 <= k < |hay| :: low[k] == Fold(hay[k])
    ensures Contains(low, needle) <==> OccursFolded(hay, needle)
  {
    forall i | 0 <= i <= |hay|
      ensures OccursAt(low, needle, i) <==> OccursFoldedAt(hay, needle, i)
    {
      if i <= |hay| - |needle| {
        var window := low[i..i + |needle|];
        assert forall j | 0 <= j < |needle| :: window[j] == low[i + j];
      }
    }
  }

  /** `b` is the character `c`, or its capital. */
  predicate AnyCase(b: Byte, c: char) {
    b == c as int || ('a' <= c <= 'z' && b == c as int - 32)
  }

  predicate MentionsAt(request: seq<Byte>, text: string, i: int) {
    0 <= i <= |request| - |text| && forall j | 0 <= j < |text| :: AnyCase(request[i + j], text[j])
  }

  /** The text occurs in the request in any mix of case. */
  predicate Mentions(request: seq<Byte>, text: string) {
    exists i | 0 <= i <= |request| :: MentionsAt(request, text, i)
  }

  predicate NoCapitals(text: string) {
    forall j | 0 <= j < |text| :: text[j] as int < 256 && !('A' <= text[j] <= 'Z')
  }

  lemma FoldIsAnyCase(b: Byte, c: char)
    requires c as int < 256 && !('A' <= c <= 'Z')
    ensures Fold(b) == c as int <==> AnyCase(b, c)
  {
  }

  lemma FoldedIsMentioned(request: seq<Byte>, text: string)
    requires NoCapitals(text)
    ensures OccursFolded(request, Ascii(text)) <==> Mentions(request, text)
  {
    var needle := Ascii(text);
    forall i | 0 <= i <= |request|
      ensures OccursFoldedAt(request, needle, i) <==> MentionsAt(request, text, i)
    {
      if i <= |request| - |text| {
        forall j | 0 <= j < |text|
          ensures Fold(request[i + j]) == needle[j] <==> AnyCase(request[i + j], text[j])
        {
          FoldIsAnyCase(request[i + j], text[j]);
        }
      }
    }
  }

  /**
   * What is decided: "connection: close" in any mix of case closes; without it "connection: keep-alive"
   * keeps; with neither, keep-alive is the default of HTTP/1.1 alone.
   */
  lemma KeepAliveDecision(request: seq<Byte>)
    ensures Mentions(request, "connection: close") ==> !KeepAliveOf(request)
    ensures !Mentions(request, "connection: close") && Mentions(request, "connection: keep-alive") ==>
              KeepAliveOf(request)
    ensures !Mentions(request, "connection: close") && !Mentions(request, "connection: keep-alive") ==>
              (KeepAliveOf(request) <==> Mentions(request, "http/1.1"))
  {
    FoldedIsMentioned(request, "connection: close");
    FoldedIsMentioned(request, "connection: keep-alive");
    FoldedIsMentioned(request, "http/1.1");
  }

  /**
   * The in-place parser. Whatever `cmpbuf` held before, the decision is that of the part of `buf`
   * that fits into it.
   */
  method KeepAliveParse(buf: seq<Byte>, cmpbuf: array<Byte>) returns (keep: bool)
    modifies cmpbuf
    ensures keep == KeepAliveOf(buf[..if |buf| > cmpbuf.Length then cmpbuf.Length else |buf|])
  {
    var n := if |buf| > cmpbuf.Length then cmpbuf.Length else |buf|;
    for idx := 0 to n
      invariant forall k | 0 <= k < idx :: cmpbuf[k] == Fold(buf[k])
    {
      if 'A' as int <= buf[idx] <= 'Z' as int {
        cmpbuf[idx] := buf[idx] + 32;
      } else {
        cmpbuf[idx] := buf[idx];
      }
    }
    FoldedSearch(buf[..n], cmpbuf[..n], HTTP11);
    FoldedSearch(buf[..n], cmpbuf[..n], CONNECTION_CLOSE);
    FoldedSearch(buf[..n], cmpbuf[..n], CONNECTION_KEEPALIVE);
    keep := Contains(cmpbuf[..n], HTTP11);
    if Contains(cmpbuf[..n], CONNECTION_CLOSE) {
      return false;
    }
    if Contains(cmpbuf[..n], CONNECTION_KEEPALIVE) {
      return true;
    }
  }
}
