/**
 * The connection state machine of `tinyhttpservice`, on values: one `Iterate` is one pass of its loop.
 * Read and Write are an adversary that returns any count that fits, with or without an error.
 */
module HttpService {
  import opened Bytes
  import opened HttpParsers

  const MAX_HEADER_SIZE: nat := 128
  const INIT_HEADER_SIZE: nat := 48
  const MAX_HEADER_READ_SIZE: nat := 128 * 1024
  const TAIL_HEADER_SIZE: nat := 4
  const MAX_EMPTY_IO: nat := 2
  const REPORT_BATCH: nat := 1000

  datatype Phase =
    | KeepAlive | ReadReqMethod | ReadReqHeader | ReadReqDone | ParseReqHeader | ReadReqBody
    | ParseReqBody | SendHeader | SendBody | ReadClosed | WriteClosed | KeepAliveClosed

  /** The read side: `live` is iobuf[:bufiobytes], `input` every byte ever read from the connection. */
  datatype Intake = Intake(
    live: seq<Byte>, requestBytes: nat, emptyReads: nat, methodOk: bool, input: seq<Byte>)

  /** The write side: `sent` is bufiobytes, `wire` every byte ever written to the connection. */
  datatype Outflow = Outflow(out: seq<Byte>, sent: nat, emptyWrites: nat, wire: seq<Byte>)

  /** Request counters; `reported` is the sum of what went out on the requests channel. */
  datatype Tally = Tally(total: nat, unreported: nat, reported: nat)

  /** The two fixed responses, which the source keeps in package variables. */
  datatype Replies = Replies(keep: seq<Byte>, close: seq<Byte>)

  const SERVER_REPLIES := Replies(
    Ascii("HTTP/1.0 200 OK\r\nContent-Length: 0\r\nConnection: keep-alive\r\n\r\n"),
    Ascii("HTTP/1.0 200 OK\r\nContent-Length: 0\r\nConnection: close\r\n\r\n"))

  datatype Conn = Conn(phase: Phase, keepAlive: bool, intake: Intake, outflow: Outflow, tally: Tally)

  const FRESH := Conn(KeepAlive, false, Intake([], 0, 0, false, []), Outflow([], 0, 0, []), Tally(0, 0, 0))

  datatype Read = Read(data: seq<Byte>, err: bool)
  datatype Write = Write(n: nat, err: bool)
  datatype Io = Io(rd: Read, wr: Write)

  // ---------------------------------------------------------------- reading

  /** How a pass through the read case ends; `Complete(true)` falls through to the parse case. */
  datatype Verdict = Unchanged | NeedHeader | Complete(fall: bool) | Hangup

  datatype Taken = Taken(intake: Intake, verdict: Verdict)

  /** Length of the buffer in use: the method buffer until the method is known, then the header buffer. */
  function Capacity(i: Intake): (n: nat) {
    if i.methodOk then MAX_HEADER_SIZE else INIT_HEADER_SIZE
  }

  predicate LegalRead(i: Intake, rd: Read) {
    |i.live| + |rd.data| <= Capacity(i)
  }

  /** The bytes of a successful Read go behind the live ones. */
  function Absorb(i: Intake, data: seq<Byte>): (r: Intake) {
    i.(live := i.live + data, requestBytes := i.requestBytes + |data|, input := i.input + data)
  }

  function OnRead(i: Intake, rd: Read): (r: Taken) {
    if rd.data == [] then
      if rd.err || i.emptyReads >= MAX_EMPTY_IO then Taken(i, Hangup)
      else Taken(i.(emptyReads := i.emptyReads + 1), Unchanged)
    else
      var i1 := Absorb(i, rd.data);
      Digest(i1, AcceptedMethod(MethodParser(i1.live)), UriCodeOf(i1.live).Found?, rd.err)
  }

  /** What follows from the parsers' verdicts on the live bytes. */
  function Digest(i: Intake, accepted: bool, found: bool, err: bool): (r: Taken) {
    if i.requestBytes < MINI_HEADER_SIZE then Taken(i, if err then Hangup else Unchanged)
    else if i.methodOk then CheckHeader(i, found, err)
    else if !accepted then Taken(i, Hangup)
    else if found then Taken(i, Complete(false))
    else CheckHeader(i.(methodOk := true), found, err)
  }

  /** Both answers "more" and "short line" make the service read on. */
  function CheckHeader(i: Intake, found: bool, err: bool): (r: Taken) {
    if found then Taken(i, Complete(true))
    else if err || i.requestBytes >= MAX_HEADER_READ_SIZE then Taken(i, Hangup)
    else if |i.live| >= MAX_HEADER_SIZE then
      Taken(i.(live := i.live[|i.live| - TAIL_HEADER_SIZE..]), NeedHeader)
    else Taken(i, NeedHeader)
  }

  /** The parser's answer "short line" is no error to the service: it reads on, as for "more". */
  lemma ShortLineReadsOn(i: Intake, data: seq<Byte>)
    requires i.methodOk && data != [] && UriCodeOf(i.live + data).Short?
    requires MINI_HEADER_SIZE <= i.requestBytes + |data| < MAX_HEADER_READ_SIZE
    ensures OnRead(i, Read(data, false)).verdict.NeedHeader?
  {
  }

  // ---------------------------------------------------------------- one iteration

  /** `Continue`: the iteration is over. `Fall`: it falls through to the next case. */
  datatype Flow = Continue(conn: Conn) | Fall(conn: Conn)

  predicate Reading(s: Conn) {
    s.phase.ReadReqMethod? || s.phase.ReadReqHeader?
  }

  function Response(replies: Replies, keep: bool): (r: seq<Byte>) {
    if keep then replies.keep else replies.close
  }

  function Begin(s: Conn): (r: Conn) {
    s.(phase := if s.tally.total > 0 && !s.keepAlive then KeepAliveClosed else ReadReqMethod,
       intake := Intake([], 0, 0, false, s.intake.input),
       outflow := s.outflow.(sent := 0, emptyWrites := 0))
  }

  function Count(t: Tally): (r: Tally) {
    if t.unreported + 1 >= REPORT_BATCH then Tally(t.total + 1, 0, t.reported + t.unreported + 1)
    else Tally(t.total + 1, t.unreported + 1, t.reported)
  }

  function Parse(s: Conn): (r: Conn) {
    s.(tally := Count(s.tally), keepAlive := KeepAliveOf(s.intake.live))
  }

  function Prepare(replies: Replies, s: Conn): (r: Conn) {
    s.(phase := SendBody, intake := s.intake.(live := [], emptyReads := 0),
       outflow := Outflow(Response(replies, s.keepAlive), 0, 0, s.outflow.wire))
  }

  predicate LegalWrite(o: Outflow, wr: Write) {
    o.sent + wr.n <= |o.out|
  }

  function OnWrite(s: Conn, wr: Write): (r: Conn)
    requires LegalWrite(s.outflow, wr)
  {
    var o := s.outflow;
    if wr.n > 0 then
      var o1 := o.(sent := o.sent + wr.n, wire := o.wire + o.out[o.sent..o.sent + wr.n]);
      var phase := if wr.err then WriteClosed else if o1.sent >= |o.out| then KeepAlive else s.phase;
      s.(phase := phase, outflow := o1)
    else if wr.err || o.emptyWrites >= MAX_EMPTY_IO then s.(phase := WriteClosed)
    else s.(outflow := o.(emptyWrites := o.emptyWrites + 1))
  }

  function ReadThenParse(replies: Replies, s: Conn, rd: Read): (r: Flow) {
    Conclude(replies, s, OnRead(s.intake, rd))
  }

  function Conclude(replies: Replies, s: Conn, t: Taken): (r: Flow) {
    var s1 := s.(intake := t.intake);
    match t.verdict
    case Unchanged => Continue(s1)
    case NeedHeader => Continue(s1.(phase := ReadReqHeader))
    case Hangup => Continue(s1.(phase := ReadClosed))
    case Complete(fall) =>
      if fall then Fall(Prepare(replies, Parse(s1))) else Continue(s1.(phase := ReadReqDone))
  }

  /** Everything an iteration does before it calls Write, if it does. */
  function BeforeWrite(replies: Replies, s: Conn, rd: Read): (r: Flow) {
    match s.phase
    case KeepAlive =>
      var b := Begin(s);
      if b.phase.KeepAliveClosed? then Continue(b) else ReadThenParse(replies, b, rd)
    case ReadReqMethod => ReadThenParse(replies, s, rd)
    case ReadReqHeader => ReadThenParse(replies, s, rd)
    case ReadReqDone => Fall(Prepare(replies, Parse(s)))
    case ParseReqHeader => Fall(Prepare(replies, Parse(s)))
    case ReadReqBody => Fall(Prepare(replies, s))
    case ParseReqBody => Fall(Prepare(replies, s))
    case SendHeader => Fall(s)
    case SendBody => Fall(s)
    case _ => Continue(s)
  }

  predicate ReadsLegally(s: Conn, rd: Read) {
    (s.phase.KeepAlive? ==> LegalRead(Begin(s).intake, rd)) && (Reading(s) ==> LegalRead(s.intake, rd))
  }

  predicate LegalIo(replies: Replies, s: Conn, io: Io) {
    && ReadsLegally(s, io.rd)
    && (var f := BeforeWrite(replies, s, io.rd); f.Fall? ==> LegalWrite(f.conn.outflow, io.wr))
  }

  function Iterate(replies: Replies, s: Conn, io: Io): (r: Conn)
    requires LegalIo(replies, s, io)
  {
    match BeforeWrite(replies, s, io.rd)
    case Continue(c) => c
    case Fall(w) => OnWrite(w, io.wr)
  }

  predicate LegalRun(replies: Replies, s: Conn, ios: seq<Io>)
    decreases |ios|
  {
    ios == [] || (LegalIo(replies, s, ios[0]) && LegalRun(replies, Iterate(replies, s, ios[0]), ios[1..]))
  }

  /** The state after any number of iterations; an exit signal only cuts a run short. */
  function Run(replies: Replies, s: Conn, ios: seq<Io>): (r: Conn)
    requires LegalRun(replies, s, ios)
    decreases |ios|
  {
    if ios == [] then s else Run(replies, Iterate(replies, s, ios[0]), ios[1..])
  }

  predicate Closed(s: Conn) {
    s.phase.ReadClosed? || s.phase.WriteClosed? || s.phase.KeepAliveClosed?
  }

  lemma {:induction false} ClosedStays(replies: Replies, s: Conn, ios: seq<Io>)
    requires Closed(s) && LegalRun(replies, s, ios)
    ensures Run(replies, s, ios) == s
    decreases |ios|
  {
    if ios != [] {
      ClosedStays(replies, s, ios[1..]);
    }
  }

  // ---------------------------------------------------------------- what reading keeps

  /** The last `n` bytes of `input`. */
  ghost function Last(input: seq<Byte>, n: nat): (r: seq<Byte>)
    requires n <= |input|
  {
    input[|input| - n..]
  }

  /** The bytes read so far for the current request. */
  ghost function Stream(i: Intake): (r: seq<Byte>)
    requires i.requestBytes <= |i.input|
  {
    Last(i.input, i.requestBytes)
  }

  /** A response belongs to a stream that starts with an accepted method and has a header end. */
  ghost predicate Deserved(stream: seq<Byte>) {
    StartsWithMethod(stream) && HasTerminator(stream)
  }

  ghost predicate LiveIsSuffix(i: Intake) {
    |i.live| <= i.requestBytes <= |i.input| && i.live == Last(i.input, |i.live|)
  }

  ghost predicate Bounded(i: Intake) {
    && i.emptyReads <= MAX_EMPTY_IO
    && (i.requestBytes < MAX_HEADER_SIZE ==> |i.live| == i.requestBytes)
    && (i.methodOk ==> i.requestBytes >= MINI_HEADER_SIZE)
  }

  /** Holds whenever Read is about to be called. */
  ghost predicate IntakeInv(i: Intake) {
    && LiveIsSuffix(i) && Bounded(i)
    && |i.live| < Capacity(i)
    && i.requestBytes < MAX_HEADER_READ_SIZE
    && (!i.methodOk ==> i.requestBytes < MINI_HEADER_SIZE)
    && (i.methodOk ==> StartsWithMethod(Stream(i)))
  }

  ghost predicate CompleteInv(i: Intake) {
    LiveIsSuffix(i) && |i.live| <= MAX_HEADER_SIZE && Deserved(Stream(i))
  }

  ghost predicate TakenInv(t: Taken) {
    match t.verdict
    case Unchanged => IntakeInv(t.intake)
    case NeedHeader => IntakeInv(t.intake) && t.intake.methodOk
    case Complete(_) => CompleteInv(t.intake)
    case Hangup => true
  }

  /** A read extends the input, so suffixes of the input grow by what was read. */
  lemma Extend(input: seq<Byte>, n: nat, data: seq<Byte>)
    requires n <= |input|
    ensures Last(input + data, n + |data|) == Last(input, n) + data
  {
  }

  lemma LastOfLast(input: seq<Byte>, n: nat, m: nat)
    requires m <= n <= |input|
    ensures Last(Last(input, n), m) == Last(input, m)
  {
  }

  lemma AbsorbKeepsSuffix(i: Intake, data: seq<Byte>)
    requires LiveIsSuffix(i)
    ensures LiveIsSuffix(Absorb(i, data)) && Stream(Absorb(i, data)) == Stream(i) + data
  {
    Extend(i.input, i.requestBytes, data);
    Extend(i.input, |i.live|, data);
  }

  lemma MethodPersists(stream: seq<Byte>, data: seq<Byte>)
    requires StartsWithMethod(stream)
    ensures StartsWithMethod(stream + data)
  {
  }

  lemma FoundDeserves(stream: seq<Byte>, live: seq<Byte>)
    requires StartsWithMethod(stream) && |live| <= |stream| && live == Last(stream, |live|)
    requires UriCodeOf(live).Found?
    ensures Deserved(stream)
  {
    FoundHasTerminator(live);
    if Contains(live, [LF, LF]) {
      ContainsInSuffix(stream, [LF, LF], |stream| - |live|);
    } else {
      ContainsInSuffix(stream, [CR, LF, CR, LF], |stream| - |live|);
    }
  }

  /** The parsers' verdicts on the live bytes hold of the whole stream of the request. */
  lemma VerdictsHold(i: Intake)
    requires LiveIsSuffix(i)
    requires i.methodOk ==> StartsWithMethod(Stream(i))
    requires !i.methodOk ==> |i.live| == i.requestBytes && AcceptedMethod(MethodParser(i.live))
    ensures StartsWithMethod(Stream(i))
    ensures UriCodeOf(i.live).Found? ==> Deserved(Stream(i))
  {
    MethodParserMeaning(i.live);
    if UriCodeOf(i.live).Found? {
      LastOfLast(i.input, i.requestBytes, |i.live|);
      FoundDeserves(Stream(i), i.live);
    }
  }

  lemma DigestKeeps(i: Intake, accepted: bool, found: bool, err: bool)
    requires LiveIsSuffix(i) && Bounded(i) && |i.live| <= Capacity(i)
    requires (i.methodOk || accepted) && i.requestBytes >= MINI_HEADER_SIZE ==> StartsWithMethod(Stream(i))
    requires (i.methodOk || accepted) && i.requestBytes >= MINI_HEADER_SIZE && found ==> Deserved(Stream(i))
    ensures TakenInv(Digest(i, accepted, found, err))
  {
  }

  lemma OnReadKeeps(i: Intake, rd: Read)
    requires IntakeInv(i) && LegalRead(i, rd)
    ensures TakenInv(OnRead(i, rd))
  {
    if rd.data != [] {
      var i1 := Absorb(i, rd.data);
      AbsorbKeepsSuffix(i, rd.data);
      if i.methodOk {
        MethodPersists(Stream(i), rd.data);
      }
      if i.methodOk || AcceptedMethod(MethodParser(i1.live)) {
        VerdictsHold(i1);
      }
      DigestKeeps(i1, AcceptedMethod(MethodParser(i1.live)), UriCodeOf(i1.live).Found?, rd.err);
    }
  }

  // ---------------------------------------------------------------- what every iteration keeps

  function Repeat(x: seq<Byte>, n: nat): (r: seq<Byte>) {
    if n == 0 then [] else Repeat(x, n - 1) + x
  }

  /** The request side at a loop head; four phases are never seen there. */
  ghost predicate RequestInv(phase: Phase, i: Intake) {
    match phase
    case ReadReqMethod => IntakeInv(i)
    case ReadReqHeader => IntakeInv(i) && i.methodOk
    case ReadReqDone => CompleteInv(i)
    case SendBody => i.requestBytes <= |i.input| && Deserved(Stream(i))
    case WriteClosed => i.requestBytes <= |i.input| && Deserved(Stream(i))
    case ParseReqHeader => false
    case ReadReqBody => false
    case ParseReqBody => false
    case SendHeader => false
    case _ => true
  }

  ghost predicate CountInv(t: Tally) {
    t.unreported < REPORT_BATCH && t.reported + t.unreported == t.total
  }

  /** `before` was written for all requests but the last; `all` is one keep-alive reply for each. */
  ghost predicate WireShape(s: Conn, before: seq<Byte>, all: seq<Byte>) {
    var o, total := s.outflow, s.tally.total;
    match s.phase
    case KeepAlive => o.wire == if total == 0 then [] else before + o.out
    case SendBody =>
      total > 0 && o.sent < |o.out| && o.emptyWrites <= MAX_EMPTY_IO && o.wire == before + o.out[..o.sent]
    case WriteClosed => total > 0 && o.sent <= |o.out| && o.wire == before + o.out[..o.sent]
    case KeepAliveClosed => total > 0 && !s.keepAlive && o.wire == before + o.out
    case _ => o.wire == all && (total > 0 ==> s.keepAlive)
  }

  ghost predicate WireInv(replies: Replies, s: Conn) {
    && replies.keep != [] && replies.close != []
    && (s.tally.total > 0 ==> s.outflow.out == Response(replies, s.keepAlive))
    && WireShape(s, Repeat(replies.keep, if s.tally.total == 0 then 0 else s.tally.total - 1),
                 Repeat(replies.keep, s.tally.total))
  }

  ghost predicate Inv(replies: Replies, s: Conn) {
    RequestInv(s.phase, s.intake) && CountInv(s.tally) && WireInv(replies, s)
  }

  lemma BeginKeeps(replies: Replies, s: Conn)
    requires Inv(replies, s) && s.phase.KeepAlive?
    ensures Inv(replies, Begin(s)) && (Reading(Begin(s)) || Begin(s).phase.KeepAliveClosed?)
  {
  }

  /** Only a deserved response is begun. */
  lemma ParseKeeps(replies: Replies, s: Conn)
    requires CompleteInv(s.intake) && CountInv(s.tally) && WireInv(replies, s)
    requires Reading(s) || s.phase.ReadReqDone?
    ensures Inv(replies, Prepare(replies, Parse(s))) && Prepare(replies, Parse(s)).phase.SendBody?
  {
    assert Prepare(replies, Parse(s)).outflow.out[..0] == [];
  }

  lemma Append(done: seq<Byte>, out: seq<Byte>, sent: nat, n: nat)
    requires sent + n <= |out|
    ensures done + out[..sent] + out[sent..sent + n] == done + out[..sent + n]
    ensures out[..|out|] == out
  {
  }

  lemma OnWriteKeepsWire(s: Conn, wr: Write, before: seq<Byte>, all: seq<Byte>)
    requires s.phase.SendBody? && LegalWrite(s.outflow, wr) && WireShape(s, before, all)
    ensures WireShape(OnWrite(s, wr), before, all)
  {
    Append(before, s.outflow.out, s.outflow.sent, wr.n);
  }

  lemma OnWriteKeeps(replies: Replies, s: Conn, wr: Write)
    requires Inv(replies, s) && s.phase.SendBody? && LegalWrite(s.outflow, wr)
    ensures Inv(replies, OnWrite(s, wr))
  {
    OnWriteKeepsWire(s, wr, Repeat(replies.keep, s.tally.total - 1), Repeat(replies.keep, s.tally.total));
  }

  lemma ConcludeKeeps(replies: Replies, s: Conn, t: Taken)
    requires Inv(replies, s) && Reading(s) && TakenInv(t)
    requires s.phase.ReadReqHeader? && t.verdict.Unchanged? ==> t.intake.methodOk
    ensures var f := Conclude(replies, s, t);
            Inv(replies, f.conn) && (f.Fall? ==> f.conn.phase.SendBody?)
  {
    if t.verdict == Complete(true) {
      ParseKeeps(replies, s.(intake := t.intake));
    }
  }

  lemma ReadThenParseKeeps(replies: Replies, s: Conn, rd: Read)
    requires Inv(replies, s) && Reading(s) && LegalRead(s.intake, rd)
    ensures var f := ReadThenParse(replies, s, rd);
            Inv(replies, f.conn) && (f.Fall? ==> f.conn.phase.SendBody?)
  {
    OnReadKeeps(s.intake, rd);
    ConcludeKeeps(replies, s, OnRead(s.intake, rd));
  }

  lemma BeforeWriteKeeps(replies: Replies, s: Conn, rd: Read)
    requires Inv(replies, s) && ReadsLegally(s, rd)
    ensures var f := BeforeWrite(replies, s, rd); Inv(replies, f.conn) && (f.Fall? ==> f.conn.phase.SendBody?)
  {
    if s.phase.KeepAlive? {
      BeginKeeps(replies, s);
      if Reading(Begin(s)) {
        ReadThenParseKeeps(replies, Begin(s), rd);
      }
    } else if Reading(s) {
      ReadThenParseKeeps(replies, s, rd);
    } else if s.phase.ReadReqDone? {
      ParseKeeps(replies, s);
    }
  }

  lemma IterateKeeps(replies: Replies, s: Conn, io: Io)
    requires Inv(replies, s) && LegalIo(replies, s, io)
    ensures Inv(replies, Iterate(replies, s, io))
  {
    BeforeWriteKeeps(replies, s, io.rd);
    var f := BeforeWrite(replies, s, io.rd);
    if f.Fall? {
      OnWriteKeeps(replies, f.conn, io.wr);
    }
  }

  lemma {:induction false} RunKeeps(replies: Replies, s: Conn, ios: seq<Io>)
    requires Inv(replies, s) && LegalRun(replies, s, ios)
    ensures Inv(replies, Run(replies, s, ios))
    decreases |ios|
  {
    if ios != [] {
      IterateKeeps(replies, s, ios[0]);
      RunKeeps(replies, Iterate(replies, s, ios[0]), ios[1..]);
    }
  }
}
