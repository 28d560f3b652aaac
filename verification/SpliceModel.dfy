/**
 * The byte pump of splice_linux.go on values. The kernel is a script of answers; an answer that asks for
 * more than was requested is cut down to the request, so every script is a kernel that keeps its
 * contract: a successful splice moves at most what was requested, EAGAIN moves nothing, zero bytes from
 * the source mean end of file, and draining a pipe that holds bytes moves at least one or fails.
 */
module SpliceModel {
  import opened Bytes

  const PIPE_BUF: int := 65535

  datatype Error = None | Poll | UnexpectedEof | Errno

  /** What socket-to-pipe answers. After EAGAIN the goroutine waits, and the wait may fail. */
  datatype ReadCall = Got(data: seq<Byte>) | ReadAgain(waitFails: bool) | ReadFail

  /** What pipe-to-socket answers. */
  datatype WriteCall = Sent(n: nat) | WriteAgain(waitFails: bool) | WriteFail

  datatype Round = Round(first: ReadCall, second: ReadCall)

  /** The counters of `splicePipe`, and the bytes: taken from the source, in the pipe, delivered. */
  datatype Pump = Pump(
    toread: int, written: int, inbuf: int, taken: seq<Byte>, content: seq<Byte>, delivered: seq<Byte>, log: Log)

  /** What has happened: the end of the source, hard errnos, and whether the pipe was empty at that of the source. */
  datatype Log = Log(eof: bool, readFails: nat, writeFails: nat, emptyAtFail: bool)

  function Start(amt: int): (s: Pump) {
    Pump(amt, 0, 0, [], [], [], Log(false, 0, 0, false))
  }

  function Min(a: int, b: int): (m: int) {
    if a < b then a else b
  }

  // ---------------------------------------------------------------- readFrom

  datatype Step = Step(pump: Pump, err: Error)

  function Asked(s: Pump): (amt: int) {
    if 0 < s.toread < PIPE_BUF - s.inbuf then s.toread else PIPE_BUF - s.inbuf
  }

  /** A socket-to-pipe call for `amt` bytes that did not answer EAGAIN; an errno adds its -1 to the counters. */
  function TakeIn(s: Pump, call: ReadCall, amt: int): (r: Step)
    requires !call.ReadAgain?
  {
    if call.ReadFail? then
      Step(s.(inbuf := s.inbuf - 1, toread := s.toread + 1,
              log := s.log.(readFails := s.log.readFails + 1, emptyAtFail := s.content == [])), Errno)
    else if amt < 1 || call.data == [] then
      var ended := s.(log := s.log.(eof := true));
      if s.toread < 0 then Step(ended.(toread := 0), None) else Step(ended, UnexpectedEof)
    else
      var got := call.data[..Min(|call.data|, amt)];
      Step(s.(inbuf := s.inbuf + |got|, toread := s.toread - |got|,
              taken := s.taken + got, content := s.content + got), None)
  }

  /** At most two calls, the second after a wait. */
  function ReadOf(s: Pump, round: Round): (r: Step) {
    if s.toread == 0 then Step(s, None)
    else if !round.first.ReadAgain? then TakeIn(s, round.first, Asked(s))
    else if round.first.waitFails then Step(s, Poll)
    else if round.second.ReadAgain? then Step(s, None)
    else TakeIn(s, round.second, Asked(s))
  }

  // ---------------------------------------------------------------- writeTo and flush

  datatype WriteStep = WriteStep(pump: Pump, err: Error, rest: seq<WriteCall>)

  /** How much a successful call moves that could move up to `room` bytes. */
  function Amount(wish: nat, room: int): (n: nat)
    ensures room >= 1 ==> 1 <= n <= room
    ensures room < 1 ==> n == 0
  {
    if room < 1 then 0 else if wish < 1 then 1 else Min(wish, room)
  }

  function DrainOf(s: Pump, wish: nat): (r: Pump) {
    var n := Amount(wish, Min(|s.content|, s.inbuf));
    s.(inbuf := s.inbuf - n, written := s.written + n,
       content := s.content[n..], delivered := s.delivered + s.content[..n])
  }

  /** Repeats the call as long as it answers EAGAIN and the wait succeeds; a script that ends is a closed descriptor. */
  function WriteOf(s: Pump, calls: seq<WriteCall>): (r: WriteStep)
    ensures |r.rest| <= |calls| && (r.err.None? && s.inbuf != 0 ==> |r.rest| < |calls|)
    decreases |calls|
  {
    if s.inbuf == 0 then WriteStep(s, None, calls)
    else if calls == [] then WriteStep(s, Poll, calls)
    else
      match calls[0]
      case WriteAgain(waitFails) => if waitFails then WriteStep(s, Poll, calls[1..]) else WriteOf(s, calls[1..])
      case WriteFail =>
        WriteStep(s.(inbuf := s.inbuf + 1, written := s.written - 1,
                     log := s.log.(writeFails := s.log.writeFails + 1)), Errno, calls[1..])
      case Sent(n) => WriteStep(DrainOf(s, n), None, calls[1..])
  }

  function FlushOf(s: Pump, calls: seq<WriteCall>): (r: WriteStep)
    decreases |calls|
  {
    if s.inbuf <= 0 then WriteStep(s, None, calls)
    else
      var w := WriteOf(s, calls);
      if w.err.None? then FlushOf(w.pump, w.rest) else w
  }

  // ---------------------------------------------------------------- splice

  /** The loop of `splice`; when the script of the source ends, its descriptor has been closed. */
  function PumpOf(s: Pump, rounds: seq<Round>, writes: seq<WriteCall>): (r: WriteStep)
    decreases |rounds|
  {
    if s.toread == 0 then WriteStep(s, None, writes)
    else if rounds == [] then WriteStep(s, Poll, writes)
    else
      var r := ReadOf(s, rounds[0]);
      if !r.err.None? then WriteStep(r.pump, r.err, writes)
      else
        var w := WriteOf(r.pump, writes);
        if w.err.None? then PumpOf(w.pump, rounds[1..], w.rest) else w
  }

  datatype Result = Result(pump: Pump, err: Error, flushed: bool)

  function SpliceOf(amt: int, rounds: seq<Round>, writes: seq<WriteCall>): (r: Result) {
    var p := PumpOf(Start(amt), rounds, writes);
    var f := FlushOf(p.pump, p.rest);
    Result(f.pump, if p.err.None? then f.err else p.err, f.err.None?)
  }

  // ---------------------------------------------------------------- what every step keeps

  /**
   * Nothing is lost or reordered, and the counters are exact up to one unit for every hard errno,
   * whose -1 the source adds to them.
   */
  ghost predicate Sound(s: Pump, max: int) {
    && s.taken == s.delivered + s.content
    && s.inbuf == |s.content| - s.log.readFails + s.log.writeFails
    && s.written == |s.delivered| - s.log.writeFails
    && s.toread == (if s.log.eof && max < 0 then 0 else max - |s.taken| + s.log.readFails)
    && (max >= 0 ==> |s.taken| <= max)
    && s.log.readFails <= 1
    && (s.log.readFails == 1 && s.log.emptyAtFail ==> s.content == [])
    && (s.log.readFails == 1 && !s.log.emptyAtFail && s.log.writeFails == 0 ==> s.content != [])
  }

  predicate NoHardError(s: Pump) {
    s.log.readFails == 0 && s.log.writeFails == 0
  }

  /** At the head of the loop: room for at least one byte, nothing failed, and an end only without a limit. */
  ghost predicate AtHead(s: Pump, max: int) {
    Sound(s, max) && NoHardError(s) && s.inbuf < PIPE_BUF && (s.log.eof ==> max < 0 && s.toread == 0)
  }

  /** The request is never for zero bytes, so a zero answer does mean the end of the source. */
  lemma NeverAsksForNothing(s: Pump, max: int)
    requires AtHead(s, max) && s.toread != 0
    ensures 1 <= Asked(s) <= PIPE_BUF - s.inbuf && (max >= 0 ==> |s.taken| + Asked(s) <= max)
  {
  }

  /** What reading leaves behind. */
  ghost predicate AfterRead(s: Pump, max: int, r: Step) {
    && Sound(r.pump, max) && r.pump.log.writeFails == 0 && r.pump.delivered == s.delivered
    && (r.err.None? ==> NoHardError(r.pump) && r.pump.inbuf <= PIPE_BUF)
    && (r.err.None? && r.pump.log.eof ==> max < 0 && r.pump.toread == 0)
    && (r.pump.log.eof && max >= 0 <==> r.err.UnexpectedEof?)
  }

  lemma TakeInKeeps(s: Pump, max: int, call: ReadCall)
    requires AtHead(s, max) && s.toread != 0 && !call.ReadAgain?
    ensures AfterRead(s, max, TakeIn(s, call, Asked(s)))
  {
    NeverAsksForNothing(s, max);
  }

  lemma ReadKeeps(s: Pump, max: int, round: Round)
    requires AtHead(s, max) && s.toread != 0
    ensures AfterRead(s, max, ReadOf(s, round))
  {
    if !round.first.ReadAgain? {
      TakeInKeeps(s, max, round.first);
    } else if !round.second.ReadAgain? {
      TakeInKeeps(s, max, round.second);
    }
  }

  lemma SplitOff(done: seq<Byte>, content: seq<Byte>, n: nat)
    requires n <= |content|
    ensures done + content == done + content[..n] + content[n..]
  {
  }

  lemma DrainKeeps(s: Pump, max: int, wish: nat)
    requires Sound(s, max) && s.inbuf != 0
    ensures var t := DrainOf(s, wish);
            && Sound(t, max) && s.delivered <= t.delivered && t.taken == s.taken && t.log == s.log
            && (s.inbuf > 0 && s.content != [] ==> t.inbuf < s.inbuf)
  {
    SplitOff(s.delivered, s.content, Amount(wish, Min(|s.content|, s.inbuf)));
  }

  /** What writing leaves behind. */
  ghost predicate AfterWrite(s: Pump, max: int, w: WriteStep) {
    && Sound(w.pump, max) && s.delivered <= w.pump.delivered && w.pump.taken == s.taken && !w.err.UnexpectedEof?
    && w.pump.log == s.log.(writeFails := w.pump.log.writeFails)
    && (w.err.None? ==> w.pump.log == s.log)
  }

  lemma {:induction false} WriteKeeps(s: Pump, max: int, calls: seq<WriteCall>)
    requires Sound(s, max)
    ensures AfterWrite(s, max, WriteOf(s, calls))
    ensures WriteOf(s, calls).err.None? && s.inbuf > 0 && s.content != [] ==> WriteOf(s, calls).pump.inbuf < s.inbuf
    decreases |calls|
  {
    if s.inbuf != 0 && calls != [] {
      match calls[0]
      case WriteAgain(_) => WriteKeeps(s, max, calls[1..]);
      case WriteFail =>
      case Sent(n) => DrainKeeps(s, max, n);
    }
  }

  /** A flush that succeeds leaves a byte exactly when the source failed on a pipe that held some. */
  ghost predicate Flushed(s: Pump) {
    s.inbuf <= 0 && s.log.writeFails == 0
    && |s.content| == if s.log.readFails == 1 && !s.log.emptyAtFail then 1 else 0
  }

  lemma EmptyCounter(s: Pump, max: int)
    requires Sound(s, max) && s.inbuf <= 0 && (s.log.readFails == 0 || s.log.writeFails == 0)
    ensures Flushed(s)
  {
  }

  lemma {:induction false} FlushKeeps(s: Pump, max: int, calls: seq<WriteCall>)
    requires Sound(s, max) && (s.log.readFails == 0 || s.log.writeFails == 0)
    ensures AfterWrite(s, max, FlushOf(s, calls))
    ensures FlushOf(s, calls).err.None? ==> Flushed(FlushOf(s, calls).pump)
    decreases |calls|
  {
    if s.inbuf <= 0 {
      EmptyCounter(s, max);
    } else {
      WriteKeeps(s, max, calls);
      var w := WriteOf(s, calls);
      if w.err.None? {
        FlushKeeps(w.pump, max, w.rest);
      }
    }
  }

  /** What the loop leaves behind. */
  ghost predicate AfterPump(max: int, p: WriteStep) {
    && Sound(p.pump, max) && (p.pump.log.readFails == 0 || p.pump.log.writeFails == 0)
    && (p.err.None? ==> NoHardError(p.pump) && p.pump.toread == 0)
    && (p.pump.log.eof && max >= 0 <==> p.err.UnexpectedEof?)
  }

  lemma {:induction false} PumpKeeps(s: Pump, max: int, rounds: seq<Round>, writes: seq<WriteCall>)
    requires AtHead(s, max)
    ensures AfterPump(max, PumpOf(s, rounds, writes))
    decreases |rounds|
  {
    if s.toread != 0 && rounds != [] {
      ReadKeeps(s, max, rounds[0]);
      var r := ReadOf(s, rounds[0]);
      if r.err.None? {
        WriteKeeps(r.pump, max, writes);
        var w := WriteOf(r.pump, writes);
        if w.err.None? {
          PumpKeeps(w.pump, max, rounds[1..], w.rest);
        }
      }
    }
  }

  /**
   * Like a plain copy loop `splice` delivers a prefix of what it took, in order. After a successful
   * flush that is everything if and only if the source did not fail on a pipe that held bytes, and all
   * but one byte otherwise. It succeeds only at the end of the source, or at its limit; with a limit it
   * reports an unexpected end of file exactly when the source ends before it.
   */
  lemma SpliceSound(amt: int, rounds: seq<Round>, writes: seq<WriteCall>)
    ensures var r := SpliceOf(amt, rounds, writes); var s := r.pump;
            && s.delivered <= s.taken && (amt >= 0 ==> |s.taken| <= amt)
            && (NoHardError(s) ==> s.inbuf == |s.content| && s.written == |s.delivered|)
            && (r.flushed ==> (s.delivered == s.taken <==> s.log.readFails == 0 || s.log.emptyAtFail))
            && (r.flushed && s.delivered != s.taken ==> |s.content| == 1)
            && (r.flushed ==> s.log.writeFails == 0)
            && (s.log.eof && amt >= 0 <==> r.err.UnexpectedEof?)
            && (r.err.None? ==> NoHardError(s) && r.flushed && s.delivered == s.taken && s.written == |s.taken|)
            && (r.err.None? ==> if amt < 0 then s.log.eof else |s.taken| == amt)
  {
    PumpKeeps(Start(amt), amt, rounds, writes);
    var p := PumpOf(Start(amt), rounds, writes);
    FlushKeeps(p.pump, amt, p.rest);
  }
}
