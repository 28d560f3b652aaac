/** What `splice` does when the kernel answers normally, and two runs in which it does not do what a copy loop does. */
module SpliceRuns {
  import opened Bytes
  import opened SpliceModel

  predicate AllSent(calls: seq<WriteCall>) {
    forall k | 0 <= k < |calls| :: calls[k].Sent?
  }

  /** Every round brings bytes. */
  predicate AllGot(rounds: seq<Round>) {
    forall k | 0 <= k < |rounds| :: rounds[k].first.Got? && rounds[k].first.data != []
  }

  // ---------------------------------------------------------------- waits and errors

  /** A wait that succeeds is as if the call had not been made; one that fails ends the step without a trace. */
  lemma {:induction false} WaitsLeaveNoTrace(s: Pump, call: ReadCall, other: ReadCall, calls: seq<WriteCall>)
    requires s.toread != 0 && s.inbuf != 0
    ensures ReadOf(s, Round(ReadAgain(false), call)) ==
            (if call.ReadAgain? then Step(s, None) else ReadOf(s, Round(call, other)))
    ensures ReadOf(s, Round(ReadAgain(true), call)) == Step(s, Poll)
    ensures WriteOf(s, [WriteAgain(false)] + calls) == WriteOf(s, calls)
    ensures WriteOf(s, [WriteAgain(true)] + calls) == WriteStep(s, Poll, calls)
  {
    assert ([WriteAgain(false)] + calls)[1..] == calls && ([WriteAgain(true)] + calls)[1..] == calls;
  }

  /** A hard errno is reported by the step that meets it, by the flush, and by `splice`. */
  lemma {:induction false} ErrnosAreReported(s: Pump, second: ReadCall, calls: seq<WriteCall>)
    requires s.toread != 0 && s.inbuf > 0
    ensures ReadOf(s, Round(ReadFail, second)).err.Errno? && WriteOf(s, [WriteFail] + calls).err.Errno?
    ensures FlushOf(s, [WriteFail] + calls).err.Errno?
  {
  }

  lemma {:induction false} SpliceReports(amt: int, rounds: seq<Round>, writes: seq<WriteCall>)
    ensures var p := PumpOf(Start(amt), rounds, writes); var f := FlushOf(p.pump, p.rest);
            var r := SpliceOf(amt, rounds, writes);
            && (p.err != None ==> r.err == p.err) && (p.err == None ==> r.err == f.err)
            && (r.flushed <==> f.err == None)
  {
  }

  // ---------------------------------------------------------------- what is taken

  /** How much is asked for with `toread` bytes to go, negative without a limit, and `inbuf` in the pipe. */
  function Room(toread: int, inbuf: int): (n: int) {
    if 0 < toread < PIPE_BUF - inbuf then toread else PIPE_BUF - inbuf
  }

  /**
   * The bytes the rounds bring, each cut to the limit and to the room in the pipe, when every round is
   * followed by a write that moves what its call answers.
   */
  function Accepted(toread: int, inbuf: int, rounds: seq<Round>, calls: seq<WriteCall>): (r: seq<Byte>)
    requires AllGot(rounds) && AllSent(calls) && |rounds| <= |calls|
    decreases |rounds|
  {
    if rounds == [] || toread == 0 || Room(toread, inbuf) < 1 then []
    else
      var n := Min(|rounds[0].first.data|, Room(toread, inbuf));
      var m := Amount(calls[0].n, inbuf + n);
      rounds[0].first.data[..n] + Accepted(toread - n, inbuf + n - m, rounds[1..], calls[1..])
  }

  /** One round: the bytes are taken and the write moves at least one of those in the pipe. */
  lemma {:induction false} OneRound(s: Pump, max: int, round: Round, call: WriteCall, rest: seq<WriteCall>)
    requires AtHead(s, max) && s.toread != 0 && round.first.Got? && round.first.data != [] && call.Sent?
    ensures var r := ReadOf(s, round); var w := WriteOf(r.pump, [call] + rest);
            var n := Min(|round.first.data|, Room(s.toread, s.inbuf));
            && r.err.None? && w.err.None? && w.rest == rest && n >= 1
            && w.pump.taken == s.taken + round.first.data[..n] && w.pump.toread == s.toread - n
            && w.pump.inbuf == s.inbuf + n - Amount(call.n, s.inbuf + n)
            && w.pump.log == s.log
  {
    NeverAsksForNothing(s, max);
    ReadKeeps(s, max, round);
    assert ([call] + rest)[1..] == rest;
  }

  lemma {:induction false} RoundKeepsHead(s: Pump, max: int, round: Round, call: WriteCall, rest: seq<WriteCall>)
    requires AtHead(s, max) && s.toread != 0 && round.first.Got? && round.first.data != [] && call.Sent?
    ensures AtHead(WriteOf(ReadOf(s, round).pump, [call] + rest).pump, max)
  {
    OneRound(s, max, round, call, rest);
    ReadKeeps(s, max, round);
    WriteKeeps(ReadOf(s, round).pump, max, [call] + rest);
  }

  /** The loop after one round. */
  lemma {:induction false} PumpRound(
    s: Pump, max: int, round: Round, tail: seq<Round>, call: WriteCall, rest: seq<WriteCall>)
    requires AtHead(s, max) && s.toread != 0 && round.first.Got? && round.first.data != [] && call.Sent?
    ensures PumpOf(s, [round] + tail, [call] + rest) ==
            PumpOf(WriteOf(ReadOf(s, round).pump, [call] + rest).pump, tail, rest)
  {
    OneRound(s, max, round, call, rest);
    assert ([round] + tail)[1..] == tail;
  }

  /** The rounds have brought `bytes` and nothing failed; `left` calls are left for the flush. */
  ghost predicate Pumped(s: Pump, max: int, bytes: seq<Byte>, left: int, p: WriteStep) {
    && p.pump.taken == s.taken + bytes
    && p.err == (if max < 0 || |p.pump.taken| == max then None else UnexpectedEof)
    && NoHardError(p.pump) && AllSent(p.rest) && |p.rest| >= left
  }

  lemma {:induction false} PumpedMore(
    s: Pump, w: Pump, max: int, some: seq<Byte>, more: seq<Byte>, left: int, p: WriteStep)
    requires w.taken == s.taken + some && Pumped(w, max, more, left, p)
    ensures Pumped(s, max, some + more, left, p)
  {
    assert s.taken + some + more == s.taken + (some + more);
  }

  ghost predicate Ready(s: Pump, max: int, rounds: seq<Round>, last: Round, calls: seq<WriteCall>) {
    && AtHead(s, max) && !s.log.eof && AllGot(rounds) && last.first == Got([])
    && AllSent(calls) && |calls| > |rounds|
  }

  function AfterRound(s: Pump, round: Round, calls: seq<WriteCall>): (w: Pump) {
    WriteOf(ReadOf(s, round).pump, calls).pump
  }

  lemma {:induction false} StillReady(s: Pump, max: int, rounds: seq<Round>, last: Round, calls: seq<WriteCall>)
    requires Ready(s, max, rounds, last, calls) && s.toread != 0 && rounds != []
    ensures Ready(AfterRound(s, rounds[0], calls), max, rounds[1..], last, calls[1..])
  {
    assert calls == [calls[0]] + calls[1..];
    OneRound(s, max, rounds[0], calls[0], calls[1..]);
    RoundKeepsHead(s, max, rounds[0], calls[0], calls[1..]);
  }

  /** `w` is `s` after a round that brought `n` bytes and a write that answered `call`. */
  ghost predicate RoundDone(s: Pump, data: seq<Byte>, call: WriteCall, w: Pump)
    requires call.Sent?
  {
    var n := Min(|data|, Room(s.toread, s.inbuf));
    && n >= 1 && w.taken == s.taken + data[..n] && w.toread == s.toread - n
    && w.inbuf == s.inbuf + n - Amount(call.n, s.inbuf + n)
  }

  lemma {:induction false} RoundFacts(s: Pump, max: int, rounds: seq<Round>, last: Round, calls: seq<WriteCall>)
    requires Ready(s, max, rounds, last, calls) && s.toread != 0 && rounds != []
    ensures var w := AfterRound(s, rounds[0], calls);
            && RoundDone(s, rounds[0].first.data, calls[0], w)
            && PumpOf(s, rounds + [last], calls) == PumpOf(w, rounds[1..] + [last], calls[1..])
  {
    var round, call, tail, rest := rounds[0], calls[0], rounds[1..], calls[1..];
    assert rounds + [last] == [round] + (tail + [last]) && calls == [call] + rest;
    OneRound(s, max, round, call, rest);
    PumpRound(s, max, round, tail + [last], call, rest);
  }

  /** What is pumped after the first round is behind what the first round brought. */
  lemma {:induction false} TakesMore(
    s: Pump, max: int, rounds: seq<Round>, calls: seq<WriteCall>, w: Pump, left: int, p: WriteStep)
    requires AllGot(rounds) && AllSent(calls) && |rounds| <= |calls| && rounds != [] && s.toread != 0
    requires RoundDone(s, rounds[0].first.data, calls[0], w)
    requires Pumped(w, max, Accepted(w.toread, w.inbuf, rounds[1..], calls[1..]), left, p)
    ensures Pumped(s, max, Accepted(s.toread, s.inbuf, rounds, calls), left, p)
  {
    var data := rounds[0].first.data;
    PumpedMore(s, w, max, data[..Min(|data|, Room(s.toread, s.inbuf))],
               Accepted(w.toread, w.inbuf, rounds[1..], calls[1..]), left, p);
  }

  /** The loop on rounds that bring bytes and a last one that ends the source. */
  lemma {:induction false} PumpTakes(s: Pump, max: int, rounds: seq<Round>, last: Round, calls: seq<WriteCall>)
    requires Ready(s, max, rounds, last, calls)
    ensures Pumped(s, max, Accepted(s.toread, s.inbuf, rounds, calls), |calls| - |rounds| - 1,
                   PumpOf(s, rounds + [last], calls))
    decreases |rounds|
  {
    if s.toread == 0 {
      assert PumpOf(s, rounds + [last], calls) == WriteStep(s, None, calls);
    } else if rounds == [] {
      assert rounds + [last] == [last];
      LastRound(s, max, last, calls);
    } else {
      var w := AfterRound(s, rounds[0], calls);
      StillReady(s, max, rounds, last, calls);
      RoundFacts(s, max, rounds, last, calls);
      PumpTakes(w, max, rounds[1..], last, calls[1..]);
      TakesMore(s, max, rounds, calls, w, |calls| - |rounds| - 1, PumpOf(w, rounds[1..] + [last], calls[1..]));
    }
  }

  lemma {:induction false} LastRound(s: Pump, max: int, last: Round, calls: seq<WriteCall>)
    requires AtHead(s, max) && s.toread != 0 && last.first == Got([]) && AllSent(calls) && calls != []
    ensures Pumped(s, max, [], |calls| - 1, PumpOf(s, [last], calls))
  {
    NeverAsksForNothing(s, max);
    assert [last][1..] == [];
  }

  /** With as many successful calls as there are bytes a flush succeeds. */
  lemma {:induction false} FlushSucceeds(s: Pump, max: int, calls: seq<WriteCall>)
    requires Sound(s, max) && s.log.writeFails == 0 && AllSent(calls) && |calls| >= s.inbuf
    ensures FlushOf(s, calls).err.None?
    decreases |calls|
  {
    if s.inbuf > 0 {
      WriteKeeps(s, max, calls);
      var w := WriteOf(s, calls);
      assert w.rest == calls[1..];
      FlushSucceeds(w.pump, max, w.rest);
    }
  }

  /**
   * A source that sends and then ends, and a destination whose calls succeed, often enough to empty the
   * pipe: everything the calls accept is delivered, in order. Without a limit, or at it, the result is
   * success; a source that ends before the limit is reported as an unexpected end of file.
   */
  lemma {:induction false} SpliceDelivers(amt: int, rounds: seq<Round>, last: Round, writes: seq<WriteCall>)
    requires AllGot(rounds) && last.first == Got([]) && AllSent(writes) && |writes| > |rounds| + PIPE_BUF
    ensures var r := SpliceOf(amt, rounds + [last], writes);
            && r.pump.delivered == r.pump.taken == Accepted(amt, 0, rounds, writes)
            && r.flushed && r.pump.written == |r.pump.taken|
            && r.err == (if amt < 0 || |r.pump.taken| == amt then None else UnexpectedEof)
  {
    var all := rounds + [last];
    PumpTakes(Start(amt), amt, rounds, last, writes);
    PumpKeeps(Start(amt), amt, all, writes);
    PipeBounded(Start(amt), amt, all, writes);
    FlushedAway(PumpOf(Start(amt), all, writes), amt);
  }

  /** After the loop a flush with enough calls delivers everything. */
  lemma {:induction false} FlushedAway(p: WriteStep, max: int)
    requires Sound(p.pump, max) && NoHardError(p.pump) && AllSent(p.rest) && |p.rest| >= PIPE_BUF >= p.pump.inbuf
    ensures var f := FlushOf(p.pump, p.rest);
            && f.err.None? && f.pump.taken == p.pump.taken == f.pump.delivered && f.pump.written == |f.pump.taken|
  {
    FlushSucceeds(p.pump, max, p.rest);
    FlushKeeps(p.pump, max, p.rest);
  }

  lemma {:induction false} PipeBounded(s: Pump, max: int, rounds: seq<Round>, writes: seq<WriteCall>)
    requires AtHead(s, max)
    ensures PumpOf(s, rounds, writes).err.None? || PumpOf(s, rounds, writes).err.UnexpectedEof? ==>
              PumpOf(s, rounds, writes).pump.inbuf <= PIPE_BUF
    decreases |rounds|
  {
    if s.toread != 0 && rounds != [] {
      ReadKeeps(s, max, rounds[0]);
      var r := ReadOf(s, rounds[0]);
      if r.err.None? {
        WriteKeeps(r.pump, max, writes);
        var w := WriteOf(r.pump, writes);
        if w.err.None? {
          PipeBounded(w.pump, max, rounds[1..], w.rest);
        }
      }
    }
  }

  // ---------------------------------------------------------------- two runs

  /** A client that sends less than the limit and is done: all is delivered, and still an error is reported. */
  lemma {:induction false} CleanEndIsUnexpected(data: seq<Byte>, limit: int, second: ReadCall, writes: seq<WriteCall>)
    requires 1 <= |data| <= PIPE_BUF && |data| < limit && AllSent(writes) && |writes| > 1 + PIPE_BUF
    ensures var r := SpliceOf(limit, [Round(Got(data), second), Round(Got([]), second)], writes);
            r.err.UnexpectedEof? && r.flushed && r.pump.delivered == data
  {
    var rounds, last := [Round(Got(data), second)], Round(Got([]), second);
    SpliceDelivers(limit, rounds, last, writes);
    assert rounds + [last] == [Round(Got(data), second), Round(Got([]), second)];
    assert data[..|data|] == data && rounds[1..] == [];
    assert Accepted(limit, 0, rounds, writes) == data;
  }

  /** A source that sends and then fails while the pipe holds bytes: the flush succeeds and the last byte is lost. */
  lemma {:induction false} LosesLastByte(data: seq<Byte>, part: nat, second: ReadCall, calls: seq<WriteCall>)
    requires 1 <= part < |data| <= PIPE_BUF && AllSent(calls) && |calls| >= |data|
    ensures var r := SpliceOf(-1, [Round(Got(data), second), Round(ReadFail, second)], [Sent(part)] + calls);
            r.err.Errno? && r.flushed && r.pump.taken == data && r.pump.delivered == data[..|data| - 1]
  {
    var s, r1, r2, writes := Start(-1), Round(Got(data), second), Round(ReadFail, second), [Sent(part)] + calls;
    assert data[..|data|] == data && writes[1..] == calls && [r1, r2][1..] == [r2];
    OneRound(s, -1, r1, Sent(part), calls);
    RoundKeepsHead(s, -1, r1, Sent(part), calls);
    var w := WriteOf(ReadOf(s, r1).pump, writes);
    var p := PumpOf(s, [r1, r2], writes);
    assert p == PumpOf(w.pump, [r2], calls);
    assert p.err.Errno? && p.pump.taken == data && p.rest == calls;
    assert p.pump.log.readFails == 1 && !p.pump.log.emptyAtFail;
    PumpKeeps(s, -1, [r1, r2], writes);
    FlushSucceeds(p.pump, -1, calls);
    FlushKeeps(p.pump, -1, calls);
    var f := FlushOf(p.pump, calls).pump;
    assert f.taken == data && |f.content| == 1 && f.delivered == data[..|data| - 1];
  }
}
