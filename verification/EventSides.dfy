/**
 * The event-driven splice proxy on values: two connections, each with a pipe of its own, and what one
 * epoll event makes of them. The kernel answers from scripts and never moves more than requested.
 */
module EventSides {
  import opened Bytes
  import opened SpliceModel

  /** One connection; `left` is what its pipe held when it was removed. */
  datatype Side = Side(
    open: bool, canRead: bool, canWrite: bool, pipe: seq<Byte>, taken: seq<Byte>, given: seq<Byte>, left: seq<Byte>)

  const NEW := Side(true, false, false, [], [], [], [])

  /** One epoll event: which of the two connections, its bits, and the kernel's answers to its calls. */
  datatype Event = Event(first: bool, hangup: bool, readable: bool, writable: bool,
                         moveIn: seq<ReadCall>, otherOut: seq<WriteCall>,
                         moveOut: seq<WriteCall>, otherIn: seq<ReadCall>)

  // ---------------------------------------------------------------- filling and draining

  /** The bytes a fill takes from the socket when the pipe already holds `inBuf` bytes. */
  function Filled(inBuf: int, calls: seq<ReadCall>): (r: seq<Byte>)
    ensures inBuf <= PIPE_BUF ==> inBuf + |r| <= PIPE_BUF
    decreases |calls|
  {
    if calls == [] || inBuf >= PIPE_BUF || !calls[0].Got? || calls[0].data == [] then []
    else
      var n := Min(|calls[0].data|, PIPE_BUF - inBuf);
      calls[0].data[..n] + Filled(inBuf + n, calls[1..])
  }

  /** A fill asks for removal when it meets an error or the end of the stream before the pipe is full. */
  predicate FillFails(inBuf: int, calls: seq<ReadCall>)
    decreases |calls|
  {
    if calls == [] || inBuf >= PIPE_BUF || calls[0].ReadAgain? then false
    else if calls[0].ReadFail? || calls[0].data == [] then true
    else FillFails(inBuf + Min(|calls[0].data|, PIPE_BUF - inBuf), calls[1..])
  }

  /** How many bytes a drain moves when the pipe holds `inBuf` bytes. */
  function Drained(inBuf: int, calls: seq<WriteCall>): (n: nat)
    ensures inBuf >= 0 ==> n <= inBuf
    decreases |calls|
  {
    if calls == [] || inBuf <= 0 || !calls[0].Sent? || calls[0].n == 0 then 0
    else
      var n := Min(calls[0].n, inBuf);
      n + Drained(inBuf - n, calls[1..])
  }

  predicate DrainFails(inBuf: int, calls: seq<WriteCall>)
    decreases |calls|
  {
    if calls == [] || inBuf <= 0 || calls[0].WriteAgain? then false
    else if calls[0].WriteFail? then true
    else if calls[0].n == 0 then false
    else DrainFails(inBuf - Min(calls[0].n, inBuf), calls[1..])
  }

  /** A fill goes on after a call that brings bytes. */
  lemma FillGoesOn(inBuf: int, calls: seq<ReadCall>)
    requires calls != [] && inBuf < PIPE_BUF && calls[0].Got? && calls[0].data != []
    ensures var n := Min(|calls[0].data|, PIPE_BUF - inBuf);
            && Filled(inBuf, calls) == calls[0].data[..n] + Filled(inBuf + n, calls[1..])
            && FillFails(inBuf, calls) == FillFails(inBuf + n, calls[1..])
  {
  }

  lemma DrainGoesOn(inBuf: int, calls: seq<WriteCall>)
    requires calls != [] && inBuf > 0 && calls[0].Sent? && calls[0].n != 0
    ensures var n := Min(calls[0].n, inBuf);
            && Drained(inBuf, calls) == n + Drained(inBuf - n, calls[1..])
            && DrainFails(inBuf, calls) == DrainFails(inBuf - n, calls[1..])
  {
  }

  /** The first `k` calls brought bytes and then there were none to be had. */
  ghost predicate DryAfter(calls: seq<ReadCall>, k: nat) {
    && k <= |calls| && (forall j | 0 <= j < k :: calls[j].Got? && calls[j].data != [])
    && (k == |calls| || calls[k].ReadAgain?)
  }

  /** A fill that does not ask for removal has filled the pipe or exhausted the socket. */
  lemma {:induction false} FillEnds(inBuf: int, calls: seq<ReadCall>)
    requires inBuf <= PIPE_BUF && !FillFails(inBuf, calls)
    ensures inBuf + |Filled(inBuf, calls)| == PIPE_BUF || exists k: nat :: DryAfter(calls, k)
    decreases |calls|
  {
    if inBuf < PIPE_BUF {
      if calls == [] || calls[0].ReadAgain? {
        assert DryAfter(calls, 0);
      } else {
        FillGoesOn(inBuf, calls);
        FillEnds(inBuf + Min(|calls[0].data|, PIPE_BUF - inBuf), calls[1..]);
        if k: nat :| DryAfter(calls[1..], k) {
          assert DryAfter(calls, k + 1);
        }
      }
    }
  }

  /** The first `k` calls moved bytes and then the socket took no more. */
  ghost predicate StuckAfter(calls: seq<WriteCall>, k: nat) {
    && k <= |calls| && (forall j | 0 <= j < k :: calls[j].Sent? && calls[j].n != 0)
    && (k == |calls| || calls[k].WriteAgain? || calls[k] == Sent(0))
  }

  /** A drain that does not ask for removal has emptied the pipe or filled the socket. */
  lemma {:induction false} DrainEnds(inBuf: int, calls: seq<WriteCall>)
    requires inBuf >= 0 && !DrainFails(inBuf, calls)
    ensures Drained(inBuf, calls) == inBuf || exists k: nat :: StuckAfter(calls, k)
    decreases |calls|
  {
    if inBuf > 0 {
      if calls == [] || calls[0].WriteAgain? || calls[0] == Sent(0) {
        assert StuckAfter(calls, 0);
      } else {
        DrainGoesOn(inBuf, calls);
        DrainEnds(inBuf - Min(calls[0].n, inBuf), calls[1..]);
        if k: nat :| StuckAfter(calls[1..], k) {
          assert StuckAfter(calls, k + 1);
        }
      }
    }
  }

  datatype Fill = Fill(side: Side, ok: bool)

  function Swallow(x: Side, data: seq<Byte>): (r: Side) {
    var got := if |x.pipe| < PIPE_BUF then data[..Min(|data|, PIPE_BUF - |x.pipe|)] else [];
    x.(pipe := x.pipe + got, taken := x.taken + got, canRead := false)
  }

  /** The loop of `MoveIn`, answer by answer. */
  function FillLoop(x: Side, calls: seq<ReadCall>): (r: Fill)
    decreases |calls|
  {
    if |x.pipe| >= PIPE_BUF || calls == [] || calls[0].ReadAgain? then Fill(x, true)
    else if calls[0].ReadFail? || calls[0].data == [] then Fill(x, false)
    else FillLoop(Swallow(x, calls[0].data), calls[1..])
  }

  /** `MoveIn`; on a closed descriptor the first call fails. */
  function FillSide(x: Side, calls: seq<ReadCall>): (r: Fill) {
    FillLoop(x.(canRead := true), if x.open then calls else [ReadFail])
  }

  datatype Drain = Drain(to: Side, from: Side, ok: bool)

  /** The loop of `MoveOut` of `x`, which drains the pipe of `y`. */
  function DrainLoop(x: Side, y: Side, calls: seq<WriteCall>): (r: Drain)
    decreases |calls|
  {
    if y.pipe == [] || calls == [] || calls[0].WriteAgain? then Drain(x, y, true)
    else if calls[0].WriteFail? then Drain(x, y, false)
    else if calls[0].n == 0 then Drain(x, y, true)
    else
      var n := Min(calls[0].n, |y.pipe|);
      DrainLoop(x.(given := x.given + y.pipe[..n], canWrite := false), y.(pipe := y.pipe[n..]), calls[1..])
  }

  function DrainSides(x: Side, y: Side, calls: seq<WriteCall>): (r: Drain) {
    DrainLoop(x.(canWrite := true), y, if x.open && y.open then calls else [WriteFail])
  }

  // ---------------------------------------------------------------- what a fill and a drain amount to

  /** `x` with `got` behind what it has taken. */
  function AfterFill(x: Side, got: seq<Byte>): (r: Side) {
    x.(pipe := x.pipe + got, taken := x.taken + got, canRead := x.canRead && got == [])
  }

  lemma FillTwice(x: Side, some: seq<Byte>, more: seq<Byte>)
    ensures AfterFill(AfterFill(x, some), more) == AfterFill(x, some + more)
  {
    assert x.pipe + some + more == x.pipe + (some + more) && x.taken + some + more == x.taken + (some + more);
  }

  lemma {:induction false} FillLoopIs(x: Side, calls: seq<ReadCall>)
    requires |x.pipe| <= PIPE_BUF
    ensures FillLoop(x, calls) == Fill(AfterFill(x, Filled(|x.pipe|, calls)), !FillFails(|x.pipe|, calls))
    decreases |calls|
  {
    if |x.pipe| < PIPE_BUF && calls != [] && calls[0].Got? && calls[0].data != [] {
      var some := calls[0].data[..Min(|calls[0].data|, PIPE_BUF - |x.pipe|)];
      var y := AfterFill(x, some);
      assert Swallow(x, calls[0].data) == y;
      FillGoesOn(|x.pipe|, calls);
      FillLoopIs(y, calls[1..]);
      FillTwice(x, some, Filled(|y.pipe|, calls[1..]));
    } else {
      assert AfterFill(x, []) == x;
    }
  }

  /** `MoveIn` on an open connection takes what the answers bring; on a closed one it takes nothing. */
  lemma FillMeans(x: Side, calls: seq<ReadCall>)
    requires |x.pipe| <= PIPE_BUF
    ensures var f, got := FillSide(x, calls), if x.open then Filled(|x.pipe|, calls) else [];
            && f.side == x.(pipe := x.pipe + got, taken := x.taken + got, canRead := got == [])
            && f.ok == (if x.open then !FillFails(|x.pipe|, calls) else |x.pipe| == PIPE_BUF)
  {
    FillLoopIs(x.(canRead := true), if x.open then calls else [ReadFail]);
  }

  /** `x` and `y` after `n` bytes of the pipe of `y` went to `x`. */
  function AfterDrain(x: Side, y: Side, n: nat, ok: bool): (r: Drain)
    requires n <= |y.pipe|
  {
    Drain(x.(given := x.given + y.pipe[..n], canWrite := x.canWrite && n == 0), y.(pipe := y.pipe[n..]), ok)
  }

  lemma DrainTwice(x: Side, y: Side, n: nat, m: nat, ok: bool)
    requires n + m <= |y.pipe|
    ensures var d := AfterDrain(x, y, n, ok); AfterDrain(d.to, d.from, m, ok) == AfterDrain(x, y, n + m, ok)
  {
    assert x.given + y.pipe[..n] + y.pipe[n..][..m] == x.given + y.pipe[..n + m];
    assert y.pipe[n..][m..] == y.pipe[n + m..];
  }

  predicate MovesBytes(y: Side, calls: seq<WriteCall>) {
    y.pipe != [] && calls != [] && calls[0].Sent? && calls[0].n != 0
  }

  lemma {:induction false} DrainStep(x: Side, y: Side, calls: seq<WriteCall>, ok: bool)
    requires MovesBytes(y, calls)
    ensures var d := AfterDrain(x, y, Min(calls[0].n, |y.pipe|), ok);
            DrainLoop(x, y, calls) == DrainLoop(d.to, d.from, calls[1..])
  {
  }

  lemma {:induction false} DrainStops(x: Side, y: Side, calls: seq<WriteCall>)
    requires !MovesBytes(y, calls)
    ensures DrainLoop(x, y, calls) == Drain(x, y, !DrainFails(|y.pipe|, calls)) && Drained(|y.pipe|, calls) == 0
  {
  }

  lemma DrainNothing(x: Side, y: Side, ok: bool)
    ensures AfterDrain(x, y, 0, ok) == Drain(x, y, ok)
  {
    assert x.given + y.pipe[..0] == x.given && y.pipe[0..] == y.pipe;
  }

  lemma {:induction false} DrainLoopIs(x: Side, y: Side, calls: seq<WriteCall>)
    ensures DrainLoop(x, y, calls) == AfterDrain(x, y, Drained(|y.pipe|, calls), !DrainFails(|y.pipe|, calls))
    decreases |calls|
  {
    var ok := !DrainFails(|y.pipe|, calls);
    if MovesBytes(y, calls) {
      var n, rest := Min(calls[0].n, |y.pipe|), calls[1..];
      var d := AfterDrain(x, y, n, ok);
      var k := Drained(|d.from.pipe|, rest);
      assert |d.from.pipe| == |y.pipe| - n;
      DrainGoesOn(|y.pipe|, calls);
      DrainTwice(x, y, n, k, ok);
      assert DrainLoop(x, y, calls) == AfterDrain(d.to, d.from, k, ok) by {
        DrainStep(x, y, calls, ok);
        DrainLoopIs(d.to, d.from, rest);
      }
    } else {
      DrainStops(x, y, calls);
      DrainNothing(x, y, ok);
    }
  }

  /** `MoveOut` moves what the answers allow if both ends are open, and nothing otherwise. */
  lemma DrainMeans(x: Side, y: Side, calls: seq<WriteCall>)
    ensures var d, n := DrainSides(x, y, calls), if x.open && y.open then Drained(|y.pipe|, calls) else 0;
            && d.to == x.(given := x.given + y.pipe[..n], canWrite := n == 0) && d.from == y.(pipe := y.pipe[n..])
            && d.ok == (if x.open && y.open then !DrainFails(|y.pipe|, calls) else y.pipe == [])
  {
    DrainLoopIs(x.(canWrite := true), y, if x.open && y.open then calls else [WriteFail]);
  }

  // ---------------------------------------------------------------- removal

  /** `delConn`: a connection is closed with its pipe; the second time nothing happens. */
  function Removed(x: Side): (r: Side) {
    if x.open then x.(open := false, left := x.pipe) else x
  }

  // ---------------------------------------------------------------- one event

  datatype Sides = Sides(c: Side, other: Side, kept: bool)

  function Readable(c: Side, o: Side, e: Event): (r: Sides) {
    var f := FillSide(c, e.moveIn);
    if !f.ok then Sides(Removed(f.side), o, false)
    else if !o.canWrite then Sides(f.side, o, true)
    else
      var d := DrainSides(o, f.side, e.otherOut);
      Sides(d.from, if d.ok then d.to else Removed(d.to), d.ok)
  }

  function Writable(c: Side, o: Side, e: Event): (r: Sides) {
    var d := DrainSides(c, o, e.moveOut);
    if !d.ok then Sides(Removed(d.to), d.from, false)
    else if !d.from.canRead then Sides(d.to, d.from, true)
    else
      var f := FillSide(d.from, e.otherIn);
      Sides(d.to, if f.ok then f.side else Removed(f.side), f.ok)
  }

  /** What an event for `c` makes of it and of its other end. */
  function Handle(c: Side, o: Side, e: Event): (r: Sides) {
    if !c.open then Sides(c, o, false)
    else if e.hangup then Sides(Removed(c), o, false)
    else
      var r1 := if e.readable then Readable(c, o, e) else Sides(c, o, true);
      if !r1.kept || !e.writable then r1 else Writable(r1.c, r1.other, e)
  }

  datatype Both = Both(a: Side, b: Side)

  function Dispatched(p: Both, e: Event): (r: Both) {
    if e.first then var s := Handle(p.a, p.b, e); Both(s.c, s.other)
    else var s := Handle(p.b, p.a, e); Both(s.other, s.c)
  }

  function AllDispatched(p: Both, events: seq<Event>): (r: Both)
    decreases |events|
  {
    if events == [] then p else AllDispatched(Dispatched(p, events[0]), events[1..])
  }

  // ---------------------------------------------------------------- what every event keeps

  /** The bytes read from `x` are those written to `y` followed by those in the pipe of `x`. */
  ghost predicate Forwards(x: Side, y: Side) {
    x.taken == y.given + x.pipe && |x.pipe| <= PIPE_BUF && (!x.open ==> x.pipe == x.left)
  }

  ghost predicate Lossless(p: Both) {
    Forwards(p.a, p.b) && Forwards(p.b, p.a)
  }

  /** `x` has only grown into `x'`, and not at all if it was closed. */
  ghost predicate Grows(x: Side, x': Side) {
    && x.taken <= x'.taken && x.given <= x'.given
    && (!x.open ==> !x'.open && x'.taken == x.taken && x'.given == x.given && x'.left == x.left)
  }

  lemma FillKeeps(x: Side, y: Side, calls: seq<ReadCall>)
    requires Forwards(x, y) && Forwards(y, x)
    ensures var f := FillSide(x, calls).side; Forwards(f, y) && Forwards(y, f) && Grows(x, f)
  {
    FillMeans(x, calls);
  }

  lemma DrainKeeps(x: Side, y: Side, calls: seq<WriteCall>)
    requires Forwards(x, y) && Forwards(y, x)
    ensures var d := DrainSides(x, y, calls);
            Forwards(d.to, d.from) && Forwards(d.from, d.to) && Grows(x, d.to) && Grows(y, d.from)
  {
    DrainMeans(x, y, calls);
    SplitOff(x.given, y.pipe, if x.open && y.open then Drained(|y.pipe|, calls) else 0);
  }

  lemma RemoveKeeps(x: Side, y: Side)
    requires Forwards(x, y) && Forwards(y, x)
    ensures var r := Removed(x); Forwards(r, y) && Forwards(y, r) && Grows(x, r) && !r.open
  {
  }

  ghost predicate HandledWell(c: Side, o: Side, r: Sides) {
    Forwards(r.c, r.other) && Forwards(r.other, r.c) && Grows(c, r.c) && Grows(o, r.other)
  }

  lemma ReadableKeeps(c: Side, o: Side, e: Event)
    requires Forwards(c, o) && Forwards(o, c)
    ensures HandledWell(c, o, Readable(c, o, e))
  {
    var f := FillSide(c, e.moveIn).side;
    FillKeeps(c, o, e.moveIn);
    RemoveKeeps(f, o);
    DrainKeeps(o, f, e.otherOut);
    var d := DrainSides(o, f, e.otherOut);
    RemoveKeeps(d.to, d.from);
  }

  lemma WritableKeeps(c: Side, o: Side, e: Event)
    requires Forwards(c, o) && Forwards(o, c)
    ensures HandledWell(c, o, Writable(c, o, e))
  {
    var d := DrainSides(c, o, e.moveOut);
    DrainKeeps(c, o, e.moveOut);
    RemoveKeeps(d.to, d.from);
    FillKeeps(d.from, d.to, e.otherIn);
    RemoveKeeps(FillSide(d.from, e.otherIn).side, d.to);
  }

  lemma HandleKeeps(c: Side, o: Side, e: Event)
    requires Forwards(c, o) && Forwards(o, c)
    ensures HandledWell(c, o, Handle(c, o, e))
  {
    RemoveKeeps(c, o);
    ReadableKeeps(c, o, e);
    var r1 := if e.readable then Readable(c, o, e) else Sides(c, o, true);
    WritableKeeps(r1.c, r1.other, e);
  }

  /** Any event keeps both directions lossless; a removed connection takes and gives nothing more. */
  lemma DispatchKeeps(p: Both, e: Event)
    requires Lossless(p)
    ensures var q := Dispatched(p, e); Lossless(q) && Grows(p.a, q.a) && Grows(p.b, q.b)
  {
    if e.first {
      HandleKeeps(p.a, p.b, e);
    } else {
      HandleKeeps(p.b, p.a, e);
    }
  }

  /**
   * Every event sequence: each side has received a prefix of what the other side sent, in order. What
   * is missing when the sender has been removed is exactly what its pipe held then, so everything was
   * delivered if and only if that pipe was empty.
   */
  lemma {:induction false} EventsKeep(p: Both, events: seq<Event>)
    requires Lossless(p)
    ensures var q := AllDispatched(p, events); Lossless(q) && Grows(p.a, q.a) && Grows(p.b, q.b)
    decreases |events|
  {
    if events != [] {
      DispatchKeeps(p, events[0]);
      EventsKeep(Dispatched(p, events[0]), events[1..]);
    }
  }

  lemma DeliveredExactly(p: Both)
    requires Lossless(p)
    ensures p.b.given <= p.a.taken && p.a.given <= p.b.taken
    ensures !p.a.open ==> p.a.taken == p.b.given + p.a.left && (p.b.given == p.a.taken <==> p.a.left == [])
    ensures !p.b.open ==> p.b.taken == p.a.given + p.b.left && (p.a.given == p.b.taken <==> p.b.left == [])
  {
  }

  // ---------------------------------------------------------------- what events deliver

  predicate OnlyReadable(e: Event) {
    !e.hangup && e.readable && !e.writable
  }

  predicate OnlyWritable(e: Event) {
    !e.hangup && !e.readable && e.writable
  }

  /** The pipe of `c` after a fill. */
  function Refilled(c: Side, calls: seq<ReadCall>): (pipe: seq<Byte>) {
    c.pipe + Filled(|c.pipe|, calls)
  }

  /** A readable event fills the pipe and, if the other side is known to be writable, drains it at once. */
  lemma ReadableDelivers(c: Side, o: Side, e: Event)
    requires c.open && o.open && OnlyReadable(e) && |c.pipe| <= PIPE_BUF && !FillFails(|c.pipe|, e.moveIn)
    ensures var r, full := Handle(c, o, e), Refilled(c, e.moveIn);
            && r.c.taken == c.taken + Filled(|c.pipe|, e.moveIn)
            && r.other.given == (if o.canWrite then o.given + full[..Drained(|full|, e.otherOut)] else o.given)
            && (r.c.canRead <==> Filled(|c.pipe|, e.moveIn) == [])
            && (r.other.canWrite <==> o.canWrite && Drained(|full|, e.otherOut) == 0)
  {
    FillMeans(c, e.moveIn);
    DrainMeans(o, FillSide(c, e.moveIn).side, e.otherOut);
  }

  /** A writable event drains the other side's pipe and, if that side is known to be readable, refills it at once. */
  lemma WritableDelivers(c: Side, o: Side, e: Event)
    requires c.open && o.open && OnlyWritable(e) && |o.pipe| <= PIPE_BUF
    ensures var r, n := Handle(c, o, e), Drained(|o.pipe|, e.moveOut);
            && r.c.given == c.given + o.pipe[..n] && (r.c.canWrite <==> n == 0)
            && r.other.taken == (if o.canRead && !DrainFails(|o.pipe|, e.moveOut)
                                 then o.taken + Filled(|o.pipe| - n, e.otherIn) else o.taken)
  {
    DrainMeans(c, o, e.moveOut);
    FillMeans(DrainSides(c, o, e.moveOut).from, e.otherIn);
  }

  /** Exactly which failures remove a connection. */
  lemma ReadableRemoves(c: Side, o: Side, e: Event)
    requires c.open && o.open && OnlyReadable(e) && |c.pipe| <= PIPE_BUF
    ensures var r, full := Handle(c, o, e), Refilled(c, e.moveIn);
            && (r.c.open <==> !FillFails(|c.pipe|, e.moveIn))
            && (r.other.open <==> FillFails(|c.pipe|, e.moveIn) || !o.canWrite || !DrainFails(|full|, e.otherOut))
  {
    FillMeans(c, e.moveIn);
    DrainMeans(o, FillSide(c, e.moveIn).side, e.otherOut);
  }

  lemma WritableRemoves(c: Side, o: Side, e: Event)
    requires c.open && o.open && OnlyWritable(e) && |o.pipe| <= PIPE_BUF
    ensures var r, n := Handle(c, o, e), Drained(|o.pipe|, e.moveOut);
            && (r.c.open <==> !DrainFails(|o.pipe|, e.moveOut))
            && (r.other.open <==> DrainFails(|o.pipe|, e.moveOut) || !o.canRead || !FillFails(|o.pipe| - n, e.otherIn))
  {
    DrainMeans(c, o, e.moveOut);
    FillMeans(DrainSides(c, o, e.moveOut).from, e.otherIn);
  }

  /** A hang-up removes the connection whatever else the event says. */
  lemma HangupRemoves(c: Side, o: Side, e: Event)
    requires e.hangup
    ensures Handle(c, o, e).other == o && Handle(c, o, e).c == Removed(c) && !Removed(c).open
  {
  }

  /** An event with both bits is its readable part and then, if nothing failed, its writable part. */
  lemma EventSplits(p: Both, e: Event)
    requires !e.hangup && e.readable && e.writable && p.a.open && p.b.open && Lossless(p)
    ensures var q := Dispatched(p, e.(writable := false));
            Dispatched(p, e) == if q.a.open && q.b.open then Dispatched(q, e.(readable := false)) else q
  {
    var c, o := if e.first then p.a else p.b, if e.first then p.b else p.a;
    FillMeans(c, e.moveIn);
    DrainMeans(o, FillSide(c, e.moveIn).side, e.otherOut);
  }

  function ReadableEvent(first: bool, data: seq<Byte>): (e: Event) {
    Event(first, false, true, false, [Got(data)], [], [], [])
  }

  function WritableEvent(first: bool, n: nat): (e: Event) {
    Event(first, false, false, true, [], [], [Sent(n)], [])
  }

  lemma OneFill(data: seq<Byte>)
    requires 1 <= |data| <= PIPE_BUF
    ensures Filled(0, [Got(data)]) == data && !FillFails(0, [Got(data)])
  {
    assert data[..|data|] == data;
    assert Filled(|data|, [Got(data)][1..]) == [];
  }

  lemma OneDrain(n: nat)
    requires 1 <= n <= PIPE_BUF
    ensures Drained(n, [Sent(n)]) == n && !DrainFails(n, [Sent(n)])
  {
    assert Drained(0, [Sent(n)][1..]) == 0;
  }

  /** A new pair after bytes have come in on the first side. */
  lemma AfterReadable(data: seq<Byte>)
    requires 1 <= |data| <= PIPE_BUF
    ensures var p := Dispatched(Both(NEW, NEW), ReadableEvent(true, data));
            p == Both(NEW.(pipe := data, taken := data), NEW)
  {
    OneFill(data);
    FillMeans(NEW, [Got(data)]);
    assert [] + data == data;
  }

  lemma AfterWritable(data: seq<Byte>)
    requires 1 <= |data| <= PIPE_BUF
    ensures var a := NEW.(pipe := data, taken := data);
            Dispatched(Both(a, NEW), WritableEvent(false, |data|)) == Both(a.(pipe := []), NEW.(given := data))
  {
    var a := NEW.(pipe := data, taken := data);
    OneDrain(|data|);
    DrainMeans(NEW, a, [Sent(|data|)]);
    assert [] + data[..|data|] == data && data[|data|..] == [];
  }

  lemma TwoEvents(p: Both, e1: Event, e2: Event)
    ensures AllDispatched(p, [e1, e2]) == Dispatched(Dispatched(p, e1), e2)
  {
    assert [e1, e2][1..] == [e2] && [e2][1..] == [];
    assert AllDispatched(Dispatched(p, e1), [e2]) == AllDispatched(Dispatched(Dispatched(p, e1), e2), []);
  }

  /** Bytes that come in on one side and a writable event on the other: everything is delivered. */
  lemma BytesAreDelivered(data: seq<Byte>)
    requires 1 <= |data| <= PIPE_BUF
    ensures var q := AllDispatched(Both(NEW, NEW), [ReadableEvent(true, data), WritableEvent(false, |data|)]);
            q.b.given == q.a.taken == data && q.a.pipe == [] && q.a.open && q.b.open
  {
    AfterReadable(data);
    AfterWritable(data);
    TwoEvents(Both(NEW, NEW), ReadableEvent(true, data), WritableEvent(false, |data|));
  }

  /**
   * A sender whose bytes arrive before the other side can be written to, and who then closes: the
   * hang-up removes it at once and every byte in its pipe is lost.
   */
  lemma LosesPipeOnHangup(data: seq<Byte>, hangup: Event)
    requires 1 <= |data| <= PIPE_BUF && hangup.first && hangup.hangup
    ensures var q := AllDispatched(Both(NEW, NEW), [ReadableEvent(true, data), hangup]);
            !q.a.open && q.a.taken == data && q.a.left == data && q.b.given == []
  {
    AfterReadable(data);
    TwoEvents(Both(NEW, NEW), ReadableEvent(true, data), hangup);
  }
}
