/** The event-driven splice proxy with its connections updated in place, proved against the value-level sides. */
module EventProxy {
  import opened Bytes
  import opened SpliceModel
  import opened EventSides

  class Conn {
    var open: bool               // registered in the proxy's map, descriptors not yet closed
    var inBuf: int
    var canRead: bool
    var canWrite: bool
    var other: Conn?
    var pipe: seq<Byte>          // what this connection's kernel pipe holds
    ghost var taken: seq<Byte>   // every byte read from this socket
    ghost var given: seq<Byte>   // every byte written to this socket
    ghost var left: seq<Byte>    // what the pipe held when the connection was removed

    ghost predicate Valid()
      reads this
    {
      inBuf == |pipe| <= PIPE_BUF
    }

    ghost function Abs(): (x: Side)
      reads this
    {
      Side(open, canRead, canWrite, pipe, taken, given, left)
    }

    constructor ()
      ensures Valid() && Abs() == NEW && other == null
    {
      open, inBuf, canRead, canWrite, other := true, 0, false, false, null;
      pipe, taken, given, left := [], [], [], [];
    }

    /** One splice from the socket that brings bytes. */
    method Absorb(data: seq<Byte>)
      requires Valid() && inBuf < PIPE_BUF && data != []
      modifies this`inBuf, this`canRead, this`pipe, this`taken
      ensures Valid() && Abs() == Swallow(old(Abs()), data) && inBuf > old(inBuf)
    {
      var n := Min(|data|, PIPE_BUF - inBuf);
      pipe, taken := pipe + data[..n], taken + data[..n];
      inBuf := inBuf + n;
      canRead := false;
    }

    /** Fills the pipe until it is full or the socket has no more; false asks for removal. */
    method MoveIn(calls: seq<ReadCall>) returns (ok: bool)
      requires Valid()
      modifies this`inBuf, this`canRead, this`pipe, this`taken
      ensures Valid() && Fill(Abs(), ok) == FillSide(old(Abs()), calls)
    {
      canRead := true;
      // a closed descriptor fails; a script that has ended answers EAGAIN
      var rest := if open then calls else [ReadFail];
      while inBuf < PIPE_BUF
        invariant Valid() && FillLoop(Abs(), rest) == FillSide(old(Abs()), calls)
        decreases PIPE_BUF - inBuf
      {
        if rest == [] || rest[0].ReadAgain? {
          break;
        }
        if rest[0].ReadFail? || rest[0].data == [] {
          return false;
        }
        Absorb(rest[0].data);
        rest := rest[1..];
      }
      ok := true;
    }

    /** Drains the other connection's pipe into this socket; false asks for removal. */
    method MoveOut(calls: seq<WriteCall>) returns (ok: bool)
      requires other != null && other != this && Valid() && other.Valid()
      modifies this`canWrite, this`given, other`inBuf, other`pipe
      ensures Valid() && other.Valid()
      ensures Drain(Abs(), other.Abs(), ok) == DrainSides(old(Abs()), old(other.Abs()), calls)
    {
      canWrite := true;
      var rest := if open && other.open then calls else [WriteFail];
      while other.inBuf > 0
        invariant Valid() && other.Valid()
        invariant DrainLoop(Abs(), other.Abs(), rest) == DrainSides(old(Abs()), old(other.Abs()), calls)
        decreases other.inBuf
      {
        if rest == [] || rest[0].WriteAgain? || rest[0] == Sent(0) {
          break;
        }
        if rest[0].WriteFail? {
          return false;
        }
        var n := Min(rest[0].n, other.inBuf);
        given := given + other.pipe[..n];
        other.pipe := other.pipe[n..];
        other.inBuf := other.inBuf - n;
        canWrite := false;
        rest := rest[1..];
      }
      ok := true;
    }

    /** `delConn`: closes a registered connection with its pipe, and does nothing the second time. */
    method Remove()
      requires Valid()
      modifies this`open, this`left
      ensures Valid() && Abs() == Removed(old(Abs()))
    {
      if open {
        open := false;
        left := pipe;
      }
    }
  }

  /** A pair for which `Transfer` succeeded. */
  class Pair {
    const a: Conn
    const b: Conn

    ghost predicate Valid()
      reads this, a, b
    {
      a != b && a.other == b && b.other == a && a.Valid() && b.Valid()
    }

    ghost function Abs(): (p: Both)
      reads this, a, b
    {
      Both(a.Abs(), b.Abs())
    }

    constructor ()
      ensures Valid() && Abs() == Both(NEW, NEW) && fresh(a) && fresh(b)
    {
      var x := new Conn();
      var y := new Conn();
      a, b := x, y;
      new;
      a.other, b.other := b, a;
    }

    method OnReadable(c: Conn, e: Event) returns (kept: bool)
      requires Valid() && (c == a || c == b)
      modifies a, b
      ensures Valid()
      ensures Sides(c.Abs(), c.other.Abs(), kept) == Readable(old(c.Abs()), old(c.other.Abs()), e)
    {
      var o := c.other;
      var ok := c.MoveIn(e.moveIn);
      if !ok {
        c.Remove();
        return false;
      }
      if o.canWrite {
        ok := o.MoveOut(e.otherOut);
        if !ok {
          o.Remove();
          return false;
        }
      }
      kept := true;
    }

    method OnWritable(c: Conn, e: Event) returns (kept: bool)
      requires Valid() && (c == a || c == b)
      modifies a, b
      ensures Valid()
      ensures Sides(c.Abs(), c.other.Abs(), kept) == Writable(old(c.Abs()), old(c.other.Abs()), e)
    {
      var o := c.other;
      var ok := c.MoveOut(e.moveOut);
      if !ok {
        c.Remove();
        return false;
      }
      if o.canRead {
        ok := o.MoveIn(e.otherIn);
        if !ok {
          o.Remove();
          return false;
        }
      }
      kept := true;
    }

    /** The body of the event loop for one event. */
    method Dispatch(e: Event)
      requires Valid()
      modifies a, b
      ensures Valid() && Abs() == Dispatched(old(Abs()), e)
    {
      var c := if e.first then a else b;
      if !c.open {
        return; // no longer in the map
      }
      if e.hangup {
        c.Remove();
        return;
      }
      if e.readable {
        var kept := OnReadable(c, e);
        if !kept {
          return;
        }
      }
      if e.writable {
        var _ := OnWritable(c, e);
      }
    }

    method EventLoop(events: seq<Event>)
      requires Valid()
      modifies a, b
      ensures Valid() && Abs() == AllDispatched(old(Abs()), events)
    {
      var k := 0;
      while k < |events|
        invariant 0 <= k <= |events| && Valid()
        invariant AllDispatched(Abs(), events[k..]) == AllDispatched(old(Abs()), events)
      {
        assert events[k..][1..] == events[k + 1..];
        Dispatch(events[k]);
        k := k + 1;
      }
    }
  }
}
