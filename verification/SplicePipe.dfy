/** `splicePipe` with its fields updated in place, proved step by step against the value-level pump. */
module SplicePipe {
  import opened Bytes
  import opened SpliceModel

  class Pipe {
    var toread: int
    var written: int
    var inbuf: int
    var content: seq<Byte>         // what the kernel pipe holds
    ghost var taken: seq<Byte>     // every byte spliced from the source
    ghost var delivered: seq<Byte> // every byte spliced into the destination
    ghost var log: Log

    ghost function Abs(): (s: Pump)
      reads this
    {
      Pump(toread, written, inbuf, taken, content, delivered, log)
    }

    constructor (amt: int)
      ensures Abs() == Start(amt)
    {
      toread, written, inbuf := amt, 0, 0;
      taken, content, delivered, log := [], [], [], Log(false, 0, 0, false);
    }

    /** A socket-to-pipe call that did not answer EAGAIN. */
    method Absorb(call: ReadCall, amt: int) returns (err: Error)
      requires !call.ReadAgain?
      modifies this
      ensures Step(Abs(), err) == TakeIn(old(Abs()), call, amt)
    {
      if call.ReadFail? {
        log := log.(readFails := log.readFails + 1, emptyAtFail := content == []);
        inbuf := inbuf - 1;
        toread := toread + 1;
        return Errno;
      }
      if amt < 1 || call.data == [] {
        log := log.(eof := true);
        if toread < 0 {
          toread := 0;
          return None;
        }
        return UnexpectedEof;
      }
      var got := call.data[..Min(|call.data|, amt)];
      taken, content := taken + got, content + got;
      inbuf := inbuf + |got|;
      toread := toread - |got|;
      err := None;
    }

    /** `readFrom`: at most two calls, the second after a wait. */
    method ReadFrom(round: Round) returns (err: Error)
      modifies this
      ensures Step(Abs(), err) == ReadOf(old(Abs()), round)
    {
      if toread == 0 {
        return None;
      }
      var amt := PIPE_BUF - inbuf;
      if toread > 0 && toread < amt {
        amt := toread;
      }
      var call := round.first;
      if call.ReadAgain? {
        if call.waitFails {
          return Poll;
        }
        call := round.second;
        if call.ReadAgain? {
          return None;
        }
      }
      err := Absorb(call, amt);
    }

    /** `writeTo`: repeats the call as long as it answers EAGAIN and the wait succeeds. */
    method WriteTo(calls: seq<WriteCall>) returns (err: Error, rest: seq<WriteCall>)
      modifies this
      ensures WriteStep(Abs(), err, rest) == WriteOf(old(Abs()), calls)
    {
      rest := calls;
      if inbuf == 0 {
        return None, rest;
      }
      while rest != [] && rest[0].WriteAgain?
        invariant Abs() == old(Abs()) && WriteOf(Abs(), rest) == WriteOf(Abs(), calls)
      {
        if rest[0].waitFails {
          return Poll, rest[1..];
        }
        rest := rest[1..];
      }
      if rest == [] {
        return Poll, rest; // the destination was closed while the goroutine waited
      }
      if rest[0].WriteFail? {
        log := log.(writeFails := log.writeFails + 1);
        inbuf := inbuf + 1;
        written := written - 1;
        return Errno, rest[1..];
      }
      var n := Amount(rest[0].n, Min(|content|, inbuf));
      delivered, content := delivered + content[..n], content[n..];
      inbuf := inbuf - n;
      written := written + n;
      return None, rest[1..];
    }

    /** `flush`: writes until the counter says that the pipe is empty. */
    method Flush(calls: seq<WriteCall>) returns (err: Error, rest: seq<WriteCall>)
      modifies this
      ensures WriteStep(Abs(), err, rest) == FlushOf(old(Abs()), calls)
    {
      err, rest := None, calls;
      while inbuf > 0
        invariant err.None? && FlushOf(Abs(), rest) == FlushOf(old(Abs()), calls)
        decreases |rest|
      {
        err, rest := WriteTo(rest);
        if !err.None? {
          return;
        }
      }
    }
  }

  /** `splice` on two locked descriptors: pump until the limit, the end of the source or an error, then flush. */
  method Splice(amt: int, rounds: seq<Round>, writes: seq<WriteCall>)
    returns (p: Pipe, written: int, err: Error, flushed: bool)
    ensures fresh(p) && Result(p.Abs(), err, flushed) == SpliceOf(amt, rounds, writes)
    ensures written == p.written
  {
    p := new Pipe(amt);
    err := None;
    var k, rest := 0, writes;
    ghost var goal := PumpOf(Start(amt), rounds, writes);
    while err.None? && p.toread != 0
      invariant 0 <= k <= |rounds| && fresh(p)
      invariant err.None? ==> PumpOf(p.Abs(), rounds[k..], rest) == goal
      invariant !err.None? ==> WriteStep(p.Abs(), err, rest) == goal
      decreases |rounds| - k, err.None?
    {
      if k == |rounds| {
        err := Poll; // the source was closed while the goroutine waited
        break;
      }
      assert rounds[k..][1..] == rounds[k + 1..];
      err := p.ReadFrom(rounds[k]);
      k := k + 1;
      if !err.None? {
        break;
      }
      err, rest := p.WriteTo(rest);
    }
    var err1;
    err1, rest := p.Flush(rest);
    flushed := err1.None?;
    if err.None? {
      err := err1;
    }
    written := p.written;
  }
}
