/**
 * `tinyhttpservice` with its real buffers: the 48-byte method buffer, the 128-byte header buffer and
 * the compare buffer, all updated in place. Each method is proved against the value-level machine.
 */
module HttpConnection {
  import opened Bytes
  import opened HttpParsers
  import opened HttpService

  /** Phases in which iobuf[:bufiobytes] holds request bytes. */
  predicate HoldsRequest(p: Phase) {
    p.ReadReqMethod? || p.ReadReqHeader? || p.ReadReqDone? || p.ReadClosed?
  }

  /** Phases in which bufiobytes and emptyio belong to the response. */
  predicate HoldsResponse(p: Phase) {
    p.SendBody? || p.KeepAlive? || p.WriteClosed?
  }

  class Service {
    const replies: Replies
    const methodbuf: array<Byte>
    var hdrbuf: array?<Byte>
    var cmpbuf: array?<Byte>
    var iobuf: array<Byte>
    var phase: Phase
    var bufiobytes: nat
    var requestbytes: nat
    var emptyio: nat
    var methodok: bool
    var isKeepAlive: bool
    var outbuf: seq<Byte>
    var totalrequest: nat
    var reqoutcount: nat
    ghost var input: seq<Byte>
    ghost var wire: seq<Byte>
    ghost var reported: nat

    ghost predicate Valid()
      reads this
    {
      && methodbuf.Length == INIT_HEADER_SIZE
      && (hdrbuf != null ==> hdrbuf.Length == MAX_HEADER_SIZE && hdrbuf != methodbuf)
      && (cmpbuf != null ==> cmpbuf.Length == MAX_HEADER_SIZE && cmpbuf != methodbuf && cmpbuf != hdrbuf)
      && (iobuf == methodbuf || iobuf == hdrbuf)
      && (HoldsRequest(phase) ==>
            && (methodok ==> hdrbuf != null && iobuf == hdrbuf)
            && (!methodok ==> iobuf == methodbuf)
            && bufiobytes <= iobuf.Length)
    }

    /** The value-level state this object stands for. */
    ghost function Abs(): (s: Conn)
      requires Valid()
      reads this, iobuf
    {
      Conn(phase, isKeepAlive,
           Intake(if HoldsRequest(phase) then iobuf[..bufiobytes] else [], requestbytes,
                  if HoldsRequest(phase) then emptyio else 0, methodok, input),
           Outflow(outbuf, if HoldsResponse(phase) then bufiobytes else 0,
                   if HoldsResponse(phase) then emptyio else 0, wire),
           Tally(totalrequest, reqoutcount, reported))
    }

    constructor (replies: Replies)
      ensures Valid() && Abs() == FRESH && this.replies == replies
      ensures fresh(methodbuf) && iobuf == methodbuf && hdrbuf == null && cmpbuf == null
    {
      this.replies := replies;
      var buf := new Byte[INIT_HEADER_SIZE];
      methodbuf, iobuf := buf, buf;
      hdrbuf, cmpbuf := null, null;
      phase := KeepAlive;
      bufiobytes, requestbytes, emptyio, methodok, isKeepAlive := 0, 0, 0, false, false;
      outbuf, totalrequest, reqoutcount := [], 0, 0;
      input, wire, reported := [], [], 0;
    }

    method BeginRequest()
      requires Valid() && phase.KeepAlive?
      modifies this
      ensures Valid() && Abs() == Begin(old(Abs()))
      ensures unchanged(`hdrbuf, `cmpbuf)
      ensures phase.KeepAliveClosed? || phase.ReadReqMethod?
    {
      bufiobytes, emptyio, requestbytes, methodok := 0, 0, 0, false;
      iobuf := methodbuf;
      if totalrequest > 0 && !isKeepAlive {
        phase := KeepAliveClosed;
      } else {
        phase := ReadReqMethod;
      }
    }

    /** Read puts the bytes behind the live ones. */
    method Fill(data: seq<Byte>)
      requires Valid() && HoldsRequest(phase) && bufiobytes + |data| <= iobuf.Length
      modifies this`bufiobytes, this`requestbytes, this`input, iobuf
      ensures Valid() && Abs() == old(Abs()).(intake := Absorb(old(Abs()).intake, data))
    {
      var n := bufiobytes;
      forall k | 0 <= k < |data| {
        iobuf[n + k] := data[k];
      }
      bufiobytes := n + |data|;
      requestbytes := requestbytes + |data|;
      input := input + data;
      assert iobuf[..bufiobytes] == old(iobuf[..bufiobytes]) + data;
    }

    /** The method is known: go on in the header buffer, taken from the pool at most once. */
    method SwitchToHeader()
      requires Valid() && HoldsRequest(phase) && !methodok
      modifies this`methodok, this`hdrbuf, this`iobuf, hdrbuf
      ensures Valid() && methodok && iobuf == hdrbuf
      ensures hdrbuf == old(hdrbuf) || fresh(hdrbuf)
      ensures Abs() == old(Abs()).(intake := old(Abs()).intake.(methodOk := true))
    {
      if hdrbuf == null {
        hdrbuf := new Byte[MAX_HEADER_SIZE];
      }
      forall k | 0 <= k < INIT_HEADER_SIZE {
        hdrbuf[k] := methodbuf[k];
      }
      iobuf := hdrbuf;
      methodok := true;
      assert iobuf[..bufiobytes] == old(iobuf[..bufiobytes]);
    }

    /** The full header buffer is reused, keeping only its last four bytes. */
    method KeepTail()
      requires Valid() && HoldsRequest(phase) && TAIL_HEADER_SIZE <= bufiobytes
      modifies this`bufiobytes, iobuf
      ensures Valid() && bufiobytes == TAIL_HEADER_SIZE
      ensures iobuf[..bufiobytes] == old(iobuf[..bufiobytes])[old(bufiobytes) - TAIL_HEADER_SIZE..]
    {
      var n := bufiobytes;
      forall k | 0 <= k < TAIL_HEADER_SIZE {
        iobuf[k] := iobuf[n - TAIL_HEADER_SIZE + k];
      }
      bufiobytes := TAIL_HEADER_SIZE;
    }

    /** The test for the header end, once the method is known. */
    method FinishRead(err: bool) returns (fall: bool)
      requires Valid() && Reading(Abs()) && methodok && Abs().intake.live == iobuf[..bufiobytes]
      modifies this`phase, this`bufiobytes, iobuf
      ensures Valid()
      ensures var i := old(Abs()).intake;
              var t := CheckHeader(i, UriCodeOf(i.live).Found?, err);
              && fall == t.verdict.Complete?
              && Abs() == Conclusion(old(Abs()), t)
    {
      fall := false;
      var code := UriParser(iobuf[..bufiobytes]);
      if !code.Found? {
        if err || requestbytes >= MAX_HEADER_READ_SIZE {
          phase := ReadClosed;
          return;
        }
        if bufiobytes >= MAX_HEADER_SIZE {
          KeepTail();
        }
        phase := ReadReqHeader;
        return;
      }
      phase := ReadReqDone;
      fall := true;
    }

    /** The first look at the method, still in the method buffer. */
    method JudgeMethod(err: bool) returns (fall: bool)
      requires Valid() && Reading(Abs()) && !methodok && requestbytes >= MINI_HEADER_SIZE
      modifies this`phase, this`bufiobytes, this`methodok, this`hdrbuf, this`iobuf, iobuf, hdrbuf
      ensures Valid()
      ensures hdrbuf == old(hdrbuf) || fresh(hdrbuf)
      ensures var i := old(Abs()).intake;
              var t := Digest(i, AcceptedMethod(MethodParser(i.live)), UriCodeOf(i.live).Found?, err);
              fall == (t.verdict == Complete(true)) && Abs() == Conclusion(old(Abs()), t)
    {
      fall := false;
      if !AcceptedMethod(MethodParser(iobuf[..bufiobytes])) {
        phase := ReadClosed;
        return;
      }
      var code := UriParser(iobuf[..bufiobytes]);
      if code.Found? {
        phase := ReadReqDone;
        return;
      }
      SwitchToHeader();
      fall := FinishRead(err);
    }

    /** What the parsers make of the live bytes. */
    method Classify(err: bool) returns (fall: bool)
      requires Valid() && Reading(Abs())
      modifies this`phase, this`bufiobytes, this`methodok, this`hdrbuf, this`iobuf, iobuf, hdrbuf
      ensures Valid()
      ensures hdrbuf == old(hdrbuf) || fresh(hdrbuf)
      ensures var i := old(Abs()).intake;
              var t := Digest(i, AcceptedMethod(MethodParser(i.live)), UriCodeOf(i.live).Found?, err);
              fall == (t.verdict == Complete(true)) && Abs() == Conclusion(old(Abs()), t)
    {
      fall := false;
      if requestbytes < MINI_HEADER_SIZE {
        if err {
          phase := ReadClosed;
        }
        return;
      }
      if methodok {
        fall := FinishRead(err);
      } else {
        fall := JudgeMethod(err);
      }
    }

    method EmptyRead(err: bool)
      requires Valid() && Reading(Abs())
      modifies this`phase, this`emptyio
      ensures Valid() && Abs() == Conclusion(old(Abs()), OnRead(old(Abs()).intake, Read([], err)))
    {
      if err || emptyio >= MAX_EMPTY_IO {
        phase := ReadClosed;
      } else {
        emptyio := emptyio + 1;
      }
    }

    /** The read case of the loop; `fall` says that it falls through to the parse case. */
    method TakeRead(rd: Read) returns (fall: bool)
      requires Valid() && Reading(Abs()) && LegalRead(Abs().intake, rd)
      modifies this, iobuf, hdrbuf
      ensures Valid() && unchanged(`cmpbuf)
      ensures hdrbuf == old(hdrbuf) || fresh(hdrbuf)
      ensures var t := OnRead(old(Abs()).intake, rd);
              fall == (t.verdict == Complete(true)) && Abs() == Conclusion(old(Abs()), t)
    {
      if rd.data == [] {
        EmptyRead(rd.err);
        fall := false;
      } else {
        ghost var s0 := Abs();
        Fill(rd.data);
        ghost var s1 := Abs();
        assert s1 == s0.(intake := Absorb(s0.intake, rd.data));
        fall := Classify(rd.err);
        Filled(s0, s1, OnRead(s0.intake, rd));
      }
    }

    method CountRequest()
      requires Valid()
      modifies this`totalrequest, this`reqoutcount, this`reported
      ensures Valid() && Abs() == old(Abs()).(tally := Count(old(Abs()).tally))
    {
      totalrequest := totalrequest + 1;
      reqoutcount := reqoutcount + 1;
      if reqoutcount >= REPORT_BATCH {
        reported := reported + reqoutcount;
        reqoutcount := 0;
      }
    }

    method DecideKeepAlive()
      requires Valid() && phase.ReadReqDone? && bufiobytes <= MAX_HEADER_SIZE
      modifies this`cmpbuf, this`isKeepAlive, cmpbuf
      ensures Valid() && (cmpbuf == old(cmpbuf) || fresh(cmpbuf))
      ensures Abs() == old(Abs()).(keepAlive := KeepAliveOf(old(Abs()).intake.live))
    {
      if cmpbuf == null {
        cmpbuf := new Byte[MAX_HEADER_SIZE];
      }
      var request := iobuf[..bufiobytes];
      isKeepAlive := KeepAliveParse(request, cmpbuf);
      assert request[..|request|] == request;
      assert iobuf[..bufiobytes] == request;
    }

    method StartResponse()
      requires Valid() && phase.ReadReqDone?
      modifies this`bufiobytes, this`emptyio, this`phase, this`outbuf
      ensures Valid() && Abs() == Prepare(replies, old(Abs()))
    {
      bufiobytes, emptyio := 0, 0;
      phase := SendBody;
      outbuf := replies.keep;
      if !isKeepAlive {
        outbuf := replies.close;
      }
    }

    /** The parse case: count, report full batches, decide keep-alive, choose the response. */
    method ParseRequest()
      requires Valid() && phase.ReadReqDone? && bufiobytes <= MAX_HEADER_SIZE
      modifies this, cmpbuf
      ensures Valid() && unchanged(`hdrbuf, `iobuf)
      ensures cmpbuf == old(cmpbuf) || fresh(cmpbuf)
      ensures Abs() == Prepare(replies, Parse(old(Abs())))
    {
      CountRequest();
      DecideKeepAlive();
      StartResponse();
    }

    method Send(wr: Write)
      requires Valid() && phase.SendBody? && LegalWrite(Abs().outflow, wr)
      modifies this`phase, this`bufiobytes, this`emptyio, this`wire
      ensures Valid() && Abs() == OnWrite(old(Abs()), wr)
    {
      if wr.n > 0 {
        wire := wire + outbuf[bufiobytes..bufiobytes + wr.n];
        bufiobytes := bufiobytes + wr.n;
        if bufiobytes >= |outbuf| {
          phase := KeepAlive;
        }
        if wr.err {
          phase := WriteClosed;
        }
        return;
      }
      if !wr.err && emptyio < MAX_EMPTY_IO {
        emptyio := emptyio + 1;
      } else {
        phase := WriteClosed;
      }
    }

    /** Read and, if the request is complete in the header buffer, fall through to the parse case. */
    method Receive(rd: Read) returns (write: bool)
      requires Valid() && IntakeInv(Abs().intake) && Reading(Abs()) && LegalRead(Abs().intake, rd)
      modifies this, iobuf, hdrbuf, cmpbuf
      ensures Valid()
      ensures var f := ReadThenParse(replies, old(Abs()), rd); write == f.Fall? && Abs() == f.conn
      ensures write ==> phase.SendBody?
      ensures (hdrbuf == old(hdrbuf) || fresh(hdrbuf)) && (cmpbuf == old(cmpbuf) || fresh(cmpbuf))
    {
      CompleteFits(Abs().intake, rd);
      write := TakeRead(rd);
      if write {
        ParseRequest();
      }
    }

    /** What a pass does before it writes, if it does. */
    method BeforeWriting(rd: Read) returns (write: bool)
      requires Valid() && Inv(replies, Abs()) && ReadsLegally(Abs(), rd)
      modifies this, methodbuf, hdrbuf, cmpbuf
      ensures Valid()
      ensures BeforeWrite(replies, old(Abs()), rd) == if write then Fall(Abs()) else Continue(Abs())
      ensures (hdrbuf == old(hdrbuf) || fresh(hdrbuf)) && (cmpbuf == old(cmpbuf) || fresh(cmpbuf))
    {
      write := phase.SendBody?;
      if phase.ReadReqDone? {
        ParseRequest();
        write := true;
      } else {
        if phase.KeepAlive? {
          BeginKeeps(replies, Abs());
          BeginRequest();
        }
        if phase.ReadReqMethod? || phase.ReadReqHeader? {
          write := Receive(rd);
        }
      }
    }

    /** One pass of the service loop. */
    method Pass(io: Io)
      requires Valid() && Inv(replies, Abs()) && LegalIo(replies, Abs(), io)
      modifies this, methodbuf, hdrbuf, cmpbuf
      ensures Valid() && Abs() == Iterate(replies, old(Abs()), io)
      ensures (hdrbuf == old(hdrbuf) || fresh(hdrbuf)) && (cmpbuf == old(cmpbuf) || fresh(cmpbuf))
    {
      BeforeWriteKeeps(replies, Abs(), io.rd);
      var write := BeforeWriting(io.rd);
      if write {
        Send(io.wr);
      }
    }

    /** The whole service: passes until the machine is in a closed phase or the exit signal comes. */
    method Serve(ios: seq<Io>) returns (passes: nat)
      requires Valid() && Inv(replies, Abs()) && LegalRun(replies, Abs(), ios)
      modifies this, methodbuf, hdrbuf, cmpbuf
      ensures Valid() && Inv(replies, Abs()) && Abs() == Run(replies, old(Abs()), ios)
    {
      ghost var start := Abs();
      passes := 0;
      while passes < |ios| && !(phase.ReadClosed? || phase.WriteClosed? || phase.KeepAliveClosed?)
        invariant passes <= |ios| && Valid() && Inv(replies, Abs())
        invariant (hdrbuf == old(hdrbuf) || fresh(hdrbuf)) && (cmpbuf == old(cmpbuf) || fresh(cmpbuf))
        invariant LegalRun(replies, Abs(), ios[passes..])
        invariant Run(replies, start, ios) == Run(replies, Abs(), ios[passes..])
      {
        assert ios[passes..][1..] == ios[passes + 1..];
        IterateKeeps(replies, Abs(), ios[passes]);
        Pass(ios[passes]);
        passes := passes + 1;
      }
      if passes < |ios| {
        ClosedStays(replies, Abs(), ios[passes..]);
      }
    }

    /** On the way out the remaining count is reported, so the reports add up to all requests. */
    method Leave() returns (report: nat)
      requires Valid() && Inv(replies, Abs())
      modifies this`reported
      ensures report == reqoutcount < REPORT_BATCH && reported == old(reported) + report == totalrequest
    {
      report := reqoutcount;
      reported := reported + report;
    }
  }

  /** Where the read case ends does not depend on what it made of the intake before. */
  lemma Filled(s: Conn, s': Conn, t: Taken)
    requires s' == s.(intake := s'.intake)
    ensures Conclusion(s', t) == Conclusion(s, t)
  {
  }

  /** A complete request fits into the compare buffer. */
  lemma CompleteFits(i: Intake, rd: Read)
    requires IntakeInv(i) && LegalRead(i, rd)
    ensures OnRead(i, rd).verdict.Complete? ==> |OnRead(i, rd).intake.live| <= MAX_HEADER_SIZE
  {
    OnReadKeeps(i, rd);
  }

  /** The state in which a pass through the read case leaves the machine. */
  ghost function Conclusion(s: Conn, t: Taken): (r: Conn) {
    s.(intake := t.intake,
       phase := match t.verdict
                case Unchanged => s.phase
                case NeedHeader => ReadReqHeader
                case Complete(_) => ReadReqDone
                case Hangup => ReadClosed)
  }
}
