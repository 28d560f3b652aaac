/** What holds of every run of a connection, whatever Read and Write return. */
module HttpTheorems {
  import opened Bytes
  import opened HttpService

  ghost predicate Usable(replies: Replies) {
    replies.keep != [] && replies.close != []
  }

  /** `s` is the state some run of a new connection ends in. */
  ghost predicate Reached(replies: Replies, ios: seq<Io>, s: Conn) {
    Usable(replies) && LegalRun(replies, FRESH, ios) && s == Run(replies, FRESH, ios)
  }

  lemma ReachedInv(replies: Replies, ios: seq<Io>, s: Conn)
    requires Reached(replies, ios, s)
    ensures Inv(replies, s)
  {
    RunKeeps(replies, FRESH, ios);
  }

  lemma ServerRepliesUsable()
    ensures Usable(SERVER_REPLIES)
  {
  }

  // ---------------------------------------------------------------- soundness of reading

  /**
   * Whenever a request is being read, the live bytes are a suffix of its stream and the slice
   * offered to Read is not empty; whenever a response is under way, the stream that asked for it
   * starts with an accepted method and contains a header end.
   */
  lemma ReadingSound(replies: Replies, ios: seq<Io>, s: Conn)
    requires Reached(replies, ios, s)
    ensures && (Reading(s) ==> LiveIsSuffix(s.intake) && |s.intake.live| < Capacity(s.intake))
            && (s.phase.ReadReqDone? || s.phase.SendBody? ==>
                  s.intake.requestBytes <= |s.intake.input| && Deserved(Stream(s.intake)))
            && !(s.phase.ParseReqHeader? || s.phase.ReadReqBody? || s.phase.ParseReqBody? || s.phase.SendHeader?)
  {
    ReachedInv(replies, ios, s);
  }

  lemma WriteTally(s: Conn, wr: Write)
    requires LegalWrite(s.outflow, wr)
    ensures OnWrite(s, wr).tally == s.tally
  {
  }

  lemma ReadTally(replies: Replies, s: Conn, t: Taken)
    ensures var after := Conclude(replies, s, t).conn.tally; after == s.tally || after == Count(s.tally)
  {
  }

  lemma TallyStep(replies: Replies, s: Conn, io: Io)
    requires LegalIo(replies, s, io)
    ensures Iterate(replies, s, io).tally == s.tally || Iterate(replies, s, io).tally == Count(s.tally)
  {
    ReadTally(replies, s, OnRead(s.intake, io.rd));
    ReadTally(replies, Begin(s), OnRead(Begin(s).intake, io.rd));
    var f := BeforeWrite(replies, s, io.rd);
    if f.Fall? {
      WriteTally(f.conn, io.wr);
    }
  }

  predicate Batched(t: Tally) {
    t.reported % 1000 == 0 && t.unreported < 1000
  }

  lemma CountBatches(t: Tally)
    requires Batched(t)
    ensures Batched(Count(t))
  {
  }

  lemma {:induction false} RunBatches(replies: Replies, s: Conn, ios: seq<Io>)
    requires Batched(s.tally) && LegalRun(replies, s, ios)
    ensures Batched(Run(replies, s, ios).tally)
    decreases |ios|
  {
    if ios != [] {
      TallyStep(replies, s, ios[0]);
      CountBatches(s.tally);
      RunBatches(replies, Iterate(replies, s, ios[0]), ios[1..]);
    }
  }

  /** Every answered or started request is reported once, in batches of 1000; the rest is held back. */
  lemma ReportsAddUp(replies: Replies, ios: seq<Io>, s: Conn)
    requires Reached(replies, ios, s)
    ensures s.tally.unreported == s.tally.total % 1000
    ensures s.tally.reported + s.tally.unreported == s.tally.total
  {
    ReachedInv(replies, ios, s);
    ReachedBatched(replies, ios, s);
    HeldBack(s.tally);
  }

  lemma ReachedBatched(replies: Replies, ios: seq<Io>, s: Conn)
    requires Reached(replies, ios, s)
    ensures Batched(s.tally)
  {
    RunBatches(replies, FRESH, ios);
  }

  lemma HeldBack(t: Tally)
    requires Batched(t) && t.reported + t.unreported == t.total
    ensures t.unreported == t.total % 1000
  {
  }

  /** While the phase is "method" no method is known. */
  ghost predicate MethodUnknown(s: Conn) {
    s.phase.ReadReqMethod? ==> !s.intake.methodOk
  }

  lemma ReadLeavesMethod(i: Intake, rd: Read)
    requires IntakeInv(i)
    ensures var t := OnRead(i, rd); t.verdict.Unchanged? ==> t.intake.methodOk == i.methodOk
  {
  }

  lemma ConcludeMethod(replies: Replies, s: Conn, t: Taken)
    requires MethodUnknown(s) && (t.verdict.Unchanged? ==> t.intake.methodOk == s.intake.methodOk)
    ensures MethodUnknown(Conclude(replies, s, t).conn)
  {
  }

  lemma BeforeWriteMethod(replies: Replies, s: Conn, rd: Read)
    requires Inv(replies, s) && MethodUnknown(s)
    ensures MethodUnknown(BeforeWrite(replies, s, rd).conn)
  {
    if s.phase.KeepAlive? {
      BeginKeeps(replies, s);
      if Reading(Begin(s)) {
        ReadLeavesMethod(Begin(s).intake, rd);
        ConcludeMethod(replies, Begin(s), OnRead(Begin(s).intake, rd));
      }
    } else if Reading(s) {
      ReadLeavesMethod(s.intake, rd);
      ConcludeMethod(replies, s, OnRead(s.intake, rd));
    }
  }

  lemma WriteMethod(s: Conn, wr: Write)
    requires LegalWrite(s.outflow, wr) && MethodUnknown(s)
    ensures MethodUnknown(OnWrite(s, wr))
  {
  }

  lemma MethodStep(replies: Replies, s: Conn, io: Io)
    requires Inv(replies, s) && MethodUnknown(s) && LegalIo(replies, s, io)
    ensures MethodUnknown(Iterate(replies, s, io))
  {
    var f := BeforeWrite(replies, s, io.rd);
    BeforeWriteMethod(replies, s, io.rd);
    if f.Fall? {
      WriteMethod(f.conn, io.wr);
    }
  }

  lemma {:induction false} RunMethods(replies: Replies, s: Conn, ios: seq<Io>)
    requires Inv(replies, s) && MethodUnknown(s) && LegalRun(replies, s, ios)
    ensures MethodUnknown(Run(replies, s, ios))
    decreases |ios|
  {
    if ios != [] {
      MethodStep(replies, s, ios[0]);
      IterateKeeps(replies, s, ios[0]);
      RunMethods(replies, Iterate(replies, s, ios[0]), ios[1..]);
    }
  }

  /** In every reachable reading state the phase tells whether the method has been accepted. */
  lemma PhaseTellsMethod(replies: Replies, ios: seq<Io>, s: Conn)
    requires Reached(replies, ios, s) && Reading(s)
    ensures s.phase.ReadReqHeader? <==> s.intake.methodOk
  {
    ReachedInv(replies, ios, s);
    RunMethods(replies, FRESH, ios);
  }

  // ---------------------------------------------------------------- completion

  /**
   * A read that completes the request in the method buffer only ends the pass; one that completes it in
   * the header buffer counts it and starts the response in the same pass.
   */
  lemma WhereARequestCompletes(replies: Replies, s: Conn, io: Io)
    requires Reading(s) && LegalIo(replies, s, io) && OnRead(s.intake, io.rd).verdict.Complete?
    ensures var n := Iterate(replies, s, io);
            if s.intake.methodOk then n.tally == Count(s.tally) && !n.phase.ReadReqDone?
            else n.phase.ReadReqDone? && n.tally == s.tally && n.outflow == s.outflow
  {
  }

  // ---------------------------------------------------------------- errors

  /** A read error closes the connection unless the bytes that came with it complete the request. */
  lemma ReadErrorCloses(replies: Replies, s: Conn, io: Io)
    requires Reading(s) && LegalIo(replies, s, io) && io.rd.err && !OnRead(s.intake, io.rd).verdict.Complete?
    ensures Iterate(replies, s, io).phase.ReadClosed?
  {
  }

  /** A write error closes it even if the response is complete; what was written before it is on the wire. */
  lemma WriteErrorCloses(replies: Replies, s: Conn, io: Io)
    requires s.phase.SendBody? && LegalIo(replies, s, io) && io.wr.err
    ensures var t, o := Iterate(replies, s, io), s.outflow;
            t.phase.WriteClosed? && t.outflow.wire == o.wire + o.out[o.sent..o.sent + io.wr.n]
  {
  }

  // ---------------------------------------------------------------- the bytes on the wire

  /** Some complete keep-alive responses, then a prefix of at most one more response. */
  ghost predicate RepliesThenPrefix(replies: Replies, wire: seq<Byte>, n: nat, tail: seq<Byte>) {
    && wire == Repeat(replies.keep, n) + tail
    && (tail <= replies.keep || tail <= replies.close)
  }

  lemma WireOfState(replies: Replies, s: Conn)
    requires WireInv(replies, s)
    ensures exists n: nat, tail ::
              RepliesThenPrefix(replies, s.outflow.wire, n, tail) && n <= s.tally.total <= n + 1
  {
    var o, total := s.outflow, s.tally.total;
    if total > 0 && (s.phase.KeepAlive? || s.phase.KeepAliveClosed?) {
      assert RepliesThenPrefix(replies, o.wire, total - 1, o.out);
    } else if s.phase.SendBody? || s.phase.WriteClosed? {
      assert RepliesThenPrefix(replies, o.wire, total - 1, o.out[..o.sent]);
    } else {
      assert RepliesThenPrefix(replies, o.wire, total, []);
    }
  }

  lemma WireOfEveryRun(replies: Replies, ios: seq<Io>, s: Conn)
    requires Reached(replies, ios, s)
    ensures exists n: nat, tail ::
              RepliesThenPrefix(replies, s.outflow.wire, n, tail) && n <= s.tally.total <= n + 1
  {
    ReachedInv(replies, ios, s);
    WireOfState(replies, s);
  }

  /** The last response written is a complete "Connection: close" one. */
  ghost predicate ClosedReplyComplete(replies: Replies, s: Conn) {
    && s.tally.total > 0 && !s.keepAlive
    && s.outflow.wire == Repeat(replies.keep, s.tally.total - 1) + replies.close
  }

  lemma QuietStep(replies: Replies, s: Conn, io: Io)
    requires WireInv(replies, s) && ClosedReplyComplete(replies, s) && LegalIo(replies, s, io)
    requires RequestInv(s.phase, s.intake)
    ensures var t := Iterate(replies, s, io);
            t.intake.input == s.intake.input && t.outflow.wire == s.outflow.wire
            && ClosedReplyComplete(replies, t)
  {
  }

  /** After a complete "Connection: close" response nothing is read or written any more. */
  lemma {:induction false} QuietAfterClose(replies: Replies, s: Conn, later: seq<Io>)
    requires Inv(replies, s) && ClosedReplyComplete(replies, s) && LegalRun(replies, s, later)
    ensures var t := Run(replies, s, later);
            t.outflow.wire == s.outflow.wire && t.intake.input == s.intake.input
    decreases |later|
  {
    if later != [] {
      QuietStep(replies, s, later[0]);
      IterateKeeps(replies, s, later[0]);
      QuietAfterClose(replies, Iterate(replies, s, later[0]), later[1..]);
    }
  }

  lemma CloseIsFinal(replies: Replies, first: seq<Io>, s: Conn, later: seq<Io>)
    requires Reached(replies, first, s) && ClosedReplyComplete(replies, s)
    requires LegalRun(replies, s, later)
    ensures var t := Run(replies, s, later);
            t.outflow.wire == s.outflow.wire && t.intake.input == s.intake.input
  {
    ReachedInv(replies, first, s);
    QuietAfterClose(replies, s, later);
  }

  // ---------------------------------------------------------------- every phase ends

  /** How many more iterations the current read or write phase can last. */
  function Budget(s: Conn): (n: int) {
    if Reading(s) then ReadBudget(s.intake)
    else |s.outflow.out| - s.outflow.sent + MAX_EMPTY_IO - s.outflow.emptyWrites
  }

  function ReadBudget(i: Intake): (n: int) {
    MAX_HEADER_READ_SIZE - i.requestBytes + MAX_EMPTY_IO - i.emptyReads
  }

  ghost predicate SamePhase(s: Conn, t: Conn) {
    (Reading(s) && Reading(t)) || (s.phase.SendBody? && t.phase.SendBody?)
  }

  lemma ReadUsesBudget(i: Intake, rd: Read)
    ensures var t := OnRead(i, rd);
            t.verdict.Unchanged? || t.verdict.NeedHeader? ==> ReadBudget(t.intake) < ReadBudget(i)
  {
  }

  lemma StepUsesBudget(replies: Replies, s: Conn, io: Io)
    requires LegalIo(replies, s, io) && SamePhase(s, Iterate(replies, s, io))
    ensures Budget(Iterate(replies, s, io)) < Budget(s)
  {
    if Reading(s) {
      ReadUsesBudget(s.intake, io.rd);
    }
  }

  ghost predicate StaysInPhase(replies: Replies, s: Conn, ios: seq<Io>)
    requires LegalRun(replies, s, ios)
    decreases |ios|
  {
    ios == []
    || (var t := Iterate(replies, s, ios[0]); SamePhase(s, t) && StaysInPhase(replies, t, ios[1..]))
  }

  /** A read phase lasts at most 131074 iterations, a write phase two more than the response has bytes. */
  lemma {:induction false} PhaseEnds(replies: Replies, s: Conn, ios: seq<Io>)
    requires Inv(replies, s) && (Reading(s) || s.phase.SendBody?)
    requires LegalRun(replies, s, ios) && StaysInPhase(replies, s, ios)
    ensures |ios| <= Budget(s)
    ensures Reading(s) ==> Budget(s) <= MAX_HEADER_READ_SIZE + MAX_EMPTY_IO
    ensures s.phase.SendBody? ==> Budget(s) <= |Response(replies, s.keepAlive)| + MAX_EMPTY_IO
    decreases |ios|
  {
    if ios != [] {
      StepUsesBudget(replies, s, ios[0]);
      IterateKeeps(replies, s, ios[0]);
      PhaseEnds(replies, Iterate(replies, s, ios[0]), ios[1..]);
    }
  }
}
