/**
 * What becomes of the connections that arrive: a worker that leaves its loop drops the batch it has not
 * started, so the server's count of accepted connections can fall short of the arrivals.
 */
module ServerArrivals {
  import opened ServerCounts
  import opened ServerConservation
  import opened Sums

  // ---------------------------------------------------------------- arrivals

  /** Connections in a worker's hands that are not services yet, or never will be. */
  function Pending(w: Worker): (n: int) {
    w.batch - w.launched
  }

  predicate BatchOk(w: Worker) {
    && w.launched <= w.batch
    && (w.pc.Accepting? || w.pc.Joining? || w.pc.WorkerDone? ==> w.launched == 0)
    && (w.pc.Reporting? ==> w.launched == w.batch)
  }

  ghost predicate ArrivalInv(s: State) {
    && s.sh.arrived == |s.services| + SumBy(s.workers, Pending)
    && forall i: nat | i < |s.workers| :: BatchOk(s.workers[i])
  }

  lemma WorkerArrivals(i: nat, w: Worker, sh: Shared, turn: Turn)
    requires BatchOk(w)
    ensures var r := WorkerStep(i, w, sh, turn);
            BatchOk(r.w) && r.sh.arrived == sh.arrived + |r.launched| + Pending(r.w) - Pending(w)
  {
    var r := WorkerStep(i, w, sh, turn);
    match w.pc
    case Accepting => assert r.launched == [] && r.sh.arrived == sh.arrived + r.w.batch - w.batch;
    case Launching => assert |r.launched| == r.w.launched - w.launched && r.sh.arrived == sh.arrived;
    case Reporting => assert r.launched == [] && Pending(r.w) == Pending(w) && r.sh.arrived == sh.arrived;
    case Joining =>
    case WorkerDone =>
  }

  lemma ArrivalKept(s: State, a: Action)
    requires ArrivalInv(s) && Enabled(s, a)
    ensures ArrivalInv(Apply(s, a))
  {
    if a.WorkerAct? {
      WorkerArrivals(a.i, s.workers[a.i], s.sh, a.turn);
      SumUpdate(s.workers, a.i, WorkerStep(a.i, s.workers[a.i], s.sh, a.turn).w, Pending);
    }
  }

  lemma {:induction false} ExecKeepsArrivals(s: State, acts: seq<Action>)
    requires ArrivalInv(s) && Legal(s, acts)
    ensures ArrivalInv(Exec(s, acts))
    decreases |acts|
  {
    if acts != [] {
      ArrivalKept(s, acts[0]);
      ExecKeepsArrivals(Apply(s, acts[0]), acts[1..]);
    }
  }

  ghost predicate LeftEmptyHanded(s: State) {
    forall i: nat | i < |s.workers| :: s.workers[i].batch == 0
  }

  /** A sum of naturals is zero exactly when each of them is. */
  lemma NothingPending(workers: seq<Worker>)
    requires forall i: nat | i < |workers| :: BatchOk(workers[i]) && workers[i].pc.WorkerDone?
    ensures SumBy(workers, Pending) == 0 <==> forall i: nat | i < |workers| :: workers[i].batch == 0
  {
    if i: nat :| i < |workers| && workers[i].batch != 0 {
      SumCovers(workers, i, Pending);
    } else {
      SumZero(workers, Pending);
    }
  }

  ghost predicate AcceptedOfArrived(e: State) {
    && e.sh.sums.accepted == e.sh.arrived - SumBy(e.workers, Pending)
    && (e.sh.sums.accepted == e.sh.arrived <==> LeftEmptyHanded(e))
  }

  lemma FinishedCount(e: State)
    requires ArrivalInv(e) && WorkersDone(e.workers) && e.sh.sums.accepted == |e.services|
    ensures AcceptedOfArrived(e)
  {
    var pending := SumBy(e.workers, Pending);
    assert e.sh.arrived == e.sh.sums.accepted + pending;
    assert pending == 0 <==> LeftEmptyHanded(e) by {
      NothingPending(e.workers);
    }
  }

  lemma FinishedWorkers(s: State, acts: seq<Action>)
    requires Initial(s) && Legal(s, acts) && CounterFinished(Exec(s, acts))
    ensures WorkersDone(Exec(s, acts).workers)
  {
    SumZero(s.workers, Unannounced);
    ExecKeeps(s, acts);
  }

  lemma InitialArrivals(s: State)
    requires Initial(s)
    ensures ArrivalInv(s)
  {
    forall i: nat | i < |s.workers|
      ensures BatchOk(s.workers[i]) && Pending(s.workers[i]) == 0
    {
      assert s.workers[i] == Worker(Accepting, 0, 0);
    }
    SumZero(s.workers, Pending);
    assert s.sh.arrived == 0 && |s.services| == 0;
  }

  /**
   * When the counter has finished, the connections counted as accepted are the arrivals less the
   * dropped batches; they are all the arrivals if and only if every worker left with an empty batch.
   */
  lemma AcceptedAreArrivals(s: State, acts: seq<Action>)
    requires Initial(s) && Legal(s, acts) && CounterFinished(Exec(s, acts))
    ensures AcceptedOfArrived(Exec(s, acts))
  {
    InitialArrivals(s);
    ExecKeepsArrivals(s, acts);
    FinishedWorkers(s, acts);
    CountsAddUp(s, acts);
    FinishedCount(Exec(s, acts));
  }

  // ---------------------------------------------------------------- a run that drops a connection

  ghost predicate Ends(s: State, e: State) {
    exists acts :: Legal(s, acts) && Exec(s, acts) == e
  }

  lemma NoStep(s: State)
    ensures Ends(s, s)
  {
    assert Legal(s, []) && Exec(s, []) == s;
  }

  lemma First(s: State, a: Action, t: State, e: State)
    requires Enabled(s, a) && Apply(s, a) == t && Ends(t, e)
    ensures Ends(s, e)
  {
    var acts :| Legal(t, acts) && Exec(t, acts) == e;
    var all := [a] + acts;
    assert all[0] == a && all[1..] == acts;
    assert Legal(s, all) && Exec(s, all) == e;
  }

  /** The three channels are closed and seen closed one after the other. */
  lemma CloseAll(s: State, e: State)
    requires s.main.WaitWorkers? && WorkersDone(s.workers)
    requires s.sh.accepted == s.sh.requests == s.sh.closed == Chan([], false, false)
    requires var shut := Chan([], true, true);
             e == s.(main := MainDone, sh := s.sh.(accepted := shut, requests := shut, closed := shut))
    ensures Ends(s, e)
  {
    var half, shut := Chan([], true, false), Chan([], true, true);
    var s1 := s.(main := CloseAccepted);
    var s2 := s.(main := CloseRequests, sh := s.sh.(accepted := half));
    var s3 := s.(main := CloseClosed, sh := s2.sh.(requests := half));
    var s4 := s.(main := MainDone, sh := s3.sh.(closed := half));
    var s5 := s4.(sh := s4.sh.(accepted := shut));
    var s6 := s5.(sh := s5.sh.(requests := shut));
    NoStep(e);
    First(s6, CountClosed, e, e);
    First(s5, CountRequests, s6, e);
    First(s4, CountAccepted, s5, e);
    First(s3, MainAct, s4, e);
    First(s2, MainAct, s3, e);
    First(s1, MainAct, s2, e);
    First(s, MainAct, s1, e);
  }

  lemma LoneWorker(s: State, w: Worker, turn: Turn, w': Worker, sh: Shared, e: State)
    requires s.workers == [w] && s.services == [] && WorkerReady(w, s.sh, true)
    requires WorkerStep(0, w, s.sh, turn) == WorkerResult(w', sh, [])
    requires Ends(s.(workers := [w'], sh := sh), e)
    ensures Ends(s, e)
  {
    var t := s.(workers := [w'], sh := sh);
    assert [w][0 := w'] == [w'] && s.services + [] == s.services;
    First(s, WorkerAct(0, turn), t, e);
  }

  /** One worker accepts one connection and is told to stop: the counter finishes without it. */
  lemma DroppedConnection(s: State)
    requires Initial(s) && |s.workers| == 1
    ensures exists e :: Ends(s, e) && CounterFinished(e) && e.sh.arrived == 1 && e.sh.sums.accepted == 0
  {
    var sh, shut := s.sh.(arrived := 1), Chan([], true, true);
    var w0, w1 := Worker(Accepting, 0, 0), Worker(Accepting, 1, 0);
    var w2, w3 := Worker(Joining, 1, 0), Worker(WorkerDone, 1, 0);
    var s3 := s.(workers := [w3], sh := sh);
    var e := s3.(main := MainDone, sh := sh.(accepted := shut, requests := shut, closed := shut));
    CloseAll(s3, e);
    LoneWorker(s.(workers := [w2], sh := sh), w2, LeaveLoop, w3, sh, e);
    LoneWorker(s.(workers := [w1], sh := sh), w1, LeaveLoop, w2, sh, e);
    assert s.workers == [w0];
    LoneWorker(s, w0, AcceptOne, w1, sh, e);
  }
}
