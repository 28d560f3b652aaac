/**
 * The server can always be shut down: from every reachable state the steps that lead out, without new
 * arrivals or answers, bring the counter to its end, and then it has counted what there was.
 */
module ServerProgress {
  import opened ServerCounts
  import opened ServerConservation
  import opened ServerArrivals
  import opened Sums

  // ---------------------------------------------------------------- the way out

  /** Workers leave at their loop head, services stop at theirs; everything else goes on as it must. */
  predicate LeadsOut(s: State, a: Action) {
    && Enabled(s, a)
    && (a.WorkerAct? && s.workers[a.i].pc.Accepting? ==> a.turn.LeaveLoop?)
    && (a.ServiceAct? && s.services[a.k].pc.Serving? ==> a.choice.Stop?)
  }

  ghost predicate ClosedInOrder(s: State) {
    && (s.main.CloseRequests? || s.main.CloseClosed? || s.main.MainDone? ==> s.sh.accepted.closed)
    && (s.main.CloseClosed? || s.main.MainDone? ==> s.sh.requests.closed)
    && (s.main.MainDone? ==> s.sh.closed.closed)
  }

  ghost predicate Sound(s: State) {
    Inv(s) && ArrivalInv(s) && ClosedInOrder(s)
  }

  lemma OrderKept(s: State, a: Action)
    requires ClosedInOrder(s) && Enabled(s, a)
    ensures ClosedInOrder(Apply(s, a))
  {
    match a
    case WorkerAct(i, turn) => WorkerKeepsClosed(i, s.workers[i], s.sh, turn);
    case ServiceAct(k, choice) => ServiceKeepsClosed(s.services[k], s.sh, choice);
    case _ =>
  }

  lemma WorkerKeepsClosed(i: nat, w: Worker, sh: Shared, turn: Turn)
    ensures var t := WorkerStep(i, w, sh, turn).sh;
            t.accepted.closed == sh.accepted.closed && t.requests == sh.requests && t.closed == sh.closed
  {
  }

  lemma ServiceKeepsClosed(sv: Service, sh: Shared, choice: Choice)
    ensures var t := ServiceStep(sv, sh, choice).sh;
            && t.accepted == sh.accepted && t.requests.closed == sh.requests.closed
            && t.closed.closed == sh.closed.closed
  {
  }

  lemma SoundKept(s: State, a: Action)
    requires Sound(s) && Enabled(s, a)
    ensures Sound(Apply(s, a))
  {
    ApplyKeeps(s, a);
    ArrivalKept(s, a);
    OrderKept(s, a);
  }

  lemma {:induction false} ExecKeepsSound(s: State, acts: seq<Action>)
    requires Sound(s) && Legal(s, acts)
    ensures Sound(Exec(s, acts))
    decreases |acts|
  {
    if acts != [] {
      SoundKept(s, acts[0]);
      ExecKeepsSound(Apply(s, acts[0]), acts[1..]);
    }
  }

  lemma InitialIsSound(s: State)
    requires Initial(s)
    ensures Sound(s)
  {
    InitialBalances(s);
    InitialArrivals(s);
  }

  lemma InitialBalances(s: State)
    requires Initial(s)
    ensures Inv(s)
  {
    SumZero(s.workers, Unannounced);
  }

  // ---------------------------------------------------------------- nobody waits for ever

  predicate Quiet(s: State) {
    !CanReceive(s.sh.accepted) && !CanReceive(s.sh.requests) && !CanReceive(s.sh.closed)
  }

  lemma WorkersLeadOut(s: State)
    requires Sound(s) && Quiet(s) && s.main.WaitWorkers?
    ensures exists a :: LeadsOut(s, a)
  {
    if WorkersDone(s.workers) {
      assert LeadsOut(s, MainAct);
    } else {
      var i: nat :| i < |s.workers| && !s.workers[i].pc.WorkerDone?;
      if s.workers[i].pc.Joining? && !OwnDone(s.services, i) {
        var k: nat :| k < |s.services| && s.services[k].owner == i && !s.services[k].pc.ServiceDone?;
        assert LeadsOut(s, ServiceAct(k, Stop));
      } else {
        assert LeadsOut(s, WorkerAct(i, LeaveLoop));
      }
    }
  }

  /** Until the counter has finished, somebody has a step that leads out: nobody waits for ever. */
  lemma SomebodyLeadsOut(s: State)
    requires Sound(s) && !CounterFinished(s)
    ensures exists a :: LeadsOut(s, a)
  {
    if CanReceive(s.sh.accepted) {
      assert LeadsOut(s, CountAccepted);
    } else if CanReceive(s.sh.requests) {
      assert LeadsOut(s, CountRequests);
    } else if CanReceive(s.sh.closed) {
      assert LeadsOut(s, CountClosed);
    } else if s.main.WaitWorkers? {
      WorkersLeadOut(s);
    } else {
      assert LeadsOut(s, MainAct);
    }
  }

  // ---------------------------------------------------------------- what is left to do

  function ServiceLeft(sv: Service): (n: int) {
    match sv.pc
    case Serving => 6
    case Flushing => 8
    case SayingClosed => 5
    case GivingBack => 3
    case LastReport => 2
    case ServiceDone => 0
  }

  function WorkerLeft(w: Worker): (n: int) {
    match w.pc
    case Accepting => 2
    case Launching => 5 + 7 * (w.batch - w.launched)
    case Reporting => 4
    case Joining => 1
    case WorkerDone => 0
  }

  function ChanLeft(ch: Chan): (n: int) {
    |ch.items| + if ch.seenClosed then 0 else 1
  }

  function MainLeft(m: MainPc): (n: int) {
    match m
    case WaitWorkers => 4
    case CloseAccepted => 3
    case CloseRequests => 2
    case CloseClosed => 1
    case MainDone => 0
  }

  function ChansLeft(sh: Shared): (n: int) {
    ChanLeft(sh.accepted) + ChanLeft(sh.requests) + ChanLeft(sh.closed)
  }

  function Left(s: State): (n: int) {
    SumBy(s.workers, WorkerLeft) + SumBy(s.services, ServiceLeft) + ChansLeft(s.sh) + MainLeft(s.main)
  }

  lemma LeftNotNegative(s: State)
    requires ArrivalInv(s)
    ensures Left(s) >= 0
  {
    forall i | 0 <= i < |s.workers|
      ensures WorkerLeft(s.workers[i]) >= 0
    {
      assert BatchOk(s.workers[i]);
    }
    if s.workers != [] {
      SumCovers(s.workers, 0, WorkerLeft);
    }
    if s.services != [] {
      SumCovers(s.services, 0, ServiceLeft);
    }
  }

  /** Connections of a batch already being started, each of which becomes a service. */
  function ToLaunch(w: Worker): (n: int) {
    if w.pc.Launching? then w.batch - w.launched else 0
  }

  lemma WorkerUses(i: nat, w: Worker, sh: Shared, turn: Turn)
    requires BatchOk(w) && !w.pc.WorkerDone? && (w.pc.Accepting? ==> turn.LeaveLoop?)
    ensures var r := WorkerStep(i, w, sh, turn);
            && ToLaunch(r.w) + |r.launched| == ToLaunch(w)
            && WorkerLeft(r.w) + 6 * |r.launched| + ChansLeft(r.sh) < WorkerLeft(w) + ChansLeft(sh)
  {
  }

  lemma ServiceUses(sv: Service, sh: Shared, choice: Choice)
    requires !sv.pc.ServiceDone? && (sv.pc.Serving? ==> choice.Stop?)
    ensures var r := ServiceStep(sv, sh, choice);
            r.sv.total == sv.total && ServiceLeft(r.sv) + ChansLeft(r.sh) < ServiceLeft(sv) + ChansLeft(sh)
  {
  }

  /** A step on the way out is one less to do, and changes neither the requests nor the services to come. */
  ghost predicate OneLess(s: State, s': State) {
    && Left(s') < Left(s)
    && SumBy(s'.services, Requests) == SumBy(s.services, Requests)
    && |s'.services| + SumBy(s'.workers, ToLaunch) == |s.services| + SumBy(s.workers, ToLaunch)
  }

  lemma WorkerOut(s: State, i: nat, turn: Turn)
    requires Sound(s) && LeadsOut(s, WorkerAct(i, turn))
    ensures OneLess(s, Apply(s, WorkerAct(i, turn)))
  {
    var r := WorkerStep(i, s.workers[i], s.sh, turn);
    assert BatchOk(s.workers[i]);
    WorkerUses(i, s.workers[i], s.sh, turn);
    WorkerEffect(i, s.workers[i], s.sh, turn);
    SumUpdate(s.workers, i, r.w, WorkerLeft);
    SumUpdate(s.workers, i, r.w, ToLaunch);
    if r.launched == [] {
      assert s.services + r.launched == s.services;
    } else {
      var sv := Service(i, Serving, 0, 0, 1);
      assert r.launched == [sv];
      LaunchSums(s.services, sv);
      SumAppend(s.services, sv, ServiceLeft);
    }
  }

  lemma ServiceOut(s: State, k: nat, choice: Choice)
    requires Sound(s) && LeadsOut(s, ServiceAct(k, choice))
    ensures OneLess(s, Apply(s, ServiceAct(k, choice)))
  {
    var r := ServiceStep(s.services[k], s.sh, choice);
    ServiceUses(s.services[k], s.sh, choice);
    SumUpdate(s.services, k, r.sv, ServiceLeft);
    SumUpdate(s.services, k, r.sv, Requests);
  }

  lemma StepOut(s: State, a: Action)
    requires Sound(s) && LeadsOut(s, a)
    ensures OneLess(s, Apply(s, a))
  {
    match a
    case WorkerAct(i, turn) => WorkerOut(s, i, turn);
    case ServiceAct(k, choice) => ServiceOut(s, k, choice);
    case _ =>
  }

  // ---------------------------------------------------------------- every run

  /** What the counter ends with, for so many services and so many requests. */
  ghost predicate CountedAll(e: State, services: int, requests: int) {
    && CounterFinished(e) && !e.sh.panicked && e.sh.bufs.taken == e.sh.bufs.returned
    && e.sh.sums.accepted == e.sh.sums.closed == |e.services| == services && e.sh.sums.finished == requests
  }

  lemma FinishedCounts(e: State)
    requires Sound(e) && CounterFinished(e)
    ensures CountedAll(e, |e.services| + SumBy(e.workers, ToLaunch), SumBy(e.services, Requests))
  {
    AllSettled(e);
    SumZero(e.workers, ToLaunch);
  }

  lemma {:induction false} WayOut(s: State) returns (e: State)
    requires Sound(s)
    ensures Ends(s, e) && CountedAll(e, |s.services| + SumBy(s.workers, ToLaunch), SumBy(s.services, Requests))
    decreases Left(s) + 1
  {
    LeftNotNegative(s);
    if CounterFinished(s) {
      e := s;
      NoStep(s);
      FinishedCounts(s);
    } else {
      SomebodyLeadsOut(s);
      var a :| LeadsOut(s, a);
      StepOut(s, a);
      SoundKept(s, a);
      LeftNotNegative(Apply(s, a));
      e := WayOut(Apply(s, a));
      First(s, a, Apply(s, a), e);
    }
  }

  /**
   * From every reachable state a run ends with the counter finished, and then it has counted as accepted
   * and closed the services there were and those being started, and as finished the requests answered.
   */
  lemma AlwaysCanFinish(s: State, acts: seq<Action>)
    requires Initial(s) && Legal(s, acts)
    ensures CanFinish(Exec(s, acts))
  {
    InitialIsSound(s);
    ExecKeepsSound(s, acts);
    SoundCanFinish(Exec(s, acts));
  }

  ghost predicate CanFinish(s: State) {
    var services, requests := |s.services| + SumBy(s.workers, ToLaunch), SumBy(s.services, Requests);
    exists e :: Ends(s, e) && CountedAll(e, services, requests)
  }

  lemma SoundCanFinish(s: State)
    requires Sound(s)
    ensures CanFinish(s)
  {
    var e := WayOut(s);
  }

  // ---------------------------------------------------------------- one connection

  /** A worker starts its one connection as a service, announces it and is back at its loop head. */
  lemma OneService(s: State, sh: Shared, w: Worker, t: State, e: State)
    requires s.workers == [w] && w == Worker(Accepting, 1, 0) && s.services == [] && |s.sh.accepted.items| == 0
    requires !s.sh.accepted.closed && !s.sh.panicked
    requires sh == s.sh.(bufs := s.sh.bufs.(taken := s.sh.bufs.taken + 1), accepted := s.sh.accepted.(items := [1]))
    requires t == s.(workers := [Worker(Accepting, 0, 0)], services := [Service(0, Serving, 0, 0, 1)], sh := sh)
    requires Ends(t, e)
    ensures Ends(s, e)
  {
    var sv := Service(0, Serving, 0, 0, 1);
    var taken := s.sh.(bufs := sh.bufs);
    var s1 := s.(workers := [Worker(Launching, 1, 0)]);
    var s2 := s.(workers := [Worker(Launching, 1, 1)], services := [sv], sh := taken);
    var s3 := s2.(workers := [Worker(Reporting, 1, 1)]);
    assert s3.services + [] == [sv] && s1.services + [sv] == [sv] && s.services + [] == s.services;
    assert s.sh.accepted.items + [1] == [1];
    First(s3, WorkerAct(0, StartBatch), t, e);
    First(s2, WorkerAct(0, StartBatch), s3, e);
    First(s1, WorkerAct(0, StartBatch), s2, e);
    First(s, WorkerAct(0, StartBatch), s1, e);
  }

  /** The state after one connection has been accepted and started, and its first request answered. */
  function OneAnswered(s: State): (t: State) {
    s.(workers := [Worker(Accepting, 0, 0)], services := [Service(0, Serving, 1, 1, 1)],
       sh := s.sh.(arrived := 1, bufs := Bufs(1, 0), accepted := Chan([1], false, false)))
  }

  lemma OneAnswer(s: State, e: State)
    requires Initial(s) && |s.workers| == 1 && Ends(OneAnswered(s), e)
    ensures Ends(s, e)
  {
    var w0, started := Worker(Accepting, 0, 0), Service(0, Serving, 0, 0, 1);
    var s1 := s.(workers := [Worker(Accepting, 1, 0)], sh := s.sh.(arrived := 1));
    var s2 := OneAnswered(s).(services := [started]);
    assert s.workers == [w0] && s.services + [] == s.services;
    assert [started][0 := Service(0, Serving, 1, 1, 1)] == OneAnswered(s).services;
    First(s2, ServiceAct(0, Answer), OneAnswered(s), e);
    OneService(s1, s2.sh, Worker(Accepting, 1, 0), s2, e);
    First(s, WorkerAct(0, AcceptOne), s1, e);
  }

  lemma OneAnsweredSums(s: State)
    ensures var t := OneAnswered(s);
            |t.services| == SumBy(t.services, Requests) == 1 && SumBy(t.workers, ToLaunch) == 0
  {
    var t := OneAnswered(s);
    assert t.services[..0] == [] && t.workers[..0] == [];
  }

  lemma OneAnsweredIsSound(s: State)
    requires Initial(s) && |s.workers| == 1
    ensures Sound(OneAnswered(s))
  {
    var t := OneAnswered(s);
    NoStep(t);
    OneAnswer(s, t);
    var acts :| Legal(s, acts) && Exec(s, acts) == t;
    InitialIsSound(s);
    ExecKeepsSound(s, acts);
  }

  /** One connection with one request: a run ends with one accepted, one finished and one closed. */
  lemma OneConnectionOneRequest(s: State)
    requires Initial(s) && |s.workers| == 1
    ensures exists e :: Ends(s, e) && CountedAll(e, 1, 1)
  {
    OneAnsweredIsSound(s);
    OneAnsweredSums(s);
    var e := WayOut(OneAnswered(s));
    OneAnswer(s, e);
  }
}
