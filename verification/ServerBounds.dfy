/** What stays bounded in the server: channels, batches and the pool buffers of a service. */
module ServerBounds {
  import opened ServerCounts
  import opened ServerConservation
  import opened Sums

  predicate Bounded(ch: Chan) {
    |ch.items| <= 4096
  }

  /** Only batches of at least one connection are started and announced. */
  predicate StartsSome(w: Worker) {
    w.pc.Launching? || w.pc.Reporting? ==> w.batch >= 1 && w.launched <= w.batch
                                           && (w.pc.Reporting? ==> w.launched == w.batch)
  }

  ghost predicate Announced(ch: Chan) {
    forall k | 0 <= k < |ch.items| :: ch.items[k] >= 1
  }

  /** A service has its method buffer from the start and at most two more, until it gives them back. */
  predicate HoldsFew(sv: Service) {
    sv.held <= 3 && (sv.pc.LastReport? || sv.pc.ServiceDone? ==> sv.held == 0)
    && (sv.pc.Serving? || sv.pc.Flushing? || sv.pc.SayingClosed? || sv.pc.GivingBack? ==> sv.held >= 1)
  }

  ghost predicate BoundsInv(s: State) {
    && Bounded(s.sh.accepted) && Bounded(s.sh.requests) && Bounded(s.sh.closed) && Announced(s.sh.accepted)
    && (forall i: nat | i < |s.workers| ::
          StartsSome(s.workers[i]) && (s.workers[i].pc.Accepting? ==> s.workers[i].launched == 0))
    && (forall k: nat | k < |s.services| :: HoldsFew(s.services[k]))
  }

  lemma WorkerBounds(i: nat, w: Worker, sh: Shared, turn: Turn)
    requires StartsSome(w) && (w.pc.Accepting? ==> w.launched == 0) && Bounded(sh.accepted) && Announced(sh.accepted)
    requires WorkerReady(w, sh, true) && !sh.accepted.closed
    ensures var r := WorkerStep(i, w, sh, turn);
            && StartsSome(r.w) && (r.w.pc.Accepting? ==> r.w.launched == 0)
            && Bounded(r.sh.accepted) && Announced(r.sh.accepted)
            && r.sh.requests == sh.requests && r.sh.closed == sh.closed
            && forall k | 0 <= k < |r.launched| :: HoldsFew(r.launched[k])
  {
  }

  lemma ServiceBounds(sv: Service, sh: Shared, choice: Choice)
    requires HoldsFew(sv) && Bounded(sh.requests) && Bounded(sh.closed) && ServiceReady(sv, sh)
    requires !sh.requests.closed && !sh.closed.closed
    ensures var r := ServiceStep(sv, sh, choice);
            HoldsFew(r.sv) && Bounded(r.sh.requests) && Bounded(r.sh.closed) && r.sh.accepted == sh.accepted
  {
  }

  lemma BoundsKept(s: State, a: Action)
    requires Inv(s) && BoundsInv(s) && Enabled(s, a)
    ensures BoundsInv(Apply(s, a))
  {
    match a
    case WorkerAct(i, turn) =>
      assert s.main.WaitWorkers?;
      WorkerBounds(i, s.workers[i], s.sh, turn);
    case ServiceAct(k, choice) =>
      assert s.main.WaitWorkers?;
      ServiceBounds(s.services[k], s.sh, choice);
    case _ =>
  }

  lemma {:induction false} ExecKeepsBounds(s: State, acts: seq<Action>)
    requires Inv(s) && BoundsInv(s) && Legal(s, acts)
    ensures BoundsInv(Exec(s, acts))
    decreases |acts|
  {
    if acts != [] {
      BoundsKept(s, acts[0]);
      ApplyKeeps(s, acts[0]);
      ExecKeepsBounds(Apply(s, acts[0]), acts[1..]);
    }
  }

  /**
   * In every run no channel holds more than its capacity, no empty batch is announced, and every service
   * holds between one and three pool buffers until it gives all of them back.
   */
  lemma ServerIsBounded(s: State, acts: seq<Action>)
    requires Initial(s) && Legal(s, acts)
    ensures var e := Exec(s, acts);
            && |e.sh.accepted.items| <= 4096 && |e.sh.requests.items| <= 4096 && |e.sh.closed.items| <= 4096
            && (forall k | 0 <= k < |e.sh.accepted.items| :: e.sh.accepted.items[k] >= 1)
            && (forall k: nat | k < |e.services| :: HoldsFew(e.services[k]))
  {
    SumZero(s.workers, Unannounced);
    assert forall i: nat | i < |s.workers| :: s.workers[i] == Worker(Accepting, 0, 0);
    ExecKeepsBounds(s, acts);
  }

  /** A serving connection takes two more buffers, one by one, and no third. */
  lemma TakesTwoMore(sv: Service, sh: Shared)
    requires sv.pc.Serving? && sv.held == 1
    ensures var r := ServiceStep(sv, sh, TakeBuffer); var q := ServiceStep(r.sv, r.sh, TakeBuffer);
            && q.sv == sv.(held := 3) && q.sh == sh.(bufs := sh.bufs.(taken := sh.bufs.taken + 2))
            && ServiceStep(q.sv, q.sh, TakeBuffer) == q
  {
  }

  /** A full channel holds its sender up, and a receive lets it go on. */
  lemma FullChannelWaits(s: State, k: nat)
    requires Inv(s) && k < |s.services| && s.services[k].pc.Flushing? && |s.sh.requests.items| == 4096
    ensures !Enabled(s, ServiceAct(k, Answer)) && Enabled(s, CountRequests)
    ensures Enabled(Apply(s, CountRequests), ServiceAct(k, Answer))
  {
    assert s.main.WaitWorkers?;
  }
}
