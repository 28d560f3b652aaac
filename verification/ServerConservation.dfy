/** Nothing is counted twice or lost: the balances of ServerCounts over every interleaving. */
module ServerConservation {
  import opened ServerCounts
  import opened Sums

  function Total(items: seq<nat>): (n: int) {
    SumBy(items, Itself)
  }

  // ---------------------------------------------------------------- balances

  /** Services a worker has launched but not yet announced. */
  function Unannounced(w: Worker): (n: int) {
    if w.pc.Launching? || w.pc.Reporting? then w.launched else 0
  }

  function SaidClosed(sv: Service): (n: int) {
    if sv.pc.GivingBack? || sv.pc.LastReport? || sv.pc.ServiceDone? then 1 else 0
  }

  function Requests(sv: Service): (n: int) {
    sv.total
  }

  function Unreported(sv: Service): (n: int) {
    sv.out
  }

  function Holding(sv: Service): (n: int) {
    sv.held
  }

  ghost predicate AcceptedBalance(s: State) {
    s.sh.sums.accepted + Total(s.sh.accepted.items) + SumBy(s.workers, Unannounced) == |s.services|
  }

  ghost predicate RequestBalance(s: State) {
    s.sh.sums.finished + Total(s.sh.requests.items) + SumBy(s.services, Unreported) == SumBy(s.services, Requests)
  }

  ghost predicate ClosedBalance(s: State) {
    s.sh.sums.closed + Total(s.sh.closed.items) == SumBy(s.services, SaidClosed)
  }

  ghost predicate BufferBalance(s: State) {
    s.sh.bufs.taken == s.sh.bufs.returned + SumBy(s.services, Holding)
  }

  ghost predicate Tidy(s: State) {
    && (forall i: nat | i < |s.workers| && s.workers[i].pc.Accepting? :: s.workers[i].launched == 0)
    && (forall k: nat | k < |s.services| && s.services[k].pc.ServiceDone? ::
          s.services[k].out == 0 && s.services[k].held == 0)
    && (forall k: nat | k < |s.services| && s.services[k].pc.LastReport? :: s.services[k].held == 0)
  }

  lemma WorkerEffect(i: nat, w: Worker, sh: Shared, turn: Turn)
    requires w.pc.Accepting? ==> w.launched == 0
    ensures var r := WorkerStep(i, w, sh, turn);
            && |r.launched| <= 1 && r.sh.sums == sh.sums && r.sh.requests == sh.requests && r.sh.closed == sh.closed
            && (if w.pc.Reporting? then r.sh.accepted == Send(sh.accepted, w.launched) && Unannounced(r.w) == 0
                else r.sh.accepted == sh.accepted && Unannounced(r.w) == Unannounced(w) + |r.launched|)
            && (w.pc.Reporting? ==> r.launched == [])
            && (r.launched != [] ==> r.launched[0] == Service(i, Serving, 0, 0, 1))
            && r.sh.bufs == sh.bufs.(taken := sh.bufs.taken + |r.launched|)
            && (r.w.pc.Accepting? ==> r.w.launched == 0)
  {
  }

  lemma WorkerKeeps(s: State, i: nat, turn: Turn)
    requires Tidy(s) && Enabled(s, WorkerAct(i, turn))
    requires AcceptedBalance(s) && RequestBalance(s) && ClosedBalance(s) && BufferBalance(s)
    ensures var s' := Apply(s, WorkerAct(i, turn));
            AcceptedBalance(s') && RequestBalance(s') && ClosedBalance(s') && BufferBalance(s')
  {
    var w, r := s.workers[i], WorkerStep(i, s.workers[i], s.sh, turn);
    WorkerEffect(i, w, s.sh, turn);
    SumUpdate(s.workers, i, r.w, Unannounced);
    if w.pc.Reporting? {
      SumAppend(s.sh.accepted.items, w.launched, Itself);
    }
    if r.launched == [] {
      assert s.services + r.launched == s.services;
    } else {
      assert r.launched == [r.launched[0]];
      LaunchSums(s.services, r.launched[0]);
    }
  }

  lemma LaunchSums(services: seq<Service>, sv: Service)
    requires sv.pc.Serving? && sv.total == 0 && sv.out == 0 && sv.held == 1
    ensures var after := services + [sv];
            && SumBy(after, Unreported) == SumBy(services, Unreported)
            && SumBy(after, Requests) == SumBy(services, Requests)
            && SumBy(after, SaidClosed) == SumBy(services, SaidClosed)
            && SumBy(after, Holding) == SumBy(services, Holding) + 1
  {
    SumAppend(services, sv, Unreported);
    SumAppend(services, sv, Requests);
    SumAppend(services, sv, SaidClosed);
    SumAppend(services, sv, Holding);
  }

  lemma ServiceEffect(sv: Service, sh: Shared, choice: Choice)
    ensures var r := ServiceStep(sv, sh, choice);
            && r.sh.sums == sh.sums && r.sh.accepted == sh.accepted && r.sv.owner == sv.owner
            && (if sv.pc.Flushing? || sv.pc.LastReport?
                then r.sh.requests == Send(sh.requests, sv.out) && r.sv.out == 0 && r.sv.total == sv.total
                else r.sh.requests == sh.requests && r.sv.total - sv.total == r.sv.out - sv.out)
            && (if sv.pc.SayingClosed?
                then r.sh.closed == Send(sh.closed, 1) && SaidClosed(r.sv) == 1 && SaidClosed(sv) == 0
                else r.sh.closed == sh.closed && SaidClosed(r.sv) == SaidClosed(sv))
            && r.sh.bufs.taken - r.sh.bufs.returned == sh.bufs.taken - sh.bufs.returned + r.sv.held - sv.held
  {
  }

  lemma ServiceKeepsBalances(s: State, k: nat, choice: Choice)
    requires Enabled(s, ServiceAct(k, choice))
    requires AcceptedBalance(s) && RequestBalance(s) && ClosedBalance(s) && BufferBalance(s)
    ensures var s' := Apply(s, ServiceAct(k, choice));
            AcceptedBalance(s') && RequestBalance(s') && ClosedBalance(s') && BufferBalance(s')
  {
    var sv, r := s.services[k], ServiceStep(s.services[k], s.sh, choice);
    ServiceEffect(sv, s.sh, choice);
    SumUpdate(s.services, k, r.sv, Unreported);
    SumUpdate(s.services, k, r.sv, Requests);
    SumUpdate(s.services, k, r.sv, SaidClosed);
    SumUpdate(s.services, k, r.sv, Holding);
    SumAppend(s.sh.requests.items, sv.out, Itself);
    SumAppend(s.sh.closed.items, 1, Itself);
  }

  lemma TidyKept(s: State, a: Action)
    requires Tidy(s) && Enabled(s, a)
    ensures Tidy(Apply(s, a))
  {
    if a.WorkerAct? {
      WorkerEffect(a.i, s.workers[a.i], s.sh, a.turn);
    }
  }

  lemma ReceiveTotal(ch: Chan)
    requires CanReceive(ch)
    ensures Total(Receive(ch).items) + Amount(ch) == Total(ch.items)
  {
    if ch.items != [] {
      SumFirst(ch.items, Itself);
    }
  }

  /** All four balances. */
  ghost predicate Balanced(s: State) {
    AcceptedBalance(s) && RequestBalance(s) && ClosedBalance(s) && BufferBalance(s)
  }

  lemma AcceptedCounted(s: State)
    requires Enabled(s, CountAccepted) && Balanced(s)
    ensures Balanced(Apply(s, CountAccepted))
  {
    ReceiveTotal(s.sh.accepted);
  }

  lemma RequestsCounted(s: State)
    requires Enabled(s, CountRequests) && Balanced(s)
    ensures Balanced(Apply(s, CountRequests))
  {
    ReceiveTotal(s.sh.requests);
  }

  lemma ClosedCounted(s: State)
    requires Enabled(s, CountClosed) && Balanced(s)
    ensures Balanced(Apply(s, CountClosed))
  {
    ReceiveTotal(s.sh.closed);
  }

  lemma CounterKeeps(s: State, a: Action)
    requires Enabled(s, a) && (a.MainAct? || a.CountAccepted? || a.CountRequests? || a.CountClosed?) && Balanced(s)
    ensures Balanced(Apply(s, a))
  {
    match a
    case CountAccepted => AcceptedCounted(s);
    case CountRequests => RequestsCounted(s);
    case CountClosed => ClosedCounted(s);
    case _ =>
  }

  // ---------------------------------------------------------------- closing order

  ghost predicate HeldBack(s: State) {
    && (forall k: nat | k < |s.services| :: s.services[k].owner < |s.workers|)
    && (forall k: nat | k < |s.services| && s.services[k].owner < |s.workers|
           && s.workers[s.services[k].owner].pc.WorkerDone? :: s.services[k].pc.ServiceDone?)
    && (!s.main.WaitWorkers? ==> WorkersDone(s.workers))
    && (s.sh.accepted.closed || s.sh.requests.closed || s.sh.closed.closed ==> !s.main.WaitWorkers?)
    && !s.sh.panicked
  }

  ghost predicate SeenOk(ch: Chan) {
    ch.seenClosed ==> ch.closed && ch.items == []
  }

  ghost predicate SeenInv(s: State) {
    SeenOk(s.sh.accepted) && SeenOk(s.sh.requests) && SeenOk(s.sh.closed)
  }

  /** Channels are closed only after the last send, so no send ever hits a closed channel. */
  lemma ClosingKept(s: State, a: Action)
    requires Enabled(s, a) && HeldBack(s) && SeenInv(s)
    ensures HeldBack(Apply(s, a)) && SeenInv(Apply(s, a))
  {
    match a
    case WorkerAct(i, turn) =>
      assert s.main.WaitWorkers?;
    case ServiceAct(k, choice) =>
      assert s.main.WaitWorkers?;
    case _ =>
  }

  ghost predicate Inv(s: State) {
    && Tidy(s) && HeldBack(s) && SeenInv(s)
    && AcceptedBalance(s) && RequestBalance(s) && ClosedBalance(s) && BufferBalance(s)
  }

  lemma ApplyKeeps(s: State, a: Action)
    requires Inv(s) && Enabled(s, a)
    ensures Inv(Apply(s, a))
  {
    ClosingKept(s, a);
    TidyKept(s, a);
    match a
    case WorkerAct(i, turn) => WorkerKeeps(s, i, turn);
    case ServiceAct(k, choice) => ServiceKeepsBalances(s, k, choice);
    case _ => CounterKeeps(s, a);
  }

  lemma {:induction false} ExecKeeps(s: State, acts: seq<Action>)
    requires Inv(s) && Legal(s, acts)
    ensures Inv(Exec(s, acts))
    decreases |acts|
  {
    if acts != [] {
      ApplyKeeps(s, acts[0]);
      ExecKeeps(Apply(s, acts[0]), acts[1..]);
    }
  }

  /** A step that sends on a channel which has been closed: a panic. */
  predicate SendsOnClosed(s: State, a: Action) {
    match a
    case WorkerAct(i, _) => i < |s.workers| && s.workers[i].pc.Reporting? && s.sh.accepted.closed
    case ServiceAct(k, _) =>
      k < |s.services| && SendClosed(s.services[k], s.sh)
    case _ => false
  }

  predicate SendClosed(sv: Service, sh: Shared) {
    (sv.pc.SayingClosed? && sh.closed.closed) || ((sv.pc.Flushing? || sv.pc.LastReport?) && sh.requests.closed)
  }

  lemma PanicsExactly(s: State, a: Action)
    requires Enabled(s, a)
    ensures Apply(s, a).sh.panicked <==> s.sh.panicked || SendsOnClosed(s, a)
  {
    match a
    case WorkerAct(i, turn) => WorkerPanics(i, s.workers[i], s.sh, turn);
    case ServiceAct(k, choice) => ServicePanics(s.services[k], s.sh, choice);
    case _ =>
  }

  lemma WorkerPanics(i: nat, w: Worker, sh: Shared, turn: Turn)
    ensures WorkerStep(i, w, sh, turn).sh.panicked <==> sh.panicked || (w.pc.Reporting? && sh.accepted.closed)
  {
  }

  lemma ServicePanics(sv: Service, sh: Shared, choice: Choice)
    ensures ServiceStep(sv, sh, choice).sh.panicked <==> sh.panicked || SendClosed(sv, sh)
  {
  }

  /** No step of any goroutine can send on a closed channel, in any state of any run. */
  lemma NobodySendsOnClosed(s: State, acts: seq<Action>, a: Action)
    requires Initial(s) && Legal(s, acts) && Enabled(Exec(s, acts), a)
    ensures !SendsOnClosed(Exec(s, acts), a)
  {
    SumZero(s.workers, Unannounced);
    ExecKeeps(s, acts);
    ClosingKept(Exec(s, acts), a);
    PanicsExactly(Exec(s, acts), a);
  }

  /** `requestCounter` ends when it has seen all three channels closed. */
  predicate CounterFinished(s: State) {
    s.sh.accepted.seenClosed && s.sh.requests.seenClosed && s.sh.closed.seenClosed
  }

  /**
   * When the counter finishes, accepted and closed both equal the number of services, finished equals
   * all requests of all services, and every pool buffer taken has been returned; no send panicked.
   */
  lemma CountsAddUp(s: State, acts: seq<Action>)
    requires Initial(s) && Legal(s, acts)
    ensures var e := Exec(s, acts);
            && !e.sh.panicked
            && (CounterFinished(e) ==>
                  && e.sh.sums.accepted == e.sh.sums.closed == |e.services|
                  && e.sh.sums.finished == SumBy(e.services, Requests)
                  && e.sh.bufs.taken == e.sh.bufs.returned)
  {
    SumZero(s.workers, Unannounced);
    ExecKeeps(s, acts);
    var e := Exec(s, acts);
    if CounterFinished(e) {
      AllSettled(e);
    }
  }

  lemma AllSettled(e: State)
    requires Inv(e) && CounterFinished(e)
    ensures SumBy(e.workers, Unannounced) == 0 && SumBy(e.services, Unreported) == 0
    ensures SumBy(e.services, Holding) == 0 && SumBy(e.services, SaidClosed) == |e.services|
  {
    SumZero(e.workers, Unannounced);
    SumZero(e.services, Unreported);
    SumZero(e.services, Holding);
    AllClosed(e.services);
  }

  lemma {:induction false} AllClosed(services: seq<Service>)
    requires forall k | 0 <= k < |services| :: services[k].pc.ServiceDone?
    ensures SumBy(services, SaidClosed) == |services|
  {
    if services != [] {
      AllClosed(services[..|services| - 1]);
    }
  }
}
