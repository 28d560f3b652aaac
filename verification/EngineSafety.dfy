/** What every interleaving of the engine keeps: lock ownership, the alive counter, one-shot closing. */
module EngineSafety {
  import opened EngineModel
  import opened Sums

  // ---------------------------------------------------------------- maxLock

  predicate WorkerHolds(pc: WorkerPc) {
    !(pc.AtLock? || pc.Waiting? || pc.Fetching? || pc.Dialing? || pc.FatalAtLock? || pc.Exiting? || pc.Gone?)
  }

  predicate MainHolds(m: MainPc) {
    m.Sweeping? || m.SwitchOff?
  }

  ghost predicate LockInv(s: State) {
    && (forall i: nat | i < |s.workers| :: WorkerHolds(s.workers[i].pc) <==> s.sh.lock == ByWorker(i))
    && (forall h: nat | h < |s.handles| :: s.handles[h].pc.DelLocked? <==> s.sh.lock == ByHandle(h))
    && (MainHolds(s.main) <==> s.sh.lock.ByMain?)
    && (s.sh.lock.ByWorker? ==> s.sh.lock.i < |s.workers|)
    && (s.sh.lock.ByHandle? ==> s.sh.lock.h < |s.handles|)
  }

  lemma WorkerLock(c: Config, i: nat, w: Worker, sh: Shared, out: Outcome)
    requires ValidConfig(c) && WorkerReady(c, i, w, sh)
    requires WorkerHolds(w.pc) <==> sh.lock == ByWorker(i)
    ensures var r := WorkerStep(c, i, w, sh, out);
            && (WorkerHolds(r.w.pc) <==> r.sh.lock == ByWorker(i))
            && (r.sh.lock == sh.lock || (sh.lock.Free? && r.sh.lock == ByWorker(i))
                || (sh.lock == ByWorker(i) && r.sh.lock.Free?))
            && (forall k | 0 <= k < |r.spawned| :: r.spawned[k].pc.Blocked?)
            && (w.pc != Counting ==> r.spawned == [])
  {
  }

  lemma HandleLock(c: Config, h: nat, hd: Handle, sh: Shared)
    requires ValidConfig(c) && HandleReady(c, hd, sh)
    requires hd.pc.DelLocked? <==> sh.lock == ByHandle(h)
    ensures var r := HandleStep(c, h, hd, sh);
            && (r.hd.pc.DelLocked? <==> r.sh.lock == ByHandle(h))
            && (r.sh.lock == sh.lock || (sh.lock.Free? && r.sh.lock == ByHandle(h))
                || (sh.lock == ByHandle(h) && r.sh.lock.Free?))
  {
  }

  lemma LockKept(c: Config, s: State, a: Action)
    requires ValidConfig(c) && LockInv(s) && Enabled(c, s, a)
    ensures LockInv(Apply(c, s, a))
  {
    match a
    case WorkerAct(i, out) => WorkerLock(c, i, s.workers[i], s.sh, out);
    case HandleAct(h) => HandleLock(c, h, s.handles[h], s.sh);
    case MainAct =>
    case CloseAct =>
  }

  // ---------------------------------------------------------------- aliveCount

  predicate Live(pc: HandlePc) {
    pc.Blocked? || pc.Running? || pc.Leaving?
  }

  function LiveUnit(hd: Handle): (n: int) {
    if Live(hd.pc) then 1 else 0
  }

  /** The number of handles started and not yet finished. */
  function LiveCount(hs: seq<Handle>): (n: int) {
    SumBy(hs, LiveUnit)
  }

  lemma CountSpawned(hs: seq<Handle>, spawned: seq<Handle>, n: int)
    requires (spawned == [] && n == 0) || (|spawned| == 1 && Live(spawned[0].pc) && n == 1)
    ensures LiveCount(hs + spawned) == LiveCount(hs) + n
  {
    if spawned == [] {
      assert hs + spawned == hs;
    } else {
      SumAppend(hs, spawned[0], LiveUnit);
      assert hs + spawned == hs + [spawned[0]];
    }
  }

  predicate Admitting(pc: WorkerPc) {
    pc.Admit? || pc.Counting?
  }

  ghost predicate AliveInv(c: Config, s: State) {
    && s.sh.alive == LiveCount(s.handles)
    && (c.limit > 0 ==> s.sh.alive <= c.limit)
    && (c.limit > 0 ==> forall i: nat | i < |s.workers| && Admitting(s.workers[i].pc) :: s.sh.alive < c.limit)
  }

  lemma WorkerAlive(c: Config, i: nat, w: Worker, sh: Shared, out: Outcome)
    requires ValidConfig(c) && WorkerReady(c, i, w, sh)
    requires c.limit > 0 && Admitting(w.pc) ==> sh.alive < c.limit
    ensures var r := WorkerStep(c, i, w, sh, out);
            && (if w.pc.Counting? then r.sh.alive == sh.alive + 1 && |r.spawned| == 1 && Live(r.spawned[0].pc)
                else r.sh.alive == sh.alive && r.spawned == [])
            && (c.limit > 0 && Admitting(r.w.pc) ==> sh.alive < c.limit && !w.pc.Counting?)
  {
  }

  /** A handle leaves the counter when it leaves the living, and never comes back. */
  lemma HandleAlive(c: Config, h: nat, hd: Handle, sh: Shared)
    requires ValidConfig(c) && HandleReady(c, hd, sh)
    ensures var r := HandleStep(c, h, hd, sh);
            r.sh.alive - sh.alive == LiveUnit(r.hd) - LiveUnit(hd) <= 0
  {
  }

  lemma AliveKeptByWorker(c: Config, s: State, i: nat, out: Outcome)
    requires ValidConfig(c) && LockInv(s) && AliveInv(c, s) && Enabled(c, s, WorkerAct(i, out))
    ensures AliveInv(c, Apply(c, s, WorkerAct(i, out)))
  {
    WorkerAlive(c, i, s.workers[i], s.sh, out);
    var r := WorkerStep(c, i, s.workers[i], s.sh, out);
    CountSpawned(s.handles, r.spawned, r.sh.alive - s.sh.alive);
  }

  lemma AliveKeptByHandle(c: Config, s: State, h: nat)
    requires ValidConfig(c) && AliveInv(c, s) && Enabled(c, s, HandleAct(h))
    ensures AliveInv(c, Apply(c, s, HandleAct(h)))
  {
    HandleAlive(c, h, s.handles[h], s.sh);
    SumUpdate(s.handles, h, HandleStep(c, h, s.handles[h], s.sh).hd, LiveUnit);
  }

  lemma AliveKept(c: Config, s: State, a: Action)
    requires ValidConfig(c) && LockInv(s) && AliveInv(c, s) && Enabled(c, s, a)
    ensures AliveInv(c, Apply(c, s, a))
  {
    match a
    case WorkerAct(i, out) => AliveKeptByWorker(c, s, i, out);
    case HandleAct(h) => AliveKeptByHandle(c, s, h);
    case MainAct =>
    case CloseAct =>
  }

  // ---------------------------------------------------------------- one-shot channels

  /** Branches that only a positive limit leads to. */
  predicate OverLimit(pc: WorkerPc) {
    pc.Full? || pc.HoldOn? || pc.Switching? || pc.Releasing? || pc.Waiting? || pc.Relocked?
  }

  predicate Joined(m: MainPc) {
    !(m.Starting? || m.SettingOn? || m.Joining?)
  }

  ghost predicate SwitchInv(c: Config, s: State) {
    var f := s.sh.flags;
    && !f.panicked
    && (c.limit <= 0 ==> forall i: nat | i < |s.workers| :: !OverLimit(s.workers[i].pc))
    && (c.limit > 0 ==> !s.main.SettingOn?)
    && (s.main.Starting? && c.limit <= 0 ==> !f.switchClosed)
    && (forall i: nat | i < |s.workers| && s.workers[i].pc.Switching? :: f.workloadon && !f.switchClosed)
    && (c.limit > 0 && !Joined(s.main) && !f.workloadon ==> !f.switchClosed)
    && (Joined(s.main) ==> AllGone(s.workers))
    && (f.destroyed <==> s.main.Finished?)
    && (s.main.Destroying? || s.main.Finished? ==> s.sh.alive == 0)
  }

  /** The flags a connector or acceptor changes, and where. */
  function FlagsAfter(c: Config, pc: WorkerPc, f: Flags): (r: Flags) {
    match pc
    case HoldOn => if c.exitmax then Close(f) else f.(workloadon := true)
    case Switching => CloseSwitch(f)
    case FatalLocked => Close(f)
    case _ => f
  }

  lemma WorkerFlags(c: Config, i: nat, w: Worker, sh: Shared, out: Outcome)
    requires ValidConfig(c) && WorkerReady(c, i, w, sh)
    ensures WorkerStep(c, i, w, sh, out).sh.flags == FlagsAfter(c, w.pc, sh.flags)
  {
  }

  lemma WorkerSwitch(c: Config, i: nat, w: Worker, sh: Shared, out: Outcome)
    requires ValidConfig(c) && WorkerReady(c, i, w, sh)
    requires c.limit <= 0 ==> !OverLimit(w.pc)
    ensures var r := WorkerStep(c, i, w, sh, out);
            && (c.limit <= 0 ==> !OverLimit(r.w.pc))
            && (r.w.pc.Switching? ==> w.pc.HoldOn? && !c.exitmax && !sh.flags.workloadon)
  {
  }

  lemma SwitchKeptByWorker(c: Config, s: State, i: nat, out: Outcome)
    requires ValidConfig(c) && LockInv(s) && SwitchInv(c, s) && Enabled(c, s, WorkerAct(i, out))
    ensures SwitchInv(c, Apply(c, s, WorkerAct(i, out)))
  {
    assert !Joined(s.main);
    WorkerSwitch(c, i, s.workers[i], s.sh, out);
    WorkerFlags(c, i, s.workers[i], s.sh, out);
  }

  lemma LiveIsCounted(hs: seq<Handle>, h: nat)
    requires h < |hs| && Live(hs[h].pc)
    ensures LiveCount(hs) >= 1
  {
    SumCovers(hs, h, LiveUnit);
  }

  lemma SwitchKeptByHandle(c: Config, s: State, h: nat)
    requires ValidConfig(c) && AliveInv(c, s) && SwitchInv(c, s) && Enabled(c, s, HandleAct(h))
    ensures SwitchInv(c, Apply(c, s, HandleAct(h)))
  {
    HandleAlive(c, h, s.handles[h], s.sh);
    if Live(s.handles[h].pc) {
      LiveIsCounted(s.handles, h);
    }
  }

  lemma SwitchKept(c: Config, s: State, a: Action)
    requires ValidConfig(c) && LockInv(s) && AliveInv(c, s) && SwitchInv(c, s) && Enabled(c, s, a)
    ensures SwitchInv(c, Apply(c, s, a))
  {
    match a
    case WorkerAct(i, out) => SwitchKeptByWorker(c, s, i, out);
    case HandleAct(h) => SwitchKeptByHandle(c, s, h);
    case MainAct =>
    case CloseAct =>
  }

  // ---------------------------------------------------------------- every run

  ghost predicate Safe(c: Config, s: State) {
    LockInv(s) && AliveInv(c, s) && SwitchInv(c, s)
  }

  lemma {:induction false} ExecKeepsSafe(c: Config, s: State, acts: seq<Action>)
    requires ValidConfig(c) && Safe(c, s) && Legal(c, s, acts)
    ensures Safe(c, Exec(c, s, acts))
    decreases |acts|
  {
    if acts != [] {
      LockKept(c, s, acts[0]);
      AliveKept(c, s, acts[0]);
      SwitchKept(c, s, acts[0]);
      ExecKeepsSafe(c, Apply(c, s, acts[0]), acts[1..]);
    }
  }

  lemma InitialIsSafe(c: Config, s: State)
    requires ValidConfig(c) && Initial(c, s)
    ensures Safe(c, s)
  {
  }

  /** The counter is the number of live handles and a positive limit is never exceeded. */
  lemma AliveCountExact(c: Config, s: State, acts: seq<Action>)
    requires ValidConfig(c) && Initial(c, s) && Legal(c, s, acts)
    ensures var e := Exec(c, s, acts);
            e.sh.alive == LiveCount(e.handles) && (c.limit > 0 ==> e.sh.alive <= c.limit)
  {
    InitialIsSafe(c, s);
    ExecKeepsSafe(c, s, acts);
  }

  /** The steps that run close(workswitch), at their three places. */
  predicate ClosesSwitch(c: Config, s: State, a: Action) {
    match a
    case WorkerAct(i, _) => i < |s.workers| && s.workers[i].pc.Switching?
    case MainAct => (s.main.Starting? && c.limit <= 0) || (s.main.SwitchOff? && !s.sh.flags.switchClosed)
    case _ => false
  }

  /** Neither one-shot channel is ever closed twice, across all of its closing sites. */
  lemma NoDoubleClose(c: Config, s: State, acts: seq<Action>)
    requires ValidConfig(c) && Initial(c, s) && Legal(c, s, acts)
    ensures var e := Exec(c, s, acts);
            && !e.sh.flags.panicked
            && (forall a | Enabled(c, e, a) && ClosesSwitch(c, e, a) :: !e.sh.flags.switchClosed)
            && (e.main.Destroying? ==> !e.sh.flags.destroyed)
  {
    InitialIsSafe(c, s);
    ExecKeepsSafe(c, s, acts);
  }

  /** Only those steps close the switch, and each of them does; the second time it would panic. */
  lemma SwitchClosedHere(c: Config, s: State, a: Action)
    requires ValidConfig(c) && Enabled(c, s, a)
    ensures Apply(c, s, a).sh.flags.switchClosed <==> s.sh.flags.switchClosed || ClosesSwitch(c, s, a)
    ensures ClosesSwitch(c, s, a) && s.sh.flags.switchClosed ==> Apply(c, s, a).sh.flags.panicked
  {
    if a.WorkerAct? {
      WorkerFlags(c, a.i, s.workers[a.i], s.sh, a.out);
    }
  }

  /** Once `destroyed` is closed no handle is live, and none is in any continuation of the run. */
  lemma DestroyedIsFinal(c: Config, s: State, acts: seq<Action>, later: seq<Action>)
    requires ValidConfig(c) && Initial(c, s) && Legal(c, s, acts) && Legal(c, Exec(c, s, acts), later)
    requires Exec(c, s, acts).sh.flags.destroyed
    ensures var e := Exec(c, Exec(c, s, acts), later);
            && e.sh.flags.destroyed && AllGone(e.workers)
            && (forall h: nat | h < |e.handles| :: !Live(e.handles[h].pc))
            && |e.handles| == |Exec(c, s, acts).handles|
  {
    InitialIsSafe(c, s);
    ExecKeepsSafe(c, s, acts);
    StaysDestroyed(c, Exec(c, s, acts), later);
    ExecKeepsSafe(c, Exec(c, s, acts), later);
    var e := Exec(c, Exec(c, s, acts), later);
    forall h: nat | h < |e.handles|
      ensures !Live(e.handles[h].pc)
    {
      if Live(e.handles[h].pc) {
        LiveIsCounted(e.handles, h);
      }
    }
  }

  lemma {:induction false} StaysDestroyed(c: Config, s: State, acts: seq<Action>)
    requires ValidConfig(c) && Safe(c, s) && s.sh.flags.destroyed && Legal(c, s, acts)
    ensures Exec(c, s, acts).sh.flags.destroyed && |Exec(c, s, acts).handles| == |s.handles|
    decreases |acts|
  {
    if acts != [] {
      LockKept(c, s, acts[0]);
      AliveKept(c, s, acts[0]);
      SwitchKept(c, s, acts[0]);
      assert !acts[0].WorkerAct?;
      StaysDestroyed(c, Apply(c, s, acts[0]), acts[1..]);
    }
  }
}
