/** When the engine can be at rest: nobody moves exactly when the shutdown has finished or the engine is stuck. */
module EngineProgress {
  import opened EngineModel
  import opened EngineSafety
  import opened EngineAddresses
  import opened Sums

  // ---------------------------------------------------------------- who can move

  /** A step somebody prompts: a sleeping worker is woken below the limit only, as the ticker does it. */
  predicate Prompted(c: Config, s: State, a: Action)
    requires ValidConfig(c)
  {
    && !a.CloseAct? && Enabled(c, s, a)
    && (a.WorkerAct? && s.workers[a.i].pc.Waiting? ==> s.sh.alive < c.limit)
  }

  ghost predicate Moves(c: Config, s: State)
    requires ValidConfig(c)
  {
    exists a :: Prompted(c, s, a)
  }

  /** A connector that waits for an address, or is done. */
  predicate Starved(c: Config, i: nat, w: Worker, pools: seq<seq<nat>>) {
    w.pc.Gone? || (!c.listen && w.pc.Fetching? && i < |pools| && pools[i] == [])
  }

  /** A handle that waits for the start switch, or is done. */
  predicate Parked(hd: Handle, f: Flags) {
    hd.pc.Ended? || (hd.pc.Blocked? && !f.switchClosed)
  }

  /** Client mode before the switch: all pools are empty and all their indices are with blocked handles. */
  ghost predicate Stuck(c: Config, s: State) {
    && s.main.Joining? && s.sh.lock.Free? && !AllGone(s.workers)
    && (forall i: nat | i < |s.workers| :: Starved(c, i, s.workers[i], s.sh.pools))
    && (forall h: nat | h < |s.handles| :: Parked(s.handles[h], s.sh.flags))
  }

  // ---------------------------------------------------------------- the start switch

  /** The switch is closed as soon as the work load is on, up to the worker about to close it. */
  ghost predicate OnInv(s: State) {
    var f, o := s.sh.flags, s.sh.lock;
    && (f.workloadon && !f.switchClosed ==> o.ByWorker? && o.i < |s.workers| && s.workers[o.i].pc.Switching?)
    && (s.main.SettingOn? || s.main.Draining? || s.main.Destroying? || s.main.Finished? ==> f.switchClosed)
    && (forall i: nat | i < |s.workers| :: AfterSwitch(s.workers[i].pc) ==> f.workloadon)
  }

  predicate AfterSwitch(pc: WorkerPc) {
    pc.Switching? || pc.Releasing? || pc.Waiting?
  }

  lemma WorkerOn(c: Config, i: nat, w: Worker, sh: Shared, out: Outcome)
    requires ValidConfig(c) && WorkerReady(c, i, w, sh) && (WorkerHolds(w.pc) <==> sh.lock == ByWorker(i))
    ensures var r := WorkerStep(c, i, w, sh, out);
            && (AfterSwitch(r.w.pc) ==> AfterSwitch(w.pc) || (w.pc.HoldOn? && !c.exitmax))
            && (w.pc.HoldOn? && !c.exitmax && !sh.flags.workloadon ==> r.w.pc.Switching? && r.sh.lock == ByWorker(i))
  {
  }

  lemma OnKeptByWorker(c: Config, s: State, i: nat, out: Outcome)
    requires ValidConfig(c) && LockInv(s) && OnInv(s) && Enabled(c, s, WorkerAct(i, out))
    ensures OnInv(Apply(c, s, WorkerAct(i, out)))
  {
    WorkerOn(c, i, s.workers[i], s.sh, out);
    WorkerFlags(c, i, s.workers[i], s.sh, out);
    WorkerLock(c, i, s.workers[i], s.sh, out);
  }

  lemma OnKept(c: Config, s: State, a: Action)
    requires ValidConfig(c) && LockInv(s) && OnInv(s) && Enabled(c, s, a)
    ensures OnInv(Apply(c, s, a))
  {
    match a
    case WorkerAct(i, out) => OnKeptByWorker(c, s, i, out);
    case HandleAct(h) => HandleLock(c, h, s.handles[h], s.sh);
    case MainAct =>
    case CloseAct =>
  }

  // ---------------------------------------------------------------- every reachable state

  /** In listen mode no handle has an address index to return. */
  ghost predicate NoneReturns(s: State) {
    forall h: nat | h < |s.handles| :: !s.handles[h].pc.Returning?
  }

  ghost predicate Sound(c: Config, s: State)
    requires ValidConfig(c)
  {
    Safe(c, s) && OnInv(s) && if c.listen then NoneReturns(s) else OwnInv(c, s)
  }

  lemma NoneReturnsKept(c: Config, s: State, a: Action)
    requires ValidConfig(c) && c.listen && NoneReturns(s) && Enabled(c, s, a)
    ensures NoneReturns(Apply(c, s, a))
  {
    if a.WorkerAct? {
      SpawnedAreBlocked(c, a.i, s.workers[a.i], s.sh, a.out);
    }
  }

  lemma SpawnedAreBlocked(c: Config, i: nat, w: Worker, sh: Shared, out: Outcome)
    requires ValidConfig(c) && WorkerReady(c, i, w, sh)
    ensures forall k | 0 <= k < |WorkerStep(c, i, w, sh, out).spawned| ::
              WorkerStep(c, i, w, sh, out).spawned[k].pc.Blocked?
  {
  }

  lemma SoundKept(c: Config, s: State, a: Action)
    requires ValidConfig(c) && Sound(c, s) && Enabled(c, s, a)
    ensures Sound(c, Apply(c, s, a))
  {
    LockKept(c, s, a);
    AliveKept(c, s, a);
    SwitchKept(c, s, a);
    OnKept(c, s, a);
    if c.listen {
      NoneReturnsKept(c, s, a);
    } else {
      OwnKept(c, s, a);
    }
  }

  lemma {:induction false} ExecKeepsSound(c: Config, s: State, acts: seq<Action>)
    requires ValidConfig(c) && Sound(c, s) && Legal(c, s, acts)
    ensures Sound(c, Exec(c, s, acts))
    decreases |acts|
  {
    if acts != [] {
      SoundKept(c, s, acts[0]);
      ExecKeepsSound(c, Apply(c, s, acts[0]), acts[1..]);
    }
  }

  lemma InitialIsSound(c: Config, s: State)
    requires ValidConfig(c) && Initial(c, s)
    ensures Sound(c, s)
  {
    InitialIsSafe(c, s);
  }

  // ---------------------------------------------------------------- somebody moves

  lemma HolderCanMove(c: Config, s: State)
    requires ValidConfig(c) && Sound(c, s) && !s.sh.lock.Free?
    ensures Moves(c, s)
  {
    match s.sh.lock
    case ByWorker(i) =>
      if s.workers[i].pc.Full? && !c.listen && s.workers[i].newconn {
        AddToPool(c, i, s.sh.pools[i], s.workers[i].key);
      }
      assert Prompted(c, s, WorkerAct(i, Connected));
    case ByHandle(h) => assert Prompted(c, s, HandleAct(h));
    case ByMain => assert Prompted(c, s, MainAct);
  }

  /** With the lock free a handle moves unless it is done or waits for the switch. */
  lemma HandleCanMove(c: Config, s: State, h: nat)
    requires ValidConfig(c) && Sound(c, s) && s.sh.lock.Free? && h < |s.handles| && !Parked(s.handles[h], s.sh.flags)
    ensures Moves(c, s)
  {
    var hd := s.handles[h];
    if hd.pc.Returning? {
      AddToPool(c, hd.idx, s.sh.pools[hd.idx], hd.key);
    }
    assert Prompted(c, s, HandleAct(h));
  }

  /** Live handles that cannot move wait for the switch. */
  lemma LiveCanMove(c: Config, s: State)
    requires ValidConfig(c) && Sound(c, s) && s.sh.lock.Free? && s.sh.alive > 0 && s.sh.flags.switchClosed
    ensures Moves(c, s)
  {
    if forall h | 0 <= h < |s.handles| :: LiveUnit(s.handles[h]) == 0 {
      SumZero(s.handles, LiveUnit);
    } else {
      var h :| 0 <= h < |s.handles| && LiveUnit(s.handles[h]) != 0;
      HandleCanMove(c, s, h);
    }
  }

  lemma WorkerCanMove(c: Config, s: State, i: nat)
    requires ValidConfig(c) && Sound(c, s) && s.sh.lock.Free? && i < |s.workers|
    requires !Starved(c, i, s.workers[i], s.sh.pools)
    ensures Moves(c, s)
  {
    var w := s.workers[i];
    assert !WorkerHolds(w.pc);
    if w.pc.Waiting? && s.sh.alive >= c.limit {
      LiveCanMove(c, s);
    } else {
      assert Prompted(c, s, WorkerAct(i, Connected));
    }
  }

  lemma MainCanMove(c: Config, s: State)
    requires ValidConfig(c) && Sound(c, s) && s.sh.lock.Free? && AllGone(s.workers) && !s.main.Finished?
    ensures Moves(c, s)
  {
    if s.main.Draining? && s.sh.alive != 0 {
      AliveNotNegative(s.handles);
      LiveCanMove(c, s);
    } else {
      assert Prompted(c, s, MainAct);
    }
  }

  lemma AliveNotNegative(hs: seq<Handle>)
    ensures LiveCount(hs) >= 0
  {
    if hs != [] {
      SumCovers(hs, 0, LiveUnit);
    }
  }

  lemma StuckRests(c: Config, s: State)
    requires ValidConfig(c) && Stuck(c, s)
    ensures !Moves(c, s)
  {
    forall a
      ensures !Prompted(c, s, a)
    {
      match a
      case WorkerAct(i, out) => assert i < |s.workers| ==> Starved(c, i, s.workers[i], s.sh.pools);
      case HandleAct(h) => assert h < |s.handles| ==> Parked(s.handles[h], s.sh.flags);
      case MainAct =>
      case CloseAct =>
    }
  }

  /** In a sound state somebody moves unless the shutdown has finished or the engine is stuck. */
  lemma SomebodyMoves(c: Config, s: State)
    requires ValidConfig(c) && Sound(c, s) && !s.main.Finished?
    ensures Moves(c, s) <==> !Stuck(c, s)
  {
    if Stuck(c, s) {
      StuckRests(c, s);
    } else if !s.sh.lock.Free? {
      HolderCanMove(c, s);
    } else if i: nat :| i < |s.workers| && !Starved(c, i, s.workers[i], s.sh.pools) {
      WorkerCanMove(c, s, i);
    } else if AllGone(s.workers) {
      MainCanMove(c, s);
    } else if !s.main.Joining? {
      assert !Joined(s.main);
      assert Prompted(c, s, MainAct);
    } else {
      var h: nat :| h < |s.handles| && !Parked(s.handles[h], s.sh.flags);
      HandleCanMove(c, s, h);
    }
  }

  lemma ListenNeverStuck(c: Config, s: State)
    requires c.listen
    ensures !Stuck(c, s)
  {
  }

  /**
   * In every state of every run somebody moves until the shutdown has finished, with one exception: a
   * client-mode engine whose connectors wait for addresses and whose handles wait for the switch.
   */
  lemma RestsExactlyWhenStuck(c: Config, s: State, acts: seq<Action>)
    requires ValidConfig(c) && Initial(c, s) && Legal(c, s, acts) && !Exec(c, s, acts).main.Finished?
    ensures Moves(c, Exec(c, s, acts)) <==> !Stuck(c, Exec(c, s, acts))
    ensures c.listen ==> Moves(c, Exec(c, s, acts))
  {
    InitialIsSound(c, s);
    ExecKeepsSound(c, s, acts);
    SomebodyMoves(c, Exec(c, s, acts));
    if c.listen {
      ListenNeverStuck(c, Exec(c, s, acts));
    }
  }
}
