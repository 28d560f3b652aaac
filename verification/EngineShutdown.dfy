/** Once the engine is closing every run has a bounded number of steps left, and unless stuck it finishes. */
module EngineShutdown {
  import opened EngineModel
  import opened EngineSafety
  import opened EngineProgress
  import opened EngineRuns
  import opened Sums

  // ---------------------------------------------------------------- what is left to do

  function HandleLeft(hd: Handle): (n: int) {
    match hd.pc
    case Blocked => 6
    case Running => 5
    case Leaving => 4
    case Returning => 3
    case Deleting => 2
    case DelLocked => 1
    case Ended => 0
  }

  /** Steps of a worker that finds the engine closing when it next takes the lock, with those of its new handle. */
  function WorkerLeft(w: Worker): (n: int) {
    match w.pc
    case Testing => 15
    case Admit => 14
    case Counting => 13
    case Full => 9
    case HoldOn => 8
    case Switching => 7
    case Releasing => 6
    case Unlocking => 6
    case Waiting => 5
    case Fetching => 5
    case Relocked => 4
    case Dialing => 4
    case AtLock => 3
    case FatalAtLock => 3
    case InLock => 2
    case FatalLocked => 2
    case Exiting => 1
    case Gone => 0
  }

  function MainLeft(m: MainPc): (n: int) {
    match m
    case Starting => 9
    case SettingOn => 8
    case Joining => 7
    case SetClosing => 6
    case SweepAtLock => 5
    case Sweeping => 4
    case SwitchOff => 3
    case Draining => 2
    case Destroying => 1
    case Finished => 0
  }

  function Left(s: State): (n: int) {
    SumBy(s.workers, WorkerLeft) + SumBy(s.handles, HandleLeft) + MainLeft(s.main)
  }

  lemma LeftNotNegative(s: State)
    ensures Left(s) >= 0
  {
    if s.workers != [] {
      SumCovers(s.workers, 0, WorkerLeft);
    }
    if s.handles != [] {
      SumCovers(s.handles, 0, HandleLeft);
    }
  }

  // ---------------------------------------------------------------- one step

  /** A worker's own steps; the step that starts a handle pays for the handle's. */
  lemma WorkerUses(c: Config, i: nat, w: Worker, sh: Shared, out: Outcome)
    requires ValidConfig(c) && WorkerReady(c, i, w, sh) && sh.flags.closing
    ensures WorkerLeft(WorkerStep(c, i, w, sh, out).w) <= WorkerLeft(w) - if w.pc.Counting? then 7 else 1
  {
  }

  lemma WorkerSpawns(c: Config, i: nat, w: Worker, sh: Shared, out: Outcome)
    requires ValidConfig(c) && WorkerReady(c, i, w, sh) && sh.flags.closing
    ensures var r := WorkerStep(c, i, w, sh, out);
            r.sh.flags.closing && r.spawned == if w.pc.Counting? then [Handle(Blocked, i, w.key, w.conn)] else []
  {
    WorkerFlags(c, i, w, sh, out);
  }

  lemma HandleUses(c: Config, h: nat, hd: Handle, sh: Shared)
    requires ValidConfig(c) && HandleReady(c, hd, sh) && sh.flags.closing
    ensures var r := HandleStep(c, h, hd, sh); r.sh.flags.closing && HandleLeft(r.hd) < HandleLeft(hd)
  {
  }

  lemma MainUses(c: Config, m: MainPc, sh: Shared)
    requires MainReady(m, sh, true) && sh.flags.closing
    ensures var r := MainStep(c, m, sh); r.sh.flags.closing && MainLeft(r.m) < MainLeft(m)
  {
  }

  lemma StepUses(c: Config, s: State, a: Action)
    requires ValidConfig(c) && Enabled(c, s, a) && s.sh.flags.closing
    ensures var s' := Apply(c, s, a);
            s'.sh.flags.closing && if a.CloseAct? then Left(s') == Left(s) else Left(s') < Left(s)
  {
    match a
    case WorkerAct(i, out) => WorkerStepUses(c, s, i, out);
    case HandleAct(h) =>
      HandleUses(c, h, s.handles[h], s.sh);
      SumUpdate(s.handles, h, HandleStep(c, h, s.handles[h], s.sh).hd, HandleLeft);
    case MainAct => MainUses(c, s.main, s.sh);
    case CloseAct =>
  }

  lemma WorkerStepUses(c: Config, s: State, i: nat, out: Outcome)
    requires ValidConfig(c) && Enabled(c, s, WorkerAct(i, out)) && s.sh.flags.closing
    ensures var s' := Apply(c, s, WorkerAct(i, out)); s'.sh.flags.closing && Left(s') < Left(s)
  {
    var w, r := s.workers[i], WorkerStep(c, i, s.workers[i], s.sh, out);
    WorkerUses(c, i, w, s.sh, out);
    WorkerSpawns(c, i, w, s.sh, out);
    SumUpdate(s.workers, i, r.w, WorkerLeft);
    if w.pc.Counting? {
      SumAppend(s.handles, Handle(Blocked, i, w.key, w.conn), HandleLeft);
    } else {
      assert s.handles + r.spawned == s.handles;
    }
  }

  // ---------------------------------------------------------------- every run

  /** The steps of a run other than further requests to close. */
  function Steps(acts: seq<Action>): (n: nat) {
    if acts == [] then 0 else (if acts[0].CloseAct? then 0 else 1) + Steps(acts[1..])
  }

  lemma {:induction false} RunUses(c: Config, s: State, acts: seq<Action>)
    requires ValidConfig(c) && Legal(c, s, acts) && s.sh.flags.closing
    ensures Exec(c, s, acts).sh.flags.closing && Left(Exec(c, s, acts)) + Steps(acts) <= Left(s)
    decreases |acts|
  {
    if acts != [] {
      StepUses(c, s, acts[0]);
      RunUses(c, Apply(c, s, acts[0]), acts[1..]);
    }
  }

  /** A closing engine has at most `Left` steps before it, whatever the interleaving and the network do. */
  lemma ClosingIsBounded(c: Config, s: State, acts: seq<Action>)
    requires ValidConfig(c) && Legal(c, s, acts) && s.sh.flags.closing
    ensures Steps(acts) <= Left(s)
  {
    RunUses(c, s, acts);
    LeftNotNegative(Exec(c, s, acts));
  }

  /** Prompted steps alone bring a closing engine to its rest. */
  lemma {:induction false} RestReached(c: Config, s: State, t: State) returns (e: State)
    requires ValidConfig(c) && Sound(c, t) && t.sh.flags.closing && Reaches(c, s, t)
    ensures Reaches(c, s, e) && Sound(c, e) && (e.main.Finished? || Stuck(c, e))
    decreases Left(t) + 1
  {
    LeftNotNegative(t);
    if t.main.Finished? || Stuck(c, t) {
      e := t;
    } else {
      SomebodyMoves(c, t);
      var a :| Prompted(c, t, a);
      StepUses(c, t, a);
      SoundKept(c, t, a);
      LeftNotNegative(Apply(c, t, a));
      Go(c, s, t, a);
      e := RestReached(c, s, Apply(c, t, a));
    }
  }

  /** What the shutdown leaves behind. */
  ghost predicate ShutDown(s: State) {
    && s.main.Finished? && s.sh.flags.destroyed && !s.sh.flags.panicked && AllGone(s.workers)
    && forall h: nat | h < |s.handles| :: !Live(s.handles[h].pc)
  }

  lemma FinishedIsShutDown(c: Config, s: State)
    requires ValidConfig(c) && Safe(c, s) && s.main.Finished?
    ensures ShutDown(s)
  {
    forall h: nat | h < |s.handles|
      ensures !Live(s.handles[h].pc)
    {
      if Live(s.handles[h].pc) {
        LiveIsCounted(s.handles, h);
      }
    }
  }

  /**
   * Listen mode: from every reachable closing state every run has at most `Left` steps, and a run that
   * nobody can extend has shut down: `destroyed` closed, every worker gone and no handle live.
   */
  lemma ListenShutsDown(c: Config, s: State, acts: seq<Action>, later: seq<Action>)
    requires ValidConfig(c) && c.listen && Initial(c, s) && Legal(c, s, acts)
    requires Exec(c, s, acts).sh.flags.closing && Legal(c, Exec(c, s, acts), later)
    ensures var e := Exec(c, Exec(c, s, acts), later);
            Steps(later) <= Left(Exec(c, s, acts)) && (!Moves(c, e) ==> ShutDown(e))
  {
    var t := Exec(c, s, acts);
    var e := Exec(c, t, later);
    ClosingIsBounded(c, t, later);
    InitialIsSound(c, s);
    ExecKeepsSound(c, s, acts);
    ExecKeepsSound(c, t, later);
    ListenNeverStuck(c, e);
    if e.main.Finished? {
      FinishedIsShutDown(c, e);
    } else {
      SomebodyMoves(c, e);
    }
  }

  /** From every reachable closing state prompted steps alone shut the engine down, unless it gets stuck. */
  lemma ShutdownIsReached(c: Config, s: State, acts: seq<Action>)
    requires ValidConfig(c) && Initial(c, s) && Legal(c, s, acts) && Exec(c, s, acts).sh.flags.closing
    ensures exists e :: Reaches(c, Exec(c, s, acts), e) && (ShutDown(e) || (!c.listen && Stuck(c, e)))
  {
    var t := Exec(c, s, acts);
    InitialIsSound(c, s);
    ExecKeepsSound(c, s, acts);
    Stay(c, t);
    var e := RestReached(c, t, t);
    if e.main.Finished? {
      FinishedIsShutDown(c, e);
    } else if c.listen {
      ListenNeverStuck(c, e);
    }
  }

  /** A request to close can come at any time, and in listen mode it can always be carried out to the end. */
  lemma CloseShutsDown(c: Config, s: State, acts: seq<Action>)
    requires ValidConfig(c) && c.listen && Initial(c, s) && Legal(c, s, acts)
    ensures var t := Exec(c, s, acts);
            Enabled(c, t, CloseAct) && exists e :: Reaches(c, Apply(c, t, CloseAct), e) && ShutDown(e)
  {
    OneMore(c, s, acts, CloseAct);
    ShutdownIsReached(c, s, acts + [CloseAct]);
  }

  // ---------------------------------------------------------------- a stuck engine

  /** Asking a stuck engine to close does not help: nothing but such requests ever happens again. */
  lemma {:induction false} StuckForever(c: Config, s: State, acts: seq<Action>)
    requires ValidConfig(c) && Stuck(c, s) && Legal(c, s, acts)
    ensures Stuck(c, Exec(c, s, acts)) && Steps(acts) == 0
    decreases |acts|
  {
    if acts != [] {
      StuckStep(c, s, acts[0]);
      StuckForever(c, Apply(c, s, acts[0]), acts[1..]);
    }
  }

  lemma StuckStep(c: Config, s: State, a: Action)
    requires ValidConfig(c) && Stuck(c, s) && Enabled(c, s, a)
    ensures a.CloseAct? && Stuck(c, Apply(c, s, a))
  {
    match a
    case WorkerAct(i, out) =>
    case HandleAct(h) =>
    case MainAct =>
    case CloseAct =>
      var s' := Apply(c, s, a);
      assert forall h: nat | h < |s'.handles| ::
          Parked(s.handles[h], s.sh.flags) ==> Parked(s'.handles[h], s'.sh.flags);
  }
}
