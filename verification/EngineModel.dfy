/**
 * The connection engine of tcpengine.go as a step system: `cpus` connectors or acceptors, any number of
 * handle goroutines, the start and shutdown goroutine, and an environment that may ask to close at any
 * time, interleaved arbitrarily. A step touches one shared variable outside `maxLock`, or one inside it.
 */
module EngineModel {

  datatype Config = Config(listen: bool, cpus: nat, limit: int, addrs: nat, exitmax: bool, nomap: bool)

  predicate ValidConfig(c: Config) {
    c.cpus >= 1
  }

  /** Capacity of each address pool; "+cpus for never block". */
  function PoolCapacity(c: Config): (n: nat)
    requires ValidConfig(c)
  {
    c.addrs / c.cpus + c.cpus
  }

  // ---------------------------------------------------------------- state

  /** Where a connector or acceptor is; from InLock to Unlocking, and in FatalLocked, it has maxLock. */
  datatype WorkerPc =
    | AtLock | InLock | Testing | Full | HoldOn | Switching | Releasing | Waiting | Relocked
    | Admit | Counting | Unlocking | Fetching | Dialing | FatalAtLock | FatalLocked | Exiting | Gone

  datatype Worker = Worker(pc: WorkerPc, newconn: bool, key: nat, conn: nat)

  /** Where a handle is; it counts as alive from its start until it has decremented the counter. */
  datatype HandlePc = Blocked | Running | Leaving | Returning | Deleting | DelLocked | Ended

  datatype Handle = Handle(pc: HandlePc, idx: nat, key: nat, conn: nat)

  /** The tail of `Start`, then `workerWait`. */
  datatype MainPc =
    | Starting | SettingOn | Joining | SetClosing | SweepAtLock | Sweeping | SwitchOff
    | Draining | Destroying | Finished

  datatype Owner = Free | ByWorker(i: nat) | ByHandle(h: nat) | ByMain

  datatype Flags = Flags(closing: bool, workloadon: bool, switchClosed: bool, panicked: bool, destroyed: bool)

  datatype Shared = Shared(
    lock: Owner, flags: Flags, alive: int, newCount: nat, dials: nat,
    conns: map<nat, nat>, pools: seq<seq<nat>>, swept: set<nat>, dropped: set<nat>)

  datatype State = State(workers: seq<Worker>, handles: seq<Handle>, main: MainPc, sh: Shared)

  /** How the next Accept or Dial ends: a connection, an error to retry on, any other error. */
  datatype Outcome = Connected | Retry | Fail

  datatype Action = WorkerAct(i: nat, out: Outcome) | HandleAct(h: nat) | MainAct | CloseAct

  // ---------------------------------------------------------------- connectors and acceptors

  predicate HasRoom(c: Config, sh: Shared, i: nat)
    requires ValidConfig(c)
  {
    i < |sh.pools| && |sh.pools[i]| < PoolCapacity(c)
  }

  predicate ReturnsIndex(c: Config, w: Worker) {
    w.newconn && !c.listen
  }

  predicate WorkerReady(c: Config, i: nat, w: Worker, sh: Shared)
    requires ValidConfig(c)
  {
    match w.pc
    case AtLock => sh.lock.Free?
    case Waiting => sh.lock.Free?
    case FatalAtLock => sh.lock.Free?
    case Full => ReturnsIndex(c, w) ==> HasRoom(c, sh, i)
    case Fetching => !c.listen ==> i < |sh.pools| && sh.pools[i] != []
    case Gone => false
    case _ => true
  }

  datatype WorkerResult = WorkerResult(w: Worker, sh: Shared, spawned: seq<Handle>)

  function Close(f: Flags): (r: Flags) {
    f.(closing := true)
  }

  /** close(workswitch): closing it twice would panic. */
  function CloseSwitch(f: Flags): (r: Flags) {
    f.(switchClosed := true, panicked := f.panicked || f.switchClosed)
  }

  function Goto(w: Worker, pc: WorkerPc, sh: Shared): (r: WorkerResult) {
    WorkerResult(w.(pc := pc), sh, [])
  }

  function WorkerStep(c: Config, i: nat, w: Worker, sh: Shared, out: Outcome): (r: WorkerResult)
    requires ValidConfig(c) && WorkerReady(c, i, w, sh)
  {
    var free := sh.(lock := Free);
    var mine := sh.(lock := ByWorker(i));
    match w.pc
    case AtLock => Goto(w, InLock, mine)
    case InLock => if sh.flags.closing then Goto(w, Exiting, free) else Goto(w, Testing, sh)
    case Testing => Goto(w, if c.limit > 0 && sh.alive >= c.limit then Full else Admit, sh)
    case Full =>
      Goto(w.(newconn := false), HoldOn,
           if ReturnsIndex(c, w) then sh.(pools := sh.pools[i := sh.pools[i] + [w.key]]) else sh)
    case HoldOn =>
      if c.exitmax then Goto(w, Exiting, free.(flags := Close(sh.flags)))
      else if sh.flags.workloadon then Goto(w, Releasing, sh)
      else Goto(w, Switching, sh.(flags := sh.flags.(workloadon := true)))
    case Switching => Goto(w, Releasing, sh.(flags := CloseSwitch(sh.flags)))
    case Releasing => Goto(w, Waiting, free)
    case Waiting => Goto(w, Relocked, mine)
    case Relocked => Goto(w, AtLock, free)
    case Admit =>
      if !w.newconn then Goto(w, Unlocking, sh)
      else Goto(w, Counting, if c.nomap then sh else sh.(conns := sh.conns[w.key := w.conn]))
    case Counting =>
      WorkerResult(w.(pc := Unlocking, newconn := false), sh.(alive := sh.alive + 1),
                   [Handle(Blocked, i, w.key, w.conn)])
    case Unlocking => Goto(w, Fetching, free)
    case Fetching => if c.listen then Accept(w, sh, out) else
      Goto(w.(key := sh.pools[i][0]), Dialing, sh.(pools := sh.pools[i := sh.pools[i][1..]]))
    case Dialing => Dial(w, sh, out)
    case FatalAtLock => Goto(w, FatalLocked, mine)
    case FatalLocked => Goto(w, Exiting, free.(flags := Close(sh.flags)))
    case Exiting => Goto(w, Gone, sh)
    case Gone => Goto(w, Gone, sh)
  }

  /** AcceptTCP: the connection counter is the map key of the new connection. */
  function Accept(w: Worker, sh: Shared, out: Outcome): (r: WorkerResult) {
    if out.Connected? then
      WorkerResult(Worker(AtLock, true, sh.newCount + 1, sh.dials),
                   sh.(newCount := sh.newCount + 1, dials := sh.dials + 1), [])
    else Goto(w, if sh.flags.closing then Exiting else FatalAtLock, sh)
  }

  /** DialTCPTimeout from the address with index `w.key`; unless it connects the index is dropped, as recorded. */
  function Dial(w: Worker, sh: Shared, out: Outcome): (r: WorkerResult) {
    match out
    case Connected =>
      WorkerResult(Worker(AtLock, true, w.key, sh.dials),
                   sh.(newCount := sh.newCount + 1, dials := sh.dials + 1), [])
    case Retry => Goto(w, AtLock, sh.(dropped := sh.dropped + {w.key}))
    case Fail => Goto(w, FatalAtLock, sh.(dropped := sh.dropped + {w.key}))
  }

  // ---------------------------------------------------------------- handles

  predicate HandleReady(c: Config, hd: Handle, sh: Shared)
    requires ValidConfig(c)
  {
    match hd.pc
    case Blocked => sh.flags.switchClosed
    case Returning => HasRoom(c, sh, hd.idx)
    case Deleting => c.nomap || sh.lock.Free?
    case Ended => false
    case _ => true
  }

  datatype HandleResult = HandleResult(hd: Handle, sh: Shared)

  function HandleStep(c: Config, h: nat, hd: Handle, sh: Shared): (r: HandleResult)
    requires ValidConfig(c) && HandleReady(c, hd, sh)
  {
    match hd.pc
    case Blocked => HandleResult(hd.(pc := Running), sh)
    case Running => HandleResult(hd.(pc := Leaving), sh)
    case Leaving =>
      HandleResult(hd.(pc := if c.listen then Deleting else Returning), sh.(alive := sh.alive - 1))
    case Returning =>
      HandleResult(hd.(pc := Deleting), sh.(pools := sh.pools[hd.idx := sh.pools[hd.idx] + [hd.key]]))
    case Deleting =>
      if c.nomap then HandleResult(hd.(pc := Ended), sh)
      else HandleResult(hd.(pc := DelLocked), sh.(lock := ByHandle(h)))
    case DelLocked => HandleResult(hd.(pc := Ended), sh.(conns := sh.conns - {hd.key}, lock := Free))
    case Ended => HandleResult(hd, sh)
  }

  // ---------------------------------------------------------------- start and shutdown

  predicate MainReady(m: MainPc, sh: Shared, allGone: bool) {
    match m
    case Joining => allGone
    case SweepAtLock => sh.lock.Free?
    case Draining => sh.alive == 0
    case Finished => false
    case _ => true
  }

  datatype MainResult = MainResult(m: MainPc, sh: Shared)

  function MainStep(c: Config, m: MainPc, sh: Shared): (r: MainResult) {
    match m
    case Starting =>
      if c.limit > 0 then MainResult(Joining, sh)
      else MainResult(SettingOn, sh.(flags := CloseSwitch(sh.flags)))
    case SettingOn => MainResult(Joining, sh.(flags := sh.flags.(workloadon := true)))
    case Joining => MainResult(SetClosing, sh)
    case SetClosing => MainResult(SweepAtLock, sh.(flags := Close(sh.flags)))
    case SweepAtLock => MainResult(Sweeping, sh.(lock := ByMain))
    case Sweeping => MainResult(SwitchOff, sh.(swept := sh.conns.Values))
    case SwitchOff =>
      MainResult(Draining, sh.(lock := Free,
                               flags := if sh.flags.switchClosed then sh.flags else CloseSwitch(sh.flags)))
    case Draining => MainResult(Destroying, sh)
    case Destroying =>
      MainResult(Finished, sh.(flags := sh.flags.(destroyed := true,
                                                  panicked := sh.flags.panicked || sh.flags.destroyed)))
    case Finished => MainResult(Finished, sh)
  }

  // ---------------------------------------------------------------- the whole system

  predicate AllGone(workers: seq<Worker>) {
    forall i | 0 <= i < |workers| :: workers[i].pc.Gone?
  }

  predicate Enabled(c: Config, s: State, a: Action)
    requires ValidConfig(c)
  {
    match a
    case WorkerAct(i, _) => i < |s.workers| && WorkerReady(c, i, s.workers[i], s.sh)
    case HandleAct(h) => h < |s.handles| && HandleReady(c, s.handles[h], s.sh)
    case MainAct => MainReady(s.main, s.sh, AllGone(s.workers))
    case CloseAct => true
  }

  function Apply(c: Config, s: State, a: Action): (s': State)
    requires ValidConfig(c) && Enabled(c, s, a)
  {
    match a
    case WorkerAct(i, out) =>
      var r := WorkerStep(c, i, s.workers[i], s.sh, out);
      s.(workers := s.workers[i := r.w], handles := s.handles + r.spawned, sh := r.sh)
    case HandleAct(h) =>
      var r := HandleStep(c, h, s.handles[h], s.sh);
      s.(handles := s.handles[h := r.hd], sh := r.sh)
    case MainAct =>
      var r := MainStep(c, s.main, s.sh);
      s.(main := r.m, sh := r.sh)
    case CloseAct => s.(sh := s.sh.(flags := Close(s.sh.flags)))
  }

  predicate Legal(c: Config, s: State, acts: seq<Action>)
    requires ValidConfig(c)
    decreases |acts|
  {
    acts == [] || (Enabled(c, s, acts[0]) && Legal(c, Apply(c, s, acts[0]), acts[1..]))
  }

  function Exec(c: Config, s: State, acts: seq<Action>): (r: State)
    requires ValidConfig(c) && Legal(c, s, acts)
    decreases |acts|
  {
    if acts == [] then s else Exec(c, Apply(c, s, acts[0]), acts[1..])
  }

  ghost predicate Initial(c: Config, s: State)
    requires ValidConfig(c)
  {
    && |s.workers| == c.cpus && s.handles == [] && s.main.Starting?
    && (forall i | 0 <= i < |s.workers| :: s.workers[i].pc.AtLock? && !s.workers[i].newconn)
    && s.sh == Shared(Free, Flags(false, false, false, false, false), 0, 0, 0, map[], s.sh.pools, {}, {})
    && (!c.listen ==> Preloaded(c, s.sh.pools))
  }

  // ---------------------------------------------------------------- address pools

  /** Pool `i` holds distinct indices of its own residue class. */
  ghost predicate PoolOk(c: Config, i: nat, pool: seq<nat>)
    requires ValidConfig(c)
  {
    && (forall a | 0 <= a < |pool| :: pool[a] < c.addrs && pool[a] % c.cpus == i)
    && (forall a, b | 0 <= a < b < |pool| :: pool[a] != pool[b])
  }

  ghost predicate Preloaded(c: Config, pools: seq<seq<nat>>)
    requires ValidConfig(c)
  {
    |pools| == c.cpus && forall i: nat | i < c.cpus :: PoolOk(c, i, pools[i])
  }
}
