/**
 * The compare-and-swap protocol of `netPD`: two wait flags (0 free, 1 held, 2 parked, 3 closed), any
 * number of goroutines that lock, wait and unlock, any number that close, interleaved arbitrarily.
 * Every action below is one atomic operation of the source.
 */
module PollDesc {

  datatype Dir = Wr | Rd

  const FREE := 0
  const HELD := 1
  const PARKED := 2
  const CLOSED := 3

  /** The four operations of one turn of a closing loop. */
  datatype Stage = Load | TryHeld | TryFree | Signal

  datatype Pc =
    | Idle
    | Holding(d: Dir)               // between a successful lock and its unlock
    | Waiting(d: Dir)               // swapped 1 to 2, inside Cond.Wait
    | Woken(d: Dir)                 // Cond.Wait returned, about to swap 2 to 1
    | Closing(d: Dir, stage: Stage) // in Close, working on the flag of `d`
    | CloseDone                     // Close has returned

  datatype State = State(threads: seq<Pc>, w: int, r: int, err: bool)

  datatype Action =
    | Lock(t: nat, d: Dir) | Unlock(t: nat) | Park(t: nat) | Wake(t: nat) | Resume(t: nat)
    | StartClose(t: nat) | CloseTurn(t: nat)

  function Flag(s: State, d: Dir): (f: int) {
    if d.Wr? then s.w else s.r
  }

  function Put(s: State, t: nat, pc: Pc, d: Dir, f: int): (s': State)
    requires t < |s.threads|
  {
    var threads := s.threads[t := pc];
    if d.Wr? then s.(threads := threads, w := f) else s.(threads := threads, r := f)
  }

  predicate Enabled(s: State, a: Action) {
    && a.t < |s.threads|
    && match a {
         case Lock(t, _) => s.threads[t].Idle?
         case Unlock(t) => s.threads[t].Holding?
         case Park(t) => s.threads[t].Holding?
         case Wake(t) => s.threads[t].Waiting?
         case Resume(t) => s.threads[t].Woken?
         case StartClose(t) => s.threads[t].Idle?
         case CloseTurn(t) => s.threads[t].Closing?
       }
  }

  /** Close goes through the write flag, then the read flag, then returns. */
  function AfterClosing(d: Dir): (pc: Pc) {
    if d.Wr? then Closing(Rd, Load) else CloseDone
  }

  function Apply(s: State, a: Action): (s': State)
    requires Enabled(s, a)
  {
    var pc := s.threads[a.t];
    match a
    case Lock(t, d) =>
      if Flag(s, d) == FREE then Put(s, t, Holding(d), d, HELD) else s
    case Unlock(t) =>
      Put(s, t, Idle, pc.d, if Flag(s, pc.d) == HELD then FREE else Flag(s, pc.d))
    case Park(t) =>
      if Flag(s, pc.d) == HELD then Put(s, t, Waiting(pc.d), pc.d, PARKED) else s
    case Wake(t) => Put(s, t, Woken(pc.d), pc.d, Flag(s, pc.d))
    case Resume(t) =>
      Put(s, t, Holding(pc.d), pc.d, if Flag(s, pc.d) == PARKED then HELD else Flag(s, pc.d))
    case StartClose(t) => Put(s, t, Closing(Wr, Load), Wr, s.w).(err := true)
    case CloseTurn(t) =>
      var f := Flag(s, pc.d);
      match pc.stage {
        case Load => Put(s, t, if f == CLOSED then AfterClosing(pc.d) else Closing(pc.d, TryHeld), pc.d, f)
        case TryHeld =>
          if f == HELD then Put(s, t, AfterClosing(pc.d), pc.d, CLOSED)
          else Put(s, t, Closing(pc.d, TryFree), pc.d, f)
        case TryFree =>
          if f == FREE then Put(s, t, AfterClosing(pc.d), pc.d, CLOSED)
          else Put(s, t, Closing(pc.d, Signal), pc.d, f)
        case Signal => Put(s, t, Closing(pc.d, Load), pc.d, f)
      }
  }

  /** Whether the wait that resumes here reports success to its caller. */
  predicate WaitSucceeds(s: State, t: nat)
    requires t < |s.threads| && s.threads[t].Woken?
  {
    Flag(s, s.threads[t].d) == PARKED && !s.err
  }

  // ---------------------------------------------------------------- the invariant

  predicate Waits(pc: Pc, d: Dir) {
    pc == Waiting(d) || pc == Woken(d)
  }

  predicate Owns(pc: Pc, d: Dir) {
    pc == Holding(d) || Waits(pc, d)
  }

  ghost predicate SomeHolds(ts: seq<Pc>, d: Dir) {
    exists i | 0 <= i < |ts| :: ts[i] == Holding(d)
  }

  ghost predicate SomeWaits(ts: seq<Pc>, d: Dir) {
    exists i | 0 <= i < |ts| :: Waits(ts[i], d)
  }

  ghost predicate Exclusive(ts: seq<Pc>, d: Dir) {
    forall i, j | 0 <= i < |ts| && 0 <= j < |ts| && Owns(ts[i], d) && Owns(ts[j], d) :: i == j
  }

  ghost predicate DirInv(ts: seq<Pc>, d: Dir, f: int) {
    && FREE <= f <= CLOSED
    && Exclusive(ts, d)
    && (forall i | 0 <= i < |ts| && ts[i] == Holding(d) :: f == HELD || f == CLOSED)
    && (f == HELD ==> SomeHolds(ts, d))
    && (f == PARKED <==> SomeWaits(ts, d))
  }

  ghost predicate CloseInv(s: State) {
    && (s.w == CLOSED || s.r == CLOSED ==> s.err)
    && (forall i | 0 <= i < |s.threads| && s.threads[i].Closing? ::
          s.err && (s.threads[i].d.Rd? ==> s.w == CLOSED))
    && (forall i | 0 <= i < |s.threads| && s.threads[i].CloseDone? :: s.w == CLOSED && s.r == CLOSED)
  }

  ghost predicate Inv(s: State) {
    DirInv(s.threads, Wr, s.w) && DirInv(s.threads, Rd, s.r) && CloseInv(s)
  }

  ghost predicate Initial(s: State) {
    s.w == FREE && s.r == FREE && !s.err && forall i | 0 <= i < |s.threads| :: s.threads[i].Idle?
  }

  lemma KeepSome(ts: seq<Pc>, t: nat, pc: Pc, d: Dir)
    requires t < |ts| && !Owns(ts[t], d) && !Owns(pc, d)
    ensures SomeHolds(ts[t := pc], d) == SomeHolds(ts, d) && SomeWaits(ts[t := pc], d) == SomeWaits(ts, d)
  {
    var ts' := ts[t := pc];
    if i :| 0 <= i < |ts| && ts[i] == Holding(d) { assert ts'[i] == Holding(d); }
    if i :| 0 <= i < |ts'| && ts'[i] == Holding(d) { assert ts[i] == Holding(d); }
    if i :| 0 <= i < |ts| && Waits(ts[i], d) { assert Waits(ts'[i], d); }
    if i :| 0 <= i < |ts'| && Waits(ts'[i], d) { assert Waits(ts[i], d); }
  }

  /** A goroutine that does not own `d` before or after a step leaves its flag's meaning alone. */
  lemma OtherDirection(ts: seq<Pc>, t: nat, pc: Pc, d: Dir, f: int)
    requires t < |ts| && !Owns(ts[t], d) && !Owns(pc, d) && DirInv(ts, d, f)
    ensures DirInv(ts[t := pc], d, f)
  {
    KeepSome(ts, t, pc, d);
  }

  lemma OwnerMoves(ts: seq<Pc>, t: nat, pc: Pc, d: Dir, f: int, f': int)
    requires t < |ts| && DirInv(ts, d, f) && FREE <= f' <= CLOSED
    requires Owns(ts[t], d) || f == FREE
    requires pc == Holding(d) ==> f' == HELD
    requires Waits(pc, d) <==> f' == PARKED
    requires !Owns(pc, d) ==> f' == FREE || f' == CLOSED
    ensures DirInv(ts[t := pc], d, f')
  {
    var ts' := ts[t := pc];
    assert ts'[t] == pc;
    assert forall i | 0 <= i < |ts| && Owns(ts'[i], d) :: i == t;
  }

  /** Closers turn 0 or 1 into 3; whoever held the lock keeps running and finds it lost. */
  lemma CloserSwaps(ts: seq<Pc>, t: nat, pc: Pc, d: Dir, f: int)
    requires t < |ts| && !Owns(ts[t], d) && !Owns(pc, d) && DirInv(ts, d, f)
    requires f == FREE || f == HELD
    ensures DirInv(ts[t := pc], d, CLOSED)
  {
    KeepSome(ts, t, pc, d);
  }

  /** How one step of a goroutine may move its own program counter and the flag of one direction. */
  predicate Move(pc: Pc, pc': Pc, d: Dir, f: int, f': int) {
    || (pc' == pc && f' == f)
    || (!Owns(pc, d) && !Owns(pc', d) && f' == f)
    || (!Owns(pc, d) && !Owns(pc', d) && (f == FREE || f == HELD) && f' == CLOSED)
    || (&& (Owns(pc, d) || f == FREE)
        && FREE <= f' <= CLOSED
        && (pc' == Holding(d) ==> f' == HELD)
        && (Waits(pc', d) <==> f' == PARKED)
        && (!Owns(pc', d) ==> f' == FREE || f' == CLOSED))
  }

  lemma MoveKeeps(ts: seq<Pc>, t: nat, pc: Pc, d: Dir, f: int, f': int)
    requires t < |ts| && DirInv(ts, d, f) && Move(ts[t], pc, d, f, f')
    ensures DirInv(ts[t := pc], d, f')
  {
    if pc == ts[t] && f' == f {
      assert ts[t := pc] == ts;
    } else if !Owns(ts[t], d) && !Owns(pc, d) && f' == f {
      OtherDirection(ts, t, pc, d, f);
    } else if !Owns(ts[t], d) && !Owns(pc, d) && (f == FREE || f == HELD) && f' == CLOSED {
      CloserSwaps(ts, t, pc, d, f);
    } else {
      OwnerMoves(ts, t, pc, d, f, f');
    }
  }

  /** What the invariant says of one goroutine. */
  predicate Consistent(pc: Pc, w: int, r: int, err: bool) {
    && (pc == Holding(Wr) ==> w == HELD || w == CLOSED)
    && (pc == Holding(Rd) ==> r == HELD || r == CLOSED)
    && (Waits(pc, Wr) ==> w == PARKED)
    && (Waits(pc, Rd) ==> r == PARKED)
    && (w == CLOSED || r == CLOSED ==> err)
    && (pc.Closing? ==> err && (pc.d.Rd? ==> w == CLOSED))
    && (pc.CloseDone? ==> w == CLOSED && r == CLOSED)
  }

  /** Goroutine `t` moves alone, both flags move legally, and nothing is reopened. */
  ghost predicate Steps(s: State, t: nat, s': State) {
    && t < |s.threads| == |s'.threads|
    && s'.threads == s.threads[t := s'.threads[t]]
    && Move(s.threads[t], s'.threads[t], Wr, s.w, s'.w)
    && Move(s.threads[t], s'.threads[t], Rd, s.r, s'.r)
    && Consistent(s'.threads[t], s'.w, s'.r, s'.err)
    && (s.err ==> s'.err) && (s.w == CLOSED ==> s'.w == CLOSED) && (s.r == CLOSED ==> s'.r == CLOSED)
  }

  ghost predicate CanStep(s: State, a: Action) {
    Enabled(s, a) && Consistent(s.threads[a.t], s.w, s.r, s.err)
  }

  lemma LockMoves(s: State, t: nat, d: Dir)
    requires CanStep(s, Lock(t, d))
    ensures Steps(s, t, Apply(s, Lock(t, d)))
  {
  }

  lemma UnlockMoves(s: State, t: nat)
    requires CanStep(s, Unlock(t))
    ensures Steps(s, t, Apply(s, Unlock(t)))
  {
  }

  lemma ParkMoves(s: State, t: nat)
    requires CanStep(s, Park(t))
    ensures Steps(s, t, Apply(s, Park(t)))
  {
  }

  lemma WakeMoves(s: State, t: nat)
    requires CanStep(s, Wake(t))
    ensures Steps(s, t, Apply(s, Wake(t)))
  {
  }

  lemma ResumeMoves(s: State, t: nat)
    requires CanStep(s, Resume(t))
    ensures Steps(s, t, Apply(s, Resume(t)))
  {
  }

  lemma CloseMoves(s: State, t: nat)
    requires CanStep(s, CloseTurn(t))
    ensures Steps(s, t, Apply(s, CloseTurn(t)))
  {
  }

  /** Every action is such a step. */
  lemma ActionMoves(s: State, a: Action)
    requires Enabled(s, a) && Consistent(s.threads[a.t], s.w, s.r, s.err)
    ensures Steps(s, a.t, Apply(s, a))
  {
    match a
    case Lock(t, d) => LockMoves(s, t, d);
    case Unlock(t) => UnlockMoves(s, t);
    case Park(t) => ParkMoves(s, t);
    case Wake(t) => WakeMoves(s, t);
    case Resume(t) => ResumeMoves(s, t);
    case StartClose(t) =>
    case CloseTurn(t) => CloseMoves(s, t);
  }

  lemma StepKeeps(s: State, t: nat, s': State)
    requires Inv(s) && Steps(s, t, s')
    ensures Inv(s')
  {
    MoveKeeps(s.threads, t, s'.threads[t], Wr, s.w, s'.w);
    MoveKeeps(s.threads, t, s'.threads[t], Rd, s.r, s'.r);
  }

  lemma InvConsistent(s: State, t: nat)
    requires Inv(s) && t < |s.threads|
    ensures Consistent(s.threads[t], s.w, s.r, s.err)
  {
  }

  lemma ApplyKeeps(s: State, a: Action)
    requires Inv(s) && Enabled(s, a)
    ensures Inv(Apply(s, a))
  {
    InvConsistent(s, a.t);
    ActionMoves(s, a);
    StepKeeps(s, a.t, Apply(s, a));
  }

  // ---------------------------------------------------------------- all interleavings

  predicate Legal(s: State, acts: seq<Action>)
    decreases |acts|
  {
    acts == [] || (Enabled(s, acts[0]) && Legal(Apply(s, acts[0]), acts[1..]))
  }

  function Exec(s: State, acts: seq<Action>): (r: State)
    requires Legal(s, acts)
    decreases |acts|
  {
    if acts == [] then s else Exec(Apply(s, acts[0]), acts[1..])
  }

  lemma {:induction false} ExecKeeps(s: State, acts: seq<Action>)
    requires Inv(s) && Legal(s, acts)
    ensures Inv(Exec(s, acts))
    decreases |acts|
  {
    if acts != [] {
      ApplyKeeps(s, acts[0]);
      ExecKeeps(Apply(s, acts[0]), acts[1..]);
    }
  }

  ghost predicate FlagMeans(e: State, d: Dir) {
    && Exclusive(e.threads, d)
    && (Flag(e, d) == PARKED <==> SomeWaits(e.threads, d))
    && (forall t | 0 <= t < |e.threads| && e.threads[t] == Woken(d) :: Flag(e, d) == PARKED)
  }

  lemma InvMeans(e: State, d: Dir)
    requires Inv(e)
    ensures FlagMeans(e, d)
  {
    forall t | 0 <= t < |e.threads| && e.threads[t] == Woken(d)
      ensures Flag(e, d) == PARKED
    {
      assert Waits(e.threads[t], d);
    }
  }

  /**
   * In every reachable state each direction has at most one owner, its flag is 2 exactly while the
   * owner is between the two swaps of a wait, and the wake-up swap finds the 2 it expects.
   */
  lemma LockingIsExclusive(s: State, acts: seq<Action>)
    requires Initial(s) && Legal(s, acts)
    ensures forall d: Dir :: FlagMeans(Exec(s, acts), d)
  {
    ExecKeeps(s, acts);
    forall d: Dir
      ensures FlagMeans(Exec(s, acts), d)
    {
      InvMeans(Exec(s, acts), d);
    }
  }

  /** 3 is absorbing, and so is the error that Close leaves behind. */
  lemma {:induction false} ClosedIsAbsorbing(s: State, acts: seq<Action>)
    requires Inv(s) && Legal(s, acts)
    ensures forall d: Dir :: Flag(s, d) == CLOSED ==> Flag(Exec(s, acts), d) == CLOSED
    ensures s.err ==> Exec(s, acts).err
    decreases |acts|
  {
    if acts != [] {
      ActionMoves(s, acts[0]);
      ApplyKeeps(s, acts[0]);
      ClosedIsAbsorbing(Apply(s, acts[0]), acts[1..]);
    }
  }

  /**
   * Once some Close has returned, no goroutine is parked, none ever parks again, every lock and
   * every wait fails, in whatever order the goroutines go on.
   */
  lemma CloseReleasesAll(s: State, before: seq<Action>, later: seq<Action>, closer: nat)
    requires Initial(s) && Legal(s, before) && Legal(Exec(s, before), later)
    requires closer < |Exec(s, before).threads| && Exec(s, before).threads[closer].CloseDone?
    ensures var e := Exec(Exec(s, before), later);
            && (forall d: Dir :: Flag(e, d) == CLOSED && !SomeWaits(e.threads, d))
            && (forall t, d | Enabled(e, Lock(t, d)) :: Apply(e, Lock(t, d)) == e)
            && (forall t | Enabled(e, Park(t)) :: Apply(e, Park(t)) == e)
  {
    ExecKeeps(s, before);
    var m := Exec(s, before);
    ExecKeeps(m, later);
    ClosedIsAbsorbing(m, later);
    assert Flag(m, Wr) == m.w && Flag(m, Rd) == m.r;
    var e := Exec(m, later);
    assert Flag(e, Wr) == e.w && Flag(e, Rd) == e.r;
  }

  /** From the first operation of any Close on, no wait reports success. */
  lemma WaitsFailOnceClosing(s: State, before: seq<Action>, later: seq<Action>, closer: nat)
    requires Initial(s) && Legal(s, before) && Legal(Exec(s, before), later)
    requires Enabled(Exec(s, before), StartClose(closer)) && later != [] && later[0] == StartClose(closer)
    ensures var e := Exec(Exec(s, before), later);
            forall t | 0 <= t < |e.threads| && e.threads[t].Woken? :: !WaitSucceeds(e, t)
  {
    ExecKeeps(s, before);
    var m := Exec(s, before);
    ApplyKeeps(m, later[0]);
    ClosedIsAbsorbing(Apply(m, later[0]), later[1..]);
  }
}
