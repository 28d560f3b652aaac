/** Client mode: no address index is lost; each is in its pool, in use, or was dropped by a dial that failed. */
module EngineIndices {
  import opened EngineModel
  import opened EngineAddresses

  // ---------------------------------------------------------------- where an index is

  ghost predicate InPool(c: Config, s: State, k: nat)
    requires ValidConfig(c)
  {
    k % c.cpus < |s.sh.pools| && k in s.sh.pools[k % c.cpus]
  }

  ghost predicate WithConnector(s: State, k: nat) {
    exists i: nat :: i < |s.workers| && WorkerOwns(s.workers[i]) && s.workers[i].key == k
  }

  ghost predicate WithHandle(s: State, k: nat) {
    exists h: nat :: h < |s.handles| && HandleOwns(s.handles[h]) && s.handles[h].key == k
  }

  ghost predicate Placed(c: Config, s: State, k: nat)
    requires ValidConfig(c)
  {
    InPool(c, s, k) || WithConnector(s, k) || WithHandle(s, k) || k in s.sh.dropped
  }

  // ---------------------------------------------------------------- one step

  /** The indices that a step drops: only a dial that does not connect drops one, its own. */
  function DroppedBy(s: State, a: Action): (d: set<nat>)
    requires a.WorkerAct? ==> a.i < |s.workers|
  {
    if a.WorkerAct? && s.workers[a.i].pc.Dialing? && a.out != Connected then {s.workers[a.i].key} else {}
  }

  lemma OnlyDialsDrop(c: Config, s: State, a: Action)
    requires ValidConfig(c) && Enabled(c, s, a)
    ensures Apply(c, s, a).sh.dropped == s.sh.dropped + DroppedBy(s, a)
  {
    match a
    case WorkerAct(i, out) => WorkerDrops(c, i, s.workers[i], s.sh, out);
    case HandleAct(h) =>
    case MainAct =>
    case CloseAct =>
  }

  lemma WorkerDrops(c: Config, i: nat, w: Worker, sh: Shared, out: Outcome)
    requires ValidConfig(c) && WorkerReady(c, i, w, sh)
    ensures WorkerStep(c, i, w, sh, out).sh.dropped
         == sh.dropped + if w.pc.Dialing? && out != Connected then {w.key} else {}
  {
  }

  /** Where a connector's step can bring an index that its pool or the connector itself has. */
  lemma WorkerPlaces(c: Config, i: nat, w: Worker, sh: Shared, out: Outcome, k: nat)
    requires ValidConfig(c) && !c.listen && WorkerReady(c, i, w, sh) && i < |sh.pools| && Carries(w)
    requires w.pc.Counting? ==> w.newconn
    requires k in sh.pools[i] || (WorkerOwns(w) && w.key == k)
    ensures var r := WorkerStep(c, i, w, sh, out);
            || (i < |r.sh.pools| && k in r.sh.pools[i]) || (WorkerOwns(r.w) && r.w.key == k)
            || r.spawned == [Handle(Blocked, i, k, w.conn)] || k in r.sh.dropped
  {
    if w.pc.Fetching? {
      assert k == sh.pools[i][0] || k in sh.pools[i][1..];
    }
  }

  lemma PlacedKeptByOwnWorker(c: Config, s: State, i: nat, out: Outcome, k: nat)
    requires ValidConfig(c) && !c.listen && OwnInv(c, s) && Enabled(c, s, WorkerAct(i, out)) && k % c.cpus == i
    requires k in s.sh.pools[i] || (WorkerOwns(s.workers[i]) && s.workers[i].key == k)
    ensures Placed(c, Apply(c, s, WorkerAct(i, out)), k)
  {
    var s', r := Apply(c, s, WorkerAct(i, out)), WorkerStep(c, i, s.workers[i], s.sh, out);
    WorkerPlaces(c, i, s.workers[i], s.sh, out, k);
    assert s'.workers[i] == r.w;
    if r.spawned == [Handle(Blocked, i, k, s.workers[i].conn)] {
      assert s'.handles[|s.handles|] == Handle(Blocked, i, k, s.workers[i].conn);
    }
  }

  lemma PlacedKeptElsewhere(c: Config, s: State, i: nat, out: Outcome, k: nat)
    requires ValidConfig(c) && !c.listen && OwnInv(c, s) && Enabled(c, s, WorkerAct(i, out)) && Placed(c, s, k)
    requires k % c.cpus != i || !(k in s.sh.pools[i] || (WorkerOwns(s.workers[i]) && s.workers[i].key == k))
    ensures Placed(c, Apply(c, s, WorkerAct(i, out)), k)
  {
    var s' := Apply(c, s, WorkerAct(i, out));
    WorkerTransfer(c, i, s.workers[i], s.sh, out);
    WorkerDrops(c, i, s.workers[i], s.sh, out);
    if WithConnector(s, k) {
      var j: nat :| j < |s.workers| && WorkerOwns(s.workers[j]) && s.workers[j].key == k;
      assert Held(c, s.sh.pools, j, k);
      assert s'.workers[j] == s.workers[j];
    } else if WithHandle(s, k) {
      var h: nat :| h < |s.handles| && HandleOwns(s.handles[h]) && s.handles[h].key == k;
      assert s'.handles[h] == s.handles[h];
    }
  }

  lemma PlacedKeptByHandle(c: Config, s: State, h: nat, k: nat)
    requires ValidConfig(c) && !c.listen && OwnInv(c, s) && Enabled(c, s, HandleAct(h)) && Placed(c, s, k)
    ensures Placed(c, Apply(c, s, HandleAct(h)), k)
  {
    var s', hd := Apply(c, s, HandleAct(h)), s.handles[h];
    HandleTransfer(c, h, hd, s.sh);
    if WithConnector(s, k) {
      var j: nat :| j < |s.workers| && WorkerOwns(s.workers[j]) && s.workers[j].key == k;
      assert s'.workers[j] == s.workers[j];
    } else if WithHandle(s, k) {
      var g: nat :| g < |s.handles| && HandleOwns(s.handles[g]) && s.handles[g].key == k;
      if g == h {
        HandlePlaces(c, h, hd, s.sh);
        assert Held(c, s.sh.pools, hd.idx, k);
        assert s'.handles[h] == HandleStep(c, h, hd, s.sh).hd;
      } else {
        assert s'.handles[g] == s.handles[g];
      }
    }
  }

  /** A handle owns its index until it sends it back to the pool it came from. */
  lemma HandlePlaces(c: Config, h: nat, hd: Handle, sh: Shared)
    requires ValidConfig(c) && !c.listen && HandleReady(c, hd, sh) && HandleOwns(hd)
    ensures var r := HandleStep(c, h, hd, sh);
            HandleOwns(r.hd) || (hd.idx < |r.sh.pools| && hd.key in r.sh.pools[hd.idx])
  {
  }

  lemma PlacedKept(c: Config, s: State, a: Action, k: nat)
    requires ValidConfig(c) && !c.listen && OwnInv(c, s) && Enabled(c, s, a) && Placed(c, s, k)
    ensures Placed(c, Apply(c, s, a), k)
  {
    match a
    case WorkerAct(i, out) =>
      if k % c.cpus == i && (k in s.sh.pools[i] || (WorkerOwns(s.workers[i]) && s.workers[i].key == k)) {
        PlacedKeptByOwnWorker(c, s, i, out, k);
      } else {
        PlacedKeptElsewhere(c, s, i, out, k);
      }
    case HandleAct(h) => PlacedKeptByHandle(c, s, h, k);
    case MainAct => PlacedByFrame(c, s, Apply(c, s, a), k);
    case CloseAct => PlacedByFrame(c, s, Apply(c, s, a), k);
  }

  lemma PlacedByFrame(c: Config, s: State, s': State, k: nat)
    requires ValidConfig(c) && Placed(c, s, k) && s'.workers == s.workers && s'.handles == s.handles
    requires s'.sh.pools == s.sh.pools && s'.sh.dropped == s.sh.dropped
    ensures Placed(c, s', k)
  {
  }

  // ---------------------------------------------------------------- every run

  /** What `Preload` makes of the pools. */
  ghost predicate FullyLoaded(c: Config, s: State)
    requires ValidConfig(c)
  {
    forall k: nat | k < c.addrs :: InPool(c, s, k)
  }

  lemma {:induction false} ExecKeepsPlaced(c: Config, s: State, acts: seq<Action>, k: nat)
    requires ValidConfig(c) && !c.listen && OwnInv(c, s) && Legal(c, s, acts) && Placed(c, s, k)
    ensures Placed(c, Exec(c, s, acts), k)
    decreases |acts|
  {
    if acts != [] {
      OwnKept(c, s, acts[0]);
      PlacedKept(c, s, acts[0], k);
      ExecKeepsPlaced(c, Apply(c, s, acts[0]), acts[1..], k);
    }
  }

  /**
   * In every run each preloaded index is in its pool, with a connector, with a handle, or was dropped by
   * a dial that did not connect (`OnlyDialsDrop`).
   */
  lemma IndicesConserved(c: Config, s: State, acts: seq<Action>, k: nat)
    requires ValidConfig(c) && !c.listen && Initial(c, s) && FullyLoaded(c, s) && Legal(c, s, acts) && k < c.addrs
    ensures var e := Exec(c, s, acts);
            InPool(c, e, k) || WithConnector(e, k) || WithHandle(e, k) || k in e.sh.dropped
  {
    ExecKeepsPlaced(c, s, acts, k);
  }

  // ---------------------------------------------------------------- a dropped index stays away

  ghost predicate Away(c: Config, s: State, k: nat)
    requires ValidConfig(c)
  {
    !InPool(c, s, k) && !WithConnector(s, k) && !WithHandle(s, k)
  }

  ghost predicate DroppedAway(c: Config, s: State)
    requires ValidConfig(c)
  {
    forall k: nat | k in s.sh.dropped :: Away(c, s, k)
  }

  /** Nothing brings back an index that neither a pool nor anybody has. */
  lemma AwayKept(c: Config, s: State, a: Action, k: nat)
    requires ValidConfig(c) && !c.listen && OwnInv(c, s) && Enabled(c, s, a) && Away(c, s, k)
    ensures Away(c, Apply(c, s, a), k)
  {
    match a
    case WorkerAct(i, out) => AwayKeptByWorker(c, s, i, out, k);
    case HandleAct(h) => AwayKeptByHandle(c, s, h, k);
    case MainAct =>
    case CloseAct =>
  }

  lemma AwayKeptByWorker(c: Config, s: State, i: nat, out: Outcome, k: nat)
    requires ValidConfig(c) && !c.listen && OwnInv(c, s) && Enabled(c, s, WorkerAct(i, out)) && Away(c, s, k)
    ensures Away(c, Apply(c, s, WorkerAct(i, out)), k)
  {
    var s' := Apply(c, s, WorkerAct(i, out));
    WorkerTransfer(c, i, s.workers[i], s.sh, out);
    assert !(WorkerOwns(s.workers[i]) && s.workers[i].key == k);
    assert k !in s.sh.pools[i];
    assert forall j: nat | j < |s.workers| && j != i :: s'.workers[j] == s.workers[j];
    assert forall h: nat | h < |s.handles| :: s'.handles[h] == s.handles[h];
  }

  lemma AwayKeptByHandle(c: Config, s: State, h: nat, k: nat)
    requires ValidConfig(c) && !c.listen && OwnInv(c, s) && Enabled(c, s, HandleAct(h)) && Away(c, s, k)
    ensures Away(c, Apply(c, s, HandleAct(h)), k)
  {
    HandleTransfer(c, h, s.handles[h], s.sh);
    assert !(HandleOwns(s.handles[h]) && s.handles[h].key == k);
  }

  /** The index of a dial that does not connect had no other owner. */
  lemma DropLeavesNobody(c: Config, s: State, i: nat, out: Outcome)
    requires ValidConfig(c) && !c.listen && OwnInv(c, s) && Enabled(c, s, WorkerAct(i, out))
    requires s.workers[i].pc.Dialing? && out != Connected
    ensures Away(c, Apply(c, s, WorkerAct(i, out)), s.workers[i].key)
  {
    var k, s' := s.workers[i].key, Apply(c, s, WorkerAct(i, out));
    assert Held(c, s.sh.pools, i, k);
    assert !WorkerOwns(s'.workers[i]);
    forall j: nat | j < |s.workers| && j != i && WorkerOwns(s.workers[j])
      ensures s'.workers[j].key != k
    {
      assert Held(c, s.sh.pools, j, s.workers[j].key);
    }
  }

  lemma DroppedAwayKept(c: Config, s: State, a: Action)
    requires ValidConfig(c) && !c.listen && OwnInv(c, s) && Enabled(c, s, a) && DroppedAway(c, s)
    ensures DroppedAway(c, Apply(c, s, a))
  {
    OnlyDialsDrop(c, s, a);
    forall k: nat | k in Apply(c, s, a).sh.dropped
      ensures Away(c, Apply(c, s, a), k)
    {
      if k in s.sh.dropped {
        AwayKept(c, s, a, k);
      } else {
        DropLeavesNobody(c, s, a.i, a.out);
      }
    }
  }

  lemma {:induction false} ExecKeepsAway(c: Config, s: State, acts: seq<Action>)
    requires ValidConfig(c) && !c.listen && OwnInv(c, s) && Legal(c, s, acts) && DroppedAway(c, s)
    ensures DroppedAway(c, Exec(c, s, acts))
    decreases |acts|
  {
    if acts != [] {
      OwnKept(c, s, acts[0]);
      DroppedAwayKept(c, s, acts[0]);
      ExecKeepsAway(c, Apply(c, s, acts[0]), acts[1..]);
    }
  }

  /** In every run an index that a failed dial dropped is nowhere: its address is never used again. */
  lemma DroppedIsLost(c: Config, s: State, acts: seq<Action>, k: nat)
    requires ValidConfig(c) && !c.listen && Initial(c, s) && Legal(c, s, acts) && k in Exec(c, s, acts).sh.dropped
    ensures var e := Exec(c, s, acts); !InPool(c, e, k) && !WithConnector(e, k) && !WithHandle(e, k)
  {
    ExecKeepsAway(c, s, acts);
  }
}
