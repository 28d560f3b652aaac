/**
 * The `conns` map in client mode: a handle gives its address index back before it deletes its entry,
 * so the delete can remove the entry of the connection that took the index over. Exactly when this
 * never happens every live handle stays in the map, and the shutdown sweep reaches them all.
 */
module EngineClientMap {
  import opened EngineModel
  import opened EngineSafety
  import opened EngineAddresses
  import opened EngineMap

  predicate ClientTracing(c: Config) {
    !c.listen && !c.nomap
  }

  // ---------------------------------------------------------------- one step

  /** A connector between the insertion and the spawn has its connection in the map. */
  ghost predicate CountingMapped(s: State) {
    forall i: nat | i < |s.workers| && s.workers[i].pc.Counting? ::
      Mapped(s.sh.conns, s.workers[i].key, s.workers[i].conn)
  }

  ghost predicate ClientInv(c: Config, s: State)
    requires ValidConfig(c)
  {
    LockInv(s) && OwnInv(c, s) && CountingMapped(s) && LiveAreMapped(s)
  }

  /** What a step of a connector does to the map: only an admission changes it, under its own key. */
  lemma ConnectorMap(c: Config, i: nat, w: Worker, sh: Shared, out: Outcome)
    requires ValidConfig(c) && ClientTracing(c) && WorkerReady(c, i, w, sh)
    ensures var r := WorkerStep(c, i, w, sh, out);
            && r.sh.conns == (if w.pc.Admit? && w.newconn then sh.conns[w.key := w.conn] else sh.conns)
            && (r.w.pc.Counting? ==> w.pc.Admit? && w.newconn && r.w.key == w.key && r.w.conn == w.conn)
            && r.spawned == (if w.pc.Counting? then [Handle(Blocked, i, w.key, w.conn)] else [])
  {
  }

  lemma MappedByConnector(c: Config, s: State, i: nat, out: Outcome)
    requires ValidConfig(c) && ClientTracing(c) && ClientInv(c, s) && Enabled(c, s, WorkerAct(i, out))
    ensures LiveAreMapped(Apply(c, s, WorkerAct(i, out)))
  {
    var w, s' := s.workers[i], Apply(c, s, WorkerAct(i, out));
    ConnectorMap(c, i, w, s.sh, out);
    forall h: nat | h < |s'.handles| && Live(s'.handles[h].pc)
      ensures Mapped(s'.sh.conns, s'.handles[h].key, s'.handles[h].conn)
    {
      if h < |s.handles| {
        assert s'.handles[h] == s.handles[h] && HandleOwns(s.handles[h]);
      }
    }
  }

  lemma CountingByConnector(c: Config, s: State, i: nat, out: Outcome)
    requires ValidConfig(c) && ClientTracing(c) && ClientInv(c, s) && Enabled(c, s, WorkerAct(i, out))
    ensures CountingMapped(Apply(c, s, WorkerAct(i, out)))
  {
    ConnectorMap(c, i, s.workers[i], s.sh, out);
  }

  /** The delete of handle `h` comes when a live handle already has its address index. */
  predicate DeletesLate(s: State, h: nat) {
    && h < |s.handles| && s.handles[h].pc.DelLocked?
    && exists g | 0 <= g < |s.handles| :: Live(s.handles[g].pc) && s.handles[g].key == s.handles[h].key
  }

  /** A delete keeps every live handle mapped exactly when it does not come late. */
  lemma LateDelete(c: Config, s: State, h: nat)
    requires ValidConfig(c) && LiveAreMapped(s) && h < |s.handles| && s.handles[h].pc.DelLocked?
    ensures LiveAreMapped(Apply(c, s, HandleAct(h))) <==> !DeletesLate(s, h)
  {
    var s' := Apply(c, s, HandleAct(h));
    if g :| 0 <= g < |s.handles| && Live(s.handles[g].pc) && s.handles[g].key == s.handles[h].key {
      assert Live(s'.handles[g].pc) && !Mapped(s'.sh.conns, s'.handles[g].key, s'.handles[g].conn);
    }
  }

  lemma MappedByHandle(c: Config, s: State, h: nat)
    requires ValidConfig(c) && ClientTracing(c) && ClientInv(c, s) && Enabled(c, s, HandleAct(h))
    ensures CountingMapped(Apply(c, s, HandleAct(h)))
    ensures LiveAreMapped(Apply(c, s, HandleAct(h))) <==> !DeletesLate(s, h)
  {
    HandleMap(c, h, s.handles[h], s.sh);
    if s.handles[h].pc.DelLocked? {
      LateDelete(c, s, h);
      assert forall i: nat | i < |s.workers| :: !s.workers[i].pc.Counting?;
    }
  }

  predicate LateStep(s: State, a: Action) {
    a.HandleAct? && DeletesLate(s, a.h)
  }

  /** Of all steps of all goroutines only a late delete takes a live handle out of the map. */
  lemma StepKeepsMapped(c: Config, s: State, a: Action)
    requires ValidConfig(c) && ClientTracing(c) && ClientInv(c, s) && Enabled(c, s, a)
    ensures LiveAreMapped(Apply(c, s, a)) <==> !LateStep(s, a)
    ensures !LateStep(s, a) ==> ClientInv(c, Apply(c, s, a))
  {
    LockKept(c, s, a);
    OwnKept(c, s, a);
    match a
    case WorkerAct(i, out) =>
      MappedByConnector(c, s, i, out);
      CountingByConnector(c, s, i, out);
    case HandleAct(h) => MappedByHandle(c, s, h);
    case MainAct =>
    case CloseAct =>
  }

  // ---------------------------------------------------------------- whole runs

  /** Every state of the run, the last included, has all its live handles in the map. */
  ghost predicate AlwaysMapped(c: Config, s: State, acts: seq<Action>)
    requires ValidConfig(c) && Legal(c, s, acts)
    decreases |acts|
  {
    LiveAreMapped(s) && (acts == [] || AlwaysMapped(c, Apply(c, s, acts[0]), acts[1..]))
  }

  /** No handle of the run deletes its entry while a live handle has its address index. */
  predicate NoLateDelete(c: Config, s: State, acts: seq<Action>)
    requires ValidConfig(c) && Legal(c, s, acts)
    decreases |acts|
  {
    acts == [] || (!LateStep(s, acts[0]) && NoLateDelete(c, Apply(c, s, acts[0]), acts[1..]))
  }

  lemma {:induction false} MappedAlongRun(c: Config, s: State, acts: seq<Action>)
    requires ValidConfig(c) && ClientTracing(c) && ClientInv(c, s) && Legal(c, s, acts)
    ensures AlwaysMapped(c, s, acts) <==> NoLateDelete(c, s, acts)
    decreases |acts|
  {
    if acts != [] {
      StepKeepsMapped(c, s, acts[0]);
      var t := Apply(c, s, acts[0]);
      if !LateStep(s, acts[0]) {
        MappedAlongRun(c, t, acts[1..]);
      } else {
        assert !AlwaysMapped(c, t, acts[1..]);
      }
    }
  }

  lemma InitialClient(c: Config, s: State)
    requires ValidConfig(c) && ClientTracing(c) && Initial(c, s)
    ensures ClientInv(c, s)
  {
  }

  /**
   * Exactly when a client-mode run keeps the promise of listen mode: every live handle is in the map
   * in every state of the run if and only if the run has no late delete.
   */
  lemma MappedExactlyWithoutLateDelete(c: Config, s: State, acts: seq<Action>)
    requires ValidConfig(c) && ClientTracing(c) && Initial(c, s) && Legal(c, s, acts)
    ensures AlwaysMapped(c, s, acts) <==> NoLateDelete(c, s, acts)
  {
    InitialClient(c, s);
    MappedAlongRun(c, s, acts);
  }

  lemma {:induction false} SweptAlongRun(c: Config, s: State, acts: seq<Action>)
    requires ValidConfig(c) && Legal(c, s, acts) && AlwaysMapped(c, s, acts) && Safe(c, s) && SweepInv(s)
    ensures SweepInv(Exec(c, s, acts))
    decreases |acts|
  {
    if acts != [] {
      LockKept(c, s, acts[0]);
      AliveKept(c, s, acts[0]);
      SwitchKept(c, s, acts[0]);
      SweepKept(c, s, acts[0]);
      SweptAlongRun(c, Apply(c, s, acts[0]), acts[1..]);
    }
  }

  /** Without a late delete the shutdown sweep reaches every live handle, as in listen mode. */
  lemma ClientSweepReachesAll(c: Config, s: State, acts: seq<Action>)
    requires ValidConfig(c) && ClientTracing(c) && Initial(c, s) && Legal(c, s, acts) && NoLateDelete(c, s, acts)
    ensures SweepInv(Exec(c, s, acts))
  {
    MappedExactlyWithoutLateDelete(c, s, acts);
    InitialIsSafe(c, s);
    SweptAlongRun(c, s, acts);
  }
}
