/** The `conns` map in listen mode: it holds every live handle's connection, so the shutdown sweep reaches them all. */
module EngineMap {
  import opened EngineModel
  import opened EngineSafety
  import opened EngineAddresses

  predicate Tracing(c: Config) {
    c.listen && !c.nomap
  }

  ghost predicate Mapped(conns: map<nat, nat>, key: nat, conn: nat) {
    key in conns && conns[key] == conn
  }

  // ---------------------------------------------------------------- listen mode

  /** Keys come from the accept counter, so no two connections ever share one. */
  ghost predicate KeysUnique(s: State) {
    && (forall g: nat, h: nat | g < h < |s.handles| :: s.handles[g].key != s.handles[h].key)
    && (forall i: nat, h: nat | i < |s.workers| && h < |s.handles| && s.workers[i].newconn ::
          s.workers[i].key != s.handles[h].key)
    && (forall i: nat, j: nat | i < j < |s.workers| && s.workers[i].newconn && s.workers[j].newconn ::
          s.workers[i].key != s.workers[j].key)
  }

  ghost predicate KeysCounted(s: State) {
    && (forall h: nat | h < |s.handles| :: s.handles[h].key <= s.sh.newCount)
    && (forall i: nat | i < |s.workers| && s.workers[i].newconn :: s.workers[i].key <= s.sh.newCount)
  }

  ghost predicate AllMapped(s: State) {
    && (forall h: nat | h < |s.handles| && !s.handles[h].pc.Ended? ::
          Mapped(s.sh.conns, s.handles[h].key, s.handles[h].conn))
    && (forall i: nat | i < |s.workers| && s.workers[i].pc.Counting? ::
          Mapped(s.sh.conns, s.workers[i].key, s.workers[i].conn))
  }

  ghost predicate NoneDials(s: State) {
    forall i: nat | i < |s.workers| :: !s.workers[i].pc.Dialing?
  }

  ghost predicate MapInv(s: State) {
    WorkersCarry(s) && NoneDials(s) && KeysUnique(s) && KeysCounted(s) && AllMapped(s)
  }

  /** What one step of an acceptor does to the map, the counter and its own key. */
  lemma AcceptorMap(c: Config, i: nat, w: Worker, sh: Shared, out: Outcome)
    requires ValidConfig(c) && Tracing(c) && WorkerReady(c, i, w, sh) && Carries(w)
    requires (w.pc.Counting? ==> w.newconn) && !w.pc.Dialing?
    ensures var r := WorkerStep(c, i, w, sh, out);
            && !r.w.pc.Dialing? && Carries(r.w) && (r.w.pc.Counting? ==> r.w.newconn && w.pc.Admit? && w.newconn)
            && r.sh.conns == (if w.pc.Admit? && w.newconn then sh.conns[w.key := w.conn] else sh.conns)
            && sh.newCount <= r.sh.newCount
            && (r.w.newconn && w.newconn ==> r.w.key == w.key && r.w.conn == w.conn)
            && (r.w.newconn && !w.newconn ==> r.w.key == r.sh.newCount == sh.newCount + 1)
            && (if w.pc.Counting? then r.spawned == [Handle(Blocked, i, w.key, w.conn)] && !r.w.newconn
                else r.spawned == [])
  {
  }

  lemma KeysKeptByWorker(c: Config, s: State, i: nat, out: Outcome)
    requires ValidConfig(c) && Tracing(c) && MapInv(s) && Enabled(c, s, WorkerAct(i, out))
    ensures KeysUnique(Apply(c, s, WorkerAct(i, out))) && KeysCounted(Apply(c, s, WorkerAct(i, out)))
  {
    AcceptorMap(c, i, s.workers[i], s.sh, out);
  }

  lemma MapKeptByWorker(c: Config, s: State, i: nat, out: Outcome)
    requires ValidConfig(c) && Tracing(c) && LockInv(s) && MapInv(s) && Enabled(c, s, WorkerAct(i, out))
    ensures var s' := Apply(c, s, WorkerAct(i, out)); AllMapped(s') && WorkersCarry(s') && NoneDials(s')
  {
    AcceptorMap(c, i, s.workers[i], s.sh, out);
  }

  lemma MapKeptByHandle(c: Config, s: State, h: nat)
    requires ValidConfig(c) && Tracing(c) && LockInv(s) && MapInv(s) && Enabled(c, s, HandleAct(h))
    ensures MapInv(Apply(c, s, HandleAct(h)))
  {
    HandleMap(c, h, s.handles[h], s.sh);
    var s' := Apply(c, s, HandleAct(h));
    if s.handles[h].pc.DelLocked? {
      assert forall i: nat | i < |s.workers| :: !s.workers[i].pc.Counting?;
    }
  }

  lemma HandleMap(c: Config, h: nat, hd: Handle, sh: Shared)
    requires ValidConfig(c) && HandleReady(c, hd, sh)
    ensures var r := HandleStep(c, h, hd, sh);
            && r.hd.key == hd.key && r.hd.conn == hd.conn && r.sh.newCount == sh.newCount && r.sh.swept == sh.swept
            && (r.hd.pc.Ended? <== hd.pc.DelLocked?) && (hd.pc.Ended? ==> r.hd.pc.Ended?)
            && r.sh.conns == if hd.pc.DelLocked? then sh.conns - {hd.key} else sh.conns
  {
  }

  lemma MapKept(c: Config, s: State, a: Action)
    requires ValidConfig(c) && Tracing(c) && LockInv(s) && MapInv(s) && Enabled(c, s, a)
    ensures MapInv(Apply(c, s, a))
  {
    match a
    case WorkerAct(i, out) =>
      KeysKeptByWorker(c, s, i, out);
      MapKeptByWorker(c, s, i, out);
    case HandleAct(h) => MapKeptByHandle(c, s, h);
    case MainAct =>
    case CloseAct =>
  }

  ghost predicate LiveAreMapped(s: State) {
    forall h: nat | h < |s.handles| && Live(s.handles[h].pc) ::
      Mapped(s.sh.conns, s.handles[h].key, s.handles[h].conn)
  }

  /** After the sweep every handle that is still live has had its connection closed by it. */
  ghost predicate SweepInv(s: State) {
    s.main.SwitchOff? || s.main.Draining? || s.main.Destroying? || s.main.Finished? ==>
      forall h: nat | h < |s.handles| && Live(s.handles[h].pc) :: s.handles[h].conn in s.sh.swept
  }

  lemma SweepKept(c: Config, s: State, a: Action)
    requires ValidConfig(c) && SwitchInv(c, s) && LiveAreMapped(s) && SweepInv(s) && Enabled(c, s, a)
    ensures SweepInv(Apply(c, s, a))
  {
    match a
    case WorkerAct(i, out) =>
      assert !Joined(s.main);
    case HandleAct(h) =>
      HandleMap(c, h, s.handles[h], s.sh);
    case MainAct =>
      if s.main.Sweeping? {
        forall h: nat | h < |s.handles| && Live(s.handles[h].pc)
          ensures s.handles[h].conn in s.sh.conns.Values
        {
          assert Mapped(s.sh.conns, s.handles[h].key, s.handles[h].conn);
        }
      }
    case CloseAct =>
  }

  ghost predicate Traced(c: Config, s: State) {
    Safe(c, s) && MapInv(s) && SweepInv(s)
  }

  lemma {:induction false} ExecKeepsTraced(c: Config, s: State, acts: seq<Action>)
    requires ValidConfig(c) && Tracing(c) && Traced(c, s) && Legal(c, s, acts)
    ensures Traced(c, Exec(c, s, acts))
    decreases |acts|
  {
    if acts != [] {
      LockKept(c, s, acts[0]);
      AliveKept(c, s, acts[0]);
      SwitchKept(c, s, acts[0]);
      MapKept(c, s, acts[0]);
      SweepKept(c, s, acts[0]);
      ExecKeepsTraced(c, Apply(c, s, acts[0]), acts[1..]);
    }
  }

  /**
   * Listen mode with map tracing, every run: keys are unique, every live handle's connection is in
   * the map under its key, and after the shutdown sweep every live handle's connection was swept.
   */
  lemma SweepReachesAll(c: Config, s: State, acts: seq<Action>)
    requires ValidConfig(c) && Tracing(c) && Initial(c, s) && Legal(c, s, acts)
    ensures var e := Exec(c, s, acts);
            KeysUnique(e) && LiveAreMapped(e) && SweepInv(e)
  {
    InitialIsSafe(c, s);
    ExecKeepsTraced(c, s, acts);
  }
}
