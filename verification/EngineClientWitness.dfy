/** Client-mode runs of one connector; in two a late delete hides a live connection from the shutdown sweep. */
module EngineClientWitness {
  import opened EngineModel
  import opened EngineSafety
  import opened EngineMap
  import opened EngineRuns

  predicate LoneClient(c: Config) {
    !c.listen && !c.nomap && c.cpus == 1
  }

  predicate Unlimited(c: Config) {
    LoneClient(c) && c.limit <= 0
  }

  lemma StartLone(c: Config, s: State)
    requires ValidConfig(c) && Unlimited(c) && Initial(c, s)
    ensures var w := s.workers[0];
            Reaches(c, s, Lone(w, [], s.sh.(flags := Flags(false, true, true, false, false))))
  {
    Stay(c, s);
    Go(c, s, s, MainAct);
    Go(c, s, Apply(c, s, MainAct), MainAct);
  }

  lemma Fetch(c: Config, s: State, w: Worker, hs: seq<Handle>, sh: Shared, key: nat, q: seq<nat>)
    requires ValidConfig(c) && LoneClient(c)
    requires Reaches(c, s, Lone(w, hs, sh)) && w.pc.Fetching? && sh.pools == [[key] + q]
    ensures Reaches(c, s, Lone(w.(pc := Dialing, key := key), hs, sh.(pools := [q])))
  {
    assert ([key] + q)[1..] == q && sh.pools[0 := q] == [q];
    Advance(c, s, w, hs, sh, Connected, w.(pc := Dialing, key := key), hs, sh.(pools := [q]));
  }

  /** What a connection from the address `key` makes of the shared state. */
  function Registered(sh: Shared, key: nat, q: seq<nat>): (r: Shared) {
    sh.(pools := [q], newCount := sh.newCount + 1, dials := sh.dials + 1,
        conns := sh.conns[key := sh.dials], alive := sh.alive + 1)
  }

  /** From Fetching a connector dials, is admitted, starts a handle and is back at Fetching. */
  lemma Connect(c: Config, s: State, w: Worker, hs: seq<Handle>, sh: Shared, key: nat, q: seq<nat>)
    requires ValidConfig(c) && LoneClient(c) && BelowLimit(c, sh)
    requires Reaches(c, s, Lone(w, hs, sh)) && w.pc.Fetching? && !w.newconn
    requires sh.pools == [[key] + q] && sh.lock.Free? && !sh.flags.closing
    ensures Reaches(c, s, Lone(Worker(Fetching, false, key, sh.dials), hs + [Handle(Blocked, 0, key, sh.dials)],
                               Registered(sh, key, q)))
  {
    var d, sh1 := sh.dials, sh.(pools := [q]);
    var sh2 := sh1.(newCount := sh.newCount + 1, dials := d + 1);
    Fetch(c, s, w, hs, sh, key, q);
    Advance(c, s, w.(pc := Dialing, key := key), hs, sh1, Connected, Worker(AtLock, true, key, d), hs, sh2);
    Admission(c, s, Worker(AtLock, true, key, d), hs, sh2);
  }

  /** From Fetching a dial that fails for good makes the connector close the engine and leave. */
  lemma GiveUp(c: Config, s: State, w: Worker, hs: seq<Handle>, sh: Shared, key: nat, q: seq<nat>)
    requires ValidConfig(c) && LoneClient(c)
    requires Reaches(c, s, Lone(w, hs, sh)) && w.pc.Fetching? && sh.pools == [[key] + q] && sh.lock.Free?
    ensures Reaches(c, s, Lone(w.(pc := Gone, key := key), hs,
                               sh.(pools := [q], dropped := sh.dropped + {key}, flags := Close(sh.flags))))
  {
    var w1, sh1 := w.(pc := Dialing, key := key), sh.(pools := [q]);
    var failed := sh1.(dropped := sh.dropped + {key});
    Fetch(c, s, w, hs, sh, key, q);
    Advance(c, s, w1, hs, sh1, Fail, w1.(pc := FatalAtLock), hs, failed);
    LeaveForGood(c, s, w1.(pc := FatalAtLock), hs, failed);
  }

  /** A handle runs until its index is back in the pool; its map entry is still to be deleted. */
  lemma Return(c: Config, s: State, w: Worker, hs: seq<Handle>, sh: Shared, h: nat, q: seq<nat>)
    requires ValidConfig(c) && LoneClient(c) && h < |hs| && hs[h].pc.Blocked? && hs[h].idx == 0
    requires Reaches(c, s, Lone(w, hs, sh)) && sh.pools == [q] && |q| < PoolCapacity(c) && sh.flags.switchClosed
    ensures Reaches(c, s, Lone(w, With(hs, h, Deleting), sh.(alive := sh.alive - 1, pools := [q + [hs[h].key]])))
  {
    var sh1 := sh.(alive := sh.alive - 1);
    assert With(hs, h, Blocked) == hs;
    HandleMoves(c, s, w, hs, sh, h, Blocked, Running, sh);
    HandleMoves(c, s, w, hs, sh, h, Running, Leaving, sh);
    HandleMoves(c, s, w, hs, sh, h, Leaving, Returning, sh1);
    assert [q][0 := q + [hs[h].key]] == [q + [hs[h].key]];
    HandleMoves(c, s, w, hs, sh1, h, Returning, Deleting, sh1.(pools := [q + [hs[h].key]]));
  }

  // ---------------------------------------------------------------- the runs

  lemma FirstConnection(c: Config, s: State, q: seq<nat>)
    requires ValidConfig(c) && Unlimited(c) && Initial(c, s) && s.sh.pools == [[0] + q]
    ensures Reaches(c, s, Lone(Worker(Fetching, false, 0, 0), [Handle(Blocked, 0, 0, 0)],
                               Registered(s.sh.(flags := Flags(false, true, true, false, false)), 0, q)))
  {
    var on := s.sh.(flags := Flags(false, true, true, false, false));
    StartLone(c, s);
    PassLock(c, s, s.workers[0], [], on);
    Connect(c, s, s.workers[0].(pc := Fetching), [], on, 0, q);
    assert [] + [Handle(Blocked, 0, 0, 0)] == [Handle(Blocked, 0, 0, 0)];
  }

  /** A second connection from the address of a handle that has still to delete its entry. */
  lemma ReusedThenHidden(c: Config, s: State, w: Worker, hd: Handle, sh: Shared, q: seq<nat>)
    requires ValidConfig(c) && Unlimited(c) && Reaches(c, s, Lone(w, [hd], sh)) && hd.pc.Deleting?
    requires w.pc.Fetching? && !w.newconn && sh.pools == [[hd.key] + q] && sh.lock.Free? && !sh.flags.closing
    ensures exists e :: Reaches(c, s, e) && !LiveAreMapped(e)
  {
    Connect(c, s, w, [hd], sh, hd.key, q);
    var hs := [hd] + [Handle(Blocked, 0, hd.key, sh.dials)];
    DeleteHides(c, s, Worker(Fetching, false, hd.key, sh.dials), hs, Registered(sh, hd.key, q), 0, 1);
  }

  /** With one connector and one address a run leads to a live handle without a map entry. */
  lemma ClientModeLosesEntry(c: Config, s: State)
    requires ValidConfig(c) && Unlimited(c) && Initial(c, s) && s.sh.pools == [[0]]
    ensures exists e :: Reaches(c, s, e) && !LiveAreMapped(e)
  {
    var none: seq<nat> := [];
    var w, h0 := Worker(Fetching, false, 0, 0), Handle(Blocked, 0, 0, 0);
    var sh := Registered(s.sh.(flags := Flags(false, true, true, false, false)), 0, none);
    assert [0] == [0] + none == none + [0];
    FirstConnection(c, s, none);
    Return(c, s, w, [h0], sh, 0, none);
    assert With([h0], 0, Deleting) == [h0.(pc := Deleting)];
    ReusedThenHidden(c, s, w, h0.(pc := Deleting), sh.(alive := sh.alive - 1, pools := [none + [0]]), none);
  }

  /** A handle that deletes its entry late leaves the live handle with the same key without one. */
  lemma DeleteHides(c: Config, s: State, w: Worker, hs: seq<Handle>, sh: Shared, h: nat, g: nat)
    requires ValidConfig(c) && LoneClient(c) && Reaches(c, s, Lone(w, hs, sh)) && sh.lock.Free?
    requires h < |hs| && g < |hs| && hs[h].pc.Deleting? && Live(hs[g].pc) && hs[g].key == hs[h].key
    ensures exists e :: Reaches(c, s, e) && !LiveAreMapped(e)
  {
    Delete(c, s, w, hs, sh, h);
    var e := Lone(w, With(hs, h, Ended), sh.(conns := sh.conns - {hs[h].key}));
    assert e.handles[g] == hs[g];
  }

  /** The handles, connections 0 to 2, when the third has taken over the address of the first. */
  function Three(): (hs: seq<Handle>) {
    [Handle(Deleting, 0, 0, 0), Handle(Blocked, 0, 1, 1), Handle(Blocked, 0, 0, 2)]
  }

  /** The shared state when the first of two addresses is back in the pool, its map entry still there. */
  function OneReturned(sh: Shared): (r: Shared) {
    sh.(flags := Flags(false, true, true, false, false), pools := [[1, 0]], newCount := 1, dials := 1,
        conns := map[0 := 0], alive := 0)
  }

  lemma FirstReturned(c: Config, s: State)
    requires ValidConfig(c) && Unlimited(c) && Initial(c, s) && s.sh.pools == [[0, 1]]
    ensures Reaches(c, s, Lone(Worker(Fetching, false, 0, 0), [Handle(Deleting, 0, 0, 0)], OneReturned(s.sh)))
  {
    var h0 := Handle(Blocked, 0, 0, 0);
    var sh := Registered(s.sh.(flags := Flags(false, true, true, false, false)), 0, [1]);
    assert [0] + [1] == [0, 1] && [1] + [0] == [1, 0];
    assert PoolOk(c, 0, s.sh.pools[0]) && s.sh.pools[0][1] == 1;
    assert PoolCapacity(c) == c.addrs + 1 >= 2;
    FirstConnection(c, s, [1]);
    Return(c, s, Worker(Fetching, false, 0, 0), [h0], sh, 0, [1]);
    assert With([h0], 0, Deleting) == [h0.(pc := Deleting)];
    assert sh.(alive := sh.alive - 1, pools := [[1] + [0]]) == OneReturned(s.sh);
  }

  /** The shared state when both addresses are in use again, the first for the third connection. */
  function ThreeRegistered(sh: Shared): (r: Shared) {
    Registered(Registered(OneReturned(sh), 1, [0]), 0, [])
  }

  lemma ThreeConnections(c: Config, s: State)
    requires ValidConfig(c) && Unlimited(c) && Initial(c, s) && s.sh.pools == [[0, 1]]
    ensures Reaches(c, s, Lone(Worker(Fetching, false, 0, 2), Three(), ThreeRegistered(s.sh)))
  {
    var none: seq<nat> := [];
    var hs1, sh1 := [Handle(Deleting, 0, 0, 0)], OneReturned(s.sh);
    var hs2 := hs1 + [Handle(Blocked, 0, 1, 1)];
    FirstReturned(c, s);
    assert [1] + [0] == [1, 0];
    Connect(c, s, Worker(Fetching, false, 0, 0), hs1, sh1, 1, [0]);
    assert [0] + none == [0];
    Connect(c, s, Worker(Fetching, false, 1, 1), hs2, Registered(sh1, 1, [0]), 0, none);
    assert hs2 + [Handle(Blocked, 0, 0, 2)] == Three();
  }

  /** The state then: the map has the second and third connection, the pool is empty, nobody is in the lock. */
  ghost predicate TwoMapped(sh: Shared) {
    && sh.conns == map[0 := 2, 1 := 1] && sh.pools == [[]] && sh.lock.Free?
    && !sh.flags.closing && sh.flags.switchClosed
  }

  lemma LateDeleteThenSweep(c: Config, s: State, sh: Shared)
    requires ValidConfig(c) && Unlimited(c) && TwoMapped(sh)
    requires Reaches(c, s, Lone(Worker(Fetching, false, 0, 2), Three(), sh))
    ensures exists e :: Reaches(c, s, e) && !SweepInv(e)
  {
    var none: seq<nat> := [];
    var w, hs1, sh1 := Worker(Fetching, false, 0, 2), With(Three(), 0, Ended), sh.(conns := sh.conns - {0});
    assert [1] + none == [1] && none + [1] == [1] && sh1.conns == map[1 := 1];
    Delete(c, s, w, Three(), sh, 0);
    Return(c, s, w, hs1, sh1, 1, none);
    var hs2, sh2 := With(hs1, 1, Deleting), sh1.(alive := sh1.alive - 1, pools := [none + [1]]);
    GiveUp(c, s, w, hs2, sh2, 1, none);
    var sh3 := sh2.(pools := [none], dropped := sh2.dropped + {1}, flags := Close(sh2.flags));
    var gone := w.(pc := Gone, key := 1);
    Sweep(c, s, gone, hs2, sh3);
    var e := State([gone], hs2, SwitchOff, sh3.(flags := Close(sh3.flags), lock := ByMain, swept := sh3.conns.Values));
    assert e.handles[2] == Handle(Blocked, 0, 0, 2) && 2 !in e.sh.swept;
    assert !SweepInv(e);
  }

  /**
   * With one connector and two addresses a run ends in a shutdown whose sweep misses a live handle: the
   * third connection, whose entry the first one deleted.
   */
  lemma ClientSweepMissesHandle(c: Config, s: State)
    requires ValidConfig(c) && Unlimited(c) && Initial(c, s) && s.sh.pools == [[0, 1]]
    ensures exists e :: Reaches(c, s, e) && !SweepInv(e)
  {
    ThreeConnections(c, s);
    assert TwoMapped(ThreeRegistered(s.sh));
    LateDeleteThenSweep(c, s, ThreeRegistered(s.sh));
  }
}
