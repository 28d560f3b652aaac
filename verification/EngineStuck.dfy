/** Client mode: what a stuck engine lacks, and two runs that get stuck. */
module EngineStuck {
  import opened EngineModel
  import opened EngineAddresses
  import opened EngineIndices
  import opened EngineProgress
  import opened EngineRuns
  import opened EngineClientWitness

  /** The index is with a handle that waits for a start switch nobody has closed. */
  ghost predicate WithBlocked(s: State, k: nat) {
    && !s.sh.flags.switchClosed
    && exists h: nat :: h < |s.handles| && s.handles[h].pc.Blocked? && s.handles[h].key == k
  }

  /**
   * In a stuck engine every address of a connector that still waits was dropped by a dial that did not
   * connect, or is with a handle that waits for the start switch.
   */
  lemma StuckMeans(c: Config, s: State, acts: seq<Action>, i: nat, k: nat)
    requires ValidConfig(c) && !c.listen && Initial(c, s) && FullyLoaded(c, s) && Legal(c, s, acts)
    requires Stuck(c, Exec(c, s, acts)) && i < c.cpus && k < c.addrs && k % c.cpus == i
    requires i < |Exec(c, s, acts).workers| && Exec(c, s, acts).workers[i].pc.Fetching?
    ensures var e := Exec(c, s, acts); k in e.sh.dropped || WithBlocked(e, k)
  {
    ExecKeepsOwn(c, s, acts);
    IndicesConserved(c, s, acts, k);
    StuckIndex(c, Exec(c, s, acts), i, k);
  }

  lemma StuckIndex(c: Config, e: State, i: nat, k: nat)
    requires ValidConfig(c) && !c.listen && OwnInv(c, e) && Stuck(c, e) && k % c.cpus == i
    requires i < |e.workers| && e.workers[i].pc.Fetching? && Placed(c, e, k)
    ensures k in e.sh.dropped || WithBlocked(e, k)
  {
    assert Starved(c, i, e.workers[i], e.sh.pools);
    if WithHandle(e, k) {
      var h: nat :| h < |e.handles| && HandleOwns(e.handles[h]) && e.handles[h].key == k;
      assert Parked(e.handles[h], e.sh.flags);
    }
  }

  // ---------------------------------------------------------------- two runs

  /** One address and a limit of at least two: the only connection waits for a start that never comes. */
  lemma TooFewAddresses(c: Config, s: State)
    requires ValidConfig(c) && LoneClient(c) && c.limit >= 2 && Initial(c, s) && s.sh.pools == [[0]]
    ensures exists e :: Reaches(c, s, e) && Stuck(c, e) && e.sh.alive == 1
  {
    var none: seq<nat> := [];
    var w := s.workers[0];
    Stay(c, s);
    Go(c, s, s, MainAct);
    assert s.workers == [w] && [0] + none == [0];
    PassLock(c, s, w, [], s.sh);
    Connect(c, s, w.(pc := Fetching), [], s.sh, 0, none);
    var e := Lone(Worker(Fetching, false, 0, 0), [] + [Handle(Blocked, 0, 0, 0)], Registered(s.sh, 0, none));
    assert !AllGone(e.workers) by {
      assert e.workers[0].pc.Fetching?;
    }
    assert Stuck(c, e);
  }

  /** One address and no limit: after one dial that should be retried there is no address left to retry from. */
  lemma RetryLosesTheAddress(c: Config, s: State)
    requires ValidConfig(c) && Unlimited(c) && Initial(c, s) && s.sh.pools == [[0]]
    ensures exists e :: Reaches(c, s, e) && Stuck(c, e) && e.handles == [] && e.sh.dropped == {0}
  {
    var none: seq<nat> := [];
    var w, on := s.workers[0], s.sh.(flags := Flags(false, true, true, false, false));
    var empty := on.(pools := [none]);
    var lost := empty.(dropped := empty.dropped + {0});
    assert [0] + none == [0];
    StartLone(c, s);
    PassLock(c, s, w, [], on);
    Fetch(c, s, w.(pc := Fetching), [], on, 0, none);
    Advance(c, s, w.(pc := Dialing, key := 0), [], empty, Retry, w.(pc := AtLock, key := 0), [], lost);
    PassLock(c, s, w.(pc := AtLock, key := 0), [], lost);
    var e := Lone(w.(pc := Fetching, key := 0), [], lost);
    assert !AllGone(e.workers) by {
      assert e.workers[0].pc.Fetching?;
    }
    assert Stuck(c, e);
  }
}
