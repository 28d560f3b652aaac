/** Listen mode with one acceptor and a limit of one: whole lives of the engine, from the start to `destroyed`. */
module EngineListenRun {
  import opened EngineModel
  import opened EngineRuns
  import opened EngineShutdown

  predicate OneAtATime(c: Config) {
    c.listen && !c.nomap && c.cpus == 1 && c.limit == 1
  }

  // ---------------------------------------------------------------- the acceptor

  /** Accept hands over a connection, under the next key. */
  lemma Accepted(c: Config, s: State, w: Worker, hs: seq<Handle>, sh: Shared)
    requires ValidConfig(c) && c.listen && Reaches(c, s, Lone(w, hs, sh)) && w.pc.Fetching?
    ensures Reaches(c, s, Lone(Worker(AtLock, true, sh.newCount + 1, sh.dials), hs,
                               sh.(newCount := sh.newCount + 1, dials := sh.dials + 1)))
  {
    Advance(c, s, w, hs, sh, Connected, Worker(AtLock, true, sh.newCount + 1, sh.dials), hs,
            sh.(newCount := sh.newCount + 1, dials := sh.dials + 1));
  }

  /** At the limit the connection in hand is closed; the worker is then about to hold on. */
  lemma TurnedAway(c: Config, s: State, w: Worker, hs: seq<Handle>, sh: Shared)
    requires ValidConfig(c) && c.listen && !BelowLimit(c, sh) && Reaches(c, s, Lone(w, hs, sh))
    requires w.pc.AtLock? && sh.lock.Free? && !sh.flags.closing
    ensures Reaches(c, s, Lone(w.(pc := HoldOn, newconn := false), hs, sh.(lock := ByWorker(0))))
  {
    var locked := sh.(lock := ByWorker(0));
    Advance(c, s, w, hs, sh, Connected, w.(pc := InLock), hs, locked);
    Advance(c, s, w.(pc := InLock), hs, locked, Connected, w.(pc := Testing), hs, locked);
    Advance(c, s, w.(pc := Testing), hs, locked, Connected, w.(pc := Full), hs, locked);
    Advance(c, s, w.(pc := Full), hs, locked, Connected, w.(pc := HoldOn, newconn := false), hs, locked);
  }

  /** With "exit at the limit" the worker closes the engine and is gone. */
  lemma ExitsAtLimit(c: Config, s: State, w: Worker, hs: seq<Handle>, sh: Shared)
    requires ValidConfig(c) && c.listen && c.exitmax && !BelowLimit(c, sh) && Reaches(c, s, Lone(w, hs, sh))
    requires w.pc.AtLock? && sh.lock.Free? && !sh.flags.closing
    ensures Reaches(c, s, Lone(w.(pc := Gone, newconn := false), hs, sh.(flags := Close(sh.flags))))
  {
    var locked, closed := sh.(lock := ByWorker(0)), sh.(flags := Close(sh.flags));
    var w1 := w.(pc := HoldOn, newconn := false);
    TurnedAway(c, s, w, hs, sh);
    Advance(c, s, w1, hs, locked, Connected, w1.(pc := Exiting), hs, closed);
    Advance(c, s, w1.(pc := Exiting), hs, closed, Connected, w1.(pc := Gone), hs, closed);
  }

  /** Otherwise the first worker at the limit puts the work load on, closes the switch and sleeps. */
  lemma SwitchesOn(c: Config, s: State, w: Worker, hs: seq<Handle>, sh: Shared)
    requires ValidConfig(c) && c.listen && !c.exitmax && !BelowLimit(c, sh) && Reaches(c, s, Lone(w, hs, sh))
    requires w.pc.AtLock? && sh.lock.Free? && sh.flags == Flags(false, false, false, false, false)
    ensures Reaches(c, s, Lone(w.(pc := Waiting, newconn := false), hs,
                               sh.(flags := Flags(false, true, true, false, false))))
  {
    var locked, on := sh.(lock := ByWorker(0)), sh.(flags := Flags(false, true, true, false, false));
    var half := locked.(flags := Flags(false, true, false, false, false));
    var w1 := w.(pc := HoldOn, newconn := false);
    TurnedAway(c, s, w, hs, sh);
    Advance(c, s, w1, hs, locked, Connected, w1.(pc := Switching), hs, half);
    Advance(c, s, w1.(pc := Switching), hs, half, Connected, w1.(pc := Releasing), hs, on.(lock := ByWorker(0)));
    Advance(c, s, w1.(pc := Releasing), hs, on.(lock := ByWorker(0)), Connected, w1.(pc := Waiting), hs, on);
  }

  /** A woken worker tests again, and below the limit goes on to its next connection. */
  lemma Woken(c: Config, s: State, w: Worker, hs: seq<Handle>, sh: Shared)
    requires ValidConfig(c) && BelowLimit(c, sh) && Reaches(c, s, Lone(w, hs, sh)) && w.pc.Waiting? && !w.newconn
    requires sh.lock.Free? && !sh.flags.closing
    ensures Reaches(c, s, Lone(w.(pc := Fetching), hs, sh))
  {
    Advance(c, s, w, hs, sh, Connected, w.(pc := Relocked), hs, sh.(lock := ByWorker(0)));
    Advance(c, s, w.(pc := Relocked), hs, sh.(lock := ByWorker(0)), Connected, w.(pc := AtLock), hs, sh);
    PassLock(c, s, w.(pc := AtLock), hs, sh);
  }

  /** An Accept that fails while the engine is open makes the acceptor close it. */
  lemma AcceptFails(c: Config, s: State, w: Worker, hs: seq<Handle>, sh: Shared)
    requires ValidConfig(c) && c.listen && Reaches(c, s, Lone(w, hs, sh)) && w.pc.Fetching?
    requires sh.lock.Free? && !sh.flags.closing
    ensures Reaches(c, s, Lone(w.(pc := Gone), hs, sh.(flags := Close(sh.flags))))
  {
    Advance(c, s, w, hs, sh, Fail, w.(pc := FatalAtLock), hs, sh);
    LeaveForGood(c, s, w.(pc := FatalAtLock), hs, sh);
  }

  /** A handle of listen mode runs, leaves the counter and deletes its entry. */
  lemma Served(c: Config, s: State, w: Worker, hd: Handle, sh: Shared)
    requires ValidConfig(c) && c.listen && !c.nomap && hd.pc.Blocked? && sh.flags.switchClosed && sh.lock.Free?
    requires Reaches(c, s, Lone(w, [hd], sh))
    ensures Reaches(c, s, Lone(w, [hd.(pc := Ended)], sh.(alive := sh.alive - 1, conns := sh.conns - {hd.key})))
  {
    var sh1 := sh.(alive := sh.alive - 1);
    assert With([hd], 0, Blocked) == [hd];
    HandleMoves(c, s, w, [hd], sh, 0, Blocked, Running, sh);
    HandleMoves(c, s, w, [hd], sh, 0, Running, Leaving, sh);
    HandleMoves(c, s, w, [hd], sh, 0, Leaving, Deleting, sh1);
    assert With([hd], 0, Deleting) == [hd.(pc := Deleting)];
    Delete(c, s, w, [hd.(pc := Deleting)], sh1, 0);
    assert With([hd.(pc := Deleting)], 0, Ended) == [hd.(pc := Ended)];
  }

  // ---------------------------------------------------------------- whole lives

  /** The first connection is served by a handle that still waits; the second is in the acceptor's hand. */
  lemma TwoArrive(c: Config, s: State)
    requires ValidConfig(c) && OneAtATime(c) && Initial(c, s)
    ensures var sh := s.sh.(newCount := 2, dials := 2, conns := map[1 := 0], alive := 1);
            Reaches(c, s, Lone(Worker(AtLock, true, 2, 1), [Handle(Blocked, 0, 1, 0)], sh))
  {
    var w, sh1 := s.workers[0], s.sh.(newCount := 1, dials := 1);
    Stay(c, s);
    Go(c, s, s, MainAct);
    assert s.workers == [w];
    PassLock(c, s, w, [], s.sh);
    Accepted(c, s, w.(pc := Fetching), [], s.sh);
    Admission(c, s, Worker(AtLock, true, 1, 0), [], sh1);
    var hs, sh2 := [] + [Handle(Blocked, 0, 1, 0)], sh1.(conns := map[1 := 0], alive := 1);
    assert sh1.conns[1 := 0] == map[1 := 0] && hs == [Handle(Blocked, 0, 1, 0)];
    Accepted(c, s, Worker(Fetching, false, 1, 0), hs, sh2);
  }

  /** The shutdown of an engine whose acceptor is gone and whose handles have ended. */
  lemma Shutdown(c: Config, s: State, w: Worker, hs: seq<Handle>, sh: Shared)
    requires ValidConfig(c) && Reaches(c, s, Lone(w, hs, sh)) && w.pc.Gone? && sh.lock.Free? && sh.alive == 0
    requires sh.flags == Flags(true, true, true, false, false)
    ensures Reaches(c, s, State([w], hs, Finished, sh.(swept := sh.conns.Values,
                                                       flags := Flags(true, true, true, false, true))))
  {
    var swept := sh.(swept := sh.conns.Values);
    Sweep(c, s, w, hs, sh);
    Go(c, s, State([w], hs, SwitchOff, swept.(lock := ByMain)), MainAct);
    Go(c, s, State([w], hs, Draining, swept), MainAct);
    Go(c, s, State([w], hs, Destroying, swept), MainAct);
  }

  /**
   * The second connection meets the limit and starts the work load; the first is served and deleted; the
   * acceptor goes on, fails, and the engine shuts down.
   */
  lemma AcceptsServesAndShutsDown(c: Config, s: State)
    requires ValidConfig(c) && OneAtATime(c) && !c.exitmax && Initial(c, s)
    ensures exists e :: Reaches(c, s, e) && ShutDown(e) && e.sh.newCount == 2 && e.sh.conns == map[]
                        && e.handles == [Handle(Ended, 0, 1, 0)] && e.sh.alive == 0
  {
    var w, hd := Worker(Waiting, false, 2, 1), Handle(Blocked, 0, 1, 0);
    var sh0 := s.sh.(newCount := 2, dials := 2, conns := map[1 := 0], alive := 1);
    var sh1 := sh0.(flags := Flags(false, true, true, false, false));
    TwoArrive(c, s);
    SwitchesOn(c, s, Worker(AtLock, true, 2, 1), [hd], sh0);
    Served(c, s, w, hd, sh1);
    var none: map<nat, nat> := map[];
    var hs, sh2 := [hd.(pc := Ended)], sh1.(alive := 0, conns := none);
    assert map[1 := 0] - {1} == none;
    Woken(c, s, w, hs, sh2);
    AcceptFails(c, s, w.(pc := Fetching), hs, sh2);
    Shutdown(c, s, w.(pc := Gone), hs, sh2.(flags := Close(sh2.flags)));
  }

  /** With "exit at the limit" the second connection ends the engine; the shutdown sweep closes the first. */
  lemma ExitMaxSweepsTheFirst(c: Config, s: State)
    requires ValidConfig(c) && OneAtATime(c) && c.exitmax && Initial(c, s)
    ensures exists e :: Reaches(c, s, e) && e.main.SwitchOff? && AllGone(e.workers) && e.sh.swept == {0}
                        && e.sh.alive == 1 && e.sh.flags.closing && !e.sh.flags.workloadon
  {
    var w, hs := Worker(AtLock, true, 2, 1), [Handle(Blocked, 0, 1, 0)];
    var sh := s.sh.(newCount := 2, dials := 2, conns := map[1 := 0], alive := 1);
    TwoArrive(c, s);
    ExitsAtLimit(c, s, w, hs, sh);
    Sweep(c, s, w.(pc := Gone, newconn := false), hs, sh.(flags := Close(sh.flags)));
    assert map[1 := 0].Values == {0} by {
      assert map[1 := 0][1] == 0;
    }
  }
}
