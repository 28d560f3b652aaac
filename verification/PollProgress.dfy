/** What the protocol of `netPD` makes possible: locks are taken, waits end in success, Close returns. */
module PollProgress {
  import opened PollDesc

  /** `e` is reached from a new descriptor. */
  ghost predicate Reached(s: State, acts: seq<Action>, e: State) {
    Initial(s) && Legal(s, acts) && e == Exec(s, acts)
  }

  lemma ReachedInv(s: State, acts: seq<Action>, e: State)
    requires Reached(s, acts, e)
    ensures Inv(e)
  {
    ExecKeeps(s, acts);
  }

  ghost predicate Owned(e: State, d: Dir) {
    exists i | 0 <= i < |e.threads| :: Owns(e.threads[i], d)
  }

  lemma FreeMeans(e: State, d: Dir)
    requires Inv(e)
    ensures Flag(e, d) == 0 <==> !Owned(e, d) && Flag(e, d) != 3
  {
    if SomeHolds(e.threads, d) {
      var i :| 0 <= i < |e.threads| && e.threads[i] == Holding(d);
      assert Owns(e.threads[i], d);
    }
    if SomeWaits(e.threads, d) {
      var i :| 0 <= i < |e.threads| && Waits(e.threads[i], d);
      assert Owns(e.threads[i], d);
    }
    if Owned(e, d) {
      var i :| 0 <= i < |e.threads| && Owns(e.threads[i], d);
      assert e.threads[i] == Holding(d) || Waits(e.threads[i], d);
    }
  }

  /** A lock is taken if and only if nobody owns the direction and it is not closed. */
  lemma LockTakenExactly(s: State, acts: seq<Action>, e: State, t: nat, d: Dir)
    requires Reached(s, acts, e) && Enabled(e, Lock(t, d))
    ensures var n := Apply(e, Lock(t, d));
            (n.threads[t] == Holding(d) && Flag(n, d) == 1) <==> !Owned(e, d) && Flag(e, d) != 3
  {
    ReachedInv(s, acts, e);
    FreeMeans(e, d);
  }

  /** Without a Close an unlock frees the direction and leaves the other one alone. */
  lemma UnlockFrees(s: State, acts: seq<Action>, e: State, t: nat)
    requires Reached(s, acts, e) && Enabled(e, Unlock(t)) && !e.err
    ensures var n, d := Apply(e, Unlock(t)), e.threads[t].d;
            n.threads[t].Idle? && Flag(n, d) == 0 && forall o: Dir | o != d :: Flag(n, o) == Flag(e, o)
  {
    ReachedInv(s, acts, e);
    InvConsistent(e, t);
  }

  /** Without a Close the holder of a lock can always park. */
  lemma ParkParks(s: State, acts: seq<Action>, e: State, t: nat)
    requires Reached(s, acts, e) && Enabled(e, Park(t)) && !e.err
    ensures var n, d := Apply(e, Park(t)), e.threads[t].d; n.threads[t] == Waiting(d) && Flag(n, d) == 2
  {
    ReachedInv(s, acts, e);
    InvConsistent(e, t);
  }

  ghost predicate NobodyCloses(acts: seq<Action>) {
    forall k | 0 <= k < |acts| :: !acts[k].StartClose?
  }

  lemma {:induction false} NoCloseNoError(s: State, acts: seq<Action>)
    requires Legal(s, acts) && NobodyCloses(acts) && !s.err
    ensures !Exec(s, acts).err
    decreases |acts|
  {
    if acts != [] {
      assert !Apply(s, acts[0]).err;
      NoCloseNoError(Apply(s, acts[0]), acts[1..]);
    }
  }

  /** In a run without a Close every wait that is woken succeeds and has its lock back. */
  lemma WaitsSucceed(s: State, acts: seq<Action>, e: State, t: nat)
    requires Reached(s, acts, e) && NobodyCloses(acts) && Enabled(e, Resume(t))
    ensures var n, d := Apply(e, Resume(t)), e.threads[t].d;
            WaitSucceeds(e, t) && n.threads[t] == Holding(d) && Flag(n, d) == 1
  {
    ReachedInv(s, acts, e);
    InvConsistent(e, t);
    NoCloseNoError(s, acts);
  }

  // ---------------------------------------------------------------- two runs

  ghost predicate Ends(s: State, e: State) {
    exists acts :: Legal(s, acts) && Exec(s, acts) == e
  }

  lemma Stop(e: State)
    ensures Ends(e, e)
  {
    assert Legal(e, []) && Exec(e, []) == e;
  }

  lemma First(s: State, a: Action, t: State, e: State)
    requires Enabled(s, a) && Apply(s, a) == t && Ends(t, e)
    ensures Ends(s, e)
  {
    var acts :| Legal(t, acts) && Exec(t, acts) == e;
    var all := [a] + acts;
    assert all[0] == a && all[1..] == acts;
    assert Legal(s, all) && Exec(s, all) == e;
  }

  /** Lock, park, wake, resume and unlock lead back to where they started, with the direction free. */
  lemma WaitAndRelease(s: State, t: nat, d: Dir)
    requires Initial(s) && t < |s.threads|
    ensures var held, parked := Put(s, t, Holding(d), d, 1), Put(s, t, Waiting(d), d, 2);
            && Apply(s, Lock(t, d)) == held && Apply(held, Park(t)) == parked
            && Apply(Apply(parked, Wake(t)), Resume(t)) == held && Apply(held, Unlock(t)) == s
  {
    assert s.threads[t := Idle] == s.threads;
  }

  /**
   * A Close that finds a writer parked signals it, waits for its wake-up swap, takes the flag from it
   * and returns with both directions closed.
   */
  lemma CloseReturns(s: State)
    requires Initial(s) && |s.threads| == 2
    ensures Ends(s, State([Holding(Wr), CloseDone], 3, 3, true))
  {
    var e := State([Holding(Wr), CloseDone], 3, 3, true);
    ClosesReader(e);
    ClosesWriter(e);
    FindsParked(s, e);
  }

  lemma ClosesReader(e: State)
    requires e == State([Holding(Wr), CloseDone], 3, 3, true)
    ensures Ends(State([Holding(Wr), Closing(Rd, Load)], 3, 0, true), e)
  {
    var h := Holding(Wr);
    var s0, s1 := State([h, Closing(Rd, Load)], 3, 0, true), State([h, Closing(Rd, TryHeld)], 3, 0, true);
    var s2 := State([h, Closing(Rd, TryFree)], 3, 0, true);
    Stop(e);
    First(s2, CloseTurn(1), e, e);
    First(s1, CloseTurn(1), s2, e);
    First(s0, CloseTurn(1), s1, e);
  }

  /** The waiter has been signalled; it swaps 2 to 1 and then loses the flag. */
  lemma ClosesWriter(e: State)
    requires Ends(State([Holding(Wr), Closing(Rd, Load)], 3, 0, true), e)
    ensures Ends(State([Waiting(Wr), Closing(Wr, Load)], 2, 0, true), e)
  {
    var s0 := State([Waiting(Wr), Closing(Wr, Load)], 2, 0, true);
    var s1 := State([Woken(Wr), Closing(Wr, Load)], 2, 0, true);
    var s2 := State([Holding(Wr), Closing(Wr, Load)], 1, 0, true);
    var s3 := State([Holding(Wr), Closing(Wr, TryHeld)], 1, 0, true);
    First(s3, CloseTurn(1), State([Holding(Wr), Closing(Rd, Load)], 3, 0, true), e);
    First(s2, CloseTurn(1), s3, e);
    First(s1, Resume(0), s2, e);
    First(s0, Wake(0), s1, e);
  }

  lemma FindsParked(s: State, e: State)
    requires Initial(s) && |s.threads| == 2 && Ends(State([Waiting(Wr), Closing(Wr, Load)], 2, 0, true), e)
    ensures Ends(s, e)
  {
    var w := Waiting(Wr);
    var s1, s2 := State([Holding(Wr), Idle], 1, 0, false), State([w, Idle], 2, 0, false);
    var s3, s4 := State([w, Closing(Wr, Load)], 2, 0, true), State([w, Closing(Wr, TryHeld)], 2, 0, true);
    var s5, s6 := State([w, Closing(Wr, TryFree)], 2, 0, true), State([w, Closing(Wr, Signal)], 2, 0, true);
    First(s6, CloseTurn(1), s3, e);
    First(s5, CloseTurn(1), s6, e);
    First(s4, CloseTurn(1), s5, e);
    First(s3, CloseTurn(1), s4, e);
    First(s2, StartClose(1), s3, e);
    First(s1, Park(0), s2, e);
    assert s.threads == [Idle, Idle];
    First(s, Lock(0, Wr), s1, e);
  }
}
