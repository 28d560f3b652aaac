/** Pieces of runs of an engine with one connector or acceptor, from which whole runs are put together. */
module EngineRuns {
  import opened EngineModel

  /** Some run leads from `s` to `e`. */
  ghost predicate Reaches(c: Config, s: State, e: State)
    requires ValidConfig(c)
  {
    exists acts :: Legal(c, s, acts) && Exec(c, s, acts) == e
  }

  lemma {:induction false} OneMore(c: Config, s: State, acts: seq<Action>, a: Action)
    requires ValidConfig(c) && Legal(c, s, acts) && Enabled(c, Exec(c, s, acts), a)
    ensures Legal(c, s, acts + [a]) && Exec(c, s, acts + [a]) == Apply(c, Exec(c, s, acts), a)
    decreases |acts|
  {
    var all := acts + [a];
    if acts == [] {
      assert all[1..] == [];
    } else {
      assert all[1..] == acts[1..] + [a];
      OneMore(c, Apply(c, s, acts[0]), acts[1..], a);
    }
  }

  lemma Go(c: Config, s: State, e: State, a: Action)
    requires ValidConfig(c) && Reaches(c, s, e) && Enabled(c, e, a)
    ensures Reaches(c, s, Apply(c, e, a))
  {
    var acts :| Legal(c, s, acts) && Exec(c, s, acts) == e;
    OneMore(c, s, acts, a);
  }

  lemma Stay(c: Config, s: State)
    requires ValidConfig(c)
    ensures Reaches(c, s, s)
  {
    assert Legal(c, s, []) && Exec(c, s, []) == s;
  }

  // ---------------------------------------------------------------- the connector

  /** An engine with one worker in the state `w`, waited for by the shutdown goroutine. */
  ghost function Lone(w: Worker, hs: seq<Handle>, sh: Shared): (s: State) {
    State([w], hs, Joining, sh)
  }

  /** One more connection may be admitted. */
  predicate BelowLimit(c: Config, sh: Shared) {
    c.limit <= 0 || sh.alive < c.limit
  }

  lemma Advance(
    c: Config, s: State, w: Worker, hs: seq<Handle>, sh: Shared, out: Outcome,
    w': Worker, hs': seq<Handle>, sh': Shared)
    requires ValidConfig(c) && Reaches(c, s, Lone(w, hs, sh)) && WorkerReady(c, 0, w, sh)
    requires var r := WorkerStep(c, 0, w, sh, out); r.w == w' && hs' == hs + r.spawned && r.sh == sh'
    ensures Reaches(c, s, Lone(w', hs', sh'))
  {
    Go(c, s, Lone(w, hs, sh), WorkerAct(0, out));
    assert [w][0 := w'] == [w'];
  }

  /** Without a connection in hand a worker goes through the lock to its next fetch. */
  lemma PassLock(c: Config, s: State, w: Worker, hs: seq<Handle>, sh: Shared)
    requires ValidConfig(c) && BelowLimit(c, sh) && Reaches(c, s, Lone(w, hs, sh))
    requires w.pc.AtLock? && !w.newconn && sh.lock.Free? && !sh.flags.closing
    ensures Reaches(c, s, Lone(w.(pc := Fetching), hs, sh))
  {
    var locked := sh.(lock := ByWorker(0));
    Advance(c, s, w, hs, sh, Connected, w.(pc := InLock), hs, locked);
    Advance(c, s, w.(pc := InLock), hs, locked, Connected, w.(pc := Testing), hs, locked);
    Advance(c, s, w.(pc := Testing), hs, locked, Connected, w.(pc := Admit), hs, locked);
    Advance(c, s, w.(pc := Admit), hs, locked, Connected, w.(pc := Unlocking), hs, locked);
    Advance(c, s, w.(pc := Unlocking), hs, locked, Connected, w.(pc := Fetching), hs, sh);
  }

  /** A carried connection goes through the lock, the admission test and the registration. */
  lemma Admission(c: Config, s: State, w: Worker, hs: seq<Handle>, sh: Shared)
    requires ValidConfig(c) && !c.nomap && BelowLimit(c, sh)
    requires Reaches(c, s, Lone(w, hs, sh)) && w.pc.AtLock? && w.newconn && sh.lock.Free? && !sh.flags.closing
    ensures Reaches(c, s, Lone(w.(pc := Fetching, newconn := false), hs + [Handle(Blocked, 0, w.key, w.conn)],
                               sh.(conns := sh.conns[w.key := w.conn], alive := sh.alive + 1)))
  {
    var locked := sh.(lock := ByWorker(0));
    var mapped := locked.(conns := sh.conns[w.key := w.conn]);
    var counted := mapped.(alive := sh.alive + 1);
    var hs' := hs + [Handle(Blocked, 0, w.key, w.conn)];
    Advance(c, s, w, hs, sh, Connected, w.(pc := InLock), hs, locked);
    Advance(c, s, w.(pc := InLock), hs, locked, Connected, w.(pc := Testing), hs, locked);
    Advance(c, s, w.(pc := Testing), hs, locked, Connected, w.(pc := Admit), hs, locked);
    Advance(c, s, w.(pc := Admit), hs, locked, Connected, w.(pc := Counting), hs, mapped);
    Advance(c, s, w.(pc := Counting), hs, mapped, Connected, w.(pc := Unlocking, newconn := false), hs', counted);
    Advance(c, s, w.(pc := Unlocking, newconn := false), hs', counted, Connected,
            w.(pc := Fetching, newconn := false), hs', counted.(lock := Free));
  }

  /** A worker that must not go on closes the engine and leaves. */
  lemma LeaveForGood(c: Config, s: State, w: Worker, hs: seq<Handle>, sh: Shared)
    requires ValidConfig(c) && Reaches(c, s, Lone(w, hs, sh)) && w.pc.FatalAtLock? && sh.lock.Free?
    ensures Reaches(c, s, Lone(w.(pc := Gone), hs, sh.(flags := Close(sh.flags))))
  {
    var closed, locked := sh.(flags := Close(sh.flags)), sh.(lock := ByWorker(0));
    Advance(c, s, w, hs, sh, Fail, w.(pc := FatalLocked), hs, locked);
    Advance(c, s, w.(pc := FatalLocked), hs, locked, Fail, w.(pc := Exiting), hs, closed);
    Advance(c, s, w.(pc := Exiting), hs, closed, Fail, w.(pc := Gone), hs, closed);
  }

  // ---------------------------------------------------------------- handles and shutdown

  lemma HandleAdvance(c: Config, s: State, w: Worker, hs: seq<Handle>, sh: Shared, h: nat, hd': Handle, sh': Shared)
    requires ValidConfig(c) && Reaches(c, s, Lone(w, hs, sh)) && h < |hs| && HandleReady(c, hs[h], sh)
    requires HandleStep(c, h, hs[h], sh) == HandleResult(hd', sh')
    ensures Reaches(c, s, Lone(w, hs[h := hd'], sh'))
  {
    Go(c, s, Lone(w, hs, sh), HandleAct(h));
  }

  function With(hs: seq<Handle>, h: nat, pc: HandlePc): (r: seq<Handle>)
    requires h < |hs|
  {
    hs[h := hs[h].(pc := pc)]
  }

  lemma HandleMoves(
    c: Config, s: State, w: Worker, hs: seq<Handle>, sh: Shared, h: nat, from: HandlePc, to: HandlePc, sh': Shared)
    requires ValidConfig(c) && h < |hs| && Reaches(c, s, Lone(w, With(hs, h, from), sh))
    requires var hd := hs[h].(pc := from);
             HandleReady(c, hd, sh) && HandleStep(c, h, hd, sh) == HandleResult(hd.(pc := to), sh')
    ensures Reaches(c, s, Lone(w, With(hs, h, to), sh'))
  {
    HandleAdvance(c, s, w, With(hs, h, from), sh, h, hs[h].(pc := to), sh');
    assert With(hs, h, from)[h := hs[h].(pc := to)] == With(hs, h, to);
  }

  /** A handle deletes the entry under its key, whoever has it now. */
  lemma Delete(c: Config, s: State, w: Worker, hs: seq<Handle>, sh: Shared, h: nat)
    requires ValidConfig(c) && !c.nomap && h < |hs| && hs[h].pc.Deleting?
    requires Reaches(c, s, Lone(w, hs, sh)) && sh.lock.Free?
    ensures Reaches(c, s, Lone(w, With(hs, h, Ended), sh.(conns := sh.conns - {hs[h].key})))
  {
    assert With(hs, h, Deleting) == hs;
    HandleMoves(c, s, w, hs, sh, h, Deleting, DelLocked, sh.(lock := ByHandle(h)));
    HandleMoves(c, s, w, hs, sh.(lock := ByHandle(h)), h, DelLocked, Ended, sh.(conns := sh.conns - {hs[h].key}));
  }

  /** With the worker gone the shutdown sweeps the map. */
  lemma Sweep(c: Config, s: State, w: Worker, hs: seq<Handle>, sh: Shared)
    requires ValidConfig(c) && Reaches(c, s, Lone(w, hs, sh)) && w.pc.Gone? && sh.lock.Free?
    ensures Reaches(c, s, State([w], hs, SwitchOff, sh.(flags := Close(sh.flags), lock := ByMain,
                                                        swept := sh.conns.Values)))
  {
    var s0, closed := Lone(w, hs, sh), sh.(flags := Close(sh.flags));
    var s1 := s0.(main := SetClosing);
    var s2 := s0.(main := SweepAtLock, sh := closed);
    var s3 := s0.(main := Sweeping, sh := closed.(lock := ByMain));
    Go(c, s, s0, MainAct);
    Go(c, s, s1, MainAct);
    Go(c, s, s2, MainAct);
    Go(c, s, s3, MainAct);
  }
}
