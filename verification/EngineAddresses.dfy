/** Client mode: who owns a local address index, and why a send into an address pool never blocks. */
module EngineAddresses {
  import opened EngineModel

  // ---------------------------------------------------------------- pigeonhole

  lemma {:induction false} BelowCard(s: set<nat>, n: nat)
    requires forall x | x in s :: x < n
    ensures |s| <= n
  {
    if n == 0 {
      assert s == {};
    } else {
      BelowCard(s - {n - 1}, n - 1);
    }
  }

  ghost predicate Distinct(s: seq<nat>) {
    forall a, b | 0 <= a < b < |s| :: s[a] != s[b]
  }

  ghost function Elements(s: seq<nat>): (r: set<nat>) {
    set x | x in s
  }

  lemma {:induction false} DistinctCard(s: seq<nat>)
    requires Distinct(s)
    ensures |Elements(s)| == |s|
  {
    if s != [] {
      var front, last := s[..|s| - 1], s[|s| - 1];
      DistinctCard(front);
      assert s == front + [last];
      assert Elements(s) == Elements(front) + {last};
      assert last !in front;
    }
  }

  lemma DistinctBelow(s: seq<nat>, n: nat)
    requires Distinct(s) && forall a | 0 <= a < |s| :: s[a] < n
    ensures |s| <= n
  {
    DistinctCard(s);
    BelowCard(Elements(s), n);
  }

  lemma SameClass(x: nat, y: nat, m: nat)
    requires m >= 1 && x % m == y % m && x / m == y / m
    ensures x == y
  {
    assert x == (x / m) * m + x % m && y == (y / m) * m + y % m;
  }

  lemma SmallFactor(k: int, m: nat)
    requires m >= 1 && k * m < m
    ensures k <= 0
  {
    if k >= 1 {
      FactorGrows(k, m);
    }
  }

  lemma FactorGrows(k: int, m: nat)
    requires k >= 1
    ensures k * m >= m
  {
    assert (k - 1) * m >= 0;
  }

  lemma QuotientBound(x: nat, n: nat, m: nat)
    requires m >= 1 && x < n
    ensures x / m <= n / m
  {
    var q, p := x / m, n / m;
    assert q * m <= x < n < p * m + m;
    assert (q - p) * m == q * m - p * m < m;
    SmallFactor(q - p, m);
  }

  /** A residue class has at most addrs / cpus + 1 indices, so a pool of them never exceeds its capacity. */
  lemma PoolBound(c: Config, i: nat, pool: seq<nat>)
    requires ValidConfig(c) && PoolOk(c, i, pool)
    ensures |pool| <= c.addrs / c.cpus + 1
  {
    var quotients: seq<nat> := seq(|pool|, a requires 0 <= a < |pool| => pool[a] / c.cpus);
    forall a | 0 <= a < |pool|
      ensures quotients[a] < c.addrs / c.cpus + 1
    {
      QuotientBound(pool[a], c.addrs, c.cpus);
    }
    forall a, b | 0 <= a < b < |pool|
      ensures quotients[a] != quotients[b]
    {
      if quotients[a] == quotients[b] {
        SameClass(pool[a], pool[b], c.cpus);
      }
    }
    DistinctBelow(quotients, c.addrs / c.cpus + 1);
  }

  ghost predicate InClass(c: Config, i: nat, key: nat)
    requires ValidConfig(c)
  {
    i < c.cpus && key < c.addrs && key % c.cpus == i
  }

  lemma AddToPool(c: Config, i: nat, pool: seq<nat>, key: nat)
    requires ValidConfig(c) && PoolOk(c, i, pool) && InClass(c, i, key) && key !in pool
    ensures PoolOk(c, i, pool + [key]) && |pool| < PoolCapacity(c)
  {
    PoolBound(c, i, pool + [key]);
  }

  lemma TakeFromPool(c: Config, i: nat, pool: seq<nat>)
    requires ValidConfig(c) && PoolOk(c, i, pool) && pool != []
    ensures PoolOk(c, i, pool[1..]) && pool[0] !in pool[1..]
  {
  }

  /**
   * The preload in `Start`: every index goes into the pool of its class, exactly once, and no send of
   * the loop meets a full channel.
   */
  method Preload(c: Config) returns (pools: seq<seq<nat>>)
    requires ValidConfig(c)
    ensures Preloaded(c, pools)
    ensures forall k: nat | k < c.addrs :: k in pools[k % c.cpus]
    ensures forall i: nat | i < c.cpus :: |pools[i]| <= PoolCapacity(c)
  {
    pools := seq(c.cpus, _ => []);
    var k := 0;
    while k < c.addrs
      invariant 0 <= k <= c.addrs && Preloaded(c, pools)
      invariant forall i: nat, a: nat | i < c.cpus && a < |pools[i]| :: pools[i][a] < k
      invariant forall j: nat | j < k :: j in pools[j % c.cpus]
    {
      var i := k % c.cpus;
      AddToPool(c, i, pools[i], k);
      assert |pools[i]| < PoolCapacity(c);
      ghost var before := pools[i];
      pools := pools[i := pools[i] + [k]];
      assert forall j: nat | j in before :: j in pools[i];
      assert pools[i][|before|] == k;
      k := k + 1;
    }
    forall i: nat | i < c.cpus
      ensures |pools[i]| <= PoolCapacity(c)
    {
      PoolBound(c, i, pools[i]);
    }
  }

  // ---------------------------------------------------------------- exclusive ownership

  predicate WorkerOwns(w: Worker) {
    w.pc.Dialing? || w.newconn
  }

  predicate HandleOwns(hd: Handle) {
    hd.pc.Blocked? || hd.pc.Running? || hd.pc.Leaving? || hd.pc.Returning?
  }

  /** An index outside the pools, whoever owns it. */
  ghost predicate Held(c: Config, pools: seq<seq<nat>>, i: nat, key: nat)
    requires ValidConfig(c) && |pools| == c.cpus
  {
    InClass(c, i, key) && key !in pools[i]
  }

  ghost predicate WorkersHold(c: Config, s: State)
    requires ValidConfig(c) && |s.sh.pools| == c.cpus
  {
    forall i: nat | i < |s.workers| && WorkerOwns(s.workers[i]) :: Held(c, s.sh.pools, i, s.workers[i].key)
  }

  ghost predicate HandlesHold(c: Config, s: State)
    requires ValidConfig(c) && |s.sh.pools| == c.cpus
  {
    forall h: nat | h < |s.handles| && HandleOwns(s.handles[h]) ::
      Held(c, s.sh.pools, s.handles[h].idx, s.handles[h].key)
  }

  /** No index has two owners outside the pools. */
  ghost predicate NoSharing(s: State) {
    && (forall i: nat, h: nat | i < |s.workers| && h < |s.handles|
           && WorkerOwns(s.workers[i]) && HandleOwns(s.handles[h]) :: s.workers[i].key != s.handles[h].key)
    && (forall g: nat, h: nat | g < h < |s.handles| && HandleOwns(s.handles[g]) && HandleOwns(s.handles[h]) ::
          s.handles[g].key != s.handles[h].key)
  }

  /** A fresh connection is carried only from the dial to the admission test, or out of the loop. */
  predicate Carries(w: Worker) {
    w.newconn ==> w.pc.AtLock? || w.pc.InLock? || w.pc.Testing? || w.pc.Full? || w.pc.Admit? || w.pc.Counting?
                  || w.pc.Exiting? || w.pc.Gone?
  }

  ghost predicate WorkersCarry(s: State) {
    forall i: nat | i < |s.workers| ::
      Carries(s.workers[i]) && (s.workers[i].pc.Counting? ==> s.workers[i].newconn)
  }

  ghost predicate OwnInv(c: Config, s: State)
    requires ValidConfig(c)
  {
    && |s.workers| == c.cpus && Preloaded(c, s.sh.pools)
    && WorkersCarry(s) && WorkersHold(c, s) && HandlesHold(c, s) && NoSharing(s)
  }

  /** What a step of a connector does to its own index and its own pool. */
  lemma WorkerOwnership(c: Config, i: nat, w: Worker, sh: Shared, out: Outcome)
    requires ValidConfig(c) && !c.listen && WorkerReady(c, i, w, sh) && Preloaded(c, sh.pools) && i < c.cpus
    requires Carries(w) && (WorkerOwns(w) ==> Held(c, sh.pools, i, w.key))
    ensures var r := WorkerStep(c, i, w, sh, out);
            && |r.sh.pools| == c.cpus && PoolOk(c, i, r.sh.pools[i])
            && Carries(r.w) && (WorkerOwns(r.w) ==> Held(c, r.sh.pools, i, r.w.key))
  {
    if w.pc.Full? && w.newconn {
      AddToPool(c, i, sh.pools[i], w.key);
    } else if w.pc.Fetching? {
      TakeFromPool(c, i, sh.pools[i]);
    }
  }

  /** Where the index a connector owns after a step comes from, and what leaves or enters its pool. */
  lemma WorkerTransfer(c: Config, i: nat, w: Worker, sh: Shared, out: Outcome)
    requires ValidConfig(c) && !c.listen && WorkerReady(c, i, w, sh) && i < |sh.pools| && Carries(w)
    ensures var r := WorkerStep(c, i, w, sh, out);
            && r.sh.pools == sh.pools[i := r.sh.pools[i]]
            && (WorkerOwns(r.w) ==> (WorkerOwns(w) && r.w.key == w.key) || r.w.key in sh.pools[i])
            && (forall k: nat | k in r.sh.pools[i] :: k in sh.pools[i] || (WorkerOwns(w) && k == w.key))
            && (if w.pc.Counting? && w.newconn then r.spawned == [Handle(Blocked, i, w.key, w.conn)] && !WorkerOwns(r.w)
                else w.pc.Counting? || r.spawned == [])
  {
  }

  lemma OwnKeptByWorker(c: Config, s: State, i: nat, out: Outcome)
    requires ValidConfig(c) && !c.listen && OwnInv(c, s) && Enabled(c, s, WorkerAct(i, out))
    ensures OwnInv(c, Apply(c, s, WorkerAct(i, out)))
  {
    var w, s' := s.workers[i], Apply(c, s, WorkerAct(i, out));
    WorkerOwnership(c, i, w, s.sh, out);
    WorkerTransfer(c, i, w, s.sh, out);
    HandlesKeepHolding(c, s, i, out);
    NoNewSharing(c, s, i, out);
  }

  lemma HandlesKeepHolding(c: Config, s: State, i: nat, out: Outcome)
    requires ValidConfig(c) && !c.listen && OwnInv(c, s) && Enabled(c, s, WorkerAct(i, out))
    ensures |Apply(c, s, WorkerAct(i, out)).sh.pools| == c.cpus
    ensures HandlesHold(c, Apply(c, s, WorkerAct(i, out)))
  {
    WorkerOwnership(c, i, s.workers[i], s.sh, out);
    WorkerTransfer(c, i, s.workers[i], s.sh, out);
  }

  lemma NoNewSharing(c: Config, s: State, i: nat, out: Outcome)
    requires ValidConfig(c) && !c.listen && OwnInv(c, s) && Enabled(c, s, WorkerAct(i, out))
    ensures NoSharing(Apply(c, s, WorkerAct(i, out)))
  {
    WorkerTransfer(c, i, s.workers[i], s.sh, out);
  }

  /** A handle only ever gives its index away, and only into its own pool. */
  lemma HandleTransfer(c: Config, h: nat, hd: Handle, sh: Shared)
    requires ValidConfig(c) && HandleReady(c, hd, sh)
    ensures var r := HandleStep(c, h, hd, sh);
            && r.hd.key == hd.key && r.hd.idx == hd.idx
            && (HandleOwns(r.hd) ==> HandleOwns(hd) && !hd.pc.Returning?)
            && r.sh.pools == if hd.pc.Returning? then sh.pools[hd.idx := sh.pools[hd.idx] + [hd.key]] else sh.pools
  {
  }

  lemma NoNewSharingByHandle(c: Config, s: State, h: nat)
    requires ValidConfig(c) && NoSharing(s) && Enabled(c, s, HandleAct(h))
    ensures NoSharing(Apply(c, s, HandleAct(h)))
  {
    HandleTransfer(c, h, s.handles[h], s.sh);
  }

  lemma OwnKeptByHandle(c: Config, s: State, h: nat)
    requires ValidConfig(c) && !c.listen && OwnInv(c, s) && Enabled(c, s, HandleAct(h))
    ensures OwnInv(c, Apply(c, s, HandleAct(h)))
  {
    var hd := s.handles[h];
    HandleTransfer(c, h, hd, s.sh);
    NoNewSharingByHandle(c, s, h);
    if hd.pc.Returning? {
      AddToPool(c, hd.idx, s.sh.pools[hd.idx], hd.key);
    }
  }

  lemma OwnKept(c: Config, s: State, a: Action)
    requires ValidConfig(c) && !c.listen && OwnInv(c, s) && Enabled(c, s, a)
    ensures OwnInv(c, Apply(c, s, a))
  {
    match a
    case WorkerAct(i, out) => OwnKeptByWorker(c, s, i, out);
    case HandleAct(h) => OwnKeptByHandle(c, s, h);
    case MainAct =>
    case CloseAct =>
  }

  lemma {:induction false} ExecKeepsOwn(c: Config, s: State, acts: seq<Action>)
    requires ValidConfig(c) && !c.listen && OwnInv(c, s) && Legal(c, s, acts)
    ensures OwnInv(c, Exec(c, s, acts))
    decreases |acts|
  {
    if acts != [] {
      OwnKept(c, s, acts[0]);
      ExecKeepsOwn(c, Apply(c, s, acts[0]), acts[1..]);
    }
  }

  /**
   * In every run each address index has at most one owner (its pool, its connector or one handle) and
   * never leaves its residue class.
   */
  lemma IndicesHaveOneOwner(c: Config, s: State, acts: seq<Action>)
    requires ValidConfig(c) && !c.listen && Initial(c, s) && Legal(c, s, acts)
    ensures var e := Exec(c, s, acts);
            Preloaded(c, e.sh.pools) && WorkersHold(c, e) && HandlesHold(c, e) && NoSharing(e)
  {
    ExecKeepsOwn(c, s, acts);
  }

  /** No send into an address pool ever blocks, neither a handle's nor the one made under maxLock. */
  lemma PoolSendsNeverBlock(c: Config, s: State, acts: seq<Action>)
    requires ValidConfig(c) && !c.listen && Initial(c, s) && Legal(c, s, acts)
    ensures var e := Exec(c, s, acts);
            && (forall i: nat, out | i < |e.workers| && e.workers[i].pc.Full? :: Enabled(c, e, WorkerAct(i, out)))
            && (forall h: nat | h < |e.handles| && e.handles[h].pc.Returning? :: Enabled(c, e, HandleAct(h)))
  {
    ExecKeepsOwn(c, s, acts);
    var e := Exec(c, s, acts);
    forall i: nat, out | i < |e.workers| && e.workers[i].pc.Full?
      ensures Enabled(c, e, WorkerAct(i, out))
    {
      if e.workers[i].newconn {
        AddToPool(c, i, e.sh.pools[i], e.workers[i].key);
      }
    }
    forall h: nat | h < |e.handles| && e.handles[h].pc.Returning?
      ensures Enabled(c, e, HandleAct(h))
    {
      AddToPool(c, e.handles[h].idx, e.sh.pools[e.handles[h].idx], e.handles[h].key);
    }
  }
}
