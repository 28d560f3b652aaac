/**
 * Runs of two workers and one counter that drain with a total that is too small: whatever the first
 * worker hashed is missing from it.
 */
module TallyWitness {
  import opened HashTally
  import opened TallySystem
  import opened TallyTotals

  ghost predicate Ends(s: State, e: State) {
    exists acts :: Legal(s, acts) && Exec(s, acts) == e
  }

  lemma Stop(e: State)
    ensures Ends(e, e)
  {
    assert Legal(e, []) && Exec(e, []) == e;
  }

  lemma First(s: State, a: Action, t: State, e: State)
    requires Enabled(s, a) && Apply(s, a) == t && Ends(t, e)
    ensures Ends(s, e)
  {
    var acts :| Legal(t, acts) && Exec(t, acts) == e;
    var all := [a] + acts;
    assert all[0] == a && all[1..] == acts;
    assert Legal(s, all) && Exec(s, all) == e;
  }

  // ---------------------------------------------------------------- states with one carrier

  /** Worker `w` of two is `mine`, the other one is `other`; there is one counter with channel `q`. */
  function Two(
    w: nat, mine: Worker, other: Worker, boxes: seq<Box>, q: seq<nat>, table: Table, sizes: Sizes): (s: State)
  {
    State(if w == 0 then [mine, other] else [other, mine], boxes, [q], table, sizes)
  }

  lemma Swapped(a: Worker, b: Worker, boxes: seq<Box>, q: seq<nat>, table: Table, sizes: Sizes)
    ensures Two(0, a, b, boxes, q, table, sizes) == Two(1, b, a, boxes, q, table, sizes)
  {
  }

  /** A worker with the one carrier and `made` hashes of its chunk. */
  function At(stage: Stage, made: nat): (w: Worker) {
    Worker(stage, [0], 0, 0, 0, made)
  }

  function OneBox(place: Place, load: seq<Hash>): (boxes: seq<Box>) {
    [Box(0, place, load)]
  }

  function Made(t: Table, hs: seq<Hash>): (r: Table) {
    t.(made := t.made + Bag(hs))
  }

  function Added(t: Table, load: seq<Hash>): (r: Table) {
    t.(cells := AddLoad(t.cells, load), tallied := t.tallied + Bag(load))
  }

  /** A step of worker `w` that turns it into `mine'` and leaves the other one alone. */
  lemma Step(
    w: nat, mine: Worker, other: Worker, boxes: seq<Box>, q: seq<nat>, table: Table, sizes: Sizes, a: Action,
    mine': Worker, boxes': seq<Box>, q': seq<nat>, table': Table, sizes': Sizes, e: State)
    requires w < 2 && !a.Take? && !a.TakeSize? && a.w == w
    requires var s := Two(w, mine, other, boxes, q, table, sizes);
             && WorkerReady(s, a, mine)
             && WorkerStep(s, a, mine) == s.(workers := s.workers[w := mine'], boxes := boxes', queues := [q'],
                                             table := table', sizes := sizes')
    requires Ends(Two(w, mine', other, boxes', q', table', sizes'), e)
    ensures Ends(Two(w, mine, other, boxes, q, table, sizes), e)
  {
    var s, t := Two(w, mine, other, boxes, q, table, sizes), Two(w, mine', other, boxes', q', table', sizes');
    assert s.workers[w := mine'] == t.workers;
    First(s, a, t, e);
  }

  // ---------------------------------------------------------------- one chunk

  lemma FillOne(
    w: nat, other: Worker, done: seq<Hash>, h: Hash, table: Table, sizes: Sizes, e: State)
    requires w < 2 && |done| < CHUNK
    requires Ends(Two(w, At(Filling, |done| + 1), other, OneBox(Held(w), done + [h]), [], Made(table, [h]), sizes), e)
    ensures Ends(Two(w, At(Filling, |done|), other, OneBox(Held(w), done), [], table, sizes), e)
  {
    var before, after := OneBox(Held(w), done), OneBox(Held(w), done + [h]);
    assert h % 1 == 0 && before[0 := Box(0, Held(w), done + [h])] == after && Bag([h]) == multiset{h};
    Step(w, At(Filling, |done|), other, before, [], table, sizes, Fill(w, h),
         At(Filling, |done| + 1), after, [], Made(table, [h]), sizes, e);
  }

  lemma {:induction false} FillAll(
    w: nat, other: Worker, done: seq<Hash>, hs: seq<Hash>, table: Table, sizes: Sizes, e: State)
    requires w < 2 && |done| + |hs| <= CHUNK
    requires Ends(Two(w, At(Filling, |done| + |hs|), other, OneBox(Held(w), done + hs), [], Made(table, hs), sizes), e)
    ensures Ends(Two(w, At(Filling, |done|), other, OneBox(Held(w), done), [], table, sizes), e)
    decreases |hs|
  {
    if hs == [] {
      assert done + hs == done && Made(table, hs) == table;
    } else {
      var h, rest := hs[0], hs[1..];
      assert done + [h] + rest == done + hs;
      assert [h] + rest == hs && Made(Made(table, [h]), rest) == Made(table, hs);
      FillAll(w, other, done + [h], rest, Made(table, [h]), sizes, e);
      FillOne(w, other, done, h, table, sizes, e);
    }
  }

  /** Worker `w`, with an empty carrier in hand, hashes a chunk. */
  lemma MakeChunk(w: nat, other: Worker, hs: seq<Hash>, table: Table, sizes: Sizes, e: State)
    requires w < 2 && 1 <= |hs| <= CHUNK
    requires Ends(Two(w, At(Sending, |hs|), other, OneBox(Held(w), hs), [], Made(table, hs), sizes), e)
    ensures Ends(Two(w, At(Taking, 0), other, OneBox(Held(w), []), [], table, sizes), e)
  {
    var empty, full, made := OneBox(Held(w), []), OneBox(Held(w), hs), Made(table, hs);
    Step(w, At(Filling, |hs|), other, full, [], made, sizes, Finish(w), At(Sending, |hs|), full, [], made, sizes, e);
    assert [] + hs == hs;
    FillAll(w, other, [], hs, table, sizes, e);
    Step(w, At(Taking, 0), other, empty, [], table, sizes, Start(w), At(Filling, 0), empty, [], table, sizes, e);
  }

  function Sent(hs: seq<Hash>): (w: Worker) {
    At(Reading, |hs|).(sent := |hs|)
  }

  lemma OneQueue(q: seq<seq<nat>>)
    requires q == [[]]
    ensures q[0 := q[0] + [0]] == [[0]]
  {
    assert q[0] + [0] == [0];
  }

  lemma SendChunk(w: nat, other: Worker, hs: seq<Hash>, table: Table, sizes: Sizes, e: State)
    requires w < 2 && Ends(Two(w, Sent(hs), other, OneBox(Queued, hs), [0], table, sizes), e)
    ensures Ends(Two(w, At(Sending, |hs|), other, OneBox(Held(w), hs), [], table, sizes), e)
  {
    assert OneBox(Held(w), hs)[0 := Box(0, Queued, hs)] == OneBox(Queued, hs);
    OneQueue([[]]);
    Step(w, At(Sending, |hs|), other, OneBox(Held(w), hs), [], table, sizes, Send(w),
         Sent(hs), OneBox(Queued, hs), [0], table, sizes, e);
  }

  /** The counter takes the one carrier and puts it back. */
  lemma Taken(a: Worker, b: Worker, load: seq<Hash>, table: Table, sizes: Sizes, e: State)
    requires Ends(Two(0, a, b, OneBox(Pooled, load), [], Added(table, load), sizes), e)
    ensures Ends(Two(0, a, b, OneBox(Queued, load), [0], table, sizes), e)
  {
    var s := Two(0, a, b, OneBox(Queued, load), [0], table, sizes);
    assert OneBox(Queued, load)[0 := Box(0, Pooled, load)] == OneBox(Pooled, load);
    assert s.queues[0][1..] == [] && s.queues[0 := []] == [[]];
    First(s, Take(0), Two(0, a, b, OneBox(Pooled, load), [], Added(table, load), sizes), e);
  }

  /** A worker reads the size of the carrier it has sent, as it is now, and reports it. */
  lemma ReadAndReport(
    w: nat, other: Worker, hs: seq<Hash>, now: Box, q: seq<nat>, table: Table, sizes: Sizes, e: State)
    requires w < 2
    requires Ends(Two(w, IDLE, other, [now], q, table,
                      Sizes(sizes.queue + [|now.load|], sizes.total, sizes.drift + |now.load| - |hs|)), e)
    ensures Ends(Two(w, Sent(hs), other, [now], q, table, sizes), e)
  {
    var size := |now.load|;
    var read := Worker(Sending, [0], 1, size, |hs|, 0);
    var drifted := sizes.(drift := sizes.drift + size - |hs|);
    Step(w, read, other, [now], q, table, drifted, Report(w),
         IDLE, [now], q, table, drifted.(queue := sizes.queue + [size]), e);
    Step(w, Sent(hs), other, [now], q, table, sizes, Read(w), read, [now], q, table, drifted, e);
  }

  // ---------------------------------------------------------------- the run

  /** The first worker takes a new carrier, hashes its chunk and sends it; the counter adds it up. */
  lemma FirstChunk(hs: seq<Hash>, table: Table, sizes: Sizes, e: State)
    requires 1 <= |hs| <= CHUNK
    requires Ends(Two(0, Sent(hs), IDLE, OneBox(Pooled, hs), [], Added(Made(table, hs), hs), sizes), e)
    ensures Ends(Two(0, IDLE, IDLE, [], [], table, sizes), e)
  {
    var empty := OneBox(Held(0), []);
    Taken(Sent(hs), IDLE, hs, Made(table, hs), sizes, e);
    SendChunk(0, IDLE, hs, Made(table, hs), sizes, e);
    MakeChunk(0, IDLE, hs, table, sizes, e);
    assert [] + [0] == [0] && [] + empty == empty;
    Step(0, IDLE, IDLE, [], [], table, sizes, Get(0, 0), At(Taking, 0), empty, [], table, sizes, e);
  }

  /** The second worker takes the carrier out of the pool before the first one reads its size. */
  lemma ReadTooLate(hs: seq<Hash>, table: Table, e: State)
    requires Ends(Two(1, At(Taking, 0), IDLE, OneBox(Held(1), []), [], table, Sizes([0], 0, -|hs|)), e)
    ensures Ends(Two(0, Sent(hs), IDLE, OneBox(Pooled, hs), [], table, Sizes([], 0, 0)), e)
  {
    var pooled, held := OneBox(Pooled, hs), OneBox(Held(1), []);
    Swapped(IDLE, At(Taking, 0), held, [], table, Sizes([0], 0, -|hs|));
    assert [] + [0] == [0];
    ReadAndReport(0, At(Taking, 0), hs, Box(0, Held(1), []), [], table, Sizes([], 0, 0), e);
    Swapped(Sent(hs), At(Taking, 0), held, [], table, Sizes([], 0, 0));
    assert [] + [0] == [0] && pooled[0 := Box(0, Held(1), [])] == held;
    Step(1, IDLE, Sent(hs), pooled, [], table, Sizes([], 0, 0), Get(1, 0),
         At(Taking, 0), held, [], table, Sizes([], 0, 0), e);
    Swapped(Sent(hs), IDLE, pooled, [], table, Sizes([], 0, 0));
  }

  /** The second worker hashes and sends its own chunk, whose size it reads in time. */
  lemma SecondChunk(gs: seq<Hash>, table: Table, drift: int, e: State)
    requires 1 <= |gs| <= CHUNK
    requires Ends(Two(0, IDLE, IDLE, OneBox(Queued, gs), [0], Made(table, gs), Sizes([0, |gs|], 0, drift)), e)
    ensures Ends(Two(1, At(Taking, 0), IDLE, OneBox(Held(1), []), [], table, Sizes([0], 0, drift)), e)
  {
    var made := Made(table, gs);
    Swapped(IDLE, IDLE, OneBox(Queued, gs), [0], made, Sizes([0, |gs|], 0, drift));
    assert [0] + [|gs|] == [0, |gs|];
    ReadAndReport(1, IDLE, gs, Box(0, Queued, gs), [0], made, Sizes([0], 0, drift), e);
    SendChunk(1, IDLE, gs, made, Sizes([0], 0, drift), e);
    MakeChunk(1, IDLE, gs, table, Sizes([0], 0, drift), e);
  }

  lemma TakeSizes(boxes: seq<Box>, table: Table, n: nat, drift: int, e: State)
    requires e == Two(0, IDLE, IDLE, boxes, [], table, Sizes([], n, drift))
    ensures Ends(Two(0, IDLE, IDLE, boxes, [], table, Sizes([0, n], 0, drift)), e)
  {
    var s1, s0 := Two(0, IDLE, IDLE, boxes, [], table, Sizes([n], 0, drift)),
                  Two(0, IDLE, IDLE, boxes, [], table, Sizes([0, n], 0, drift));
    Stop(e);
    assert [n][1..] == [] && [0, n][1..] == [n];
    First(s1, TakeSize, e, e);
    First(s0, TakeSize, s1, e);
  }

  lemma StartsAs(s: State)
    requires Initial(s) && |s.workers| == 2 && |s.queues| == 1
    ensures s == Two(0, IDLE, IDLE, [], [], s.table, Sizes([], 0, 0))
  {
    assert Idle(s.workers[0]) && Idle(s.workers[1]);
    assert s.workers == [IDLE, IDLE] && s.queues == [[]];
  }

  /**
   * With two workers and one counter, whatever chunk `hs` the first worker and whatever chunk `gs` the
   * second one hashes, a run drains with the size of `hs` missing from the total: the second worker
   * gets the carrier of the first one between its send and the read of its size.
   */
  lemma TotalFallsShort(s: State, hs: seq<Hash>, gs: seq<Hash>)
    requires Initial(s) && |s.workers| == 2 && |s.queues| == 1
    requires 1 <= |hs| <= CHUNK && 1 <= |gs| <= CHUNK
    ensures exists e :: Ends(s, e) && Drained(e) && e.table.made == Bag(hs) + Bag(gs) && e.sizes.total == |gs|
  {
    var t1 := Added(Made(s.table, hs), hs);
    var t2 := Added(Made(t1, gs), gs);
    var e := Two(0, IDLE, IDLE, OneBox(Pooled, gs), [], t2, Sizes([], |gs|, -|hs|));
    TakeSizes(OneBox(Pooled, gs), t2, |gs|, -|hs|, e);
    Taken(IDLE, IDLE, gs, Made(t1, gs), Sizes([0, |gs|], 0, -|hs|), e);
    SecondChunk(gs, t1, -|hs|, e);
    ReadTooLate(hs, t1, e);
    FirstChunk(hs, s.table, Sizes([], 0, 0), e);
    StartsAs(s);
    assert Drained(e);
  }
}
