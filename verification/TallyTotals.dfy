/** What the tally adds up to, over every interleaving: the cells always, the total only with a condition. */
module TallyTotals {
  import opened HashTally
  import opened Sums
  import opened TallySystem
  import opened TallyOwnership

  // ---------------------------------------------------------------- sums over carriers

  /** How often `v` is in a carrier that has not been added up. */
  function In(v: Hash): (f: Box -> int) {
    (b: Box) => if b.place.Pooled? then 0 else Bag(b.load)[v]
  }

  /** How many hashes are in a carrier in the hands of worker `w`. */
  function HeldBy(w: nat): (f: Box -> int) {
    (b: Box) => if b.place == Held(w) then |b.load| else 0
  }

  function Owed(w: Worker): (n: int) {
    w.count + w.rest
  }

  /** A step changes one carrier, or adds one; a sum over carriers changes by what that one adds. */
  lemma PutSum(boxes: seq<Box>, id: nat, b: Box, f: Box -> int)
    requires id < |boxes|
    ensures SumBy(PutBox(boxes, id, b), f) == SumBy(boxes, f) - f(boxes[id]) + f(b)
  {
    SumUpdate(boxes, id, b, f);
  }

  lemma GetSum(boxes: seq<Box>, w: nat, k: nat, id: nat, f: Box -> int)
    requires id <= |boxes| && f(Box(k, Held(w), [])) == 0 && (id < |boxes| ==> f(boxes[id]) == 0)
    ensures SumBy(GetBox(boxes, w, k, id), f) == SumBy(boxes, f)
  {
    var b := Box(k, Held(w), []);
    if id == |boxes| {
      SumAppend(boxes, b, f);
    } else {
      SumUpdate(boxes, id, b, f);
    }
  }

  // ---------------------------------------------------------------- no hash is lost

  /** Every hash made is tallied or in exactly one carrier on its way. */
  ghost predicate Conserved(s: State, v: Hash) {
    s.table.made[v] == s.table.tallied[v] + SumBy(s.boxes, In(v))
  }

  lemma BagGrows(load: seq<Hash>, h: Hash, v: Hash)
    ensures Bag(load + [h])[v] == Bag(load)[v] + if h == v then 1 else 0
  {
  }

  lemma FillConserves(s: State, w: nat, h: Hash, v: Hash)
    requires Owned(s) && Enabled(s, Fill(w, h)) && Conserved(s, v)
    ensures Conserved(Apply(s, Fill(w, h)), v)
  {
    var slots := s.workers[w].slots;
    var k := h % |slots|;
    assert SlotHeld(s.boxes, w, slots, k);
    var b := s.boxes[slots[k]];
    BagGrows(b.load, h, v);
    PutSum(s.boxes, slots[k], b.(load := b.load + [h]), In(v));
  }

  lemma SendConserves(s: State, w: nat, v: Hash)
    requires Owned(s) && Enabled(s, Send(w)) && Conserved(s, v)
    ensures Conserved(Apply(s, Send(w)), v)
  {
    var wk := s.workers[w];
    assert SlotHeld(s.boxes, w, wk.slots, wk.i);
    var id := wk.slots[wk.i];
    PutSum(s.boxes, id, s.boxes[id].(place := Queued), In(v));
  }

  lemma TakeConserves(s: State, k: nat, v: Hash)
    requires Owned(s) && Enabled(s, Take(k)) && Conserved(s, v)
    ensures Conserved(Apply(s, Take(k)), v)
  {
    assert QueueOk(s.boxes, s.queues[k], k) && Enqueued(s.boxes, s.queues[k][0], k);
    var id := s.queues[k][0];
    PutSum(s.boxes, id, s.boxes[id].(place := Pooled), In(v));
  }

  lemma ConservedKept(s: State, a: Action, v: Hash)
    requires Owned(s) && Enabled(s, a) && Conserved(s, v)
    ensures Conserved(Apply(s, a), v)
  {
    match a
    case Get(w, id) => GetSum(s.boxes, w, |s.workers[w].slots|, id, In(v));
    case Fill(w, h) => FillConserves(s, w, h, v);
    case Send(w) => SendConserves(s, w, v);
    case Take(k) => TakeConserves(s, k, v);
    case _ =>
  }

  // ---------------------------------------------------------------- the cells

  ghost predicate CellsExact(s: State) {
    forall v: Hash :: s.table.cells[v] == s.table.tallied[v] % CELL
  }

  lemma CellsKept(s: State, a: Action)
    requires Enabled(s, a) && CellsExact(s)
    ensures CellsExact(Apply(s, a))
  {
    if a.Take? {
      var s', load := Apply(s, a), BoxAt(s.boxes, s.queues[a.k][0]).load;
      forall v: Hash
        ensures s'.table.cells[v] == s'.table.tallied[v] % CELL
      {
        AddLoadCounts(s.table.cells, load, v, s.table.tallied[v]);
      }
    }
  }

  /** Counter `k` changes only cells of its own residue class. */
  lemma TakeTouchesOwnCells(s: State, k: nat, v: Hash)
    requires Owned(s) && Enabled(s, Take(k)) && v % |s.queues| != k
    ensures Apply(s, Take(k)).table.cells[v] == s.table.cells[v]
  {
    assert QueueOk(s.boxes, s.queues[k], k) && Enqueued(s.boxes, s.queues[k][0], k);
    var b := s.boxes[s.queues[k][0]];
    assert ClassOk(b, |s.queues|);
    Untouched(s.table.cells, b.load, v);
  }

  // ---------------------------------------------------------------- what is in a channel

  predicate IsIn(q: seq<nat>, id: nat) {
    exists a | 0 <= a < |q| :: q[a] == id
  }

  ghost predicate InQueue(queues: seq<seq<nat>>, b: Box, id: nat) {
    b.place.Queued? ==> b.home < |queues| && IsIn(queues[b.home], id)
  }

  ghost predicate AllInQueues(s: State) {
    forall id: nat | id < |s.boxes| :: InQueue(s.queues, s.boxes[id], id)
  }

  lemma StillIn(q: seq<nat>, q': seq<nat>, id: nat)
    requires IsIn(q, id) && (q <= q' || (q != [] && q' == q[1..] && q[0] != id))
    ensures IsIn(q', id)
  {
    var a :| 0 <= a < |q| && q[a] == id;
    if q <= q' {
      assert q'[a] == id;
    } else {
      assert q'[a - 1] == id;
    }
  }

  lemma SendInQueues(s: State, w: nat)
    requires Owned(s) && Enabled(s, Send(w)) && AllInQueues(s)
    ensures AllInQueues(Apply(s, Send(w)))
  {
    var wk, s' := s.workers[w], Apply(s, Send(w));
    var k, sent := wk.i, wk.slots[wk.i];
    assert SlotHeld(s.boxes, w, wk.slots, k);
    assert s'.queues[k][|s.queues[k]|] == sent;
    forall id: nat | id < |s'.boxes|
      ensures InQueue(s'.queues, s'.boxes[id], id)
    {
      assert InQueue(s.queues, s.boxes[id], id);
      if id != sent && s.boxes[id].place.Queued? && s.boxes[id].home == k {
        StillIn(s.queues[k], s'.queues[k], id);
      }
    }
  }

  lemma TakeInQueues(s: State, k: nat)
    requires Owned(s) && Enabled(s, Take(k)) && AllInQueues(s)
    ensures AllInQueues(Apply(s, Take(k)))
  {
    var s', taken := Apply(s, Take(k)), s.queues[k][0];
    assert QueueOk(s.boxes, s.queues[k], k) && Enqueued(s.boxes, s.queues[k][0], k);
    forall id: nat | id < |s'.boxes|
      ensures InQueue(s'.queues, s'.boxes[id], id)
    {
      assert InQueue(s.queues, s.boxes[id], id);
      if id != taken && s.boxes[id].place.Queued? && s.boxes[id].home == k {
        StillIn(s.queues[k], s'.queues[k], id);
      }
    }
  }

  lemma InQueuesKept(s: State, a: Action)
    requires Owned(s) && Enabled(s, a) && AllInQueues(s)
    ensures AllInQueues(Apply(s, a))
  {
    match a
    case Send(w) => SendInQueues(s, w);
    case Take(k) => TakeInQueues(s, k);
    case _ =>
      var s' := Apply(s, a);
      forall id: nat | id < |s'.boxes|
        ensures InQueue(s'.queues, s'.boxes[id], id)
      {
        if id < |s.boxes| {
          assert InQueue(s.queues, s.boxes[id], id);
        }
      }
  }

  // ---------------------------------------------------------------- chunk sizes

  /** What a worker has still to account for is in its hands, or was sent a moment ago. */
  ghost predicate RestOk(s: State, w: nat)
    requires w < |s.workers|
  {
    s.workers[w].rest == SumBy(s.boxes, HeldBy(w)) + if s.workers[w].stage.Reading? then s.workers[w].sent else 0
  }

  ghost predicate RestsOk(s: State) {
    forall w: nat | w < |s.workers| :: RestOk(s, w)
  }

  lemma FillRest(s: State, w: nat, h: Hash, v: nat)
    requires Owned(s) && Enabled(s, Fill(w, h)) && v < |s.workers| && RestOk(s, v)
    ensures RestOk(Apply(s, Fill(w, h)), v)
  {
    var slots := s.workers[w].slots;
    var k := h % |slots|;
    assert SlotHeld(s.boxes, w, slots, k);
    var b := s.boxes[slots[k]];
    PutSum(s.boxes, slots[k], b.(load := b.load + [h]), HeldBy(v));
  }

  lemma SendRest(s: State, w: nat, v: nat)
    requires Owned(s) && Enabled(s, Send(w)) && v < |s.workers| && RestOk(s, v)
    ensures RestOk(Apply(s, Send(w)), v)
  {
    var wk := s.workers[w];
    assert SlotHeld(s.boxes, w, wk.slots, wk.i);
    var id := wk.slots[wk.i];
    PutSum(s.boxes, id, s.boxes[id].(place := Queued), HeldBy(v));
  }

  lemma TakeRest(s: State, k: nat, v: nat)
    requires Owned(s) && Enabled(s, Take(k)) && v < |s.workers| && RestOk(s, v)
    ensures RestOk(Apply(s, Take(k)), v)
  {
    assert QueueOk(s.boxes, s.queues[k], k) && Enqueued(s.boxes, s.queues[k][0], k);
    var id := s.queues[k][0];
    PutSum(s.boxes, id, s.boxes[id].(place := Pooled), HeldBy(v));
  }

  /** A worker that has sent everything has nothing left to account for. */
  lemma NothingHeld(s: State, w: nat)
    requires Owned(s) && w < |s.workers| && Unsent(s.workers[w]) == |s.workers[w].slots|
    ensures SumBy(s.boxes, HeldBy(w)) == 0
  {
    forall id: nat | id < |s.boxes|
      ensures HeldBy(w)(s.boxes[id]) == 0
    {
      assert InSlot(s.workers, s.boxes[id], id);
    }
    SumZero(s.boxes, HeldBy(w));
  }

  lemma FreshHeldBy(w: nat, k: nat, v: nat, b: Box)
    ensures HeldBy(v)(Box(k, Held(w), [])) == 0 && (b.place.Pooled? ==> HeldBy(v)(b) == 0)
  {
  }

  lemma GetKeepsRest(s: State, w: nat, id: nat, v: nat)
    requires Enabled(s, Get(w, id)) && v < |s.workers| && RestOk(s, v)
    ensures RestOk(Apply(s, Get(w, id)), v)
  {
    var k, f, s' := |s.workers[w].slots|, HeldBy(v), Apply(s, Get(w, id));
    FreshHeldBy(w, k, v, BoxAt(s.boxes, id));
    assert SumBy(s'.boxes, f) == SumBy(s.boxes, f) by {
      GetSum(s.boxes, w, k, id, f);
    }
    assert s'.workers[v].rest == s.workers[v].rest && s'.workers[v].sent == s.workers[v].sent;
  }

  lemma ReportKeepsRest(s: State, w: nat, v: nat)
    requires Owned(s) && Enabled(s, Report(w)) && v < |s.workers| && RestOk(s, v)
    ensures RestOk(Apply(s, Report(w)), v)
  {
    NothingHeld(s, w);
  }

  lemma StageKeepsRest(s: State, a: Action, v: nat)
    requires Enabled(s, a) && (a.Start? || a.Finish? || a.Read? || a.TakeSize?) && v < |s.workers| && RestOk(s, v)
    ensures RestOk(Apply(s, a), v)
  {
    assert Apply(s, a).boxes == s.boxes;
  }

  lemma RestKept(s: State, a: Action, v: nat)
    requires Owned(s) && Enabled(s, a) && v < |s.workers| && RestOk(s, v)
    ensures RestOk(Apply(s, a), v)
  {
    match a
    case Get(w, id) => GetKeepsRest(s, w, id, v);
    case Fill(w, h) => FillRest(s, w, h, v);
    case Send(w) => SendRest(s, w, v);
    case Take(k) => TakeRest(s, k, v);
    case Report(w) => ReportKeepsRest(s, w, v);
    case _ => StageKeepsRest(s, a, v);
  }

  ghost predicate SizesAddUp(s: State) {
    s.sizes.total + SumBy(s.sizes.queue, Itself) + SumBy(s.workers, Owed) == |s.table.made| + s.sizes.drift
  }

  /** A worker that reports owes what it reports. */
  lemma ReportSizes(s: State, w: nat)
    requires Owned(s) && RestsOk(s) && Enabled(s, Report(w)) && SizesAddUp(s)
    ensures SizesAddUp(Apply(s, Report(w)))
  {
    assert RestOk(s, w);
    NothingHeld(s, w);
    SumUpdate(s.workers, w, IDLE, Owed);
    SumAppend(s.sizes.queue, s.workers[w].count, Itself);
  }

  /** Of all other steps of a worker only filling and reading change what it owes. */
  lemma OwedAfter(s: State, a: Action)
    requires Enabled(s, a) && !a.Take? && !a.TakeSize? && !a.Report?
    ensures var s' := Apply(s, a);
            && s'.workers == s.workers[a.w := s'.workers[a.w]] && s'.sizes == s.sizes.(drift := s'.sizes.drift)
            && Owed(s'.workers[a.w]) - Owed(s.workers[a.w])
               == |s'.table.made| - |s.table.made| + s'.sizes.drift - s.sizes.drift
  {
  }

  lemma SizesKept(s: State, a: Action)
    requires Owned(s) && RestsOk(s) && Enabled(s, a) && SizesAddUp(s)
    ensures SizesAddUp(Apply(s, a))
  {
    match a
    case TakeSize => SumFirst(s.sizes.queue, Itself);
    case Take(k) =>
    case Report(w) => ReportSizes(s, w);
    case _ =>
      OwedAfter(s, a);
      SumUpdate(s.workers, a.w, Apply(s, a).workers[a.w], Owed);
  }

  // ---------------------------------------------------------------- every run

  ghost predicate Inv(s: State) {
    && Owned(s) && AllInQueues(s) && CellsExact(s) && RestsOk(s) && SizesAddUp(s)
    && forall v: Hash :: Conserved(s, v)
  }

  lemma InitialOwned(s: State)
    requires Initial(s)
    ensures Owned(s) && AllInQueues(s) && CellsExact(s)
  {
    assert forall k: nat | k < |s.queues| :: QueueOk(s.boxes, s.queues[k], k);
  }

  lemma InitialRests(s: State)
    requires Initial(s)
    ensures RestsOk(s)
  {
    forall w: nat | w < |s.workers|
      ensures RestOk(s, w)
    {
      assert Idle(s.workers[w]);
      SumZero(s.boxes, HeldBy(w));
    }
  }

  lemma IdleOwes(w: Worker)
    requires Idle(w)
    ensures Owed(w) == 0
  {
  }

  /** Nobody owes anything when every worker is at the head of its loop. */
  lemma IdleOwesNothing(workers: seq<Worker>)
    requires forall w: nat | w < |workers| :: Idle(workers[w])
    ensures SumBy(workers, Owed) == 0
  {
    forall w: nat | w < |workers|
      ensures Owed(workers[w]) == 0
    {
      IdleOwes(workers[w]);
    }
    SumZero(workers, Owed);
  }

  lemma InitialSizes(s: State)
    requires Initial(s)
    ensures SizesAddUp(s)
  {
    IdleOwesNothing(s.workers);
    SumZero(s.sizes.queue, Itself);
  }

  lemma InitialInv(s: State)
    requires Initial(s)
    ensures Inv(s)
  {
    InitialOwned(s);
    InitialRests(s);
    InitialSizes(s);
    forall v: Hash
      ensures Conserved(s, v)
    {
      SumZero(s.boxes, In(v));
    }
  }

  lemma ApplyKeeps(s: State, a: Action)
    requires Inv(s) && Enabled(s, a)
    ensures Inv(Apply(s, a))
  {
    OwnedKept(s, a);
    InQueuesKept(s, a);
    CellsKept(s, a);
    SizesKept(s, a);
    var s' := Apply(s, a);
    forall w: nat | w < |s'.workers|
      ensures RestOk(s', w)
    {
      assert RestOk(s, w);
      RestKept(s, a, w);
    }
    forall v: Hash
      ensures Conserved(s', v)
    {
      ConservedKept(s, a, v);
    }
  }

  lemma {:induction false} ExecKeeps(s: State, acts: seq<Action>)
    requires Inv(s) && Legal(s, acts)
    ensures Inv(Exec(s, acts))
    decreases |acts|
  {
    if acts != [] {
      ApplyKeeps(s, acts[0]);
      ExecKeeps(Apply(s, acts[0]), acts[1..]);
    }
  }

  /** All channels are empty and every worker is at the head of its loop. */
  ghost predicate Drained(s: State) {
    && s.sizes.queue == []
    && (forall k: nat | k < |s.queues| :: s.queues[k] == [])
    && (forall w: nat | w < |s.workers| :: Idle(s.workers[w]))
  }

  lemma AllPooled(s: State, v: Hash)
    requires Owned(s) && AllInQueues(s) && Drained(s)
    ensures SumBy(s.boxes, In(v)) == 0
  {
    forall id: nat | id < |s.boxes|
      ensures In(v)(s.boxes[id]) == 0
    {
      assert InSlot(s.workers, s.boxes[id], id) && InQueue(s.queues, s.boxes[id], id);
    }
    SumZero(s.boxes, In(v));
  }

  lemma DrainedCells(s: State, v: Hash)
    requires Inv(s) && Drained(s)
    ensures s.table.cells[v] == s.table.made[v] % CELL
  {
    assert Conserved(s, v);
    AllPooled(s, v);
  }

  lemma DrainedTotal(s: State)
    requires SizesAddUp(s) && Drained(s)
    ensures s.sizes.total == |s.table.made| + s.sizes.drift
  {
    IdleOwesNothing(s.workers);
    SumZero(s.sizes.queue, Itself);
  }

  /**
   * Once everything is drained, every cell is the number of times its hash was made, modulo 65536, in
   * every run. The total is off by exactly what the reads of carrier sizes were off, so it is right if
   * and only if their errors sum to zero.
   */
  lemma TallyIsExact(s: State, acts: seq<Action>)
    requires Initial(s) && Legal(s, acts) && Drained(Exec(s, acts))
    ensures var e := Exec(s, acts);
            && (forall v: Hash :: e.table.cells[v] == e.table.made[v] % CELL)
            && e.sizes.total == |e.table.made| + e.sizes.drift
            && (e.sizes.total == |e.table.made| <==> e.sizes.drift == 0)
  {
    InitialInv(s);
    ExecKeeps(s, acts);
    var e := Exec(s, acts);
    DrainedTotal(e);
    forall v: Hash
      ensures e.table.cells[v] == e.table.made[v] % CELL
    {
      DrainedCells(e, v);
    }
  }

  /** In every run counter `k` changes only cells of its own residue class. */
  lemma CountersNeverShareACell(s: State, acts: seq<Action>, k: nat, v: Hash)
    requires Initial(s) && Legal(s, acts) && Enabled(Exec(s, acts), Take(k)) && v % |Exec(s, acts).queues| != k
    ensures Apply(Exec(s, acts), Take(k)).table.cells[v] == Exec(s, acts).table.cells[v]
  {
    InitialInv(s);
    ExecKeeps(s, acts);
    TakeTouchesOwnCells(Exec(s, acts), k, v);
  }
}
