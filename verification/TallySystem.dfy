/**
 * The sharded tally as a whole: any number of workers and counters, interleaved arbitrarily, with the
 * carriers as shared objects that travel from a counter's pool to a worker, into the counter's channel
 * and back. Every action is one operation of the source.
 */
module TallySystem {
  import opened HashTally

  // ---------------------------------------------------------------- state

  /** Where a carrier is: in the pool of its counter, in a worker's hands, or in its counter's channel. */
  datatype Place = Pooled | Held(w: nat) | Queued

  /** A carrier: `home` is the counter whose pool it comes from, `load` is buf[0..ptr], so ptr == |load| - 1. */
  datatype Box = Box(home: nat, place: Place, load: seq<Hash>)

  datatype Stage = Taking | Filling | Sending | Reading

  /**
   * `slots` are the carriers of the current chunk, `i` the loop index while sending, `count` is
   * chunkcount. `sent` records the size of the carrier just sent, `rest` how many hashes of the chunk
   * are not yet accounted for: while filling, all that have been made.
   */
  datatype Worker = Worker(stage: Stage, slots: seq<nat>, i: nat, count: nat, sent: nat, rest: int)

  /** `made` and `tallied` record all hashes made and all hashes added up. */
  datatype Table = Table(cells: Cells, made: multiset<Hash>, tallied: multiset<Hash>)

  /** The chunk sizes on their way to the total counter; `drift` records by how much the reads were off. */
  datatype Sizes = Sizes(queue: seq<nat>, total: nat, drift: int)

  datatype State = State(
    workers: seq<Worker>, boxes: seq<Box>, queues: seq<seq<nat>>, table: Table, sizes: Sizes)

  const IDLE := Worker(Taking, [], 0, 0, 0, 0)

  /** At the head of the loop. */
  predicate Idle(w: Worker) {
    w == IDLE
  }

  datatype Action =
    | Get(w: nat, id: nat)     // hashPool[k].Get() and ptr = -1; a new carrier if id is the next free one
    | Start(w: nat)            // all carriers are in hand
    | Fill(w: nat, h: Hash)    // route one hash
    | Finish(w: nat)           // the chunk is complete, or the generator has come to its end after a hash
    | Send(w: nat)             // bytesumCh[i] <- hchunk[i]
    | Read(w: nat)             // chunkcount += uint64(hchunk[i].ptr) + 1
    | Report(w: nat)           // counterCh <- chunkcount
    | Take(k: nat)             // counter k receives a carrier, adds it up and puts it back
    | TakeSize                 // the total counter receives a chunk size

  const CHUNK: nat := 1024

  // ---------------------------------------------------------------- steps

  function BoxAt(boxes: seq<Box>, id: nat): (b: Box) {
    if id < |boxes| then boxes[id] else Box(0, Pooled, [])
  }

  function PutBox(boxes: seq<Box>, id: nat, b: Box): (r: seq<Box>) {
    if id < |boxes| then boxes[id := b] else boxes
  }

  predicate MayGet(s: State, k: nat, id: nat) {
    id == |s.boxes| || (id < |s.boxes| && s.boxes[id].home == k && s.boxes[id].place.Pooled?)
  }

  predicate WorkerReady(s: State, a: Action, w: Worker) {
    match a
    case Get(_, id) => w.stage.Taking? && |w.slots| < |s.queues| && MayGet(s, |w.slots|, id)
    case Start(_) => w.stage.Taking? && |w.slots| == |s.queues|
    case Fill(_, h) => w.stage.Filling? && |w.slots| >= 1 && w.rest < CHUNK
    case Finish(_) => w.stage.Filling? && w.rest >= 1
    case Send(_) => w.stage.Sending? && w.i < |w.slots| && w.i < |s.queues|
    case Read(_) => w.stage.Reading? && w.i < |w.slots|
    case Report(_) => w.stage.Sending? && w.i == |w.slots|
    case _ => false
  }

  predicate Enabled(s: State, a: Action) {
    match a
    case Take(k) => k < |s.queues| && s.queues[k] != []
    case TakeSize => s.sizes.queue != []
    case _ => a.w < |s.workers| && WorkerReady(s, a, s.workers[a.w])
  }

  function GetBox(boxes: seq<Box>, w: nat, k: nat, id: nat): (r: seq<Box>)
    requires id <= |boxes|
  {
    var b := Box(k, Held(w), []);
    if id == |boxes| then boxes + [b] else boxes[id := b]
  }

  function Apply(s: State, a: Action): (s': State)
    requires Enabled(s, a)
  {
    match a
    case Take(k) => TakeBox(s, k)
    case TakeSize => s.(sizes := s.sizes.(queue := s.sizes.queue[1..], total := s.sizes.total + s.sizes.queue[0]))
    case _ => WorkerStep(s, a, s.workers[a.w])
  }

  function TakeBox(s: State, k: nat): (s': State)
    requires Enabled(s, Take(k))
  {
    var id := s.queues[k][0];
    var b := BoxAt(s.boxes, id);
    s.(boxes := PutBox(s.boxes, id, b.(place := Pooled)), queues := s.queues[k := s.queues[k][1..]],
       table := s.table.(cells := AddLoad(s.table.cells, b.load), tallied := s.table.tallied + Bag(b.load)))
  }

  function WorkerStep(s: State, a: Action, w: Worker): (s': State)
    requires !a.Take? && !a.TakeSize? && a.w < |s.workers| && w == s.workers[a.w] && WorkerReady(s, a, w)
  {
    match a
    case Get(i, id) =>
      s.(workers := s.workers[i := w.(slots := w.slots + [id])], boxes := GetBox(s.boxes, i, |w.slots|, id))
    case Start(i) => s.(workers := s.workers[i := w.(stage := Filling)])
    case Fill(i, h) =>
      var id := w.slots[h % |w.slots|];
      var b := BoxAt(s.boxes, id);
      s.(workers := s.workers[i := w.(rest := w.rest + 1)],
         boxes := PutBox(s.boxes, id, b.(load := b.load + [h])),
         table := s.table.(made := s.table.made + multiset{h}))
    case Finish(i) => s.(workers := s.workers[i := w.(stage := Sending)])
    case Send(i) =>
      var id := w.slots[w.i];
      var b := BoxAt(s.boxes, id);
      s.(workers := s.workers[i := w.(stage := Reading, sent := |b.load|)],
         boxes := PutBox(s.boxes, id, b.(place := Queued)),
         queues := s.queues[w.i := s.queues[w.i] + [id]])
    case Read(i) =>
      var size := |BoxAt(s.boxes, w.slots[w.i]).load|;
      var w' := w.(stage := Sending, i := w.i + 1, count := w.count + size, rest := w.rest - w.sent);
      s.(workers := s.workers[i := w'],
         sizes := s.sizes.(drift := s.sizes.drift + size - w.sent))
    case Report(i) => s.(workers := s.workers[i := IDLE], sizes := s.sizes.(queue := s.sizes.queue + [w.count]))
  }

  predicate Legal(s: State, acts: seq<Action>)
    decreases |acts|
  {
    acts == [] || (Enabled(s, acts[0]) && Legal(Apply(s, acts[0]), acts[1..]))
  }

  function Exec(s: State, acts: seq<Action>): (r: State)
    requires Legal(s, acts)
    decreases |acts|
  {
    if acts == [] then s else Exec(Apply(s, acts[0]), acts[1..])
  }

  ghost predicate Initial(s: State) {
    && (forall w: nat | w < |s.workers| :: Idle(s.workers[w])) && s.boxes == []
    && (forall k: nat | k < |s.queues| :: s.queues[k] == [])
    && (forall v: Hash :: s.table.cells[v] == 0)
    && s.table.made == multiset{} && s.table.tallied == multiset{}
    && s.sizes == Sizes([], 0, 0)
  }

  // ---------------------------------------------------------------- who has which carrier

  /** The first slot of a worker that it has not sent yet. */
  function Unsent(w: Worker): (j: nat) {
    match w.stage
    case Taking => 0
    case Filling => 0
    case Sending => w.i
    case Reading => w.i + 1
  }

  predicate StageOk(w: Worker, n: nat) {
    && |w.slots| <= n && (!w.stage.Taking? ==> |w.slots| == n)
    && (w.stage.Taking? || w.stage.Filling? ==> w.i == 0)
    && Unsent(w) <= n
  }

  ghost predicate StagesOk(s: State) {
    forall w: nat | w < |s.workers| :: StageOk(s.workers[w], |s.queues|)
  }

  /** An unsent slot is in its worker's hands. */
  ghost predicate SlotHeld(boxes: seq<Box>, w: nat, slots: seq<nat>, j: nat)
    requires j < |slots|
  {
    slots[j] < |boxes| && boxes[slots[j]].place == Held(w) && boxes[slots[j]].home == j
  }

  ghost predicate SlotsHeld(s: State) {
    forall w: nat, j: nat | w < |s.workers| && Unsent(s.workers[w]) <= j < |s.workers[w].slots| ::
      SlotHeld(s.boxes, w, s.workers[w].slots, j)
  }

  /** And whatever is in a worker's hands is one of its unsent slots. */
  ghost predicate InSlot(workers: seq<Worker>, b: Box, id: nat) {
    b.place.Held? ==>
      && b.place.w < |workers|
      && Unsent(workers[b.place.w]) <= b.home < |workers[b.place.w].slots|
      && workers[b.place.w].slots[b.home] == id
  }

  ghost predicate HeldInSlots(s: State) {
    forall id: nat | id < |s.boxes| :: InSlot(s.workers, s.boxes[id], id)
  }

  ghost predicate Enqueued(boxes: seq<Box>, id: nat, k: nat) {
    id < |boxes| && boxes[id].place.Queued? && boxes[id].home == k
  }

  /** A channel holds carriers of its own counter, each at most once. */
  ghost predicate QueueOk(boxes: seq<Box>, q: seq<nat>, k: nat) {
    && (forall a: nat | a < |q| :: Enqueued(boxes, q[a], k))
    && (forall a: nat, b: nat | a < b < |q| :: q[a] != q[b])
  }

  ghost predicate QueuesOk(s: State) {
    forall k: nat | k < |s.queues| :: QueueOk(s.boxes, s.queues[k], k)
  }

  /** A carrier only ever holds hashes of its counter's residue class. */
  ghost predicate ClassOk(b: Box, n: nat) {
    b.home < n && forall j: nat | j < |b.load| :: b.load[j] % n == b.home
  }

  ghost predicate ClassesOk(s: State) {
    forall id: nat | id < |s.boxes| :: ClassOk(s.boxes[id], |s.queues|)
  }

  ghost predicate Owned(s: State) {
    StagesOk(s) && SlotsHeld(s) && HeldInSlots(s) && QueuesOk(s) && ClassesOk(s)
  }
}
