/**
 * A worker reads the size of a carrier after it has sent it. If by then the counter is done with the
 * carrier and another worker has taken it out of the pool, the size is lost: the total of a run is
 * exact if no carrier is handed out again that early, as with a single worker, but not in general.
 */
module TallyReuse {
  import opened TallySystem
  import opened TallyOwnership
  import opened TallyTotals

  // ---------------------------------------------------------------- runs without early reuse

  /** Worker `v` has sent carrier `id` and not yet read its size. */
  predicate Unread(s: State, v: nat, id: nat) {
    && v < |s.workers| && s.workers[v].stage.Reading?
    && s.workers[v].i < |s.workers[v].slots| && s.workers[v].slots[s.workers[v].i] == id
  }

  /** The action hands out a carrier whose size is still to be read. */
  predicate ReusesEarly(s: State, a: Action) {
    a.Get? && exists v | 0 <= v < |s.workers| :: Unread(s, v, a.id)
  }

  predicate NoEarlyReuse(s: State, acts: seq<Action>)
    requires Legal(s, acts)
    decreases |acts|
  {
    acts == [] || (!ReusesEarly(s, acts[0]) && NoEarlyReuse(Apply(s, acts[0]), acts[1..]))
  }

  /** The carrier a worker is about to read is in nobody's hands and as it was sent. */
  ghost predicate AsSent(boxes: seq<Box>, w: Worker) {
    w.stage.Reading? && w.i < |w.slots| ==>
      && w.slots[w.i] < |boxes| && !boxes[w.slots[w.i]].place.Held? && |boxes[w.slots[w.i]].load| == w.sent
  }

  ghost predicate AllAsSent(s: State) {
    forall v: nat | v < |s.workers| :: AsSent(s.boxes, s.workers[v])
  }

  lemma AsSentKept(s: State, a: Action, v: nat)
    requires Owned(s) && Enabled(s, a) && !ReusesEarly(s, a) && v < |s.workers| && AsSent(s.boxes, s.workers[v])
    ensures AsSent(Apply(s, a).boxes, Apply(s, a).workers[v])
  {
    match a
    case Get(w, id) => assert !Unread(s, v, id);
    case Fill(w, h) => assert SlotHeld(s.boxes, w, s.workers[w].slots, h % |s.workers[w].slots|);
    case Send(w) => assert SlotHeld(s.boxes, w, s.workers[w].slots, s.workers[w].i);
    case _ =>
  }

  lemma ReadsExactly(s: State, a: Action)
    requires Enabled(s, a) && AllAsSent(s)
    ensures Apply(s, a).sizes.drift == s.sizes.drift
  {
    if a.Read? {
      assert AsSent(s.boxes, s.workers[a.w]);
    }
  }

  lemma {:induction false} NoDrift(s: State, acts: seq<Action>)
    requires Owned(s) && AllAsSent(s) && Legal(s, acts) && NoEarlyReuse(s, acts)
    ensures Exec(s, acts).sizes.drift == s.sizes.drift
    decreases |acts|
  {
    if acts != [] {
      var t := Apply(s, acts[0]);
      OwnedKept(s, acts[0]);
      ReadsExactly(s, acts[0]);
      forall v: nat | v < |t.workers|
        ensures AsSent(t.boxes, t.workers[v])
      {
        assert AsSent(s.boxes, s.workers[v]);
        AsSentKept(s, acts[0], v);
      }
      NoDrift(t, acts[1..]);
    }
  }

  /** Without early reuse the total counter ends with the number of hashes made. */
  lemma TotalIsExact(s: State, acts: seq<Action>)
    requires Initial(s) && Legal(s, acts) && NoEarlyReuse(s, acts) && Drained(Exec(s, acts))
    ensures Exec(s, acts).sizes.total == |Exec(s, acts).table.made|
  {
    InitialOwned(s);
    NoDrift(s, acts);
    TallyIsExact(s, acts);
  }

  /** A single worker never takes a carrier while it has one to read. */
  lemma {:induction false} OneWorkerNeverReuses(s: State, acts: seq<Action>)
    requires |s.workers| <= 1 && Legal(s, acts)
    ensures NoEarlyReuse(s, acts)
    decreases |acts|
  {
    if acts != [] {
      assert !ReusesEarly(s, acts[0]);
      OneWorkerNeverReuses(Apply(s, acts[0]), acts[1..]);
    }
  }

  lemma OneWorkerTotal(s: State, acts: seq<Action>)
    requires Initial(s) && |s.workers| <= 1 && Legal(s, acts) && Drained(Exec(s, acts))
    ensures Exec(s, acts).sizes.total == |Exec(s, acts).table.made|
  {
    OneWorkerNeverReuses(s, acts);
    TotalIsExact(s, acts);
  }
}
