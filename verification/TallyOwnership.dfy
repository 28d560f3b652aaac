/** Every carrier has one owner at a time, in every interleaving of workers and counters. */
module TallyOwnership {
  import opened HashTally
  import opened TallySystem

  // ---------------------------------------------------------------- taking a carrier

  lemma GetSlots(s: State, w: nat, id: nat)
    requires Owned(s) && Enabled(s, Get(w, id))
    ensures SlotsHeld(Apply(s, Get(w, id)))
  {
    var s' := Apply(s, Get(w, id));
    forall v: nat, j: nat | v < |s'.workers| && Unsent(s'.workers[v]) <= j < |s'.workers[v].slots|
      ensures SlotHeld(s'.boxes, v, s'.workers[v].slots, j)
    {
      if v != w || j < |s.workers[w].slots| {
        assert SlotHeld(s.boxes, v, s.workers[v].slots, j);
      }
    }
  }

  lemma GetRest(s: State, w: nat, id: nat)
    requires Owned(s) && Enabled(s, Get(w, id))
    ensures var s' := Apply(s, Get(w, id)); StagesOk(s') && HeldInSlots(s') && ClassesOk(s')
  {
    var s' := Apply(s, Get(w, id));
    forall c: nat | c < |s'.boxes|
      ensures InSlot(s'.workers, s'.boxes[c], c) && ClassOk(s'.boxes[c], |s'.queues|)
    {
      if c != id {
        assert InSlot(s.workers, s.boxes[c], c) && ClassOk(s.boxes[c], |s.queues|);
      }
    }
  }

  lemma GetQueues(s: State, w: nat, id: nat)
    requires Owned(s) && Enabled(s, Get(w, id))
    ensures QueuesOk(Apply(s, Get(w, id)))
  {
    var s' := Apply(s, Get(w, id));
    forall k: nat | k < |s.queues|
      ensures QueueOk(s'.boxes, s'.queues[k], k)
    {
      assert QueueOk(s.boxes, s.queues[k], k);
      QueueUnmoved(s.boxes, s'.boxes, s.queues[k], k, id);
    }
  }

  /** A queue does not notice what happens to carriers that are not in it. */
  lemma QueueUnmoved(boxes: seq<Box>, boxes': seq<Box>, q: seq<nat>, k: nat, id: nat)
    requires QueueOk(boxes, q, k) && !Enqueued(boxes, id, k) && |boxes| <= |boxes'|
    requires forall c: nat | c < |boxes| && c != id :: boxes'[c] == boxes[c]
    ensures QueueOk(boxes', q, k)
  {
    forall a: nat | a < |q|
      ensures Enqueued(boxes', q[a], k)
    {
      assert Enqueued(boxes, q[a], k);
    }
  }

  // ---------------------------------------------------------------- filling it

  lemma FillKeeps(s: State, w: nat, h: Hash)
    requires Owned(s) && Enabled(s, Fill(w, h))
    ensures Owned(Apply(s, Fill(w, h)))
  {
    var wk, s' := s.workers[w], Apply(s, Fill(w, h));
    var k := h % |wk.slots|;
    assert SlotHeld(s.boxes, w, wk.slots, k);
    var id := wk.slots[k];
    assert ClassOk(s.boxes[id], |s.queues|) && ClassOk(s'.boxes[id], |s.queues|);
    SamePlaces(s, s');
  }

  /** The ownership invariant only depends on where the carriers are and on what is unsent. */
  lemma SamePlaces(s: State, s': State)
    requires Owned(s) && ClassesOk(s') && StagesOk(s') && s'.queues == s.queues
    requires |s'.boxes| == |s.boxes| && |s'.workers| == |s.workers|
    requires forall c: nat | c < |s.boxes| ::
               s'.boxes[c].place == s.boxes[c].place && s'.boxes[c].home == s.boxes[c].home
    requires forall v: nat | v < |s.workers| ::
               s'.workers[v].slots == s.workers[v].slots && Unsent(s'.workers[v]) == Unsent(s.workers[v])
    ensures Owned(s')
  {
    PlacesSlots(s, s');
    PlacesHeld(s, s');
    PlacesQueues(s, s');
  }

  lemma PlacesSlots(s: State, s': State)
    requires SlotsHeld(s) && |s'.boxes| == |s.boxes| && |s'.workers| == |s.workers|
    requires forall c: nat | c < |s.boxes| ::
               s'.boxes[c].place == s.boxes[c].place && s'.boxes[c].home == s.boxes[c].home
    requires forall v: nat | v < |s.workers| ::
               s'.workers[v].slots == s.workers[v].slots && Unsent(s'.workers[v]) == Unsent(s.workers[v])
    ensures SlotsHeld(s')
  {
    forall v: nat, j: nat | v < |s'.workers| && Unsent(s'.workers[v]) <= j < |s'.workers[v].slots|
      ensures SlotHeld(s'.boxes, v, s'.workers[v].slots, j)
    {
      assert SlotHeld(s.boxes, v, s.workers[v].slots, j);
    }
  }

  lemma PlacesHeld(s: State, s': State)
    requires HeldInSlots(s) && |s'.boxes| == |s.boxes| && |s'.workers| == |s.workers|
    requires forall c: nat | c < |s.boxes| ::
               s'.boxes[c].place == s.boxes[c].place && s'.boxes[c].home == s.boxes[c].home
    requires forall v: nat | v < |s.workers| ::
               s'.workers[v].slots == s.workers[v].slots && Unsent(s'.workers[v]) == Unsent(s.workers[v])
    ensures HeldInSlots(s')
  {
    forall c: nat | c < |s'.boxes|
      ensures InSlot(s'.workers, s'.boxes[c], c)
    {
      assert InSlot(s.workers, s.boxes[c], c);
    }
  }

  lemma PlacesQueues(s: State, s': State)
    requires QueuesOk(s) && s'.queues == s.queues && |s'.boxes| == |s.boxes|
    requires forall c: nat | c < |s.boxes| ::
               s'.boxes[c].place == s.boxes[c].place && s'.boxes[c].home == s.boxes[c].home
    ensures QueuesOk(s')
  {
    forall k: nat | k < |s'.queues|
      ensures QueueOk(s'.boxes, s'.queues[k], k)
    {
      assert QueueOk(s.boxes, s.queues[k], k);
      forall a: nat | a < |s.queues[k]|
        ensures Enqueued(s'.boxes, s.queues[k][a], k)
      {
        assert Enqueued(s.boxes, s.queues[k][a], k);
      }
    }
  }

  // ---------------------------------------------------------------- sending it

  lemma SendSlots(s: State, w: nat)
    requires Owned(s) && Enabled(s, Send(w))
    ensures SlotsHeld(Apply(s, Send(w)))
  {
    var wk, s' := s.workers[w], Apply(s, Send(w));
    assert SlotHeld(s.boxes, w, wk.slots, wk.i);
    forall v: nat, j: nat | v < |s'.workers| && Unsent(s'.workers[v]) <= j < |s'.workers[v].slots|
      ensures SlotHeld(s'.boxes, v, s'.workers[v].slots, j)
    {
      assert SlotHeld(s.boxes, v, s.workers[v].slots, j);
    }
  }

  lemma SendRest(s: State, w: nat)
    requires Owned(s) && Enabled(s, Send(w))
    ensures var s' := Apply(s, Send(w)); StagesOk(s') && HeldInSlots(s') && ClassesOk(s')
  {
    var wk, s' := s.workers[w], Apply(s, Send(w));
    assert SlotHeld(s.boxes, w, wk.slots, wk.i);
    forall c: nat | c < |s'.boxes|
      ensures InSlot(s'.workers, s'.boxes[c], c) && ClassOk(s'.boxes[c], |s'.queues|)
    {
      assert InSlot(s.workers, s.boxes[c], c) && ClassOk(s.boxes[c], |s.queues|);
    }
  }

  lemma SendQueues(s: State, w: nat)
    requires Owned(s) && Enabled(s, Send(w))
    ensures QueuesOk(Apply(s, Send(w)))
  {
    var wk, s' := s.workers[w], Apply(s, Send(w));
    var id := wk.slots[wk.i];
    assert SlotHeld(s.boxes, w, wk.slots, wk.i);
    forall k: nat | k < |s'.queues|
      ensures QueueOk(s'.boxes, s'.queues[k], k)
    {
      assert QueueOk(s.boxes, s.queues[k], k);
      QueueUnmoved(s.boxes, s'.boxes, s.queues[k], k, id);
      if k == wk.i {
        QueueGrows(s.boxes, s'.boxes, s.queues[k], k, id);
      }
    }
  }

  lemma QueueGrows(boxes: seq<Box>, boxes': seq<Box>, q: seq<nat>, k: nat, id: nat)
    requires QueueOk(boxes, q, k) && QueueOk(boxes', q, k) && !Enqueued(boxes, id, k) && Enqueued(boxes', id, k)
    ensures QueueOk(boxes', q + [id], k)
  {
    assert forall a: nat | a < |q| :: Enqueued(boxes, q[a], k);
  }

  // ---------------------------------------------------------------- adding it up

  lemma TakeQueues(s: State, k: nat)
    requires Owned(s) && Enabled(s, Take(k))
    ensures QueuesOk(Apply(s, Take(k)))
  {
    var s', id := Apply(s, Take(k)), s.queues[k][0];
    assert QueueOk(s.boxes, s.queues[k], k) && Enqueued(s.boxes, s.queues[k][0], k);
    forall l: nat | l < |s'.queues|
      ensures QueueOk(s'.boxes, s'.queues[l], l)
    {
      assert QueueOk(s.boxes, s.queues[l], l);
      if l != k {
        QueueUnmoved(s.boxes, s'.boxes, s.queues[l], l, id);
      } else {
        QueueShrinks(s.boxes, s'.boxes, s.queues[k], k);
      }
    }
  }

  lemma QueueShrinks(boxes: seq<Box>, boxes': seq<Box>, q: seq<nat>, k: nat)
    requires q != [] && QueueOk(boxes, q, k) && |boxes'| == |boxes|
    requires forall c: nat | c < |boxes| && c != q[0] :: boxes'[c] == boxes[c]
    ensures QueueOk(boxes', q[1..], k)
  {
    var rest := q[1..];
    forall a: nat | a < |rest|
      ensures Enqueued(boxes', rest[a], k)
    {
      assert rest[a] == q[a + 1] && Enqueued(boxes, q[a + 1], k);
    }
  }

  lemma TakeRest(s: State, k: nat)
    requires Owned(s) && Enabled(s, Take(k))
    ensures var s' := Apply(s, Take(k)); StagesOk(s') && SlotsHeld(s') && HeldInSlots(s') && ClassesOk(s')
  {
    var s' := Apply(s, Take(k));
    assert QueueOk(s.boxes, s.queues[k], k) && Enqueued(s.boxes, s.queues[k][0], k);
    forall c: nat | c < |s'.boxes|
      ensures InSlot(s'.workers, s'.boxes[c], c) && ClassOk(s'.boxes[c], |s'.queues|)
    {
      assert InSlot(s.workers, s.boxes[c], c) && ClassOk(s.boxes[c], |s.queues|);
    }
    forall v: nat, j: nat | v < |s'.workers| && Unsent(s'.workers[v]) <= j < |s'.workers[v].slots|
      ensures SlotHeld(s'.boxes, v, s'.workers[v].slots, j)
    {
      assert SlotHeld(s.boxes, v, s.workers[v].slots, j);
    }
  }

  // ---------------------------------------------------------------- everything else

  lemma ReportKeeps(s: State, w: nat)
    requires Owned(s) && Enabled(s, Report(w))
    ensures Owned(Apply(s, Report(w)))
  {
    var s' := Apply(s, Report(w));
    forall c: nat | c < |s'.boxes|
      ensures InSlot(s'.workers, s'.boxes[c], c)
    {
      assert InSlot(s.workers, s.boxes[c], c);
    }
    forall v: nat, j: nat | v < |s'.workers| && Unsent(s'.workers[v]) <= j < |s'.workers[v].slots|
      ensures SlotHeld(s'.boxes, v, s'.workers[v].slots, j)
    {
      assert SlotHeld(s.boxes, v, s.workers[v].slots, j);
    }
  }

  lemma StageKeeps(s: State, a: Action)
    requires Owned(s) && Enabled(s, a) && (a.Start? || a.Finish? || a.Read? || a.TakeSize?)
    ensures Owned(Apply(s, a))
  {
    SamePlaces(s, Apply(s, a));
  }

  lemma OwnedKept(s: State, a: Action)
    requires Owned(s) && Enabled(s, a)
    ensures Owned(Apply(s, a))
  {
    match a
    case Get(w, id) =>
      GetSlots(s, w, id);
      GetRest(s, w, id);
      GetQueues(s, w, id);
    case Fill(w, h) => FillKeeps(s, w, h);
    case Send(w) =>
      SendSlots(s, w);
      SendRest(s, w);
      SendQueues(s, w);
    case Take(k) =>
      TakeQueues(s, k);
      TakeRest(s, k);
    case Report(w) => ReportKeeps(s, w);
    case _ => StageKeeps(s, a);
  }

  /** A carrier in a channel is never written: only the counter that takes it out of there may go on with it. */
  lemma QueuedUntouched(s: State, a: Action, id: nat)
    requires Owned(s) && Enabled(s, a) && id < |s.boxes| && s.boxes[id].place.Queued?
    requires a.Take? ==> s.queues[a.k][0] != id
    ensures Apply(s, a).boxes[id] == s.boxes[id]
  {
    match a
    case Fill(w, h) => assert SlotHeld(s.boxes, w, s.workers[w].slots, h % |s.workers[w].slots|);
    case Send(w) => assert SlotHeld(s.boxes, w, s.workers[w].slots, s.workers[w].i);
    case _ =>
  }
}
