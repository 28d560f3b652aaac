/** No carrier of the tally is ever filled beyond its buffer, in any interleaving. */
module TallyBuffers {
  import opened HashTally
  import opened TallySystem
  import opened TallyOwnership

  /** How much a carrier in this worker's hands can hold. */
  function Room(w: Worker): (n: int) {
    match w.stage
    case Taking => 0
    case Filling => w.rest
    case _ => 1024
  }

  predicate RoomOk(w: Worker) {
    (w.stage.Taking? ==> w.rest == 0) && (w.stage.Filling? ==> 0 <= w.rest <= 1024)
  }

  ghost predicate BoxFits(workers: seq<Worker>, b: Box) {
    |b.load| <= 1024 && (b.place.Held? && b.place.w < |workers| ==> |b.load| <= Room(workers[b.place.w]))
  }

  ghost predicate Fits(s: State) {
    && (forall w: nat | w < |s.workers| :: RoomOk(s.workers[w]))
    && (forall id: nat | id < |s.boxes| :: BoxFits(s.workers, s.boxes[id]))
  }

  /** A worker's room only grows, but for a report, when it has no carrier left. */
  lemma RoomGrows(s: State, a: Action, w: Worker)
    requires !a.Take? && !a.TakeSize? && a.w < |s.workers| && w == s.workers[a.w] && WorkerReady(s, a, w) && RoomOk(w)
    ensures var w' := WorkerStep(s, a, w).workers[a.w]; RoomOk(w') && (a.Report? || Room(w') >= Room(w))
  {
  }

  lemma FillFits(s: State, w: nat, h: Hash)
    requires Owned(s) && Fits(s) && Enabled(s, Fill(w, h))
    ensures Fits(Apply(s, Fill(w, h)))
  {
    var wk, s' := s.workers[w], Apply(s, Fill(w, h));
    var k := h % |wk.slots|;
    RoomGrows(s, Fill(w, h), wk);
    assert SlotHeld(s.boxes, w, wk.slots, k);
    forall id: nat | id < |s'.boxes|
      ensures BoxFits(s'.workers, s'.boxes[id])
    {
      assert BoxFits(s.workers, s.boxes[id]);
    }
  }

  lemma ReportFits(s: State, w: nat)
    requires Owned(s) && Fits(s) && Enabled(s, Report(w))
    ensures Fits(Apply(s, Report(w)))
  {
    var s' := Apply(s, Report(w));
    forall id: nat | id < |s'.boxes|
      ensures BoxFits(s'.workers, s'.boxes[id])
    {
      assert BoxFits(s.workers, s.boxes[id]) && InSlot(s.workers, s.boxes[id], id);
      assert StageOk(s.workers[w], |s.queues|);
    }
  }

  lemma OtherFits(s: State, a: Action)
    requires Owned(s) && Fits(s) && Enabled(s, a) && !a.Fill? && !a.Report? && !a.Take? && !a.TakeSize?
    ensures Fits(Apply(s, a))
  {
    var s' := Apply(s, a);
    RoomGrows(s, a, s.workers[a.w]);
    forall id: nat | id < |s'.boxes|
      ensures BoxFits(s'.workers, s'.boxes[id])
    {
      if id < |s.boxes| {
        assert BoxFits(s.workers, s.boxes[id]);
      }
    }
  }

  lemma TakeFits(s: State, k: nat)
    requires Fits(s) && Enabled(s, Take(k))
    ensures Fits(Apply(s, Take(k)))
  {
    var s' := Apply(s, Take(k));
    forall id: nat | id < |s'.boxes|
      ensures BoxFits(s'.workers, s'.boxes[id])
    {
      assert BoxFits(s.workers, s.boxes[id]);
    }
  }

  lemma FitsKept(s: State, a: Action)
    requires Owned(s) && Fits(s) && Enabled(s, a)
    ensures Fits(Apply(s, a))
  {
    match a
    case Fill(w, h) => FillFits(s, w, h);
    case Report(w) => ReportFits(s, w);
    case Take(k) => TakeFits(s, k);
    case TakeSize =>
    case _ => OtherFits(s, a);
  }

  lemma {:induction false} ExecFits(s: State, acts: seq<Action>)
    requires Owned(s) && Fits(s) && Legal(s, acts)
    ensures Fits(Exec(s, acts))
    decreases |acts|
  {
    if acts != [] {
      OwnedKept(s, acts[0]);
      FitsKept(s, acts[0]);
      ExecFits(Apply(s, acts[0]), acts[1..]);
    }
  }

  /** In every run no carrier holds more than the 1024 hashes its buffer has room for. */
  lemma NoBufferOverruns(s: State, acts: seq<Action>)
    requires Initial(s) && Legal(s, acts)
    ensures forall b | b in Exec(s, acts).boxes :: |b.load| <= 1024
  {
    ExecFits(s, acts);
  }
}
