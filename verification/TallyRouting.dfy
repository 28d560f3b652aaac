/** The tally's steps fill the carriers of a chunk as the routing loop does. */
module TallyRouting {
  import opened HashTally
  import opened TallySystem
  import opened TallyOwnership

  /** A worker routes its hashes one after the other. */
  function Fills(w: nat, hashes: seq<Hash>): (acts: seq<Action>)
    ensures |acts| == |hashes|
  {
    if hashes == [] then [] else [Fill(w, hashes[0])] + Fills(w, hashes[1..])
  }

  /** A worker that may route `count` more hashes into its `n` carriers. */
  ghost predicate CanFill(s: State, w: nat, count: nat) {
    && Owned(s) && w < |s.workers| && s.workers[w].stage.Filling?
    && |s.queues| >= 1 && s.workers[w].rest + count <= CHUNK
  }

  /** The load of the carrier that worker `w` has for counter `i`. */
  function LoadOf(s: State, w: nat, i: nat): (load: seq<Hash>) {
    if w < |s.workers| && i < |s.workers[w].slots| then BoxAt(s.boxes, s.workers[w].slots[i]).load else []
  }

  lemma FillAllowed(s: State, w: nat, h: Hash, count: nat)
    requires CanFill(s, w, count) && count >= 1
    ensures Enabled(s, Fill(w, h)) && CanFill(Apply(s, Fill(w, h)), w, count - 1)
  {
    assert StageOk(s.workers[w], |s.queues|);
    OwnedKept(s, Fill(w, h));
  }

  /** One hash goes to the carrier of its class and to no other. */
  lemma FillLoads(s: State, w: nat, h: Hash, i: nat)
    requires CanFill(s, w, 1) && Enabled(s, Fill(w, h)) && i < |s.queues|
    ensures var n := |s.queues|;
            LoadOf(Apply(s, Fill(w, h)), w, i) == if h % n == i then LoadOf(s, w, i) + [h] else LoadOf(s, w, i)
  {
    var slots := s.workers[w].slots;
    assert StageOk(s.workers[w], |s.queues|);
    assert SlotHeld(s.boxes, w, slots, h % |slots|) && SlotHeld(s.boxes, w, slots, i);
  }

  lemma OneFill(s: State, w: nat, h: Hash, count: nat, i: nat)
    requires CanFill(s, w, count) && count >= 1 && i < |s.queues|
    ensures Enabled(s, Fill(w, h))
    ensures var t := Apply(s, Fill(w, h));
            && CanFill(t, w, count - 1) && t.queues == s.queues
            && LoadOf(t, w, i) == LoadOf(s, w, i) + Routed([h], |s.queues|, i)
  {
    FillAllowed(s, w, h, count);
    FillLoads(s, w, h, i);
    RoutedOne(h, |s.queues|, i);
  }

  lemma Routes(h: Hash, tail: seq<Hash>, n: nat, i: nat, hashes: seq<Hash>, before: seq<Hash>)
    requires n >= 1 && hashes == [h] + tail
    ensures before + Routed([h], n, i) + Routed(tail, n, i) == before + Routed(hashes, n, i)
  {
    RoutedAppend([h], tail, n, i);
  }

  /**
   * After a worker has routed `hashes`, its carrier for counter `i` holds, behind what it held before,
   * exactly the load that the routing loop leaves in carrier `i`.
   */
  lemma {:induction false} FillsRoute(s: State, w: nat, hashes: seq<Hash>, i: nat)
    requires CanFill(s, w, |hashes|) && i < |s.queues|
    ensures Legal(s, Fills(w, hashes))
    ensures LoadOf(Exec(s, Fills(w, hashes)), w, i) == LoadOf(s, w, i) + Routed(hashes, |s.queues|, i)
    decreases |hashes|
  {
    var acts := Fills(w, hashes);
    if hashes != [] {
      var h, tail := hashes[0], hashes[1..];
      assert acts[0] == Fill(w, h) && acts[1..] == Fills(w, tail);
      OneFill(s, w, h, |hashes|, i);
      FillsRoute(Apply(s, Fill(w, h)), w, tail, i);
      Routes(h, tail, |s.queues|, i, hashes, LoadOf(s, w, i));
    }
  }
}
