/**
 * The sharded tally of hash-test.go: workers route hashes into one carrier per counter, counters add
 * the carriers up in a shared table of 16-bit cells, and chunk sizes go to a total counter.
 */
module HashTally {
  import opened Bytes

  const CELL: nat := 0x1_0000
  const HASHES: nat := 0x1_0000_0000

  /** A 32-bit checksum; the table has one cell for each. */
  type Hash = h: int | 0 <= h < HASHES

  // ---------------------------------------------------------------- routing, in place

  /** The hashes of a chunk that belong to counter `i` of `n`, in order. */
  function Routed(hashes: seq<Hash>, n: nat, i: nat): (r: seq<Hash>)
    requires n >= 1
    ensures |r| <= |hashes|
  {
    if hashes == [] then []
    else
      var h := hashes[|hashes| - 1];
      Routed(hashes[..|hashes| - 1], n, i) + if h % n == i then [h] else []
  }

  lemma RoutedOne(h: Hash, n: nat, i: nat)
    requires n >= 1
    ensures Routed([h], n, i) == if h % n == i then [h] else []
  {
    assert [h][..0] == [];
  }

  /** A chunk is routed piece by piece, so its order is kept; with one hash at a time this says all. */
  lemma {:induction false} RoutedAppend(a: seq<Hash>, b: seq<Hash>, n: nat, i: nat)
    requires n >= 1
    ensures Routed(a + b, n, i) == Routed(a, n, i) + Routed(b, n, i)
    decreases |b|
  {
    if b == [] {
      assert a + b == a;
    } else {
      var front := b[..|b| - 1];
      assert (a + b)[..|a + b| - 1] == a + front;
      RoutedAppend(a, front, n, i);
    }
  }

  /** A counter gets every hash of its residue class as often as the chunk has it, and no other hash. */
  lemma {:induction false} RoutedExactly(hashes: seq<Hash>, n: nat, i: nat, v: Hash)
    requires n >= 1
    ensures multiset(Routed(hashes, n, i))[v] == if v % n == i then multiset(hashes)[v] else 0
  {
    if hashes != [] {
      var front, h := hashes[..|hashes| - 1], hashes[|hashes| - 1];
      assert hashes == front + [h];
      RoutedExactly(front, n, i, v);
    }
  }

  class Carrier {
    var ptr: int
    const buf: array<Hash>

    constructor (chunksize: nat)
      ensures ptr == -1 && buf.Length == chunksize && fresh(buf)
    {
      ptr := -1;
      buf := new Hash[chunksize];
    }

    ghost predicate Valid()
      reads this
    {
      -1 <= ptr < buf.Length
    }

    /** The part of the buffer that counts: buf[0..ptr]. */
    ghost function Load(): (r: seq<Hash>)
      requires Valid()
      reads this, buf
    {
      buf[..ptr + 1]
    }

    method Put(h: Hash)
      requires Valid() && ptr + 1 < buf.Length
      modifies this, buf
      ensures Valid() && Load() == old(Load()) + [h]
    {
      ptr := ptr + 1;
      buf[ptr] := h;
    }
  }

  ghost predicate Apart(cs: seq<Carrier>) {
    forall i, j | 0 <= i < j < |cs| :: cs[i] != cs[j] && cs[i].buf != cs[j].buf
  }

  ghost function Footprint(cs: seq<Carrier>): (r: set<object>) {
    (set i | 0 <= i < |cs| :: cs[i] as object) + (set i | 0 <= i < |cs| :: cs[i].buf as object)
  }

  /** Carrier `i` holds exactly the hashes routed to counter `i`. */
  ghost predicate Holds(cs: seq<Carrier>, hashes: seq<Hash>)
    requires |cs| >= 1
    reads cs, set i | 0 <= i < |cs| :: cs[i].buf
  {
    forall i: nat | i < |cs| :: cs[i].Valid() && cs[i].Load() == Routed(hashes, |cs|, i)
  }

  method ResetAll(cs: seq<Carrier>)
    requires |cs| >= 1
    modifies Footprint(cs)
    ensures Holds(cs, [])
  {
    for k := 0 to |cs|
      invariant forall i: nat | i < k :: cs[i].ptr == -1
    {
      cs[k].ptr := -1;
    }
  }

  /** One hash of a chunk; the chunk's hashes so far leave room in every carrier, even if all went to one. */
  method RouteOne(cs: seq<Carrier>, ghost front: seq<Hash>, h: Hash)
    requires |cs| >= 1 && Apart(cs) && Holds(cs, front)
    requires forall i: nat | i < |cs| :: cs[i].buf.Length > |front|
    modifies Footprint(cs)
    ensures Holds(cs, front + [h])
  {
    var c := cs[h % |cs|];
    assert c.ptr + 1 == |Routed(front, |cs|, h % |cs|)|;
    c.Put(h);
    assert (front + [h])[..|front|] == front;
    forall i: nat | i < |cs|
      ensures cs[i].Valid() && cs[i].Load() == Routed(front + [h], |cs|, i)
    {
      if i != h % |cs| {
        assert cs[i] != c && cs[i].buf != c.buf;
      }
    }
  }

  lemma PrefixGrows(front: seq<Hash>, hashes: seq<Hash>)
    requires front <= hashes && |front| < |hashes|
    ensures front + [hashes[|front|]] <= hashes
  {
  }

  /** One chunk of `runWorker`: no carrier index ever leaves its buffer. */
  method RouteChunk(cs: seq<Carrier>, hashes: seq<Hash>)
    requires |cs| >= 1 && Apart(cs)
    requires forall i: nat | i < |cs| :: cs[i].buf.Length >= |hashes|
    modifies Footprint(cs)
    ensures Holds(cs, hashes)
  {
    ResetAll(cs);
    ghost var front: seq<Hash> := [];
    for idx := 0 to |hashes|
      invariant |front| == idx && front <= hashes
      invariant Holds(cs, front)
    {
      PrefixGrows(front, hashes);
      RouteOne(cs, front, hashes[idx]);
      front := front + [hashes[idx]];
    }
    assert front == hashes;
  }

  // ---------------------------------------------------------------- chunk sizes

  /** How many hashes of the chunk went to the first `k` counters. */
  function PartSizes(hashes: seq<Hash>, n: nat, k: nat): (r: nat)
    requires n >= 1
  {
    if k == 0 then 0 else PartSizes(hashes, n, k - 1) + |Routed(hashes, n, k - 1)|
  }

  lemma {:induction false} OneMoreHash(hashes: seq<Hash>, n: nat, k: nat)
    requires n >= 1 && hashes != []
    ensures var h := hashes[|hashes| - 1];
            PartSizes(hashes, n, k) == PartSizes(hashes[..|hashes| - 1], n, k) + if h % n < k then 1 else 0
  {
    if k > 0 {
      var front, m := hashes[..|hashes| - 1], hashes[|hashes| - 1] % n;
      OneMoreHash(hashes, n, k - 1);
      assert |Routed(hashes, n, k - 1)| == |Routed(front, n, k - 1)| + if m == k - 1 then 1 else 0;
    }
  }

  lemma {:induction false} NoHash(n: nat, k: nat)
    requires n >= 1
    ensures PartSizes([], n, k) == 0
  {
    if k > 0 {
      NoHash(n, k - 1);
    }
  }

  /** Every hash is routed to exactly one counter. */
  lemma {:induction false} PartsMakeTheChunk(hashes: seq<Hash>, n: nat, k: nat)
    requires n >= 1 && k <= n
    ensures PartSizes(hashes, n, k) <= |hashes| && (k == n ==> PartSizes(hashes, n, k) == |hashes|)
  {
    if hashes == [] {
      NoHash(n, k);
    } else {
      OneMoreHash(hashes, n, k);
      PartsMakeTheChunk(hashes[..|hashes| - 1], n, k);
    }
  }

  /** Adding uint64(ptr) + 1 in 64 bits; an empty carrier has ptr == -1 and adds nothing. */
  function AddSize(count: nat, ptr: int): (r: nat) {
    (count + (ptr % TWO64 + 1) % TWO64) % TWO64
  }

  lemma AddSizeExact(count: nat, ptr: int)
    requires -1 <= ptr && count + ptr + 1 < TWO64
    ensures AddSize(count, ptr) == count + ptr + 1
  {
  }

  lemma NextSize(hashes: seq<Hash>, n: nat, i: nat)
    requires n >= 1 && i < n && |hashes| < TWO64
    ensures AddSize(PartSizes(hashes, n, i), |Routed(hashes, n, i)| - 1) == PartSizes(hashes, n, i + 1)
  {
    PartsMakeTheChunk(hashes, n, i + 1);
    AddSizeExact(PartSizes(hashes, n, i), |Routed(hashes, n, i)| - 1);
  }

  /** What the reads after the sends add up to. */
  function SeenSizes(seen: seq<int>, k: nat): (n: int)
    requires k <= |seen|
  {
    if k == 0 then 0 else SeenSizes(seen, k - 1) + seen[k - 1] + 1
  }

  /** Reads that find the sizes of the parts add up to the chunk. */
  lemma {:induction false} SeenWhatWasSent(hashes: seq<Hash>, n: nat, seen: seq<int>, k: nat)
    requires n >= 1 && k <= n == |seen|
    requires forall i: nat | i < k :: seen[i] == |Routed(hashes, n, i)| - 1
    ensures SeenSizes(seen, k) == PartSizes(hashes, n, k)
  {
    if k > 0 {
      SeenWhatWasSent(hashes, n, seen, k - 1);
    }
  }

  lemma AddSizeWraps(count: nat, sum: int, ptr: int)
    requires count == sum % TWO64
    ensures AddSize(count, ptr) == (sum + ptr + 1) % TWO64
  {
    var q, r := sum / TWO64, ptr / TWO64;
    assert sum == q * TWO64 + count && ptr == r * TWO64 + ptr % TWO64;
    Mod64(count + ptr % TWO64 + 1, q + r);
    AddWraps(count, ptr % TWO64 + 1);
  }

  lemma Mod64(x: int, k: int)
    ensures (x + k * TWO64) % TWO64 == x % TWO64
  {
  }

  lemma AddWraps(a: nat, b: nat)
    ensures (a + b % TWO64) % TWO64 == (a + b) % TWO64
  {
    Mod64(a + b % TWO64, b / TWO64);
  }

  /** No other worker has had a carrier in hand between its send and the read of its index. */
  ghost predicate Undisturbed(cs: seq<Carrier>, seen: seq<int>)
    reads cs
  {
    |seen| == |cs| && forall i: nat | i < |cs| :: seen[i] == cs[i].ptr
  }

  /** The first parts of the chunk have been sent, each to its counter. */
  ghost predicate PartsSent(sent: seq<seq<Hash>>, hashes: seq<Hash>, n: nat)
    requires n >= 1
  {
    forall i: nat | i < |sent| :: sent[i] == Routed(hashes, n, i)
  }

  lemma OnePartMore(sent: seq<seq<Hash>>, hashes: seq<Hash>, n: nat, part: seq<Hash>)
    requires n >= 1 && PartsSent(sent, hashes, n) && part == Routed(hashes, n, |sent|)
    ensures PartsSent(sent + [part], hashes, n)
  {
  }

  lemma SizeSeen(cs: seq<Carrier>, seen: seq<int>, hashes: seq<Hash>, i: nat)
    requires |cs| >= 1 && Holds(cs, hashes) && |hashes| < TWO64 && Undisturbed(cs, seen) && i < |cs|
    ensures AddSize(PartSizes(hashes, |cs|, i), seen[i]) == PartSizes(hashes, |cs|, i + 1)
  {
    NextSize(hashes, |cs|, i);
    assert seen[i] == |cs[i].Load()| - 1;
  }

  /**
   * The end of a chunk: every carrier goes to its counter, and only then its index is read. By that
   * time another worker may have it, so `seen` is what the reads find; the chunk size is right if
   * they find what was sent.
   */
  method SendChunk(cs: seq<Carrier>, seen: seq<int>, ghost hashes: seq<Hash>)
    returns (sent: seq<seq<Hash>>, chunkcount: nat)
    requires |cs| >= 1 && Holds(cs, hashes) && |hashes| < TWO64 && |seen| == |cs|
    ensures |sent| == |cs| && PartsSent(sent, hashes, |cs|)
    ensures chunkcount == SeenSizes(seen, |cs|) % TWO64
    ensures Undisturbed(cs, seen) ==> chunkcount == |hashes|
  {
    sent, chunkcount := [], 0;
    ghost var calm := Undisturbed(cs, seen);
    for i := 0 to |cs|
      invariant |sent| == i && PartsSent(sent, hashes, |cs|)
      invariant calm ==> chunkcount == PartSizes(hashes, |cs|, i)
      invariant chunkcount == SeenSizes(seen, i) % TWO64
    {
      var part := cs[i].buf[..cs[i].ptr + 1];
      assert part == cs[i].Load();
      OnePartMore(sent, hashes, |cs|, part);
      sent := sent + [part];
      if calm {
        SizeSeen(cs, seen, hashes, i);
      }
      AddSizeWraps(chunkcount, SeenSizes(seen, i), seen[i]);
      chunkcount := AddSize(chunkcount, seen[i]);
    }
    PartsMakeTheChunk(hashes, |cs|, |cs|);
  }

  // ---------------------------------------------------------------- the shared table

  /** One cell for every hash. */
  type Cells = c: seq<nat> | |c| == HASHES witness seq(HASHES, _ => 0)

  /** One carrier added to the table, cell by cell modulo 65536. */
  function AddLoad(cells: Cells, load: seq<Hash>): (r: Cells) {
    if load == [] then cells
    else
      var before := AddLoad(cells, load[..|load| - 1]);
      var v := load[|load| - 1];
      before[v := (before[v] + 1) % CELL]
  }

  /** The inner loop of `sumcounter`, on the table in place. */
  method AddCarrier(results: array<nat>, buf: seq<Hash>, ptr: int)
    requires results.Length == HASHES && -1 <= ptr < |buf|
    modifies results
    ensures results[..] == AddLoad(old(results[..]), buf[..ptr + 1])
  {
    var i := 0;
    while i <= ptr
      invariant 0 <= i <= ptr + 1
      invariant results[..] == AddLoad(old(results[..]), buf[..i])
    {
      assert buf[..i + 1][..i] == buf[..i];
      results[buf[i]] := (results[buf[i]] + 1) % CELL;
      i := i + 1;
    }
  }

  function Bag(load: seq<Hash>): (r: multiset<Hash>) {
    multiset(load)
  }

  lemma ModSucc(a: nat)
    ensures (a % CELL + 1) % CELL == (a + 1) % CELL
  {
  }

  lemma {:induction false} AddLoadCounts(cells: Cells, load: seq<Hash>, v: Hash, seen: nat)
    requires cells[v] == seen % CELL
    ensures AddLoad(cells, load)[v] == (seen + Bag(load)[v]) % CELL
  {
    if load != [] {
      var front, last := load[..|load| - 1], load[|load| - 1];
      assert load == front + [last];
      AddLoadCounts(cells, front, v, seen);
      ModSucc(seen + Bag(front)[v]);
    }
  }

  lemma {:induction false} Untouched(cells: Cells, load: seq<Hash>, v: Hash)
    requires forall k | 0 <= k < |load| :: load[k] != v
    ensures AddLoad(cells, load)[v] == cells[v]
  {
    if load != [] {
      Untouched(cells, load[..|load| - 1], v);
    }
  }
}
