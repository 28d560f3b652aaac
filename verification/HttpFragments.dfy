/**
 * How a stream is cut into reads does not matter. The header buffer is reused every 124 bytes, so what
 * the service sees of a stream after `k` bytes is a window that depends on `k` alone. The argument
 * needs little of the parsers, so it is made for any pair of tests that later bytes cannot revoke.
 */
module HttpFragments {
  import opened Bytes
  import opened HttpParsers
  import opened HttpService

  const STRIDE: nat := MAX_HEADER_SIZE - TAIL_HEADER_SIZE

  // ---------------------------------------------------------------- windows

  /** Where the buffer starts when the header end is looked for after `k` bytes of the stream. */
  function WindowStart(k: nat): (n: nat)
    ensures n <= k <= n + MAX_HEADER_SIZE && (n > 0 ==> n + TAIL_HEADER_SIZE < k)
  {
    if k <= MAX_HEADER_SIZE then 0 else WindowStart(k - STRIDE) + STRIDE
  }

  function Window(stream: seq<Byte>, k: nat): (r: seq<Byte>)
    requires k <= |stream|
  {
    stream[WindowStart(k)..k]
  }

  /** A read never crosses the end of the buffer, so it extends the window it starts in. */
  lemma {:induction false} ReadStaysInWindow(k: nat, m: nat)
    requires k < m <= WindowStart(k + 1) + MAX_HEADER_SIZE
    ensures WindowStart(m) == WindowStart(k + 1)
  {
    if k + 1 > MAX_HEADER_SIZE {
      ReadStaysInWindow(k - STRIDE, m - STRIDE);
    }
  }

  /** After a full window the last four bytes are kept, otherwise everything is. */
  lemma {:induction false} NextStart(k: nat)
    ensures WindowStart(k + 1) == if k == WindowStart(k) + MAX_HEADER_SIZE then k - TAIL_HEADER_SIZE else WindowStart(k)
  {
    if k > MAX_HEADER_SIZE {
      NextStart(k - STRIDE);
    }
  }

  // ---------------------------------------------------------------- the two tests

  /** The method test and the header-end test on the live bytes. */
  datatype Judge = Judge(accepts: seq<Byte> -> bool, ends: seq<Byte> -> bool)

  /** Later bytes do not revoke a header end, nor change the verdict on a method of six bytes. */
  ghost predicate Stable(j: Judge) {
    && (forall a, b :: j.ends(a) ==> j.ends(a + b))
    && (forall a :: j.ends(a) ==> |a| > MINI_HEADER_SIZE)
    && (forall a, b | |a| >= MINI_HEADER_SIZE :: j.accepts(a + b) == j.accepts(a))
    && (forall a :: j.accepts(a) ==> |a| >= MINI_HEADER_SIZE)
  }

  /** An error-free read, with the tests left open. */
  function ReadBy(j: Judge, i: Intake, frag: seq<Byte>): (t: Taken) {
    if frag == [] then
      if i.emptyReads >= MAX_EMPTY_IO then Taken(i, Hangup) else Taken(i.(emptyReads := i.emptyReads + 1), Unchanged)
    else
      var i1 := Absorb(i, frag);
      Digest(i1, j.accepts(i1.live), j.ends(i1.live), false)
  }

  function Accepts(buf: seq<Byte>): (yes: bool) {
    AcceptedMethod(MethodParser(buf))
  }

  function Ends(buf: seq<Byte>): (yes: bool) {
    UriCodeOf(buf).Found?
  }

  /** The tests of the service. */
  const PARSERS := Judge(Accepts, Ends)

  lemma FoundIsLong(buf: seq<Byte>)
    requires UriCodeOf(buf).Found?
    ensures |buf| > MINI_HEADER_SIZE
  {
    assert IndexByte(buf, LF) < |buf|;
  }

  lemma ParsersStable()
    ensures Stable(PARSERS)
  {
    forall a, b
      ensures Ends(a) ==> Ends(a + b)
      ensures |a| >= MINI_HEADER_SIZE ==> Accepts(a + b) == Accepts(a)
    {
      if Ends(a) { UriCodeStable(a, b); }
      if |a| >= MINI_HEADER_SIZE { MethodParserStable(a, b); }
    }
    forall a
      ensures Ends(a) ==> |a| > MINI_HEADER_SIZE
    {
      if Ends(a) { FoundIsLong(a); }
    }
  }

  /** The read of the service is the read with its own tests. */
  lemma ServiceReads(i: Intake, frag: seq<Byte>)
    ensures OnRead(i, Read(frag, false)) == ReadBy(PARSERS, i, frag)
  {
  }

  // ---------------------------------------------------------------- what is seen of a stream

  /** The header end is seen after exactly `k` bytes. */
  predicate SeenAt(j: Judge, stream: seq<Byte>, k: nat)
    requires k <= |stream|
  {
    j.ends(Window(stream, k))
  }

  /** One of the windows of the first `n` bytes shows the header end: a caller can compute this from the bytes. */
  ghost predicate NoticedBy(j: Judge, stream: seq<Byte>, n: nat) {
    exists k: nat | k <= n && k <= |stream| :: SeenAt(j, stream, k)
  }

  ghost predicate NotYetSeen(j: Judge, stream: seq<Byte>, k: nat)
    requires k <= |stream|
  {
    forall l: nat | l <= k :: !SeenAt(j, stream, l)
  }

  /** If a read that ends at `m` does not show the header end, no shorter read would have. */
  lemma SeenLater(j: Judge, stream: seq<Byte>, k: nat, l: nat, m: nat)
    requires Stable(j) && k < l <= m <= |stream| && m <= WindowStart(k + 1) + MAX_HEADER_SIZE
    requires SeenAt(j, stream, l)
    ensures SeenAt(j, stream, m)
  {
    ReadStaysInWindow(k, l);
    ReadStaysInWindow(k, m);
    assert Window(stream, m) == Window(stream, l) + stream[l..m];
  }

  lemma StillNotSeen(j: Judge, stream: seq<Byte>, k: nat, m: nat)
    requires Stable(j) && k <= m <= |stream| && m <= WindowStart(k + 1) + MAX_HEADER_SIZE
    requires NotYetSeen(j, stream, k) && !SeenAt(j, stream, m)
    ensures NotYetSeen(j, stream, m)
  {
    forall l: nat | l <= m
      ensures !SeenAt(j, stream, l)
    {
      if k < l && SeenAt(j, stream, l) {
        SeenLater(j, stream, k, l, m);
      }
    }
  }

  // ---------------------------------------------------------------- one read

  /** The first `k` bytes of the stream have been read, without an answer so far. */
  ghost predicate HalfRead(j: Judge, i: Intake, stream: seq<Byte>, k: nat) {
    && k <= |stream| && i.requestBytes == k < MAX_HEADER_READ_SIZE
    && i.live == stream[WindowStart(k + 1)..k]
    && (i.methodOk <==> k >= MINI_HEADER_SIZE)
    && (k >= MINI_HEADER_SIZE ==> j.accepts(stream))
  }

  predicate ReadsOn(t: Taken) {
    t.verdict.Unchanged? || t.verdict.NeedHeader?
  }

  /** The live bytes after a read are the window it ends in. */
  lemma AbsorbsWindow(j: Judge, i: Intake, stream: seq<Byte>, k: nat, m: nat)
    requires HalfRead(j, i, stream, k) && k < m <= |stream|
    requires LegalRead(i, Read(stream[k..m], false))
    ensures m <= WindowStart(k + 1) + MAX_HEADER_SIZE
    ensures Absorb(i, stream[k..m]).live == Window(stream, m)
    ensures !i.methodOk ==> WindowStart(m) == 0
  {
    ReadStaysInWindow(k, m);
    assert stream[WindowStart(m)..k] + stream[k..m] == stream[WindowStart(m)..m];
  }

  lemma KeepsWindow(stream: seq<Byte>, m: nat)
    requires m <= |stream|
    ensures var w := Window(stream, m);
            stream[WindowStart(m + 1)..m]
            == if |w| >= MAX_HEADER_SIZE then w[|w| - TAIL_HEADER_SIZE..] else w
  {
    NextStart(m);
  }

  lemma PrefixAccepted(j: Judge, stream: seq<Byte>, k: nat)
    requires Stable(j) && MINI_HEADER_SIZE <= k <= |stream|
    ensures j.accepts(stream[..k]) == j.accepts(stream)
  {
    assert stream[..k] + stream[k..] == stream;
  }

  /** What a read that ends at `m` makes of the intake. */
  ghost predicate ReadTo(j: Judge, i: Intake, stream: seq<Byte>, m: nat, t: Taken)
    requires m <= |stream|
  {
    && t.intake.emptyReads == i.emptyReads && t.intake.requestBytes == m
    && (t.verdict.Complete? <==> j.accepts(stream) && SeenAt(j, stream, m))
    && (t.verdict.Complete? ==> t.intake.live == Window(stream, m))
    && (ReadsOn(t) ==> HalfRead(j, t.intake, stream, m))
    && (m < MAX_HEADER_READ_SIZE && j.accepts(stream) ==> !t.verdict.Hangup?)
  }

  lemma AfterRead(j: Judge, i: Intake, stream: seq<Byte>, m: nat, accepted: bool, found: bool)
    requires m <= |stream| && i.live == Window(stream, m) && i.requestBytes == m
    requires found == SeenAt(j, stream, m) && (found ==> m > MINI_HEADER_SIZE)
    requires m >= MINI_HEADER_SIZE && !i.methodOk ==> accepted == j.accepts(stream)
    requires j.accepts(stream) ==> |stream| >= MINI_HEADER_SIZE
    requires i.methodOk ==> j.accepts(stream) && m >= MINI_HEADER_SIZE
    requires var w := Window(stream, m);
             stream[WindowStart(m + 1)..m] == if |w| >= MAX_HEADER_SIZE then w[|w| - TAIL_HEADER_SIZE..] else w
    ensures ReadTo(j, i, stream, m, Digest(i, accepted, found, false))
  {
  }

  /** A read that brings bytes: the answer is complete exactly when the window shows the header end. */
  lemma OneRead(j: Judge, i: Intake, stream: seq<Byte>, k: nat, m: nat)
    requires Stable(j) && HalfRead(j, i, stream, k) && k < m <= |stream|
    requires LegalRead(i, Read(stream[k..m], false))
    ensures ReadTo(j, i, stream, m, ReadBy(j, i, stream[k..m]))
  {
    var i1 := Absorb(i, stream[k..m]);
    AbsorbsWindow(j, i, stream, k, m);
    KeepsWindow(stream, m);
    if m >= MINI_HEADER_SIZE {
      PrefixAccepted(j, stream, m);
    }
    AfterRead(j, i1, stream, m, j.accepts(i1.live), j.ends(i1.live));
  }

  // ---------------------------------------------------------------- any number of reads

  /** Reads one fragment after the other until a verdict ends the read phase. */
  function Feed(j: Judge, i: Intake, frags: seq<seq<Byte>>): (t: Taken)
    decreases |frags|
  {
    if frags == [] then Taken(i, Unchanged)
    else
      var t := ReadBy(j, i, frags[0]);
      if ReadsOn(t) then Feed(j, t.intake, frags[1..]) else t
  }

  /** Every fragment fits into the slice offered to its Read. */
  predicate Fits(j: Judge, i: Intake, frags: seq<seq<Byte>>)
    decreases |frags|
  {
    frags == []
    || (var t := ReadBy(j, i, frags[0]);
        LegalRead(i, Read(frags[0], false)) && (ReadsOn(t) ==> Fits(j, t.intake, frags[1..])))
  }

  function Flatten(frags: seq<seq<Byte>>): (r: seq<Byte>) {
    if frags == [] then [] else frags[0] + Flatten(frags[1..])
  }

  function EmptyReads(frags: seq<seq<Byte>>): (n: nat) {
    if frags == [] then 0 else (if frags[0] == [] then 1 else 0) + EmptyReads(frags[1..])
  }

  /**
   * How far the service reads: to the end of the first read that reaches 131072 bytes, or to the end of
   * the stream.
   */
  function ReadLimit(k: nat, frags: seq<seq<Byte>>): (n: nat)
    ensures n >= k
    ensures n == k || k < MAX_HEADER_READ_SIZE
    decreases |frags|
  {
    if frags == [] || k >= MAX_HEADER_READ_SIZE then k else ReadLimit(k + |frags[0]|, frags[1..])
  }

  /** A stream of at most 131072 bytes is read to its end, however it is cut; of a longer one at least that much. */
  lemma {:induction false} LimitIsAll(k: nat, frags: seq<seq<Byte>>)
    ensures ReadLimit(k, frags) <= k + |Flatten(frags)|
    ensures k + |Flatten(frags)| <= MAX_HEADER_READ_SIZE ==> ReadLimit(k, frags) == k + |Flatten(frags)|
    ensures k < MAX_HEADER_READ_SIZE <= k + |Flatten(frags)| ==> ReadLimit(k, frags) >= MAX_HEADER_READ_SIZE
    decreases |frags|
  {
    if frags != [] && k < MAX_HEADER_READ_SIZE {
      LimitIsAll(k + |frags[0]|, frags[1..]);
    }
  }

  lemma TakeFragment(frags: seq<seq<Byte>>, stream: seq<Byte>, k: nat)
    requires frags != [] && k <= |stream| && Flatten(frags) == stream[k..]
    ensures var m := k + |frags[0]|;
            m <= |stream| && frags[0] == stream[k..m] && Flatten(frags[1..]) == stream[m..]
  {
    var frag := frags[0];
    assert |Flatten(frags)| == |frag| + |Flatten(frags[1..])|;
    assert frag == stream[k..][..|frag|];
    assert Flatten(frags[1..]) == stream[k..][|frag|..];
  }

  /** The stream is answered exactly when its first `n` bytes ask for it, with the window the last read ended in. */
  ghost predicate Decided(j: Judge, stream: seq<Byte>, n: nat, t: Taken) {
    && (t.verdict.Complete? <==> j.accepts(stream) && NoticedBy(j, stream, n))
    && (t.verdict.Complete? ==>
          && t.intake.requestBytes <= |stream| && SeenAt(j, stream, t.intake.requestBytes)
          && t.intake.live == Window(stream, t.intake.requestBytes))
  }

  /** `n` is where reading stops, given that a read has just ended at `m`. */
  predicate Stops(m: nat, n: nat, stream: seq<Byte>) {
    m <= n <= |stream| && (m >= MAX_HEADER_READ_SIZE ==> n == m)
  }

  /** The intake after a read that does not end the phase. */
  ghost predicate ReadFurther(j: Judge, i: Intake, stream: seq<Byte>, k: nat, m: nat, i': Intake)
    requires m <= |stream|
  {
    && HalfRead(j, i', stream, m) && NotYetSeen(j, stream, m)
    && i'.emptyReads == i.emptyReads + if k == m then 1 else 0
  }

  /** What a read of stream[k..m] does: `t` reads on, or decides the stream. */
  ghost predicate Moved(j: Judge, i: Intake, stream: seq<Byte>, k: nat, m: nat, n: nat, t: Taken)
    requires m <= |stream|
  {
    if ReadsOn(t) then ReadFurther(j, i, stream, k, m, t.intake) else Decided(j, stream, n, t)
  }

  lemma SeenMoves(j: Judge, i: Intake, stream: seq<Byte>, k: nat, m: nat, n: nat, t: Taken)
    requires Stable(j) && k < m && Stops(m, n, stream) && SeenAt(j, stream, m) && ReadTo(j, i, stream, m, t)
    ensures Moved(j, i, stream, k, m, n, t)
  {
    assert NoticedBy(j, stream, n);
  }

  lemma UnseenMoves(j: Judge, i: Intake, stream: seq<Byte>, k: nat, m: nat, n: nat, t: Taken)
    requires k < m && Stops(m, n, stream) && NotYetSeen(j, stream, m) && ReadTo(j, i, stream, m, t)
    ensures Moved(j, i, stream, k, m, n, t)
  {
    assert !SeenAt(j, stream, m);
    assert n == m ==> !NoticedBy(j, stream, n);
  }

  /** A read of stream[k..m] may happen here. */
  ghost predicate MayRead(j: Judge, i: Intake, stream: seq<Byte>, k: nat, m: nat) {
    && HalfRead(j, i, stream, k) && k <= m <= |stream| && NotYetSeen(j, stream, k)
    && LegalRead(i, Read(stream[k..m], false)) && (k == m ==> i.emptyReads < MAX_EMPTY_IO)
  }

  lemma EmptyReadMoves(j: Judge, i: Intake, stream: seq<Byte>, k: nat, n: nat)
    requires MayRead(j, i, stream, k, k)
    ensures Moved(j, i, stream, k, k, n, ReadBy(j, i, stream[k..k]))
  {
    assert stream[k..k] == [];
  }

  /** A read that ends the phase decides the stream; any other keeps it half read and not yet seen. */
  lemma ReadMoves(j: Judge, i: Intake, stream: seq<Byte>, k: nat, m: nat, n: nat)
    requires Stable(j) && MayRead(j, i, stream, k, m) && Stops(m, n, stream)
    ensures Moved(j, i, stream, k, m, n, ReadBy(j, i, stream[k..m]))
  {
    if k == m {
      EmptyReadMoves(j, i, stream, k, n);
    } else {
      var t := ReadBy(j, i, stream[k..m]);
      OneRead(j, i, stream, k, m);
      if SeenAt(j, stream, m) {
        SeenMoves(j, i, stream, k, m, n, t);
      } else {
        AbsorbsWindow(j, i, stream, k, m);
        StillNotSeen(j, stream, k, m);
        UnseenMoves(j, i, stream, k, m, n, t);
      }
    }
  }

  /** The fragments bring the rest of a stream of which `k` bytes have been read. */
  ghost predicate Pending(j: Judge, i: Intake, stream: seq<Byte>, k: nat, frags: seq<seq<Byte>>) {
    && HalfRead(j, i, stream, k) && NotYetSeen(j, stream, k)
    && Flatten(frags) == stream[k..] && i.emptyReads + EmptyReads(frags) <= MAX_EMPTY_IO
  }

  lemma PendingNext(j: Judge, i: Intake, stream: seq<Byte>, k: nat, m: nat, frags: seq<seq<Byte>>, i': Intake)
    requires Pending(j, i, stream, k, frags) && frags != [] && k + |frags[0]| == m <= |stream|
    requires Flatten(frags[1..]) == stream[m..] && ReadFurther(j, i, stream, k, m, i')
    ensures Pending(j, i', stream, m, frags[1..])
  {
  }

  /** Where reading stops does not change when a fragment has been read. */
  lemma LimitStops(k: nat, stream: seq<Byte>, frags: seq<seq<Byte>>)
    requires frags != [] && k < MAX_HEADER_READ_SIZE && k <= |stream| && Flatten(frags) == stream[k..]
    ensures var m, n := k + |frags[0]|, ReadLimit(k, frags);
            n == ReadLimit(m, frags[1..]) && Stops(m, n, stream)
  {
    LimitIsAll(k, frags);
  }

  lemma PendingReads(j: Judge, i: Intake, stream: seq<Byte>, k: nat, m: nat, frags: seq<seq<Byte>>)
    requires Pending(j, i, stream, k, frags) && frags != [] && LegalRead(i, Read(frags[0], false))
    requires k + |frags[0]| == m <= |stream| && frags[0] == stream[k..m]
    ensures MayRead(j, i, stream, k, m)
  {
  }

  lemma PendingStep(j: Judge, i: Intake, stream: seq<Byte>, k: nat, frags: seq<seq<Byte>>, n: nat)
    requires Stable(j) && Pending(j, i, stream, k, frags)
    requires frags != [] && LegalRead(i, Read(frags[0], false)) && Stops(k + |frags[0]|, n, stream)
    ensures var t := ReadBy(j, i, frags[0]);
            if ReadsOn(t) then Pending(j, t.intake, stream, k + |frags[0]|, frags[1..]) else Decided(j, stream, n, t)
  {
    var m, t := k + |frags[0]|, ReadBy(j, i, frags[0]);
    TakeFragment(frags, stream, k);
    PendingReads(j, i, stream, k, m, frags);
    assert Moved(j, i, stream, k, m, n, t) by {
      ReadMoves(j, i, stream, k, m, n);
    }
    if ReadsOn(t) {
      PendingNext(j, i, stream, k, m, frags, t.intake);
    }
  }

  lemma NeverSeen(j: Judge, stream: seq<Byte>, t: Taken)
    requires NotYetSeen(j, stream, |stream|) && !t.verdict.Complete?
    ensures Decided(j, stream, |stream|, t)
  {
  }

  lemma {:induction false} FeedMeaning(
    j: Judge, i: Intake, stream: seq<Byte>, k: nat, frags: seq<seq<Byte>>, n: nat)
    requires Stable(j) && Pending(j, i, stream, k, frags)
    requires Fits(j, i, frags) && n == ReadLimit(k, frags)
    ensures Decided(j, stream, n, Feed(j, i, frags))
    decreases |frags|
  {
    if frags == [] {
      assert k == |stream|;
      NeverSeen(j, stream, Feed(j, i, frags));
    } else {
      LimitStops(k, stream, frags);
      PendingStep(j, i, stream, k, frags, n);
      var t := ReadBy(j, i, frags[0]);
      if ReadsOn(t) {
        FeedMeaning(j, t.intake, stream, k + |frags[0]|, frags[1..], n);
      }
    }
  }
}
