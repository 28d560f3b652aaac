/** The service on any stream, however it is cut into reads: when it answers, and with which response. */
module HttpReads {
  import opened Bytes
  import opened HttpParsers
  import opened HttpService
  import opened HttpFragments

  // ---------------------------------------------------------------- when a stream is answered

  /** Some window of the stream shows the header end. */
  ghost predicate Noticed(stream: seq<Byte>) {
    NoticedBy(PARSERS, stream, |stream|)
  }

  lemma AcceptsMeans(stream: seq<Byte>)
    ensures PARSERS.accepts(stream) <==> StartsWithMethod(stream)
  {
    MethodParserMeaning(stream);
  }

  /**
   * Exactly when a stream of any length is answered: it starts with an accepted method and one of the
   * windows of the part that is read shows the header end. The buffer then holds the window the last
   * read ended in, and the cut into reads, with up to two empty ones, matters only for how far beyond
   * 131072 bytes the last read goes.
   */
  lemma AnsweredExactlyWhenNoticed(s: Conn, stream: seq<Byte>, frags: seq<seq<Byte>>)
    requires s.phase.KeepAlive? && (s.tally.total == 0 || s.keepAlive) && Flatten(frags) == stream
    requires EmptyReads(frags) <= MAX_EMPTY_IO && Fits(PARSERS, Begin(s).intake, frags)
    ensures Reading(Begin(s)) && (PARSERS.accepts(stream) <==> StartsWithMethod(stream))
    ensures Decided(PARSERS, stream, ReadLimit(0, frags), Feed(PARSERS, Begin(s).intake, frags))
  {
    var b := Begin(s).intake;
    assert stream[b.requestBytes..] == stream;
    ParsersStable();
    AcceptsMeans(stream);
    NothingSeen(PARSERS, stream, b.requestBytes);
    FeedMeaning(PARSERS, b, stream, b.requestBytes, frags, ReadLimit(0, frags));
  }

  lemma NothingSeen(j: Judge, stream: seq<Byte>, k: nat)
    requires Stable(j) && k == 0
    ensures NotYetSeen(j, stream, k)
  {
  }

  /** Up to 131072 bytes the cut has no part in it. */
  lemma CutDoesNotMatter(s: Conn, stream: seq<Byte>, frags: seq<seq<Byte>>)
    requires s.phase.KeepAlive? && (s.tally.total == 0 || s.keepAlive) && Flatten(frags) == stream
    requires EmptyReads(frags) <= MAX_EMPTY_IO && Fits(PARSERS, Begin(s).intake, frags)
    requires |stream| <= MAX_HEADER_READ_SIZE
    ensures Feed(PARSERS, Begin(s).intake, frags).verdict.Complete? <==> StartsWithMethod(stream) && Noticed(stream)
  {
    AnsweredExactlyWhenNoticed(s, stream, frags);
    LimitIsAll(0, frags);
  }

  // ---------------------------------------------------------------- requests

  /** A request: accepted method, and the header end is seen with its last byte, not before. */
  ghost predicate Request(j: Judge, req: seq<Byte>) {
    && 1 <= |req| <= MAX_HEADER_READ_SIZE && j.accepts(req)
    && SeenAt(j, req, |req|) && NotYetSeen(j, req, |req| - 1)
  }

  /** The last fragment of a request completes it, and no earlier one does. */
  ghost predicate Advanced(j: Judge, i: Intake, req: seq<Byte>, k: nat, m: nat, t: Taken) {
    if m == |req| then t.verdict.Complete? && t.intake.live == Window(req, |req|)
    else ReadsOn(t) && HalfRead(j, t.intake, req, m)
         && t.intake.emptyReads == i.emptyReads + if k == m then 1 else 0
  }

  lemma FurtherOrDone(j: Judge, i: Intake, req: seq<Byte>, k: nat, m: nat, t: Taken)
    requires Request(j, req) && k < m <= |req| && ReadTo(j, i, req, m, t)
    ensures Advanced(j, i, req, k, m, t)
  {
    assert m < |req| ==> !SeenAt(j, req, m);
  }

  lemma RequestRead(j: Judge, i: Intake, req: seq<Byte>, k: nat, m: nat)
    requires Stable(j) && Request(j, req) && HalfRead(j, i, req, k) && k <= m <= |req| && k < |req|
    requires LegalRead(i, Read(req[k..m], false)) && (k == m ==> i.emptyReads < MAX_EMPTY_IO)
    ensures Advanced(j, i, req, k, m, ReadBy(j, i, req[k..m]))
  {
    if k < m {
      OneRead(j, i, req, k, m);
      FurtherOrDone(j, i, req, k, m, ReadBy(j, i, req[k..m]));
    } else {
      assert req[k..m] == [];
    }
  }

  /** The rest of a request is still to come, in fragments of which the last brings bytes. */
  ghost predicate Coming(j: Judge, i: Intake, req: seq<Byte>, k: nat, frags: seq<seq<Byte>>) {
    && HalfRead(j, i, req, k) && k < |req|
    && frags != [] && frags[|frags| - 1] != [] && Flatten(frags) == req[k..]
    && i.emptyReads + EmptyReads(frags) <= MAX_EMPTY_IO
  }

  lemma {:induction false} SomethingLeft(frags: seq<seq<Byte>>)
    requires frags != [] && frags[|frags| - 1] != []
    ensures Flatten(frags) != []
  {
    if |frags| > 1 {
      SomethingLeft(frags[1..]);
    }
  }

  /** With `t` the request is complete, or the rest is still to come. */
  ghost predicate CompleteOrComing(j: Judge, req: seq<Byte>, m: nat, rest: seq<seq<Byte>>, t: Taken) {
    if rest == [] then t.verdict.Complete? && t.intake.live == Window(req, |req|)
    else ReadsOn(t) && Coming(j, t.intake, req, m, rest)
  }

  lemma ComingNext(j: Judge, i: Intake, req: seq<Byte>, k: nat, m: nat, frags: seq<seq<Byte>>, t: Taken)
    requires Coming(j, i, req, k, frags) && k + |frags[0]| == m <= |req|
    requires Flatten(frags[1..]) == req[m..] && Advanced(j, i, req, k, m, t)
    ensures CompleteOrComing(j, req, m, frags[1..], t)
  {
    var rest := frags[1..];
    if |frags| > 1 {
      assert rest[|rest| - 1] == frags[|frags| - 1];
      SomethingLeft(rest);
    }
  }

  lemma ComingStep(j: Judge, i: Intake, req: seq<Byte>, k: nat, m: nat, frags: seq<seq<Byte>>)
    requires Stable(j) && Request(j, req) && Coming(j, i, req, k, frags)
    requires LegalRead(i, Read(frags[0], false)) && m == k + |frags[0]|
    ensures CompleteOrComing(j, req, m, frags[1..], ReadBy(j, i, frags[0]))
  {
    TakeFragment(frags, req, k);
    RequestRead(j, i, req, k, m);
    ComingNext(j, i, req, k, m, frags, ReadBy(j, i, frags[0]));
  }

  // ---------------------------------------------------------------- whole runs

  /** The request has been read: it waits in its buffer to be parsed, or it is being answered. */
  ghost predicate Served(replies: Replies, s: Conn, t: Conn, live: seq<Byte>) {
    || (t.phase.ReadReqDone? && t.intake.live == live && t.tally == s.tally)
    || (&& (t.phase.SendBody? || t.phase.KeepAlive? || t.phase.WriteClosed?)
        && t.tally == Count(s.tally) && t.keepAlive == KeepAliveOf(live)
        && t.outflow.out == Response(replies, t.keepAlive))
  }

  /** The passes of the loop see the fragments in order, whatever the writes do. */
  ghost predicate Sees(ios: seq<Io>, frags: seq<seq<Byte>>) {
    |ios| == |frags| && forall k | 0 <= k < |ios| :: ios[k].rd == Read(frags[k], false)
  }

  lemma SeesRest(ios: seq<Io>, frags: seq<seq<Byte>>)
    requires Sees(ios, frags) && frags != []
    ensures Sees(ios[1..], frags[1..])
  {
  }

  /** What a pass does, given what its read makes of the intake. */
  lemma CompletePass(replies: Replies, s: Conn, io: Io, t: Taken)
    requires Reading(s) && LegalIo(replies, s, io) && t == OnRead(s.intake, io.rd) && t.verdict.Complete?
    ensures Served(replies, s, Iterate(replies, s, io), t.intake.live)
  {
  }

  lemma UnfinishedPass(replies: Replies, s: Conn, io: Io, t: Taken)
    requires Reading(s) && LegalIo(replies, s, io) && t == OnRead(s.intake, io.rd) && ReadsOn(t)
    ensures var n := Iterate(replies, s, io);
            Reading(n) && n.intake == t.intake && n.tally == s.tally
  {
  }

  /** The pass serves the request, or leaves the rest of it to come. */
  ghost predicate PassedOn(replies: Replies, s: Conn, req: seq<Byte>, m: nat, rest: seq<seq<Byte>>, n: Conn) {
    if rest == [] then Served(replies, s, n, Window(req, |req|))
    else Reading(n) && n.tally == s.tally && Coming(PARSERS, n.intake, req, m, rest)
  }

  lemma FragmentPass(replies: Replies, s: Conn, req: seq<Byte>, k: nat, m: nat, frags: seq<seq<Byte>>, io: Io)
    requires Reading(s) && Request(PARSERS, req) && Coming(PARSERS, s.intake, req, k, frags)
    requires io.rd == Read(frags[0], false) && LegalIo(replies, s, io) && m == k + |frags[0]|
    ensures PassedOn(replies, s, req, m, frags[1..], Iterate(replies, s, io))
  {
    var t := ReadBy(PARSERS, s.intake, frags[0]);
    ServiceReads(s.intake, frags[0]);
    ParsersStable();
    ComingStep(PARSERS, s.intake, req, k, m, frags);
    if frags[1..] == [] {
      CompletePass(replies, s, io, t);
    } else {
      UnfinishedPass(replies, s, io, t);
    }
  }

  lemma {:induction false} ServeFragments(
    replies: Replies, s: Conn, req: seq<Byte>, k: nat, frags: seq<seq<Byte>>, ios: seq<Io>)
    requires Reading(s) && Request(PARSERS, req) && Coming(PARSERS, s.intake, req, k, frags)
    requires Sees(ios, frags) && LegalRun(replies, s, ios)
    ensures Served(replies, s, Run(replies, s, ios), Window(req, |req|))
    decreases |frags|
  {
    var m, n := k + |frags[0]|, Iterate(replies, s, ios[0]);
    FragmentPass(replies, s, req, k, m, frags, ios[0]);
    if |frags| > 1 {
      SeesRest(ios, frags);
      ServeFragments(replies, n, req, m, frags[1..], ios[1..]);
    }
  }

  /** The first pass over a request begins it and reads at once. */
  lemma BeginFirst(replies: Replies, s: Conn, ios: seq<Io>)
    requires s.phase.KeepAlive? && Reading(Begin(s)) && ios != [] && LegalRun(replies, s, ios)
    ensures LegalRun(replies, Begin(s), ios) && Run(replies, Begin(s), ios) == Run(replies, s, ios)
  {
    var b, io := Begin(s), ios[0];
    assert LegalIo(replies, b, io) && Iterate(replies, b, io) == Iterate(replies, s, io);
  }

  /**
   * However a request is cut into error-free reads, with up to two empty ones among them, the run
   * ends with its last window waiting in the buffer, or with the response that window asks for.
   */
  lemma FragmentationIndependence(
    replies: Replies, s: Conn, req: seq<Byte>, frags: seq<seq<Byte>>, ios: seq<Io>)
    requires s.phase.KeepAlive? && (s.tally.total == 0 || s.keepAlive) && Request(PARSERS, req)
    requires frags != [] && frags[|frags| - 1] != [] && Flatten(frags) == req
    requires EmptyReads(frags) <= MAX_EMPTY_IO && Sees(ios, frags) && LegalRun(replies, s, ios)
    ensures Served(replies, s, Run(replies, s, ios), Window(req, |req|))
  {
    var b := Begin(s);
    assert req[b.intake.requestBytes..] == req;
    BeginFirst(replies, s, ios);
    ServeFragments(replies, b, req, b.intake.requestBytes, frags, ios);
  }

  // ---------------------------------------------------------------- up to one header buffer

  /** Up to 128 bytes nothing is dropped: the window is everything read so far. */
  lemma ShortWindow(stream: seq<Byte>, k: nat)
    requires k <= |stream| && k <= MAX_HEADER_SIZE
    ensures Window(stream, k) == stream[..k]
  {
  }

  lemma SeenGrows(j: Judge, stream: seq<Byte>, k: nat, m: nat)
    requires Stable(j) && k <= m <= |stream| && m <= MAX_HEADER_SIZE && SeenAt(j, stream, k)
    ensures SeenAt(j, stream, m)
  {
    assert Window(stream, k) + stream[k..m] == Window(stream, m);
  }

  lemma SeenBy(j: Judge, stream: seq<Byte>)
    requires Stable(j) && |stream| <= MAX_HEADER_SIZE
    ensures NoticedBy(j, stream, |stream|) <==> SeenAt(j, stream, |stream|)
  {
    if k: nat :| k <= |stream| && SeenAt(j, stream, k) {
      SeenGrows(j, stream, k, |stream|);
    }
  }

  /** Up to 128 bytes the stream is noticed if and only if the parser finds the end in all of it. */
  lemma ShortStream(stream: seq<Byte>)
    requires |stream| <= MAX_HEADER_SIZE
    ensures Noticed(stream) <==> SeenAt(PARSERS, stream, |stream|)
  {
    ParsersStable();
    SeenBy(PARSERS, stream);
  }

  lemma NewlySeen(j: Judge, req: seq<Byte>, n: nat)
    requires Stable(j) && n < |req| <= MAX_HEADER_SIZE && !SeenAt(j, req, n)
    ensures NotYetSeen(j, req, n)
  {
    if k: nat :| k <= n && SeenAt(j, req, k) {
      SeenGrows(j, req, k, n);
    }
  }

  /** Up to 128 bytes a request is what the parser accepts as a whole but not without its last byte. */
  lemma ShortRequest(req: seq<Byte>)
    requires 1 <= |req| <= MAX_HEADER_SIZE && StartsWithMethod(req)
    ensures Request(PARSERS, req) <==> SeenAt(PARSERS, req, |req|) && !SeenAt(PARSERS, req, |req| - 1)
  {
    ParsersStable();
    AcceptsMeans(req);
    if !SeenAt(PARSERS, req, |req| - 1) {
      NewlySeen(PARSERS, req, |req| - 1);
    }
  }

  // ---------------------------------------------------------------- beyond one header buffer

  lemma HiddenAt(stream: seq<Byte>, k: nat)
    requires k <= |stream| == MAX_HEADER_SIZE + 4 && LF !in stream[..MAX_HEADER_SIZE]
    requires stream[MAX_HEADER_SIZE..] == [CR, LF, CR, LF]
    ensures !SeenAt(PARSERS, stream, k)
  {
    var w := Window(stream, k);
    if k <= MAX_HEADER_SIZE + 1 {
      assert stream[MAX_HEADER_SIZE] == CR;
      assert LF !in w;
    } else {
      assert WindowStart(k) == STRIDE;
      IndexByteIs(w, LF, TAIL_HEADER_SIZE + 1);
    }
  }

  /**
   * Beyond 128 bytes a stream that deserves a response may get none: the four retained bytes count
   * as the start of a line, so a header end right behind the first window is taken for a short line.
   */
  lemma RetainedTailHidesHeaderEnd(head: seq<Byte>)
    requires |head| == MAX_HEADER_SIZE && StartsWithMethod(head) && LF !in head
    ensures var stream := head + [CR, LF, CR, LF];
            Deserved(stream) && !Noticed(stream)
  {
    var stream := head + [CR, LF, CR, LF];
    assert OccursAt(stream, [CR, LF, CR, LF], MAX_HEADER_SIZE);
    forall k: nat | k <= |stream|
      ensures !SeenAt(PARSERS, stream, k)
    {
      HiddenAt(stream, k);
    }
  }
}
