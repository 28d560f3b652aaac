/** A whole exchange: a request comes in, however it is cut, and its response goes out to the last byte. */
module HttpExchange {
  import opened Bytes
  import opened HttpParsers
  import opened HttpService
  import opened HttpFragments
  import opened HttpReads

  /** Every write takes at least one byte and reports no error. */
  ghost predicate GoodWrites(ios: seq<Io>) {
    forall k | 0 <= k < |ios| :: !ios[k].wr.err && ios[k].wr.n >= 1
  }

  /** Some number of the passes `ios` leads from `s` to `u`. */
  ghost predicate Leads(replies: Replies, s: Conn, ios: seq<Io>, u: Conn) {
    exists k | 0 <= k <= |ios| :: LegalRun(replies, s, ios[..k]) && Run(replies, s, ios[..k]) == u
  }

  lemma Here(replies: Replies, s: Conn, ios: seq<Io>)
    ensures Leads(replies, s, ios, s)
  {
    assert ios[..0] == [];
    assert LegalRun(replies, s, ios[..0]) && Run(replies, s, ios[..0]) == s;
  }

  lemma Further(replies: Replies, s: Conn, ios: seq<Io>, u: Conn)
    requires ios != [] && LegalIo(replies, s, ios[0]) && Leads(replies, Iterate(replies, s, ios[0]), ios[1..], u)
    ensures Leads(replies, s, ios, u)
  {
    var n := Iterate(replies, s, ios[0]);
    var k :| 0 <= k <= |ios[1..]| && LegalRun(replies, n, ios[1..][..k]) && Run(replies, n, ios[1..][..k]) == u;
    var all := ios[..k + 1];
    assert all[0] == ios[0] && all[1..] == ios[1..][..k];
    assert LegalRun(replies, s, all) && Run(replies, s, all) == u;
  }

  // ---------------------------------------------------------------- the response

  /** The response to request number `total` is complete on the wire, behind those to all earlier ones. */
  ghost predicate ReplySent(replies: Replies, total: nat, keep: bool, u: Conn) {
    && u.phase.KeepAlive? && u.tally.total == total >= 1 && u.keepAlive == keep
    && u.outflow.wire == Repeat(replies.keep, total - 1) + Response(replies, keep)
  }

  lemma SentIsReply(replies: Replies, u: Conn)
    requires Inv(replies, u) && u.phase.KeepAlive? && u.tally.total >= 1
    ensures ReplySent(replies, u.tally.total, u.keepAlive, u)
  {
  }

  /** A good write moves the response on, or completes it. */
  lemma GoodWrite(replies: Replies, t: Conn, io: Io)
    requires Inv(replies, t) && t.phase.SendBody? && LegalIo(replies, t, io) && !io.wr.err && io.wr.n >= 1
    ensures var n := Iterate(replies, t, io);
            && n.tally == t.tally && n.keepAlive == t.keepAlive && n.outflow.out == t.outflow.out
            && (n.phase.KeepAlive? || (n.phase.SendBody? && n.outflow.sent > t.outflow.sent))
  {
  }

  lemma {:induction false} FinishReply(replies: Replies, t: Conn, more: seq<Io>)
    requires Inv(replies, t) && t.phase.SendBody? && LegalRun(replies, t, more) && GoodWrites(more)
    requires |more| >= |t.outflow.out| - t.outflow.sent
    ensures exists u :: Leads(replies, t, more, u) && ReplySent(replies, t.tally.total, t.keepAlive, u)
    decreases |more|
  {
    var n := Iterate(replies, t, more[0]);
    GoodWrite(replies, t, more[0]);
    IterateKeeps(replies, t, more[0]);
    if n.phase.KeepAlive? {
      Here(replies, n, more[1..]);
      SentIsReply(replies, n);
      Further(replies, t, more, n);
    } else {
      FinishReply(replies, n, more[1..]);
      var u :| Leads(replies, n, more[1..], u) && ReplySent(replies, t.tally.total, t.keepAlive, u);
      Further(replies, t, more, u);
    }
  }

  /** The pass that parses a waiting request also writes. */
  lemma ParsePass(replies: Replies, t: Conn, keep: bool, io: Io)
    requires t.phase.ReadReqDone? && LegalIo(replies, t, io) && !io.wr.err && io.wr.n >= 1
    requires keep == KeepAliveOf(t.intake.live)
    ensures Parsed(replies, t.tally.total + 1, keep, Iterate(replies, t, io))
  {
  }

  /** The state after that pass: the response to request number `total` is under way. */
  ghost predicate Parsed(replies: Replies, total: nat, keep: bool, n: Conn) {
    && n.tally.total == total >= 1 && n.keepAlive == keep && n.outflow.out == Response(replies, keep)
    && (n.phase.KeepAlive? || (n.phase.SendBody? && n.outflow.sent >= 1))
  }

  lemma AnswerParsed(replies: Replies, total: nat, keep: bool, n: Conn, rest: seq<Io>)
    requires Inv(replies, n) && Parsed(replies, total, keep, n) && LegalRun(replies, n, rest) && GoodWrites(rest)
    requires |rest| >= |replies.keep| - 1 && |rest| >= |replies.close| - 1
    ensures exists u :: Leads(replies, n, rest, u) && ReplySent(replies, total, keep, u)
  {
    AnswerStarted(replies, n, rest);
  }

  lemma AnswerWaiting(replies: Replies, t: Conn, keep: bool, more: seq<Io>)
    requires Inv(replies, t) && t.phase.ReadReqDone? && LegalRun(replies, t, more) && GoodWrites(more)
    requires keep == KeepAliveOf(t.intake.live) && |more| >= |replies.keep| && |more| >= |replies.close|
    ensures exists u :: Leads(replies, t, more, u) && ReplySent(replies, t.tally.total + 1, keep, u)
  {
    var n, total := Iterate(replies, t, more[0]), t.tally.total + 1;
    ParsePass(replies, t, keep, more[0]);
    IterateKeeps(replies, t, more[0]);
    AnswerParsed(replies, total, keep, n, more[1..]);
    var u :| Leads(replies, n, more[1..], u) && ReplySent(replies, total, keep, u);
    Further(replies, t, more, u);
  }

  lemma AnswerStarted(replies: Replies, t: Conn, more: seq<Io>)
    requires Inv(replies, t) && (t.phase.SendBody? || t.phase.KeepAlive?) && t.tally.total >= 1
    requires LegalRun(replies, t, more) && GoodWrites(more)
    requires t.phase.SendBody? ==> |more| >= |t.outflow.out| - t.outflow.sent
    ensures exists u :: Leads(replies, t, more, u) && ReplySent(replies, t.tally.total, t.keepAlive, u)
  {
    if t.phase.SendBody? {
      FinishReply(replies, t, more);
    } else {
      Here(replies, t, more);
      SentIsReply(replies, t);
    }
  }

  /** From a state in which the request has been read, good writes complete its response. */
  lemma AnswerServed(replies: Replies, s: Conn, t: Conn, live: seq<Byte>, keep: bool, more: seq<Io>)
    requires Inv(replies, t) && Served(replies, s, t, live) && !t.phase.WriteClosed? && keep == KeepAliveOf(live)
    requires LegalRun(replies, t, more) && GoodWrites(more)
    requires |more| >= |replies.keep| && |more| >= |replies.close|
    ensures exists u :: Leads(replies, t, more, u) && ReplySent(replies, s.tally.total + 1, keep, u)
  {
    if t.phase.ReadReqDone? {
      AnswerWaiting(replies, t, keep, more);
    } else {
      assert t.tally.total == s.tally.total + 1 && t.keepAlive == keep;
      AnswerStarted(replies, t, more);
    }
  }

  lemma NoWriteErrorNow(replies: Replies, s: Conn, io: Io)
    requires !s.phase.WriteClosed? && LegalIo(replies, s, io) && !io.wr.err && io.wr.n >= 1
    ensures !Iterate(replies, s, io).phase.WriteClosed?
  {
  }

  lemma {:induction false} NoWriteError(replies: Replies, s: Conn, ios: seq<Io>)
    requires !s.phase.WriteClosed? && LegalRun(replies, s, ios) && GoodWrites(ios)
    ensures !Run(replies, s, ios).phase.WriteClosed?
    decreases |ios|
  {
    if ios != [] {
      NoWriteErrorNow(replies, s, ios[0]);
      NoWriteError(replies, Iterate(replies, s, ios[0]), ios[1..]);
    }
  }

  // ---------------------------------------------------------------- the exchange

  /** Ready for a request: new, or the last response left the connection open. */
  ghost predicate Ready(replies: Replies, s: Conn) {
    Inv(replies, s) && s.phase.KeepAlive? && (s.tally.total == 0 || s.keepAlive)
  }

  lemma WireWhenReady(replies: Replies, s: Conn)
    requires Ready(replies, s)
    ensures s.outflow.wire == Repeat(replies.keep, s.tally.total)
  {
  }

  /**
   * A request that is read without errors, however it is cut, and answered with writes that each take
   * at least a byte gets its whole response: behind everything written before, the response that its
   * last window asks for.
   */
  lemma ExchangeCompletes(
    replies: Replies, s: Conn, req: seq<Byte>, frags: seq<seq<Byte>>, ios: seq<Io>, more: seq<Io>)
    requires Ready(replies, s) && Request(PARSERS, req)
    requires frags != [] && frags[|frags| - 1] != [] && Flatten(frags) == req && EmptyReads(frags) <= MAX_EMPTY_IO
    requires Sees(ios, frags) && LegalRun(replies, s, ios) && GoodWrites(ios)
    requires LegalRun(replies, Run(replies, s, ios), more) && GoodWrites(more)
    requires |more| >= |replies.keep| && |more| >= |replies.close|
    ensures exists u ::
              && Leads(replies, Run(replies, s, ios), more, u)
              && ReplySent(replies, s.tally.total + 1, KeepAliveOf(Window(req, |req|)), u)
              && u.outflow.wire == s.outflow.wire + Response(replies, KeepAliveOf(Window(req, |req|)))
  {
    var t := Run(replies, s, ios);
    FragmentationIndependence(replies, s, req, frags, ios);
    RunKeeps(replies, s, ios);
    NoWriteError(replies, s, ios);
    WireWhenReady(replies, s);
    AnswerServed(replies, s, t, Window(req, |req|), KeepAliveOf(Window(req, |req|)), more);
  }

  /** After a complete response that does not keep the connection the next pass closes it. */
  lemma CloseFollows(replies: Replies, total: nat, u: Conn, io: Io)
    requires ReplySent(replies, total, false, u) && LegalIo(replies, u, io)
    ensures Iterate(replies, u, io).phase.KeepAliveClosed?
  {
  }

  /**
   * A request whose last window has "connection: close" in any mix of case gets the close response,
   * whole and behind everything written before, and then the connection is closed.
   */
  lemma CloseRequestCloses(
    replies: Replies, s: Conn, req: seq<Byte>, frags: seq<seq<Byte>>, ios: seq<Io>, more: seq<Io>)
    requires Ready(replies, s) && Request(PARSERS, req) && Mentions(Window(req, |req|), "connection: close")
    requires frags != [] && frags[|frags| - 1] != [] && Flatten(frags) == req && EmptyReads(frags) <= MAX_EMPTY_IO
    requires Sees(ios, frags) && LegalRun(replies, s, ios) && GoodWrites(ios)
    requires LegalRun(replies, Run(replies, s, ios), more) && GoodWrites(more)
    requires |more| >= |replies.keep| && |more| >= |replies.close|
    ensures exists u ::
              && Leads(replies, Run(replies, s, ios), more, u)
              && u.phase.KeepAlive? && u.outflow.wire == s.outflow.wire + replies.close
              && forall io | LegalIo(replies, u, io) :: Iterate(replies, u, io).phase.KeepAliveClosed?
  {
    var live := Window(req, |req|);
    KeepAliveDecision(live);
    ExchangeCompletes(replies, s, req, frags, ios, more);
    var u :| Leads(replies, Run(replies, s, ios), more, u)
             && ReplySent(replies, s.tally.total + 1, KeepAliveOf(live), u)
             && u.outflow.wire == s.outflow.wire + Response(replies, KeepAliveOf(live));
    forall io | LegalIo(replies, u, io)
      ensures Iterate(replies, u, io).phase.KeepAliveClosed?
    {
      CloseFollows(replies, s.tally.total + 1, u, io);
    }
  }
}
