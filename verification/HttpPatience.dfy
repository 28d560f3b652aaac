/** How much a connection puts up with, and that every request can be answered: runs of one byte at a time. */
module HttpPatience {
  import opened Bytes
  import opened HttpParsers
  import opened HttpService
  import opened HttpFragments
  import opened HttpReads
  import opened HttpExchange

  // ---------------------------------------------------------------- empty writes

  ghost predicate NoWriteErrors(ios: seq<Io>) {
    forall k | 0 <= k < |ios| :: !ios[k].wr.err
  }

  function EmptyWrites(ios: seq<Io>): (n: nat)
    ensures n <= |ios|
  {
    if ios == [] then 0 else (if ios[0].wr.n == 0 then 1 else 0) + EmptyWrites(ios[1..])
  }

  /** A write without error moves the response on, completes it, or uses up patience. */
  lemma OneWrite(replies: Replies, t: Conn, io: Io)
    requires Inv(replies, t) && t.phase.SendBody? && LegalIo(replies, t, io) && !io.wr.err
    requires io.wr.n == 0 ==> t.outflow.emptyWrites < 2
    ensures var n, empty := Iterate(replies, t, io), if io.wr.n == 0 then 1 else 0;
            && n.tally == t.tally && n.keepAlive == t.keepAlive && n.outflow.out == t.outflow.out
            && (n.phase.KeepAlive? || (n.phase.SendBody? && n.outflow.sent >= t.outflow.sent + 1 - empty
                                       && n.outflow.emptyWrites == t.outflow.emptyWrites + empty))
  {
  }

  lemma {:induction false} FinishPatiently(replies: Replies, t: Conn, more: seq<Io>)
    requires Inv(replies, t) && t.phase.SendBody? && LegalRun(replies, t, more) && NoWriteErrors(more)
    requires t.outflow.emptyWrites + EmptyWrites(more) <= 2
    requires |more| >= |t.outflow.out| - t.outflow.sent + EmptyWrites(more)
    ensures exists u :: Leads(replies, t, more, u) && ReplySent(replies, t.tally.total, t.keepAlive, u)
    decreases |more|
  {
    var n := Iterate(replies, t, more[0]);
    OneWrite(replies, t, more[0]);
    IterateKeeps(replies, t, more[0]);
    if n.phase.KeepAlive? {
      Here(replies, n, more[1..]);
      SentIsReply(replies, n);
      Further(replies, t, more, n);
    } else {
      FinishPatiently(replies, n, more[1..]);
      var u :| Leads(replies, n, more[1..], u) && ReplySent(replies, t.tally.total, t.keepAlive, u);
      Further(replies, t, more, u);
    }
  }

  /** The response to a request that has been read, as its first write leaves it. */
  ghost predicate Begun(replies: Replies, t: Conn, n: Conn, wr: Write) {
    && n.tally.total == t.tally.total + 1 && n.keepAlive == KeepAliveOf(t.intake.live)
    && n.outflow.out == Response(replies, n.keepAlive)
    && (n.phase.KeepAlive? || (n.phase.SendBody? && n.outflow.sent == wr.n
                               && n.outflow.emptyWrites == if wr.n == 0 then 1 else 0))
  }

  lemma FirstWrite(replies: Replies, t: Conn, io: Io)
    requires t.phase.ReadReqDone? && LegalIo(replies, t, io) && !io.wr.err
    ensures Begun(replies, t, Iterate(replies, t, io), io.wr)
  {
  }

  /** Up to two empty writes do not harm a response, wherever they come. */
  lemma TwoEmptyWritesAreBorne(replies: Replies, t: Conn, more: seq<Io>, keep: bool)
    requires Inv(replies, t) && t.phase.ReadReqDone? && LegalRun(replies, t, more) && NoWriteErrors(more)
    requires EmptyWrites(more) <= 2 && |more| >= |replies.keep| + 2 && |more| >= |replies.close| + 2
    requires keep == KeepAliveOf(t.intake.live)
    ensures exists u :: Leads(replies, t, more, u) && ReplySent(replies, t.tally.total + 1, keep, u)
  {
    var n, total := Iterate(replies, t, more[0]), t.tally.total + 1;
    FirstWrite(replies, t, more[0]);
    IterateKeeps(replies, t, more[0]);
    if n.phase.KeepAlive? {
      Here(replies, n, more[1..]);
      SentIsReply(replies, n);
      Further(replies, t, more, n);
    } else {
      FinishPatiently(replies, n, more[1..]);
      var u :| Leads(replies, n, more[1..], u) && ReplySent(replies, total, keep, u);
      Further(replies, t, more, u);
    }
  }

  lemma EmptyWrite(replies: Replies, t: Conn, io: Io)
    requires t.phase.SendBody? && LegalIo(replies, t, io) && io.wr == Write(0, false)
    ensures var n := Iterate(replies, t, io);
            && n.outflow.wire == t.outflow.wire
            && if t.outflow.emptyWrites >= 2 then n.phase.WriteClosed?
               else n == t.(outflow := t.outflow.(emptyWrites := t.outflow.emptyWrites + 1))
  {
  }

  /** A third one closes the connection, with nothing of the response on the wire. */
  lemma ThirdEmptyWriteCloses(replies: Replies, t: Conn, a: Io, b: Io, c: Io)
    requires Inv(replies, t) && t.phase.ReadReqDone? && LegalRun(replies, t, [a, b, c])
    requires a.wr == b.wr == c.wr == Write(0, false)
    ensures var u := Run(replies, t, [a, b, c]); u.phase.WriteClosed? && u.outflow.wire == t.outflow.wire
  {
    var n := Iterate(replies, t, a);
    FirstWrite(replies, t, a);
    IterateKeeps(replies, t, a);
    assert [a, b, c][1..] == [b, c] && [b, c][1..] == [c] && [c][1..] == [];
    assert n.phase.SendBody? && n.outflow.wire == t.outflow.wire;
    EmptyWrite(replies, n, b);
    var m := Iterate(replies, n, b);
    EmptyWrite(replies, m, c);
    assert Run(replies, m, [c]) == Run(replies, Iterate(replies, m, c), []);
  }

  // ---------------------------------------------------------------- one byte at a time

  /** A pass that reads at most one byte and writes one. */
  predicate Tiny(io: Io) {
    |io.rd.data| <= 1 && io.wr == Write(1, false)
  }

  ghost predicate AllTiny(ios: seq<Io>) {
    forall k | 0 <= k < |ios| :: Tiny(ios[k])
  }

  /** There is always room to read a byte and always a byte to write. */
  lemma TinyIsLegal(replies: Replies, s: Conn, io: Io)
    requires Inv(replies, s) && Tiny(io)
    ensures LegalIo(replies, s, io)
  {
    TinyReads(replies, s, io.rd);
    BeforeWriteKeeps(replies, s, io.rd);
  }

  lemma TinyReads(replies: Replies, s: Conn, rd: Read)
    requires Inv(replies, s) && |rd.data| <= 1
    ensures ReadsLegally(s, rd)
  {
  }

  lemma {:induction false} TinyRunIsLegal(replies: Replies, s: Conn, ios: seq<Io>)
    requires Inv(replies, s) && AllTiny(ios)
    ensures LegalRun(replies, s, ios)
    decreases |ios|
  {
    if ios != [] {
      TinyIsLegal(replies, s, ios[0]);
      IterateKeeps(replies, s, ios[0]);
      TinyRunIsLegal(replies, Iterate(replies, s, ios[0]), ios[1..]);
    }
  }

  function Singles(req: seq<Byte>): (frags: seq<seq<Byte>>)
    ensures |frags| == |req| && forall k | 0 <= k < |req| :: frags[k] == [req[k]]
  {
    seq(|req|, k requires 0 <= k < |req| => [req[k]])
  }

  function ByBytes(req: seq<Byte>): (ios: seq<Io>)
    ensures |ios| == |req| && forall k | 0 <= k < |req| :: ios[k] == Io(Read([req[k]], false), Write(1, false))
  {
    seq(|req|, k requires 0 <= k < |req| => Io(Read([req[k]], false), Write(1, false)))
  }

  lemma {:induction false} SinglesMake(req: seq<Byte>)
    ensures Flatten(Singles(req)) == req && EmptyReads(Singles(req)) == 0
    decreases |req|
  {
    if req != [] {
      SinglesMake(req[1..]);
      assert Singles(req)[1..] == Singles(req[1..]);
      assert req == [req[0]] + req[1..];
    }
  }

  function Quiet(n: nat): (ios: seq<Io>)
    ensures |ios| == n && forall k | 0 <= k < n :: ios[k] == Io(Read([], false), Write(1, false))
  {
    seq(n, k requires 0 <= k < n => Io(Read([], false), Write(1, false)))
  }

  /** The response to `req` is complete on the wire after some run from `s`. */
  ghost predicate Answers(replies: Replies, s: Conn, req: seq<Byte>) {
    exists ios, more, u ::
      && LegalRun(replies, s, ios) && Leads(replies, Run(replies, s, ios), more, u)
      && ReplySent(replies, s.tally.total + 1, KeepAliveOf(Window(req, |req|)), u)
  }

  /** Every request can be answered: the network only has to let a byte through now and then. */
  lemma EveryRequestCanBeAnswered(replies: Replies, s: Conn, req: seq<Byte>)
    requires Ready(replies, s) && Request(PARSERS, req)
    ensures Answers(replies, s, req)
  {
    var ios, more := ByBytes(req), Quiet(|replies.keep| + |replies.close|);
    TinyRunIsLegal(replies, s, ios);
    RunKeeps(replies, s, ios);
    TinyRunIsLegal(replies, Run(replies, s, ios), more);
    SinglesMake(req);
    ExchangeCompletes(replies, s, req, Singles(req), ios, more);
  }
}
