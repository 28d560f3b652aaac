/** The counters of a service in the counting model are those of the connection's state machine. */
module ServerLink {
  import opened HttpService
  import opened ServerCounts

  /**
   * A service counts and reports as the connection's state machine does: answering, and flushing when
   * the batch is full, turns the counters of a connection into those of its next request.
   */
  lemma ServiceCountsLikeConnection(t: Tally, sv: Service, sh: Shared)
    requires sv.pc.Serving? && sv.total == t.total && sv.out == t.unreported
    ensures var a := ServiceStep(sv, sh, Answer);
            var b := if a.sv.pc.Flushing? then ServiceStep(a.sv, a.sh, Answer) else a;
            && b.sv.pc.Serving? && b.sv.total == Count(t).total && b.sv.out == Count(t).unreported
            && (if a.sv.pc.Flushing? then b.sh.requests.items == sh.requests.items + [Count(t).reported - t.reported]
                else b.sh.requests == sh.requests && Count(t).reported == t.reported)
  {
  }
}
