/** Which submissions the policy approves, and what a step leaves on the desk. */
module QuotaOutcomes {
  import opened Pipeline
  import opened Quotas
  import opened Wrappers

  predicate Raises(r: Record) {
    r.decision == Decision.Buy || r.decision == Add
  }

  predicate Lowers(r: Record) {
    r.decision == Decision.Sell || r.decision == Trim
  }

  // ----- Counts -----

  /** The intent is a live one of the profile, created on the day. */
  ghost predicate Counted(w: World, st: State, id: string, profile: string, on: int) {
    && id in st.intents && st.intents[id].mode == Live && st.intents[id].profile == profile
    && w.day(st.intents[id].createdAt) == on
  }

  /** The counts see the profile's live intents of the day: the buys, the sales, and those with a pair. */
  lemma CountsExactly(w: World, desk: Desk, profile: string, on: int, id: string)
    ensures id in Buys(w, desk.ledger, profile, on)
         <==> Counted(w, desk.ledger, id, profile, on) && desk.ledger.intents[id].side == BuySide
    ensures id in Sells(w, desk.ledger, profile, on)
         <==> Counted(w, desk.ledger, id, profile, on) && desk.ledger.intents[id].side == SellSide
    ensures id in SwapBuys(w, desk, profile, on) <==> Counted(w, desk.ledger, id, profile, on) && id in desk.pairs
  {
  }

  // ----- The verdict -----

  /** Five buys a day; two of them without a pair, unless this one is extraordinary or funded; ten sales. */
  ghost predicate LeavesRoom(w: World, desk: Desk, s: Submission, r: Record) {
    var on := w.day(s.now);
    var buys := |Buys(w, desk.ledger, s.profile, on)|;
    && (Raises(r) ==> buys < 5)
    && (Raises(r) ==> r.extraordinary || s.funded || buys - |SwapBuys(w, desk, s.profile, on)| < 2)
    && (Lowers(r) ==> |Sells(w, desk.ledger, s.profile, on)| < 10)
  }

  lemma CountReasonsExactly(c: Counts, r: Record)
    ensures CountReasons(c, r)
         == if Raises(r) && c.buys >= 5 then ["buy_add_circuit_breaker_tripped"]
            else if Raises(r) && !r.extraordinary && !c.funded && c.buys - c.swapBuys >= 2 then
              ["daily_buy_add_limit_reached"]
            else if Lowers(r) && c.sells >= 10 then ["sell_trim_circuit_breaker_tripped"]
            else []
  {
  }

  /** A submission is approved exactly when no other rule objects and, if it is live, the counts leave it room;
      the reasons are those of the rules in the policy's order, and a paper submission is not counted. */
  lemma VerdictExactly(w: World, desk: Desk, s: Submission, r: Record)
    requires s.request == WellFormed(r)
    ensures var c := CallOf(w, desk, s);
            && (c.verdict.approved
                <==> s.before == [] && s.after == [] && (s.mode == Live ==> LeavesRoom(w, desk, s, r)))
            && (c.verdict.approved <==> c.verdict.reasons == [])
            && (s.mode == Paper ==> c.verdict.reasons == s.before + s.after)
            && (s.mode == Live && LeavesRoom(w, desk, s, r) ==> c.verdict.reasons == s.before + s.after)
            && (s.mode == Live && !LeavesRoom(w, desk, s, r) ==>
                  exists full :: c.verdict.reasons == s.before + [full] + s.after
                                 && full in {"buy_add_circuit_breaker_tripped", "daily_buy_add_limit_reached",
                                             "sell_trim_circuit_breaker_tripped"})
            && c == Call(WellFormed(r), c.verdict, s.bound, s.now, s.mode, s.profile)
  {
    CountReasonsExactly(CountsFor(w, desk, s, r), r);
    assert s.before + [] + s.after == s.before + s.after;
    if s.mode == Live && !LeavesRoom(w, desk, s, r) {
      var full := CountReasons(CountsFor(w, desk, s, r), r)[0];
      assert CallOf(w, desk, s).verdict.reasons == s.before + [full] + s.after;
    }
  }

  // ----- A step -----

  /** A submission that the guards stop, or that raises, leaves the desk. One that returns leaves its call's
      tables; when it was funded and its decision has an intent, a new intent is a swap, and a live purchase may
      have its pair recorded later. */
  lemma SubmitExactly(w: World, desk: Desk, s: Submission)
    ensures var reply, next := Process(desk.ledger, CallOf(w, desk, s)), Step(w, desk, Submit(s));
            if !s.admitted || reply.Raised? then next == desk
            else
              && next.ledger == reply.st && next.pairs == desk.pairs
              && (forall id :: id in next.swaps
                    <==> id in desk.swaps
                         || (s.funded && s.request.WellFormed? && id == s.request.record.id
                             && id in reply.st.intents && id !in desk.ledger.intents))
              && (forall id :: id in next.due
                    <==> id in desk.due
                         || (s.funded && s.request.WellFormed? && id == s.request.record.id
                             && id in reply.st.intents && s.mode == Live
                             && s.request.record.decision == Decision.Buy))
  {
  }

  /** A pair is recorded for a purchase that is due one, and nothing else moves. */
  lemma PairExactly(w: World, desk: Desk, id: string)
    ensures var next := Step(w, desk, RecordPair(id));
            && next.ledger == desk.ledger && next.swaps == desk.swaps && next.due == desk.due
            && (forall other :: other in next.pairs <==> other in desk.pairs || (other == id && id in desk.due))
  {
  }
}
