/** What one call writes and reports, in the fields of the tables. */
module PipelineOutcomes {
  import opened Pipeline
  import opened PipelineTheorems
  import opened Wrappers

  predicate IsBlankChar(c: char) {
    c == ' ' || c == '\t' || c == '\n' || c == '\r'
  }

  lemma {:induction false} BlankExactly(s: string)
    ensures Blank(s) <==> forall i | 0 <= i < |s| :: IsBlankChar(s[i])
    decreases |s|
  {
    if s != "" {
      if IsSpace(s[0]) {
        BlankExactly(s[1..]);
        assert s == [s[0]] + s[1..];
      } else if IsSpace(s[|s| - 1]) {
        BlankExactly(s[..|s| - 1]);
      }
    }
  }

  /** The stored text has the reasons in order with a comma and a blank between. */
  lemma {:induction false} JoinExactly(reasons: seq<string>, last: string)
    ensures Join(reasons + [last]) == if reasons == [] then last else Join(reasons) + ", " + last
  {
    if reasons != [] {
      JoinExactly(reasons[1..], last);
      assert (reasons + [last])[1..] == reasons[1..] + [last];
    }
  }

  // ----- Schema failures -----

  /** A malformed submission of a decision that was saved raises; of any other it is recorded once, and reported
      as a schema failure without an order. */
  ghost predicate FailsWith(reply: Reply, st: State, id: string, detail: string) {
    if id in st.records then reply == Raised
    else
      && reply.Done? && reply.outcome == Outcome(Some(id), SchemaFailed, [], false)
      && reply.st == if id in st.history && st.history[id] != [] then st
                     else st.(history := st.history[id := [Event(SchemaFailed, detail)]])
  }

  lemma FailingExactly(st: State, id: string, detail: string)
    requires Shape(st, id)
    ensures FailsWith(Failing(st, id, detail), st, id, detail)
  {
    var events := HistoryOf(st, id);
    if EndsSchemaFailed(st, id) { assert events[0].status == SchemaFailed; }
    if id !in st.records && events == [] { FailureIsFirst(st, id, detail); }
  }

  lemma FailureIsFirst(st: State, id: string, detail: string)
    requires HistoryOf(st, id) == []
    ensures Failing(st, id, detail)
         == Done(st.(history := st.history[id := [Event(SchemaFailed, detail)]]),
                 Outcome(Some(id), SchemaFailed, [], false))
  {
    AppendIs(st, id, SchemaFailed, detail, []);
    assert [] + [Event(SchemaFailed, detail)] == [Event(SchemaFailed, detail)];
  }

  // ----- First evaluations -----

  predicate Buys(d: Decision) {
    d == Decision.Buy || d == Add
  }

  predicate Orders(d: Decision) {
    Buys(d) || d == Decision.Sell || d == Trim
  }

  lemma SideExactly(d: Decision)
    ensures SideOf(d) == if Buys(d) then Some(BuySide) else if Orders(d) then Some(SellSide) else None
  {
  }

  /** A live order names a profile; a paper order names none. */
  ghost predicate ScopeFits(mode: Mode, profile: string) {
    if mode == Live then exists i | 0 <= i < |profile| :: !IsBlankChar(profile[i]) else profile == ""
  }

  /** The tables with the record, its verdict and its history; the intent only where it is to be ordered. */
  function Recorded(st: State, r: Record, c: Call, last: seq<Event>, intents: map<string, Intent>): State {
    State(st.records[r.id := r],
          st.history[r.id := [Event(RecordCreated, ""), Event(SchemaValidated, "")] + last],
          st.evaluations[r.id := Evaluation(c.verdict, c.mode, c.profile, c.now)],
          intents)
  }

  /** The first evaluation of a record that nothing was recorded about: rejected with its reasons, approved
      without an order, or approved with an intent on the decision's side. It raises when its inputs cannot be
      bound or the order has no scope. */
  ghost function FirstReply(st: State, r: Record, c: Call): Reply {
    if !c.bound then Raised
    else if !c.verdict.approved then
      Done(Recorded(st, r, c, [Event(PolicyRejected, Join(c.verdict.reasons))], st.intents),
           Outcome(Some(r.id), PolicyRejected, c.verdict.reasons, false))
    else if !Orders(r.decision) then
      Done(Recorded(st, r, c, [Event(PolicyApproved, "")], st.intents),
           Outcome(Some(r.id), PolicyApproved, [], false))
    else if !ScopeFits(c.mode, c.profile) then Raised
    else
      var intent := Intent(if Buys(r.decision) then BuySide else SellSide, c.now, c.mode, c.profile);
      Done(Recorded(st, r, c, [Event(PolicyApproved, ""), Event(IntentCreated, "")], st.intents[r.id := intent]),
           Outcome(Some(r.id), IntentCreated, [], true))
  }

  lemma JudgedExactly(st: State, r: Record, c: Call) returns (s3: State)
    requires Unsaved(st, r.id) && HistoryOf(st, r.id) == []
    ensures Evaluating(st, r, c) == if c.bound then Concluding(s3, r, c) else Raised
    ensures s3 == Recorded(st, r, c, [], st.intents)
  {
    var s0 := st.(records := st.records[r.id := r]);
    AppendIs(s0, r.id, RecordCreated, "", []);
    var s1 := Append(s0, r.id, RecordCreated, "").value;
    AppendIs(s1, r.id, SchemaValidated, "", [Event(RecordCreated, "")]);
    var s2 := Append(s1, r.id, SchemaValidated, "").value;
    s3 := s2.(evaluations := s2.evaluations[r.id := Evaluation(c.verdict, c.mode, c.profile, c.now)]);
    var created, validated := Event(RecordCreated, ""), Event(SchemaValidated, "");
    assert [] + [created] == [created] && [created] + [validated] == [created, validated] + [];
    assert s3.history == Recorded(st, r, c, [], st.intents).history;
  }

  lemma RecordedNext(st: State, r: Record, c: Call, last: seq<Event>, intents: map<string, Intent>, e: Event)
    requires var s := Recorded(st, r, c, last, intents);
             Legal(Latest(s.history[r.id]), e.status) && !Reached(s.history[r.id], e.status)
    ensures Append(Recorded(st, r, c, last, intents), r.id, e.status, e.detail)
         == Some(Recorded(st, r, c, last + [e], intents))
  {
    var s := Recorded(st, r, c, last, intents);
    AppendIs(s, r.id, e.status, e.detail, s.history[r.id]);
    var start := [Event(RecordCreated, ""), Event(SchemaValidated, "")];
    assert start + last + [e] == start + (last + [e]);
    assert s.history[r.id := start + (last + [e])] == Recorded(st, r, c, last + [e], intents).history;
  }

  lemma RejectedReply(st: State, r: Record, c: Call)
    requires !c.verdict.approved && c.bound
    ensures Concluding(Recorded(st, r, c, [], st.intents), r, c) == FirstReply(st, r, c)
  {
    var e := Event(PolicyRejected, Join(c.verdict.reasons));
    RecordedNext(st, r, c, [], st.intents, e);
    assert [] + [e] == [e];
  }

  lemma OrderedReply(st: State, r: Record, c: Call)
    requires Orders(r.decision) && r.id !in st.intents
    ensures var s4 := Recorded(st, r, c, [Event(PolicyApproved, "")], st.intents);
            var intent := Intent(if Buys(r.decision) then BuySide else SellSide, c.now, c.mode, c.profile);
            WithIntent(s4, r, c)
            == if !ScopeFits(c.mode, c.profile) then None
               else Some(Recorded(st, r, c, [Event(PolicyApproved, ""), Event(IntentCreated, "")],
                                  st.intents[r.id := intent]))
  {
    var intent := Intent(if Buys(r.decision) then BuySide else SellSide, c.now, c.mode, c.profile);
    SideExactly(r.decision);
    BlankExactly(c.profile);
    RecordedNext(st, r, c, [Event(PolicyApproved, "")], st.intents[r.id := intent], Event(IntentCreated, ""));
    assert [Event(PolicyApproved, "")] + [Event(IntentCreated, "")]
        == [Event(PolicyApproved, ""), Event(IntentCreated, "")];
  }

  lemma ApprovedReply(st: State, r: Record, c: Call)
    requires c.verdict.approved && c.bound && r.id !in st.intents
    ensures Concluding(Recorded(st, r, c, [], st.intents), r, c) == FirstReply(st, r, c)
  {
    var e := Event(PolicyApproved, "");
    RecordedNext(st, r, c, [], st.intents, e);
    assert [] + [e] == [e];
    SideExactly(r.decision);
    if Orders(r.decision) { OrderedReply(st, r, c); }
  }

  lemma FirstExactly(st: State, r: Record, c: Call)
    requires Unsaved(st, r.id) && HistoryOf(st, r.id) == []
    ensures Evaluating(st, r, c) == FirstReply(st, r, c)
  {
    var s3 := JudgedExactly(st, r, c);
    if c.bound {
      if c.verdict.approved { ApprovedReply(st, r, c); } else { RejectedReply(st, r, c); }
    }
  }

  // ----- Any call -----

  /** A call on a saved decision changes nothing: it reports what the first evaluation of the same record in the
      same scope did, and raises for any other. */
  ghost function SavedReply(st: State, r: Record, c: Call): Reply
    requires r.id in st.evaluations && r.id in st.records
  {
    var e := st.evaluations[r.id];
    if e.mode != c.mode || e.profile != c.profile || st.records[r.id] != r then Raised
    else if !e.verdict.approved then Done(st, Outcome(Some(r.id), PolicyRejected, e.verdict.reasons, false))
    else if !Orders(r.decision) then Done(st, Outcome(Some(r.id), PolicyApproved, [], false))
    else Done(st, Outcome(Some(r.id), IntentCreated, [], true))
  }

  ghost predicate Answers(reply: Reply, st: State, c: Call)
    requires c.request.WellFormed? ==> Shape(st, c.request.record.id)
  {
    match c.request
    case Malformed(None) => reply == Done(st, Outcome(None, SchemaFailed, [], false))
    case Malformed(Some(id)) => FailsWith(reply, st, id, "schema")
    case WellFormed(r) =>
      if r.id in st.records then reply == SavedReply(st, r, c)
      else if c.now < r.createdAt then FailsWith(reply, st, r.id, "created_at_cannot_be_in_future")
      else if r.id in st.history && st.history[r.id] != [] then reply == Raised
      else reply == FirstReply(st, r, c)
  }

  lemma WellFormedExactly(st: State, r: Record, c: Call)
    requires Inv(st) && c.request == WellFormed(r)
    ensures Answers(Process(st, c), st, c)
  {
    assert Shape(st, r.id);
    if r.id in st.records {
      ReplayIsInert(st, r, c);
      SideExactly(r.decision);
    } else if c.now < r.createdAt {
      FailingExactly(st, r.id, "created_at_cannot_be_in_future");
    } else if HistoryOf(st, r.id) != [] {
      FailedIsNotEvaluated(st, r, c);
    } else {
      FirstExactly(st, r, c);
    }
  }

  lemma FailedIsNotEvaluated(st: State, r: Record, c: Call)
    requires EndsSchemaFailed(st, r.id)
    ensures Evaluating(st, r, c) == Raised
  {
  }

  /** What any call answers and writes, in every reachable state. */
  lemma ProcessExactly(calls: seq<Call>, c: Call)
    requires AllJudged(calls)
    ensures c.request.WellFormed? ==> Shape(Run(EMPTY, calls), c.request.record.id)
    ensures Answers(Process(Run(EMPTY, calls), c), Run(EMPTY, calls), c)
  {
    var st := Run(EMPTY, calls);
    forall id ensures Shape(st, id) {
      RunKeepsShape(EMPTY, calls, id);
    }
    match c.request
    case Malformed(None) =>
    case Malformed(Some(id)) => FailingExactly(st, id, "schema");
    case WellFormed(r) => WellFormedExactly(st, r, c);
  }
}
