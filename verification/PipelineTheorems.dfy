/** Where decisions can end, what an intent implies, and why a resubmission changes nothing. */
module PipelineTheorems {
  import opened Pipeline
  import opened Wrappers

  // ----- Reasons survive being stored as one text -----

  predicate IsRuleId(s: string) {
    s != "" && forall i | 0 <= i < |s| :: s[i] != ',' && !IsSpace(s[i])
  }

  lemma StripRuleId(s: string)
    requires IsRuleId(s)
    ensures Strip(s) == s && Strip(" " + s) == s
  {
    assert (" " + s)[1..] == s;
  }

  lemma CommaAfter(s: string, rest: string)
    requires forall i | 0 <= i < |s| :: s[i] != ','
    ensures CommaAt(s) == |s| && CommaAt(s + "," + rest) == |s|
  {
    var t := s + "," + rest;
    assert forall i | 0 <= i < |s| :: t[i] == s[i];
    assert t[|s|] == ',';
  }

  lemma SplitStep(head: string, r: string, tail: string)
    requires Strip(head) == r && r != "" && (forall i | 0 <= i < |head| :: head[i] != ',')
    ensures Split(head) == [r] && Split(head + "," + tail) == [r] + Split(tail)
  {
    CommaAfter(head, tail);
    var text := head + "," + tail;
    assert head[..|head|] == head;
    assert text[..|head|] == head && text[|head| + 1..] == tail;
  }

  lemma Regroup(pad: string, r: string, rest: string)
    ensures pad + (r + ", " + rest) == (pad + r) + "," + (" " + rest)
  {
    assert ", " == "," + " ";
  }

  lemma {:induction false} SplitPieces(reasons: seq<string>, pad: string)
    requires reasons != [] && (forall r | r in reasons :: IsRuleId(r)) && (pad == "" || pad == " ")
    ensures Split(pad + Join(reasons)) == reasons
  {
    var r, rest := reasons[0], reasons[1..];
    var head := pad + r;
    StripRuleId(r);
    assert Strip(head) == r by { if pad == "" { assert head == r; } }
    assert reasons == [r] + rest;
    if rest == [] {
      SplitStep(head, r, "");
    } else {
      SplitStep(head, r, " " + Join(rest));
      Regroup(pad, r, Join(rest));
      SplitPieces(rest, " ");
    }
  }

  /** The stored rejection text gives back exactly the policy's reasons, in order. */
  lemma ReasonsRoundTrip(reasons: seq<string>)
    requires forall r | r in reasons :: IsRuleId(r)
    ensures Split(Join(reasons)) == reasons
  {
    if reasons != [] {
      SplitPieces(reasons, "");
      assert "" + Join(reasons) == Join(reasons);
    }
  }

  // ----- Reachable shapes -----

  /** What the policy returns: rule identifiers, and approval exactly without any. */
  ghost predicate Judged(c: Call) {
    && (c.verdict.approved <==> c.verdict.reasons == [])
    && (forall r | r in c.verdict.reasons :: IsRuleId(r))
  }

  ghost predicate Unsaved(st: State, id: string) {
    id !in st.records && id !in st.evaluations && id !in st.intents
  }

  ghost predicate Saved(st: State, id: string) {
    id in st.records && id in st.evaluations && st.records[id].id == id
  }

  const APPROVED_PATH :=
    [Event(RecordCreated, ""), Event(SchemaValidated, ""), Event(PolicyApproved, "")]

  ghost predicate EndsRejected(st: State, id: string) {
    && Saved(st, id) && id !in st.intents && !st.evaluations[id].verdict.approved
    && HistoryOf(st, id)
       == [Event(RecordCreated, ""), Event(SchemaValidated, ""),
           Event(PolicyRejected, Join(st.evaluations[id].verdict.reasons))]
    && (forall r | r in st.evaluations[id].verdict.reasons :: IsRuleId(r))
  }

  ghost predicate EndsApproved(st: State, id: string) {
    && Saved(st, id) && id !in st.intents && st.evaluations[id].verdict.approved
    && SideOf(st.records[id].decision).None? && HistoryOf(st, id) == APPROVED_PATH
  }

  /** The intent carries the record's side and the evaluation's scope and instant. */
  ghost predicate EndsWithIntent(st: State, id: string) {
    && Saved(st, id) && id in st.intents && st.evaluations[id].verdict.approved
    && HistoryOf(st, id) == APPROVED_PATH + [Event(IntentCreated, "")]
    && SideOf(st.records[id].decision) == Some(st.intents[id].side)
    && st.intents[id].mode == st.evaluations[id].mode
    && st.intents[id].profile == st.evaluations[id].profile
    && st.intents[id].createdAt == st.evaluations[id].at
  }

  ghost predicate EndsSchemaFailed(st: State, id: string) {
    && Unsaved(st, id)
    && |HistoryOf(st, id)| == 1 && HistoryOf(st, id)[0].status == SchemaFailed
  }

  ghost predicate Shape(st: State, id: string) {
    || (Unsaved(st, id) && HistoryOf(st, id) == [])
    || EndsSchemaFailed(st, id) || EndsRejected(st, id) || EndsApproved(st, id)
    || EndsWithIntent(st, id)
  }

  ghost predicate Inv(st: State) {
    forall id :: Shape(st, id)
  }

  // ----- One call -----

  function CallId(c: Call): Option<string> {
    match c.request
    case Malformed(id) => id
    case WellFormed(r) => Some(r.id)
  }

  /** A call touches no decision but its own. */
  ghost predicate SameDecision(st: State, st': State, id: string) {
    && (id in st.records <==> id in st'.records) && (id in st.records ==> st'.records[id] == st.records[id])
    && (id in st.evaluations <==> id in st'.evaluations)
    && (id in st.evaluations ==> st'.evaluations[id] == st.evaluations[id])
    && (id in st.intents <==> id in st'.intents) && (id in st.intents ==> st'.intents[id] == st.intents[id])
    && HistoryOf(st, id) == HistoryOf(st', id)
  }

  lemma AppendTouches(st: State, id: string, status: Status, detail: string, other: string)
    requires other != id && Append(st, id, status, detail).Some?
    ensures SameDecision(st, Append(st, id, status, detail).value, other)
  {
  }

  lemma SameDecisionChains(a: State, b: State, c: State, id: string)
    requires SameDecision(a, b, id) && SameDecision(b, c, id)
    ensures SameDecision(a, c, id)
  {
  }

  lemma WithIntentTouches(st: State, r: Record, c: Call, other: string)
    requires other != r.id && SideOf(r.decision).Some? && WithIntent(st, r, c).Some?
    ensures SameDecision(st, WithIntent(st, r, c).value, other)
  {
  }

  lemma EvaluatingTouches(st: State, r: Record, c: Call, other: string)
    requires other != r.id && Evaluating(st, r, c).Done?
    ensures SameDecision(st, Evaluating(st, r, c).st, other)
  {
    var s0 := st.(records := st.records[r.id := r]);
    var s1 := Append(s0, r.id, RecordCreated, "").value;
    AppendTouches(s0, r.id, RecordCreated, "", other);
    var s2 := Append(s1, r.id, SchemaValidated, "").value;
    AppendTouches(s1, r.id, SchemaValidated, "", other);
    var s3 := SaveEvaluation(s2, r, c).value;
    SameDecisionChains(s0, s1, s2, other);
    assert SameDecision(st, s3, other);
    if !c.verdict.approved {
      AppendTouches(s3, r.id, PolicyRejected, Join(c.verdict.reasons), other);
    } else {
      AppendTouches(s3, r.id, PolicyApproved, "", other);
      var s4 := Append(s3, r.id, PolicyApproved, "").value;
      SameDecisionChains(st, s3, s4, other);
      if SideOf(r.decision).Some? { WithIntentTouches(s4, r, c, other); }
    }
  }

  lemma OthersUntouched(st: State, c: Call, other: string)
    requires CallId(c) != Some(other)
    ensures SameDecision(st, After(st, c), other)
  {
    if Process(st, c).Done? {
      match c.request
      case Malformed(None) =>
      case Malformed(Some(id)) => AppendTouches(st, id, SchemaFailed, "schema", other);
      case WellFormed(r) =>
        if Process(st, c) == Evaluating(st, r, c) {
          EvaluatingTouches(st, r, c, other);
        } else if Process(st, c).outcome.final == SchemaFailed {
          AppendTouches(st, r.id, SchemaFailed, "created_at_cannot_be_in_future", other);
        } else if Process(st, c).st != st {
          WithIntentTouches(st, r, c, other);
        }
    }
  }

  lemma SameDecisionSameShape(st: State, st': State, id: string)
    requires SameDecision(st, st', id) && Shape(st, id)
    ensures Shape(st', id)
  {
  }

  /** Up to the verdict, an evaluation leaves the record, its two statuses and the evaluation. */
  ghost predicate Judging(st: State, s3: State, r: Record, c: Call) {
    && HistoryOf(s3, r.id) == [Event(RecordCreated, ""), Event(SchemaValidated, "")]
    && Saved(s3, r.id) && s3.records[r.id] == r && r.id !in s3.intents
    && s3.evaluations[r.id] == Evaluation(c.verdict, c.mode, c.profile, c.now)
  }

  lemma JudgedState(st: State, r: Record, c: Call) returns (s3: State)
    requires Unsaved(st, r.id) && HistoryOf(st, r.id) == [] && Evaluating(st, r, c).Done?
    ensures Judging(st, s3, r, c)
    ensures Evaluating(st, r, c) == Concluding(s3, r, c)
  {
    var s0 := st.(records := st.records[r.id := r]);
    AppendIs(s0, r.id, RecordCreated, "", []);
    var s1 := Append(s0, r.id, RecordCreated, "").value;
    AppendIs(s1, r.id, SchemaValidated, "", [Event(RecordCreated, "")]);
    s3 := SaveEvaluation(Append(s1, r.id, SchemaValidated, "").value, r, c).value;
  }

  /** The rest of an evaluation, after the verdict was recorded. */
  function Concluding(s3: State, r: Record, c: Call): Reply {
    if !c.verdict.approved then
      var s4 := Append(s3, r.id, PolicyRejected, Join(c.verdict.reasons));
      if s4.None? then Raised
      else Done(s4.value, Outcome(Some(r.id), PolicyRejected, c.verdict.reasons, false))
    else
      var s4 := Append(s3, r.id, PolicyApproved, "");
      if s4.None? then Raised
      else if SideOf(r.decision).None? then
        Done(s4.value, Outcome(Some(r.id), PolicyApproved, [], false))
      else Finishing(WithIntent(s4.value, r, c), r)
  }

  lemma ConcludingShapes(st: State, s3: State, r: Record, c: Call)
    requires Judging(st, s3, r, c) && Judged(c) && Concluding(s3, r, c).Done?
    ensures var st' := Concluding(s3, r, c).st;
            && Shape(st', r.id) && Saved(st', r.id) && st'.records[r.id] == r
            && st'.evaluations[r.id] == Evaluation(c.verdict, c.mode, c.profile, c.now)
            && Concluding(s3, r, c).outcome == FirstOutcome(st', r.id)
  {
    var path := [Event(RecordCreated, ""), Event(SchemaValidated, "")];
    if !c.verdict.approved {
      AppendIs(s3, r.id, PolicyRejected, Join(c.verdict.reasons), path);
      assert EndsRejected(Concluding(s3, r, c).st, r.id);
    } else {
      AppendIs(s3, r.id, PolicyApproved, "", path);
      var s4 := Append(s3, r.id, PolicyApproved, "").value;
      assert HistoryOf(s4, r.id) == APPROVED_PATH;
      if SideOf(r.decision).Some? {
        IntentShapes(s4, r, c);
      } else {
        assert EndsApproved(s4, r.id);
      }
    }
  }

  lemma IntentShapes(s4: State, r: Record, c: Call)
    requires HistoryOf(s4, r.id) == APPROVED_PATH && Saved(s4, r.id) && s4.records[r.id] == r
    requires s4.evaluations[r.id] == Evaluation(c.verdict, c.mode, c.profile, c.now)
    requires c.verdict.approved && r.id !in s4.intents && SideOf(r.decision).Some?
    ensures WithIntent(s4, r, c).Some? ==>
              var st' := WithIntent(s4, r, c).value;
              && EndsWithIntent(st', r.id) && st'.records == s4.records
              && st'.evaluations == s4.evaluations
  {
    if WithIntent(s4, r, c).Some? {
      var placed := s4.(intents :=
        s4.intents[r.id := Intent(SideOf(r.decision).value, c.now, c.mode, c.profile)]);
      AppendIs(placed, r.id, IntentCreated, "", APPROVED_PATH);
    }
  }

  /** The first evaluation of a well-formed record ends in one of the three evaluated shapes. */
  lemma EvaluatingShapes(st: State, r: Record, c: Call)
    requires Unsaved(st, r.id) && HistoryOf(st, r.id) == [] && Judged(c)
    requires Evaluating(st, r, c).Done?
    ensures var st' := Evaluating(st, r, c).st;
            && Shape(st', r.id) && Saved(st', r.id) && st'.records[r.id] == r
            && st'.evaluations[r.id] == Evaluation(c.verdict, c.mode, c.profile, c.now)
            && Evaluating(st, r, c).outcome == FirstOutcome(st', r.id)
  {
    var s3 := JudgedState(st, r, c);
    ConcludingShapes(st, s3, r, c);
  }

  lemma AppendIs(st: State, id: string, status: Status, detail: string, events: seq<Event>)
    requires HistoryOf(st, id) == events && Legal(Latest(events), status) && !Reached(events, status)
    ensures Append(st, id, status, detail)
         == Some(st.(history := st.history[id := events + [Event(status, detail)]]))
    ensures HistoryOf(Append(st, id, status, detail).value, id) == events + [Event(status, detail)]
  {
  }

  /** What the first evaluation reported, read back from the tables. */
  function FirstOutcome(st: State, id: string): Outcome
    requires id in st.records && id in st.evaluations
  {
    if !st.evaluations[id].verdict.approved then
      Outcome(Some(id), PolicyRejected, st.evaluations[id].verdict.reasons, false)
    else if SideOf(st.records[id].decision).None? then Outcome(Some(id), PolicyApproved, [], false)
    else Outcome(Some(id), IntentCreated, [], true)
  }

  /** A record already evaluated: the call raises or reports the first outcome, and changes nothing. */
  lemma ReplayIsInert(st: State, r: Record, c: Call)
    requires Shape(st, r.id) && Saved(st, r.id) && c.request == WellFormed(r)
    ensures Process(st, c)
         == if st.evaluations[r.id].mode != c.mode || st.evaluations[r.id].profile != c.profile
               || st.records[r.id] != r then Raised
            else Done(st, FirstOutcome(st, r.id))
  {
    var events := HistoryOf(st, r.id);
    if EndsRejected(st, r.id) {
      ReasonsRoundTrip(st.evaluations[r.id].verdict.reasons);
      assert Latest(events) == Some(PolicyRejected);
    } else if EndsApproved(st, r.id) {
      assert Latest(events) == Some(PolicyApproved);
    } else {
      assert Latest(events) == Some(IntentCreated);
    }
  }

  /** Every call keeps every decision in a reachable shape. */
  lemma StepKeepsShape(st: State, c: Call, id: string)
    requires Shape(st, id) && Judged(c)
    ensures Shape(After(st, c), id)
  {
    if CallId(c) != Some(id) {
      OthersUntouched(st, c, id);
      SameDecisionSameShape(st, After(st, c), id);
    } else {
      match c.request
      case Malformed(_) => FailingShapes(st, id, "schema");
      case WellFormed(r) =>
        if Saved(st, id) {
          ReplayIsInert(st, r, c);
        } else if c.now < r.createdAt {
          FailingShapes(st, id, "created_at_cannot_be_in_future");
        } else if HistoryOf(st, id) == [] {
          if Evaluating(st, r, c).Done? { EvaluatingShapes(st, r, c); }
        } else {
          assert Evaluating(st, r, c).Raised?;
        }
    }
  }

  /** A schema failure is recorded once, on a decision that has nothing else. */
  lemma FailingShapes(st: State, id: string, detail: string)
    requires Shape(st, id)
    ensures Failing(st, id, detail).Done? ==>
              EndsSchemaFailed(Failing(st, id, detail).st, id)
    ensures Failing(st, id, detail).Done? && EndsSchemaFailed(st, id) ==>
              Failing(st, id, detail).st == st
  {
    var events := HistoryOf(st, id);
    if EndsSchemaFailed(st, id) {
      assert events[0].status == SchemaFailed;
    }
  }

  // ----- Whole runs -----

  const EMPTY := State(map[], map[], map[], map[])

  function Run(st: State, calls: seq<Call>): State
    decreases |calls|
  {
    if calls == [] then st else Run(After(st, calls[0]), calls[1..])
  }

  ghost predicate AllJudged(calls: seq<Call>) {
    forall c | c in calls :: Judged(c)
  }

  lemma {:induction false} RunKeepsShape(st: State, calls: seq<Call>, id: string)
    requires Shape(st, id) && AllJudged(calls)
    ensures Shape(Run(st, calls), id)
    decreases |calls|
  {
    if calls != [] {
      StepKeepsShape(st, calls[0], id);
      RunKeepsShape(After(st, calls[0]), calls[1..], id);
    }
  }

  /** After any calls, a decision has no status at all, or ends in schema failed, policy rejected,
      approved without an order, or intent created. It has an intent exactly in the last case, its
      recorded evaluation then approved it, and the intent is on the side its decision asked for. */
  lemma DecisionsEndProperly(calls: seq<Call>, id: string)
    requires AllJudged(calls)
    ensures var st := Run(EMPTY, calls);
            var latest := Latest(HistoryOf(st, id));
            && latest in {None, Some(SchemaFailed), Some(PolicyRejected), Some(PolicyApproved),
                          Some(IntentCreated)}
            && (id in st.intents <==> latest == Some(IntentCreated))
            && (id in st.intents ==>
                  && id in st.records && id in st.evaluations && st.evaluations[id].verdict.approved
                  && SideOf(st.records[id].decision) == Some(st.intents[id].side))
            && (latest == Some(PolicyApproved) ==>
                  id in st.records && SideOf(st.records[id].decision).None?)
            && (latest == Some(SchemaFailed) || latest == None <==> id !in st.records)
  {
    RunKeepsShape(EMPTY, calls, id);
    var events := HistoryOf(Run(EMPTY, calls), id);
    if events != [] {
      var last := events[|events| - 1];
    }
  }

  lemma StepKeepsEvaluation(st: State, c: Call, id: string)
    requires Shape(st, id) && Saved(st, id) && Judged(c)
    ensures SameDecision(st, After(st, c), id)
  {
    if CallId(c) != Some(id) {
      OthersUntouched(st, c, id);
    } else {
      match c.request
      case Malformed(_) => assert Failing(st, id, "schema").Raised?;
      case WellFormed(r) => ReplayIsInert(st, r, c);
    }
  }

  lemma {:induction false} RunKeepsEvaluation(st: State, calls: seq<Call>, id: string)
    requires Shape(st, id) && Saved(st, id) && AllJudged(calls)
    ensures SameDecision(st, Run(st, calls), id)
    decreases |calls|
  {
    if calls != [] {
      var next := After(st, calls[0]);
      StepKeepsShape(st, calls[0], id);
      StepKeepsEvaluation(st, calls[0], id);
      RunKeepsEvaluation(next, calls[1..], id);
      SameDecisionChains(st, next, Run(next, calls[1..]), id);
    }
  }

  /** Once a call has evaluated a record, resubmitting that record in the same scope, after any other
      calls, whatever the policy or the clock would say now, returns the first call's outcome, reasons
      included, and changes nothing. */
  lemma ReplayReturnsFirstOutcome(
    before: seq<Call>, first: Call, between: seq<Call>, again: Call)
    requires AllJudged(before) && Judged(first) && AllJudged(between)
    requires first.request.WellFormed? && again.request == first.request
    requires first.mode == again.mode && first.profile == again.profile
    requires var st, id := Run(EMPTY, before), first.request.record.id;
             id !in st.evaluations && id in After(st, first).evaluations
    ensures var st := Run(EMPTY, before);
            var later := Run(After(st, first), between);
            && Process(st, first).Done?
            && Process(later, again) == Done(later, Process(st, first).outcome)
  {
    var st, r := Run(EMPTY, before), first.request.record;
    RunKeepsShape(EMPTY, before, r.id);
    FirstEvaluation(st, first);
    var st1 := After(st, first);
    StepKeepsShape(st, first, r.id);
    RunKeepsEvaluation(st1, between, r.id);
    RunKeepsShape(st1, between, r.id);
    ReplayIsInert(Run(st1, between), r, again);
  }

  lemma FirstEvaluation(st: State, c: Call)
    requires c.request.WellFormed? && Judged(c)
    requires var id := c.request.record.id;
             Shape(st, id) && id !in st.evaluations && id in After(st, c).evaluations
    ensures Process(st, c).Done?
    ensures var id, st' := c.request.record.id, After(st, c);
            && Saved(st', id) && st'.records[id] == c.request.record
            && st'.evaluations[id] == Evaluation(c.verdict, c.mode, c.profile, c.now)
            && Process(st, c).outcome == FirstOutcome(st', id)
  {
    OnlyFreshIsEvaluated(st, c.request.record, c);
    EvaluatingShapes(st, c.request.record, c);
  }

  /** Only a decision without history, and not dated in the future, can gain an evaluation. */
  lemma OnlyFreshIsEvaluated(st: State, r: Record, c: Call)
    requires c.request == WellFormed(r) && Shape(st, r.id) && r.id !in st.evaluations
    ensures HistoryOf(st, r.id) != [] || c.now < r.createdAt ==>
              After(st, c).evaluations == st.evaluations
  {
    if c.now >= r.createdAt && HistoryOf(st, r.id) != [] {
      assert Evaluating(st, r, c).Raised?;
    }
  }
}
