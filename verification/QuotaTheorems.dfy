/** The daily limits hold over every run of submissions, recorded swap pairs or not. */
module QuotaTheorems {
  import opened Pipeline
  import opened PipelineTheorems
  import opened Quotas
  import opened Sorting
  import opened Wrappers

  /** The other rules report rule identifiers. */
  ghost predicate GoodSubmission(s: Submission) {
    && (forall r | r in s.before :: IsRuleId(r))
    && (forall r | r in s.after :: IsRuleId(r))
  }

  lemma BuyBrakeIsRule()
    ensures IsRuleId(BUY_BRAKE)
  {
  }

  lemma BuyLimitIsRule()
    ensures IsRuleId(BUY_LIMIT)
  {
  }

  lemma SellBrakeIsRule()
    ensures IsRuleId(SELL_BRAKE)
  {
  }

  lemma CountReasonsAreRules(c: Counts, r: Record)
    ensures forall reason | reason in CountReasons(c, r) :: IsRuleId(reason)
  {
    BuyBrakeIsRule();
    BuyLimitIsRule();
    SellBrakeIsRule();
    assert forall reason | reason in CountReasons(c, r) ::
        reason == BUY_BRAKE || reason == BUY_LIMIT || reason == SELL_BRAKE;
  }

  lemma CallIsJudged(w: World, desk: Desk, s: Submission)
    requires GoodSubmission(s)
    ensures Judged(CallOf(w, desk, s))
  {
    if s.request.WellFormed? && s.mode == Live {
      CountReasonsAreRules(CountsFor(w, desk, s, s.request.record), s.request.record);
    }
  }

  // ----- What a call can add -----

  /** An intent appears only with its own well-formed record, just judged and approved. */
  lemma NewIntent(st: State, c: Call, id: string)
    requires Shape(st, id) && Judged(c) && id !in st.intents && id in After(st, c).intents
    ensures CallId(c) == Some(id) && c.request.WellFormed? && c.verdict.approved
    ensures var st' := After(st, c);
            && id in st'.records && st'.records[id] == c.request.record
            && SideOf(c.request.record.decision) == Some(st'.intents[id].side)
            && st'.intents[id] == Intent(st'.intents[id].side, c.now, c.mode, c.profile)
  {
    if CallId(c) != Some(id) { OthersUntouched(st, c, id); }
    StepKeepsShape(st, c, id);
    assert EndsWithIntent(After(st, c), id);
    assert c.request.WellFormed? by {
      if c.request.Malformed? { FailingShapes(st, id, "schema"); }
    }
    if Saved(st, id) { ReplayIsInert(st, c.request.record, c); }
    FirstEvaluation(st, c);
  }

  lemma KeptIntent(st: State, c: Call, id: string)
    requires Shape(st, id) && Judged(c) && id in st.intents
    ensures id in After(st, c).intents && After(st, c).intents[id] == st.intents[id]
    ensures id in st.records && id in After(st, c).records && After(st, c).records[id] == st.records[id]
  {
    StepKeepsEvaluation(st, c, id);
  }

  /** The intents after a call are those before it and perhaps one more, the call's own. */
  lemma CallAdds(st: State, c: Call)
    requires PipelineTheorems.Inv(st) && Judged(c)
    ensures forall id | id in After(st, c).intents :: id in st.intents || CallId(c) == Some(id)
    ensures forall id | id in st.intents ::
              && id in After(st, c).intents && After(st, c).intents[id] == st.intents[id]
              && id in st.records && id in After(st, c).records
              && After(st, c).records[id] == st.records[id]
  {
    forall id | id in After(st, c).intents ensures id in st.intents || CallId(c) == Some(id) {
      if id !in st.intents { NewIntent(st, c, id); }
    }
    forall id | id in st.intents
      ensures id in After(st, c).intents && After(st, c).intents[id] == st.intents[id]
      ensures id in st.records && id in After(st, c).records
      ensures After(st, c).records[id] == st.records[id]
    {
      KeptIntent(st, c, id);
    }
  }

  /** A well-formed call that returns and leaves its decision an intent leaves the very record it
      carried, on the side of the intent. */
  lemma PlacedIsOwn(st: State, c: Call)
    requires PipelineTheorems.Inv(st) && Judged(c) && c.request.WellFormed? && Process(st, c).Done?
    requires c.request.record.id in After(st, c).intents
    ensures var r, st' := c.request.record, After(st, c);
            && r.id in st'.records && st'.records[r.id] == r
            && SideOf(r.decision) == Some(st'.intents[r.id].side)
  {
    var r := c.request.record;
    StepKeepsShape(st, c, r.id);
    if r.id in st.intents {
      ReplayIsInert(st, r, c);
    } else {
      NewIntent(st, c, r.id);
    }
  }

  // ----- The invariant -----

  /** Every pair was due, and what is due is an intent that buys. */
  ghost predicate PairsAreBuys(desk: Desk) {
    && desk.pairs <= desk.due
    && (forall id | id in desk.due ::
          id in desk.ledger.intents && desk.ledger.intents[id].side == BuySide)
    && (forall id | id in desk.swaps :: id in desk.ledger.intents)
  }

  /** Ordinary buys that no recorded pair takes out of the count. */
  function Counted(w: World, desk: Desk, profile: string, on: int): set<string> {
    OrdinaryBuys(w, desk, profile, on) - desk.pairs
  }

  ghost predicate Within(w: World, desk: Desk, profile: string, on: int) {
    && |Buys(w, desk.ledger, profile, on)| <= BUYS_PER_DAY
    && |Sells(w, desk.ledger, profile, on)| <= SELLS_PER_DAY
    && |Counted(w, desk, profile, on)| <= ORDINARY_BUYS_PER_DAY
  }

  ghost predicate DeskInv(w: World, desk: Desk) {
    && PipelineTheorems.Inv(desk.ledger) && PairsAreBuys(desk)
    && (forall profile, on :: Within(w, desk, profile, on))
  }

  lemma Disjoint(a: set<string>, b: set<string>, whole: set<string>)
    requires a !! b && a <= whole && b <= whole
    ensures |a| + |b| <= |whole|
  {
    SubsetCounts(a + b, whole);
    assert |a + b| == |a| + |b|;
  }

  lemma OneMore(a: set<string>, b: set<string>, id: string)
    requires b <= a + {id}
    ensures |b| <= |a| + 1
  {
    SubsetCounts(b, a + {id});
  }

  /** Buys less pairs, which the policy judges by, is never below the ordinary buys without a pair. */
  lemma OrdinaryAreCounted(w: World, desk: Desk, profile: string, on: int)
    requires PairsAreBuys(desk)
    ensures |Counted(w, desk, profile, on)|
         <= |Buys(w, desk.ledger, profile, on)| - |SwapBuys(w, desk, profile, on)|
  {
    Disjoint(Counted(w, desk, profile, on), SwapBuys(w, desk, profile, on),
             Buys(w, desk.ledger, profile, on));
  }

  // ----- One step -----

  /** An approved live submission had passed the count rules of its own profile and day. */
  lemma ApprovedHadRoom(w: World, desk: Desk, s: Submission, r: Record)
    requires s.request == WellFormed(r) && s.mode == Live && Reasons(w, desk, s) == []
    ensures var st, on := desk.ledger, w.day(s.now);
            && (SideOf(r.decision) == Some(BuySide) ==> |Buys(w, st, s.profile, on)| < BUYS_PER_DAY)
            && (SideOf(r.decision) == Some(SellSide) ==> |Sells(w, st, s.profile, on)| < SELLS_PER_DAY)
            && (SideOf(r.decision) == Some(BuySide) && !r.extraordinary && !s.funded ==>
                  |Buys(w, st, s.profile, on)| - |SwapBuys(w, desk, s.profile, on)| < ORDINARY_BUYS_PER_DAY)
  {
    assert CountReasons(CountsFor(w, desk, s, r), r) == [];
  }

  /** The desk after a submission that returned. */
  ghost predicate Returned(w: World, desk: Desk, s: Submission, next: Desk) {
    var c := CallOf(w, desk, s);
    Process(desk.ledger, c).Done? && next == Accepted(desk, s, After(desk.ledger, c))
  }

  /** A submission that adds nothing of a kind to a day leaves that day's counts. */
  lemma NothingNew(w: World, desk: Desk, s: Submission, next: Desk, profile: string, on: int)
    requires GoodSubmission(s) && DeskInv(w, desk) && Returned(w, desk, s, next)
    requires forall id | id in LiveIntents(w, next.ledger, profile, on) :: id in desk.ledger.intents
    ensures Within(w, next, profile, on)
  {
    CallIsJudged(w, desk, s);
    CallAdds(desk.ledger, CallOf(w, desk, s));
    assert Within(w, desk, profile, on);
    SubsetCounts(Buys(w, next.ledger, profile, on), Buys(w, desk.ledger, profile, on));
    SubsetCounts(Sells(w, next.ledger, profile, on), Sells(w, desk.ledger, profile, on));
    SubsetCounts(Counted(w, next, profile, on), Counted(w, desk, profile, on));
  }

  /** One more intent, in the tables of a day. */
  ghost predicate Adds(desk: Desk, next: Desk, r: Record, funded: bool) {
    && r.id !in desk.ledger.intents && r.id in next.ledger.intents && r.id in next.ledger.records
    && next.ledger.records[r.id] == r && SideOf(r.decision) == Some(next.ledger.intents[r.id].side)
    && next.pairs == desk.pairs && next.swaps == desk.swaps + (if funded then {r.id} else {})
    && (forall k | k in next.ledger.intents :: k in desk.ledger.intents || k == r.id)
    && (forall k | k in desk.ledger.intents ::
          && k in next.ledger.intents && next.ledger.intents[k] == desk.ledger.intents[k]
          && k in desk.ledger.records && k in next.ledger.records
          && next.ledger.records[k] == desk.ledger.records[k])
  }

  /** How one more intent moves a day's sets. */
  lemma DayAfter(w: World, desk: Desk, next: Desk, r: Record, funded: bool, profile: string, on: int)
    requires Adds(desk, next, r, funded)
    ensures |Buys(w, next.ledger, profile, on)|
         <= |Buys(w, desk.ledger, profile, on)| + if Increasing(r) then 1 else 0
    ensures |Sells(w, next.ledger, profile, on)|
         <= |Sells(w, desk.ledger, profile, on)| + if Reducing(r) then 1 else 0
    ensures |Counted(w, next, profile, on)|
         <= |Counted(w, desk, profile, on)| + if Increasing(r) && !r.extraordinary && !funded then 1 else 0
  {
    var st, st' := desk.ledger, next.ledger;
    OneMore(Buys(w, st, profile, on), Buys(w, st', profile, on), r.id);
    OneMore(Sells(w, st, profile, on), Sells(w, st', profile, on), r.id);
    OneMore(Counted(w, desk, profile, on), Counted(w, next, profile, on), r.id);
    if !Increasing(r) {
      SubsetCounts(Buys(w, st', profile, on), Buys(w, st, profile, on));
    }
    if !Reducing(r) {
      SubsetCounts(Sells(w, st', profile, on), Sells(w, st, profile, on));
    }
    if !(Increasing(r) && !r.extraordinary && !funded) {
      SubsetCounts(Counted(w, next, profile, on), Counted(w, desk, profile, on));
    }
  }

  lemma NewIntentFits(w: World, desk: Desk, s: Submission, next: Desk, id: string)
    requires GoodSubmission(s) && DeskInv(w, desk) && Returned(w, desk, s, next)
    requires s.mode == Live && id !in desk.ledger.intents && id in next.ledger.intents
    ensures Within(w, next, s.profile, w.day(s.now))
  {
    var c := CallOf(w, desk, s);
    CallIsJudged(w, desk, s);
    NewIntent(desk.ledger, c, id);
    CallAdds(desk.ledger, c);
    var r := s.request.record;
    ApprovedHadRoom(w, desk, s, r);
    OrdinaryAreCounted(w, desk, s.profile, w.day(s.now));
    assert Within(w, desk, s.profile, w.day(s.now));
    DayAfter(w, desk, next, r, s.funded, s.profile, w.day(s.now));
  }

  lemma SubmitKeepsDay(w: World, desk: Desk, s: Submission, next: Desk, profile: string, on: int)
    requires GoodSubmission(s) && DeskInv(w, desk) && Returned(w, desk, s, next)
    ensures Within(w, next, profile, on)
  {
    CallIsJudged(w, desk, s);
    if id :| id in LiveIntents(w, next.ledger, profile, on) && id !in desk.ledger.intents {
      NewIntent(desk.ledger, CallOf(w, desk, s), id);
      NewIntentFits(w, desk, s, next, id);
    } else {
      NothingNew(w, desk, s, next, profile, on);
    }
  }

  lemma SubmitKeepsPairs(w: World, desk: Desk, s: Submission, next: Desk)
    requires GoodSubmission(s) && DeskInv(w, desk) && Returned(w, desk, s, next)
    ensures PairsAreBuys(next)
  {
    var c := CallOf(w, desk, s);
    CallIsJudged(w, desk, s);
    CallAdds(desk.ledger, c);
    if s.request.WellFormed? && s.request.record.id in next.ledger.intents {
      PlacedIsOwn(desk.ledger, c);
    }
  }

  lemma SubmitKeepsInv(w: World, desk: Desk, s: Submission, next: Desk)
    requires GoodSubmission(s) && DeskInv(w, desk) && Returned(w, desk, s, next)
    ensures DeskInv(w, next)
  {
    CallIsJudged(w, desk, s);
    SubmitKeepsPairs(w, desk, s, next);
    forall id ensures Shape(next.ledger, id) {
      StepKeepsShape(desk.ledger, CallOf(w, desk, s), id);
    }
    forall profile, on ensures Within(w, next, profile, on) {
      SubmitKeepsDay(w, desk, s, next, profile, on);
    }
  }

  ghost predicate GoodOp(op: Op) {
    op.Submit? ==> GoodSubmission(op.submission)
  }

  lemma StepKeepsLimits(w: World, desk: Desk, op: Op)
    requires GoodOp(op) && DeskInv(w, desk)
    ensures DeskInv(w, Step(w, desk, op))
  {
    var next := Step(w, desk, op);
    match op
    case Submit(s) =>
      if next != desk { SubmitKeepsInv(w, desk, s, next); }
    case RecordPair(id) =>
      forall profile, on ensures Within(w, next, profile, on) {
        assert Within(w, desk, profile, on);
        SubsetCounts(Counted(w, next, profile, on), Counted(w, desk, profile, on));
      }
  }

  // ----- Whole runs -----

  const OPENING := Desk(EMPTY, {}, {}, {})

  lemma OpeningHolds(w: World)
    ensures DeskInv(w, OPENING)
  {
    forall profile, on ensures Within(w, OPENING, profile, on) {
      assert Buys(w, EMPTY, profile, on) == {} && Sells(w, EMPTY, profile, on) == {};
      assert OrdinaryBuys(w, OPENING, profile, on) == {};
    }
  }

  function RunDesk(w: World, desk: Desk, ops: seq<Op>): Desk
    decreases |ops|
  {
    if ops == [] then desk else RunDesk(w, Step(w, desk, ops[0]), ops[1..])
  }

  lemma {:induction false} RunKeepsLimits(w: World, desk: Desk, ops: seq<Op>)
    requires DeskInv(w, desk) && forall op | op in ops :: GoodOp(op)
    ensures DeskInv(w, RunDesk(w, desk, ops))
    decreases |ops|
  {
    if ops != [] {
      StepKeepsLimits(w, desk, ops[0]);
      RunKeepsLimits(w, Step(w, desk, ops[0]), ops[1..]);
    }
  }

  /** Over any serialised run of submissions, live or paper, replayed or new, on any clock, with any
      flag on each, and with the pairs they allow recorded at once, later or never: each profile has on
      each New York day at most five intents that buy and ten that sell, and at most two ordinary buys
      besides those that a pair names. */
  lemma DailyLimitsHold(w: World, ops: seq<Op>, profile: string, on: int)
    requires forall op | op in ops :: GoodOp(op)
    ensures var desk := RunDesk(w, OPENING, ops);
            && |Buys(w, desk.ledger, profile, on)| <= 5
            && |Sells(w, desk.ledger, profile, on)| <= 10
            && |OrdinaryBuys(w, desk, profile, on)|
               <= 2 + |OrdinaryBuys(w, desk, profile, on) * SwapBuys(w, desk, profile, on)|
  {
    OpeningHolds(w);
    RunKeepsLimits(w, OPENING, ops);
    var desk := RunDesk(w, OPENING, ops);
    assert Within(w, desk, profile, on);
    var ordinary, paired := OrdinaryBuys(w, desk, profile, on), SwapBuys(w, desk, profile, on);
    assert ordinary == Counted(w, desk, profile, on) + ordinary * paired;
  }

  // ----- When a day's ordinary buys grow, exactly -----

  ghost predicate NeverSeen(desk: Desk, id: string) {
    Unsaved(desk.ledger, id) && HistoryOf(desk.ledger, id) == []
  }

  lemma ReachesApproval(st: State, r: Record, c: Call) returns (s4: State)
    requires SideOf(r.decision).Some? && c.verdict.approved && c.bound
    requires Unsaved(st, r.id) && HistoryOf(st, r.id) == []
    ensures Evaluating(st, r, c) == Finishing(WithIntent(s4, r, c), r)
    ensures s4.records == st.records[r.id := r] && s4.intents == st.intents
    ensures HistoryOf(s4, r.id) == APPROVED_PATH
  {
    var path := [Event(RecordCreated, ""), Event(SchemaValidated, "")];
    var s0 := st.(records := st.records[r.id := r]);
    AppendIs(s0, r.id, RecordCreated, "", []);
    var s1 := Append(s0, r.id, RecordCreated, "").value;
    AppendIs(s1, r.id, SchemaValidated, "", [Event(RecordCreated, "")]);
    var s3 := SaveEvaluation(Append(s1, r.id, SchemaValidated, "").value, r, c).value;
    AppendIs(s3, r.id, PolicyApproved, "", path);
    s4 := Append(s3, r.id, PolicyApproved, "").value;
  }

  /** The first submission of an order that passes every rule leaves its intent. */
  lemma FreshIsPlaced(st: State, r: Record, c: Call)
    requires c.request == WellFormed(r) && SideOf(r.decision).Some? && c.verdict.approved && c.bound
    requires Unsaved(st, r.id) && HistoryOf(st, r.id) == [] && r.createdAt <= c.now
    requires ScopeValid(c.mode, c.profile)
    ensures Process(st, c).Done?
    ensures After(st, c).records == st.records[r.id := r]
    ensures After(st, c).intents
         == st.intents[r.id := Intent(SideOf(r.decision).value, c.now, c.mode, c.profile)]
  {
    var s4 := ReachesApproval(st, r, c);
    var intent := Intent(SideOf(r.decision).value, c.now, c.mode, c.profile);
    var placed := s4.(intents := s4.intents[r.id := intent]);
    AppendIs(placed, r.id, IntentCreated, "", APPROVED_PATH);
    assert Process(st, c) == Evaluating(st, r, c);
  }

  /** And only such a submission does. */
  lemma PlacedWasFresh(st: State, r: Record, c: Call)
    requires c.request == WellFormed(r) && Shape(st, r.id) && Judged(c)
    requires r.id !in st.intents && r.id in After(st, c).intents
    ensures SideOf(r.decision).Some? && c.verdict.approved && c.bound
    ensures Unsaved(st, r.id) && HistoryOf(st, r.id) == [] && r.createdAt <= c.now
    ensures ScopeValid(c.mode, c.profile)
  {
    NewIntent(st, c, r.id);
    if Saved(st, r.id) { ReplayIsInert(st, r, c); }
    StepKeepsShape(st, c, r.id);
    OnlyFreshIsEvaluated(st, r, c);
    if !ScopeValid(c.mode, c.profile) {
      var s4 := ReachesApproval(st, r, c);
    }
  }

  /** A live purchase, neither extraordinary nor funded, submitted for the first time, that no other rule
      or guard stops. */
  ghost predicate AsksOrdinary(desk: Desk, s: Submission) {
    match s.request
    case Malformed(_) => false
    case WellFormed(r) =>
      && s.mode == Live && Increasing(r) && !r.extraordinary && !s.funded
      && NeverSeen(desk, r.id) && s.admitted && s.bound && r.createdAt <= s.now && !Blank(s.profile)
      && s.before == [] && s.after == []
  }

  /** The guard that the policy evaluates: fewer than five buys today, and fewer than two of them without
      a recorded pair. */
  predicate CountsLeaveRoom(w: World, desk: Desk, profile: string, on: int) {
    && |Buys(w, desk.ledger, profile, on)| < BUYS_PER_DAY
    && |Buys(w, desk.ledger, profile, on)| - |SwapBuys(w, desk, profile, on)| < ORDINARY_BUYS_PER_DAY
  }

  ghost predicate AddsOrdinary(w: World, desk: Desk, op: Op, profile: string, on: int) {
    && op.Submit? && AsksOrdinary(desk, op.submission)
    && op.submission.profile == profile && w.day(op.submission.now) == on
    && CountsLeaveRoom(w, desk, profile, on)
  }

  /** The ordinary buy that an operation adds, if it adds one. */
  ghost function Added(w: World, desk: Desk, op: Op, profile: string, on: int): set<string> {
    if AddsOrdinary(w, desk, op, profile, on) then {op.submission.request.record.id} else {}
  }

  lemma RoomMeansNoReason(w: World, desk: Desk, s: Submission)
    requires AsksOrdinary(desk, s) && CountsLeaveRoom(w, desk, s.profile, w.day(s.now))
    ensures CallOf(w, desk, s) == Call(s.request, Verdict(true, []), true, s.now, Live, s.profile)
  {
    assert CountReasons(CountsFor(w, desk, s, s.request.record), s.request.record) == [];
  }

  /** A submission without funding that returns changes nothing but the ledger. */
  lemma UnfundedStep(w: World, desk: Desk, s: Submission, c: Call)
    requires !s.funded && s.admitted && c == CallOf(w, desk, s) && Process(desk.ledger, c).Done?
    ensures Step(w, desk, Submit(s)) == desk.(ledger := After(desk.ledger, c))
  {
  }

  /** The desk after an ordinary buy is placed. */
  function WithBuy(desk: Desk, st: State, s: Submission, r: Record): Desk {
    desk.(ledger := st.(records := desk.ledger.records[r.id := r],
                        intents := desk.ledger.intents[r.id := Intent(BuySide, s.now, Live, s.profile)]))
  }

  lemma OrdinaryBuyIsPlaced(w: World, desk: Desk, s: Submission) returns (st: State)
    requires AsksOrdinary(desk, s) && CountsLeaveRoom(w, desk, s.profile, w.day(s.now))
    ensures Step(w, desk, Submit(s)) == WithBuy(desk, st, s, s.request.record)
  {
    var c := CallOf(w, desk, s);
    RoomMeansNoReason(w, desk, s);
    FreshIsPlaced(desk.ledger, s.request.record, c);
    UnfundedStep(w, desk, s, c);
    st := After(desk.ledger, c);
  }

  lemma OneMoreOrdinary(w: World, desk: Desk, st: State, s: Submission, r: Record, profile: string, on: int)
    requires r.id !in desk.ledger.intents && !r.extraordinary && r.id !in desk.swaps
    ensures OrdinaryBuys(w, WithBuy(desk, st, s, r), profile, on)
         == OrdinaryBuys(w, desk, profile, on)
            + (if s.profile == profile && w.day(s.now) == on then {r.id} else {})
  {
  }

  /** A new ordinary buy was asked for as one, and the counts left room. */
  lemma NewOrdinaryWasAsked(w: World, desk: Desk, s: Submission, next: Desk, profile: string, on: int, id: string)
    requires GoodSubmission(s) && DeskInv(w, desk) && s.admitted && Returned(w, desk, s, next)
    requires id in OrdinaryBuys(w, next, profile, on) && id !in desk.ledger.intents
    ensures AddsOrdinary(w, desk, Submit(s), profile, on)
  {
    var c := CallOf(w, desk, s);
    CallIsJudged(w, desk, s);
    NewIntent(desk.ledger, c, id);
    PlacedWasFresh(desk.ledger, s.request.record, c);
    ApprovedHadRoom(w, desk, s, s.request.record);
  }

  lemma OldOrdinaryStays(w: World, desk: Desk, s: Submission, next: Desk, profile: string, on: int, id: string)
    requires GoodSubmission(s) && DeskInv(w, desk) && Returned(w, desk, s, next) && id in desk.ledger.intents
    ensures id in OrdinaryBuys(w, next, profile, on) <==> id in OrdinaryBuys(w, desk, profile, on)
  {
    CallIsJudged(w, desk, s);
    CallAdds(desk.ledger, CallOf(w, desk, s));
  }

  lemma OthersAddNothing(w: World, desk: Desk, op: Op, profile: string, on: int)
    requires GoodOp(op) && DeskInv(w, desk) && !AddsOrdinary(w, desk, op, profile, on)
    ensures OrdinaryBuys(w, Step(w, desk, op), profile, on) == OrdinaryBuys(w, desk, profile, on)
  {
    var next := Step(w, desk, op);
    if op.Submit? && next != desk {
      forall id ensures id in OrdinaryBuys(w, next, profile, on) <==> id in OrdinaryBuys(w, desk, profile, on) {
        if id in desk.ledger.intents {
          OldOrdinaryStays(w, desk, op.submission, next, profile, on, id);
        } else if id in OrdinaryBuys(w, next, profile, on) {
          NewOrdinaryWasAsked(w, desk, op.submission, next, profile, on, id);
        }
      }
    }
  }

  /** An operation on a reachable desk adds exactly the ordinary buy that is asked for while the counts
      leave room; ordinary buys are never lost. */
  lemma OrdinaryBuysGrowExactly(w: World, desk: Desk, op: Op, profile: string, on: int)
    requires GoodOp(op) && DeskInv(w, desk)
    ensures OrdinaryBuys(w, Step(w, desk, op), profile, on)
         == OrdinaryBuys(w, desk, profile, on) + Added(w, desk, op, profile, on)
    ensures OrdinaryBuys(w, desk, profile, on) !! Added(w, desk, op, profile, on)
  {
    if AddsOrdinary(w, desk, op, profile, on) {
      var s := op.submission;
      var st := OrdinaryBuyIsPlaced(w, desk, s);
      OneMoreOrdinary(w, desk, st, s, s.request.record, profile, on);
    } else {
      OthersAddNothing(w, desk, op, profile, on);
    }
  }

  /** A third ordinary buy on a day with two passes if and only if the guard of the policy lets it, and
      then a recorded pair names one of the two. */
  lemma ThirdOrdinaryBuyExactly(w: World, desk: Desk, op: Op, profile: string, on: int)
    requires GoodOp(op) && DeskInv(w, desk) && |OrdinaryBuys(w, desk, profile, on)| <= 2
    ensures 2 < |OrdinaryBuys(w, Step(w, desk, op), profile, on)|
       <==> |OrdinaryBuys(w, desk, profile, on)| == 2 && AddsOrdinary(w, desk, op, profile, on)
    ensures 2 < |OrdinaryBuys(w, Step(w, desk, op), profile, on)| ==>
              OrdinaryBuys(w, desk, profile, on) * SwapBuys(w, desk, profile, on) != {}
  {
    OrdinaryBuysGrowExactly(w, desk, op, profile, on);
    if OrdinaryBuys(w, desk, profile, on) * SwapBuys(w, desk, profile, on) == {} {
      Disjoint(OrdinaryBuys(w, desk, profile, on), SwapBuys(w, desk, profile, on),
               Buys(w, desk.ledger, profile, on));
    }
  }

  /** Some operation of the run adds an ordinary buy to a day that has two. */
  ghost predicate Overflows(w: World, desk: Desk, ops: seq<Op>, profile: string, on: int)
    decreases |ops|
  {
    ops != []
    && ((|OrdinaryBuys(w, desk, profile, on)| == 2 && AddsOrdinary(w, desk, ops[0], profile, on))
        || Overflows(w, Step(w, desk, ops[0]), ops[1..], profile, on))
  }

  lemma {:induction false} OrdinaryBuysStay(w: World, desk: Desk, ops: seq<Op>, profile: string, on: int)
    requires DeskInv(w, desk) && forall op | op in ops :: GoodOp(op)
    ensures OrdinaryBuys(w, desk, profile, on) <= OrdinaryBuys(w, RunDesk(w, desk, ops), profile, on)
    decreases |ops|
  {
    if ops != [] {
      OrdinaryBuysGrowExactly(w, desk, ops[0], profile, on);
      StepKeepsLimits(w, desk, ops[0]);
      OrdinaryBuysStay(w, Step(w, desk, ops[0]), ops[1..], profile, on);
    }
  }

  lemma {:induction false} RunExceedsExactly(w: World, desk: Desk, ops: seq<Op>, profile: string, on: int)
    requires DeskInv(w, desk) && forall op | op in ops :: GoodOp(op)
    requires |OrdinaryBuys(w, desk, profile, on)| <= 2
    ensures 2 < |OrdinaryBuys(w, RunDesk(w, desk, ops), profile, on)| <==> Overflows(w, desk, ops, profile, on)
    decreases |ops|
  {
    if ops != [] {
      var next := Step(w, desk, ops[0]);
      ThirdOrdinaryBuyExactly(w, desk, ops[0], profile, on);
      StepKeepsLimits(w, desk, ops[0]);
      if |OrdinaryBuys(w, next, profile, on)| <= 2 {
        RunExceedsExactly(w, next, ops[1..], profile, on);
      } else {
        OrdinaryBuysStay(w, next, ops[1..], profile, on);
        SubsetCounts(OrdinaryBuys(w, next, profile, on), OrdinaryBuys(w, RunDesk(w, desk, ops), profile, on));
      }
    }
  }

  /** Over any run a day comes to more than two ordinary buys if and only if some operation of it asks for
      one while two stand and the policy's guard, buys and unpaired buys below their limits, holds. */
  lemma TwoOrdinaryBuysExactly(w: World, ops: seq<Op>, profile: string, on: int)
    requires forall op | op in ops :: GoodOp(op)
    ensures |OrdinaryBuys(w, RunDesk(w, OPENING, ops), profile, on)| <= 2
       <==> !Overflows(w, OPENING, ops, profile, on)
  {
    OpeningHolds(w);
    assert OrdinaryBuys(w, OPENING, profile, on) == {};
    RunExceedsExactly(w, OPENING, ops, profile, on);
  }

  // ----- When the limit on ordinary buys is two -----

  /** All submissions of one decision say the same of its funding. A decision's identifier carries its
      attempt, and within an attempt sales are submitted before the buys they fund. */
  ghost predicate Agree(ops: seq<Op>, funded: string -> bool) {
    forall op | op in ops && op.Submit? && op.submission.request.WellFormed? ::
      op.submission.funded == funded(op.submission.request.record.id)
  }

  ghost predicate PairsWereSwaps(desk: Desk, funded: string -> bool) {
    && desk.pairs <= desk.due <= desk.swaps
    && (forall id | id in desk.ledger.intents :: id in desk.swaps <==> funded(id))
  }

  lemma StepKeepsSwaps(w: World, desk: Desk, op: Op, funded: string -> bool)
    requires GoodOp(op) && DeskInv(w, desk) && PairsWereSwaps(desk, funded) && Agree([op], funded)
    ensures PairsWereSwaps(Step(w, desk, op), funded)
  {
    if op.Submit? && Step(w, desk, op) != desk {
      assert op in [op];
      CallIsJudged(w, desk, op.submission);
      var c := CallOf(w, desk, op.submission);
      CallAdds(desk.ledger, c);
      if id :| id in After(desk.ledger, c).intents && id !in desk.ledger.intents {
        NewIntent(desk.ledger, c, id);
      }
    }
  }

  lemma {:induction false} RunKeepsSwaps(w: World, desk: Desk, ops: seq<Op>, funded: string -> bool)
    requires forall op | op in ops :: GoodOp(op)
    requires DeskInv(w, desk) && PairsWereSwaps(desk, funded) && Agree(ops, funded)
    ensures PairsWereSwaps(RunDesk(w, desk, ops), funded)
    decreases |ops|
  {
    if ops != [] {
      StepKeepsSwaps(w, desk, ops[0], funded);
      StepKeepsLimits(w, desk, ops[0]);
      RunKeepsSwaps(w, Step(w, desk, ops[0]), ops[1..], funded);
    }
  }

  /** When all submissions of a decision agree on its funding, no pair names an ordinary buy, and a day
      has at most two of them. */
  lemma AgreeingRunsHaveTwoOrdinaryBuys(
    w: World, ops: seq<Op>, funded: string -> bool, profile: string, on: int)
    requires (forall op | op in ops :: GoodOp(op)) && Agree(ops, funded)
    ensures |OrdinaryBuys(w, RunDesk(w, OPENING, ops), profile, on)| <= 2
  {
    OpeningHolds(w);
    RunKeepsSwaps(w, OPENING, ops, funded);
    DailyLimitsHold(w, ops, profile, on);
    var desk := RunDesk(w, OPENING, ops);
    assert OrdinaryBuys(w, desk, profile, on) * SwapBuys(w, desk, profile, on) == {};
  }
}
