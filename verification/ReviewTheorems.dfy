/** Reviews and manual submissions, interleaved: a day has two ordinary buys as long as the manual ones
    keep out of the attempts' namespaces, and can have three when one does not. */
module ReviewTheorems {
  import opened Pipeline
  import opened PipelineTheorems
  import opened Quotas
  import opened QuotaTheorems
  import opened Reviews
  import opened Sorting
  import opened Wrappers

  // ----- Any number of attempts over the same tables -----

  /** Attempts go by the namespace that their decisions carry. */
  datatype Office = Office(desk: Desk, tags: map<string, string>, attempts: map<string, Progress>)

  datatype Act =
    | Begin(space: string, review: Review, drafts: seq<Record>)
    | Next(space: string, env: Env)
    | Pair(space: string, holds: bool)
    | Manual(submission: Submission)

  function BenchOf(o: Office, space: string): Bench
    requires space in o.attempts
  {
    Bench(o.desk, o.tags, o.attempts[space])
  }

  function Back(o: Office, space: string, b: Bench): Office {
    Office(b.desk, b.tags, o.attempts[space := b.progress])
  }

  /** One transaction of one attempt, or a submission by hand, which names no funding sale. */
  function Do(w: World, o: Office, act: Act): Office {
    match act
    case Begin(space, review, drafts) =>
      if space in o.attempts then o
      else o.(attempts := o.attempts[space := Starting(review, drafts)])
    case Next(space, env) =>
      if space in o.attempts && o.attempts[space].left != [] && o.attempts[space].owed.None? then
        Back(o, space, Turn(w, BenchOf(o, space), space, env))
      else o
    case Pair(space, holds) =>
      if space in o.attempts then Back(o, space, Pairing(w, BenchOf(o, space), holds)) else o
    case Manual(s) => o.(desk := Step(w, o.desk, Submit(s.(funded := false))))
  }

  function DoAll(w: World, o: Office, acts: seq<Act>): Office
    decreases |acts|
  {
    if acts == [] then o else DoAll(w, Do(w, o, acts[0]), acts[1..])
  }

  const OPEN := Office(OPENING, map[], map[])

  // ----- The loop is its transactions -----

  function Alternating(space: string, env: nat -> Env, holds: nat -> bool, n: nat, count: nat): seq<Act>
    decreases count
  {
    if count == 0 then []
    else [Next(space, env(n)), Pair(space, holds(n))] + Alternating(space, env, holds, n + 1, count - 1)
  }

  lemma DoTwo(w: World, o: Office, a: Act, b: Act, rest: seq<Act>)
    ensures DoAll(w, o, [a, b] + rest) == DoAll(w, Do(w, Do(w, o, a), b), rest)
  {
    assert ([a, b] + rest)[1..] == [b] + rest;
    assert ([b] + rest)[1..] == rest;
  }

  lemma BackTwice(o: Office, space: string, a: Bench, b: Bench)
    ensures Back(Back(o, space, a), space, b) == Back(o, space, b)
    ensures BenchOf(Back(o, space, a), space) == a
  {
    assert o.attempts[space := a.progress][space := b.progress] == o.attempts[space := b.progress];
  }

  lemma BackUnchanged(o: Office, space: string)
    requires space in o.attempts
    ensures Back(o, space, BenchOf(o, space)) == o
  {
    assert o.attempts[space := o.attempts[space]] == o.attempts;
  }

  lemma OneRound(w: World, o: Office, space: string, env: Env, holds: bool)
    requires space in o.attempts && o.attempts[space].left != [] && o.attempts[space].owed.None?
    ensures Do(w, Do(w, o, Next(space, env)), Pair(space, holds))
         == Back(o, space, Pairing(w, Turn(w, BenchOf(o, space), space, env), holds))
  {
    var b := Turn(w, BenchOf(o, space), space, env);
    BackTwice(o, space, b, Pairing(w, b, holds));
  }

  lemma {:induction false} EndedStays(
    w: World, o: Office, space: string, env: nat -> Env, holds: nat -> bool, n: nat, count: nat)
    requires space in o.attempts && o.attempts[space].left == [] && o.attempts[space].owed.None?
    ensures DoAll(w, o, Alternating(space, env, holds, n, count)) == o
    decreases count
  {
    if count != 0 {
      var rest := Alternating(space, env, holds, n + 1, count - 1);
      DoTwo(w, o, Next(space, env(n)), Pair(space, holds(n)), rest);
      BackUnchanged(o, space);
      EndedStays(w, o, space, env, holds, n + 1, count - 1);
    }
  }

  /** Running the loop to its end is taking its transactions one by one. */
  lemma {:induction false} LoopIsItsTransactions(
    w: World, o: Office, space: string, env: nat -> Env, holds: nat -> bool, n: nat, count: nat)
    requires space in o.attempts && o.attempts[space].owed.None? && |o.attempts[space].left| <= count
    ensures DoAll(w, o, Alternating(space, env, holds, n, count))
         == Back(o, space, Finish(w, BenchOf(o, space), space, env, holds, n))
    decreases count
  {
    if o.attempts[space].left == [] {
      EndedStays(w, o, space, env, holds, n, count);
      BackUnchanged(o, space);
    } else {
      var rest := Alternating(space, env, holds, n + 1, count - 1);
      DoTwo(w, o, Next(space, env(n)), Pair(space, holds(n)), rest);
      OneRound(w, o, space, env(n), holds(n));
      var b := Pairing(w, Turn(w, BenchOf(o, space), space, env(n)), holds(n));
      var next := Back(o, space, b);
      BackTwice(o, space, b, Finish(w, b, space, env, holds, n + 1));
      LoopIsItsTransactions(w, next, space, env, holds, n + 1, count - 1);
    }
  }

  // ----- What every transaction keeps -----

  ghost predicate Inside(spaces: set<string>, id: string) {
    exists space | space in spaces :: space <= id
  }

  /** No decision left to go is a sale. */
  predicate NoSales(drafts: seq<Record>) {
    forall r | r in drafts :: !Reducing(r)
  }

  /** What an attempt has bought was funded exactly as its accepted sales say, now that no sale is to go. */
  ghost predicate BoughtAsFunded(w: World, b: Bench, space: string) {
    forall id | id in b.desk.ledger.intents && TagOf(b.tags, id) == space
                && id in b.desk.ledger.records && b.desk.ledger.records[id].decision == Decision.Buy ::
      && (id in b.desk.swaps <==> Funding(w, b.progress, b.desk.ledger.records[id]).Some?)
      && NoSales(b.progress.left)
  }

  /** Tags carry their namespace, and an untagged order was placed by hand, outside all of them. */
  ghost predicate TagsFit(desk: Desk, tags: map<string, string>, begun: set<string>, spaces: set<string>) {
    && (forall id | id in tags :: tags[id] in begun && tags[id] <= id)
    && (forall id | id in desk.ledger.intents && TagOf(tags, id) == "" :: !Inside(spaces, id))
  }

  ghost predicate Orderly(w: World, o: Office, spaces: set<string>) {
    && DeskInv(w, o.desk) && o.desk.due <= o.desk.swaps
    && o.attempts.Keys <= spaces && "" !in spaces && TagsFit(o.desk, o.tags, o.attempts.Keys, spaces)
    && (forall space | space in o.attempts ::
          SortedBy(o.attempts[space].left, SalesFirst) && BoughtAsFunded(w, BenchOf(o, space), space))
  }

  /** What a returned submission of `r` did to the tables. */
  ghost predicate Submitted(desk: Desk, next: Desk, s: Submission, r: Record) {
    && (forall k | k in next.ledger.intents :: k in desk.ledger.intents || k == r.id)
    && (forall k | k in desk.ledger.intents ::
          && k in next.ledger.intents && k in desk.ledger.records && k in next.ledger.records
          && next.ledger.records[k] == desk.ledger.records[k])
    && (r.id in next.ledger.intents ==> r.id in next.ledger.records && next.ledger.records[r.id] == r)
    && next.pairs == desk.pairs
    && next.swaps == desk.swaps
                     + (if s.funded && r.id in next.ledger.intents && r.id !in desk.ledger.intents then {r.id} else {})
    && next.due == desk.due
                   + (if s.funded && r.id in next.ledger.intents && s.mode == Live && r.decision == Decision.Buy
                      then {r.id} else {})
  }

  lemma SubmissionEffects(w: World, desk: Desk, s: Submission, r: Record)
    requires GoodSubmission(s) && DeskInv(w, desk) && s.request == WellFormed(r) && Passed(w, desk, s)
    ensures DeskInv(w, Step(w, desk, Submit(s))) && Submitted(desk, Step(w, desk, Submit(s)), s, r)
  {
    var c := CallOf(w, desk, s);
    CallIsJudged(w, desk, s);
    StepKeepsLimits(w, desk, Submit(s));
    CallAdds(desk.ledger, c);
    if r.id in After(desk.ledger, c).intents { PlacedIsOwn(desk.ledger, c); }
  }

  lemma SortedTail(drafts: seq<Record>)
    requires drafts != [] && SortedBy(drafts, SalesFirst)
    ensures SortedBy(drafts[1..], SalesFirst)
    ensures !Reducing(drafts[0]) ==> NoSales(drafts)
  {
    forall r | r in drafts && !Reducing(drafts[0]) ensures !Reducing(r) {
      var i :| 0 <= i < |drafts| && drafts[i] == r;
      assert i == 0 || SalesFirst(drafts[0], drafts[i]);
    }
  }

  /** The next draft, submitted and returned: what the attempt has bought is still as funded. */
  lemma TurnKeepsFunding(w: World, b: Bench, next: Desk, space: string, r: Record, s: Submission)
    requires BoughtAsFunded(w, b, space) && b.progress.left != [] && r == b.progress.left[0]
    requires SortedBy(b.progress.left, SalesFirst) && TagOf(b.tags, r.id) in {"", space} && space != ""
    requires TagOf(b.tags, r.id) == "" ==> r.id !in b.desk.ledger.intents
    requires s.funded == Funding(w, b.progress, r).Some? && Submitted(b.desk, next, s, r)
    requires forall id | id in b.desk.swaps :: id in b.desk.ledger.intents
    ensures BoughtAsFunded(w, Bench(next, Tagged(b.tags, next, space, r.id), Advanced(w, b.progress, next, r)), space)
  {
    var b' := Bench(next, Tagged(b.tags, next, space, r.id), Advanced(w, b.progress, next, r));
    SortedTail(b.progress.left);
    forall id | id in next.ledger.intents && TagOf(b'.tags, id) == space
                && id in next.ledger.records && next.ledger.records[id].decision == Decision.Buy
      ensures id in next.swaps <==> Funding(w, b'.progress, next.ledger.records[id]).Some?
      ensures NoSales(b'.progress.left)
    {
      if id in b.desk.ledger.intents {
        assert TagOf(b.tags, id) == space;
        assert r in b.progress.left;
      }
    }
  }

  lemma OthersKeepFunding(
    w: World, b: Bench, next: Desk, tags: map<string, string>, space: string, r: Record, s: Submission)
    requires BoughtAsFunded(w, b, space) && Submitted(b.desk, next, s, r)
    requires r.id in next.ledger.intents ==> TagOf(tags, r.id) != space
    requires forall id | id != r.id :: TagOf(tags, id) == TagOf(b.tags, id)
    ensures BoughtAsFunded(w, Bench(next, tags, b.progress), space)
  {
  }

  ghost predicate GoodEnv(env: Env) {
    (forall r | r in env.before :: IsRuleId(r)) && (forall r | r in env.after :: IsRuleId(r))
  }

  /** Rules report identifiers, attempts begin in `spaces`, and what is submitted by hand keeps out of
      them. */
  ghost predicate GoodAct(act: Act, spaces: set<string>) {
    match act
    case Begin(space, _, _) => space in spaces
    case Next(_, env) => GoodEnv(env)
    case Pair(_, _) => true
    case Manual(s) => GoodSubmission(s) && (s.request.WellFormed? ==> !Inside(spaces, s.request.record.id))
  }

  lemma BeginKeeps(w: World, o: Office, spaces: set<string>, act: Act)
    requires Orderly(w, o, spaces) && act.Begin? && GoodAct(act, spaces)
    ensures Orderly(w, Do(w, o, act), spaces)
  {
    var next := Do(w, o, act);
    SortSorts(act.drafts, SalesFirst);
    forall space | space in next.attempts
      ensures SortedBy(next.attempts[space].left, SalesFirst) && BoughtAsFunded(w, BenchOf(next, space), space)
    {
      assert space in o.attempts ==> BoughtAsFunded(w, BenchOf(o, space), space);
    }
  }

  lemma PairKeepsFunding(w: World, o: Office, spaces: set<string>, space: string, holds: bool, other: string)
    requires Orderly(w, o, spaces) && space in o.attempts && other in o.attempts
    ensures var next := Back(o, space, Pairing(w, BenchOf(o, space), holds));
            && SortedBy(next.attempts[other].left, SalesFirst)
            && BoughtAsFunded(w, BenchOf(next, other), other)
  {
    assert BoughtAsFunded(w, BenchOf(o, other), other);
  }

  lemma PairKeeps(w: World, o: Office, spaces: set<string>, space: string, holds: bool)
    requires Orderly(w, o, spaces)
    ensures Orderly(w, Do(w, o, Pair(space, holds)), spaces)
  {
    if space in o.attempts {
      var next := Do(w, o, Pair(space, holds));
      match o.attempts[space].owed {
        case None =>
        case Some(id) => StepKeepsLimits(w, o.desk, RecordPair(id));
      }
      forall other | other in next.attempts
        ensures SortedBy(next.attempts[other].left, SalesFirst) && BoughtAsFunded(w, BenchOf(next, other), other)
      {
        PairKeepsFunding(w, o, spaces, space, holds, other);
      }
    }
  }

  lemma ManualKeeps(w: World, o: Office, spaces: set<string>, s: Submission)
    requires Orderly(w, o, spaces) && GoodAct(Manual(s), spaces)
    ensures Orderly(w, Do(w, o, Manual(s)), spaces)
  {
    var next, asked := Do(w, o, Manual(s)), s.(funded := false);
    StepKeepsLimits(w, o.desk, Submit(asked));
    if next.desk != o.desk {
      ManualSubmitted(w, o.desk, asked);
      forall space | space in next.attempts
        ensures SortedBy(next.attempts[space].left, SalesFirst) && BoughtAsFunded(w, BenchOf(next, space), space)
      {
        assert BoughtAsFunded(w, BenchOf(o, space), space);
        ManualKeepsFunding(w, o, next.desk, spaces, asked, space);
      }
    }
  }

  /** A submission without funding, well-formed or not. */
  ghost predicate AddsUnfunded(desk: Desk, next: Desk, s: Submission) {
    && next.pairs == desk.pairs && next.swaps == desk.swaps && next.due == desk.due
    && (forall k | k in next.ledger.intents ::
          k in desk.ledger.intents || (s.request.WellFormed? && k == s.request.record.id))
    && (forall k | k in desk.ledger.intents ::
          && k in next.ledger.intents && k in desk.ledger.records && k in next.ledger.records
          && next.ledger.records[k] == desk.ledger.records[k])
  }

  lemma ManualSubmitted(w: World, desk: Desk, s: Submission)
    requires GoodSubmission(s) && DeskInv(w, desk) && !s.funded
    ensures AddsUnfunded(desk, Step(w, desk, Submit(s)), s)
  {
    CallIsJudged(w, desk, s);
    CallAdds(desk.ledger, CallOf(w, desk, s));
    forall k | k in desk.ledger.intents ensures k in desk.ledger.records {
      assert Shape(desk.ledger, k);
    }
    forall k | k in Step(w, desk, Submit(s)).ledger.intents && k !in desk.ledger.intents
      ensures s.request.WellFormed? && k == s.request.record.id
    {
      NewIntent(desk.ledger, CallOf(w, desk, s), k);
    }
  }

  lemma ManualKeepsFunding(w: World, o: Office, next: Desk, spaces: set<string>, s: Submission, space: string)
    requires Orderly(w, o, spaces) && space in o.attempts && AddsUnfunded(o.desk, next, s)
    requires s.request.WellFormed? ==> !Inside(spaces, s.request.record.id)
    ensures BoughtAsFunded(w, Bench(next, o.tags, o.attempts[space]), space)
  {
    assert BoughtAsFunded(w, BenchOf(o, space), space);
    forall id | id in next.ledger.intents && TagOf(o.tags, id) == space ensures id in o.desk.ledger.intents {
      assert space <= id;
    }
  }

  lemma EndKeeps(w: World, o: Office, spaces: set<string>, space: string)
    requires Orderly(w, o, spaces) && space in o.attempts
    ensures Orderly(w, Back(o, space, BenchOf(o, space).(progress := o.attempts[space].(left := []))), spaces)
  {
    var next := Back(o, space, BenchOf(o, space).(progress := o.attempts[space].(left := [])));
    forall other | other in next.attempts ensures BoughtAsFunded(w, BenchOf(next, other), other) {
      assert BoughtAsFunded(w, BenchOf(o, other), other);
    }
  }

  /** An order in an attempt's namespace that no attempt has tagged is not there. */
  lemma UntaggedIsUnplaced(o: Office, spaces: set<string>, space: string, id: string)
    requires TagsFit(o.desk, o.tags, o.attempts.Keys, spaces) && space in spaces && space <= id
    ensures TagOf(o.tags, id) == "" ==> id !in o.desk.ledger.intents
  {
  }

  lemma TurnKeepsTags(w: World, o: Office, spaces: set<string>, space: string, r: Record, s: Submission, desk: Desk)
    requires TagsFit(o.desk, o.tags, o.attempts.Keys, spaces) && space in o.attempts && space <= r.id && space != ""
    requires Submitted(o.desk, desk, s, r)
    ensures TagsFit(desk, Tagged(o.tags, desk, space, r.id), o.attempts.Keys, spaces)
  {
  }

  lemma TurnedKeepsFunding(
    w: World, o: Office, spaces: set<string>, space: string, r: Record, s: Submission, desk: Desk, other: string)
    requires Orderly(w, o, spaces) && space in o.attempts && other in o.attempts
    requires o.attempts[space].left != [] && r == o.attempts[space].left[0] && Claims(o.tags, space, r.id)
    requires s.funded == Funding(w, o.attempts[space], r).Some? && Submitted(o.desk, desk, s, r)
    ensures var b := Bench(desk, Tagged(o.tags, desk, space, r.id), Advanced(w, o.attempts[space], desk, r));
            BoughtAsFunded(w, BenchOf(Back(o, space, b), other), other)
  {
    assert BoughtAsFunded(w, BenchOf(o, other), other) && space in spaces;
    if other == space {
      UntaggedIsUnplaced(o, spaces, space, r.id);
      TurnKeepsFunding(w, BenchOf(o, space), desk, space, r, s);
    } else {
      OthersKeepFunding(w, BenchOf(o, other), desk, Tagged(o.tags, desk, space, r.id), other, r, s);
    }
  }

  lemma TurnedKeeps(w: World, o: Office, spaces: set<string>, space: string, r: Record, s: Submission, desk: Desk)
    requires Orderly(w, o, spaces) && space in o.attempts && DeskInv(w, desk)
    requires o.attempts[space].left != [] && r == o.attempts[space].left[0] && Claims(o.tags, space, r.id)
    requires s.funded == Funding(w, o.attempts[space], r).Some? && Submitted(o.desk, desk, s, r)
    requires r.id in o.desk.ledger.intents && s.funded && s.mode == Live && r.decision == Decision.Buy ==>
               r.id in o.desk.swaps
    ensures var b := Bench(desk, Tagged(o.tags, desk, space, r.id), Advanced(w, o.attempts[space], desk, r));
            Orderly(w, Back(o, space, b), spaces)
  {
    var b := Bench(desk, Tagged(o.tags, desk, space, r.id), Advanced(w, o.attempts[space], desk, r));
    SortedTail(o.attempts[space].left);
    TurnKeepsTags(w, o, spaces, space, r, s, desk);
    forall other | other in o.attempts ensures BoughtAsFunded(w, BenchOf(Back(o, space, b), other), other) {
      TurnedKeepsFunding(w, o, spaces, space, r, s, desk, other);
    }
  }

  /** An order of the attempt that is submitted again as funded was funded when it was placed. */
  lemma AgainAsBefore(w: World, o: Office, spaces: set<string>, space: string, r: Record)
    requires Orderly(w, o, spaces) && space in o.attempts && Claims(o.tags, space, r.id)
    requires r.id in o.desk.ledger.intents && r.id in o.desk.ledger.records && o.desk.ledger.records[r.id] == r
    ensures r.decision == Decision.Buy && Funding(w, o.attempts[space], r).Some? ==> r.id in o.desk.swaps
  {
    assert BoughtAsFunded(w, BenchOf(o, space), space) && space in spaces;
    UntaggedIsUnplaced(o, spaces, space, r.id);
  }

  lemma NextKeeps(w: World, o: Office, spaces: set<string>, space: string, env: Env)
    requires Orderly(w, o, spaces) && GoodEnv(env) && space in o.attempts
    requires o.attempts[space].left != [] && o.attempts[space].owed.None?
    ensures Orderly(w, Do(w, o, Next(space, env)), spaces)
  {
    var b := BenchOf(o, space);
    var r := b.progress.left[0];
    var s := Asked(w, b, space, r, env);
    if Passed(w, o.desk, s) {
      SubmissionEffects(w, o.desk, s, r);
      if r.id in o.desk.ledger.intents { AgainAsBefore(w, o, spaces, space, r); }
      TurnedKeeps(w, o, spaces, space, r, s, Step(w, o.desk, Submit(s)));
    } else {
      EndKeeps(w, o, spaces, space);
    }
  }

  lemma ActKeeps(w: World, o: Office, spaces: set<string>, act: Act)
    requires Orderly(w, o, spaces) && GoodAct(act, spaces)
    ensures Orderly(w, Do(w, o, act), spaces)
  {
    match act
    case Begin(_, _, _) => BeginKeeps(w, o, spaces, act);
    case Next(space, env) =>
      if space in o.attempts && o.attempts[space].left != [] && o.attempts[space].owed.None? {
        NextKeeps(w, o, spaces, space, env);
      }
    case Pair(space, holds) => PairKeeps(w, o, spaces, space, holds);
    case Manual(s) => ManualKeeps(w, o, spaces, s);
  }

  lemma {:induction false} ActsKeep(w: World, o: Office, spaces: set<string>, acts: seq<Act>)
    requires Orderly(w, o, spaces) && forall act | act in acts :: GoodAct(act, spaces)
    ensures Orderly(w, DoAll(w, o, acts), spaces)
    decreases |acts|
  {
    if acts != [] {
      ActKeeps(w, o, spaces, acts[0]);
      ActsKeep(w, Do(w, o, acts[0]), spaces, acts[1..]);
    }
  }

  /** However any number of reviews, each with its own drafts, swaps and circumstances, interleave with
      each other, end early, and mix with submissions by hand that keep out of their namespaces: a day has
      at most two ordinary buys. No agreement on funding is assumed; the loop's order yields it. */
  lemma ReviewsKeepTwoOrdinaryBuys(w: World, acts: seq<Act>, spaces: set<string>, profile: string, on: int)
    requires "" !in spaces && forall act | act in acts :: GoodAct(act, spaces)
    ensures |OrdinaryBuys(w, DoAll(w, OPEN, acts).desk, profile, on)| <= 2
  {
    OpeningHolds(w);
    ActsKeep(w, OPEN, spaces, acts);
    var desk := DoAll(w, OPEN, acts).desk;
    assert Within(w, desk, profile, on);
    assert OrdinaryBuys(w, desk, profile, on) == Counted(w, desk, profile, on);
  }

  // ----- A run with three ordinary buys -----

  ghost predicate Plain(r: Record, now: int) {
    r.decision == Decision.Buy && !r.extraordinary && r.createdAt <= now
  }

  function Asking(r: Record, now: int, profile: string): Submission {
    Submission(WellFormed(r), now, Live, profile, [], [], false, true, true)
  }

  /** The desk holds exactly these ordinary buys and sales, all of one profile and instant. */
  ghost predicate Holds(desk: Desk, bought: set<string>, sold: set<string>, now: int, profile: string) {
    && desk.ledger.intents.Keys == bought + sold && bought !! sold && desk.pairs <= bought && desk.swaps == {}
    && (forall id | id in bought ::
          && desk.ledger.intents[id] == Intent(BuySide, now, Live, profile)
          && id in desk.ledger.records && !desk.ledger.records[id].extraordinary)
    && (forall id | id in sold :: desk.ledger.intents[id] == Intent(SellSide, now, Live, profile))
  }

  lemma HeldAreCounted(w: World, desk: Desk, bought: set<string>, sold: set<string>, now: int, profile: string)
    requires Holds(desk, bought, sold, now, profile)
    ensures Buys(w, desk.ledger, profile, w.day(now)) == bought == OrdinaryBuys(w, desk, profile, w.day(now))
    ensures SwapBuys(w, desk, profile, w.day(now)) == desk.pairs
    ensures Sells(w, desk.ledger, profile, w.day(now)) == sold
  {
    assert LiveIntents(w, desk.ledger, profile, w.day(now)) == bought + sold;
  }

  /** What is left of the tables after a placed order, apart from its history and evaluation. */
  ghost predicate Places(desk: Desk, next: Desk, r: Record, side: Side, now: int, profile: string) {
    && next.ledger.records == desk.ledger.records[r.id := r]
    && next.ledger.intents == desk.ledger.intents[r.id := Intent(side, now, Live, profile)]
    && next.pairs == desk.pairs && next.swaps == desk.swaps && next.due == desk.due
  }

  lemma PlacedBuyIsHeld(
    desk: Desk, next: Desk, r: Record, bought: set<string>, sold: set<string>, now: int, profile: string)
    requires Holds(desk, bought, sold, now, profile) && !r.extraordinary && r.id !in sold
    requires Places(desk, next, r, BuySide, now, profile)
    ensures Holds(next, bought + {r.id}, sold, now, profile)
  {
  }

  lemma PlacedSaleIsHeld(
    desk: Desk, next: Desk, r: Record, bought: set<string>, sold: set<string>, now: int, profile: string)
    requires Holds(desk, bought, sold, now, profile) && r.id !in bought
    requires Places(desk, next, r, SellSide, now, profile)
    ensures Holds(next, bought, sold + {r.id}, now, profile)
  {
  }

  lemma BuyByHand(
    w: World, desk: Desk, r: Record, bought: set<string>, sold: set<string>, now: int, profile: string)
    requires Holds(desk, bought, sold, now, profile) && Plain(r, now) && NeverSeen(desk, r.id) && !Blank(profile)
    requires |bought| < BUYS_PER_DAY && |bought| - |desk.pairs| < ORDINARY_BUYS_PER_DAY && DeskInv(w, desk)
    ensures var next := Step(w, desk, Submit(Asking(r, now, profile)));
            && DeskInv(w, next) && Places(desk, next, r, BuySide, now, profile)
            && Holds(next, bought + {r.id}, sold, now, profile)
  {
    var s := Asking(r, now, profile);
    HeldAreCounted(w, desk, bought, sold, now, profile);
    var st := OrdinaryBuyIsPlaced(w, desk, s);
    StepKeepsLimits(w, desk, Submit(s));
    PlacedBuyIsHeld(desk, Step(w, desk, Submit(s)), r, bought, sold, now, profile);
  }

  lemma StillNeverSeen(w: World, desk: Desk, s: Submission, r: Record, id: string)
    requires s.request == WellFormed(r) && id != r.id && NeverSeen(desk, id)
    ensures NeverSeen(Step(w, desk, Submit(s)), id)
  {
    OthersUntouched(desk.ledger, CallOf(w, desk, s), id);
  }

  /** An approved sale of an attempt. */
  lemma SaleIsPlaced(
    w: World, desk: Desk, s: Submission, r: Record, bought: set<string>, sold: set<string>, profile: string)
    requires Holds(desk, bought, sold, s.now, profile) && |sold| < SELLS_PER_DAY && DeskInv(w, desk)
    requires Reducing(r) && r.createdAt <= s.now && NeverSeen(desk, r.id) && !Blank(profile)
    requires s == Submission(WellFormed(r), s.now, Live, profile, [], [], false, true, true)
    ensures Passed(w, desk, s) && DeskInv(w, Step(w, desk, Submit(s)))
    ensures Places(desk, Step(w, desk, Submit(s)), r, SellSide, s.now, profile)
    ensures Holds(Step(w, desk, Submit(s)), bought, sold + {r.id}, s.now, profile)
  {
    var c := CallOf(w, desk, s);
    HeldAreCounted(w, desk, bought, sold, s.now, profile);
    assert CountReasons(CountsFor(w, desk, s, r), r) == [];
    assert c == Call(WellFormed(r), Verdict(true, []), true, s.now, Live, profile);
    FreshIsPlaced(desk.ledger, r, c);
    UnfundedStep(w, desk, s, c);
    StepKeepsLimits(w, desk, Submit(s));
    PlacedSaleIsHeld(desk, Step(w, desk, Submit(s)), r, bought, sold, s.now, profile);
  }

  /** An order submitted again as funded becomes due for a pair, and nothing else changes. */
  lemma FundedAgain(
    w: World, desk: Desk, s: Submission, r: Record, bought: set<string>, sold: set<string>, profile: string)
    requires DeskInv(w, desk) && Holds(desk, bought, sold, s.now, profile) && r.id in bought
    requires r.decision == Decision.Buy && desk.ledger.records[r.id] == r
    requires s == Submission(WellFormed(r), s.now, Live, profile, [], [], true, true, true)
    ensures Passed(w, desk, s) && Step(w, desk, Submit(s)) == desk.(due := desk.due + {r.id})
  {
    ReplayIsInert(desk.ledger, r, CallOf(w, desk, s));
  }

  lemma {:induction false} DoAllConcat(w: World, o: Office, a: seq<Act>, b: seq<Act>)
    ensures DoAll(w, o, a + b) == DoAll(w, DoAll(w, o, a), b)
    decreases |a|
  {
    if a == [] {
      assert a + b == b;
    } else {
      assert (a + b)[1..] == a[1..] + b;
      DoAllConcat(w, Do(w, o, a[0]), a[1..], b);
    }
  }

  lemma DoBoth(w: World, o: Office, a: Act, b: Act)
    ensures DoAll(w, o, [a, b]) == Do(w, Do(w, o, a), b)
  {
    assert [a, b] == [a, b] + [];
    DoTwo(w, o, a, b, []);
  }

  /** Three purchases, `a` in the namespace of the attempt, and the sale `x` that funds `a` there. */
  datatype Scene = Scene(
    a: Record, b: Record, c: Record, x: Record, space: string, now: int, profile: string)
  {
    ghost predicate Valid() {
      && Plain(a, now) && Plain(b, now) && Plain(c, now) && Reducing(x) && x.createdAt <= now
      && !Blank(profile) && space != "" && space <= a.id && space <= x.id
      && a.id != b.id && a.id != c.id && b.id != c.id && x.id !in {a.id, b.id, c.id}
    }

    function Meets(): Env {
      Env(now, [], [], true, true)
    }

    function Plan(w: World): Review {
      Review(Live, profile, map[w.ticker(a) := w.ticker(x)])
    }

    /** `a` and `b` are bought by hand. */
    function ByHand(): seq<Act> {
      [Manual(Asking(a, now, profile)), Manual(Asking(b, now, profile))]
    }

    /** A review sells `x` and submits `a` again, funded by it, and records the pair. */
    function Reviewed(w: World): seq<Act> {
      [Begin(space, Plan(w), [x, a]), Next(space, Meets())] + [Next(space, Meets()), Pair(space, true)]
    }

    function Acts(w: World): seq<Act> {
      ByHand() + Reviewed(w) + [Manual(Asking(c, now, profile))]
    }
  }

  lemma ManualIsStep(w: World, o: Office, s: Submission)
    requires !s.funded
    ensures Do(w, o, Manual(s)) == o.(desk := Step(w, o.desk, Submit(s)))
    ensures DoAll(w, o, [Manual(s)]) == Do(w, o, Manual(s))
  {
    assert s.(funded := false) == s && [Manual(s)][1..] == [];
  }

  /** A purchase by hand, seen by decisions that are yet to come. */
  lemma BuySparing(
    w: World, desk: Desk, r: Record, bought: set<string>, sold: set<string>, now: int, profile: string,
    others: set<string>) returns (next: Desk)
    requires Holds(desk, bought, sold, now, profile) && Plain(r, now) && NeverSeen(desk, r.id) && !Blank(profile)
    requires |bought| < BUYS_PER_DAY && |bought| - |desk.pairs| < ORDINARY_BUYS_PER_DAY && DeskInv(w, desk)
    requires r.id !in others && forall id | id in others :: NeverSeen(desk, id)
    ensures next == Step(w, desk, Submit(Asking(r, now, profile)))
    ensures DeskInv(w, next) && Places(desk, next, r, BuySide, now, profile)
    ensures Holds(next, bought + {r.id}, sold, now, profile)
    ensures forall id | id in others :: NeverSeen(next, id)
  {
    var s := Asking(r, now, profile);
    BuyByHand(w, desk, r, bought, sold, now, profile);
    next := Step(w, desk, Submit(s));
    forall id | id in others ensures NeverSeen(next, id) {
      StillNeverSeen(w, desk, s, r, id);
    }
  }

  lemma NothingHeld(w: World, now: int, profile: string)
    ensures DeskInv(w, OPENING) && Holds(OPENING, {}, {}, now, profile)
    ensures forall id :: NeverSeen(OPENING, id)
  {
    OpeningHolds(w);
  }

  lemma TwoManual(w: World, r: Record, q: Record, now: int, profile: string, one: Desk, two: Desk)
    requires one == Step(w, OPENING, Submit(Asking(r, now, profile)))
    requires two == Step(w, one, Submit(Asking(q, now, profile)))
    ensures DoAll(w, OPEN, [Manual(Asking(r, now, profile)), Manual(Asking(q, now, profile))])
         == Office(two, map[], map[])
  {
    ManualIsStep(w, OPEN, Asking(r, now, profile));
    ManualIsStep(w, Office(one, map[], map[]), Asking(q, now, profile));
    DoBoth(w, OPEN, Manual(Asking(r, now, profile)), Manual(Asking(q, now, profile)));
  }

  lemma TwoByHand(w: World, k: Scene) returns (two: Desk)
    requires k.Valid()
    ensures DoAll(w, OPEN, k.ByHand()) == Office(two, map[], map[])
    ensures DeskInv(w, two) && Holds(two, {k.a.id, k.b.id}, {}, k.now, k.profile) && two.pairs == {}
    ensures two.ledger.records[k.a.id] == k.a && NeverSeen(two, k.x.id) && NeverSeen(two, k.c.id)
  {
    NothingHeld(w, k.now, k.profile);
    var one := BuySparing(w, OPENING, k.a, {}, {}, k.now, k.profile, {k.b.id, k.x.id, k.c.id});
    assert {} + {k.a.id} == {k.a.id} && {k.a.id} + {k.b.id} == {k.a.id, k.b.id};
    two := BuySparing(w, one, k.b, {k.a.id}, {}, k.now, k.profile, {k.x.id, k.c.id});
    TwoManual(w, k.a, k.b, k.now, k.profile, one, two);
  }

  lemma SaleTurn(w: World, k: Scene, two: Desk) returns (b: Bench)
    requires k.Valid() && DeskInv(w, two) && Holds(two, {k.a.id, k.b.id}, {}, k.now, k.profile)
    requires NeverSeen(two, k.x.id) && NeverSeen(two, k.c.id) && two.ledger.records[k.a.id] == k.a
    ensures b == Turn(w, Bench(two, map[], Progress(k.Plan(w), [k.x, k.a], map[], None)), k.space, k.Meets())
    ensures b.progress == Progress(k.Plan(w), [k.a], map[w.ticker(k.x) := k.x.id], None)
    ensures b.tags == map[k.x.id := k.space] && DeskInv(w, b.desk) && b.desk.pairs == two.pairs
    ensures Holds(b.desk, {k.a.id, k.b.id}, {k.x.id}, k.now, k.profile)
    ensures b.desk.ledger.records[k.a.id] == k.a && NeverSeen(b.desk, k.c.id)
  {
    var p := Progress(k.Plan(w), [k.x, k.a], map[], None);
    var s := Submission(WellFormed(k.x), k.now, Live, k.profile, [], [], false, true, true);
    assert Asked(w, Bench(two, map[], p), k.space, k.x, k.Meets()) == s;
    SaleIsPlaced(w, two, s, k.x, {k.a.id, k.b.id}, {}, k.profile);
    assert {} + {k.x.id} == {k.x.id} && [k.x, k.a][1..] == [k.a];
    StillNeverSeen(w, two, s, k.x, k.c.id);
    b := Turn(w, Bench(two, map[], p), k.space, k.Meets());
  }

  lemma BuyTurn(w: World, k: Scene, b: Bench) returns (end: Bench)
    requires k.Valid() && DeskInv(w, b.desk) && Holds(b.desk, {k.a.id, k.b.id}, {k.x.id}, k.now, k.profile)
    requires b.desk.ledger.records[k.a.id] == k.a && b.tags == map[k.x.id := k.space]
    requires b.progress == Progress(k.Plan(w), [k.a], map[w.ticker(k.x) := k.x.id], None)
    requires b.desk.pairs == {} && NeverSeen(b.desk, k.c.id)
    ensures end == Pairing(w, Turn(w, b, k.space, k.Meets()), true)
    ensures Turn(w, b, k.space, k.Meets()).progress.left == [] && end.desk.pairs == {k.a.id}
    ensures DeskInv(w, end.desk) && NeverSeen(end.desk, k.c.id)
    ensures Holds(end.desk, {k.a.id, k.b.id}, {k.x.id}, k.now, k.profile)
  {
    var s := Submission(WellFormed(k.a), k.now, Live, k.profile, [], [], true, true, true);
    assert Asked(w, b, k.space, k.a, k.Meets()) == s;
    FundedAgain(w, b.desk, s, k.a, {k.a.id, k.b.id}, {k.x.id}, k.profile);
    StepKeepsLimits(w, b.desk, Submit(s));
    assert [k.a][1..] == [];
    var due := Turn(w, b, k.space, k.Meets());
    assert due.desk == b.desk.(due := b.desk.due + {k.a.id}) && due.progress.owed == Some(k.a.id);
    StepKeepsLimits(w, due.desk, RecordPair(k.a.id));
    end := Pairing(w, due, true);
  }

  /** The review's four transactions, given what its two turns leave. */
  lemma FourTransactions(w: World, k: Scene, two: Desk, sold: Bench, end: Bench)
    requires sold == Turn(w, Bench(two, map[], Progress(k.Plan(w), [k.x, k.a], map[], None)), k.space, k.Meets())
    requires k.Valid() && sold.progress.left != [] && sold.progress.owed.None?
    requires end == Pairing(w, Turn(w, sold, k.space, k.Meets()), true)
    ensures DoAll(w, Office(two, map[], map[]), k.Reviewed(w)).desk == end.desk
  {
    var start := Office(two, map[], map[]);
    var begin, next := Begin(k.space, k.Plan(w), [k.x, k.a]), Next(k.space, k.Meets());
    var o := Begun(w, k, two);
    BackTwice(o, k.space, sold, sold);
    OneRound(w, Back(o, k.space, sold), k.space, k.Meets(), true);
    DoTwo(w, start, begin, next, [next, Pair(k.space, true)]);
    DoBoth(w, Back(o, k.space, sold), next, Pair(k.space, true));
  }

  lemma Begun(w: World, k: Scene, two: Desk) returns (o: Office)
    requires k.Valid()
    ensures o == Do(w, Office(two, map[], map[]), Begin(k.space, k.Plan(w), [k.x, k.a]))
    ensures k.space in o.attempts
    ensures BenchOf(o, k.space) == Bench(two, map[], Progress(k.Plan(w), [k.x, k.a], map[], None))
  {
    SortOfSorted([k.x, k.a], SalesFirst);
    o := Do(w, Office(two, map[], map[]), Begin(k.space, k.Plan(w), [k.x, k.a]));
  }

  lemma ReviewPairs(w: World, k: Scene, two: Desk) returns (desk: Desk)
    requires k.Valid() && DeskInv(w, two) && Holds(two, {k.a.id, k.b.id}, {}, k.now, k.profile)
    requires NeverSeen(two, k.x.id) && NeverSeen(two, k.c.id) && two.ledger.records[k.a.id] == k.a
    requires two.pairs == {}
    ensures desk == DoAll(w, Office(two, map[], map[]), k.Reviewed(w)).desk
    ensures DeskInv(w, desk) && NeverSeen(desk, k.c.id) && desk.pairs == {k.a.id}
    ensures Holds(desk, {k.a.id, k.b.id}, {k.x.id}, k.now, k.profile)
  {
    var sold := SaleTurn(w, k, two);
    var end := BuyTurn(w, k, sold);
    FourTransactions(w, k, two, sold, end);
    desk := end.desk;
  }

  lemma ThreeIds(a: string, b: string, c: string)
    requires a != b && a != c && b != c
    ensures |{a, b, c}| == 3
  {
    assert {a, b, c} == {a, b} + {c};
  }

  lemma ThirdByHand(w: World, k: Scene, desk: Desk)
    requires k.Valid() && DeskInv(w, desk) && NeverSeen(desk, k.c.id) && desk.pairs == {k.a.id}
    requires Holds(desk, {k.a.id, k.b.id}, {k.x.id}, k.now, k.profile)
    ensures var end := Step(w, desk, Submit(Asking(k.c, k.now, k.profile)));
            |OrdinaryBuys(w, end, k.profile, w.day(k.now))| == 3
  {
    BuyByHand(w, desk, k.c, {k.a.id, k.b.id}, {k.x.id}, k.now, k.profile);
    assert {k.a.id, k.b.id} + {k.c.id} == {k.a.id, k.b.id, k.c.id};
    HeldAreCounted(w, Step(w, desk, Submit(Asking(k.c, k.now, k.profile))), {k.a.id, k.b.id, k.c.id},
                   {k.x.id}, k.now, k.profile);
    ThreeIds(k.a.id, k.b.id, k.c.id);
  }

  /** The manual submissions must keep out. `a` and `b` are bought by hand, `a` being the very record, in
      the namespace of an attempt, that the attempt's review then submits again, funded by its sale of
      `x`; the pair is recorded, and a third ordinary buy passes. */
  lemma LatePairMakesRoom(w: World, k: Scene)
    requires k.Valid()
    ensures |OrdinaryBuys(w, DoAll(w, OPEN, k.Acts(w)).desk, k.profile, w.day(k.now))| == 3
  {
    var two := TwoByHand(w, k);
    var paired := ReviewPairs(w, k, two);
    DoAllConcat(w, OPEN, k.ByHand(), k.Reviewed(w));
    DoAllConcat(w, OPEN, k.ByHand() + k.Reviewed(w), [Manual(Asking(k.c, k.now, k.profile))]);
    var o := DoAll(w, OPEN, k.ByHand() + k.Reviewed(w));
    ThirdByHand(w, k, paired);
    ManualIsStep(w, o, Asking(k.c, k.now, k.profile));
  }
}
