/** In every store that ingestion builds, corrections form chains and the report's guards hold. */
module ObservationTheorems {
  import opened Reporting
  import opened Sorting
  import opened Observations
  import LinkedReturns
  import opened Wrappers

  // ----- The invariant -----

  ghost predicate UniqueIds(store: seq<Observation>) {
    forall i, j | 0 <= i < j < |store| :: store[i].H().id != store[j].H().id
  }

  function About(e: Event): Observation -> bool {
    o => EventOf(o) == e
  }

  /** The observations of one event, in the order they were stored. */
  function History(store: seq<Observation>, e: Event): seq<Observation> {
    Filter(store, About(e))
  }

  /** Each observation corrects the one before it, and none was recorded earlier than that one. */
  ghost predicate IsChain(c: seq<Observation>) {
    && (c != [] ==> c[0].H().supersedes == None)
    && (forall i | 0 <= i < |c| - 1 ::
          c[i + 1].H().supersedes == Some(c[i].H().id) && c[i].H().recorded <= c[i + 1].H().recorded)
  }

  ghost predicate Chained(store: seq<Observation>) {
    forall e :: IsChain(History(store, e))
  }

  /** Two current ordinary valuations of an account are never at one instant. */
  ghost predicate InstantsDiffer(store: seq<Observation>) {
    forall i, j | 0 <= i < j < |store| && BothCurrentOrdinary(store, store[i], store[j]) ::
      store[i].H().at != store[j].H().at
  }

  predicate BothCurrentOrdinary(store: seq<Observation>, a: Observation, b: Observation) {
    && IsOrdinary(a) && IsCurrent(store, a) && IsOrdinary(b) && IsCurrent(store, b)
    && a.H().account == b.H().account
  }

  /** A stored flow fits the boundary valuations it names and the difference of their balances. */
  ghost predicate Fits(store: seq<Observation>, o: Observation) {
    o.OfFlow? ==>
      && FitsBoundary(store, o.flow, o.flow.before, BeforeFlow)
      && FitsBoundary(store, o.flow, o.flow.after, AfterFlow)
      && Reconciles(store, o.flow)
  }

  ghost predicate FitsBoundary(store: seq<Observation>, f: Flow, id: Option<Id>, phase: Phase) {
    match id
    case None => true
    case Some(k) =>
      match Get(store, k)
      case None => false
      case Some(b) =>
        && b.OfValuation? && b.valuation.h.at == f.h.at && b.valuation.phase == phase
        && b.valuation.h.account == f.h.account
  }

  ghost predicate FlowsFit(store: seq<Observation>) {
    forall o | o in store :: Fits(store, o)
  }

  ghost predicate AllValid(store: seq<Observation>) {
    forall o | o in store :: o.Valid()
  }

  ghost predicate Inv(store: seq<Observation>) {
    && AllValid(store) && UniqueIds(store) && Chained(store) && InstantsDiffer(store)
    && FlowsFit(store)
  }

  // ----- Chains -----

  lemma SameIdSameRow(store: seq<Observation>, a: Observation, b: Observation)
    requires UniqueIds(store) && a in store && b in store && a.H().id == b.H().id
    ensures a == b
  {
  }

  /** What corrects an observation of an event belongs to that event and follows it directly. */
  lemma CorrectedIsNotLast(store: seq<Observation>, o: Observation, p: Observation)
    requires UniqueIds(store) && Chained(store) && o in store && p in store
    requires p.H().supersedes == Some(o.H().id)
    ensures EventOf(p) == EventOf(o)
    ensures exists i | 0 <= i < |History(store, EventOf(o))| - 1 ::
              History(store, EventOf(o))[i] == o && History(store, EventOf(o))[i + 1] == p
  {
    var c := History(store, EventOf(p));
    assert IsChain(c);
    assert p in c;
    var k :| 0 <= k < |c| && c[k] == p;
    assert 0 < k;
    var q := c[k - 1];
    assert q in c;
    SameIdSameRow(store, o, q);
    assert c[k - 1] == o && c[k] == p;
  }

  lemma HistoryHasNoRepeats(store: seq<Observation>, e: Event)
    requires UniqueIds(store)
    ensures NoRepeats(History(store, e))
  {
    assert NoRepeats(store);
    FilterNoRepeats(store, About(e));
  }

  /** The only observation of an event that nothing corrects is the last one stored. */
  lemma HeadIsLast(store: seq<Observation>, e: Event, i: nat)
    requires UniqueIds(store) && Chained(store) && i < |History(store, e)|
    ensures Superseded(store, History(store, e)[i].H().id) <==> i < |History(store, e)| - 1
  {
    var c := History(store, e);
    assert c[i] in c;
    assert IsChain(c);
    if i < |c| - 1 {
      assert c[i + 1] in c;
      assert c[i + 1].H().supersedes == Some(c[i].H().id);
    }
    if Superseded(store, c[i].H().id) {
      var p :| p in store && p.H().supersedes == Some(c[i].H().id);
      CorrectedIsNotLast(store, c[i], p);
      var k :| 0 <= k < |c| - 1 && c[k] == c[i] && c[k + 1] == p;
      HistoryHasNoRepeats(store, e);
    }
  }

  lemma HistoryGrows(store: seq<Observation>, o: Observation, e: Event)
    ensures History(store + [o], e)
         == if EventOf(o) == e then History(store, e) + [o] else History(store, e)
  {
    FilterConcat(store, [o], About(e));
  }

  lemma HasAMember(c: seq<Observation>)
    ensures c != [] ==> exists p :: p in c
  {
    if c != [] { assert c[0] in c; }
  }

  /** The history of the event that an accepted observation joins: empty, or ending in its target. */
  lemma JoinsItsHead(store: seq<Observation>, o: Observation)
    requires UniqueIds(store) && Chained(store) && Correction(store, o).None?
    ensures var c := History(store, EventOf(o));
            if o.H().supersedes.None? then c == []
            else
              && c != [] && o.H().supersedes == Some(c[|c| - 1].H().id)
              && c[|c| - 1].H().recorded <= o.H().recorded
  {
    var c := History(store, EventOf(o));
    match o.H().supersedes
    case None =>
      HasAMember(c);
    case Some(target) =>
      var prior := Get(store, target).value;
      assert prior in c;
      var k :| 0 <= k < |c| && c[k] == prior;
      HeadIsLast(store, EventOf(o), k);
  }

  lemma ChainExtends(c: seq<Observation>, o: Observation)
    requires IsChain(c)
    requires if o.H().supersedes.None? then c == []
             else
               && c != [] && o.H().supersedes == Some(c[|c| - 1].H().id)
               && c[|c| - 1].H().recorded <= o.H().recorded
    ensures IsChain(c + [o])
  {
  }

  lemma AppendKeepsChains(store: seq<Observation>, o: Observation, linked: bool)
    requires UniqueIds(store) && Chained(store) && Ingesting(store, o, linked) == Inserted
    ensures UniqueIds(store + [o]) && Chained(store + [o])
  {
    assert Correction(store, o).None?;
    JoinsItsHead(store, o);
    forall e ensures IsChain(History(store + [o], e)) {
      HistoryGrows(store, o, e);
      assert IsChain(History(store, e));
      if EventOf(o) == e { ChainExtends(History(store, e), o); }
    }
  }

  // ----- Instants -----

  lemma CurrentBefore(store: seq<Observation>, o: Observation, p: Observation)
    requires IsCurrent(store + [o], p)
    ensures IsCurrent(store, p) && o.H().supersedes != Some(p.H().id)
  {
    assert forall q | q in store || q == o :: q in store + [o];
  }

  lemma AppendKeepsInstants(store: seq<Observation>, o: Observation, linked: bool)
    requires InstantsDiffer(store) && Ingesting(store, o, linked) == Inserted
    ensures InstantsDiffer(store + [o])
  {
    var next := store + [o];
    assert Instants(store, o).None?;
    forall i, j | 0 <= i < j < |next| && BothCurrentOrdinary(next, next[i], next[j])
      ensures next[i].H().at != next[j].H().at
    {
      CurrentBefore(store, o, next[i]);
      CurrentBefore(store, o, next[j]);
      if j < |store| {
        assert BothCurrentOrdinary(store, store[i], store[j]);
      } else {
        assert !Clashes(store, next[i], o);
      }
    }
  }

  // ----- Flows -----

  lemma {:induction false} GetGrows(store: seq<Observation>, o: Observation, id: Id)
    ensures Get(store, id).Some? ==> Get(store + [o], id) == Get(store, id)
    ensures id != o.H().id ==> Get(store + [o], id) == Get(store, id)
  {
    if store != [] {
      assert (store + [o])[1..] == store[1..] + [o];
      GetGrows(store[1..], o, id);
    }
  }

  lemma FitsGrows(store: seq<Observation>, o: Observation, p: Observation)
    requires Fits(store, p)
    ensures Fits(store + [o], p)
  {
    if p.OfFlow? {
      if p.flow.before.Some? { GetGrows(store, o, p.flow.before.value); }
      if p.flow.after.Some? { GetGrows(store, o, p.flow.after.value); }
    }
  }

  lemma AppendKeepsFlows(store: seq<Observation>, o: Observation, linked: bool)
    requires FlowsFit(store) && Ingesting(store, o, linked) == Inserted
    ensures FlowsFit(store + [o])
  {
    assert FlowChecks(store, o).None?;
    assert Fits(store, o);
    forall p | p in store + [o] ensures Fits(store + [o], p) {
      FitsGrows(store, o, p);
    }
  }

  lemma IngestKeepsInv(store: seq<Observation>, o: Observation, linked: bool)
    requires Inv(store) && o.Valid()
    ensures Inv(After(store, o, linked))
  {
    if Ingesting(store, o, linked) == Inserted {
      AppendKeepsChains(store, o, linked);
      AppendKeepsInstants(store, o, linked);
      AppendKeepsFlows(store, o, linked);
    }
  }

  // ----- Whole runs -----

  datatype Submission = Submission(observation: Observation, linked: bool)

  function Build(store: seq<Observation>, inputs: seq<Submission>): seq<Observation>
    decreases |inputs|
  {
    if inputs == [] then store
    else Build(After(store, inputs[0].observation, inputs[0].linked), inputs[1..])
  }

  ghost predicate ValidInputs(inputs: seq<Submission>) {
    forall s | s in inputs :: s.observation.Valid()
  }

  lemma {:induction false} BuildKeepsInv(store: seq<Observation>, inputs: seq<Submission>)
    requires Inv(store) && ValidInputs(inputs)
    ensures Inv(Build(store, inputs))
    decreases |inputs|
  {
    if inputs != [] {
      IngestKeepsInv(store, inputs[0].observation, inputs[0].linked);
      BuildKeepsInv(After(store, inputs[0].observation, inputs[0].linked), inputs[1..]);
    }
  }

  /** In every store built by ingestion, the observations of one event are one chain of corrections
      from its only root to its only head, recorded in order of time. */
  lemma EventsAreChains(inputs: seq<Submission>, e: Event)
    requires ValidInputs(inputs)
    ensures var store := Build([], inputs);
            var c := History(store, e);
            && IsChain(c)
            && (forall i | 0 <= i < |c| ::
                  && (c[i].H().supersedes.None? <==> i == 0)
                  && (Superseded(store, c[i].H().id) <==> i < |c| - 1))
            && (forall o | o in store && o.H().supersedes.Some? ::
                  exists p :: p in store && o.H().supersedes == Some(p.H().id) && EventOf(p) == EventOf(o))
  {
    BuildKeepsInv([], inputs);
    var store := Build([], inputs);
    var c := History(store, e);
    assert IsChain(c);
    forall i | 0 <= i < |c|
      ensures c[i].H().supersedes.None? <==> i == 0
      ensures Superseded(store, c[i].H().id) <==> i < |c| - 1
    {
      HeadIsLast(store, e, i);
      if 0 < i { assert c[i - 1 + 1].H().supersedes == Some(c[i - 1].H().id); }
    }
    forall o | o in store && o.H().supersedes.Some?
      ensures exists p :: p in store && o.H().supersedes == Some(p.H().id) && EventOf(p) == EventOf(o)
    {
      CorrectsWithin(store, o);
    }
  }

  lemma CorrectsWithin(store: seq<Observation>, o: Observation)
    requires Chained(store) && o in store && o.H().supersedes.Some?
    ensures exists p :: p in store && o.H().supersedes == Some(p.H().id) && EventOf(p) == EventOf(o)
  {
    var c := History(store, EventOf(o));
    assert IsChain(c) && o in c;
    var k :| 0 <= k < |c| && c[k] == o;
    assert c[k - 1] in c && c[k - 1 + 1].H().supersedes == Some(c[k - 1].H().id);
  }

  /** Whatever is corrected or voided later, a stored flow still fits the boundary valuations it names
      in account, instant and phase, and is the difference of their balances where both are known. */
  lemma StoredFlowsReconcile(inputs: seq<Submission>, f: Flow)
    requires ValidInputs(inputs) && OfFlow(f) in Build([], inputs)
    ensures Fits(Build([], inputs), OfFlow(f))
  {
    BuildKeepsInv([], inputs);
  }

  // ----- What the report relies on -----

  lemma {:induction false} ValuationsAre(observations: seq<Observation>, v: Valuation)
    ensures v in Valuations(observations) <==>
            exists o | o in observations :: IsOrdinary(o) && o.valuation == v
  {
    if observations != [] {
      assert observations == [observations[0]] + observations[1..];
      ValuationsAre(observations[1..], v);
    }
  }

  ghost predicate NoSharedInstant(observations: seq<Observation>) {
    forall i, j | 0 <= i < j < |observations| && IsOrdinary(observations[i]) && IsOrdinary(observations[j]) ::
      observations[i].H().at != observations[j].H().at
  }

  lemma {:induction false} ValuationsDiffer(observations: seq<Observation>)
    requires NoSharedInstant(observations)
    ensures DistinctInstants(Valuations(observations))
  {
    if observations != [] {
      var o, rest := observations[0], observations[1..];
      assert observations == [o] + rest;
      assert NoSharedInstant(rest) by {
        assert forall i | 0 <= i < |rest| :: rest[i] == observations[i + 1];
      }
      ValuationsDiffer(rest);
      if IsOrdinary(o) {
        var values := Valuations(rest);
        assert Valuations(observations) == [o.valuation] + values;
        forall k | 0 <= k < |values| ensures values[k].h.at != o.valuation.h.at {
          assert values[k] in values;
          ValuationsAre(rest, values[k]);
          var p :| p in rest && IsOrdinary(p) && p.valuation == values[k];
          var i :| 0 <= i < |rest| && rest[i] == p;
          assert observations[i + 1] == p;
        }
      }
    }
  }

  lemma DistinctSurvives(a: seq<Valuation>, b: seq<Valuation>)
    requires multiset(a) == multiset(b) && DistinctInstants(a)
    ensures DistinctInstants(b)
  {
    assert NoRepeats(a);
    NoRepeatsSurvives(a, b);
    SameMembers(a, b);
    forall i, j | 0 <= i < j < |b| ensures b[i].h.at != b[j].h.at {
      assert b[i] in a && b[j] in a;
    }
  }

  lemma CurrentAre(store: seq<Observation>, account: Account, o: Observation)
    ensures o in CurrentObservations(store, account) <==>
            o in store && o.H().account == account && IsCurrent(store, o)
  {
    SameMembers(Filter(store, CurrentOf(store, account)), CurrentObservations(store, account));
  }

  /** The current ordinary valuations of an account have different instants. */
  lemma CurrentInstantsDiffer(store: seq<Observation>, account: Account)
    requires Inv(store)
    ensures NoSharedInstant(CurrentObservations(store, account))
  {
    var current := CurrentObservations(store, account);
    assert NoRepeats(store);
    FilterNoRepeats(store, CurrentOf(store, account));
    NoRepeatsSurvives(Filter(store, CurrentOf(store, account)), current);
    forall i, j | 0 <= i < j < |current| && IsOrdinary(current[i]) && IsOrdinary(current[j])
      ensures current[i].H().at != current[j].H().at
    {
      CurrentAre(store, account, current[i]);
      CurrentAre(store, account, current[j]);
      DifferentRows(store, current[i], current[j]);
    }
  }

  lemma DifferentRows(store: seq<Observation>, a: Observation, b: Observation)
    requires InstantsDiffer(store) && a in store && b in store && a != b
    requires BothCurrentOrdinary(store, a, b)
    ensures a.H().at != b.H().at
  {
    var i :| 0 <= i < |store| && store[i] == a;
    var j :| 0 <= j < |store| && store[j] == b;
    assert i != j;
    assert BothCurrentOrdinary(store, store[i], store[j]) && BothCurrentOrdinary(store, store[j], store[i]);
  }

  lemma SelectionIsClean(current: seq<Observation>, account: Account)
    requires NoSharedInstant(current) && forall o | o in current :: o.H().account == account
    ensures !Select(current).AmbiguousInstants? && !Select(current).MixedAccounts?
  {
    ValuationsDiffer(current);
    var values := Sort(Valuations(current), ValuationOrder);
    DistinctSurvives(Valuations(current), values);
    SameMembers(Valuations(current), values);
    if values != [] {
      var last := values[|values| - 1];
      assert last in Valuations(current);
      ValuationsAre(current, last);
    }
  }

  /** On what an account's store gives it, the report never meets two valuations of one instant nor
      another account's observation. */
  lemma ReportGuardsHold(inputs: seq<Submission>, account: Account)
    requires ValidInputs(inputs)
    ensures var current := CurrentObservations(Build([], inputs), account);
            !Select(current).AmbiguousInstants? && !Select(current).MixedAccounts?
  {
    BuildKeepsInv([], inputs);
    var current := CurrentObservations(Build([], inputs), account);
    CurrentInstantsDiffer(Build([], inputs), account);
    forall o | o in current ensures o.H().account == account {
      CurrentAre(Build([], inputs), account, o);
    }
    SelectionIsClean(current, account);
  }

  // ----- The linking loop on stored flows -----

  /** The valuations a report passes to the linking loop: current ones, by identifier. */
  ghost predicate CurrentValuations(store: seq<Observation>, account: Account, vals: LinkedReturns.Valuations) {
    forall k | k in vals ::
      OfValuation(vals[k]) in CurrentObservations(store, account) && vals[k].h.id == k
  }

  lemma BoundaryFits(
    store: seq<Observation>, account: Account, vals: LinkedReturns.Valuations, f: Flow, k: Id,
    phase: Phase)
    requires UniqueIds(store) && CurrentValuations(store, account, vals) && k in vals
    requires FitsBoundary(store, f, Some(k), phase)
    ensures Get(store, k) == Some(OfValuation(vals[k]))
    ensures vals[k].phase == phase && vals[k].h.at == f.h.at
  {
    CurrentAre(store, account, OfValuation(vals[k]));
    SameIdSameRow(store, OfValuation(vals[k]), Get(store, k).value);
  }

  lemma CrossingFits(
    store: seq<Observation>, account: Account, vals: LinkedReturns.Valuations, f: Flow,
    link: LinkedReturns.Link)
    requires Inv(store) && CurrentValuations(store, account, vals) && LinkedReturns.AllPriced(vals)
    requires OfFlow(f) in store
    ensures LinkedReturns.Cross(link, f, vals) != LinkedReturns.Stop(LinkedReturns.BoundaryMismatch)
  {
    assert Fits(store, OfFlow(f));
    var before, after := LinkedReturns.Lookup(vals, f.before), LinkedReturns.Lookup(vals, f.after);
    if before.Some? && after.Some? {
      BoundaryFits(store, account, vals, f, f.before.value, BeforeFlow);
      BoundaryFits(store, account, vals, f, f.after.value, AfterFlow);
    }
  }

  lemma {:induction false} ThroughFits(
    store: seq<Observation>, account: Account, vals: LinkedReturns.Valuations, events: seq<Flow>,
    link: LinkedReturns.Link)
    requires Inv(store) && CurrentValuations(store, account, vals) && LinkedReturns.AllPriced(vals)
    requires forall f | f in events :: OfFlow(f) in store
    ensures LinkedReturns.Through(link, events, vals) != LinkedReturns.Stop(LinkedReturns.BoundaryMismatch)
    decreases |events|
  {
    if events != [] {
      CrossingFits(store, account, vals, events[0], link);
      var step := LinkedReturns.Cross(link, events[0], vals);
      if step.Go? { ThroughFits(store, account, vals, events[1..], step.link); }
    }
  }

  /** A linked return over an account's current observations never fails on a boundary valuation that
      does not match its flow: a boundary that is still current matches, and any other is missing. */
  lemma BoundariesAlwaysMatch(
    inputs: seq<Submission>, account: Account, start: Valuation, end: Valuation,
    vals: LinkedReturns.Valuations, flows: seq<Flow>, coverage: seq<Coverage>)
    requires ValidInputs(inputs)
    requires start.Priced() && end.Priced() && LinkedReturns.AllPriced(vals)
    requires CurrentValuations(Build([], inputs), account, vals)
    requires forall f | f in flows :: OfFlow(f) in CurrentObservations(Build([], inputs), account)
    ensures LinkedReturns.LinkedReturn(start, end, vals, flows, coverage)
         != LinkedReturns.Unavailable(LinkedReturns.BoundaryMismatch)
  {
    BuildKeepsInv([], inputs);
    EventsAreStored(Build([], inputs), account, flows, start.h.at, end.h.at);
    if start.equity.Some? && end.equity.Some? {
      var events := LinkedReturns.Events(flows, start.h.at, end.h.at);
      ThroughFits(Build([], inputs), account, vals, events, LinkedReturns.Begin(start.equity.value));
      MismatchStopsTheLoop(start.equity.value, end.equity.value, events, vals);
    }
    MismatchComesFromTheLoop(start, end, vals, flows, coverage);
  }

  lemma MismatchComesFromTheLoop(
    start: Valuation, end: Valuation, vals: LinkedReturns.Valuations, flows: seq<Flow>,
    coverage: seq<Coverage>)
    requires start.Priced() && end.Priced() && LinkedReturns.AllPriced(vals)
    ensures LinkedReturns.LinkedReturn(start, end, vals, flows, coverage)
            == LinkedReturns.Unavailable(LinkedReturns.BoundaryMismatch) ==>
              start.equity.Some? && end.equity.Some?
              && LinkedReturns.Linking(start.equity.value, end.equity.value,
                                       LinkedReturns.Events(flows, start.h.at, end.h.at), vals)
              == LinkedReturns.Unavailable(LinkedReturns.BoundaryMismatch)
  {
  }

  lemma MismatchStopsTheLoop(
    start: Cents, end: Cents, events: seq<Flow>, vals: LinkedReturns.Valuations)
    requires LinkedReturns.AllPriced(vals)
    ensures LinkedReturns.Linking(start, end, events, vals)
            == LinkedReturns.Unavailable(LinkedReturns.BoundaryMismatch) ==>
              LinkedReturns.Through(LinkedReturns.Begin(start), events, vals)
              == LinkedReturns.Stop(LinkedReturns.BoundaryMismatch)
  {
  }

  lemma EventsAreStored(
    store: seq<Observation>, account: Account, flows: seq<Flow>, start: Instant, end: Instant)
    requires forall f | f in flows :: OfFlow(f) in CurrentObservations(store, account)
    ensures forall f | f in LinkedReturns.Events(flows, start, end) :: OfFlow(f) in store
  {
    var inside := Filter(flows, (f: Flow) => start < f.h.at <= end);
    SameMembers(inside, LinkedReturns.Events(flows, start, end));
    forall f | f in inside ensures OfFlow(f) in store {
      CurrentAre(store, account, OfFlow(f));
    }
  }
}
