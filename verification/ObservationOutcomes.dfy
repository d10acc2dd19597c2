/** When an observation is accepted, and which check refuses it, in the fields of what is stored. */
module ObservationOutcomes {
  import opened Reporting
  import opened Sorting
  import opened Observations
  import opened ObservationTheorems
  import opened Wrappers

  /** Neither voided nor corrected. */
  ghost predicate Stands(store: seq<Observation>, o: Observation) {
    o in store && !o.H().voided && forall q | q in store :: q.H().supersedes != Some(o.H().id)
  }

  predicate SameEvent(p: Observation, o: Observation) {
    p.H().account == o.H().account && p.H().external == o.H().external && p.Kind() == o.Kind()
  }

  ghost predicate Stored(store: seq<Observation>, id: Id) {
    exists p | p in store :: p.H().id == id
  }

  lemma GetExactly(store: seq<Observation>, o: Observation)
    requires UniqueIds(store) && o in store
    ensures Get(store, o.H().id) == Some(o)
  {
    SameIdSameRow(store, o, Get(store, o.H().id).value);
  }

  lemma StandsExactly(store: seq<Observation>, o: Observation)
    requires o in store
    ensures IsCurrent(store, o) <==> Stands(store, o)
  {
  }

  // ----- Corrections -----

  /** What speaks against the observation as a correction of `p`, or as the first of its event. */
  ghost function CorrectionError(store: seq<Observation>, o: Observation): Option<Refusal> {
    match o.H().supersedes
    case None => if exists p | p in store :: SameEvent(p, o) then Some(EventExists) else None
    case Some(target) =>
      if !Stored(store, target) then Some(TargetMissing)
      else if exists p | p in store && p.H().id == target :: !SameEvent(p, o) then Some(IdentityChanged)
      else if exists p | p in store && p.H().id == target :: o.H().recorded < p.H().recorded then
        Some(BeforePrevious)
      else if exists q | q in store :: q.H().supersedes == Some(target) then Some(AlreadySuperseded)
      else None
  }

  lemma CorrectionExactly(store: seq<Observation>, o: Observation)
    requires UniqueIds(store)
    ensures Correction(store, o) == CorrectionError(store, o)
  {
    forall p | p in store ensures EventOf(p) == EventOf(o) <==> SameEvent(p, o) {
    }
    if o.H().supersedes.Some? {
      forall p | p in store && p.H().id == o.H().supersedes.value
        ensures Get(store, o.H().supersedes.value) == Some(p)
      {
        GetExactly(store, p);
      }
    }
  }

  // ----- Valuations and fills -----

  predicate AtInstant(p: Observation, o: Observation) {
    && p.OfValuation? && p.valuation.phase != BeforeFlow && p.valuation.phase != AfterFlow
    && p.H().account == o.H().account && p.H().at == o.H().at
  }

  /** An ordinary valuation at an instant where another one stands that it does not correct. */
  ghost predicate InstantTaken(store: seq<Observation>, o: Observation) {
    && o.OfValuation? && o.valuation.phase != BeforeFlow && o.valuation.phase != AfterFlow
    && exists p :: Stands(store, p) && AtInstant(p, o) && o.H().supersedes != Some(p.H().id)
  }

  lemma InstantsExactly(store: seq<Observation>, o: Observation)
    ensures Instants(store, o) == if InstantTaken(store, o) then Some(InstantExists) else None
  {
    forall p | p in store && IsOrdinary(o)
      ensures Clashes(store, p, o)
         <==> Stands(store, p) && AtInstant(p, o) && o.H().supersedes != Some(p.H().id)
    {
      StandsExactly(store, p);
    }
  }

  // ----- Flows -----

  ghost predicate BoundaryStands(store: seq<Observation>, id: Option<Id>) {
    id.Some? ==> exists b :: Stands(store, b) && b.H().id == id.value
  }

  predicate IsBoundary(b: Observation, f: Flow, phase: Phase) {
    && b.OfValuation? && b.valuation.phase == phase
    && b.valuation.h.account == f.h.account && b.valuation.h.at == f.h.at
  }

  ghost predicate BoundaryFitsFlow(store: seq<Observation>, id: Option<Id>, f: Flow, phase: Phase) {
    forall b | b in store && id == Some(b.H().id) :: IsBoundary(b, f, phase)
  }

  lemma BoundaryExactly(store: seq<Observation>, f: Flow, id: Option<Id>, phase: Phase)
    requires UniqueIds(store)
    ensures Boundary(store, f, id, phase)
         == if !BoundaryStands(store, id) then Some(BoundaryAbsent)
            else if !BoundaryFitsFlow(store, id, f, phase) then Some(BoundaryMismatched)
            else None
  {
    forall b | b in store && id == Some(b.H().id)
      ensures Get(store, id.value) == Some(b) && (IsCurrent(store, b) <==> Stands(store, b))
    {
      GetExactly(store, b);
      StandsExactly(store, b);
    }
  }

  /** Both boundaries are named and priced, and their difference is not the flow's amount. */
  ghost predicate Differs(store: seq<Observation>, f: Flow) {
    exists x, y ::
      && OfValuation(x) in store && OfValuation(y) in store && f.before == Some(x.h.id) && f.after == Some(y.h.id)
      && x.equity.Some? && y.equity.Some? && x.equity.value + f.amount != y.equity.value
  }

  lemma DiffersExactly(store: seq<Observation>, f: Flow)
    requires UniqueIds(store)
    ensures Reconciles(store, f) <==> !Differs(store, f)
  {
    forall v | OfValuation(v) in store ensures Get(store, v.h.id) == Some(OfValuation(v)) {
      GetExactly(store, OfValuation(v));
    }
    if !Reconciles(store, f) {
      var x, y := Get(store, f.before.value).value.valuation, Get(store, f.after.value).value.valuation;
      assert OfValuation(x) in store && OfValuation(y) in store;
    }
  }

  ghost function FlowError(store: seq<Observation>, f: Flow): Option<Refusal> {
    if !BoundaryStands(store, f.before) then Some(BoundaryAbsent)
    else if !BoundaryFitsFlow(store, f.before, f, BeforeFlow) then Some(BoundaryMismatched)
    else if !BoundaryStands(store, f.after) then Some(BoundaryAbsent)
    else if !BoundaryFitsFlow(store, f.after, f, AfterFlow) then Some(BoundaryMismatched)
    else if Differs(store, f) then Some(NotReconciled)
    else None
  }

  // ----- Transfers -----

  /** A flow of the same account and of the transfer's event stands. */
  ghost predicate Moves(store: seq<Observation>, p: Observation, a: Action) {
    && Stands(store, p) && p.OfFlow? && p.flow.h.account == a.h.account
    && a.flowExternal == Some(p.flow.h.external)
  }

  predicate SameTransfer(f: Flow, a: Action) {
    && f.h.at == a.h.at
    && match a.kind
       case TransferIn => f.flowType == TransferredIn
       case TransferOut => f.flowType == TransferredOut
       case _ => false
  }

  ghost function TransferError(store: seq<Observation>, a: Action): Option<Refusal> {
    if a.flowExternal.None? then None
    else if forall p :: !Moves(store, p, a) then Some(TransferWithoutFlow)
    else if exists p :: Moves(store, p, a) && !SameTransfer(p.flow, a) then Some(TransferMismatched)
    else None
  }

  /** At most one observation of an event stands. */
  lemma OneStands(store: seq<Observation>, p: Observation, q: Observation)
    requires UniqueIds(store) && Chained(store) && Stands(store, p) && Stands(store, q) && SameEvent(p, q)
    ensures p == q
  {
    var c := History(store, EventOf(p));
    assert EventOf(p) == EventOf(q) && p in c && q in c;
    var i :| 0 <= i < |c| && c[i] == p;
    var j :| 0 <= j < |c| && c[j] == q;
    HeadIsLast(store, EventOf(p), i);
    HeadIsLast(store, EventOf(p), j);
  }

  lemma LinkedAreMoves(store: seq<Observation>, a: Action)
    requires a.flowExternal.Some?
    ensures forall p | p in store :: IsLinkedFlow(store, p, a, a.flowExternal.value) <==> Moves(store, p, a)
  {
    forall p | p in store ensures IsLinkedFlow(store, p, a, a.flowExternal.value) <==> Moves(store, p, a) {
      StandsExactly(store, p);
    }
  }

  lemma OneMoves(store: seq<Observation>, a: Action, flows: seq<Observation>)
    requires UniqueIds(store) && Chained(store) && a.flowExternal.Some?
    requires flows == Filter(store, (p: Observation) => IsLinkedFlow(store, p, a, a.flowExternal.value))
    ensures |flows| <= 1 && forall p :: p in flows <==> Moves(store, p, a)
  {
    LinkedAreMoves(store, a);
    assert NoRepeats(store);
    FilterNoRepeats(store, (p: Observation) => IsLinkedFlow(store, p, a, a.flowExternal.value));
    if |flows| > 1 {
      assert flows[0] in flows && flows[1] in flows;
      OneStands(store, flows[0], flows[1]);
      assert false;
    }
  }

  lemma TransferExactly(store: seq<Observation>, a: Action)
    requires UniqueIds(store) && Chained(store)
    ensures TransferChecks(store, OfAction(a)) == TransferError(store, a)
  {
    if a.flowExternal.Some? {
      var flows := Filter(store, (p: Observation) => IsLinkedFlow(store, p, a, a.flowExternal.value));
      OneMoves(store, a, flows);
      if flows != [] {
        assert flows[0] in flows;
        assert forall p | p in flows :: p == flows[0];
        assert Moves(store, flows[0], a);
      }
    }
  }

  // ----- Ingestion -----

  ghost function KindError(store: seq<Observation>, o: Observation, linked: bool): Option<Refusal> {
    match o
    case OfValuation(_) => if InstantTaken(store, o) then Some(InstantExists) else None
    case OfFill(f) => if f.decision.Some? && !linked then Some(FillUnlinked) else None
    case OfFlow(f) => FlowError(store, f)
    case OfAction(a) => TransferError(store, a)
    case OfCoverage(_) => None
  }

  lemma KindExactly(store: seq<Observation>, o: Observation, linked: bool)
    requires UniqueIds(store) && Chained(store)
    ensures OrElse(Instants(store, o),
                   OrElse(Linkage(o, linked), OrElse(FlowChecks(store, o), TransferChecks(store, o))))
         == KindError(store, o, linked)
  {
    InstantsExactly(store, o);
    if o.OfFlow? {
      BoundaryExactly(store, o.flow, o.flow.before, BeforeFlow);
      BoundaryExactly(store, o.flow, o.flow.after, AfterFlow);
      DiffersExactly(store, o.flow);
    }
    if o.OfAction? { TransferExactly(store, o.action); }
  }

  /** What ingestion answers in a reachable store: a stored identifier is recognised with the same content and
      refused with any other; then the correction is checked, then what its kind demands; an observation that
      nothing speaks against is accepted. */
  lemma IngestExactly(store: seq<Observation>, o: Observation, linked: bool)
    requires UniqueIds(store) && Chained(store)
    ensures Ingesting(store, o, linked)
         == if o in store then Unchanged
            else if Stored(store, o.H().id) then Refused(DifferentContent)
            else
              match CorrectionError(store, o)
              case Some(why) => Refused(why)
              case None =>
                match KindError(store, o, linked)
                case Some(why) => Refused(why)
                case None => Inserted
  {
    if o in store {
      GetExactly(store, o);
    } else if !Stored(store, o.H().id) {
      assert Get(store, o.H().id).None?;
      CorrectionExactly(store, o);
      KindExactly(store, o, linked);
    }
  }

  /** The observation begins an event of its own, or corrects the one that stands uncorrected for its event. */
  ghost predicate Joins(store: seq<Observation>, o: Observation) {
    match o.H().supersedes
    case None => forall p | p in store :: !SameEvent(p, o)
    case Some(target) =>
      exists p | p in store ::
        && p.H().id == target && SameEvent(p, o) && p.H().recorded <= o.H().recorded
        && forall q | q in store :: q.H().supersedes != Some(target)
  }

  lemma JoinsExactly(store: seq<Observation>, o: Observation)
    requires UniqueIds(store)
    ensures CorrectionError(store, o).None? <==> Joins(store, o)
  {
    if o.H().supersedes.Some? && Joins(store, o) {
      var p :| p in store && p.H().id == o.H().supersedes.value && SameEvent(p, o)
               && p.H().recorded <= o.H().recorded;
      forall q | q in store && q.H().id == p.H().id ensures q == p {
        SameIdSameRow(store, p, q);
      }
    }
  }

  /** The store after any submissions takes in an observation exactly when its identifier is new, it joins its
      event and its kind's check passes. */
  lemma AcceptedExactly(inputs: seq<Submission>, o: Observation, linked: bool)
    requires ValidInputs(inputs) && o.Valid()
    ensures var store := Build([], inputs);
            After(store, o, linked) == store + [o]
            <==> !Stored(store, o.H().id) && Joins(store, o) && KindError(store, o, linked).None?
  {
    BuildKeepsInv([], inputs);
    var store := Build([], inputs);
    IngestExactly(store, o, linked);
    JoinsExactly(store, o);
    assert |store + [o]| == |store| + 1;
  }

  // ----- What is current -----

  predicate InOrder(a: Observation, b: Observation) {
    if a.H().at != b.H().at then a.H().at < b.H().at else a.H().id < b.H().id
  }

  lemma CurrentMembers(store: seq<Observation>, account: Account)
    ensures forall o ::
              o in CurrentObservations(store, account) <==> Stands(store, o) && o.H().account == account
  {
    forall o ensures o in CurrentObservations(store, account) <==> Stands(store, o) && o.H().account == account {
      CurrentAre(store, account, o);
      if o in store { StandsExactly(store, o); }
    }
  }

  lemma CurrentDiffer(store: seq<Observation>, account: Account)
    requires UniqueIds(store)
    ensures UniqueIds(CurrentObservations(store, account))
  {
    var kept, current := Filter(store, CurrentOf(store, account)), CurrentObservations(store, account);
    assert NoRepeats(store);
    FilterNoRepeats(store, CurrentOf(store, account));
    NoRepeatsSurvives(kept, current);
    SameMembers(kept, current);
    forall i, j | 0 <= i < j < |current| ensures current[i].H().id != current[j].H().id {
      assert current[i] in store && current[j] in store && current[i] != current[j];
    }
  }

  lemma CurrentInOrder(store: seq<Observation>, account: Account, current: seq<Observation>, i: nat, j: nat)
    requires UniqueIds(store) && current == CurrentObservations(store, account) && i < j < |current|
    ensures InOrder(current[i], current[j])
  {
    CurrentDiffer(store, account);
    assert TotalPreorder(OldestFirst);
    SortSorts(Filter(store, CurrentOf(store, account)), OldestFirst);
    assert OldestFirst(current[i], current[j]);
  }

  /** The current observations are those that stand, each once, by instant and then by identifier. */
  lemma CurrentExactly(inputs: seq<Submission>, account: Account)
    requires ValidInputs(inputs)
    ensures var store, current := Build([], inputs), CurrentObservations(Build([], inputs), account);
            && (forall o :: o in current <==> Stands(store, o) && o.H().account == account)
            && (forall i, j | 0 <= i < j < |current| :: InOrder(current[i], current[j]))
  {
    BuildKeepsInv([], inputs);
    var store, current := Build([], inputs), CurrentObservations(Build([], inputs), account);
    CurrentMembers(store, account);
    forall i, j | 0 <= i < j < |current| ensures InOrder(current[i], current[j]) {
      CurrentInOrder(store, account, current, i, j);
    }
  }

  // ----- What the report selects -----

  lemma {:induction false} ValuationsNone(observations: seq<Observation>)
    ensures Valuations(observations) == [] <==> forall o | o in observations :: !IsOrdinary(o)
  {
    if observations != [] {
      ValuationsNone(observations[1..]);
      assert observations == [observations[0]] + observations[1..];
    }
  }

  /** The report starts from the ordinary valuations, oldest first, when there are any. */
  lemma SelectedExactly(inputs: seq<Submission>, account: Account)
    requires ValidInputs(inputs)
    ensures var current := CurrentObservations(Build([], inputs), account);
            match Select(current)
            case NoValues => forall o | o in current && o.OfValuation? ::
                               o.valuation.phase == BeforeFlow || o.valuation.phase == AfterFlow
            case Selected(values) =>
              && values != []
              && (forall v :: v in values <==> OfValuation(v) in current
                                               && v.phase != BeforeFlow && v.phase != AfterFlow)
              && (forall i, j | 0 <= i < j < |values| :: values[i].h.at < values[j].h.at)
            case _ => false
  {
    var current := CurrentObservations(Build([], inputs), account);
    ReportGuardsHold(inputs, account);
    SelectsInOrder(current);
    forall o | o in current && IsOrdinary(o) ensures Select(current).Selected? {
      ValuationsNone(current);
    }
  }

  lemma SelectsInOrder(current: seq<Observation>)
    ensures match Select(current)
            case NoValues => forall o | o in current :: !IsOrdinary(o)
            case Selected(values) =>
              && values != []
              && (forall v :: v in values <==> OfValuation(v) in current && IsOrdinary(OfValuation(v)))
              && (forall i, j | 0 <= i < j < |values| :: values[i].h.at < values[j].h.at)
            case _ => true
  {
    var found := Valuations(current);
    var values := Sort(found, ValuationOrder);
    SameMembers(found, values);
    ValuationsNone(current);
    assert TotalPreorder(ValuationOrder);
    SortSorts(found, ValuationOrder);
    forall v ensures v in values <==> OfValuation(v) in current && IsOrdinary(OfValuation(v)) {
      ValuationsAre(current, v);
    }
    if Select(current).Selected? {
      forall i, j | 0 <= i < j < |values| ensures values[i].h.at < values[j].h.at {
        assert ValuationOrder(values[i], values[j]);
      }
    }
  }
}
