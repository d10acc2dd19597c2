/** The append-only store of reporting observations. A correction supersedes one stored observation;
    nothing is ever changed or removed. */
module Observations {
  import opened Reporting
  import opened Sorting
  import opened Wrappers

  /** The event an observation is about; its corrections stay with it. */
  datatype Event = Event(account: Account, kind: nat, external: Id)

  function EventOf(o: Observation): Event {
    Event(o.H().account, o.Kind(), o.H().external)
  }

  datatype Refusal =
    | DifferentContent | TargetMissing | IdentityChanged | BeforePrevious | AlreadySuperseded
    | EventExists | InstantExists | FillUnlinked | BoundaryAbsent | BoundaryMismatched
    | NotReconciled | TransferWithoutFlow | TransferMismatched

  datatype Result = Inserted | Unchanged | Refused(why: Refusal)

  function Get(store: seq<Observation>, id: Id): (r: Option<Observation>)
    ensures r.None? <==> forall o | o in store :: o.H().id != id
    ensures r.Some? ==> r.value in store && r.value.H().id == id
  {
    if store == [] then None
    else if store[0].H().id == id then Some(store[0])
    else Get(store[1..], id)
  }

  predicate Superseded(store: seq<Observation>, id: Id) {
    exists o | o in store :: o.H().supersedes == Some(id)
  }

  predicate IsCurrent(store: seq<Observation>, o: Observation) {
    !o.H().voided && !Superseded(store, o.H().id)
  }

  function Correction(store: seq<Observation>, o: Observation): Option<Refusal> {
    match o.H().supersedes
    case Some(target) =>
      (match Get(store, target)
       case None => Some(TargetMissing)
       case Some(prior) =>
         if EventOf(prior) != EventOf(o) then Some(IdentityChanged)
         else if o.H().recorded < prior.H().recorded then Some(BeforePrevious)
         else if Superseded(store, target) then Some(AlreadySuperseded)
         else None)
    case None =>
      if exists p | p in store :: EventOf(p) == EventOf(o) then Some(EventExists) else None
  }

  predicate IsOrdinary(o: Observation) {
    o.OfValuation? && o.valuation.Ordinary()
  }

  /** A current ordinary valuation of the account at the same instant, other than the one corrected. */
  predicate Clashes(store: seq<Observation>, p: Observation, o: Observation) {
    && IsOrdinary(p) && IsCurrent(store, p)
    && p.H().account == o.H().account && p.H().at == o.H().at
    && Some(p.H().id) != o.H().supersedes
  }

  function Instants(store: seq<Observation>, o: Observation): Option<Refusal> {
    if IsOrdinary(o) && exists p | p in store :: Clashes(store, p, o) then Some(InstantExists)
    else None
  }

  /** `linked` is the verdict of the order-intent and account tables on an agent's fill. */
  function Linkage(o: Observation, linked: bool): Option<Refusal> {
    if o.OfFill? && o.fill.decision.Some? && !linked then Some(FillUnlinked) else None
  }

  function Boundary(store: seq<Observation>, f: Flow, id: Option<Id>, phase: Phase): Option<Refusal> {
    match id
    case None => None
    case Some(k) =>
      match Get(store, k)
      case None => Some(BoundaryAbsent)
      case Some(b) =>
        if !IsCurrent(store, b) then Some(BoundaryAbsent)
        else if !(b.OfValuation? && b.valuation.h.account == f.h.account
                  && b.valuation.h.at == f.h.at && b.valuation.phase == phase) then
          Some(BoundaryMismatched)
        else None
  }

  function EquityOf(store: seq<Observation>, id: Option<Id>): Option<Cents> {
    match id
    case None => None
    case Some(k) =>
      match Get(store, k)
      case Some(OfValuation(v)) => v.equity
      case _ => None
  }

  /** Where both boundary balances are known, the flow is their difference. */
  predicate Reconciles(store: seq<Observation>, f: Flow) {
    var x, y := EquityOf(store, f.before), EquityOf(store, f.after);
    x.Some? && y.Some? ==> y.value - x.value == f.amount
  }

  function FlowChecks(store: seq<Observation>, o: Observation): Option<Refusal> {
    match o
    case OfFlow(f) =>
      var before := Boundary(store, f, f.before, BeforeFlow);
      var after := Boundary(store, f, f.after, AfterFlow);
      if before.Some? then before
      else if after.Some? then after
      else if !Reconciles(store, f) then Some(NotReconciled)
      else None
    case _ => None
  }

  predicate SameMovement(kind: ActionKind, flowType: FlowType) {
    (kind == TransferIn && flowType == TransferredIn) || (kind == TransferOut && flowType == TransferredOut)
  }

  predicate IsLinkedFlow(store: seq<Observation>, p: Observation, a: Action, external: Id) {
    p.OfFlow? && IsCurrent(store, p) && p.H().account == a.h.account && p.H().external == external
  }

  function TransferChecks(store: seq<Observation>, o: Observation): Option<Refusal> {
    match o
    case OfAction(a) =>
      (match a.flowExternal
       case None => None
       case Some(external) =>
         var flows := Filter(store, (p: Observation) => IsLinkedFlow(store, p, a, external));
         if |flows| != 1 then Some(TransferWithoutFlow)
         else
           assert flows[0] in flows;
           var f := flows[0].flow;
           if !SameMovement(a.kind, f.flowType) || f.h.at != a.h.at then Some(TransferMismatched)
           else None)
    case _ => None
  }

  function OrElse(a: Option<Refusal>, b: Option<Refusal>): Option<Refusal> {
    if a.Some? then a else b
  }

  function Objection(store: seq<Observation>, o: Observation, linked: bool): Option<Refusal> {
    OrElse(Correction(store, o),
           OrElse(Instants(store, o),
                  OrElse(Linkage(o, linked), OrElse(FlowChecks(store, o), TransferChecks(store, o)))))
  }

  function Ingesting(store: seq<Observation>, o: Observation, linked: bool): Result {
    match Get(store, o.H().id)
    case Some(existing) => if existing == o then Unchanged else Refused(DifferentContent)
    case None =>
      match Objection(store, o, linked)
      case Some(why) => Refused(why)
      case None => Inserted
  }

  function After(store: seq<Observation>, o: Observation, linked: bool): seq<Observation> {
    if Ingesting(store, o, linked).Inserted? then store + [o] else store
  }

  function CurrentOf(store: seq<Observation>, account: Account): Observation -> bool {
    (o: Observation) => o.H().account == account && IsCurrent(store, o)
  }

  predicate OldestFirst(a: Observation, b: Observation) {
    a.H().at < b.H().at || (a.H().at == b.H().at && a.H().id <= b.H().id)
  }

  function CurrentObservations(store: seq<Observation>, account: Account): seq<Observation> {
    Sort(Filter(store, CurrentOf(store, account)), OldestFirst)
  }

  class ObservationStore {
    var rows: seq<Observation>

    constructor ()
      ensures rows == []
    {
      rows := [];
    }

    /** Every check before the insert; each refusal leaves the store as it was. */
    method Ingest(o: Observation, linked: bool) returns (r: Result)
      modifies this
      ensures r == Ingesting(old(rows), o, linked)
      ensures rows == After(old(rows), o, linked)
    {
      var existing := Get(rows, o.H().id);
      if existing.Some? {
        return if existing.value == o then Unchanged else Refused(DifferentContent);
      }
      var objection := Correction(rows, o);
      if objection.Some? {
        return Refused(objection.value);
      }
      if IsOrdinary(o) {
        for i := 0 to |rows|
          invariant forall p | p in rows[..i] :: !Clashes(rows, p, o)
        {
          if Clashes(rows, rows[i], o) {
            return Refused(InstantExists);
          }
          assert rows[..i + 1] == rows[..i] + [rows[i]];
        }
      }
      if o.OfFill? && o.fill.decision.Some? && !linked {
        return Refused(FillUnlinked);
      }
      objection := FlowChecks(rows, o);
      if objection.Some? {
        return Refused(objection.value);
      }
      objection := TransferChecks(rows, o);
      if objection.Some? {
        return Refused(objection.value);
      }
      rows := rows + [o];
      return Inserted;
    }
  }

  // ----- What the report selects first -----

  datatype Selection = NoValues | AmbiguousInstants | MixedAccounts | Selected(values: seq<Valuation>)

  function Valuations(observations: seq<Observation>): seq<Valuation> {
    if observations == [] then []
    else (if IsOrdinary(observations[0]) then [observations[0].valuation] else [])
         + Valuations(observations[1..])
  }

  predicate ValuationOrder(a: Valuation, b: Valuation) {
    a.h.at < b.h.at || (a.h.at == b.h.at && a.h.id <= b.h.id)
  }

  predicate DistinctInstants(values: seq<Valuation>) {
    forall i, j | 0 <= i < j < |values| :: values[i].h.at != values[j].h.at
  }

  /** The ordinary valuations in time order, or the error that stops the report. */
  function Select(observations: seq<Observation>): Selection {
    var values := Sort(Valuations(observations), ValuationOrder);
    if values == [] then NoValues
    else if !DistinctInstants(values) then AmbiguousInstants
    else if exists o | o in observations :: o.H().account != values[|values| - 1].h.account then
      MixedAccounts
    else Selected(values)
  }
}
