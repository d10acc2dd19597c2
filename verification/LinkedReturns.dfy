/** Time-weighted returns linked across external flows. */
module LinkedReturns {
  import opened Reporting
  import opened Sorting
  import opened IntervalCover
  import opened Wrappers

  datatype Reason =
    | FlowBoundaryEndpoint | CoincidentFlowEndpoint | IncompleteValuation | InsufficientObservations
    | FlowCoverageMissing | SimultaneousFlowOrder | BoundaryReused | BoundaryMissing
    | BoundaryMismatch | SimultaneousBoundaryGap | ZeroBase | PrecisionExceeded

  datatype Linked =
    | Rejected                       // the inputs mix accounts: an exception
    | Unavailable(reason: Reason)
    | Single                         // one observation, zero return, no growth factor
    | Available(factor: real, netFlows: Cents, pnl: Cents)

  /** The running state of the linking loop. */
  datatype Link = Link(factor: real, previous: Cents, funded: bool, lastFlow: Option<Instant>)

  datatype Step = Go(link: Link) | Stop(reason: Reason)

  // The loop refuses a factor of more than 32 digits before the point.
  const PRECISION_LIMIT: real := 100000000000000000000000000000000.0

  type Valuations = map<Id, Valuation>

  predicate FlowLe(f: Flow, g: Flow) {
    || f.h.at < g.h.at
    || (f.h.at == g.h.at && (f.h.order < g.h.order
                             || (f.h.order == g.h.order && f.h.id <= g.h.id)))
  }

  function Lookup(vals: Valuations, id: Option<Id>): (r: Option<Valuation>)
    requires AllPriced(vals)
    ensures r.Some? ==> r.value.Priced() && id.Some? && id.value in vals && vals[id.value] == r.value
  {
    match id
    case Some(k) => if k in vals then Some(vals[k]) else None
    case None => None
  }

  function Events(flows: seq<Flow>, start: Instant, end: Instant): seq<Flow> {
    Sort(Filter(flows, (f: Flow) => start < f.h.at <= end), FlowLe)
  }

  function NetFlows(events: seq<Flow>): Cents {
    if events == [] then 0 else events[0].amount + NetFlows(events[1..])
  }

  function Ids(f: Flow): seq<Id> {
    (if f.before.Some? then [f.before.value] else [])
    + (if f.after.Some? then [f.after.value] else [])
  }

  function BoundaryIds(events: seq<Flow>): seq<Id> {
    if events == [] then [] else Ids(events[0]) + BoundaryIds(events[1..])
  }

  predicate DistinctInstants(events: seq<Flow>) {
    forall i, j | 0 <= i < j < |events| ::
      events[i].h.at != events[j].h.at || events[i].h.order != events[j].h.order
  }

  function Begin(equity: Cents): Link {
    Link(1.0, equity, 0 < equity, None)
  }

  predicate Matches(flow: Flow, before: Valuation, after: Valuation)
    requires before.equity.Some? && after.equity.Some?
  {
    && before.phase == BeforeFlow && after.phase == AfterFlow
    && before.h.at == flow.h.at && after.h.at == flow.h.at
    && after.equity.value - before.equity.value == flow.amount
  }

  /** One turn of the loop. */
  function Cross(link: Link, flow: Flow, vals: Valuations): Step
    requires AllPriced(vals)
  {
    var before, after := Lookup(vals, flow.before), Lookup(vals, flow.after);
    if before.None? || after.None? || !before.value.complete || !after.value.complete then
      Stop(BoundaryMissing)
    else if !Matches(flow, before.value, after.value) then
      Stop(BoundaryMismatch)
    else
      var x, y := before.value.equity.value, after.value.equity.value;
      if link.lastFlow == Some(flow.h.at) && x != link.previous then Stop(SimultaneousBoundaryGap)
      else if link.previous == 0 && x != 0 then Stop(ZeroBase)
      else Go(Link(
                if link.previous == 0 then link.factor
                else link.factor * (x as real / link.previous as real),
                y, link.funded || 0 < y, Some(flow.h.at)))
  }

  function Through(link: Link, events: seq<Flow>, vals: Valuations): Step
    requires AllPriced(vals)
    decreases |events|
  {
    if events == [] then Go(link) else
    var step := Cross(link, events[0], vals);
    if step.Stop? then step else Through(step.link, events[1..], vals)
  }

  /** The last segment and the two guards after the loop. */
  function Arrive(link: Link, end: Cents, start: Cents, net: Cents): Linked {
    if link.previous == 0 && (end != 0 || !link.funded) then Unavailable(ZeroBase)
    else
      var factor := if link.previous == 0 then link.factor
                    else link.factor * (end as real / link.previous as real);
      if PRECISION_LIMIT <= factor then Unavailable(PrecisionExceeded)
      else Available(factor, net, end - start - net)
  }

  predicate SameAccount(
    account: Account, vals: Valuations, flows: seq<Flow>, coverage: seq<Coverage>)
  {
    && (forall k | k in vals :: vals[k].h.account == account)
    && (forall f | f in flows :: f.h.account == account)
    && (forall c | c in coverage :: c.h.account == account)
  }

  ghost predicate AllPriced(vals: Valuations) {
    forall k | k in vals :: vals[k].Priced()
  }

  /** The flows between the endpoints, once the endpoints and the coverage are good. */
  ghost function Linking(start: Cents, end: Cents, events: seq<Flow>, vals: Valuations): Linked
    requires AllPriced(vals)
  {
    if !DistinctInstants(events) then Unavailable(SimultaneousFlowOrder)
    else if !NoRepeats(BoundaryIds(events)) then Unavailable(BoundaryReused)
    else
      var step := Through(Begin(start), events, vals);
      if step.Stop? then Unavailable(step.reason)
      else Arrive(step.link, end, start, NetFlows(events))
  }

  ghost function LinkedReturn(
    start: Valuation, end: Valuation, vals: Valuations, flows: seq<Flow>, coverage: seq<Coverage>)
    : Linked
    requires start.Priced() && end.Priced() && AllPriced(vals)
  {
    if start.h.account != end.h.account || !SameAccount(start.h.account, vals, flows, coverage) then
      Rejected
    else if !start.Ordinary() || !end.Ordinary() then Unavailable(FlowBoundaryEndpoint)
    else if exists f | f in flows :: f.h.at == start.h.at || f.h.at == end.h.at then
      Unavailable(CoincidentFlowEndpoint)
    else if start.h.id == end.h.id then
      if start.complete then Single else Unavailable(IncompleteValuation)
    else if end.h.at <= start.h.at then Unavailable(InsufficientObservations)
    else if !start.complete || !end.complete then Unavailable(IncompleteValuation)
    else if !Covered(start.h.at, end.h.at, coverage, false) then Unavailable(FlowCoverageMissing)
    else
      Linking(start.equity.value, end.equity.value, Events(flows, start.h.at, end.h.at), vals)
  }

  /** The loop over the flows, in time order, returning early at the first that cannot be linked. */
  method LinkFlows(start: Cents, events: seq<Flow>, vals: Valuations) returns (r: Step)
    requires AllPriced(vals)
    ensures r == Through(Begin(start), events, vals)
  {
    var factor, previous, lastFlow: Option<Instant> := 1.0, start, None;
    var funded := 0 < previous;
    for i := 0 to |events|
      invariant Through(Begin(start), events, vals)
             == Through(Link(factor, previous, funded, lastFlow), events[i..], vals)
    {
      var flow := events[i];
      assert events[i..][0] == flow && events[i..][1..] == events[i + 1..];
      ghost var link := Link(factor, previous, funded, lastFlow);
      var before, after := Lookup(vals, flow.before), Lookup(vals, flow.after);
      if before.None? || after.None? || !before.value.complete || !after.value.complete {
        return Stop(BoundaryMissing);
      }
      if !Matches(flow, before.value, after.value) {
        return Stop(BoundaryMismatch);
      }
      var x := before.value.equity.value;
      if lastFlow == Some(flow.h.at) && x != previous {
        return Stop(SimultaneousBoundaryGap);
      }
      if previous == 0 && x != 0 {
        return Stop(ZeroBase);
      }
      if previous != 0 {
        factor := factor * (x as real / previous as real);
      }
      lastFlow := Some(flow.h.at);
      previous := after.value.equity.value;
      funded := funded || 0 < previous;
      assert Cross(link, flow, vals) == Go(Link(factor, previous, funded, lastFlow));
    }
    return Go(Link(factor, previous, funded, lastFlow));
  }

  /** The guards in the program's order, then the loop. */
  method ComputeLinkedReturn(
    start: Valuation, end: Valuation, vals: Valuations, flows: seq<Flow>, coverage: seq<Coverage>)
    returns (r: Linked)
    requires start.Priced() && end.Priced() && AllPriced(vals)
    ensures r == LinkedReturn(start, end, vals, flows, coverage)
  {
    if start.h.account != end.h.account || !SameAccount(start.h.account, vals, flows, coverage) {
      return Rejected;
    }
    if !start.Ordinary() || !end.Ordinary() {
      return Unavailable(FlowBoundaryEndpoint);
    }
    if exists f | f in flows :: f.h.at == start.h.at || f.h.at == end.h.at {
      return Unavailable(CoincidentFlowEndpoint);
    }
    if start.h.id == end.h.id {
      return if start.complete then Single else Unavailable(IncompleteValuation);
    }
    if end.h.at <= start.h.at {
      return Unavailable(InsufficientObservations);
    }
    if !start.complete || !end.complete {
      return Unavailable(IncompleteValuation);
    }
    var covered := ComputeCovered(start.h.at, end.h.at, coverage, false);
    if !covered {
      return Unavailable(FlowCoverageMissing);
    }
    var events := Events(flows, start.h.at, end.h.at);
    if !DistinctInstants(events) {
      return Unavailable(SimultaneousFlowOrder);
    }
    if !NoRepeats(BoundaryIds(events)) {
      return Unavailable(BoundaryReused);
    }
    var step := LinkFlows(start.equity.value, events, vals);
    if step.Stop? {
      return Unavailable(step.reason);
    }
    return Arrive(step.link, end.equity.value, start.equity.value, NetFlows(events));
  }
}
