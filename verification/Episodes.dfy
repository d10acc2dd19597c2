/** Holding episodes: when each ticker was held, replayed from an opening valuation through fills,
    transfers and splits. */
module Episodes {
  import opened Reporting
  import opened Sorting
  import opened IntervalCover
  import opened Wrappers

  datatype Reason = OpeningQuantitiesMissing | ActivityCoverageMissing | ActivityOrderUnknown | DoesNotReconcile

  /** `origin` is the external identifier of the observation that opened it; open until it closes. */
  datatype Episode = Episode(
    origin: Id, ticker: Ticker, openedAt: Option<Instant>, firstObserved: Instant,
    closedAt: Option<Instant>, quantity: real)

  datatype Report =
    | Unavailable(reason: Reason)
    | Available(startsAt: Instant, items: seq<Episode>, total: nat, truncated: bool)

  /** The loop's variables; `current` points at the open episode of a ticker among the items. */
  datatype State = State(items: seq<Episode>, current: map<Ticker, nat>, quantities: map<Ticker, real>)

  /** Fills, splits and security transfers move quantities; fees and dividends do not. */
  predicate Moves(o: Observation) {
    o.OfFill? || (o.OfAction? && o.action.kind != Dividend && o.action.kind != Fee)
  }

  function TickerOf(o: Observation): Ticker {
    match o
    case OfFill(f) => f.ticker
    case OfAction(a) => (match a.ticker case Some(t) => t case None => "")
    case _ => ""
  }

  function Amount(q: Option<real>): real {
    match q case Some(x) => x case None => 0.0
  }

  /** A quantity after an event. */
  function Moved(previous: real, o: Observation): real {
    match o
    case OfFill(f) => if f.side == Buy then previous + f.quantity else previous - f.quantity
    case OfAction(a) =>
      if a.kind == Split then previous * Amount(a.ratio)
      else if a.kind == TransferIn then previous + Amount(a.quantity)
      else previous - Amount(a.quantity)
    case _ => previous
  }

  function QuantityOf(quantities: map<Ticker, real>, t: Ticker): real {
    if t in quantities then quantities[t] else 0.0
  }

  predicate EventOrder(a: Observation, b: Observation) {
    var x, y := a.H(), b.H();
    x.at < y.at || (x.at == y.at && (x.order < y.order || (x.order == y.order && x.id <= y.id)))
  }

  function InWindow(start: Instant, end: Instant): Observation -> bool {
    (o: Observation) => Moves(o) && start < o.H().at <= end
  }

  function Events(observations: seq<Observation>, start: Instant, end: Instant): seq<Observation> {
    Filter(observations, InWindow(start, end))
  }

  predicate DistinctKeys(events: seq<Observation>) {
    forall i, j | 0 <= i < j < |events| ::
      events[i].H().at != events[j].H().at || TickerOf(events[i]) != TickerOf(events[j])
      || events[i].H().order != events[j].H().order
  }

  function Opening(baseline: Header, positions: seq<Position>, s: State): State {
    if positions == [] then s
    else
      var p := positions[0];
      var q := Amount(p.quantity);
      if q == 0.0 then Opening(baseline, positions[1..], s)
      else
        var e := Episode(baseline.external, p.ticker, None, baseline.at, None, q);
        Opening(baseline, positions[1..],
                State(s.items + [e], s.current[p.ticker := |s.items|], s.quantities[p.ticker := q]))
  }

  /** An episode that opens when a quantity leaves zero. */
  function Opened(s: State, o: Observation, quantity: real): State {
    var t := TickerOf(o);
    if QuantityOf(s.quantities, t) == 0.0 && 0.0 < quantity then
      var e := Episode(o.H().external, t, Some(o.H().at), o.H().at, None, quantity);
      s.(items := s.items + [e], current := s.current[t := |s.items|])
    else s
  }

  /** The open episode follows the quantity, and closes at zero. */
  function Followed(s: State, o: Observation, quantity: real): State {
    var t := TickerOf(o);
    if t in s.current && s.current[t] < |s.items| then
      var i := s.current[t];
      if quantity == 0.0 then
        s.(items := s.items[i := s.items[i].(quantity := 0.0, closedAt := Some(o.H().at))],
           current := s.current - {t})
      else s.(items := s.items[i := s.items[i].(quantity := quantity)])
    else s
  }

  function Become(s: State, o: Observation, quantity: real): State {
    var next := Followed(Opened(s, o, quantity), o, quantity);
    next.(quantities := next.quantities[TickerOf(o) := quantity])
  }

  /** One turn of the loop; None when a quantity would be negative. */
  function Turn(s: State, o: Observation): Option<State> {
    var t := TickerOf(o);
    var quantity := Moved(QuantityOf(s.quantities, t), o);
    if quantity < 0.0 then None else Some(Become(s, o, quantity))
  }

  function Fold(s: State, events: seq<Observation>): Option<State>
    decreases |events|
  {
    if events == [] then Some(s)
    else
      match Turn(s, events[0])
      case None => None
      case Some(next) => Fold(next, events[1..])
  }

  predicate Quantified(positions: seq<Position>) {
    forall p | p in positions :: p.quantity.Some?
  }

  function Actual(positions: seq<Position>): map<Ticker, real> {
    if positions == [] then map[]
    else
      var last := positions[|positions| - 1];
      var rest := Actual(positions[..|positions| - 1]);
      if Amount(last.quantity) == 0.0 then rest else rest[last.ticker := Amount(last.quantity)]
  }

  function NonZero(quantities: map<Ticker, real>): map<Ticker, real> {
    map t | t in quantities && quantities[t] != 0.0 :: quantities[t]
  }

  predicate Reconciles(latest: Valuation, quantities: map<Ticker, real>) {
    match latest.positions
    case None => true
    case Some(ps) => Quantified(ps) ==> Actual(ps) == NonZero(quantities)
  }

  /** The newest `limit` items; no limit, and a limit of zero, keep them all. */
  function Newest(items: seq<Episode>, limit: Option<nat>): seq<Episode> {
    match limit
    case Some(n) => if 0 < n < |items| then items[|items| - n..] else items
    case None => items
  }

  const NOTHING := State([], map[], map[])

  ghost function HoldingEpisodes(
    baseline: Valuation, latest: Valuation, observations: seq<Observation>, coverage: seq<Coverage>,
    limit: Option<nat>): Report
  {
    match baseline.positions
    case None => Unavailable(OpeningQuantitiesMissing)
    case Some(ps) =>
      if !Quantified(ps) then Unavailable(OpeningQuantitiesMissing)
      else if !Covered(baseline.h.at, latest.h.at, coverage, true) then
        Unavailable(ActivityCoverageMissing)
      else Replaying(baseline, latest, ps, Events(observations, baseline.h.at, latest.h.at), limit)
  }

  function Replaying(
    baseline: Valuation, latest: Valuation, ps: seq<Position>, events: seq<Observation>,
    limit: Option<nat>): Report
  {
    if !DistinctKeys(events) then Unavailable(ActivityOrderUnknown)
    else
      match Fold(Opening(baseline.h, ps, NOTHING), Sort(events, EventOrder))
      case None => Unavailable(DoesNotReconcile)
      case Some(s) =>
        if !Reconciles(latest, s.quantities) then Unavailable(DoesNotReconcile)
        else Available(baseline.h.at, Newest(s.items, limit), |s.items|,
                       limit.Some? && limit.value < |s.items|)
  }

  /** The loop over the opening positions. */
  method OpenPositions(baseline: Header, positions: seq<Position>) returns (s: State)
    ensures s == Opening(baseline, positions, NOTHING)
  {
    var items: seq<Episode>, current: map<Ticker, nat>, quantities: map<Ticker, real> := [], map[], map[];
    for i := 0 to |positions|
      invariant Opening(baseline, positions, NOTHING)
             == Opening(baseline, positions[i..], State(items, current, quantities))
    {
      var p := positions[i];
      assert positions[i..][0] == p && positions[i..][1..] == positions[i + 1..];
      var q := Amount(p.quantity);
      if q != 0.0 {
        current := current[p.ticker := |items|];
        quantities := quantities[p.ticker := q];
        items := items + [Episode(baseline.external, p.ticker, None, baseline.at, None, q)];
      }
    }
    s := State(items, current, quantities);
  }

  /** The loop over the events, stopping at the first that leaves a negative quantity. */
  method ReplayEvents(opening: State, events: seq<Observation>) returns (r: Option<State>)
    ensures r == Fold(opening, events)
  {
    var items: seq<Episode>, current: map<Ticker, nat>, quantities: map<Ticker, real>
      := opening.items, opening.current, opening.quantities;
    for i := 0 to |events|
      invariant Fold(opening, events) == Fold(State(items, current, quantities), events[i..])
    {
      var o := events[i];
      assert events[i..][0] == o && events[i..][1..] == events[i + 1..];
      ghost var before := State(items, current, quantities);
      var t := TickerOf(o);
      var previous := QuantityOf(quantities, t);
      var quantity := Moved(previous, o);
      if quantity < 0.0 {
        return None;
      }
      if previous == 0.0 && 0.0 < quantity {
        current := current[t := |items|];
        items := items + [Episode(o.H().external, t, Some(o.H().at), o.H().at, None, quantity)];
      }
      ghost var middle := State(items, current, quantities);
      assert middle == Opened(before, o, quantity);
      if t in current && current[t] < |items| {
        var k := current[t];
        items := items[k := items[k].(quantity := quantity)];
        if quantity == 0.0 {
          items := items[k := items[k].(closedAt := Some(o.H().at))];
          current := current - {t};
        }
      }
      assert State(items, current, quantities) == Followed(middle, o, quantity);
      quantities := quantities[t := quantity];
      assert Turn(before, o) == Some(State(items, current, quantities));
    }
    r := Some(State(items, current, quantities));
  }

  method ComputeEpisodes(
    baseline: Valuation, latest: Valuation, observations: seq<Observation>, coverage: seq<Coverage>,
    limit: Option<nat>) returns (r: Report)
    ensures r == HoldingEpisodes(baseline, latest, observations, coverage, limit)
  {
    if baseline.positions.None? || !Quantified(baseline.positions.value) {
      return Unavailable(OpeningQuantitiesMissing);
    }
    var covered := ComputeCovered(baseline.h.at, latest.h.at, coverage, true);
    if !covered {
      return Unavailable(ActivityCoverageMissing);
    }
    var opening := OpenPositions(baseline.h, baseline.positions.value);
    var events := Events(observations, baseline.h.at, latest.h.at);
    if !DistinctKeys(events) {
      return Unavailable(ActivityOrderUnknown);
    }
    var replayed := ReplayEvents(opening, Sort(events, EventOrder));
    if replayed.None? || !Reconciles(latest, replayed.value.quantities) {
      return Unavailable(DoesNotReconcile);
    }
    var s := replayed.value;
    return Available(baseline.h.at, Newest(s.items, limit), |s.items|,
                     limit.Some? && limit.value < |s.items|);
  }
}
