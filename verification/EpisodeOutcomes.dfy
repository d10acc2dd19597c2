/** What the episode report answers, in the fields of the observations it is made from. */
module EpisodeOutcomes {
  import opened Reporting
  import opened Sorting
  import opened IntervalCover
  import opened Episodes
  import opened EpisodeTheorems
  import opened Wrappers

  // ----- A ticker's own events -----

  /** The observation moves the ticker: a fill, a split, or a transfer of it. */
  ghost predicate About(o: Observation, t: Ticker) {
    match o
    case OfFill(f) => f.ticker == t
    case OfAction(a) => (a.kind == Split || a.kind == TransferIn || a.kind == TransferOut) && a.ticker == Some(t)
    case _ => false
  }

  ghost predicate AllValid(observations: seq<Observation>) {
    forall o | o in observations :: o.Valid()
  }

  lemma MovesExactly(o: Observation, t: Ticker)
    requires o.Valid()
    ensures Episodes.Moves(o) && TickerOf(o) == t <==> About(o, t)
  {
  }

  /** In time order, and in the order of their sequence at one instant. */
  ghost predicate InOrder(events: seq<Observation>) {
    forall i, j | 0 <= i < j < |events| ::
      || events[i].H().at < events[j].H().at
      || (events[i].H().at == events[j].H().at && events[i].H().order < events[j].H().order)
  }

  /** The ticker's events after the opening and up to the latest valuation. */
  function Own(observations: seq<Observation>, start: Instant, end: Instant, t: Ticker): seq<Observation> {
    Filter(Sort(Events(observations, start, end), EventOrder), ForTicker(t))
  }

  /** Two movements of one ticker at one instant that carry the same sequence. */
  ghost predicate Tied(events: seq<Observation>, i: nat, j: nat) {
    && i < j < |events| && events[i].H().at == events[j].H().at && events[i].H().order == events[j].H().order
    && exists t :: About(events[i], t) && About(events[j], t)
  }

  lemma SameTickerExactly(o: Observation, p: Observation)
    requires o.Valid() && Episodes.Moves(o) && p.Valid() && Episodes.Moves(p)
    ensures TickerOf(o) == TickerOf(p) <==> exists t :: About(o, t) && About(p, t)
  {
    MovesExactly(o, TickerOf(o));
    MovesExactly(p, TickerOf(o));
    forall t ensures About(o, t) && About(p, t) ==> TickerOf(o) == TickerOf(p) {
      MovesExactly(o, t);
      MovesExactly(p, t);
    }
  }

  lemma TiedExactly(events: seq<Observation>)
    requires forall o | o in events :: o.Valid() && Episodes.Moves(o)
    ensures DistinctKeys(events) <==> forall i: nat, j: nat :: !Tied(events, i, j)
  {
    forall i: nat, j: nat | i < j < |events|
      ensures Tied(events, i, j)
         <==> && events[i].H().at == events[j].H().at && TickerOf(events[i]) == TickerOf(events[j])
              && events[i].H().order == events[j].H().order
    {
      assert events[i] in events && events[j] in events;
      SameTickerExactly(events[i], events[j]);
    }
    if !DistinctKeys(events) {
      var i, j :| 0 <= i < j < |events|
                  && events[i].H().at == events[j].H().at && TickerOf(events[i]) == TickerOf(events[j])
                  && events[i].H().order == events[j].H().order;
      assert Tied(events, i, j);
    }
  }

  lemma EventsAre(observations: seq<Observation>, start: Instant, end: Instant, o: Observation)
    requires AllValid(observations)
    ensures o in Events(observations, start, end)
       <==> o in observations && start < o.H().at && o.H().at <= end && exists t :: About(o, t)
  {
    if o in observations {
      MovesExactly(o, TickerOf(o));
      forall t ensures About(o, t) ==> Episodes.Moves(o) { MovesExactly(o, t); }
    }
  }

  lemma OwnAre(observations: seq<Observation>, start: Instant, end: Instant, t: Ticker, o: Observation)
    requires AllValid(observations)
    ensures o in Own(observations, start, end, t)
       <==> o in observations && start < o.H().at && o.H().at <= end && About(o, t)
  {
    var events := Events(observations, start, end);
    SameMembers(events, Sort(events, EventOrder));
    EventsAre(observations, start, end, o);
    if o in observations { MovesExactly(o, t); }
  }

  lemma OwnInOrder(observations: seq<Observation>, start: Instant, end: Instant, t: Ticker)
    requires DistinctKeys(Events(observations, start, end))
    ensures InOrder(Own(observations, start, end, t))
  {
    var events := Events(observations, start, end);
    var sorted, own := Sort(events, EventOrder), Own(observations, start, end, t);
    EventOrderIsTotal();
    SortSorts(events, EventOrder);
    FilterKeepsOrder(sorted, ForTicker(t), EventOrder);
    KeysSurvive(events, sorted);
    NoRepeatsOfKeys(sorted);
    FilterNoRepeats(sorted, ForTicker(t));
    forall i, j | 0 <= i < j < |own|
      ensures own[i].H().at < own[j].H().at || (own[i].H().at == own[j].H().at && own[i].H().order < own[j].H().order)
    {
      assert own[i] in own && own[j] in own && EventOrder(own[i], own[j]);
      OnlyItself(sorted, own[i], own[j]);
    }
  }

  lemma NoRepeatsOfKeys(events: seq<Observation>)
    requires DistinctKeys(events)
    ensures NoRepeats(events)
  {
    assert forall i, j | 0 <= i < j < |events| :: !SameKey(events[i], events[j]);
  }

  // ----- A ticker's quantity -----

  /** The quantity after an event: a purchase or a transfer in adds, a sale or a transfer out takes away,
      and a split multiplies. */
  function After(q: real, o: Observation): real {
    match o
    case OfFill(f) => (match f.side case Buy => q + f.quantity case Sell => q - f.quantity)
    case OfAction(a) =>
      (match a.kind
       case Split => (match a.ratio case Some(x) => q * x case None => q)
       case TransferIn => (match a.quantity case Some(x) => q + x case None => q)
       case TransferOut => (match a.quantity case Some(x) => q - x case None => q)
       case _ => q)
    case _ => q
  }

  /** The quantity before the events and after each of them. */
  function Path(q: real, events: seq<Observation>): (r: seq<real>)
    ensures |r| == |events| + 1 && r[0] == q
    decreases |events|
  {
    if events == [] then [q] else [q] + Path(After(q, events[0]), events[1..])
  }

  lemma {:induction false} PathSteps(q: real, events: seq<Observation>, i: nat)
    requires i < |events|
    ensures Path(q, events)[i + 1] == After(Path(q, events)[i], events[i])
    decreases |events|
  {
    if i > 0 {
      PathSteps(After(q, events[0]), events[1..], i - 1);
    }
  }

  /** What comes in: purchases and transfers in. */
  function Incoming(events: seq<Observation>): real {
    if events == [] then 0.0 else
    Incoming(events[1..])
    + match events[0]
      case OfFill(f) => if f.side == Buy then f.quantity else 0.0
      case OfAction(a) => if a.kind == TransferIn && a.quantity.Some? then a.quantity.value else 0.0
      case _ => 0.0
  }

  /** What goes out: sales and transfers out. */
  function Outgoing(events: seq<Observation>): real {
    if events == [] then 0.0 else
    Outgoing(events[1..])
    + match events[0]
      case OfFill(f) => if f.side == Sell then f.quantity else 0.0
      case OfAction(a) => if a.kind == TransferOut && a.quantity.Some? then a.quantity.value else 0.0
      case _ => 0.0
  }

  /** Over a stretch without splits the quantity grows by what comes in less what goes out. */
  lemma {:induction false} SplitFreeSum(q: real, events: seq<Observation>)
    requires forall o | o in events :: !(o.OfAction? && o.action.kind == Split)
    ensures Path(q, events)[|events|] == q + Incoming(events) - Outgoing(events)
    decreases |events|
  {
    if events != [] {
      assert events[0] in events;
      SplitFreeSum(After(q, events[0]), events[1..]);
    }
  }

  /** What the opening valuation lists of a ticker. */
  function Listed(ps: seq<Position>, t: Ticker): real {
    if ps == [] then 0.0
    else if ps[0].ticker == t then (match ps[0].quantity case Some(x) => x case None => 0.0)
    else Listed(ps[1..], t)
  }

  lemma {:induction false} OpeningIsListed(baseline: Header, ps: seq<Position>, t: Ticker)
    requires forall i, j | 0 <= i < j < |ps| :: ps[i].ticker != ps[j].ticker
    ensures OpeningTrack(baseline, ps, t).quantity == Listed(ps, t)
  {
    if ps != [] {
      OpeningIsListed(baseline, ps[1..], t);
      if ps[0].ticker == t && Amount(ps[0].quantity) == 0.0 { NotListedAgain(ps, t); }
    }
  }

  lemma {:induction false} NotListed(ps: seq<Position>, t: Ticker)
    requires forall p | p in ps :: p.ticker != t
    ensures Listed(ps, t) == 0.0
  {
    if ps != [] {
      assert ps[0] in ps;
      NotListed(ps[1..], t);
    }
  }

  lemma NotListedAgain(ps: seq<Position>, t: Ticker)
    requires ps != [] && ps[0].ticker == t && forall i, j | 0 <= i < j < |ps| :: ps[i].ticker != ps[j].ticker
    ensures Listed(ps[1..], t) == 0.0
  {
    forall p | p in ps[1..] ensures p.ticker != t {
      var k :| 0 <= k < |ps[1..]| && ps[1..][k] == p;
      assert ps[0].ticker != ps[k + 1].ticker;
    }
    NotListed(ps[1..], t);
  }

  lemma MovedIsAfter(q: real, o: Observation)
    requires o.Valid() && Episodes.Moves(o)
    ensures Moved(q, o) == After(q, o)
  {
  }

  /** A ticker's replay stops if and only if its quantity would be negative somewhere on the way, and
      otherwise ends with the quantity at the end of the way. */
  lemma {:induction false} TrackFollowsPath(tr: Track, events: seq<Observation>)
    requires (forall o | o in events :: o.Valid() && Episodes.Moves(o)) && 0.0 <= tr.quantity
    ensures TrackFold(tr, events).None? <==> exists i | 0 <= i <= |events| :: Path(tr.quantity, events)[i] < 0.0
    ensures TrackFold(tr, events).Some? ==>
              TrackFold(tr, events).value.quantity == Path(tr.quantity, events)[|events|]
    decreases |events|
  {
    if events != [] {
      var o, rest := events[0], events[1..];
      assert o in events;
      MovedIsAfter(tr.quantity, o);
      var q := After(tr.quantity, o);
      var all := Path(tr.quantity, events);
      assert forall i | 0 <= i <= |rest| :: all[i + 1] == Path(q, rest)[i];
      if 0.0 <= q {
        TrackFollowsPath(TrackTurn(tr, o).value, rest);
        if i :| 0 <= i <= |events| && all[i] < 0.0 {
          assert i > 0 && Path(q, rest)[i - 1] < 0.0;
        }
      } else {
        assert all[1] == Path(q, rest)[0];
      }
    }
  }

  // ----- The outcome -----

  /** The way of a ticker's quantity through the window. */
  function Way(
    ps: seq<Position>, observations: seq<Observation>, start: Instant, end: Instant, t: Ticker): seq<real>
  {
    Path(Listed(ps, t), Own(observations, start, end, t))
  }

  function Last(way: seq<real>): real
    requires way != []
  {
    way[|way| - 1]
  }

  ghost predicate GoesNegative(way: seq<real>) {
    exists i | 0 <= i < |way| :: way[i] < 0.0
  }

  lemma OwnMove(observations: seq<Observation>, start: Instant, end: Instant, t: Ticker)
    requires AllValid(observations)
    ensures forall o | o in Own(observations, start, end, t) :: o.Valid() && Episodes.Moves(o)
  {
    forall o | o in Own(observations, start, end, t) ensures o.Valid() && Episodes.Moves(o) {
      OwnAre(observations, start, end, t, o);
      MovesExactly(o, t);
    }
  }

  /** A ticker's history is its way. */
  lemma HistoryIsWay(
    baseline: Header, ps: seq<Position>, observations: seq<Observation>, end: Instant, t: Ticker)
    requires AllValid(observations) && EpisodeTheorems.Listed(ps)
    ensures var way := Way(ps, observations, baseline.at, end, t);
            var h := History(baseline, ps, Events(observations, baseline.at, end), t);
            && (h.None? <==> GoesNegative(way))
            && (h.Some? ==> h.value.quantity == Last(way))
  {
    OwnMove(observations, baseline.at, end, t);
    OpeningIsListed(baseline, ps, t);
    OpeningSettled(baseline, ps, t);
    TrackFollowsPath(OpeningTrack(baseline, ps, t), Own(observations, baseline.at, end, t));
  }

  lemma {:induction false} ActualAt(ps: seq<Position>, t: Ticker)
    requires forall i, j | 0 <= i < j < |ps| :: ps[i].ticker != ps[j].ticker
    ensures QuantityOf(Actual(ps), t) == Listed(ps, t)
    ensures t in Actual(ps) ==> Actual(ps)[t] != 0.0
  {
    if ps != [] {
      var n := |ps| - 1;
      ActualAt(ps[..n], t);
      ListedFromEnd(ps, t);
    }
  }

  lemma {:induction false} ListedFromEnd(ps: seq<Position>, t: Ticker)
    requires ps != [] && forall i, j | 0 <= i < j < |ps| :: ps[i].ticker != ps[j].ticker
    ensures var n := |ps| - 1;
            && Listed(ps, t) == (if ps[n].ticker == t then Amount(ps[n].quantity) else Listed(ps[..n], t))
            && (ps[n].ticker == t ==> Listed(ps[..n], t) == 0.0)
  {
    var n := |ps| - 1;
    if ps[n].ticker == t {
      forall p | p in ps[..n] ensures p.ticker != t {
        var k :| 0 <= k < n && ps[..n][k] == p;
        assert ps[k].ticker != ps[n].ticker;
      }
      NotListed(ps[..n], t);
    }
    if n > 0 {
      assert ps[1..][..n - 1] == ps[..n][1..] && ps[1..][n - 1] == ps[n];
      ListedFromEnd(ps[1..], t);
    }
  }

  /** Every position has a quantity. */
  ghost predicate Known(v: Valuation) {
    v.positions.Some? && forall p | p in v.positions.value :: p.quantity.Some?
  }

  /** The latest valuation, where it lists every quantity, lists what the ways end with. */
  ghost predicate Agrees(latest: Valuation, quantities: map<Ticker, real>) {
    Known(latest) ==> forall t :: Listed(latest.positions.value, t) == QuantityOf(quantities, t)
  }

  lemma ReconcilesExactly(latest: Valuation, quantities: map<Ticker, real>)
    requires latest.Valid()
    ensures Reconciles(latest, quantities) <==> Agrees(latest, quantities)
  {
    if Known(latest) {
      var ps := latest.positions.value;
      var actual, held := Actual(ps), NonZero(quantities);
      forall t ensures QuantityOf(actual, t) == Listed(ps, t) && (t in actual ==> actual[t] != 0.0) {
        ActualAt(ps, t);
      }
      assert forall t :: QuantityOf(held, t) == QuantityOf(quantities, t);
      if Agrees(latest, quantities) {
        forall t ensures (t in actual <==> t in held) && (t in actual ==> actual[t] == held[t]) {
          assert Listed(ps, t) == QuantityOf(quantities, t) && QuantityOf(actual, t) == Listed(ps, t);
        }
        assert actual == held;
      }
      if actual == held {
        forall t ensures Listed(ps, t) == QuantityOf(quantities, t) {
          assert QuantityOf(actual, t) == QuantityOf(held, t);
        }
      }
    }
  }

  ghost predicate ReportedAt(coverage: seq<Coverage>, t: Instant) {
    exists c | c in coverage :: c.activityComplete && c.start <= t && t < c.end
  }

  /** At every instant of the window some report says that its activity is complete. */
  ghost predicate ActivityReported(start: Instant, end: Instant, coverage: seq<Coverage>) {
    forall t | start <= t && t < end :: ReportedAt(coverage, t)
  }

  lemma CoveredIsReported(start: Instant, end: Instant, coverage: seq<Coverage>)
    requires start <= end
    ensures Covered(start, end, coverage, true) <==> ActivityReported(start, end, coverage)
  {
    forall t ensures InstantCovered(coverage, true, t) <==> ReportedAt(coverage, t) {
      if ReportedAt(coverage, t) {
        var c :| c in coverage && c.activityComplete && c.start <= t && t < c.end;
        assert Covers(c, true, t);
      }
    }
    if Covered(start, end, coverage, true) {
      forall t | start <= t && t < end ensures ReportedAt(coverage, t) { assert InstantCovered(coverage, true, t); }
    }
    if ActivityReported(start, end, coverage) {
      forall t | start <= t < end ensures InstantCovered(coverage, true, t) { assert ReportedAt(coverage, t); }
    }
  }

  /** No two movements of a ticker in the window tie. */
  ghost predicate ToldApart(observations: seq<Observation>, start: Instant, end: Instant) {
    forall i: nat, j: nat :: !Tied(Events(observations, start, end), i, j)
  }

  /** Every ticker's way is never negative, and ends with what the latest valuation lists of it. */
  ghost predicate WaysHold(
    ps: seq<Position>, latest: Valuation, observations: seq<Observation>, start: Instant, end: Instant)
  {
    && (forall t :: !GoesNegative(Way(ps, observations, start, end, t)))
    && (Known(latest) ==>
          forall t :: Listed(latest.positions.value, t) == Last(Way(ps, observations, start, end, t)))
  }

  lemma ReplayHolds(
    baseline: Valuation, latest: Valuation, ps: seq<Position>, observations: seq<Observation>)
    requires AllValid(observations) && EpisodeTheorems.Listed(ps) && latest.Valid()
    ensures var s := Replay(baseline.h, ps, Events(observations, baseline.h.at, latest.h.at));
            s.Some? && Reconciles(latest, s.value.quantities)
            <==> WaysHold(ps, latest, observations, baseline.h.at, latest.h.at)
  {
    var events := Events(observations, baseline.h.at, latest.h.at);
    var s := Replay(baseline.h, ps, events);
    forall t ensures var way := Way(ps, observations, baseline.h.at, latest.h.at, t);
                     && (History(baseline.h, ps, events, t).None? <==> GoesNegative(way))
                     && (History(baseline.h, ps, events, t).Some? ==>
                           History(baseline.h, ps, events, t).value.quantity == Last(way))
    {
      HistoryIsWay(baseline.h, ps, observations, latest.h.at, t);
    }
    if s.None? {
      OpeningFromNothing(baseline.h, ps, "");
      var t := FoldStops(Opening(baseline.h, ps, NOTHING), Sort(events, EventOrder));
      OpeningFromNothing(baseline.h, ps, t);
      assert History(baseline.h, ps, events, t).None?;
      assert GoesNegative(Way(ps, observations, baseline.h.at, latest.h.at, t));
    } else {
      forall t
        ensures !GoesNegative(Way(ps, observations, baseline.h.at, latest.h.at, t))
        ensures QuantityOf(s.value.quantities, t) == Last(Way(ps, observations, baseline.h.at, latest.h.at, t))
      {
        FoldIsHistories(baseline.h, ps, events, t);
      }
      ReconcilesExactly(latest, s.value.quantities);
    }
  }

  /** When a report is unavailable, and why: an opening quantity is missing; the window's activity is not
      reported; two movements of a ticker tie; or else some ticker's quantity, carried from the opening
      through its events, would be negative or does not end as the latest valuation lists it. */
  lemma ReportExactly(
    baseline: Valuation, latest: Valuation, observations: seq<Observation>, coverage: seq<Coverage>,
    limit: Option<nat>)
    requires baseline.Valid() && latest.Valid() && baseline.h.at <= latest.h.at && AllValid(observations)
    ensures var r, start, end := HoldingEpisodes(baseline, latest, observations, coverage, limit),
                                 baseline.h.at, latest.h.at;
            if !Known(baseline) then r == Unavailable(OpeningQuantitiesMissing)
            else if !ActivityReported(start, end, coverage) then r == Unavailable(ActivityCoverageMissing)
            else if !ToldApart(observations, start, end) then r == Unavailable(ActivityOrderUnknown)
            else if !WaysHold(baseline.positions.value, latest, observations, start, end) then
              r == Unavailable(DoesNotReconcile)
            else r.Available? && r.startsAt == start
  {
    GuardedOrReplayed(baseline, latest, observations, coverage, limit);
    CoveredIsReported(baseline.h.at, latest.h.at, coverage);
    if Known(baseline) {
      var ps, events := baseline.positions.value, Events(observations, baseline.h.at, latest.h.at);
      ValidIsListed(baseline);
      forall o | o in events ensures o.Valid() && Episodes.Moves(o) {
        EventsAre(observations, baseline.h.at, latest.h.at, o);
      }
      TiedExactly(events);
      ReplayHolds(baseline, latest, ps, observations);
    }
  }

  /** What an available report says of a ticker, under any limit that drops nothing: it lists an open
      episode exactly while something is held at the end of the way, and that much. */
  lemma HeldExactly(
    baseline: Valuation, latest: Valuation, observations: seq<Observation>, coverage: seq<Coverage>,
    limit: Option<nat>, t: Ticker)
    requires baseline.Valid() && baseline.h.at <= latest.h.at && AllValid(observations)
    requires HoldingEpisodes(baseline, latest, observations, coverage, limit).Available?
    requires limit.None? || limit == Some(0)
             || HoldingEpisodes(baseline, latest, observations, coverage, limit).total <= limit.value
    ensures Known(baseline)
    ensures var r := HoldingEpisodes(baseline, latest, observations, coverage, limit);
            var held := Last(Way(baseline.positions.value, observations, baseline.h.at, latest.h.at, t));
            && 0.0 <= held
            && ((exists e | e in r.items :: e.ticker == t && e.closedAt.None?) <==> 0.0 < held)
            && (forall e | e in r.items && e.ticker == t && e.closedAt.None? :: e.quantity == held)
  {
    var r := HoldingEpisodes(baseline, latest, observations, coverage, limit);
    var ps, events := baseline.positions.value, Events(observations, baseline.h.at, latest.h.at);
    EpisodesTellHoldings(baseline, latest, observations, coverage, limit, t);
    ValidIsListed(baseline);
    HistoryIsWay(baseline.h, ps, observations, latest.h.at, t);
    OpenIsLast(Filter(r.items, OfTicker(t)), History(baseline.h, ps, events, t).value, latest.h.at);
    ListedInTrack(r.items, t);
  }
}
