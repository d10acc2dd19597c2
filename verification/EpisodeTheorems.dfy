/** What an available episode report says of every ticker, whatever the order of its inputs. */
module EpisodeTheorems {
  import opened Reporting
  import opened Sorting
  import opened Episodes
  import opened IntervalCover
  import opened Wrappers

  // ----- One ticker on its own -----

  /** The episodes of one ticker and the quantity held of it. */
  datatype Track = Track(episodes: seq<Episode>, quantity: real)

  function OpenedIn(tr: Track, o: Observation, quantity: real): seq<Episode> {
    if tr.quantity == 0.0 && 0.0 < quantity then
      tr.episodes + [Episode(o.H().external, TickerOf(o), Some(o.H().at), o.H().at, None, quantity)]
    else tr.episodes
  }

  function FollowedIn(episodes: seq<Episode>, o: Observation, quantity: real): seq<Episode> {
    if episodes != [] && episodes[|episodes| - 1].closedAt.None? then
      var n := |episodes| - 1;
      if quantity == 0.0 then
        episodes[n := episodes[n].(quantity := 0.0, closedAt := Some(o.H().at))]
      else episodes[n := episodes[n].(quantity := quantity)]
    else episodes
  }

  function TrackBecome(tr: Track, o: Observation, quantity: real): Track {
    Track(FollowedIn(OpenedIn(tr, o, quantity), o, quantity), quantity)
  }

  function TrackTurn(tr: Track, o: Observation): Option<Track> {
    var quantity := Moved(tr.quantity, o);
    if quantity < 0.0 then None else Some(TrackBecome(tr, o, quantity))
  }

  function TrackFold(tr: Track, events: seq<Observation>): Option<Track>
    decreases |events|
  {
    if events == [] then Some(tr)
    else
      match TrackTurn(tr, events[0])
      case None => None
      case Some(next) => TrackFold(next, events[1..])
  }

  /** The quantity that an opening amount becomes through signed fills, transfers and splits. */
  function Replayed(quantity: real, events: seq<Observation>): real
    decreases |events|
  {
    if events == [] then quantity else Replayed(Moved(quantity, events[0]), events[1..])
  }

  lemma {:induction false} TrackQuantity(tr: Track, events: seq<Observation>)
    requires TrackFold(tr, events).Some?
    ensures TrackFold(tr, events).value.quantity == Replayed(tr.quantity, events)
    decreases |events|
  {
    if events != [] {
      TrackQuantity(TrackTurn(tr, events[0]).value, events[1..]);
    }
  }

  predicate IsOpen(e: Episode) {
    e.closedAt.None?
  }

  ghost predicate InTime(e: Episode, now: Instant) {
    && e.firstObserved <= now
    && (e.closedAt.Some? ==> e.firstObserved <= e.closedAt.value <= now && e.quantity == 0.0)
  }

  ghost predicate AllInTime(episodes: seq<Episode>, now: Instant) {
    forall i | 0 <= i < |episodes| :: InTime(episodes[i], now)
  }

  /** One episode is over before the next begins. */
  ghost predicate Precedes(a: Episode, b: Episode) {
    a.closedAt.Some? && a.closedAt.value <= b.firstObserved
  }

  ghost predicate Successive(episodes: seq<Episode>) {
    forall i, j | 0 <= i < j < |episodes| :: Precedes(episodes[i], episodes[j])
  }

  /** Episodes follow one another in time without overlap; only the last can be open, it is open
      exactly while something is held, and it then shows the quantity held. */
  ghost predicate Settled(tr: Track, now: Instant) {
    && 0.0 <= tr.quantity
    && AllInTime(tr.episodes, now) && Successive(tr.episodes)
    && (0.0 < tr.quantity <==> tr.episodes != [] && IsOpen(tr.episodes[|tr.episodes| - 1]))
    && (0.0 < tr.quantity ==> tr.episodes[|tr.episodes| - 1].quantity == tr.quantity)
  }

  lemma AppendInOrder(episodes: seq<Episode>, e: Episode, now: Instant, at: Instant)
    requires AllInTime(episodes, now) && Successive(episodes) && now <= at
    requires episodes == [] || !IsOpen(episodes[|episodes| - 1])
    requires e.firstObserved == at && InTime(e, at)
    ensures AllInTime(episodes + [e], at) && Successive(episodes + [e])
  {
    forall i | 0 <= i < |episodes|
      ensures InTime(episodes[i], at) && Precedes(episodes[i], e)
    {
      assert InTime(episodes[i], now);
      if i < |episodes| - 1 { assert Precedes(episodes[i], episodes[|episodes| - 1]); }
    }
  }

  lemma ReplaceLast(episodes: seq<Episode>, e: Episode, now: Instant, at: Instant)
    requires AllInTime(episodes, now) && Successive(episodes) && now <= at && episodes != []
    requires e.firstObserved == episodes[|episodes| - 1].firstObserved && InTime(e, at)
    ensures AllInTime(episodes[|episodes| - 1 := e], at) && Successive(episodes[|episodes| - 1 := e])
  {
    var n := |episodes| - 1;
    forall i | 0 <= i < n ensures InTime(episodes[i], at) && Precedes(episodes[i], e) {
      assert InTime(episodes[i], now) && Precedes(episodes[i], episodes[n]);
    }
  }

  lemma OpeningSettles(tr: Track, o: Observation, quantity: real, now: Instant)
    requires Settled(tr, now) && now <= o.H().at && tr.quantity == 0.0 && 0.0 < quantity
    ensures Settled(TrackBecome(tr, o, quantity), o.H().at)
  {
    var e := Episode(o.H().external, TickerOf(o), Some(o.H().at), o.H().at, None, quantity);
    AppendInOrder(tr.episodes, e, now, o.H().at);
    assert TrackBecome(tr, o, quantity).episodes == tr.episodes + [e];
  }

  lemma FollowingSettles(tr: Track, o: Observation, quantity: real, now: Instant)
    requires Settled(tr, now) && now <= o.H().at && 0.0 < tr.quantity && 0.0 <= quantity
    ensures Settled(TrackBecome(tr, o, quantity), o.H().at)
  {
    var n := |tr.episodes| - 1;
    var last := tr.episodes[n];
    assert InTime(last, now);
    var e := if quantity == 0.0 then last.(quantity := 0.0, closedAt := Some(o.H().at))
             else last.(quantity := quantity);
    ReplaceLast(tr.episodes, e, now, o.H().at);
    assert TrackBecome(tr, o, quantity).episodes == tr.episodes[n := e];
  }

  lemma IdleSettles(tr: Track, o: Observation, now: Instant)
    requires Settled(tr, now) && now <= o.H().at && tr.quantity == 0.0
    ensures Settled(TrackBecome(tr, o, 0.0), o.H().at)
  {
    forall i | 0 <= i < |tr.episodes| ensures InTime(tr.episodes[i], o.H().at) {
      assert InTime(tr.episodes[i], now);
    }
  }

  lemma TurnSettles(tr: Track, o: Observation, now: Instant)
    requires Settled(tr, now) && now <= o.H().at && TrackTurn(tr, o).Some?
    ensures Settled(TrackTurn(tr, o).value, o.H().at)
  {
    var quantity := Moved(tr.quantity, o);
    if 0.0 < tr.quantity {
      FollowingSettles(tr, o, quantity, now);
    } else if 0.0 < quantity {
      OpeningSettles(tr, o, quantity, now);
    } else {
      IdleSettles(tr, o, now);
    }
  }

  lemma {:induction false} FoldSettles(tr: Track, events: seq<Observation>, now: Instant, end: Instant)
    requires Settled(tr, now) && now <= end && TrackFold(tr, events).Some?
    requires SortedBy(events, EventOrder) && forall o | o in events :: now <= o.H().at <= end
    ensures Settled(TrackFold(tr, events).value, end)
    decreases |events|
  {
    if events != [] {
      assert events[0] in events;
      TurnSettles(tr, events[0], now);
      forall o | o in events[1..] ensures events[0].H().at <= o.H().at {
        var k :| 0 <= k < |events[1..]| && events[1..][k] == o;
        assert EventOrder(events[0], events[k + 1]);
      }
      FoldSettles(TrackTurn(tr, events[0]).value, events[1..], events[0].H().at, end);
    }
  }

  // ----- The whole loop, seen one ticker at a time -----

  function OfTicker(t: Ticker): Episode -> bool {
    (e: Episode) => e.ticker == t
  }

  function ForTicker(t: Ticker): Observation -> bool {
    (o: Observation) => TickerOf(o) == t
  }

  function TrackOf(s: State, t: Ticker): Track {
    Track(Filter(s.items, OfTicker(t)), QuantityOf(s.quantities, t))
  }

  /** `current` of a ticker, if any, is its open episode, the last of that ticker. */
  ghost predicate Points(items: seq<Episode>, current: map<Ticker, nat>, t: Ticker) {
    t in current ==>
      && current[t] < |items| && items[current[t]].ticker == t && IsOpen(items[current[t]])
      && (forall i | current[t] < i < |items| :: items[i].ticker != t)
  }

  ghost predicate Pointed(items: seq<Episode>, current: map<Ticker, nat>, i: nat)
    requires i < |items|
  {
    IsOpen(items[i]) ==> items[i].ticker in current && current[items[i].ticker] == i
  }

  /** `current` points exactly at the open episodes. */
  ghost predicate Indexed(items: seq<Episode>, current: map<Ticker, nat>) {
    && (forall t :: Points(items, current, t))
    && (forall i: nat | i < |items| :: Pointed(items, current, i))
  }

  /** The open episodes are those of the tickers that are held. */
  ghost predicate Linked(s: State) {
    && Indexed(s.items, s.current)
    && (forall t :: t in s.current <==> 0.0 < QuantityOf(s.quantities, t))
    && (forall t | t in s.quantities :: 0.0 <= s.quantities[t])
  }

  lemma {:induction false} FilterLast(items: seq<Episode>, i: nat, t: Ticker)
    requires i < |items| && items[i].ticker == t
    requires forall k | i < k < |items| :: items[k].ticker != t
    ensures Filter(items, OfTicker(t)) == Filter(items[..i], OfTicker(t)) + [items[i]]
  {
    assert items == items[..i] + [items[i]] + items[i + 1..];
    FilterConcat(items[..i] + [items[i]], items[i + 1..], OfTicker(t));
    FilterConcat(items[..i], [items[i]], OfTicker(t));
    FilterNone(items[i + 1..], OfTicker(t));
  }

  lemma FilterOther(items: seq<Episode>, i: nat, e: Episode, t: Ticker)
    requires i < |items| && items[i].ticker != t && e.ticker != t
    ensures Filter(items[i := e], OfTicker(t)) == Filter(items, OfTicker(t))
  {
    assert items == items[..i] + [items[i]] + items[i + 1..];
    assert items[i := e] == items[..i] + [e] + items[i + 1..];
    FilterConcat(items[..i] + [items[i]], items[i + 1..], OfTicker(t));
    FilterConcat(items[..i], [items[i]], OfTicker(t));
    FilterConcat(items[..i] + [e], items[i + 1..], OfTicker(t));
    FilterConcat(items[..i], [e], OfTicker(t));
  }

  /** A ticker that is not held has no open episode. */
  lemma NoneOpen(s: State, t: Ticker)
    requires Linked(s) && t !in s.current
    ensures forall e | e in TrackOf(s, t).episodes :: !IsOpen(e)
  {
    forall e | e in TrackOf(s, t).episodes ensures !IsOpen(e) {
      var i :| 0 <= i < |s.items| && s.items[i] == e;
      assert Pointed(s.items, s.current, i);
    }
  }

  /** Opening an episode, seen from the ticker and from any other. */
  lemma OpenedTracks(s: State, o: Observation, quantity: real, t: Ticker)
    requires Linked(s)
    ensures var next := Opened(s, o, quantity);
            Filter(next.items, OfTicker(t))
            == if t == TickerOf(o) then OpenedIn(TrackOf(s, t), o, quantity)
               else TrackOf(s, t).episodes
  {
    var next := Opened(s, o, quantity);
    if next != s {
      FilterConcat(s.items, next.items[|s.items|..], OfTicker(t));
      assert next.items == s.items + next.items[|s.items|..];
      assert |next.items[|s.items|..]| == 1;
    }
  }

  lemma OpenedPoints(s: State, o: Observation, quantity: real)
    requires Linked(s)
    ensures var next, t := Opened(s, o, quantity), TickerOf(o);
            && Points(next.items, next.current, t)
            && (t !in next.current ==> forall e | e in Filter(next.items, OfTicker(t)) :: !IsOpen(e))
  {
    assert Points(s.items, s.current, TickerOf(o));
    if Opened(s, o, quantity) == s && TickerOf(o) !in s.current {
      NoneOpen(s, TickerOf(o));
    }
  }

  lemma FollowedOwnTrack(s: State, o: Observation, quantity: real)
    requires Points(s.items, s.current, TickerOf(o)) && TickerOf(o) in s.current
    ensures var t := TickerOf(o);
            Filter(Followed(s, o, quantity).items, OfTicker(t))
            == FollowedIn(Filter(s.items, OfTicker(t)), o, quantity)
  {
    var t, next := TickerOf(o), Followed(s, o, quantity);
    var i := s.current[t];
    FilterLast(s.items, i, t);
    FilterLast(next.items, i, t);
    assert next.items[..i] == s.items[..i];
  }

  lemma FollowedTracks(s: State, o: Observation, quantity: real, t: Ticker)
    requires Points(s.items, s.current, TickerOf(o))
    requires TickerOf(o) !in s.current ==>
               forall e | e in Filter(s.items, OfTicker(TickerOf(o))) :: !IsOpen(e)
    ensures Filter(Followed(s, o, quantity).items, OfTicker(t))
            == if t == TickerOf(o) then FollowedIn(Filter(s.items, OfTicker(t)), o, quantity)
               else Filter(s.items, OfTicker(t))
  {
    var u, next := TickerOf(o), Followed(s, o, quantity);
    if u in s.current {
      if t == u {
        FollowedOwnTrack(s, o, quantity);
      } else {
        FilterOther(s.items, s.current[u], next.items[s.current[u]], t);
      }
    } else if t == u {
      var track := Filter(s.items, OfTicker(t));
      if track != [] { assert track[|track| - 1] in track; }
    }
  }

  lemma BecomeTracks(s: State, o: Observation, quantity: real, t: Ticker)
    requires Linked(s)
    ensures Filter(Become(s, o, quantity).items, OfTicker(t))
            == if t == TickerOf(o) then TrackBecome(TrackOf(s, t), o, quantity).episodes
               else TrackOf(s, t).episodes
  {
    OpenedTracks(s, o, quantity, t);
    OpenedPoints(s, o, quantity);
    FollowedTracks(Opened(s, o, quantity), o, quantity, t);
  }

  /** One turn of the loop is one turn of the moving ticker's own track; no other track moves. */
  lemma TurnTracks(s: State, o: Observation, t: Ticker)
    requires Linked(s)
    ensures Turn(s, o).None? <==> TrackTurn(TrackOf(s, TickerOf(o)), o).None?
    ensures Turn(s, o).Some? ==>
              TrackOf(Turn(s, o).value, t)
              == if t == TickerOf(o) then TrackTurn(TrackOf(s, t), o).value else TrackOf(s, t)
  {
    var quantity := Moved(QuantityOf(s.quantities, TickerOf(o)), o);
    BecomeTracks(s, o, quantity, t);
    QuantityAfter(s, o, quantity, t);
  }

  lemma QuantityAfter(s: State, o: Observation, quantity: real, t: Ticker)
    ensures QuantityOf(Become(s, o, quantity).quantities, t)
         == if t == TickerOf(o) then quantity else QuantityOf(s.quantities, t)
  {
  }

  lemma OpenedIndexed(s: State, o: Observation, quantity: real)
    requires Linked(s)
    ensures Indexed(Opened(s, o, quantity).items, Opened(s, o, quantity).current)
  {
    var next, t := Opened(s, o, quantity), TickerOf(o);
    if next != s {
      assert t !in s.current;
      forall u ensures Points(next.items, next.current, u) {
        assert Points(s.items, s.current, u);
      }
      forall i: nat | i < |next.items| ensures Pointed(next.items, next.current, i) {
        if i < |s.items| { assert Pointed(s.items, s.current, i); }
      }
    }
  }

  lemma FollowedIndexed(s: State, o: Observation, quantity: real)
    requires Indexed(s.items, s.current)
    ensures Indexed(Followed(s, o, quantity).items, Followed(s, o, quantity).current)
  {
    var next, t := Followed(s, o, quantity), TickerOf(o);
    assert Points(s.items, s.current, t);
    forall u ensures Points(next.items, next.current, u) {
      assert Points(s.items, s.current, u);
    }
    forall i: nat | i < |next.items| ensures Pointed(next.items, next.current, i) {
      assert Pointed(s.items, s.current, i);
    }
  }

  /** Which tickers have an open episode after a turn. */
  lemma OpenAfter(s: State, o: Observation, quantity: real, t: Ticker)
    requires Linked(s) && 0.0 <= quantity
    ensures t in Become(s, o, quantity).current
       <==> if t == TickerOf(o) then 0.0 < quantity else t in s.current
  {
    OpenedIndexed(s, o, quantity);
    assert Points(Opened(s, o, quantity).items, Opened(s, o, quantity).current, TickerOf(o));
  }

  lemma BecomeLinks(s: State, o: Observation, quantity: real)
    requires Linked(s) && 0.0 <= quantity
    ensures Linked(Become(s, o, quantity))
  {
    OpenedIndexed(s, o, quantity);
    FollowedIndexed(Opened(s, o, quantity), o, quantity);
    forall u ensures u in Become(s, o, quantity).current
                <==> 0.0 < QuantityOf(Become(s, o, quantity).quantities, u)
    {
      QuantityAfter(s, o, quantity, u);
      OpenAfter(s, o, quantity, u);
    }
    assert forall u | u in Become(s, o, quantity).quantities ::
        u == TickerOf(o) || u in s.quantities;
  }

  lemma TurnLinks(s: State, o: Observation)
    requires Linked(s) && Turn(s, o).Some?
    ensures Linked(Turn(s, o).value)
  {
    BecomeLinks(s, o, Moved(QuantityOf(s.quantities, TickerOf(o)), o));
  }

  /** The loop over all events runs every ticker's track over that ticker's events. */
  lemma {:induction false} FoldTracks(s: State, events: seq<Observation>, t: Ticker)
    requires Linked(s) && Fold(s, events).Some?
    ensures Linked(Fold(s, events).value)
    ensures TrackFold(TrackOf(s, t), Filter(events, ForTicker(t))) == Some(TrackOf(Fold(s, events).value, t))
    decreases |events|
  {
    if events != [] {
      var o := events[0];
      var next := Turn(s, o).value;
      TurnTracks(s, o, t);
      TurnLinks(s, o);
      FoldTracks(next, events[1..], t);
      if TickerOf(o) == t {
        assert Filter(events, ForTicker(t))[1..] == Filter(events[1..], ForTicker(t));
      }
    }
  }

  /** The loop stops exactly when the track of some ticker does. */
  lemma {:induction false} FoldStops(s: State, events: seq<Observation>) returns (t: Ticker)
    requires Linked(s) && Fold(s, events).None?
    ensures TrackFold(TrackOf(s, t), Filter(events, ForTicker(t))).None?
    decreases |events|
  {
    var o := events[0];
    if Turn(s, o).None? {
      t := TickerOf(o);
      TurnTracks(s, o, t);
    } else {
      TurnLinks(s, o);
      t := FoldStops(Turn(s, o).value, events[1..]);
      TurnTracks(s, o, t);
      if TickerOf(o) == t {
        assert Filter(events, ForTicker(t))[1..] == Filter(events[1..], ForTicker(t));
      }
    }
  }

  // ----- The opening -----

  /** The track of a ticker at the opening valuation. */
  function OpeningTrack(baseline: Header, ps: seq<Position>, t: Ticker): Track {
    if ps == [] then Track([], 0.0)
    else if ps[0].ticker == t && Amount(ps[0].quantity) != 0.0 then
      Track([Episode(baseline.external, t, None, baseline.at, None, Amount(ps[0].quantity))],
            Amount(ps[0].quantity))
    else OpeningTrack(baseline, ps[1..], t)
  }

  ghost predicate Listed(ps: seq<Position>) {
    && (forall i, j | 0 <= i < j < |ps| :: ps[i].ticker != ps[j].ticker)
    && (forall p | p in ps :: 0.0 <= Amount(p.quantity))
  }

  ghost predicate Unheld(s: State, t: Ticker) {
    t !in s.quantities && forall i | 0 <= i < |s.items| :: s.items[i].ticker != t
  }

  predicate Mentions(ps: seq<Position>, t: Ticker) {
    exists p | p in ps :: p.ticker == t
  }

  lemma {:induction false} OpeningAbsent(baseline: Header, ps: seq<Position>, t: Ticker)
    requires !Mentions(ps, t)
    ensures OpeningTrack(baseline, ps, t) == Track([], 0.0)
  {
    if ps != [] {
      assert ps[0] in ps;
      assert forall p | p in ps[1..] :: p in ps;
      OpeningAbsent(baseline, ps[1..], t);
    }
  }

  lemma OpenOne(baseline: Header, p: Position, s: State)
    requires Linked(s) && Unheld(s, p.ticker) && 0.0 < Amount(p.quantity)
    ensures var q := Amount(p.quantity);
            var e := Episode(baseline.external, p.ticker, None, baseline.at, None, q);
            var next := State(s.items + [e], s.current[p.ticker := |s.items|], s.quantities[p.ticker := q]);
            && Linked(next) && TrackOf(next, p.ticker) == Track([e], q)
            && (forall t | t != p.ticker :: TrackOf(next, t) == TrackOf(s, t))
            && (forall t | t != p.ticker && Unheld(s, t) :: Unheld(next, t))
  {
    var q := Amount(p.quantity);
    var e := Episode(baseline.external, p.ticker, None, baseline.at, None, q);
    var next := State(s.items + [e], s.current[p.ticker := |s.items|], s.quantities[p.ticker := q]);
    OpenOneIndexed(s, e);
    forall u ensures u in next.current <==> 0.0 < QuantityOf(next.quantities, u) {
      assert u != p.ticker ==> QuantityOf(next.quantities, u) == QuantityOf(s.quantities, u);
    }
    forall t ensures Filter(next.items, OfTicker(t))
                  == if t == p.ticker then [e] else Filter(s.items, OfTicker(t))
    {
      OpenOneTracks(s.items, e, t);
    }
  }

  lemma OpenOneTracks(items: seq<Episode>, e: Episode, t: Ticker)
    requires forall i | 0 <= i < |items| :: items[i].ticker != e.ticker
    ensures Filter(items + [e], OfTicker(t)) == if t == e.ticker then [e] else Filter(items, OfTicker(t))
  {
    FilterConcat(items, [e], OfTicker(t));
    if t == e.ticker { FilterNone(items, OfTicker(t)); }
  }

  lemma OpenOneIndexed(s: State, e: Episode)
    requires Indexed(s.items, s.current) && Unheld(s, e.ticker) && IsOpen(e)
    ensures Indexed(s.items + [e], s.current[e.ticker := |s.items|])
  {
    var items, current: map<Ticker, nat> := s.items + [e], s.current[e.ticker := |s.items|];
    forall u ensures Points(items, current, u) {
      assert Points(s.items, s.current, u);
    }
    forall i: nat | i < |items| ensures Pointed(items, current, i) {
      if i < |s.items| { assert Pointed(s.items, s.current, i); }
    }
  }

  lemma {:induction false} OpeningTracks(baseline: Header, ps: seq<Position>, s: State, t: Ticker)
    requires Linked(s) && Listed(ps) && forall p | p in ps :: Unheld(s, p.ticker)
    ensures Linked(Opening(baseline, ps, s))
    ensures TrackOf(Opening(baseline, ps, s), t)
         == if Mentions(ps, t) then OpeningTrack(baseline, ps, t) else TrackOf(s, t)
    decreases |ps|
  {
    if ps != [] {
      var p, rest := ps[0], ps[1..];
      assert p in ps && ps == [p] + rest;
      assert !Mentions(rest, p.ticker);
      if Amount(p.quantity) == 0.0 {
        OpeningTracks(baseline, rest, s, t);
        if t == p.ticker {
          OpeningAbsent(baseline, rest, t);
          FilterNone(s.items, OfTicker(t));
        }
      } else {
        var e := Episode(baseline.external, p.ticker, None, baseline.at, None, Amount(p.quantity));
        var next := State(s.items + [e], s.current[p.ticker := |s.items|],
                          s.quantities[p.ticker := Amount(p.quantity)]);
        OpenOne(baseline, p, s);
        OpeningTracks(baseline, rest, next, t);
      }
    }
  }

  lemma OpeningFromNothing(baseline: Header, ps: seq<Position>, t: Ticker)
    requires Listed(ps)
    ensures Linked(Opening(baseline, ps, NOTHING))
    ensures TrackOf(Opening(baseline, ps, NOTHING), t) == OpeningTrack(baseline, ps, t)
  {
    OpeningTracks(baseline, ps, NOTHING, t);
    if !Mentions(ps, t) { OpeningAbsent(baseline, ps, t); }
  }

  lemma {:induction false} OpeningSettled(baseline: Header, ps: seq<Position>, t: Ticker)
    requires Listed(ps)
    ensures Settled(OpeningTrack(baseline, ps, t), baseline.at)
  {
    if ps != [] {
      assert ps[0] in ps;
      OpeningSettled(baseline, ps[1..], t);
    }
  }

  // ----- What an available report says -----

  /** The history of one ticker: its opening amount carried through its own events in time order. */
  function History(baseline: Header, ps: seq<Position>, events: seq<Observation>, t: Ticker): Option<Track> {
    TrackFold(OpeningTrack(baseline, ps, t), Filter(Sort(events, EventOrder), ForTicker(t)))
  }

  lemma EventOrderIsTotal()
    ensures TotalPreorder(EventOrder)
  {
  }

  lemma HistoryIsSettled(
    baseline: Header, ps: seq<Position>, observations: seq<Observation>, end: Instant, t: Ticker)
    requires Listed(ps) && baseline.at <= end
    requires History(baseline, ps, Events(observations, baseline.at, end), t).Some?
    ensures Settled(History(baseline, ps, Events(observations, baseline.at, end), t).value, end)
  {
    var events := Events(observations, baseline.at, end);
    var sorted := Sort(events, EventOrder);
    EventOrderIsTotal();
    SortSorts(events, EventOrder);
    FilterKeepsOrder(sorted, ForTicker(t), EventOrder);
    SameMembers(events, sorted);
    OpeningSettled(baseline, ps, t);
    forall o | o in Filter(sorted, ForTicker(t)) ensures baseline.at <= o.H().at <= end {
      assert o in events;
    }
    FoldSettles(OpeningTrack(baseline, ps, t), Filter(sorted, ForTicker(t)), baseline.at, end);
  }

  lemma FoldIsHistories(baseline: Header, ps: seq<Position>, events: seq<Observation>, t: Ticker)
    requires Listed(ps)
    requires Fold(Opening(baseline, ps, NOTHING), Sort(events, EventOrder)).Some?
    ensures var s := Fold(Opening(baseline, ps, NOTHING), Sort(events, EventOrder)).value;
            History(baseline, ps, events, t) == Some(TrackOf(s, t))
  {
    OpeningFromNothing(baseline, ps, t);
    FoldTracks(Opening(baseline, ps, NOTHING), Sort(events, EventOrder), t);
  }

  lemma AgreesWithLatest(latest: seq<Position>, quantities: map<Ticker, real>, t: Ticker)
    requires Actual(latest) == NonZero(quantities)
    ensures QuantityOf(Actual(latest), t) == QuantityOf(quantities, t)
  {
  }

  ghost predicate EndOf(part: seq<Episode>, whole: seq<Episode>) {
    |part| <= |whole| && forall k | 0 <= k < |part| :: part[k] == whole[|whole| - |part| + k]
  }

  lemma NewestIsEnd(items: seq<Episode>, limit: Option<nat>)
    ensures EndOf(Newest(items, limit), items)
    ensures Newest(items, limit) == items || limit == Some(|Newest(items, limit)|)
  {
  }

  /** A limit only drops the oldest items: what it leaves is the end of the unlimited list. */
  lemma LimitDropsOldest(
    baseline: Valuation, latest: Valuation, observations: seq<Observation>, coverage: seq<Coverage>,
    limit: Option<nat>)
    ensures var r, full := HoldingEpisodes(baseline, latest, observations, coverage, limit),
                           HoldingEpisodes(baseline, latest, observations, coverage, None);
            match full
            case Unavailable(_) => r == full
            case Available(start, items, total, _) =>
              && r.Available? && r.startsAt == start && r.total == total == |items|
              && EndOf(r.items, items)
              && (r.items == items || limit == Some(|r.items|))
              && (r.truncated <==> limit.Some? && limit.value < total)
  {
    var full := HoldingEpisodes(baseline, latest, observations, coverage, None);
    if full.Available? { NewestIsEnd(full.items, limit); }
  }

  lemma EndIsSuffix(part: seq<Episode>, whole: seq<Episode>) returns (cut: nat)
    requires EndOf(part, whole)
    ensures cut == |whole| - |part| && whole == whole[..cut] + part && part == whole[cut..]
  {
    cut := |whole| - |part|;
    assert part == whole[cut..];
  }

  lemma EndOfConcat(a: seq<Episode>, b: seq<Episode>, whole: seq<Episode>)
    requires whole == a + b
    ensures EndOf(b, whole)
  {
  }

  /** What the end of a list says of a ticker is the end of what the list says of it. */
  lemma FilterOfEnd(part: seq<Episode>, whole: seq<Episode>, t: Ticker)
    requires EndOf(part, whole)
    ensures EndOf(Filter(part, OfTicker(t)), Filter(whole, OfTicker(t)))
  {
    var cut := EndIsSuffix(part, whole);
    FilterConcat(whole[..cut], part, OfTicker(t));
    EndOfConcat(Filter(whole[..cut], OfTicker(t)), Filter(part, OfTicker(t)), Filter(whole, OfTicker(t)));
  }

  /** Whenever the report is available, under any limit, its episodes of a ticker are the end of the
      history of that ticker alone, and all of it when the limit drops nothing. That history is in time
      order without overlap, with at most the last episode open, open exactly while something is held.
      What is held is never negative, is the opening amount carried through signed fills, transfers and
      splits in order, and is what a fully quantified latest valuation lists. */
  lemma EpisodesTellHoldings(
    baseline: Valuation, latest: Valuation, observations: seq<Observation>, coverage: seq<Coverage>,
    limit: Option<nat>, t: Ticker)
    requires baseline.Valid() && baseline.h.at <= latest.h.at
    requires HoldingEpisodes(baseline, latest, observations, coverage, limit).Available?
    ensures var r, ps := HoldingEpisodes(baseline, latest, observations, coverage, limit), baseline.positions.value;
            var events := Events(observations, baseline.h.at, latest.h.at);
            var h := History(baseline.h, ps, events, t);
            && h.Some? && EndOf(Filter(r.items, OfTicker(t)), h.value.episodes)
            && (|r.items| == r.total ==> Filter(r.items, OfTicker(t)) == h.value.episodes)
            && (limit.None? || limit == Some(0) || r.total <= limit.value ==> |r.items| == r.total)
            && Settled(h.value, latest.h.at)
            && h.value.quantity == Replayed(OpeningTrack(baseline.h, ps, t).quantity,
                                            Filter(Sort(events, EventOrder), ForTicker(t)))
            && (latest.positions.Some? && Quantified(latest.positions.value) ==>
                  QuantityOf(Actual(latest.positions.value), t) == h.value.quantity)
  {
    var ps := baseline.positions.value;
    var events := Events(observations, baseline.h.at, latest.h.at);
    ValidIsListed(baseline);
    FoldIsHistories(baseline.h, ps, events, t);
    HistoryIsSettled(baseline.h, ps, observations, latest.h.at, t);
    TrackQuantity(OpeningTrack(baseline.h, ps, t), Filter(Sort(events, EventOrder), ForTicker(t)));
    var s := Fold(Opening(baseline.h, ps, NOTHING), Sort(events, EventOrder)).value;
    NewestIsEnd(s.items, limit);
    FilterOfEnd(Newest(s.items, limit), s.items, t);
    if latest.positions.Some? && Quantified(latest.positions.value) {
      AgreesWithLatest(latest.positions.value, s.quantities, t);
    }
  }

  /** How many episodes of other tickers were opened after a ticker's last one. */
  function OpenedSince(items: seq<Episode>, t: Ticker): nat {
    if items == [] || items[|items| - 1].ticker == t then 0 else 1 + OpenedSince(items[..|items| - 1], t)
  }

  lemma {:induction false} SuffixHasTicker(items: seq<Episode>, cut: nat, t: Ticker)
    requires cut <= |items| && Filter(items, OfTicker(t)) != []
    ensures Filter(items[cut..], OfTicker(t)) != [] <==> OpenedSince(items, t) < |items| - cut
    decreases |items|
  {
    var n := |items| - 1;
    assert items == items[..n] + [items[n]];
    FilterConcat(items[..n], [items[n]], OfTicker(t));
    if cut <= n {
      assert items[cut..] == items[..n][cut..] + [items[n]];
      FilterConcat(items[..n][cut..], [items[n]], OfTicker(t));
      if items[n].ticker != t { SuffixHasTicker(items[..n], cut, t); }
    }
  }

  lemma OpenIsLast(part: seq<Episode>, h: Track, now: Instant)
    requires Settled(h, now) && EndOf(part, h.episodes)
    ensures (exists e | e in part :: IsOpen(e)) <==> 0.0 < h.quantity && part != []
    ensures forall e | e in part && IsOpen(e) :: e.quantity == h.quantity
  {
    var n := |h.episodes| - 1;
    if part != [] { assert part[|part| - 1] == h.episodes[n]; }
    forall k | 0 <= k < |part| - 1 ensures !IsOpen(part[k]) {
      assert Precedes(h.episodes[|h.episodes| - |part| + k], h.episodes[n]);
    }
  }

  lemma ListedInTrack(items: seq<Episode>, t: Ticker)
    ensures (exists e | e in items :: e.ticker == t && IsOpen(e))
       <==> exists e | e in Filter(items, OfTicker(t)) :: IsOpen(e)
    ensures forall e | e in items && e.ticker == t :: e in Filter(items, OfTicker(t))
  {
  }

  lemma SuffixTrack(items: seq<Episode>, full: seq<Episode>, t: Ticker)
    requires EndOf(items, full)
    ensures EndOf(Filter(items, OfTicker(t)), Filter(full, OfTicker(t)))
    ensures Filter(full, OfTicker(t)) != [] ==>
              (Filter(items, OfTicker(t)) != [] <==> OpenedSince(full, t) < |items|)
  {
    FilterOfEnd(items, full, t);
    var cut := EndIsSuffix(items, full);
    if Filter(full, OfTicker(t)) != [] { SuffixHasTicker(full, cut, t); }
  }

  /** The items list an open episode of the ticker exactly when something is held and fewer episodes
      were opened after it than are listed; it then shows what is held. */
  ghost predicate ListsOpen(items: seq<Episode>, full: seq<Episode>, h: Track, t: Ticker) {
    && ((exists e | e in items :: e.ticker == t && IsOpen(e))
        <==> 0.0 < h.quantity && OpenedSince(full, t) < |items|)
    && (forall e | e in items && e.ticker == t && IsOpen(e) :: e.quantity == h.quantity)
  }

  lemma OpenIsListed(items: seq<Episode>, full: seq<Episode>, h: Track, now: Instant, t: Ticker)
    requires EndOf(items, full) && Settled(h, now) && Filter(full, OfTicker(t)) == h.episodes
    ensures ListsOpen(items, full, h, t)
  {
    var part := Filter(items, OfTicker(t));
    SuffixTrack(items, full, t);
    OpenIsLast(part, h, now);
    ListedInTrack(items, t);
  }

  /** A held ticker's open episode is listed if and only if fewer episodes were opened after it than the
      report lists, and then it shows what is held; a ticker that is not held has none. */
  lemma OpenEpisodeIsListed(
    baseline: Valuation, latest: Valuation, observations: seq<Observation>, coverage: seq<Coverage>,
    limit: Option<nat>, t: Ticker)
    requires baseline.Valid() && baseline.h.at <= latest.h.at
    requires HoldingEpisodes(baseline, latest, observations, coverage, limit).Available?
    ensures var r, full := HoldingEpisodes(baseline, latest, observations, coverage, limit),
                           HoldingEpisodes(baseline, latest, observations, coverage, None);
            var h := History(baseline.h, baseline.positions.value,
                             Events(observations, baseline.h.at, latest.h.at), t);
            full.Available? && h.Some? && ListsOpen(r.items, full.items, h.value, t)
  {
    var r := HoldingEpisodes(baseline, latest, observations, coverage, limit);
    var full := HoldingEpisodes(baseline, latest, observations, coverage, None);
    var h := History(baseline.h, baseline.positions.value, Events(observations, baseline.h.at, latest.h.at), t);
    LimitDropsOldest(baseline, latest, observations, coverage, limit);
    EpisodesTellHoldings(baseline, latest, observations, coverage, None, t);
    OpenIsListed(r.items, full.items, h.value, latest.h.at, t);
  }

  lemma ValidIsListed(v: Valuation)
    requires v.Valid() && v.positions.Some?
    ensures Listed(v.positions.value)
  {
  }

  /** Of a settled track exactly one episode is open while something is held, and none otherwise. */
  lemma OneOpenIffHeld(tr: Track, now: Instant)
    requires Settled(tr, now)
    ensures |Filter(tr.episodes, IsOpen)| == if 0.0 < tr.quantity then 1 else 0
  {
    var n := |tr.episodes| - 1;
    if tr.episodes != [] {
      forall i | 0 <= i < n ensures !IsOpen(tr.episodes[i]) {
        assert Precedes(tr.episodes[i], tr.episodes[n]);
      }
      FilterNone(tr.episodes[..n], IsOpen);
      FilterConcat(tr.episodes[..n], [tr.episodes[n]], IsOpen);
      assert tr.episodes == tr.episodes[..n] + [tr.episodes[n]];
    }
  }

  // ----- Independence of the order of the inputs -----

  predicate SameKey(a: Observation, b: Observation) {
    a.H().at == b.H().at && TickerOf(a) == TickerOf(b) && a.H().order == b.H().order
  }

  lemma KeysSurvive(a: seq<Observation>, b: seq<Observation>)
    requires multiset(a) == multiset(b) && DistinctKeys(a)
    ensures DistinctKeys(b)
  {
    assert NoRepeats(a) by {
      assert forall i, j | 0 <= i < j < |a| :: !SameKey(a[i], a[j]);
    }
    NoRepeatsSurvives(a, b);
    SameMembers(a, b);
    forall i, j | 0 <= i < j < |b| ensures !SameKey(b[i], b[j]) {
      assert b[i] in a && b[j] in a;
      OnlyItself(a, b[i], b[j]);
    }
  }

  lemma OnlyItself(a: seq<Observation>, x: Observation, y: Observation)
    requires DistinctKeys(a) && x in a && y in a
    ensures SameKey(x, y) ==> x == y
  {
    var i :| 0 <= i < |a| && a[i] == x;
    var j :| 0 <= j < |a| && a[j] == y;
  }

  lemma TickerEventsAgree(a: seq<Observation>, b: seq<Observation>, t: Ticker)
    requires multiset(a) == multiset(b) && DistinctKeys(a)
    ensures Filter(Sort(a, EventOrder), ForTicker(t)) == Filter(Sort(b, EventOrder), ForTicker(t))
  {
    var x, y := Sort(a, EventOrder), Sort(b, EventOrder);
    EventOrderIsTotal();
    SortSorts(a, EventOrder);
    SortSorts(b, EventOrder);
    FilterKeepsOrder(x, ForTicker(t), EventOrder);
    FilterKeepsOrder(y, ForTicker(t), EventOrder);
    FilterOfPermutation(x, y, ForTicker(t));
    SameMembers(x, a);
    forall o, p | o in Filter(x, ForTicker(t)) && p in Filter(x, ForTicker(t))
                  && EventOrder(o, p) && EventOrder(p, o)
      ensures o == p
    {
      OnlyItself(a, o, p);
    }
    SortedIsUnique(Filter(x, ForTicker(t)), Filter(y, ForTicker(t)), EventOrder);
  }

  ghost predicate SameHistories(
    baseline: Header, ps: seq<Position>, a: seq<Observation>, b: seq<Observation>)
  {
    forall t :: History(baseline, ps, a, t) == History(baseline, ps, b, t)
  }

  function Replay(baseline: Header, ps: seq<Position>, events: seq<Observation>): Option<State> {
    Fold(Opening(baseline, ps, NOTHING), Sort(events, EventOrder))
  }

  lemma ReplaysTogether(baseline: Header, ps: seq<Position>, a: seq<Observation>, b: seq<Observation>)
    requires Listed(ps) && SameHistories(baseline, ps, a, b)
    ensures Replay(baseline, ps, a).Some? ==> Replay(baseline, ps, b).Some?
  {
    if Replay(baseline, ps, b).None? {
      OpeningFromNothing(baseline, ps, "");
      var t := FoldStops(Opening(baseline, ps, NOTHING), Sort(b, EventOrder));
      OpeningFromNothing(baseline, ps, t);
      assert History(baseline, ps, a, t) == History(baseline, ps, b, t) == None;
      if Replay(baseline, ps, a).Some? { FoldIsHistories(baseline, ps, a, t); }
    }
  }

  lemma ReplaysAgree(baseline: Header, ps: seq<Position>, a: seq<Observation>, b: seq<Observation>)
    requires Listed(ps) && SameHistories(baseline, ps, a, b)
    requires Replay(baseline, ps, a).Some? && Replay(baseline, ps, b).Some?
    ensures var x, y := Replay(baseline, ps, a).value, Replay(baseline, ps, b).value;
            (forall t :: TrackOf(x, t) == TrackOf(y, t)) && NonZero(x.quantities) == NonZero(y.quantities)
  {
    var x, y := Replay(baseline, ps, a).value, Replay(baseline, ps, b).value;
    forall t ensures TrackOf(x, t) == TrackOf(y, t) {
      FoldIsHistories(baseline, ps, a, t);
      FoldIsHistories(baseline, ps, b, t);
      assert History(baseline, ps, a, t) == History(baseline, ps, b, t);
    }
    SameNonZero(x, y);
  }

  lemma SameNonZero(x: State, y: State)
    requires forall t :: TrackOf(x, t) == TrackOf(y, t)
    ensures NonZero(x.quantities) == NonZero(y.quantities)
  {
    forall t ensures t in NonZero(x.quantities) <==> t in NonZero(y.quantities) {
      assert TrackOf(x, t) == TrackOf(y, t);
    }
    forall t | t in NonZero(x.quantities)
      ensures NonZero(x.quantities)[t] == NonZero(y.quantities)[t]
    {
      assert TrackOf(x, t) == TrackOf(y, t);
    }
  }

  lemma HistoriesAgree(baseline: Header, ps: seq<Position>, a: seq<Observation>, b: seq<Observation>)
    requires multiset(a) == multiset(b) && DistinctKeys(a)
    ensures SameHistories(baseline, ps, a, b) && SameHistories(baseline, ps, b, a)
  {
    forall t ensures History(baseline, ps, a, t) == History(baseline, ps, b, t) {
      TickerEventsAgree(a, b, t);
    }
  }

  /** The items of two replays with the same tracks are the same, up to their order. */
  lemma SameTracksSameItems(x: State, y: State)
    requires forall t :: TrackOf(x, t) == TrackOf(y, t)
    ensures multiset(x.items) == multiset(y.items) && |x.items| == |y.items|
  {
    forall e ensures multiset(x.items)[e] == multiset(y.items)[e] {
      assert TrackOf(x, e.ticker) == TrackOf(y, e.ticker);
      FilterCounts(x.items, OfTicker(e.ticker), e);
      FilterCounts(y.items, OfTicker(e.ticker), e);
    }
    assert multiset(x.items) == multiset(y.items);
    assert |x.items| == |multiset(x.items)| == |multiset(y.items)| == |y.items|;
  }

  lemma ReplayingIgnoresOrder(
    baseline: Valuation, latest: Valuation, ps: seq<Position>, a: seq<Observation>,
    b: seq<Observation>, limit: Option<nat>, t: Ticker)
    requires Listed(ps) && multiset(a) == multiset(b) && DistinctKeys(a) && DistinctKeys(b)
    ensures SameReport(Replaying(baseline, latest, ps, a, limit), Replaying(baseline, latest, ps, b, limit), t)
  {
    HistoriesAgree(baseline.h, ps, a, b);
    ReplaysTogether(baseline.h, ps, a, b);
    ReplaysTogether(baseline.h, ps, b, a);
    if Replay(baseline.h, ps, a).Some? {
      ReplaysAgree(baseline.h, ps, a, b);
      var x, y := Replay(baseline.h, ps, a).value, Replay(baseline.h, ps, b).value;
      assert TrackOf(x, t) == TrackOf(y, t);
      SameTracksSameItems(x, y);
    }
  }

  /** Two reports with one outcome, of one length, and with the same episodes of a ticker unless some are
      dropped. */
  ghost predicate SameReport(x: Report, y: Report, t: Ticker) {
    match x
    case Unavailable(_) => y == x
    case Available(start, items, total, truncated) =>
      && y.Available? && y.startsAt == start && y.total == total && y.truncated == truncated
      && |y.items| == |items|
      && (|items| == total ==> Filter(items, OfTicker(t)) == Filter(y.items, OfTicker(t)))
  }

  /** No two observations share an identifier, as in the store. */
  ghost predicate OwnIds(observations: seq<Observation>) {
    forall o, p | o in observations && p in observations && o.H().id == p.H().id :: o == p
  }

  lemma SortIgnoresOrder(a: seq<Observation>, b: seq<Observation>)
    requires multiset(a) == multiset(b) && OwnIds(a)
    ensures Sort(a, EventOrder) == Sort(b, EventOrder)
  {
    var x, y := Sort(a, EventOrder), Sort(b, EventOrder);
    EventOrderIsTotal();
    SortSorts(a, EventOrder);
    SortSorts(b, EventOrder);
    SameMembers(x, a);
    SortedIsUnique(x, y, EventOrder);
  }

  lemma SameSortSameReport(
    baseline: Valuation, latest: Valuation, ps: seq<Position>, a: seq<Observation>,
    b: seq<Observation>, limit: Option<nat>)
    requires DistinctKeys(a) == DistinctKeys(b) && Sort(a, EventOrder) == Sort(b, EventOrder)
    ensures Replaying(baseline, latest, ps, a, limit) == Replaying(baseline, latest, ps, b, limit)
  {
  }

  lemma EventsIgnoreOrder(
    baseline: Valuation, latest: Valuation, ps: seq<Position>, a: seq<Observation>,
    b: seq<Observation>, limit: Option<nat>, t: Ticker)
    requires Listed(ps) && multiset(a) == multiset(b)
    ensures SameReport(Replaying(baseline, latest, ps, a, limit), Replaying(baseline, latest, ps, b, limit), t)
    ensures OwnIds(a) ==> Replaying(baseline, latest, ps, a, limit) == Replaying(baseline, latest, ps, b, limit)
  {
    if DistinctKeys(a) { KeysSurvive(a, b); }
    if DistinctKeys(b) { KeysSurvive(b, a); }
    if DistinctKeys(a) { ReplayingIgnoresOrder(baseline, latest, ps, a, b, limit, t); }
    if OwnIds(a) {
      SortIgnoresOrder(a, b);
      SameSortSameReport(baseline, latest, ps, a, b, limit);
    }
  }

  lemma OwnEvents(observations: seq<Observation>, keep: Observation -> bool)
    ensures OwnIds(observations) ==> OwnIds(Filter(observations, keep))
  {
  }

  /** What makes a report unavailable before any event is looked at. */
  ghost function Guard(baseline: Valuation, latest: Valuation, coverage: seq<Coverage>): Option<Reason> {
    if baseline.positions.None? || !Quantified(baseline.positions.value) then Some(OpeningQuantitiesMissing)
    else if !Covered(baseline.h.at, latest.h.at, coverage, true) then Some(ActivityCoverageMissing)
    else None
  }

  lemma GuardedOrReplayed(
    baseline: Valuation, latest: Valuation, observations: seq<Observation>, coverage: seq<Coverage>,
    limit: Option<nat>)
    ensures HoldingEpisodes(baseline, latest, observations, coverage, limit)
         == match Guard(baseline, latest, coverage)
            case Some(reason) => Unavailable(reason)
            case None => Replaying(baseline, latest, baseline.positions.value,
                                   Events(observations, baseline.h.at, latest.h.at), limit)
  {
  }

  /** Listing the observations in another order leaves the outcome, the length and, unless the limit
      drops some, every ticker's episodes as they were; and it leaves the whole report under any limit
      when no two observations share an identifier. */
  lemma EpisodesIgnoreListOrder(
    baseline: Valuation, latest: Valuation, observations: seq<Observation>,
    shuffled: seq<Observation>, coverage: seq<Coverage>, limit: Option<nat>, t: Ticker)
    requires baseline.Valid() && multiset(observations) == multiset(shuffled)
    ensures SameReport(HoldingEpisodes(baseline, latest, observations, coverage, limit),
                       HoldingEpisodes(baseline, latest, shuffled, coverage, limit), t)
    ensures OwnIds(observations) ==>
              HoldingEpisodes(baseline, latest, observations, coverage, limit)
              == HoldingEpisodes(baseline, latest, shuffled, coverage, limit)
  {
    var a := Events(observations, baseline.h.at, latest.h.at);
    var b := Events(shuffled, baseline.h.at, latest.h.at);
    FilterOfPermutation(observations, shuffled, InWindow(baseline.h.at, latest.h.at));
    OwnEvents(observations, InWindow(baseline.h.at, latest.h.at));
    GuardedOrReplayed(baseline, latest, observations, coverage, limit);
    GuardedOrReplayed(baseline, latest, shuffled, coverage, limit);
    if Guard(baseline, latest, coverage).None? {
      ValidIsListed(baseline);
      EventsIgnoreOrder(baseline, latest, baseline.positions.value, a, b, limit, t);
    }
  }
}
