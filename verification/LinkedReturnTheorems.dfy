/** Linked returns compose, equal their closed form, and do not depend on the order of their inputs. */
module LinkedReturnTheorems {
  import opened Reporting
  import opened Sorting
  import opened IntervalCover
  import opened LinkedReturns
  import opened Wrappers

  // ----- Walking over flows -----

  lemma {:induction false} ThroughConcat(link: Link, a: seq<Flow>, b: seq<Flow>, vals: Valuations)
    requires AllPriced(vals)
    ensures Through(link, a + b, vals)
         == var s := Through(link, a, vals); if s.Stop? then s else Through(s.link, b, vals)
    decreases |a|
  {
    if a == [] {
      assert a + b == b;
    } else {
      assert (a + b)[0] == a[0] && (a + b)[1..] == a[1..] + b;
      var s := Cross(link, a[0], vals);
      if s.Go? {
        ThroughConcat(s.link, a[1..], b, vals);
      }
    }
  }

  /** A positive running balance has been funded, and no balance is negative. */
  ghost predicate Sound(link: Link) {
    0 <= link.previous && (0 < link.previous ==> link.funded)
  }

  lemma {:induction false} ThroughKeepsSound(link: Link, events: seq<Flow>, vals: Valuations)
    requires AllPriced(vals) && Sound(link) && Through(link, events, vals).Go?
    ensures Sound(Through(link, events, vals).link)
    ensures var l := Through(link, events, vals).link;
            if events == [] then l == link else l.lastFlow == Some(events[|events| - 1].h.at)
    decreases |events|
  {
    if events != [] {
      ThroughKeepsSound(Cross(link, events[0], vals).link, events[1..], vals);
    }
  }

  ghost predicate Bounded(flow: Flow, vals: Valuations)
    requires AllPriced(vals)
  {
    var x, y := Lookup(vals, flow.before), Lookup(vals, flow.after);
    x.Some? && y.Some? && x.value.complete && y.value.complete && Matches(flow, x.value, y.value)
  }

  /** Whatever the loop passed had both of its boundaries, at its own instant. */
  lemma {:induction false} ThroughBounds(link: Link, events: seq<Flow>, vals: Valuations)
    requires AllPriced(vals) && Through(link, events, vals).Go?
    ensures forall f | f in events :: Bounded(f, vals)
    decreases |events|
  {
    if events != [] {
      ThroughBounds(Cross(link, events[0], vals).link, events[1..], vals);
    }
  }

  /** Two links at the same balance, the first having grown `by` times as much. */
  ghost predicate Parallel(s: Link, t: Link, growth: real) {
    && s.previous == t.previous && s.lastFlow == t.lastFlow
    && s.factor == growth * t.factor && (t.funded ==> s.funded)
  }

  lemma {:induction false} ParallelThrough(
    s: Link, t: Link, growth: real, events: seq<Flow>, vals: Valuations)
    requires AllPriced(vals) && Parallel(s, t, growth) && Through(t, events, vals).Go?
    ensures var r := Through(s, events, vals);
            r.Go? && Parallel(r.link, Through(t, events, vals).link, growth)
    decreases |events|
  {
    if events != [] {
      var s', t' := Cross(s, events[0], vals), Cross(t, events[0], vals);
      var x := Lookup(vals, events[0].before).value.equity.value;
      if s.previous != 0 {
        var q := x as real / s.previous as real;
        assert (growth * t.factor) * q == growth * (t.factor * q);
      }
      ParallelThrough(s'.link, t'.link, growth, events[1..], vals);
    }
  }

  /** Valuing the account at `b` between two flows and starting afresh there changes nothing: the
      first flow afterwards multiplies in either `x / p` or `(b / p) * (x / b)`. */
  lemma FreshStart(link: Link, b: Cents, growth: real, flow: Flow, vals: Valuations)
    requires AllPriced(vals) && Sound(link) && 0 <= b
    requires if link.previous == 0 then b == 0 && link.funded && growth == link.factor
             else growth == link.factor * (b as real / link.previous as real)
    requires link.lastFlow != Some(flow.h.at) && Cross(Begin(b), flow, vals).Go?
    ensures var s := Cross(link, flow, vals);
            s.Go? && Parallel(s.link, Cross(Begin(b), flow, vals).link, growth)
  {
    var x := Lookup(vals, flow.before).value.equity.value;
    var p, g := link.previous as real, link.factor;
    if link.previous != 0 {
      if b == 0 {
        assert x as real / p == 0.0;
        assert g * 0.0 == 0.0 && (0.0 / p) == 0.0;
      } else {
        Telescope(g, p, b as real, x as real);
      }
    }
  }

  lemma Telescope(g: real, p: real, b: real, x: real)
    requires p != 0.0 && b != 0.0
    ensures g * (x / p) == (g * (b / p)) * (1.0 * (x / b))
  {
    assert (b / p) * (x / b) == x / p by {
      assert (b / p) * (x / b) == (b * x) / (p * b);
      assert (b * x) / (p * b) == x / p;
    }
    assert (g * (b / p)) * (x / b) == g * ((b / p) * (x / b));
  }

  // ----- The events of adjacent windows -----

  lemma FlowLeIsPreorder()
    ensures TotalPreorder(FlowLe)
  {
  }

  ghost predicate Within(events: seq<Flow>, start: Instant, end: Instant) {
    forall f | f in events :: start < f.h.at < end
  }

  lemma EventsFacts(flows: seq<Flow>, start: Instant, end: Instant)
    ensures SortedBy(Events(flows, start, end), FlowLe)
    ensures forall f :: f in Events(flows, start, end) <==> f in flows && start < f.h.at <= end
  {
    var kept := Filter(flows, (f: Flow) => start < f.h.at <= end);
    FlowLeIsPreorder();
    SortSorts(kept, FlowLe);
    SameMembers(Sort(kept, FlowLe), kept);
  }

  /** Strictly increasing in (instant, order). */
  ghost predicate Strict(events: seq<Flow>) {
    forall i, j | 0 <= i < j < |events| ::
      FlowLe(events[i], events[j])
      && (events[i].h.at != events[j].h.at || events[i].h.order != events[j].h.order)
  }

  lemma StrictJoin(left: seq<Flow>, right: seq<Flow>, b: Instant)
    requires Strict(left) && Strict(right)
    requires (forall f | f in left :: f.h.at < b) && (forall f | f in right :: b < f.h.at)
    ensures Strict(left + right)
  {
    var joined := left + right;
    forall i, j | 0 <= i < j < |joined|
      ensures FlowLe(joined[i], joined[j])
      ensures joined[i].h.at != joined[j].h.at || joined[i].h.order != joined[j].h.order
    {
      if j < |left| {
        assert joined[i] == left[i] && joined[j] == left[j];
      } else if i < |left| {
        assert joined[i] in left && joined[j] in right;
      } else {
        assert joined[i] == right[i - |left|] && joined[j] == right[j - |left|];
      }
    }
  }

  lemma StrictHasNoTies(events: seq<Flow>)
    requires Strict(events)
    ensures SortedBy(events, FlowLe) && NoTies(events, FlowLe) && DistinctInstants(events)
  {
    forall x, y | x in events && y in events && FlowLe(x, y) && FlowLe(y, x) ensures x == y {
      var i :| 0 <= i < |events| && events[i] == x;
      var j :| 0 <= j < |events| && events[j] == y;
      assert i <= j && j <= i;
    }
  }

  lemma EventsConcat(flows: seq<Flow>, a: Instant, b: Instant, c: Instant)
    requires a < b < c && (forall f | f in flows :: f.h.at != b)
    requires DistinctInstants(Events(flows, a, b)) && DistinctInstants(Events(flows, b, c))
    ensures Events(flows, a, c) == Events(flows, a, b) + Events(flows, b, c)
    ensures DistinctInstants(Events(flows, a, c))
  {
    var left, right, all := Events(flows, a, b), Events(flows, b, c), Events(flows, a, c);
    EventsFacts(flows, a, b);
    EventsFacts(flows, b, c);
    EventsFacts(flows, a, c);
    StrictJoin(left, right, b);
    StrictHasNoTies(left + right);
    FilterSplits(flows, (f: Flow) => a < f.h.at <= c, (f: Flow) => a < f.h.at <= b,
                 (f: Flow) => b < f.h.at <= c);
    SortedIsUnique(left + right, all, FlowLe);
  }

  lemma {:induction false} NetFlowsConcat(a: seq<Flow>, b: seq<Flow>)
    ensures NetFlows(a + b) == NetFlows(a) + NetFlows(b)
  {
    if a == [] {
      assert a + b == b;
    } else {
      assert (a + b)[0] == a[0] && (a + b)[1..] == a[1..] + b;
      NetFlowsConcat(a[1..], b);
    }
  }

  lemma {:induction false} BoundaryIdsConcat(a: seq<Flow>, b: seq<Flow>)
    ensures BoundaryIds(a + b) == BoundaryIds(a) + BoundaryIds(b)
  {
    if a == [] {
      assert a + b == b;
    } else {
      assert (a + b)[0] == a[0] && (a + b)[1..] == a[1..] + b;
      BoundaryIdsConcat(a[1..], b);
    }
  }

  lemma {:induction false} BoundaryIdsAreTimed(events: seq<Flow>, vals: Valuations, id: Id)
    requires AllPriced(vals) && (forall f | f in events :: Bounded(f, vals))
    requires id in BoundaryIds(events)
    ensures id in vals && exists f | f in events :: vals[id].h.at == f.h.at
  {
    if id in Ids(events[0]) {
      assert Bounded(events[0], vals);
    } else {
      BoundaryIdsAreTimed(events[1..], vals, id);
      var f :| f in events[1..] && vals[id].h.at == f.h.at;
      assert f in events;
    }
  }

  /** Boundaries cannot be shared across a valuation: each belongs to its flow's own instant. */
  lemma BoundariesStayDistinct(left: seq<Flow>, right: seq<Flow>, b: Instant, vals: Valuations)
    requires AllPriced(vals)
    requires (forall f | f in left :: Bounded(f, vals)) && (forall f | f in right :: Bounded(f, vals))
    requires (forall f | f in left :: f.h.at < b) && (forall f | f in right :: b < f.h.at)
    requires NoRepeats(BoundaryIds(left)) && NoRepeats(BoundaryIds(right))
    ensures NoRepeats(BoundaryIds(left + right))
  {
    BoundaryIdsConcat(left, right);
    forall x, y | x in BoundaryIds(left) && y in BoundaryIds(right) ensures x != y {
      BoundaryIdsAreTimed(left, vals, x);
      BoundaryIdsAreTimed(right, vals, y);
    }
    NoRepeatsConcat(BoundaryIds(left), BoundaryIds(right));
  }

  // ----- Composition -----

  /** Two arrivals joined: the product of growth, unless it overflows the printable precision. */
  ghost function Joined(ab: Linked, bc: Linked): Linked
    requires ab.Available? && bc.Available?
  {
    if PRECISION_LIMIT <= ab.factor * bc.factor then Unavailable(PrecisionExceeded)
    else Available(ab.factor * bc.factor, ab.netFlows + bc.netFlows, ab.pnl + bc.pnl)
  }

  /** The walk over both windows arrives at the joined result. `a`, `e`, `c` are the balances at the
      three valuations, `l` the link reached just before the middle one. */
  lemma LinksCompose(
    l: Link, a: Cents, e: Cents, c: Cents, right: seq<Flow>, n: Cents, n': Cents, vals: Valuations)
    requires AllPriced(vals) && Sound(l) && 0 <= e
    requires Through(Begin(e), right, vals).Go?
    requires right != [] ==> l.lastFlow != Some(right[0].h.at)
    requires Arrive(l, e, a, n).Available?
    requires Arrive(Through(Begin(e), right, vals).link, c, e, n').Available?
    ensures Through(l, right, vals).Go?
    ensures Arrive(Through(l, right, vals).link, c, a, n + n')
         == Joined(Arrive(l, e, a, n), Arrive(Through(Begin(e), right, vals).link, c, e, n'))
  {
    if right == [] {
      NoFlowsCompose(l, a, e, c, n, n');
    } else {
      ParallelFromFresh(l, e, Arrive(l, e, a, n).factor, right, vals);
      ParallelArrive(Through(l, right, vals).link, Through(Begin(e), right, vals).link,
                     Arrive(l, e, a, n), a, e, c, n');
    }
  }

  lemma NoFlowsCompose(l: Link, a: Cents, e: Cents, c: Cents, n: Cents, n': Cents)
    requires Sound(l) && 0 <= e
    requires Arrive(l, e, a, n).Available? && Arrive(Begin(e), c, e, n').Available?
    ensures Arrive(l, c, a, n + n') == Joined(Arrive(l, e, a, n), Arrive(Begin(e), c, e, n'))
  {
    assert e != 0 && l.previous != 0;
    Telescope(l.factor, l.previous as real, e as real, c as real);
  }

  lemma ParallelArrive(s: Link, m: Link, ab: Linked, a: Cents, e: Cents, c: Cents, n': Cents)
    requires ab.Available? && ab.pnl == e - a - ab.netFlows && Parallel(s, m, ab.factor)
    requires Arrive(m, c, e, n').Available?
    ensures Arrive(s, c, a, ab.netFlows + n') == Joined(ab, Arrive(m, c, e, n'))
  {
    if m.previous != 0 {
      Associate(ab.factor, m.factor, c as real / m.previous as real);
    }
  }

  lemma Associate(x: real, y: real, z: real)
    ensures (x * y) * z == x * (y * z)
  {
  }

  lemma ParallelFromFresh(link: Link, b: Cents, growth: real, events: seq<Flow>, vals: Valuations)
    requires AllPriced(vals) && Sound(link) && 0 <= b && events != []
    requires if link.previous == 0 then b == 0 && link.funded && growth == link.factor
             else growth == link.factor * (b as real / link.previous as real)
    requires link.lastFlow != Some(events[0].h.at) && Through(Begin(b), events, vals).Go?
    ensures var s := Through(link, events, vals);
            s.Go? && Parallel(s.link, Through(Begin(b), events, vals).link, growth)
  {
    FreshStart(link, b, growth, events[0], vals);
    ParallelThrough(Cross(link, events[0], vals).link, Cross(Begin(b), events[0], vals).link,
                    growth, events[1..], vals);
  }

  /** What it takes to reach the loop. */
  ghost predicate Admitted(
    a: Valuation, b: Valuation, vals: Valuations, flows: seq<Flow>, coverage: seq<Coverage>)
  {
    && a.h.account == b.h.account && SameAccount(a.h.account, vals, flows, coverage)
    && a.Ordinary() && b.Ordinary()
    && (forall f | f in flows :: f.h.at != a.h.at && f.h.at != b.h.at)
    && a.h.id != b.h.id && a.h.at < b.h.at && a.complete && b.complete
    && Covered(a.h.at, b.h.at, coverage, false)
    && DistinctInstants(Events(flows, a.h.at, b.h.at))
    && NoRepeats(BoundaryIds(Events(flows, a.h.at, b.h.at)))
  }

  ghost function Arrival(a: Valuation, b: Valuation, vals: Valuations, events: seq<Flow>): Linked
    requires a.Priced() && b.Priced() && AllPriced(vals) && a.complete && b.complete
  {
    var step := Through(Begin(a.equity.value), events, vals);
    if step.Stop? then Unavailable(step.reason)
    else Arrive(step.link, b.equity.value, a.equity.value, NetFlows(events))
  }

  lemma AvailableIsAdmitted(
    a: Valuation, b: Valuation, vals: Valuations, flows: seq<Flow>, coverage: seq<Coverage>)
    requires a.Priced() && b.Priced() && AllPriced(vals)
    ensures LinkedReturn(a, b, vals, flows, coverage).Available? ==> Admitted(a, b, vals, flows, coverage)
    ensures Admitted(a, b, vals, flows, coverage) ==>
              LinkedReturn(a, b, vals, flows, coverage)
              == Arrival(a, b, vals, Events(flows, a.h.at, b.h.at))
  {
  }

  /** Every guard before the loop passes on the joined window, and its events are the two lists. */
  lemma WindowsJoin(
    a: Valuation, b: Valuation, c: Valuation, vals: Valuations, flows: seq<Flow>,
    coverage: seq<Coverage>)
    requires a.Priced() && b.Priced() && AllPriced(vals) && a.h.id != c.h.id
    requires Admitted(a, b, vals, flows, coverage) && Admitted(b, c, vals, flows, coverage)
    requires Through(Begin(a.equity.value), Events(flows, a.h.at, b.h.at), vals).Go?
    requires Through(Begin(b.equity.value), Events(flows, b.h.at, c.h.at), vals).Go?
    ensures Events(flows, a.h.at, c.h.at)
         == Events(flows, a.h.at, b.h.at) + Events(flows, b.h.at, c.h.at)
    ensures Admitted(a, c, vals, flows, coverage)
  {
    var left, right := Events(flows, a.h.at, b.h.at), Events(flows, b.h.at, c.h.at);
    EventsFacts(flows, a.h.at, b.h.at);
    EventsFacts(flows, b.h.at, c.h.at);
    EventsConcat(flows, a.h.at, b.h.at, c.h.at);
    CoverSplits(a.h.at, b.h.at, c.h.at, coverage, false);
    ThroughBounds(Begin(a.equity.value), left, vals);
    ThroughBounds(Begin(b.equity.value), right, vals);
    BoundariesStayDistinct(left, right, b.h.at, vals);
  }

  lemma ArrivalsCompose(
    a: Valuation, b: Valuation, c: Valuation, vals: Valuations, left: seq<Flow>, right: seq<Flow>)
    requires a.Priced() && b.Priced() && c.Priced() && AllPriced(vals)
    requires a.complete && b.complete && c.complete
    requires (forall f | f in left :: f.h.at < b.h.at) && (forall f | f in right :: b.h.at < f.h.at)
    requires Arrival(a, b, vals, left).Available? && Arrival(b, c, vals, right).Available?
    ensures Arrival(a, c, vals, left + right)
         == Joined(Arrival(a, b, vals, left), Arrival(b, c, vals, right))
  {
    var start := Begin(a.equity.value);
    ThroughConcat(start, left, right, vals);
    ThroughKeepsSound(start, left, vals);
    NetFlowsConcat(left, right);
    if right != [] && left != [] {
      assert left[|left| - 1] in left && right[0] in right;
    }
    LinksCompose(Through(start, left, vals).link, a.equity.value, b.equity.value, c.equity.value,
                 right, NetFlows(left), NetFlows(right), vals);
  }

  /** For valuations A, B, C: when the return is available from A to B and from B to C, the return
      from A to C is exactly their product, zero balances included, unless the product itself
      overflows the printable precision. Net flows and investment gain add up. */
  lemma ReturnsCompose(
    a: Valuation, b: Valuation, c: Valuation, vals: Valuations, flows: seq<Flow>,
    coverage: seq<Coverage>)
    requires a.Priced() && b.Priced() && c.Priced() && AllPriced(vals) && a.h.id != c.h.id
    requires LinkedReturn(a, b, vals, flows, coverage).Available?
    requires LinkedReturn(b, c, vals, flows, coverage).Available?
    ensures LinkedReturn(a, c, vals, flows, coverage)
         == Joined(LinkedReturn(a, b, vals, flows, coverage), LinkedReturn(b, c, vals, flows, coverage))
  {
    AvailableIsAdmitted(a, b, vals, flows, coverage);
    AvailableIsAdmitted(b, c, vals, flows, coverage);
    AvailableIsAdmitted(a, c, vals, flows, coverage);
    WindowsJoin(a, b, c, vals, flows, coverage);
    EventsFacts(flows, a.h.at, b.h.at);
    EventsFacts(flows, b.h.at, c.h.at);
    ArrivalsCompose(a, b, c, vals, Events(flows, a.h.at, b.h.at), Events(flows, b.h.at, c.h.at));
  }

  // ----- The closed form -----

  /** A stretch between two flows: the balance it starts from and the balance it reaches. */
  datatype Segment = Segment(base: Cents, reached: Cents)

  ghost function Segments(base: Cents, events: seq<Flow>, end: Cents, vals: Valuations): seq<Segment>
    requires AllPriced(vals) && (forall f | f in events :: Bounded(f, vals))
    decreases |events|
  {
    if events == [] then [Segment(base, end)] else
    assert Bounded(events[0], vals);
    var before, after := Lookup(vals, events[0].before).value, Lookup(vals, events[0].after).value;
    [Segment(base, before.equity.value)] + Segments(after.equity.value, events[1..], end, vals)
  }

  /** The product of each funded stretch's own growth. */
  ghost function Growth(segments: seq<Segment>): real {
    if segments == [] then 1.0 else
    var s := segments[0];
    (if s.base == 0 then 1.0 else s.reached as real / s.base as real) * Growth(segments[1..])
  }

  ghost function Gains(segments: seq<Segment>): Cents {
    if segments == [] then 0 else segments[0].reached - segments[0].base + Gains(segments[1..])
  }

  ghost predicate ZeroStaysZero(segments: seq<Segment>) {
    forall s | s in segments && s.base == 0 :: s.reached == 0
  }

  lemma {:induction false} GainsAddUp(base: Cents, events: seq<Flow>, end: Cents, vals: Valuations)
    requires AllPriced(vals) && (forall f | f in events :: Bounded(f, vals))
    ensures Gains(Segments(base, events, end, vals)) == end - base - NetFlows(events)
    decreases |events|
  {
    var all := Segments(base, events, end, vals);
    if events == [] {
      assert all[1..] == [];
    } else {
      assert Bounded(events[0], vals);
      var y := Lookup(vals, events[0].after).value.equity.value;
      GainsAddUp(y, events[1..], end, vals);
      assert all[1..] == Segments(y, events[1..], end, vals);
    }
  }

  /** The loop's arithmetic alone: one multiplication per stretch with a positive base. */
  ghost function Fold(factor: real, segments: seq<Segment>): real
    decreases |segments|
  {
    if segments == [] then factor else Fold(Grow(factor, segments[0]), segments[1..])
  }

  ghost function Grow(factor: real, s: Segment): real {
    if s.base == 0 then factor else factor * (s.reached as real / s.base as real)
  }

  lemma {:induction false} FactorIsFold(
    link: Link, events: seq<Flow>, end: Cents, start: Cents, net: Cents, vals: Valuations)
    requires AllPriced(vals) && (forall f | f in events :: Bounded(f, vals))
    requires Through(link, events, vals).Go?
    requires Arrive(Through(link, events, vals).link, end, start, net).Available?
    ensures Arrive(Through(link, events, vals).link, end, start, net).factor
         == Fold(link.factor, Segments(link.previous, events, end, vals))
    ensures ZeroStaysZero(Segments(link.previous, events, end, vals))
    decreases |events|
  {
    var all := Segments(link.previous, events, end, vals);
    if events == [] {
      assert all == [Segment(link.previous, end)] && all[1..] == [];
    } else {
      assert Bounded(events[0], vals);
      var next := Cross(link, events[0], vals).link;
      FactorIsFold(next, events[1..], end, start, net, vals);
      var x := Lookup(vals, events[0].before).value.equity.value;
      var rest := Segments(next.previous, events[1..], end, vals);
      assert all == [Segment(link.previous, x)] + rest && all[1..] == rest;
      assert next.factor == Grow(link.factor, all[0]);
    }
  }

  lemma {:induction false} FoldIsProduct(factor: real, segments: seq<Segment>)
    ensures Fold(factor, segments) == factor * Growth(segments)
    decreases |segments|
  {
    if segments != [] {
      var s, rest := segments[0], segments[1..];
      FoldIsProduct(Grow(factor, s), rest);
      if s.base != 0 {
        Associate(factor, s.reached as real / s.base as real, Growth(rest));
      }
    }
  }

  /** An available return is the product of the growth of the stretches between flows, its gain is
      the sum of their gains, and nothing ever grew from a zero balance. */
  lemma ReturnIsProductOfSegments(
    a: Valuation, b: Valuation, vals: Valuations, flows: seq<Flow>, coverage: seq<Coverage>)
    requires a.Priced() && b.Priced() && AllPriced(vals)
    requires LinkedReturn(a, b, vals, flows, coverage).Available?
    ensures a.equity.Some? && b.equity.Some?
    ensures forall f | f in Events(flows, a.h.at, b.h.at) :: Bounded(f, vals)
    ensures var r := LinkedReturn(a, b, vals, flows, coverage);
            var segments := Segments(
              a.equity.value, Events(flows, a.h.at, b.h.at), b.equity.value, vals);
            && r.factor == Growth(segments) && r.pnl == Gains(segments) && ZeroStaysZero(segments)
  {
    AvailableIsAdmitted(a, b, vals, flows, coverage);
    var events, start := Events(flows, a.h.at, b.h.at), Begin(a.equity.value);
    ThroughBounds(start, events, vals);
    FactorIsFold(start, events, b.equity.value, a.equity.value, NetFlows(events), vals);
    FoldIsProduct(1.0, Segments(a.equity.value, events, b.equity.value, vals));
    GainsAddUp(a.equity.value, events, b.equity.value, vals);
  }

  lemma InputsAgree(
    a: Valuation, b: Valuation, vals: Valuations, flows: seq<Flow>, flows': seq<Flow>,
    coverage: seq<Coverage>, coverage': seq<Coverage>)
    requires multiset(flows) == multiset(flows') && multiset(coverage) == multiset(coverage')
    requires NoTies(flows, FlowLe)
    ensures SameAccount(a.h.account, vals, flows, coverage)
         == SameAccount(a.h.account, vals, flows', coverage')
    ensures (exists f | f in flows :: f.h.at == a.h.at || f.h.at == b.h.at)
         == (exists f | f in flows' :: f.h.at == a.h.at || f.h.at == b.h.at)
    ensures Covered(a.h.at, b.h.at, coverage, false) == Covered(a.h.at, b.h.at, coverage', false)
    ensures Events(flows, a.h.at, b.h.at) == Events(flows', a.h.at, b.h.at)
  {
    SameMembers(flows, flows');
    SameMembers(coverage, coverage');
    CoverIgnoresOrder(a.h.at, b.h.at, coverage, coverage', false);
    EventsAgree(flows, flows', a.h.at, b.h.at);
  }

  lemma EventsAgree(flows: seq<Flow>, flows': seq<Flow>, start: Instant, end: Instant)
    requires multiset(flows) == multiset(flows') && NoTies(flows, FlowLe)
    ensures Events(flows, start, end) == Events(flows', start, end)
  {
    var all, all' := Events(flows, start, end), Events(flows', start, end);
    EventsFacts(flows, start, end);
    EventsFacts(flows', start, end);
    FilterOfPermutation(flows, flows', (f: Flow) => start < f.h.at <= end);
    SortedIsUnique(all, all', FlowLe);
  }

  /** The order in which flows and coverage are listed never shows. */
  lemma ReturnIgnoresListOrder(
    a: Valuation, b: Valuation, vals: Valuations, flows: seq<Flow>, flows': seq<Flow>,
    coverage: seq<Coverage>, coverage': seq<Coverage>)
    requires a.Priced() && b.Priced() && AllPriced(vals)
    requires multiset(flows) == multiset(flows') && multiset(coverage) == multiset(coverage')
    requires NoTies(flows, FlowLe)   // an identifier names one flow
    ensures LinkedReturn(a, b, vals, flows, coverage)
         == LinkedReturn(a, b, vals, flows', coverage')
  {
    InputsAgree(a, b, vals, flows, flows', coverage, coverage');
  }
}
