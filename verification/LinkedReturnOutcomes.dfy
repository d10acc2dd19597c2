/** When a linked return is available and why it is not, in the fields of what it is made from. */
module LinkedReturnOutcomes {
  import opened Reporting
  import opened Sorting
  import opened IntervalCover
  import opened LinkedReturns
  import opened LinkedReturnTheorems
  import opened Wrappers

  // ----- The flows of the window -----

  /** The flows after the start and up to the end, strictly in time and sequence. */
  ghost predicate Listing(events: seq<Flow>, flows: seq<Flow>, start: Instant, end: Instant) {
    && (forall f :: f in events <==> f in flows && start < f.h.at && f.h.at <= end)
    && (forall i, j | 0 <= i < j < |events| ::
          || events[i].h.at < events[j].h.at
          || (events[i].h.at == events[j].h.at && events[i].h.order < events[j].h.order))
  }

  /** In time, sequence and identifier order, whether or not two share an instant and a sequence. */
  lemma EventsAre(flows: seq<Flow>, start: Instant, end: Instant)
    ensures var events := Events(flows, start, end);
            && (forall f :: f in events <==> f in flows && start < f.h.at && f.h.at <= end)
            && (forall i, j | 0 <= i < j < |events| ::
                  || events[i].h.at < events[j].h.at
                  || (events[i].h.at == events[j].h.at && events[i].h.order < events[j].h.order)
                  || (events[i].h.at == events[j].h.at && events[i].h.order == events[j].h.order
                      && events[i].h.id <= events[j].h.id))
  {
    var events := Events(flows, start, end);
    EventsFacts(flows, start, end);
    forall i, j | 0 <= i < j < |events| ensures FlowLe(events[i], events[j]) {
    }
  }

  /** The flows are told apart by instant and sequence exactly when they can be listed so. */
  lemma ListedExactly(flows: seq<Flow>, start: Instant, end: Instant)
    ensures DistinctInstants(Events(flows, start, end)) <==> Listing(Events(flows, start, end), flows, start, end)
  {
    EventsAre(flows, start, end);
  }

  ghost predicate NamesNot(f: Flow, id: Id) {
    f.before != Some(id) && f.after != Some(id)
  }

  /** The flow does not name one valuation on both sides. */
  ghost predicate TwoSided(f: Flow) {
    f.before.Some? ==> f.before != f.after
  }

  ghost predicate Apart(f: Flow, g: Flow) {
    && (f.before.Some? ==> NamesNot(g, f.before.value))
    && (f.after.Some? ==> NamesNot(g, f.after.value))
  }

  /** No valuation is named as a boundary twice, by one flow or by two. */
  ghost predicate BoundariesOnce(events: seq<Flow>) {
    && (forall i | 0 <= i < |events| :: TwoSided(events[i]))
    && (forall i, j | 0 <= i < j < |events| :: Apart(events[i], events[j]))
  }

  lemma {:induction false} NamedInBoundaries(events: seq<Flow>, id: Id)
    ensures id in BoundaryIds(events) <==> exists i | 0 <= i < |events| :: !NamesNot(events[i], id)
  {
    if events != [] {
      NamedInBoundaries(events[1..], id);
      assert forall i | 0 <= i < |events[1..]| :: events[1..][i] == events[i + 1];
      assert id in BoundaryIds(events) <==> !NamesNot(events[0], id) || id in BoundaryIds(events[1..]);
      if i :| 0 <= i < |events| && !NamesNot(events[i], id) {
        assert i == 0 || events[1..][i - 1] == events[i];
      }
      if i :| 0 <= i < |events[1..]| && !NamesNot(events[1..][i], id) {
        assert !NamesNot(events[i + 1], id);
      }
    }
  }

  lemma NoRepeatsJoin(a: seq<Id>, b: seq<Id>)
    ensures NoRepeats(a + b) <==> NoRepeats(a) && NoRepeats(b) && forall x | x in a :: x !in b
  {
    var all := a + b;
    if NoRepeats(all) {
      forall i, j | 0 <= i < j < |a| ensures a[i] != a[j] { assert all[i] != all[j]; }
      forall i, j | 0 <= i < j < |b| ensures b[i] != b[j] { assert all[|a| + i] != all[|a| + j]; }
      forall x | x in a ensures x !in b {
        var i :| 0 <= i < |a| && a[i] == x;
        forall j | 0 <= j < |b| ensures b[j] != x { assert all[i] != all[|a| + j]; }
      }
    }
    if NoRepeats(a) && NoRepeats(b) && forall x | x in a :: x !in b {
      NoRepeatsConcat(a, b);
    }
  }

  lemma OwnIds(f: Flow)
    ensures NoRepeats(Ids(f)) <==> TwoSided(f)
    ensures forall id :: id in Ids(f) <==> !NamesNot(f, id)
  {
    if f.before.Some? && f.after.Some? {
      assert Ids(f) == [f.before.value, f.after.value];
      if NoRepeats(Ids(f)) { assert Ids(f)[0] != Ids(f)[1]; }
    }
  }

  lemma FirstOnce(f: Flow, rest: seq<Flow>)
    ensures BoundariesOnce([f] + rest)
       <==> TwoSided(f) && BoundariesOnce(rest) && forall i | 0 <= i < |rest| :: Apart(f, rest[i])
  {
    var all := [f] + rest;
    assert all[0] == f && forall i | 0 <= i < |rest| :: all[i + 1] == rest[i];
    if BoundariesOnce(all) {
      forall i | 0 <= i < |rest| ensures TwoSided(rest[i]) && Apart(f, rest[i]) {
        assert TwoSided(all[i + 1]) && Apart(all[0], all[i + 1]);
      }
      forall i, j | 0 <= i < j < |rest| ensures Apart(rest[i], rest[j]) {
        assert Apart(all[i + 1], all[j + 1]);
      }
    }
  }

  lemma ApartFromAll(f: Flow, rest: seq<Flow>)
    ensures (forall id | id in Ids(f) :: id !in BoundaryIds(rest))
       <==> forall i | 0 <= i < |rest| :: Apart(f, rest[i])
  {
    OwnIds(f);
    if forall id | id in Ids(f) :: id !in BoundaryIds(rest) {
      forall i | 0 <= i < |rest| ensures Apart(f, rest[i]) {
        if f.before.Some? { NamedInBoundaries(rest, f.before.value); }
        if f.after.Some? { NamedInBoundaries(rest, f.after.value); }
      }
    } else {
      var id :| id in Ids(f) && id in BoundaryIds(rest);
      NamedInBoundaries(rest, id);
      var i :| 0 <= i < |rest| && !NamesNot(rest[i], id);
      assert !Apart(f, rest[i]);
    }
  }

  lemma {:induction false} BoundariesOnceExactly(events: seq<Flow>)
    ensures NoRepeats(BoundaryIds(events)) <==> BoundariesOnce(events)
  {
    if events != [] {
      var f, rest := events[0], events[1..];
      BoundariesOnceExactly(rest);
      NoRepeatsJoin(Ids(f), BoundaryIds(rest));
      OwnIds(f);
      ApartFromAll(f, rest);
      FirstOnce(f, rest);
      assert events == [f] + rest;
    }
  }

  // ----- The walk over the flows -----

  /** Both boundary valuations of a flow are there and complete. */
  ghost predicate Found(f: Flow, vals: Valuations) {
    && f.before.Some? && f.before.value in vals && vals[f.before.value].complete
    && f.after.Some? && f.after.value in vals && vals[f.after.value].complete
  }

  function Before(f: Flow, vals: Valuations): Cents
    requires AllPriced(vals) && Found(f, vals)
  {
    assert Lookup(vals, f.before).Some?;
    vals[f.before.value].equity.value
  }

  function After(f: Flow, vals: Valuations): Cents
    requires AllPriced(vals) && Found(f, vals)
  {
    assert Lookup(vals, f.after).Some?;
    vals[f.after.value].equity.value
  }

  /** They are its boundaries, at its instant, and differ by its amount. */
  ghost predicate Fits(f: Flow, vals: Valuations)
    requires AllPriced(vals) && Found(f, vals)
  {
    && vals[f.before.value].phase == BeforeFlow && vals[f.after.value].phase == AfterFlow
    && vals[f.before.value].h.at == f.h.at && vals[f.after.value].h.at == f.h.at
    && After(f, vals) - Before(f, vals) == f.amount
  }

  ghost predicate AllFound(events: seq<Flow>, vals: Valuations, n: nat)
    requires n <= |events|
  {
    forall k | 0 <= k < n :: Found(events[k], vals)
  }

  /** The balance that the `n`-th flow meets: the start's, or what the flow before it left. */
  function Met(start: Cents, events: seq<Flow>, vals: Valuations, n: nat): Cents
    requires AllPriced(vals) && n <= |events| && AllFound(events, vals, n)
  {
    if n == 0 then start else After(events[n - 1], vals)
  }

  /** The `n`-th flow can be linked: its boundaries are found and fit; at the instant of the flow before it
      nothing lies between; and after a zero balance it starts from zero. */
  ghost predicate Links(start: Cents, events: seq<Flow>, vals: Valuations, n: nat)
    requires AllPriced(vals) && n < |events| && AllFound(events, vals, n)
  {
    && Found(events[n], vals) && Fits(events[n], vals)
    && (n > 0 && events[n - 1].h.at == events[n].h.at ==>
          Before(events[n], vals) == Met(start, events, vals, n))
    && (Met(start, events, vals, n) == 0 ==> Before(events[n], vals) == 0)
  }

  /** The first `n` flows can be linked. */
  ghost predicate LinksUpTo(start: Cents, events: seq<Flow>, vals: Valuations, n: nat)
    requires AllPriced(vals) && n <= |events|
  {
    AllFound(events, vals, n) && forall k: nat | k < n :: Links(start, events, vals, k)
  }

  /** Why the `n`-th flow cannot be linked. */
  ghost function Fault(start: Cents, events: seq<Flow>, vals: Valuations, n: nat): Reason
    requires AllPriced(vals) && n < |events| && AllFound(events, vals, n)
  {
    var f := events[n];
    if !Found(f, vals) then BoundaryMissing
    else if !Fits(f, vals) then BoundaryMismatch
    else if n > 0 && events[n - 1].h.at == f.h.at && Before(f, vals) != Met(start, events, vals, n) then
      SimultaneousBoundaryGap
    else ZeroBase
  }

  function Ratio(base: Cents, reached: Cents): real {
    if base == 0 then 1.0 else reached as real / base as real
  }

  /** The growth of the first `n` stretches. */
  ghost function Product(start: Cents, events: seq<Flow>, vals: Valuations, n: nat): real
    requires AllPriced(vals) && n <= |events| && AllFound(events, vals, n)
  {
    if n == 0 then 1.0
    else Product(start, events, vals, n - 1)
         * Ratio(Met(start, events, vals, n - 1), Before(events[n - 1], vals))
  }

  /** Some balance on the way was positive. */
  ghost predicate Funded(start: Cents, events: seq<Flow>, vals: Valuations, n: nat)
    requires AllPriced(vals) && n <= |events| && AllFound(events, vals, n)
  {
    0 < start || exists k | 0 <= k < n :: 0 < After(events[k], vals)
  }

  /** What the loop carries after `n` flows. */
  ghost predicate Carries(link: Link, start: Cents, events: seq<Flow>, vals: Valuations, n: nat)
    requires AllPriced(vals) && n <= |events| && AllFound(events, vals, n)
  {
    && link.previous == Met(start, events, vals, n)
    && link.factor == Product(start, events, vals, n)
    && (link.funded <==> Funded(start, events, vals, n))
    && link.lastFlow == if n == 0 then None else Some(events[n - 1].h.at)
  }

  lemma CrossLinks(link: Link, start: Cents, events: seq<Flow>, vals: Valuations, n: nat)
    requires AllPriced(vals) && n < |events| && AllFound(events, vals, n)
    requires Carries(link, start, events, vals, n)
    ensures Links(start, events, vals, n) ==>
              && Cross(link, events[n], vals).Go?
              && Carries(Cross(link, events[n], vals).link, start, events, vals, n + 1)
    ensures !Links(start, events, vals, n) ==>
              Cross(link, events[n], vals) == Stop(Fault(start, events, vals, n))
  {
    if Links(start, events, vals, n) {
      assert Product(start, events, vals, n + 1)
          == Product(start, events, vals, n) * Ratio(Met(start, events, vals, n), Before(events[n], vals));
      if Met(start, events, vals, n) == 0 {
        assert Product(start, events, vals, n) * 1.0 == Product(start, events, vals, n);
      }
    }
  }

  lemma OneMoreFlow(link: Link, events: seq<Flow>, vals: Valuations, n: nat)
    requires AllPriced(vals) && n < |events| && Through(link, events[..n], vals).Go?
    ensures Through(link, events[..n + 1], vals) == Cross(Through(link, events[..n], vals).link, events[n], vals)
  {
    assert events[..n + 1] == events[..n] + [events[n]];
    ThroughConcat(link, events[..n], [events[n]], vals);
    assert [events[n]][1..] == [];
  }

  lemma {:induction false} ThroughLinks(start: Cents, events: seq<Flow>, vals: Valuations, n: nat)
    requires AllPriced(vals) && n <= |events| && LinksUpTo(start, events, vals, n)
    ensures Through(Begin(start), events[..n], vals).Go?
    ensures Carries(Through(Begin(start), events[..n], vals).link, start, events, vals, n)
  {
    if n > 0 {
      ThroughLinks(start, events, vals, n - 1);
      assert Links(start, events, vals, n - 1);
      CrossLinks(Through(Begin(start), events[..n - 1], vals).link, start, events, vals, n - 1);
      OneMoreFlow(Begin(start), events, vals, n - 1);
    }
  }

  /** The loop stops at the first flow that cannot be linked, with the reason why not. */
  lemma ThroughStops(start: Cents, events: seq<Flow>, vals: Valuations, n: nat)
    requires AllPriced(vals) && n < |events| && LinksUpTo(start, events, vals, n) && !Links(start, events, vals, n)
    ensures Through(Begin(start), events, vals) == Stop(Fault(start, events, vals, n))
  {
    ThroughLinks(start, events, vals, n);
    CrossLinks(Through(Begin(start), events[..n], vals).link, start, events, vals, n);
    OneMoreFlow(Begin(start), events, vals, n);
    assert events == events[..n + 1] + events[n + 1..];
    ThroughConcat(Begin(start), events[..n + 1], events[n + 1..], vals);
  }

  lemma FirstUnlinked(start: Cents, events: seq<Flow>, vals: Valuations, m: nat) returns (n: nat)
    requires AllPriced(vals) && m <= |events| && !LinksUpTo(start, events, vals, m)
    ensures n < m && LinksUpTo(start, events, vals, n) && !Links(start, events, vals, n)
  {
    if LinksUpTo(start, events, vals, m - 1) {
      n := m - 1;
    } else {
      n := FirstUnlinked(start, events, vals, m - 1);
    }
  }

  // ----- The outcome -----

  /** Amounts of the flows. */
  function Sum(events: seq<Flow>, n: nat): Cents
    requires n <= |events|
  {
    if n == 0 then 0 else Sum(events, n - 1) + events[n - 1].amount
  }

  lemma {:induction false} NetFlowsIsSum(events: seq<Flow>, n: nat)
    requires n <= |events|
    ensures NetFlows(events[..n]) == Sum(events, n)
  {
    if n > 0 {
      NetFlowsIsSum(events, n - 1);
      assert events[..n] == events[..n - 1] + [events[n - 1]];
      NetFlowsConcat(events[..n - 1], [events[n - 1]]);
      assert [events[n - 1]][1..] == [];
    }
  }

  /** What comes of the flows between two balances. */
  ghost predicate Comes(r: Linked, start: Cents, end: Cents, events: seq<Flow>, vals: Valuations)
    requires AllPriced(vals)
  {
    var n := |events|;
    if !LinksUpTo(start, events, vals, n) then
      exists k: nat | k < n ::
        && LinksUpTo(start, events, vals, k) && !Links(start, events, vals, k)
        && r == Unavailable(Fault(start, events, vals, k))
    else
      var last := Met(start, events, vals, n);
      var factor := Product(start, events, vals, n) * Ratio(last, end);
      if last == 0 && (end != 0 || !Funded(start, events, vals, n)) then r == Unavailable(ZeroBase)
      else if PRECISION_LIMIT <= factor then r == Unavailable(PrecisionExceeded)
      else r == Available(factor, Sum(events, n), end - start - Sum(events, n))
  }

  lemma LinkingComes(start: Cents, end: Cents, events: seq<Flow>, vals: Valuations)
    requires AllPriced(vals) && DistinctInstants(events) && NoRepeats(BoundaryIds(events))
    ensures Comes(Linking(start, end, events, vals), start, end, events, vals)
  {
    var n := |events|;
    if LinksUpTo(start, events, vals, n) {
      ThroughLinks(start, events, vals, n);
      NetFlowsIsSum(events, n);
      assert events[..n] == events;
      assert Product(start, events, vals, n) * 1.0 == Product(start, events, vals, n);
    } else {
      var k := FirstUnlinked(start, events, vals, n);
      ThroughStops(start, events, vals, k);
    }
  }

  /** All inputs belong to the account of the start. */
  ghost predicate OneAccount(
    a: Valuation, b: Valuation, vals: Valuations, flows: seq<Flow>, coverage: seq<Coverage>)
  {
    && b.h.account == a.h.account && (forall k | k in vals :: vals[k].h.account == a.h.account)
    && (forall f | f in flows :: f.h.account == a.h.account)
    && (forall c | c in coverage :: c.h.account == a.h.account)
  }

  /** Neither end is a boundary of a flow. */
  predicate PlainEnds(a: Valuation, b: Valuation) {
    a.phase !in {BeforeFlow, AfterFlow} && b.phase !in {BeforeFlow, AfterFlow}
  }

  ghost predicate ClearEnds(a: Valuation, b: Valuation, flows: seq<Flow>) {
    forall f | f in flows :: f.h.at != a.h.at && f.h.at != b.h.at
  }

  ghost predicate ReportedAt(coverage: seq<Coverage>, t: Instant) {
    exists c | c in coverage :: c.flowsComplete && c.start <= t && t < c.end
  }

  /** At every instant of the window some report says that its flows are complete. */
  ghost predicate FlowsReported(a: Valuation, b: Valuation, coverage: seq<Coverage>) {
    forall t | a.h.at <= t && t < b.h.at :: ReportedAt(coverage, t)
  }

  /** Two complete ends, in time order, of one account, clear of flows and covered. */
  ghost predicate GoodWindow(
    a: Valuation, b: Valuation, vals: Valuations, flows: seq<Flow>, coverage: seq<Coverage>)
  {
    && OneAccount(a, b, vals, flows, coverage) && PlainEnds(a, b) && ClearEnds(a, b, flows)
    && a.h.id != b.h.id && a.h.at < b.h.at && a.complete && b.complete && FlowsReported(a, b, coverage)
  }

  lemma CoveredIsReported(a: Valuation, b: Valuation, coverage: seq<Coverage>)
    requires a.h.at < b.h.at
    ensures Covered(a.h.at, b.h.at, coverage, false) <==> FlowsReported(a, b, coverage)
  {
    forall t ensures InstantCovered(coverage, false, t) <==> ReportedAt(coverage, t) {
      if ReportedAt(coverage, t) {
        var c :| c in coverage && c.flowsComplete && c.start <= t && t < c.end;
        assert Covers(c, false, t);
      }
    }
    if Covered(a.h.at, b.h.at, coverage, false) {
      forall t | a.h.at <= t && t < b.h.at ensures ReportedAt(coverage, t) {
        assert InstantCovered(coverage, false, t);
      }
    }
    if FlowsReported(a, b, coverage) {
      forall t | a.h.at <= t < b.h.at ensures InstantCovered(coverage, false, t) {
        assert ReportedAt(coverage, t);
      }
    }
  }

  /** What the guards before the flows refuse, and with which reason. */
  lemma GuardsExactly(
    a: Valuation, b: Valuation, vals: Valuations, flows: seq<Flow>, coverage: seq<Coverage>)
    requires a.Priced() && b.Priced() && AllPriced(vals)
    ensures var r := LinkedReturn(a, b, vals, flows, coverage);
            var one, plain, clear := OneAccount(a, b, vals, flows, coverage), PlainEnds(a, b), ClearEnds(a, b, flows);
            && (r == Rejected <==> !one)
            && (r == Unavailable(FlowBoundaryEndpoint) <==> one && !plain)
            && (r == Unavailable(CoincidentFlowEndpoint) <==> one && plain && !clear)
            && (r == Single <==> one && plain && clear && a.h.id == b.h.id && a.complete)
            && (r == Unavailable(InsufficientObservations) <==>
                  one && plain && clear && a.h.id != b.h.id && b.h.at <= a.h.at)
            && (r == Unavailable(IncompleteValuation) <==>
                  && one && plain && clear
                  && (if a.h.id == b.h.id then !a.complete else a.h.at < b.h.at && !(a.complete && b.complete)))
            && (r == Unavailable(FlowCoverageMissing) <==>
                  && one && plain && clear && a.h.id != b.h.id && a.h.at < b.h.at && a.complete && b.complete
                  && !FlowsReported(a, b, coverage))
  {
    if a.h.at < b.h.at { CoveredIsReported(a, b, coverage); }
    if GoodWindow(a, b, vals, flows, coverage) {
      WindowReasons(a, b, vals, flows, coverage);
    }
  }

  predicate BeforeTheFlows(r: Linked) {
    || r == Rejected || r == Single
    || r in {Unavailable(FlowBoundaryEndpoint), Unavailable(CoincidentFlowEndpoint),
             Unavailable(InsufficientObservations), Unavailable(IncompleteValuation),
             Unavailable(FlowCoverageMissing)}
  }

  lemma LinkingReasons(start: Cents, end: Cents, events: seq<Flow>, vals: Valuations)
    requires AllPriced(vals)
    ensures !BeforeTheFlows(Linking(start, end, events, vals))
  {
    if DistinctInstants(events) && NoRepeats(BoundaryIds(events)) { LinkingComes(start, end, events, vals); }
  }

  lemma WindowReasons(
    a: Valuation, b: Valuation, vals: Valuations, flows: seq<Flow>, coverage: seq<Coverage>)
    requires a.Priced() && b.Priced() && AllPriced(vals) && GoodWindow(a, b, vals, flows, coverage)
    ensures LinkedReturn(a, b, vals, flows, coverage)
         == Linking(a.equity.value, b.equity.value, Events(flows, a.h.at, b.h.at), vals)
    ensures !BeforeTheFlows(LinkedReturn(a, b, vals, flows, coverage))
  {
    CoveredIsReported(a, b, coverage);
    LinkingReasons(a.equity.value, b.equity.value, Events(flows, a.h.at, b.h.at), vals);
  }

  /** What comes of the flows of a good window. */
  ghost predicate Outcome(r: Linked, a: Valuation, b: Valuation, vals: Valuations, flows: seq<Flow>, events: seq<Flow>)
    requires a.Priced() && b.Priced() && AllPriced(vals) && a.complete && b.complete
  {
    if !Listing(events, flows, a.h.at, b.h.at) then r == Unavailable(SimultaneousFlowOrder)
    else if !BoundariesOnce(events) then r == Unavailable(BoundaryReused)
    else Comes(r, a.equity.value, b.equity.value, events, vals)
  }

  /** On a good window: the flows must be told apart by instant and sequence, and name each boundary once;
      then every flow that can be linked is, the first that cannot gives the reason, and otherwise the
      return is the product of the growth of the stretches between. An account that starts from zero, or
      is emptied, and is funded afterwards has a return. */
  lemma ReturnExactly(
    a: Valuation, b: Valuation, vals: Valuations, flows: seq<Flow>, coverage: seq<Coverage>)
    requires a.Priced() && b.Priced() && AllPriced(vals) && GoodWindow(a, b, vals, flows, coverage)
    ensures Outcome(LinkedReturn(a, b, vals, flows, coverage), a, b, vals, flows, Events(flows, a.h.at, b.h.at))
  {
    var events := Events(flows, a.h.at, b.h.at);
    WindowReasons(a, b, vals, flows, coverage);
    ListedExactly(flows, a.h.at, b.h.at);
    BoundariesOnceExactly(events);
    if DistinctInstants(events) && NoRepeats(BoundaryIds(events)) {
      LinkingComes(a.equity.value, b.equity.value, events, vals);
    }
  }

  /** Every flow can be linked, the end is zero if the last balance is and some balance was not, and the
      product is below the precision limit. */
  ghost predicate Arrives(start: Cents, end: Cents, events: seq<Flow>, vals: Valuations)
    requires AllPriced(vals)
  {
    var n := |events|;
    && LinksUpTo(start, events, vals, n)
    && (Met(start, events, vals, n) == 0 ==> end == 0 && Funded(start, events, vals, n))
    && Product(start, events, vals, n) * Ratio(Met(start, events, vals, n), end) < PRECISION_LIMIT
  }

  lemma ComesAvailable(r: Linked, start: Cents, end: Cents, events: seq<Flow>, vals: Valuations)
    requires AllPriced(vals) && Comes(r, start, end, events, vals)
    ensures r.Available? <==> Arrives(start, end, events, vals)
  {
  }

  /** A return is available if and only if the window is good, its flows are told apart and name each
      boundary once, and they arrive. */
  lemma AvailableExactly(
    a: Valuation, b: Valuation, vals: Valuations, flows: seq<Flow>, coverage: seq<Coverage>)
    requires a.Priced() && b.Priced() && AllPriced(vals)
    ensures var events := Events(flows, a.h.at, b.h.at);
            LinkedReturn(a, b, vals, flows, coverage).Available? <==>
              && GoodWindow(a, b, vals, flows, coverage)
              && Listing(events, flows, a.h.at, b.h.at) && BoundariesOnce(events)
              && Arrives(a.equity.value, b.equity.value, events, vals)
  {
    if GoodWindow(a, b, vals, flows, coverage) {
      var r, events := LinkedReturn(a, b, vals, flows, coverage), Events(flows, a.h.at, b.h.at);
      ReturnExactly(a, b, vals, flows, coverage);
      if Comes(r, a.equity.value, b.equity.value, events, vals) {
        ComesAvailable(r, a.equity.value, b.equity.value, events, vals);
      }
    } else {
      GuardsExactly(a, b, vals, flows, coverage);
    }
  }
}
