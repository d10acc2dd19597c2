/** When a publish that revisits only stamped decisions leaves exactly what a full rebuild leaves. */
module PublicationTheorems {
  import opened Sorting
  import opened Publication
  import opened Wrappers

  // ----- A write either stamps a decision or leaves everything it reads alone -----

  lemma {:induction false} DecisionsMembers(rows: seq<Row>, d: Id)
    ensures d in Decisions(rows) <==>
            exists r | r in rows :: r.table == DecisionRecords && r.decision == d
  {
    if rows != [] {
      assert rows == [rows[0]] + rows[1..];
      DecisionsMembers(rows[1..], d);
    }
  }

  /** The rows a write removed and added, between rows it did not touch. */
  datatype Change = Change(before: seq<Row>, gone: seq<Row>, added: seq<Row>, after: seq<Row>)
  {
    function Old(): seq<Row> { before + gone + after }
    function New(): seq<Row> { before + added + after }
  }

  /** No row of the change is one that decision `d` reads by its own identifier. */
  ghost predicate Foreign(c: Change, d: Id) {
    forall r | r in c.gone + c.added :: !(OfDecision(r.table) && r.decision == d)
  }

  lemma LookupsUnmoved(c: Change, d: Id)
    requires Foreign(c, d)
    ensures IntentsOf(c.Old(), d) == IntentsOf(c.New(), d)
    ensures RunsOf(c.Old(), d) == RunsOf(c.New(), d)
    ensures d in Decisions(c.Old()) <==> d in Decisions(c.New())
  {
    forall r: Row | OfDecision(r.table) && r.decision == d ensures r in c.Old() <==> r in c.New() {
    }
    DecisionsMembers(c.Old(), d);
    DecisionsMembers(c.New(), d);
  }

  lemma AloofIsIrrelevant(rows: seq<Row>, r: Row, d: Id)
    requires !OfEverything(r.table) && d !in Touched(rows, r)
    ensures !Relevant(r, d, IntentsOf(rows, d), RunsOf(rows, d))
  {
  }

  lemma FilterSkips(c: Change, keep: Row -> bool)
    requires forall r | r in c.gone + c.added :: !keep(r)
    ensures Filter(c.Old(), keep) == Filter(c.New(), keep)
  {
    FilterConcat(c.before + c.gone, c.after, keep);
    FilterConcat(c.before, c.gone, keep);
    FilterConcat(c.before + c.added, c.after, keep);
    FilterConcat(c.before, c.added, keep);
    FilterNone(c.gone, keep);
    FilterNone(c.added, keep);
  }

  lemma SliceUnmoved(c: Change, d: Id)
    requires Foreign(c, d)
    requires forall r | r in c.gone + c.added :: !Relevant(r, d, IntentsOf(c.New(), d), RunsOf(c.New(), d))
    ensures Slice(c.Old(), d) == Slice(c.New(), d)
    ensures d in Decisions(c.Old()) <==> d in Decisions(c.New())
  {
    LookupsUnmoved(c, d);
    var intents, runs := IntentsOf(c.New(), d), RunsOf(c.New(), d);
    FilterSkips(c, r => Relevant(r, d, intents, runs));
  }

  ghost predicate Sound(s: Source) {
    && s.marker <= s.details
    && (forall d | d in s.stamps :: s.stamps[d] <= s.details)
  }

  ghost predicate Advances(s: Source, s': Source) {
    && s.details <= s'.details && s.performance <= s'.performance && s.activity <= s'.activity
    && s.marker <= s'.marker
    && (forall d | d in s.stamps :: d in s'.stamps && s.stamps[d] <= s'.stamps[d])
  }

  lemma FireAdvances(s: Source, rows: seq<Row>, r: Row)
    requires Sound(s)
    ensures Sound(Fire(s, rows, r)) && Advances(s, Fire(s, rows, r))
  {
  }

  lemma WriteAdvances(s: Source, w: Write)
    requires Sound(s)
    ensures Sound(Apply(s, w)) && Advances(s, Apply(s, w))
  {
    match w
    case Insert(r) => FireAdvances(s, s.rows + [r], r);
    case Replace(i, r) =>
      if i < |s.rows| { FireAdvances(s, s.rows[i := r], r); }
    case Delete(i) =>
      if i < |s.rows| { FireAdvances(s, s.rows[..i] + s.rows[i + 1..], s.rows[i]); }
  }

  /** Decision `d`, or everything, is marked later than `since`. */
  ghost predicate Marked(s: Source, d: Id, since: nat) {
    since < s.marker || (d in s.stamps && since < s.stamps[d])
  }

  ghost predicate ReadsTheSame(s: Source, s': Source, d: Id) {
    Slice(s.rows, d) == Slice(s'.rows, d) && (d in Decisions(s.rows) <==> d in Decisions(s'.rows))
  }

  lemma FiredOrUnmoved(s: Source, c: Change, r: Row, d: Id)
    requires Sound(s) && s.rows == c.Old()
    requires c.gone + c.added == [r]
    ensures Marked(Fire(s, c.New(), r), d, s.details) || ReadsTheSame(s, Fire(s, c.New(), r), d)
  {
    if !OfEverything(r.table) && d !in Touched(c.New(), r) {
      AloofIsIrrelevant(c.New(), r, d);
      assert forall q | q in c.gone + c.added :: q == r;
      SliceUnmoved(c, d);
    }
  }

  // ----- An update sees only the new row -----

  /** The update of row `i` takes it away from a decision that reads it, while the new row stamps that
      decision no more: neither a table of everything nor a reference to the decision is involved. */
  ghost predicate Leaves(s: Source, i: nat, r: Row, d: Id)
    requires i < |s.rows|
  {
    && !OfEverything(r.table) && d !in Touched(s.rows[i := r], r)
    && Relevant(s.rows[i], d, IntentsOf(s.rows, d), RunsOf(s.rows, d))
  }

  function ReplaceAt(rows: seq<Row>, i: nat, r: Row): Change
    requires i < |rows|
  {
    Change(rows[..i], [rows[i]], [r], rows[i + 1..])
  }

  lemma ReplaceIsChange(rows: seq<Row>, i: nat, r: Row)
    requires i < |rows|
    ensures ReplaceAt(rows, i, r).Old() == rows && ReplaceAt(rows, i, r).New() == rows[i := r]
  {
  }

  lemma StayingIsSpared(s: Source, i: nat, r: Row, d: Id)
    requires i < |s.rows| && r.table == s.rows[i].table && Sound(s) && !Leaves(s, i, r, d)
    ensures var s' := Fire(s, s.rows[i := r], r); Marked(s', d, s.details) || ReadsTheSame(s, s', d)
  {
    var rows' := s.rows[i := r];
    if !OfEverything(r.table) && d !in Touched(rows', r) {
      var c := ReplaceAt(s.rows, i, r);
      ReplaceIsChange(s.rows, i, r);
      AloofIsIrrelevant(rows', r, d);
      LookupsUnmoved(c, d);
      SliceUnmoved(c, d);
    }
  }

  /** An update that stamps no decision takes nothing into what that decision reads. */
  lemma AloofUpdateAddsNothing(rows: seq<Row>, i: nat, r: Row, d: Id)
    requires i < |rows| && !OfEverything(r.table) && d !in Touched(rows[i := r], r)
    ensures IntentsOf(rows[i := r], d) <= IntentsOf(rows, d) && RunsOf(rows[i := r], d) <= RunsOf(rows, d)
  {
    forall q: Row | q in rows[i := r] && OfDecision(q.table) && q.decision == d ensures q in rows {
      var k :| 0 <= k < |rows| && rows[i := r][k] == q;
      assert k != i;
    }
  }

  lemma {:induction false} FilterShrinks(s: seq<Row>, wide: Row -> bool, narrow: Row -> bool)
    requires forall q | narrow(q) :: wide(q)
    ensures |Filter(s, narrow)| <= |Filter(s, wide)|
  {
    if s != [] { FilterShrinks(s[1..], wide, narrow); }
  }

  lemma FilterLoses(c: Change, x: Row, y: Row, wide: Row -> bool, narrow: Row -> bool)
    requires c.gone == [x] && c.added == [y] && wide(x) && !narrow(y)
    requires forall q | narrow(q) :: wide(q)
    ensures |Filter(c.New(), narrow)| < |Filter(c.Old(), wide)|
  {
    FilterConcat(c.before + [x], c.after, wide);
    FilterConcat(c.before, [x], wide);
    FilterConcat(c.before + [y], c.after, narrow);
    FilterConcat(c.before, [y], narrow);
    FilterShrinks(c.before, wide, narrow);
    FilterShrinks(c.after, wide, narrow);
  }

  /** A row that leaves shortens what the decision reads, and nothing marks the decision. */
  lemma LeavingIsMissed(s: Source, i: nat, r: Row, d: Id)
    requires i < |s.rows| && r.table == s.rows[i].table && Sound(s) && Leaves(s, i, r, d)
    ensures var s' := Apply(s, Replace(i, r));
            && !Marked(s', d, s.details) && |Slice(s'.rows, d)| < |Slice(s.rows, d)|
  {
    var rows' := s.rows[i := r];
    var intents, runs := IntentsOf(s.rows, d), RunsOf(s.rows, d);
    var intents', runs' := IntentsOf(rows', d), RunsOf(rows', d);
    AloofUpdateAddsNothing(s.rows, i, r, d);
    AloofIsIrrelevant(rows', r, d);
    ReplaceIsChange(s.rows, i, r);
    FilterLoses(ReplaceAt(s.rows, i, r), s.rows[i], r,
                q => Relevant(q, d, intents, runs), q => Relevant(q, d, intents', runs'));
  }

  /** An update of any row, keeping its keys or not, stamps a decision above every earlier checkpoint, or
      asks for a rebuild, or leaves all of its own that the decision reads as it was, if and only if the
      old row was not one that the decision reads and the new one no longer names. */
  lemma UpdateStampsOrSparesExactly(s: Source, i: nat, r: Row, d: Id)
    requires i < |s.rows| && r.table == s.rows[i].table && Sound(s)
    ensures var s' := Apply(s, Replace(i, r));
            (Marked(s', d, s.details) || ReadsTheSame(s, s', d)) <==> !Leaves(s, i, r, d)
  {
    if Leaves(s, i, r, d) {
      LeavingIsMissed(s, i, r, d);
    } else {
      StayingIsSpared(s, i, r, d);
    }
  }

  /** The write takes no row away from a decision that it does not stamp. */
  ghost predicate KeepsRows(s: Source, w: Write) {
    w.Replace? && w.at < |s.rows| && w.row.table == s.rows[w.at].table ==>
      forall d :: !Leaves(s, w.at, w.row, d)
  }

  /** An update that leaves the columns naming a decision, an intent or a run as they were. */
  predicate SameKeys(a: Row, b: Row) {
    a == b.(body := a.body)
  }

  ghost predicate StableKeys(s: Source, w: Write) {
    w.Replace? && w.at < |s.rows| && w.row.table == s.rows[w.at].table ==> SameKeys(s.rows[w.at], w.row)
  }

  /** Such an update takes no row away from anyone. */
  lemma SameKeysKeepRows(s: Source, i: nat, r: Row)
    requires i < |s.rows| && SameKeys(s.rows[i], r)
    ensures KeepsRows(s, Replace(i, r))
  {
    forall d ensures !Leaves(s, i, r, d) {
      if !OfEverything(r.table) && d !in Touched(s.rows[i := r], r) {
        var c := ReplaceAt(s.rows, i, r);
        ReplaceIsChange(s.rows, i, r);
        AloofIsIrrelevant(s.rows[i := r], r, d);
        LookupsUnmoved(c, d);
      }
    }
  }

  /** Every insert, every delete, and every update that takes no row away, stamps a decision above every
      earlier checkpoint, or marks the store for a rebuild, or leaves the rows it reads as they were. */
  lemma WriteStampsOrSpares(s: Source, w: Write, d: Id)
    requires Sound(s) && KeepsRows(s, w)
    ensures Marked(Apply(s, w), d, s.details) || ReadsTheSame(s, Apply(s, w), d)
  {
    match w
    case Insert(r) =>
      var c := Change(s.rows, [], [r], []);
      assert c.Old() == s.rows && c.New() == s.rows + [r];
      FiredOrUnmoved(s, c, r, d);
    case Replace(i, r) =>
      if i < |s.rows| && r.table == s.rows[i].table { UpdateStampsOrSparesExactly(s, i, r, d); }
    case Delete(i) =>
      if i < |s.rows| {
        var c := Change(s.rows[..i], [s.rows[i]], [], s.rows[i + 1..]);
        assert c.Old() == s.rows && c.New() == s.rows[..i] + s.rows[i + 1..];
        FiredOrUnmoved(s, c, s.rows[i], d);
      }
  }

  // ----- The public rows of one decision -----

  ghost predicate UniqueKeys(rows: seq<PublicRow>) {
    forall i, j | 0 <= i < j < |rows| :: rows[i].key != rows[j].key
  }

  predicate Says(r: PublicRow, c: Content, f: set<string>) {
    r.content == c && r.failedRules == f && !r.withdrawn
  }

  /** The store says of decision `d` what its view shows: that content in a visible row, or nothing. */
  ghost predicate Matches(rows: seq<PublicRow>, d: Id, v: View) {
    match v
    case Refuse => false
    case Hide => forall i | 0 <= i < |rows| && rows[i].key == d :: rows[i].withdrawn
    case Show(c, f) => exists i | 0 <= i < |rows| && rows[i].key == d :: Says(rows[i], c, f)
  }

  /** The rows of decision `d` are the same before and after. */
  ghost predicate SameEntry(rows: seq<PublicRow>, rows': seq<PublicRow>, d: Id) {
    && |rows| <= |rows'|
    && (forall i | 0 <= i < |rows| :: rows'[i].key == rows[i].key && (rows[i].key == d ==> rows'[i] == rows[i]))
    && (forall i | |rows| <= i < |rows'| :: rows'[i].key != d)
  }

  lemma SameEntryMatches(rows: seq<PublicRow>, rows': seq<PublicRow>, d: Id, v: View)
    requires SameEntry(rows, rows', d)
    ensures Matches(rows, d, v) <==> Matches(rows', d, v)
  {
    match v
    case Refuse =>
    case Hide =>
    case Show(c, f) =>
      if Matches(rows, d, v) {
        var i :| 0 <= i < |rows| && rows[i].key == d && Says(rows[i], c, f);
        assert Says(rows'[i], c, f);
      }
      if Matches(rows', d, v) {
        var i :| 0 <= i < |rows'| && rows'[i].key == d && Says(rows'[i], c, f);
        assert Says(rows[i], c, f);
      }
  }

  lemma UpsertPlaces(w: World, rows: seq<PublicRow>, d: Id, v: View)
    requires UniqueKeys(rows) && v.Show?
    ensures var rows' := Upsert(w, rows, d, v);
            && UniqueKeys(rows') && Matches(rows', d, v)
            && (forall e | e != d :: SameEntry(rows, rows', e))
  {
    var rows' := Upsert(w, rows, d, v);
    var i := Find(rows, d);
    assert rows'[i].key == d && Says(rows'[i], v.content, v.failedRules);
  }

  lemma UpsertOfMatchIsNothing(w: World, rows: seq<PublicRow>, d: Id, v: View)
    requires UniqueKeys(rows) && v.Show? && Matches(rows, d, v)
    ensures Upsert(w, rows, d, v) == rows && !Updates(rows, d, v)
  {
    var i :| 0 <= i < |rows| && rows[i].key == d && Says(rows[i], v.content, v.failedRules);
    assert Find(rows, d) == i;
  }

  lemma SameEntryChains(a: seq<PublicRow>, b: seq<PublicRow>, c: seq<PublicRow>, d: Id)
    requires SameEntry(a, b, d) && SameEntry(b, c, d)
    ensures SameEntry(a, c, d)
  {
  }

  /** After the loop, each decision it showed is shown as expected and every other entry is as it was. */
  lemma {:induction false} PlaceShows(
    w: World, b: Basis, rows: seq<PublicRow>, updated: bool, ids: seq<Id>, d: Id)
    requires UniqueKeys(rows)
    requires Place(w, b, rows, updated, ids).Placed?
    ensures var rows' := Place(w, b, rows, updated, ids).rows;
            && UniqueKeys(rows')
            && (d in ids ==> !Expected(w, b, d).Refuse?)
            && (d in Shown(w, b, ids) ==> Matches(rows', d, Expected(w, b, d)))
            && (d !in Shown(w, b, ids) ==> SameEntry(rows, rows', d))
    decreases |ids|
  {
    if ids != [] {
      var e, v := ids[0], Expected(w, b, ids[0]);
      assert ids == [e] + ids[1..];
      if v.Show? {
        var next := Upsert(w, rows, e, v);
        UpsertPlaces(w, rows, e, v);
        PlaceShows(w, b, next, updated || Updates(rows, e, v), ids[1..], d);
        var rows' := Place(w, b, rows, updated, ids).rows;
        if d == e {
          if d !in Shown(w, b, ids[1..]) { SameEntryMatches(next, rows', d, v); }
        } else if d !in Shown(w, b, ids[1..]) {
          SameEntryChains(rows, next, rows', d);
        }
      } else {
        PlaceShows(w, b, rows, updated, ids[1..], d);
      }
    }
  }

  /** Decisions the store already says the right thing of can be left out of the loop. */
  lemma {:induction false} PlaceSkips(
    w: World, b: Basis, rows: seq<PublicRow>, updated: bool, ids: seq<Id>,
    keep: Id -> bool)
    requires UniqueKeys(rows)
    requires forall d | d in ids && !keep(d) :: Matches(rows, d, Expected(w, b, d))
    ensures Place(w, b, rows, updated, ids)
         == Place(w, b, rows, updated, Filter(ids, keep))
    decreases |ids|
  {
    if ids != [] {
      var e, v, rest := ids[0], Expected(w, b, ids[0]), ids[1..];
      if !keep(e) {
        if v.Show? { UpsertOfMatchIsNothing(w, rows, e, v); }
        PlaceSkips(w, b, rows, updated, rest, keep);
      } else {
        var kept := Filter(ids, keep);
        assert kept[0] == e && kept[1..] == Filter(rest, keep);
        if v.Hide? {
          PlaceSkips(w, b, rows, updated, rest, keep);
        } else if v.Show? {
          var next := Upsert(w, rows, e, v);
          UpsertPlaces(w, rows, e, v);
          forall d | d in rest && !keep(d)
            ensures Matches(next, d, Expected(w, b, d))
          {
            assert d in ids;
            SameEntryMatches(rows, next, d, Expected(w, b, d));
          }
          PlaceSkips(w, b, next, updated || Updates(rows, e, v), rest, keep);
        }
      }
    }
  }

  // ----- One publish -----

  /** Every decision outside the revisited ones is already as expected. */
  ghost predicate RestInSync(
    w: World, b: Basis, rows: seq<PublicRow>, revisited: Option<set<Id>>)
  {
    forall d | revisited.Some? && d !in revisited.value ::
      Matches(rows, d, Expected(w, b, d))
  }

  lemma SelectedAre(s: Source, revisited: Option<set<Id>>, d: Id)
    ensures d in Selected(s, revisited) <==>
            d in Decisions(s.rows) && (revisited.None? || d in revisited.value)
  {
  }

  lemma RowUndisturbed(rows: seq<PublicRow>, revisited: Option<set<Id>>, shown: set<Id>, d: Id)
    requires d in shown || (revisited.Some? && d !in revisited.value)
    ensures SameEntry(rows, Withdraw(rows, revisited, shown), d)
  {
  }

  /** A publish shows each decision that it looks at exactly as its view says now, or hides it, and
      leaves every other decision's entry alone. */
  lemma PublishingIsExact(
    w: World, s: Source, t: Target, c: Call, revisited: Option<set<Id>>, current: Checkpoint, d: Id)
    requires UniqueKeys(t.rows) && Publishing(w, s, t, c, revisited, current).Some?
    ensures var t' := Publishing(w, s, t, c, revisited, current).value;
            && UniqueKeys(t'.rows)
            && (if revisited.None? || d in revisited.value then Matches(t'.rows, d, Expected(w, BasisOf(s, c), d))
                else SameEntry(t.rows, t'.rows, d))
  {
    var ids := Selected(s, revisited);
    var shown := Shown(w, BasisOf(s, c), ids);
    var v := Expected(w, BasisOf(s, c), d);
    var placed := Place(w, BasisOf(s, c), t.rows, false, ids).rows;
    var rows' := Withdraw(placed, revisited, shown);
    PlaceShows(w, BasisOf(s, c), t.rows, false, ids, d);
    SelectedAre(s, revisited, d);
    if d in shown {
      RowUndisturbed(placed, revisited, shown, d);
      SameEntryMatches(placed, rows', d, v);
    } else if revisited.Some? && d !in revisited.value {
      RowUndisturbed(placed, revisited, shown, d);
      SameEntryChains(t.rows, placed, rows', d);
    } else {
      assert v == Hide;
    }
  }

  lemma SameCondemned(
    w: World, s: Source, t: Target, c: Call, stamped: set<Id>, placed: seq<PublicRow>, k: nat)
    requires UniqueKeys(t.rows) && RestInSync(w, BasisOf(s, c), t.rows, Some(stamped))
    requires Place(w, BasisOf(s, c), t.rows, false, Selected(s, Some(stamped))).Placed?
    requires placed == Place(w, BasisOf(s, c), t.rows, false, Selected(s, Some(stamped))).rows
    requires k < |placed|
    ensures Condemned(placed[k], None, Shown(w, BasisOf(s, c), Selected(s, None)))
        <==> Condemned(placed[k], Some(stamped), Shown(w, BasisOf(s, c), Selected(s, Some(stamped))))
  {
    var d := placed[k].key;
    var v := Expected(w, BasisOf(s, c), d);
    SelectedAre(s, None, d);
    SelectedAre(s, Some(stamped), d);
    if d !in stamped && d !in Shown(w, BasisOf(s, c), Selected(s, None)) {
      PlaceShows(w, BasisOf(s, c), t.rows, false, Selected(s, Some(stamped)), d);
      SameEntryMatches(t.rows, placed, d, v);
      assert v == Hide;
    }
  }

  /** Revisiting only the stamped decisions gives the very store that revisiting all of them gives. */
  lemma StampedEqualsAll(w: World, s: Source, t: Target, c: Call, stamped: set<Id>, current: Checkpoint)
    requires UniqueKeys(t.rows) && RestInSync(w, BasisOf(s, c), t.rows, Some(stamped))
    ensures Publishing(w, s, t, c, Some(stamped), current) == Publishing(w, s, t, c, None, current)
  {
    var all := Decisions(s.rows);
    PlaceSkips(w, BasisOf(s, c), t.rows, false, all, d => d in stamped);
    assert Selected(s, Some(stamped)) == Filter(all, d => d in stamped) by {
      FilterAgrees(all, d => d in stamped, d => d in Some(stamped).value);
    }
    var place := Place(w, BasisOf(s, c), t.rows, false, all);
    if place.Placed? {
      forall k: nat | k < |place.rows|
        ensures Condemned(place.rows[k], None, Shown(w, BasisOf(s, c), Selected(s, None)))
            <==> Condemned(place.rows[k], Some(stamped), Shown(w, BasisOf(s, c), Selected(s, Some(stamped))))
      {
        SameCondemned(w, s, t, c, stamped, place.rows, k);
      }
      SameWithdrawals(place.rows, None, Shown(w, BasisOf(s, c), Selected(s, None)),
                      Some(stamped), Shown(w, BasisOf(s, c), Selected(s, Some(stamped))));
    }
  }

  lemma SameWithdrawals(
    rows: seq<PublicRow>, r1: Option<set<Id>>, shown1: set<Id>, r2: Option<set<Id>>, shown2: set<Id>)
    requires forall k | 0 <= k < |rows| ::
               Condemned(rows[k], r1, shown1) <==> Condemned(rows[k], r2, shown2)
    ensures Withdraw(rows, r1, shown1) == Withdraw(rows, r2, shown2)
    ensures Withdraws(rows, r1, shown1) <==> Withdraws(rows, r2, shown2)
  {
  }

  /** With nothing to revisit, a publish only records its checkpoint. */
  lemma NothingStamped(w: World, s: Source, t: Target, c: Call, current: Checkpoint)
    ensures Publishing(w, s, t, c, Some({}), current) == Some(t.(checkpoint := Some(current)))
  {
    var ids := Selected(s, Some({}));
    FilterNone(Decisions(s.rows), d => d in Some({}).value);
    var shown := Shown(w, BasisOf(s, c), ids);
    assert Withdraw(t.rows, Some({}), shown) == t.rows;
  }

  lemma {:induction false} PlaceRefuses(w: World, b: Basis, rows: seq<PublicRow>, updated: bool, ids: seq<Id>)
    ensures Place(w, b, rows, updated, ids).Refused? <==> exists d | d in ids :: Expected(w, b, d).Refuse?
    decreases |ids|
  {
    if ids != [] {
      var e, v := ids[0], Expected(w, b, ids[0]);
      assert ids == [e] + ids[1..];
      if v.Show? {
        PlaceRefuses(w, b, Upsert(w, rows, e, v), updated || Updates(rows, e, v), ids[1..]);
      } else if v.Hide? {
        PlaceRefuses(w, b, rows, updated, ids[1..]);
      }
    }
  }

  /** Looking at more decisions cannot save a publish that is refused. */
  lemma RefusalSpreads(w: World, s: Source, t: Target, c: Call, stamped: set<Id>, current: Checkpoint)
    requires Publishing(w, s, t, c, Some(stamped), current).None?
    ensures Publishing(w, s, t, c, None, current).None?
  {
    var b := BasisOf(s, c);
    PlaceRefuses(w, b, t.rows, false, Selected(s, Some(stamped)));
    PlaceRefuses(w, b, t.rows, false, Selected(s, None));
    var d :| d in Selected(s, Some(stamped)) && Expected(w, b, d).Refuse?;
    assert d in Selected(s, None);
  }

  lemma MatchesDetermines(rows: seq<PublicRow>, d: Id, u: View, v: View)
    requires UniqueKeys(rows) && Matches(rows, d, u) && Matches(rows, d, v)
    ensures u == v
  {
  }

  /** Looking at only some decisions gives what looking at all of them gives if and only if it is refused
      too, or the store was already right about the others. */
  lemma SomeEqualsAllExactly(w: World, s: Source, t: Target, c: Call, stamped: set<Id>, current: Checkpoint)
    requires UniqueKeys(t.rows)
    ensures Publishing(w, s, t, c, Some(stamped), current) == Publishing(w, s, t, c, None, current)
        <==> || Publishing(w, s, t, c, Some(stamped), current).None?
             || RestInSync(w, BasisOf(s, c), t.rows, Some(stamped))
  {
    var part, all := Publishing(w, s, t, c, Some(stamped), current), Publishing(w, s, t, c, None, current);
    if part.None? {
      RefusalSpreads(w, s, t, c, stamped, current);
    } else if RestInSync(w, BasisOf(s, c), t.rows, Some(stamped)) {
      StampedEqualsAll(w, s, t, c, stamped, current);
    } else if all.Some? {
      var d :| d !in stamped && !Matches(t.rows, d, Expected(w, BasisOf(s, c), d));
      PublishingIsExact(w, s, t, c, None, current, d);
      PublishingIsExact(w, s, t, c, Some(stamped), current, d);
      SameEntryMatches(t.rows, part.value.rows, d, Expected(w, BasisOf(s, c), d));
    }
  }

  /** A publish, early return or not, is one that looks at the decisions it visits. */
  lemma PublishVisits(w: World, s: Source, id: Id, t: Target, c: Call)
    ensures Publish(w, s, id, t, c) == Publishing(w, s, t, c, Visited(s, id, t, c), CheckpointOf(s, id, c))
  {
    var current := CheckpointOf(s, id, c);
    if !c.rebuild && t.checkpoint.Some? && Quiet(t.checkpoint.value, current) {
      NothingStamped(w, s, t, c, current);
      assert t.checkpoint == Some(current) ==> t == t.(checkpoint := Some(current));
    }
  }

  lemma RebuildVisitsAll(w: World, s: Source, id: Id, t: Target, c: Call)
    ensures Publish(w, s, id, t, c.(rebuild := true)) == Publishing(w, s, t, c, None, CheckpointOf(s, id, c))
  {
    assert BasisOf(s, c.(rebuild := true)) == BasisOf(s, c);
  }

  // ----- Whole runs, over any number of sources -----

  /** What a decision was last looked at with, and the accounting counter of its source then. */
  datatype Visit = Visit(aside: Aside, performance: nat)

  datatype State = State(sources: map<Id, Source>, store: Target, seen: Id -> Visit)

  datatype Op = Wrote(source: Id, write: Write) | Ran(source: Id, call: Call) | Revoked(publicId: Id)

  function VisitOf(s: Source, c: Call): Visit {
    Visit(AsideOf(s.rows, c), s.performance)
  }

  function Seeing(s: Source, id: Id, t: Target, seen: Id -> Visit, c: Call): Id -> Visit {
    d => if PassedOver(s, id, t, c, d) then seen(d) else VisitOf(s, c)
  }

  function Step(w: World, st: State, op: Op): State {
    match op
    case Wrote(id, write) =>
      if id in st.sources then st.(sources := st.sources[id := Apply(st.sources[id], write)]) else st
    case Ran(id, call) =>
      if id in st.sources && Publish(w, st.sources[id], id, st.store, call).Some? then
        State(st.sources, Publish(w, st.sources[id], id, st.store, call).value,
              Seeing(st.sources[id], id, st.store, st.seen, call))
      else st
    case Revoked(p) => st.(store := Revoke(st.store, p))
  }

  /** The basis of a publish, but with the aside that a decision was last looked at with. */
  function AsSeen(b: Basis, v: Visit): Basis {
    b.(aside := v.aside)
  }

  /** Everything not marked since the checkpoint is in the store as the checkpoint's configuration would
      show it from its own rows now and from the aside it was last looked at with. */
  ghost predicate InSync(w: World, s: Source, t: Target, seen: Id -> Visit, cp: Checkpoint) {
    && cp.details <= s.details
    && (forall d | !Marked(s, d, cp.details) ::
          Matches(t.rows, d, Expected(w, Basis(cp.config, s.rows, seen(d).aside), d)))
  }

  /** While the accounting counter stands, the accounts are those of the visit. */
  ghost predicate Accounted(s: Source, v: Visit) {
    && v.performance <= s.performance
    && (v.performance == s.performance ==> v.aside.accounts == Filter(s.rows, IsAccount()))
  }

  ghost predicate SyncInv(w: World, s: Source, t: Target, seen: Id -> Visit, cp: Checkpoint) {
    InSync(w, s, t, seen, cp) && forall d :: Accounted(s, seen(d))
  }

  ghost predicate Inv(w: World, st: State) {
    && UniqueKeys(st.store.rows)
    && (forall id | id in st.sources :: Sound(st.sources[id]))
    && (st.store.checkpoint.Some? ==>
          && st.store.checkpoint.value.source in st.sources
          && SyncInv(w, st.sources[st.store.checkpoint.value.source], st.store, st.seen,
                     st.store.checkpoint.value))
  }

  lemma WriteKeepsSync(w: World, s: Source, t: Target, seen: Id -> Visit, cp: Checkpoint, write: Write)
    requires Sound(s) && KeepsRows(s, write) && InSync(w, s, t, seen, cp)
    ensures InSync(w, Apply(s, write), t, seen, cp)
  {
    var s' := Apply(s, write);
    WriteAdvances(s, write);
    forall d | !Marked(s', d, cp.details)
      ensures Matches(t.rows, d, Expected(w, Basis(cp.config, s'.rows, seen(d).aside), d))
    {
      WriteStampsOrSpares(s, write, d);
      assert !Marked(s, d, cp.details);
    }
  }

  lemma AccountsUnmoved(s: Source, c: Change, r: Row)
    requires s.rows == c.Old() && (forall q | q in c.gone + c.added :: q.table == r.table)
    ensures Fire(s, c.New(), r).performance == s.performance ==>
              Filter(c.New(), IsAccount()) == Filter(s.rows, IsAccount())
  {
    if Fire(s, c.New(), r).performance == s.performance { FilterSkips(c, IsAccount()); }
  }

  /** A write that leaves the accounting counter leaves the accounts. */
  lemma AccountsMoveTheCounter(s: Source, write: Write)
    ensures Apply(s, write).performance == s.performance ==>
              Filter(Apply(s, write).rows, IsAccount()) == Filter(s.rows, IsAccount())
  {
    match write
    case Insert(r) =>
      var c := Change(s.rows, [], [r], []);
      assert c.Old() == s.rows && c.New() == s.rows + [r];
      AccountsUnmoved(s, c, r);
    case Replace(i, r) =>
      if i < |s.rows| && r.table == s.rows[i].table {
        ReplaceIsChange(s.rows, i, r);
        AccountsUnmoved(s, ReplaceAt(s.rows, i, r), r);
      }
    case Delete(i) =>
      if i < |s.rows| {
        var c := Change(s.rows[..i], [s.rows[i]], [], s.rows[i + 1..]);
        assert c.Old() == s.rows && c.New() == s.rows[..i] + s.rows[i + 1..];
        AccountsUnmoved(s, c, s.rows[i]);
      }
  }

  lemma WriteKeepsAccounted(s: Source, v: Visit, write: Write)
    requires Sound(s) && Accounted(s, v)
    ensures Accounted(Apply(s, write), v)
  {
    WriteAdvances(s, write);
    AccountsMoveTheCounter(s, write);
  }

  /** What a publish passes over is shown as it was last looked at. */
  lemma PassedOverMatches(w: World, st: State, id: Id, c: Call, d: Id)
    requires Inv(w, st) && id in st.sources && PassedOver(st.sources[id], id, st.store, c, d)
    ensures Matches(st.store.rows, d, Expected(w, AsSeen(BasisOf(st.sources[id], c), st.seen(d)), d))
    ensures Accounted(st.sources[id], st.seen(d))
  {
    var s, cp := st.sources[id], st.store.checkpoint.value;
    assert cp.source == id && cp.config == c.config;
    assert !Marked(s, d, cp.details);
    assert AsSeen(BasisOf(s, c), st.seen(d)) == Basis(cp.config, s.rows, st.seen(d).aside);
  }

  /** No decision that the publish passes over would look different with the aside as it is now. */
  ghost predicate ViewsHold(w: World, st: State, id: Id, c: Call)
    requires id in st.sources
  {
    var s := st.sources[id];
    forall d | PassedOver(s, id, st.store, c, d) ::
      Expected(w, AsSeen(BasisOf(s, c), st.seen(d)), d) == Expected(w, BasisOf(s, c), d)
  }

  lemma RestInSyncIffViewsHold(w: World, st: State, id: Id, c: Call)
    requires Inv(w, st) && id in st.sources
    ensures RestInSync(w, BasisOf(st.sources[id], c), st.store.rows, Visited(st.sources[id], id, st.store, c))
       <==> ViewsHold(w, st, id, c)
  {
    var s, t := st.sources[id], st.store;
    forall d | PassedOver(s, id, t, c, d)
      ensures Matches(t.rows, d, Expected(w, BasisOf(s, c), d))
         <==> Expected(w, AsSeen(BasisOf(s, c), st.seen(d)), d) == Expected(w, BasisOf(s, c), d)
    {
      PassedOverMatches(w, st, id, c, d);
      if Matches(t.rows, d, Expected(w, BasisOf(s, c), d)) {
        MatchesDetermines(t.rows, d, Expected(w, AsSeen(BasisOf(s, c), st.seen(d)), d),
                          Expected(w, BasisOf(s, c), d));
      }
    }
  }

  /** Some decision that the publish selects is one whose view refuses. */
  ghost predicate SelectsRefusal(w: World, s: Source, id: Id, t: Target, c: Call) {
    exists d | d in Selected(s, Visited(s, id, t, c)) :: Expected(w, BasisOf(s, c), d).Refuse?
  }

  lemma RefusedExactly(w: World, s: Source, id: Id, t: Target, c: Call)
    ensures Publish(w, s, id, t, c).None? <==> SelectsRefusal(w, s, id, t, c)
  {
    PublishVisits(w, s, id, t, c);
    PlaceRefuses(w, BasisOf(s, c), t.rows, false, Selected(s, Visited(s, id, t, c)));
  }

  /** In every reachable state, a publish that may skip unchanged decisions, return early or rebuild does
      exactly what a full rebuild would, the same rows in the same sequence with the same identifiers,
      the same revision and checkpoint, if and only if it selects a decision whose view refuses, so that
      both are refused, or no decision it passes over would look different with the aside as it is now. */
  lemma PartialEqualsRebuildExactly(w: World, st: State, id: Id, c: Call)
    requires Inv(w, st) && id in st.sources
    ensures Publish(w, st.sources[id], id, st.store, c)
         == Publish(w, st.sources[id], id, st.store, c.(rebuild := true))
        <==> SelectsRefusal(w, st.sources[id], id, st.store, c) || ViewsHold(w, st, id, c)
  {
    var s, t := st.sources[id], st.store;
    RefusedExactly(w, s, id, t, c);
    PublishVisits(w, s, id, t, c);
    RebuildVisitsAll(w, s, id, t, c);
    RestInSyncIffViewsHold(w, st, id, c);
    var visited := Visited(s, id, t, c);
    if visited.Some? { SomeEqualsAllExactly(w, s, t, c, visited.value, CheckpointOf(s, id, c)); }
  }

  /** After a publish every decision is shown exactly as its own rows say now, with the aside that it was
      last looked at with, or hidden. */
  lemma PublishShows(w: World, st: State, id: Id, c: Call, d: Id)
    requires Inv(w, st) && id in st.sources
    requires Publish(w, st.sources[id], id, st.store, c).Some?
    ensures var s := st.sources[id];
            var t' := Publish(w, s, id, st.store, c).value;
            && UniqueKeys(t'.rows)
            && Matches(t'.rows, d, Expected(w, AsSeen(BasisOf(s, c), Seeing(s, id, st.store, st.seen, c)(d)), d))
            && Accounted(s, Seeing(s, id, st.store, st.seen, c)(d))
  {
    var s, t, current := st.sources[id], st.store, CheckpointOf(st.sources[id], id, c);
    PublishVisits(w, s, id, t, c);
    PublishingIsExact(w, s, t, c, Visited(s, id, t, c), current, d);
    var t' := Publish(w, s, id, t, c).value;
    if PassedOver(s, id, t, c, d) {
      PassedOverMatches(w, st, id, c, d);
      SameEntryMatches(t.rows, t'.rows, d, Expected(w, AsSeen(BasisOf(s, c), st.seen(d)), d));
    } else {
      assert AsSeen(BasisOf(s, c), VisitOf(s, c)) == BasisOf(s, c);
    }
  }

  lemma PublishRecordsCheckpoint(w: World, s: Source, id: Id, t: Target, c: Call)
    requires Publish(w, s, id, t, c).Some?
    ensures Publish(w, s, id, t, c).value.checkpoint == Some(CheckpointOf(s, id, c))
  {
  }

  lemma PublishKeepsInv(w: World, st: State, id: Id, c: Call)
    requires Inv(w, st) && id in st.sources
    requires Publish(w, st.sources[id], id, st.store, c).Some?
    ensures Inv(w, Step(w, st, Ran(id, c)))
  {
    var s := st.sources[id];
    var t', seen' := Publish(w, s, id, st.store, c).value, Seeing(s, id, st.store, st.seen, c);
    PublishRecordsCheckpoint(w, s, id, st.store, c);
    forall d
      ensures UniqueKeys(t'.rows) && Accounted(s, seen'(d))
      ensures Matches(t'.rows, d, Expected(w, Basis(c.config, s.rows, seen'(d).aside), d))
    {
      PublishShows(w, st, id, c, d);
      assert AsSeen(BasisOf(s, c), seen'(d)) == Basis(c.config, s.rows, seen'(d).aside);
    }
  }

  lemma RevokeKeepsEntries(t: Target, p: Id, d: Id, v: View)
    requires UniqueKeys(t.rows)
    ensures UniqueKeys(Revoke(t, p).rows)
    ensures Matches(t.rows, d, v) ==> Matches(Revoke(t, p).rows, d, v)
  {
    var rows' := Revoke(t, p).rows;
    if v.Show? && Matches(t.rows, d, v) {
      var i :| 0 <= i < |t.rows| && t.rows[i].key == d && Says(t.rows[i], v.content, v.failedRules);
      assert Says(rows'[i], v.content, v.failedRules);
    }
  }

  /** The operation is not an update that takes a row away from a decision that it does not stamp. */
  ghost predicate OpKeepsRows(st: State, op: Op) {
    op.Wrote? && op.source in st.sources ==> KeepsRows(st.sources[op.source], op.write)
  }

  lemma StepKeepsInv(w: World, st: State, op: Op)
    requires Inv(w, st) && OpKeepsRows(st, op)
    ensures Inv(w, Step(w, st, op))
  {
    match op
    case Wrote(id, write) =>
      if id in st.sources { WroteKeepsInv(w, st, id, write); }
    case Ran(id, c) =>
      if id in st.sources && Publish(w, st.sources[id], id, st.store, c).Some? {
        PublishKeepsInv(w, st, id, c);
      }
    case Revoked(p) =>
      var t' := Revoke(st.store, p);
      forall d, v ensures UniqueKeys(t'.rows) && (Matches(st.store.rows, d, v) ==> Matches(t'.rows, d, v)) {
        RevokeKeepsEntries(st.store, p, d, v);
      }
  }

  lemma WroteKeepsInv(w: World, st: State, id: Id, write: Write)
    requires Inv(w, st) && id in st.sources && KeepsRows(st.sources[id], write)
    ensures Inv(w, st.(sources := st.sources[id := Apply(st.sources[id], write)]))
  {
    var s := st.sources[id];
    WriteAdvances(s, write);
    if st.store.checkpoint.Some? && st.store.checkpoint.value.source == id {
      WriteKeepsSync(w, s, st.store, st.seen, st.store.checkpoint.value, write);
      forall d ensures Accounted(Apply(s, write), st.seen(d)) {
        WriteKeepsAccounted(s, st.seen(d), write);
      }
    }
  }

  function Run(w: World, st: State, ops: seq<Op>): State
    decreases |ops|
  {
    if ops == [] then st else Run(w, Step(w, st, ops[0]), ops[1..])
  }

  ghost predicate AllKeepRows(w: World, st: State, ops: seq<Op>)
    decreases |ops|
  {
    ops == [] || (OpKeepsRows(st, ops[0]) && AllKeepRows(w, Step(w, st, ops[0]), ops[1..]))
  }

  lemma {:induction false} RunKeepsInv(w: World, st: State, ops: seq<Op>)
    requires Inv(w, st) && AllKeepRows(w, st, ops)
    ensures Inv(w, Run(w, st, ops)) && Run(w, st, ops).sources.Keys == st.sources.Keys
    decreases |ops|
  {
    if ops != [] {
      StepKeepsInv(w, st, ops[0]);
      RunKeepsInv(w, Step(w, st, ops[0]), ops[1..]);
    }
  }

  /** Every update of the run leaves the columns that name a decision, an intent or a run as they were. */
  ghost predicate AllStableKeys(w: World, st: State, ops: seq<Op>)
    decreases |ops|
  {
    ops != [] ==>
      && (ops[0].Wrote? && ops[0].source in st.sources ==>
            StableKeys(st.sources[ops[0].source], ops[0].write))
      && AllStableKeys(w, Step(w, st, ops[0]), ops[1..])
  }

  /** Such runs take no row away. */
  lemma {:induction false} StableKeysKeepRows(w: World, st: State, ops: seq<Op>)
    requires AllStableKeys(w, st, ops)
    ensures AllKeepRows(w, st, ops)
    decreases |ops|
  {
    if ops != [] {
      var op := ops[0];
      if op.Wrote? && op.source in st.sources && op.write.Replace? && op.write.at < |st.sources[op.source].rows|
         && op.write.row.table == st.sources[op.source].rows[op.write.at].table
      {
        SameKeysKeepRows(st.sources[op.source], op.write.at, op.write.row);
      }
      StableKeysKeepRows(w, Step(w, st, op), ops[1..]);
    }
  }

  const EMPTY_SOURCE := Source([], 0, 0, 0, map[], 0)

  /** Empty stores, before anything was looked at. */
  function Opening(ids: set<Id>): State {
    State(map i | i in ids :: EMPTY_SOURCE, Target([], 0, None), _ => Visit(Aside([], [], 0, 0), 0))
  }

  // ----- When a publish is a rebuild -----

  /** The decision's content never depends on the aside. */
  ghost predicate Indifferent(w: World, d: Id) {
    forall config, slice, a: Aside, a': Aside :: w.project(config, d, slice, a) == w.project(config, d, slice, a')
  }

  /** Of the aside, the decision's content depends on the accounts, the accounting clock, and whatever
      else `evidence` sums up: its own attempt, say, or its trigger's post. */
  ghost predicate ReadsAccounts(w: World, evidence: (Id, Aside) -> int, d: Id) {
    forall config, slice, a: Aside, a': Aside
      | a.accounts == a'.accounts && a.clock == a'.clock && evidence(d, a) == evidence(d, a') ::
      w.project(config, d, slice, a) == w.project(config, d, slice, a')
  }

  /** What the decision reads of the aside stands as it was last looked at: its evidence, and the accounts
      by two numbers of the checkpoint, the accounting counter and the accounting clock. */
  ghost predicate Steady(w: World, evidence: (Id, Aside) -> int, s: Source, v: Visit, c: Call, d: Id) {
    || Indifferent(w, d)
    || (ReadsAccounts(w, evidence, d) && v.performance == s.performance && v.aside.clock == c.clock
        && evidence(d, v.aside) == evidence(d, AsideOf(s.rows, c)))
  }

  lemma SteadyViewsHold(w: World, evidence: (Id, Aside) -> int, st: State, id: Id, c: Call)
    requires Inv(w, st) && id in st.sources
    requires var s := st.sources[id];
             forall d | PassedOver(s, id, st.store, c, d) :: Steady(w, evidence, s, st.seen(d), c, d)
    ensures ViewsHold(w, st, id, c)
  {
    var s := st.sources[id];
    forall d | PassedOver(s, id, st.store, c, d)
      ensures Expected(w, AsSeen(BasisOf(s, c), st.seen(d)), d) == Expected(w, BasisOf(s, c), d)
    {
      PassedOverMatches(w, st, id, c, d);
      assert w.project(c.config, d, Slice(s.rows, d), st.seen(d).aside)
          == w.project(c.config, d, Slice(s.rows, d), AsideOf(s.rows, c));
    }
  }

  /** From empty stores, after any interleaving of writes that take no row away unseen, publishes of any
      source under any configuration, clock and instant, refused or not, and revocations: the next
      publish does what a full rebuild would exactly when it selects a refusal or no decision it passes over
      would look different with the aside as it is now, so in particular when each of those reads
      nothing of the aside, or accounts whose counter and clock have stood still since it was last
      looked at and evidence that has; and it leaves every decision shown exactly as its own rows now say. */
  lemma EveryPublishIsARebuild(
    w: World, evidence: (Id, Aside) -> int, ids: set<Id>, ops: seq<Op>, id: Id, c: Call)
    requires id in ids && AllKeepRows(w, Opening(ids), ops)
    ensures var st := Run(w, Opening(ids), ops);
            && id in st.sources
            && var s, r := st.sources[id], Publish(w, st.sources[id], id, st.store, c);
            && (r == Publish(w, s, id, st.store, c.(rebuild := true)) 
                <==> SelectsRefusal(w, s, id, st.store, c) || ViewsHold(w, st, id, c))
            && ((forall d | PassedOver(s, id, st.store, c, d) :: Steady(w, evidence, s, st.seen(d), c, d)) ==>
                  r == Publish(w, s, id, st.store, c.(rebuild := true)))
            && (r.Some? ==>
                  forall d :: Matches(r.value.rows, d, Expected(w,
                                        AsSeen(BasisOf(s, c), Seeing(s, id, st.store, st.seen, c)(d)), d)))
  {
    assert Inv(w, Opening(ids));
    RunKeepsInv(w, Opening(ids), ops);
    var st := Run(w, Opening(ids), ops);
    var s := st.sources[id];
    PartialEqualsRebuildExactly(w, st, id, c);
    if forall d | PassedOver(s, id, st.store, c, d) :: Steady(w, evidence, s, st.seen(d), c, d) {
      SteadyViewsHold(w, evidence, st, id, c);
    }
    if Publish(w, s, id, st.store, c).Some? {
      forall d
        ensures Matches(Publish(w, s, id, st.store, c).value.rows, d,
                        Expected(w, AsSeen(BasisOf(s, c), Seeing(s, id, st.store, st.seen, c)(d)), d))
      {
        PublishShows(w, st, id, c, d);
      }
    }
  }

  // ----- For every projection at once -----

  function WithRows(st: State, rows: seq<PublicRow>): State {
    st.(store := st.store.(rows := rows))
  }

  ghost predicate PartialIsFull(w: World, st: State, id: Id, c: Call) {
    id in st.sources
    && Publish(w, st.sources[id], id, st.store, c) == Publish(w, st.sources[id], id, st.store, c.(rebuild := true))
  }

  /** Every decision that is passed over was last looked at with the aside as it is now. */
  ghost predicate AsidesStand(st: State, id: Id, c: Call)
    requires id in st.sources
  {
    var s := st.sources[id];
    forall d | d in Decisions(s.rows) && PassedOver(s, id, st.store, c, d) :: st.seen(d).aside == AsideOf(s.rows, c)
  }

  lemma StandingAsidesSuffice(w: World, st: State, id: Id, c: Call)
    requires Inv(w, st) && id in st.sources && AsidesStand(st, id, c)
    ensures PartialIsFull(w, st, id, c)
  {
    var s := st.sources[id];
    forall d | PassedOver(s, id, st.store, c, d)
      ensures Expected(w, AsSeen(BasisOf(s, c), st.seen(d)), d) == Expected(w, BasisOf(s, c), d)
    {
    }
    PartialEqualsRebuildExactly(w, st, id, c);
  }

  function Body(body: int): View {
    Show(Content("paper", 0, "A", "BUY", "approved", "paper_filled", "", {}, body), {})
  }

  /** A projection that shows one decision, and of its aside whether it is `now`. */
  function TellTale(d: Id, now: Aside): World {
    World((config: int, e: Id, slice: seq<Row>, a: Aside) =>
            if e != d then Hide else if a == now then Body(1) else Body(0), n => n)
  }

  /** What the store says when that decision was last looked at with another aside. */
  function ToldBefore(d: Id): seq<PublicRow> {
    [PublicRow(d, 0, Body(0).content, {}, false, false)]
  }

  lemma TellTaleMatches(s: Source, b: Basis, d: Id, e: Id, now: Aside)
    requires d in Decisions(b.rows) && (e == d ==> b.aside != now)
    ensures Matches(ToldBefore(d), e, Expected(TellTale(d, now), b, e))
  {
    if e == d { assert Says(ToldBefore(d)[0], Body(0).content, {}); }
  }

  lemma TellTaleIsConsistent(w: World, st: State, id: Id, c: Call, d: Id)
    requires Inv(w, st) && id in st.sources && PassedOver(st.sources[id], id, st.store, c, d)
    requires d in Decisions(st.sources[id].rows) && st.seen(d).aside != AsideOf(st.sources[id].rows, c)
    ensures Inv(TellTale(d, AsideOf(st.sources[id].rows, c)), WithRows(st, ToldBefore(d)))
  {
    var s, cp := st.sources[id], st.store.checkpoint.value;
    var now := AsideOf(s.rows, c);
    assert cp.source == id;
    forall e | !Marked(s, e, cp.details)
      ensures Matches(ToldBefore(d), e, Expected(TellTale(d, now), Basis(cp.config, s.rows, st.seen(e).aside), e))
    {
      TellTaleMatches(s, Basis(cp.config, s.rows, st.seen(e).aside), d, e, now);
    }
    assert SyncInv(w, s, st.store, st.seen, cp);
  }

  lemma TellTaleTells(w: World, st: State, id: Id, c: Call, d: Id)
    requires Inv(w, st) && id in st.sources && PassedOver(st.sources[id], id, st.store, c, d)
    requires d in Decisions(st.sources[id].rows) && st.seen(d).aside != AsideOf(st.sources[id].rows, c)
    ensures !PartialIsFull(TellTale(d, AsideOf(st.sources[id].rows, c)), WithRows(st, ToldBefore(d)), id, c)
  {
    var s := st.sources[id];
    var tale, told := TellTale(d, AsideOf(s.rows, c)), WithRows(st, ToldBefore(d));
    TellTaleIsConsistent(w, st, id, c, d);
    PartialEqualsRebuildExactly(tale, told, id, c);
    assert PassedOver(s, id, told.store, c, d);
    assert Expected(tale, AsSeen(BasisOf(s, c), st.seen(d)), d) == Body(0);
    assert Expected(tale, BasisOf(s, c), d) == Body(1);
  }

  /** On data alone: with these sources, this checkpoint and these visits, a publish equals a rebuild for
      every projection and every store consistent with them if and only if each decision that is passed
      over was last looked at with the aside as it is now. */
  lemma EveryProjectionExactly(w: World, st: State, id: Id, c: Call)
    requires Inv(w, st) && id in st.sources
    ensures (forall v: World, rows | Inv(v, WithRows(st, rows)) :: PartialIsFull(v, WithRows(st, rows), id, c))
       <==> AsidesStand(st, id, c)
  {
    if AsidesStand(st, id, c) {
      forall v: World, rows | Inv(v, WithRows(st, rows)) ensures PartialIsFull(v, WithRows(st, rows), id, c) {
        StandingAsidesSuffice(v, WithRows(st, rows), id, c);
      }
    } else {
      var s := st.sources[id];
      var d :| d in Decisions(s.rows) && PassedOver(s, id, st.store, c, d) && st.seen(d).aside != AsideOf(s.rows, c);
      TellTaleIsConsistent(w, st, id, c, d);
      TellTaleTells(w, st, id, c, d);
    }
  }

  // ----- When it is not -----

  lemma UnmarkedIsPassedOver(s: Source, id: Id, t: Target, c: Call, d: Id)
    requires !c.rebuild && t.checkpoint.Some? && SameConfiguration(t.checkpoint.value, CheckpointOf(s, id, c))
    requires !Marked(s, d, t.checkpoint.value.details)
    ensures PassedOver(s, id, t, c, d)
  {
  }

  /** Right after a publish, a write to a table outside the details marks no decision, so that a publish
      under the same configuration passes over every one of them. */
  lemma OutsideDetailsIsPassedOver(s: Source, id: Id, t: Target, c: Call, write: Write, d: Id)
    requires Sound(s) && !c.rebuild && t.checkpoint == Some(CheckpointOf(s, id, c))
    requires match write
             case Insert(r) => !InDetails(r.table)
             case Replace(i, r) => !InDetails(r.table)
             case Delete(i) => i < |s.rows| ==> !InDetails(s.rows[i].table)
    ensures PassedOver(Apply(s, write), id, t, c, d)
  {
    var s' := Apply(s, write);
    WriteAdvances(s, write);
    assert s'.details == s.details && s'.marker == s.marker && s'.stamps == s.stamps;
    UnmarkedIsPassedOver(s', id, t, c, d);
  }

  /** So is a decision that an update takes a row away from. */
  lemma LeavingIsPassedOver(s: Source, id: Id, t: Target, c: Call, i: nat, r: Row, d: Id)
    requires i < |s.rows| && r.table == s.rows[i].table && Sound(s) && Leaves(s, i, r, d)
    requires !c.rebuild && t.checkpoint == Some(CheckpointOf(s, id, c))
    ensures var s' := Apply(s, Replace(i, r));
            PassedOver(s', id, t, c, d) && |Slice(s'.rows, d)| < |Slice(s.rows, d)|
  {
    WriteAdvances(s, Replace(i, r));
    LeavingIsMissed(s, i, r, d);
    UnmarkedIsPassedOver(Apply(s, Replace(i, r)), id, t, c, d);
  }

  // ----- A paper account, rebuilt from its fills -----

  /** The columns that the rebuilt account looks at, and which days have a session. */
  datatype Columns = Columns(ticker: Row -> string, day: Row -> int, session: int -> bool)

  /** The row's day is one that the account is valued on: a fill's, or that of a bar of a ticker it has
      ever filled, from its first fill on. */
  predicate Valued(k: Columns, accounts: seq<Row>, r: Row) {
    || r.table == PaperFills
    || (r.table == DailyPrices
        && (exists f | f in accounts :: f.table == PaperFills && k.ticker(f) == k.ticker(r))
        && (exists f | f in accounts :: f.table == PaperFills && k.day(f) <= k.day(r)))
  }

  /** One such day without a session, and the whole account counts as not rebuilt. */
  predicate Rebuildable(k: Columns, accounts: seq<Row>) {
    forall r | r in accounts && Valued(k, accounts, r) :: k.session(k.day(r))
  }

  predicate HasFill(slice: seq<Row>, accounts: seq<Row>, d: Id) {
    exists q, f | q in slice && f in accounts ::
      q.table == OrderIntents && q.decision == d && f.table == PaperFills && f.intent == q.intent
  }

  function Executed(recorded: bool): View {
    Body(if recorded then 1 else 0)
  }

  /** A paper decision's execution is recorded if it has a fill and the account can be rebuilt. */
  function PaperWorld(k: Columns, names: nat -> Id): World {
    World((config: int, d: Id, slice: seq<Row>, aside: Aside) =>
            Executed(HasFill(slice, aside.accounts, d) && Rebuildable(k, aside.accounts)), names)
  }

  lemma PaperNeverRefuses(k: Columns, names: nat -> Id)
    ensures forall config, d, slice, a: Aside :: !PaperWorld(k, names).project(config, d, slice, a).Refuse?
  {
    forall config, d, slice, a: Aside ensures !PaperWorld(k, names).project(config, d, slice, a).Refuse? {
      assert PaperWorld(k, names).project(config, d, slice, a)
          == Executed(HasFill(slice, a.accounts, d) && Rebuildable(k, a.accounts));
    }
  }

  /** A decision, its order intent and the fill of that. */
  datatype Trade = Trade(decision: Row, intent: Row, fill: Row)
  {
    predicate Valid(k: Columns) {
      && decision.table == DecisionRecords && intent.table == OrderIntents && fill.table == PaperFills
      && intent.decision == decision.decision && fill.intent == intent.intent && k.session(k.day(fill))
    }

    function Rows(): seq<Row> {
      [decision, intent, fill]
    }
  }

  /** The bar's day is valued and has no session. */
  predicate Blocks(k: Columns, t: Trade, bar: Row) {
    k.ticker(bar) == k.ticker(t.fill) && k.day(t.fill) <= k.day(bar) && !k.session(k.day(bar))
  }

  function Inserts(id: Id, rows: seq<Row>): seq<Op> {
    seq(|rows|, i requires 0 <= i < |rows| => Wrote(id, Insert(rows[i])))
  }

  lemma InsertAppends(w: World, st: State, id: Id, r: Row)
    requires Inv(w, st) && id in st.sources
    ensures var st' := Step(w, st, Wrote(id, Insert(r)));
            && Inv(w, st') && id in st'.sources && st'.sources[id].rows == st.sources[id].rows + [r]
            && st'.store == st.store && st'.seen == st.seen
  {
    StepKeepsInv(w, st, Wrote(id, Insert(r)));
  }

  lemma InsertsAreOneByOne(id: Id, rows: seq<Row>, rest: seq<Op>)
    requires rows != []
    ensures (Inserts(id, rows) + rest)[0] == Wrote(id, Insert(rows[0]))
    ensures (Inserts(id, rows) + rest)[1..] == Inserts(id, rows[1..]) + rest
  {
  }

  lemma {:induction false} InsertsAppend(w: World, st: State, id: Id, rows: seq<Row>, rest: seq<Op>)
    returns (st': State)
    requires Inv(w, st) && id in st.sources
    ensures Run(w, st, Inserts(id, rows) + rest) == Run(w, st', rest)
    ensures Inv(w, st') && id in st'.sources && st'.sources[id].rows == st.sources[id].rows + rows
    ensures st'.store == st.store && st'.seen == st.seen
    decreases |rows|
  {
    if rows == [] {
      assert Inserts(id, rows) + rest == rest;
      st' := st;
    } else {
      InsertsAreOneByOne(id, rows, rest);
      InsertAppends(w, st, id, rows[0]);
      st' := InsertsAppend(w, Step(w, st, Wrote(id, Insert(rows[0]))), id, rows[1..], rest);
      assert st.sources[id].rows + [rows[0]] + rows[1..] == st.sources[id].rows + rows;
    }
  }

  /** A world that refuses nothing publishes. */
  lemma NothingRefused(w: World, s: Source, id: Id, t: Target, c: Call)
    requires forall config, d, slice, a: Aside :: !w.project(config, d, slice, a).Refuse?
    ensures Publish(w, s, id, t, c).Some?
  {
    RefusedExactly(w, s, id, t, c);
  }

  lemma AccountsOfTrade(t: Trade, k: Columns, bar: Row)
    requires t.Valid(k) && bar.table == DailyPrices
    ensures Filter(t.Rows(), IsAccount()) == [t.intent, t.fill]
    ensures Filter(t.Rows() + [bar], IsAccount()) == [t.intent, t.fill, bar]
    ensures t.decision.decision in Decisions(t.Rows()) && t.decision.decision in Decisions(t.Rows() + [bar])
  {
    assert t.Rows()[1..] == [t.intent, t.fill] && [t.intent, t.fill][1..] == [t.fill] && [t.fill][1..] == [];
    assert Filter([t.fill], IsAccount()) == [t.fill];
    assert Filter([t.intent, t.fill], IsAccount()) == [t.intent] + [t.fill];
    FilterConcat(t.Rows(), [bar], IsAccount());
    assert [bar][1..] == [] && Filter([bar], IsAccount()) == [bar];
    assert t.Rows()[0] in t.Rows() && t.Rows()[0] in t.Rows() + [bar];
    DecisionsMembers(t.Rows(), t.decision.decision);
    DecisionsMembers(t.Rows() + [bar], t.decision.decision);
  }

  /** The account of one trade, and with a bar after it. */
  lemma WhenRebuildable(t: Trade, k: Columns, bar: Row)
    requires t.Valid(k) && bar.table == DailyPrices
    ensures Rebuildable(k, [t.intent, t.fill])
    ensures Rebuildable(k, [t.intent, t.fill, bar]) <==> !Blocks(k, t, bar)
  {
    var accounts := [t.intent, t.fill, bar];
    assert bar in accounts && t.fill in accounts;
    assert Valued(k, accounts, bar) <==> k.ticker(bar) == k.ticker(t.fill) && k.day(t.fill) <= k.day(bar) by {
      assert forall f | f in accounts && f.table == PaperFills :: f == t.fill;
    }
  }

  lemma TradeIsFilled(t: Trade, k: Columns, slice: seq<Row>, accounts: seq<Row>)
    requires t.Valid(k) && t.intent in slice && t.fill in accounts
    ensures HasFill(slice, accounts, t.decision.decision)
  {
  }

  lemma IntentIsRead(t: Trade, k: Columns, rows: seq<Row>)
    requires t.Valid(k) && t.intent in rows
    ensures t.intent in Slice(rows, t.decision.decision)
  {
  }

  lemma TradeView(w: World, k: Columns, t: Trade, b: Basis)
    requires w == PaperWorld(k, w.names) && t.Valid(k) && t.intent in b.rows && t.fill in b.aside.accounts
    requires t.decision.decision in Decisions(b.rows)
    ensures Expected(w, b, t.decision.decision) == Executed(Rebuildable(k, b.aside.accounts))
  {
    var d := t.decision.decision;
    IntentIsRead(t, k, b.rows);
    TradeIsFilled(t, k, Slice(b.rows, d), b.aside.accounts);
    assert Expected(w, b, d) == w.project(b.config, d, Slice(b.rows, d), b.aside);
  }

  /** The state in which the trade was published. */
  ghost predicate TradePublished(w: World, st: State, id: Id, t: Trade, c: Call) {
    && Inv(w, st) && id in st.sources && st.sources[id].rows == t.Rows()
    && st.store.checkpoint == Some(CheckpointOf(st.sources[id], id, c))
    && st.seen(t.decision.decision) == VisitOf(st.sources[id], c)
  }

  lemma FirstPublish(w: World, st: State, id: Id, t: Trade, c: Call)
    requires Inv(w, st) && id in st.sources && st.sources[id].rows == t.Rows()
    requires st.store.checkpoint.None? && Publish(w, st.sources[id], id, st.store, c).Some?
    ensures TradePublished(w, Step(w, st, Ran(id, c)), id, t, c)
  {
    StepKeepsInv(w, st, Ran(id, c));
    PublishRecordsCheckpoint(w, st.sources[id], id, st.store, c);
  }

  lemma TradeThenPublish(w: World, id: Id, t: Trade, c: Call) returns (st: State)
    requires forall config, d, slice, a: Aside :: !w.project(config, d, slice, a).Refuse?
    ensures st == Run(w, Opening({id}), Inserts(id, t.Rows()) + [Ran(id, c)])
    ensures TradePublished(w, st, id, t, c)
  {
    assert Inv(w, Opening({id}));
    var filled := InsertsAppend(w, Opening({id}), id, t.Rows(), [Ran(id, c)]);
    assert [] + t.Rows() == t.Rows();
    NothingRefused(w, filled.sources[id], id, filled.store, c);
    FirstPublish(w, filled, id, t, c);
    st := Step(w, filled, Ran(id, c));
    assert [Ran(id, c)][1..] == [];
    assert Run(w, filled, [Ran(id, c)]) == st;
  }

  lemma BarArrives(w: World, before: State, id: Id, t: Trade, c: Call, bar: Row)
    requires TradePublished(w, before, id, t, c) && !c.rebuild && bar.table == DailyPrices
    ensures var st := Step(w, before, Wrote(id, Insert(bar)));
            && Inv(w, st) && id in st.sources && st.sources[id].rows == t.Rows() + [bar]
            && PassedOver(st.sources[id], id, st.store, c, t.decision.decision) && st.seen == before.seen
  {
    InsertAppends(w, before, id, bar);
    OutsideDetailsIsPassedOver(before.sources[id], id, before.store, c, Insert(bar), t.decision.decision);
  }

  /** A publish and a rebuild, neither refused, show a decision as it was last looked at by each. */
  lemma BothPublish(w: World, st: State, id: Id, d: Id, c: Call)
    requires forall config, d, slice, a: Aside :: !w.project(config, d, slice, a).Refuse?
    requires Inv(w, st) && id in st.sources
    ensures var s, c' := st.sources[id], c.(rebuild := true);
            var part, full := Publish(w, s, id, st.store, c), Publish(w, s, id, st.store, c');
            var seen, seen' := Seeing(s, id, st.store, st.seen, c), Seeing(s, id, st.store, st.seen, c');
            && part.Some? && full.Some?
            && Matches(part.value.rows, d, Expected(w, AsSeen(BasisOf(s, c), seen(d)), d))
            && Matches(full.value.rows, d, Expected(w, AsSeen(BasisOf(s, c), seen'(d)), d))
  {
    var s, c' := st.sources[id], c.(rebuild := true);
    NothingRefused(w, s, id, st.store, c);
    NothingRefused(w, s, id, st.store, c');
    PublishShows(w, st, id, c, d);
    PublishShows(w, st, id, c', d);
    assert BasisOf(s, c') == BasisOf(s, c);
  }

  /** How the trade looks from the last look and from a new one. */
  lemma BarIsUnseen(
    w: World, k: Columns, before: Source, s: Source, t: Trade, bar: Row, c: Call, v: Visit)
    requires w == PaperWorld(k, w.names) && t.Valid(k) && bar.table == DailyPrices
    requires before.rows == t.Rows() && s.rows == t.Rows() + [bar] && v == VisitOf(before, c)
    ensures Expected(w, AsSeen(BasisOf(s, c), v), t.decision.decision) == Executed(true)
    ensures Expected(w, BasisOf(s, c), t.decision.decision) == Executed(!Blocks(k, t, bar))
  {
    AccountsOfTrade(t, k, bar);
    WhenRebuildable(t, k, bar);
    assert t.Rows()[1] in s.rows;
    TradeView(w, k, t, AsSeen(BasisOf(s, c), v));
    TradeView(w, k, t, BasisOf(s, c));
  }

  lemma OnlyTradeMatters(w: World, k: Columns, st: State, id: Id, t: Trade, bar: Row, c: Call)
    requires Inv(w, st) && id in st.sources && st.sources[id].rows == t.Rows() + [bar]
    requires t.Valid(k) && bar.table == DailyPrices
    requires PassedOver(st.sources[id], id, st.store, c, t.decision.decision)
    ensures ViewsHold(w, st, id, c)
       <==> Expected(w, AsSeen(BasisOf(st.sources[id], c), st.seen(t.decision.decision)), t.decision.decision)
            == Expected(w, BasisOf(st.sources[id], c), t.decision.decision)
  {
    var s := st.sources[id];
    forall d | d != t.decision.decision ensures d !in Decisions(s.rows) {
      DecisionsMembers(s.rows, d);
    }
  }

  lemma BarMissedExactly(w: World, k: Columns, before: State, st: State, id: Id, t: Trade, bar: Row, c: Call)
    requires w == PaperWorld(k, w.names) && t.Valid(k) && bar.table == DailyPrices && !c.rebuild
    requires TradePublished(w, before, id, t, c) && Inv(w, st) && id in st.sources && st.seen == before.seen
    requires st.sources[id].rows == t.Rows() + [bar]
    requires PassedOver(st.sources[id], id, st.store, c, t.decision.decision)
    ensures var d, s := t.decision.decision, st.sources[id];
            var part, full := Publish(w, s, id, st.store, c), Publish(w, s, id, st.store, c.(rebuild := true));
            && part.Some? && full.Some? && (part == full <==> !Blocks(k, t, bar))
            && Matches(part.value.rows, d, Executed(true))
            && Matches(full.value.rows, d, Executed(!Blocks(k, t, bar)))
  {
    var d, s := t.decision.decision, st.sources[id];
    BarIsUnseen(w, k, before.sources[id], s, t, bar, c, st.seen(d));
    PaperNeverRefuses(k, w.names);
    BothPublish(w, st, id, d, c);
    assert AsSeen(BasisOf(s, c), VisitOf(s, c.(rebuild := true))) == BasisOf(s, c);
    NothingRefused(w, s, id, st.store, c);
    RefusedExactly(w, s, id, st.store, c);
    PartialEqualsRebuildExactly(w, st, id, c);
    OnlyTradeMatters(w, k, st, id, t, bar, c);
  }

  /** The condition is needed, and the code meets it exactly as follows. A paper decision is filled and
      published with its execution recorded; then a bar arrives. It moves the accounting counter but
      stamps nothing, so the next publish looks at no decision and still shows the execution as recorded.
      A rebuild of the same tables shows the same, unless the bar is of the filled ticker, on or after the
      day of the fill, on a day without a session: then it shows the execution as unavailable. */
  lemma BarOnNonSessionIsMissed(k: Columns, names: nat -> Id, id: Id, t: Trade, bar: Row, c: Call)
    requires t.Valid(k) && bar.table == DailyPrices && !c.rebuild
    ensures var w, d := PaperWorld(k, names), t.decision.decision;
            var before := Run(w, Opening({id}), Inserts(id, t.Rows()) + [Ran(id, c)]);
            var st := Step(w, before, Wrote(id, Insert(bar)));
            id in st.sources
            && var part := Publish(w, st.sources[id], id, st.store, c);
            var full := Publish(w, st.sources[id], id, st.store, c.(rebuild := true));
            && part.Some? && full.Some? && (part == full <==> !Blocks(k, t, bar))
            && Matches(part.value.rows, d, Executed(true))
            && Matches(full.value.rows, d, Executed(!Blocks(k, t, bar)))
  {
    var w := PaperWorld(k, names);
    PaperNeverRefuses(k, names);
    var before := TradeThenPublish(w, id, t, c);
    BarArrives(w, before, id, t, c, bar);
    BarMissedExactly(w, k, before, Step(w, before, Wrote(id, Insert(bar))), id, t, bar, c);
  }
}
