/** Following cursors reads one consistent snapshot, however the store grows meanwhile. */
module FeedTheorems {
  import opened Sorting
  import opened Publication
  import opened PublicationTheorems
  import opened Feed
  import opened Wrappers

  // ----- The listing order -----

  ghost predicate DistinctIds(lines: seq<Line>) {
    forall i, j | 0 <= i < j < |lines| :: lines[i].publicId != lines[j].publicId
  }

  lemma OrderIsTotal(q: Query)
    ensures TotalPreorder(Order(q))
  {
  }

  lemma NoTiesIn(lines: seq<Line>, q: Query)
    requires DistinctIds(lines)
    ensures NoTies(Matching(lines, q), Order(q))
  {
    forall x, y | x in Matching(lines, q) && y in Matching(lines, q)
                  && ListedBefore(q, x, y) && ListedBefore(q, y, x)
      ensures x == y
    {
      assert x.publicId == y.publicId;
      assert x in lines && y in lines;
    }
  }

  /** The lines of a store that a query lists, in order. */
  function Snapshot(lines: seq<Line>, q: Query): seq<Line> {
    Sort(Matching(lines, q), Order(q))
  }

  function CursorAfter(revision: nat, highWater: nat, q: Query, l: Line): Cursor {
    Cursor(revision, highWater, q, Rank(q, l), l.content.createdAt, l.publicId)
  }

  lemma {:induction false} SuffixOf(s: seq<Line>, n: nat, keep: Line -> bool)
    requires n <= |s|
    requires forall i | 0 <= i < |s| :: keep(s[i]) <==> n <= i
    ensures Filter(s, keep) == s[n..]
  {
    if s != [] {
      if n == 0 {
        SuffixOf(s[1..], 0, keep);
        assert s == [s[0]] + s[1..];
      } else {
        SuffixOf(s[1..], n - 1, keep);
      }
    }
  }

  lemma SnapshotIsSorted(lines: seq<Line>, q: Query)
    ensures SortedBy(Snapshot(lines, q), Order(q))
  {
    OrderIsTotal(q);
    SortSorts(Matching(lines, q), Order(q));
  }

  lemma SnapshotIsDistinct(lines: seq<Line>, q: Query, i: nat, j: nat)
    requires DistinctIds(lines) && i < j < |Snapshot(lines, q)|
    ensures Snapshot(lines, q)[i] != Snapshot(lines, q)[j]
  {
    assert NoRepeats(lines);
    FilterNoRepeats(lines, Kept(q));
    NoRepeatsSurvives(Matching(lines, q), Snapshot(lines, q));
  }

  lemma BeyondFrom(lines: seq<Line>, q: Query, n: nat, c: Cursor, i: nat)
    requires DistinctIds(lines) && 0 < n <= |Snapshot(lines, q)| && i < |Snapshot(lines, q)|
    requires c == CursorAfter(c.revision, c.highWater, q, Snapshot(lines, q)[n - 1])
    ensures Beyond(q, c, Snapshot(lines, q)[i]) <==> n <= i
  {
    var s := Snapshot(lines, q);
    SnapshotIsSorted(lines, q);
    if i < n - 1 {
      assert Order(q)(s[i], s[n - 1]);
    } else if n <= i {
      assert Order(q)(s[n - 1], s[i]);
      SnapshotIsDistinct(lines, q, n - 1, i);
      DistinctLinesInOrder(lines, q, s[n - 1], s[i]);
    }
  }

  lemma DistinctLinesInOrder(lines: seq<Line>, q: Query, a: Line, b: Line)
    requires DistinctIds(lines) && a in Snapshot(lines, q) && b in Snapshot(lines, q) && a != b
    ensures a.publicId != b.publicId
  {
    SameMembers(Snapshot(lines, q), Matching(lines, q));
    assert a in lines && b in lines;
  }

  /** Past the `n`-th line of the listing lie exactly the lines after it. */
  lemma RemainingIsSuffix(lines: seq<Line>, q: Query, n: nat, c: Cursor)
    requires DistinctIds(lines) && 0 < n <= |Snapshot(lines, q)|
    requires c == CursorAfter(c.revision, c.highWater, q, Snapshot(lines, q)[n - 1])
    ensures Remaining(lines, q, Some(c)) == Snapshot(lines, q)[n..]
  {
    FilteredSuffix(lines, q, n, c);
    FilterOfPermutation(Snapshot(lines, q), Matching(lines, q), PastCursor(q, c));
    SuffixIsInOrder(lines, q, n);
    SortedIs(Filter(Matching(lines, q), PastCursor(q, c)), Snapshot(lines, q)[n..], q);
  }

  lemma FilteredSuffix(lines: seq<Line>, q: Query, n: nat, c: Cursor)
    requires DistinctIds(lines) && 0 < n <= |Snapshot(lines, q)|
    requires c == CursorAfter(c.revision, c.highWater, q, Snapshot(lines, q)[n - 1])
    ensures Filter(Snapshot(lines, q), PastCursor(q, c)) == Snapshot(lines, q)[n..]
  {
    var s := Snapshot(lines, q);
    forall i | 0 <= i < |s| ensures PastCursor(q, c)(s[i]) <==> n <= i {
      BeyondFrom(lines, q, n, c, i);
    }
    SuffixOf(s, n, PastCursor(q, c));
  }

  lemma SuffixIsInOrder(lines: seq<Line>, q: Query, n: nat)
    requires DistinctIds(lines) && n <= |Snapshot(lines, q)|
    ensures SortedBy(Snapshot(lines, q)[n..], Order(q)) && NoTies(Snapshot(lines, q)[n..], Order(q))
  {
    SnapshotIsSorted(lines, q);
    NoTiesIn(lines, q);
    SameMembers(Snapshot(lines, q), Matching(lines, q));
  }

  lemma SortedIs(a: seq<Line>, s: seq<Line>, q: Query)
    requires multiset(a) == multiset(s) && SortedBy(s, Order(q)) && NoTies(s, Order(q))
    ensures Sort(a, Order(q)) == s
  {
    OrderIsTotal(q);
    SortOfPermutation(s, a, Order(q));
    SortOfSorted(s, Order(q));
  }

  // ----- One page -----

  /** A cursor that stands after the first `n` lines of the listing of `lines`. */
  ghost predicate StandsAt(
    cursor: Option<Cursor>, revision: nat, highWater: nat, lines: seq<Line>, q: Query, n: nat)
  {
    if cursor.None? then n == 0
    else
      && 0 < n < |Snapshot(lines, q)|
      && cursor.value == CursorAfter(revision, highWater, q, Snapshot(lines, q)[n - 1])
  }

  /** A page with the next `limit` lines of a listing after its first `n`, the listing's length, and a
      cursor to what follows, if anything does. */
  ghost predicate PageOf(
    reply: Reply, revision: nat, lines: seq<Line>, q: Query, n: nat, limit: nat)
  {
    var s := Snapshot(lines, q);
    var end := Min(n + limit, |s|);
    && reply.Page? && n <= end && reply.items == s[n..end] && reply.total == |s|
    && (reply.next.None? <==> end == |s|)
    && (reply.next.Some? ==> StandsAt(reply.next, revision, |lines|, lines, q, end))
  }

  lemma PageAt(
    t: Target, q: Query, limit: nat, cursor: Option<Cursor>, highWater: nat, n: nat, lines: seq<Line>)
    requires 0 < limit && highWater <= |t.rows| && (cursor.None? ==> highWater == |t.rows|)
    requires lines == Lines(t.rows)[..highWater] && DistinctIds(lines)
    requires StandsAt(cursor, t.revision, highWater, lines, q, n)
    ensures PageOf(Read(t, q, limit, cursor), t.revision, lines, q, n, limit)
  {
    RemainingAt(lines, t.revision, q, cursor, highWater, n);
    CutAt(lines, t.revision, q, limit, n);
  }

  lemma RemainingAt(
    lines: seq<Line>, revision: nat, q: Query, cursor: Option<Cursor>, highWater: nat, n: nat)
    requires DistinctIds(lines) && StandsAt(cursor, revision, highWater, lines, q, n)
    ensures n <= |Snapshot(lines, q)| == |Matching(lines, q)|
    ensures Remaining(lines, q, cursor) == Snapshot(lines, q)[n..]
  {
    SameMembers(Snapshot(lines, q), Matching(lines, q));
    if cursor.Some? {
      RemainingIsSuffix(lines, q, n, cursor.value);
    }
  }

  lemma CutAt(lines: seq<Line>, revision: nat, q: Query, limit: nat, n: nat)
    requires 0 < limit && n <= |Snapshot(lines, q)|
    ensures var s := Snapshot(lines, q);
            PageOf(Cut(s[n..], revision, |lines|, q, limit, |s|), revision, lines, q, n, limit)
  {
    CutParts(Snapshot(lines, q), revision, |lines|, q, limit, n);
  }

  lemma CutParts(s: seq<Line>, revision: nat, highWater: nat, q: Query, limit: nat, n: nat)
    requires 0 < limit && n <= |s|
    ensures var end, page := Min(n + limit, |s|), Cut(s[n..], revision, highWater, q, limit, |s|);
            && n <= end && page.items == s[n..end] && page.total == |s|
            && (page.next.None? <==> end == |s|)
            && (page.next.Some? ==>
                  0 < end < |s| && page.next.value == CursorAfter(revision, highWater, q, s[end - 1]))
  {
    if limit < |s[n..]| {
      assert s[n..][limit - 1] == s[n + limit - 1];
    }
  }

  // ----- What publishes and revocations do to the lines already there -----

  ghost predicate Named(w: World, rows: seq<PublicRow>) {
    forall i | 0 <= i < |rows| :: rows[i].publicId == w.names(i)
  }

  ghost predicate FreshNames(w: World) {
    forall i: nat, j: nat | i != j :: w.names(i) != w.names(j)
  }

  lemma NamedAreDistinct(w: World, rows: seq<PublicRow>, n: nat)
    requires FreshNames(w) && Named(w, rows) && n <= |rows|
    ensures DistinctIds(Lines(rows)[..n])
  {
    forall i, j | 0 <= i < j < n ensures Lines(rows)[..n][i].publicId != Lines(rows)[..n][j].publicId {
      assert w.names(i) != w.names(j);
    }
  }

  /** Every line of `a` is in `b`, unchanged and in the same place. */
  ghost predicate LinesKept(a: seq<PublicRow>, b: seq<PublicRow>) {
    |a| <= |b| && forall i | 0 <= i < |a| :: LineOf(b[i]) == LineOf(a[i])
  }

  /** The rows of `a` keep their place, key and identifier in `b`. */
  ghost predicate Extends(a: seq<PublicRow>, b: seq<PublicRow>) {
    && |a| <= |b|
    && (forall i | 0 <= i < |a| ::
          b[i].key == a[i].key && b[i].publicId == a[i].publicId && b[i].revoked == a[i].revoked)
  }

  /** A row that the loop over `ids` counts as an update. */
  ghost predicate Stale(w: World, b: Basis, ids: seq<Id>, r: PublicRow) {
    && r.key in Shown(w, b, ids)
    && !UpToDate(r, Expected(w, b, r.key).content)
  }

  ghost predicate AnyStale(w: World, b: Basis, ids: seq<Id>, rows: seq<PublicRow>) {
    exists i | 0 <= i < |rows| :: Stale(w, b, ids, rows[i])
  }

  lemma UpsertExtends(w: World, rows: seq<PublicRow>, d: Id, v: View)
    requires v.Show?
    ensures Extends(rows, Upsert(w, rows, d, v)) && (Named(w, rows) ==> Named(w, Upsert(w, rows, d, v)))
  {
  }

  /** After an upsert, a row is stale for the rest of the loop if it was stale for the whole loop and
      is not the one that was written. */
  lemma StaleAfter(w: World, b: Basis, rows: seq<PublicRow>, ids: seq<Id>, i: nat)
    requires UniqueKeys(rows) && ids != [] && Expected(w, b, ids[0]).Show?
    requires i < |Upsert(w, rows, ids[0], Expected(w, b, ids[0]))|
    ensures var v := Expected(w, b, ids[0]);
            Stale(w, b, ids[1..], Upsert(w, rows, ids[0], v)[i])
            <==> i < |rows| && i != Find(rows, ids[0]) && Stale(w, b, ids, rows[i])
  {
    assert ids == [ids[0]] + ids[1..];
  }

  lemma UpdatesIsStale(w: World, b: Basis, rows: seq<PublicRow>, ids: seq<Id>)
    requires ids != [] && Expected(w, b, ids[0]).Show?
    ensures var i := Find(rows, ids[0]);
            Updates(rows, ids[0], Expected(w, b, ids[0]))
            <==> i < |rows| && Stale(w, b, ids, rows[i])
  {
  }

  lemma UpsertSettles(w: World, b: Basis, rows: seq<PublicRow>, ids: seq<Id>)
    requires UniqueKeys(rows) && ids != [] && Expected(w, b, ids[0]).Show?
    ensures var v := Expected(w, b, ids[0]);
            AnyStale(w, b, ids, rows)
            <==> Updates(rows, ids[0], v) || AnyStale(w, b, ids[1..], Upsert(w, rows, ids[0], v))
  {
    var next := Upsert(w, rows, ids[0], Expected(w, b, ids[0]));
    UpdatesIsStale(w, b, rows, ids);
    forall i: nat | i < |next|
      ensures Stale(w, b, ids[1..], next[i])
         <==> i < |rows| && i != Find(rows, ids[0]) && Stale(w, b, ids, rows[i])
    {
      StaleAfter(w, b, rows, ids, i);
    }
    if i: nat :| i < |rows| && Stale(w, b, ids, rows[i]) && i != Find(rows, ids[0]) {
      assert Stale(w, b, ids[1..], next[i]);
    }
  }

  /** The loop counts an update exactly when a row it shows was not up to date. */
  lemma {:induction false} PlaceUpdates(
    w: World, b: Basis, rows: seq<PublicRow>, updated: bool, ids: seq<Id>)
    requires UniqueKeys(rows) && Named(w, rows)
    requires Place(w, b, rows, updated, ids).Placed?
    ensures var placed := Place(w, b, rows, updated, ids);
            && Extends(rows, placed.rows) && Named(w, placed.rows)
            && (placed.updated <==> updated || AnyStale(w, b, ids, rows))
    decreases |ids|
  {
    if ids != [] {
      var e, v := ids[0], Expected(w, b, ids[0]);
      if v.Show? {
        UpsertSettles(w, b, rows, ids);
        UpsertExtends(w, rows, e, v);
        UpsertPlaces(w, rows, e, v);
        PlaceUpdates(w, b, Upsert(w, rows, e, v), updated || Updates(rows, e, v), ids[1..]);
      } else {
        PlaceUpdates(w, b, rows, updated, ids[1..]);
        assert Shown(w, b, ids) == Shown(w, b, ids[1..]) by {
          assert ids == [e] + ids[1..];
        }
        assert AnyStale(w, b, ids, rows) <==> AnyStale(w, b, ids[1..], rows) by {
          assert forall i | 0 <= i < |rows| ::
              Stale(w, b, ids, rows[i]) <==> Stale(w, b, ids[1..], rows[i]);
        }
      }
    }
  }

  /** A publish changes the line of an old row exactly when it was out of date or is withdrawn. */
  lemma LineChanges(
    w: World, s: Source, t: Target, c: Call, revisited: Option<set<Id>>, i: nat)
    requires UniqueKeys(t.rows) && Named(w, t.rows) && i < |t.rows|
    requires Place(w, BasisOf(s, c), t.rows, false, Selected(s, revisited)).Placed?
    ensures var ids := Selected(s, revisited);
            var placed := Place(w, BasisOf(s, c), t.rows, false, ids).rows;
            var shown := Shown(w, BasisOf(s, c), ids);
            && i < |placed|
            && (LineOf(Withdraw(placed, revisited, shown)[i]) != LineOf(t.rows[i])
                <==> Stale(w, BasisOf(s, c), ids, t.rows[i]) || Condemned(placed[i], revisited, shown))
  {
    var ids := Selected(s, revisited);
    var placed := Place(w, BasisOf(s, c), t.rows, false, ids).rows;
    var d := t.rows[i].key;
    PlaceUpdates(w, BasisOf(s, c), t.rows, false, ids);
    PlaceShows(w, BasisOf(s, c), t.rows, false, ids, d);
    if d in Shown(w, BasisOf(s, c), ids) {
      var v := Expected(w, BasisOf(s, c), d);
      var k :| 0 <= k < |placed| && placed[k].key == d && Says(placed[k], v.content, v.failedRules);
      assert k == i;
    }
  }

  /** A publish moves the revision exactly when it changes a line that was already there. */
  lemma PublishingBumps(
    w: World, s: Source, t: Target, c: Call, revisited: Option<set<Id>>, current: Checkpoint)
    requires UniqueKeys(t.rows) && Named(w, t.rows)
    requires Publishing(w, s, t, c, revisited, current).Some?
    ensures var t' := Publishing(w, s, t, c, revisited, current).value;
            && Extends(t.rows, t'.rows) && Named(w, t'.rows)
            && t.revision <= t'.revision
            && (t'.revision == t.revision <==> LinesKept(t.rows, t'.rows))
  {
    var ids := Selected(s, revisited);
    var placed := Place(w, BasisOf(s, c), t.rows, false, ids);
    var shown := Shown(w, BasisOf(s, c), ids);
    PlaceUpdates(w, BasisOf(s, c), t.rows, false, ids);
    forall i: nat | i < |t.rows|
      ensures LineOf(Withdraw(placed.rows, revisited, shown)[i]) != LineOf(t.rows[i])
          <==> Stale(w, BasisOf(s, c), ids, t.rows[i]) || Condemned(placed.rows[i], revisited, shown)
    {
      LineChanges(w, s, t, c, revisited, i);
    }
    if Withdraws(placed.rows, revisited, shown) {
      var k :| 0 <= k < |placed.rows| && Condemned(placed.rows[k], revisited, shown);
      OnlyOldRowsCondemned(w, s, t, c, revisited, k);
    }
  }

  lemma OnlyOldRowsCondemned(
    w: World, s: Source, t: Target, c: Call, revisited: Option<set<Id>>, k: nat)
    requires UniqueKeys(t.rows)
    requires Place(w, BasisOf(s, c), t.rows, false, Selected(s, revisited)).Placed?
    requires k < |Place(w, BasisOf(s, c), t.rows, false, Selected(s, revisited)).rows|
    ensures var ids := Selected(s, revisited);
            var placed := Place(w, BasisOf(s, c), t.rows, false, ids).rows;
            Condemned(placed[k], revisited, Shown(w, BasisOf(s, c), ids)) ==> k < |t.rows|
  {
    var ids := Selected(s, revisited);
    var placed := Place(w, BasisOf(s, c), t.rows, false, ids).rows;
    PlaceShows(w, BasisOf(s, c), t.rows, false, ids, placed[k].key);
  }

  ghost predicate Orderly(w: World, t: Target) {
    UniqueKeys(t.rows) && Named(w, t.rows)
  }

  /** One step on the store: the revision never falls, and moves exactly when an old line changed. */
  ghost predicate Bumped(w: World, t: Target, t': Target) {
    && Orderly(w, t') && |t.rows| <= |t'.rows| && t.revision <= t'.revision
    && (t'.revision == t.revision <==> LinesKept(t.rows, t'.rows))
  }

  lemma PublishingKeepsKeys(
    w: World, s: Source, t: Target, c: Call, revisited: Option<set<Id>>, current: Checkpoint)
    requires UniqueKeys(t.rows) && Publishing(w, s, t, c, revisited, current).Some?
    ensures UniqueKeys(Publishing(w, s, t, c, revisited, current).value.rows)
  {
    PlaceShows(w, BasisOf(s, c), t.rows, false, Selected(s, revisited), 0);
  }

  lemma StepBumps(w: World, st: State, op: Op)
    requires Orderly(w, st.store)
    ensures Bumped(w, st.store, Step(w, st, op).store)
  {
    match op
    case Wrote(_, _) =>
    case Ran(id, c) =>
      if id in st.sources && Publish(w, st.sources[id], id, st.store, c).Some? {
        var s, t, current := st.sources[id], st.store, CheckpointOf(st.sources[id], id, c);
        var previous := if c.rebuild then None else t.checkpoint;
        if previous.None? || !Quiet(previous.value, current) {
          var revisited := Revisited(s, previous, current);
          PublishingBumps(w, s, t, c, revisited, current);
          PublishingKeepsKeys(w, s, t, c, revisited, current);
        }
      }
    case Revoked(p) =>
      var i := FindPublic(st.store.rows, p);
      if Revoke(st.store, p) != st.store {
        assert LineOf(Revoke(st.store, p).rows[i]) != LineOf(st.store.rows[i]);
      }
  }

  /** Some step of the run changed a line that was there before it: an update, a withdrawal, a line
      shown again, or a revocation. */
  ghost predicate Alters(w: World, st: State, ops: seq<Op>)
    decreases |ops|
  {
    ops != []
    && (!LinesKept(st.store.rows, Step(w, st, ops[0]).store.rows)
        || Alters(w, Step(w, st, ops[0]), ops[1..]))
  }

  lemma {:induction false} RunBumps(w: World, st: State, ops: seq<Op>)
    requires Orderly(w, st.store)
    ensures var t, t' := st.store, Run(w, st, ops).store;
            && Orderly(w, t') && t.revision <= t'.revision
            && (t'.revision == t.revision <==> !Alters(w, st, ops))
            && (t'.revision == t.revision ==> LinesKept(t.rows, t'.rows))
    decreases |ops|
  {
    if ops != [] {
      StepBumps(w, st, ops[0]);
      RunBumps(w, Step(w, st, ops[0]), ops[1..]);
    }
  }

  // ----- Following the cursors -----

  /** A request for one page, and what happened to the stores since the one before it. */
  datatype Request = Request(meanwhile: seq<Op>, limit: nat)

  datatype End = Complete | MoreToCome | MustRestart | Rejected

  datatype Reading = Reading(items: seq<Line>, end: End)

  ghost predicate Sensible(requests: seq<Request>) {
    requests != [] && forall r | r in requests :: 0 < r.limit
  }

  /** Ask for page after page, each time with the cursor of the one before. */
  function Follow(
    w: World, st: State, q: Query, cursor: Option<Cursor>, requests: seq<Request>): Reading
    requires requests != [] && forall r | r in requests :: 0 < r.limit
    decreases |requests|
  {
    var st' := Run(w, st, requests[0].meanwhile);
    match Read(st'.store, q, requests[0].limit, cursor)
    case RestartRequired => Reading([], MustRestart)
    case CursorQueryMismatch => Reading([], Rejected)
    case Page(items, next, _) =>
      if next.None? then Reading(items, Complete)
      else if |requests| == 1 then Reading(items, MoreToCome)
      else
        var rest := Follow(w, st', q, next, requests[1..]);
        Reading(items + rest.items, rest.end)
  }

  function Limits(requests: seq<Request>): nat {
    if requests == [] then 0 else requests[0].limit + Limits(requests[1..])
  }

  ghost predicate Undisturbed(w: World, st: State, requests: seq<Request>)
    decreases |requests|
  {
    requests == []
    || (!Alters(w, st, requests[0].meanwhile)
        && Undisturbed(w, Run(w, st, requests[0].meanwhile), requests[1..]))
  }

  /** What a reading that starts after `n` lines of the listing `s` may look like. */
  ghost predicate ReadsFrom(r: Reading, s: seq<Line>, n: nat, limits: nat) {
    && n + |r.items| <= |s| && r.items == s[n..n + |r.items|]
    && (r.end == Complete ==> n + |r.items| == |s|)
    && (r.end == MoreToCome ==> |r.items| == limits)
    && r.end != Rejected
  }

  lemma ReadsOn(s: seq<Line>, n: nat, end: nat, rest: Reading, limit: nat, limits: nat)
    requires n <= end <= |s| && end == n + limit && ReadsFrom(rest, s, end, limits)
    ensures ReadsFrom(Reading(s[n..end] + rest.items, rest.end), s, n, limit + limits)
  {
    assert s[n..end] + s[end..end + |rest.items|] == s[n..end + |rest.items|];
  }

  /** The next page, when nothing public changed meanwhile. */
  ghost predicate Continues(
    w: World, st': State, q: Query, cursor: Option<Cursor>, limit: nat, lines: seq<Line>, n: nat)
    requires 0 < limit
  {
    && Orderly(w, st'.store)
    && |lines| <= |st'.store.rows| && lines == Lines(st'.store.rows)[..|lines|]
    && PageOf(Read(st'.store, q, limit, cursor), st'.store.revision, lines, q, n, limit)
  }

  lemma NextPage(
    w: World, st: State, q: Query, cursor: Option<Cursor>, requests: seq<Request>, lines: seq<Line>,
    n: nat)
    requires Sensible(requests) && FreshNames(w) && Orderly(w, st.store)
    requires |lines| <= |st.store.rows| && lines == Lines(st.store.rows)[..|lines|]
    requires cursor.Some? && StandsAt(cursor, st.store.revision, |lines|, lines, q, n)
    ensures var st' := Run(w, st, requests[0].meanwhile);
            if Alters(w, st, requests[0].meanwhile) then
              Read(st'.store, q, requests[0].limit, cursor) == RestartRequired
            else Continues(w, st', q, cursor, requests[0].limit, lines, n)
  {
    RunBumps(w, st, requests[0].meanwhile);
    if !Alters(w, st, requests[0].meanwhile) {
      PageOfGrown(w, st.store, Run(w, st, requests[0].meanwhile).store, q, cursor, requests[0].limit, lines, n);
    }
  }

  /** A page of a store that only grew since its cursor was issued. */
  lemma PageOfGrown(
    w: World, t: Target, t': Target, q: Query, cursor: Option<Cursor>, limit: nat, lines: seq<Line>, n: nat)
    requires FreshNames(w) && Orderly(w, t') && t'.revision == t.revision && LinesKept(t.rows, t'.rows)
    requires 0 < limit && |lines| <= |t.rows| && lines == Lines(t.rows)[..|lines|]
    requires cursor.Some? && StandsAt(cursor, t.revision, |lines|, lines, q, n)
    ensures lines == Lines(t'.rows)[..|lines|]
    ensures PageOf(Read(t', q, limit, cursor), t'.revision, lines, q, n, limit)
  {
    assert Lines(t'.rows)[..|lines|] == lines;
    NamedAreDistinct(w, t'.rows, |lines|);
    PageAt(t', q, limit, cursor, |lines|, n, lines);
  }

  /** From a cursor after `n` lines of the listing of `lines`, the pages continue that listing. */
  lemma {:induction false} FollowContinues(
    w: World, st: State, q: Query, cursor: Option<Cursor>, requests: seq<Request>, lines: seq<Line>,
    n: nat)
    requires Sensible(requests) && FreshNames(w) && Orderly(w, st.store)
    requires |lines| <= |st.store.rows| && lines == Lines(st.store.rows)[..|lines|]
    requires cursor.Some? && StandsAt(cursor, st.store.revision, |lines|, lines, q, n)
    ensures ReadsFrom(Follow(w, st, q, cursor, requests), Snapshot(lines, q), n, Limits(requests))
    ensures Undisturbed(w, st, requests) ==> Follow(w, st, q, cursor, requests).end != MustRestart
    decreases |requests|, 2
  {
    var st' := Run(w, st, requests[0].meanwhile);
    NextPage(w, st, q, cursor, requests, lines, n);
    if !Alters(w, st, requests[0].meanwhile) {
      Onward(w, st, st', q, cursor, requests, lines, n, Read(st'.store, q, requests[0].limit, cursor),
             Follow(w, st, q, cursor, requests));
    }
  }

  lemma {:induction false} Onward(
    w: World, st: State, st': State, q: Query, cursor: Option<Cursor>, requests: seq<Request>,
    lines: seq<Line>, n: nat, reply: Reply, r: Reading)
    requires Sensible(requests) && FreshNames(w) && Orderly(w, st'.store)
    requires st' == Run(w, st, requests[0].meanwhile)
    requires |lines| <= |st'.store.rows| && lines == Lines(st'.store.rows)[..|lines|]
    requires reply == Read(st'.store, q, requests[0].limit, cursor)
    requires r == Follow(w, st, q, cursor, requests)
    requires PageOf(reply, st'.store.revision, lines, q, n, requests[0].limit)
    ensures ReadsFrom(r, Snapshot(lines, q), n, Limits(requests))
    ensures Undisturbed(w, st', requests[1..]) ==> r.end != MustRestart
    decreases |requests|, 1
  {
    FollowUnfolds(w, st, st', q, cursor, requests, reply);
    if reply.next.Some? && |requests| > 1 {
      OnwardMore(w, st', q, requests, lines, n, reply, Follow(w, st', q, reply.next, requests[1..]), r);
    } else {
      PageAlone(reply, st'.store.revision, lines, q, n, requests, r);
    }
  }

  lemma {:induction false} OnwardMore(
    w: World, st: State, q: Query, requests: seq<Request>, lines: seq<Line>, n: nat, reply: Reply,
    rest: Reading, r: Reading)
    requires Sensible(requests) && FreshNames(w) && Orderly(w, st.store) && |requests| > 1
    requires |lines| <= |st.store.rows| && lines == Lines(st.store.rows)[..|lines|]
    requires PageOf(reply, st.store.revision, lines, q, n, requests[0].limit) && reply.next.Some?
    requires rest == Follow(w, st, q, reply.next, requests[1..])
    requires r == Reading(reply.items + rest.items, rest.end)
    ensures ReadsFrom(r, Snapshot(lines, q), n, Limits(requests))
    ensures Undisturbed(w, st, requests[1..]) ==> r.end != MustRestart
    decreases |requests|, 0
  {
    PageSize(reply, st.store.revision, lines, q, n, requests[0].limit);
    FollowContinues(w, st, q, reply.next, requests[1..], lines, n + requests[0].limit);
    PageThenRest(reply, st.store.revision, lines, q, n, requests, rest, r);
  }

  lemma PageSize(reply: Reply, revision: nat, lines: seq<Line>, q: Query, n: nat, limit: nat)
    requires PageOf(reply, revision, lines, q, n, limit) && reply.next.Some?
    ensures n + limit <= |Snapshot(lines, q)| && reply.items == Snapshot(lines, q)[n..n + limit]
    ensures StandsAt(reply.next, revision, |lines|, lines, q, n + limit)
  {
  }

  /** A page of a listing, and the reading that goes on after it. */
  lemma PageThenRest(
    reply: Reply, revision: nat, lines: seq<Line>, q: Query, n: nat, requests: seq<Request>,
    rest: Reading, r: Reading)
    requires requests != [] && PageOf(reply, revision, lines, q, n, requests[0].limit)
    requires reply.next.Some? && r == Reading(reply.items + rest.items, rest.end)
    requires ReadsFrom(rest, Snapshot(lines, q), n + requests[0].limit, Limits(requests[1..]))
    ensures ReadsFrom(r, Snapshot(lines, q), n, Limits(requests))
  {
    PageSize(reply, revision, lines, q, n, requests[0].limit);
    ReadsOn(Snapshot(lines, q), n, n + requests[0].limit, rest, requests[0].limit, Limits(requests[1..]));
  }

  lemma PageAlone(
    reply: Reply, revision: nat, lines: seq<Line>, q: Query, n: nat, requests: seq<Request>, r: Reading)
    requires Sensible(requests) && PageOf(reply, revision, lines, q, n, requests[0].limit)
    requires reply.next.None? || |requests| == 1
    requires r == Reading(reply.items, if reply.next.None? then Complete else MoreToCome)
    ensures ReadsFrom(r, Snapshot(lines, q), n, Limits(requests))
  {
    LastPage(Snapshot(lines, q), n, requests[0].limit, requests);
  }

  lemma FollowUnfolds(
    w: World, st: State, st': State, q: Query, cursor: Option<Cursor>, requests: seq<Request>,
    reply: Reply)
    requires Sensible(requests) && st' == Run(w, st, requests[0].meanwhile)
    requires reply == Read(st'.store, q, requests[0].limit, cursor) && reply.Page?
    ensures reply.next.None? ==> Follow(w, st, q, cursor, requests) == Reading(reply.items, Complete)
    ensures reply.next.Some? && |requests| == 1 ==>
              Follow(w, st, q, cursor, requests) == Reading(reply.items, MoreToCome)
    ensures reply.next.Some? && |requests| > 1 ==>
              var rest := Follow(w, st', q, reply.next, requests[1..]);
              Follow(w, st, q, cursor, requests) == Reading(reply.items + rest.items, rest.end)
  {
  }

  lemma LastPage(s: seq<Line>, n: nat, limit: nat, requests: seq<Request>)
    requires Sensible(requests) && limit == requests[0].limit && n <= |s|
    ensures var end := Min(n + limit, |s|);
            && (end == |s| ==> ReadsFrom(Reading(s[n..end], Complete), s, n, Limits(requests)))
            && (end < |s| && |requests| == 1 ==>
                  ReadsFrom(Reading(s[n..end], MoreToCome), s, n, Limits(requests)))
  {
  }

  /** Following the cursors reads, line by line and in order, the listing the first page saw: all of it
      when the reading completes, and otherwise exactly as much as was asked for. While publishes only
      add decisions it never has to restart. */
  lemma FollowingReadsOneSnapshot(w: World, st: State, q: Query, requests: seq<Request>)
    requires Sensible(requests) && FreshNames(w) && Orderly(w, st.store)
    ensures var first, r := Run(w, st, requests[0].meanwhile), Follow(w, st, q, None, requests);
            && ReadsFrom(r, Snapshot(Lines(first.store.rows), q), 0, Limits(requests))
            && (Undisturbed(w, first, requests[1..]) ==> r.end != MustRestart)
  {
    var first := Run(w, st, requests[0].meanwhile);
    var lines := Lines(first.store.rows);
    RunBumps(w, st, requests[0].meanwhile);
    assert lines[..|lines|] == lines;
    NamedAreDistinct(w, first.store.rows, |lines|);
    PageAt(first.store, q, requests[0].limit, None, |lines|, 0, lines);
    Onward(w, st, first, q, None, requests, lines, 0, Read(first.store, q, requests[0].limit, None),
           Follow(w, st, q, None, requests));
  }

  /** A cursor is refused exactly when, since the page that issued it, some step changed a line that
      was already public; steps that only add lines leave it good. */
  lemma RestartExactlyWhenAltered(w: World, st: State, ops: seq<Op>, c: Cursor, limit: nat)
    requires 0 < limit && Orderly(w, st.store) && c.revision == st.store.revision
    ensures Read(Run(w, st, ops).store, c.query, limit, Some(c)) == RestartRequired
        <==> Alters(w, st, ops)
  {
    RunBumps(w, st, ops);
  }

  // ----- Retractions -----

  lemma StepKeepsRevoked(w: World, st: State, op: Op, i: nat)
    requires Orderly(w, st.store) && i < |st.store.rows| && st.store.rows[i].revoked
    ensures var rows := Step(w, st, op).store.rows;
            i < |rows| && rows[i].revoked && rows[i].publicId == st.store.rows[i].publicId
  {
    if op.Ran? && op.source in st.sources
       && Publish(w, st.sources[op.source], op.source, st.store, op.call).Some?
    {
      PublishKeepsRevoked(w, st.sources[op.source], op.source, st.store, op.call);
    }
  }

  lemma PublishKeepsRevoked(w: World, s: Source, id: Id, t: Target, c: Call)
    requires Orderly(w, t) && Publish(w, s, id, t, c).Some?
    ensures Extends(t.rows, Publish(w, s, id, t, c).value.rows)
  {
    var current, previous := CheckpointOf(s, id, c), if c.rebuild then None else t.checkpoint;
    if previous.None? || !Quiet(previous.value, current) {
      PublishingBumps(w, s, t, c, Revisited(s, previous, current), current);
    }
  }

  lemma {:induction false} RunKeepsRevoked(w: World, st: State, ops: seq<Op>, i: nat)
    requires Orderly(w, st.store) && i < |st.store.rows| && st.store.rows[i].revoked
    ensures var rows := Run(w, st, ops).store.rows;
            i < |rows| && rows[i].revoked && rows[i].publicId == st.store.rows[i].publicId
    decreases |ops|
  {
    if ops != [] {
      StepKeepsRevoked(w, st, ops[0], i);
      StepBumps(w, st, ops[0]);
      RunKeepsRevoked(w, Step(w, st, ops[0]), ops[1..], i);
    }
  }

  /** Whatever its cursor, a page lists only lines that are neither revoked nor withdrawn. */
  lemma PageListsVisible(t: Target, q: Query, limit: nat, cursor: Option<Cursor>, l: Line)
    requires 0 < limit && Read(t, q, limit, cursor).Page? && l in Read(t, q, limit, cursor).items
    ensures !l.revoked && !l.withdrawn && l.content.portfolio == q.portfolio
    ensures Keeps(q, l) && l in Lines(t.rows)
  {
    var highWater := if cursor.Some? then cursor.value.highWater else |t.rows|;
    var lines := Lines(t.rows)[..Min(highWater, |t.rows|)];
    var rest := if cursor.None? then Matching(lines, q)
                else Filter(Matching(lines, q), PastCursor(q, cursor.value));
    SameMembers(rest, Remaining(lines, q, cursor));
    assert l in Remaining(lines, q, cursor);
  }

  /** A revoked decision is never listed again: no later page has its public identifier, whatever is
      published after the revocation. */
  lemma RevokedIsNeverListed(
    w: World, st: State, publicId: Id, ops: seq<Op>, q: Query, limit: nat, cursor: Option<Cursor>, l: Line)
    requires FreshNames(w) && Orderly(w, st.store) && 0 < limit
    requires FindPublic(st.store.rows, publicId) < |st.store.rows|
    requires var t := Run(w, Step(w, st, Revoked(publicId)), ops).store;
             Read(t, q, limit, cursor).Page? && l in Read(t, q, limit, cursor).items
    ensures l.publicId != publicId
  {
    var i, revoked := FindPublic(st.store.rows, publicId), Step(w, st, Revoked(publicId));
    StepBumps(w, st, Revoked(publicId));
    RunBumps(w, revoked, ops);
    RunKeepsRevoked(w, revoked, ops, i);
    var t := Run(w, revoked, ops).store;
    PageListsVisible(t, q, limit, cursor, l);
    NamedAreDistinct(w, t.rows, |t.rows|);
    var k :| 0 <= k < |Lines(t.rows)| && Lines(t.rows)[k] == l;
    assert k != i;
    assert w.names(k) != w.names(i);
  }
}
