/** What a page answers and what a whole reading lists, in the fields of the public rows. */
module FeedOutcomes {
  import opened Sorting
  import opened Publication
  import opened PublicationTheorems
  import opened Feed
  import opened FeedTheorems
  import opened Wrappers

  // ----- Rows that a query asks for -----

  /** The row is public, of the query's portfolio, and has every value that the query gives. */
  predicate Wanted(q: Query, r: PublicRow) {
    && !r.revoked && !r.withdrawn && r.content.portfolio == q.portfolio
    && (q.run != "" ==> r.content.run == q.run) && (q.ticker != "" ==> r.content.ticker == q.ticker)
    && (q.action != "" ==> r.content.action == q.action) && (q.policy != "" ==> r.content.policy == q.policy)
    && (q.lifecycle != "" ==> r.content.lifecycle == q.lifecycle)
    && (q.text != "" ==> q.text in r.content.hits)
    && (match q.since case None => true case Some(from) => from <= r.content.createdAt)
    && (match q.until case None => true case Some(end) => r.content.createdAt < end)
  }

  /** A search for the line's own ticker, in capitals or not. */
  predicate Exact(q: Query, l: Line) {
    && q.text != "" && |q.text| == |l.content.ticker|
    && forall i | 0 <= i < |q.text| ::
         l.content.ticker[i] == if 'a' <= q.text[i] <= 'z' then q.text[i] - 'a' + 'A' else q.text[i]
  }

  /** An exact ticker is listed first, then what is newer, then the larger identifier. */
  predicate Precedes(q: Query, a: Line, b: Line) {
    if Exact(q, a) != Exact(q, b) then Exact(q, a)
    else if a.content.createdAt != b.content.createdAt then b.content.createdAt < a.content.createdAt
    else b.publicId < a.publicId
  }

  /** The line comes after the place that a cursor names. */
  predicate Past(q: Query, cursor: Option<Cursor>, l: Line) {
    match cursor
    case None => true
    case Some(c) =>
      var exact := if Exact(q, l) then 1 else 0;
      if q.text != "" && exact != c.exactTicker then exact < c.exactTicker
      else if l.content.createdAt != c.createdAt then l.content.createdAt < c.createdAt
      else l.publicId < c.publicId
  }

  ghost predicate Wants(q: Query, cursor: Option<Cursor>, r: PublicRow) {
    Wanted(q, r) && Past(q, cursor, LineOf(r))
  }

  /** The places of the rows that a query wants past a cursor. */
  ghost function Places(rows: seq<PublicRow>, q: Query, cursor: Option<Cursor>): set<int> {
    set i | 0 <= i < |rows| && Wants(q, cursor, rows[i])
  }

  lemma ExactIsRank(q: Query, l: Line)
    ensures Rank(q, l) == if Exact(q, l) then 1 else 0
  {
    if Exact(q, l) { assert l.content.ticker == Upper(q.text); }
  }

  lemma KeepsExactly(q: Query, r: PublicRow)
    ensures Keeps(q, LineOf(r)) <==> Wanted(q, r)
  {
  }

  lemma PastExactly(q: Query, c: Cursor, l: Line)
    ensures Beyond(q, c, l) <==> Past(q, Some(c), l)
  {
    ExactIsRank(q, l);
  }

  lemma PrecedesExactly(q: Query, a: Line, b: Line)
    requires a.publicId != b.publicId
    ensures ListedBefore(q, a, b) <==> Precedes(q, a, b)
  {
    ExactIsRank(q, a);
    ExactIsRank(q, b);
  }

  // ----- A listing -----

  /** The listing has the wanted lines, each once, in order. */
  ghost predicate ListsExactly(s: seq<Line>, rows: seq<PublicRow>, q: Query, cursor: Option<Cursor>) {
    && |s| == |Places(rows, q, cursor)|
    && (forall i | i in Places(rows, q, cursor) :: LineOf(rows[i]) in s)
    && (forall l | l in s :: exists i | i in Places(rows, q, cursor) :: LineOf(rows[i]) == l)
    && (forall i, j | 0 <= i < j < |s| :: Precedes(q, s[i], s[j]))
  }

  function Asked(q: Query, cursor: Option<Cursor>): Line -> bool {
    l => Keeps(q, l) && (cursor.None? || Beyond(q, cursor.value, l))
  }

  lemma AskedExactly(q: Query, cursor: Option<Cursor>, r: PublicRow)
    ensures Asked(q, cursor)(LineOf(r)) <==> Wants(q, cursor, r)
  {
    KeepsExactly(q, r);
    if cursor.Some? { PastExactly(q, cursor.value, LineOf(r)); }
  }

  lemma {:induction false} FilterTwice(s: seq<Line>, q: Query, c: Cursor)
    ensures Filter(Filter(s, Kept(q)), PastCursor(q, c)) == Filter(s, Asked(q, Some(c)))
  {
    if s != [] { FilterTwice(s[1..], q, c); }
  }

  lemma FilterOnce(s: seq<Line>, q: Query)
    ensures Filter(s, Kept(q)) == Filter(s, Asked(q, None))
  {
    FilterAgrees(s, Kept(q), Asked(q, None));
  }

  /** As many lines are asked for as there are places of wanted rows. */
  lemma {:induction false} AskedCounts(rows: seq<PublicRow>, q: Query, cursor: Option<Cursor>)
    ensures |Filter(Lines(rows), Asked(q, cursor))| == |Places(rows, q, cursor)|
    decreases |rows|
  {
    if rows == [] {
      assert Places(rows, q, cursor) == {};
    } else {
      var n := |rows| - 1;
      var front, last := rows[..n], LineOf(rows[n]);
      assert Lines(rows) == Lines(front) + [last];
      FilterConcat(Lines(front), [last], Asked(q, cursor));
      AskedCounts(front, q, cursor);
      AskedExactly(q, cursor, rows[n]);
      PlacesGrow(rows, q, cursor, n);
    }
  }

  lemma PlacesGrow(rows: seq<PublicRow>, q: Query, cursor: Option<Cursor>, n: nat)
    requires |rows| == n + 1
    ensures |Places(rows, q, cursor)|
         == |Places(rows[..n], q, cursor)| + if Wants(q, cursor, rows[n]) then 1 else 0
  {
    assert Places(rows, q, cursor)
        == Places(rows[..n], q, cursor) + if Wants(q, cursor, rows[n]) then {n} else {};
  }

  lemma AskedAre(rows: seq<PublicRow>, q: Query, cursor: Option<Cursor>)
    ensures var kept := Filter(Lines(rows), Asked(q, cursor));
            && (forall i | i in Places(rows, q, cursor) :: LineOf(rows[i]) in kept)
            && (forall l | l in kept :: exists i | i in Places(rows, q, cursor) :: LineOf(rows[i]) == l)
  {
    var kept := Filter(Lines(rows), Asked(q, cursor));
    forall i: int | 0 <= i < |rows| ensures Lines(rows)[i] in kept <==> Wants(q, cursor, rows[i]) {
      AskedExactly(q, cursor, rows[i]);
      assert Lines(rows)[i] in Lines(rows);
    }
    forall l | l in kept ensures exists i | i in Places(rows, q, cursor) :: LineOf(rows[i]) == l {
      var i :| 0 <= i < |Lines(rows)| && Lines(rows)[i] == l;
      assert i in Places(rows, q, cursor);
    }
  }

  lemma SortPrecedes(s: seq<Line>, q: Query)
    requires NoRepeats(s) && DistinctIds(s)
    ensures forall i, j | 0 <= i < j < |Sort(s, Order(q))| :: Precedes(q, Sort(s, Order(q))[i], Sort(s, Order(q))[j])
  {
    var r := Sort(s, Order(q));
    OrderIsTotal(q);
    SortSorts(s, Order(q));
    SameMembers(s, r);
    NoRepeatsSurvives(s, r);
    forall i, j | 0 <= i < j < |r| ensures Precedes(q, r[i], r[j]) {
      assert Order(q)(r[i], r[j]) && r[i] in s && r[j] in s;
      PrecedesExactly(q, r[i], r[j]);
    }
  }

  lemma FilterDistinct(lines: seq<Line>, keep: Line -> bool)
    requires DistinctIds(lines)
    ensures NoRepeats(Filter(lines, keep)) && DistinctIds(Filter(lines, keep))
  {
    assert NoRepeats(lines);
    FilterNoRepeats(lines, keep);
    var kept := Filter(lines, keep);
    forall i, j | 0 <= i < j < |kept| ensures kept[i].publicId != kept[j].publicId {
      assert kept[i] in lines && kept[j] in lines && kept[i] != kept[j];
    }
  }

  lemma RemainingIsAsked(lines: seq<Line>, q: Query, cursor: Option<Cursor>)
    ensures Remaining(lines, q, cursor) == Sort(Filter(lines, Asked(q, cursor)), Order(q))
    ensures Matching(lines, q) == Filter(lines, Asked(q, None))
  {
    FilterOnce(lines, q);
    if cursor.Some? { FilterTwice(lines, q, cursor.value); }
  }

  lemma RemainingListsExactly(rows: seq<PublicRow>, q: Query, cursor: Option<Cursor>)
    requires DistinctIds(Lines(rows))
    ensures ListsExactly(Remaining(Lines(rows), q, cursor), rows, q, cursor)
    ensures |Matching(Lines(rows), q)| == |Places(rows, q, None)|
  {
    var kept := Filter(Lines(rows), Asked(q, cursor));
    RemainingIsAsked(Lines(rows), q, cursor);
    AskedCounts(rows, q, cursor);
    AskedCounts(rows, q, None);
    AskedAre(rows, q, cursor);
    SameMembers(kept, Sort(kept, Order(q)));
    FilterDistinct(Lines(rows), Asked(q, cursor));
    SortPrecedes(kept, q);
  }

  // ----- A page -----

  /** A page lists the first wanted lines past its cursor, says how many are wanted in all, and names its
      last line and the first page's high water when more follow. */
  ghost predicate PageIs(
    r: Reply, rows: seq<PublicRow>, revision: nat, highWater: nat, q: Query, limit: nat, cursor: Option<Cursor>)
    requires 0 < limit
  {
    && r.Page? && r.total == |Places(rows, q, None)|
    && (exists rest ::
          && ListsExactly(rest, rows, q, cursor)
          && r.items == (if |rest| <= limit then rest else rest[..limit])
          && (r.next.None? <==> |rest| <= limit))
    && (r.next.Some? ==>
          && |r.items| == limit
          && var last := r.items[limit - 1];
             r.next.value == Cursor(revision, highWater, q, if Exact(q, last) then 1 else 0,
                                    last.content.createdAt, last.publicId))
  }

  lemma CutExactly(
    rest: seq<Line>, rows: seq<PublicRow>, revision: nat, highWater: nat, q: Query, limit: nat, cursor: Option<Cursor>,
    total: nat)
    requires 0 < limit && ListsExactly(rest, rows, q, cursor) && total == |Places(rows, q, None)|
    ensures PageIs(Cut(rest, revision, highWater, q, limit, total), rows, revision, highWater, q, limit, cursor)
  {
    if |rest| > limit { ExactIsRank(q, rest[limit - 1]); }
  }

  /** A cursor of another query is refused, then one of another revision; otherwise the page is of the rows at
      or below the high water of the first page. */
  lemma ReadExactly(w: World, t: Target, q: Query, limit: nat, cursor: Option<Cursor>, highWater: nat)
    requires 0 < limit && FreshNames(w) && Named(w, t.rows)
    requires highWater == match cursor case None => |t.rows| case Some(c) => c.highWater
    ensures var r := Read(t, q, limit, cursor);
            if cursor.Some? && cursor.value.query != q then r == CursorQueryMismatch
            else if cursor.Some? && cursor.value.revision != t.revision then r == RestartRequired
            else PageIs(r, if highWater < |t.rows| then t.rows[..highWater] else t.rows, t.revision, highWater, q,
                        limit, cursor)
  {
    var rows := if highWater < |t.rows| then t.rows[..highWater] else t.rows;
    assert Lines(t.rows)[..Min(highWater, |t.rows|)] == Lines(rows);
    NamedAreDistinct(w, t.rows, |rows|);
    RemainingListsExactly(rows, q, cursor);
    CutExactly(Remaining(Lines(rows), q, cursor), rows, t.revision, highWater, q, limit, cursor,
               |Matching(Lines(rows), q)|);
  }

  // ----- A whole reading -----

  /** A reading that completes lists every wanted line of the first page's rows, each once and in order, and
      nothing else. */
  lemma ReadingListsExactly(w: World, st: State, q: Query, requests: seq<Request>)
    requires Sensible(requests) && FreshNames(w) && Orderly(w, st.store)
    requires Follow(w, st, q, None, requests).end == Complete
    ensures ListsExactly(Follow(w, st, q, None, requests).items, Run(w, st, requests[0].meanwhile).store.rows, q, None)
  {
    var rows := Run(w, st, requests[0].meanwhile).store.rows;
    var s := Snapshot(Lines(rows), q);
    FollowingReadsOneSnapshot(w, st, q, requests);
    assert s[0..|s|] == s;
    RunBumps(w, st, requests[0].meanwhile);
    NamedAreDistinct(w, rows, |rows|);
    assert Lines(rows)[..|rows|] == Lines(rows);
    RemainingListsExactly(rows, q, None);
  }
}
