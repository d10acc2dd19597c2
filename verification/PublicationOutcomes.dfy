/** What a write stamps and what one publish writes, in the fields of the tables. */
module PublicationOutcomes {
  import opened Sorting
  import opened Publication
  import opened PublicationTheorems
  import opened Feed
  import opened FeedTheorems
  import opened Wrappers

  // ----- Triggers -----

  /** The tables whose writes move the details counter. */
  predicate MovesDetails(t: Table) {
    match t
    case ThesisReviews => false
    case PaperPositions => false
    case DailyPrices => false
    case RuntimeRuns => false
    case RuntimeAttempts => false
    case ScheduleRevisions => false
    case SchedulerObservations => false
    case ScheduleOccurrences => false
    case ExecutionSessions => false
    case TriggerEvents => false
    case DigestNotes => false
    case _ => true
  }

  predicate MovesPerformance(t: Table) {
    match t
    case OrderIntents => true
    case SourceRecords => true
    case ThesisReviews => true
    case ReportingObservations => true
    case PortfolioSnapshots => true
    case PaperFills => true
    case PaperPositions => true
    case DailyPrices => true
    case RegimeSnapshots => true
    case _ => false
  }

  predicate MovesActivity(t: Table) {
    match t
    case ReasoningRuns => true
    case RunLinks => true
    case RuntimeRuns => true
    case RuntimeAttempts => true
    case ScheduleRevisions => true
    case SchedulerObservations => true
    case ScheduleOccurrences => true
    case _ => false
  }

  predicate AsksForAll(t: Table) {
    t == SourceRecords || t == ReportingObservations || t == PortfolioSnapshots || t == RegimeSnapshots
  }

  /** Some row of the table, as it is after the write, ties the intent to the decision. */
  ghost predicate TiesIntent(rows: seq<Row>, intent: Id, d: Id) {
    exists q: Row | q in rows :: q.table == OrderIntents && q.intent == intent && q.decision == d
  }

  ghost predicate TiesRun(rows: seq<Row>, run: Id, d: Id) {
    exists q: Row | q in rows :: q.table == RunLinks && q.run == run && q.decision == d
  }

  /** The written row concerns the decision. */
  ghost predicate Concerns(rows: seq<Row>, r: Row, d: Id) {
    match r.table
    case DecisionRecords => r.decision == d
    case PolicyEvaluations => r.decision == d
    case OrderIntents => r.decision == d
    case RunLinks => r.decision == d
    case ExecutionPackets => TiesIntent(rows, r.intent, d)
    case BrokerRecords => TiesIntent(rows, r.intent, d)
    case BrokerEvents => TiesIntent(rows, r.intent, d)
    case PaperFills => TiesIntent(rows, r.intent, d)
    case StatusEvents => (r.onDecision && r.subject == d) || TiesIntent(rows, r.subject, d)
    case ReasoningRuns => TiesRun(rows, r.run, d)
    case _ => false
  }

  lemma TouchedExactly(rows: seq<Row>, r: Row, d: Id)
    ensures d in Touched(rows, r) <==> Concerns(rows, r, d)
  {
    assert forall intent :: d in DecisionsOfIntent(rows, intent) <==> TiesIntent(rows, intent, d);
    assert forall run :: d in DecisionsOfRun(rows, run) <==> TiesRun(rows, run, d);
  }

  /** A trigger moves its counters by one, stamps the decisions that the row concerns with the details counter,
      and moves the marker there when it asks for all. */
  lemma TriggerExactly(s: Source, rows: seq<Row>, r: Row)
    ensures var s' := Fire(s, rows, r);
            && s'.rows == rows
            && s'.details == (if MovesDetails(r.table) then s.details + 1 else s.details)
            && s'.performance == (if MovesPerformance(r.table) then s.performance + 1 else s.performance)
            && s'.activity == (if MovesActivity(r.table) then s.activity + 1 else s.activity)
            && s'.marker == (if AsksForAll(r.table) then s'.details else s.marker)
            && (forall d :: d in s'.stamps <==> d in s.stamps || Concerns(rows, r, d))
            && (forall d | d in s'.stamps ::
                  s'.stamps[d] == if Concerns(rows, r, d) then s'.details else s.stamps[d])
  {
    forall d ensures d in Touched(rows, r) <==> Concerns(rows, r, d) {
      TouchedExactly(rows, r, d);
    }
  }

  // ----- What a publish looks at -----

  /** A publish looks at nothing when only the activity counter moved; at the decisions stamped since its
      checkpoint when the configuration and the source are the same, no counter fell and no write asked for all
      since; and at every decision otherwise. */
  lemma VisitedExactly(s: Source, id: Id, t: Target, c: Call)
    ensures Visited(s, id, t, c)
         == if c.rebuild || t.checkpoint.None? then None
            else
              var p := t.checkpoint.value;
              if p.clock == c.clock && p.config == c.config && p.source == id && p.details == s.details
                 && p.performance == s.performance then Some({})
              else if p.config == c.config && p.source == id && p.details <= s.details
                      && p.performance <= s.performance && p.activity <= s.activity && s.marker <= p.details then
                Some(set d | d in s.stamps && p.details < s.stamps[d])
              else None
  {
  }

  // ----- What it writes -----

  ghost predicate HasRow(rows: seq<PublicRow>, d: Id) {
    exists i | 0 <= i < |rows| :: rows[i].key == d
  }

  /** A row already there, when its decision is shown. */
  function Showing(r: PublicRow, v: View): PublicRow
    requires v.Show?
  {
    r.(content := v.content, failedRules := v.failedRules, withdrawn := false)
  }

  /** Old rows keep their place, key and identifier, and say what they are to show; new rows follow, each with a
      fresh identifier, for the decisions that are shown and had none. */
  ghost predicate Places(w: World, b: Basis, rows: seq<PublicRow>, rows': seq<PublicRow>, ids: seq<Id>) {
    && |rows| <= |rows'| && UniqueKeys(rows')
    && (forall i | 0 <= i < |rows| ::
          var v := Expected(w, b, rows[i].key);
          rows'[i] == if rows[i].key in ids && v.Show? then Showing(rows[i], v) else rows[i])
    && (forall i | |rows| <= i < |rows'| ::
          var v := Expected(w, b, rows'[i].key);
          && rows'[i].key in ids && v.Show?
          && rows'[i] == PublicRow(rows'[i].key, w.names(i), v.content, v.failedRules, false, false))
    && (forall d | d in ids && Expected(w, b, d).Show? :: HasRow(rows', d))
  }

  lemma UpsertPlacesOne(w: World, b: Basis, rows: seq<PublicRow>, d: Id)
    requires UniqueKeys(rows) && Expected(w, b, d).Show?
    ensures Places(w, b, rows, Upsert(w, rows, d, Expected(w, b, d)), [d])
  {
    var v := Expected(w, b, d);
    var rows' := Upsert(w, rows, d, v);
    UpsertPlaces(w, rows, d, v);
    assert rows'[Find(rows, d)].key == d;
  }

  lemma PlacesChain(
    w: World, b: Basis, rows: seq<PublicRow>, next: seq<PublicRow>, rows': seq<PublicRow>, d: Id, rest: seq<Id>)
    requires Places(w, b, rows, next, [d]) && Places(w, b, next, rows', rest)
    ensures Places(w, b, rows, rows', [d] + rest)
  {
    forall e | e in [d] + rest && Expected(w, b, e).Show? ensures HasRow(rows', e) {
      if HasRow(next, e) {
        var i :| 0 <= i < |next| && next[i].key == e;
        assert rows'[i].key == e;
      }
    }
  }

  lemma PlacesWithoutHidden(
    w: World, b: Basis, rows: seq<PublicRow>, rows': seq<PublicRow>, d: Id, rest: seq<Id>)
    requires Places(w, b, rows, rows', rest) && !Expected(w, b, d).Show?
    ensures Places(w, b, rows, rows', [d] + rest)
  {
  }

  lemma PlacesNothing(w: World, b: Basis, rows: seq<PublicRow>)
    requires UniqueKeys(rows)
    ensures Places(w, b, rows, rows, [])
  {
  }

  lemma {:induction false} PlaceExactly(w: World, b: Basis, rows: seq<PublicRow>, updated: bool, ids: seq<Id>)
    requires UniqueKeys(rows)
    ensures var placed := Place(w, b, rows, updated, ids);
            && (placed.Refused? <==> exists d | d in ids :: Expected(w, b, d).Refuse?)
            && (placed.Placed? ==> Places(w, b, rows, placed.rows, ids))
    decreases |ids|
  {
    PlaceRefuses(w, b, rows, updated, ids);
    if ids == [] {
      PlacesNothing(w, b, rows);
    } else if Place(w, b, rows, updated, ids).Placed? {
      var d, rest := ids[0], ids[1..];
      assert ids == [d] + rest;
      if Expected(w, b, d).Show? {
        var next := Upsert(w, rows, d, Expected(w, b, d));
        UpsertPlacesOne(w, b, rows, d);
        PlaceExactly(w, b, next, updated || Updates(rows, d, Expected(w, b, d)), rest);
        PlacesChain(w, b, rows, next, Place(w, b, rows, updated, ids).rows, d, rest);
      } else {
        PlaceExactly(w, b, rows, updated, rest);
        PlacesWithoutHidden(w, b, rows, Place(w, b, rows, updated, ids).rows, d, rest);
      }
    }
  }

  // ----- One publish -----

  ghost predicate LooksAt(visited: Option<set<Id>>, d: Id) {
    visited.Some? ==> d in visited.value
  }

  /** Rows of decisions that the publish does not look at stay; the others show what their views say now, or are
      withdrawn when they say nothing. New rows follow for the shown decisions that had none. */
  ghost predicate Shows(
    w: World, b: Basis, visited: Option<set<Id>>, rows: seq<PublicRow>, rows': seq<PublicRow>)
  {
    && |rows| <= |rows'| && UniqueKeys(rows')
    && (forall i | 0 <= i < |rows| ::
          var v := Expected(w, b, rows[i].key);
          rows'[i] == if !LooksAt(visited, rows[i].key) then rows[i]
                      else if v.Show? then Showing(rows[i], v) else rows[i].(withdrawn := true))
    && (forall i | |rows| <= i < |rows'| ::
          var v := Expected(w, b, rows'[i].key);
          && LooksAt(visited, rows'[i].key) && v.Show?
          && rows'[i] == PublicRow(rows'[i].key, w.names(i), v.content, v.failedRules, false, false))
    && (forall d | LooksAt(visited, d) && Expected(w, b, d).Show? :: HasRow(rows', d))
  }

  ghost predicate SelectedBy(w: World, b: Basis, visited: Option<set<Id>>, ids: seq<Id>) {
    forall d :: d in ids <==> d in Decisions(b.rows) && LooksAt(visited, d)
  }

  lemma WithdrawShows(
    w: World, b: Basis, visited: Option<set<Id>>, rows: seq<PublicRow>, placed: seq<PublicRow>, ids: seq<Id>)
    requires Places(w, b, rows, placed, ids) && SelectedBy(w, b, visited, ids)
    ensures Shows(w, b, visited, rows, Withdraw(placed, visited, Shown(w, b, ids)))
  {
    var rows' := Withdraw(placed, visited, Shown(w, b, ids));
    forall d | LooksAt(visited, d) && Expected(w, b, d).Show? ensures HasRow(rows', d) {
      var i :| 0 <= i < |placed| && placed[i].key == d;
      assert rows'[i].key == d;
    }
  }

  ghost predicate SomeLineMoved(t: Target, t': Target) {
    exists i | 0 <= i < |t.rows| && i < |t'.rows| :: LineOf(t'.rows[i]) != LineOf(t.rows[i])
  }

  lemma PublishingShows(
    w: World, s: Source, t: Target, c: Call, visited: Option<set<Id>>, current: Checkpoint)
    requires UniqueKeys(t.rows) && Named(w, t.rows)
    requires Publishing(w, s, t, c, visited, current).Some?
    ensures var t' := Publishing(w, s, t, c, visited, current).value;
            && t'.checkpoint == Some(current)
            && t'.revision == t.revision + (if SomeLineMoved(t, t') then 1 else 0)
            && Shows(w, BasisOf(s, c), visited, t.rows, t'.rows)
  {
    var b, ids := BasisOf(s, c), Selected(s, visited);
    PlaceExactly(w, b, t.rows, false, ids);
    forall d ensures d in ids <==> d in Decisions(b.rows) && LooksAt(visited, d) {
      SelectedAre(s, visited, d);
    }
    WithdrawShows(w, b, visited, t.rows, Place(w, b, t.rows, false, ids).rows, ids);
    PublishingBumps(w, s, t, c, visited, current);
  }

  /** A publish is refused exactly when the view of a decision that it looks at refuses, and then leaves the store;
      otherwise it shows what it looks at, records its checkpoint, and moves the revision by one exactly when the
      line of an old row moved. */
  lemma PublishExactly(w: World, s: Source, id: Id, t: Target, c: Call)
    requires UniqueKeys(t.rows) && Named(w, t.rows)
    ensures var r, visited, b := Publish(w, s, id, t, c), Visited(s, id, t, c), BasisOf(s, c);
            && (r.None? <==> exists d :: LooksAt(visited, d) && Expected(w, b, d).Refuse?)
            && (r.Some? ==>
                  && r.value.checkpoint
                     == Some(Checkpoint(c.clock, c.config, id, s.details, s.performance, s.activity))
                  && r.value.revision == t.revision + (if SomeLineMoved(t, r.value) then 1 else 0)
                  && Shows(w, b, visited, t.rows, r.value.rows))
  {
    var visited, b := Visited(s, id, t, c), BasisOf(s, c);
    PublishVisits(w, s, id, t, c);
    RefusedExactly(w, s, id, t, c);
    forall d | Expected(w, b, d).Refuse?
      ensures d in Selected(s, visited) <==> LooksAt(visited, d)
    {
      SelectedAre(s, visited, d);
    }
    if Publish(w, s, id, t, c).Some? {
      PublishingShows(w, s, t, c, visited, CheckpointOf(s, id, c));
    }
  }

  /** A revocation hides the row of the identifier, unless it is hidden, and moves the revision by one. */
  lemma RevokeExactly(t: Target, publicId: Id, i: nat)
    requires i < |t.rows| && t.rows[i].publicId == publicId
    requires forall j, k | 0 <= j < k < |t.rows| :: t.rows[j].publicId != t.rows[k].publicId
    ensures Revoke(t, publicId)
         == if t.rows[i].revoked then t
            else Target(t.rows[i := t.rows[i].(revoked := true)], t.revision + 1, t.checkpoint)
  {
    assert FindPublic(t.rows, publicId) == i;
  }

  // ----- What a view reads -----

  /** A decision's own rows: the rows that name it, those of its intents and runs, and those that any decision
      may read. */
  ghost predicate Own(rows: seq<Row>, r: Row, d: Id) {
    match r.table
    case DecisionRecords => r.decision == d
    case PolicyEvaluations => r.decision == d
    case OrderIntents => r.decision == d
    case RunLinks => r.decision == d
    case ExecutionPackets => TiesIntent(rows, r.intent, d)
    case BrokerRecords => TiesIntent(rows, r.intent, d)
    case BrokerEvents => TiesIntent(rows, r.intent, d)
    case PaperFills => TiesIntent(rows, r.intent, d)
    case StatusEvents => r.onDecision && r.subject == d
    case ReasoningRuns => TiesRun(rows, r.run, d)
    case _ => AsksForAll(r.table)
  }

  lemma SliceExactly(rows: seq<Row>, d: Id, r: Row)
    ensures r in Slice(rows, d) <==> r in rows && Own(rows, r, d)
  {
    assert forall intent :: intent in IntentsOf(rows, d) <==> TiesIntent(rows, intent, d);
    assert forall run :: run in RunsOf(rows, d) <==> TiesRun(rows, run, d);
  }

  /** The tables behind the paper account, and the others that any decision may read. */
  lemma AsideExactly(rows: seq<Row>, c: Call, r: Row)
    ensures var aside := AsideOf(rows, c);
            && (r in aside.accounts
                <==> r in rows && (r.table == OrderIntents || r.table == PaperFills || r.table == PaperPositions
                                   || r.table == DailyPrices))
            && (r in aside.provenance
                <==> r in rows && (r.table == DecisionRecords || r.table == RuntimeRuns || r.table == RuntimeAttempts
                                   || r.table == ExecutionSessions || r.table == TriggerEvents
                                   || r.table == DigestNotes))
            && aside.clock == c.clock && aside.at == c.at
  {
  }

  /** A decision has a view when it has a record, and the view is of its own rows and the aside. */
  lemma ExpectedExactly(w: World, b: Basis, d: Id)
    ensures Expected(w, b, d)
         == if exists r | r in b.rows :: r.table == DecisionRecords && r.decision == d
            then w.project(b.config, d, Slice(b.rows, d), b.aside) else Hide
  {
    DecisionsMembers(b.rows, d);
  }
}
