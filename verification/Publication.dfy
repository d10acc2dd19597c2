/** Publication of decisions into a separate public store. Triggers on the source stamp the decisions
    a write touches with a counter; a publish revisits the stamped ones, or everything when it must. */
module Publication {
  import opened Sorting
  import opened Wrappers

  type Id = int

  // ----- The source tables and their triggers -----

  datatype Table =
    | DecisionRecords | PolicyEvaluations | OrderIntents | RunLinks
    | ExecutionPackets | BrokerRecords | BrokerEvents | PaperFills
    | StatusEvents | ReasoningRuns
    | SourceRecords | ReportingObservations | PortfolioSnapshots | RegimeSnapshots
    | ThesisReviews | PaperPositions | DailyPrices
    | RuntimeRuns | RuntimeAttempts | ScheduleRevisions | SchedulerObservations | ScheduleOccurrences
    | ExecutionSessions | TriggerEvents | DigestNotes

  /** A row: its reference columns and the rest. A table ignores the columns it does not have. */
  datatype Row = Row(
    table: Table, decision: Id, intent: Id, run: Id, subject: Id, onDecision: bool, body: int)

  predicate OfDecision(table: Table) {
    table in {DecisionRecords, PolicyEvaluations, OrderIntents, RunLinks}
  }

  predicate OfIntent(table: Table) {
    table in {ExecutionPackets, BrokerRecords, BrokerEvents, PaperFills}
  }

  /** Tables any decision may read: a write to one asks for a full revisit. */
  predicate OfEverything(table: Table) {
    table in {SourceRecords, ReportingObservations, PortfolioSnapshots, RegimeSnapshots}
  }

  predicate InDetails(table: Table) {
    OfDecision(table) || OfIntent(table) || OfEverything(table) || table == StatusEvents
    || table == ReasoningRuns
  }

  predicate InPerformance(table: Table) {
    table in {OrderIntents, SourceRecords, ThesisReviews, ReportingObservations, PortfolioSnapshots,
              PaperFills, PaperPositions, DailyPrices, RegimeSnapshots}
  }

  predicate InActivity(table: Table) {
    table in {ReasoningRuns, RunLinks, RuntimeRuns, RuntimeAttempts, ScheduleRevisions,
              SchedulerObservations, ScheduleOccurrences}
  }

  function DecisionsOfIntent(rows: seq<Row>, intent: Id): set<Id> {
    set q | q in rows && q.table == OrderIntents && q.intent == intent :: q.decision
  }

  function DecisionsOfRun(rows: seq<Row>, run: Id): set<Id> {
    set q | q in rows && q.table == RunLinks && q.run == run :: q.decision
  }

  /** The decisions a trigger stamps for a written row, looked up in the tables after the write. */
  function Touched(rows: seq<Row>, r: Row): set<Id> {
    if OfDecision(r.table) then {r.decision}
    else if OfIntent(r.table) then DecisionsOfIntent(rows, r.intent)
    else if r.table == StatusEvents then
      (if r.onDecision then {r.subject} else {}) + DecisionsOfIntent(rows, r.subject)
    else if r.table == ReasoningRuns then DecisionsOfRun(rows, r.run)
    else {}
  }

  datatype Source = Source(
    rows: seq<Row>, details: nat, performance: nat, activity: nat, stamps: map<Id, nat>, marker: nat)

  function Bump(counter: nat, moved: bool): nat {
    if moved then counter + 1 else counter
  }

  function Stamp(stamps: map<Id, nat>, touched: set<Id>, at: nat): map<Id, nat> {
    map d | d in stamps.Keys + touched :: if d in touched then at else stamps[d]
  }

  /** The trigger after a write of `r`; on an update it sees only the new row. */
  function Fire(s: Source, rows: seq<Row>, r: Row): Source {
    var details := Bump(s.details, InDetails(r.table));
    Source(rows, details, Bump(s.performance, InPerformance(r.table)),
           Bump(s.activity, InActivity(r.table)),
           Stamp(s.stamps, Touched(rows, r), details),
           if OfEverything(r.table) then details else s.marker)
  }

  datatype Write = Insert(row: Row) | Replace(at: nat, row: Row) | Delete(at: nat)

  function Apply(s: Source, w: Write): Source {
    match w
    case Insert(r) => Fire(s, s.rows + [r], r)
    case Replace(i, r) =>
      if i < |s.rows| && r.table == s.rows[i].table then Fire(s, s.rows[i := r], r) else s
    case Delete(i) =>
      if i < |s.rows| then Fire(s, s.rows[..i] + s.rows[i + 1..], s.rows[i]) else s
  }

  class Tracked {
    var rows: seq<Row>
    var details: nat
    var performance: nat
    var activity: nat
    var stamps: map<Id, nat>
    var marker: nat

    function Tables(): Source
      reads this
    {
      Source(rows, details, performance, activity, stamps, marker)
    }

    constructor ()
      ensures Tables() == Source([], 0, 0, 0, map[], 0)
    {
      rows, details, performance, activity, stamps, marker := [], 0, 0, 0, map[], 0;
    }

    method Trigger(r: Row)
      modifies this
      ensures Tables() == Fire(old(Tables()), old(rows), r)
    {
      if InDetails(r.table) {
        details := details + 1;
      }
      if InPerformance(r.table) {
        performance := performance + 1;
      }
      if InActivity(r.table) {
        activity := activity + 1;
      }
      if OfEverything(r.table) {
        marker := details;
      }
      stamps := Stamp(stamps, Touched(rows, r), details);
    }

    method Perform(w: Write)
      modifies this
      ensures Tables() == Apply(old(Tables()), w)
    {
      match w
      case Insert(r) =>
        rows := rows + [r];
        Trigger(r);
      case Replace(i, r) =>
        if i < |rows| && r.table == rows[i].table {
          rows := rows[i := r];
          Trigger(r);
        }
      case Delete(i) =>
        if i < |rows| {
          var gone := rows[i];
          rows := rows[..i] + rows[i + 1..];
          Trigger(gone);
        }
    }
  }

  // ----- What a decision's projection reads -----

  function IntentsOf(rows: seq<Row>, d: Id): set<Id> {
    set q | q in rows && q.table == OrderIntents && q.decision == d :: q.intent
  }

  function RunsOf(rows: seq<Row>, d: Id): set<Id> {
    set q | q in rows && q.table == RunLinks && q.decision == d :: q.run
  }

  predicate Relevant(r: Row, d: Id, intents: set<Id>, runs: set<Id>) {
    || (OfDecision(r.table) && r.decision == d)
    || (OfIntent(r.table) && r.intent in intents)
    || (r.table == StatusEvents && r.onDecision && r.subject == d)
    || (r.table == ReasoningRuns && r.run in runs)
    || OfEverything(r.table)
  }

  function Slice(rows: seq<Row>, d: Id): seq<Row> {
    var intents, runs := IntentsOf(rows, d), RunsOf(rows, d);
    Filter(rows, r => Relevant(r, d, intents, runs))
  }

  /** The tables behind the paper account, which is rebuilt as a whole from the fills when it has no
      observations of its own, so that any decision's execution may depend on all of their rows. */
  predicate InAccounts(table: Table) {
    table in {OrderIntents, PaperFills, PaperPositions, DailyPrices}
  }

  /** Other tables that any decision's projection may read: the records the account joins, run
      provenance, execution models, trigger posts and digest models. */
  predicate InProvenance(table: Table) {
    table in {DecisionRecords, RuntimeRuns, RuntimeAttempts, ExecutionSessions, TriggerEvents, DigestNotes}
  }

  function IsAccount(): Row -> bool {
    (r: Row) => InAccounts(r.table)
  }

  function IsProvenance(): Row -> bool {
    (r: Row) => InProvenance(r.table)
  }

  /** What any decision may read beside its own rows: a write to it stamps no decision that merely
      reads it. The clock is the accounting clock, and `at` the instant of the publish itself. */
  datatype Aside = Aside(accounts: seq<Row>, provenance: seq<Row>, clock: int, at: int)

  function AsideOf(rows: seq<Row>, c: Call): Aside {
    Aside(Filter(rows, IsAccount()), Filter(rows, IsProvenance()), c.clock, c.at)
  }

  /** The public columns of a decision. `hits` is its entry in the search index: the searches that
      find it. */
  datatype Content = Content(
    portfolio: string, createdAt: int, ticker: string, action: string, policy: string,
    lifecycle: string, run: string, hits: set<string>, body: int)

  /** A projection hides a decision, refuses the whole publish, or shows content and failed rules. */
  datatype View = Hide | Refuse | Show(content: Content, failedRules: set<string>)

  /** The projection code and the supply of fresh public identifiers, both arbitrary. */
  datatype World = World(project: (int, Id, seq<Row>, Aside) -> View, names: nat -> Id)

  function Decisions(rows: seq<Row>): seq<Id> {
    if rows == [] then []
    else (if rows[0].table == DecisionRecords then [rows[0].decision] else []) + Decisions(rows[1..])
  }

  /** What a projection is made from. */
  datatype Basis = Basis(config: int, rows: seq<Row>, aside: Aside)

  function BasisOf(s: Source, c: Call): Basis {
    Basis(c.config, s.rows, AsideOf(s.rows, c))
  }

  /** What the public store should say of a decision. */
  function Expected(w: World, b: Basis, d: Id): View {
    if d in Decisions(b.rows) then w.project(b.config, d, Slice(b.rows, d), b.aside) else Hide
  }

  // ----- The public store -----

  datatype PublicRow = PublicRow(
    key: Id, publicId: Id, content: Content, failedRules: set<string>, revoked: bool,
    withdrawn: bool)

  datatype Checkpoint = Checkpoint(
    clock: int, config: int, source: Id, details: nat, performance: nat, activity: nat)

  /** Rows in sequence order: row `i` has sequence `i + 1`. Rows are never removed. */
  datatype Target = Target(rows: seq<PublicRow>, revision: nat, checkpoint: Option<Checkpoint>)

  datatype Call = Call(config: int, clock: int, at: int, rebuild: bool)

  function Find(rows: seq<PublicRow>, key: Id): (i: nat)
    ensures i <= |rows| && (i < |rows| ==> rows[i].key == key)
    ensures forall j | 0 <= j < i :: rows[j].key != key
  {
    if rows == [] || rows[0].key == key then 0 else 1 + Find(rows[1..], key)
  }

  predicate UpToDate(r: PublicRow, content: Content) {
    r.content == content && !r.withdrawn
  }

  function Upsert(w: World, rows: seq<PublicRow>, d: Id, v: View): seq<PublicRow>
    requires v.Show?
  {
    var i := Find(rows, d);
    if i < |rows| then
      rows[i := rows[i].(content := v.content, failedRules := v.failedRules, withdrawn := false)]
    else rows + [PublicRow(d, w.names(|rows|), v.content, v.failedRules, false, false)]
  }

  /** Whether an upsert counts as an update of a row that was already there. */
  predicate Updates(rows: seq<PublicRow>, d: Id, v: View)
    requires v.Show?
  {
    var i := Find(rows, d);
    i < |rows| && !UpToDate(rows[i], v.content)
  }

  datatype Placed = Refused | Placed(rows: seq<PublicRow>, updated: bool)

  function Place(
    w: World, b: Basis, rows: seq<PublicRow>, updated: bool, ids: seq<Id>): Placed
    decreases |ids|
  {
    if ids == [] then Placed(rows, updated) else
    match Expected(w, b, ids[0])
    case Refuse => Refused
    case Hide => Place(w, b, rows, updated, ids[1..])
    case Show(c, f) =>
      Place(w, b, Upsert(w, rows, ids[0], Show(c, f)),
            updated || Updates(rows, ids[0], Show(c, f)), ids[1..])
  }

  function Shown(w: World, b: Basis, ids: seq<Id>): set<Id> {
    set d | d in ids && Expected(w, b, d).Show?
  }

  /** A row to withdraw: visible, looked at by this publish, and not shown by it. */
  predicate Condemned(r: PublicRow, revisited: Option<set<Id>>, shown: set<Id>) {
    !r.withdrawn && r.key !in shown && (revisited.None? || r.key in revisited.value)
  }

  function Withdraw(rows: seq<PublicRow>, revisited: Option<set<Id>>, shown: set<Id>): seq<PublicRow> {
    seq(|rows|, i requires 0 <= i < |rows| =>
      if Condemned(rows[i], revisited, shown) then rows[i].(withdrawn := true) else rows[i])
  }

  predicate Withdraws(rows: seq<PublicRow>, revisited: Option<set<Id>>, shown: set<Id>) {
    exists i | 0 <= i < |rows| :: Condemned(rows[i], revisited, shown)
  }

  function Stamped(s: Source, since: nat): set<Id> {
    set d | d in s.stamps && since < s.stamps[d]
  }

  /** Nothing a decision or its accounting reads has changed. */
  predicate Quiet(previous: Checkpoint, current: Checkpoint) {
    current == previous.(activity := current.activity)
  }

  predicate SameConfiguration(previous: Checkpoint, current: Checkpoint) {
    && previous.config == current.config && previous.source == current.source
    && previous.details <= current.details && previous.performance <= current.performance
    && previous.activity <= current.activity
  }

  /** The decisions a publish revisits: the stamped ones when it can, otherwise all of them. */
  function Revisited(s: Source, previous: Option<Checkpoint>, current: Checkpoint): Option<set<Id>> {
    if previous.Some? && SameConfiguration(previous.value, current)
       && s.marker <= previous.value.details
    then Some(Stamped(s, previous.value.details)) else None
  }

  function Selected(s: Source, revisited: Option<set<Id>>): seq<Id> {
    if revisited.None? then Decisions(s.rows)
    else Filter(Decisions(s.rows), d => d in revisited.value)
  }

  function Publishing(
    w: World, s: Source, t: Target, c: Call, revisited: Option<set<Id>>, current: Checkpoint)
    : Option<Target>
  {
    var ids := Selected(s, revisited);
    match Place(w, BasisOf(s, c), t.rows, false, ids)
    case Refused => None
    case Placed(rows, updated) =>
      var shown := Shown(w, BasisOf(s, c), ids);
      var bumped := updated || Withdraws(rows, revisited, shown);
      Some(Target(Withdraw(rows, revisited, shown), Bump(t.revision, bumped), Some(current)))
  }

  function CheckpointOf(s: Source, source: Id, c: Call): Checkpoint {
    Checkpoint(c.clock, c.config, source, s.details, s.performance, s.activity)
  }

  /** One publish of source `source`: None when it is refused, which leaves the store as it was. */
  function Publish(w: World, s: Source, source: Id, t: Target, c: Call): Option<Target> {
    var current := CheckpointOf(s, source, c);
    var previous := if c.rebuild then None else t.checkpoint;
    if previous == Some(current) then Some(t)
    else if previous.Some? && Quiet(previous.value, current) then
      Some(t.(checkpoint := Some(current)))
    else Publishing(w, s, t, c, Revisited(s, previous, current), current)
  }

  /** The decisions a publish looks at: all of them, the stamped ones, or none. */
  function Visited(s: Source, source: Id, t: Target, c: Call): Option<set<Id>> {
    var current := CheckpointOf(s, source, c);
    var previous := if c.rebuild then None else t.checkpoint;
    if previous.Some? && Quiet(previous.value, current) then Some({}) else Revisited(s, previous, current)
  }

  predicate PassedOver(s: Source, source: Id, t: Target, c: Call, d: Id) {
    Visited(s, source, t, c).Some? && d !in Visited(s, source, t, c).value
  }

  function FindPublic(rows: seq<PublicRow>, publicId: Id): (i: nat)
    ensures i <= |rows| && (i < |rows| ==> rows[i].publicId == publicId)
    ensures forall j | 0 <= j < i :: rows[j].publicId != publicId
  {
    if rows == [] || rows[0].publicId == publicId then 0 else 1 + FindPublic(rows[1..], publicId)
  }

  function Revoke(t: Target, publicId: Id): Target {
    var i := FindPublic(t.rows, publicId);
    if i < |t.rows| && !t.rows[i].revoked then
      t.(rows := t.rows[i := t.rows[i].(revoked := true)], revision := t.revision + 1)
    else t
  }

  class Store {
    var rows: seq<PublicRow>
    var revision: nat
    var checkpoint: Option<Checkpoint>

    function Contents(): Target
      reads this
    {
      Target(rows, revision, checkpoint)
    }

    constructor ()
      ensures Contents() == Target([], 0, None)
    {
      rows, revision, checkpoint := [], 0, None;
    }

    method UpsertOne(w: World, d: Id, c: Content, f: set<string>) returns (updated: bool)
      modifies this`rows
      ensures rows == Upsert(w, old(rows), d, Show(c, f))
      ensures updated <==> Updates(old(rows), d, Show(c, f))
    {
      var i := Find(rows, d);
      if i == |rows| {
        rows := rows + [PublicRow(d, w.names(i), c, f, false, false)];
        return false;
      }
      rows := rows[i := rows[i].(failedRules := f)];
      updated := !UpToDate(rows[i], c);
      if updated {
        rows := rows[i := rows[i].(content := c, withdrawn := false)];
      }
    }

    /** The loop over the selected decisions. */
    method PlaceAll(w: World, b: Basis, ids: seq<Id>)
      returns (refused: bool, updated: nat, seen: set<Id>)
      modifies this`rows
      ensures match Place(w, b, old(rows), false, ids)
              case Refused => refused
              case Placed(rows', changed) =>
                !refused && rows == rows' && (changed <==> 0 < updated)
                && seen == Shown(w, b, ids)
    {
      refused, updated, seen := false, 0, {};
      var i := 0;
      while i < |ids|
        invariant 0 <= i <= |ids| && !refused
        invariant Place(w, b, old(rows), false, ids)
               == Place(w, b, rows, 0 < updated, ids[i..])
        invariant seen == Shown(w, b, ids[..i])
      {
        var d := ids[i];
        assert ids[i..][0] == d && ids[i..][1..] == ids[i + 1..];
        assert ids[..i + 1] == ids[..i] + [d];
        match Expected(w, b, d) {
        case Refuse =>
          return true, updated, seen;
        case Hide =>
        case Show(c, f) =>
          seen := seen + {d};
          var counted := UpsertOne(w, d, c, f);
          if counted {
            updated := updated + 1;
          }
        }
        i := i + 1;
      }
      assert ids[..i] == ids;
    }

    /** The loop over the withdrawal keys. */
    method WithdrawAll(revisited: Option<set<Id>>, seen: set<Id>) returns (withdrawn: nat)
      modifies this`rows
      ensures rows == Withdraw(old(rows), revisited, seen)
      ensures 0 < withdrawn <==> Withdraws(old(rows), revisited, seen)
    {
      withdrawn := 0;
      var i := 0;
      while i < |rows|
        invariant 0 <= i <= |rows| == |old(rows)|
        invariant forall k | 0 <= k < |rows| ::
                    rows[k] == if k < i && Condemned(old(rows)[k], revisited, seen)
                               then old(rows)[k].(withdrawn := true) else old(rows)[k]
        invariant 0 < withdrawn <==> exists k | 0 <= k < i :: Condemned(old(rows)[k], revisited, seen)
      {
        if Condemned(rows[i], revisited, seen) {
          rows := rows[i := rows[i].(withdrawn := true)];
          withdrawn := withdrawn + 1;
        }
        i := i + 1;
      }
    }

    method PublishFrom(w: World, s: Source, source: Id, c: Call) returns (ok: bool)
      modifies this
      ensures ok <==> Publish(w, s, source, old(Contents()), c).Some?
      ensures Contents() == if ok then Publish(w, s, source, old(Contents()), c).value
                            else old(Contents())
    {
      var current := CheckpointOf(s, source, c);
      var previous := if c.rebuild then None else checkpoint;
      if previous == Some(current) {
        return true;
      }
      var saved := checkpoint;
      checkpoint := Some(current);
      if previous.Some? && Quiet(previous.value, current) {
        return true;
      }
      var revisited := Revisited(s, previous, current);
      var before := rows;
      var refused, updated, seen := PlaceAll(w, BasisOf(s, c), Selected(s, revisited));
      if refused {
        rows, checkpoint := before, saved;
        return false;
      }
      var withdrawn := WithdrawAll(revisited, seen);
      if 0 < updated || 0 < withdrawn {
        revision := revision + 1;
      }
      return true;
    }

    method RevokeOne(publicId: Id) returns (changed: bool)
      modifies this
      ensures Contents() == Revoke(old(Contents()), publicId)
      ensures changed <==> Contents() != old(Contents())
    {
      var i := FindPublic(rows, publicId);
      changed := i < |rows| && !rows[i].revoked;
      if changed {
        rows := rows[i := rows[i].(revoked := true)];
        revision := revision + 1;
      }
    }
  }
}
