/** The decision pipeline: schema, policy and order intent, recorded as one append-only history per
    decision. Every call either commits whole or leaves the tables as they were. */
module Pipeline {
  import opened Wrappers

  datatype Mode = Live | Paper

  datatype Decision =
    | Buy | Add | Trim | Sell | Hold | Pass | Watchlist | ShortWatchlist | ShortWatchlistRemove

  datatype Side = BuySide | SellSide

  datatype Record = Record(
    id: string, decision: Decision, createdAt: int, extraordinary: bool, content: int)

  datatype Request = Malformed(id: Option<string>) | WellFormed(record: Record)

  datatype Status =
    | RecordCreated | SchemaValidated | SchemaFailed | PolicyApproved | PolicyRejected | IntentCreated

  datatype Event = Event(status: Status, detail: string)

  datatype Verdict = Verdict(approved: bool, reasons: seq<string>)

  datatype Evaluation = Evaluation(verdict: Verdict, mode: Mode, profile: string, at: int)

  datatype Intent = Intent(side: Side, createdAt: int, mode: Mode, profile: string)

  datatype State = State(
    records: map<string, Record>, history: map<string, seq<Event>>,
    evaluations: map<string, Evaluation>, intents: map<string, Intent>)

  /** What a call reports: the decision, where it ended, why, and whether it has an intent. */
  datatype Outcome = Outcome(
    id: Option<string>, final: Status, reasons: seq<string>, hasIntent: bool)

  datatype Reply = Done(st: State, outcome: Outcome) | Raised

  /** One call: the request, the policy's verdict on it, whether the verdict's inputs could be bound
      to recorded snapshots, and the execution scope. */
  datatype Call = Call(
    request: Request, verdict: Verdict, bound: bool, now: int, mode: Mode, profile: string)

  // ----- Status history -----

  predicate Legal(latest: Option<Status>, next: Status) {
    match latest
    case None => next == RecordCreated || next == SchemaFailed
    case Some(RecordCreated) => next == SchemaValidated
    case Some(SchemaValidated) => next == PolicyApproved || next == PolicyRejected
    case Some(PolicyApproved) => next == IntentCreated
    case Some(_) => false
  }

  function HistoryOf(st: State, id: string): seq<Event> {
    if id in st.history then st.history[id] else []
  }

  function Latest(events: seq<Event>): Option<Status> {
    if events == [] then None else Some(events[|events| - 1].status)
  }

  predicate Reached(events: seq<Event>, status: Status) {
    exists i | 0 <= i < |events| :: events[i].status == status
  }

  /** A status already in the history is a no-op; an illegal transition is refused. */
  function Append(st: State, id: string, status: Status, detail: string): Option<State> {
    var events := HistoryOf(st, id);
    if Reached(events, status) then Some(st)
    else if !Legal(Latest(events), status) then None
    else Some(st.(history := st.history[id := events + [Event(status, detail)]]))
  }

  // ----- Reasons as one text -----

  function Join(reasons: seq<string>): string {
    if reasons == [] then "" else
    if |reasons| == 1 then reasons[0] else reasons[0] + ", " + Join(reasons[1..])
  }

  function CommaAt(text: string): (i: nat)
    ensures i <= |text| && (i < |text| ==> text[i] == ',')
    ensures forall j | 0 <= j < i :: text[j] != ','
  {
    if text == "" || text[0] == ',' then 0 else 1 + CommaAt(text[1..])
  }

  predicate IsSpace(c: char) {
    c == ' ' || c == '\t' || c == '\n' || c == '\r'
  }

  function Strip(text: string): string {
    if text == "" then ""
    else if IsSpace(text[0]) then Strip(text[1..])
    else if IsSpace(text[|text| - 1]) then Strip(text[..|text| - 1])
    else text
  }

  /** Split at commas, strip, and drop what is left empty. */
  function Split(text: string): seq<string>
    decreases |text|
  {
    var i := CommaAt(text);
    var head := Strip(text[..i]);
    (if head == "" then [] else [head]) + if i == |text| then [] else Split(text[i + 1..])
  }

  // ----- One call -----

  function SideOf(d: Decision): Option<Side> {
    match d
    case Buy => Some(BuySide)
    case Add => Some(BuySide)
    case Trim => Some(SellSide)
    case Sell => Some(SellSide)
    case _ => None
  }

  predicate Blank(s: string) {
    Strip(s) == ""
  }

  /** The intent's own validation: a profile for live intents, none for paper ones. */
  predicate ScopeValid(mode: Mode, profile: string) {
    if mode == Live then !Blank(profile) else profile == ""
  }

  /** Create the intent unless it is there, then record that it was created. */
  function WithIntent(st: State, r: Record, c: Call): Option<State>
    requires SideOf(r.decision).Some?
  {
    if r.id in st.intents then Append(st, r.id, IntentCreated, "")
    else if !ScopeValid(c.mode, c.profile) then None
    else
      var intent := Intent(SideOf(r.decision).value, c.now, c.mode, c.profile);
      Append(st.(intents := st.intents[r.id := intent]), r.id, IntentCreated, "")
  }

  function SaveEvaluation(st: State, r: Record, c: Call): Option<State> {
    var e := Evaluation(c.verdict, c.mode, c.profile, c.now);
    if !c.bound then None
    else if r.id in st.evaluations then
      if st.evaluations[r.id] == e then Some(st) else None
    else Some(st.(evaluations := st.evaluations[r.id := e]))
  }

  function Failing(st: State, id: string, detail: string): Reply {
    var next := Append(st, id, SchemaFailed, detail);
    if next.None? then Raised else Done(next.value, Outcome(Some(id), SchemaFailed, [], false))
  }

  function RejectionDetail(events: seq<Event>): string {
    if events == [] then ""
    else if events[|events| - 1].status == PolicyRejected then events[|events| - 1].detail
    else RejectionDetail(events[..|events| - 1])
  }

  function Finishing(next: Option<State>, r: Record): Reply {
    if next.None? then Raised else Done(next.value, Outcome(Some(r.id), IntentCreated, [], true))
  }

  /** The saved record, evaluated: create, validate, judge, and place the intent. */
  function Evaluating(st: State, r: Record, c: Call): Reply {
    var s0 := st.(records := st.records[r.id := r]);
    var s1 := Append(s0, r.id, RecordCreated, "");
    if s1.None? then Raised else
    var s2 := Append(s1.value, r.id, SchemaValidated, "");
    if s2.None? then Raised else
    var s3 := SaveEvaluation(s2.value, r, c);
    if s3.None? then Raised
    else if !c.verdict.approved then
      var s4 := Append(s3.value, r.id, PolicyRejected, Join(c.verdict.reasons));
      if s4.None? then Raised
      else Done(s4.value, Outcome(Some(r.id), PolicyRejected, c.verdict.reasons, false))
    else
      var s4 := Append(s3.value, r.id, PolicyApproved, "");
      if s4.None? then Raised
      else if SideOf(r.decision).None? then
        Done(s4.value, Outcome(Some(r.id), PolicyApproved, [], false))
      else Finishing(WithIntent(s4.value, r, c), r)
  }

  function Fresh(st: State, r: Record, c: Call): Reply {
    if c.now < r.createdAt then Failing(st, r.id, "created_at_cannot_be_in_future")
    else Evaluating(st, r, c)
  }

  function Process(st: State, c: Call): Reply {
    match c.request
    case Malformed(None) => Done(st, Outcome(None, SchemaFailed, [], false))
    case Malformed(Some(id)) => Failing(st, id, "schema")
    case WellFormed(r) =>
      if r.id !in st.records then Fresh(st, r, c)
      else if r.id in st.evaluations
              && (st.evaluations[r.id].mode != c.mode || st.evaluations[r.id].profile != c.profile) then
        Raised
      else if st.records[r.id] != r then Raised
      else
        var events := HistoryOf(st, r.id);
        match Latest(events)
        case Some(IntentCreated) =>
          if r.id !in st.intents || st.intents[r.id].mode != c.mode
             || st.intents[r.id].profile != c.profile then Raised
          else Done(st, Outcome(Some(r.id), IntentCreated, [], true))
        case Some(PolicyRejected) =>
          Done(st, Outcome(Some(r.id), PolicyRejected, Split(RejectionDetail(events)), false))
        case Some(PolicyApproved) =>
          if SideOf(r.decision).None? then Done(st, Outcome(Some(r.id), PolicyApproved, [], false))
          else Finishing(WithIntent(st, r, c), r)
        case _ => Fresh(st, r, c)
  }

  /** The state a call leaves: a raised call is rolled back to its savepoint. */
  function After(st: State, c: Call): State {
    var reply := Process(st, c);
    if reply.Done? then reply.st else st
  }

  datatype Result = Returned(outcome: Outcome) | Exception

  class Ledger {
    var records: map<string, Record>
    var history: map<string, seq<Event>>
    var evaluations: map<string, Evaluation>
    var intents: map<string, Intent>

    function Tables(): State
      reads this
    {
      State(records, history, evaluations, intents)
    }

    constructor ()
      ensures Tables() == State(map[], map[], map[], map[])
    {
      records, history, evaluations, intents := map[], map[], map[], map[];
    }

    method AppendStatus(id: string, status: Status, detail: string) returns (legal: bool)
      modifies this`history
      ensures legal <==> Append(old(Tables()), id, status, detail).Some?
      ensures Tables() == if legal then Append(old(Tables()), id, status, detail).value
                          else old(Tables())
    {
      var events := if id in history then history[id] else [];
      if Reached(events, status) {
        return true;
      }
      if !Legal(Latest(events), status) {
        return false;
      }
      history := history[id := events + [Event(status, detail)]];
      return true;
    }

    method PlaceIntent(r: Record, c: Call) returns (ok: bool)
      requires SideOf(r.decision).Some?
      modifies this`history, this`intents
      ensures ok <==> WithIntent(old(Tables()), r, c).Some?
      ensures ok ==> Tables() == WithIntent(old(Tables()), r, c).value
    {
      if r.id !in intents {
        if !ScopeValid(c.mode, c.profile) {
          return false;
        }
        intents := intents[r.id := Intent(SideOf(r.decision).value, c.now, c.mode, c.profile)];
      }
      ok := AppendStatus(r.id, IntentCreated, "");
    }

    method Fail(id: string, detail: string) returns (result: Result)
      modifies this`history
      ensures match Failing(old(Tables()), id, detail)
              case Done(st, outcome) => Tables() == st && result == Returned(outcome)
              case Raised => result == Exception
    {
      var ok := AppendStatus(id, SchemaFailed, detail);
      if !ok {
        return Exception;
      }
      return Returned(Outcome(Some(id), SchemaFailed, [], false));
    }

    method Evaluate(r: Record, c: Call) returns (result: Result)
      modifies this
      ensures match Evaluating(old(Tables()), r, c)
              case Done(st, outcome) => Tables() == st && result == Returned(outcome)
              case Raised => result == Exception
    {
      records := records[r.id := r];
      var ok := AppendStatus(r.id, RecordCreated, "");
      if !ok {
        return Exception;
      }
      ok := AppendStatus(r.id, SchemaValidated, "");
      if !ok {
        return Exception;
      }
      var e := Evaluation(c.verdict, c.mode, c.profile, c.now);
      if !c.bound || (r.id in evaluations && evaluations[r.id] != e) {
        return Exception;
      }
      if r.id !in evaluations {
        evaluations := evaluations[r.id := e];
      }
      if !c.verdict.approved {
        ok := AppendStatus(r.id, PolicyRejected, Join(c.verdict.reasons));
        return if ok then Returned(Outcome(Some(r.id), PolicyRejected, c.verdict.reasons, false))
          else Exception;
      }
      ok := AppendStatus(r.id, PolicyApproved, "");
      if !ok {
        return Exception;
      }
      if SideOf(r.decision).None? {
        return Returned(Outcome(Some(r.id), PolicyApproved, [], false));
      }
      ok := PlaceIntent(r, c);
      return if ok then Returned(Outcome(Some(r.id), IntentCreated, [], true)) else Exception;
    }

    method ProcessInside(c: Call) returns (result: Result)
      modifies this
      ensures match Process(old(Tables()), c)
              case Done(st, outcome) => Tables() == st && result == Returned(outcome)
              case Raised => result == Exception
    {
      if c.request.Malformed? {
        if c.request.id.None? {
          return Returned(Outcome(None, SchemaFailed, [], false));
        }
        result := Fail(c.request.id.value, "schema");
        return;
      }
      var r := c.request.record;
      if r.id in records {
        if r.id in evaluations
           && (evaluations[r.id].mode != c.mode || evaluations[r.id].profile != c.profile)
        {
          return Exception;
        }
        if records[r.id] != r {
          return Exception;
        }
        var events := if r.id in history then history[r.id] else [];
        var current := Latest(events);
        if current == Some(IntentCreated) {
          if r.id !in intents || intents[r.id].mode != c.mode || intents[r.id].profile != c.profile {
            return Exception;
          }
          return Returned(Outcome(Some(r.id), IntentCreated, [], true));
        }
        if current == Some(PolicyRejected) {
          return Returned(
            Outcome(Some(r.id), PolicyRejected, Split(RejectionDetail(events)), false));
        }
        if current == Some(PolicyApproved) {
          if SideOf(r.decision).None? {
            return Returned(Outcome(Some(r.id), PolicyApproved, [], false));
          }
          var ok := PlaceIntent(r, c);
          return if ok then Returned(Outcome(Some(r.id), IntentCreated, [], true)) else Exception;
        }
      }
      if c.now < r.createdAt {
        result := Fail(r.id, "created_at_cannot_be_in_future");
      } else {
        result := Evaluate(r, c);
      }
    }

    /** The savepoint around a call: an exception restores every table. */
    method ProcessDecision(c: Call) returns (result: Result)
      modifies this
      ensures Tables() == After(old(Tables()), c)
      ensures match Process(old(Tables()), c)
              case Done(_, outcome) => result == Returned(outcome)
              case Raised => result == Exception
    {
      var r0, h0, e0, i0 := records, history, evaluations, intents;
      result := ProcessInside(c);
      if result == Exception {
        records, history, evaluations, intents := r0, h0, e0, i0;
      }
    }
  }
}
