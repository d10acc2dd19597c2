/** Fenced runtime leases: one attempt at a time holds an account's lease, and every write carries the
    fence it was granted under. A clock reading is an instant and the New York day it falls on; both
    are given by the caller and nothing is assumed about how successive readings relate. */
module Leases {
  import opened Wrappers

  datatype Status =
    | Running | Completed | NoAction | Failed | Blocked | TimedOut | Canceled | Expired

  datatype Stage = Starting | Authoring | Validating | Submitting | Finished

  datatype Mode = Live | Paper

  // The `mode/account` key a lease belongs to.
  datatype Scope = Scope(mode: Mode, account: string)

  datatype Run = Run(
    scope: Scope, profile: string, sessionDate: int, preparedAt: int, reasoning: Option<string>)

  datatype Attempt = Attempt(
    id: string, run: string, number: nat, fence: nat, status: Status, stage: Stage,
    startedAt: int, heartbeatAt: int, finishedAt: Option<int>)

  datatype Lease = Lease(fence: nat, holder: Option<string>, expiresAt: int)

  // A prepared reasoning run: completed once, by a manual submission or by the attempt around it.
  datatype Reasoning = Prepared | DecisionsAuthored | NothingAuthored | ReasoningFailed

  datatype Link = Link(reasoning: string, snapshot: string)

  datatype State = State(
    runs: map<string, Run>, attempts: seq<Attempt>, leases: map<Scope, Lease>,
    tags: map<string, string>,        // decision row -> attempt that wrote it, "" for none
    links: map<string, Link>, reasonings: map<string, Reasoning>)

  datatype Error =
    | InvalidRequest | LeaseLost | Overlap | RunMissing | AttemptMissing | ScheduleRefused
    | PrecedesPreparation | SessionStale | AlreadyCompletedManually | RetryRequired | NothingToRetry
    | IdentityTaken | ClockBackwards | HasDecisions | BlankSummary | IdentityMismatch
    | OutsideNamespace | PipelineRefused | LinkedElsewhere | BelongsToAnother | RunImmutable
    | ReasoningMissing | AlreadyComplete | CompletionMismatch

  datatype Outcome = Ok(attempt: Option<Attempt>) | Err(error: Error)

  /** The state after an operation and what it answered. A refused operation is rolled back. */
  datatype Reply = Reply(st: State, outcome: Outcome)

  function Refuse(st: State, error: Error): Reply {
    Reply(st, Err(error))
  }

  // ----- Queries -----

  function RowOf(rows: seq<Attempt>, id: string): (i: nat)
    ensures i <= |rows| && (i < |rows| ==> rows[i].id == id)
    ensures forall j | 0 <= j < i :: rows[j].id != id
  {
    if rows == [] || rows[0].id == id then 0 else 1 + RowOf(rows[1..], id)
  }

  /** The attempt of a run with the highest number. */
  function Prior(rows: seq<Attempt>, run: string): Option<Attempt> {
    if rows == [] then None else
    var rest, last := Prior(rows[..|rows| - 1], run), rows[|rows| - 1];
    if last.run == run && (rest.None? || rest.value.number < last.number) then Some(last) else rest
  }

  predicate HoldsLease(leases: map<Scope, Lease>, id: string, fence: nat, now: int) {
    exists s | s in leases ::
      leases[s].holder == Some(id) && leases[s].fence == fence && now < leases[s].expiresAt
  }

  function ValidateFence(st: State, id: string, fence: nat, now: int): Outcome {
    var i := RowOf(st.attempts, id);
    if i == |st.attempts| then Err(AttemptMissing)
    else if st.attempts[i].status != Running || st.attempts[i].fence != fence
            || !HoldsLease(st.leases, id, fence, now) then Err(LeaseLost)
    else Ok(Some(st.attempts[i]))
  }

  // ----- Row updates -----

  function Close(a: Attempt, status: Status, now: int): Attempt {
    a.(status := status, stage := Finished, finishedAt := Some(now))
  }

  function CloseRows(rows: seq<Attempt>, ids: set<string>, status: Status, now: int): seq<Attempt> {
    seq(|rows|, i requires 0 <= i < |rows| =>
      if rows[i].id in ids && rows[i].status == Running then Close(rows[i], status, now) else rows[i])
  }

  function ClearHolders(leases: map<Scope, Lease>, ids: set<string>): map<Scope, Lease> {
    map s | s in leases ::
      if leases[s].holder.Some? && leases[s].holder.value in ids then leases[s].(holder := None)
      else leases[s]
  }

  function DueHolders(leases: map<Scope, Lease>, now: int): set<string> {
    set s | s in leases && leases[s].holder.Some? && leases[s].expiresAt <= now
      :: leases[s].holder.value
  }

  function CloseAll(st: State, ids: set<string>, status: Status, now: int): State {
    st.(attempts := CloseRows(st.attempts, ids, status, now), leases := ClearHolders(st.leases, ids))
  }

  lemma CloseOneMore(st: State, ids: set<string>, id: string, status: Status, now: int)
    requires status != Running
    ensures CloseAll(CloseAll(st, ids, status, now), {id}, status, now)
         == CloseAll(st, ids + {id}, status, now)
  {
    var once := CloseAll(st, ids, status, now);
    assert CloseRows(once.attempts, {id}, status, now)
        == CloseRows(st.attempts, ids + {id}, status, now);
    assert ClearHolders(once.leases, {id}) == ClearHolders(st.leases, ids + {id});
  }

  lemma CloseNone(st: State, status: Status, now: int)
    ensures CloseAll(st, {}, status, now) == st
  {
    assert CloseRows(st.attempts, {}, status, now) == st.attempts;
    assert ClearHolders(st.leases, {}) == st.leases;
  }

  // ----- Operations -----

  function ExpireSpec(st: State, now: int): State {
    CloseAll(st, DueHolders(st.leases, now), Expired, now)
  }

  /** A claim request: fresh identity, clock, and the schedule's own verdict. */
  datatype ClaimArgs = ClaimArgs(
    run: string, hex: string, modelNamed: bool, now: int, today: int, retry: bool,
    seconds: int, scheduleAllows: bool)

  function NewId(c: ClaimArgs): string {
    "attempt_" + c.hex
  }

  predicate LeaseSecondsOk(seconds: int) {
    10 <= seconds <= 3600
  }

  function LeaseOf(st: State, scope: Scope): Lease {
    if scope in st.leases then st.leases[scope] else Lease(0, None, 0)
  }

  function ClaimRefusal(st: State, c: ClaimArgs): Option<Error> {
    if c.run !in st.runs then Some(RunMissing)
    else if !c.scheduleAllows then Some(ScheduleRefused)
    else
      var run := st.runs[c.run];
      var prior := Prior(st.attempts, c.run);
      if c.now < run.preparedAt then Some(PrecedesPreparation)
      else if run.sessionDate != c.today then Some(SessionStale)
      else if LeaseOf(st, run.scope).holder.Some? then Some(Overlap)
      else if prior.None? && run.reasoning.Some?
              && (run.reasoning.value !in st.reasonings
                  || st.reasonings[run.reasoning.value] != Prepared) then
        Some(AlreadyCompletedManually)
      else if prior.Some?
              && (!c.retry || prior.value.status == Completed || prior.value.status == NoAction) then
        Some(RetryRequired)
      else if c.retry && prior.None? then Some(NothingToRetry)
      else if RowOf(st.attempts, NewId(c)) < |st.attempts| then Some(IdentityTaken)
      else None
  }

  function NewAttempt(st: State, c: ClaimArgs): Attempt
    requires c.run in st.runs
  {
    var prior := Prior(st.attempts, c.run);
    Attempt(NewId(c), c.run, if prior.Some? then prior.value.number + 1 else 1,
            LeaseOf(st, st.runs[c.run].scope).fence + 1, Running, Starting, c.now, c.now, None)
  }

  function ClaimSpec(st: State, c: ClaimArgs): Reply {
    if !c.modelNamed || !LeaseSecondsOk(c.seconds) then Refuse(st, InvalidRequest) else
    var swept := ExpireSpec(st, c.now);
    var refusal := ClaimRefusal(swept, c);
    if refusal.Some? then Refuse(st, refusal.value) else
    var a := NewAttempt(swept, c);
    Reply(swept.(attempts := swept.attempts + [a],
                 leases := swept.leases[swept.runs[c.run].scope :=
                                          Lease(a.fence, Some(a.id), c.now + c.seconds)]),
          Ok(Some(a)))
  }

  function RenewLeases(leases: map<Scope, Lease>, id: string, until: int): map<Scope, Lease> {
    map s | s in leases ::
      if leases[s].holder == Some(id) then leases[s].(expiresAt := until) else leases[s]
  }

  function HeartbeatSpec(
    st: State, id: string, fence: nat, now: int, stage: Option<Stage>, seconds: int): Reply
  {
    if stage == Some(Finished) || !LeaseSecondsOk(seconds) then Refuse(st, InvalidRequest) else
    var held := ValidateFence(st, id, fence, now);
    if held.Err? then Reply(st, held)
    else if now < held.attempt.value.heartbeatAt then Refuse(st, ClockBackwards)
    else
      var a := held.attempt.value;
      var b := a.(heartbeatAt := now, stage := if stage.Some? then stage.value else a.stage);
      Reply(st.(attempts := st.attempts[RowOf(st.attempts, id) := b],
                leases := RenewLeases(st.leases, id, now + seconds)),
            Ok(Some(b)))
  }

  function Tagged(tags: map<string, string>, id: string): set<string> {
    set d | d in tags && tags[d] == id
  }

  function Authored(links: map<string, Link>, reasoning: string): set<string> {
    set d | d in links && links[d].reasoning == reasoning
  }

  /** What finishing an attempt records about its prepared reasoning run. */
  function CompletedReasonings(st: State, run: Run, status: Status): map<string, Reasoning> {
    if run.reasoning.Some? && run.reasoning.value in st.reasonings
       && st.reasonings[run.reasoning.value] == Prepared then
      st.reasonings[run.reasoning.value :=
        if status != Completed && status != NoAction then ReasoningFailed
        else if Authored(st.links, run.reasoning.value) != {} then DecisionsAuthored
        else NothingAuthored]
    else st.reasonings
  }

  datatype FinishArgs = FinishArgs(
    id: string, fence: nat, now: int, status: Status, metadataAllowed: bool, blankSummary: bool)

  function FinishSpec(st: State, f: FinishArgs): Reply {
    if f.status == Running || f.status == Expired || !f.metadataAllowed then
      Refuse(st, InvalidRequest)
    else
      var held := ValidateFence(st, f.id, f.fence, f.now);
      if held.Err? then Reply(st, held)
      else if f.now < held.attempt.value.heartbeatAt then Refuse(st, ClockBackwards)
      else if f.status == NoAction && Tagged(st.tags, f.id) != {} then Refuse(st, HasDecisions)
      else if held.attempt.value.run !in st.runs then Refuse(st, RunMissing)
      else
        var run := st.runs[held.attempt.value.run];
        var reasonings := CompletedReasonings(st, run, f.status);
        if reasonings != st.reasonings && f.blankSummary then Refuse(st, BlankSummary)
        else
          var b := Close(held.attempt.value, f.status, f.now);
          Reply(st.(attempts := st.attempts[RowOf(st.attempts, f.id) := b],
                    leases := ClearHolders(st.leases, {f.id}), reasonings := reasonings),
                Ok(Some(b)))
  }

  /** What the decision pipeline did inside the submission: it raised, it stopped at the schema
      without saving a row, or the decision's row exists when it returns. */
  datatype Effect = Raises | NoRow(named: bool) | Saves

  datatype SubmitArgs = SubmitArgs(
    decision: string, holder: Option<(string, nat)>, mode: Mode, profile: string, onDate: int,
    reasoning: string, snapshot: string, now: int, today: int, effect: Effect)

  function SubmitRefusal(st: State, s: SubmitArgs): Option<Error> {
    match s.holder
    case None => None
    case Some((id, fence)) =>
      var held := ValidateFence(st, id, fence, s.now);
      if held.Err? then Some(held.error) else
      if held.attempt.value.run !in st.runs then Some(RunMissing) else
      var runId := held.attempt.value.run;
      var run := st.runs[runId];
      if run.scope.mode != s.mode || run.profile != s.profile || run.sessionDate != s.onDate
         || run.sessionDate != s.today
         || run.reasoning != (if s.reasoning == "" then None else Some(s.reasoning)) then
        Some(IdentityMismatch)
      else
        var prefix := (if run.reasoning.Some? && run.reasoning.value != "" then run.reasoning.value
                       else runId) + "_" + id + "_";
        if prefix <= s.decision then None else Some(OutsideNamespace)
  }

  /** Linking and tagging, once the fence and the pipeline have passed the submission. */
  function Recording(st: State, s: SubmitArgs): Reply {
    if s.mode == Live && s.decision in st.links
       && st.links[s.decision] != Link(s.reasoning, s.snapshot) then
      Refuse(st, LinkedElsewhere)
    else
      var links := if s.mode == Live && s.decision !in st.links
                   then st.links[s.decision := Link(s.reasoning, s.snapshot)] else st.links;
      var rows := if s.effect == Saves && s.decision !in st.tags
                  then st.tags[s.decision := ""] else st.tags;
      if s.holder.None? || s.effect == NoRow(false) || s.decision !in rows then
        Reply(st.(links := links, tags := rows), Ok(None))
      else if rows[s.decision] != "" && rows[s.decision] != s.holder.value.0 then
        Refuse(st, BelongsToAnother)
      else
        Reply(st.(links := links, tags := rows[s.decision := s.holder.value.0]), Ok(None))
  }

  function SubmitSpec(st: State, s: SubmitArgs): Reply {
    var refusal := SubmitRefusal(st, s);
    if refusal.Some? then Refuse(st, refusal.value)
    else if s.effect == Raises then Refuse(st, PipelineRefused)
    else if s.mode == Live && s.effect == NoRow(false) then Refuse(st, PipelineRefused)
    else Recording(st, s)
  }

  function SaveRunSpec(st: State, id: string, run: Run, admissible: bool): Reply {
    if !admissible then Refuse(st, InvalidRequest)
    else if id in st.runs then
      if st.runs[id] == run then Reply(st, Ok(None)) else Refuse(st, RunImmutable)
    else if run.reasoning.Some?
            && (run.reasoning.value !in st.reasonings
                || st.reasonings[run.reasoning.value] != Prepared) then
      Refuse(st, AlreadyCompletedManually)
    else if run.reasoning.Some?
            && exists r | r in st.runs :: st.runs[r].reasoning == run.reasoning then
      Refuse(st, IdentityTaken)
    else Reply(st.(runs := st.runs[id := run]), Ok(None))
  }

  /** A completion of a prepared reasoning run by hand: its terminal result and the decisions it lists,
      whether it is the very record that is stored, and whether the immutable fields agree. */
  datatype CompleteArgs = CompleteArgs(
    reasoning: string, result: Reasoning, decisions: set<string>, identical: bool, sameFields: bool)

  /** The record's own validation. */
  predicate Completable(c: CompleteArgs) {
    match c.result
    case Prepared => c.decisions == {}
    case DecisionsAuthored => c.decisions != {}
    case NothingAuthored => c.decisions == {}
    case ReasoningFailed => true
  }

  function CompleteSpec(st: State, c: CompleteArgs): Reply {
    if !Completable(c) then Refuse(st, InvalidRequest)
    else if c.reasoning !in st.reasonings then Refuse(st, ReasoningMissing)
    else if c.identical && st.reasonings[c.reasoning] == c.result then Reply(st, Ok(None))
    else if st.reasonings[c.reasoning] != Prepared then Refuse(st, AlreadyComplete)
    else if !c.sameFields || c.result == Prepared || c.decisions != Authored(st.links, c.reasoning) then
      Refuse(st, CompletionMismatch)
    else Reply(st.(reasonings := st.reasonings[c.reasoning := c.result]), Ok(None))
  }

  /** The tables behind one connection; each method is one `immediate` transaction. */
  class Store {
    var runs: map<string, Run>
    var attempts: seq<Attempt>
    var leases: map<Scope, Lease>
    var tags: map<string, string>
    var links: map<string, Link>
    var reasonings: map<string, Reasoning>

    function Tables(): State
      reads this
    {
      State(runs, attempts, leases, tags, links, reasonings)
    }

    constructor ()
      ensures Tables() == State(map[], [], map[], map[], map[], map[])
    {
      runs, attempts, leases, tags, links, reasonings := map[], [], map[], map[], map[], map[];
    }

    /** The two updates for one due lease. */
    method ExpireOne(id: string, now: int)
      modifies this
      ensures Tables() == CloseAll(old(Tables()), {id}, Expired, now)
    {
      attempts := CloseRows(attempts, {id}, Expired, now);
      leases := ClearHolders(leases, {id});
    }

    /** The loop over the leases due at `now`. */
    method Expire(now: int)
      modifies this
      ensures Tables() == ExpireSpec(old(Tables()), now)
    {
      ghost var start, done := Tables(), {};
      var due := DueHolders(leases, now);
      CloseNone(start, Expired, now);
      while due != {}
        invariant done + due == DueHolders(start.leases, now)
        invariant Tables() == CloseAll(start, done, Expired, now)
        decreases |due|
      {
        var id :| id in due;
        ExpireOne(id, now);
        CloseOneMore(start, done, id, Expired, now);
        due, done := due - {id}, done + {id};
      }
      assert done == DueHolders(start.leases, now);
    }

    method Claim(c: ClaimArgs) returns (outcome: Outcome)
      modifies this
      ensures Reply(Tables(), outcome) == ClaimSpec(old(Tables()), c)
    {
      if !c.modelNamed || !LeaseSecondsOk(c.seconds) {
        return Err(InvalidRequest);
      }
      var savedAttempts, savedLeases := attempts, leases;
      Expire(c.now);
      var refusal := ClaimRefusal(Tables(), c);
      if refusal.Some? {
        attempts, leases := savedAttempts, savedLeases;   // ROLLBACK
        return Err(refusal.value);
      }
      var scope := runs[c.run].scope;
      var a := NewAttempt(Tables(), c);
      attempts := attempts + [a];
      leases := leases[scope := Lease(a.fence, Some(a.id), c.now + c.seconds)];
      return Ok(Some(a));
    }

    method Heartbeat(id: string, fence: nat, now: int, stage: Option<Stage>, seconds: int)
      returns (outcome: Outcome)
      modifies this
      ensures Reply(Tables(), outcome) == HeartbeatSpec(old(Tables()), id, fence, now, stage, seconds)
    {
      if stage == Some(Finished) || !LeaseSecondsOk(seconds) {
        return Err(InvalidRequest);
      }
      var held := ValidateFence(Tables(), id, fence, now);
      if held.Err? {
        return held;
      }
      var a := held.attempt.value;
      if now < a.heartbeatAt {
        return Err(ClockBackwards);
      }
      a := a.(heartbeatAt := now);
      if stage.Some? {
        a := a.(stage := stage.value);
      }
      attempts := attempts[RowOf(attempts, id) := a];
      leases := RenewLeases(leases, id, now + seconds);
      return Ok(Some(a));
    }

    method Finish(f: FinishArgs) returns (outcome: Outcome)
      modifies this
      ensures Reply(Tables(), outcome) == FinishSpec(old(Tables()), f)
    {
      if f.status == Running || f.status == Expired || !f.metadataAllowed {
        return Err(InvalidRequest);
      }
      var held := ValidateFence(Tables(), f.id, f.fence, f.now);
      if held.Err? {
        return held;
      }
      var a := held.attempt.value;
      if f.now < a.heartbeatAt {
        return Err(ClockBackwards);
      }
      if f.status == NoAction && Tagged(tags, f.id) != {} {
        return Err(HasDecisions);
      }
      if a.run !in runs {
        return Err(RunMissing);
      }
      var completed := CompletedReasonings(Tables(), runs[a.run], f.status);
      if completed != reasonings && f.blankSummary {
        return Err(BlankSummary);
      }
      reasonings := completed;
      a := Close(a, f.status, f.now);
      attempts := attempts[RowOf(attempts, f.id) := a];
      leases := ClearHolders(leases, {f.id});
      return Ok(Some(a));
    }

    method Submit(s: SubmitArgs) returns (outcome: Outcome)
      modifies this
      ensures Reply(Tables(), outcome) == SubmitSpec(old(Tables()), s)
    {
      var refusal := SubmitRefusal(Tables(), s);
      if refusal.Some? {
        return Err(refusal.value);
      }
      if s.effect == Raises || (s.mode == Live && s.effect == NoRow(false)) {
        return Err(PipelineRefused);
      }
      var savedLinks, savedTags := links, tags;
      if s.effect == Saves && s.decision !in tags {
        tags := tags[s.decision := ""];
      }
      if s.mode == Live {
        if s.decision in links && links[s.decision] != Link(s.reasoning, s.snapshot) {
          tags := savedTags;                              // ROLLBACK
          return Err(LinkedElsewhere);
        }
        if s.decision !in links {
          links := links[s.decision := Link(s.reasoning, s.snapshot)];
        }
      }
      if s.holder.Some? && s.effect != NoRow(false) && s.decision in tags {
        if tags[s.decision] != "" && tags[s.decision] != s.holder.value.0 {
          links, tags := savedLinks, savedTags;           // ROLLBACK
          return Err(BelongsToAnother);
        }
        tags := tags[s.decision := s.holder.value.0];
      }
      return Ok(None);
    }

    method SaveRun(id: string, run: Run, admissible: bool) returns (outcome: Outcome)
      modifies this
      ensures Reply(Tables(), outcome) == SaveRunSpec(old(Tables()), id, run, admissible)
    {
      if !admissible {
        return Err(InvalidRequest);
      }
      if id in runs {
        return if runs[id] == run then Ok(None) else Err(RunImmutable);
      }
      if run.reasoning.Some? {
        if run.reasoning.value !in reasonings || reasonings[run.reasoning.value] != Prepared {
          return Err(AlreadyCompletedManually);
        }
        if exists r | r in runs :: runs[r].reasoning == run.reasoning {
          return Err(IdentityTaken);
        }
      }
      runs := runs[id := run];
      return Ok(None);
    }

    method Complete(c: CompleteArgs) returns (outcome: Outcome)
      modifies this
      ensures Reply(Tables(), outcome) == CompleteSpec(old(Tables()), c)
    {
      if !Completable(c) {
        return Err(InvalidRequest);
      }
      if c.reasoning !in reasonings {
        return Err(ReasoningMissing);
      }
      var existing := reasonings[c.reasoning];
      if c.identical && existing == c.result {
        return Ok(None);
      }
      if existing != Prepared {
        return Err(AlreadyComplete);
      }
      if !c.sameFields || c.result == Prepared || c.decisions != Authored(links, c.reasoning) {
        return Err(CompletionMismatch);
      }
      reasonings := reasonings[c.reasoning := c.result];
      return Ok(None);
    }
  }
}
