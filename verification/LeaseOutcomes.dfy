/** What every lease operation answers and writes, in the fields of the tables. */
module LeaseOutcomes {
  import opened Leases
  import opened LeaseTheorems
  import opened Wrappers

  /** The operation is refused and leaves every table as it was. */
  predicate Refused(r: Reply, st: State, error: Error) {
    r.outcome == Err(error) && r.st == st
  }

  // ----- The fence -----

  /** The row runs under this fence, and a lease that has not run out names both. */
  ghost predicate IsLive(st: State, i: nat, fence: nat, now: int)
    requires i < |st.attempts|
  {
    && st.attempts[i].status == Running && st.attempts[i].fence == fence
    && exists s | s in st.leases ::
         st.leases[s].holder == Some(st.attempts[i].id) && st.leases[s].fence == fence && now < st.leases[s].expiresAt
  }

  ghost predicate Unknown(rows: seq<Attempt>, id: string) {
    forall i | 0 <= i < |rows| :: rows[i].id != id
  }

  lemma FenceExactly(st: State, i: nat, fence: nat, now: int)
    requires Known(st) && i < |st.attempts|
    ensures ValidateFence(st, st.attempts[i].id, fence, now)
         == if IsLive(st, i, fence, now) then Ok(Some(st.attempts[i])) else Err(LeaseLost)
  {
    assert RowOf(st.attempts, st.attempts[i].id) == i;
  }

  lemma FenceOfUnknown(st: State, id: string, fence: nat, now: int)
    requires Unknown(st.attempts, id)
    ensures ValidateFence(st, id, fence, now) == Err(AttemptMissing)
  {
  }

  // ----- Sweeping -----

  ghost predicate Due(st: State, i: nat, now: int)
    requires i < |st.attempts|
  {
    exists s | s in st.leases :: st.leases[s].holder == Some(st.attempts[i].id) && st.leases[s].expiresAt <= now
  }

  function Ended(a: Attempt, status: Status, now: int): Attempt {
    a.(status := status, stage := Stage.Finished, finishedAt := Some(now))
  }

  function Freed(l: Lease): Lease {
    l.(holder := None)
  }

  /** Attempts whose lease has run out are expired, their leases are free, and nothing else moved. */
  ghost predicate Swept(st: State, st': State, now: int) {
    && st' == st.(attempts := st'.attempts, leases := st'.leases) && |st'.attempts| == |st.attempts|
    && (forall i: nat | i < |st.attempts| ::
          st'.attempts[i] == if st.attempts[i].status == Running && Due(st, i, now)
                             then Ended(st.attempts[i], Expired, now) else st.attempts[i])
    && st'.leases.Keys == st.leases.Keys
    && (forall s | s in st.leases ::
          st'.leases[s] == if st.leases[s].holder.Some? && st.leases[s].expiresAt <= now
                           then Freed(st.leases[s]) else st.leases[s])
  }

  lemma DueHolder(st: State, s: Scope, now: int)
    requires Inv(st) && s in st.leases && st.leases[s].holder.Some?
    ensures st.leases[s].holder.value in DueHolders(st.leases, now) <==> st.leases[s].expiresAt <= now
  {
    var id := st.leases[s].holder.value;
    if id in DueHolders(st.leases, now) {
      var u :| u in st.leases && st.leases[u].holder == Some(id) && st.leases[u].expiresAt <= now;
      var i :| 0 <= i < |st.attempts| && ScopeOf(st, i) == s && Names(st, s, i);
      HeldInScope(st, i, u);
    }
  }

  lemma SweepExactly(st: State, now: int)
    requires Inv(st)
    ensures Swept(st, ExpireSpec(st, now), now)
  {
    var st', ids := ExpireSpec(st, now), DueHolders(st.leases, now);
    forall i: nat | i < |st.attempts| ensures st.attempts[i].id in ids <==> Due(st, i, now) {
    }
    forall s | s in st.leases
      ensures st'.leases[s] == if st.leases[s].holder.Some? && st.leases[s].expiresAt <= now
                               then Freed(st.leases[s]) else st.leases[s]
    {
      if st.leases[s].holder.Some? { DueHolder(st, s, now); }
    }
  }

  // ----- Claiming -----

  ghost predicate Tried(rows: seq<Attempt>, run: string) {
    exists i | 0 <= i < |rows| :: rows[i].run == run
  }

  predicate Success(a: Attempt) {
    a.status == Completed || a.status == NoAction
  }

  ghost predicate Succeeded(rows: seq<Attempt>, run: string) {
    exists i | 0 <= i < |rows| :: rows[i].run == run && Success(rows[i])
  }

  predicate Held(st: State, s: Scope, now: int) {
    s in st.leases && st.leases[s].holder.Some? && now < st.leases[s].expiresAt
  }

  predicate StillPrepared(st: State, reasoning: Option<string>) {
    match reasoning
    case None => true
    case Some(q) => q in st.reasonings && st.reasonings[q] == Prepared
  }

  function FenceBefore(st: State, s: Scope): nat {
    if s in st.leases then st.leases[s].fence else 0
  }

  /** The new attempt is the next of its run, under the next fence of its scope, starting now; it is added
      to the tables as they are after the sweep. */
  ghost predicate Granted(st: State, swept: State, st': State, c: ClaimArgs, a: Attempt)
    requires c.run in st.runs
  {
    var scope := st.runs[c.run].scope;
    && a == Attempt("attempt_" + c.hex, c.run, CountRun(st.attempts, c.run) + 1, FenceBefore(st, scope) + 1,
                    Running, Starting, c.now, c.now, None)
    && Swept(st, swept, c.now)
    && st' == swept.(attempts := swept.attempts + [a],
                     leases := swept.leases[scope := Lease(a.fence, Some(a.id), c.now + c.seconds)])
  }

  lemma PriorExactly(st: State, run: string)
    requires Inv(st)
    ensures Prior(st.attempts, run).Some? <==> Tried(st.attempts, run)
    ensures Prior(st.attempts, run).Some? ==>
              (Success(Prior(st.attempts, run).value) <==> Succeeded(st.attempts, run))
    ensures (if Prior(st.attempts, run).Some? then Prior(st.attempts, run).value.number else 0)
         == CountRun(st.attempts, run)
  {
    var k := PriorIsLast(st.attempts, run);
    forall i | 0 <= i < |st.attempts| && st.attempts[i].run == run ensures i == k || !Success(st.attempts[i]) {
      assert i <= k;
    }
  }

  /** The guards that a claim of a known run meets, in order, in a state with this scope held or not. */
  ghost function ClaimError(st: State, c: ClaimArgs, held: bool): Option<Error>
    requires c.run in st.runs
  {
    var run, rows := st.runs[c.run], st.attempts;
    if !c.scheduleAllows then Some(ScheduleRefused)
    else if c.now < run.preparedAt then Some(PrecedesPreparation)
    else if run.sessionDate != c.today then Some(SessionStale)
    else if held then Some(Overlap)
    else if !Tried(rows, c.run) && !StillPrepared(st, run.reasoning) then Some(AlreadyCompletedManually)
    else if Tried(rows, c.run) && (!c.retry || Succeeded(rows, c.run)) then Some(RetryRequired)
    else if !Tried(rows, c.run) && c.retry then Some(NothingToRetry)
    else if !Unknown(rows, "attempt_" + c.hex) then Some(IdentityTaken)
    else None
  }

  lemma RefusalExactly(st: State, c: ClaimArgs)
    requires Inv(st) && c.run in st.runs
    ensures var scope := st.runs[c.run].scope;
            ClaimRefusal(st, c) == ClaimError(st, c, scope in st.leases && st.leases[scope].holder.Some?)
  {
    PriorExactly(st, c.run);
    assert Unknown(st.attempts, NewId(c)) <==> RowOf(st.attempts, NewId(c)) == |st.attempts|;
  }

  /** The rows name the same attempts, of the same runs, with the same success. */
  ghost predicate SameRows(a: seq<Attempt>, b: seq<Attempt>) {
    |a| == |b| && forall i | 0 <= i < |a| ::
      a[i].run == b[i].run && a[i].id == b[i].id && (Success(a[i]) <==> Success(b[i]))
  }

  lemma SweptRows(st: State, swept: State, now: int)
    requires Swept(st, swept, now)
    ensures SameRows(st.attempts, swept.attempts)
  {
  }

  lemma SameRowsSameGuards(st: State, swept: State, c: ClaimArgs, held: bool)
    requires SameRows(st.attempts, swept.attempts) && c.run in st.runs
    requires swept == st.(attempts := swept.attempts, leases := swept.leases)
    ensures ClaimError(swept, c, held) == ClaimError(st, c, held)
    ensures CountRun(swept.attempts, c.run) == CountRun(st.attempts, c.run)
  {
    var a, b := st.attempts, swept.attempts;
    assert forall i | 0 <= i < |a| :: a[i].run == b[i].run;
    CountIgnoresStatus(a, b, c.run);
    assert Tried(a, c.run) <==> Tried(b, c.run);
    assert Succeeded(a, c.run) <==> Succeeded(b, c.run);
    assert Unknown(a, "attempt_" + c.hex) <==> Unknown(b, "attempt_" + c.hex);
  }

  lemma SweptRefusal(st: State, swept: State, c: ClaimArgs)
    requires Inv(swept) && Swept(st, swept, c.now) && c.run in st.runs
    ensures ClaimRefusal(swept, c) == ClaimError(st, c, Held(st, st.runs[c.run].scope, c.now))
  {
    RefusalExactly(swept, c);
    SweptRows(st, swept, c.now);
    SameRowsSameGuards(st, swept, c, Held(st, st.runs[c.run].scope, c.now));
  }

  lemma NewAttemptExactly(st: State, swept: State, c: ClaimArgs)
    requires Inv(swept) && Swept(st, swept, c.now) && c.run in st.runs
    ensures NewAttempt(swept, c)
         == Attempt("attempt_" + c.hex, c.run, CountRun(st.attempts, c.run) + 1,
                    FenceBefore(st, st.runs[c.run].scope) + 1, Running, Starting, c.now, c.now, None)
  {
    PriorExactly(swept, c.run);
    SweptRows(st, swept, c.now);
    SameRowsSameGuards(st, swept, c, false);
  }

  lemma ClaimUnfolds(st: State, swept: State, c: ClaimArgs)
    requires c.modelNamed && 10 <= c.seconds <= 3600 && swept == ExpireSpec(st, c.now)
    ensures ClaimRefusal(swept, c).Some? ==> Refused(ClaimSpec(st, c), st, ClaimRefusal(swept, c).value)
    ensures ClaimRefusal(swept, c).None? ==>
              var a := NewAttempt(swept, c);
              ClaimSpec(st, c)
              == Reply(swept.(attempts := swept.attempts + [a],
                              leases := swept.leases[swept.runs[c.run].scope :=
                                                       Lease(a.fence, Some(a.id), c.now + c.seconds)]),
                       Ok(Some(a)))
  {
  }

  /** The attempt that a reply carries. */
  ghost predicate Grants(st: State, r: Reply, c: ClaimArgs)
    requires c.run in st.runs
  {
    && r.outcome.Ok? && r.outcome.attempt.Some?
    && exists swept :: Granted(st, swept, r.st, c, r.outcome.attempt.value)
  }

  /** What a claim answers: refused by the first guard that fails, with every table as it was, or granted. */
  ghost predicate Claims(st: State, c: ClaimArgs, r: Reply) {
    if !c.modelNamed || c.seconds < 10 || 3600 < c.seconds then Refused(r, st, InvalidRequest)
    else if c.run !in st.runs then Refused(r, st, RunMissing)
    else
      match ClaimError(st, c, Held(st, st.runs[c.run].scope, c.now))
      case Some(error) => Refused(r, st, error)
      case None => Grants(st, r, c)
  }

  lemma ClaimExactly(st: State, c: ClaimArgs)
    requires Inv(st)
    ensures Claims(st, c, ClaimSpec(st, c))
  {
    if c.modelNamed && 10 <= c.seconds <= 3600 && c.run in st.runs {
      var swept := ExpireSpec(st, c.now);
      SweepExactly(st, c.now);
      ExpireIsSafe(st, c.now, swept);
      SweptRefusal(st, swept, c);
      ClaimUnfolds(st, swept, c);
      if ClaimRefusal(swept, c).None? {
        NewAttemptExactly(st, swept, c);
        assert Granted(st, swept, ClaimSpec(st, c).st, c, NewAttempt(swept, c));
      }
    }
  }

  // ----- Renewing -----

  ghost predicate Renewed(st: State, st': State, i: nat, now: int, stage: Option<Stage>, seconds: int)
    requires i < |st.attempts|
  {
    && st' == st.(attempts := st'.attempts, leases := st'.leases)
    && st'.attempts == st.attempts[i := st.attempts[i].(heartbeatAt := now,
                                          stage := match stage case Some(x) => x case None => st.attempts[i].stage)]
    && st'.leases.Keys == st.leases.Keys
    && (forall s | s in st.leases ::
          st'.leases[s] == if st.leases[s].holder == Some(st.attempts[i].id)
                           then st.leases[s].(expiresAt := now + seconds) else st.leases[s])
  }

  lemma HeartbeatExactly(st: State, i: nat, fence: nat, now: int, stage: Option<Stage>, seconds: int)
    requires Known(st) && i < |st.attempts|
    ensures var r := HeartbeatSpec(st, st.attempts[i].id, fence, now, stage, seconds);
            if stage == Some(Stage.Finished) || seconds < 10 || 3600 < seconds then Refused(r, st, InvalidRequest)
            else if !IsLive(st, i, fence, now) then Refused(r, st, LeaseLost)
            else if now < st.attempts[i].heartbeatAt then Refused(r, st, ClockBackwards)
            else Renewed(st, r.st, i, now, stage, seconds) && r.outcome == Ok(Some(r.st.attempts[i]))
  {
    FenceExactly(st, i, fence, now);
    assert RowOf(st.attempts, st.attempts[i].id) == i;
  }

  // ----- Finishing -----

  /** The reasoning run of an attempt's run, still to be completed. */
  function Open(st: State, run: string): Option<string>
    requires run in st.runs
  {
    match st.runs[run].reasoning
    case None => None
    case Some(q) => if q in st.reasonings && st.reasonings[q] == Prepared then Some(q) else None
  }

  ghost predicate HasTagged(st: State, id: string) {
    exists d | d in st.tags :: st.tags[d] == id
  }

  ghost predicate HasLinked(st: State, q: string) {
    exists d | d in st.links :: st.links[d].reasoning == q
  }

  /** How a finish completes the reasoning run. */
  ghost function CompletedAs(st: State, q: string, status: Status): Reasoning {
    if status == Completed || status == NoAction then
      if HasLinked(st, q) then DecisionsAuthored else NothingAuthored
    else ReasoningFailed
  }

  /** The row has the status that was asked for and ended now; its lease is free; its prepared reasoning
      run is completed; and nothing else moved. */
  ghost predicate IsFinished(st: State, st': State, i: nat, f: FinishArgs)
    requires i < |st.attempts| && st.attempts[i].run in st.runs
  {
    && st' == st.(attempts := st'.attempts, leases := st'.leases, reasonings := st'.reasonings)
    && st'.attempts == st.attempts[i := st.attempts[i].(status := f.status, stage := Stage.Finished,
                                                        finishedAt := Some(f.now))]
    && st'.leases.Keys == st.leases.Keys
    && (forall s | s in st.leases ::
          st'.leases[s] == if st.leases[s].holder == Some(st.attempts[i].id) then Freed(st.leases[s])
                           else st.leases[s])
    && (match Open(st, st.attempts[i].run)
        case None => st'.reasonings == st.reasonings
        case Some(q) => st'.reasonings == st.reasonings[q := CompletedAs(st, q, f.status)])
  }

  lemma CompletedExactly(st: State, run: string, status: Status)
    requires run in st.runs
    ensures CompletedReasonings(st, st.runs[run], status)
         == match Open(st, run)
            case None => st.reasonings
            case Some(q) => st.reasonings[q := CompletedAs(st, q, status)]
    ensures CompletedReasonings(st, st.runs[run], status) != st.reasonings <==> Open(st, run).Some?
  {
    if Open(st, run).Some? {
      var q := Open(st, run).value;
      assert Authored(st.links, q) != {} <==> HasLinked(st, q) by {
        if HasLinked(st, q) {
          var d :| d in st.links && st.links[d].reasoning == q;
          assert d in Authored(st.links, q);
        }
      }
    }
  }

  lemma TaggedExactly(st: State, id: string)
    ensures Tagged(st.tags, id) != {} <==> HasTagged(st, id)
  {
    if HasTagged(st, id) {
      var d :| d in st.tags && st.tags[d] == id;
      assert d in Tagged(st.tags, id);
    }
  }

  /** A finish of a known attempt: refused by the first guard that fails, or it records what was asked. */
  lemma FinishExactly(st: State, f: FinishArgs, i: nat)
    requires Known(st) && i < |st.attempts| && st.attempts[i].id == f.id
    ensures var r := FinishSpec(st, f);
            if f.status == Running || f.status == Expired || !f.metadataAllowed then Refused(r, st, InvalidRequest)
            else if !IsLive(st, i, f.fence, f.now) then Refused(r, st, LeaseLost)
            else if f.now < st.attempts[i].heartbeatAt then Refused(r, st, ClockBackwards)
            else if f.status == NoAction && HasTagged(st, f.id) then Refused(r, st, HasDecisions)
            else if Open(st, st.attempts[i].run).Some? && f.blankSummary then Refused(r, st, BlankSummary)
            else IsFinished(st, r.st, i, f) && r.outcome == Ok(Some(r.st.attempts[i]))
  {
    FenceExactly(st, i, f.fence, f.now);
    TaggedExactly(st, f.id);
    CompletedExactly(st, st.attempts[i].run, f.status);
    assert RowOf(st.attempts, f.id) == i;
  }

  /** Fenced operations in the name of no attempt are refused. */
  lemma UnknownIsRefused(st: State, f: FinishArgs, fence: nat, now: int, stage: Option<Stage>, seconds: int)
    requires Unknown(st.attempts, f.id)
    ensures FinishSpec(st, f).st == st && HeartbeatSpec(st, f.id, fence, now, stage, seconds).st == st
    ensures FinishSpec(st, f).outcome in {Err(InvalidRequest), Err(AttemptMissing)}
    ensures HeartbeatSpec(st, f.id, fence, now, stage, seconds).outcome in {Err(InvalidRequest), Err(AttemptMissing)}
  {
    FenceOfUnknown(st, f.id, f.fence, f.now);
    FenceOfUnknown(st, f.id, fence, now);
  }

  /** No attempt of a run succeeded while one of it runs. */
  lemma RunningIsOnlyAndLast(st: State, i: nat, run: string)
    requires Inv(st) && i < |st.attempts| && st.attempts[i].run == run && st.attempts[i].status == Running
    ensures forall j | 0 <= j < |st.attempts| && st.attempts[j].run == run && j != i ::
              st.attempts[j].status != Completed && st.attempts[j].status != NoAction
  {
    var k := PriorIsLast(st.attempts, run);
    forall j | 0 <= j < |st.attempts| && st.attempts[j].run == run && j != i
      ensures st.attempts[j].status != Completed && st.attempts[j].status != NoAction
    {
      assert i <= k && j <= k;
    }
  }

  lemma SuccessRefuses(later: State, claim: ClaimArgs, r: Reply)
    requires Claims(later, claim, r) && Succeeded(later.attempts, claim.run) && Tried(later.attempts, claim.run)
    ensures r.outcome.Err? && r.st == later
  {
  }

  lemma SuccessStands(next: State, later: State, i: nat, claim: ClaimArgs)
    requires Inv(later) && Preserves(next, later) && i < |next.attempts| && Success(next.attempts[i])
    requires claim.run == next.attempts[i].run
    ensures ClaimSpec(later, claim).outcome.Err? && ClaimSpec(later, claim).st == later
  {
    assert Continues(next.attempts[i], later.attempts[i]);
    ClaimExactly(later, claim);
    SuccessRefuses(later, claim, ClaimSpec(later, claim));
  }

  /** Once an attempt is finished as completed or without action, its run is never claimed again, whatever
      happens later. */
  lemma SuccessIsFinal(before: seq<Op>, f: FinishArgs, after: seq<Op>, claim: ClaimArgs, i: nat)
    requires i < |After(EMPTY, before).attempts| && After(EMPTY, before).attempts[i].id == f.id
    requires FinishSpec(After(EMPTY, before), f).outcome.Ok? && (f.status == Completed || f.status == NoAction)
    requires claim.run == After(EMPTY, before).attempts[i].run
    ensures var later := After(FinishSpec(After(EMPTY, before), f).st, after);
            ClaimSpec(later, claim).outcome.Err? && ClaimSpec(later, claim).st == later
  {
    var st, next := After(EMPTY, before), FinishSpec(After(EMPTY, before), f).st;
    RunsAreSafe(EMPTY, before);
    FinishExactly(st, f, i);
    FinishIsSafe(st, f, next);
    RunsAreSafe(next, after);
    SuccessStands(next, After(next, after), i, claim);
  }

  /** A retry that meets the guards which do not concern the run's attempts. */
  predicate MayRetry(st: State, c: ClaimArgs)
    requires c.run in st.runs
  {
    && c.modelNamed && 10 <= c.seconds <= 3600 && c.scheduleAllows && c.retry
    && st.runs[c.run].preparedAt <= c.now && st.runs[c.run].sessionDate == c.today
  }

  /** The lease of a live attempt's scope is the attempt's own, so finishing it frees the scope. */
  lemma FinishFreesScope(st: State, next: State, f: FinishArgs, i: nat, now: int)
    requires Inv(st) && i < |st.attempts| && st.attempts[i].run in st.runs
    requires IsLive(st, i, f.fence, f.now) && IsFinished(st, next, i, f)
    ensures !Held(next, st.runs[st.attempts[i].run].scope, now)
  {
    assert Names(st, ScopeOf(st, i), i);
  }

  lemma FinishLeavesNoSuccess(st: State, next: State, f: FinishArgs, i: nat)
    requires Inv(st) && i < |st.attempts| && st.attempts[i].run in st.runs && st.attempts[i].status == Running
    requires IsFinished(st, next, i, f) && f.status != Completed && f.status != NoAction
    ensures !Succeeded(next.attempts, st.attempts[i].run) && Tried(next.attempts, st.attempts[i].run)
    ensures forall id | Unknown(st.attempts, id) :: Unknown(next.attempts, id)
  {
    RunningIsOnlyAndLast(st, i, st.attempts[i].run);
    assert next.attempts[i].run == st.attempts[i].run;
  }

  lemma RetryPasses(next: State, claim: ClaimArgs, r: Reply)
    requires Claims(next, claim, r) && claim.run in next.runs && MayRetry(next, claim)
    requires Unknown(next.attempts, "attempt_" + claim.hex)
    requires !Held(next, next.runs[claim.run].scope, claim.now)
    requires !Succeeded(next.attempts, claim.run) && Tried(next.attempts, claim.run)
    ensures r.outcome.Ok?
  {
  }


  lemma FailureLeavesRoom(st: State, next: State, f: FinishArgs, i: nat, claim: ClaimArgs)
    requires Inv(st) && Inv(next) && i < |st.attempts| && st.attempts[i].run in st.runs
    requires IsLive(st, i, f.fence, f.now) && IsFinished(st, next, i, f)
    requires f.status != Completed && f.status != NoAction
    requires claim.run == st.attempts[i].run && MayRetry(st, claim)
    requires Unknown(st.attempts, "attempt_" + claim.hex)
    ensures ClaimSpec(next, claim).outcome.Ok?
  {
    assert next.runs == st.runs && MayRetry(next, claim);
    FinishFreesScope(st, next, f, i, claim.now);
    FinishLeavesNoSuccess(st, next, f, i);
    ClaimExactly(next, claim);
    RetryPasses(next, claim, ClaimSpec(next, claim));
  }

  lemma AcceptedFinish(st: State, f: FinishArgs, i: nat, r: Reply)
    requires Known(st) && i < |st.attempts| && st.attempts[i].id == f.id
    requires r == FinishSpec(st, f) && r.outcome.Ok?
    ensures IsLive(st, i, f.fence, f.now) && IsFinished(st, r.st, i, f)
  {
    FinishExactly(st, f, i);
  }

  /** After any other finish, a retry that meets the guards is granted. */
  lemma FailureCanBeRetried(before: seq<Op>, f: FinishArgs, claim: ClaimArgs, i: nat)
    requires i < |After(EMPTY, before).attempts| && After(EMPTY, before).attempts[i].id == f.id
    requires FinishSpec(After(EMPTY, before), f).outcome.Ok? && f.status != Completed && f.status != NoAction
    requires claim.run == After(EMPTY, before).attempts[i].run && claim.run in After(EMPTY, before).runs
    requires MayRetry(After(EMPTY, before), claim)
    requires Unknown(After(EMPTY, before).attempts, "attempt_" + claim.hex)
    ensures ClaimSpec(FinishSpec(After(EMPTY, before), f).st, claim).outcome.Ok?
  {
    var st, r := After(EMPTY, before), FinishSpec(After(EMPTY, before), f);
    RunsAreSafe(EMPTY, before);
    AcceptedFinish(st, f, i, r);
    FinishIsSafe(st, f, r.st);
    FailureLeavesRoom(st, r.st, f, i, claim);
  }

  // ----- Submitting -----

  /** The submission is the attempt's own: of its run's mode, profile, session and reasoning run. */
  predicate Matches(run: Run, s: SubmitArgs) {
    && run.scope.mode == s.mode && run.profile == s.profile
    && run.sessionDate == s.onDate && run.sessionDate == s.today
    && match run.reasoning case None => s.reasoning == "" case Some(q) => s.reasoning != "" && s.reasoning == q
  }

  /** Identifiers of an attempt's decisions begin with its reasoning run, or else its run, and itself. */
  function Namespace(run: string, reasoning: Option<string>, id: string): string {
    match reasoning
    case Some(q) => (if q == "" then run else q) + "_" + id + "_"
    case None => run + "_" + id + "_"
  }

  /** What the fence and the attempt's identity say against a submission under the `i`-th attempt. */
  ghost function FenceError(st: State, s: SubmitArgs, i: nat, fence: nat): Option<Error>
    requires i < |st.attempts| && st.attempts[i].run in st.runs
  {
    var run := st.runs[st.attempts[i].run];
    if !IsLive(st, i, fence, s.now) then Some(LeaseLost)
    else if !Matches(run, s) then Some(IdentityMismatch)
    else if !(Namespace(st.attempts[i].run, run.reasoning, st.attempts[i].id) <= s.decision) then
      Some(OutsideNamespace)
    else None
  }

  /** What the pipeline and the tables say against it. */
  function RecordError(st: State, s: SubmitArgs): Option<Error> {
    if s.effect == Raises || (s.mode == Live && s.effect == NoRow(false)) then Some(PipelineRefused)
    else if s.mode == Live && s.decision in st.links && st.links[s.decision] != Link(s.reasoning, s.snapshot) then
      Some(LinkedElsewhere)
    else if s.holder.Some? && s.effect != NoRow(false) && s.decision in st.tags
            && st.tags[s.decision] != "" && st.tags[s.decision] != s.holder.value.0 then
      Some(BelongsToAnother)
    else None
  }

  /** A live decision is linked once; a row that exists is tagged with the attempt, if there is one. */
  predicate IsRecorded(st: State, st': State, s: SubmitArgs) {
    && st' == st.(links := st'.links, tags := st'.tags)
    && st'.links == (if s.mode == Live && s.decision !in st.links
                     then st.links[s.decision := Link(s.reasoning, s.snapshot)] else st.links)
    && st'.tags == (if s.effect != Saves && s.decision !in st.tags then st.tags
                    else if s.holder.Some? && s.effect != NoRow(false) then
                      st.tags[s.decision := s.holder.value.0]
                    else if s.decision in st.tags then st.tags
                    else st.tags[s.decision := ""])
  }

  lemma RecordingExactly(st: State, s: SubmitArgs)
    requires s.effect != Raises && !(s.mode == Live && s.effect == NoRow(false))
    ensures match RecordError(st, s)
            case Some(error) => Refused(Recording(st, s), st, error)
            case None => Recording(st, s).outcome == Ok(None) && IsRecorded(st, Recording(st, s).st, s)
  {
  }

  lemma FenceErrorExactly(st: State, s: SubmitArgs, i: nat, fence: nat)
    requires Known(st) && i < |st.attempts| && s.holder == Some((st.attempts[i].id, fence))
    ensures SubmitRefusal(st, s) == FenceError(st, s, i, fence)
  {
    FenceExactly(st, i, fence, s.now);
  }

  ghost predicate Submits(st: State, s: SubmitArgs, r: Reply) {
    match RecordError(st, s)
    case Some(error) => Refused(r, st, error)
    case None => r.outcome == Ok(None) && IsRecorded(st, r.st, s)
  }

  /** A submission without an attempt meets only the pipeline and the tables; one under an attempt first meets the
      attempt's fence and identity. */
  lemma SubmitExactly(st: State, s: SubmitArgs)
    requires Known(st)
    ensures s.holder.None? ==> Submits(st, s, SubmitSpec(st, s))
    ensures s.holder.Some? && Unknown(st.attempts, s.holder.value.0) ==>
              Refused(SubmitSpec(st, s), st, AttemptMissing)
    ensures forall i: nat, fence | i < |st.attempts| && s.holder == Some((st.attempts[i].id, fence)) ::
              match FenceError(st, s, i, fence)
              case Some(error) => Refused(SubmitSpec(st, s), st, error)
              case None => Submits(st, s, SubmitSpec(st, s))
  {
    if s.holder.Some? {
      if Unknown(st.attempts, s.holder.value.0) {
        FenceOfUnknown(st, s.holder.value.0, s.holder.value.1, s.now);
      }
    }
    if s.effect != Raises && !(s.mode == Live && s.effect == NoRow(false)) { RecordingExactly(st, s); }
    forall i: nat, fence | i < |st.attempts| && s.holder == Some((st.attempts[i].id, fence))
      ensures SubmitRefusal(st, s) == FenceError(st, s, i, fence)
    {
      FenceErrorExactly(st, s, i, fence);
    }
  }

  // ----- Runs and completions -----

  /** A run is stored once and wraps a reasoning run that is prepared and that no other run wraps. */
  lemma SaveRunExactly(st: State, id: string, run: Run, admissible: bool)
    ensures var r := SaveRunSpec(st, id, run, admissible);
            if !admissible then Refused(r, st, InvalidRequest)
            else if id in st.runs && st.runs[id] != run then Refused(r, st, RunImmutable)
            else if id in st.runs then r == Reply(st, Ok(None))
            else if !StillPrepared(st, run.reasoning) then Refused(r, st, AlreadyCompletedManually)
            else if run.reasoning.Some? && exists k | k in st.runs :: st.runs[k].reasoning == run.reasoning then
              Refused(r, st, IdentityTaken)
            else r == Reply(st.(runs := st.runs[id := run]), Ok(None))
  {
  }

  /** A terminal result lists decisions exactly when it authored some; a failure may. */
  ghost predicate WellFormed(c: CompleteArgs) {
    if c.decisions == {} then c.result != DecisionsAuthored
    else c.result == DecisionsAuthored || c.result == ReasoningFailed
  }

  /** A completion repeats the stored record, or ends a prepared run with exactly the decisions linked to it. */
  lemma CompleteExactly(st: State, c: CompleteArgs)
    ensures var r := CompleteSpec(st, c);
            if !WellFormed(c) then Refused(r, st, InvalidRequest)
            else if c.reasoning !in st.reasonings then Refused(r, st, ReasoningMissing)
            else if c.identical && st.reasonings[c.reasoning] == c.result then r == Reply(st, Ok(None))
            else if st.reasonings[c.reasoning] != Prepared then Refused(r, st, AlreadyComplete)
            else if c.sameFields && c.result != Prepared
                    && (forall d :: d in c.decisions <==> d in st.links && st.links[d].reasoning == c.reasoning) then
              r == Reply(st.(reasonings := st.reasonings[c.reasoning := c.result]), Ok(None))
            else Refused(r, st, CompletionMismatch)
  {
    assert c.decisions == Authored(st.links, c.reasoning)
      <==> forall d :: d in c.decisions <==> d in st.links && st.links[d].reasoning == c.reasoning;
  }
}
