/** Safety of the lease protocol over every sequence of operations and every clock reading. */
module LeaseTheorems {
  import opened Leases
  import opened Wrappers

  // ----- The invariant -----

  function CountRun(rows: seq<Attempt>, run: string): nat {
    if rows == [] then 0
    else CountRun(rows[..|rows| - 1], run) + if rows[|rows| - 1].run == run then 1 else 0
  }

  ghost predicate Known(st: State) {
    && (forall i, j | 0 <= i < j < |st.attempts| :: st.attempts[i].id != st.attempts[j].id)
    && (forall i | 0 <= i < |st.attempts| :: st.attempts[i].run in st.runs && st.attempts[i].id != "")
  }

  /** The attempts of one run are numbered 1, 2, 3, ... in the order they were claimed. */
  ghost predicate Numbered(rows: seq<Attempt>) {
    forall i | 0 <= i < |rows| :: rows[i].number == CountRun(rows[..i], rows[i].run) + 1
  }

  function ScopeOf(st: State, i: nat): Scope
    requires i < |st.attempts| && st.attempts[i].run in st.runs
  {
    st.runs[st.attempts[i].run].scope
  }

  ghost predicate Names(st: State, s: Scope, i: nat)
    requires i < |st.attempts|
  {
    && s in st.leases && st.leases[s].holder == Some(st.attempts[i].id)
    && st.leases[s].fence == st.attempts[i].fence
  }

  /** An attempt runs exactly when its own scope's lease names it under its fence. */
  ghost predicate RunningIsLeased(st: State)
    requires Known(st)
  {
    forall i | 0 <= i < |st.attempts| ::
      st.attempts[i].status == Running <==> Names(st, ScopeOf(st, i), i)
  }

  /** A held lease names a known attempt of that scope. */
  ghost predicate HoldersKnown(st: State)
    requires Known(st)
  {
    forall s | s in st.leases && st.leases[s].holder.Some? ::
      exists i | 0 <= i < |st.attempts| :: ScopeOf(st, i) == s && Names(st, s, i)
  }

  /** Fences grow with every claim in a scope, and the lease keeps the last one. */
  ghost predicate Fenced(st: State)
    requires Known(st)
  {
    && (forall i | 0 <= i < |st.attempts| ::
          && ScopeOf(st, i) in st.leases
          && 1 <= st.attempts[i].fence <= st.leases[ScopeOf(st, i)].fence)
    && (forall i, j | 0 <= i < j < |st.attempts| && ScopeOf(st, i) == ScopeOf(st, j) ::
          st.attempts[i].fence < st.attempts[j].fence)
  }

  /** Only the last attempt of a run can be running or have succeeded. */
  ghost predicate OnlyLastSucceeds(rows: seq<Attempt>) {
    forall i, j | 0 <= i < j < |rows| && rows[i].run == rows[j].run ::
      rows[i].status != Running && rows[i].status != Completed && rows[i].status != NoAction
  }

  ghost predicate TagsKnown(st: State) {
    && (forall d | d in st.tags && st.tags[d] != "" ::
          exists i | 0 <= i < |st.attempts| :: st.attempts[i].id == st.tags[d])
    && (forall i | 0 <= i < |st.attempts| && st.attempts[i].status == NoAction ::
          Tagged(st.tags, st.attempts[i].id) == {})
  }

  ghost predicate Inv(st: State) {
    && Known(st) && Numbered(st.attempts) && RunningIsLeased(st) && HoldersKnown(st) && Fenced(st)
    && OnlyLastSucceeds(st.attempts) && TagsKnown(st)
  }

  // ----- Rows keep their identity -----

  /** `b` is `a` later in its life: the same attempt, and once it has ended, unchanged. */
  ghost predicate Continues(a: Attempt, b: Attempt) {
    && b.id == a.id && b.run == a.run && b.number == a.number && b.fence == a.fence
    && (a.status != Running ==> b == a)
  }

  ghost predicate RowsContinue(rows: seq<Attempt>, later: seq<Attempt>) {
    |rows| <= |later| && forall i | 0 <= i < |rows| :: Continues(rows[i], later[i])
  }

  lemma {:induction false} CountIgnoresStatus(rows: seq<Attempt>, later: seq<Attempt>, run: string)
    requires |rows| == |later| && (forall i | 0 <= i < |rows| :: rows[i].run == later[i].run)
    ensures CountRun(rows, run) == CountRun(later, run)
  {
    if rows != [] {
      CountIgnoresStatus(rows[..|rows| - 1], later[..|rows| - 1], run);
    }
  }

  lemma NumberedIgnoresStatus(rows: seq<Attempt>, later: seq<Attempt>)
    requires Numbered(rows) && |rows| == |later| && RowsContinue(rows, later)
    ensures Numbered(later)
  {
    forall i | 0 <= i < |later| ensures later[i].number == CountRun(later[..i], later[i].run) + 1 {
      assert Continues(rows[i], later[i]);
      forall j | 0 <= j < i ensures rows[..i][j].run == later[..i][j].run {
        assert Continues(rows[j], later[j]);
      }
      CountIgnoresStatus(rows[..i], later[..i], rows[i].run);
    }
  }

  // ----- Operations on existing attempts -----

  /** The running attempts named by `ids` end and release their leases; nothing else moves. */
  ghost predicate Evolves(st: State, st': State, ids: set<string>) {
    && st'.runs == st.runs && st'.tags == st.tags
    && |st'.attempts| == |st.attempts| && RowsContinue(st.attempts, st'.attempts)
    && (forall i | 0 <= i < |st.attempts| ::
          && (st'.attempts[i].status == Running
              <==> st.attempts[i].status == Running && st.attempts[i].id !in ids)
          && (st.attempts[i].status == Running && st'.attempts[i].status == NoAction ==>
                Tagged(st.tags, st.attempts[i].id) == {}))
    && st'.leases.Keys == st.leases.Keys
    && (forall s | s in st.leases ::
          && st'.leases[s].fence == st.leases[s].fence
          && st'.leases[s].holder
             == if st.leases[s].holder.Some? && st.leases[s].holder.value in ids then None
                else st.leases[s].holder)
  }

  lemma EvolvesKeepsKnown(st: State, st': State, ids: set<string>)
    requires Known(st) && Evolves(st, st', ids)
    ensures Known(st')
    ensures forall i | 0 <= i < |st.attempts| :: ScopeOf(st', i) == ScopeOf(st, i)
    ensures forall i, s | 0 <= i < |st.attempts| ::
              Names(st', s, i) <==> Names(st, s, i) && st.attempts[i].id !in ids
  {
    forall i | 0 <= i < |st.attempts| ensures Continues(st.attempts[i], st'.attempts[i]) {
    }
  }

  lemma EvolvesKeepsLeases(st: State, st': State, ids: set<string>)
    requires Known(st) && RunningIsLeased(st) && HoldersKnown(st) && Evolves(st, st', ids)
    ensures Known(st') && RunningIsLeased(st') && HoldersKnown(st')
  {
    EvolvesKeepsKnown(st, st', ids);
    forall s | s in st'.leases && st'.leases[s].holder.Some?
      ensures exists i | 0 <= i < |st'.attempts| :: ScopeOf(st', i) == s && Names(st', s, i)
    {
      var i :| 0 <= i < |st.attempts| && ScopeOf(st, i) == s && Names(st, s, i);
      assert ScopeOf(st', i) == s && Names(st', s, i);
    }
  }

  lemma EvolvesKeepsFences(st: State, st': State, ids: set<string>)
    requires Known(st) && Fenced(st) && Evolves(st, st', ids)
    ensures Known(st') && Fenced(st')
  {
    EvolvesKeepsKnown(st, st', ids);
    forall i | 0 <= i < |st.attempts| ensures Continues(st.attempts[i], st'.attempts[i]) {
    }
  }

  lemma EvolvesKeepsOutcomes(st: State, st': State, ids: set<string>)
    requires OnlyLastSucceeds(st.attempts) && TagsKnown(st) && Evolves(st, st', ids)
    ensures OnlyLastSucceeds(st'.attempts) && TagsKnown(st')
  {
    forall i | 0 <= i < |st.attempts| ensures Continues(st.attempts[i], st'.attempts[i]) {
    }
    forall d | d in st'.tags && st'.tags[d] != ""
      ensures exists i | 0 <= i < |st'.attempts| :: st'.attempts[i].id == st'.tags[d]
    {
      var i :| 0 <= i < |st.attempts| && st.attempts[i].id == st.tags[d];
      assert st'.attempts[i].id == st'.tags[d];
    }
  }

  lemma EvolvesKeepsInv(st: State, st': State, ids: set<string>)
    requires Inv(st) && Evolves(st, st', ids)
    ensures Inv(st')
  {
    EvolvesKeepsLeases(st, st', ids);
    EvolvesKeepsFences(st, st', ids);
    EvolvesKeepsOutcomes(st, st', ids);
    NumberedIgnoresStatus(st.attempts, st'.attempts);
  }

  lemma ExpireEvolves(st: State, now: int)
    ensures Evolves(st, ExpireSpec(st, now), DueHolders(st.leases, now))
  {
  }

  lemma FinishEvolves(st: State, f: FinishArgs)
    requires Known(st) && FinishSpec(st, f).outcome.Ok?
    ensures Evolves(st, FinishSpec(st, f).st, {f.id})
  {
    var st', k := FinishSpec(st, f).st, RowOf(st.attempts, f.id);
    forall i | 0 <= i < |st.attempts| ensures Continues(st.attempts[i], st'.attempts[i]) {
      assert i != k ==> st'.attempts[i] == st.attempts[i];
    }
  }

  lemma HeartbeatEvolves(
    st: State, id: string, fence: nat, now: int, stage: Option<Stage>, seconds: int)
    requires HeartbeatSpec(st, id, fence, now, stage, seconds).outcome.Ok?
    ensures Evolves(st, HeartbeatSpec(st, id, fence, now, stage, seconds).st, {})
  {
    var st', k := HeartbeatSpec(st, id, fence, now, stage, seconds).st, RowOf(st.attempts, id);
    forall i | 0 <= i < |st.attempts| ensures Continues(st.attempts[i], st'.attempts[i]) {
      assert i != k ==> st'.attempts[i] == st.attempts[i];
    }
  }

  // ----- Claiming -----

  lemma NumberedFront(rows: seq<Attempt>)
    requires Numbered(rows) && rows != []
    ensures Numbered(rows[..|rows| - 1])
    ensures rows[|rows| - 1].number == CountRun(rows[..|rows| - 1], rows[|rows| - 1].run) + 1
  {
    var front := rows[..|rows| - 1];
    forall i | 0 <= i < |front| ensures front[i].number == CountRun(front[..i], front[i].run) + 1 {
      assert front[..i] == rows[..i] && front[i] == rows[i];
    }
  }

  /** The attempt with the highest number is the last row of its run, and its number counts them. */
  lemma {:induction false} PriorIsLast(rows: seq<Attempt>, run: string) returns (k: nat)
    requires Numbered(rows)
    ensures (if Prior(rows, run).Some? then Prior(rows, run).value.number else 0) == CountRun(rows, run)
    ensures Prior(rows, run).None? ==> forall i | 0 <= i < |rows| :: rows[i].run != run
    ensures Prior(rows, run).Some? ==>
              && k < |rows| && rows[k] == Prior(rows, run).value && rows[k].run == run
              && forall j | k < j < |rows| :: rows[j].run != run
  {
    k := 0;
    if rows != [] {
      var front, last := rows[..|rows| - 1], rows[|rows| - 1];
      NumberedFront(rows);
      k := PriorIsLast(front, run);
      assert Prior(rows, run) == if last.run == run then Some(last) else Prior(front, run);
      if last.run == run {
        k := |rows| - 1;
      } else {
        forall j | 0 <= j < |rows| ensures rows[j] == if j < |front| then front[j] else last {
        }
      }
    }
  }

  /** `a` becomes the newest attempt, holding its scope's lease under the next fence. */
  ghost predicate Grants(st: State, st': State, a: Attempt, until: int)
    requires a.run in st.runs
  {
    && st' == st.(attempts := st.attempts + [a],
                  leases := st.leases[st.runs[a.run].scope := Lease(a.fence, Some(a.id), until)])
    && a.status == Running && a.fence == LeaseOf(st, st.runs[a.run].scope).fence + 1
    && a.number == CountRun(st.attempts, a.run) + 1 && a.id != ""
    && (forall i | 0 <= i < |st.attempts| :: st.attempts[i].id != a.id)
    && LeaseOf(st, st.runs[a.run].scope).holder.None?
    && (forall i | 0 <= i < |st.attempts| && st.attempts[i].run == a.run ::
          st.attempts[i].status != Completed && st.attempts[i].status != NoAction)
  }

  lemma GrantsKeepsKnown(st: State, st': State, a: Attempt, until: int)
    requires Known(st) && a.run in st.runs && Grants(st, st', a, until)
    ensures Known(st')
    ensures forall i | 0 <= i < |st.attempts| ::
              st'.attempts[i] == st.attempts[i] && ScopeOf(st', i) == ScopeOf(st, i)
    ensures ScopeOf(st', |st.attempts|) == st.runs[a.run].scope
  {
  }

  lemma GrantsKeepsLeases(st: State, st': State, a: Attempt, until: int)
    requires Known(st) && RunningIsLeased(st) && HoldersKnown(st)
    requires a.run in st.runs && Grants(st, st', a, until)
    ensures Known(st') && RunningIsLeased(st') && HoldersKnown(st')
  {
    var n, scope := |st.attempts|, st.runs[a.run].scope;
    GrantsKeepsKnown(st, st', a, until);
    assert Names(st', scope, n);
    forall i, s | 0 <= i < n ensures Names(st', s, i) == Names(st, s, i) {
    }
    forall s | s in st'.leases && st'.leases[s].holder.Some?
      ensures exists i | 0 <= i < |st'.attempts| :: ScopeOf(st', i) == s && Names(st', s, i)
    {
      if s == scope {
        assert ScopeOf(st', n) == s;
      } else {
        var i :| 0 <= i < n && ScopeOf(st, i) == s && Names(st, s, i);
        assert ScopeOf(st', i) == s && Names(st', s, i);
      }
    }
  }

  lemma GrantsKeepsFences(st: State, st': State, a: Attempt, until: int)
    requires Known(st) && Fenced(st) && a.run in st.runs && Grants(st, st', a, until)
    ensures Known(st') && Fenced(st')
  {
    GrantsKeepsKnown(st, st', a, until);
    forall i, j | 0 <= i < j < |st'.attempts| && ScopeOf(st', i) == ScopeOf(st', j)
      ensures st'.attempts[i].fence < st'.attempts[j].fence
    {
      assert st.attempts[i].fence <= LeaseOf(st, ScopeOf(st, i)).fence;
    }
  }

  lemma GrantsKeepsOutcomes(st: State, st': State, a: Attempt, until: int)
    requires Known(st) && RunningIsLeased(st) && OnlyLastSucceeds(st.attempts) && TagsKnown(st)
    requires a.run in st.runs && Grants(st, st', a, until)
    ensures OnlyLastSucceeds(st'.attempts) && TagsKnown(st')
  {
    var n := |st.attempts|;
    forall i | 0 <= i < n && st.attempts[i].run == a.run ensures st.attempts[i].status != Running {
      assert !Names(st, ScopeOf(st, i), i);
    }
    forall i, j | 0 <= i < j < |st'.attempts| && st'.attempts[i].run == st'.attempts[j].run
      ensures st'.attempts[i].status != Running && st'.attempts[i].status != Completed
              && st'.attempts[i].status != NoAction
    {
      assert st'.attempts[i] == st.attempts[i];
    }
    forall d | d in st'.tags && st'.tags[d] != ""
      ensures exists i | 0 <= i < |st'.attempts| :: st'.attempts[i].id == st'.tags[d]
    {
      var i :| 0 <= i < n && st.attempts[i].id == st.tags[d];
      assert st'.attempts[i].id == st'.tags[d];
    }
  }

  lemma NumberedGrows(rows: seq<Attempt>, a: Attempt)
    requires Numbered(rows) && a.number == CountRun(rows, a.run) + 1
    ensures Numbered(rows + [a])
  {
    var all := rows + [a];
    forall i | 0 <= i < |all| ensures all[i].number == CountRun(all[..i], all[i].run) + 1 {
      assert all[..i] == rows[..i];
      assert rows[..|rows|] == rows;
    }
  }

  lemma GrantsKeepsInv(st: State, st': State, a: Attempt, until: int)
    requires Inv(st) && a.run in st.runs && Grants(st, st', a, until)
    ensures Inv(st')
  {
    GrantsKeepsLeases(st, st', a, until);
    GrantsKeepsFences(st, st', a, until);
    GrantsKeepsOutcomes(st, st', a, until);
    NumberedGrows(st.attempts, a);
  }

  lemma SweepKeepsInv(st: State, now: int)
    requires Inv(st)
    ensures Inv(ExpireSpec(st, now))
  {
    ExpireEvolves(st, now);
    EvolvesKeepsInv(st, ExpireSpec(st, now), DueHolders(st.leases, now));
  }

  lemma AcceptedClaim(st: State, c: ClaimArgs, swept: State)
    requires swept == ExpireSpec(st, c.now) && ClaimSpec(st, c).outcome.Ok?
    ensures ClaimRefusal(swept, c).None? && c.run in swept.runs
    ensures ClaimSpec(st, c).outcome == Ok(Some(NewAttempt(swept, c)))
    ensures var a, scope := NewAttempt(swept, c), swept.runs[c.run].scope;
            ClaimSpec(st, c).st
            == swept.(attempts := swept.attempts + [a],
                      leases := swept.leases[scope := Lease(a.fence, Some(a.id), c.now + c.seconds)])
  {
  }

  /** An accepted claim sweeps the due leases and then grants its scope's free lease. */
  lemma ClaimGrants(st: State, c: ClaimArgs)
    requires Inv(st) && ClaimSpec(st, c).outcome.Ok?
    ensures var swept := ExpireSpec(st, c.now);
            && Inv(swept) && c.run in swept.runs
            && Grants(swept, ClaimSpec(st, c).st, NewAttempt(swept, c), c.now + c.seconds)
  {
    SweepKeepsInv(st, c.now);
    AcceptedClaim(st, c, ExpireSpec(st, c.now));
    AdmittedGrants(ExpireSpec(st, c.now), c);
  }

  lemma AdmittedGrants(st: State, c: ClaimArgs)
    requires Inv(st) && ClaimRefusal(st, c).None?
    ensures c.run in st.runs
    ensures var a, scope := NewAttempt(st, c), st.runs[c.run].scope;
            Grants(st, st.(attempts := st.attempts + [a],
                           leases := st.leases[scope := Lease(a.fence, Some(a.id), c.now + c.seconds)]),
                   a, c.now + c.seconds)
  {
    PriorHasNotSucceeded(st.attempts, c.run);
    assert NewId(c)[0] == 'a';
  }

  lemma PriorHasNotSucceeded(rows: seq<Attempt>, run: string)
    requires Numbered(rows) && OnlyLastSucceeds(rows)
    ensures (if Prior(rows, run).Some? then Prior(rows, run).value.number else 0) == CountRun(rows, run)
    ensures (Prior(rows, run).Some? ==>
               Prior(rows, run).value.status != Completed && Prior(rows, run).value.status != NoAction)
            ==> forall i | 0 <= i < |rows| && rows[i].run == run ::
                  rows[i].status != Completed && rows[i].status != NoAction
  {
    var k := PriorIsLast(rows, run);
    forall i | 0 <= i < |rows| && rows[i].run == run
      ensures i == k || (rows[i].status != Completed && rows[i].status != NoAction)
    {
      assert i <= k;
    }
  }

  // ----- Submissions -----

  /** Decision `d` gains an attempt's tag. */
  ghost predicate GainsTag(st: State, st': State, d: string) {
    d in st'.tags && (d !in st.tags || st'.tags[d] != st.tags[d]) && st'.tags[d] != ""
  }

  lemma RecordingTags(st: State, s: SubmitArgs, d: string)
    requires GainsTag(st, Recording(st, s).st, d)
    ensures s.holder.Some? && Recording(st, s).st.tags[d] == s.holder.value.0
    ensures d in st.tags ==> st.tags[d] == ""
  {
  }

  lemma SubmitWritesUnderFence(st: State, s: SubmitArgs, d: string)
    requires GainsTag(st, SubmitSpec(st, s).st, d)
    ensures s.holder.Some? && SubmitSpec(st, s).st.tags[d] == s.holder.value.0
    ensures d in st.tags ==> st.tags[d] == ""
    ensures ValidateFence(st, s.holder.value.0, s.holder.value.1, s.now).Ok?
  {
    assert SubmitSpec(st, s) == Recording(st, s);
    RecordingTags(st, s, d);
  }

  ghost predicate TagFits(st: State, id: string) {
    && (exists i | 0 <= i < |st.attempts| :: st.attempts[i].id == id)
    && (forall i | 0 <= i < |st.attempts| && st.attempts[i].status == NoAction ::
          st.attempts[i].id != id)
  }

  lemma TagsFit(st: State)
    requires Known(st)
    ensures TagsKnown(st) <==> forall d | d in st.tags && st.tags[d] != "" :: TagFits(st, st.tags[d])
  {
    if TagsKnown(st) {
      forall d | d in st.tags && st.tags[d] != "" ensures TagFits(st, st.tags[d]) {
        forall i | 0 <= i < |st.attempts| && st.attempts[i].status == NoAction
          ensures st.attempts[i].id != st.tags[d]
        {
          assert d !in Tagged(st.tags, st.attempts[i].id);
        }
      }
    }
  }

  lemma RunningFits(st: State, id: string, fence: nat, now: int)
    requires Known(st) && ValidateFence(st, id, fence, now).Ok?
    ensures TagFits(st, id)
  {
    var k := RowOf(st.attempts, id);
    assert st.attempts[k].id == id;
  }

  lemma SubmitTagFits(st: State, s: SubmitArgs, st': State, d: string)
    requires Inv(st) && st' == SubmitSpec(st, s).st
    requires d in st'.tags && st'.tags[d] != ""
    ensures TagFits(st, st'.tags[d])
  {
    if GainsTag(st, st', d) {
      SubmitWritesUnderFence(st, s, d);
      RunningFits(st, s.holder.value.0, s.holder.value.1, s.now);
    } else {
      TagsFit(st);
    }
  }

  lemma SubmitTouchesLittle(st: State, s: SubmitArgs, st': State)
    requires st' == SubmitSpec(st, s).st
    ensures st' == st.(tags := st'.tags, links := st'.links)
  {
  }

  lemma SubmitKeepsInv(st: State, s: SubmitArgs)
    requires Inv(st)
    ensures Inv(SubmitSpec(st, s).st)
  {
    var st' := SubmitSpec(st, s).st;
    SubmitTouchesLittle(st, s, st');
    forall d | d in st'.tags && st'.tags[d] != "" ensures TagFits(st, st'.tags[d]) {
      SubmitTagFits(st, s, st', d);
    }
    TagsMoveKeepsInv(st, st');
  }

  lemma TagsMoveKeepsInv(st: State, st': State)
    requires Inv(st) && st' == st.(tags := st'.tags, links := st'.links)
    requires forall d | d in st'.tags && st'.tags[d] != "" :: TagFits(st, st'.tags[d])
    ensures Inv(st')
  {
    forall d | d in st'.tags && st'.tags[d] != "" ensures TagFits(st', st'.tags[d]) {
      assert TagFits(st, st'.tags[d]);
    }
    TagsFit(st');
  }

  // ----- Whole runs -----

  datatype Op =
    | Prepare(reasoning: string)
    | Complete(complete: CompleteArgs)
    | SaveRun(id: string, run: Run, admissible: bool)
    | Claim(claim: ClaimArgs)
    | Heartbeat(attempt: string, fence: nat, now: int, stage: Option<Stage>, seconds: int)
    | Finish(finish: FinishArgs)
    | Expire(now: int)
    | Submit(submit: SubmitArgs)

  function Step(st: State, op: Op): Reply {
    match op
    case Prepare(r) =>
      Reply(if r in st.reasonings then st else st.(reasonings := st.reasonings[r := Prepared]), Ok(None))
    case Complete(c) => CompleteSpec(st, c)
    case SaveRun(id, run, admissible) => SaveRunSpec(st, id, run, admissible)
    case Claim(c) => ClaimSpec(st, c)
    case Heartbeat(id, fence, now, stage, seconds) => HeartbeatSpec(st, id, fence, now, stage, seconds)
    case Finish(f) => FinishSpec(st, f)
    case Expire(now) => Reply(ExpireSpec(st, now), Ok(None))
    case Submit(s) => SubmitSpec(st, s)
  }

  function After(st: State, ops: seq<Op>): State
    decreases |ops|
  {
    if ops == [] then st else After(Step(st, ops[0]).st, ops[1..])
  }

  const EMPTY := State(map[], [], map[], map[], map[], map[])

  /** What no operation can undo: rows keep their identity and, once ended, every field; fences and
      attributions stand; a prepared reasoning run is completed at most once. */
  ghost predicate Preserves(st: State, st': State) {
    && RowsContinue(st.attempts, st'.attempts)
    && (forall s | s in st.leases :: s in st'.leases && st.leases[s].fence <= st'.leases[s].fence)
    && (forall d | d in st.tags && st.tags[d] != "" :: d in st'.tags && st'.tags[d] == st.tags[d])
    && (forall r | r in st.reasonings && st.reasonings[r] != Prepared ::
          r in st'.reasonings && st'.reasonings[r] == st.reasonings[r])
  }

  lemma PreservesIsTransitive(a: State, b: State, c: State)
    requires Preserves(a, b) && Preserves(b, c)
    ensures Preserves(a, c)
  {
    forall i | 0 <= i < |a.attempts| ensures Continues(a.attempts[i], c.attempts[i]) {
      assert Continues(a.attempts[i], b.attempts[i]) && Continues(b.attempts[i], c.attempts[i]);
    }
  }

  lemma MoreRunsKeepKnown(st: State, st': State)
    requires Known(st) && st' == st.(runs := st'.runs)
    requires forall r | r in st.runs :: r in st'.runs && st'.runs[r] == st.runs[r]
    ensures Known(st')
    ensures forall i | 0 <= i < |st.attempts| :: ScopeOf(st', i) == ScopeOf(st, i)
    ensures forall i, s | 0 <= i < |st.attempts| :: Names(st', s, i) == Names(st, s, i)
  {
  }

  lemma MoreRunsKeepInv(st: State, st': State)
    requires Inv(st) && st' == st.(runs := st'.runs)
    requires forall r | r in st.runs :: r in st'.runs && st'.runs[r] == st.runs[r]
    ensures Inv(st')
  {
    MoreRunsKeepKnown(st, st');
    MoreRunsKeepLeases(st, st');
  }

  lemma MoreRunsKeepLeases(st: State, st': State)
    requires Known(st) && RunningIsLeased(st) && HoldersKnown(st) && Fenced(st)
    requires st' == st.(runs := st'.runs)
    requires forall r | r in st.runs :: r in st'.runs && st'.runs[r] == st.runs[r]
    ensures Known(st') && RunningIsLeased(st') && HoldersKnown(st') && Fenced(st')
  {
    MoreRunsKeepKnown(st, st');
    forall s | s in st'.leases && st'.leases[s].holder.Some?
      ensures exists i | 0 <= i < |st'.attempts| :: ScopeOf(st', i) == s && Names(st', s, i)
    {
      var i :| 0 <= i < |st.attempts| && ScopeOf(st, i) == s && Names(st, s, i);
      assert ScopeOf(st', i) == s && Names(st', s, i);
    }
  }

  lemma SubmitPreserves(st: State, s: SubmitArgs)
    ensures Preserves(st, SubmitSpec(st, s).st)
  {
    var st' := SubmitSpec(st, s).st;
    forall d | d in st.tags && st.tags[d] != "" ensures d in st'.tags && st'.tags[d] == st.tags[d] {
      if d !in st'.tags || st'.tags[d] != st.tags[d] { SubmitWritesUnderFence(st, s, d); }
    }
  }

  lemma EvolvesPreserves(st: State, st': State, ids: set<string>)
    requires Evolves(st, st', ids)
    requires forall r | r in st.reasonings && st.reasonings[r] != Prepared ::
               r in st'.reasonings && st'.reasonings[r] == st.reasonings[r]
    ensures Preserves(st, st')
  {
  }

  lemma ClaimPreserves(st: State, c: ClaimArgs)
    requires Inv(st)
    ensures Preserves(st, ClaimSpec(st, c).st)
  {
    if ClaimSpec(st, c).outcome.Ok? {
      var swept := ExpireSpec(st, c.now);
      ClaimGrants(st, c);
      ExpireEvolves(st, c.now);
      EvolvesPreserves(st, swept, DueHolders(st.leases, c.now));
      GrantsPreserves(swept, ClaimSpec(st, c).st, NewAttempt(swept, c), c.now + c.seconds);
      PreservesIsTransitive(st, swept, ClaimSpec(st, c).st);
    }
  }

  lemma GrantsPreserves(st: State, st': State, a: Attempt, until: int)
    requires a.run in st.runs && Grants(st, st', a, until)
    ensures Preserves(st, st')
  {
  }

  lemma EvolvesIsSafe(st: State, st': State, ids: set<string>)
    requires Inv(st) && Evolves(st, st', ids)
    requires forall r | r in st.reasonings && st.reasonings[r] != Prepared ::
               r in st'.reasonings && st'.reasonings[r] == st.reasonings[r]
    ensures Inv(st') && Preserves(st, st')
  {
    EvolvesKeepsInv(st, st', ids);
    EvolvesPreserves(st, st', ids);
  }

  lemma ClaimIsSafe(st: State, c: ClaimArgs, st': State)
    requires Inv(st) && st' == ClaimSpec(st, c).st
    ensures Inv(st') && Preserves(st, st')
  {
    ClaimPreserves(st, c);
    if ClaimSpec(st, c).outcome.Ok? {
      ClaimGrants(st, c);
      var swept := ExpireSpec(st, c.now);
      GrantsKeepsInv(swept, st', NewAttempt(swept, c), c.now + c.seconds);
    }
  }

  lemma HeartbeatChanges(
    st: State, id: string, fence: nat, now: int, stage: Option<Stage>, seconds: int, st': State)
    requires st' == HeartbeatSpec(st, id, fence, now, stage, seconds).st
    ensures st' == st || (Evolves(st, st', {}) && st'.reasonings == st.reasonings)
  {
    if HeartbeatSpec(st, id, fence, now, stage, seconds).outcome.Ok? {
      HeartbeatEvolves(st, id, fence, now, stage, seconds);
    }
  }

  lemma FinishChanges(st: State, f: FinishArgs, st': State)
    requires Known(st) && st' == FinishSpec(st, f).st
    ensures st' == st || Evolves(st, st', {f.id})
    ensures forall r | r in st.reasonings && st.reasonings[r] != Prepared ::
              r in st'.reasonings && st'.reasonings[r] == st.reasonings[r]
  {
    if FinishSpec(st, f).outcome.Ok? {
      FinishEvolves(st, f);
    }
  }

  lemma SubmitIsSafe(st: State, s: SubmitArgs, st': State)
    requires Inv(st) && st' == SubmitSpec(st, s).st
    ensures Inv(st') && Preserves(st, st')
  {
    SubmitKeepsInv(st, s);
    SubmitPreserves(st, s);
  }

  lemma SaveRunIsSafe(st: State, id: string, run: Run, admissible: bool, st': State)
    requires Inv(st) && st' == SaveRunSpec(st, id, run, admissible).st
    ensures Inv(st') && Preserves(st, st')
  {
    MoreRunsKeepInv(st, st');
  }

  /** Reasoning runs that are added, or completed once, disturb nothing. */
  lemma ReasoningsAreSafe(st: State, st': State)
    requires Inv(st) && st' == st.(reasonings := st'.reasonings)
    requires forall r | r in st.reasonings && st.reasonings[r] != Prepared ::
               r in st'.reasonings && st'.reasonings[r] == st.reasonings[r]
    ensures Inv(st') && Preserves(st, st')
  {
    assert Evolves(st, st', {});
    EvolvesKeepsInv(st, st', {});
  }

  lemma PrepareIsSafe(st: State, r: string, st': State)
    requires Inv(st) && st' == Step(st, Prepare(r)).st
    ensures Inv(st') && Preserves(st, st')
  {
    ReasoningsAreSafe(st, st');
  }

  lemma CompleteIsSafe(st: State, c: CompleteArgs, st': State)
    requires Inv(st) && st' == CompleteSpec(st, c).st
    ensures Inv(st') && Preserves(st, st')
  {
    ReasoningsAreSafe(st, st');
  }

  lemma HeartbeatIsSafe(st: State, op: Op, st': State)
    requires op.Heartbeat? && Inv(st) && st' == Step(st, op).st
    ensures Inv(st') && Preserves(st, st')
  {
    HeartbeatChanges(st, op.attempt, op.fence, op.now, op.stage, op.seconds, st');
    if st' != st { EvolvesIsSafe(st, st', {}); }
  }

  lemma FinishIsSafe(st: State, f: FinishArgs, st': State)
    requires Inv(st) && st' == FinishSpec(st, f).st
    ensures Inv(st') && Preserves(st, st')
  {
    FinishChanges(st, f, st');
    if st' != st { EvolvesIsSafe(st, st', {f.id}); }
  }

  lemma ExpireIsSafe(st: State, now: int, st': State)
    requires Inv(st) && st' == ExpireSpec(st, now)
    ensures Inv(st') && Preserves(st, st')
  {
    ExpireEvolves(st, now);
    EvolvesIsSafe(st, st', DueHolders(st.leases, now));
  }

  lemma StepIsSafe(st: State, op: Op, st': State)
    requires Inv(st) && st' == Step(st, op).st
    ensures Inv(st') && Preserves(st, st')
  {
    match op
    case Prepare(r) => PrepareIsSafe(st, r, st');
    case Complete(c) => CompleteIsSafe(st, c, st');
    case SaveRun(id, run, admissible) => SaveRunIsSafe(st, id, run, admissible, st');
    case Claim(c) => ClaimIsSafe(st, c, st');
    case Heartbeat(_, _, _, _, _) => HeartbeatIsSafe(st, op, st');
    case Finish(f) => FinishIsSafe(st, f, st');
    case Expire(now) => ExpireIsSafe(st, now, st');
    case Submit(s) => SubmitIsSafe(st, s, st');
  }

  /** Everything the protocol promises holds after any operations in any order at any clock, and
      whatever it settled earlier stands. */
  lemma {:induction false} RunsAreSafe(st: State, ops: seq<Op>)
    requires Inv(st)
    ensures Inv(After(st, ops)) && Preserves(st, After(st, ops))
    decreases |ops|
  {
    if ops != [] {
      var next := Step(st, ops[0]).st;
      StepIsSafe(st, ops[0], next);
      RunsAreSafe(next, ops[1..]);
      PreservesIsTransitive(st, next, After(st, ops));
    }
  }

  // ----- What the invariant says -----

  /** Each scope has at most one running attempt, and an attempt runs exactly when its scope's lease
      names it with its fence. */
  lemma OneRunningAttemptPerScope(ops: seq<Op>, i: nat, j: nat)
    requires i < |After(EMPTY, ops).attempts| && j < |After(EMPTY, ops).attempts|
    ensures Inv(After(EMPTY, ops))
    ensures var st := After(EMPTY, ops);
            && (st.attempts[i].status == Running <==> Names(st, ScopeOf(st, i), i))
            && (st.attempts[i].status == st.attempts[j].status == Running ==>
                  ScopeOf(st, i) == ScopeOf(st, j) ==> i == j)
  {
    RunsAreSafe(EMPTY, ops);
    var st := After(EMPTY, ops);
    if st.attempts[i].status == Running && st.attempts[j].status == Running
       && ScopeOf(st, i) == ScopeOf(st, j)
    {
      assert Names(st, ScopeOf(st, i), i) && Names(st, ScopeOf(st, j), j);
    }
  }

  /** A claim that succeeds is granted a fence above every fence its scope ever saw. */
  lemma ClaimedFenceIsFresh(ops: seq<Op>, c: ClaimArgs)
    requires ClaimSpec(After(EMPTY, ops), c).outcome.Ok?
    ensures var st := After(EMPTY, ops);
            var a := ClaimSpec(st, c).outcome.attempt;
            && Inv(st) && c.run in st.runs && a.Some?
            && forall i | 0 <= i < |st.attempts| && ScopeOf(st, i) == st.runs[c.run].scope ::
                 st.attempts[i].fence < a.value.fence
  {
    RunsAreSafe(EMPTY, ops);
    var st := After(EMPTY, ops);
    ClaimGrants(st, c);
    var swept := ExpireSpec(st, c.now);
    ExpireEvolves(st, c.now);
    EvolvesKeepsKnown(st, swept, DueHolders(st.leases, c.now));
    forall i | 0 <= i < |st.attempts| && ScopeOf(st, i) == st.runs[c.run].scope
      ensures st.attempts[i].fence < NewAttempt(swept, c).fence
    {
      assert st.leases[ScopeOf(st, i)].fence == swept.leases[ScopeOf(st, i)].fence;
    }
  }

  /** Whether an operation writes as attempt `id`. */
  predicate WritesAs(op: Op, id: string) {
    match op
    case Heartbeat(attempt, _, _, _, _) => attempt == id
    case Finish(f) => f.id == id
    case Submit(s) => s.holder.Some? && s.holder.value.0 == id
    case _ => false
  }

  lemma EndedWritesFail(st: State, i: nat, op: Op)
    requires Known(st) && i < |st.attempts| && st.attempts[i].status != Running
    requires WritesAs(op, st.attempts[i].id)
    ensures Step(st, op).outcome.Err? && Step(st, op).st == st
  {
    assert RowOf(st.attempts, st.attempts[i].id) == i;
  }

  /** Once an attempt has ended, whatever happens later, no heartbeat, finish or fenced submission
      under its name succeeds with any fence, and its row never changes again. */
  lemma EndedAttemptsAreDead(before: seq<Op>, after: seq<Op>, i: nat, op: Op)
    requires i < |After(EMPTY, before).attempts|
    requires After(EMPTY, before).attempts[i].status != Running
    requires WritesAs(op, After(EMPTY, before).attempts[i].id)
    ensures var st := After(EMPTY, before);
            var later := After(st, after);
            && i < |later.attempts| && later.attempts[i] == st.attempts[i]
            && Step(later, op).outcome.Err? && Step(later, op).st == later
  {
    RunsAreSafe(EMPTY, before);
    var st := After(EMPTY, before);
    RunsAreSafe(st, after);
    assert Continues(st.attempts[i], After(st, after).attempts[i]);
    EndedWritesFail(After(st, after), i, op);
  }

  /** An operation writes an attempt's tag on `d`. */
  ghost predicate Attributes(st: State, op: Op, d: string) {
    var st' := Step(st, op).st;
    d in st'.tags && st'.tags[d] != "" && (d in st.tags ==> st.tags[d] != st'.tags[d])
  }

  lemma OnlyLiveAttemptsAttribute(st: State, op: Op, d: string)
    requires Inv(st) && Attributes(st, op, d)
    ensures d in st.tags ==> st.tags[d] == ""
    ensures op.Submit? && op.submit.holder.Some?
    ensures var id := Step(st, op).st.tags[d];
            && id == op.submit.holder.value.0
            && ValidateFence(st, id, op.submit.holder.value.1, op.submit.now).Ok?
            && (exists i | 0 <= i < |st.attempts| ::
                  st.attempts[i].id == id && st.attempts[i].status == Running)
  {
    OnlySubmitTags(st, op);
    SubmitWritesUnderFence(st, op.submit, d);
    var k := RowOf(st.attempts, op.submit.holder.value.0);
    assert st.attempts[k].status == Running;
  }

  lemma OnlySubmitTags(st: State, op: Op)
    ensures op.Submit? || Step(st, op).st.tags == st.tags
  {
  }

  /** A decision gets an attempt's tag only from a submission under that attempt's live fence, from
      the untagged state, and keeps it for ever. */
  lemma AttributionIsFencedAndFinal(before: seq<Op>, op: Op, after: seq<Op>, d: string)
    requires Attributes(After(EMPTY, before), op, d)
    ensures var st, st' := After(EMPTY, before), Step(After(EMPTY, before), op).st;
            && (d in st.tags ==> st.tags[d] == "")
            && op.Submit? && op.submit.holder.Some? && op.submit.holder.value.0 == st'.tags[d]
            && ValidateFence(st, st'.tags[d], op.submit.holder.value.1, op.submit.now).Ok?
            && (exists i | 0 <= i < |st.attempts| ::
                  st.attempts[i].id == st'.tags[d] && st.attempts[i].status == Running)
            && d in After(st', after).tags && After(st', after).tags[d] == st'.tags[d]
  {
    var st := After(EMPTY, before);
    RunsAreSafe(EMPTY, before);
    OnlyLiveAttemptsAttribute(st, op, d);
    StepIsSafe(st, op, Step(st, op).st);
    RunsAreSafe(Step(st, op).st, after);
  }

  /** Every attempt of a run is numbered by how many of that run came before it, so they are numbered
      1, 2, ..., n in order; and only the last of a run can be running, completed or without action. */
  lemma AttemptsAreNumbered(ops: seq<Op>, i: nat)
    requires i < |After(EMPTY, ops).attempts|
    ensures var rows := After(EMPTY, ops).attempts;
            && rows[i].number == CountRun(rows[..i], rows[i].run) + 1
            && 1 <= rows[i].number <= CountRun(rows, rows[i].run)
            && (forall j | i < j < |rows| && rows[j].run == rows[i].run ::
                  rows[i].number < rows[j].number && rows[i].status !in {Running, Completed, NoAction})
  {
    RunsAreSafe(EMPTY, ops);
    var rows := After(EMPTY, ops).attempts;
    CountGrows(rows, i, |rows|, rows[i].run);
    assert rows[..|rows|] == rows;
    forall j | i < j < |rows| && rows[j].run == rows[i].run ensures rows[i].number < rows[j].number {
      CountGrows(rows, i, j, rows[i].run);
    }
  }

  lemma {:induction false} CountGrows(rows: seq<Attempt>, i: nat, j: nat, run: string)
    requires i < j <= |rows| && rows[i].run == run
    ensures CountRun(rows[..i], run) < CountRun(rows[..j], run)
  {
    assert rows[..j][..j - 1] == rows[..j - 1];
    if i < j - 1 {
      CountGrows(rows, i, j - 1, run);
    }
  }

  /** An attempt that finished without action never gains a decision. */
  lemma NoActionStaysEmpty(before: seq<Op>, after: seq<Op>, i: nat)
    requires i < |After(EMPTY, before).attempts|
    requires After(EMPTY, before).attempts[i].status == NoAction
    ensures Tagged(After(After(EMPTY, before), after).tags, After(EMPTY, before).attempts[i].id) == {}
  {
    RunsAreSafe(EMPTY, before);
    var st := After(EMPTY, before);
    RunsAreSafe(st, after);
    assert Continues(st.attempts[i], After(st, after).attempts[i]);
  }

  // ----- How long a fence is good for -----

  /** Only its own scope's lease can hold an attempt. */
  lemma HeldInScope(st: State, i: nat, s: Scope)
    requires Inv(st) && i < |st.attempts|
    requires s in st.leases && st.leases[s].holder == Some(st.attempts[i].id)
    ensures s == ScopeOf(st, i) && st.attempts[i].status == Running
  {
    var k :| 0 <= k < |st.attempts| && ScopeOf(st, k) == s && Names(st, s, k);
    assert k == i;
  }

  /** A fence is valid exactly while its attempt runs and its scope's lease has not run out. */
  lemma FenceIsLease(st: State, i: nat, fence: nat, t: int)
    requires Inv(st) && i < |st.attempts|
    ensures ScopeOf(st, i) in st.leases
    ensures ValidateFence(st, st.attempts[i].id, fence, t).Ok?
       <==> && st.attempts[i].status == Running && fence == st.attempts[i].fence
            && t < st.leases[ScopeOf(st, i)].expiresAt
  {
    var id, scope := st.attempts[i].id, ScopeOf(st, i);
    assert RowOf(st.attempts, id) == i;
    if HoldsLease(st.leases, id, fence, t) {
      var s :| s in st.leases && st.leases[s].holder == Some(id) && st.leases[s].fence == fence
               && t < st.leases[s].expiresAt;
      HeldInScope(st, i, s);
    }
    if st.attempts[i].status == Running { assert Names(st, scope, i); }
  }

  lemma ClaimHolds(st: State, c: ClaimArgs, t: int)
    requires Inv(st) && ClaimSpec(st, c).outcome.Ok?
    ensures var reply := ClaimSpec(st, c);
            && reply.outcome.attempt.Some?
            && (ValidateFence(reply.st, reply.outcome.attempt.value.id,
                              reply.outcome.attempt.value.fence, t).Ok?
                <==> t < c.now + c.seconds)
  {
    var swept := ExpireSpec(st, c.now);
    ClaimGrants(st, c);
    AcceptedClaim(st, c, swept);
    GrantHolds(swept, ClaimSpec(st, c).st, NewAttempt(swept, c), c.now + c.seconds, t);
  }

  lemma GrantHolds(st: State, st': State, a: Attempt, until: int, t: int)
    requires Inv(st) && a.run in st.runs && Grants(st, st', a, until)
    ensures ValidateFence(st', a.id, a.fence, t).Ok? <==> t < until
  {
    GrantedIsLast(st, st', a, until);
    FenceIsLease(st', |st.attempts|, a.fence, t);
  }

  /** A claimed fence is valid until its lease runs out and not after, if nothing else happens. */
  lemma ClaimHoldsUntil(ops: seq<Op>, c: ClaimArgs, t: int)
    requires ClaimSpec(After(EMPTY, ops), c).outcome.Ok?
    ensures var reply := ClaimSpec(After(EMPTY, ops), c);
            && reply.outcome.attempt.Some?
            && (ValidateFence(reply.st, reply.outcome.attempt.value.id,
                              reply.outcome.attempt.value.fence, t).Ok?
                <==> t < c.now + c.seconds)
  {
    RunsAreSafe(EMPTY, ops);
    ClaimHolds(After(EMPTY, ops), c, t);
  }

  lemma GrantedIsLast(st: State, st': State, a: Attempt, until: int)
    requires Inv(st) && a.run in st.runs && Grants(st, st', a, until)
    ensures Inv(st') && |st'.attempts| == |st.attempts| + 1 && st'.attempts[|st.attempts|] == a
    ensures ScopeOf(st', |st.attempts|) == st.runs[a.run].scope
    ensures st'.leases[st.runs[a.run].scope].expiresAt == until
  {
    GrantsKeepsInv(st, st', a, until);
  }

  lemma HeartbeatHolds(
    st: State, id: string, fence: nat, now: int, stage: Option<Stage>, seconds: int, st': State, t: int)
    requires Inv(st) && Inv(st') && HeartbeatSpec(st, id, fence, now, stage, seconds).outcome.Ok?
    requires st' == HeartbeatSpec(st, id, fence, now, stage, seconds).st
    ensures ValidateFence(st', id, fence, t).Ok? <==> t < now + seconds
  {
    var i := RowOf(st.attempts, id);
    assert st'.attempts[i].id == id;
    FenceIsLease(st, i, fence, now);
    FenceIsLease(st', i, fence, t);
    assert Names(st, ScopeOf(st, i), i);
  }

  /** A heartbeat that succeeds makes the fence valid for the lease it asks for, counted from now. */
  lemma HeartbeatHoldsUntil(ops: seq<Op>, op: Op, t: int)
    requires op.Heartbeat? && Step(After(EMPTY, ops), op).outcome.Ok?
    ensures ValidateFence(Step(After(EMPTY, ops), op).st, op.attempt, op.fence, t).Ok?
       <==> t < op.now + op.seconds
  {
    RunsAreSafe(EMPTY, ops);
    var st' := Step(After(EMPTY, ops), op).st;
    StepIsSafe(After(EMPTY, ops), op, st');
    HeartbeatHolds(After(EMPTY, ops), op.attempt, op.fence, op.now, op.stage, op.seconds, st', t);
  }

  /** A sweep ends exactly the running attempts whose scope's lease has run out. */
  lemma SweepEndsExactlyTheDue(ops: seq<Op>, now: int, i: nat)
    requires i < |After(EMPTY, ops).attempts|
    ensures var st := After(EMPTY, ops);
            && Inv(st) && ScopeOf(st, i) in st.leases
            && |ExpireSpec(st, now).attempts| == |st.attempts|
            && ExpireSpec(st, now).attempts[i]
               == if st.attempts[i].status == Running && st.leases[ScopeOf(st, i)].expiresAt <= now
                  then Close(st.attempts[i], Expired, now) else st.attempts[i]
  {
    RunsAreSafe(EMPTY, ops);
    var st := After(EMPTY, ops);
    var id := st.attempts[i].id;
    if id in DueHolders(st.leases, now) {
      var s :| s in st.leases && st.leases[s].holder == Some(id) && st.leases[s].expiresAt <= now;
      HeldInScope(st, i, s);
    }
    if st.attempts[i].status == Running { assert Names(st, ScopeOf(st, i), i); }
  }

  // ----- A reasoning run completed by hand -----

  lemma {:induction false} PriorIsOfRun(rows: seq<Attempt>, run: string)
    ensures Prior(rows, run).Some? ==> exists i | 0 <= i < |rows| :: rows[i].run == run
  {
    if rows != [] {
      var last := |rows| - 1;
      PriorIsOfRun(rows[..last], run);
      if Prior(rows[..last], run).Some? {
        var i :| 0 <= i < last && rows[..last][i].run == run;
        assert rows[i].run == run;
      } else if Prior(rows, run).Some? {
        assert rows[last].run == run;
      }
    }
  }

  /** The run has no attempt, and the reasoning run it wraps is completed. */
  ghost predicate DoneByHand(st: State, run: string) {
    && run in st.runs && st.runs[run].reasoning.Some?
    && st.runs[run].reasoning.value in st.reasonings
    && st.reasonings[st.runs[run].reasoning.value] != Prepared
    && (forall i | 0 <= i < |st.attempts| :: st.attempts[i].run != run)
  }

  lemma ClaimOfDoneIsRefused(st: State, c: ClaimArgs)
    requires DoneByHand(st, c.run)
    ensures ClaimSpec(st, c).outcome
         in {Err(InvalidRequest), Err(ScheduleRefused), Err(PrecedesPreparation), Err(SessionStale),
             Err(Overlap), Err(AlreadyCompletedManually)}
  {
    PriorIsOfRun(ExpireSpec(st, c.now).attempts, c.run);
  }

  lemma RunsStay(st: State, op: Op, run: string)
    requires run in st.runs
    ensures run in Step(st, op).st.runs && Step(st, op).st.runs[run] == st.runs[run]
  {
  }

  lemma OnlyClaimsAddRows(st: State, op: Op)
    requires !op.Claim?
    ensures |Step(st, op).st.attempts| == |st.attempts|
  {
  }

  lemma ClaimAddsOwnRow(st: State, c: ClaimArgs)
    ensures var st' := ClaimSpec(st, c).st;
            && |st.attempts| <= |st'.attempts| <= |st.attempts| + 1
            && (|st.attempts| < |st'.attempts| ==>
                  ClaimSpec(st, c).outcome.Ok? && st'.attempts[|st.attempts|].run == c.run)
  {
  }

  lemma NoRowForDone(st: State, op: Op, run: string)
    requires DoneByHand(st, run)
    ensures var rows := Step(st, op).st.attempts;
            forall i | |st.attempts| <= i < |rows| :: rows[i].run != run
  {
    if op.Claim? {
      ClaimAddsOwnRow(st, op.claim);
      if op.claim.run == run { ClaimOfDoneIsRefused(st, op.claim); }
    } else {
      OnlyClaimsAddRows(st, op);
    }
  }

  lemma DoneSurvives(st: State, st': State, run: string)
    requires DoneByHand(st, run) && Preserves(st, st')
    requires run in st'.runs && st'.runs[run] == st.runs[run]
    requires forall i | |st.attempts| <= i < |st'.attempts| :: st'.attempts[i].run != run
    ensures DoneByHand(st', run)
  {
    forall i | 0 <= i < |st'.attempts| ensures st'.attempts[i].run != run {
      if i < |st.attempts| { assert Continues(st.attempts[i], st'.attempts[i]); }
    }
  }

  lemma StepKeepsDone(st: State, op: Op, run: string, st': State)
    requires Inv(st) && DoneByHand(st, run) && st' == Step(st, op).st
    ensures Inv(st') && DoneByHand(st', run)
  {
    RunsStay(st, op, run);
    StepIsSafe(st, op, st');
    NoRowForDone(st, op, run);
    DoneSurvives(st, st', run);
  }

  lemma {:induction false} RunKeepsDone(st: State, ops: seq<Op>, run: string)
    requires Inv(st) && DoneByHand(st, run)
    ensures DoneByHand(After(st, ops), run)
    decreases |ops|
  {
    if ops != [] {
      StepKeepsDone(st, ops[0], run, Step(st, ops[0]).st);
      RunKeepsDone(Step(st, ops[0]).st, ops[1..], run);
    }
  }

  /** Once its reasoning run is completed by hand, a run that has no attempt never gets one: whatever
      happens later, every claim of it is refused, at the latest for that completion. */
  lemma CompletedByHandIsNeverClaimed(before: seq<Op>, c: CompleteArgs, after: seq<Op>, claim: ClaimArgs)
    requires var st := After(EMPTY, before);
             && claim.run in st.runs && st.runs[claim.run].reasoning == Some(c.reasoning)
             && (forall i | 0 <= i < |st.attempts| :: st.attempts[i].run != claim.run)
    requires c.result != Prepared && CompleteSpec(After(EMPTY, before), c).outcome.Ok?
    ensures var later := After(Step(After(EMPTY, before), Complete(c)).st, after);
            && (forall i | 0 <= i < |later.attempts| :: later.attempts[i].run != claim.run)
            && ClaimSpec(later, claim).outcome
               in {Err(InvalidRequest), Err(ScheduleRefused), Err(PrecedesPreparation),
                   Err(SessionStale), Err(Overlap), Err(AlreadyCompletedManually)}
  {
    var st := After(EMPTY, before);
    RunsAreSafe(EMPTY, before);
    var next := Step(st, Complete(c)).st;
    StepIsSafe(st, Complete(c), next);
    RunKeepsDone(next, after, claim.run);
    ClaimOfDoneIsRefused(After(next, after), claim);
  }
}
