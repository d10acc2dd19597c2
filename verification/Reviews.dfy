/** Submitting what a review authored: sales first, so that a purchase which swaps into a challenger is
    submitted knowing that the sale of the incumbent was accepted, and the pair of the two is recorded. */
module Reviews {
  import opened Pipeline
  import opened Quotas
  import opened Sorting
  import opened Wrappers

  /** What the loop looks at besides its drafts: `swaps` maps a challenger to the incumbent it replaces. */
  datatype Review = Review(mode: Mode, profile: string, swaps: map<string, string>)

  /** Where the loop stands: the drafts to go, the sales accepted so far by ticker, and the purchase
      whose pair is to be recorded next. */
  datatype Progress = Progress(
    review: Review, left: seq<Record>, accepted: map<string, string>, owed: Option<string>)

  /** What a submission meets: the clock, the reasons of the other rules, whether its inputs can be bound
      and whether the guards around the policy let it through. */
  datatype Env = Env(now: int, before: seq<string>, after: seq<string>, bound: bool, admitted: bool)

  /** The tables, the tag of each saved decision, and one attempt's loop. */
  datatype Bench = Bench(desk: Desk, tags: map<string, string>, progress: Progress)

  predicate SalesFirst(a: Record, b: Record) {
    Reducing(a) || !Reducing(b)
  }

  function Starting(review: Review, drafts: seq<Record>): Progress {
    Progress(review, Sort(drafts, SalesFirst), map[], None)
  }

  /** The accepted sale that funds a purchase, if any. */
  function Funding(w: World, p: Progress, r: Record): Option<string> {
    if p.review.mode == Live && r.decision == Decision.Buy && w.ticker(r) in p.review.swaps
       && p.review.swaps[w.ticker(r)] in p.accepted
    then Some(p.accepted[p.review.swaps[w.ticker(r)]]) else None
  }

  function TagOf(tags: map<string, string>, id: string): string {
    if id in tags then tags[id] else ""
  }

  /** The decision carries the attempt's namespace and is not another attempt's. */
  predicate Claims(tags: map<string, string>, space: string, id: string) {
    space <= id && TagOf(tags, id) in {"", space}
  }

  function Asked(w: World, b: Bench, space: string, r: Record, env: Env): Submission {
    Submission(WellFormed(r), env.now, b.progress.review.mode, b.progress.review.profile, env.before,
               env.after, Funding(w, b.progress, r).Some?, env.bound,
               env.admitted && Claims(b.tags, space, r.id))
  }

  predicate Passed(w: World, desk: Desk, s: Submission) {
    s.admitted && Process(desk.ledger, CallOf(w, desk, s)).Done?
  }

  function Tagged(tags: map<string, string>, desk: Desk, space: string, id: string): map<string, string> {
    if id in desk.ledger.records then tags[id := space] else tags
  }

  /** After a submission that returned: an accepted sale is remembered, a funded purchase is owed its
      pair. */
  function Advanced(w: World, p: Progress, desk: Desk, r: Record): Progress
    requires p.left != []
  {
    var placed := r.id in desk.ledger.intents;
    Progress(p.review, p.left[1..],
             if placed && Reducing(r) then p.accepted[w.ticker(r) := r.id] else p.accepted,
             if placed && Funding(w, p, r).Some? then Some(r.id) else None)
  }

  /** Submitting the next draft. A submission that raises ends the review. */
  function Turn(w: World, b: Bench, space: string, env: Env): Bench
    requires b.progress.left != []
  {
    var r := b.progress.left[0];
    var s := Asked(w, b, space, r, env);
    var desk := Step(w, b.desk, Submit(s));
    if Passed(w, b.desk, s) then
      Bench(desk, Tagged(b.tags, desk, space, r.id), Advanced(w, b.progress, desk, r))
    else b.(progress := b.progress.(left := []))
  }

  /** A turn, from what its submission left. */
  lemma TurnOf(w: World, b: Bench, space: string, env: Env, s: Submission, desk: Desk)
    requires b.progress.left != [] && s == Asked(w, b, space, b.progress.left[0], env)
    requires desk == Step(w, b.desk, Submit(s))
    ensures var r := b.progress.left[0];
            Turn(w, b, space, env)
            == if Passed(w, b.desk, s)
               then Bench(desk, Tagged(b.tags, desk, space, r.id), Advanced(w, b.progress, desk, r))
               else b.(progress := b.progress.(left := []))
    ensures !Passed(w, b.desk, s) ==> desk == b.desk
  {
  }

  /** Recording the pair that is owed, in a transaction of its own. It raises when the fence is lost or the
      pair is there already. */
  function Pairing(w: World, b: Bench, holds: bool): Bench {
    match b.progress.owed
    case None => b
    case Some(id) =>
      if holds && id !in b.desk.pairs then
        b.(desk := Step(w, b.desk, RecordPair(id)), progress := b.progress.(owed := None))
      else b.(progress := b.progress.(left := [], owed := None))
  }

  /** The rest of the loop; the `n`-th draft meets `env(n)`, and its pair `holds(n)`. */
  function Finish(w: World, b: Bench, space: string, env: nat -> Env, holds: nat -> bool, n: nat): Bench
    decreases |b.progress.left|
  {
    if b.progress.left == [] then b
    else Finish(w, Pairing(w, Turn(w, b, space, env(n)), holds(n)), space, env, holds, n + 1)
  }

  /** The tables behind a worker. */
  class Worker {
    var desk: Desk
    var tags: map<string, string>

    constructor ()
      ensures desk == Desk(State(map[], map[], map[], map[]), {}, {}, {}) && tags == map[]
    {
      desk, tags := Desk(State(map[], map[], map[], map[]), {}, {}, {}), map[];
    }

    /** One fenced submission: processed and tagged, or rolled back. */
    method SubmitOne(w: World, space: string, s: Submission, r: Record) returns (ok: bool)
      requires s.request == WellFormed(r)
      modifies this
      ensures ok <==> Passed(w, old(desk), s)
      ensures desk == Step(w, old(desk), Submit(s))
      ensures tags == if ok then Tagged(old(tags), desk, space, r.id) else old(tags)
    {
      ok := Passed(w, desk, s);
      desk := Step(w, desk, Submit(s));
      if ok && r.id in desk.ledger.records {
        tags := tags[r.id := space];
      }
    }

    /** The next draft: find the accepted sale that funds it, submit it, and remember what it settled. */
    method TakeDraft(w: World, space: string, p: Progress, env: Env) returns (next: Progress)
      requires p.left != []
      modifies this
      ensures Bench(desk, tags, next) == Turn(w, Bench(old(desk), old(tags), p), space, env)
    {
      var r, ticker := p.left[0], w.ticker(p.left[0]);
      ghost var b := Bench(desk, tags, p);
      var funded := p.review.mode == Live && r.decision == Decision.Buy && ticker in p.review.swaps
                    && p.review.swaps[ticker] in p.accepted;
      var s := Submission(WellFormed(r), env.now, p.review.mode, p.review.profile, env.before, env.after,
                          funded, env.bound, env.admitted && Claims(tags, space, r.id));
      var ok := SubmitOne(w, space, s, r);
      TurnOf(w, b, space, env, s, desk);
      if !ok {
        return p.(left := []);
      }
      var placed, accepted := r.id in desk.ledger.intents, p.accepted;
      if placed && Reducing(r) {
        accepted := accepted[ticker := r.id];
      }
      return Progress(p.review, p.left[1..], accepted, if placed && funded then Some(r.id) else None);
    }

    /** The pair of a funded purchase. */
    method TakePair(w: World, p: Progress, holds: bool) returns (next: Progress)
      modifies this
      ensures Bench(desk, tags, next) == Pairing(w, Bench(old(desk), old(tags), p), holds)
    {
      if p.owed.None? {
        return p;
      }
      if !holds || p.owed.value in desk.pairs {
        return p.(left := [], owed := None);
      }
      desk := Step(w, desk, RecordPair(p.owed.value));
      return p.(owed := None);
    }

    /** The loop over the drafts, which an exception empties. */
    method SubmitAll(
      w: World, space: string, review: Review, drafts: seq<Record>, env: nat -> Env, holds: nat -> bool)
      modifies this
      ensures var end := Finish(w, Bench(old(desk), old(tags), Starting(review, drafts)), space, env, holds, 0);
              desk == end.desk && tags == end.tags
    {
      var p := Starting(review, drafts);
      ghost var start := Bench(desk, tags, p);
      var i := 0;
      while p.left != []
        invariant Finish(w, start, space, env, holds, 0)
               == Finish(w, Bench(desk, tags, p), space, env, holds, i)
        decreases |p.left|
      {
        p := TakeDraft(w, space, p, env(i));
        p := TakePair(w, p, holds(i));
        i := i + 1;
      }
    }
  }
}
