/** What a review remembers of its sales, and which sale each of its purchases is submitted with. */
module ReviewOutcomes {
  import opened Pipeline
  import opened Quotas
  import opened Reviews
  import opened Sorting
  import opened Wrappers

  // ----- The drafts -----

  predicate IsSale(r: Record) {
    r.decision == Decision.Sell || r.decision == Decision.Trim
  }

  function Order(drafts: seq<Record>): seq<Record> {
    Sort(drafts, SalesFirst)
  }

  /** The review takes its drafts each once, every sale before anything else. */
  lemma OrderExactly(drafts: seq<Record>)
    ensures multiset(Order(drafts)) == multiset(drafts)
    ensures forall i, j | 0 <= i < j < |Order(drafts)| && IsSale(Order(drafts)[j]) :: IsSale(Order(drafts)[i])
  {
    assert TotalPreorder(SalesFirst);
    SortSorts(drafts, SalesFirst);
    forall i, j | 0 <= i < j < |Order(drafts)| && IsSale(Order(drafts)[j]) ensures IsSale(Order(drafts)[i]) {
      assert SalesFirst(Order(drafts)[i], Order(drafts)[j]);
    }
  }

  // ----- The loop, draft by draft -----

  type Round = (Bench, nat) -> Bench

  predicate Going(b: Bench) {
    b.progress.left != []
  }

  /** A review on its way: its drafts in order, where it starts, and what each round makes of it. */
  datatype Path = Path(w: World, order: seq<Record>, start: Bench, round: Round)

  /** Where the review stands before its `k`-th draft. */
  function At(p: Path, k: nat): Bench {
    if k == 0 then p.start
    else if Going(At(p, k - 1)) then p.round(At(p, k - 1), k - 1)
    else At(p, k - 1)
  }

  function RoundOf(w: World, space: string, env: nat -> Env, holds: nat -> bool): Round {
    (b: Bench, n: nat) => if Going(b) then Pairing(w, Turn(w, b, space, env(n)), holds(n)) else b
  }

  /** What a review's loop runs with. */
  datatype Loop = Loop(
    w: World, space: string, review: Review, drafts: seq<Record>, env: nat -> Env, holds: nat -> bool)

  function PathOf(l: Loop, desk: Desk, tags: map<string, string>): Path {
    Path(l.w, Order(l.drafts), Bench(desk, tags, Starting(l.review, l.drafts)),
         RoundOf(l.w, l.space, l.env, l.holds))
  }

  type Loops = (Bench, nat) -> Bench

  function LoopsFrom(w: World, space: string, env: nat -> Env, holds: nat -> bool): Loops {
    (b: Bench, n: nat) => Finish(w, b, space, env, holds, n)
  }

  lemma {:induction false} LoopsThrough(p: Path, loops: Loops, k: nat)
    requires forall b: Bench, n: nat | Going(b) :: loops(b, n) == loops(p.round(b, n), n + 1)
    requires forall b: Bench, n: nat, m: nat | !Going(b) :: loops(b, n) == loops(b, m)
    ensures loops(p.start, 0) == loops(At(p, k), k)
  {
    if k > 0 { LoopsThrough(p, loops, k - 1); }
  }

  lemma FinishOnce(w: World, b: Bench, space: string, env: nat -> Env, holds: nat -> bool, n: nat)
    ensures Going(b) ==> Finish(w, b, space, env, holds, n)
                         == Finish(w, RoundOf(w, space, env, holds)(b, n), space, env, holds, n + 1)
    ensures !Going(b) ==> Finish(w, b, space, env, holds, n) == b
  {
  }

  /** The whole loop goes on from where it stands before any of its drafts. */
  lemma LoopIsAt(l: Loop, desk: Desk, tags: map<string, string>, k: nat)
    ensures Finish(l.w, Bench(desk, tags, Starting(l.review, l.drafts)), l.space, l.env, l.holds, 0)
         == Finish(l.w, At(PathOf(l, desk, tags), k), l.space, l.env, l.holds, k)
  {
    var loops := LoopsFrom(l.w, l.space, l.env, l.holds);
    var round := RoundOf(l.w, l.space, l.env, l.holds);
    forall b: Bench, n: nat
      ensures Going(b) ==> loops(b, n) == loops(round(b, n), n + 1)
      ensures !Going(b) ==> loops(b, n) == b
    {
      FinishOnce(l.w, b, l.space, l.env, l.holds, n);
    }
    LoopsThrough(PathOf(l, desk, tags), loops, k);
  }

  // ----- What a round leaves -----

  /** A round takes a draft or ends the review, and remembers the draft's sale when it left it an intent. */
  ghost predicate Takes(w: World, b: Bench, next: Bench) {
    && next.progress.review == b.progress.review && next.progress.owed.None?
    && (Going(b) && Going(next) ==>
          && next.progress.left == b.progress.left[1..]
          && var r := b.progress.left[0];
             next.progress.accepted == if IsSale(r) && r.id in next.desk.ledger.intents
                                       then b.progress.accepted[w.ticker(r) := r.id] else b.progress.accepted)
  }

  ghost predicate Sound(p: Path) {
    && p.start.progress.left == p.order && p.start.progress.accepted == map[] && p.start.progress.owed.None?
    && forall b: Bench, n: nat | b.progress.owed.None? :: Takes(p.w, b, p.round(b, n))
  }

  lemma RoundTakes(w: World, b: Bench, space: string, env: Env, holds: bool)
    requires Going(b)
    ensures Takes(w, b, Pairing(w, Turn(w, b, space, env), holds))
  {
    var turned := Turn(w, b, space, env);
    assert Pairing(w, turned, holds).desk.ledger == turned.desk.ledger;
    assert Pairing(w, turned, holds).progress.accepted == turned.progress.accepted;
  }

  lemma PathIsSound(l: Loop, desk: Desk, tags: map<string, string>)
    ensures Sound(PathOf(l, desk, tags))
  {
    var p := PathOf(l, desk, tags);
    forall b: Bench, n: nat | b.progress.owed.None? ensures Takes(p.w, b, p.round(b, n)) {
      if Going(b) { RoundTakes(l.w, b, l.space, l.env(n), l.holds(n)); }
    }
  }

  lemma {:induction false} LeftExactly(p: Path, k: nat)
    requires Sound(p)
    ensures At(p, k).progress.review == p.start.progress.review && At(p, k).progress.owed.None?
    ensures Going(At(p, k)) ==> k < |p.order| && At(p, k).progress.left == p.order[k..]
  {
    if k > 0 {
      LeftExactly(p, k - 1);
      assert Going(At(p, k - 1)) ==> Takes(p.w, At(p, k - 1), p.round(At(p, k - 1), k - 1));
    }
  }

  // ----- Accepted sales -----

  /** The `j`-th draft sells the ticker, and its submission left it with an intent. */
  ghost predicate SoldAt(p: Path, ticker: string, j: nat) {
    && j < |p.order| && IsSale(p.order[j]) && p.w.ticker(p.order[j]) == ticker
    && p.order[j].id in At(p, j + 1).desk.ledger.intents
  }

  /** The sale of the `j`-th draft, if it was accepted: its ticker and its decision. */
  ghost function SaleOf(p: Path, j: nat): Option<(string, string)> {
    if j < |p.order| && SoldAt(p, p.w.ticker(p.order[j]), j) then
      Some((p.w.ticker(p.order[j]), p.order[j].id))
    else None
  }

  ghost function Sales(p: Path, k: nat): seq<Option<(string, string)>> {
    seq(k, (j: nat) => SaleOf(p, j))
  }

  predicate Sells(sale: Option<(string, string)>, ticker: string) {
    sale.Some? && sale.value.0 == ticker
  }

  /** The accepted sales are remembered by ticker, the last one where two are of the same ticker, and nothing
      else is. */
  ghost predicate Remembers(accepted: map<string, string>, sales: seq<Option<(string, string)>>) {
    && (forall t :: t in accepted <==> exists j: nat | j < |sales| :: Sells(sales[j], t))
    && (forall t | t in accepted ::
          exists j: nat | j < |sales| ::
            && Sells(sales[j], t) && sales[j].value.1 == accepted[t]
            && forall i: nat | j < i < |sales| :: !Sells(sales[i], t))
  }

  lemma RemembersOne(
    accepted: map<string, string>, sales: seq<Option<(string, string)>>, sale: Option<(string, string)>)
    requires Remembers(accepted, sales)
    ensures Remembers(if sale.Some? then accepted[sale.value.0 := sale.value.1] else accepted, sales + [sale])
  {
    var all, next := sales + [sale], if sale.Some? then accepted[sale.value.0 := sale.value.1] else accepted;
    forall t ensures t in next <==> exists j: nat | j < |all| :: Sells(all[j], t) {
      if Sells(sale, t) { assert Sells(all[|sales|], t); }
      if t in accepted {
        var j: nat :| j < |sales| && Sells(sales[j], t);
        assert Sells(all[j], t);
      }
    }
    forall t | t in next
      ensures exists j: nat | j < |all| ::
                && Sells(all[j], t) && all[j].value.1 == next[t]
                && forall i: nat | j < i < |all| :: !Sells(all[i], t)
    {
      if Sells(sale, t) {
        assert Sells(all[|sales|], t);
      } else {
        var j: nat :| j < |sales| && Sells(sales[j], t) && sales[j].value.1 == accepted[t]
                      && forall i: nat | j < i < |sales| :: !Sells(sales[i], t);
        assert Sells(all[j], t);
      }
    }
  }

  /** Every accepted sale of the drafts so far is remembered. */
  lemma {:induction false} SalesAreRemembered(p: Path, k: nat)
    requires Sound(p) && Going(At(p, k))
    ensures Remembers(At(p, k).progress.accepted, Sales(p, k))
  {
    if k > 0 {
      SalesAreRemembered(p, k - 1);
      LeftExactly(p, k - 1);
      assert Takes(p.w, At(p, k - 1), p.round(At(p, k - 1), k - 1));
      assert Sales(p, k) == Sales(p, k - 1) + [SaleOf(p, k - 1)];
      RemembersOne(At(p, k - 1).progress.accepted, Sales(p, k - 1), SaleOf(p, k - 1));
    }
  }

  // ----- Submissions -----

  /** The draft is a purchase that a live review swaps for an incumbent whose sale it had accepted. */
  ghost predicate IsFunded(p: Path, r: Record) {
    var review := p.start.progress.review;
    && review.mode == Live && r.decision == Decision.Buy && p.w.ticker(r) in review.swaps
    && exists j: nat :: SoldAt(p, review.swaps[p.w.ticker(r)], j)
  }

  lemma SoldAreSales(p: Path, k: nat)
    ensures forall t, j: nat | j < k :: Sells(Sales(p, k)[j], t) <==> SoldAt(p, t, j)
    ensures forall t, j: nat | SoldAt(p, t, j) && j < k :: Sales(p, k)[j].value.1 == p.order[j].id
  {
  }

  lemma SalesComeFirst(p: Path, drafts: seq<Record>, k: nat)
    requires p.order == Order(drafts) && k < |p.order| && !IsSale(p.order[k])
    ensures forall ticker, j: nat | SoldAt(p, ticker, j) :: j < k
  {
    OrderExactly(drafts);
  }

  lemma FundingOf(p: Path, drafts: seq<Record>, k: nat, r: Record, sale: Option<string>)
    requires Sound(p) && p.order == Order(drafts) && Going(At(p, k)) && k < |p.order| && r == p.order[k]
    requires sale == Funding(p.w, At(p, k).progress, r)
    ensures sale.Some? <==> IsFunded(p, r)
    ensures sale.Some? ==>
              exists j: nat ::
                && SoldAt(p, p.start.progress.review.swaps[p.w.ticker(r)], j) && sale.value == p.order[j].id
                && forall i: nat | j < i :: !SoldAt(p, p.start.progress.review.swaps[p.w.ticker(r)], i)
  {
    LeftExactly(p, k);
    SalesAreRemembered(p, k);
    if r.decision == Decision.Buy {
      SalesComeFirst(p, drafts, k);
      SoldAreSales(p, k);
    }
  }

  /** A purchase is submitted with the last accepted sale of its own incumbent, and with none exactly when the
      review had no sale of it accepted. */
  lemma FundingExactly(l: Loop, desk: Desk, tags: map<string, string>, k: nat)
    requires Going(At(PathOf(l, desk, tags), k))
    ensures k < |Order(l.drafts)|
    ensures var p, r := PathOf(l, desk, tags), Order(l.drafts)[k];
            var sale := Funding(l.w, At(p, k).progress, r);
            && (sale.Some? <==> IsFunded(p, r))
            && (sale.Some? ==>
                  exists j: nat ::
                    && SoldAt(p, l.review.swaps[l.w.ticker(r)], j) && sale.value == Order(l.drafts)[j].id
                    && forall i: nat | j < i :: !SoldAt(p, l.review.swaps[l.w.ticker(r)], i))
  {
    var p := PathOf(l, desk, tags);
    PathIsSound(l, desk, tags);
    LeftExactly(p, k);
    FundingOf(p, l.drafts, k, p.order[k], Funding(l.w, At(p, k).progress, p.order[k]));
  }

  /** What the `k`-th draft is submitted with. */
  lemma SubmittedExactly(l: Loop, desk: Desk, tags: map<string, string>, k: nat)
    requires Going(At(PathOf(l, desk, tags), k))
    ensures k < |Order(l.drafts)| && At(PathOf(l, desk, tags), k).progress.left[0] == Order(l.drafts)[k]
    ensures var p, r, env := PathOf(l, desk, tags), Order(l.drafts)[k], l.env(k);
            var b := At(p, k);
            Asked(l.w, b, l.space, r, env)
            == Submission(WellFormed(r), env.now, l.review.mode, l.review.profile, env.before, env.after,
                          IsFunded(p, r), env.bound,
                          && env.admitted && l.space <= r.id
                          && (r.id in b.tags ==> b.tags[r.id] == "" || b.tags[r.id] == l.space))
  {
    PathIsSound(l, desk, tags);
    LeftExactly(PathOf(l, desk, tags), k);
    FundingExactly(l, desk, tags, k);
  }

  // ----- What a draft leaves -----

  /** A draft whose submission raises ends the review where it stood. One that passes leaves its submission's
      tables and its tag; when it was funded and has an intent, its pair is recorded, and when that raises the
      review ends there. */
  lemma RoundExactly(w: World, b: Bench, space: string, env: Env, holds: bool, s: Submission, desk: Desk)
    requires Going(b) && b.progress.owed.None?
    requires s == Asked(w, b, space, b.progress.left[0], env) && desk == Step(w, b.desk, Submit(s))
    ensures var r, next := b.progress.left[0], Pairing(w, Turn(w, b, space, env), holds);
            var passed := s.admitted && Process(b.desk.ledger, CallOf(w, b.desk, s)).Done?;
            var owed := passed && s.funded && r.id in desk.ledger.intents;
            && (next.tags == if passed && r.id in desk.ledger.records then b.tags[r.id := space] else b.tags)
            && (next.desk == if !passed then b.desk
                             else if owed && holds && r.id !in desk.pairs then Step(w, desk, RecordPair(r.id))
                             else desk)
            && (next.progress.left == if passed && (owed ==> holds && r.id !in desk.pairs)
                                      then b.progress.left[1..] else [])
  {
    TurnOf(w, b, space, env, s, desk);
  }
}
