/** Fills finance themselves and reach their target weight; replay gives the incremental table. */
module PaperLedgerTheorems {
  import opened Sorting
  import opened PaperLedger
  import opened Wrappers

  // ----- Arithmetic -----

  lemma DivTimes(x: real, p: real)
    requires p != 0.0
    ensures Times(x / p, p) == x
  {
  }

  lemma TimesAdds(a: real, b: real, p: real)
    ensures Times(a + b, p) == Times(a, p) + Times(b, p)
    ensures Times(a - b, p) == Times(a, p) - Times(b, p)
  {
  }

  lemma TimesZero(p: real)
    ensures Times(0.0, p) == 0.0
  {
  }

  lemma TimesSign(a: real, p: real)
    requires 0.0 <= a && 0.0 <= p
    ensures 0.0 <= Times(a, p)
    ensures 0.0 < a && 0.0 < p ==> 0.0 < Times(a, p)
  {
  }

  lemma TimesInjective(a: real, b: real, p: real)
    requires 0.0 < p && Times(a, p) == Times(b, p)
    ensures a == b
  {
    DivTimes(a, p);
    assert a == Times(a, p) / p && b == Times(b, p) / p;
  }

  lemma PositiveShares(x: real, p: real)
    requires 0.0 < x && 0.0 < p
    ensures 0.0 < x / p
  {
  }

  // ----- Worth and cash -----

  lemma {:induction false} WorthConcat(a: seq<Position>, b: seq<Position>, bars: seq<Bar>, day: Day)
    ensures Worth(a + b, bars, day) == Worth(a, bars, day) + Worth(b, bars, day)
  {
    if a == [] {
      assert a + b == b;
    } else {
      assert (a + b)[1..] == a[1..] + b;
      WorthConcat(a[1..], b, bars, day);
    }
  }

  /** Replacing position `i` by `with` (a position or nothing) changes the worth by their marks. */
  lemma WorthReplaced(
    ps: seq<Position>, i: nat, with: seq<Position>, bars: seq<Bar>, day: Day)
    requires i < |ps|
    ensures Worth(ps[..i] + with + ps[i + 1..], bars, day)
         == Worth(ps, bars, day) - Mark(ps[i], bars, day) + Worth(with, bars, day)
  {
    assert ps == ps[..i] + [ps[i]] + ps[i + 1..];
    WorthConcat(ps[..i] + [ps[i]], ps[i + 1..], bars, day);
    WorthConcat(ps[..i], [ps[i]], bars, day);
    WorthConcat(ps[..i] + with, ps[i + 1..], bars, day);
    WorthConcat(ps[..i], with, bars, day);
  }

  lemma WorthUpdated(ps: seq<Position>, i: nat, p: Position, bars: seq<Bar>, day: Day)
    requires i < |ps|
    ensures Worth(ps[i := p], bars, day)
         == Worth(ps, bars, day) - Mark(ps[i], bars, day) + Mark(p, bars, day)
  {
    assert ps[i := p] == ps[..i] + [p] + ps[i + 1..];
    WorthReplaced(ps, i, [p], bars, day);
  }

  ghost predicate Long(ps: seq<Position>) {
    forall p | p in ps :: 0.0 < p.shares
  }

  lemma {:induction false} WorthIsPositive(ps: seq<Position>, bars: seq<Bar>, day: Day)
    requires Long(ps) && GoodMarks(ps, bars, day)
    ensures 0.0 <= Worth(ps, bars, day)
  {
    if ps != [] {
      assert ps[0] in ps;
      assert ps == [ps[0]] + ps[1..];
      WorthIsPositive(ps[1..], bars, day);
      TimesSign(ps[0].shares, Open(bars, ps[0].ticker, day).value);
    }
  }

  lemma {:induction false} NothingLater(fills: seq<Fill>, day: Day)
    requires !IsLate(fills, day)
    ensures Cash(fills, Some(day)) == Cash(fills, None)
  {
    if fills != [] {
      var rest := fills[..|fills| - 1];
      assert fills[|fills| - 1] in fills;
      assert forall f | f in rest :: f in fills;
      NothingLater(rest, day);
    }
  }

  lemma CashAppends(fills: seq<Fill>, f: Fill)
    ensures Cash(fills + [f], None) == Cash(fills, None) + Proceeds(f)
  {
    assert (fills + [f])[..|fills|] == fills;
  }

  // ----- One position change -----

  ghost predicate UniqueTickers(ps: seq<Position>) {
    forall i, j | 0 <= i < j < |ps| :: ps[i].ticker != ps[j].ticker
  }

  lemma FindIs(ps: seq<Position>, i: nat)
    requires UniqueTickers(ps) && i < |ps|
    ensures Find(ps, ps[i].ticker) == i
  {
  }

  lemma OpensAPosition(ps: seq<Position>, p: Position, price: real, bars: seq<Bar>, day: Day)
    requires UniqueTickers(ps) && Long(ps) && 0.0 < p.shares && Find(ps, p.ticker) == |ps|
    requires Open(bars, p.ticker, day) == Some(price)
    ensures UniqueTickers(ps + [p]) && Long(ps + [p]) && Held(ps + [p], p.ticker) == p.shares
    ensures Worth(ps + [p], bars, day) == Worth(ps, bars, day) + Times(p.shares, price)
  {
    WorthConcat(ps, [p], bars, day);
    assert (ps + [p])[|ps|] == p;
    FindIs(ps + [p], |ps|);
  }

  lemma ChangesAPosition(
    ps: seq<Position>, i: nat, p: Position, price: real, bars: seq<Bar>, day: Day)
    requires UniqueTickers(ps) && Long(ps) && 0.0 < p.shares && i < |ps| && ps[i].ticker == p.ticker
    requires Open(bars, p.ticker, day) == Some(price)
    ensures UniqueTickers(ps[i := p]) && Long(ps[i := p]) && Held(ps[i := p], p.ticker) == p.shares
    ensures Worth(ps[i := p], bars, day)
         == Worth(ps, bars, day) + Times(p.shares, price) - Times(ps[i].shares, price)
  {
    WorthUpdated(ps, i, p, bars, day);
    FindIs(ps[i := p], i);
  }

  lemma ClosesAPosition(ps: seq<Position>, i: nat, price: real, bars: seq<Bar>, day: Day)
    requires UniqueTickers(ps) && Long(ps) && i < |ps|
    requires Open(bars, ps[i].ticker, day) == Some(price)
    ensures var next := ps[..i] + ps[i + 1..];
            && UniqueTickers(next) && Long(next) && Held(next, ps[i].ticker) == 0.0
            && Worth(next, bars, day) == Worth(ps, bars, day) - Times(ps[i].shares, price)
  {
    WorthReplaced(ps, i, [], bars, day);
    assert ps[..i] + [] + ps[i + 1..] == ps[..i] + ps[i + 1..];
    NotFound(ps, i);
  }

  /** A purchase adds its shares, and its value at the day's open. */
  lemma BuyAdds(
    ps: seq<Position>, intent: Intent, shares: real, price: real, bars: seq<Bar>, day: Day)
    requires UniqueTickers(ps) && Long(ps) && 0.0 < shares
    requires Open(bars, intent.ticker, day) == Some(price)
    requires ApplyBuy(ps, intent, shares, price, day).Kept?
    ensures var next := ApplyBuy(ps, intent, shares, price, day).positions;
            && UniqueTickers(next) && Long(next)
            && Held(next, intent.ticker) == Held(ps, intent.ticker) + shares
            && Worth(next, bars, day) == Worth(ps, bars, day) + Times(shares, price)
  {
    var i := Find(ps, intent.ticker);
    if i == |ps| {
      OpensAPosition(ps, Position(intent.ticker, shares, price, day, intent.theme.value), price, bars, day);
    } else {
      var held := ps[i].shares;
      assert ps[i] in ps;
      var average := (Times(held, ps[i].averageCost) + Times(shares, price)) / (held + shares);
      ChangesAPosition(ps, i, ps[i].(shares := held + shares, averageCost := average), price, bars, day);
      TimesAdds(held, shares, price);
    }
  }

  /** A sale of no more than is held takes its shares and its value, and any dust that would be left. */
  lemma SellTakes(
    ps: seq<Position>, intent: Intent, shares: real, price: real, bars: seq<Bar>, day: Day)
    requires UniqueTickers(ps) && Long(ps) && 0.0 < shares <= Held(ps, intent.ticker)
    requires Open(bars, intent.ticker, day) == Some(price)
    ensures ApplySell(ps, intent, shares).Kept?
    ensures var next, left := ApplySell(ps, intent, shares).positions, Held(ps, intent.ticker) - shares;
            && UniqueTickers(next) && Long(next)
            && Held(next, intent.ticker) == (if left < DUST then 0.0 else left)
            && Worth(next, bars, day)
               == Worth(ps, bars, day) - Times(shares, price)
                  - Times(left - Held(next, intent.ticker), price)
  {
    var i := Find(ps, intent.ticker);
    var left := ps[i].shares - shares;
    TimesAdds(left, shares, price);
    TimesZero(price);
    if left < DUST {
      ClosesAPosition(ps, i, price, bars, day);
    } else {
      var p := ps[i].(shares := left);
      ChangesAPosition(ps, i, p, price, bars, day);
      assert ApplySell(ps, intent, shares) == Kept(ps[i := p]);
    }
  }

  lemma NotFound(ps: seq<Position>, i: nat)
    requires UniqueTickers(ps) && i < |ps|
    ensures Find(ps[..i] + ps[i + 1..], ps[i].ticker) == |ps| - 1
  {
    var next := ps[..i] + ps[i + 1..];
    assert forall k | 0 <= k < |next| :: next[k] == if k < i then ps[k] else ps[k + 1];
  }

  /** What a position has cost. */
  function Basis(ps: seq<Position>, ticker: Ticker): real {
    var i := Find(ps, ticker);
    if i < |ps| then Times(ps[i].shares, ps[i].averageCost) else 0.0
  }

  /** A purchase adds what was paid to the cost of its position and keeps when and why it was opened. */
  lemma BuyAddsToBasis(ps: seq<Position>, intent: Intent, shares: real, price: real, day: Day)
    requires UniqueTickers(ps) && Long(ps) && 0.0 < shares
    requires ApplyBuy(ps, intent, shares, price, day).Kept?
    ensures var next := ApplyBuy(ps, intent, shares, price, day).positions;
            && Basis(next, intent.ticker) == Basis(ps, intent.ticker) + Times(shares, price)
            && var i := Find(ps, intent.ticker);
            && Find(next, intent.ticker) == i < |next|
            && (i < |ps| ==> next[i].openedOn == ps[i].openedOn && next[i].theme == ps[i].theme)
            && (i == |ps| ==> next[i].openedOn == day && Some(next[i].theme) == intent.theme)
  {
    var i := Find(ps, intent.ticker);
    var next := ApplyBuy(ps, intent, shares, price, day).positions;
    assert next[i].ticker == intent.ticker;
    assert forall j | 0 <= j < i :: next[j] == ps[j];
    assert Find(next, intent.ticker) == i;
    if i < |ps| {
      assert ps[i] in ps;
      var total, cost := ps[i].shares + shares, Times(ps[i].shares, ps[i].averageCost) + Times(shares, price);
      AverageTimes(cost, total);
    }
  }

  lemma AverageTimes(cost: real, total: real)
    requires 0.0 < total
    ensures Times(total, cost / total) == cost
  {
  }

  // ----- One fill -----

  ghost predicate Sane(book: Book) {
    && UniqueTickers(book.positions) && Long(book.positions)
    && 0.0 <= Cash(book.fills, None)
  }

  function Equity(book: Book, bars: seq<Bar>, day: Day): real {
    Cash(book.fills, None) + Worth(book.positions, bars, day)
  }

  /** The shares that put a ticker at its target weight. */
  function Goal(book: Book, bars: seq<Bar>, c: Candidate, price: real): real
    requires 0.0 < price
  {
    Times(c.intent.target, Equity(book, bars, c.day)) / price
  }

  /** A fill: cash stays non-negative, the ticker ends at exactly its target weight of the equity at
      that day's opens (or, sold to less than the dust limit, is closed), and cash and positions
      together are worth at those opens what they were before, less that dust. */
  ghost predicate SelfFinancing(book: Book, next: Book, bars: seq<Bar>, c: Candidate, price: real)
    requires 0.0 < price
  {
    var goal, held := Goal(book, bars, c, price), Held(next.positions, c.intent.ticker);
    && Sane(next)
    && (held == goal || (c.intent.side == Sell && held == 0.0 && 0.0 <= goal < DUST))
    && Equity(next, bars, c.day) == Equity(book, bars, c.day) - Times(goal - held, price)
  }

  lemma DeltaIs(book: Book, bars: seq<Bar>, c: Candidate, price: real)
    requires !IsLate(book.fills, c.day) && 0.0 < price
    ensures Delta(book, bars, c, price)
         == Times(Goal(book, bars, c, price) - Held(book.positions, c.intent.ticker), price)
  {
    var value := Times(c.intent.target, Equity(book, bars, c.day));
    NothingLater(book.fills, c.day);
    DivTimes(value, price);
    TimesAdds(Goal(book, bars, c, price), Held(book.positions, c.intent.ticker), price);
  }

  /** A purchase to a target buys exactly the shares missing from it. */
  lemma BuySize(book: Book, bars: seq<Bar>, c: Candidate, price: real)
    requires !IsLate(book.fills, c.day) && 0.0 < price
    requires 0.0 < Delta(book, bars, c, price) <= Cash(book.fills, Some(c.day))
    ensures var shares := Delta(book, bars, c, price) / price;
            && shares == Goal(book, bars, c, price) - Held(book.positions, c.intent.ticker)
            && 0.0 < shares && Times(shares, price) <= Cash(book.fills, None)
  {
    var delta := Delta(book, bars, c, price);
    DeltaIs(book, bars, c, price);
    DivTimes(delta, price);
    PositiveShares(delta, price);
    TimesInjective(
      delta / price, Goal(book, bars, c, price) - Held(book.positions, c.intent.ticker), price);
    NothingLater(book.fills, c.day);
  }

  lemma BuyIsSelfFinancing(
    book: Book, next: Book, bars: seq<Bar>, c: Candidate, price: real, now: Instant, shares: real)
    requires Sane(book) && c.intent.side == Buy && 0.0 < price
    requires Open(bars, c.intent.ticker, c.day) == Some(price)
    requires shares == Goal(book, bars, c, price) - Held(book.positions, c.intent.ticker)
    requires 0.0 < shares && Times(shares, price) <= Cash(book.fills, None)
    requires Place(book, c, shares, price, now) == Filled(next)
    ensures SelfFinancing(book, next, bars, c, price)
  {
    BuyAdds(book.positions, c.intent, shares, price, bars, c.day);
    CashAppends(book.fills, Fill(c.intent, shares, price, c.day, now));
    TimesZero(price);
  }

  lemma GoalIsPositive(book: Book, bars: seq<Bar>, c: Candidate, price: real)
    requires Sane(book) && GoodMarks(book.positions, bars, c.day) && c.intent.Valid() && 0.0 < price
    ensures 0.0 <= Goal(book, bars, c, price)
  {
    WorthIsPositive(book.positions, bars, c.day);
    TimesSign(c.intent.target, Equity(book, bars, c.day));
  }

  /** A sale to a target sells exactly the shares above it. */
  lemma SaleSize(book: Book, bars: seq<Bar>, c: Candidate, price: real)
    requires Sane(book) && !IsLate(book.fills, c.day) && 0.0 < price && c.intent.Valid()
    requires GoodMarks(book.positions, bars, c.day) && Delta(book, bars, c, price) < 0.0
    ensures var shares := -Delta(book, bars, c, price) / price;
            && shares == Held(book.positions, c.intent.ticker) - Goal(book, bars, c, price)
            && 0.0 < shares <= Held(book.positions, c.intent.ticker) && 0.0 <= Times(shares, price)
  {
    var delta, goal := Delta(book, bars, c, price), Goal(book, bars, c, price);
    var held := Held(book.positions, c.intent.ticker);
    DeltaIs(book, bars, c, price);
    DivTimes(-delta, price);
    PositiveShares(-delta, price);
    TimesAdds(held, goal, price);
    TimesAdds(goal, held, price);
    TimesInjective(-delta / price, held - goal, price);
    GoalIsPositive(book, bars, c, price);
  }

  lemma SellIsSelfFinancing(
    book: Book, next: Book, bars: seq<Bar>, c: Candidate, price: real, now: Instant, shares: real)
    requires Sane(book) && c.intent.side == Sell && 0.0 < price
    requires Open(bars, c.intent.ticker, c.day) == Some(price)
    requires shares == Held(book.positions, c.intent.ticker) - Goal(book, bars, c, price)
    requires 0.0 < shares <= Held(book.positions, c.intent.ticker) && 0.0 <= Times(shares, price)
    requires Place(book, c, shares, price, now) == Filled(next)
    ensures SelfFinancing(book, next, bars, c, price)
  {
    SellTakes(book.positions, c.intent, shares, price, bars, c.day);
    CashAppends(book.fills, Fill(c.intent, shares, price, c.day, now));
  }

  lemma FillIsSelfFinancing(book: Book, next: Book, bars: seq<Bar>, c: Candidate, now: Instant)
    requires Sane(book) && c.intent.Valid() && FillOne(book, bars, c, now) == Filled(next)
    ensures Open(bars, c.intent.ticker, c.day).Some? && 0.0 < Open(bars, c.intent.ticker, c.day).value
    ensures SelfFinancing(book, next, bars, c, Open(bars, c.intent.ticker, c.day).value)
  {
    var price := Open(bars, c.intent.ticker, c.day).value;
    if c.intent.side == Buy {
      BuySize(book, bars, c, price);
      BuyIsSelfFinancing(book, next, bars, c, price, now, Delta(book, bars, c, price) / price);
    } else {
      SaleSize(book, bars, c, price);
      var shares := -Delta(book, bars, c, price) / price;
      SellIsSelfFinancing(book, next, bars, c, price, now, shares);
    }
  }

  // ----- The settlement loop -----

  ghost predicate ValidCandidates(cs: seq<Candidate>) {
    forall c | c in cs :: c.intent.Valid()
  }

  lemma {:induction false} FillAllCounts(
    fill: Filler, book: Book, cs: seq<Candidate>, now: nat -> Instant, settled: nat, awaiting: nat)
    requires FillAll(fill, book, cs, now, settled, awaiting).Settled?
    requires forall b: Book, c: Candidate, t: Instant | fill(b, c, t).Filled? ::
               b.fills <= fill(b, c, t).book.fills && |fill(b, c, t).book.fills| == |b.fills| + 1
    ensures var r := FillAll(fill, book, cs, now, settled, awaiting);
            && r.settled + r.awaiting == settled + awaiting + |cs|
            && |r.book.fills| == |book.fills| + r.settled - settled && book.fills <= r.book.fills
    decreases |cs|
  {
    if cs != [] {
      match fill(book, cs[0], now(|book.fills|))
      case Fails(_) =>
      case Awaits => FillAllCounts(fill, book, cs[1..], now, settled, awaiting + 1);
      case Filled(next) => FillAllCounts(fill, next, cs[1..], now, settled + 1, awaiting);
    }
  }

  /** Filling one valid candidate, at any time, keeps what `keeps` says of a book. */
  ghost predicate Preserves(fill: Filler, keeps: Book -> bool) {
    forall b: Book, c: Candidate, t: Instant | keeps(b) && c.intent.Valid() && fill(b, c, t).Filled? ::
      keeps(fill(b, c, t).book)
  }

  lemma {:induction false} FillAllKeeps(
    fill: Filler, book: Book, cs: seq<Candidate>, now: nat -> Instant, settled: nat, awaiting: nat,
    keeps: Book -> bool)
    requires keeps(book) && ValidCandidates(cs) && Preserves(fill, keeps)
    requires FillAll(fill, book, cs, now, settled, awaiting).Settled?
    ensures keeps(FillAll(fill, book, cs, now, settled, awaiting).book)
    decreases |cs|
  {
    if cs != [] {
      assert cs[0] in cs;
      var c, at := cs[0], now(|book.fills|);
      match fill(book, c, at)
      case Fails(_) =>
      case Awaits => FillAllKeeps(fill, book, cs[1..], now, settled, awaiting + 1, keeps);
      case Filled(next) =>
        assert c.intent.Valid() && keeps(fill(book, c, at).book);
        FillAllKeeps(fill, next, cs[1..], now, settled + 1, awaiting, keeps);
    }
  }

  /** What a fill adds to the book. */
  ghost predicate Adds(book: Book, next: Book, f: Fill) {
    && next.fills == book.fills + [f]
    && Apply(book.positions, f.intent, f.shares, f.price, f.day) == Kept(next.positions)
  }

  lemma FillAppends(book: Book, next: Book, bars: seq<Bar>, c: Candidate, at: Instant) returns (f: Fill)
    requires FillOne(book, bars, c, at) == Filled(next)
    ensures Adds(book, next, f) && f.day == c.day && f.filledAt == at && !IsLate(book.fills, c.day)
  {
    f := next.fills[|book.fills|];
  }

  lemma FillAtAdds(bars: seq<Bar>)
    ensures forall b: Book, c: Candidate, t: Instant | FillAt(bars)(b, c, t).Filled? ::
              && b.fills <= FillAt(bars)(b, c, t).book.fills
              && |FillAt(bars)(b, c, t).book.fills| == |b.fills| + 1
  {
    forall b: Book, c: Candidate, t: Instant | FillAt(bars)(b, c, t).Filled?
      ensures b.fills <= FillAt(bars)(b, c, t).book.fills
      ensures |FillAt(bars)(b, c, t).book.fills| == |b.fills| + 1
    {
      var f := FillAppends(b, FillOne(b, bars, c, t).book, bars, c, t);
    }
  }

  lemma {:induction false} CandidatesAreValid(bars: seq<Bar>, intents: seq<Intent>, through: Option<Day>)
    requires forall i | i in intents :: i.Valid()
    ensures ValidCandidates(Candidates(bars, intents, through))
  {
    if intents != [] {
      CandidatesAreValid(bars, intents[1..], through);
    }
  }

  ghost predicate ValidIntents(intents: seq<Intent>) {
    forall i | i in intents :: i.Valid()
  }

  lemma SortedAreValid(cs: seq<Candidate>)
    requires ValidCandidates(cs)
    ensures ValidCandidates(Sort(cs, CandidateOrder))
  {
    SameMembers(cs, Sort(cs, CandidateOrder));
  }

  /** A settlement is the loop over some valid candidates. */
  lemma SettlingIsTheLoop(
    book: Book, intents: seq<Intent>, bars: seq<Bar>, through: Option<Day>, now: nat -> Instant)
    returns (cs: seq<Candidate>, waiting: nat)
    requires ValidIntents(intents)
    ensures ValidCandidates(cs) && |cs| + waiting == |Unfilled(intents, book.fills)|
    ensures Settling(book, intents, bars, through, now) == FillAll(FillAt(bars), book, cs, now, 0, waiting)
  {
    var open := Unfilled(intents, book.fills);
    var found := Candidates(bars, open, through);
    CandidatesAreValid(bars, open, through);
    SortedAreValid(found);
    SameMembers(found, Sort(found, CandidateOrder));
    cs, waiting := Queue(book, intents, bars, through), Waiting(book, intents, bars, through);
  }

  /** A settlement settles or leaves waiting exactly the intents that had no fill, and only adds fills. */
  lemma SettlingCounts(
    book: Book, intents: seq<Intent>, bars: seq<Bar>, through: Option<Day>, now: nat -> Instant)
    requires ValidIntents(intents) && Settling(book, intents, bars, through, now).Settled?
    ensures var r := Settling(book, intents, bars, through, now);
            && r.settled + r.awaiting == |Unfilled(intents, book.fills)|
            && |r.book.fills| == |book.fills| + r.settled && book.fills <= r.book.fills
  {
    var cs, waiting := SettlingIsTheLoop(book, intents, bars, through, now);
    FillAtAdds(bars);
    FillAllCounts(FillAt(bars), book, cs, now, 0, waiting);
  }

  lemma SettlingKeeps(
    book: Book, intents: seq<Intent>, bars: seq<Bar>, through: Option<Day>, now: nat -> Instant,
    keeps: Book -> bool)
    requires keeps(book) && ValidIntents(intents) && Preserves(FillAt(bars), keeps)
    requires Settling(book, intents, bars, through, now).Settled?
    ensures keeps(Settling(book, intents, bars, through, now).book)
  {
    var cs, waiting := SettlingIsTheLoop(book, intents, bars, through, now);
    FillAllKeeps(FillAt(bars), book, cs, now, 0, waiting, keeps);
  }

  // ----- Whole runs -----

  datatype Op = Settle(intents: seq<Intent>, bars: seq<Bar>, through: Option<Day>) | Rebuild

  /** The account before anything was filled. */
  const NEW := Book([], [])

  function Step(book: Book, op: Op, now: nat -> Instant): Book {
    match op
    case Settle(intents, bars, through) =>
      (match Settling(book, intents, bars, through, now)
       case Raised(_) => book
       case Settled(next, _, _) => next)
    case Rebuild =>
      match Rebuilding(book.fills)
      case Broken(_) => book
      case Kept(ps) => Book(book.fills, ps)
  }

  function Run(book: Book, ops: seq<Op>, now: nat -> Instant): Book
    decreases |ops|
  {
    if ops == [] then book else Run(Step(book, ops[0], now), ops[1..], now)
  }

  ghost predicate ValidOps(ops: seq<Op>) {
    forall op | op in ops :: op.Settle? ==> ValidIntents(op.intents)
  }

  // ----- Cash and holdings, under any clock -----

  lemma FillAtKeepsSane(bars: seq<Bar>)
    ensures Preserves(FillAt(bars), Sane)
  {
    forall b: Book, c: Candidate, t: Instant | Sane(b) && c.intent.Valid() && FillAt(bars)(b, c, t).Filled?
      ensures Sane(FillAt(bars)(b, c, t).book)
    {
      FillIsSelfFinancing(b, FillOne(b, bars, c, t).book, bars, c, t);
    }
  }

  /** Any fill, on any positions, leaves each ticker listed once and held in a positive quantity. */
  lemma ApplyKeepsLong(ps: seq<Position>, f: Fill)
    requires UniqueTickers(ps) && Long(ps)
    requires Apply(ps, f.intent, f.shares, f.price, f.day).Kept?
    ensures var next := Apply(ps, f.intent, f.shares, f.price, f.day).positions;
            UniqueTickers(next) && Long(next)
  {
    var i := Find(ps, f.intent.ticker);
    if i < |ps| { assert ps[i] in ps; }
  }

  lemma {:induction false} ReplayKeepsLong(ps: seq<Position>, fills: seq<Fill>)
    requires UniqueTickers(ps) && Long(ps) && Replay(ps, fills).Kept?
    ensures UniqueTickers(Replay(ps, fills).positions) && Long(Replay(ps, fills).positions)
    decreases |fills|
  {
    if fills != [] {
      var f := fills[0];
      ApplyKeepsLong(ps, f);
      ReplayKeepsLong(Apply(ps, f.intent, f.shares, f.price, f.day).positions, fills[1..]);
    }
  }

  lemma StepKeepsSane(book: Book, op: Op, now: nat -> Instant)
    requires Sane(book) && (op.Settle? ==> ValidIntents(op.intents))
    ensures Sane(Step(book, op, now))
  {
    match op
    case Settle(intents, bars, through) =>
      FillAtKeepsSane(bars);
      if Settling(book, intents, bars, through, now).Settled? {
        SettlingKeeps(book, intents, bars, through, now, Sane);
      }
    case Rebuild =>
      if Rebuilding(book.fills).Kept? { ReplayKeepsLong([], Sort(book.fills, ReplayOrder)); }
  }

  lemma {:induction false} RunKeepsSane(book: Book, ops: seq<Op>, now: nat -> Instant)
    requires Sane(book) && ValidOps(ops)
    ensures Sane(Run(book, ops, now))
    decreases |ops|
  {
    if ops != [] {
      assert ops[0] in ops;
      StepKeepsSane(book, ops[0], now);
      RunKeepsSane(Step(book, ops[0], now), ops[1..], now);
    }
  }

  /** Every fill that the loop writes, until it ends or fails, is self-financing. */
  ghost predicate EachFinancesItself(book: Book, bars: seq<Bar>, cs: seq<Candidate>, now: nat -> Instant)
    decreases |cs|
  {
    cs != [] ==>
      match FillOne(book, bars, cs[0], now(|book.fills|))
      case Fails(_) => true
      case Awaits => EachFinancesItself(book, bars, cs[1..], now)
      case Filled(next) =>
        && Open(bars, cs[0].intent.ticker, cs[0].day).Some?
        && 0.0 < Open(bars, cs[0].intent.ticker, cs[0].day).value
        && SelfFinancing(book, next, bars, cs[0], Open(bars, cs[0].intent.ticker, cs[0].day).value)
        && EachFinancesItself(next, bars, cs[1..], now)
  }

  lemma {:induction false} LoopFinancesItself(book: Book, bars: seq<Bar>, cs: seq<Candidate>, now: nat -> Instant)
    requires Sane(book) && ValidCandidates(cs)
    ensures EachFinancesItself(book, bars, cs, now)
    decreases |cs|
  {
    if cs != [] {
      assert cs[0] in cs;
      match FillOne(book, bars, cs[0], now(|book.fills|))
      case Fails(_) =>
      case Awaits => LoopFinancesItself(book, bars, cs[1..], now);
      case Filled(next) =>
        FillIsSelfFinancing(book, next, bars, cs[0], now(|book.fills|));
        LoopFinancesItself(next, bars, cs[1..], now);
    }
  }

  /** After any run of settlements and rebuilds from the empty account, under any prices and any clock,
      running backwards or standing still: cash is not negative, every holding is positive and listed
      once, and every fill that a further settlement writes is self-financing. */
  lemma RunsAreSound(
    ops: seq<Op>, now: nat -> Instant, intents: seq<Intent>, bars: seq<Bar>, through: Option<Day>)
    requires ValidOps(ops) && ValidIntents(intents)
    ensures var book := Run(NEW, ops, now);
            && 0.0 <= Cash(book.fills, None)
            && UniqueTickers(book.positions) && Long(book.positions)
            && EachFinancesItself(book, bars, Queue(book, intents, bars, through), now)
  {
    RunKeepsSane(NEW, ops, now);
    var book := Run(NEW, ops, now);
    QueueIsValid(book, intents, bars, through);
    LoopFinancesItself(book, bars, Queue(book, intents, bars, through), now);
  }

  lemma QueueIsValid(book: Book, intents: seq<Intent>, bars: seq<Bar>, through: Option<Day>)
    requires ValidIntents(intents)
    ensures ValidCandidates(Queue(book, intents, bars, through))
  {
    CandidatesAreValid(bars, Unfilled(intents, book.fills), through);
    SortedAreValid(Candidates(bars, Unfilled(intents, book.fills), through));
  }

  // ----- Replay, ticker by ticker -----

  function Entry(ps: seq<Position>, ticker: Ticker): Option<Position> {
    var i := Find(ps, ticker);
    if i < |ps| then Some(ps[i]) else None
  }

  /** The same table: the same position, or none, for every ticker. */
  ghost predicate SameTable(a: seq<Position>, b: seq<Position>) {
    forall t :: Entry(a, t) == Entry(b, t)
  }

  /** What a fill makes of its own ticker's position; None when it is refused. */
  function Moves(e: Option<Position>, f: Fill): Option<Option<Position>> {
    var ps := match e case Some(p) => [p] case None => [];
    match Apply(ps, f.intent, f.shares, f.price, f.day)
    case Broken(_) => None
    case Kept(next) => Some(if next == [] then None else Some(next[0]))
  }

  function TickerReplay(e: Option<Position>, fills: seq<Fill>): Option<Option<Position>>
    decreases |fills|
  {
    if fills == [] then Some(e)
    else
      match Moves(e, fills[0])
      case None => None
      case Some(next) => TickerReplay(next, fills[1..])
  }

  function OfTicker(t: Ticker): Fill -> bool {
    (f: Fill) => f.intent.ticker == t
  }

  /** A fill reads and writes nothing but its own ticker's position. */
  lemma ApplyMoves(ps: seq<Position>, f: Fill, t: Ticker)
    requires UniqueTickers(ps)
    ensures Apply(ps, f.intent, f.shares, f.price, f.day).Kept? <==> Moves(Entry(ps, f.intent.ticker), f).Some?
    ensures Apply(ps, f.intent, f.shares, f.price, f.day).Kept? ==>
              var next := Apply(ps, f.intent, f.shares, f.price, f.day).positions;
              && UniqueTickers(next)
              && Entry(next, t) == if t == f.intent.ticker then Moves(Entry(ps, t), f).value else Entry(ps, t)
  {
    var applied := Apply(ps, f.intent, f.shares, f.price, f.day);
    var i, u := Find(ps, f.intent.ticker), f.intent.ticker;
    if applied.Kept? {
      if f.intent.side == Buy {
        BuyMoves(ps, f, t);
      } else {
        SellMoves(ps, f, t);
      }
    }
  }

  lemma EntryIs(ps: seq<Position>, i: nat, t: Ticker)
    requires UniqueTickers(ps) && i < |ps|
    ensures ps[i].ticker == t ==> Entry(ps, t) == Some(ps[i])
  {
  }

  lemma EntryOfUpdate(ps: seq<Position>, i: nat, p: Position, t: Ticker)
    requires UniqueTickers(ps) && i < |ps| && p.ticker == ps[i].ticker
    ensures UniqueTickers(ps[i := p])
    ensures Entry(ps[i := p], t) == if t == p.ticker then Some(p) else Entry(ps, t)
  {
    assert forall j | 0 <= j < |ps| :: ps[i := p][j].ticker == ps[j].ticker;
    var k := Find(ps, t);
    if k < |ps| { EntryIs(ps[i := p], k, t); }
  }

  lemma EntryOfAppend(ps: seq<Position>, p: Position, t: Ticker)
    requires UniqueTickers(ps) && Find(ps, p.ticker) == |ps|
    ensures UniqueTickers(ps + [p])
    ensures Entry(ps + [p], t) == if t == p.ticker then Some(p) else Entry(ps, t)
  {
    var next := ps + [p];
    assert next[|ps|] == p && forall k | 0 <= k < |ps| :: next[k] == ps[k];
    if t != p.ticker && Find(ps, t) < |ps| { EntryIs(next, Find(ps, t), t); }
    if t == p.ticker { EntryIs(next, |ps|, t); }
  }

  lemma EntryOfRemoval(ps: seq<Position>, i: nat, t: Ticker)
    requires UniqueTickers(ps) && i < |ps|
    ensures var next := ps[..i] + ps[i + 1..];
            && UniqueTickers(next) && Entry(next, t) == if t == ps[i].ticker then None else Entry(ps, t)
  {
    var next, k := ps[..i] + ps[i + 1..], Find(ps, t);
    assert forall j | 0 <= j < |next| :: next[j] == if j < i then ps[j] else ps[j + 1];
    if k < |ps| && k != i {
      EntryIs(next, if k < i then k else k - 1, t);
    }
  }

  lemma BuyMoves(ps: seq<Position>, f: Fill, t: Ticker)
    requires UniqueTickers(ps) && f.intent.side == Buy
    requires Apply(ps, f.intent, f.shares, f.price, f.day).Kept?
    ensures var next := Apply(ps, f.intent, f.shares, f.price, f.day).positions;
            && UniqueTickers(next)
            && Entry(next, t) == if t == f.intent.ticker then Moves(Entry(ps, t), f).value else Entry(ps, t)
  {
    var i := Find(ps, f.intent.ticker);
    var next := Apply(ps, f.intent, f.shares, f.price, f.day).positions;
    if i == |ps| {
      EntryOfAppend(ps, next[i], t);
    } else {
      EntryOfUpdate(ps, i, next[i], t);
    }
  }

  lemma SellMoves(ps: seq<Position>, f: Fill, t: Ticker)
    requires UniqueTickers(ps) && f.intent.side == Sell
    requires Apply(ps, f.intent, f.shares, f.price, f.day).Kept?
    ensures var next := Apply(ps, f.intent, f.shares, f.price, f.day).positions;
            && UniqueTickers(next)
            && Entry(next, t) == if t == f.intent.ticker then Moves(Entry(ps, t), f).value else Entry(ps, t)
  {
    var i := Find(ps, f.intent.ticker);
    if i < |ps| {
      if ps[i].shares - f.shares < DUST {
        EntryOfRemoval(ps, i, t);
      } else {
        EntryOfUpdate(ps, i, ps[i].(shares := ps[i].shares - f.shares), t);
      }
    }
  }

  /** A replay is, for every ticker, the replay of that ticker's own fills. */
  lemma {:induction false} ReplayMoves(ps: seq<Position>, fills: seq<Fill>, t: Ticker)
    requires UniqueTickers(ps) && Replay(ps, fills).Kept?
    ensures TickerReplay(Entry(ps, t), Filter(fills, OfTicker(t)))
         == Some(Entry(Replay(ps, fills).positions, t))
    decreases |fills|
  {
    if fills != [] {
      var f := fills[0];
      ApplyMoves(ps, f, t);
      ReplayMoves(Apply(ps, f.intent, f.shares, f.price, f.day).positions, fills[1..], t);
      if f.intent.ticker == t {
        assert Filter(fills, OfTicker(t))[1..] == Filter(fills[1..], OfTicker(t));
      }
    }
  }

  /** A replay is refused because some ticker's own replay is. */
  lemma {:induction false} ReplayBreaks(ps: seq<Position>, fills: seq<Fill>) returns (t: Ticker)
    requires UniqueTickers(ps) && Replay(ps, fills).Broken?
    ensures TickerReplay(Entry(ps, t), Filter(fills, OfTicker(t))).None?
    decreases |fills|
  {
    var f := fills[0];
    var applied := Apply(ps, f.intent, f.shares, f.price, f.day);
    ApplyMoves(ps, f, f.intent.ticker);
    if applied.Broken? {
      t := f.intent.ticker;
    } else {
      t := ReplayBreaks(applied.positions, fills[1..]);
      ApplyMoves(ps, f, t);
      if f.intent.ticker == t {
        assert Filter(fills, OfTicker(t))[1..] == Filter(fills[1..], OfTicker(t));
      }
    }
  }

  /** Every ticker's fills were stamped in the order they were written; fills of different tickers may
      be stamped in any order. */
  ghost predicate InTickerOrder(fills: seq<Fill>) {
    forall i, j | 0 <= i < j < |fills| && fills[i].intent.ticker == fills[j].intent.ticker ::
      ReplayOrder(fills[i], fills[j])
  }

  lemma {:induction false} TickerFillsSorted(fills: seq<Fill>, t: Ticker)
    requires InTickerOrder(fills)
    ensures SortedBy(Filter(fills, OfTicker(t)), ReplayOrder)
  {
    if fills != [] {
      var f, rest := fills[0], fills[1..];
      assert forall i | 0 <= i < |rest| :: rest[i] == fills[i + 1];
      TickerFillsSorted(rest, t);
      if f.intent.ticker == t {
        var kept := Filter(rest, OfTicker(t));
        forall k | 0 <= k < |kept| ensures ReplayOrder(f, kept[k]) {
          assert kept[k] in rest;
          var i :| 0 <= i < |rest| && rest[i] == kept[k];
          assert ReplayOrder(fills[0], fills[i + 1]);
        }
      }
    }
  }

  lemma ReplayOrderIsTotal()
    ensures TotalPreorder(ReplayOrder)
  {
  }

  lemma TickerFillsUnmoved(fills: seq<Fill>, t: Ticker)
    requires InTickerOrder(fills)
    ensures Filter(Sort(fills, ReplayOrder), OfTicker(t)) == Filter(fills, OfTicker(t))
  {
    ReplayOrderIsTotal();
    FilterSort(fills, OfTicker(t), ReplayOrder);
    TickerFillsSorted(fills, t);
    SortOfSorted(Filter(fills, OfTicker(t)), ReplayOrder);
  }

  /** When each ticker's fills are in order, replaying them in the replay order gives the same table as
      replaying them in the order they were written. */
  lemma ReplayIgnoresOtherTickers(fills: seq<Fill>)
    requires InTickerOrder(fills) && Replay([], fills).Kept?
    ensures Rebuilding(fills).Kept?
    ensures SameTable(Rebuilding(fills).positions, Replay([], fills).positions)
    ensures UniqueTickers(Rebuilding(fills).positions)
  {
    var sorted := Sort(fills, ReplayOrder);
    if Rebuilding(fills).Broken? {
      var t := ReplayBreaks([], sorted);
      TickerFillsUnmoved(fills, t);
      ReplayMoves([], fills, t);
    }
    forall t ensures Entry(Rebuilding(fills).positions, t) == Entry(Replay([], fills).positions, t) {
      TickerFillsUnmoved(fills, t);
      ReplayMoves([], fills, t);
      ReplayMoves([], sorted, t);
    }
    ReplayKeepsLong([], sorted);
  }

  // ----- Rebuilding, under the condition it needs -----

  /** The table is the replay of the fills in a given order. */
  ghost predicate ReplayedAs(ps: seq<Position>, order: seq<Fill>) {
    UniqueTickers(ps) && Replay([], order).Kept? && SameTable(ps, Replay([], order).positions)
  }

  /** The table is the replay of the fills in the order they were written. */
  ghost predicate Replayed(book: Book) {
    ReplayedAs(book.positions, book.fills)
  }

  /** A rebuild is accepted and gives the table there is. */
  ghost predicate RebuildAgrees(book: Book) {
    Rebuilding(book.fills).Kept? && SameTable(Rebuilding(book.fills).positions, book.positions)
  }

  lemma {:induction false} ReplayAppends(ps: seq<Position>, fills: seq<Fill>, f: Fill)
    requires Replay(ps, fills).Kept?
    ensures Replay(ps, fills + [f])
         == Apply(Replay(ps, fills).positions, f.intent, f.shares, f.price, f.day)
    decreases |fills|
  {
    if fills == [] {
      assert fills + [f] == [f];
    } else {
      var g := fills[0];
      assert (fills + [f])[1..] == fills[1..] + [f];
      ReplayAppends(Apply(ps, g.intent, g.shares, g.price, g.day).positions, fills[1..], f);
    }
  }

  lemma AddsKeepsReplayed(book: Book, next: Book, f: Fill, order: seq<Fill>)
    requires ReplayedAs(book.positions, order) && Adds(book, next, f)
    ensures ReplayedAs(next.positions, order + [f])
  {
    var ps := Replay([], order).positions;
    ReplayAppends([], order, f);
    ReplayKeepsLong([], order);
    ApplyMoves(book.positions, f, f.intent.ticker);
    ApplyMoves(ps, f, f.intent.ticker);
    forall t ensures Entry(next.positions, t) == Entry(Replay([], order + [f]).positions, t) {
      ApplyMoves(book.positions, f, t);
      ApplyMoves(ps, f, t);
    }
  }

  lemma FillAtKeepsReplayed(bars: seq<Bar>)
    ensures Preserves(FillAt(bars), Replayed)
  {
    forall b: Book, c: Candidate, t: Instant | Replayed(b) && c.intent.Valid() && FillAt(bars)(b, c, t).Filled?
      ensures Replayed(FillAt(bars)(b, c, t).book)
    {
      var f := FillAppends(b, FillOne(b, bars, c, t).book, bars, c, t);
      AddsKeepsReplayed(b, FillOne(b, bars, c, t).book, f, b.fills);
    }
  }

  lemma InTickerOrderOfPrefix(fills: seq<Fill>, more: seq<Fill>)
    requires fills <= more && InTickerOrder(more)
    ensures InTickerOrder(fills)
  {
    assert forall i | 0 <= i < |fills| :: fills[i] == more[i];
  }

  /** A rebuild of a book whose fills are in ticker order changes nothing. */
  lemma RebuildChangesNothing(book: Book)
    requires Replayed(book) && InTickerOrder(book.fills)
    ensures RebuildAgrees(book)
    ensures Replayed(Book(book.fills, Rebuilding(book.fills).positions))
  {
    ReplayIgnoresOtherTickers(book.fills);
    var rebuilt, replay := Rebuilding(book.fills).positions, Replay([], book.fills).positions;
    forall t ensures Entry(rebuilt, t) == Entry(book.positions, t) {
      assert Entry(rebuilt, t) == Entry(replay, t) == Entry(book.positions, t);
    }
  }

  lemma StepExtends(book: Book, op: Op, now: nat -> Instant)
    requires op.Settle? ==> ValidIntents(op.intents)
    ensures book.fills <= Step(book, op, now).fills
  {
    if op.Settle? && Settling(book, op.intents, op.bars, op.through, now).Settled? {
      SettlingCounts(book, op.intents, op.bars, op.through, now);
    }
  }

  lemma {:induction false} RunExtends(book: Book, ops: seq<Op>, now: nat -> Instant)
    requires ValidOps(ops)
    ensures book.fills <= Run(book, ops, now).fills
    decreases |ops|
  {
    if ops != [] {
      assert ops[0] in ops;
      StepExtends(book, ops[0], now);
      RunExtends(Step(book, ops[0], now), ops[1..], now);
    }
  }

  lemma StepKeepsReplayed(book: Book, op: Op, now: nat -> Instant)
    requires Replayed(book) && InTickerOrder(book.fills) && (op.Settle? ==> ValidIntents(op.intents))
    ensures Replayed(Step(book, op, now))
  {
    match op
    case Settle(intents, bars, through) =>
      FillAtKeepsReplayed(bars);
      if Settling(book, intents, bars, through, now).Settled? {
        SettlingKeeps(book, intents, bars, through, now, Replayed);
      }
    case Rebuild => RebuildChangesNothing(book);
  }

  lemma {:induction false} RunKeepsReplayed(book: Book, ops: seq<Op>, now: nat -> Instant)
    requires Replayed(book) && ValidOps(ops) && InTickerOrder(Run(book, ops, now).fills)
    ensures Replayed(Run(book, ops, now))
    decreases |ops|
  {
    if ops != [] {
      assert ops[0] in ops;
      RunExtends(book, ops, now);
      InTickerOrderOfPrefix(book.fills, Run(book, ops, now).fills);
      StepKeepsReplayed(book, ops[0], now);
      RunKeepsReplayed(Step(book, ops[0], now), ops[1..], now);
    }
  }

  /** Fills are written on days that never fall. */
  ghost predicate DaysRise(book: Book) {
    forall i, j | 0 <= i < j < |book.fills| :: book.fills[i].day <= book.fills[j].day
  }

  lemma FillAtKeepsDaysRising(bars: seq<Bar>)
    ensures Preserves(FillAt(bars), DaysRise)
  {
    forall b: Book, c: Candidate, t: Instant | DaysRise(b) && c.intent.Valid() && FillAt(bars)(b, c, t).Filled?
      ensures DaysRise(FillAt(bars)(b, c, t).book)
    {
      var f := FillAppends(b, FillOne(b, bars, c, t).book, bars, c, t);
      assert forall i | 0 <= i < |b.fills| :: b.fills[i] in b.fills;
    }
  }

  lemma {:induction false} RunKeepsDaysRising(book: Book, ops: seq<Op>, now: nat -> Instant)
    requires DaysRise(book) && ValidOps(ops)
    ensures DaysRise(Run(book, ops, now))
    decreases |ops|
  {
    if ops != [] {
      var op := ops[0];
      assert op in ops;
      if op.Settle? && Settling(book, op.intents, op.bars, op.through, now).Settled? {
        FillAtKeepsDaysRising(op.bars);
        SettlingKeeps(book, op.intents, op.bars, op.through, now, DaysRise);
      }
      RunKeepsDaysRising(Step(book, op, now), ops[1..], now);
    }
  }

  /** No two fills of one ticker on one day are stamped, ties by identifier, against the order in which
      they were written. */
  ghost predicate SameDayInOrder(fills: seq<Fill>) {
    forall i, j | 0 <= i < j < |fills| && fills[i].intent.ticker == fills[j].intent.ticker
                  && fills[i].day == fills[j].day :: ReplayOrder(fills[i], fills[j])
  }

  /** After any run of settlements and rebuilds, under any clock, a rebuild gives the incremental table,
      as long as no two fills of one ticker and one day are stamped out of order. Steps of the clock
      between days, ties in identifier order and any order among different tickers do no harm. */
  lemma RebuildGivesIncrementalTable(ops: seq<Op>, now: nat -> Instant)
    requires ValidOps(ops) && SameDayInOrder(Run(NEW, ops, now).fills)
    ensures RebuildAgrees(Run(NEW, ops, now))
  {
    RunKeepsDaysRising(NEW, ops, now);
    RunKeepsReplayed(NEW, ops, now);
    RebuildChangesNothing(Run(NEW, ops, now));
  }

  // ----- Rebuilding, exactly -----

  /** The fills in the order in which the table came to be: sorted by the last rebuild that was accepted,
      and as written since. */
  function Reordered(book: Book, order: seq<Fill>, op: Op, now: nat -> Instant): seq<Fill> {
    match op
    case Settle(_, _, _) =>
      var next := Step(book, op, now).fills;
      if |book.fills| <= |next| then order + next[|book.fills|..] else order
    case Rebuild => if Rebuilding(book.fills).Kept? then Sort(book.fills, ReplayOrder) else order
  }

  function Order(book: Book, order: seq<Fill>, ops: seq<Op>, now: nat -> Instant): seq<Fill>
    decreases |ops|
  {
    if ops == [] then order
    else Order(Step(book, ops[0], now), Reordered(book, order, ops[0], now), ops[1..], now)
  }

  /** The book goes on from `base`, whose table was the replay of `order`. */
  ghost function GoesOn(base: seq<Fill>, order: seq<Fill>): Book -> bool {
    (b: Book) => base <= b.fills && ReplayedAs(b.positions, order + b.fills[|base|..])
  }

  lemma FillAtGoesOn(bars: seq<Bar>, base: seq<Fill>, order: seq<Fill>)
    ensures Preserves(FillAt(bars), GoesOn(base, order))
  {
    var keeps := GoesOn(base, order);
    forall b: Book, c: Candidate, t: Instant | keeps(b) && c.intent.Valid() && FillAt(bars)(b, c, t).Filled?
      ensures keeps(FillAt(bars)(b, c, t).book)
    {
      var next := FillOne(b, bars, c, t).book;
      var f := FillAppends(b, next, bars, c, t);
      AddsKeepsReplayed(b, next, f, order + b.fills[|base|..]);
      assert order + b.fills[|base|..] + [f] == order + next.fills[|base|..];
    }
  }

  lemma StepReorders(book: Book, order: seq<Fill>, op: Op, now: nat -> Instant)
    requires ReplayedAs(book.positions, order) && (op.Settle? ==> ValidIntents(op.intents))
    ensures ReplayedAs(Step(book, op, now).positions, Reordered(book, order, op, now))
  {
    match op
    case Settle(intents, bars, through) =>
      assert order + book.fills[|book.fills|..] == order;
      if Settling(book, intents, bars, through, now).Settled? {
        FillAtGoesOn(bars, book.fills, order);
        SettlingKeeps(book, intents, bars, through, now, GoesOn(book.fills, order));
      }
    case Rebuild =>
      if Rebuilding(book.fills).Kept? { ReplayKeepsLong([], Sort(book.fills, ReplayOrder)); }
  }

  lemma {:induction false} RunReorders(book: Book, order: seq<Fill>, ops: seq<Op>, now: nat -> Instant)
    requires ReplayedAs(book.positions, order) && ValidOps(ops)
    ensures ReplayedAs(Run(book, ops, now).positions, Order(book, order, ops, now))
    decreases |ops|
  {
    if ops != [] {
      assert ops[0] in ops;
      StepReorders(book, order, ops[0], now);
      RunReorders(Step(book, ops[0], now), Reordered(book, order, ops[0], now), ops[1..], now);
    }
  }

  /** Without rebuilds the order is that of writing. */
  lemma {:induction false} SettlementsKeepOrder(book: Book, ops: seq<Op>, now: nat -> Instant)
    requires ValidOps(ops) && forall op | op in ops :: op.Settle?
    ensures Order(book, book.fills, ops, now) == Run(book, ops, now).fills
    decreases |ops|
  {
    if ops != [] {
      assert ops[0] in ops;
      StepExtends(book, ops[0], now);
      assert Reordered(book, book.fills, ops[0], now) == Step(book, ops[0], now).fills;
      SettlementsKeepOrder(Step(book, ops[0], now), ops[1..], now);
    }
  }

  /** A ticker's own fills replay to the same position in stamp order as in the order of the table. */
  ghost predicate TickerAgrees(fills: seq<Fill>, order: seq<Fill>, t: Ticker) {
    TickerReplay(None, Sort(Filter(fills, OfTicker(t)), ReplayOrder)) == TickerReplay(None, Filter(order, OfTicker(t)))
  }

  lemma EntryReplays(fills: seq<Fill>, t: Ticker)
    requires Replay([], fills).Kept?
    ensures TickerReplay(None, Filter(fills, OfTicker(t))) == Some(Entry(Replay([], fills).positions, t))
  {
    ReplayMoves([], fills, t);
  }

  lemma SortedEntryReplays(fills: seq<Fill>, t: Ticker)
    requires Rebuilding(fills).Kept?
    ensures TickerReplay(None, Sort(Filter(fills, OfTicker(t)), ReplayOrder))
         == Some(Entry(Rebuilding(fills).positions, t))
  {
    ReplayOrderIsTotal();
    FilterSort(fills, OfTicker(t), ReplayOrder);
    EntryReplays(Sort(fills, ReplayOrder), t);
  }

  lemma DisagreeingTicker(book: Book, order: seq<Fill>) returns (t: Ticker)
    requires ReplayedAs(book.positions, order) && Rebuilding(book.fills).Broken?
    ensures !TickerAgrees(book.fills, order, t)
  {
    ReplayOrderIsTotal();
    t := ReplayBreaks([], Sort(book.fills, ReplayOrder));
    FilterSort(book.fills, OfTicker(t), ReplayOrder);
    EntryReplays(order, t);
  }

  lemma AgreeingTickersRebuild(book: Book, order: seq<Fill>)
    requires ReplayedAs(book.positions, order) && forall t :: TickerAgrees(book.fills, order, t)
    ensures RebuildAgrees(book)
  {
    if Rebuilding(book.fills).Broken? { var t := DisagreeingTicker(book, order); }
    forall t ensures Entry(Rebuilding(book.fills).positions, t) == Entry(book.positions, t) {
      assert TickerAgrees(book.fills, order, t);
      EntryReplays(order, t);
      SortedEntryReplays(book.fills, t);
    }
  }

  ghost predicate EachTickerAgrees(fills: seq<Fill>, order: seq<Fill>) {
    forall t :: TickerAgrees(fills, order, t)
  }

  lemma AgreementIsTickerByTicker(book: Book, order: seq<Fill>)
    requires ReplayedAs(book.positions, order)
    ensures RebuildAgrees(book) <==> EachTickerAgrees(book.fills, order)
  {
    if RebuildAgrees(book) {
      forall t ensures TickerAgrees(book.fills, order, t) {
        EntryReplays(order, t);
        SortedEntryReplays(book.fills, t);
        assert Entry(Rebuilding(book.fills).positions, t) == Entry(book.positions, t);
      }
    }
    if EachTickerAgrees(book.fills, order) { AgreeingTickersRebuild(book, order); }
  }

  /** After any run of settlements and rebuilds, accepted or not, under any clock, a rebuild gives the table
      there is if and only if each ticker's own fills, in stamp order, replay to what they replay to in
      the order in which the table came to be; without rebuilds that is the order of writing. */
  lemma RebuildAgreesExactly(ops: seq<Op>, now: nat -> Instant)
    requires ValidOps(ops)
    ensures RebuildAgrees(Run(NEW, ops, now))
       <==> EachTickerAgrees(Run(NEW, ops, now).fills, Order(NEW, NEW.fills, ops, now))
    ensures (forall op | op in ops :: op.Settle?) ==>
              Order(NEW, NEW.fills, ops, now) == Run(NEW, ops, now).fills
  {
    RunReorders(NEW, NEW.fills, ops, now);
    AgreementIsTickerByTicker(Run(NEW, ops, now), Order(NEW, NEW.fills, ops, now));
    if forall op | op in ops :: op.Settle? { SettlementsKeepOrder(NEW, ops, now); }
  }

  // ----- Fills out of order that do no harm -----

  /** The two fills in either order, from one position. */
  ghost predicate Commute(e: Option<Position>, f: Fill, g: Fill) {
    TickerReplay(e, [f, g]) == TickerReplay(e, [g, f])
  }

  lemma TwoMoves(e: Option<Position>, f: Fill, g: Fill)
    ensures TickerReplay(e, [f, g]) == match Moves(e, f) case None => None case Some(next) => Moves(next, g)
  {
    assert [f, g][1..] == [g] && [g][1..] == [];
    if Moves(e, f).Some? {
      var next := Moves(e, f).value;
      assert TickerReplay(next, [g])
          == match Moves(next, g) case None => None case Some(last) => TickerReplay(last, []);
    }
  }

  lemma BuyIntoOpen(p: Position, f: Fill)
    requires f.intent.side == Buy && f.intent.ticker == p.ticker && 0.0 < p.shares
    ensures Moves(Some(p), f)
         == if f.shares <= 0.0 || f.price <= 0.0 || f.intent.theme.None? then None
            else Some(Some(p.(shares := p.shares + f.shares,
                              averageCost := (Times(p.shares, p.averageCost) + Times(f.shares, f.price))
                                             / (p.shares + f.shares))))
  {
    assert Find([p], f.intent.ticker) == 0;
  }

  /** Two purchases into an open position commute: shares and cost add up either way. */
  lemma PurchasesCommute(p: Position, f: Fill, g: Fill)
    requires f.intent.side == Buy && g.intent.side == Buy && 0.0 < p.shares
    requires f.intent.ticker == p.ticker == g.intent.ticker
    ensures Commute(Some(p), f, g)
  {
    TwoMoves(Some(p), f, g);
    TwoMoves(Some(p), g, f);
    BuyIntoOpen(p, f);
    BuyIntoOpen(p, g);
    if Moves(Some(p), f).Some? && Moves(Some(p), g).Some? {
      var cost := Times(p.shares, p.averageCost);
      var a, b := Moves(Some(p), f).value.value, Moves(Some(p), g).value.value;
      AverageTimes(cost + Times(f.shares, f.price), p.shares + f.shares);
      AverageTimes(cost + Times(g.shares, g.price), p.shares + g.shares);
      BuyIntoOpen(a, g);
      BuyIntoOpen(b, f);
      assert a.shares + g.shares == b.shares + f.shares;
    } else {
      if Moves(Some(p), f).Some? { BuyIntoOpen(Moves(Some(p), f).value.value, g); }
      if Moves(Some(p), g).Some? { BuyIntoOpen(Moves(Some(p), g).value.value, f); }
    }
  }

  lemma SellFromOpen(p: Position, f: Fill)
    requires f.intent.side == Sell && f.intent.ticker == p.ticker && DUST <= p.shares - f.shares
    ensures Moves(Some(p), f)
         == if f.shares <= 0.0 || f.price <= 0.0 then None else Some(Some(p.(shares := p.shares - f.shares)))
  {
    assert Find([p], f.intent.ticker) == 0;
  }

  /** Two sales commute when both together leave more than dust. */
  lemma SalesCommute(p: Position, f: Fill, g: Fill)
    requires f.intent.side == Sell && g.intent.side == Sell && 0.0 < f.shares && 0.0 < g.shares
    requires f.intent.ticker == p.ticker == g.intent.ticker && DUST <= p.shares - f.shares - g.shares
    ensures Commute(Some(p), f, g)
  {
    TwoMoves(Some(p), f, g);
    TwoMoves(Some(p), g, f);
    SellFromOpen(p, f);
    SellFromOpen(p, g);
    if Moves(Some(p), f).Some? { SellFromOpen(p.(shares := p.shares - f.shares), g); }
    if Moves(Some(p), g).Some? { SellFromOpen(p.(shares := p.shares - g.shares), f); }
  }

  lemma {:induction false} TickerReplayConcat(e: Option<Position>, a: seq<Fill>, b: seq<Fill>)
    ensures TickerReplay(e, a + b)
         == match TickerReplay(e, a) case None => None case Some(next) => TickerReplay(next, b)
    decreases |a|
  {
    if a == [] {
      assert a + b == b;
    } else {
      assert (a + b)[1..] == a[1..] + b;
      if Moves(e, a[0]).Some? { TickerReplayConcat(Moves(e, a[0]).value, a[1..], b); }
    }
  }

  /** A ticker whose fills are in stamp order but for two neighbours, stamped the other way round, agrees
      when these two commute on the position they meet. */
  lemma CommutingPairAgrees(
    fills: seq<Fill>, t: Ticker, before: seq<Fill>, f: Fill, g: Fill, after: seq<Fill>)
    requires Filter(fills, OfTicker(t)) == before + [f, g] + after
    requires SortedBy(before + [g, f] + after, ReplayOrder) && NoTies(before + [f, g] + after, ReplayOrder)
    requires TickerReplay(None, before).Some? && Commute(TickerReplay(None, before).value, f, g)
    ensures TickerAgrees(fills, fills, t)
  {
    var written, stamped := before + [f, g] + after, before + [g, f] + after;
    ReplayOrderIsTotal();
    assert multiset([f, g]) == multiset([g, f]);
    assert multiset(written) == multiset(stamped);
    SortOfPermutation(written, stamped, ReplayOrder);
    SortOfSorted(stamped, ReplayOrder);
    TickerReplayConcat(None, before + [f, g], after);
    TickerReplayConcat(None, before + [g, f], after);
    TickerReplayConcat(None, before, [f, g]);
    TickerReplayConcat(None, before, [g, f]);
  }

  // ----- A run that a rebuild cannot replay -----

  const BARS := [Bar("A", 2, 10.0)]
  const BUY_HALF := Intent(1, "A", Buy, 0.5, 1, 1, Some("theme"))
  const SELL_HALF_OF_IT := Intent(2, "A", Sell, 0.25, 2, 1, Some("theme"))

  lemma BuysHalf(at: Instant)
    ensures FillOne(NEW, BARS, Candidate(2, BUY_HALF), at)
         == Filled(Book([Fill(BUY_HALF, 250.0, 10.0, 2, at)], [Position("A", 250.0, 10.0, 2, "theme")]))
  {
    var c := Candidate(2, BUY_HALF);
    assert Open(BARS, "A", 2) == Some(10.0);
    assert Delta(NEW, BARS, c, 10.0) == 2500.0;
    assert Sized(Buy, 2500.0, 10.0, 0.0) == 250.0;
    assert [] + [Position("A", 250.0, 10.0, 2, "theme")] == [Position("A", 250.0, 10.0, 2, "theme")];
    assert [] + [Fill(BUY_HALF, 250.0, 10.0, 2, at)] == [Fill(BUY_HALF, 250.0, 10.0, 2, at)];
  }

  lemma SellsHalfOfIt(first: Instant, at: Instant)
    ensures var bought := Book([Fill(BUY_HALF, 250.0, 10.0, 2, first)], [Position("A", 250.0, 10.0, 2, "theme")]);
            var turn := FillOne(bought, BARS, Candidate(2, SELL_HALF_OF_IT), at);
            && turn.Filled?
            && turn.book.fills == [Fill(BUY_HALF, 250.0, 10.0, 2, first), Fill(SELL_HALF_OF_IT, 125.0, 10.0, 2, at)]
  {
    var buy := Fill(BUY_HALF, 250.0, 10.0, 2, first);
    var bought := Book([buy], [Position("A", 250.0, 10.0, 2, "theme")]);
    assert [buy][..0] == [];
    assert Cash([buy], Some(2)) == 2500.0 by { assert Proceeds(buy) == -2500.0; }
    assert Open(BARS, "A", 2) == Some(10.0);
    assert Worth(bought.positions, BARS, 2) == 2500.0;
    assert Held(bought.positions, "A") == 250.0;
    assert Delta(bought, BARS, Candidate(2, SELL_HALF_OF_IT), 10.0) == -1250.0;
    assert Sized(Sell, -1250.0, 10.0, 250.0) == 125.0;
  }

  lemma SaleReplaysFirst(buy: Fill, sell: Fill)
    requires buy.intent.side == Buy && sell.intent.side == Sell && buy.intent.ticker == sell.intent.ticker
    requires buy.day == sell.day && sell.filledAt < buy.filledAt
    requires DUST < sell.shares && 0.0 < sell.price
    ensures Rebuilding([buy, sell]) == Broken(ExceedsHeld)
  {
    assert Sort([sell], ReplayOrder) == [sell] by { SortOfSorted([sell], ReplayOrder); }
    assert [buy, sell][1..] == [sell];
    var sorted := Sort([buy, sell], ReplayOrder);
    assert sorted[0] == sell;
  }

  lemma BothAreQueued()
    ensures Queue(NEW, [BUY_HALF, SELL_HALF_OF_IT], BARS, None)
         == [Candidate(2, BUY_HALF), Candidate(2, SELL_HALF_OF_IT)]
  {
    var intents := [BUY_HALF, SELL_HALF_OF_IT];
    var found := [Candidate(2, BUY_HALF), Candidate(2, SELL_HALF_OF_IT)];
    FilterAll(intents, WithoutFill([]));
    assert Unfilled(intents, []) == intents;
    assert Candidates(BARS, [], None) == [];
    assert intents[1..] == [SELL_HALF_OF_IT] && [SELL_HALF_OF_IT][1..] == [];
    assert Candidates(BARS, [SELL_HALF_OF_IT], None) == [Candidate(2, SELL_HALF_OF_IT)];
    assert Candidates(BARS, intents, None) == found;
    SortOfSorted(found, CandidateOrder);
  }

  lemma RunOfOne(
    book: Book, intents: seq<Intent>, bars: seq<Bar>, now: nat -> Instant, next: Book)
    requires Settling(book, intents, bars, None, now).Settled?
    requires Settling(book, intents, bars, None, now).book == next
    ensures Run(book, [Settle(intents, bars, None)], now) == next
  {
    var op := Settle(intents, bars, None);
    assert Step(book, op, now) == next;
    assert [op][1..] == [];
  }

  lemma TwoTurns(
    book: Book, one: Book, two: Book, bars: seq<Bar>, a: Candidate, b: Candidate, now: nat -> Instant, waiting: nat)
    requires |one.fills| == |book.fills| + 1
    requires FillOne(book, bars, a, now(|book.fills|)) == Filled(one)
    requires FillOne(one, bars, b, now(|one.fills|)) == Filled(two)
    ensures FillAll(FillAt(bars), book, [a, b], now, 0, waiting) == Settled(two, 2, waiting)
  {
    var fill := FillAt(bars);
    assert [a, b][1..] == [b] && [b][1..] == [];
    assert fill(book, a, now(|book.fills|)) == Filled(one);
    assert fill(one, b, now(|one.fills|)) == Filled(two);
    assert FillAll(fill, two, [], now, 2, waiting) == Settled(two, 2, waiting);
    assert FillAll(fill, one, [b], now, 1, waiting) == Settled(two, 2, waiting);
  }

  /** The settlement of both intents: the purchase and then the sale. */
  lemma BothAreFilled(now: nat -> Instant) returns (sold: Book)
    ensures Settling(NEW, [BUY_HALF, SELL_HALF_OF_IT], BARS, None, now).Settled?
    ensures Settling(NEW, [BUY_HALF, SELL_HALF_OF_IT], BARS, None, now).book == sold
    ensures sold.fills == [Fill(BUY_HALF, 250.0, 10.0, 2, now(0)), Fill(SELL_HALF_OF_IT, 125.0, 10.0, 2, now(1))]
  {
    var empty, waiting := NEW, Waiting(NEW, [BUY_HALF, SELL_HALF_OF_IT], BARS, None);
    var buy, sell := Candidate(2, BUY_HALF), Candidate(2, SELL_HALF_OF_IT);
    BothAreQueued();
    BuysHalf(now(0));
    SellsHalfOfIt(now(0), now(1));
    var bought := FillOne(empty, BARS, buy, now(0)).book;
    sold := FillOne(bought, BARS, sell, now(1)).book;
    TwoTurns(empty, bought, sold, BARS, buy, sell, now, waiting);
  }

  /** The condition is needed, and a settlement can break it: from the empty account, one settlement
      buys half of the equity in a ticker and on the same day sells half of that. If the clock stepped
      back between the two, the rebuild meets the sale first and is refused. */
  lemma ClockStepBreaksReplay(now: nat -> Instant)
    requires now(1) < now(0)
    ensures var op := Settle([BUY_HALF, SELL_HALF_OF_IT], BARS, None);
            var book := Run(NEW, [op], now);
            && ValidOps([op]) && |book.fills| == 2 && Rebuilding(book.fills) == Broken(ExceedsHeld)
  {
    var sold := BothAreFilled(now);
    RunOfOne(NEW, [BUY_HALF, SELL_HALF_OF_IT], BARS, now, sold);
    SaleReplaysFirst(sold.fills[0], sold.fills[1]);
  }
}
