/** What a settlement does with each intent, in the fields of the intents, the bars and the book. */
module PaperOutcomes {
  import opened Sorting
  import opened PaperLedger
  import opened PaperLedgerTheorems
  import opened Wrappers

  // ----- Bars -----

  ghost predicate HasBar(bars: seq<Bar>, ticker: Ticker, day: Day) {
    exists b | b in bars :: b.ticker == ticker && b.day == day
  }

  /** The first bar listed for the ticker and the day opens at this price. */
  ghost predicate OpensAt(bars: seq<Bar>, ticker: Ticker, day: Day, price: real) {
    exists i | 0 <= i < |bars| ::
      && bars[i] == Bar(ticker, day, price)
      && forall j | 0 <= j < i :: bars[j].ticker != ticker || bars[j].day != day
  }

  lemma OpensLater(bars: seq<Bar>, ticker: Ticker, day: Day, price: real)
    requires bars != [] && (bars[0].ticker != ticker || bars[0].day != day)
    ensures OpensAt(bars, ticker, day, price) <==> OpensAt(bars[1..], ticker, day, price)
  {
    var rest := bars[1..];
    if OpensAt(rest, ticker, day, price) {
      var i :| 0 <= i < |rest| && rest[i] == Bar(ticker, day, price)
               && forall j | 0 <= j < i :: rest[j].ticker != ticker || rest[j].day != day;
      assert bars[i + 1] == Bar(ticker, day, price);
    }
    if OpensAt(bars, ticker, day, price) {
      var i :| 0 <= i < |bars| && bars[i] == Bar(ticker, day, price)
               && forall j | 0 <= j < i :: bars[j].ticker != ticker || bars[j].day != day;
      assert rest[i - 1] == Bar(ticker, day, price);
      assert forall j | 0 <= j < i - 1 :: rest[j] == bars[j + 1];
    }
  }

  lemma {:induction false} OpenExactly(bars: seq<Bar>, ticker: Ticker, day: Day)
    ensures Open(bars, ticker, day).Some? <==> HasBar(bars, ticker, day)
    ensures forall price :: Open(bars, ticker, day) == Some(price) <==> OpensAt(bars, ticker, day, price)
  {
    if bars != [] {
      assert bars == [bars[0]] + bars[1..];
      if bars[0].ticker == ticker && bars[0].day == day {
        assert bars[0] == Bar(ticker, day, bars[0].open);
      } else {
        OpenExactly(bars[1..], ticker, day);
        forall price ensures OpensAt(bars, ticker, day, price) <==> OpensAt(bars[1..], ticker, day, price) {
          OpensLater(bars, ticker, day, price);
        }
      }
    }
  }

  predicate InWindow(day: Day, after: Day, through: Option<Day>) {
    after < day && (through.Some? ==> day <= through.value)
  }

  /** The day of the ticker's first bar after a day, and not after the last day asked for. */
  ghost predicate FillsOn(bars: seq<Bar>, i: Intent, through: Option<Day>, day: Day) {
    && HasBar(bars, i.ticker, day) && InWindow(day, i.createdDay, through)
    && forall b | b in bars && b.ticker == i.ticker && InWindow(b.day, i.createdDay, through) :: day <= b.day
  }

  lemma NextDayExactly(bars: seq<Bar>, i: Intent, through: Option<Day>, day: Day)
    ensures NextDay(bars, i.ticker, i.createdDay, through) == Some(day) <==> FillsOn(bars, i, through, day)
  {
    var r := NextDay(bars, i.ticker, i.createdDay, through);
    OpenExactly(bars, i.ticker, day);
    if r.Some? { OpenExactly(bars, i.ticker, r.value); }
  }

  // ----- The queue -----

  ghost predicate HasFill(book: Book, i: Intent) {
    exists f | f in book.fills :: f.intent.id == i.id
  }

  /** The settlement takes each intent without a fill on its first day, and no other; by day, then by creation,
      then by identifier. */
  ghost predicate QueueIs(
    queue: seq<Candidate>, book: Book, intents: seq<Intent>, bars: seq<Bar>, through: Option<Day>)
  {
    && (forall c | c in queue ::
          c.intent in intents && !HasFill(book, c.intent) && FillsOn(bars, c.intent, through, c.day))
    && (forall i, day | i in intents && !HasFill(book, i) && FillsOn(bars, i, through, day) ::
          Candidate(day, i) in queue)
    && (forall k, l | 0 <= k < l < |queue| :: NotAfter(queue[k], queue[l]))
  }

  predicate NotAfter(a: Candidate, b: Candidate) {
    if a.day != b.day then a.day < b.day
    else if a.intent.created != b.intent.created then a.intent.created < b.intent.created
    else a.intent.id <= b.intent.id
  }

  ghost predicate Finds(found: seq<Candidate>, bars: seq<Bar>, intents: seq<Intent>, through: Option<Day>) {
    && (forall c | c in found :: c.intent in intents && FillsOn(bars, c.intent, through, c.day))
    && (forall i, day | i in intents && FillsOn(bars, i, through, day) :: Candidate(day, i) in found)
  }

  lemma {:induction false} CandidatesExactly(bars: seq<Bar>, intents: seq<Intent>, through: Option<Day>)
    ensures Finds(Candidates(bars, intents, through), bars, intents, through)
  {
    if intents != [] {
      var first, rest := intents[0], Candidates(bars, intents[1..], through);
      CandidatesExactly(bars, intents[1..], through);
      var day := NextDay(bars, first.ticker, first.createdDay, through);
      if day.Some? { NextDayExactly(bars, first, through, day.value); }
      forall d | FillsOn(bars, first, through, d) ensures Candidate(d, first) in Candidates(bars, intents, through) {
        NextDayExactly(bars, first, through, d);
      }
      assert intents == [first] + intents[1..];
    }
  }

  lemma QueueExactly(book: Book, intents: seq<Intent>, bars: seq<Bar>, through: Option<Day>)
    ensures QueueIs(Queue(book, intents, bars, through), book, intents, bars, through)
  {
    var open := Unfilled(intents, book.fills);
    var found, queue := Candidates(bars, open, through), Queue(book, intents, bars, through);
    CandidatesExactly(bars, open, through);
    SameMembers(found, queue);
    assert forall i | i in intents :: WithoutFill(book.fills)(i) <==> !HasFill(book, i);
    assert TotalPreorder(CandidateOrder);
    SortSorts(found, CandidateOrder);
    forall k, l | 0 <= k < l < |queue| ensures NotAfter(queue[k], queue[l]) {
      assert CandidateOrder(queue[k], queue[l]);
    }
  }

  /** The intents that have neither a fill nor a day to be filled on, which wait from the start. */
  ghost predicate NoDay(book: Book, bars: seq<Bar>, through: Option<Day>, i: Intent) {
    !HasFill(book, i) && forall day :: !FillsOn(bars, i, through, day)
  }

  ghost function NoDays(book: Book, bars: seq<Bar>, through: Option<Day>, intents: seq<Intent>): set<int> {
    set k | 0 <= k < |intents| && NoDay(book, bars, through, intents[k])
  }

  function Dayless(bars: seq<Bar>, through: Option<Day>): Intent -> bool {
    (i: Intent) => NextDay(bars, i.ticker, i.createdDay, through).None?
  }

  lemma {:induction false} DaylessAreLeftOut(bars: seq<Bar>, intents: seq<Intent>, through: Option<Day>)
    ensures |intents| - |Candidates(bars, intents, through)| == |Filter(intents, Dayless(bars, through))|
  {
    if intents != [] { DaylessAreLeftOut(bars, intents[1..], through); }
  }

  lemma {:induction false} WaitingExactly(book: Book, intents: seq<Intent>, bars: seq<Bar>, through: Option<Day>)
    ensures Waiting(book, intents, bars, through) == |NoDays(book, bars, through, intents)|
    decreases |intents|
  {
    if intents == [] {
      assert NoDays(book, bars, through, intents) == {};
    } else {
      var n := |intents| - 1;
      var front, last := intents[..n], intents[n];
      var dayless, open := Dayless(bars, through), WithoutFill(book.fills);
      WaitingExactly(book, front, bars, through);
      assert intents == front + [last];
      FilterConcat(front, [last], open);
      FilterConcat(Filter(front, open), Filter([last], open), dayless);
      DaylessAreLeftOut(bars, Unfilled(intents, book.fills), through);
      DaylessAreLeftOut(bars, Unfilled(front, book.fills), through);
      LastIsDayless(book, bars, through, last);
      NoDaysGrow(book, intents, bars, through, n);
    }
  }

  lemma LastIsDayless(book: Book, bars: seq<Bar>, through: Option<Day>, last: Intent)
    ensures |Filter(Filter([last], WithoutFill(book.fills)), Dayless(bars, through))|
         == if NoDay(book, bars, through, last) then 1 else 0
  {
    assert WithoutFill(book.fills)(last) <==> !HasFill(book, last);
    forall day
      ensures FillsOn(bars, last, through, day)
         <==> NextDay(bars, last.ticker, last.createdDay, through) == Some(day)
    {
      NextDayExactly(bars, last, through, day);
    }
    var r := NextDay(bars, last.ticker, last.createdDay, through);
    assert r.Some? ==> FillsOn(bars, last, through, r.value);
  }

  lemma NoDaysGrow(book: Book, intents: seq<Intent>, bars: seq<Bar>, through: Option<Day>, n: nat)
    requires |intents| == n + 1
    ensures |NoDays(book, bars, through, intents)|
         == |NoDays(book, bars, through, intents[..n])| + if NoDay(book, bars, through, intents[n]) then 1 else 0
  {
    assert NoDays(book, bars, through, intents)
        == NoDays(book, bars, through, intents[..n])
           + if NoDay(book, bars, through, intents[n]) then {n} else {};
  }

  // ----- Applying a fill -----

  ghost predicate Holds(ps: seq<Position>, ticker: Ticker) {
    exists p | p in ps :: p.ticker == ticker
  }

  lemma FindExactly(ps: seq<Position>, i: nat)
    requires UniqueTickers(ps) && i < |ps|
    ensures Find(ps, ps[i].ticker) == i && Held(ps, ps[i].ticker) == ps[i].shares
  {
  }

  lemma HeldOfNone(ps: seq<Position>, ticker: Ticker)
    requires !Holds(ps, ticker)
    ensures Find(ps, ticker) == |ps| && Held(ps, ticker) == 0.0
  {
  }

  /** The position takes the shares, at the average of what was paid. */
  predicate Averages(ps: seq<Position>, ps': seq<Position>, i: nat, shares: real, price: real)
    requires i < |ps|
  {
    && |ps'| == |ps|
    && ps' == ps[i := ps[i].(shares := ps[i].shares + shares, averageCost := ps'[i].averageCost)]
    && Times(ps'[i].averageCost, ps[i].shares + shares)
       == Times(ps[i].shares, ps[i].averageCost) + Times(shares, price)
  }

  /** A purchase goes into the ticker's position or opens one, at the end. */
  ghost predicate Bought(
    ps: seq<Position>, ps': seq<Position>, intent: Intent, shares: real, price: real, day: Day)
  {
    if Holds(ps, intent.ticker) then
      exists i: nat | i < |ps| && ps[i].ticker == intent.ticker :: Averages(ps, ps', i, shares, price)
    else
      intent.theme.Some? && ps' == ps + [Position(intent.ticker, shares, price, day, intent.theme.value)]
  }

  /** A sale takes the shares out of the ticker's position, and closes one of which no more than dust is left. */
  ghost predicate Sold(ps: seq<Position>, ps': seq<Position>, intent: Intent, shares: real) {
    exists i | 0 <= i < |ps| && ps[i].ticker == intent.ticker ::
      if ps[i].shares - shares < 0.000000001 then ps' == ps[..i] + ps[i + 1..]
      else ps' == ps[i := ps[i].(shares := ps[i].shares - shares)]
  }

  lemma BuyInto(ps: seq<Position>, intent: Intent, shares: real, price: real, day: Day, i: nat)
    requires UniqueTickers(ps) && Long(ps) && 0.0 < shares && intent.theme.Some?
    requires i < |ps| && ps[i].ticker == intent.ticker
    ensures var r := ApplyBuy(ps, intent, shares, price, day);
            r.Kept? && Averages(ps, r.positions, i, shares, price)
  {
    FindExactly(ps, i);
    DivTimes(Times(ps[i].shares, ps[i].averageCost) + Times(shares, price), ps[i].shares + shares);
  }

  lemma BuyIntoHeld(ps: seq<Position>, intent: Intent, shares: real, price: real, day: Day)
    requires UniqueTickers(ps) && Long(ps) && 0.0 < shares && intent.theme.Some? && Holds(ps, intent.ticker)
    ensures var r := ApplyBuy(ps, intent, shares, price, day);
            r.Kept? && Bought(ps, r.positions, intent, shares, price, day)
  {
    var i: nat :| i < |ps| && ps[i].ticker == intent.ticker;
    BuyInto(ps, intent, shares, price, day, i);
  }

  lemma BuyExactly(ps: seq<Position>, intent: Intent, shares: real, price: real, day: Day)
    requires UniqueTickers(ps) && Long(ps) && 0.0 < shares && 0.0 < price && intent.side == Buy
    ensures var r := Apply(ps, intent, shares, price, day);
            if intent.theme.None? then r == Broken(MissingDecision)
            else r.Kept? && Bought(ps, r.positions, intent, shares, price, day)
  {
    if intent.theme.Some? {
      if Holds(ps, intent.ticker) {
        BuyIntoHeld(ps, intent, shares, price, day);
      } else {
        HeldOfNone(ps, intent.ticker);
      }
    }
  }

  lemma SellExactly(ps: seq<Position>, intent: Intent, shares: real, price: real, day: Day, i: nat)
    requires UniqueTickers(ps) && 0.0 < shares && 0.0 < price && intent.side == Sell
    requires i < |ps| && ps[i].ticker == intent.ticker && shares <= ps[i].shares
    ensures var r := Apply(ps, intent, shares, price, day);
            r.Kept? && Sold(ps, r.positions, intent, shares)
  {
    FindExactly(ps, i);
  }

  /** The ticker's position has fewer shares than that, by more than dust. */
  ghost predicate Lacks(ps: seq<Position>, ticker: Ticker, shares: real) {
    if Holds(ps, ticker) then exists p | p in ps && p.ticker == ticker :: p.shares + 0.000000001 < shares
    else 0.000000001 < shares
  }

  lemma OversellExactly(ps: seq<Position>, intent: Intent, shares: real, price: real, day: Day)
    requires UniqueTickers(ps) && 0.0 < shares && 0.0 < price && intent.side == Sell
    ensures var r := Apply(ps, intent, shares, price, day);
            if Lacks(ps, intent.ticker, shares) then r == Broken(ExceedsHeld)
            else r.Kept? && if Holds(ps, intent.ticker) then Sold(ps, r.positions, intent, shares)
                            else r.positions == ps
  {
    if Holds(ps, intent.ticker) {
      var i :| 0 <= i < |ps| && ps[i].ticker == intent.ticker;
      FindExactly(ps, i);
      assert ps[i] in ps;
    } else {
      HeldOfNone(ps, intent.ticker);
    }
  }

  /** What a fill does to positions that are positive and listed once. */
  lemma ApplyExactly(ps: seq<Position>, intent: Intent, shares: real, price: real, day: Day)
    requires UniqueTickers(ps) && Long(ps)
    ensures var r := Apply(ps, intent, shares, price, day);
            if shares <= 0.0 || price <= 0.0 then r == Broken(InvalidEconomics)
            else if intent.side == Buy then
              if intent.theme.None? then r == Broken(MissingDecision)
              else r.Kept? && Bought(ps, r.positions, intent, shares, price, day)
            else if Lacks(ps, intent.ticker, shares) then r == Broken(ExceedsHeld)
            else r.Kept? && if Holds(ps, intent.ticker) then Sold(ps, r.positions, intent, shares)
                            else r.positions == ps
  {
    if 0.0 < shares && 0.0 < price {
      if intent.side == Buy {
        BuyExactly(ps, intent, shares, price, day);
      } else {
        OversellExactly(ps, intent, shares, price, day);
      }
    }
  }

  // ----- One candidate -----

  ghost predicate Behind(book: Book, day: Day) {
    exists f | f in book.fills :: day < f.day
  }

  ghost predicate Unpriced(book: Book, bars: seq<Bar>, day: Day) {
    exists p | p in book.positions :: !HasBar(bars, p.ticker, day)
  }

  /** The candidate's own open or that of a held ticker is not positive. */
  ghost predicate BadOpen(book: Book, bars: seq<Bar>, c: Candidate) {
    || (exists price: real | OpensAt(bars, c.intent.ticker, c.day, price) :: price <= 0.0)
    || (exists p, price: real | p in book.positions && OpensAt(bars, p.ticker, c.day, price) :: price <= 0.0)
  }

  /** What the ticker is to change by: its target share of the equity at that day's opens, less what is held. */
  ghost function Change(book: Book, bars: seq<Bar>, c: Candidate, price: real): real {
    Times(c.intent.target, Cash(book.fills, None) + Worth(book.positions, bars, c.day))
    - Times(Held(book.positions, c.intent.ticker), price)
  }

  /** What speaks against a candidate that neither is late nor waits. */
  ghost function Objection(book: Book, bars: seq<Bar>, c: Candidate, price: real): Option<Refusal> {
    var change := Change(book, bars, c, price);
    if BadOpen(book, bars, c) then Some(OpenInvalid)
    else if c.intent.side == Buy && change <= 0.0 then Some(BuyNotPositive)
    else if c.intent.side == Sell && 0.0 <= change then Some(SellNotNegative)
    else if c.intent.side == Buy && Cash(book.fills, None) < change then Some(InsufficientCash)
    else if c.intent.side == Buy && c.intent.theme.None? then Some(MissingDecision)
    else None
  }

  /** The fill trades the change at the day's open and is written last; the positions take it. */
  ghost predicate Fills(book: Book, next: Book, bars: seq<Bar>, c: Candidate, price: real, now: Instant)
    requires price != 0.0
  {
    var change := Change(book, bars, c, price);
    var shares := (if c.intent.side == Buy then change else -change) / price;
    && next.fills == book.fills + [Fill(c.intent, shares, price, c.day, now)]
    && if c.intent.side == Buy then Bought(book.positions, next.positions, c.intent, shares, price, c.day)
       else Sold(book.positions, next.positions, c.intent, shares)
  }

  ghost predicate Waits(book: Book, bars: seq<Bar>, c: Candidate) {
    !Behind(book, c.day) && Unpriced(book, bars, c.day)
  }

  ghost predicate Takes(book: Book, next: Book, bars: seq<Bar>, c: Candidate, now: Instant) {
    && !Behind(book, c.day) && !Unpriced(book, bars, c.day)
    && exists price: real ::
         && OpensAt(bars, c.intent.ticker, c.day, price) && Objection(book, bars, c, price).None?
         && price != 0.0 && Fills(book, next, bars, c, price, now)
  }

  ghost predicate Objects(book: Book, bars: seq<Bar>, c: Candidate, why: Refusal) {
    if Behind(book, c.day) then why == LateIntent
    else
      && !Unpriced(book, bars, c.day)
      && exists price: real ::
           OpensAt(bars, c.intent.ticker, c.day, price) && Objection(book, bars, c, price) == Some(why)
  }

  lemma BehindExactly(book: Book, day: Day)
    ensures IsLate(book.fills, day) <==> Behind(book, day)
    ensures !Behind(book, day) ==> Cash(book.fills, Some(day)) == Cash(book.fills, None)
  {
    if !IsLate(book.fills, day) { NothingLater(book.fills, day); }
  }

  lemma MarkedExactly(ps: seq<Position>, bars: seq<Bar>, day: Day)
    ensures AllMarked(ps, bars, day) <==> forall p | p in ps :: HasBar(bars, p.ticker, day)
    ensures AllMarked(ps, bars, day) ==>
              (GoodMarks(ps, bars, day)
               <==> forall p, price: real | p in ps && OpensAt(bars, p.ticker, day, price) :: 0.0 < price)
  {
    forall p | p in ps
      ensures Open(bars, p.ticker, day).Some? <==> HasBar(bars, p.ticker, day)
      ensures forall price :: Open(bars, p.ticker, day) == Some(price) <==> OpensAt(bars, p.ticker, day, price)
    {
      OpenExactly(bars, p.ticker, day);
    }
    if
      && AllMarked(ps, bars, day)
      && forall p, price: real | p in ps && OpensAt(bars, p.ticker, day, price) :: 0.0 < price
    {
      forall p | p in ps
        ensures Open(bars, p.ticker, day).Some? && 0.0 < Open(bars, p.ticker, day).value
      {
        assert OpensAt(bars, p.ticker, day, Open(bars, p.ticker, day).value);
      }
    }
  }

  lemma BadOpenExactly(book: Book, bars: seq<Bar>, c: Candidate, price: real)
    requires !Unpriced(book, bars, c.day) && OpensAt(bars, c.intent.ticker, c.day, price)
    ensures BadOpen(book, bars, c) <==> price <= 0.0 || !GoodMarks(book.positions, bars, c.day)
  {
    MarkedExactly(book.positions, bars, c.day);
    OpenExactly(bars, c.intent.ticker, c.day);
  }

  /** The guards of a candidate that is priced, and what is traded when none of them stops it. */
  lemma GuardsExactly(book: Book, bars: seq<Bar>, c: Candidate, price: real, now: Instant)
    requires !Behind(book, c.day) && !Unpriced(book, bars, c.day)
    requires OpensAt(bars, c.intent.ticker, c.day, price)
    ensures var r, change := FillOne(book, bars, c, now), Change(book, bars, c, price);
            if BadOpen(book, bars, c) then r == Fails(OpenInvalid)
            else if c.intent.side == Buy && change <= 0.0 then r == Fails(BuyNotPositive)
            else if c.intent.side == Sell && 0.0 <= change then r == Fails(SellNotNegative)
            else if c.intent.side == Buy && Cash(book.fills, None) < change then r == Fails(InsufficientCash)
            else
              && 0.0 < price && GoodMarks(book.positions, bars, c.day)
              && r == Place(book, c, Sized(c.intent.side, change, price, Held(book.positions, c.intent.ticker)),
                            price, now)
  {
    BehindExactly(book, c.day);
    MarkedExactly(book.positions, bars, c.day);
    OpenExactly(bars, c.intent.ticker, c.day);
    BadOpenExactly(book, bars, c, price);
  }

  lemma PlacedBuy(book: Book, bars: seq<Bar>, c: Candidate, price: real, now: Instant)
    requires Sane(book) && c.intent.side == Buy && 0.0 < price && 0.0 < Change(book, bars, c, price)
    ensures var change := Change(book, bars, c, price);
            var r := Place(book, c, Sized(Buy, change, price, Held(book.positions, c.intent.ticker)), price, now);
            if c.intent.theme.None? then r == Fails(MissingDecision)
            else r.Filled? && Fills(book, r.book, bars, c, price, now)
  {
    var change := Change(book, bars, c, price);
    PositiveShares(change, price);
    BuyExactly(book.positions, c.intent, change / price, price, c.day);
  }

  lemma SaleIsHeld(book: Book, bars: seq<Bar>, c: Candidate, price: real)
    requires Sane(book) && c.intent.Valid() && 0.0 < price && Change(book, bars, c, price) < 0.0
    requires !Behind(book, c.day) && GoodMarks(book.positions, bars, c.day)
    ensures 0.0 < -Change(book, bars, c, price) / price <= Held(book.positions, c.intent.ticker)
  {
    BehindExactly(book, c.day);
    SaleSize(book, bars, c, price);
  }

  lemma PlacedSale(book: Book, bars: seq<Bar>, c: Candidate, price: real, now: Instant)
    requires Sane(book) && c.intent.Valid() && c.intent.side == Sell && 0.0 < price
    requires !Behind(book, c.day) && GoodMarks(book.positions, bars, c.day)
    requires Change(book, bars, c, price) < 0.0
    ensures var change := Change(book, bars, c, price);
            var r := Place(book, c, Sized(Sell, change, price, Held(book.positions, c.intent.ticker)), price, now);
            r.Filled? && Fills(book, r.book, bars, c, price, now)
  {
    SaleIsHeld(book, bars, c, price);
    if !Holds(book.positions, c.intent.ticker) { HeldOfNone(book.positions, c.intent.ticker); }
    var i :| 0 <= i < |book.positions| && book.positions[i].ticker == c.intent.ticker;
    FindExactly(book.positions, i);
    SellExactly(book.positions, c.intent, -Change(book, bars, c, price) / price, price, c.day, i);
  }

  lemma ObjectionExactly(book: Book, bars: seq<Bar>, c: Candidate, price: real, now: Instant)
    requires Sane(book) && c.intent.Valid() && !Behind(book, c.day) && !Unpriced(book, bars, c.day)
    requires OpensAt(bars, c.intent.ticker, c.day, price)
    ensures match Objection(book, bars, c, price)
            case Some(why) => FillOne(book, bars, c, now) == Fails(why)
            case None =>
              && FillOne(book, bars, c, now).Filled? && price != 0.0
              && Fills(book, FillOne(book, bars, c, now).book, bars, c, price, now)
  {
    var change := Change(book, bars, c, price);
    GuardsExactly(book, bars, c, price, now);
    BadOpenExactly(book, bars, c, price);
    if !BadOpen(book, bars, c) && c.intent.side == Buy && 0.0 < change {
      PlacedBuy(book, bars, c, price, now);
    }
    if !BadOpen(book, bars, c) && c.intent.side == Sell && change < 0.0 {
      PlacedSale(book, bars, c, price, now);
    }
  }

  lemma AveragesOnce(
    ps: seq<Position>, a: seq<Position>, b: seq<Position>, i: nat, shares: real, price: real)
    requires Long(ps) && 0.0 < shares && i < |ps|
    requires Averages(ps, a, i, shares, price) && Averages(ps, b, i, shares, price)
    ensures a == b
  {
    TimesInjective(a[i].averageCost, b[i].averageCost, ps[i].shares + shares);
  }

  lemma BoughtOnce(
    ps: seq<Position>, a: seq<Position>, b: seq<Position>, intent: Intent, shares: real, price: real, day: Day)
    requires UniqueTickers(ps) && Long(ps) && 0.0 < shares
    requires Bought(ps, a, intent, shares, price, day) && Bought(ps, b, intent, shares, price, day)
    ensures a == b
  {
    if Holds(ps, intent.ticker) {
      var i: nat :| i < |ps| && ps[i].ticker == intent.ticker && Averages(ps, a, i, shares, price);
      var j: nat :| j < |ps| && ps[j].ticker == intent.ticker && Averages(ps, b, j, shares, price);
      assert i == j;
      AveragesOnce(ps, a, b, i, shares, price);
    }
  }

  lemma FillsOnce(book: Book, a: Book, b: Book, bars: seq<Bar>, c: Candidate, price: real, now: Instant)
    requires Sane(book) && 0.0 < price
    requires c.intent.side == Buy ==> 0.0 < Change(book, bars, c, price)
    requires Fills(book, a, bars, c, price, now) && Fills(book, b, bars, c, price, now)
    ensures a == b
  {
    if c.intent.side == Buy {
      var change := Change(book, bars, c, price);
      PositiveShares(change, price);
      BoughtOnce(book.positions, a.positions, b.positions, c.intent, change / price, price, c.day);
    }
  }

  lemma TakesOnce(book: Book, a: Book, b: Book, bars: seq<Bar>, c: Candidate, now: Instant)
    requires Sane(book) && Takes(book, a, bars, c, now) && Takes(book, b, bars, c, now)
    ensures a == b
  {
    var price: real :| OpensAt(bars, c.intent.ticker, c.day, price) && Objection(book, bars, c, price).None?
                       && price != 0.0 && Fills(book, a, bars, c, price, now);
    OpenExactly(bars, c.intent.ticker, c.day);
    BadOpenExactly(book, bars, c, price);
    FillsOnce(book, a, b, bars, c, price, now);
  }

  /** A candidate waits, is filled or fails the settlement exactly as the tables say. */
  lemma CandidateExactly(book: Book, bars: seq<Bar>, c: Candidate, now: Instant)
    requires Sane(book) && c.intent.Valid() && HasBar(bars, c.intent.ticker, c.day)
    ensures FillOne(book, bars, c, now) == Awaits <==> Waits(book, bars, c)
    ensures forall next :: FillOne(book, bars, c, now) == Filled(next) <==> Takes(book, next, bars, c, now)
    ensures forall why :: FillOne(book, bars, c, now) == Fails(why) <==> Objects(book, bars, c, why)
  {
    var r := FillOne(book, bars, c, now);
    BehindExactly(book, c.day);
    MarkedExactly(book.positions, bars, c.day);
    if !Behind(book, c.day) && !Unpriced(book, bars, c.day) {
      OpenExactly(bars, c.intent.ticker, c.day);
      var price := Open(bars, c.intent.ticker, c.day).value;
      assert OpensAt(bars, c.intent.ticker, c.day, price);
      ObjectionExactly(book, bars, c, price, now);
      if r.Filled? {
        assert Takes(book, r.book, bars, c, now);
        forall next | Takes(book, next, bars, c, now) ensures next == r.book {
          TakesOnce(book, next, r.book, bars, c, now);
        }
      }
    }
  }

  // ----- A whole settlement -----

  /** The books between the candidates: one that waits leaves the book as it is, any other is filled. */
  ghost predicate Trail(
    books: seq<Book>, book: Book, bars: seq<Bar>, cs: seq<Candidate>, now: nat -> Instant)
  {
    && 0 < |books| <= |cs| + 1 && books[0] == book
    && forall k: nat | k + 1 < |books| :: Turns(books[k], books[k + 1], bars, cs[k], now(|books[k].fills|))
  }

  ghost predicate Turns(book: Book, next: Book, bars: seq<Bar>, c: Candidate, now: Instant) {
    if Waits(book, bars, c) then next == book else Takes(book, next, bars, c, now)
  }

  /** The settlement comes to a candidate that objects. */
  ghost predicate Stops(
    books: seq<Book>, book: Book, bars: seq<Bar>, cs: seq<Candidate>, now: nat -> Instant, why: Refusal)
  {
    Trail(books, book, bars, cs, now) && |books| <= |cs| && Objects(books[|books| - 1], bars, cs[|books| - 1], why)
  }

  ghost predicate Ready(bars: seq<Bar>, cs: seq<Candidate>) {
    forall c | c in cs :: c.intent.Valid() && HasBar(bars, c.intent.ticker, c.day)
  }

  lemma TrailExtends(
    books: seq<Book>, book: Book, next: Book, bars: seq<Bar>, cs: seq<Candidate>, now: nat -> Instant)
    requires cs != [] && Trail(books, next, bars, cs[1..], now)
    requires Turns(book, next, bars, cs[0], now(|book.fills|))
    ensures Trail([book] + books, book, bars, cs, now)
  {
    var all := [book] + books;
    forall k: nat | k + 1 < |all| ensures Turns(all[k], all[k + 1], bars, cs[k], now(|all[k].fills|)) {
      if k > 0 { assert all[k] == books[k - 1] && cs[k] == cs[1..][k - 1]; }
    }
  }

  lemma TrailRest(books: seq<Book>, book: Book, bars: seq<Bar>, cs: seq<Candidate>, now: nat -> Instant)
    requires cs != [] && |books| > 1 && Trail(books, book, bars, cs, now)
    ensures Turns(book, books[1], bars, cs[0], now(|book.fills|))
    ensures Trail(books[1..], books[1], bars, cs[1..], now)
  {
    forall k: nat | k + 1 < |books[1..]|
      ensures Turns(books[1..][k], books[1..][k + 1], bars, cs[1..][k], now(|books[1..][k].fills|))
    {
      assert Turns(books[k + 1], books[k + 2], bars, cs[k + 1], now(|books[k + 1].fills|));
    }
  }

  ghost predicate Raises(
    book: Book, bars: seq<Bar>, cs: seq<Candidate>, now: nat -> Instant, why: Refusal)
  {
    exists books :: Stops(books, book, bars, cs, now, why)
  }

  ghost predicate Ends(book: Book, bars: seq<Bar>, cs: seq<Candidate>, now: nat -> Instant, end: Book) {
    exists books :: Trail(books, book, bars, cs, now) && |books| == |cs| + 1 && books[|cs|] == end
  }

  ghost predicate Answers(
    r: Outcome, book: Book, bars: seq<Bar>, cs: seq<Candidate>, now: nat -> Instant)
  {
    && (forall why :: r == Raised(why) <==> Raises(book, bars, cs, now, why))
    && (r.Settled? ==> Ends(book, bars, cs, now, r.book))
  }

  lemma NoCandidates(book: Book, bars: seq<Bar>, now: nat -> Instant)
    ensures Ends(book, bars, [], now, book)
  {
    assert Trail([book], book, bars, [], now);
  }

  lemma FirstObjects(book: Book, bars: seq<Bar>, cs: seq<Candidate>, now: nat -> Instant, why: Refusal)
    requires cs != []
    requires !Waits(book, bars, cs[0]) && forall next :: !Takes(book, next, bars, cs[0], now(|book.fills|))
    ensures Raises(book, bars, cs, now, why) <==> Objects(book, bars, cs[0], why)
  {
    if Objects(book, bars, cs[0], why) {
      assert Stops([book], book, bars, cs, now, why);
    }
    if Raises(book, bars, cs, now, why) {
      var books :| Stops(books, book, bars, cs, now, why);
      if |books| > 1 { TrailRest(books, book, bars, cs, now); }
    }
  }

  lemma RestRaises(
    book: Book, next: Book, bars: seq<Bar>, cs: seq<Candidate>, now: nat -> Instant, why: Refusal)
    requires cs != [] && Turns(book, next, bars, cs[0], now(|book.fills|))
    requires Raises(next, bars, cs[1..], now, why)
    ensures Raises(book, bars, cs, now, why)
  {
    var books :| Stops(books, next, bars, cs[1..], now, why);
    TrailExtends(books, book, next, bars, cs, now);
    assert Stops([book] + books, book, bars, cs, now, why);
  }

  lemma RaisesInRest(
    book: Book, next: Book, bars: seq<Bar>, cs: seq<Candidate>, now: nat -> Instant, why: Refusal)
    requires cs != [] && forall b | Turns(book, b, bars, cs[0], now(|book.fills|)) :: b == next
    requires !Objects(book, bars, cs[0], why) && Raises(book, bars, cs, now, why)
    ensures Raises(next, bars, cs[1..], now, why)
  {
    var books :| Stops(books, book, bars, cs, now, why);
    TrailRest(books, book, bars, cs, now);
    assert Stops(books[1..], next, bars, cs[1..], now, why);
  }

  lemma RestEnds(book: Book, next: Book, bars: seq<Bar>, cs: seq<Candidate>, now: nat -> Instant, end: Book)
    requires cs != [] && Turns(book, next, bars, cs[0], now(|book.fills|))
    requires Ends(next, bars, cs[1..], now, end)
    ensures Ends(book, bars, cs, now, end)
  {
    var books :| Trail(books, next, bars, cs[1..], now) && |books| == |cs| && books[|cs| - 1] == end;
    TrailExtends(books, book, next, bars, cs, now);
    assert ([book] + books)[|cs|] == end;
  }

  /** When the first candidate does not object, the loop goes on from the book it leaves. */
  lemma FirstPasses(book: Book, next: Book, bars: seq<Bar>, cs: seq<Candidate>, now: nat -> Instant, r: Outcome)
    requires cs != [] && forall b :: Turns(book, b, bars, cs[0], now(|book.fills|)) <==> b == next
    requires forall why :: !Objects(book, bars, cs[0], why)
    requires Answers(r, next, bars, cs[1..], now)
    ensures Answers(r, book, bars, cs, now)
  {
    forall why ensures Raises(book, bars, cs, now, why) <==> Raises(next, bars, cs[1..], now, why) {
      if Raises(next, bars, cs[1..], now, why) { RestRaises(book, next, bars, cs, now, why); }
      if Raises(book, bars, cs, now, why) { RaisesInRest(book, next, bars, cs, now, why); }
    }
    if r.Settled? { RestEnds(book, next, bars, cs, now, r.book); }
  }

  lemma {:induction false} LoopAnswers(
    book: Book, bars: seq<Bar>, cs: seq<Candidate>, now: nat -> Instant, settled: nat, awaiting: nat)
    requires Sane(book) && Ready(bars, cs)
    ensures Answers(FillAll(FillAt(bars), book, cs, now, settled, awaiting), book, bars, cs, now)
    decreases |cs|
  {
    if cs == [] {
      NoCandidates(book, bars, now);
    } else {
      assert cs[0] in cs;
      var turn := FillOne(book, bars, cs[0], now(|book.fills|));
      CandidateExactly(book, bars, cs[0], now(|book.fills|));
      match turn
      case Fails(_) =>
        forall why ensures Raises(book, bars, cs, now, why) <==> Objects(book, bars, cs[0], why) {
          FirstObjects(book, bars, cs, now, why);
        }
      case Awaits =>
        LoopAnswers(book, bars, cs[1..], now, settled, awaiting + 1);
        FirstPasses(book, book, bars, cs, now, FillAll(FillAt(bars), book, cs[1..], now, settled, awaiting + 1));
      case Filled(next) =>
        FillIsSelfFinancing(book, next, bars, cs[0], now(|book.fills|));
        LoopAnswers(next, bars, cs[1..], now, settled + 1, awaiting);
        FirstPasses(book, next, bars, cs, now, FillAll(FillAt(bars), next, cs[1..], now, settled + 1, awaiting));
    }
  }

  lemma QueueIsReady(book: Book, intents: seq<Intent>, bars: seq<Bar>, through: Option<Day>)
    requires ValidIntents(intents)
    ensures Ready(bars, Queue(book, intents, bars, through))
  {
    QueueExactly(book, intents, bars, through);
  }

  /** In every reachable account, a settlement raises exactly when, at some candidate its queue comes to, the
      tables object; otherwise it ends with the book that the candidates leave in turn. */
  lemma SettlementExactly(
    ops: seq<Op>, now: nat -> Instant, intents: seq<Intent>, bars: seq<Bar>, through: Option<Day>)
    requires ValidOps(ops) && ValidIntents(intents)
    ensures var book := Run(NEW, ops, now);
            Answers(Settling(book, intents, bars, through, now), book, bars,
                    Queue(book, intents, bars, through), now)
  {
    var book := Run(NEW, ops, now);
    RunKeepsSane(NEW, ops, now);
    QueueIsReady(book, intents, bars, through);
    LoopAnswers(book, bars, Queue(book, intents, bars, through), now, 0, Waiting(book, intents, bars, through));
  }

  // ----- Rebuilding -----

  /** Earlier by day, then by stamp, then by identifier. */
  predicate StampedNoLater(a: Fill, b: Fill) {
    if a.day != b.day then a.day < b.day
    else if a.filledAt != b.filledAt then a.filledAt < b.filledAt
    else a.intent.id <= b.intent.id
  }

  /** A rebuild applies the fills there are, each once, in the order of their stamps to an empty table. */
  lemma RebuildExactly(fills: seq<Fill>, order: seq<Fill>)
    requires order == Sort(fills, ReplayOrder)
    ensures multiset(order) == multiset(fills) && Rebuilding(fills) == Replay([], order)
    ensures forall i, j | 0 <= i < j < |order| :: StampedNoLater(order[i], order[j])
  {
    assert TotalPreorder(ReplayOrder);
    SortSorts(fills, ReplayOrder);
    forall i, j | 0 <= i < j < |order| ensures StampedNoLater(order[i], order[j]) {
      assert ReplayOrder(order[i], order[j]);
    }
  }
}
