/** The paper account: intents filled at a later session's open to an exact target weight, the
    positions they leave, and the replay that rebuilds those positions. Arithmetic is exact. */
module PaperLedger {
  import opened Sorting
  import opened Wrappers

  type Ticker = string
  type Day = int
  type Instant = int
  type Id = int

  datatype Side = Buy | Sell

  /** `theme` is that of the intent's decision; None when the decision is not stored. */
  datatype Intent = Intent(
    id: Id, ticker: Ticker, side: Side, target: real, created: Instant, createdDay: Day,
    theme: Option<string>)
  {
    predicate Valid() {
      0.0 <= target <= 1.0
    }
  }

  datatype Bar = Bar(ticker: Ticker, day: Day, open: real)

  datatype Fill = Fill(intent: Intent, shares: real, price: real, day: Day, filledAt: Instant)

  datatype Position = Position(
    ticker: Ticker, shares: real, averageCost: real, openedOn: Day, theme: string)

  datatype Book = Book(fills: seq<Fill>, positions: seq<Position>)

  datatype Refusal =
    | InvalidEconomics | MissingDecision | ExceedsHeld | LateIntent | OpenInvalid
    | BuyNotPositive | SellNotNegative | InsufficientCash | DivisionByZero

  const STARTING_CASH: real := 5000.0
  const DUST: real := 0.000000001

  // ----- Cash and positions -----

  function Times(a: real, b: real): real {
    a * b
  }

  /** What a fill adds to cash. */
  function Proceeds(f: Fill): real {
    if f.intent.side == Buy then -Times(f.shares, f.price) else Times(f.shares, f.price)
  }

  function Cash(fills: seq<Fill>, upTo: Option<Day>): real {
    if fills == [] then STARTING_CASH
    else
      var last := fills[|fills| - 1];
      Cash(fills[..|fills| - 1], upTo)
      + if upTo.None? || last.day <= upTo.value then Proceeds(last) else 0.0
  }

  function Find(ps: seq<Position>, ticker: Ticker): (i: nat)
    ensures i <= |ps| && (i < |ps| ==> ps[i].ticker == ticker)
    ensures forall j | 0 <= j < i :: ps[j].ticker != ticker
  {
    if ps == [] || ps[0].ticker == ticker then 0 else 1 + Find(ps[1..], ticker)
  }

  function Held(ps: seq<Position>, ticker: Ticker): real {
    var i := Find(ps, ticker);
    if i < |ps| then ps[i].shares else 0.0
  }

  datatype Applied = Kept(positions: seq<Position>) | Broken(why: Refusal)

  function ApplyBuy(ps: seq<Position>, intent: Intent, shares: real, price: real, day: Day): Applied
    requires 0.0 < shares
  {
    var i := Find(ps, intent.ticker);
    if intent.theme.None? then Broken(MissingDecision)
    else if i == |ps| then Kept(ps + [Position(intent.ticker, shares, price, day, intent.theme.value)])
    else
      var held := ps[i].shares;
      var total := held + shares;
      if total == 0.0 then Broken(DivisionByZero)
      else
        var average := (Times(held, ps[i].averageCost) + Times(shares, price)) / total;
        Kept(ps[i := ps[i].(shares := total, averageCost := average)])
  }

  function ApplySell(ps: seq<Position>, intent: Intent, shares: real): Applied {
    var i := Find(ps, intent.ticker);
    var held := Held(ps, intent.ticker);
    if held + DUST < shares then Broken(ExceedsHeld)
    else if i == |ps| then Kept(ps)
    else if held - shares < DUST then Kept(ps[..i] + ps[i + 1..])
    else Kept(ps[i := ps[i].(shares := held - shares)])
  }

  function Apply(ps: seq<Position>, intent: Intent, shares: real, price: real, day: Day): Applied {
    if shares <= 0.0 || price <= 0.0 then Broken(InvalidEconomics)
    else if intent.side == Buy then ApplyBuy(ps, intent, shares, price, day)
    else ApplySell(ps, intent, shares)
  }

  // ----- Prices -----

  function Open(bars: seq<Bar>, ticker: Ticker, day: Day): Option<real> {
    if bars == [] then None
    else if bars[0].ticker == ticker && bars[0].day == day then Some(bars[0].open)
    else Open(bars[1..], ticker, day)
  }

  /** The first day after `after`, and not after `through`, with a bar for the ticker. */
  function NextDay(bars: seq<Bar>, ticker: Ticker, after: Day, through: Option<Day>): (r: Option<Day>)
    ensures r.Some? ==>
              && after < r.value && (through.Some? ==> r.value <= through.value)
              && Open(bars, ticker, r.value).Some?
    ensures forall b | b in bars && b.ticker == ticker && after < b.day
                       && (through.None? || b.day <= through.value) :: r.Some? && r.value <= b.day
  {
    if bars == [] then None
    else
      var b, rest := bars[0], NextDay(bars[1..], ticker, after, through);
      if b.ticker == ticker && after < b.day && (through.None? || b.day <= through.value)
         && (rest.None? || b.day < rest.value) then Some(b.day) else rest
  }

  predicate AllMarked(ps: seq<Position>, bars: seq<Bar>, day: Day) {
    forall p | p in ps :: Open(bars, p.ticker, day).Some?
  }

  function Mark(p: Position, bars: seq<Bar>, day: Day): real {
    match Open(bars, p.ticker, day)
    case Some(price) => Times(p.shares, price)
    case None => 0.0
  }

  /** The positions at the day's opens. */
  function Worth(ps: seq<Position>, bars: seq<Bar>, day: Day): real {
    if ps == [] then 0.0 else Mark(ps[0], bars, day) + Worth(ps[1..], bars, day)
  }

  predicate GoodMarks(ps: seq<Position>, bars: seq<Bar>, day: Day) {
    forall p | p in ps ::
      match Open(bars, p.ticker, day)
      case Some(price) => 0.0 < price
      case None => false
  }

  // ----- Settlement -----

  datatype Candidate = Candidate(day: Day, intent: Intent)

  predicate CandidateOrder(a: Candidate, b: Candidate) {
    || a.day < b.day
    || (a.day == b.day
        && (a.intent.created < b.intent.created
            || (a.intent.created == b.intent.created && a.intent.id <= b.intent.id)))
  }

  function WithoutFill(fills: seq<Fill>): Intent -> bool {
    (i: Intent) => forall f | f in fills :: f.intent.id != i.id
  }

  function Unfilled(intents: seq<Intent>, fills: seq<Fill>): seq<Intent> {
    Filter(intents, WithoutFill(fills))
  }

  function Candidates(bars: seq<Bar>, intents: seq<Intent>, through: Option<Day>): (r: seq<Candidate>)
    ensures |r| <= |intents|
  {
    if intents == [] then []
    else
      var day := NextDay(bars, intents[0].ticker, intents[0].createdDay, through);
      (if day.Some? then [Candidate(day.value, intents[0])] else [])
      + Candidates(bars, intents[1..], through)
  }

  predicate IsLate(fills: seq<Fill>, day: Day) {
    exists f | f in fills :: day < f.day
  }

  function Delta(book: Book, bars: seq<Bar>, c: Candidate, price: real): real {
    var equity := Cash(book.fills, Some(c.day)) + Worth(book.positions, bars, c.day);
    Times(c.intent.target, equity) - Times(Held(book.positions, c.intent.ticker), price)
  }

  function Smaller(a: real, b: real): real {
    if a <= b then a else b
  }

  /** How many shares trade for a change of value. */
  function Sized(side: Side, delta: real, price: real, held: real): real
    requires 0.0 < price
  {
    var shares := (if delta < 0.0 then -delta else delta) / price;
    if side == Sell then Smaller(shares, held) else shares
  }

  datatype Turn = Filled(book: Book) | Awaits | Fails(why: Refusal)

  function Place(book: Book, c: Candidate, shares: real, price: real, now: Instant): Turn {
    match Apply(book.positions, c.intent, shares, price, c.day)
    case Broken(why) => Fails(why)
    case Kept(ps) => Filled(Book(book.fills + [Fill(c.intent, shares, price, c.day, now)], ps))
  }

  /** One turn of the settlement loop. */
  function FillOne(book: Book, bars: seq<Bar>, c: Candidate, now: Instant): Turn {
    if IsLate(book.fills, c.day) then Fails(LateIntent)
    else if !AllMarked(book.positions, bars, c.day) then Awaits
    else
      match Open(bars, c.intent.ticker, c.day)
      case None => Fails(OpenInvalid)
      case Some(price) =>
        if price <= 0.0 || !GoodMarks(book.positions, bars, c.day) then Fails(OpenInvalid)
        else
          var delta := Delta(book, bars, c, price);
          if c.intent.side == Buy && delta <= 0.0 then Fails(BuyNotPositive)
          else if c.intent.side == Sell && 0.0 <= delta then Fails(SellNotNegative)
          else if c.intent.side == Buy && Cash(book.fills, Some(c.day)) < delta then
            Fails(InsufficientCash)
          else
            Place(book, c, Sized(c.intent.side, delta, price, Held(book.positions, c.intent.ticker)),
                  price, now)
  }

  datatype Outcome = Raised(why: Refusal) | Settled(book: Book, settled: nat, awaiting: nat)

  type Filler = (Book, Candidate, Instant) -> Turn

  function FillAt(bars: seq<Bar>): Filler {
    (book, c, now) => FillOne(book, bars, c, now)
  }

  /** The loop, for any way of filling one candidate; `now(n)` is the clock when the `n`-th fill is
      written. */
  function FillAll(
    fill: Filler, book: Book, cs: seq<Candidate>, now: nat -> Instant, settled: nat, awaiting: nat)
    : Outcome
    decreases |cs|
  {
    if cs == [] then Settled(book, settled, awaiting)
    else
      match fill(book, cs[0], now(|book.fills|))
      case Fails(why) => Raised(why)
      case Awaits => FillAll(fill, book, cs[1..], now, settled, awaiting + 1)
      case Filled(next) => FillAll(fill, next, cs[1..], now, settled + 1, awaiting)
  }

  /** The intents without a fill that have a bar to fill at, in settlement order. */
  function Queue(book: Book, intents: seq<Intent>, bars: seq<Bar>, through: Option<Day>): seq<Candidate> {
    Sort(Candidates(bars, Unfilled(intents, book.fills), through), CandidateOrder)
  }

  /** How many intents without a fill have no bar yet. */
  function Waiting(book: Book, intents: seq<Intent>, bars: seq<Bar>, through: Option<Day>): nat {
    var open := Unfilled(intents, book.fills);
    |open| - |Candidates(bars, open, through)|
  }

  function Settling(
    book: Book, intents: seq<Intent>, bars: seq<Bar>, through: Option<Day>, now: nat -> Instant)
    : Outcome
  {
    FillAll(FillAt(bars), book, Queue(book, intents, bars, through), now, 0,
            Waiting(book, intents, bars, through))
  }

  // ----- Replay -----

  predicate ReplayOrder(a: Fill, b: Fill) {
    || a.day < b.day
    || (a.day == b.day
        && (a.filledAt < b.filledAt
            || (a.filledAt == b.filledAt && a.intent.id <= b.intent.id)))
  }

  function Replay(ps: seq<Position>, fills: seq<Fill>): Applied
    decreases |fills|
  {
    if fills == [] then Kept(ps)
    else
      var f := fills[0];
      match Apply(ps, f.intent, f.shares, f.price, f.day)
      case Broken(why) => Broken(why)
      case Kept(next) => Replay(next, fills[1..])
  }

  function Rebuilding(fills: seq<Fill>): Applied {
    Replay([], Sort(fills, ReplayOrder))
  }

  class Ledger {
    var fills: seq<Fill>
    var positions: seq<Position>

    function Contents(): Book
      reads this
    {
      Book(fills, positions)
    }

    constructor ()
      ensures Contents() == Book([], [])
    {
      fills, positions := [], [];
    }

    method CashBalance(upTo: Option<Day>) returns (cash: real)
      ensures cash == Cash(fills, upTo)
    {
      cash := STARTING_CASH;
      for i := 0 to |fills|
        invariant cash == Cash(fills[..i], upTo)
      {
        var f := fills[i];
        assert fills[..i + 1][..i] == fills[..i];
        if upTo.None? || f.day <= upTo.value {
          cash := cash + Times(f.shares, f.price) * (if f.intent.side == Buy then -1.0 else 1.0);
        }
      }
      assert fills[..|fills|] == fills;
    }

    method MarkAll(bars: seq<Bar>, day: Day) returns (worth: real)
      ensures worth == Worth(positions, bars, day)
    {
      worth := 0.0;
      for i := 0 to |positions|
        invariant worth + Worth(positions[i..], bars, day) == Worth(positions, bars, day)
      {
        assert positions[i..][1..] == positions[i + 1..];
        worth := worth + Mark(positions[i], bars, day);
      }
    }

    method ApplyFill(intent: Intent, shares: real, price: real, day: Day) returns (ok: bool)
      modifies this`positions
      ensures ok <==> Apply(old(positions), intent, shares, price, day).Kept?
      ensures positions == if ok then Apply(old(positions), intent, shares, price, day).positions
                           else old(positions)
    {
      var i := Find(positions, intent.ticker);
      var held := if i < |positions| then positions[i].shares else 0.0;
      if shares <= 0.0 || price <= 0.0 {
        return false;
      }
      if intent.side == Buy {
        if intent.theme.None? || (i < |positions| && held + shares == 0.0) {
          return false;
        }
        if i == |positions| {
          positions := positions + [Position(intent.ticker, shares, price, day, intent.theme.value)];
        } else {
          var average := (Times(held, positions[i].averageCost) + Times(shares, price)) / (held + shares);
          positions := positions[i := positions[i].(shares := held + shares, averageCost := average)];
        }
      } else {
        if held + DUST < shares {
          return false;
        }
        if i < |positions| {
          if held - shares < DUST {
            positions := positions[..i] + positions[i + 1..];
          } else {
            positions := positions[i := positions[i].(shares := held - shares)];
          }
        }
      }
      return true;
    }

    /** Write the fill and apply it to the positions. */
    method Write(c: Candidate, shares: real, price: real, now: Instant) returns (turn: Turn)
      modifies this
      ensures turn == Place(old(Contents()), c, shares, price, now)
      ensures Contents() == if turn.Filled? then turn.book else old(Contents())
    {
      var was := fills;
      fills := fills + [Fill(c.intent, shares, price, c.day, now)];
      var ok := ApplyFill(c.intent, shares, price, c.day);
      if !ok {
        fills := was;
        return Fails(Apply(positions, c.intent, shares, price, c.day).why);
      }
      return Filled(Contents());
    }

    /** One candidate: fill it, leave it waiting, or fail the settlement. */
    method FillCandidate(bars: seq<Bar>, c: Candidate, now: Instant) returns (turn: Turn)
      modifies this
      ensures turn == FillOne(old(Contents()), bars, c, now)
      ensures Contents() == if turn.Filled? then turn.book else old(Contents())
    {
      if IsLate(fills, c.day) {
        return Fails(LateIntent);
      }
      if !AllMarked(positions, bars, c.day) {
        return Awaits;
      }
      var cash := CashBalance(Some(c.day));
      var open := Open(bars, c.intent.ticker, c.day);
      if open.None? || open.value <= 0.0 || !GoodMarks(positions, bars, c.day) {
        return Fails(OpenInvalid);
      }
      var price := open.value;
      var worth := MarkAll(bars, c.day);
      var held := Held(positions, c.intent.ticker);
      var delta := Times(c.intent.target, cash + worth) - Times(held, price);
      if c.intent.side == Buy && delta <= 0.0 {
        return Fails(BuyNotPositive);
      }
      if c.intent.side == Sell && 0.0 <= delta {
        return Fails(SellNotNegative);
      }
      if c.intent.side == Buy && cash < delta {
        return Fails(InsufficientCash);
      }
      turn := Write(c, Sized(c.intent.side, delta, price, held), price, now);
    }

    /** The loop over the candidates, stopping at the first that fails. */
    method FillEach(bars: seq<Bar>, cs: seq<Candidate>, now: nat -> Instant, waiting: nat)
      returns (r: Outcome)
      modifies this
      ensures r == FillAll(FillAt(bars), old(Contents()), cs, now, 0, waiting)
      ensures r.Settled? ==> Contents() == r.book
    {
      var settled: nat, awaiting := 0, waiting;
      for i := 0 to |cs|
        invariant FillAll(FillAt(bars), old(Contents()), cs, now, 0, waiting)
               == FillAll(FillAt(bars), Contents(), cs[i..], now, settled, awaiting)
      {
        ghost var before, at := Contents(), now(|fills|);
        assert cs[i..][0] == cs[i] && cs[i..][1..] == cs[i + 1..];
        var turn := FillCandidate(bars, cs[i], now(|fills|));
        assert turn == FillAt(bars)(before, cs[i], at);
        match turn {
        case Fails(why) =>
          return Raised(why);
        case Awaits =>
          awaiting := awaiting + 1;
        case Filled(_) =>
          settled := settled + 1;
        }
      }
      return Settled(Contents(), settled, awaiting);
    }

    /** The whole settlement is one transaction: a failure leaves the ledger as it was. */
    method Settle(intents: seq<Intent>, bars: seq<Bar>, through: Option<Day>, now: nat -> Instant)
      returns (r: Outcome)
      modifies this
      ensures r == Settling(old(Contents()), intents, bars, through, now)
      ensures Contents() == if r.Settled? then r.book else old(Contents())
    {
      var before := Contents();
      var queue := Queue(before, intents, bars, through);
      var waiting := Waiting(before, intents, bars, through);
      r := FillEach(bars, queue, now, waiting);
      if r.Raised? {
        fills, positions := before.fills, before.positions;
      }
    }

    /** Rebuild the positions from the fills; a failure leaves them as they were. */
    method RebuildPositions() returns (ok: bool)
      modifies this`positions
      ensures ok <==> Rebuilding(fills).Kept?
      ensures positions == if ok then Rebuilding(fills).positions else old(positions)
    {
      var ordered, was := Sort(fills, ReplayOrder), positions;
      positions := [];
      for i := 0 to |ordered|
        invariant Rebuilding(fills) == Replay(positions, ordered[i..])
      {
        var f := ordered[i];
        assert ordered[i..][0] == f && ordered[i..][1..] == ordered[i + 1..];
        ok := ApplyFill(f.intent, f.shares, f.price, f.day);
        if !ok {
          positions := was;
          return;
        }
      }
      return true;
    }
  }
}
