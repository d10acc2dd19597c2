/** The policy's daily counts over live submissions, taken from the intents already recorded. */
module Quotas {
  import opened Pipeline
  import opened Wrappers

  const BUYS_PER_DAY := 5
  const ORDINARY_BUYS_PER_DAY := 2
  const SELLS_PER_DAY := 10

  const BUY_BRAKE := "buy_add_circuit_breaker_tripped"
  const BUY_LIMIT := "daily_buy_add_limit_reached"
  const SELL_BRAKE := "sell_trim_circuit_breaker_tripped"

  /** The ledger; the recorded swap pairs, by the decision of the buy; the intents whose own submission
      named a sale of the same review that funds them; and the buys that a submission found placed and
      funded, for which its worker may still record a pair. */
  datatype Desk = Desk(ledger: State, pairs: set<string>, swaps: set<string>, due: set<string>)

  /** `day` is the New York date of an instant, `ticker` what a record is about. */
  datatype World = World(day: int -> int, ticker: Record -> string)

  /** A submission: the reasons of all other rules around the counts, whether a sale of the same review
      funds it, whether its inputs could be bound, and whether the guards around the policy let it
      through. */
  datatype Submission = Submission(
    request: Request, now: int, mode: Mode, profile: string, before: seq<string>, after: seq<string>,
    funded: bool, bound: bool, admitted: bool)

  function LiveIntents(w: World, st: State, profile: string, on: int): set<string> {
    set id | id in st.intents && st.intents[id].mode == Live && st.intents[id].profile == profile
             && w.day(st.intents[id].createdAt) == on
  }

  function Buys(w: World, st: State, profile: string, on: int): set<string> {
    set id | id in LiveIntents(w, st, profile, on) && st.intents[id].side == BuySide
  }

  function Sells(w: World, st: State, profile: string, on: int): set<string> {
    set id | id in LiveIntents(w, st, profile, on) && st.intents[id].side == SellSide
  }

  /** The day's intents with a recorded swap pair. */
  function SwapBuys(w: World, desk: Desk, profile: string, on: int): set<string> {
    LiveIntents(w, desk.ledger, profile, on) * desk.pairs
  }

  /** Buys that were neither extraordinary nor, when they were placed, funded by a sale. */
  function OrdinaryBuys(w: World, desk: Desk, profile: string, on: int): set<string> {
    set id | id in Buys(w, desk.ledger, profile, on) && id in desk.ledger.records
             && !desk.ledger.records[id].extraordinary && id !in desk.swaps
  }

  /** The counts a live submission is judged by. */
  datatype Counts = Counts(buys: nat, swapBuys: nat, sells: nat, funded: bool)

  function CountsFor(w: World, desk: Desk, s: Submission, r: Record): Counts {
    var on := w.day(s.now);
    Counts(|Buys(w, desk.ledger, s.profile, on)|, |SwapBuys(w, desk, s.profile, on)|,
           |Sells(w, desk.ledger, s.profile, on)|, s.funded)
  }

  predicate Increasing(r: Record) {
    SideOf(r.decision) == Some(BuySide)
  }

  predicate Reducing(r: Record) {
    SideOf(r.decision) == Some(SellSide)
  }

  /** Every buy counts against five, and those without a swap pair against two unless this one is
      extraordinary or funded itself; every sale counts against ten. */
  predicate HasRoom(c: Counts, r: Record) {
    && (Increasing(r) ==> c.buys < BUYS_PER_DAY)
    && (Increasing(r) && !r.extraordinary && !c.funded ==> c.buys - c.swapBuys < ORDINARY_BUYS_PER_DAY)
    && (Reducing(r) ==> c.sells < SELLS_PER_DAY)
  }

  /** The failed count rules, in the policy's order. */
  function CountReasons(c: Counts, r: Record): seq<string> {
    var brake := BUYS_PER_DAY <= c.buys;
    (if Increasing(r) && brake then [BUY_BRAKE] else [])
    + (if Increasing(r) && !brake && !r.extraordinary && !c.funded
          && ORDINARY_BUYS_PER_DAY <= c.buys - c.swapBuys
       then [BUY_LIMIT] else [])
    + (if Reducing(r) && SELLS_PER_DAY <= c.sells then [SELL_BRAKE] else [])
  }

  /** The checks append the rules that fail one after the other. At most one fails; none does exactly
      when the counts leave room, and otherwise its name says which count is full. */
  method CheckCounts(c: Counts, r: Record) returns (failed: seq<string>)
    ensures failed == CountReasons(c, r)
    ensures failed == [] <==> HasRoom(c, r)
    ensures |failed| <= 1
    ensures BUY_BRAKE in failed <==> Increasing(r) && BUYS_PER_DAY <= c.buys
    ensures BUY_LIMIT in failed <==>
              && Increasing(r) && c.buys < BUYS_PER_DAY && !r.extraordinary && !c.funded
              && ORDINARY_BUYS_PER_DAY <= c.buys - c.swapBuys
    ensures SELL_BRAKE in failed <==> Reducing(r) && SELLS_PER_DAY <= c.sells
  {
    failed := [];
    var increasing := r.decision == Decision.Buy || r.decision == Decision.Add;
    var brake := BUYS_PER_DAY <= c.buys;
    if increasing && brake {
      failed := failed + [BUY_BRAKE];
    }
    var ordinary := c.buys - c.swapBuys;
    if increasing && !brake && !r.extraordinary && !c.funded && !(ordinary < ORDINARY_BUYS_PER_DAY) {
      failed := failed + [BUY_LIMIT];
    }
    if (r.decision == Decision.Trim || r.decision == Decision.Sell) && !(c.sells < SELLS_PER_DAY) {
      failed := failed + [SELL_BRAKE];
    }
    assert BUY_BRAKE[0] != BUY_LIMIT[0] && BUY_LIMIT[0] != SELL_BRAKE[0] && BUY_BRAKE[0] != SELL_BRAKE[0];
  }

  function Reasons(w: World, desk: Desk, s: Submission): seq<string> {
    match s.request
    case Malformed(_) => []
    case WellFormed(r) =>
      s.before + (if s.mode == Live then CountReasons(CountsFor(w, desk, s, r), r) else []) + s.after
  }

  function CallOf(w: World, desk: Desk, s: Submission): Call {
    var reasons := Reasons(w, desk, s);
    Call(s.request, Verdict(reasons == [], reasons), s.bound, s.now, s.mode, s.profile)
  }

  /** The policy's verdict on a submission, and so the call that the pipeline processes. */
  method Judge(w: World, desk: Desk, s: Submission) returns (call: Call)
    ensures call == CallOf(w, desk, s)
    ensures call.verdict.approved <==> call.verdict.reasons == []
    ensures s.request.WellFormed? && s.mode == Live && call.verdict.approved ==>
              HasRoom(CountsFor(w, desk, s, s.request.record), s.request.record)
  {
    var reasons := [];
    if s.request.WellFormed? {
      reasons := s.before;
      if s.mode == Live {
        var failed := CheckCounts(CountsFor(w, desk, s, s.request.record), s.request.record);
        reasons := reasons + failed;
      }
      reasons := reasons + s.after;
    }
    return Call(s.request, Verdict(reasons == [], reasons), s.bound, s.now, s.mode, s.profile);
  }

  /** What a submission that returned leaves behind. */
  function Accepted(desk: Desk, s: Submission, next: State): Desk {
    match s.request
    case Malformed(_) => desk.(ledger := next)
    case WellFormed(r) =>
      var placed := s.funded && r.id in next.intents;
      Desk(next, desk.pairs,
           if placed && r.id !in desk.ledger.intents then desk.swaps + {r.id} else desk.swaps,
           if placed && s.mode == Live && r.decision == Decision.Buy then desk.due + {r.id} else desk.due)
  }

  datatype Op = Submit(submission: Submission) | RecordPair(id: string)

  /** A submission that raises, in the guards or in the pipeline, ends its worker's review. A pair is
      recorded later, in a transaction of its own, by the worker whose submission found the intent. */
  function Step(w: World, desk: Desk, op: Op): Desk {
    match op
    case Submit(s) =>
      var reply := Process(desk.ledger, CallOf(w, desk, s));
      if s.admitted && reply.Done? then Accepted(desk, s, reply.st) else desk
    case RecordPair(id) =>
      if id in desk.due then desk.(pairs := desk.pairs + {id}) else desk
  }
}
