/** The immutable facts the accounting code works on. Instants are whole microseconds, money is
    whole cents and quantities are exact; identifiers matter only by equality and by one total order. */
module Reporting {
  import opened Wrappers

  type Instant = int
  type Cents = int
  type Id = int
  type Ticker = string

  datatype Mode = LiveMode | PaperMode

  datatype Account = Account(mode: Mode, account: Id)

  /** What every observation carries. */
  datatype Header = Header(
    id: Id, external: Id, account: Account, at: Instant, recorded: Instant, order: nat,
    supersedes: Option<Id>, voided: bool)
  {
    ghost predicate Valid() {
      && supersedes != Some(id)
      && at <= recorded
      && (voided ==> supersedes.Some?)
    }
  }

  datatype Phase = SessionClose | Intraday | BeforeFlow | AfterFlow

  datatype Position = Position(ticker: Ticker, quantity: Option<real>)

  datatype Valuation = Valuation(
    h: Header, equity: Option<Cents>, positions: Option<seq<Position>>, complete: bool, phase: Phase,
    sessionDate: Option<int>, previousSessionDate: Option<int>)
  {
    predicate Ordinary() {
      phase != BeforeFlow && phase != AfterFlow
    }

    /** Balances are not negative, and a complete valuation has one. */
    ghost predicate Priced() {
      && (equity.Some? ==> 0 <= equity.value)
      && (complete ==> equity.Some?)
    }

    ghost predicate Valid() {
      && h.Valid() && Priced()
      && (complete ==> positions.Some?)
      && (positions.Some? ==>
            && (forall i, j | 0 <= i < j < |positions.value| ::
                  positions.value[i].ticker != positions.value[j].ticker)
            && (forall p | p in positions.value :: p.quantity.Some? ==> 0.0 <= p.quantity.value))
    }
  }

  datatype FlowType = Deposit | Withdrawal | TransferredIn | TransferredOut

  datatype Flow = Flow(
    h: Header, flowType: FlowType, amount: Cents, before: Option<Id>, after: Option<Id>)
  {
    ghost predicate Valid() {
      && h.Valid()
      && amount != 0
      && (0 < amount <==> flowType == Deposit || flowType == TransferredIn)
      && (before.Some? ==> before != after)
    }
  }

  datatype Side = Buy | Sell

  datatype Fill = Fill(h: Header, ticker: Ticker, side: Side, quantity: real, decision: Option<Id>)
  {
    ghost predicate Valid() {
      h.Valid() && 0.0 < quantity
    }
  }

  datatype ActionKind = Dividend | Fee | Split | TransferIn | TransferOut

  datatype Action = Action(
    h: Header, kind: ActionKind, ticker: Option<Ticker>, quantity: Option<real>, ratio: Option<real>,
    flowExternal: Option<Id>)
  {
    ghost predicate Valid() {
      && h.Valid()
      && (ratio.Some? ==> 0.0 < ratio.value)
      && (kind == Split ==> ticker.Some? && ratio.Some?)
      && (kind == TransferIn || kind == TransferOut ==>
            ticker.Some? && quantity.Some? && 0.0 < quantity.value && flowExternal.Some?)
    }
  }

  datatype Coverage = Coverage(
    h: Header, start: Instant, end: Instant, flowsComplete: bool, activityComplete: bool)
  {
    ghost predicate Valid() {
      h.Valid() && start < end <= h.at
    }
  }

  datatype Observation =
    | OfValuation(valuation: Valuation)
    | OfFlow(flow: Flow)
    | OfFill(fill: Fill)
    | OfAction(action: Action)
    | OfCoverage(coverage: Coverage)
  {
    function H(): Header {
      match this
      case OfValuation(v) => v.h
      case OfFlow(f) => f.h
      case OfFill(f) => f.h
      case OfAction(a) => a.h
      case OfCoverage(c) => c.h
    }

    /** The `kind` column. */
    function Kind(): nat {
      match this
      case OfValuation(_) => 0
      case OfFlow(_) => 1
      case OfFill(_) => 2
      case OfAction(_) => 3
      case OfCoverage(_) => 4
    }

    ghost predicate Valid() {
      match this
      case OfValuation(v) => v.Valid()
      case OfFlow(f) => f.Valid()
      case OfFill(f) => f.Valid()
      case OfAction(a) => a.Valid()
      case OfCoverage(c) => c.Valid()
    }
  }
}
