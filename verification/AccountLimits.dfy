/** The account limits an external proposal has to meet. */
module AccountLimits {
  import opened Basics
  import T = TradeSafety

  datatype Candidate = Candidate(intentId: string, side: T.Side, notional: real)

  datatype Portfolio = Portfolio(cash: real, equity: real, btcNotional: real, dailyPnl: real, openOrders: int)

  datatype Limits = Limits(maxExposure: real, orderNotional: real, minOrderNotional: real, maxDailyLoss: real,
                           policyMaxNotional: real)

  datatype Refusal =
    | InvalidPortfolio | InvalidLimits | OpenOrdersPending | InvalidPnlBasis | DailyLossStop | OperatorOrderLimit
    | BelowSupportedSize | InsufficientCash | ExposureLimit | ShortNotPermitted

  predicate ValidLimits(l: Limits) {
    0.0 < l.maxExposure <= 0.25 && 0.0 < l.minOrderNotional <= l.orderNotional <= 10000.0 && 0.0 < l.maxDailyLoss <= 0.10
  }

  predicate ValidPortfolio(p: Portfolio) {
    && p.equity > 0.0 && 0.0 <= p.cash <= p.equity && 0.0 <= p.btcNotional <= p.equity
    && p.cash / p.equity + p.btcNotional / p.equity <= 1.000000001
    && p.openOrders >= 0
  }

  function LossFraction(p: Portfolio): real
    requires p.equity - p.dailyPnl > 0.0
  {
    var fraction := -p.dailyPnl / (p.equity - p.dailyPnl);
    if fraction < 0.0 then 0.0 else fraction
  }

  /** Why the account does not allow a proposal, if it does not. */
  function AccountGuard(l: Limits, c: Candidate, p: Portfolio): Option<Refusal> {
    if !ValidPortfolio(p) then Some(InvalidPortfolio)
    else if !ValidLimits(l) then Some(InvalidLimits)
    else if p.openOrders != 0 then Some(OpenOrdersPending)
    else if p.equity - p.dailyPnl <= 0.0 then Some(InvalidPnlBasis)
    else if LossFraction(p) >= l.maxDailyLoss then Some(DailyLossStop)
    else if c.notional > MinReal(l.policyMaxNotional, l.orderNotional) then Some(OperatorOrderLimit)
    else if c.notional < l.minOrderNotional then Some(BelowSupportedSize)
    else if c.side.Buy? then
      if c.notional > p.cash then Some(InsufficientCash)
      else if p.btcNotional + c.notional > p.equity * l.maxExposure then Some(ExposureLimit)
      else None
    else if c.notional > p.btcNotional then Some(ShortNotPermitted)
    else None
  }

  lemma FractionBelow(loss: real, basis: real, limit: real)
    requires basis > 0.0
    ensures loss / basis < limit <==> loss < limit * basis
  {
    assert loss == loss / basis * basis;
    if loss / basis < limit {
      assert loss / basis * basis < limit * basis;
    } else {
      assert loss / basis * basis >= limit * basis;
    }
  }

  /** What a filled order would leave behind. */
  predicate SoundAfterFill(l: Limits, c: Candidate, p: Portfolio) {
    match c.side
    case Buy => 0.0 <= p.cash - c.notional && p.btcNotional + c.notional <= p.equity * l.maxExposure
    case Sell => 0.0 <= p.btcNotional - c.notional
  }

  /**
   * A proposal is allowed exactly when the account is quiet, today's loss is a smaller part of the day's
   * starting equity than allowed, the size is in range, and filling it leaves no debt, no short position
   * and no exposure over the limit.
   */
  lemma GuardMeaning(l: Limits, c: Candidate, p: Portfolio)
    ensures AccountGuard(l, c, p).None?
            <==> && ValidPortfolio(p) && ValidLimits(l) && p.openOrders == 0
                 && p.dailyPnl < p.equity && -p.dailyPnl < l.maxDailyLoss * (p.equity - p.dailyPnl)
                 && l.minOrderNotional <= c.notional <= l.orderNotional && c.notional <= l.policyMaxNotional
                 && SoundAfterFill(l, c, p)
  {
    if p.equity - p.dailyPnl > 0.0 && ValidLimits(l) {
      FractionBelow(-p.dailyPnl, p.equity - p.dailyPnl, l.maxDailyLoss);
      assert LossFraction(p) < l.maxDailyLoss <==> -p.dailyPnl / (p.equity - p.dailyPnl) < l.maxDailyLoss;
    }
  }

  /** What each refusal says of the account, the limits and the proposal. */
  ghost predicate Stands(x: Refusal, l: Limits, c: Candidate, p: Portfolio) {
    match x
    case InvalidPortfolio =>
      || p.equity <= 0.0 || p.cash < 0.0 || p.cash > p.equity || p.btcNotional < 0.0 || p.btcNotional > p.equity
      || p.cash + p.btcNotional > 1.000000001 * p.equity || p.openOrders < 0
    case InvalidLimits =>
      || l.maxExposure <= 0.0 || l.maxExposure > 0.25 || l.minOrderNotional <= 0.0 || l.minOrderNotional > l.orderNotional
      || l.orderNotional > 10000.0 || l.maxDailyLoss <= 0.0 || l.maxDailyLoss > 0.10
    case OpenOrdersPending => p.openOrders != 0
    case InvalidPnlBasis => p.equity <= p.dailyPnl
    case DailyLossStop => -p.dailyPnl >= l.maxDailyLoss * (p.equity - p.dailyPnl)
    case OperatorOrderLimit => c.notional > l.orderNotional || c.notional > l.policyMaxNotional
    case BelowSupportedSize => c.notional < l.minOrderNotional
    case InsufficientCash => c.side == T.Buy && c.notional > p.cash
    case ExposureLimit => c.side == T.Buy && p.btcNotional + c.notional > p.equity * l.maxExposure
    case ShortNotPermitted => c.side == T.Sell && c.notional > p.btcNotional
  }

  /** The order in which they are looked for. */
  function Precedence(x: Refusal): nat {
    match x
    case InvalidPortfolio => 0
    case InvalidLimits => 1
    case OpenOrdersPending => 2
    case InvalidPnlBasis => 3
    case DailyLossStop => 4
    case OperatorOrderLimit => 5
    case BelowSupportedSize => 6
    case InsufficientCash => 7
    case ExposureLimit => 8
    case ShortNotPermitted => 9
  }

  lemma SharesOfEquity(p: Portfolio)
    requires p.equity > 0.0
    ensures p.cash / p.equity + p.btcNotional / p.equity <= 1.000000001 <==> p.cash + p.btcNotional <= 1.000000001 * p.equity
  {
    var cash, btc := p.cash / p.equity, p.btcNotional / p.equity;
    assert cash * p.equity == p.cash && btc * p.equity == p.btcNotional;
    assert (cash + btc) * p.equity == p.cash + p.btcNotional;
    if cash + btc <= 1.000000001 {
      assert (cash + btc) * p.equity <= 1.000000001 * p.equity;
    } else {
      assert (cash + btc) * p.equity > 1.000000001 * p.equity;
    }
  }

  lemma LossStopMeans(l: Limits, p: Portfolio)
    requires p.equity - p.dailyPnl > 0.0 && 0.0 < l.maxDailyLoss
    ensures LossFraction(p) >= l.maxDailyLoss <==> -p.dailyPnl >= l.maxDailyLoss * (p.equity - p.dailyPnl)
  {
    FractionBelow(-p.dailyPnl, p.equity - p.dailyPnl, l.maxDailyLoss);
  }

  /** A refusal is given exactly when it stands and none that comes before it does. */
  lemma RefusedExactlyWhen(l: Limits, c: Candidate, p: Portfolio, x: Refusal)
    ensures AccountGuard(l, c, p) == Some(x)
            <==> Stands(x, l, c, p) && forall y :: Precedence(y) < Precedence(x) ==> !Stands(y, l, c, p)
  {
    if p.equity > 0.0 {
      SharesOfEquity(p);
    }
    if p.equity - p.dailyPnl > 0.0 && ValidLimits(l) {
      LossStopMeans(l, p);
    }
    assert ValidPortfolio(p) <==> !Stands(InvalidPortfolio, l, c, p);
    assert ValidLimits(l) <==> !Stands(InvalidLimits, l, c, p);
    FirstStanding(l, c, p);
  }

  lemma FirstStanding(l: Limits, c: Candidate, p: Portfolio)
    requires ValidPortfolio(p) <==> !Stands(InvalidPortfolio, l, c, p)
    requires ValidLimits(l) <==> !Stands(InvalidLimits, l, c, p)
    requires p.equity - p.dailyPnl > 0.0 && ValidLimits(l)
             ==> (LossFraction(p) >= l.maxDailyLoss <==> Stands(DailyLossStop, l, c, p))
    ensures var refusal := AccountGuard(l, c, p);
            && (refusal.Some? ==> Stands(refusal.value, l, c, p))
            && (forall y :: Stands(y, l, c, p) ==> refusal.Some? && Precedence(refusal.value) <= Precedence(y))
  {
  }
}

/** The durable reservations: one per intent and per request, within a daily budget that keeps room for exits. */
module Reservations {
  import opened Basics
  import T = TradeSafety

  /** Reservations of an earlier release have no side; they are charged like entries. */
  datatype Reservation = Reservation(intentKey: string, day: int, requestHash: string, side: Option<T.Side>)

  predicate IsEntry(r: Reservation) {
    r.side != Some(T.Sell)
  }

  datatype Budget = Budget(maxDaily: nat, reservedExits: nat) {
    predicate Valid() {
      1 <= maxDaily && reservedExits <= maxDaily
    }
  }

  function OnDay(rows: seq<Reservation>, day: int): nat {
    if rows == [] then 0
    else OnDay(rows[..|rows| - 1], day) + (if rows[|rows| - 1].day == day then 1 else 0)
  }

  function EntriesOnDay(rows: seq<Reservation>, day: int): nat {
    if rows == [] then 0
    else EntriesOnDay(rows[..|rows| - 1], day) + (if rows[|rows| - 1].day == day && IsEntry(rows[|rows| - 1]) then 1 else 0)
  }

  function Remaining(used: nat, maximum: int): nat {
    if maximum > used then maximum - used else 0
  }

  function RemainingEntries(rows: seq<Reservation>, day: int, b: Budget): nat {
    var total := Remaining(OnDay(rows, day), b.maxDaily);
    var entries := Remaining(EntriesOnDay(rows, day), b.maxDaily - b.reservedExits);
    if entries < total then entries else total
  }

  predicate Taken(rows: seq<Reservation>, intentKey: string, requestHash: string) {
    exists i :: 0 <= i < |rows| && (rows[i].intentKey == intentKey || rows[i].requestHash == requestHash)
  }

  /** The insert under the budget: refused when the day is used up, or the intent or request is there already. */
  function ReserveSpec(rows: seq<Reservation>, r: Reservation, b: Budget): (seq<Reservation>, bool) {
    if Remaining(OnDay(rows, r.day), b.maxDaily) == 0 || (IsEntry(r) && RemainingEntries(rows, r.day, b) == 0)
    then (rows, false)
    else if Taken(rows, r.intentKey, r.requestHash) then (rows, false)
    else (rows + [r], true)
  }

  class CycleStore {
    var rows: seq<Reservation>

    constructor (rows: seq<Reservation>)
      ensures this.rows == rows
    {
      this.rows := rows;
    }

    /** The two aggregates of the budget query, in one pass over the table. */
    method DailyBudget(day: int, b: Budget) returns (remainingTotal: nat, remainingEntries: nat)
      ensures remainingTotal == Remaining(OnDay(rows, day), b.maxDaily)
      ensures remainingEntries == RemainingEntries(rows, day, b)
    {
      var total: nat, entries: nat := 0, 0;
      var i := 0;
      while i < |rows|
        invariant 0 <= i <= |rows| && total == OnDay(rows[..i], day) && entries == EntriesOnDay(rows[..i], day)
      {
        assert rows[..i + 1][..i] == rows[..i];
        if rows[i].day == day {
          total := total + 1;
          if IsEntry(rows[i]) {
            entries := entries + 1;
          }
        }
        i := i + 1;
      }
      assert rows[..i] == rows;
      remainingTotal := Remaining(total, b.maxDaily);
      remainingEntries := Remaining(entries, b.maxDaily - b.reservedExits);
      if remainingTotal < remainingEntries {
        remainingEntries := remainingTotal;
      }
    }

    method Reserve(r: Reservation, b: Budget) returns (ok: bool)
      modifies this
      ensures (rows, ok) == ReserveSpec(old(rows), r, b)
    {
      var remainingTotal, remainingEntries := DailyBudget(r.day, b);
      if remainingTotal == 0 || (IsEntry(r) && remainingEntries == 0) {
        return false;
      }
      if exists i :: 0 <= i < |rows| && (rows[i].intentKey == r.intentKey || rows[i].requestHash == r.requestHash) {
        return false;
      }
      rows := rows + [r];
      return true;
    }
  }

  /** Intents and requests are reserved once, no day is over budget, and entries leave the exits their share. */
  ghost predicate Sound(rows: seq<Reservation>, b: Budget) {
    && (forall i, j :: 0 <= i < j < |rows| ==> rows[i].intentKey != rows[j].intentKey && rows[i].requestHash != rows[j].requestHash)
    && (forall day :: OnDay(rows, day) <= b.maxDaily)
    && (forall day :: EntriesOnDay(rows, day) <= b.maxDaily - b.reservedExits)
  }

  // ----- the budget, counted -----

  lemma {:induction false} OnDayCounts(rows: seq<Reservation>, day: int)
    ensures OnDay(rows, day) == |set i | 0 <= i < |rows| && rows[i].day == day|
    decreases |rows|
  {
    if rows != [] {
      var n := |rows| - 1;
      OnDayCounts(rows[..n], day);
      var before := set i | 0 <= i < |rows[..n]| && rows[..n][i].day == day;
      assert (set i | 0 <= i < |rows| && rows[i].day == day) == before + (if rows[n].day == day then {n} else {});
    }
  }

  lemma {:induction false} EntriesOnDayCount(rows: seq<Reservation>, day: int)
    ensures EntriesOnDay(rows, day) == |set i | 0 <= i < |rows| && rows[i].day == day && rows[i].side != Some(T.Sell)|
    decreases |rows|
  {
    if rows != [] {
      var n := |rows| - 1;
      EntriesOnDayCount(rows[..n], day);
      var before := set i | 0 <= i < |rows[..n]| && rows[..n][i].day == day && rows[..n][i].side != Some(T.Sell);
      assert (set i | 0 <= i < |rows| && rows[i].day == day && rows[i].side != Some(T.Sell))
          == before + (if rows[n].day == day && rows[n].side != Some(T.Sell) then {n} else {});
    }
  }

  /**
   * A reservation is made exactly for an intent and a request not reserved before, while the day has an attempt left,
   * and, for anything but an exit, one that is not set aside for exits.  It is appended, and nothing else changes.
   */
  lemma ReservedExactlyWhen(rows: seq<Reservation>, r: Reservation, b: Budget)
    ensures var (after, ok) := ReserveSpec(rows, r, b);
            && (ok <==>
                  && (forall i :: 0 <= i < |rows| ==> rows[i].intentKey != r.intentKey && rows[i].requestHash != r.requestHash)
                  && |set i | 0 <= i < |rows| && rows[i].day == r.day| < b.maxDaily
                  && (r.side != Some(T.Sell) ==>
                        |set i | 0 <= i < |rows| && rows[i].day == r.day && rows[i].side != Some(T.Sell)|
                        < b.maxDaily - b.reservedExits))
            && after == if ok then rows + [r] else rows
  {
    OnDayCounts(rows, r.day);
    EntriesOnDayCount(rows, r.day);
  }

  lemma ReserveKeepsSound(rows: seq<Reservation>, r: Reservation, b: Budget)
    requires b.Valid() && Sound(rows, b)
    ensures Sound(ReserveSpec(rows, r, b).0, b)
  {
    if ReserveSpec(rows, r, b).1 {
      var grown := rows + [r];
      assert grown[..|rows|] == rows;
      assert forall i :: 0 <= i < |rows| ==> grown[i] == rows[i];
      forall day ensures OnDay(grown, day) <= b.maxDaily && EntriesOnDay(grown, day) <= b.maxDaily - b.reservedExits {
        if day != r.day {
          assert OnDay(grown, day) == OnDay(rows, day) && EntriesOnDay(grown, day) == EntriesOnDay(rows, day);
        }
      }
    }
  }
}
