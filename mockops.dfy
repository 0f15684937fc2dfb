/**
 * `create_mock_operations_from_table_data` of improved_table_analyzer.py: every day record of
 * the April and May periods becomes one-lot Brent buy/sell pairs whose payments add up to the
 * day's earnings, a commission operation and up to two variation-margin operations.
 */
module MockOps {
  import opened Common
  import opened Calendar
  import opened TableRows

  const BuyType: int := 15
  const SellType: int := 22
  const CommissionType: int := 19
  const IncomeType: int := 26
  const ExpenseType: int := 27
  const BrentFigi: string := "BBG0013HGFT4"
  const LotPrice: real := 1000.0

  /** One mock operation dict; `date.replace(hour=h)` is kept as the day and the hour. */
  datatype MockOperation = MockOperation(
    date: CivilDate,
    hour: nat,
    operationType: int,
    payment: real,
    quantity: Option<nat>,
    figi: Option<string>,
    description: string)

  function BuyOp(d: DayRecord): MockOperation
  {
    MockOperation(d.date, 10, BuyType, -LotPrice, Some(1), Some(BrentFigi), "Покупка Brent")
  }

  /** The sell half of a pair: the lot price plus an equal share of the day's earnings. */
  function SellOp(d: DayRecord): MockOperation
  {
    var share := if d.tradesCount > 0 then d.earnings / d.tradesCount as real else 0.0;
    MockOperation(d.date, 15, SellType, LotPrice + share, Some(1), Some(BrentFigi), "Продажа Brent")
  }

  /** The first `k` buy/sell pairs of a day. */
  function TradeOps(d: DayRecord, k: nat): (r: seq<MockOperation>)
    ensures |r| == 2 * k
  {
    if k == 0 then [] else TradeOps(d, k - 1) + [BuyOp(d), SellOp(d)]
  }

  /** A variation-margin operation for a non-zero clearing amount: income when positive. */
  function ClearingOp(d: DayRecord, amount: real, hour: nat, description: string): (r: seq<MockOperation>)
    ensures |r| == (if amount != 0.0 then 1 else 0)
    ensures forall i :: 0 <= i < |r| ==>
      r[i].payment == amount && r[i].hour == hour
      && (r[i].operationType == IncomeType <==> amount > 0.0)
      && (r[i].operationType == ExpenseType <==> amount < 0.0)
  {
    if amount != 0.0 then
      [MockOperation(d.date, hour, if amount > 0.0 then IncomeType else ExpenseType, amount, None, None, description)]
    else []
  }

  /** The commission operation, present when the commission is positive. */
  function CommissionOp(d: DayRecord): (r: seq<MockOperation>)
    ensures |r| == (if d.commission > 0.0 then 1 else 0)
    ensures forall i :: 0 <= i < |r| ==> r[i].payment == -d.commission && r[i].operationType == CommissionType
  {
    if d.commission > 0.0 then [MockOperation(d.date, 16, CommissionType, -d.commission, None, None, "Комиссия брокера")]
    else []
  }

  /** All operations of one day, in the order they are appended. */
  function DayOps(d: DayRecord): seq<MockOperation>
  {
    TradeOps(d, d.tradesCount)
    + CommissionOp(d)
    + ClearingOp(d, d.dayClearing, 14, "Дневная клиринговая")
    + ClearingOp(d, d.eveningClearing, 18, "Вечерняя клиринговая")
  }

  function DaysOps(days: seq<DayRecord>): seq<MockOperation>
  {
    if days == [] then [] else DaysOps(days[..|days| - 1]) + DayOps(days[|days| - 1])
  }

  function PeriodsOps(periods: seq<PeriodData>): seq<MockOperation>
  {
    if periods == [] then [] else PeriodsOps(periods[..|periods| - 1]) + DaysOps(periods[|periods| - 1].daily)
  }

  /** The list the function returns: the April operations, then the May ones. */
  function MockOperations(april: seq<PeriodData>, may: seq<PeriodData>): seq<MockOperation>
  {
    PeriodsOps(april) + PeriodsOps(may)
  }

  /** The sum of the payments of some operations. */
  function PaymentTotal(ops: seq<MockOperation>): real
  {
    if ops == [] then 0.0 else PaymentTotal(ops[..|ops| - 1]) + ops[|ops| - 1].payment
  }

  lemma {:induction false} PaymentTotalAppend(a: seq<MockOperation>, b: seq<MockOperation>)
    ensures PaymentTotal(a + b) == PaymentTotal(a) + PaymentTotal(b)
  {
    if b == [] {
      assert a + b == a;
    } else {
      assert (a + b)[..|a + b| - 1] == a + b[..|b| - 1];
      PaymentTotalAppend(a, b[..|b| - 1]);
    }
  }

  /** Each pair nets the earnings share: the lot price cancels. */
  lemma {:induction false} TradePaymentsScale(d: DayRecord, k: nat)
    ensures PaymentTotal(TradeOps(d, k)) == k as real * SellOp(d).payment - k as real * LotPrice
  {
    if k > 0 {
      var prev := TradeOps(d, k - 1);
      TradePaymentsScale(d, k - 1);
      PaymentTotalAppend(prev, [BuyOp(d), SellOp(d)]);
      PaymentTotalAppend([BuyOp(d)], [SellOp(d)]);
      SingleTotal([BuyOp(d)]);
      SingleTotal([SellOp(d)]);
      assert [BuyOp(d)] + [SellOp(d)] == [BuyOp(d), SellOp(d)];
    }
  }

  /** A day with trades: the payments of its buy/sell pairs add up to exactly its earnings. */
  lemma TradePaymentsSumToEarnings(d: DayRecord)
    requires d.tradesCount > 0
    ensures PaymentTotal(TradeOps(d, d.tradesCount)) == d.earnings
  {
    var n := d.tradesCount as real;
    TradePaymentsScale(d, d.tradesCount);
    ShareTimesCount(d.earnings, n, d.earnings / n);
  }

  lemma ShareTimesCount(e: real, n: real, q: real)
    requires n > 0.0 && q == e / n
    ensures n * (LotPrice + q) - n * LotPrice == e
  {
    assert q * n == e;
  }

  /** What a day's mock operations should pay in total, read off the table row. */
  function DayNet(d: DayRecord): real
  {
    (if d.tradesCount > 0 then d.earnings else 0.0)
    - (if d.commission > 0.0 then d.commission else 0.0)
    + d.dayClearing + d.eveningClearing
  }

  /**
   * The payments of a day's operations: its earnings when it has trades, less a positive
   * commission, plus both clearing amounts.
   */
  lemma DayPaymentTotal(d: DayRecord)
    ensures PaymentTotal(DayOps(d)) == DayNet(d)
  {
    DayTotalSplit(d);
    TradeTotal(d);
    CommissionTotal(d);
    ClearingTotal(d, d.dayClearing, 14, "Дневная клиринговая");
    ClearingTotal(d, d.eveningClearing, 18, "Вечерняя клиринговая");
  }

  lemma DayTotalSplit(d: DayRecord)
    ensures PaymentTotal(DayOps(d))
      == PaymentTotal(TradeOps(d, d.tradesCount)) + PaymentTotal(CommissionOp(d))
        + PaymentTotal(ClearingOp(d, d.dayClearing, 14, "Дневная клиринговая"))
        + PaymentTotal(ClearingOp(d, d.eveningClearing, 18, "Вечерняя клиринговая"))
  {
    var t := TradeOps(d, d.tradesCount);
    var c := CommissionOp(d);
    var m1 := ClearingOp(d, d.dayClearing, 14, "Дневная клиринговая");
    var m2 := ClearingOp(d, d.eveningClearing, 18, "Вечерняя клиринговая");
    PaymentTotalAppend(t, c);
    PaymentTotalAppend(t + c, m1);
    PaymentTotalAppend(t + c + m1, m2);
  }

  lemma TradeTotal(d: DayRecord)
    ensures PaymentTotal(TradeOps(d, d.tradesCount)) == if d.tradesCount > 0 then d.earnings else 0.0
  {
    if d.tradesCount > 0 {
      TradePaymentsSumToEarnings(d);
    }
  }

  lemma CommissionTotal(d: DayRecord)
    ensures PaymentTotal(CommissionOp(d)) == if d.commission > 0.0 then -d.commission else 0.0
  {
    SingleTotal(CommissionOp(d));
  }

  lemma ClearingTotal(d: DayRecord, amount: real, hour: nat, description: string)
    ensures PaymentTotal(ClearingOp(d, amount, hour, description)) == amount
  {
    SingleTotal(ClearingOp(d, amount, hour, description));
  }

  lemma SingleTotal(ops: seq<MockOperation>)
    requires |ops| <= 1
    ensures PaymentTotal(ops) == if ops == [] then 0.0 else ops[0].payment
  {
    if ops != [] {
      assert ops[..0] == [];
    }
  }

  /** The operations of a list of days are those of each day, in order. */
  lemma {:induction false} DaysOpsAppend(a: seq<DayRecord>, b: seq<DayRecord>)
    ensures DaysOps(a + b) == DaysOps(a) + DaysOps(b)
  {
    hide DayOps;
    if b == [] {
      assert a + b == a;
    } else {
      assert (a + b)[..|a + b| - 1] == a + b[..|b| - 1];
      DaysOpsAppend(a, b[..|b| - 1]);
    }
  }

  /** The operations of a list of days pay, in total, the sum of the days' nets. */
  lemma {:induction false} DaysPaymentTotal(days: seq<DayRecord>)
    ensures PaymentTotal(DaysOps(days)) == SumReals(seq(|days|, k requires 0 <= k < |days| => DayNet(days[k])))
  {
    hide DayOps;
    if days != [] {
      var n := |days| - 1;
      DaysPaymentTotal(days[..n]);
      PaymentTotalAppend(DaysOps(days[..n]), DayOps(days[n]));
      DayPaymentTotal(days[n]);
      var all := seq(|days|, k requires 0 <= k < |days| => DayNet(days[k]));
      assert all[..n] == seq(n, k requires 0 <= k < n => DayNet(days[..n][k]));
    }
  }

  /** What the mock operations of some periods should pay in total: every day's net, period by period. */
  function PeriodsNet(periods: seq<PeriodData>): real
  {
    if periods == [] then 0.0
    else
      var daily := periods[|periods| - 1].daily;
      PeriodsNet(periods[..|periods| - 1]) + SumReals(seq(|daily|, k requires 0 <= k < |daily| => DayNet(daily[k])))
  }

  lemma {:induction false} PeriodsPaymentTotal(periods: seq<PeriodData>)
    ensures PaymentTotal(PeriodsOps(periods)) == PeriodsNet(periods)
  {
    hide DaysOps;
    if periods != [] {
      var n := |periods| - 1;
      PeriodsPaymentTotal(periods[..n]);
      PaymentTotalAppend(PeriodsOps(periods[..n]), DaysOps(periods[n].daily));
      DaysPaymentTotal(periods[n].daily);
    }
  }

  /**
   * The generated operations pay, in total, what the table's days net: each day's earnings when
   * it traded, less a positive commission, plus both clearing amounts, over April and May.
   */
  lemma MockOperationsTotal(april: seq<PeriodData>, may: seq<PeriodData>)
    ensures PaymentTotal(MockOperations(april, may)) == PeriodsNet(april) + PeriodsNet(may)
  {
    hide PeriodsOps;
    PaymentTotalAppend(PeriodsOps(april), PeriodsOps(may));
    PeriodsPaymentTotal(april);
    PeriodsPaymentTotal(may);
  }

  /** The `for trade_idx in range(day['trades_count'])` loop. */
  method AppendTrades(ops: seq<MockOperation>, d: DayRecord) returns (r: seq<MockOperation>)
    ensures r == ops + TradeOps(d, d.tradesCount)
  {
    r := ops;
    for k := 0 to d.tradesCount
      invariant r == ops + TradeOps(d, k)
    {
      var buy := MockOperation(d.date, 10, BuyType, -LotPrice, Some(1), Some(BrentFigi), "Покупка Brent");
      var share := if d.tradesCount > 0 then d.earnings / d.tradesCount as real else 0.0;
      var sell := MockOperation(d.date, 15, SellType, LotPrice + share, Some(1), Some(BrentFigi), "Продажа Brent");
      assert buy == BuyOp(d) && sell == SellOp(d);
      r := r + [buy] + [sell];
    }
  }

  /** One day: its trades, then the commission and clearing checks. */
  method AppendDay(ops: seq<MockOperation>, d: DayRecord) returns (r: seq<MockOperation>)
    ensures r == ops + DayOps(d)
  {
    r := ops;
    if d.tradesCount > 0 {
      r := AppendTrades(r, d);
    }
    ghost var r1 := r;
    if d.commission > 0.0 {
      r := r + [MockOperation(d.date, 16, CommissionType, -d.commission, None, None, "Комиссия брокера")];
    }
    assert r == r1 + CommissionOp(d);
    ghost var r2 := r;
    if d.dayClearing != 0.0 {
      var kind := if d.dayClearing > 0.0 then IncomeType else ExpenseType;
      r := r + [MockOperation(d.date, 14, kind, d.dayClearing, None, None, "Дневная клиринговая")];
    }
    assert r == r2 + ClearingOp(d, d.dayClearing, 14, "Дневная клиринговая");
    ghost var r3 := r;
    if d.eveningClearing != 0.0 {
      var kind := if d.eveningClearing > 0.0 then IncomeType else ExpenseType;
      r := r + [MockOperation(d.date, 18, kind, d.eveningClearing, None, None, "Вечерняя клиринговая")];
    }
    assert r == r3 + ClearingOp(d, d.eveningClearing, 18, "Вечерняя клиринговая");
    AppendFour(ops, TradeOps(d, d.tradesCount), CommissionOp(d),
      ClearingOp(d, d.dayClearing, 14, "Дневная клиринговая"),
      ClearingOp(d, d.eveningClearing, 18, "Вечерняя клиринговая"));
  }

  lemma AppendFour(o: seq<MockOperation>, a: seq<MockOperation>, b: seq<MockOperation>, c: seq<MockOperation>, e: seq<MockOperation>)
    ensures o + (a + b + c + e) == o + a + b + c + e
  {
  }

  /** The `for day in period['daily_data']` loop. */
  method AppendDays(ops: seq<MockOperation>, daily: seq<DayRecord>) returns (r: seq<MockOperation>)
    ensures r == ops + DaysOps(daily)
  {
    hide DayOps;
    r := ops;
    for j := 0 to |daily|
      invariant r == ops + DaysOps(daily[..j])
    {
      assert daily[..j + 1][..j] == daily[..j];
      r := AppendDay(r, daily[j]);
    }
    assert daily[..|daily|] == daily;
  }

  /** The `for period in …: for day in period['daily_data']` loops for one month. */
  method AppendPeriods(ops: seq<MockOperation>, periods: seq<PeriodData>) returns (r: seq<MockOperation>)
    ensures r == ops + PeriodsOps(periods)
  {
    hide DayOps, DaysOps;
    r := ops;
    for i := 0 to |periods|
      invariant r == ops + PeriodsOps(periods[..i])
    {
      assert periods[..i + 1][..i] == periods[..i];
      r := AppendDays(r, periods[i].daily);
    }
    assert periods[..|periods|] == periods;
  }

  /** `create_mock_operations_from_table_data`. */
  method CreateMockOperations(april: seq<PeriodData>, may: seq<PeriodData>) returns (ops: seq<MockOperation>)
    ensures ops == MockOperations(april, may)
  {
    hide DayOps, DaysOps;
    ops := AppendPeriods([], april);
    ops := AppendPeriods(ops, may);
  }
}
