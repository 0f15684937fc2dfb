/**
 * Profit over time windows: the payment sum of `calculate_period_profit_real`, the per-period
 * reconstruction of `calculate_period_profit`, and the weekly and monthly windows that
 * `get_weekly_profit_analysis` / `get_monthly_profit_analysis` walk, with balances chained.
 */
module Periods {
  import opened Common
  import opened Operations
  import opened Calendar
  import opened Trades
  import opened Reconstruction
  import Sessions

  /** An inclusive window `[start, end]` of instants. */
  datatype Window = Window(start: int, end: int)

  function PeriodOps(ops: seq<Operation>, w: Window): seq<Operation>
  {
    Filter(ops, (op: Operation) => w.start <= op.date <= w.end)
  }

  /** The operation types whose payment counts towards the "real" period profit. */
  predicate CountsTowardProfit(t: OperationType)
  {
    IsTrading(t) || t == BrokerFee || IsMargin(t)
  }

  function CountedPayment(op: Operation): real
  {
    if CountsTowardProfit(op.operationType) then op.payment else 0.0
  }

  function PaymentSum(ops: seq<Operation>): real
  {
    if ops == [] then 0.0 else PaymentSum(ops[..|ops| - 1]) + CountedPayment(ops[|ops| - 1])
  }

  /** `calculate_period_profit_real`: the sum of counted payments of the operations in the window. */
  function PeriodProfitReal(ops: seq<Operation>, w: Window): real
  {
    PaymentSum(PeriodOps(ops, w))
  }

  /** The same sum read directly off the full list: an operation contributes iff it lies in the window. */
  function WindowSum(ops: seq<Operation>, w: Window): real
  {
    if ops == [] then 0.0
    else
      var op := ops[|ops| - 1];
      WindowSum(ops[..|ops| - 1], w) + (if w.start <= op.date <= w.end then CountedPayment(op) else 0.0)
  }

  lemma {:induction false} PeriodProfitRealIsWindowSum(ops: seq<Operation>, w: Window)
    ensures PeriodProfitReal(ops, w) == WindowSum(ops, w)
  {
    if ops != [] {
      var init, op := ops[..|ops| - 1], ops[|ops| - 1];
      PeriodProfitRealIsWindowSum(init, w);
      var f := PeriodOps(init, w);
      PaymentSumAppend(f, op);
      assert PeriodOps(ops, w) == f + (if w.start <= op.date <= w.end then [op] else []);
      if w.start <= op.date <= w.end {
        assert PaymentSum(f + [op]) == PaymentSum(f) + CountedPayment(op);
      } else {
        assert f + [] == f;
      }
    }
  }

  lemma PaymentSumAppend(s: seq<Operation>, op: Operation)
    ensures PaymentSum(s + [op]) == PaymentSum(s) + CountedPayment(op)
  {
    assert (s + [op])[..|s|] == s;
  }

  /** Adjacent windows add up: splitting a window at any instant splits its real profit. */
  lemma {:induction false} PeriodProfitRealSplit(ops: seq<Operation>, a: int, b: int, c: int)
    requires a <= b < c
    ensures PeriodProfitReal(ops, Window(a, c)) == PeriodProfitReal(ops, Window(a, b)) + PeriodProfitReal(ops, Window(b + 1, c))
  {
    PeriodProfitRealIsWindowSum(ops, Window(a, c));
    PeriodProfitRealIsWindowSum(ops, Window(a, b));
    PeriodProfitRealIsWindowSum(ops, Window(b + 1, c));
    WindowSumSplit(ops, a, b, c);
  }

  lemma {:induction false} WindowSumSplit(ops: seq<Operation>, a: int, b: int, c: int)
    requires a <= b < c
    ensures WindowSum(ops, Window(a, c)) == WindowSum(ops, Window(a, b)) + WindowSum(ops, Window(b + 1, c))
  {
    if ops != [] {
      WindowSumSplit(ops[..|ops| - 1], a, b, c);
    }
  }

  /** An empty window, or one with no operations in it, earns nothing. */
  lemma {:induction false} PeriodProfitRealEmpty(ops: seq<Operation>, w: Window)
    requires forall k :: 0 <= k < |ops| ==> !(w.start <= ops[k].date <= w.end)
    ensures PeriodProfitReal(ops, w) == 0.0
  {
    PeriodProfitRealIsWindowSum(ops, w);
    WindowSumOutside(ops, w);
  }

  lemma {:induction false} WindowSumOutside(ops: seq<Operation>, w: Window)
    requires forall k :: 0 <= k < |ops| ==> !(w.start <= ops[k].date <= w.end)
    ensures WindowSum(ops, w) == 0.0
  {
    if ops != [] {
      var init := ops[..|ops| - 1];
      assert forall k :: 0 <= k < |init| ==> init[k] == ops[k];
      WindowSumOutside(init, w);
    }
  }

  /** The `PeriodProfit` record. */
  datatype PeriodProfit = PeriodProfit(
    startDate: int,
    endDate: int,
    startingBalance: real,
    endingBalance: real,
    totalProfit: real,
    totalFees: real,
    netProfit: real,
    profitPercentage: real,
    tradesCount: nat,
    winningTrades: nat,
    losingTrades: nat)

  function TradeFees(trades: seq<Trade>): real
  {
    if trades == [] then 0.0 else TradeFees(trades[..|trades| - 1]) + trades[|trades| - 1].fees
  }

  function CountWinning(trades: seq<Trade>): (n: nat)
    ensures n <= |trades|
  {
    if trades == [] then 0 else CountWinning(trades[..|trades| - 1]) + (if trades[|trades| - 1].netProfit > 0.0 then 1 else 0)
  }

  function CountLosing(trades: seq<Trade>): (n: nat)
    ensures n <= |trades|
  {
    if trades == [] then 0 else CountLosing(trades[..|trades| - 1]) + (if trades[|trades| - 1].netProfit < 0.0 then 1 else 0)
  }

  /** The statistics `calculate_period_profit` computes from the period's trades. */
  function Statistics(w: Window, startingBalance: real, trades: seq<Trade>, totalProfit: real): PeriodProfit
  {
    PeriodProfit(w.start, w.end, startingBalance, startingBalance + totalProfit, totalProfit, TradeFees(trades),
                 totalProfit, if startingBalance > 0.0 then totalProfit / startingBalance * 100.0 else 0.0,
                 |trades|, CountWinning(trades), CountLosing(trades))
  }

  /** `calculate_period_profit`: reconstruct the window's operations from scratch and summarise. */
  function PeriodProfitOf(ops: seq<Operation>, w: Window, startingBalance: real, offsetHours: int): Result<PeriodProfit>
  {
    match ProcessOperations(PeriodOps(ops, w), offsetHours)
    case Failure(e) => Failure(e)
    case Ok(o) => Ok(Statistics(w, startingBalance, o.trades, o.totalProfit))
  }

  lemma {:induction false} WinningLosingDisjoint(trades: seq<Trade>)
    ensures CountWinning(trades) + CountLosing(trades) <= |trades|
  {
    if trades != [] {
      WinningLosingDisjoint(trades[..|trades| - 1]);
    }
  }

  /**
   * The period record: the ending balance is the starting balance plus the net profit, the net
   * profit is the total, winners and losers are disjoint, and the percentage is relative to a
   * positive starting balance and 0 otherwise.
   */
  lemma StatisticsFacts(w: Window, startingBalance: real, trades: seq<Trade>, totalProfit: real)
    ensures var r := Statistics(w, startingBalance, trades, totalProfit);
      && r.startDate == w.start && r.endDate == w.end
      && r.startingBalance == startingBalance
      && r.netProfit == r.totalProfit == totalProfit
      && r.endingBalance == startingBalance + r.netProfit
      && r.tradesCount == |trades|
      && r.winningTrades + r.losingTrades <= r.tradesCount
      && (startingBalance > 0.0 ==> r.profitPercentage * startingBalance == r.netProfit * 100.0)
      && (startingBalance <= 0.0 ==> r.profitPercentage == 0.0)
  {
    WinningLosingDisjoint(trades);
  }

  /**
   * A period fails exactly when some buy or sell of the window has quantity zero. Otherwise its
   * net profit is the sum of the net profits of the sessions rebuilt from the window's operations,
   * it counts one trade per session, and it ends at the starting balance plus its net profit.
   */
  lemma PeriodProfitFacts(ops: seq<Operation>, w: Window, startingBalance: real, offsetHours: int)
    ensures var r := PeriodProfitOf(ops, w, startingBalance, offsetHours);
      && (r.Failure? <==> Sessions.HasZeroTrade(PeriodOps(ops, w)))
      && (r.Ok? ==>
            var o := ProcessOperations(PeriodOps(ops, w), offsetHours).value;
            && r.value.startDate == w.start && r.value.endDate == w.end
            && r.value.startingBalance == startingBalance
            && r.value.netProfit == r.value.totalProfit == SessionsNet(o.sessions)
            && r.value.tradesCount == |o.sessions|
            && r.value.endingBalance == startingBalance + r.value.netProfit
            && r.value.winningTrades + r.value.losingTrades <= r.value.tradesCount
            && (startingBalance > 0.0 ==> r.value.profitPercentage * startingBalance == r.value.netProfit * 100.0)
            && (startingBalance <= 0.0 ==> r.value.profitPercentage == 0.0))
  {
    hide Reconstruct, Statistics, PeriodOps, TradesOfSessions, SessionsNet, Sessions.HasZeroTrade;
    var p := ProcessOperations(PeriodOps(ops, w), offsetHours);
    ReconstructFailsIff(PeriodOps(ops, w), map[], offsetHours);
    if p.Ok? {
      ReconstructFacts(PeriodOps(ops, w), map[], offsetHours);
      StatisticsFacts(w, startingBalance, p.value.trades, p.value.totalProfit);
    }
  }

  /** The loop shared by both splitters: each period starts from the previous period's ending balance. */
  function ChainPeriods(ops: seq<Operation>, windows: seq<Window>, balance: real, offsetHours: int): Result<seq<PeriodProfit>>
    decreases |windows|
  {
    if windows == [] then Ok([])
    else
      match PeriodProfitOf(ops, windows[0], balance, offsetHours)
      case Failure(e) => Failure(e)
      case Ok(p) =>
        match ChainPeriods(ops, windows[1..], p.endingBalance, offsetHours)
        case Failure(e) => Failure(e)
        case Ok(rest) => Ok([p] + rest)
  }

  function NetSum(periods: seq<PeriodProfit>): real
  {
    if periods == [] then 0.0 else periods[0].netProfit + NetSum(periods[1..])
  }

  /** A period record starts at the balance it is given and ends at that balance plus its net profit. */
  lemma PeriodBalance(ops: seq<Operation>, w: Window, balance: real, offsetHours: int)
    ensures var r := PeriodProfitOf(ops, w, balance, offsetHours);
      r.Ok? ==> r.value.startDate == w.start && r.value.endDate == w.end && r.value.startingBalance == balance
                && r.value.endingBalance == balance + r.value.netProfit
  {
    PeriodProfitFacts(ops, w, balance, offsetHours);
  }

  /**
   * One period per window, in order; the first starts at the given balance, each next one at its
   * predecessor's ending balance, and the last ends at that balance plus all periods' net profit.
   */
  lemma {:induction false} ChainPeriodsFacts(ops: seq<Operation>, windows: seq<Window>, balance: real, offsetHours: int)
    ensures var r := ChainPeriods(ops, windows, balance, offsetHours);
      r.Ok? ==>
        && |r.value| == |windows|
        && (forall k :: 0 <= k < |windows| ==> r.value[k].startDate == windows[k].start && r.value[k].endDate == windows[k].end)
        && (windows != [] ==> r.value[0].startingBalance == balance)
        && (forall k :: 0 <= k < |windows| ==> r.value[k].endingBalance == r.value[k].startingBalance + r.value[k].netProfit)
        && (forall k :: 0 < k < |windows| ==> r.value[k].startingBalance == r.value[k - 1].endingBalance)
    decreases |windows|
  {
    hide PeriodProfitOf;
    if windows != [] {
      PeriodBalance(ops, windows[0], balance, offsetHours);
      match PeriodProfitOf(ops, windows[0], balance, offsetHours)
      case Failure(_) =>
      case Ok(p) =>
        ChainPeriodsFacts(ops, windows[1..], p.endingBalance, offsetHours);
        match ChainPeriods(ops, windows[1..], p.endingBalance, offsetHours)
        case Failure(_) =>
        case Ok(rest) =>
          var r := [p] + rest;
          assert r[1..] == rest;
          forall k | 0 < k < |windows| ensures r[k].startingBalance == r[k - 1].endingBalance {
            if k > 1 {
              assert r[k] == rest[k - 1] && r[k - 1] == rest[k - 2];
            }
          }
    }
  }

  /** The last period ends at the first period's starting balance plus all periods' net profit. */
  lemma {:induction false} ChainPeriodsEndBalance(ops: seq<Operation>, windows: seq<Window>, balance: real, offsetHours: int)
    ensures var r := ChainPeriods(ops, windows, balance, offsetHours);
      r.Ok? && windows != [] ==> |r.value| == |windows| && r.value[|windows| - 1].endingBalance == balance + NetSum(r.value)
    decreases |windows|
  {
    hide PeriodProfitOf;
    if windows != [] {
      ChainPeriodsFacts(ops, windows, balance, offsetHours);
      PeriodBalance(ops, windows[0], balance, offsetHours);
      match PeriodProfitOf(ops, windows[0], balance, offsetHours)
      case Failure(_) =>
      case Ok(p) =>
        ChainPeriodsEndBalance(ops, windows[1..], p.endingBalance, offsetHours);
        match ChainPeriods(ops, windows[1..], p.endingBalance, offsetHours)
        case Failure(_) =>
        case Ok(rest) =>
          var r := [p] + rest;
          assert r[1..] == rest;
          assert NetSum(r) == p.netProfit + NetSum(rest);
          if rest == [] {
            assert NetSum(rest) == 0.0;
          } else {
            assert r[|r| - 1] == rest[|rest| - 1];
          }
    }
  }

  function Min(a: int, b: int): int
  {
    if a <= b then a else b
  }

  const Week: nat := 7 * SecondsPerDay

  /** The windows of the weekly loop: Monday to Sunday 23:59:59, the last one cut at `end`. */
  function WeekWindows(weekStart: int, end: int): seq<Window>
    decreases end - weekStart + Week
  {
    if weekStart > end then []
    else [Window(weekStart, Min(weekStart + Week - 1, end))] + WeekWindows(weekStart + Week, end)
  }

  /** Consecutive windows that exactly tile `[from, to]`. */
  predicate Tiles(windows: seq<Window>, from: int, to: int)
  {
    && windows != []
    && windows[0].start == from
    && windows[|windows| - 1].end == to
    && (forall k :: 0 <= k < |windows| ==> windows[k].start <= windows[k].end)
    && (forall k :: 0 < k < |windows| ==> windows[k].start == windows[k - 1].end + 1)
  }

  /** From a Monday midnight the weeks tile the range up to `end`, each starting a whole number of weeks later. */
  lemma {:induction false} WeekWindowsTile(weekStart: int, end: int)
    requires weekStart <= end
    ensures Tiles(WeekWindows(weekStart, end), weekStart, end)
    ensures forall k :: 0 <= k < |WeekWindows(weekStart, end)| ==>
      WeekWindows(weekStart, end)[k].start == weekStart + k * Week
      && WeekWindows(weekStart, end)[k].end - WeekWindows(weekStart, end)[k].start < Week
    decreases end - weekStart
  {
    var w := WeekWindows(weekStart, end);
    if weekStart + Week <= end {
      WeekWindowsTile(weekStart + Week, end);
      var rest := WeekWindows(weekStart + Week, end);
      assert w == [Window(weekStart, weekStart + Week - 1)] + rest;
      forall k | 0 <= k < |w| ensures w[k].start == weekStart + k * Week {
        if k > 0 {
          assert w[k] == rest[k - 1];
        }
      }
      assert forall k :: 0 < k < |w| ==> w[k] == rest[k - 1];
    } else {
      assert WeekWindows(weekStart + Week, end) == [];
      assert w == [Window(weekStart, end)];
    }
  }

  /** Splitting a range into tiles splits its real profit. */
  lemma {:induction false} TilesAddUp(ops: seq<Operation>, windows: seq<Window>, from: int, to: int)
    requires Tiles(windows, from, to)
    ensures from <= to
    ensures PeriodProfitReal(ops, Window(from, to)) == RealSum(ops, windows)
    decreases |windows|
  {
    if |windows| > 1 {
      var rest := windows[1..];
      assert Tiles(rest, windows[0].end + 1, to) by {
        assert forall k :: 0 <= k < |rest| ==> rest[k] == windows[k + 1];
      }
      TilesAddUp(ops, rest, windows[0].end + 1, to);
      PeriodProfitRealSplit(ops, from, windows[0].end, to);
    }
  }

  function RealSum(ops: seq<Operation>, windows: seq<Window>): real
    decreases |windows|
  {
    if windows == [] then 0.0 else PeriodProfitReal(ops, windows[0]) + RealSum(ops, windows[1..])
  }

  /** A window holds a buy or sell of quantity zero exactly when one of the operations inside it is one. */
  lemma ZeroTradeInWindow(ops: seq<Operation>, w: Window)
    ensures Sessions.HasZeroTrade(PeriodOps(ops, w)) <==>
      exists i :: 0 <= i < |ops| && w.start <= ops[i].date <= w.end && IsTrading(ops[i].operationType) && ops[i].quantity == 0
  {
    var f := PeriodOps(ops, w);
    PeriodOpsMembers(ops, w);
    if Sessions.HasZeroTrade(f) {
      var j :| 0 <= j < |f| && IsTrading(f[j].operationType) && f[j].quantity == 0;
      assert f[j] in ops;
    }
    if exists i :: 0 <= i < |ops| && w.start <= ops[i].date <= w.end && IsTrading(ops[i].operationType) && ops[i].quantity == 0 {
      var i :| 0 <= i < |ops| && w.start <= ops[i].date <= w.end && IsTrading(ops[i].operationType) && ops[i].quantity == 0;
      assert ops[i] in f;
    }
  }

  lemma {:induction false} PeriodOpsMembers(ops: seq<Operation>, w: Window)
    ensures forall x :: x in PeriodOps(ops, w) <==> x in ops && w.start <= x.date <= w.end
  {
    if ops != [] {
      var init, op := ops[..|ops| - 1], ops[|ops| - 1];
      PeriodOpsMembers(init, w);
      assert PeriodOps(ops, w) == PeriodOps(init, w) + (if w.start <= op.date <= w.end then [op] else []);
      assert ops == init + [op];
    }
  }

  /** The chain fails exactly when one of its windows holds a buy or sell of quantity zero. */
  lemma {:induction false} ChainPeriodsFailsIff(ops: seq<Operation>, windows: seq<Window>, balance: real, offsetHours: int)
    ensures ChainPeriods(ops, windows, balance, offsetHours).Failure? <==>
      exists k :: 0 <= k < |windows| && Sessions.HasZeroTrade(PeriodOps(ops, windows[k]))
    decreases |windows|
  {
    hide PeriodProfitOf, PeriodOps, Sessions.HasZeroTrade;
    if windows != [] {
      PeriodProfitFacts(ops, windows[0], balance, offsetHours);
      match PeriodProfitOf(ops, windows[0], balance, offsetHours)
      case Failure(_) =>
      case Ok(p) =>
        ChainPeriodsFailsIff(ops, windows[1..], p.endingBalance, offsetHours);
        assert forall k :: 0 < k < |windows| ==> windows[k] == windows[1..][k - 1];
    }
  }

  lemma NoZeroTradeInNothing()
    ensures !Sessions.HasZeroTrade([])
  {
  }

  /** Every instant of a tiled range lies in one of the tiles. */
  lemma {:induction false} TilesCover(windows: seq<Window>, from: int, to: int, t: int)
    requires Tiles(windows, from, to) && from <= t <= to
    ensures exists k :: 0 <= k < |windows| && windows[k].start <= t <= windows[k].end
    decreases |windows|
  {
    if t > windows[0].end {
      var rest := windows[1..];
      assert |windows| > 1;
      assert Tiles(rest, windows[0].end + 1, to) by {
        assert forall k :: 0 <= k < |rest| ==> rest[k] == windows[k + 1];
      }
      TilesCover(rest, windows[0].end + 1, to, t);
      var k :| 0 <= k < |rest| && rest[k].start <= t <= rest[k].end;
      assert windows[k + 1] == rest[k];
    }
  }

  /** The first and last operations in date order bound the dates of all operations. */
  lemma SortedBounds(ops: seq<Operation>)
    requires ops != []
    ensures var s := SortByDate(ops);
      && |s| == |ops|
      && s[0] in ops && s[|s| - 1] in ops
      && forall i :: 0 <= i < |ops| ==> s[0].date <= ops[i].date <= s[|s| - 1].date
  {
    var s := SortByDate(ops);
    SortByDateSorted(ops);
    assert s[0] in multiset(ops) && s[|s| - 1] in multiset(ops);
    forall i | 0 <= i < |ops| ensures s[0].date <= ops[i].date <= s[|s| - 1].date {
      assert ops[i] in multiset(s);
      var j :| 0 <= j < |s| && s[j] == ops[i];
    }
  }

  /**
   * Chaining the periods of a tiling that covers every operation, from a zero balance: it fails
   * exactly when some buy or sell has quantity zero; otherwise the periods tile the range in
   * order, each starting at its predecessor's ending balance, and the last ends at the total
   * net profit of all periods.
   */
  lemma ChainOverTiles(ops: seq<Operation>, windows: seq<Window>, from: int, to: int, offsetHours: int)
    requires Tiles(windows, from, to)
    requires forall i :: 0 <= i < |ops| ==> from <= ops[i].date <= to
    ensures var r := ChainPeriods(ops, windows, 0.0, offsetHours);
      && (r.Failure? <==> Sessions.HasZeroTrade(ops))
      && (r.Ok? ==>
            && |r.value| == |windows|
            && r.value[0].startDate == from && r.value[|r.value| - 1].endDate == to
            && r.value[0].startingBalance == 0.0
            && (forall k :: 0 <= k < |r.value| ==> r.value[k].startDate == windows[k].start && r.value[k].endDate == windows[k].end)
            && (forall k :: 0 < k < |r.value| ==>
                  r.value[k].startDate == r.value[k - 1].endDate + 1 && r.value[k].startingBalance == r.value[k - 1].endingBalance)
            && r.value[|r.value| - 1].endingBalance == NetSum(r.value))
  {
    hide ChainPeriods, PeriodOps;
    ChainPeriodsFailsIff(ops, windows, 0.0, offsetHours);
    ChainPeriodsFacts(ops, windows, 0.0, offsetHours);
    ChainPeriodsEndBalance(ops, windows, 0.0, offsetHours);
    if Sessions.HasZeroTrade(ops) {
      var i :| 0 <= i < |ops| && IsTrading(ops[i].operationType) && ops[i].quantity == 0;
      TilesCover(windows, from, to, ops[i].date);
      var k :| 0 <= k < |windows| && windows[k].start <= ops[i].date <= windows[k].end;
      ZeroTradeInWindow(ops, windows[k]);
    }
    if exists k :: 0 <= k < |windows| && Sessions.HasZeroTrade(PeriodOps(ops, windows[k])) {
      var k :| 0 <= k < |windows| && Sessions.HasZeroTrade(PeriodOps(ops, windows[k]));
      ZeroTradeInWindow(ops, windows[k]);
    }
  }

  /** `get_weekly_profit_analysis`: weeks from the Monday of the first operation's day to the last operation. */
  function WeeklyAnalysis(ops: seq<Operation>, offsetHours: int): Result<seq<PeriodProfit>>
  {
    if ops == [] then Ok([])
    else
      var sorted := SortByDate(ops);
      ChainPeriods(ops, WeekWindows(WeekStart(sorted[0].date), sorted[|sorted| - 1].date), 0.0, offsetHours)
  }

  /**
   * The weekly analysis: nothing for no operations; it fails exactly when some buy or sell has
   * quantity zero; otherwise the weeks start at the Monday midnight of the earliest operation's
   * week, follow each other one week apart, cover every operation, end at the latest operation,
   * and chain their balances from zero.
   */
  lemma WeeklyAnalysisFacts(ops: seq<Operation>, offsetHours: int)
    ensures var r := WeeklyAnalysis(ops, offsetHours);
      && (ops == [] ==> r == Ok([]))
      && (r.Failure? <==> Sessions.HasZeroTrade(ops))
      && (r.Ok? && ops != [] ==>
            var p := r.value;
            && p != []
            && (exists i :: 0 <= i < |ops| && (forall j :: 0 <= j < |ops| ==> ops[i].date <= ops[j].date)
                              && p[0].startDate == WeekStart(ops[i].date))
            && (exists i :: 0 <= i < |ops| && ops[i].date == p[|p| - 1].endDate)
            && (forall i :: 0 <= i < |ops| ==> p[0].startDate <= ops[i].date <= p[|p| - 1].endDate)
            && (forall k :: 0 <= k < |p| ==> p[k].startDate == p[0].startDate + k * Week && p[k].endDate - p[k].startDate < Week)
            && p[0].startingBalance == 0.0
            && (forall k :: 0 < k < |p| ==> p[k].startingBalance == p[k - 1].endingBalance)
            && p[|p| - 1].endingBalance == NetSum(p))
  {
    hide ChainPeriods, WeekWindows, WeekStart, SortByDate, Sessions.HasZeroTrade, NetSum, Tiles;
    if ops == [] {
      NoZeroTradeInNothing();
    } else {
      var sorted := SortByDate(ops);
      SortedBounds(ops);
      var from, to := WeekStart(sorted[0].date), sorted[|sorted| - 1].date;
      WeekWindowsTile(from, to);
      ChainOverTiles(ops, WeekWindows(from, to), from, to, offsetHours);
      var i :| 0 <= i < |ops| && ops[i] == sorted[0];
      var l :| 0 <= l < |ops| && ops[l] == sorted[|sorted| - 1];
    }
  }

  /** The windows of the monthly loop: whole calendar months, the last one cut at `end`. */
  function MonthWindows(y: nat, m: nat, end: int): seq<Window>
    requires y >= 1 && 1 <= m <= 12
    decreases end - MonthStart(y, m) + 1
  {
    if MonthStart(y, m) > end then []
    else
      NextMonthStart(y, m);
      var next := MonthStart(NextYear(y, m), NextMonth(m));
      [Window(MonthStart(y, m), Min(next - 1, end))] + MonthWindows(NextYear(y, m), NextMonth(m), end)
  }

  /** From a month's first day the months tile the range up to `end`, each window starting on a first of the month. */
  lemma {:induction false} MonthWindowsTile(y: nat, m: nat, end: int)
    requires y >= 1 && 1 <= m <= 12 && MonthStart(y, m) <= end
    ensures Tiles(MonthWindows(y, m, end), MonthStart(y, m), end)
    ensures forall k :: 0 <= k < |MonthWindows(y, m, end)| ==>
      var s := MonthWindows(y, m, end)[k].start;
      exists yy: nat, mm: nat :: yy >= 1 && 1 <= mm <= 12 && s == MonthStart(yy, mm)
    decreases end - MonthStart(y, m)
  {
    hide MonthStart, DaysInMonth, DayNumber, DaysBeforeYear, DaysBeforeMonth;
    var w := MonthWindows(y, m, end);
    NextMonthStart(y, m);
    var ny, nm := NextYear(y, m), NextMonth(m);
    if MonthStart(ny, nm) <= end {
      MonthWindowsTile(ny, nm, end);
      var rest := MonthWindows(ny, nm, end);
      assert w == [Window(MonthStart(y, m), MonthStart(ny, nm) - 1)] + rest;
      assert forall k :: 0 < k < |w| ==> w[k] == rest[k - 1];
    } else {
      assert MonthWindows(ny, nm, end) == [];
      assert w == [Window(MonthStart(y, m), end)];
    }
  }

  /** `get_monthly_profit_analysis`: months from the first operation's month to the last operation. */
  function MonthlyAnalysis(ops: seq<Operation>, offsetHours: int): Result<seq<PeriodProfit>>
  {
    if ops == [] then Ok([])
    else
      var sorted := SortByDate(ops);
      var c := CivilOf(sorted[0].date / SecondsPerDay);
      ChainPeriods(ops, MonthWindows(c.year, c.month, sorted[|sorted| - 1].date), 0.0, offsetHours)
  }

  /**
   * The monthly analysis: nothing for no operations; it fails exactly when some buy or sell has
   * quantity zero; otherwise the months start on the first of the earliest operation's month,
   * each one starts on a first of the month right after its predecessor, they cover every
   * operation, end at the latest operation, and chain their balances from zero.
   */
  lemma MonthlyAnalysisFacts(ops: seq<Operation>, offsetHours: int)
    ensures var r := MonthlyAnalysis(ops, offsetHours);
      && (ops == [] ==> r == Ok([]))
      && (r.Failure? <==> Sessions.HasZeroTrade(ops))
      && (r.Ok? && ops != [] ==>
            var p := r.value;
            && p != []
            && (exists i :: 0 <= i < |ops| && (forall j :: 0 <= j < |ops| ==> ops[i].date <= ops[j].date)
                              && var c := CivilOf(ops[i].date / SecondsPerDay); p[0].startDate == MonthStart(c.year, c.month))
            && (exists i :: 0 <= i < |ops| && ops[i].date == p[|p| - 1].endDate)
            && (forall i :: 0 <= i < |ops| ==> p[0].startDate <= ops[i].date <= p[|p| - 1].endDate)
            && (forall k :: 0 <= k < |p| ==> exists yy: nat, mm: nat :: yy >= 1 && 1 <= mm <= 12 && p[k].startDate == MonthStart(yy, mm))
            && (forall k :: 0 < k < |p| ==> p[k].startDate == p[k - 1].endDate + 1)
            && p[0].startingBalance == 0.0
            && (forall k :: 0 < k < |p| ==> p[k].startingBalance == p[k - 1].endingBalance)
            && p[|p| - 1].endingBalance == NetSum(p))
  {
    hide ChainPeriods, MonthWindows, MonthStart, CivilOf, SortByDate, Sessions.HasZeroTrade, NetSum;
    if ops == [] {
      NoZeroTradeInNothing();
    } else {
      var sorted := SortByDate(ops);
      SortedBounds(ops);
      var c := CivilOf(sorted[0].date / SecondsPerDay);
      MonthlyStartsBeforeFirst(sorted[0].date);
      var to := sorted[|sorted| - 1].date;
      MonthWindowsTile(c.year, c.month, to);
      ChainOverTiles(ops, MonthWindows(c.year, c.month, to), MonthStart(c.year, c.month), to, offsetHours);
      var i :| 0 <= i < |ops| && ops[i] == sorted[0];
      var l :| 0 <= l < |ops| && ops[l] == sorted[|sorted| - 1];
    }
  }

  /** The first month window starts no later than the first operation, so the months cover every operation. */
  lemma MonthlyStartsBeforeFirst(t: Instant)
    ensures var c := CivilOf(t / SecondsPerDay); MonthStart(c.year, c.month) <= t
  {
    var c := CivilOf(t / SecondsPerDay);
    assert DayNumber(c.year, c.month, 1) <= t / SecondsPerDay;
  }
}
