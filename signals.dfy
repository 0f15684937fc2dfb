/**
 * The arithmetic of the signal bot's web app: the dashboard's pairing of opposite full-size
 * trades into marks, the order size sent on a BUY or SELL signal, and the delay before a failed
 * order is retried around the exchange's clearing breaks.
 */
module Signals {
  import opened Common

  /** The operation descriptions the dashboard tells apart. */
  datatype Kind =
    | Purchase        // "Покупка ценных бумаг"
    | Sale            // "Продажа ценных бумаг"
    | Commission      // "Удержание комиссии за операцию"
    | MarginWriteOff  // "Списание вариационной маржи"
    | MarginAccrual   // "Зачисление вариационной маржи"
    | OtherKind

  /** An operation as the dashboard reads it; the date is in seconds, the payment in roubles. */
  datatype Entry = Entry(id: string, figi: string, kind: Kind, quantity: int, payment: real, date: int)

  datatype MarkType = Short | Long

  /** One row of the dashboard's trade table. */
  datatype Mark = Mark(num: nat, timeStart: int, timeEnd: int, markType: MarkType, figi: string, result: real)

  /** The dashboard's `correct_timezone`: three hours ahead. */
  function CorrectTimezone(date: int): (r: int)
    ensures r - date == 3 * 3600
  {
    date + 3 * 3600
  }

  /** A buy or sell of exactly twice the position limit: the only operations that open or close a mark. */
  predicate Qualifies(e: Entry, qLimit: real)
  {
    (e.kind == Purchase || e.kind == Sale) && e.quantity as real == qLimit * 2.0
  }

  /** Commission and both variation-margin kinds add their payment to the income. */
  predicate IsCost(k: Kind)
  {
    k == Commission || k == MarginWriteOff || k == MarginAccrual
  }

  /** The previous qualifying operation is for the same instrument and the other direction. */
  predicate Emits(prev: Option<Entry>, e: Entry)
  {
    && prev.Some?
    && prev.value.figi == e.figi
    && (if e.kind == Purchase then prev.value.kind == Sale else prev.value.kind == Purchase)
  }

  /** `add_mark(prev, i, type)`: a buy closes a Short, a sell closes a Long. */
  function MarkFor(prev: Entry, e: Entry, num: nat): Mark
  {
    Mark(num, CorrectTimezone(e.date), CorrectTimezone(prev.date),
         if e.kind == Purchase then Short else Long, e.figi, prev.payment / 2.0 + e.payment / 2.0)
  }

  /** What the scan has built so far: `res`, `prev`, `inc` and `num`. */
  datatype ScanState = ScanState(marks: seq<Mark>, prev: Option<Entry>, inc: real, num: nat)

  /** One iteration of the scan loop. */
  function Step(st: ScanState, e: Entry, qLimit: real): ScanState
  {
    if Qualifies(e, qLimit) then
      var closed :=
        if Emits(st.prev, e) then
          var m := MarkFor(st.prev.value, e, st.num);
          ScanState(st.marks + [m], st.prev, st.inc + m.result, st.num + 1)
        else st;
      closed.(prev := Some(e))
    else if IsCost(e.kind) then st.(inc := st.inc + e.payment)
    else st
  }

  /** The scan over `entries`, in the order given. */
  function Scan(entries: seq<Entry>, qLimit: real): ScanState
  {
    if entries == [] then ScanState([], None, 0.0, 1)
    else Step(Scan(entries[..|entries| - 1], qLimit), entries[|entries| - 1], qLimit)
  }

  function Reversed<T>(s: seq<T>): (r: seq<T>)
    ensures |r| == |s|
    ensures forall i :: 0 <= i < |s| ==> r[i] == s[|s| - 1 - i]
  {
    if s == [] then [] else Reversed(s[1..]) + [s[0]]
  }

  /** `list.reverse()`: the array is reversed in place. */
  method Reverse<T>(a: array<T>)
    modifies a
    ensures a[..] == Reversed(old(a[..]))
  {
    var n := a.Length;
    var i := 0;
    while i < n / 2
      invariant 0 <= i <= n / 2
      invariant forall k :: 0 <= k < i ==> a[k] == old(a[n - 1 - k]) && a[n - 1 - k] == old(a[k])
      invariant forall k :: i <= k < n - i ==> a[k] == old(a[k])
    {
      a[i], a[n - 1 - i] := a[n - 1 - i], a[i];
      i := i + 1;
    }
  }

  /**
   * `calc_trades`: reverses the caller's list in place, then scans it, threading the last
   * qualifying operation and numbering the marks it emits.
   */
  method CalcTrades(trades: array<Entry>, qLimit: real) returns (res: seq<Mark>, inc: real)
    modifies trades
    ensures trades[..] == Reversed(old(trades[..]))
    ensures res == Scan(trades[..], qLimit).marks && inc == Scan(trades[..], qLimit).inc
  {
    hide Reversed, CorrectTimezone, Scan;
    Reverse(trades);
    res := [];
    inc := 0.0;
    var prev: Option<Entry> := None;
    var num: nat := 1;
    ScanEmpty(trades[..0], qLimit);
    for i := 0 to trades.Length
      invariant trades[..] == Reversed(old(trades[..]))
      invariant Scan(trades[..i], qLimit) == ScanState(res, prev, inc, num)
    {
      var e := trades[i];
      ScanAppend(trades[..i], e, qLimit);
      assert trades[..i + 1] == trades[..i] + [e];
      if (e.kind == Purchase || e.kind == Sale) && e.quantity as real == qLimit * 2.0 {
        if prev.Some? && prev.value.figi == e.figi
           && (if e.kind == Purchase then prev.value.kind == Sale else prev.value.kind == Purchase)
        {
          var result := prev.value.payment / 2.0 + e.payment / 2.0;
          inc := inc + result;
          res := res + [Mark(num, CorrectTimezone(e.date), CorrectTimezone(prev.value.date),
                             if e.kind == Purchase then Short else Long, e.figi, result)];
          num := num + 1;
        }
        prev := Some(e);
      } else if e.kind == Commission || e.kind == MarginWriteOff || e.kind == MarginAccrual {
        inc := inc + e.payment;
      }
    }
    assert trades[..trades.Length] == trades[..];
  }

  lemma ScanEmpty(entries: seq<Entry>, qLimit: real)
    requires entries == []
    ensures Scan(entries, qLimit) == ScanState([], None, 0.0, 1)
  {
  }

  lemma ScanAppend(entries: seq<Entry>, e: Entry, qLimit: real)
    ensures Scan(entries + [e], qLimit) == Step(Scan(entries, qLimit), e, qLimit)
  {
    assert (entries + [e])[..|entries|] == entries;
  }

  lemma MulMonotonic(a: real, b: real, c: real)
    requires a < b && c > 0.0
    ensures a * c < b * c
  {
  }

  lemma MulMonotonicLe(a: real, b: real, c: real)
    requires a <= b && c > 0.0
    ensures a * c <= b * c
  {
  }

  /** The last operation of `entries` that qualifies, if any. */
  function LastQualifying(entries: seq<Entry>, qLimit: real): Option<Entry>
  {
    if entries == [] then None
    else if Qualifies(entries[|entries| - 1], qLimit) then Some(entries[|entries| - 1])
    else LastQualifying(entries[..|entries| - 1], qLimit)
  }

  /** `prev` is always the last qualifying operation seen; other buys and sells leave it alone. */
  lemma {:induction false} ScanPrev(entries: seq<Entry>, qLimit: real)
    ensures Scan(entries, qLimit).prev == LastQualifying(entries, qLimit)
  {
    if entries != [] {
      ScanPrev(entries[..|entries| - 1], qLimit);
    }
  }

  /** Marks are numbered 1, 2, 3, … in the order they are emitted, and `num` is the next number. */
  lemma {:induction false} ScanNumbering(entries: seq<Entry>, qLimit: real)
    ensures var st := Scan(entries, qLimit);
      && st.num == |st.marks| + 1
      && forall k :: 0 <= k < |st.marks| ==> st.marks[k].num == k + 1
  {
    if entries != [] {
      ScanNumbering(entries[..|entries| - 1], qLimit);
    }
  }

  /**
   * A new operation adds a mark exactly when it qualifies and the last qualifying operation
   * before it is for the same instrument in the other direction; the mark pairs the two.
   */
  lemma ScanEmits(entries: seq<Entry>, e: Entry, qLimit: real)
    ensures var before := Scan(entries, qLimit);
      Scan(entries + [e], qLimit).marks
        == before.marks
           + (if Qualifies(e, qLimit) && Emits(LastQualifying(entries, qLimit), e)
              then [MarkFor(LastQualifying(entries, qLimit).value, e, |before.marks| + 1)] else [])
  {
    assert (entries + [e])[..|entries|] == entries;
    ScanPrev(entries, qLimit);
    ScanNumbering(entries, qLimit);
  }

  function MarkTotal(marks: seq<Mark>): real
  {
    if marks == [] then 0.0 else MarkTotal(marks[..|marks| - 1]) + marks[|marks| - 1].result
  }

  function CostTotal(entries: seq<Entry>): real
  {
    if entries == [] then 0.0
    else CostTotal(entries[..|entries| - 1])
         + (if IsCost(entries[|entries| - 1].kind) then entries[|entries| - 1].payment else 0.0)
  }

  /** The income is the marks' results plus every commission and variation-margin payment. */
  lemma {:induction false} ScanIncome(entries: seq<Entry>, qLimit: real)
    ensures Scan(entries, qLimit).inc == MarkTotal(Scan(entries, qLimit).marks) + CostTotal(entries)
  {
    if entries != [] {
      var init := entries[..|entries| - 1];
      ScanIncome(init, qLimit);
      var st := Scan(init, qLimit);
      var e := entries[|entries| - 1];
      if Qualifies(e, qLimit) && Emits(st.prev, e) {
        var m := MarkFor(st.prev.value, e, st.num);
        assert (st.marks + [m])[..|st.marks|] == st.marks;
      }
    }
  }

  /** A mark's result is half of each of the two payments it pairs. */
  lemma MarkResult(prev: Entry, e: Entry, num: nat)
    requires Emits(Some(prev), e)
    ensures MarkFor(prev, e, num).result == (prev.payment + e.payment) / 2.0
    ensures MarkFor(prev, e, num).markType == Short <==> prev.kind == Sale
    ensures MarkFor(prev, e, num).timeEnd - MarkFor(prev, e, num).timeStart == prev.date - e.date
  {
  }

  /** What a signal leads to: nothing to do, an order of `lots` lots, or a failure that schedules a retry. */
  datatype Sizing = NothingToDo | Place(lots: int) | Failed

  /** Python's `int(x)` on a float: truncation toward zero. */
  function Truncate(x: real): (n: int)
    ensures x >= 0.0 ==> n == x.Floor
    ensures x < 0.0 ==> n == -((-x).Floor)
  {
    if x >= 0.0 then x.Floor else -((-x).Floor)
  }

  /**
   * `handle_buy`: below the limit, buy the gap in whole lots; an instrument without a lot size
   * makes the division raise, which the handler turns into a failure.
   */
  function BuyOrder(qLimit: real, position: int, lot: int): Sizing
  {
    if position as real < qLimit then
      if lot == 0 then Failed else Place(Truncate((qLimit - position as real) / lot as real))
    else NothingToDo
  }

  /** `handle_sell`: above minus the limit, sell down to it in whole lots. */
  function SellOrder(qLimit: real, position: int, lot: int): Sizing
  {
    if position as real > -qLimit then
      if lot == 0 then Failed else Place(Truncate((qLimit + position as real) / lot as real))
    else NothingToDo
  }

  /**
   * A buy is placed exactly when the position is under the limit and the lot size is known;
   * it is the largest whole number of lots that does not take the position above the limit.
   */
  lemma BuyOrderFacts(qLimit: real, position: int, lot: nat)
    ensures BuyOrder(qLimit, position, lot).Place? <==> position as real < qLimit && lot > 0
    ensures BuyOrder(qLimit, position, lot).NothingToDo? <==> position as real >= qLimit
    ensures BuyOrder(qLimit, position, lot).Place? ==>
      var n := BuyOrder(qLimit, position, lot).lots;
      && n >= 0
      && position as real + n as real * lot as real <= qLimit
      && qLimit < position as real + (n as real + 1.0) * lot as real
  {
    if position as real < qLimit && lot > 0 {
      LotsFor(qLimit - position as real, lot);
    }
  }

  /** A sell is the largest whole number of lots that does not take the position below minus the limit. */
  lemma SellOrderFacts(qLimit: real, position: int, lot: nat)
    ensures SellOrder(qLimit, position, lot).Place? <==> position as real > -qLimit && lot > 0
    ensures SellOrder(qLimit, position, lot).NothingToDo? <==> position as real <= -qLimit
    ensures SellOrder(qLimit, position, lot).Place? ==>
      var n := SellOrder(qLimit, position, lot).lots;
      && n >= 0
      && position as real - n as real * lot as real >= -qLimit
      && -qLimit > position as real - (n as real + 1.0) * lot as real
  {
    if position as real > -qLimit && lot > 0 {
      LotsFor(qLimit + position as real, lot);
    }
  }

  /** `int(x / lot)` for a positive amount is the number of whole lots that fit into it. */
  lemma LotsFor(x: real, lot: nat)
    requires x > 0.0 && lot > 0
    ensures var n := Truncate(x / lot as real);
      n >= 0 && n as real * lot as real <= x < (n as real + 1.0) * lot as real
  {
    var l := lot as real;
    Quotient(x, lot);
    var n := Truncate(x / l);
    assert n as real <= x / l < n as real + 1.0;
    ScaledLower(x, x / l, l, n as real);
    ScaledUpper(x, x / l, l, n as real + 1.0);
  }

  lemma Quotient(x: real, lot: nat)
    requires x > 0.0 && lot > 0
    ensures x / lot as real > 0.0 && (x / lot as real) * lot as real == x
  {
  }

  /** A bound below a quotient `q == x / l` scales to a bound below `x`. */
  lemma ScaledLower(x: real, q: real, l: real, k: real)
    requires l > 0.0 && q * l == x && k <= q
    ensures k * l <= x
  {
    MulMonotonicLe(k, q, l);
  }

  /** A bound above a quotient `q == x / l` scales to a bound above `x`. */
  lemma ScaledUpper(x: real, q: real, l: real, k: real)
    requires l > 0.0 && q * l == x && q < k
    ensures x < k * l
  {
    MulMonotonic(q, k, l);
  }

  /** With single-unit lots and a whole limit, a buy lands exactly on the limit and a sell on minus the limit. */
  lemma OrdersReachTarget(qLimit: int, position: int)
    ensures BuyOrder(qLimit as real, position, 1).Place? ==>
      position + BuyOrder(qLimit as real, position, 1).lots == qLimit
    ensures SellOrder(qLimit as real, position, 1).Place? ==>
      position - SellOrder(qLimit as real, position, 1).lots == -qLimit
  {
    BuyOrderFacts(qLimit as real, position, 1);
    SellOrderFacts(qLimit as real, position, 1);
  }

  /** The retry delay in `wait_for_trade`, from the wall-clock hour, minute and second. */
  function RetryDelay(hour: int, minute: int, second: int): (d: int)
    ensures d >= 0
  {
    if hour == 14 && 0 <= minute < 6 then Max(5 * 60 - minute * 60 - second + 1, 0)
    else if hour == 18 && minute >= 50 then Max(15 * 60 - (minute - 50) * 60 - second + 1, 0)
    else if hour == 19 && minute <= 5 then Max(5 * 60 - minute * 60 - second + 1, 0)
    else 10
  }

  function Max(a: int, b: int): int
  {
    if a >= b then a else b
  }

  predicate ValidClock(hour: int, minute: int, second: int)
  {
    0 <= hour < 24 && 0 <= minute < 60 && 0 <= second < 60
  }

  function SecondOfDay(hour: int, minute: int, second: int): int
  {
    hour * 3600 + minute * 60 + second
  }

  /**
   * Inside the two clearing windows the bot sleeps until one second after the exchange reopens
   * (14:05:01 after the day clearing, 19:05:01 after the evening one); at any other time it
   * polls every ten seconds.
   */
  lemma RetryDelayWaitsForReopening(hour: int, minute: int, second: int)
    requires ValidClock(hour, minute, second)
    ensures var now := SecondOfDay(hour, minute, second);
      && (hour == 14 && minute <= 5 ==>
            RetryDelay(hour, minute, second) == Max(SecondOfDay(14, 5, 1) - now, 0))
      && ((hour == 18 && minute >= 50) || (hour == 19 && minute <= 5) ==>
            RetryDelay(hour, minute, second) == Max(SecondOfDay(19, 5, 1) - now, 0))
      && (!(hour == 14 && minute <= 5) && !(hour == 18 && minute >= 50) && !(hour == 19 && minute <= 5) ==>
            RetryDelay(hour, minute, second) == 10)
  {
  }

  /** No wait is longer than the evening clearing break itself (15 minutes and a second). */
  lemma RetryDelayBounded(hour: int, minute: int, second: int)
    requires ValidClock(hour, minute, second)
    ensures RetryDelay(hour, minute, second) <= 901
  {
  }
}
