/** Completed trades and the conversion of finalized sessions into them. */
module Trades {
  import opened Common
  import opened Sessions
  import opened Claims

  /** A completed trade; `sessionData` is the session it was made from, if any. */
  datatype Trade = Trade(
    tradeId: string,
    figi: string,
    instrumentName: string,
    entryTime: int,
    exitTime: int,
    entryPrice: real,
    exitPrice: real,
    quantity: int,
    direction: Direction,
    grossProfit: real,
    fees: real,
    netProfit: real,
    entryOperationId: string,
    exitOperationId: string,
    sessionData: Option<Session>,
    variationMargin: real)

  /** `correct_timezone`: `date + timedelta(hours=offset)`. */
  function CorrectTimezone(t: int, offsetHours: int): (r: int)
    ensures Shift(r, offsetHours) == t
  {
    t + offsetHours * 3600
  }

  /** Session totals divided by quantities, 0 for an empty leg. */
  function AveragePrice(amount: real, quantity: nat): real
  {
    if quantity > 0 then amount / quantity as real else 0.0
  }

  /** `_create_trade_from_session`. */
  function TradeFromSession(s: Session, offsetHours: int): Trade
    requires s.operations != []
  {
    var start, end := CorrectTimezone(s.startTime, offsetHours), CorrectTimezone(s.endTime, offsetHours);
    Trade(s.sessionId, s.figi, s.instrumentName, start, end,
          AveragePrice(s.totalSellAmount, s.totalSold), AveragePrice(s.totalBuyAmount, s.totalBought),
          s.totalSold, s.direction, s.grossProfit, s.fees, s.netProfit,
          s.operations[0].id, s.operations[|s.operations| - 1].id,
          Some(s.(startTime := start, endTime := end)), s.variationMargin)
  }

  /**
   * The trade of a session: the entry price is always the average sell price and the exit price
   * the average buy price (whatever the direction), the quantity is the quantity sold, times are
   * shifted by the offset, ids are the first and last record, and the profit figures are the session's.
   */
  lemma TradeFromSessionFacts(s: Session, offsetHours: int)
    requires s.operations != []
    ensures var t := TradeFromSession(s, offsetHours);
      && (s.totalSold > 0 ==> t.entryPrice * s.totalSold as real == s.totalSellAmount)
      && (s.totalSold == 0 ==> t.entryPrice == 0.0)
      && (s.totalBought > 0 ==> t.exitPrice * s.totalBought as real == s.totalBuyAmount)
      && (s.totalBought == 0 ==> t.exitPrice == 0.0)
      && t.quantity == s.totalSold
      && Shift(t.entryTime, offsetHours) == s.startTime && Shift(t.exitTime, offsetHours) == s.endTime
      && t.entryOperationId == s.operations[0].id
      && t.exitOperationId == s.operations[|s.operations| - 1].id
      && t.netProfit == s.netProfit && t.grossProfit == s.grossProfit && t.fees == s.fees
      && t.variationMargin == s.variationMargin && t.direction == s.direction
      && t.sessionData.Some? && SameRecords(t.sessionData.value, s.(startTime := t.entryTime, endTime := t.exitTime))
  {
  }

  /** `_convert_sessions_to_trades`: one trade per session, in order. */
  function TradesOfSessions(sessions: seq<Session>, offsetHours: int): (r: seq<Trade>)
    requires AllNonEmpty(sessions)
    ensures |r| == |sessions|
    ensures forall k :: 0 <= k < |sessions| ==> r[k] == TradeFromSession(sessions[k], offsetHours)
  {
    if sessions == [] then []
    else TradesOfSessions(sessions[..|sessions| - 1], offsetHours) + [TradeFromSession(sessions[|sessions| - 1], offsetHours)]
  }

  /** `sum(trade.net_profit for trade in trades)`. */
  function TotalNet(trades: seq<Trade>): real
  {
    if trades == [] then 0.0 else TotalNet(trades[..|trades| - 1]) + trades[|trades| - 1].netProfit
  }

  function SessionsNet(sessions: seq<Session>): real
  {
    if sessions == [] then 0.0 else SessionsNet(sessions[..|sessions| - 1]) + sessions[|sessions| - 1].netProfit
  }

  /** The total profit reported is the sum of the sessions' net profits. */
  lemma {:induction false} TotalNetOfSessions(sessions: seq<Session>, offsetHours: int)
    requires AllNonEmpty(sessions)
    ensures TotalNet(TradesOfSessions(sessions, offsetHours)) == SessionsNet(sessions)
  {
    if sessions != [] {
      var init := sessions[..|sessions| - 1];
      TotalNetOfSessions(init, offsetHours);
      var r := TradesOfSessions(sessions, offsetHours);
      assert r[..|r| - 1] == TradesOfSessions(init, offsetHours);
    }
  }
}
