/**
 * The older first-in-first-out lot matcher: open buy lots and open short (sell) lots per FIGI, each
 * incoming operation closing the oldest open lots of the opposite kind.
 */
module Fifo {
  import opened Common
  import opened Operations
  import opened Sessions
  import opened Claims
  import opened Trades

  datatype LotKind = BuyLot | SellLot

  /** An element of `positions[figi]`. */
  datatype Lot = Lot(
    kind: LotKind,
    operation: Operation,
    quantity: int,
    price: real,
    payment: real,
    date: Instant,
    processed: bool)

  /** A lot that the matcher may still close against. */
  predicate Open(l: Lot, kind: LotKind)
  {
    l.kind == kind && !l.processed && l.quantity > 0
  }

  function FindFrom(lots: seq<Lot>, kind: LotKind, i: nat): (r: Option<nat>)
    requires i <= |lots|
    ensures r.Some? ==> i <= r.value < |lots| && Open(lots[r.value], kind)
    ensures r.Some? ==> forall j :: i <= j < r.value ==> !Open(lots[j], kind)
    ensures r.None? ==> forall j :: i <= j < |lots| ==> !Open(lots[j], kind)
    decreases |lots| - i
  {
    if i == |lots| then None
    else if Open(lots[i], kind) then Some(i)
    else FindFrom(lots, kind, i + 1)
  }

  /** `_find_oldest_buy`: the index of the first open buy lot. */
  function FindOldestBuy(lots: seq<Lot>): (r: Option<nat>)
    ensures r.Some? ==> r.value < |lots| && Open(lots[r.value], BuyLot)
                        && forall j :: 0 <= j < r.value ==> !Open(lots[j], BuyLot)
    ensures r.None? ==> forall j :: 0 <= j < |lots| ==> !Open(lots[j], BuyLot)
  {
    FindFrom(lots, BuyLot, 0)
  }

  /** `_find_oldest_short`: the index of the first open short lot. */
  function FindOldestShort(lots: seq<Lot>): (r: Option<nat>)
    ensures r.Some? ==> r.value < |lots| && Open(lots[r.value], SellLot)
                        && forall j :: 0 <= j < r.value ==> !Open(lots[j], SellLot)
    ensures r.None? ==> forall j :: 0 <= j < |lots| ==> !Open(lots[j], SellLot)
  {
    FindFrom(lots, SellLot, 0)
  }

  function FindOldest(lots: seq<Lot>, kind: LotKind): Option<nat>
  {
    if kind == BuyLot then FindOldestBuy(lots) else FindOldestShort(lots)
  }

  /**
   * `_create_trade` for a lot closed by `op`: a LONG closes a buy lot with a sell, a SHORT closes a
   * sell lot with a buy.
   */
  function CreateTrade(lot: Lot, op: Operation, quantity: int, direction: Direction, offsetHours: int): (t: Trade)
    ensures t.quantity == quantity
  {
    var isLong := direction == Long;
    var buyPrice := if isLong then lot.price else op.price;
    var sellPrice := if isLong then op.price else lot.price;
    var gross := (sellPrice - buyPrice) * quantity as real;
    Trade(lot.operation.id + "_" + op.id,
          if isLong then op.figi else lot.operation.figi,
          if isLong then op.instrumentUid.GetOr(op.figi) else lot.operation.figi,
          CorrectTimezone(lot.date, offsetHours), CorrectTimezone(op.date, offsetHours),
          if direction == Short then sellPrice else buyPrice,
          if direction == Short then buyPrice else sellPrice,
          quantity, direction, gross, 0.0, gross - 0.0, lot.operation.id, op.id, None, 0.0)
  }

  /**
   * Whatever the direction, entry is the lot and exit is the closing operation, and the gross
   * profit is the sell price minus the buy price times the quantity; fees start at zero.
   */
  lemma CreateTradeFacts(lot: Lot, op: Operation, quantity: int, direction: Direction, offsetHours: int)
    requires direction == Long || direction == Short
    ensures var t := CreateTrade(lot, op, quantity, direction, offsetHours);
      && t.entryPrice == lot.price && t.exitPrice == op.price
      && t.grossProfit == (if direction == Long then op.price - lot.price else lot.price - op.price) * quantity as real
      && t.tradeId == t.entryOperationId + "_" + t.exitOperationId
      && t.entryOperationId == lot.operation.id && t.exitOperationId == op.id
      && t.netProfit == t.grossProfit && t.fees == 0.0
      && Shift(t.entryTime, offsetHours) == lot.date && Shift(t.exitTime, offsetHours) == op.date
  {
  }

  function Min(a: int, b: int): int
  {
    if a <= b then a else b
  }

  datatype Closing = Closing(lots: seq<Lot>, trades: seq<Trade>, remaining: nat, exhausted: bool)

  /**
   * The `while quantity > 0` loop of `_process_buy_operation` / `_process_sell_operation`: close
   * min(remaining, lot quantity) against the oldest open lot of `kind` until nothing remains or no
   * such lot is left (`exhausted`).
   */
  function CloseLots(lots: seq<Lot>, kind: LotKind, op: Operation, remaining: nat, direction: Direction,
                     offsetHours: int): (r: Closing)
    ensures |r.lots| == |lots|
    ensures r.remaining <= remaining
    ensures r.exhausted ==> r.remaining > 0 && FindOldest(r.lots, kind).None?
    ensures !r.exhausted ==> r.remaining == 0
    decreases remaining
  {
    if remaining == 0 then Closing(lots, [], 0, false)
    else
      match FindOldest(lots, kind)
      case None => Closing(lots, [], remaining, true)
      case Some(k) =>
        var c := Min(remaining, lots[k].quantity);
        var lot := Decrement(lots[k], c);
        var rest := CloseLots(lots[k := lot], kind, op, remaining - c, direction, offsetHours);
        Closing(rest.lots, [CreateTrade(lots[k], op, c, direction, offsetHours)] + rest.trades, rest.remaining, rest.exhausted)
  }

  function Contribution(l: Lot, kind: LotKind): nat
  {
    if Open(l, kind) then l.quantity else 0
  }

  /** The quantity still open in lots of one kind. */
  function OpenQuantity(lots: seq<Lot>, kind: LotKind): nat
  {
    if lots == [] then 0 else OpenQuantity(lots[..|lots| - 1], kind) + Contribution(lots[|lots| - 1], kind)
  }

  lemma {:induction false} OpenQuantityUpdate(lots: seq<Lot>, k: nat, l: Lot, kind: LotKind)
    requires k < |lots|
    ensures OpenQuantity(lots[k := l], kind) == OpenQuantity(lots, kind) - Contribution(lots[k], kind) + Contribution(l, kind)
  {
    var n := |lots| - 1;
    if k < n {
      OpenQuantityUpdate(lots[..n], k, l, kind);
      assert lots[k := l][..n] == lots[..n][k := l];
    } else {
      assert lots[k := l][..n] == lots[..n];
    }
  }

  lemma {:induction false} OpenQuantityAppend(lots: seq<Lot>, l: Lot, kind: LotKind)
    ensures OpenQuantity(lots + [l], kind) == OpenQuantity(lots, kind) + Contribution(l, kind)
  {
    assert (lots + [l])[..|lots|] == lots;
  }

  function TradedQuantity(trades: seq<Trade>): int
  {
    if trades == [] then 0 else trades[0].quantity + TradedQuantity(trades[1..])
  }

  lemma TradedQuantityCons(t: Trade, trades: seq<Trade>)
    ensures TradedQuantity([t] + trades) == t.quantity + TradedQuantity(trades)
  {
    assert ([t] + trades)[1..] == trades;
  }

  /**
   * The bookkeeping of a lot: a non-negative quantity, zero once processed, and for buy lots
   * processed exactly when used up (a short lot of a zero-quantity sell stays unprocessed at zero).
   */
  predicate LotsValid(lots: seq<Lot>)
  {
    forall i :: 0 <= i < |lots| ==>
      && lots[i].quantity >= 0
      && (lots[i].processed ==> lots[i].quantity == 0)
      && (lots[i].kind == BuyLot ==> (lots[i].processed <==> lots[i].quantity == 0))
  }

  /** The lot written back by one match. */
  function Decrement(l: Lot, c: int): Lot
  {
    l.(quantity := l.quantity - c, processed := l.quantity - c == 0)
  }

  /** The three cases of one round of matching. */
  lemma CloseLotsUnfold(lots: seq<Lot>, kind: LotKind, op: Operation, remaining: nat, direction: Direction,
                        offsetHours: int)
    ensures var r := CloseLots(lots, kind, op, remaining, direction, offsetHours);
      && (remaining == 0 ==> r == Closing(lots, [], 0, false))
      && (remaining > 0 && FindOldest(lots, kind).None? ==> r == Closing(lots, [], remaining, true))
      && (remaining > 0 && FindOldest(lots, kind).Some? ==>
            var k := FindOldest(lots, kind).value;
            var c := Min(remaining, lots[k].quantity);
            var rest := CloseLots(lots[k := Decrement(lots[k], c)], kind, op, remaining - c, direction, offsetHours);
            && k < |lots| && Open(lots[k], kind)
            && r == Closing(rest.lots, [CreateTrade(lots[k], op, c, direction, offsetHours)] + rest.trades,
                            rest.remaining, rest.exhausted))
  {
    hide CreateTrade;
  }

  /**
   * Matching conserves quantity: what the trades close plus what remains is what came in, and
   * exactly that much leaves the open lots of that kind.
   */
  lemma CloseLotsConserves(lots: seq<Lot>, kind: LotKind, op: Operation, remaining: nat,
                           direction: Direction, offsetHours: int)
    ensures var r := CloseLots(lots, kind, op, remaining, direction, offsetHours);
      && TradedQuantity(r.trades) + r.remaining == remaining
      && OpenQuantity(r.lots, kind) + (remaining - r.remaining) == OpenQuantity(lots, kind)
  {
    CloseLotsTraded(lots, kind, op, remaining, direction, offsetHours);
    CloseLotsReleased(lots, kind, op, remaining, direction, offsetHours);
  }

  lemma {:induction false} CloseLotsTraded(lots: seq<Lot>, kind: LotKind, op: Operation, remaining: nat,
                                           direction: Direction, offsetHours: int)
    ensures var r := CloseLots(lots, kind, op, remaining, direction, offsetHours);
      TradedQuantity(r.trades) + r.remaining == remaining
    decreases remaining
  {
    hide CloseLots, CreateTrade, FindOldest;
    CloseLotsUnfold(lots, kind, op, remaining, direction, offsetHours);
    if remaining > 0 && FindOldest(lots, kind).Some? {
      var k := FindOldest(lots, kind).value;
      var c := Min(remaining, lots[k].quantity);
      var lot := Decrement(lots[k], c);
      CloseLotsTraded(lots[k := lot], kind, op, remaining - c, direction, offsetHours);
      var rest := CloseLots(lots[k := lot], kind, op, remaining - c, direction, offsetHours);
      TradedQuantityCons(CreateTrade(lots[k], op, c, direction, offsetHours), rest.trades);
    }
  }

  lemma {:induction false} CloseLotsReleased(lots: seq<Lot>, kind: LotKind, op: Operation, remaining: nat,
                                             direction: Direction, offsetHours: int)
    ensures var r := CloseLots(lots, kind, op, remaining, direction, offsetHours);
      OpenQuantity(r.lots, kind) + (remaining - r.remaining) == OpenQuantity(lots, kind)
    decreases remaining
  {
    hide CloseLots, CreateTrade, FindOldest;
    CloseLotsUnfold(lots, kind, op, remaining, direction, offsetHours);
    if remaining > 0 && FindOldest(lots, kind).Some? {
      var k := FindOldest(lots, kind).value;
      var c := Min(remaining, lots[k].quantity);
      var lot := Decrement(lots[k], c);
      assert Contribution(lots[k], kind) == lots[k].quantity && Contribution(lot, kind) == lots[k].quantity - c;
      OpenQuantityUpdate(lots, k, lot, kind);
      CloseLotsReleased(lots[k := lot], kind, op, remaining - c, direction, offsetHours);
    }
  }

  lemma DecrementValid(lots: seq<Lot>, k: nat, c: int)
    requires LotsValid(lots) && k < |lots| && 0 <= c <= lots[k].quantity
    ensures LotsValid(lots[k := Decrement(lots[k], c)])
  {
  }

  /** Matching keeps the bookkeeping valid. */
  lemma {:induction false} CloseLotsValid(lots: seq<Lot>, kind: LotKind, op: Operation, remaining: nat,
                                          direction: Direction, offsetHours: int)
    requires LotsValid(lots)
    ensures LotsValid(CloseLots(lots, kind, op, remaining, direction, offsetHours).lots)
    decreases remaining
  {
    if remaining > 0 {
      var f := FindOldest(lots, kind);
      if f.Some? {
        var k := f.value;
        var c := Min(remaining, lots[k].quantity);
        DecrementValid(lots, k, c);
        CloseLotsValid(lots[k := Decrement(lots[k], c)], kind, op, remaining - c, direction, offsetHours);
      }
    }
  }

  /** Matching never changes a lot's kind or operation, and leaves lots of the other kind alone. */
  lemma {:induction false} CloseLotsFrame(lots: seq<Lot>, kind: LotKind, op: Operation, remaining: nat,
                                          direction: Direction, offsetHours: int)
    ensures var r := CloseLots(lots, kind, op, remaining, direction, offsetHours);
      forall i :: 0 <= i < |lots| ==>
        r.lots[i].kind == lots[i].kind && r.lots[i].operation == lots[i].operation
        && (lots[i].kind != kind ==> r.lots[i] == lots[i])
    decreases remaining
  {
    hide CloseLots, CreateTrade, FindOldest;
    CloseLotsUnfold(lots, kind, op, remaining, direction, offsetHours);
    if remaining > 0 {
      var f := FindOldest(lots, kind);
      if f.Some? {
        var k := f.value;
        var c := Min(remaining, lots[k].quantity);
        CloseLotsFrame(lots[k := Decrement(lots[k], c)], kind, op, remaining - c, direction, offsetHours);
      }
    }
  }

  /** Each match closes min(remaining, lot quantity); the lot is processed exactly when it reaches zero. */
  lemma CloseLotsStep(lots: seq<Lot>, kind: LotKind, op: Operation, remaining: nat, direction: Direction,
                      offsetHours: int, k: nat)
    requires remaining > 0 && FindOldest(lots, kind) == Some(k)
    ensures var c := Min(remaining, lots[k].quantity);
      var lot := Decrement(lots[k], c);
      && c > 0
      && (lot.processed <==> lot.quantity == 0)
      && CloseLots(lots, kind, op, remaining, direction, offsetHours).trades
         == [CreateTrade(lots[k], op, c, direction, offsetHours)]
            + CloseLots(lots[k := lot], kind, op, remaining - c, direction, offsetHours).trades
  {
  }

  function NewLot(kind: LotKind, op: Operation, quantity: int): Lot
  {
    Lot(kind, op, quantity, op.price, op.payment, op.date, false)
  }

  /** `_process_buy_operation`: close shorts, then keep any rest as a new buy lot. */
  function ProcessBuy(lots: seq<Lot>, op: Operation, offsetHours: int): (seq<Lot>, seq<Trade>)
  {
    var r := CloseLots(lots, SellLot, op, op.quantity, Short, offsetHours);
    if r.remaining > 0 then (r.lots + [NewLot(BuyLot, op, r.remaining)], r.trades) else (r.lots, r.trades)
  }

  predicate HasUnprocessedBuy(lots: seq<Lot>)
  {
    exists i :: 0 <= i < |lots| && lots[i].kind == BuyLot && !lots[i].processed
  }

  /** `_handle_short_position`: a sell opens a short lot of its full quantity unless a buy lot is still unprocessed. */
  function HandleShort(lots: seq<Lot>, op: Operation): seq<Lot>
  {
    if HasUnprocessedBuy(lots) then lots else lots + [NewLot(SellLot, op, op.quantity)]
  }

  /** `_process_sell_operation`. */
  function ProcessSell(lots: seq<Lot>, op: Operation, offsetHours: int): (seq<Lot>, seq<Trade>)
  {
    if lots == [] then (HandleShort(lots, op), [])
    else
      var r := CloseLots(lots, BuyLot, op, op.quantity, Long, offsetHours);
      if r.exhausted then (HandleShort(r.lots, op), r.trades) else (r.lots, r.trades)
  }

  /** A buy's quantity is split between the shorts it closes and the new buy lot; open buys grow by the rest. */
  lemma ProcessBuyConserves(lots: seq<Lot>, op: Operation, offsetHours: int)
    requires LotsValid(lots)
    ensures var (lots', trades) := ProcessBuy(lots, op, offsetHours);
      && LotsValid(lots')
      && TradedQuantity(trades) + (OpenQuantity(lots', BuyLot) - OpenQuantity(lots, BuyLot)) == op.quantity
      && OpenQuantity(lots', SellLot) == OpenQuantity(lots, SellLot) - TradedQuantity(trades)
      && lots'[..|lots|] == CloseLots(lots, SellLot, op, op.quantity, Short, offsetHours).lots
  {
    var r := CloseLots(lots, SellLot, op, op.quantity, Short, offsetHours);
    CloseLotsConserves(lots, SellLot, op, op.quantity, Short, offsetHours);
    CloseLotsFrame(lots, SellLot, op, op.quantity, Short, offsetHours);
    CloseLotsValid(lots, SellLot, op, op.quantity, Short, offsetHours);
    OpenQuantityKindUntouched(lots, r.lots, SellLot, BuyLot);
    if r.remaining > 0 {
      var l := NewLot(BuyLot, op, r.remaining);
      OpenQuantityAppend(r.lots, l, BuyLot);
      OpenQuantityAppend(r.lots, l, SellLot);
      assert (r.lots + [l])[..|lots|] == r.lots;
    }
  }

  /** Matching lots of one kind leaves the open quantity of the other kind as it was. */
  lemma {:induction false} OpenQuantityKindUntouched(a: seq<Lot>, b: seq<Lot>, touched: LotKind, other: LotKind)
    requires |a| == |b| && touched != other
    requires forall i :: 0 <= i < |a| ==> b[i].kind == a[i].kind && (a[i].kind != touched ==> b[i] == a[i])
    ensures OpenQuantity(b, other) == OpenQuantity(a, other)
  {
    if a != [] {
      OpenQuantityKindUntouched(a[..|a| - 1], b[..|b| - 1], touched, other);
    }
  }

  /**
   * A sell closes open buys; when there were no lots at all, or the buys ran out before the sell
   * was covered, it opens a short lot of its full quantity (not of the uncovered rest).
   */
  lemma ProcessSellFacts(lots: seq<Lot>, op: Operation, offsetHours: int)
    requires LotsValid(lots)
    ensures var lots', trades := ProcessSell(lots, op, offsetHours).0, ProcessSell(lots, op, offsetHours).1;
      && LotsValid(lots')
      && OpenQuantity(lots', BuyLot) == OpenQuantity(lots, BuyLot) - TradedQuantity(trades)
      && TradedQuantity(trades) <= op.quantity
      && |lots'| == (if TradedQuantity(trades) < op.quantity || lots == [] then |lots| + 1 else |lots|)
      && (|lots'| > |lots| ==> lots'[|lots|] == NewLot(SellLot, op, op.quantity))
  {
    hide ProcessSell, CloseLots;
    var short := NewLot(SellLot, op, op.quantity);
    SellShape(lots, op, offsetHours);
    if lots == [] {
      OpenQuantityAppend([], short, BuyLot);
      assert LotsValid([short]);
    } else {
      var r := CloseLots(lots, BuyLot, op, op.quantity, Long, offsetHours);
      CloseLotsConserves(lots, BuyLot, op, op.quantity, Long, offsetHours);
      CloseLotsValid(lots, BuyLot, op, op.quantity, Long, offsetHours);
      if r.exhausted {
        OpenQuantityAppend(r.lots, short, BuyLot);
        assert LotsValid(r.lots + [short]) by {
          assert forall i :: 0 <= i < |r.lots| ==> (r.lots + [short])[i] == r.lots[i];
        }
      }
    }
  }

  /** What a sell leaves behind: a short lot of its full quantity exactly when no buy lot was left to match. */
  lemma SellShape(lots: seq<Lot>, op: Operation, offsetHours: int)
    requires LotsValid(lots)
    ensures lots == [] ==> ProcessSell(lots, op, offsetHours) == ([NewLot(SellLot, op, op.quantity)], [])
    ensures lots != [] ==>
      var r := CloseLots(lots, BuyLot, op, op.quantity, Long, offsetHours);
      ProcessSell(lots, op, offsetHours)
        == (if r.exhausted then r.lots + [NewLot(SellLot, op, op.quantity)] else r.lots, r.trades)
  {
    if lots != [] {
      var r := CloseLots(lots, BuyLot, op, op.quantity, Long, offsetHours);
      CloseLotsValid(lots, BuyLot, op, op.quantity, Long, offsetHours);
      if r.exhausted {
        NoOpenBuyLeft(r.lots);
      }
    } else {
      assert !HasUnprocessedBuy(lots);
      assert lots + [NewLot(SellLot, op, op.quantity)] == [NewLot(SellLot, op, op.quantity)];
    }
  }

  /** Under valid bookkeeping a buy lot that cannot be matched any more is a processed one. */
  lemma NoOpenBuyLeft(lots: seq<Lot>)
    requires LotsValid(lots) && FindOldestBuy(lots).None?
    ensures !HasUnprocessedBuy(lots)
  {
  }
}
