/**
 * `ProfitCalculator` as an object: the lot lists, completed trades, fee buffer, margin list and
 * finalized sessions are fields that the methods reset, append to and update in place, and each
 * method is proved to leave exactly the state the specification functions describe.
 */
module Calculator {
  import opened Common
  import opened Operations
  import opened Sessions
  import opened Claims
  import opened Trades
  import opened Fifo
  import opened Reconstruction
  import opened Periods
  import opened Calendar

  /** `self.positions[figi]` of the `defaultdict(list)`: a missing FIGI reads as an empty list. */
  function LotsOf(positions: map<string, seq<Lot>>, figi: string): seq<Lot>
  {
    if figi in positions then positions[figi] else []
  }

  /** `_finalize_session` followed by `trading_sessions.append`, for a session that may be absent. */
  function Store(sessions: seq<Session>, pools: Books, closed: Option<Session>, offsetHours: int): (seq<Session>, Books)
    requires closed.Some? ==> closed.value.operations != []
  {
    if closed.Some? then
      var (f, pools') := Finalize(pools, closed.value, offsetHours);
      (sessions + [f], pools')
    else (sessions, pools)
  }

  /** The stored sessions and the pools after finalizing `closed` in order behind `sessions0`. */
  function Stored(sessions0: seq<Session>, books0: Books, closed: seq<Session>, offsetHours: int): (seq<Session>, Books)
    requires AllNonEmpty(closed)
  {
    var r := FinalizeAll(books0, closed, offsetHours);
    (sessions0 + r.0, r.1)
  }

  /**
   * Storing the sessions one at a time as they close leaves the list and the pools as finalizing
   * all of them in order would.
   */
  lemma StoreExtends(sessions0: seq<Session>, books0: Books, closed: seq<Session>, c: Option<Session>, offsetHours: int)
    requires AllNonEmpty(closed) && (c.Some? ==> c.value.operations != [])
    ensures AllNonEmpty(closed + OptionToSeq(c))
    ensures var before := Stored(sessions0, books0, closed, offsetHours);
      Store(before.0, before.1, c, offsetHours) == Stored(sessions0, books0, closed + OptionToSeq(c), offsetHours)
  {
    if c.Some? {
      FinalizeAllAppend(books0, closed, c.value, offsetHours);
      var r := FinalizeAll(books0, closed, offsetHours);
      assert sessions0 + r.0 + [Finalize(r.1, c.value, offsetHours).0]
          == sessions0 + (r.0 + [Finalize(r.1, c.value, offsetHours).0]);
    } else {
      assert closed + OptionToSeq(c) == closed;
    }
  }

  /**
   * One buy or sell of `_create_sessions_for_figi`: given what `_process_position_change` did to
   * the stored sessions and the pools, the walk either fails for the whole list or advances by
   * one step with the state still matching it.
   */
  lemma WalkStepStored(figi: string, sorted: seq<Operation>, i: nat, start: int, w: Walk,
                       sessions0: seq<Session>, books0: Books, offsetHours: int,
                       op: Operation, oldPos: int, newPos: int, isBuy: bool, current: Option<Session>,
                       before: (seq<Session>, Books), r: Result<Option<Session>>, after: (seq<Session>, Books))
    requires i < |sorted| && op == sorted[i] && IsTrading(op.operationType) && isBuy == (op.operationType == Buy)
    requires WalkFigi(figi, sorted[..i], start) == Ok(w) && AllNonEmpty(w.closed)
    requires oldPos == w.position && current == w.current && before == Stored(sessions0, books0, w.closed, offsetHours)
    requires ConsistentMove(op, oldPos, newPos, op.quantity, isBuy)
    requires var ch := ChangePosition(figi, op, oldPos, newPos, op.quantity, isBuy, current);
      && (r.Failure? <==> ch.Failure?)
      && (ch.Ok? ==>
            && r.value == ch.value.current
            && (ch.value.closed.Some? ==> ch.value.closed.value.operations != [])
            && after == Store(before.0, before.1, ch.value.closed, offsetHours))
    ensures r.Failure? ==> WalkFigi(figi, sorted, start).Failure?
    ensures r.Ok? ==>
      && WalkFigi(figi, sorted[..i + 1], start).Ok?
      && var w' := WalkFigi(figi, sorted[..i + 1], start).value;
      && w'.position == newPos
      && w'.current == r.value
      && AllNonEmpty(w'.closed)
      && after == Stored(sessions0, books0, w'.closed, offsetHours)
  {
    WalkAdvance(figi, sorted, i, start);
    StepWalkCases(figi, w, op);
    if r.Failure? {
      WalkFailsEarly(figi, sorted, i + 1, start);
    } else {
      var ch := ChangePosition(figi, op, oldPos, newPos, op.quantity, isBuy, current).value;
      StoreExtends(sessions0, books0, w.closed, ch.closed, offsetHours);
    }
  }

  /** Storing two runs of sessions in a row is storing their concatenation. */
  lemma StoredConcat(sessions0: seq<Session>, books0: Books, closed: seq<Session>, more: seq<Session>, offsetHours: int)
    requires AllNonEmpty(closed) && AllNonEmpty(more)
    ensures AllNonEmpty(closed + more)
    ensures var before := Stored(sessions0, books0, closed, offsetHours);
      var r := FinalizeAll(before.1, more, offsetHours);
      Stored(sessions0, books0, closed + more, offsetHours) == (before.0 + r.0, r.1)
  {
    hide FinalizeAll, Finalize;
    FinalizeAllConcat(books0, closed, more, offsetHours);
    var a := FinalizeAll(books0, closed, offsetHours);
    var b := FinalizeAll(a.1, more, offsetHours);
    assert sessions0 + (a.0 + b.0) == sessions0 + a.0 + b.0;
  }

  /** One more FIGI of the grouping: its sessions follow those of the FIGIs before it, or it aborts. */
  lemma SessionsOfFigisStep(trading: seq<Operation>, order: seq<string>, i: nat, starting: map<string, int>)
    requires i < |order| && SessionsOfFigis(trading, order[..i], starting).Ok?
    ensures var f := order[i];
      var w := SessionsForFigi(f, OpsOfFigi(trading, f), StartOf(starting, f));
      && (w.Failure? ==> SessionsOfFigis(trading, order[..i + 1], starting).Failure?)
      && (w.Ok? ==> SessionsOfFigis(trading, order[..i + 1], starting)
                    == Ok(SessionsOfFigis(trading, order[..i], starting).value + w.value))
  {
    assert order[..i + 1][..i] == order[..i] && order[..i + 1][i] == order[i];
  }

  /** A FIGI list whose prefix already aborts aborts as a whole. */
  lemma SessionsOfFigisPrefixFails(trading: seq<Operation>, figis: seq<string>, j: nat, starting: map<string, int>)
    requires j <= |figis| && SessionsOfFigis(trading, figis[..j], starting).Failure?
    ensures SessionsOfFigis(trading, figis, starting).Failure?
  {
    SessionsOfFigisFails(trading, figis[..j], starting);
    SessionsOfFigisFails(trading, figis, starting);
    AnyFigiHasZeroIff(trading, figis[..j]);
    AnyFigiHasZeroIff(trading, figis);
    var k :| 0 <= k < j && FigiHasZero(trading, figis[..j][k]);
    assert figis[k] == figis[..j][k];
  }

  /** The operations of one more entry, grouped by FIGI. */
  lemma OpsOfFigiAppend(s: seq<Operation>, op: Operation, f: string)
    ensures OpsOfFigi(s + [op], f) == OpsOfFigi(s, f) + (if op.figi == f then [op] else [])
  {
    assert (s + [op])[..|s|] == s;
  }

  lemma FigiOrderEmpty()
    ensures FigiOrder([]) == []
  {
  }

  lemma FigiOrderAppend(s: seq<Operation>, op: Operation)
    ensures FigiOrder(s + [op]) == if op.figi in FigiOrder(s) then FigiOrder(s) else FigiOrder(s) + [op.figi]
  {
    assert (s + [op])[..|s|] == s;
  }

  /** A FIGI that never occurs has no operations. */
  lemma OpsOfFigiAbsent(s: seq<Operation>, f: string)
    requires f !in FigiOrder(s)
    ensures OpsOfFigi(s, f) == []
  {
    FilterMembers(s, (op: Operation) => op.figi == f);
  }

  /**
   * Where the matching loop is headed: from the lots and the quantity still to close, with the
   * trades `done` so far, or already stopped for want of an open lot.
   */
  function Resumed(lots: seq<Lot>, kind: LotKind, op: Operation, remaining: nat, exhausted: bool,
                   done: seq<Trade>, direction: Direction, offsetHours: int): Closing
  {
    if exhausted then Closing(lots, done, remaining, true)
    else
      var rest := CloseLots(lots, kind, op, remaining, direction, offsetHours);
      Closing(rest.lots, done + rest.trades, rest.remaining, rest.exhausted)
  }

  /** One match of the loop: decrement the oldest open lot and record its trade. */
  lemma ResumeMatch(lots: seq<Lot>, kind: LotKind, op: Operation, remaining: nat, done: seq<Trade>,
                    direction: Direction, offsetHours: int, k: nat)
    requires remaining > 0 && FindOldest(lots, kind) == Some(k)
    ensures var c := Fifo.Min(remaining, lots[k].quantity);
      && 0 < c <= remaining
      && Resumed(lots, kind, op, remaining, false, done, direction, offsetHours)
         == Resumed(lots[k := Decrement(lots[k], c)], kind, op, remaining - c, false,
                    done + [CreateTrade(lots[k], op, c, direction, offsetHours)], direction, offsetHours)
  {
    var c := Fifo.Min(remaining, lots[k].quantity);
    var t := CreateTrade(lots[k], op, c, direction, offsetHours);
    var rest := CloseLots(lots[k := Decrement(lots[k], c)], kind, op, remaining - c, direction, offsetHours);
    assert CloseLots(lots, kind, op, remaining, direction, offsetHours)
        == Closing(rest.lots, [t] + rest.trades, rest.remaining, rest.exhausted);
    assert done + ([t] + rest.trades) == done + [t] + rest.trades;
  }

  /** With no open lot left the loop stops with what it has. */
  lemma ResumeExhausted(lots: seq<Lot>, kind: LotKind, op: Operation, remaining: nat, done: seq<Trade>,
                        direction: Direction, offsetHours: int)
    requires remaining > 0 && FindOldest(lots, kind).None?
    ensures Resumed(lots, kind, op, remaining, false, done, direction, offsetHours)
         == Closing(lots, done, remaining, true)
  {
    assert done + [] == done;
  }

  class ProfitCalculator {
    const timezoneOffset: int
    var positions: map<string, seq<Lot>>
    var completedTrades: seq<Trade>
    var feesBuffer: seq<PoolEntry>
    var marginOperations: seq<PoolEntry>
    var tradingSessions: seq<Session>

    /** Every lot list keeps valid bookkeeping. */
    ghost predicate Valid()
      reads this
    {
      forall f :: f in positions ==> LotsValid(positions[f])
    }

    /** The fee and margin pools as one value. */
    function Pools(): Books
      reads this
    {
      Books(feesBuffer, marginOperations)
    }

    constructor(timezoneOffset: int)
      ensures this.timezoneOffset == timezoneOffset
      ensures positions == map[] && completedTrades == [] && feesBuffer == [] && marginOperations == []
      ensures tradingSessions == []
      ensures Valid()
    {
      this.timezoneOffset := timezoneOffset;
      positions := map[];
      completedTrades := [];
      feesBuffer := [];
      marginOperations := [];
      tradingSessions := [];
    }

    /** `reset`. */
    method Reset()
      modifies this
      ensures positions == map[] && completedTrades == [] && feesBuffer == [] && marginOperations == []
      ensures tradingSessions == []
      ensures Valid()
    {
      positions := map[];
      completedTrades := [];
      feesBuffer := [];
      marginOperations := [];
      tradingSessions := [];
    }

    /** `_process_fee_operation`. */
    method ProcessFeeOperation(op: Operation)
      modifies this`feesBuffer
      ensures feesBuffer == old(feesBuffer) + [FeeEntry(op)]
    {
      feesBuffer := feesBuffer + [FeeEntry(op)];
    }

    /** `_process_margin_operation`. */
    method ProcessMarginOperation(op: Operation)
      modifies this`marginOperations
      ensures marginOperations == old(marginOperations) + [MarginEntry(op)]
    {
      marginOperations := marginOperations + [MarginEntry(op)];
    }

    /** `_get_fees_for_session`: flag and sum the unassigned fees of the session's (widened) window. */
    method GetFeesForSession(s: Session) returns (total: real)
      modifies this`feesBuffer
      ensures (feesBuffer, total)
           == Claim(FeePool, old(feesBuffer), s.figi, Shift(s.startTime, timezoneOffset), Shift(s.endTime, timezoneOffset))
    {
      var start, end := Shift(s.startTime, timezoneOffset), Shift(s.endTime, timezoneOffset);
      ghost var pool := feesBuffer;
      total := 0.0;
      var i := 0;
      while i < |feesBuffer|
        invariant |feesBuffer| == |pool| && 0 <= i <= |pool|
        invariant Claim(FeePool, pool[..i], s.figi, start, end) == (feesBuffer[..i], total)
        invariant feesBuffer[i..] == pool[i..]
      {
        ClaimAdvance(FeePool, pool, feesBuffer, i, total, s.figi, start, end);
        var fee := feesBuffer[i];
        var timeMatch := (start <= fee.date <= end) || IntAbs(fee.date - start) <= 300 || IntAbs(fee.date - end) <= 300;
        var figiMatch := fee.operation.figi == "" || fee.operation.figi == s.figi;
        assert Eligible(FeePool, fee, s.figi, start, end) <==> !fee.isAssigned && timeMatch && figiMatch;
        if !fee.isAssigned && timeMatch && figiMatch {
          total := total + fee.amount;
          feesBuffer := feesBuffer[i := fee.(isAssigned := true)];
        }
        i := i + 1;
      }
      assert pool[..i] == pool && feesBuffer[..i] == feesBuffer;
    }

    /** `_get_variation_margin_for_session`: flag and sum the unassigned margin inside the session's window. */
    method GetVariationMarginForSession(s: Session) returns (total: real)
      modifies this`marginOperations
      ensures (marginOperations, total)
           == Claim(MarginPool, old(marginOperations), s.figi, Shift(s.startTime, timezoneOffset), Shift(s.endTime, timezoneOffset))
    {
      var start, end := Shift(s.startTime, timezoneOffset), Shift(s.endTime, timezoneOffset);
      ghost var pool := marginOperations;
      total := 0.0;
      var i := 0;
      while i < |marginOperations|
        invariant |marginOperations| == |pool| && 0 <= i <= |pool|
        invariant Claim(MarginPool, pool[..i], s.figi, start, end) == (marginOperations[..i], total)
        invariant marginOperations[i..] == pool[i..]
      {
        ClaimAdvance(MarginPool, pool, marginOperations, i, total, s.figi, start, end);
        var margin := marginOperations[i];
        var timeMatch := start <= margin.date <= end;
        var figiMatch := margin.operation.figi == "" || margin.operation.figi == s.figi;
        assert Eligible(MarginPool, margin, s.figi, start, end) <==> !margin.isAssigned && timeMatch && figiMatch;
        if !margin.isAssigned && timeMatch && figiMatch {
          total := total + margin.amount;
          marginOperations := marginOperations[i := margin.(isAssigned := true)];
        }
        i := i + 1;
      }
      assert pool[..i] == pool && marginOperations[..i] == marginOperations;
    }

    /** `_finalize_session`; the session is a value here, so the finalized one is returned. */
    method FinalizeSession(s: Session) returns (f: Session)
      requires s.operations != []
      modifies this`feesBuffer, this`marginOperations
      ensures (f, Pools()) == Finalize(old(Pools()), s, timezoneOffset)
    {
      var direction := DirectionOf(s);
      ghost var books := Pools();
      ghost var start, end := Shift(s.startTime, timezoneOffset), Shift(s.endTime, timezoneOffset);
      ghost var feeClaim := Claim(FeePool, books.fees, s.figi, start, end);
      ghost var marginClaim := Claim(MarginPool, books.margins, s.figi, start, end);
      var gross := s.totalSellAmount - s.totalBuyAmount;
      var fees := GetFeesForSession(s);
      var margin := GetVariationMarginForSession(s);
      assert fees == feeClaim.1 && margin == marginClaim.1;
      f := s.(direction := direction, grossProfit := gross, fees := fees, variationMargin := margin,
              netProfit := gross - fees + margin);
      assert Finalize(books, s, timezoneOffset)
          == (s.(direction := direction, grossProfit := gross, fees := feeClaim.1, variationMargin := marginClaim.1,
                 netProfit := gross - feeClaim.1 + marginClaim.1),
              Books(feeClaim.0, marginClaim.0));
    }

    /**
     * `_process_position_change`: a session closed at a sign change is finalized and stored at
     * once; a zero-quantity operation off a sign change fails before anything changes.
     */
    method ProcessPositionChange(figi: string, op: Operation, oldPos: int, newPos: int, qty: nat, isBuy: bool,
                                 current: Option<Session>) returns (r: Result<Option<Session>>)
      requires ConsistentMove(op, oldPos, newPos, qty, isBuy)
      modifies this`feesBuffer, this`marginOperations, this`tradingSessions
      ensures var ch := ChangePosition(figi, op, oldPos, newPos, qty, isBuy, current);
        && (r.Failure? <==> ch.Failure?)
        && (ch.Failure? ==> tradingSessions == old(tradingSessions) && Pools() == old(Pools()))
        && (ch.Ok? ==>
              && r.value == ch.value.current
              && (ch.value.closed.Some? ==> ch.value.closed.value.operations != [])
              && (tradingSessions, Pools()) == Store(old(tradingSessions), old(Pools()), ch.value.closed, timezoneOffset))
    {
      hide Finalize, AddSlice, StartNewSession;
      if (oldPos > 0 && newPos < 0) || (oldPos < 0 && newPos > 0) {
        CrossingSplits(figi, op, oldPos, newPos, qty, isBuy, current);
        var closingQty := IntAbs(oldPos);
        var remainingQty := qty - closingQty;
        var session := current;
        if current.Some? {
          var closing := AddSlice(current.value, op, closingQty, isBuy);
          var finalized := FinalizeSession(closing);
          tradingSessions := tradingSessions + [finalized];
          session := Some(finalized);
        }
        if remainingQty > 0 {
          session := Some(AddSlice(StartNewSession(figi, op), op, remainingQty, isBuy));
        }
        r := Ok(session);
      } else if op.quantity == 0 {
        r := Failure(ZeroDivision(op.id));
      } else if oldPos == 0 {
        r := Ok(Some(AddSlice(StartNewSession(figi, op), op, qty, isBuy)));
      } else {
        var session := if current.Some? then current.value else StartNewSession(figi, op);
        r := Ok(Some(AddSlice(session, op, qty, isBuy)));
      }
    }
  
    /**
     * `_create_sessions_for_figi`: walk the FIGI's operations in date order from its starting
     * position, storing each session closed at a sign change as it closes, and at the end the open
     * session if it has both buys and sells. The stored sessions and the pools end up as
     * finalizing `SessionsForFigi` in order would leave them; `Some(e)` reports the error raised.
     */
    method CreateSessionsForFigi(figi: string, ops: seq<Operation>, start: int) returns (failure: Option<Error>)
      modifies this`feesBuffer, this`marginOperations, this`tradingSessions
      ensures failure.Some? <==> SessionsForFigi(figi, ops, start).Failure?
      ensures failure.None? ==>
        var raws := SessionsForFigi(figi, ops, start).value;
        && AllNonEmpty(raws)
        && tradingSessions == old(tradingSessions) + FinalizeAll(old(Pools()), raws, timezoneOffset).0
        && Pools() == FinalizeAll(old(Pools()), raws, timezoneOffset).1
    {
      hide Finalize, ChangePosition, SessionId, StepWalk, WalkFigi, SortByDate;
      var sorted := SortByDate(ops);
      ghost var sessions0, books0 := tradingSessions, Pools();
      var position := start;
      var current: Option<Session> := None;
      ghost var w := Walk(start, None, []);
      WalkStart(figi, sorted, start);
      assert sessions0 + [] == sessions0;
      var i := 0;
      while i < |sorted|
        invariant 0 <= i <= |sorted|
        invariant WalkFigi(figi, sorted[..i], start) == Ok(w)
        invariant position == w.position && current == w.current && AllNonEmpty(w.closed)
        invariant (tradingSessions, Pools()) == Stored(sessions0, books0, w.closed, timezoneOffset)
      {
        var op := sorted[i];
        if op.operationType == Buy || op.operationType == Sell {
          var isBuy := op.operationType == Buy;
          var newPosition := if isBuy then position + op.quantity else position - op.quantity;
          ghost var before := (tradingSessions, Pools());
          var r := ProcessPositionChange(figi, op, position, newPosition, op.quantity, isBuy, current);
          WalkStepStored(figi, sorted, i, start, w, sessions0, books0, timezoneOffset,
                         op, position, newPosition, isBuy, current, before, r, (tradingSessions, Pools()));
          if r.Failure? {
            return Some(r.error);
          }
          w := WalkFigi(figi, sorted[..i + 1], start).value;
          current := r.value;
          position := newPosition;
          assert WalkFigi(figi, sorted[..i + 1], start) == Ok(w);
        } else {
          WalkAdvance(figi, sorted, i, start);
          StepWalkCases(figi, w, op);
          assert WalkFigi(figi, sorted[..i + 1], start) == Ok(w);
        }
        i := i + 1;
      }
      assert sorted[..i] == sorted;
      WalkFacts(figi, sorted, start);
      ghost var last := if current.Some? && current.value.totalBought > 0 && current.value.totalSold > 0 then current else None;
      assert OptionToSeq(last) == EndSessions(w.current);
      assert SessionsForFigi(figi, ops, start) == Ok(w.closed + OptionToSeq(last));
      StoreExtends(sessions0, books0, w.closed, last, timezoneOffset);
      if current.Some? && current.value.totalBought > 0 && current.value.totalSold > 0 {
        var finalized := FinalizeSession(current.value);
        tradingSessions := tradingSessions + [finalized];
      }
      return None;
    }

    /**
     * The `while` loop of `_process_buy_operation` and `_process_sell_operation`: close the oldest
     * open lot of `kind` against `op`, writing each decremented lot back into `positions[op.figi]`
     * and appending one trade per match, until nothing remains or no open lot is left.
     */
    method CloseOldestLots(op: Operation, kind: LotKind, direction: Direction) returns (remaining: nat, exhausted: bool)
      modifies this`positions, this`completedTrades
      ensures var r := CloseLots(LotsOf(old(positions), op.figi), kind, op, op.quantity, direction, timezoneOffset);
        && positions == old(positions)[op.figi := r.lots]
        && completedTrades == old(completedTrades) + r.trades
        && remaining == r.remaining && exhausted == r.exhausted
    {
      hide CloseLots, CreateTrade;
      var lots := LotsOf(positions, op.figi);
      ghost var target := CloseLots(lots, kind, op, op.quantity, direction, timezoneOffset);
      ghost var trades0 := completedTrades;
      ghost var done: seq<Trade> := [];
      positions := positions[op.figi := lots];
      remaining, exhausted := op.quantity, false;
      assert [] + target.trades == target.trades;
      while remaining > 0 && !exhausted
        invariant positions == old(positions)[op.figi := lots]
        invariant completedTrades == trades0 + done
        invariant target == Resumed(lots, kind, op, remaining, exhausted, done, direction, timezoneOffset)
        decreases remaining, if exhausted then 0 else 1
      {
        var found := FindOldest(lots, kind);
        if found.None? {
          ResumeExhausted(lots, kind, op, remaining, done, direction, timezoneOffset);
          exhausted := true;
        } else {
          var k := found.value;
          ResumeMatch(lots, kind, op, remaining, done, direction, timezoneOffset, k);
          var c := Fifo.Min(remaining, lots[k].quantity);
          var trade := CreateTrade(lots[k], op, c, direction, timezoneOffset);
          completedTrades := completedTrades + [trade];
          done := done + [trade];
          lots := lots[k := Decrement(lots[k], c)];
          positions := positions[op.figi := lots];
          remaining := remaining - c;
        }
      }
      CloseLotsUnfold(lots, kind, op, remaining, direction, timezoneOffset);
      assert done + [] == done;
    }

    /** `_process_buy_operation`: close the oldest shorts, then keep any rest as a new buy lot. */
    method ProcessBuyOperation(op: Operation)
      requires Valid()
      modifies this`positions, this`completedTrades
      ensures var (lots, trades) := ProcessBuy(LotsOf(old(positions), op.figi), op, timezoneOffset);
        positions == old(positions)[op.figi := lots] && completedTrades == old(completedTrades) + trades
      ensures Valid()
    {
      hide CloseLots, CreateTrade;
      ghost var lots0 := LotsOf(positions, op.figi);
      CloseLotsValid(lots0, SellLot, op, op.quantity, Short, timezoneOffset);
      var remaining, _ := CloseOldestLots(op, SellLot, Short);
      if remaining > 0 {
        positions := positions[op.figi := positions[op.figi] + [NewLot(BuyLot, op, remaining)]];
      }
    }

    /** `_handle_short_position`: open a short lot unless a buy lot is still unprocessed. */
    method HandleShortPosition(op: Operation)
      requires Valid()
      modifies this`positions
      ensures positions == old(positions)[op.figi := HandleShort(LotsOf(old(positions), op.figi), op)]
      ensures Valid()
    {
      var lots := LotsOf(positions, op.figi);
      if HasUnprocessedBuy(lots) {
        positions := positions[op.figi := lots];
      } else {
        positions := positions[op.figi := lots + [NewLot(SellLot, op, op.quantity)]];
      }
    }

    /**
     * `_process_sell_operation`: with no lots for the FIGI the sell opens a short; otherwise it
     * closes the oldest buys and, if it runs out of them, falls back to `_handle_short_position`.
     */
    method ProcessSellOperation(op: Operation)
      requires Valid()
      modifies this`positions, this`completedTrades
      ensures var (lots, trades) := ProcessSell(LotsOf(old(positions), op.figi), op, timezoneOffset);
        positions == old(positions)[op.figi := lots] && completedTrades == old(completedTrades) + trades
      ensures Valid()
    {
      hide CloseLots, CreateTrade;
      if LotsOf(positions, op.figi) == [] {
        HandleShortPosition(op);
        return;
      }
      ghost var lots0 := LotsOf(positions, op.figi);
      CloseLotsValid(lots0, BuyLot, op, op.quantity, Long, timezoneOffset);
      var _, exhausted := CloseOldestLots(op, BuyLot, Long);
      if exhausted {
        HandleShortPosition(op);
      }
    }

    /**
     * The `defaultdict(list)` of `_group_operations_into_sessions`: the FIGIs in order of first
     * appearance and each FIGI's operations in their original order.
     */
    method GroupByFigi(trading: seq<Operation>) returns (order: seq<string>, groups: map<string, seq<Operation>>)
      ensures order == FigiOrder(trading)
      ensures forall f :: f in groups <==> f in order
      ensures forall f :: f in groups ==> groups[f] == OpsOfFigi(trading, f)
    {
      hide FigiOrder, OpsOfFigi;
      order, groups := [], map[];
      FigiOrderEmpty();
      assert trading[..0] == [];
      for i := 0 to |trading|
        invariant order == FigiOrder(trading[..i])
        invariant forall f :: f in groups <==> f in order
        invariant forall f :: f in groups ==> groups[f] == OpsOfFigi(trading[..i], f)
      {
        var op := trading[i];
        assert trading[..i + 1] == trading[..i] + [op];
        forall f | f in groups
          ensures OpsOfFigi(trading[..i + 1], f) == OpsOfFigi(trading[..i], f) + (if op.figi == f then [op] else [])
        {
          OpsOfFigiAppend(trading[..i], op, f);
        }
        OpsOfFigiAppend(trading[..i], op, op.figi);
        FigiOrderAppend(trading[..i], op);
        if op.figi in groups {
          groups := groups[op.figi := groups[op.figi] + [op]];
        } else {
          assert OpsOfFigi(trading[..i], op.figi) == [] by {
            OpsOfFigiAbsent(trading[..i], op.figi);
          }
          order := order + [op.figi];
          groups := groups[op.figi := [op]];
        }
      }
      assert trading[..|trading|] == trading;
    }

    /**
     * `_group_operations_into_sessions`: walk each FIGI's operations from its starting position
     * (zero when absent), in order of first appearance; the sessions stored and the pools left are
     * those of finalizing `SessionsOfFigis` in order.
     */
    method GroupOperationsIntoSessions(trading: seq<Operation>, starting: map<string, int>) returns (failure: Option<Error>)
      modifies this`feesBuffer, this`marginOperations, this`tradingSessions
      ensures failure.Some? <==> SessionsOfFigis(trading, FigiOrder(trading), starting).Failure?
      ensures failure.None? ==>
        var raws := SessionsOfFigis(trading, FigiOrder(trading), starting).value;
        && tradingSessions == old(tradingSessions) + FinalizeAll(old(Pools()), raws, timezoneOffset).0
        && Pools() == FinalizeAll(old(Pools()), raws, timezoneOffset).1
    {
      hide SessionsForFigi, Finalize;
      var order, groups := GroupByFigi(trading);
      ghost var sessions0, books0 := tradingSessions, Pools();
      assert order[..0] == [];
      assert sessions0 + [] == sessions0;
      var i := 0;
      while i < |order|
        invariant 0 <= i <= |order|
        invariant SessionsOfFigis(trading, order[..i], starting).Ok?
        invariant (tradingSessions, Pools())
               == Stored(sessions0, books0, SessionsOfFigis(trading, order[..i], starting).value, timezoneOffset)
      {
        var f := order[i];
        ghost var raws := SessionsOfFigis(trading, order[..i], starting).value;
        var start := if f in starting then starting[f] else 0;
        ghost var w := SessionsForFigi(f, OpsOfFigi(trading, f), start);
        SessionsOfFigisStep(trading, order, i, starting);
        assert start == StartOf(starting, f) && groups[f] == OpsOfFigi(trading, f);
        ghost var stored := (tradingSessions, Pools());
        failure := CreateSessionsForFigi(f, groups[f], start);
        if failure.Some? {
          assert SessionsOfFigis(trading, order[..i + 1], starting).Failure?;
          SessionsOfFigisPrefixFails(trading, order, i + 1, starting);
          return;
        }
        ghost var more := w.value;
        assert tradingSessions == stored.0 + FinalizeAll(stored.1, more, timezoneOffset).0;
        assert Pools() == FinalizeAll(stored.1, more, timezoneOffset).1;
        StoredConcat(sessions0, books0, raws, more, timezoneOffset);
        assert SessionsOfFigis(trading, order[..i + 1], starting) == Ok(raws + more);
        i := i + 1;
      }
      assert order[..i] == order;
      failure := None;
      assert old(tradingSessions) == sessions0 && old(Pools()) == books0;
    }

    /** `_convert_sessions_to_trades`: append one trade per stored session, in order. */
    method ConvertSessionsToTrades()
      requires AllNonEmpty(tradingSessions)
      modifies this`completedTrades
      ensures completedTrades == old(completedTrades) + TradesOfSessions(tradingSessions, timezoneOffset)
    {
      ghost var trades0 := completedTrades;
      for i := 0 to |tradingSessions|
        invariant completedTrades == trades0 + TradesOfSessions(tradingSessions[..i], timezoneOffset)
      {
        assert tradingSessions[..i + 1][..i] == tradingSessions[..i];
        completedTrades := completedTrades + [TradeFromSession(tradingSessions[i], timezoneOffset)];
      }
      assert tradingSessions[..|tradingSessions|] == tradingSessions;
    }

    /**
     * The classification loop of `process_operations_with_starting_positions`: fees go to the fee
     * buffer, variation margin to the margin list, buys and sells are returned in order, anything
     * else is dropped.
     */
    method ClassifyOperations(sorted: seq<Operation>) returns (trading: seq<Operation>)
      modifies this`feesBuffer, this`marginOperations
      ensures var c := Classify(sorted);
        && feesBuffer == old(feesBuffer) + c.fees
        && marginOperations == old(marginOperations) + c.margins
        && trading == c.trading
    {
      hide Classify;
      trading := [];
      for i := 0 to |sorted|
        invariant var c := Classify(sorted[..i]);
          && feesBuffer == old(feesBuffer) + c.fees
          && marginOperations == old(marginOperations) + c.margins
          && trading == c.trading
      {
        var op := sorted[i];
        ClassifyStep(sorted, i);
        if op.operationType == BrokerFee {
          ProcessFeeOperation(op);
        } else if op.operationType == WritingOffVarmargin || op.operationType == AccruingVarmargin {
          ProcessMarginOperation(op);
        } else if op.operationType == Buy || op.operationType == Sell {
          trading := trading + [op];
        }
      }
      assert sorted[..|sorted|] == sorted;
    }

    /** `sum(trade.net_profit for trade in self.completed_trades)`. */
    method SumNetProfit(trades: seq<Trade>) returns (total: real)
      ensures total == TotalNet(trades)
    {
      total := 0.0;
      for i := 0 to |trades|
        invariant total == TotalNet(trades[..i])
      {
        assert trades[..i + 1][..i] == trades[..i];
        total := total + trades[i].netProfit;
      }
      assert trades[..|trades|] == trades;
    }

    /**
     * `process_operations_with_starting_positions`: reset, sort by date, file fees and variation
     * margin into their pools and keep the buys and sells, build and finalize the sessions, convert
     * them to trades and sum their net profits. On success both the result and the state left
     * behind are those of `Reconstruct`; a ZeroDivisionError in the walk is `Failure`, after which
     * the state is unspecified.
     */
    method ProcessOperationsWithStartingPositions(ops: seq<Operation>, starting: map<string, int>)
      returns (r: Result<(seq<Trade>, real, seq<Operation>)>)
      modifies this
      ensures var expected := Reconstruct(ops, starting, timezoneOffset);
        && (r.Failure? <==> expected.Failure?)
        && (r.Ok? ==>
              && r.value == (expected.value.trades, expected.value.totalProfit, expected.value.sortedOperations)
              && completedTrades == expected.value.trades
              && tradingSessions == expected.value.sessions
              && Pools() == expected.value.books
              && positions == map[])
    {
      Reset();
      var sorted := SortByDate(ops);
      var trading := ClassifyOperations(sorted);
      ghost var c := Classify(sorted);
      assert Pools() == Books(c.fees, c.margins);
      var failure := GroupOperationsIntoSessions(trading, starting);
      if failure.Some? {
        return Failure(failure.value);
      }
      ghost var raws := SessionsOfFigis(c.trading, FigiOrder(c.trading), starting).value;
      ghost var done := FinalizeAll(Books(c.fees, c.margins), raws, timezoneOffset);
      assert tradingSessions == done.0;
      FinalizeAllRecords(Books(c.fees, c.margins), raws, timezoneOffset);
      ConvertSessionsToTrades();
      assert completedTrades == TradesOfSessions(done.0, timezoneOffset);
      var total := SumNetProfit(completedTrades);
      r := Ok((completedTrades, total, sorted));
      assert Reconstruct(ops, starting, timezoneOffset) == Ok(Finish(sorted, c, raws, timezoneOffset));
    }

    /** `process_operations`: the same with no starting positions. */
    method ProcessOperations(ops: seq<Operation>) returns (r: Result<(seq<Trade>, real, seq<Operation>)>)
      modifies this
      ensures var expected := Reconstruction.ProcessOperations(ops, timezoneOffset);
        && (r.Failure? <==> expected.Failure?)
        && (r.Ok? ==>
              && r.value == (expected.value.trades, expected.value.totalProfit, expected.value.sortedOperations)
              && completedTrades == expected.value.trades
              && tradingSessions == expected.value.sessions
              && Pools() == expected.value.books)
    {
      r := ProcessOperationsWithStartingPositions(ops, map[]);
    }
  }
}
