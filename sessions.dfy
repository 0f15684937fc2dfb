/**
 * The per-FIGI session state machine of the profit calculator: a signed running position,
 * an open session that collects slices of operations, and a boundary exactly where the
 * position changes sign strictly.
 */
module Sessions {
  import opened Common
  import opened Operations
  import Calendar

  datatype Direction = Unknown | Long | Short

  /** One slice of an operation as recorded in a session. */
  datatype OpRecord = OpRecord(
    id: string,
    operationType: OperationType,
    date: Instant,
    quantity: nat,
    price: real,
    payment: real)

  /**
   * A trading session. Times are `int` so that a copy shifted to another time zone is still a
   * session. The last five fields are filled in by finalization.
   */
  datatype Session = Session(
    sessionId: string,
    figi: string,
    instrumentName: string,
    startTime: int,
    endTime: int,
    operations: seq<OpRecord>,
    totalSold: nat,
    totalBought: nat,
    totalSellAmount: real,
    totalBuyAmount: real,
    direction: Direction,
    grossProfit: real,
    fees: real,
    variationMargin: real,
    netProfit: real)

  /** `f"{figi}_{date:%Y%m%d_%H%M%S}_{id}"`, the identifier of a session opened by operation `id`. */
  function SessionId(figi: string, date: Instant, operationId: string): string
  {
    figi + "_" + Calendar.Stamp(date) + "_" + operationId
  }

  function StartNewSession(figi: string, op: Operation): Session
  {
    Session(SessionId(figi, op.date, op.id), figi, op.instrumentUid.GetOr(figi), op.date, op.date, [],
            0, 0, 0.0, 0.0, Unknown, 0.0, 0.0, 0.0, 0.0)
  }

  /** The part of the operation's absolute payment that belongs to `quantity` of its lots. */
  function Slice(op: Operation, quantity: nat): real
    requires op.quantity > 0
  {
    Abs(op.payment) * quantity as real / op.quantity as real
  }

  function AddBuy(s: Session, op: Operation, quantity: nat): Session
    requires op.quantity > 0
  {
    var slice := Slice(op, quantity);
    s.(operations := s.operations + [OpRecord(op.id, op.operationType, op.date, quantity, op.price, -slice)],
       totalBought := s.totalBought + quantity,
       totalBuyAmount := s.totalBuyAmount + slice,
       endTime := op.date)
  }

  function AddSell(s: Session, op: Operation, quantity: nat): Session
    requires op.quantity > 0
  {
    var slice := Slice(op, quantity);
    s.(operations := s.operations + [OpRecord(op.id, op.operationType, op.date, quantity, op.price, slice)],
       totalSold := s.totalSold + quantity,
       totalSellAmount := s.totalSellAmount + slice,
       endTime := op.date)
  }

  function AddSlice(s: Session, op: Operation, quantity: nat, isBuy: bool): (r: Session)
    requires op.quantity > 0
    ensures |r.operations| == |s.operations| + 1 && r.endTime == op.date
  {
    if isBuy then AddBuy(s, op, quantity) else AddSell(s, op, quantity)
  }

  /** The two slices of one operation together carry its whole absolute payment. */
  lemma SlicesSum(op: Operation, a: nat, b: nat)
    requires op.quantity > 0 && a + b == op.quantity
    ensures Slice(op, a) + Slice(op, b) == Abs(op.payment)
  {
    var p, q := Abs(op.payment), op.quantity as real;
    var x, y := Slice(op, a), Slice(op, b);
    assert x * q == p * a as real;
    assert y * q == p * b as real;
    assert (x + y) * q == p * q by {
      assert (x + y) * q == x * q + y * q;
      assert p * a as real + p * b as real == p * (a as real + b as real);
    }
    assert (x + y - p) * q == 0.0;
  }

  /** Adding a slice appends one record and moves exactly that slice into one leg's totals. */
  lemma AddSliceTotals(s: Session, op: Operation, quantity: nat, isBuy: bool)
    requires op.quantity > 0
    ensures var t := AddSlice(s, op, quantity, isBuy);
      && t.operations == s.operations + [t.operations[|t.operations| - 1]]
      && t.operations[|t.operations| - 1].quantity == quantity
      && t.operations[|t.operations| - 1].payment == (if isBuy then -Slice(op, quantity) else Slice(op, quantity))
      && t.totalBought == s.totalBought + (if isBuy then quantity else 0)
      && t.totalSold == s.totalSold + (if isBuy then 0 else quantity)
      && t.totalBuyAmount == s.totalBuyAmount + (if isBuy then Slice(op, quantity) else 0.0)
      && t.totalSellAmount == s.totalSellAmount + (if isBuy then 0.0 else Slice(op, quantity))
      && t.endTime == op.date && t.startTime == s.startTime && t.figi == s.figi && t.sessionId == s.sessionId
  {
  }

  predicate Crosses(oldPos: int, newPos: int)
  {
    (oldPos > 0 && newPos < 0) || (oldPos < 0 && newPos > 0)
  }

  /** What one operation does to the open session: possibly a closed session, and the new open one. */
  datatype Change = Change(closed: Option<Session>, current: Option<Session>)

  predicate ConsistentMove(op: Operation, oldPos: int, newPos: int, qty: nat, isBuy: bool)
  {
    qty == op.quantity && newPos == (if isBuy then oldPos + qty else oldPos - qty)
  }

  /** `_process_position_change`; Failure where a slice would divide by a zero quantity. */
  function ChangePosition(figi: string, op: Operation, oldPos: int, newPos: int, qty: nat, isBuy: bool,
                          current: Option<Session>): Result<Change>
    requires ConsistentMove(op, oldPos, newPos, qty, isBuy)
  {
    if Crosses(oldPos, newPos) then
      var closing := IntAbs(oldPos);
      var remaining := qty - closing;
      var closed := if current.Some? then Some(AddSlice(current.value, op, closing, isBuy)) else None;
      if remaining > 0 then Ok(Change(closed, Some(AddSlice(StartNewSession(figi, op), op, remaining, isBuy))))
      else Ok(Change(closed, closed))
    else if op.quantity == 0 then Failure(ZeroDivision(op.id))
    else if oldPos == 0 then Ok(Change(None, Some(AddSlice(StartNewSession(figi, op), op, qty, isBuy))))
    else
      var base := if current.Some? then current.value else StartNewSession(figi, op);
      Ok(Change(None, Some(AddSlice(base, op, qty, isBuy))))
  }

  /**
   * A strict sign change splits the operation: |old| lots close the open session (if there is one),
   * and the remaining lots, always at least one, open a new session; the position after the
   * operation is exactly those remaining lots.
   */
  lemma CrossingSplits(figi: string, op: Operation, oldPos: int, newPos: int, qty: nat, isBuy: bool,
                       current: Option<Session>)
    requires ConsistentMove(op, oldPos, newPos, qty, isBuy)
    requires Crosses(oldPos, newPos)
    ensures op.quantity > IntAbs(oldPos) > 0
    ensures IntAbs(newPos) == qty - IntAbs(oldPos)
    ensures isBuy <==> oldPos < 0
    ensures ChangePosition(figi, op, oldPos, newPos, qty, isBuy, current) == Ok(Change(
      if current.Some? then Some(AddSlice(current.value, op, IntAbs(oldPos), isBuy)) else None,
      Some(AddSlice(StartNewSession(figi, op), op, qty - IntAbs(oldPos), isBuy))))
    ensures Slice(op, IntAbs(oldPos)) + Slice(op, qty - IntAbs(oldPos)) == Abs(op.payment)
  {
    hide AddSlice, StartNewSession, Slice;
    assert op.quantity > IntAbs(oldPos) > 0;
    SlicesSum(op, IntAbs(oldPos), qty - IntAbs(oldPos));
  }

  /** Away from a strict sign change no session is closed, and a zero quantity fails. */
  lemma NoCrossingNoBoundary(figi: string, op: Operation, oldPos: int, newPos: int, qty: nat, isBuy: bool,
                             current: Option<Session>)
    requires ConsistentMove(op, oldPos, newPos, qty, isBuy)
    requires !Crosses(oldPos, newPos)
    ensures var r := ChangePosition(figi, op, oldPos, newPos, qty, isBuy, current);
      && (r.Failure? <==> qty == 0)
      && (r.Ok? ==> r.value.closed == None && r.value.current.Some?)
  {
  }

  /** Landing exactly on zero is not a boundary: the operation joins the open session. */
  lemma LandingOnZeroContinues(figi: string, op: Operation, oldPos: int, qty: nat, isBuy: bool, s: Session)
    requires ConsistentMove(op, oldPos, 0, qty, isBuy) && oldPos != 0
    ensures ChangePosition(figi, op, oldPos, 0, qty, isBuy, Some(s)) == Ok(Change(None, Some(AddSlice(s, op, qty, isBuy))))
  {
  }

  /** From a flat position a fresh session starts, and whatever session was open is dropped unfinalized. */
  lemma FlatRestartDiscards(figi: string, op: Operation, newPos: int, qty: nat, isBuy: bool, current: Option<Session>)
    requires ConsistentMove(op, 0, newPos, qty, isBuy) && qty > 0
    ensures ChangePosition(figi, op, 0, newPos, qty, isBuy, current)
         == Ok(Change(None, Some(AddSlice(StartNewSession(figi, op), op, qty, isBuy))))
  {
  }

  function OptionToSeq(o: Option<Session>): seq<Session>
  {
    if o.Some? then [o.value] else []
  }

  /** The state threaded through one FIGI's operations; `closed` lists the sessions closed at sign changes. */
  datatype Walk = Walk(position: int, current: Option<Session>, closed: seq<Session>)

  /** One iteration of the loop in `_create_sessions_for_figi`. */
  function StepWalk(figi: string, w: Walk, op: Operation): Result<Walk>
  {
    if op.operationType == Buy || op.operationType == Sell then
      var isBuy := op.operationType == Buy;
      var newPos := if isBuy then w.position + op.quantity else w.position - op.quantity;
      match ChangePosition(figi, op, w.position, newPos, op.quantity, isBuy, w.current)
      case Failure(e) => Failure(e)
      case Ok(ch) => Ok(Walk(newPos, ch.current, w.closed + OptionToSeq(ch.closed)))
    else Ok(w)
  }

  function WalkFigi(figi: string, ops: seq<Operation>, start: int): Result<Walk>
  {
    if ops == [] then Ok(Walk(start, None, []))
    else
      match WalkFigi(figi, ops[..|ops| - 1], start)
      case Failure(e) => Failure(e)
      case Ok(w) => StepWalk(figi, w, ops[|ops| - 1])
  }

  /** A session left open at the end is kept only when it holds both buys and sells. */
  function EndSessions(current: Option<Session>): seq<Session>
  {
    if current.Some? && current.value.totalBought > 0 && current.value.totalSold > 0 then [current.value] else []
  }

  /** The sessions of one FIGI, in the order in which the source finalizes them. */
  function SessionsForFigi(figi: string, ops: seq<Operation>, start: int): Result<seq<Session>>
  {
    match WalkFigi(figi, SortByDate(ops), start)
    case Failure(e) => Failure(e)
    case Ok(w) => Ok(w.closed + EndSessions(w.current))
  }

  /** The signed quantity an operation adds to the position. */
  function Signed(op: Operation): int
  {
    if op.operationType == Buy then op.quantity as int
    else if op.operationType == Sell then -(op.quantity as int)
    else 0
  }

  function NetQuantity(ops: seq<Operation>): int
  {
    if ops == [] then 0 else NetQuantity(ops[..|ops| - 1]) + Signed(ops[|ops| - 1])
  }

  predicate HasZeroTrade(ops: seq<Operation>)
  {
    exists i :: 0 <= i < |ops| && IsTrading(ops[i].operationType) && ops[i].quantity == 0
  }

  /** The session invariant kept by the walk: every session it holds is non-empty and of this FIGI. */
  predicate WellFormed(figi: string, s: Session)
  {
    s.operations != [] && s.figi == figi
  }

  predicate WalkWellFormed(figi: string, w: Walk)
  {
    (forall k :: 0 <= k < |w.closed| ==> WellFormed(figi, w.closed[k]))
    && (w.current.Some? ==> WellFormed(figi, w.current.value))
  }

  lemma StepWalkFacts(figi: string, w: Walk, op: Operation)
    requires WalkWellFormed(figi, w)
    ensures StepWalk(figi, w, op).Failure? <==> IsTrading(op.operationType) && op.quantity == 0
    ensures StepWalk(figi, w, op).Ok? ==>
      var w' := StepWalk(figi, w, op).value;
      && w'.position == w.position + Signed(op)
      && WalkWellFormed(figi, w')
      && |w'.closed| <= |w.closed| + 1
      && w'.closed[..|w.closed|] == w.closed
  {
    hide SessionId;
    if IsTrading(op.operationType) {
      var isBuy := op.operationType == Buy;
      var newPos := if isBuy then w.position + op.quantity else w.position - op.quantity;
      if Crosses(w.position, newPos) {
        CrossingSplits(figi, op, w.position, newPos, op.quantity, isBuy, w.current);
      } else {
        NoCrossingNoBoundary(figi, op, w.position, newPos, op.quantity, isBuy, w.current);
      }
    }
  }

  /**
   * Position continuity and error cases of the walk: it fails exactly when some buy or sell has
   * quantity zero, and otherwise ends at the starting position plus all buys minus all sells,
   * with every session non-empty and of this FIGI.
   */
  lemma {:induction false} WalkFacts(figi: string, ops: seq<Operation>, start: int)
    ensures WalkFigi(figi, ops, start).Failure? <==> HasZeroTrade(ops)
    ensures WalkFigi(figi, ops, start).Ok? ==>
      && WalkFigi(figi, ops, start).value.position == start + NetQuantity(ops)
      && WalkWellFormed(figi, WalkFigi(figi, ops, start).value)
  {
    if ops != [] {
      var init, op := ops[..|ops| - 1], ops[|ops| - 1];
      WalkFacts(figi, init, start);
      assert HasZeroTrade(ops) <==> HasZeroTrade(init) || (IsTrading(op.operationType) && op.quantity == 0) by {
        if HasZeroTrade(init) {
          var i :| 0 <= i < |init| && IsTrading(init[i].operationType) && init[i].quantity == 0;
          assert ops[i] == init[i];
        }
        if HasZeroTrade(ops) {
          var i :| 0 <= i < |ops| && IsTrading(ops[i].operationType) && ops[i].quantity == 0;
          if i < |init| {
            assert init[i] == ops[i];
          }
        }
      }
      match WalkFigi(figi, init, start)
      case Failure(e) =>
      case Ok(w) =>
        StepWalkFacts(figi, w, op);
    }
  }

  /** A buy or sell steps the walk by exactly the position change it causes; anything else is skipped. */
  lemma StepWalkCases(figi: string, w: Walk, op: Operation)
    ensures !IsTrading(op.operationType) ==> StepWalk(figi, w, op) == Ok(w)
    ensures IsTrading(op.operationType) ==>
      var isBuy := op.operationType == Buy;
      var newPos := if isBuy then w.position + op.quantity else w.position - op.quantity;
      var ch := ChangePosition(figi, op, w.position, newPos, op.quantity, isBuy, w.current);
      StepWalk(figi, w, op)
        == if ch.Failure? then Failure(ch.error) else Ok(Walk(newPos, ch.value.current, w.closed + OptionToSeq(ch.value.closed)))
  {
    hide ChangePosition;
  }

  /** The walk over no operations is flat at the starting position. */
  lemma WalkStart(figi: string, ops: seq<Operation>, start: int)
    ensures WalkFigi(figi, ops[..0], start) == Ok(Walk(start, None, []))
  {
    assert ops[..0] == [];
  }

  /** The walk over one more operation is one more step of the walk. */
  lemma WalkAdvance(figi: string, ops: seq<Operation>, i: nat, start: int)
    requires i < |ops| && WalkFigi(figi, ops[..i], start).Ok?
    ensures WalkFigi(figi, ops[..i + 1], start) == StepWalk(figi, WalkFigi(figi, ops[..i], start).value, ops[i])
  {
    assert ops[..i + 1][..i] == ops[..i];
  }

  /** Once the walk over a prefix fails, the walk over the whole list fails too. */
  lemma WalkFailsEarly(figi: string, ops: seq<Operation>, i: nat, start: int)
    requires i <= |ops| && WalkFigi(figi, ops[..i], start).Failure?
    ensures WalkFigi(figi, ops, start).Failure?
  {
    WalkFacts(figi, ops[..i], start);
    WalkFacts(figi, ops, start);
    var k :| 0 <= k < i && IsTrading(ops[..i][k].operationType) && ops[..i][k].quantity == 0;
    assert ops[k] == ops[..i][k];
  }

  /** Balance of an open session, as a signed quantity. */
  function Held(s: Session): int
  {
    s.totalBought as int - s.totalSold as int
  }

  /**
   * Starting from a flat position, the open session holds exactly the position, and a session
   * closed at a sign change has bought and sold the same positive quantity.
   */
  predicate FlatInvariant(w: Walk)
  {
    (if w.current.Some? then Held(w.current.value) == w.position else w.position == 0)
    && forall k :: 0 <= k < |w.closed| ==> w.closed[k].totalBought == w.closed[k].totalSold > 0
  }

  lemma StepKeepsFlatInvariant(figi: string, w: Walk, op: Operation)
    requires FlatInvariant(w)
    ensures StepWalk(figi, w, op).Ok? ==> FlatInvariant(StepWalk(figi, w, op).value)
  {
    hide SessionId;
    if IsTrading(op.operationType) {
      var isBuy := op.operationType == Buy;
      var newPos := if isBuy then w.position + op.quantity else w.position - op.quantity;
      if Crosses(w.position, newPos) {
        CrossingSplits(figi, op, w.position, newPos, op.quantity, isBuy, w.current);
      }
    }
  }

  /** For a FIGI with no starting position every session closed at a sign change is a balanced round trip. */
  lemma {:induction false} FlatStartBalanced(figi: string, ops: seq<Operation>)
    ensures WalkFigi(figi, ops, 0).Ok? ==> FlatInvariant(WalkFigi(figi, ops, 0).value)
  {
    if ops != [] {
      FlatStartBalanced(figi, ops[..|ops| - 1]);
      match WalkFigi(figi, ops[..|ops| - 1], 0)
      case Failure(_) =>
      case Ok(w) =>
        StepKeepsFlatInvariant(figi, w, ops[|ops| - 1]);
    }
  }

  /**
   * The sessions emitted for a FIGI are the ones closed at sign changes followed by the final
   * open one only if it has both buys and sells; an open position alone yields nothing.
   */
  lemma SessionsForFigiShape(figi: string, ops: seq<Operation>, start: int)
    ensures SessionsForFigi(figi, ops, start).Failure? <==> HasZeroTrade(ops)
    ensures SessionsForFigi(figi, ops, start).Ok? ==>
      var w := WalkFigi(figi, SortByDate(ops), start).value;
      var r := SessionsForFigi(figi, ops, start).value;
      && (forall k :: 0 <= k < |r| ==> WellFormed(figi, r[k]))
      && r[..|w.closed|] == w.closed
      && (|r| > |w.closed| <==> w.current.Some? && w.current.value.totalBought > 0 && w.current.value.totalSold > 0)
  {
    var sorted := SortByDate(ops);
    WalkFacts(figi, sorted, start);
    ZeroTradePermutation(ops, sorted);
  }

  /** The sessions of a FIGI cannot be built exactly when one of its buys or sells has quantity zero. */
  lemma SessionsForFigiFails(figi: string, ops: seq<Operation>, start: int)
    ensures SessionsForFigi(figi, ops, start).Failure? <==> HasZeroTrade(ops)
  {
    WalkFacts(figi, SortByDate(ops), start);
    ZeroTradePermutation(ops, SortByDate(ops));
  }

  lemma ZeroTradePermutation(a: seq<Operation>, b: seq<Operation>)
    requires multiset(a) == multiset(b)
    ensures HasZeroTrade(a) <==> HasZeroTrade(b)
  {
    if HasZeroTrade(a) {
      var i :| 0 <= i < |a| && IsTrading(a[i].operationType) && a[i].quantity == 0;
      assert a[i] in multiset(b);
      var j :| 0 <= j < |b| && b[j] == a[i];
    }
    if HasZeroTrade(b) {
      var i :| 0 <= i < |b| && IsTrading(b[i].operationType) && b[i].quantity == 0;
      assert b[i] in multiset(a);
      var j :| 0 <= j < |a| && a[j] == b[i];
    }
  }
}
