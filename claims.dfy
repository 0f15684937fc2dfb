/**
 * Fee and variation-margin entries and how a finalized session claims them: each entry carries an
 * `assigned` flag, only unassigned entries are inspected, and claiming sets the flag, so no entry
 * is counted for two sessions.
 */
module Claims {
  import opened Common
  import opened Operations
  import opened Sessions

  /** An element of `fees_buffer` or `margin_operations`. */
  datatype PoolEntry = PoolEntry(operation: Operation, amount: real, date: Instant, isAssigned: bool)

  /** `_process_fee_operation`: fees are stored as absolute amounts. */
  function FeeEntry(op: Operation): PoolEntry
  {
    PoolEntry(op, Abs(op.payment), op.date, false)
  }

  /** `_process_margin_operation`: variation margin keeps its sign. */
  function MarginEntry(op: Operation): PoolEntry
  {
    PoolEntry(op, op.payment, op.date, false)
  }

  datatype PoolKind = FeePool | MarginPool

  /** Fees match inside the window or within 300 seconds of either end; margin only inside it. */
  predicate TimeMatch(kind: PoolKind, date: int, start: int, end: int)
  {
    (start <= date <= end)
    || (kind == FeePool && (IntAbs(date - start) <= 300 || IntAbs(date - end) <= 300))
  }

  /** An entry without a FIGI matches any session. */
  predicate FigiMatch(entryFigi: string, figi: string)
  {
    entryFigi == "" || entryFigi == figi
  }

  predicate Eligible(kind: PoolKind, e: PoolEntry, figi: string, start: int, end: int)
  {
    !e.isAssigned && TimeMatch(kind, e.date, start, end) && FigiMatch(e.operation.figi, figi)
  }

  /** The amount of the entries already claimed by some session. */
  function AssignedTotal(pool: seq<PoolEntry>): real
  {
    if pool == [] then 0.0
    else AssignedTotal(pool[..|pool| - 1]) + (if pool[|pool| - 1].isAssigned then pool[|pool| - 1].amount else 0.0)
  }

  /**
   * One pass of `_get_fees_for_session` / `_get_variation_margin_for_session`: every eligible
   * entry is flagged, every other entry is left as it is, and the flagged amounts are summed.
   */
  function Claim(kind: PoolKind, pool: seq<PoolEntry>, figi: string, start: int, end: int): (r: (seq<PoolEntry>, real))
    ensures |r.0| == |pool|
    ensures AssignedTotal(r.0) == AssignedTotal(pool) + r.1
  {
    if pool == [] then ([], 0.0)
    else
      var prev := Claim(kind, pool[..|pool| - 1], figi, start, end);
      var e := pool[|pool| - 1];
      var r := if Eligible(kind, e, figi, start, end) then (prev.0 + [e.(isAssigned := true)], prev.1 + e.amount)
               else (prev.0 + [e], prev.1);
      assert r.0[..|r.0| - 1] == prev.0;
      r
  }

  /** Claiming flags exactly the eligible entries and leaves every other entry as it was. */
  lemma {:induction false} ClaimPointwise(kind: PoolKind, pool: seq<PoolEntry>, figi: string, start: int, end: int)
    ensures var r := Claim(kind, pool, figi, start, end);
      forall i :: 0 <= i < |pool| ==>
        r.0[i] == if Eligible(kind, pool[i], figi, start, end) then pool[i].(isAssigned := true) else pool[i]
  {
    if pool != [] {
      ClaimPointwise(kind, pool[..|pool| - 1], figi, start, end);
    }
  }

  /** Claiming one entry more: the pass over a longer prefix extends the pass over the shorter one. */
  lemma ClaimStep(kind: PoolKind, pool: seq<PoolEntry>, i: nat, figi: string, start: int, end: int)
    requires i < |pool|
    ensures var prev := Claim(kind, pool[..i], figi, start, end);
      Claim(kind, pool[..i + 1], figi, start, end)
        == if Eligible(kind, pool[i], figi, start, end) then (prev.0 + [pool[i].(isAssigned := true)], prev.1 + pool[i].amount)
           else (prev.0 + [pool[i]], prev.1)
  {
    assert pool[..i + 1][..i] == pool[..i];
  }

  /**
   * One iteration of the in-place claiming loop: when the buffer holds the claimed prefix followed
   * by the untouched rest, flagging entry `i` if eligible extends the claimed prefix by one.
   */
  lemma ClaimAdvance(kind: PoolKind, pool: seq<PoolEntry>, buf: seq<PoolEntry>, i: nat, total: real,
                     figi: string, start: int, end: int)
    requires i < |pool| == |buf|
    requires Claim(kind, pool[..i], figi, start, end) == (buf[..i], total)
    requires buf[i..] == pool[i..]
    ensures buf[i] == pool[i]
    ensures var e := pool[i];
      var buf' := if Eligible(kind, e, figi, start, end) then buf[i := e.(isAssigned := true)] else buf;
      var total' := if Eligible(kind, e, figi, start, end) then total + e.amount else total;
      && Claim(kind, pool[..i + 1], figi, start, end) == (buf'[..i + 1], total')
      && buf'[i + 1..] == pool[i + 1..]
  {
    assert buf[i] == buf[i..][0];
    ClaimStep(kind, pool, i, figi, start, end);
    var e := pool[i];
    var buf' := if Eligible(kind, e, figi, start, end) then buf[i := e.(isAssigned := true)] else buf;
    assert buf'[..i + 1] == buf[..i] + [buf'[i]];
    assert buf'[i + 1..] == buf[i..][1..];
  }

  /** Claiming never releases an entry, and claims only entries that were free. */
  lemma {:induction false} ClaimAtMostOnce(kind: PoolKind, pool: seq<PoolEntry>, figi: string, start: int, end: int)
    ensures var r := Claim(kind, pool, figi, start, end);
      forall i :: 0 <= i < |pool| ==>
        && r.0[i].operation == pool[i].operation && r.0[i].amount == pool[i].amount && r.0[i].date == pool[i].date
        && (pool[i].isAssigned ==> r.0[i] == pool[i])
        && (r.0[i].isAssigned <==> pool[i].isAssigned || Eligible(kind, pool[i], figi, start, end))
  {
    ClaimPointwise(kind, pool, figi, start, end);
  }

  /** A second pass over the same window finds nothing left to claim. */
  lemma {:induction false} ClaimAgainFindsNothing(kind: PoolKind, pool: seq<PoolEntry>, figi: string, start: int, end: int)
    ensures var r := Claim(kind, pool, figi, start, end);
      Claim(kind, r.0, figi, start, end) == (r.0, 0.0)
  {
    if pool != [] {
      var init := pool[..|pool| - 1];
      ClaimAgainFindsNothing(kind, init, figi, start, end);
      var r := Claim(kind, pool, figi, start, end);
      var ri := Claim(kind, init, figi, start, end);
      assert r.0[..|r.0| - 1] == ri.0;
    }
  }

  /** The two pools as they stand between finalizations. */
  datatype Books = Books(fees: seq<PoolEntry>, margins: seq<PoolEntry>)

  /** Direction of a session: SHORT iff both legs exist and it opened with a sell, or it has sells only. */
  function DirectionOf(s: Session): Direction
    requires s.operations != []
  {
    if s.totalSold > 0 && s.totalBought > 0 then
      (if s.operations[0].operationType == Sell then Short else Long)
    else if s.totalSold > 0 then Short
    else Long
  }

  /** `start_time - timedelta(hours=offset)`, the session's start in the operations' own clock. */
  function Shift(t: int, offsetHours: int): int
  {
    t - offsetHours * 3600
  }

  /** `_finalize_session`: direction, gross profit, the claimed fees and margin, and net profit. */
  function Finalize(books: Books, s: Session, offsetHours: int): (r: (Session, Books))
    requires s.operations != []
  {
    var start, end := Shift(s.startTime, offsetHours), Shift(s.endTime, offsetHours);
    var fees := Claim(FeePool, books.fees, s.figi, start, end);
    var margins := Claim(MarginPool, books.margins, s.figi, start, end);
    var gross := s.totalSellAmount - s.totalBuyAmount;
    (s.(direction := DirectionOf(s), grossProfit := gross, fees := fees.1, variationMargin := margins.1,
        netProfit := gross - fees.1 + margins.1),
     Books(fees.0, margins.0))
  }

  /** The recorded part of a session: everything except what finalization fills in. */
  predicate SameRecords(a: Session, b: Session)
  {
    a.sessionId == b.sessionId && a.figi == b.figi && a.instrumentName == b.instrumentName
    && a.startTime == b.startTime && a.endTime == b.endTime && a.operations == b.operations
    && a.totalSold == b.totalSold && a.totalBought == b.totalBought
    && a.totalSellAmount == b.totalSellAmount && a.totalBuyAmount == b.totalBuyAmount
  }

  /**
   * What finalization promises: net = gross − fees + margin with gross = sells − buys, the
   * direction rule, the records untouched, and every claimed amount moved into the assigned part
   * of its pool.
   */
  lemma FinalizeFacts(books: Books, s: Session, offsetHours: int)
    requires s.operations != []
    ensures var (f, b) := Finalize(books, s, offsetHours);
      && SameRecords(f, s)
      && f.grossProfit == s.totalSellAmount - s.totalBuyAmount
      && f.netProfit == f.grossProfit - f.fees + f.variationMargin
      && (f.direction == Short <==>
            (s.totalSold > 0 && s.totalBought > 0 && s.operations[0].operationType == Sell)
            || (s.totalBought == 0 && s.totalSold > 0))
      && f.direction != Unknown
      && |b.fees| == |books.fees| && |b.margins| == |books.margins|
      && AssignedTotal(b.fees) == AssignedTotal(books.fees) + f.fees
      && AssignedTotal(b.margins) == AssignedTotal(books.margins) + f.variationMargin
  {
  }

  predicate AllNonEmpty(raws: seq<Session>)
  {
    forall k :: 0 <= k < |raws| ==> raws[k].operations != []
  }

  /** Finalizing a list of sessions in order, threading the pools. */
  function FinalizeAll(books: Books, raws: seq<Session>, offsetHours: int): (r: (seq<Session>, Books))
    requires AllNonEmpty(raws)
    ensures |r.0| == |raws|
  {
    if raws == [] then ([], books)
    else
      var (done, b) := FinalizeAll(books, raws[..|raws| - 1], offsetHours);
      var (f, b') := Finalize(b, raws[|raws| - 1], offsetHours);
      (done + [f], b')
  }

  function TotalFees(sessions: seq<Session>): real
  {
    if sessions == [] then 0.0 else TotalFees(sessions[..|sessions| - 1]) + sessions[|sessions| - 1].fees
  }

  function TotalMargin(sessions: seq<Session>): real
  {
    if sessions == [] then 0.0 else TotalMargin(sessions[..|sessions| - 1]) + sessions[|sessions| - 1].variationMargin
  }

  /**
   * Over a whole run the fees and margin attributed to sessions are exactly what became
   * assigned in the pools: nothing is counted twice and nothing claimed is lost.
   */
  lemma {:induction false} FinalizeAllConserves(books: Books, raws: seq<Session>, offsetHours: int)
    requires AllNonEmpty(raws)
    ensures var (done, b) := FinalizeAll(books, raws, offsetHours);
      && AssignedTotal(b.fees) == AssignedTotal(books.fees) + TotalFees(done)
      && AssignedTotal(b.margins) == AssignedTotal(books.margins) + TotalMargin(done)
      && |b.fees| == |books.fees| && |b.margins| == |books.margins|
  {
    if raws != [] {
      var init := raws[..|raws| - 1];
      FinalizeAllConserves(books, init, offsetHours);
      var (done0, b0) := FinalizeAll(books, init, offsetHours);
      FinalizeFacts(b0, raws[|raws| - 1], offsetHours);
      var (done, b) := FinalizeAll(books, raws, offsetHours);
      assert done[..|done| - 1] == done0;
    }
  }

  /** Each finalized session keeps its records and satisfies net = gross − fees + margin. */
  lemma {:induction false} FinalizeAllRecords(books: Books, raws: seq<Session>, offsetHours: int)
    requires AllNonEmpty(raws)
    ensures var done := FinalizeAll(books, raws, offsetHours).0;
      forall k :: 0 <= k < |raws| ==>
        SameRecords(done[k], raws[k]) && done[k].netProfit == done[k].grossProfit - done[k].fees + done[k].variationMargin
  {
    if raws != [] {
      var init := raws[..|raws| - 1];
      FinalizeAllRecords(books, init, offsetHours);
      var (done0, b0) := FinalizeAll(books, init, offsetHours);
      FinalizeFacts(b0, raws[|raws| - 1], offsetHours);
      var done := FinalizeAll(books, raws, offsetHours).0;
      assert done == done0 + [Finalize(b0, raws[|raws| - 1], offsetHours).0];
      forall k | 0 <= k < |raws|
        ensures SameRecords(done[k], raws[k]) && done[k].netProfit == done[k].grossProfit - done[k].fees + done[k].variationMargin
      {
        if k < |init| {
          assert done[k] == done0[k] && raws[k] == init[k];
        }
      }
    }
  }

  /** Finalizing a list extended by one session finalizes that session against the pools left over. */
  lemma FinalizeAllAppend(books: Books, raws: seq<Session>, s: Session, offsetHours: int)
    requires AllNonEmpty(raws) && s.operations != []
    ensures AllNonEmpty(raws + [s])
    ensures var (done, b) := FinalizeAll(books, raws, offsetHours);
      FinalizeAll(books, raws + [s], offsetHours) == (done + [Finalize(b, s, offsetHours).0], Finalize(b, s, offsetHours).1)
  {
    assert (raws + [s])[..|raws + [s]| - 1] == raws;
  }

  /** Finalizing two lists in a row is finalizing their concatenation. */
  lemma {:induction false} FinalizeAllConcat(books: Books, a: seq<Session>, b: seq<Session>, offsetHours: int)
    requires AllNonEmpty(a) && AllNonEmpty(b)
    ensures AllNonEmpty(a + b)
    ensures FinalizeAll(books, a + b, offsetHours)
         == (FinalizeAll(books, a, offsetHours).0 + FinalizeAll(FinalizeAll(books, a, offsetHours).1, b, offsetHours).0,
             FinalizeAll(FinalizeAll(books, a, offsetHours).1, b, offsetHours).1)
    decreases |b|
  {
    if b == [] {
      assert a + b == a;
      var A := FinalizeAll(books, a, offsetHours);
      assert FinalizeAll(A.1, b, offsetHours) == ([], A.1);
      assert A.0 + [] == A.0;
    } else {
      var init, last := b[..|b| - 1], b[|b| - 1];
      assert AllNonEmpty(init);
      assert b == init + [last];
      FinalizeAllConcat(books, a, init, offsetHours);
      var A := FinalizeAll(books, a, offsetHours);
      var I := FinalizeAll(A.1, init, offsetHours);
      var F := Finalize(I.1, last, offsetHours);
      assert a + b == (a + init) + [last];
      FinalizeAllAppend(books, a + init, last, offsetHours);
      assert FinalizeAll(books, a + b, offsetHours) == (A.0 + I.0 + [F.0], F.1);
      FinalizeAllAppend(A.1, init, last, offsetHours);
      assert FinalizeAll(A.1, b, offsetHours) == (I.0 + [F.0], F.1);
      assert A.0 + I.0 + [F.0] == A.0 + (I.0 + [F.0]);
    }
  }
}
