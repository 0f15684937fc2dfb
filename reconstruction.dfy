/**
 * The whole session-based reconstruction as one function of its inputs: sort by date, split off
 * fees and variation margin, walk each FIGI's buys and sells, finalize the sessions in the order
 * the walk closes them, and turn them into trades.
 */
module Reconstruction {
  import opened Common
  import opened Operations
  import opened Sessions
  import opened Claims
  import opened Trades

  /** The three lists the classification loop produces; other operation types are dropped. */
  datatype Classified = Classified(fees: seq<PoolEntry>, margins: seq<PoolEntry>, trading: seq<Operation>)

  predicate IsFee(op: Operation)
  {
    op.operationType == BrokerFee
  }

  /** The classification loop of `process_operations_with_starting_positions`. */
  function Classify(s: seq<Operation>): (r: Classified)
    ensures r.trading == TradingOps(s)
    ensures forall k :: 0 <= k < |r.fees| ==> IsFee(r.fees[k].operation) && r.fees[k] == FeeEntry(r.fees[k].operation)
    ensures forall k :: 0 <= k < |r.margins| ==>
      IsMargin(r.margins[k].operation.operationType) && r.margins[k] == MarginEntry(r.margins[k].operation)
    ensures |r.fees| + |r.margins| + |r.trading| <= |s|
  {
    if s == [] then Classified([], [], [])
    else
      var c := Classify(s[..|s| - 1]);
      var op := s[|s| - 1];
      if IsFee(op) then c.(fees := c.fees + [FeeEntry(op)])
      else if IsMargin(op.operationType) then c.(margins := c.margins + [MarginEntry(op)])
      else if IsTrading(op.operationType) then c.(trading := c.trading + [op])
      else c
  }

  /** Classifying one more operation files it after the ones already classified. */
  lemma ClassifyStep(s: seq<Operation>, i: nat)
    requires i < |s|
    ensures var c, op := Classify(s[..i]), s[i];
      Classify(s[..i + 1])
        == if IsFee(op) then c.(fees := c.fees + [FeeEntry(op)])
           else if IsMargin(op.operationType) then c.(margins := c.margins + [MarginEntry(op)])
           else if IsTrading(op.operationType) then c.(trading := c.trading + [op])
           else c
  {
    assert s[..i + 1][..i] == s[..i];
  }

  predicate Recognised(op: Operation)
  {
    !op.operationType.OtherType?
  }

  /** Only unrecognised operation types are dropped: every other operation lands in exactly one list. */
  lemma {:induction false} ClassifyKeepsRecognised(s: seq<Operation>)
    ensures var r := Classify(s);
      (forall i :: 0 <= i < |s| ==> Recognised(s[i])) ==> |r.fees| + |r.margins| + |r.trading| == |s|
  {
    if s != [] {
      var init := s[..|s| - 1];
      ClassifyKeepsRecognised(init);
      if forall i :: 0 <= i < |s| ==> Recognised(s[i]) {
        assert forall i :: 0 <= i < |init| ==> Recognised(init[i]) by {
          forall i | 0 <= i < |init| ensures Recognised(init[i]) {
            assert init[i] == s[i];
          }
        }
      }
    }
  }

  lemma {:induction false} UnassignedTotal(pool: seq<PoolEntry>)
    requires forall k :: 0 <= k < |pool| ==> !pool[k].isAssigned
    ensures AssignedTotal(pool) == 0.0
  {
    if pool != [] {
      UnassignedTotal(pool[..|pool| - 1]);
    }
  }

  /** `starting_positions.get(figi, 0)`. */
  function StartOf(starting: map<string, int>, figi: string): int
  {
    if figi in starting then starting[figi] else 0
  }

  /** `_group_operations_into_sessions`: the sessions of each FIGI in turn; the first ZeroDivision aborts. */
  function SessionsOfFigis(trading: seq<Operation>, figis: seq<string>, starting: map<string, int>): (r: Result<seq<Session>>)
    ensures r.Ok? ==> AllNonEmpty(r.value)
  {
    if figis == [] then Ok([])
    else
      match SessionsOfFigis(trading, figis[..|figis| - 1], starting)
      case Failure(e) => Failure(e)
      case Ok(before) =>
        var f := figis[|figis| - 1];
        SessionsForFigiShape(f, OpsOfFigi(trading, f), StartOf(starting, f));
        match SessionsForFigi(f, OpsOfFigi(trading, f), StartOf(starting, f))
        case Failure(e) => Failure(e)
        case Ok(ss) => Ok(before + ss)
  }

  /** The result of `process_operations_with_starting_positions`, with the state it leaves behind. */
  datatype Outcome = Outcome(
    trades: seq<Trade>,
    totalProfit: real,
    sortedOperations: seq<Operation>,
    sessions: seq<Session>,
    books: Books)

  /** Finalization and conversion of the sessions collected from the walk. */
  function Finish(sorted: seq<Operation>, c: Classified, raws: seq<Session>, offsetHours: int): Outcome
    requires AllNonEmpty(raws)
  {
    var (done, books) := FinalizeAll(Books(c.fees, c.margins), raws, offsetHours);
    FinalizeAllRecords(Books(c.fees, c.margins), raws, offsetHours);
    var trades := TradesOfSessions(done, offsetHours);
    Outcome(trades, TotalNet(trades), sorted, done, books)
  }

  /** `process_operations_with_starting_positions`. */
  function Reconstruct(ops: seq<Operation>, starting: map<string, int>, offsetHours: int): Result<Outcome>
  {
    var sorted := SortByDate(ops);
    var c := Classify(sorted);
    match SessionsOfFigis(c.trading, FigiOrder(c.trading), starting)
    case Failure(e) => Failure(e)
    case Ok(raws) => Ok(Finish(sorted, c, raws, offsetHours))
  }

  /** `process_operations`: no starting positions. */
  function ProcessOperations(ops: seq<Operation>, offsetHours: int): Result<Outcome>
  {
    Reconstruct(ops, map[], offsetHours)
  }

  predicate FigiHasZero(trading: seq<Operation>, f: string)
  {
    HasZeroTrade(OpsOfFigi(trading, f))
  }

  /** Some FIGI of the list has a zero trade. */
  predicate AnyFigiHasZero(trading: seq<Operation>, figis: seq<string>)
  {
    figis != [] && (AnyFigiHasZero(trading, figis[..|figis| - 1]) || FigiHasZero(trading, figis[|figis| - 1]))
  }

  /** One abort condition per FIGI list: the walk over the FIGIs fails iff one of them holds a zero trade. */
  lemma {:induction false} SessionsOfFigisFails(trading: seq<Operation>, figis: seq<string>, starting: map<string, int>)
    ensures SessionsOfFigis(trading, figis, starting).Failure? <==> AnyFigiHasZero(trading, figis)
  {
    if figis != [] {
      var init := figis[..|figis| - 1];
      var f := figis[|figis| - 1];
      SessionsOfFigisFails(trading, init, starting);
      SessionsForFigiFails(f, OpsOfFigi(trading, f), StartOf(starting, f));
    }
  }

  lemma {:induction false} AnyFigiHasZeroIff(trading: seq<Operation>, figis: seq<string>)
    ensures AnyFigiHasZero(trading, figis) <==> exists k :: 0 <= k < |figis| && FigiHasZero(trading, figis[k])
  {
    if figis != [] {
      var init := figis[..|figis| - 1];
      AnyFigiHasZeroIff(trading, init);
      if exists k :: 0 <= k < |init| && FigiHasZero(trading, init[k]) {
        var k :| 0 <= k < |init| && FigiHasZero(trading, init[k]);
        assert figis[k] == init[k];
      }
      if exists k :: 0 <= k < |figis| && FigiHasZero(trading, figis[k]) {
        var k :| 0 <= k < |figis| && FigiHasZero(trading, figis[k]);
        if k < |init| {
          assert figis[k] == init[k];
        }
      }
    }
  }

  predicate ZeroTradeAt(s: seq<Operation>, i: int)
    requires 0 <= i < |s|
  {
    IsTrading(s[i].operationType) && s[i].quantity == 0
  }

  /** A FIGI's operations hold a zero trade iff the whole list holds one of that FIGI. */
  lemma ZeroTradeOfFigi(s: seq<Operation>, f: string)
    ensures HasZeroTrade(OpsOfFigi(s, f)) <==> exists i :: 0 <= i < |s| && s[i].figi == f && ZeroTradeAt(s, i)
  {
    var t := OpsOfFigi(s, f);
    FilterMembers(s, (op: Operation) => op.figi == f);
    if HasZeroTrade(t) {
      var i :| 0 <= i < |t| && IsTrading(t[i].operationType) && t[i].quantity == 0;
      assert t[i] in s;
      var j :| 0 <= j < |s| && s[j] == t[i];
      assert ZeroTradeAt(s, j);
    }
    if exists i :: 0 <= i < |s| && s[i].figi == f && ZeroTradeAt(s, i) {
      var i :| 0 <= i < |s| && s[i].figi == f && ZeroTradeAt(s, i);
      assert s[i] in t;
      var j :| 0 <= j < |t| && t[j] == s[i];
    }
  }

  /** Only buys and sells can be zero trades, so dropping everything else keeps them all. */
  lemma ZeroTradeOfTrading(s: seq<Operation>)
    ensures HasZeroTrade(TradingOps(s)) <==> HasZeroTrade(s)
  {
    var t := TradingOps(s);
    FilterMembers(s, (op: Operation) => IsTrading(op.operationType));
    if HasZeroTrade(t) {
      var i :| 0 <= i < |t| && IsTrading(t[i].operationType) && t[i].quantity == 0;
      assert t[i] in s;
      var j :| 0 <= j < |s| && s[j] == t[i];
    }
    if HasZeroTrade(s) {
      var i :| 0 <= i < |s| && IsTrading(s[i].operationType) && s[i].quantity == 0;
      assert s[i] in t;
      var j :| 0 <= j < |t| && t[j] == s[i];
    }
  }

  /** Splitting by FIGI loses no zero trade: some FIGI's list holds one iff the whole list does. */
  lemma ZeroTradeByFigi(t: seq<Operation>)
    ensures (exists k :: 0 <= k < |FigiOrder(t)| && FigiHasZero(t, FigiOrder(t)[k])) <==> HasZeroTrade(t)
  {
    var figis := FigiOrder(t);
    if HasZeroTrade(t) {
      var i :| 0 <= i < |t| && IsTrading(t[i].operationType) && t[i].quantity == 0;
      var f := t[i].figi;
      assert f in figis;
      var k :| 0 <= k < |figis| && figis[k] == f;
      ZeroTradeOfFigi(t, f);
      assert ZeroTradeAt(t, i);
      assert FigiHasZero(t, figis[k]);
      assert 0 <= k < |FigiOrder(t)| && FigiHasZero(t, FigiOrder(t)[k]);
    } else {
      forall k | 0 <= k < |figis| ensures !FigiHasZero(t, figis[k]) {
        ZeroTradeOfFigi(t, figis[k]);
      }
    }
  }

  /**
   * The reconstruction fails (the source raises ZeroDivisionError) exactly when some buy or sell
   * has quantity zero; every other input yields trades.
   */
  lemma ReconstructFailsIff(ops: seq<Operation>, starting: map<string, int>, offsetHours: int)
    ensures Reconstruct(ops, starting, offsetHours).Failure? <==> HasZeroTrade(ops)
  {
    var sorted := SortByDate(ops);
    var c := Classify(sorted);
    SessionsOfFigisFails(c.trading, FigiOrder(c.trading), starting);
    AnyFigiHasZeroIff(c.trading, FigiOrder(c.trading));
    ZeroTradeByFigi(c.trading);
    ZeroTradeOfTrading(sorted);
    ZeroTradePermutation(ops, sorted);
    assert HasZeroTrade(c.trading) <==> HasZeroTrade(ops);
    assert Reconstruct(ops, starting, offsetHours).Failure?
       <==> SessionsOfFigis(c.trading, FigiOrder(c.trading), starting).Failure?;
  }

  /**
   * What finalization and conversion deliver: one trade per finalized session in order, each
   * session's net = gross − fees + margin, and the total profit the sum of the sessions' net profits.
   */
  lemma FinishTrades(sorted: seq<Operation>, c: Classified, raws: seq<Session>, offsetHours: int)
    requires AllNonEmpty(raws)
    ensures var r := Finish(sorted, c, raws, offsetHours);
      && AllNonEmpty(r.sessions)
      && |r.trades| == |r.sessions| == |raws|
      && r.trades == TradesOfSessions(r.sessions, offsetHours)
      && (forall k :: 0 <= k < |r.sessions| ==>
            SameRecords(r.sessions[k], raws[k])
            && r.sessions[k].netProfit == r.sessions[k].grossProfit - r.sessions[k].fees + r.sessions[k].variationMargin)
      && r.totalProfit == SessionsNet(r.sessions)
      && r.sortedOperations == sorted
  {
    var done := FinalizeAll(Books(c.fees, c.margins), raws, offsetHours).0;
    FinalizeAllRecords(Books(c.fees, c.margins), raws, offsetHours);
    TotalNetOfSessions(done, offsetHours);
  }

  /** Starting from freshly classified pools, what sessions are charged is exactly what got flagged as assigned. */
  lemma FinishConserves(sorted: seq<Operation>, c: Classified, raws: seq<Session>, offsetHours: int)
    requires AllNonEmpty(raws)
    requires forall k :: 0 <= k < |c.fees| ==> !c.fees[k].isAssigned
    requires forall k :: 0 <= k < |c.margins| ==> !c.margins[k].isAssigned
    ensures var r := Finish(sorted, c, raws, offsetHours);
      && AssignedTotal(r.books.fees) == TotalFees(r.sessions)
      && AssignedTotal(r.books.margins) == TotalMargin(r.sessions)
      && |r.books.fees| == |c.fees| && |r.books.margins| == |c.margins|
  {
    FinalizeAllConserves(Books(c.fees, c.margins), raws, offsetHours);
    UnassignedTotal(c.fees);
    UnassignedTotal(c.margins);
  }

  /** A successful reconstruction is the finishing step applied to the walk's sessions. */
  lemma ReconstructUnfold(ops: seq<Operation>, starting: map<string, int>, offsetHours: int) returns (raws: seq<Session>)
    requires Reconstruct(ops, starting, offsetHours).Ok?
    ensures AllNonEmpty(raws)
    ensures Reconstruct(ops, starting, offsetHours).value
         == Finish(SortByDate(ops), Classify(SortByDate(ops)), raws, offsetHours)
  {
    var c := Classify(SortByDate(ops));
    raws := SessionsOfFigis(c.trading, FigiOrder(c.trading), starting).value;
  }

  /**
   * What a successful reconstruction returns: the operations sorted by date (a permutation of
   * the input), one trade per finalized session, the total the sum of net profits, and the fees
   * and margin attributed to sessions exactly the amounts flagged as assigned in the pools.
   */
  lemma ReconstructFacts(ops: seq<Operation>, starting: map<string, int>, offsetHours: int)
    requires Reconstruct(ops, starting, offsetHours).Ok?
    ensures var r := Reconstruct(ops, starting, offsetHours).value;
      && SortedByDate(r.sortedOperations) && multiset(r.sortedOperations) == multiset(ops)
      && AllNonEmpty(r.sessions) && r.trades == TradesOfSessions(r.sessions, offsetHours)
      && r.totalProfit == SessionsNet(r.sessions)
      && AssignedTotal(r.books.fees) == TotalFees(r.sessions)
      && AssignedTotal(r.books.margins) == TotalMargin(r.sessions)
  {
    hide Reconstruct, Finish, SortByDate, Classify, SessionsOfFigis, FinalizeAll, TradesOfSessions;
    var sorted := SortByDate(ops);
    SortByDateSorted(ops);
    var c := Classify(sorted);
    var raws := ReconstructUnfold(ops, starting, offsetHours);
    FinishTrades(sorted, c, raws, offsetHours);
    FinishConserves(sorted, c, raws, offsetHours);
  }

  /**
   * `_create_sessions_for_figi` sorts its operations again; on the already sorted trading list
   * that second sort changes nothing.
   */
  lemma ResortIsIdentity(ops: seq<Operation>, f: string)
    ensures var t := Classify(SortByDate(ops)).trading;
      SortByDate(OpsOfFigi(t, f)) == OpsOfFigi(t, f)
  {
    var sorted := SortByDate(ops);
    SortByDateSorted(ops);
    FilterSorted(sorted, (op: Operation) => IsTrading(op.operationType));
    var t := Classify(sorted).trading;
    FilterSorted(t, (op: Operation) => op.figi == f);
    SortSortedIdentity(OpsOfFigi(t, f));
  }
}
