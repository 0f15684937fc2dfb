/**
 * `analyze_starting_positions`: for each FIGI, the first buy or sell and three candidate opening
 * positions with what the first operation would make of them.
 */
module Analysis {
  import opened Common
  import opened Operations
  import opened Sessions

  datatype Scenario = Scenario(startingPosition: int, firstOperationResult: int, crossesZero: bool)

  /** The `first_operation` summary; `typeName` is the Russian name of the operation type. */
  datatype FirstOperation = FirstOperation(typeName: string, quantity: nat, price: real, date: Instant, amount: real)

  datatype FigiAnalysis = FigiAnalysis(firstOperation: FirstOperation, scenarios: seq<Scenario>, totalOperations: nat)

  /** Flat, exactly closed by the first operation, and half closed by it. */
  function ScenariosFor(op: Operation): seq<Scenario>
  {
    var q := op.quantity as int;
    if op.operationType == Buy then
      [Scenario(0, q, false), Scenario(-q, 0, true), Scenario(-(q * 2), -q, false)]
    else
      [Scenario(0, -q, false), Scenario(q, 0, true), Scenario(q * 2, q, false)]
  }

  function Summary(op: Operation): FirstOperation
  {
    FirstOperation(if op.operationType == Buy then "Покупка" else "Продажа", op.quantity, op.price, op.date, op.payment)
  }

  function AnalyzeFigi(ops: seq<Operation>): FigiAnalysis
    requires ops != []
  {
    FigiAnalysis(Summary(ops[0]), ScenariosFor(ops[0]), |ops|)
  }

  lemma FigiOpsNonEmpty(t: seq<Operation>, f: string)
    requires f in FigiOrder(t)
    ensures OpsOfFigi(t, f) != []
  {
    var k :| 0 <= k < |t| && t[k].figi == f;
    FilterMembers(t, (op: Operation) => op.figi == f);
    assert t[k] in OpsOfFigi(t, f);
  }

  /** The buys and sells, sorted by date, that the analysis groups by FIGI. */
  function AnalysedOps(ops: seq<Operation>): seq<Operation>
  {
    TradingOps(SortByDate(ops))
  }

  function AnalyzeStartingPositions(ops: seq<Operation>): map<string, FigiAnalysis>
  {
    var t := AnalysedOps(ops);
    map f | f in FigiOrder(t) :: FigiOpsNonEmpty(t, f); AnalyzeFigi(OpsOfFigi(t, f))
  }

  /**
   * Every candidate is consistent with the position arithmetic of the session walk: the result is
   * the starting position plus the first operation's signed quantity. `crossesZero` marks the
   * candidate that lands exactly on zero, which the session walk does not treat as a boundary:
   * no candidate changes sign strictly.
   */
  lemma ScenarioFacts(op: Operation)
    requires IsTrading(op.operationType)
    ensures |ScenariosFor(op)| == 3 && ScenariosFor(op)[0].startingPosition == 0
    ensures forall s :: s in ScenariosFor(op) ==>
      && s.firstOperationResult == s.startingPosition + Signed(op)
      && (s.crossesZero ==> s.firstOperationResult == 0)
      && (op.quantity > 0 ==> (s.crossesZero <==> s.firstOperationResult == 0))
      && !Crosses(s.startingPosition, s.firstOperationResult)
  {
  }

  /**
   * One entry per FIGI with buys or sells, none for the rest; each counts that FIGI's buys and
   * sells and summarises the earliest of them (the first in date order, ties in input order).
   */
  lemma AnalyzeStartingPositionsFacts(ops: seq<Operation>, f: string)
    ensures var t := AnalysedOps(ops);
      && (f in AnalyzeStartingPositions(ops) <==> exists k :: 0 <= k < |t| && t[k].figi == f)
      && (f in AnalyzeStartingPositions(ops) ==>
            var a := AnalyzeStartingPositions(ops)[f];
            && OpsOfFigi(t, f) != []
            && a.totalOperations == |OpsOfFigi(t, f)|
            && a.firstOperation == Summary(OpsOfFigi(t, f)[0])
            && IsTrading(OpsOfFigi(t, f)[0].operationType)
            && forall k :: 0 <= k < |t| && t[k].figi == f ==> OpsOfFigi(t, f)[0].date <= t[k].date)
  {
    hide SortByDate, Filter;
    var t := AnalysedOps(ops);
    if f in AnalyzeStartingPositions(ops) {
      FigiOpsNonEmpty(t, f);
      var g := OpsOfFigi(t, f);
      FilterMembers(t, (op: Operation) => op.figi == f);
      FilterMembers(SortByDate(ops), (op: Operation) => IsTrading(op.operationType));
      assert g[0] in t;
      SortByDateSorted(ops);
      FilterSorted(SortByDate(ops), (op: Operation) => IsTrading(op.operationType));
      FilterSorted(t, (op: Operation) => op.figi == f);
      forall k | 0 <= k < |t| && t[k].figi == f ensures g[0].date <= t[k].date {
        assert t[k] in g;
        var j :| 0 <= j < |g| && g[j] == t[k];
      }
    }
  }
}
