/**
 * Broker operations as the calculator sees them, Python's stable `sorted(..., key=date)`
 * and the grouping of operations by FIGI in first-appearance order (dictionary insertion order).
 */
module Operations {
  import opened Common

  /** Whole seconds since 0001-01-01 00:00:00, the earliest `datetime`. */
  type Instant = nat

  datatype OperationType =
    | Buy
    | Sell
    | BrokerFee
    | WritingOffVarmargin
    | AccruingVarmargin
    | OtherType(code: int)

  predicate IsTrading(t: OperationType)
  {
    t == Buy || t == Sell
  }

  predicate IsMargin(t: OperationType)
  {
    t == WritingOffVarmargin || t == AccruingVarmargin
  }

  /**
   * One operation of the broker's report. `instrumentUid` is None when the record has no such
   * attribute, so `getattr(op, 'instrument_uid', figi)` falls back to the FIGI.
   * Price and payment are already converted from quotations.
   */
  datatype Operation = Operation(
    id: string,
    date: Instant,
    figi: string,
    instrumentUid: Option<string>,
    operationType: OperationType,
    quantity: nat,
    price: real,
    payment: real)

  predicate SortedByDate(s: seq<Operation>)
  {
    forall i, j :: 0 <= i < j < |s| ==> s[i].date <= s[j].date
  }

  /** Places `x` after the last element whose date is not later than its own. */
  function InsertByDate(s: seq<Operation>, x: Operation): (r: seq<Operation>)
    ensures multiset(r) == multiset(s) + multiset{x}
    decreases |s|
  {
    if s == [] || s[|s| - 1].date <= x.date then s + [x]
    else
      assert s == s[..|s| - 1] + [s[|s| - 1]];
      InsertByDate(s[..|s| - 1], x) + [s[|s| - 1]]
  }

  /** `sorted(s, key=lambda x: x.date)`: a stable insertion sort. */
  function SortByDate(s: seq<Operation>): (r: seq<Operation>)
    ensures multiset(r) == multiset(s) && |r| == |s|
  {
    if s == [] then []
    else
      assert s == s[..|s| - 1] + [s[|s| - 1]];
      assert multiset(s) == multiset(s[..|s| - 1]) + multiset{s[|s| - 1]};
      InsertByDate(SortByDate(s[..|s| - 1]), s[|s| - 1])
  }

  lemma {:induction false} InsertByDateSorted(s: seq<Operation>, x: Operation)
    requires SortedByDate(s)
    ensures SortedByDate(InsertByDate(s, x))
    decreases |s|
  {
    if s != [] && s[|s| - 1].date > x.date {
      var init := s[..|s| - 1];
      InsertByDateSorted(init, x);
      var r := InsertByDate(init, x);
      assert multiset(r) == multiset(init) + multiset{x};
      forall k | 0 <= k < |r| ensures r[k].date <= s[|s| - 1].date {
        assert r[k] in multiset(r);
        if r[k] != x {
          assert r[k] in multiset(init);
          assert r[k] in init;
        }
      }
    }
  }

  /** The result of the sort is ordered by date. */
  lemma {:induction false} SortByDateSorted(s: seq<Operation>)
    ensures SortedByDate(SortByDate(s))
  {
    if s != [] {
      SortByDateSorted(s[..|s| - 1]);
      InsertByDateSorted(SortByDate(s[..|s| - 1]), s[|s| - 1]);
    }
  }

  lemma SortedInit(s: seq<Operation>)
    requires s != [] && SortedByDate(s)
    ensures SortedByDate(s[..|s| - 1])
  {
  }

  /** Sorting a list that is already in date order leaves it unchanged. */
  lemma {:induction false} SortSortedIdentity(s: seq<Operation>)
    requires SortedByDate(s)
    ensures SortByDate(s) == s
  {
    hide SortByDate, InsertByDate;
    if s != [] {
      var init, last := s[..|s| - 1], s[|s| - 1];
      SortedInit(s);
      SortSortedIdentity(init);
      SortByDateSnoc(s);
      if init != [] {
        assert init[|init| - 1] == s[|s| - 2];
      }
      InsertAfterLast(init, last);
      assert s == init + [last];
    }
  }

  lemma SortByDateSnoc(s: seq<Operation>)
    requires s != []
    ensures SortByDate(s) == InsertByDate(SortByDate(s[..|s| - 1]), s[|s| - 1])
  {
  }

  lemma InsertAfterLast(t: seq<Operation>, x: Operation)
    requires t == [] || t[|t| - 1].date <= x.date
    ensures InsertByDate(t, x) == t + [x]
  {
  }

  function Filter(s: seq<Operation>, p: Operation -> bool): (r: seq<Operation>)
    ensures |r| <= |s|
  {
    if s == [] then [] else Filter(s[..|s| - 1], p) + (if p(s[|s| - 1]) then [s[|s| - 1]] else [])
  }

  /** Filtering keeps exactly the elements that satisfy the predicate. */
  lemma {:induction false} FilterMembers(s: seq<Operation>, p: Operation -> bool)
    ensures forall x :: x in Filter(s, p) <==> x in s && p(x)
  {
    if s != [] {
      FilterMembers(s[..|s| - 1], p);
      assert s == s[..|s| - 1] + [s[|s| - 1]];
    }
  }

  lemma {:induction false} FilterAppend(a: seq<Operation>, b: seq<Operation>, p: Operation -> bool)
    ensures Filter(a + b, p) == Filter(a, p) + Filter(b, p)
    decreases |b|
  {
    if b == [] {
      assert a + b == a;
    } else {
      assert (a + b)[..|a + b| - 1] == a + b[..|b| - 1];
      FilterAppend(a, b[..|b| - 1], p);
    }
  }

  /** A sub-list kept in its original order keeps the date order. */
  lemma {:induction false} FilterSorted(s: seq<Operation>, p: Operation -> bool)
    requires SortedByDate(s)
    ensures SortedByDate(Filter(s, p))
  {
    if s != [] {
      var init := s[..|s| - 1];
      SortedInit(s);
      FilterSorted(init, p);
      FilterMembers(init, p);
      forall k | 0 <= k < |Filter(init, p)| ensures Filter(init, p)[k].date <= s[|s| - 1].date {
        assert Filter(init, p)[k] in init;
      }
    }
  }

  lemma {:induction false} FilterInsert(t: seq<Operation>, x: Operation, p: Operation -> bool)
    requires SortedByDate(t)
    ensures Filter(InsertByDate(t, x), p) == if p(x) then InsertByDate(Filter(t, p), x) else Filter(t, p)
    decreases |t|
  {
    if t == [] || t[|t| - 1].date <= x.date {
      assert (t + [x])[..|t + [x]| - 1] == t;
      if p(x) {
        FilterLastNotLater(t, x, p);
      }
    } else {
      var init, l := t[..|t| - 1], t[|t| - 1];
      SortedInit(t);
      FilterInsert(init, x, p);
      FilterInsertLater(init, l, x, p);
    }
  }

  /** The step of FilterInsert past a last element that is later than x. */
  lemma FilterInsertLater(init: seq<Operation>, l: Operation, x: Operation, p: Operation -> bool)
    requires l.date > x.date
    requires Filter(InsertByDate(init, x), p) == if p(x) then InsertByDate(Filter(init, p), x) else Filter(init, p)
    ensures Filter(InsertByDate(init + [l], x), p) == if p(x) then InsertByDate(Filter(init + [l], p), x) else Filter(init + [l], p)
  {
    hide Filter, InsertByDate;
    InsertBeforeLater(init, l, x);
    var ins := InsertByDate(init, x);
    var fi := Filter(init, p);
    FilterSnoc(ins, l, p);
    FilterSnoc(init, l, p);
    if p(x) && p(l) {
      InsertBeforeLater(fi, l, x);
    } else if !p(l) {
      assert fi + [] == fi && Filter(ins, p) + [] == Filter(ins, p);
    }
  }

  /** Inserting before a later last element keeps that element last. */
  lemma InsertBeforeLater(init: seq<Operation>, l: Operation, x: Operation)
    requires l.date > x.date
    ensures InsertByDate(init + [l], x) == InsertByDate(init, x) + [l]
  {
    var t := init + [l];
    assert t[..|t| - 1] == init;
  }

  lemma FilterSnoc(s: seq<Operation>, y: Operation, p: Operation -> bool)
    ensures Filter(s + [y], p) == Filter(s, p) + (if p(y) then [y] else [])
  {
    assert (s + [y])[..|s + [y]| - 1] == s;
  }

  /** When x is not earlier than t's last element, x also goes last among any kept elements. */
  lemma FilterLastNotLater(t: seq<Operation>, x: Operation, p: Operation -> bool)
    requires SortedByDate(t)
    requires t == [] || t[|t| - 1].date <= x.date
    requires p(x)
    ensures InsertByDate(Filter(t, p), x) == Filter(t, p) + [x]
  {
    hide Filter, InsertByDate;
    var ft := Filter(t, p);
    FilterMembers(t, p);
    if ft != [] {
      assert ft[|ft| - 1] in t;
      var j :| 0 <= j < |t| && t[j] == ft[|ft| - 1];
      assert t[j].date <= t[|t| - 1].date;
    }
    InsertAfterLast(ft, x);
  }

  /** Python's sort is stable: keeping only some elements commutes with sorting. */
  lemma {:induction false} FilterSortCommutes(s: seq<Operation>, p: Operation -> bool)
    ensures Filter(SortByDate(s), p) == SortByDate(Filter(s, p))
  {
    if s != [] {
      var init, x := s[..|s| - 1], s[|s| - 1];
      FilterSortCommutes(init, p);
      SortByDateSorted(init);
      FilterInsert(SortByDate(init), x, p);
      var fi := Filter(init, p);
      assert s[..|s| - 1] == init;
      if p(x) {
        assert Filter(s, p) == fi + [x];
        assert (fi + [x])[..|fi + [x]| - 1] == fi;
        assert SortByDate(fi + [x]) == InsertByDate(SortByDate(fi), x);
        assert Filter(SortByDate(s), p) == InsertByDate(SortByDate(fi), x);
      } else {
        assert Filter(s, p) == fi;
        assert Filter(SortByDate(s), p) == SortByDate(fi);
      }
    }
  }

  /** The operations of one instrument, in their original order. */
  function OpsOfFigi(s: seq<Operation>, figi: string): seq<Operation>
  {
    Filter(s, (op: Operation) => op.figi == figi)
  }

  /** The buy and sell operations, in their original order. */
  function TradingOps(s: seq<Operation>): seq<Operation>
  {
    Filter(s, (op: Operation) => IsTrading(op.operationType))
  }

  /** The keys of a `defaultdict(list)` filled by FIGI: each FIGI once, in order of first appearance. */
  function FigiOrder(s: seq<Operation>): (r: seq<string>)
    ensures forall i, j :: 0 <= i < j < |r| ==> r[i] != r[j]
    ensures forall f :: f in r <==> exists k :: 0 <= k < |s| && s[k].figi == f
  {
    if s == [] then []
    else
      var r := FigiOrder(s[..|s| - 1]);
      if s[|s| - 1].figi in r then r else r + [s[|s| - 1].figi]
  }
}
