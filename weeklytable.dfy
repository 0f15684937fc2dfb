/**
 * The results-section scanner of `parse_april_data` / `parse_may_data` in analyze_table_data.py
 * and the net profit `analyze_profit_logic` derives from it: after a line mentioning
 * 'Результаты', each labelled row stores its five value cells as one list under the label's
 * key, until the first blank line.
 */
module WeeklyTable {
  import opened Common
  import opened Text
  import opened Numbers
  import opened TableNumbers
  import opened TableRows

  /** One list of the `daily_data` dict: floats for money keys, ints for the trade counts. */
  datatype Column = Amounts(amounts: seq<real>) | Counts(counts: seq<int>)

  /** The `daily_data` dict of one week. */
  type WeekData = map<Field, Column>

  function ColumnLength(c: Column): nat
  {
    match c
    case Amounts(xs) => |xs|
    case Counts(ns) => |ns|
  }

  /** Every stored list has five entries, and the trade counts are the only int list. */
  predicate WellFormed(w: WeekData)
  {
    forall f :: f in w ==> ColumnLength(w[f]) == 5 && (w[f].Counts? <==> f == TradesCount)
  }

  /** `int(x) if x.strip() else 0`; None where `int` raises. */
  function CountOf(x: string): Option<int>
  {
    if Strip(x) == [] then Some(0) else ParseInt(x)
  }

  /** `[int(x) if x.strip() else 0 for x in values]`, failing at the first cell `int` refuses. */
  function CountsOf(values: seq<string>): (r: Result<seq<int>>)
    ensures r.Ok? ==> |r.value| == |values|
  {
    if values == [] then Ok([])
    else
      var init := values[..|values| - 1];
      var last := values[|values| - 1];
      match CountsOf(init)
      case Failure(e) => Failure(e)
      case Ok(ns) =>
        match CountOf(last)
        case None => Failure(InvalidInteger(last))
        case Some(n) => Ok(ns + [n])
  }

  /** A list that converts holds, cell by cell, what `int` makes of that cell. */
  lemma {:induction false} CountsOfValues(values: seq<string>)
    requires CountsOf(values).Ok?
    ensures forall k :: 0 <= k < |values| ==> Some(CountsOf(values).value[k]) == CountOf(values[k])
  {
    hide CountOf;
    if values != [] {
      var init := values[..|values| - 1];
      CountsOfValues(init);
      forall k | 0 <= k < |values|
        ensures Some(CountsOf(values).value[k]) == CountOf(values[k])
      {
        if k < |init| {
          assert values[k] == init[k];
        }
      }
    }
  }

  /** Some cell is non-blank text `int` refuses. */
  predicate AnyRefused(values: seq<string>)
  {
    values != [] && (AnyRefused(values[..|values| - 1]) || CountOf(values[|values| - 1]).None?)
  }

  /** The list fails exactly when some cell is one `int` refuses. */
  lemma {:induction false} CountsOfFailure(values: seq<string>)
    ensures CountsOf(values).Failure? <==> AnyRefused(values)
  {
    if values != [] {
      CountsOfFailure(values[..|values| - 1]);
    }
  }

  /** What one line in the results section stores: nothing, a (key, list) pair, or the `int` error. */
  function RowEntry(line: string): (r: Option<Result<(Field, Column)>>)
    ensures r.Some? && r.value.Ok? ==> ColumnLength(r.value.value.1) == 5
    ensures r.Some? && r.value.Ok? ==> (r.value.value.1.Counts? <==> r.value.value.0 == TradesCount)
  {
    var parts := Split(line, ';');
    if |parts| >= 6 && Strip(parts[0]) != [] then
      var values := parts[1..6];
      match LabelField(Strip(parts[0]))
      case None => None
      case Some(f) =>
        if f == TradesCount then
          match CountsOf(values)
          case Failure(e) => Some(Failure(e))
          case Ok(ns) => Some(Ok((f, Counts(ns))))
        else
          Some(Ok((f, Amounts(seq(5, k requires 0 <= k < 5 => ParseRussianNumberNbsp(values[k]))))))
    else None
  }

  /** `daily_data[key] = [...]` for what a line stores. */
  function StoreEntry(w: WeekData, entry: Option<Result<(Field, Column)>>): Result<WeekData>
  {
    match entry
    case None => Ok(w)
    case Some(Failure(e)) => Failure(e)
    case Some(Ok((f, c))) => Ok(w[f := c])
  }

  /** `daily_data[key] = [...]` for one line. */
  function StoreRow(w: WeekData, line: string): Result<WeekData>
  {
    StoreEntry(w, RowEntry(line))
  }

  /**
   * The `for line in lines` loop from the given point on, with the `in_results` flag:
   * the marker line switches reading on, a blank line after it ends the loop.
   */
  function Scan(lines: seq<string>, inResults: bool, w: WeekData): Result<WeekData>
    decreases |lines|
  {
    if lines == [] then Ok(w)
    else if Contains(lines[0], ResultsMarker) then Scan(lines[1..], true, w)
    else if inResults && Strip(lines[0]) == [] then Ok(w)
    else if inResults then
      match StoreRow(w, lines[0])
      case Failure(e) => Failure(e)
      case Ok(w') => Scan(lines[1..], true, w')
    else Scan(lines[1..], false, w)
  }

  /** `daily_data` of one week's section. */
  function ParseWeek(section: string): Result<WeekData>
  {
    Scan(Split(Strip(section), '\n'), false, map[])
  }

  /** The net profit `analyze_profit_logic` prints, when both lists are there. */
  function WeeklyNet(w: WeekData): Option<real>
  {
    if Earnings in w && Commission in w && w[Earnings].Amounts? && w[Commission].Amounts? then
      Some(SumReals(w[Earnings].amounts) - SumReals(w[Commission].amounts))
    else None
  }

  /** Scanning keeps every stored list at five entries of the right kind. */
  lemma {:induction false} ScanWellFormed(lines: seq<string>, inResults: bool, w: WeekData)
    requires WellFormed(w)
    ensures Scan(lines, inResults, w).Ok? ==> WellFormed(Scan(lines, inResults, w).value)
    decreases |lines|
  {
    hide Contains, Strip, Split, LabelField, ParseRussianNumberNbsp, CountsOf;
    if lines != [] {
      if Contains(lines[0], ResultsMarker) {
        ScanWellFormed(lines[1..], true, w);
      } else if inResults && Strip(lines[0]) == [] {
      } else if inResults {
        match StoreRow(w, lines[0])
        case Failure(e) =>
        case Ok(w') =>
          ScanWellFormed(lines[1..], true, w');
      } else {
        ScanWellFormed(lines[1..], false, w);
      }
    }
  }

  /** A later row with the same label replaces the list an earlier one stored. */
  lemma LaterRowOverwrites(w: WeekData, first: string, second: string)
    requires RowEntry(first).Some? && RowEntry(first).value.Ok?
    requires RowEntry(second).Some? && RowEntry(second).value.Ok?
    requires RowEntry(first).value.value.0 == RowEntry(second).value.value.0
    ensures StoreRow(w, first).Ok?
    ensures StoreRow(StoreRow(w, first).value, second) == StoreRow(w, second)
  {
    LaterEntryOverwrites(w, RowEntry(first), RowEntry(second));
  }

  lemma LaterEntryOverwrites(w: WeekData, e1: Option<Result<(Field, Column)>>, e2: Option<Result<(Field, Column)>>)
    requires e1.Some? && e1.value.Ok? && e2.Some? && e2.value.Ok? && e1.value.value.0 == e2.value.value.0
    ensures StoreEntry(w, e1).Ok?
    ensures StoreEntry(StoreEntry(w, e1).value, e2) == StoreEntry(w, e2)
  {
    var (f, c1) := e1.value.value;
    var c2 := e2.value.value.1;
    assert w[f := c1][f := c2] == w[f := c2];
  }

  /** A trade-count row with a non-blank cell `int` refuses makes the whole parse fail. */
  lemma TradeRowFailure(line: string)
    requires var parts := Split(line, ';');
      |parts| >= 6 && Strip(parts[0]) != [] && LabelField(Strip(parts[0])) == Some(TradesCount)
    ensures RowEntry(line).Some?
    ensures RowEntry(line).value.Failure? <==> AnyRefused(Split(line, ';')[1..6])
  {
    CountsOfFailure(Split(line, ';')[1..6]);
  }

  /** Lines before the first marker are never read. */
  lemma {:induction false} LinesBeforeMarkerIgnored(pre: seq<string>, post: seq<string>, w: WeekData)
    requires forall m :: 0 <= m < |pre| ==> !Contains(pre[m], ResultsMarker)
    ensures Scan(pre + post, false, w) == Scan(post, false, w)
    decreases |pre|
  {
    if pre == [] {
      assert pre + post == post;
    } else {
      assert (pre + post)[0] == pre[0];
      assert (pre + post)[1..] == pre[1..] + post;
      assert !Contains(pre[0], ResultsMarker);
      forall m | 0 <= m < |pre[1..]| ensures !Contains(pre[1..][m], ResultsMarker) {
        assert pre[1..][m] == pre[m + 1];
      }
      LinesBeforeMarkerIgnored(pre[1..], post, w);
    }
  }

  /** A marker cannot be in a line of white space only. */
  lemma BlankHasNoMarker(line: string)
    requires Strip(line) == []
    ensures !Contains(line, ResultsMarker)
  {
    StripEmptyIffBlank(line);
    if Contains(line, ResultsMarker) {
      var i := ContainsAt(line, ResultsMarker);
    }
  }

  /** Where `sub` occurs in `s`, its first character is at a position of `s`. */
  lemma {:induction false} ContainsAt(s: string, sub: string) returns (i: nat)
    requires sub != [] && Contains(s, sub)
    ensures i < |s| && s[i] == sub[0]
    decreases |s|
  {
    if StartsWith(s, sub) {
      i := 0;
    } else {
      var j := ContainsAt(s[1..], sub);
      i := j + 1;
    }
  }

  /** Once reading, the first blank line ends it: nothing after that line matters. */
  lemma {:induction false} StopsAtBlank(pre: seq<string>, blank: string, rest1: seq<string>, rest2: seq<string>, w: WeekData)
    requires forall m :: 0 <= m < |pre| ==> Strip(pre[m]) != []
    requires Strip(blank) == []
    ensures Scan(pre + [blank] + rest1, true, w) == Scan(pre + [blank] + rest2, true, w)
    decreases |pre|
  {
    hide Split, LabelField, ParseRussianNumberNbsp, CountsOf;
    var all1, all2 := pre + [blank] + rest1, pre + [blank] + rest2;
    if pre == [] {
      BlankHasNoMarker(blank);
      assert all1[0] == blank && all2[0] == blank;
    } else {
      assert all1[0] == pre[0] && all2[0] == pre[0];
      assert all1[1..] == pre[1..] + [blank] + rest1;
      assert all2[1..] == pre[1..] + [blank] + rest2;
      if Contains(pre[0], ResultsMarker) {
        StopsAtBlank(pre[1..], blank, rest1, rest2, w);
      } else {
        match StoreRow(w, pre[0])
        case Failure(e) =>
        case Ok(w') =>
          StopsAtBlank(pre[1..], blank, rest1, rest2, w');
      }
    }
  }

  /** The weekly net is the sum over the five days of earnings less commission. */
  lemma WeeklyNetByDay(w: WeekData)
    requires WellFormed(w) && Earnings in w && Commission in w
    ensures WeeklyNet(w).Some?
    ensures var e, c := w[Earnings].amounts, w[Commission].amounts;
      WeeklyNet(w).value == SumReals(seq(5, k requires 0 <= k < 5 => e[k] - c[k]))
  {
    var e, c := w[Earnings].amounts, w[Commission].amounts;
    SumDifference(e, c, seq(5, k requires 0 <= k < 5 => e[k] - c[k]));
  }

  /** The scanning loop: `in_results`, `continue` after the marker, `break` at the first blank. */
  method ParseResults(lines: seq<string>) returns (r: Result<WeekData>)
    ensures r == Scan(lines, false, map[])
  {
    var w: WeekData := map[];
    var inResults := false;
    var i := 0;
    while i < |lines|
      invariant 0 <= i <= |lines|
      invariant Scan(lines[i..], inResults, w) == Scan(lines, false, map[])
    {
      assert lines[i..][0] == lines[i] && lines[i..][1..] == lines[i + 1..];
      var line := lines[i];
      if Contains(line, ResultsMarker) {
        inResults := true;
      } else if inResults && Strip(line) == [] {
        break;
      } else if inResults {
        var stored := StoreRow(w, line);
        if stored.Failure? {
          return Failure(stored.error);
        }
        w := stored.value;
      }
      i := i + 1;
    }
    return Ok(w);
  }
}
