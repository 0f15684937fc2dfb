/**
 * The row-folding loop of `extract_april_data` / `extract_may_data` in
 * improved_table_analyzer.py: after the first line mentioning 'Результаты', date rows open day
 * records and labelled data rows fill one field of the first five of them; the period keeps the
 * day records and their column totals.
 */
module TableRows {
  import opened Common
  import opened Text
  import opened Calendar
  import opened TableNumbers

  const ResultsMarker: string := "Результаты"

  /** One day dict of `daily_data`. */
  datatype DayRecord = DayRecord(
    date: CivilDate,
    dayClearing: real,
    eveningClearing: real,
    tradesCount: nat,
    commission: real,
    earnings: real)

  /** The numeric keys a data row can fill. */
  datatype Field = DayClearing | EveningClearing | TradesCount | Commission | Earnings

  /** One entry of `periods`: the day records and the five `sum(...)` totals. */
  datatype PeriodData = PeriodData(
    daily: seq<DayRecord>,
    totalDayClearing: real,
    totalEveningClearing: real,
    totalTrades: int,
    totalCommission: real,
    totalEarnings: real)

  /** The record a date row opens: every number zero. */
  function ZeroDay(date: CivilDate): DayRecord
  {
    DayRecord(date, 0.0, 0.0, 0, 0.0, 0.0)
  }

  /** The substring tests on `parts[0]`, in the order of the `elif` chain. */
  function LabelField(name: string): Option<Field>
  {
    if Contains(name, "дн.клира") then Some(DayClearing)
    else if Contains(name, "веч.клира") then Some(EveningClearing)
    else if Contains(name, "кол-во сделок") then Some(TradesCount)
    else if Contains(name, "комиссия") then Some(Commission)
    else if Contains(name, "Заработок") then Some(Earnings)
    else None
  }

  /** `int(part) if part.strip().isdigit() else 0`. */
  function TradeCount(cell: string): nat
  {
    var t := Strip(cell);
    if IsDigits(t) then DigitsValue(t) else 0
  }

  /** Where the cell is digits, the count is what `int(part)` returns. */
  lemma TradeCountIsInt(cell: string)
    ensures IsDigits(Strip(cell)) ==> Numbers.ParseInt(cell) == Some(TradeCount(cell) as int)
    ensures !IsDigits(Strip(cell)) ==> TradeCount(cell) == 0
  {
    var t := Strip(cell);
    if IsDigits(t) {
      assert IsDigit(t[0]);
    }
  }

  /** `daily_data[j][key] = …` for the key the label selects. */
  function SetField(d: DayRecord, f: Field, cell: string): (r: DayRecord)
    ensures r.date == d.date
    ensures r.dayClearing == if f == DayClearing then ParseRussianNumber(cell) else d.dayClearing
    ensures r.eveningClearing == if f == EveningClearing then ParseRussianNumber(cell) else d.eveningClearing
    ensures r.tradesCount == if f == TradesCount then TradeCount(cell) else d.tradesCount
    ensures r.commission == if f == Commission then ParseRussianNumber(cell) else d.commission
    ensures r.earnings == if f == Earnings then ParseRussianNumber(cell) else d.earnings
  {
    match f
    case DayClearing => d.(dayClearing := ParseRussianNumber(cell))
    case EveningClearing => d.(eveningClearing := ParseRussianNumber(cell))
    case TradesCount => d.(tradesCount := TradeCount(cell))
    case Commission => d.(commission := ParseRussianNumber(cell))
    case Earnings => d.(earnings := ParseRussianNumber(cell))
  }

  /** A cell of a date row: after stripping it ends in 'г.'. */
  predicate IsDateCell(cell: string)
  {
    EndsWith(Strip(cell), "г.")
  }

  /** `any(part.strip().endswith('г.') for part in cells)`. */
  predicate AnyDateCell(cells: seq<string>)
  {
    cells != [] && (AnyDateCell(cells[..|cells| - 1]) || IsDateCell(cells[|cells| - 1]))
  }

  /** The date a cell of a date row contributes, if it ends in 'г.' and parses. */
  function CellDate(cell: string): Option<CivilDate>
  {
    var t := Strip(cell);
    if t != [] && EndsWith(t, "г.") then ParseDate(t) else None
  }

  /** The dates the cells of a date row contribute, in column order. */
  function RowDates(cells: seq<string>): (r: seq<CivilDate>)
    ensures |r| <= |cells|
  {
    if cells == [] then []
    else
      RowDates(cells[..|cells| - 1])
      + (match CellDate(cells[|cells| - 1]) case Some(c) => [c] case None => [])
  }

  /** The records a date row appends. */
  function DateRecords(cells: seq<string>): (r: seq<DayRecord>)
    ensures |r| == |RowDates(cells)|
  {
    if cells == [] then []
    else
      DateRecords(cells[..|cells| - 1])
      + (match CellDate(cells[|cells| - 1]) case Some(c) => [ZeroDay(c)] case None => [])
  }

  /** A data row: column `j` of `values` lands in record `j`, for the records that exist. */
  function ApplyRow(daily: seq<DayRecord>, f: Field, values: seq<string>): (r: seq<DayRecord>)
  {
    seq(|daily|, k requires 0 <= k < |daily| => if k < |values| then SetField(daily[k], f, values[k]) else daily[k])
  }

  /** One line of the results section. */
  function StepLine(daily: seq<DayRecord>, raw: string): seq<DayRecord>
  {
    var line := Strip(raw);
    if line == [] then daily
    else
      var parts := Split(line, ';');
      if |parts| < 6 then daily
      else if AnyDateCell(parts[..5]) then daily + DateRecords(parts[..5])
      else match LabelField(parts[0])
        case None => daily
        case Some(f) => ApplyRow(daily, f, parts[1..6])
  }

  /** `daily_data` after the given lines of the results section. */
  function FoldLines(lines: seq<string>): seq<DayRecord>
  {
    if lines == [] then [] else StepLine(FoldLines(lines[..|lines| - 1]), lines[|lines| - 1])
  }

  /** The dates of some day records, in order. */
  function DatesOf(daily: seq<DayRecord>): (r: seq<CivilDate>)
    ensures |r| == |daily|
    ensures forall k :: 0 <= k < |r| ==> r[k] == daily[k].date
  {
    if daily == [] then [] else DatesOf(daily[..|daily| - 1]) + [daily[|daily| - 1].date]
  }

  /** The dates a line opens: those of its date cells when it is a date row, none otherwise. */
  function LineDates(raw: string): seq<CivilDate>
  {
    var line := Strip(raw);
    if line == [] then []
    else
      var parts := Split(line, ';');
      if |parts| >= 6 && AnyDateCell(parts[..5]) then RowDates(parts[..5]) else []
  }

  /** The dates all the date rows among the lines open, in order. */
  function AllLineDates(lines: seq<string>): seq<CivilDate>
  {
    if lines == [] then [] else AllLineDates(lines[..|lines| - 1]) + LineDates(lines[|lines| - 1])
  }

  lemma {:induction false} DatesOfAppend(a: seq<DayRecord>, b: seq<DayRecord>)
    ensures DatesOf(a + b) == DatesOf(a) + DatesOf(b)
  {
    var l, r := DatesOf(a + b), DatesOf(a) + DatesOf(b);
    assert |l| == |r|;
    forall k | 0 <= k < |l| ensures l[k] == r[k] {
      if k < |a| { assert (a + b)[k] == a[k]; } else { assert (a + b)[k] == b[k - |a|]; }
    }
  }

  /** A data row keeps the records and their dates: it only rewrites one field. */
  lemma ApplyRowKeepsDates(daily: seq<DayRecord>, f: Field, values: seq<string>)
    ensures DatesOf(ApplyRow(daily, f, values)) == DatesOf(daily)
  {
    var l, r := DatesOf(ApplyRow(daily, f, values)), DatesOf(daily);
    assert |l| == |r|;
    forall k | 0 <= k < |l| ensures l[k] == r[k] {
    }
  }

  /** A date row opens one all-zero record per date it parses, in column order. */
  lemma {:induction false} DateRecordsAreZero(cells: seq<string>)
    ensures forall k :: 0 <= k < |DateRecords(cells)| ==> DateRecords(cells)[k] == ZeroDay(RowDates(cells)[k])
  {
    if cells != [] {
      var init := cells[..|cells| - 1];
      DateRecordsAreZero(init);
    }
  }

  lemma DateRecordsDates(cells: seq<string>)
    ensures DatesOf(DateRecords(cells)) == RowDates(cells)
  {
    DateRecordsAreZero(cells);
    var l, r := DatesOf(DateRecords(cells)), RowDates(cells);
    assert |l| == |r|;
    forall k | 0 <= k < |l| ensures l[k] == r[k] {
    }
  }

  /** Each line adds the dates it opens and changes no date already there. */
  lemma StepLineDates(daily: seq<DayRecord>, raw: string)
    ensures DatesOf(StepLine(daily, raw)) == DatesOf(daily) + LineDates(raw)
  {
    hide CellDate;
    var line := Strip(raw);
    if line != [] {
      var parts := Split(line, ';');
      if |parts| >= 6 {
        if AnyDateCell(parts[..5]) {
          DatesOfAppend(daily, DateRecords(parts[..5]));
          DateRecordsDates(parts[..5]);
        } else if LabelField(parts[0]).Some? {
          ApplyRowKeepsDates(daily, LabelField(parts[0]).value, parts[1..6]);
        }
      }
    }
  }

  /**
   * The day records of a results section are exactly one per parsed date cell of its date rows,
   * in table order: data rows never add or drop a day.
   */
  lemma {:induction false} FoldLinesDates(lines: seq<string>)
    ensures DatesOf(FoldLines(lines)) == AllLineDates(lines)
  {
    if lines != [] {
      FoldLinesDates(lines[..|lines| - 1]);
      StepLineDates(FoldLines(lines[..|lines| - 1]), lines[|lines| - 1]);
    }
  }

  /**
   * A labelled data row rewrites the labelled field of the first five records (those that
   * exist) from its five value cells, and leaves everything else alone.
   */
  lemma DataRowEffect(daily: seq<DayRecord>, raw: string, f: Field)
    requires Strip(raw) != []
    requires var parts := Split(Strip(raw), ';');
      |parts| >= 6 && !AnyDateCell(parts[..5]) && LabelField(parts[0]) == Some(f)
    ensures var r, parts := StepLine(daily, raw), Split(Strip(raw), ';');
      |r| == |daily|
      && (forall k :: 0 <= k < |r| && k < 5 ==> r[k] == SetField(daily[k], f, parts[k + 1]))
      && (forall k :: 5 <= k < |r| ==> r[k] == daily[k])
  {
    var parts := Split(Strip(raw), ';');
    var values := parts[1..6];
    var r := ApplyRow(daily, f, values);
    assert StepLine(daily, raw) == r;
    forall k | 0 <= k < |r| && k < 5 ensures r[k] == SetField(daily[k], f, parts[k + 1]) {
      assert values[k] == parts[k + 1];
    }
  }

  /** A row whose label names no field, and that is no date row, changes nothing. */
  lemma UnlabelledRowIsIgnored(daily: seq<DayRecord>, raw: string)
    requires Strip(raw) != []
    requires var parts := Split(Strip(raw), ';');
      |parts| >= 6 && !AnyDateCell(parts[..5]) && LabelField(parts[0]).None?
    ensures StepLine(daily, raw) == daily
  {
  }

  /** The index of the first line mentioning 'Результаты', at or after `i`. */
  function ResultsFrom(lines: seq<string>, i: nat): (r: Option<nat>)
    requires i <= |lines|
    ensures r.Some? ==> i <= r.value < |lines|
    decreases |lines| - i
  {
    if i == |lines| then None
    else if Contains(lines[i], ResultsMarker) then Some(i)
    else ResultsFrom(lines, i + 1)
  }

  /** The search finds the first marker line at or after `i`, and None means there is none. */
  lemma {:induction false} ResultsFromFirst(lines: seq<string>, i: nat)
    requires i <= |lines|
    ensures var r := ResultsFrom(lines, i);
      && (r.Some? ==> Contains(lines[r.value], ResultsMarker))
      && (r.Some? ==> forall m :: i <= m < r.value ==> !Contains(lines[m], ResultsMarker))
      && (r.None? ==> forall m :: i <= m < |lines| ==> !Contains(lines[m], ResultsMarker))
    decreases |lines| - i
  {
    hide Contains;
    if i < |lines| && !Contains(lines[i], ResultsMarker) {
      ResultsFromFirst(lines, i + 1);
    }
  }

  /** `daily_data` for the lines of one period section; None where it has no results section. */
  function DailyOfLines(lines: seq<string>): Option<seq<DayRecord>>
  {
    match ResultsFrom(lines, 0)
    case None => None
    case Some(i) => Some(FoldLines(lines[i + 1..]))
  }

  /** The totals the period entry carries. */
  function Totals(daily: seq<DayRecord>): (p: PeriodData)
    ensures p.daily == daily
  {
    PeriodData(
      daily,
      SumReals(seq(|daily|, k requires 0 <= k < |daily| => daily[k].dayClearing)),
      SumReals(seq(|daily|, k requires 0 <= k < |daily| => daily[k].eveningClearing)),
      SumInts(seq(|daily|, k requires 0 <= k < |daily| => daily[k].tradesCount as int)),
      SumReals(seq(|daily|, k requires 0 <= k < |daily| => daily[k].commission)),
      SumReals(seq(|daily|, k requires 0 <= k < |daily| => daily[k].earnings)))
  }

  /** One period section: its lines, `daily_data`, and an entry only when some day was found. */
  function ExtractPeriod(section: string): Option<PeriodData>
  {
    match DailyOfLines(Split(Strip(section), '\n'))
    case None => None
    case Some(daily) => if daily == [] then None else Some(Totals(daily))
  }

  /** Lines before the results marker have no effect on `daily_data`. */
  lemma LinesBeforeResultsIgnored(pre: seq<string>, post: seq<string>)
    requires forall m :: 0 <= m < |pre| ==> !Contains(pre[m], ResultsMarker)
    ensures DailyOfLines(pre + post) == DailyOfLines(post)
  {
    hide Contains, FoldLines, StepLine;
    ResultsAfterPrefix(pre, post);
    var all := pre + post;
    var found := ResultsFrom(post, 0);
    if found.None? {
      assert ResultsFrom(all, 0) == None;
    } else {
      var r := found.value;
      assert ResultsFrom(all, 0) == Some(|pre| + r);
      assert all[|pre| + r + 1..] == post[r + 1..];
      assert DailyOfLines(all) == Some(FoldLines(post[r + 1..]));
    }
  }

  lemma ResultsAfterPrefix(pre: seq<string>, post: seq<string>)
    requires forall m :: 0 <= m < |pre| ==> !Contains(pre[m], ResultsMarker)
    ensures ResultsFrom(pre + post, 0) == match ResultsFrom(post, 0) case None => None case Some(r) => Some(|pre| + r)
  {
    hide Contains;
    var all := pre + post;
    ResultsFromFirst(post, 0);
    ResultsFromFirst(all, 0);
    var found, foundAll := ResultsFrom(post, 0), ResultsFrom(all, 0);
    if foundAll.Some? && foundAll.value >= |pre| {
      assert all[foundAll.value] == post[foundAll.value - |pre|];
    }
    if found.Some? {
      var r := found.value;
      assert all[|pre| + r] == post[r];
      assert foundAll.value == |pre| + r;
    }
  }

  /** The period's net profit, as printed, is the sum over its days of earnings less commission. */
  lemma PeriodNet(daily: seq<DayRecord>)
    ensures var p := Totals(daily);
      p.totalEarnings - p.totalCommission
        == SumReals(seq(|daily|, k requires 0 <= k < |daily| => daily[k].earnings - daily[k].commission))
  {
    SumDifference(
      seq(|daily|, k requires 0 <= k < |daily| => daily[k].earnings),
      seq(|daily|, k requires 0 <= k < |daily| => daily[k].commission),
      seq(|daily|, k requires 0 <= k < |daily| => daily[k].earnings - daily[k].commission));
  }

  lemma {:induction false} SumDifference(a: seq<real>, b: seq<real>, d: seq<real>)
    requires |a| == |b| == |d|
    requires forall k :: 0 <= k < |d| ==> d[k] == a[k] - b[k]
    ensures SumReals(a) - SumReals(b) == SumReals(d)
  {
    if d != [] {
      var n := |d| - 1;
      SumDifference(a[..n], b[..n], d[..n]);
    }
  }

  /**
   * The totals are additive over days: the totals of two runs of days put together are the sums
   * of their totals, column by column, so a period's totals do not depend on how its days are split.
   */
  lemma TotalsAppend(a: seq<DayRecord>, b: seq<DayRecord>)
    ensures var t, ta, tb := Totals(a + b), Totals(a), Totals(b);
      && t.totalDayClearing == ta.totalDayClearing + tb.totalDayClearing
      && t.totalEveningClearing == ta.totalEveningClearing + tb.totalEveningClearing
      && t.totalTrades == ta.totalTrades + tb.totalTrades
      && t.totalCommission == ta.totalCommission + tb.totalCommission
      && t.totalEarnings == ta.totalEarnings + tb.totalEarnings
  {
    var ab := a + b;
    assert seq(|ab|, k requires 0 <= k < |ab| => ab[k].dayClearing)
      == seq(|a|, k requires 0 <= k < |a| => a[k].dayClearing) + seq(|b|, k requires 0 <= k < |b| => b[k].dayClearing);
    SumRealsAppend(seq(|a|, k requires 0 <= k < |a| => a[k].dayClearing), seq(|b|, k requires 0 <= k < |b| => b[k].dayClearing));
    assert seq(|ab|, k requires 0 <= k < |ab| => ab[k].eveningClearing)
      == seq(|a|, k requires 0 <= k < |a| => a[k].eveningClearing) + seq(|b|, k requires 0 <= k < |b| => b[k].eveningClearing);
    SumRealsAppend(seq(|a|, k requires 0 <= k < |a| => a[k].eveningClearing), seq(|b|, k requires 0 <= k < |b| => b[k].eveningClearing));
    assert seq(|ab|, k requires 0 <= k < |ab| => ab[k].tradesCount as int)
      == seq(|a|, k requires 0 <= k < |a| => a[k].tradesCount as int) + seq(|b|, k requires 0 <= k < |b| => b[k].tradesCount as int);
    SumIntsAppend(seq(|a|, k requires 0 <= k < |a| => a[k].tradesCount as int), seq(|b|, k requires 0 <= k < |b| => b[k].tradesCount as int));
    assert seq(|ab|, k requires 0 <= k < |ab| => ab[k].commission)
      == seq(|a|, k requires 0 <= k < |a| => a[k].commission) + seq(|b|, k requires 0 <= k < |b| => b[k].commission);
    SumRealsAppend(seq(|a|, k requires 0 <= k < |a| => a[k].commission), seq(|b|, k requires 0 <= k < |b| => b[k].commission));
    assert seq(|ab|, k requires 0 <= k < |ab| => ab[k].earnings)
      == seq(|a|, k requires 0 <= k < |a| => a[k].earnings) + seq(|b|, k requires 0 <= k < |b| => b[k].earnings);
    SumRealsAppend(seq(|a|, k requires 0 <= k < |a| => a[k].earnings), seq(|b|, k requires 0 <= k < |b| => b[k].earnings));
  }

  /** The `for i, line in enumerate(lines)` search for the results marker. */
  method FindResults(lines: seq<string>) returns (start: Option<nat>)
    ensures start == ResultsFrom(lines, 0)
  {
    var i := 0;
    while i < |lines|
      invariant 0 <= i <= |lines|
      invariant ResultsFrom(lines, i) == ResultsFrom(lines, 0)
    {
      if Contains(lines[i], ResultsMarker) {
        return Some(i);
      }
      i := i + 1;
    }
    return None;
  }

  /** `if part.strip() and part.strip().endswith('г.'): date = parse_date(part.strip())`. */
  method DateOfCell(cell: string) returns (date: Option<CivilDate>)
    ensures date == CellDate(cell)
  {
    var t := Strip(cell);
    if t != [] && EndsWith(t, "г.") {
      date := ParseDate(t);
    } else {
      date := None;
    }
  }

  /** The inner loop over the cells of a date row: one zero record per parsed date. */
  method AppendDates(daily: seq<DayRecord>, cells: seq<string>) returns (r: seq<DayRecord>)
    ensures r == daily + DateRecords(cells)
  {
    hide CellDate, DateRecords;
    r := daily;
    for j := 0 to |cells|
      invariant r == daily + DateRecords(cells[..j])
    {
      DateRecordsStep(cells, j);
      var date := DateOfCell(cells[j]);
      if date.Some? {
        r := r + [ZeroDay(date.value)];
      } else {
        assert r == r + [];
      }
    }
    assert cells[..|cells|] == cells;
  }

  lemma DateRecordsStep(cells: seq<string>, j: nat)
    requires j < |cells|
    ensures DateRecords(cells[..j + 1])
         == DateRecords(cells[..j]) + (match CellDate(cells[j]) case Some(c) => [ZeroDay(c)] case None => [])
  {
    hide CellDate;
    assert cells[..j + 1][..j] == cells[..j];
    assert cells[..j + 1][j] == cells[j];
  }

  /** The inner loop over the value cells of a data row. */
  method FillColumn(daily: seq<DayRecord>, f: Field, values: seq<string>) returns (r: seq<DayRecord>)
    ensures r == ApplyRow(daily, f, values)
  {
    r := daily;
    for j := 0 to |values|
      invariant |r| == |daily|
      invariant forall k :: 0 <= k < |r| ==> r[k] == if k < j then SetField(daily[k], f, values[k]) else daily[k]
    {
      if j < |r| {
        r := r[j := SetField(r[j], f, values[j])];
      }
    }
  }

  /** One line of the results section: skipped, a date row, or a data row. */
  method ApplyLine(daily: seq<DayRecord>, raw: string) returns (r: seq<DayRecord>)
    ensures r == StepLine(daily, raw)
  {
    r := daily;
    var line := Strip(raw);
    if line != [] {
      var parts := Split(line, ';');
      if |parts| >= 6 {
        if AnyDateCell(parts[..5]) {
          r := AppendDates(daily, parts[..5]);
        } else {
          var field := LabelField(parts[0]);
          if field.Some? {
            r := FillColumn(daily, field.value, parts[1..6]);
          }
        }
      }
    }
  }

  /** The loop over the lines after the marker. */
  method ExtractDaily(lines: seq<string>, start: nat) returns (daily: seq<DayRecord>)
    requires start <= |lines|
    ensures daily == FoldLines(lines[start..])
  {
    hide StepLine;
    daily := [];
    var i := start;
    while i < |lines|
      invariant start <= i <= |lines|
      invariant daily == FoldLines(lines[start..i])
    {
      assert lines[start..i + 1][..i - start] == lines[start..i];
      assert lines[start..i + 1][i - start] == lines[i];
      daily := ApplyLine(daily, lines[i]);
      i := i + 1;
    }
    assert lines[start..i] == lines[start..];
  }

  /** The body of the loop over period sections. */
  method ExtractPeriodData(section: string) returns (r: Option<PeriodData>)
    ensures r == ExtractPeriod(section)
  {
    hide FoldLines, StepLine;
    var lines := Split(Strip(section), '\n');
    var start := FindResults(lines);
    if start.None? {
      return None;
    }
    var daily := ExtractDaily(lines, start.value + 1);
    if daily == [] {
      return None;
    }
    return Some(Totals(daily));
  }
}
