/**
 * The cell parsers of the two table scripts: `parse_russian_number` (Russian money format, with
 * a space or no-break space as thousands separator, a comma as decimal mark and a rouble sign)
 * and `parse_date` ('DD.MM.YYYYг.' read with `strptime('%d.%m.%Y')`).
 */
module TableNumbers {
  import opened Common
  import opened Text
  import opened Numbers
  import opened Calendar

  const Rouble: char := '\U{20BD}'
  const NoBreakSpace: char := '\U{00A0}'

  /** The text `parse_russian_number` hands to `float` in improved_table_analyzer.py. */
  function Normalised(text: string): string
  {
    ReplaceChar(RemoveChar(RemoveChar(text, Rouble), ' '), ',', '.')
  }

  /** `parse_russian_number` of improved_table_analyzer.py; `float` failing gives 0.0. */
  function ParseRussianNumber(text: string): real
  {
    if Strip(text) == [] then 0.0 else ParseFloat(Normalised(text)).GetOr(0.0)
  }

  /** The text `parse_russian_number` hands to `float` in analyze_table_data.py: no-break spaces go too. */
  function NormalisedNbsp(text: string): string
  {
    ReplaceChar(RemoveChar(RemoveChar(RemoveChar(text, Rouble), ' '), NoBreakSpace), ',', '.')
  }

  /** `parse_russian_number` of analyze_table_data.py. */
  function ParseRussianNumberNbsp(text: string): real
  {
    if Strip(text) == [] then 0.0 else ParseFloat(NormalisedNbsp(text)).GetOr(0.0)
  }

  /** Empty and all-white-space cells read as zero in both variants. */
  lemma RussianNumberBlank(text: string)
    requires AllSpace(text)
    ensures ParseRussianNumber(text) == 0.0 && ParseRussianNumberNbsp(text) == 0.0
  {
    StripEmptyIffBlank(text);
  }

  /** A cell starting with a digit is not blank. */
  lemma DigitFirstNotBlank(text: string)
    requires text != [] && IsDigit(text[0])
    ensures Strip(text) != []
  {
    StripEmptyIffBlank(text);
    assert !IsSpace(text[0]);
  }

  /** The text of the cells the tables hold: digits, a space, digits, a comma, digits, a space and the rouble sign. */
  function MoneyCell(a: string, b: string, f: string): string
  {
    a + " " + b + "," + f + " " + [Rouble]
  }

  lemma NoCommaInDigits(s: string)
    requires AllDigits(s)
    ensures ' ' !in s && ',' !in s && Rouble !in s && NoBreakSpace !in s && '.' !in s
  {
  }

  lemma ReplaceCommaOnce(a: string, f: string)
    requires ',' !in a && ',' !in f
    ensures ReplaceChar(a + "," + f, ',', '.') == a + "." + f
  {
    var s := a + "," + f;
    var r := ReplaceChar(s, ',', '.');
    assert |r| == |a + "." + f|;
    forall i | 0 <= i < |r|
      ensures r[i] == (a + "." + f)[i]
    {
      if i < |a| {
        assert s[i] == a[i];
        assert a[i] in a;
      } else if i > |a| {
        assert s[i] == f[i - |a| - 1];
        assert f[i - |a| - 1] in f;
      }
    }
  }

  lemma RemoveOne(x: char, c: char)
    ensures RemoveChar([x], c) == if x == c then [] else [x]
  {
    assert [x][1..] == [];
  }

  /** What the improved parser makes of such a cell before calling `float`. */
  lemma NormalisedMoneyCell(a: string, b: string, f: string)
    requires AllDigits(a) && AllDigits(b) && AllDigits(f)
    ensures Normalised(MoneyCell(a, b, f)) == (a + b) + "." + f
  {
    NoCommaInDigits(a);
    NoCommaInDigits(b);
    NoCommaInDigits(f);
    var p := a + " " + b + "," + f;
    RoubleDropped(p);
    SpacesDropped(a, b, f);
    assert RemoveChar(RemoveChar(MoneyCell(a, b, f), Rouble), ' ') == (a + b) + "," + f;
    ReplaceCommaOnce(a + b, f);
  }

  lemma RoubleDropped(p: string)
    requires Rouble !in p
    ensures RemoveChar(p + " " + [Rouble], Rouble) == p + " "
  {
    RemoveCharAppend(p, " " + [Rouble], Rouble);
    RemoveCharAbsent(p, Rouble);
    RemoveCharAppend(" ", [Rouble], Rouble);
    RemoveOne(' ', Rouble);
    RemoveOne(Rouble, Rouble);
    assert p + " " + [Rouble] == p + (" " + [Rouble]);
  }

  lemma SpacesDropped(a: string, b: string, f: string)
    requires ' ' !in a && ' ' !in b && ' ' !in f
    ensures RemoveChar(a + " " + b + "," + f + " ", ' ') == (a + b) + "," + f
  {
    var t4 := f + " ";
    DropAfter(f, ' ', ' ');
    var t3 := "," + t4;
    KeepBefore(',', t4, ' ');
    var t2 := b + t3;
    RemoveCharAppend(b, t3, ' ');
    RemoveCharAbsent(b, ' ');
    var t1 := " " + t2;
    DropBefore(' ', t2, ' ');
    var t0 := a + t1;
    RemoveCharAppend(a, t1, ' ');
    RemoveCharAbsent(a, ' ');
    CellShape(a, b, f);
  }

  lemma CellShape(a: string, b: string, f: string)
    ensures a + " " + b + "," + f + " " == a + (" " + (b + ("," + (f + " "))))
    ensures a + (b + ("," + f)) == (a + b) + "," + f
  {
  }

  lemma DropAfter(s: string, x: char, c: char)
    requires c !in s && x == c
    ensures RemoveChar(s + [x], c) == s
  {
    RemoveCharAppend(s, [x], c);
    RemoveCharAbsent(s, c);
    RemoveOne(x, c);
  }

  lemma DropBefore(x: char, s: string, c: char)
    requires x == c
    ensures RemoveChar([x] + s, c) == RemoveChar(s, c)
  {
    RemoveCharAppend([x], s, c);
    RemoveOne(x, c);
  }

  lemma KeepBefore(x: char, s: string, c: char)
    requires x != c
    ensures RemoveChar([x] + s, c) == [x] + RemoveChar(s, c)
  {
    RemoveCharAppend([x], s, c);
    RemoveOne(x, c);
  }

  /**
   * A money cell reads as the decimal its digits spell, the space between the thousands
   * dropped: '1 234,56 ₽' is 1234.56.
   */
  lemma RussianNumberOfMoneyCell(a: string, b: string, f: string)
    requires IsDigits(a) && AllDigits(b) && IsDigits(f)
    ensures ParseRussianNumber(MoneyCell(a, b, f)) == DecimalValue(a + b, f)
  {
    NormalisedMoneyCell(a, b, f);
    MoneyCellStart(a, b, f);
    DigitFirstNotBlank(MoneyCell(a, b, f));
    DigitsConcat(a, b);
    FloatOfPositiveDecimal(a + b, f);
  }

  lemma MoneyCellStart(a: string, b: string, f: string)
    requires a != []
    ensures MoneyCell(a, b, f) != [] && MoneyCell(a, b, f)[0] == a[0]
  {
  }

  /** The decimal 1234.56 written as digit runs. */
  lemma ValueOf1234dot56()
    ensures AllDigits("1234") && AllDigits("56") && DecimalValue("1234", "56") == 1234.56
  {
    assert "1234"[..3] == "123" && "123"[..2] == "12" && "12"[..1] == "1" && "1"[..0] == "";
    assert DigitsValue("1234") == 1234;
    assert "56"[..1] == "5" && "5"[..0] == "";
    assert DigitsValue("56") == 56;
    assert Pow10(2) == 100;
  }

  /** The worked example of the doc comment. */
  lemma RussianNumberExample()
    ensures ParseRussianNumber("1 234,56 \U{20BD}") == 1234.56
  {
    assert "1 234,56 \U{20BD}" == MoneyCell("1", "234", "56");
    assert "1" + "234" == "1234";
    ValueOf1234dot56();
    RussianNumberOfMoneyCell("1", "234", "56");
  }

  /** On text without no-break spaces the two variants agree. */
  lemma RussianNumberVariantsAgree(text: string)
    requires NoBreakSpace !in text
    ensures ParseRussianNumberNbsp(text) == ParseRussianNumber(text)
  {
    RemoveCharAbsent(RemoveChar(RemoveChar(text, Rouble), ' '), NoBreakSpace);
  }

  /**
   * With a no-break space as thousands separator the variants part ways: analyze_table_data.py
   * reads 1234.56, the improved analyzer's `float` fails on the inner space and it reads 0.0.
   */
  lemma NoBreakSeparator()
    ensures ParseRussianNumberNbsp("1\U{00A0}234,56") == 1234.56
    ensures ParseRussianNumber("1\U{00A0}234,56") == 0.0
  {
    var a, b, f := "1", "234", "56";
    assert "1\U{00A0}234,56" == a + [NoBreakSpace] + b + "," + f;
    assert a + b == "1234";
    ValueOf1234dot56();
    NoBreakCell(a, b, f);
  }

  lemma DigitsConcat(a: string, b: string)
    requires IsDigits(a) && AllDigits(b)
    ensures IsDigits(a + b)
  {
    assert forall i :: 0 <= i < |a + b| ==> (a + b)[i] == if i < |a| then a[i] else b[i - |a|];
  }

  lemma NbspCellShape(a: string, b: string, f: string)
    ensures a + [NoBreakSpace] + b + "," + f == a + ([NoBreakSpace] + (b + "," + f))
    ensures a + (b + "," + f) == (a + b) + "," + f
  {
  }

  lemma NbspDropped(a: string, b: string, f: string)
    requires NoBreakSpace !in a && NoBreakSpace !in b && NoBreakSpace !in f
    ensures RemoveChar(a + [NoBreakSpace] + b + "," + f, NoBreakSpace) == (a + b) + "," + f
  {
    var p := b + "," + f;
    assert NoBreakSpace !in p;
    NbspCellShape(a, b, f);
    RemoveCharAppend(a, [NoBreakSpace] + p, NoBreakSpace);
    DropBefore(NoBreakSpace, p, NoBreakSpace);
    RemoveCharAbsent(a, NoBreakSpace);
    RemoveCharAbsent(p, NoBreakSpace);
  }

  /** The two variants on digits, a no-break space, digits, a comma and digits. */
  lemma NoBreakCell(a: string, b: string, f: string)
    requires IsDigits(a) && IsDigits(b) && IsDigits(f)
    ensures ParseRussianNumberNbsp(a + [NoBreakSpace] + b + "," + f) == DecimalValue(a + b, f)
    ensures ParseRussianNumber(a + [NoBreakSpace] + b + "," + f) == 0.0
  {
    var cell := a + [NoBreakSpace] + b + "," + f;
    NbspCellChars(a, b, f);
    DigitFirstNotBlank(cell);
    RemoveCharAbsent(cell, Rouble);
    RemoveCharAbsent(cell, ' ');
    NbspVariant(a, b, f);
    NoBreakFloatFails(a, b, f);
  }

  lemma NbspCellChars(a: string, b: string, f: string)
    requires IsDigits(a) && IsDigits(b) && IsDigits(f)
    ensures var cell := a + [NoBreakSpace] + b + "," + f;
      cell[0] == a[0] && Rouble !in cell && ' ' !in cell
  {
    NoCommaInDigits(a);
    NoCommaInDigits(b);
    NoCommaInDigits(f);
  }

  lemma NbspVariant(a: string, b: string, f: string)
    requires IsDigits(a) && IsDigits(b) && IsDigits(f)
    ensures ParseFloat(ReplaceChar(RemoveChar(a + [NoBreakSpace] + b + "," + f, NoBreakSpace), ',', '.'))
      == Some(DecimalValue(a + b, f))
  {
    NoCommaInDigits(a);
    NoCommaInDigits(b);
    NoCommaInDigits(f);
    NbspDropped(a, b, f);
    ReplaceCommaOnce(a + b, f);
    DigitsConcat(a, b);
    FloatOfPositiveDecimal(a + b, f);
  }

  lemma NoBreakFloatFails(a: string, b: string, f: string)
    requires IsDigits(a) && IsDigits(b) && IsDigits(f)
    ensures ParseFloat(ReplaceChar(a + [NoBreakSpace] + b + "," + f, ',', '.')) == None
  {
    NoCommaInDigits(a);
    NoCommaInDigits(b);
    NoCommaInDigits(f);
    var w := a + [NoBreakSpace] + b;
    ReplaceCommaOnce(w, f);
    assert w[0] == a[0] && w[|a|] == NoBreakSpace;
    assert !AllDigits(w) by {
      assert !IsDigit(w[|a|]);
    }
    FloatFailsOnTwoFields(w, f);
  }

  /** Text that starts with a digit and ends in no space is read by `float` as an unsigned decimal. */
  lemma FloatOfUnsigned(n: string)
    requires n != [] && IsDigit(n[0]) && IsDigit(n[|n| - 1])
    ensures ParseFloat(n) == ParseUnsignedDecimal(n)
  {
    StripKeepsTrimmed(n);
  }

  /** `float` refuses a dot between a field that is not all digits and digits. */
  lemma FloatFailsOnTwoFields(w: string, f: string)
    requires w != [] && IsDigit(w[0]) && '.' !in w && !AllDigits(w) && IsDigits(f)
    ensures ParseFloat(w + "." + f) == None
  {
    NoCommaInDigits(f);
    var n := w + "." + f;
    assert n[0] == w[0] && n[|n| - 1] == f[|f| - 1];
    FloatOfUnsigned(n);
    assert n == w + ['.'] + f;
    SplitAfterField(w, f, '.');
    SplitNoSeparator(f, '.');
    assert Split(n, '.') == [w, f];
  }

  /** `%d` of `strptime`: 01–31, 1–9, or a space and 1–9. */
  predicate IsDayField(t: string)
  {
    || (|t| == 2 && AllDigits(t) && 1 <= DigitsValue(t) <= 31)
    || (|t| == 1 && '1' <= t[0] <= '9')
    || (|t| == 2 && t[0] == ' ' && '1' <= t[1] <= '9')
  }

  /** `%m`: 01–12 or 1–9. */
  predicate IsMonthField(t: string)
  {
    || (|t| == 2 && AllDigits(t) && 1 <= DigitsValue(t) <= 12)
    || (|t| == 1 && '1' <= t[0] <= '9')
  }

  /** `%Y`: exactly four digits. */
  predicate IsYearField(t: string)
  {
    |t| == 4 && AllDigits(t)
  }

  /** The number a day, month or year field denotes. */
  function FieldValue(t: string): nat
  {
    if t != [] && t[0] == ' ' then (if AllDigits(t[1..]) then DigitsValue(t[1..]) else 0)
    else if AllDigits(t) then DigitsValue(t) else 0
  }

  /** The text `parse_date` hands to `strptime`: every 'г.' removed. */
  function DateText(s: string): string
  {
    ReplaceAll(s, "г.", "")
  }

  /**
   * `parse_date`: None for a blank cell; otherwise `strptime(…, '%d.%m.%Y')` on the text without
   * 'г.', None where it raises (wrong shape, or a date the calendar does not have).
   */
  function ParseDate(s: string): (r: Option<CivilDate>)
    ensures r.Some? ==> ValidDate(r.value.year, r.value.month, r.value.day)
  {
    if Strip(s) == [] then None
    else
      var parts := Split(DateText(s), '.');
      if |parts| == 3 && IsDayField(parts[0]) && IsMonthField(parts[1]) && IsYearField(parts[2]) then
        var d, m, y := FieldValue(parts[0]), FieldValue(parts[1]), FieldValue(parts[2]);
        if ValidDate(y, m, d) then Some(CivilDate(y, m, d)) else None
      else None
  }

  /** Only day.month.year shapes are accepted. */
  lemma ParseDateShape(s: string)
    requires ParseDate(s).Some?
    ensures exists d, m, y :: DateText(s) == d + "." + m + "." + y && IsDayField(d) && IsMonthField(m) && IsYearField(y)
  {
    var parts := Split(DateText(s), '.');
    JoinSplit(DateText(s), '.');
    var rest := parts[1..];
    assert rest[1..] == [parts[2]];
    assert Join(rest, '.') == parts[1] + ['.'] + parts[2];
    assert Join(parts, '.') == parts[0] + ['.'] + (parts[1] + ['.'] + parts[2]);
    assert DateText(s) == parts[0] + "." + parts[1] + "." + parts[2];
  }

  /** A blank cell is no date. */
  lemma ParseDateBlank(s: string)
    requires AllSpace(s)
    ensures ParseDate(s) == None
  {
    StripEmptyIffBlank(s);
  }

  /** How the tables write a date: 'DD.MM.YYYYг.' with zero padding. */
  function DateCell(c: CivilDate): string
    requires c.day < 100 && c.month < 100 && c.year < 10000
  {
    assert Pow10(2) == 100 && Pow10(4) == 10000;
    PaddedDigits(c.day, 2) + "." + PaddedDigits(c.month, 2) + "." + PaddedDigits(c.year, 4) + "г."
  }

  lemma TwoDigitField(n: nat)
    requires 1 <= n <= 31
    ensures Pow10(2) == 100
    ensures FieldValue(PaddedDigits(n, 2)) == n
    ensures IsDayField(PaddedDigits(n, 2))
    ensures n <= 12 ==> IsMonthField(PaddedDigits(n, 2))
  {
    assert Pow10(2) == 100;
    var t := PaddedDigits(n, 2);
    PaddedDigitsValue(n, 2);
    assert IsDigit(t[0]);
  }

  /** The digits and dots of a date cell, without the 'г.'. */
  function DateBody(c: CivilDate): string
    requires c.day < 100 && c.month < 100 && c.year < 10000
  {
    assert Pow10(2) == 100 && Pow10(4) == 10000;
    PaddedDigits(c.day, 2) + "." + PaddedDigits(c.month, 2) + "." + PaddedDigits(c.year, 4)
  }

  lemma DateTextOfCell(c: CivilDate)
    requires c.day < 100 && c.month < 100 && c.year < 10000
    ensures DateText(DateCell(c)) == DateBody(c)
    ensures Strip(DateCell(c)) != []
  {
    assert Pow10(2) == 100 && Pow10(4) == 10000;
    var dd, mm, yyyy := PaddedDigits(c.day, 2), PaddedDigits(c.month, 2), PaddedDigits(c.year, 4);
    var body := DateBody(c);
    assert DateCell(c) == body + "г.";
    assert 'г' !in body by {
      forall i | 0 <= i < |body| ensures body[i] != 'г' {
        if i < 2 { assert body[i] == dd[i]; }
        else if 2 < i < 5 { assert body[i] == mm[i - 3]; }
        else if i > 5 { assert body[i] == yyyy[i - 6]; }
      }
    }
    ReplaceAllSkips(body, "г.", "г.", "");
    assert ReplaceAll("г.", "г.", "") == "";
    assert body + "" == body;
    assert IsDigit(dd[0]);
    DigitFirstNotBlank(DateCell(c));
  }

  lemma SplitDateBody(c: CivilDate)
    requires c.day < 100 && c.month < 100 && c.year < 10000
    ensures Pow10(2) == 100 && Pow10(4) == 10000
    ensures Split(DateBody(c), '.') == [PaddedDigits(c.day, 2), PaddedDigits(c.month, 2), PaddedDigits(c.year, 4)]
  {
    assert Pow10(2) == 100 && Pow10(4) == 10000;
    var dd, mm, yyyy := PaddedDigits(c.day, 2), PaddedDigits(c.month, 2), PaddedDigits(c.year, 4);
    NoCommaInDigits(dd);
    NoCommaInDigits(mm);
    NoCommaInDigits(yyyy);
    assert DateBody(c) == dd + ['.'] + (mm + ['.'] + yyyy);
    SplitAfterField(dd, mm + ['.'] + yyyy, '.');
    SplitAfterField(mm, yyyy, '.');
    SplitNoSeparator(yyyy, '.');
  }

  /** Every calendar date of a four-digit year survives being written to a cell and parsed back. */
  lemma ParseDateCell(c: CivilDate)
    requires ValidDate(c.year, c.month, c.day) && c.year < 10000
    ensures ParseDate(DateCell(c)) == Some(c)
  {
    DateTextOfCell(c);
    SplitDateBody(c);
    var yyyy := PaddedDigits(c.year, 4);
    TwoDigitField(c.day);
    TwoDigitField(c.month);
    PaddedDigitsValue(c.year, 4);
    assert IsDigit(yyyy[0]);
    assert FieldValue(yyyy) == c.year;
  }
}
