/**
 * The cell-by-cell rules of the cleaner (src/data_preprocessing.py):
 * which loan statuses are resolved and which count as a default, the
 * percent and digit-run conversions, the employment-length mapping, the
 * two derived ratios and the "Mon-YYYY" issue-date parse.
 */
module CellRules {
  import opened Wrappers
  import opened Text
  import opened Frame

  const ResolvedStatuses: seq<string> := ["Fully Paid", "Charged Off", "Default"]
  const DefaultStatuses: seq<string> := ["Charged Off", "Default"]

  /** `loan_status.isin([...])`: a missing status is never resolved. */
  predicate IsResolved(status: Cell)
  {
    status.Text? && status.s in ResolvedStatuses
  }

  /** The `defaulted` label: 1 for a charged-off or defaulted loan, 0 otherwise. */
  function DefaultLabel(status: Cell): (flag: Cell)
    ensures flag == Num(1.0) || flag == Num(0.0)
    ensures flag == Num(1.0) <==> status.Text? && status.s in DefaultStatuses
  {
    if status.Text? && status.s in DefaultStatuses then Num(1.0) else Num(0.0)
  }

  /** On the statuses that survive the filter, the label is 0 exactly for "Fully Paid". */
  lemma LabelOfResolved(status: Cell)
    requires IsResolved(status)
    ensures DefaultLabel(status) == if status.s == "Fully Paid" then Num(0.0) else Num(1.0)
  {
  }

  /**
   * `astype(str).str.replace('%', '')` then `pd.to_numeric(errors='coerce')`:
   * a text loses every '%' and is read as a decimal number, or becomes
   * missing when it is not one; a number is unchanged (its `str` reads back
   * as itself); a missing cell stays missing ("nan" reads back as NaN).
   */
  function PercentToNumber(c: Cell): (r: Cell)
    ensures r.Num? || r == Missing
    ensures c.Num? ==> r == c
    ensures c.Text? ==> (r == Missing <==> ParseDecimal(RemoveAll(c.s, '%')) == None)
  {
    match c
    case Num(_) => c
    case Text(s) =>
      (match ParseDecimal(RemoveAll(s, '%'))
       case Some(v) => Num(v)
       case None => Missing)
    case _ => Missing
  }

  /** Any spelled decimal followed by a percent sign reads as its value: "45.2%" is 45.2. */
  lemma PercentOfSpelled(d: Decimal)
    requires AllDigits(d.fraction)
    ensures PercentToNumber(Text(Spell(d) + "%")) == Num(ValueOf(d))
  {
    RemoveAllAppend(Spell(d), "%", '%');
    assert RemoveAll("%", '%') == [];
    SpellNoPercent(d);
    RemoveAllAbsent(Spell(d), '%');
    assert Spell(d) + [] == Spell(d);
    ParseSpelled(d);
  }

  lemma SpellNoPercent(d: Decimal)
    requires AllDigits(d.fraction)
    ensures '%' !in Spell(d)
  {
    if '%' in Spell(d) {
      var i :| 0 <= i < |Spell(d)| && Spell(d)[i] == '%';
      SpellHasNoPercent(d, i);
    }
  }

  lemma SpellHasNoPercent(d: Decimal, i: nat)
    requires AllDigits(d.fraction) && i < |Spell(d)|
    ensures Spell(d)[i] != '%'
  {
    var sign: string := if d.negative then "-" else "";
    var w := ShowNat(d.whole);
    assert Spell(d) == sign + SpellMagnitude(d.whole, d.fraction);
    if |d.fraction| != 0 {
      assert SpellMagnitude(d.whole, d.fraction) == w + "." + d.fraction;
    }
  }

  lemma PercentExample()
    ensures PercentToNumber(Text("45.2%")) == Num(45.2)
  {
    var d := Decimal(false, 45, "2");
    assert Spell(d) + "%" == "45.2%" by {
      assert ShowNat(45) == "45" by {
        assert ShowNat(4) == "4";
      }
    }
    assert ValueOf(d) == 45.2 by {
      assert DigitsValue("2") == 2 by {
        assert "2"[..0] == "";
      }
    }
    PercentOfSpelled(d);
    SameConversion(Text(Spell(d) + "%"), Text("45.2%"), ValueOf(d), 45.2);
  }

  lemma SameConversion(c: Cell, e: Cell, v: real, w: real)
    requires PercentToNumber(c) == Num(v) && c == e && v == w
    ensures PercentToNumber(e) == Num(w)
  {
  }

  /** A text without a single digit never reads as a number, percent sign or not. */
  lemma PercentOfNoDigits(s: string)
    requires NoDigit(s)
    ensures PercentToNumber(Text(s)) == Missing
  {
    var u := RemoveAll(s, '%');
    assert NoDigit(u) by {
      forall i | 0 <= i < |u| ensures !IsDigit(u[i]) {
        assert u[i] in multiset(u);
      }
    }
    NoDigitNoNumber(u);
  }

  lemma NoDigitNoNumber(u: string)
    requires NoDigit(u)
    ensures ParseDecimal(u) == None
  {
    var t := TrimEnd(TrimStart(u));
    assert NoDigit(t) by {
      forall i | 0 <= i < |t| ensures !IsDigit(t[i]) {
        assert t[i] == TrimStart(u)[i];
        assert TrimStart(u)[i] == u[|u| - |TrimStart(u)| + i];
      }
    }
    NoDigitUnsigned(t);
    if |t| > 0 {
      assert NoDigit(t[1..]);
      NoDigitUnsigned(t[1..]);
    }
  }

  lemma NoDigitUnsigned(s: string)
    requires NoDigit(s)
    ensures ParseUnsigned(s) == None
  {
    if 0 < |s| {
      assert !IsDigit(s[0]);
      assert DigitRunLength(s) == 0;
    }
  }

  /**
   * `astype(str).str.extract(r'(\d+)')` then `pd.to_numeric`: the first run
   * of ASCII digits of a text, or missing when it has none. A number is
   * taken as the integer part of its magnitude, which is what its `str`
   * begins with in positional notation; a missing cell ("nan") has no
   * digit.
   */
  function LeadingNumber(c: Cell): (r: Cell)
    ensures r.Num? || r == Missing
    ensures c.Text? ==> (r == Missing <==> NoDigit(c.s))
    ensures r.Num? ==> r.x == r.x.Floor as real && 0.0 <= r.x
  {
    match c
    case Text(s) =>
      (match FirstDigitRun(s)
       case Some(n) => Num(n as real)
       case None => Missing)
    case Num(x) => Num((if x < 0.0 then -x else x).Floor as real)
    case Date(year, _) => Num(year as real)
    case Missing => Missing
  }

  /** Text before the first digit is skipped and the digit run ends at the first non-digit. */
  lemma LeadingNumberFinds(before: string, n: nat, after: string)
    requires NoDigit(before)
    requires after == [] || !IsDigit(after[0])
    ensures LeadingNumber(Text(before + ShowNat(n) + after)) == Num(n as real)
  {
    FirstDigitRunFinds(before, n, after);
  }

  /** The `emp_length` replacements applied before the digit run is taken. */
  function EmpLengthText(c: Cell): (r: Cell)
    ensures c != Text("< 1 year") && c != Text("10+ years") && c != Text("n/a") ==> r == c
  {
    if c == Text("< 1 year") then Text("0")
    else if c == Text("10+ years") then Text("10")
    else if c == Text("n/a") then Missing
    else c
  }

  /** `emp_length` after the replacements and the digit-run extraction. */
  function EmpLength(c: Cell): (r: Cell)
    ensures r.Num? || r == Missing
    ensures r.Num? ==> r.x == r.x.Floor as real && 0.0 <= r.x
    ensures c != Text("< 1 year") && c != Text("10+ years") && c != Text("n/a") ==> r == LeadingNumber(c)
  {
    LeadingNumber(EmpLengthText(c))
  }

  /** The spellings the data uses for term and employment length. */
  lemma TermExample()
    ensures LeadingNumber(Text("36 months")) == Num(36.0)
  {
    assert ShowNat(36) == "36" by {
      assert ShowNat(3) == "3";
    }
    LeadingNumberFinds("", 36, " months");
    assert "" + "36" + " months" == "36 months";
  }

  /** Under a year of employment counts as 0 years. */
  lemma EmpLengthUnderOneYear()
    ensures EmpLength(Text("< 1 year")) == Num(0.0)
  {
    assert EmpLengthText(Text("< 1 year")) == Text("0");
    assert ShowNat(0) == "0";
    LeadingNumberFinds("", 0, "");
    assert "" + "0" + "" == "0";
  }

  /** Ten years or more counts as 10 years. */
  lemma EmpLengthTenPlus()
    ensures EmpLength(Text("10+ years")) == Num(10.0)
  {
    assert EmpLengthText(Text("10+ years")) == Text("10");
    assert ShowNat(10) == "10" by {
      assert ShowNat(1) == "1";
    }
    LeadingNumberFinds("", 10, "");
    assert "" + "10" + "" == "10";
  }

  /** "n/a" is a missing employment length. */
  lemma EmpLengthNotApplicable()
    ensures EmpLength(Text("n/a")) == Missing
  {
  }

  lemma EmpLengthYears()
    ensures EmpLength(Text("5 years")) == Num(5.0)
  {
    assert ShowNat(5) == "5";
    LeadingNumberFinds("", 5, " years");
    assert "" + "5" + " years" == "5 years";
  }

  /** Without the mapping, "< 1 year" would read as 1: the mapping is what makes it 0. */
  lemma EmpLengthMappingMatters()
    ensures LeadingNumber(Text("< 1 year")) == Num(1.0)
    ensures EmpLength(Text("< 1 year")) == Num(0.0)
  {
    assert ShowNat(1) == "1";
    assert NoDigit("< ");
    LeadingNumberFinds("< ", 1, " year");
    assert "< " + "1" + " year" == "< 1 year";
    EmpLengthUnderOneYear();
  }

  /** `(fico_range_low + fico_range_high) / 2`; missing when either bound is. */
  function FicoMidpoint(low: Cell, high: Cell): (r: Cell)
    ensures r.Num? <==> low.Num? && high.Num?
    ensures r.Num? ==> r.x - low.x == high.x - r.x
  {
    if low.Num? && high.Num? then Num((low.x + high.x) / 2.0) else Missing
  }

  /**
   * `loan_amnt / annual_inc`; missing when either is missing. A zero income
   * gives an infinite or NaN ratio in pandas, modelled as missing: such a
   * row never survives the positive-income filter.
   */
  function LoanToIncome(loan: Cell, income: Cell): (r: Cell)
    ensures r.Num? <==> loan.Num? && income.Num? && income.x != 0.0
    ensures r.Num? ==> r.x * income.x == loan.x
  {
    if loan.Num? && income.Num? && income.x != 0.0 then Num(loan.x / income.x) else Missing
  }

  const MonthNames: seq<string> := ["jan", "feb", "mar", "apr", "may", "jun", "jul", "aug", "sep", "oct", "nov", "dec"]
  const MonthTitles: seq<string> := ["Jan", "Feb", "Mar", "Apr", "May", "Jun", "Jul", "Aug", "Sep", "Oct", "Nov", "Dec"]

  function LowerAscii(c: char): char
  {
    if 'A' <= c <= 'Z' then (c as int + 32) as char else c
  }

  function Lower(s: string): (r: string)
    ensures |r| == |s|
  {
    seq(|s|, i requires 0 <= i < |s| => LowerAscii(s[i]))
  }

  /** `%b`: an English month abbreviation in any letter case, as month 1 to 12. */
  function MonthNumber(s: string): (m: Option<nat>)
    ensures m.Some? <==> Lower(s) in MonthNames
    ensures m.Some? ==> 1 <= m.value <= 12 && MonthNames[m.value - 1] == Lower(s)
  {
    MonthFrom(Lower(s), 0)
  }

  function MonthFrom(l: string, i: nat): (m: Option<nat>)
    requires i <= 12
    ensures m.Some? <==> l in MonthNames[i..]
    ensures m.Some? ==> i < m.value <= 12 && MonthNames[m.value - 1] == l
    decreases 12 - i
  {
    if i == 12 then None
    else if MonthNames[i] == l then Some(i + 1)
    else MonthFrom(l, i + 1)
  }

  /** The first days of month that a nanosecond pandas Timestamp can hold: 1677-10 to 2262-04. */
  predicate InTimestampRange(year: int, month: int)
  {
    (1677 < year || (year == 1677 && 10 <= month))
    && (year < 2262 || (year == 2262 && month <= 4))
  }

  /**
   * `pd.to_datetime(format='%b-%Y', errors='coerce')`: exactly a month
   * abbreviation, a hyphen and four digits; anything else, and a date a
   * Timestamp cannot hold, is missing (NaT).
   */
  function IssueDate(c: Cell): (r: Cell)
    ensures r == Missing || r.Date?
    ensures r.Date? ==> 1 <= r.month <= 12 && InTimestampRange(r.year, r.month)
    ensures r.Date? ==> c.Text? && |c.s| == 8 && c.s[3] == '-'
    ensures r.Date? ==> Lower(c.s[..3]) == MonthNames[r.month - 1] && AllDigits(c.s[4..]) && DigitsValue(c.s[4..]) == r.year
    ensures r.Date? <==> c.Text? && |c.s| == 8 && c.s[3] == '-' && Lower(c.s[..3]) in MonthNames && AllDigits(c.s[4..])
                         && InTimestampRange(DigitsValue(c.s[4..]), MonthNumber(c.s[..3]).value)
  {
    match c
    case Text(s) => if |s| == 8 && s[3] == '-' then MonthYear(s[..3], s[4..]) else Missing
    case _ => Missing
  }

  /** The date that a month abbreviation and a year spell, if a Timestamp can hold it. */
  function MonthYear(month: string, year: string): (r: Cell)
    ensures r == Missing || r.Date?
    ensures r.Date? ==> 1 <= r.month <= 12 && InTimestampRange(r.year, r.month)
    ensures r.Date? ==> Lower(month) == MonthNames[r.month - 1] && AllDigits(year) && DigitsValue(year) == r.year
    ensures r.Date? <==> Lower(month) in MonthNames && AllDigits(year) && InTimestampRange(DigitsValue(year), MonthNumber(month).value)
  {
    if !AllDigits(year) then Missing
    else
      match MonthNumber(month)
      case Some(m) =>
        var y := DigitsValue(year);
        if InTimestampRange(y, m) then Date(y, m) else Missing
      case None => Missing
  }

  lemma IssueDateParts(month: string, year: string)
    requires |month| == 3 && |year| == 4
    ensures IssueDate(Text(month + "-" + year)) == MonthYear(month, year)
  {
    var s := month + "-" + year;
    assert s[..3] == month && s[3] == '-' && s[4..] == year;
  }

  lemma MonthNamesDistinct()
    ensures Distinct(MonthNames)
  {
  }

  lemma LowerTitle(m: nat)
    requires 1 <= m <= 12
    ensures Lower(MonthTitles[m - 1]) == MonthNames[m - 1]
  {
    var t := MonthTitles[m - 1];
    assert |t| == 3 && |MonthNames[m - 1]| == 3;
    forall i | 0 <= i < 3 ensures Lower(t)[i] == MonthNames[m - 1][i] {
    }
  }

  /** Each month's title reads back as its number. */
  lemma MonthOfTitle(m: nat)
    requires 1 <= m <= 12
    ensures MonthNumber(MonthTitles[m - 1]) == Some(m)
  {
    LowerTitle(m);
    MonthNamesDistinct();
    var r := MonthNumber(MonthTitles[m - 1]);
    assert MonthNames[m - 1] in MonthNames;
    assert MonthNames[r.value - 1] == MonthNames[m - 1];
  }

  /** How a month is written in the data, such as "Dec-2011". */
  function ShowMonthYear(year: nat, month: nat): string
    requires 1 <= month <= 12
  {
    MonthTitles[month - 1] + "-" + ShowNat(year)
  }

  /** Partner of IssueDate: every month a Timestamp can hold reads back from its spelling. */
  lemma IssueDateOfShown(year: nat, month: nat)
    requires 1 <= month <= 12 && InTimestampRange(year, month)
    ensures IssueDate(Text(ShowMonthYear(year, month))) == Date(year, month)
  {
    ShowNatFourDigits(year);
    ShowNatValue(year);
    IssueDateParts(MonthTitles[month - 1], ShowNat(year));
    MonthOfTitle(month);
  }

  lemma LowerIdempotent(s: string)
    ensures Lower(Lower(s)) == Lower(s)
  {
  }

  /** The month abbreviation is read in any letter case. */
  lemma IssueDateCaseFree(month: string, year: string)
    requires |month| == 3 && |year| == 4
    ensures IssueDate(Text(month + "-" + year)) == IssueDate(Text(Lower(month) + "-" + year))
  {
    IssueDateParts(month, year);
    IssueDateParts(Lower(month), year);
    LowerIdempotent(month);
  }

  lemma IssueDateExample()
    ensures IssueDate(Text("Dec-2011")) == Date(2011, 12)
  {
    IssueDateOfShown(2011, 12);
    ShownDec2011();
  }

  lemma ShownDec2011()
    ensures ShowMonthYear(2011, 12) == "Dec-2011"
  {
    assert ShowNat(2011) == "2011" by {
      assert ShowNat(2) == "2";
      assert ShowNat(20) == "20";
      assert ShowNat(201) == "201";
    }
  }

  lemma IssueDateUpperExample()
    ensures IssueDate(Text("DEC-2011")) == Date(2011, 12)
  {
    IssueDateCaseFree("DEC", "2011");
    IssueDateCaseFree("Dec", "2011");
    DecSpellings();
    IssueDateExample();
  }

  lemma DecSpellings()
    ensures Lower("DEC") == Lower("Dec")
    ensures "DEC" + "-" + "2011" == "DEC-2011" && "Dec" + "-" + "2011" == "Dec-2011"
  {
    assert Lower("DEC") == "dec";
    assert Lower("Dec") == "dec";
  }

  /** A two-digit year is not a `%b-%Y` date. */
  lemma IssueDateRejectsShortYear()
    ensures IssueDate(Text("Dec-11")) == Missing
  {
  }

  /** A four-letter month is not a `%b-%Y` date. */
  lemma IssueDateRejectsLongMonth()
    ensures IssueDate(Text("Sept-2011")) == Missing
  {
    assert "Sept-2011"[3] == 't';
  }

  /** A year before 1677 is outside the range pandas can represent. */
  lemma IssueDateRejectsEarlyYear()
    ensures IssueDate(Text("Dec-1500")) == Missing
  {
    EarlyMonthYear();
    SpelledEarly();
    IssueDateParts("Dec", "1500");
  }

  lemma EarlyMonthYear()
    ensures MonthYear("Dec", "1500") == Missing
  {
    Year1500();
  }

  lemma SpelledEarly()
    ensures "Dec" + "-" + "1500" == "Dec-1500"
  {
  }

  lemma Year1500()
    ensures AllDigits("1500") && DigitsValue("1500") == 1500
  {
    assert "1500"[..3] == "150" && "150"[..2] == "15" && "15"[..1] == "1" && "1"[..0] == "";
  }
}
