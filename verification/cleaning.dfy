/**
 * `load_and_clean_data` (src/data_preprocessing.py): the table-level steps
 * of the cleaner as specification functions, composed in source order by
 * Cleaned, and the imperative method LoadAndClean that performs them one
 * after another on a local frame, with the column loops of the
 * missing-value step as real loops.
 */
module Cleaning {
  import opened Wrappers
  import opened Frame
  import opened Stats
  import opened CellRules

  /** The allow-list of columns, in the order the cleaned table keeps them. */
  const KeptColumns: seq<string> := [
    "id", "loan_amnt", "funded_amnt", "term", "int_rate", "grade", "sub_grade",
    "emp_length", "home_ownership", "annual_inc", "verification_status", "issue_d",
    "loan_status", "purpose", "addr_state", "dti", "delinq_2yrs", "fico_range_low",
    "fico_range_high", "inq_last_6mths", "open_acc", "pub_rec", "revol_bal",
    "revol_util", "total_acc", "mort_acc", "pub_rec_bankruptcies", "defaulted"]

  /** The allow-listed columns the cleaner rewrites with numbers before the fill step. */
  const RecastColumns: seq<string> := ["int_rate", "revol_util", "term", "emp_length", "defaulted"]

  /** A column holding both numbers and texts (an object column of mixed values). */
  predicate Mixed(t: Table, c: string)
  {
    HasText(t.rows, c) && Numbers(t.rows, c) != []
  }

  /** Some row that passes the status filter holds a text in column c. */
  predicate ResolvedText(raw: Table, c: string)
  {
    exists k :: 0 <= k < |raw.rows| && IsResolved(At(raw.rows[k], "loan_status")) && At(raw.rows[k], c).Text?
  }

  /**
   * No text, among the rows that pass the status filter, where the cleaner
   * adds, divides or compares with numbers: `annual_inc` (the quantile and
   * both comparisons) and `dti` always, the loan amount when the income is
   * there to divide it, and the two FICO bounds when both are there to be
   * added (pandas raises TypeError otherwise).
   */
  predicate ArithmeticSafe(raw: Table)
  {
    && !ResolvedText(raw, "annual_inc") && !ResolvedText(raw, "dti")
    && ("annual_inc" in raw.columns ==> !ResolvedText(raw, "loan_amnt"))
    && ("fico_range_low" in raw.columns && "fico_range_high" in raw.columns ==>
          !ResolvedText(raw, "fico_range_low") && !ResolvedText(raw, "fico_range_high"))
  }

  /**
   * pandas fixes a column's dtype when the table is read, and a row filter
   * keeps it, while the model reads the dtype off the values. A column read
   * with texts that the status filter leaves with gaps only is an object
   * column in pandas whose `mode()` is empty, so `mode()[0]` raises
   * KeyError. So every allow-listed column that is not rewritten with
   * numbers and that holds a text keeps one among the resolved rows, unless
   * no row is resolved (then there is no gap to fill).
   */
  predicate KeepsObjectColumns(raw: Table)
  {
    (exists k :: 0 <= k < |raw.rows| && IsResolved(At(raw.rows[k], "loan_status"))) ==>
      forall c {:trigger HasText(raw.rows, c)} :: c in KeptColumns && c !in RecastColumns && HasText(raw.rows, c) ==> ResolvedText(raw, c)
  }

  /**
   * What the cleaner needs of the table it reads: a `loan_status` column
   * (indexing it otherwise raises KeyError), no text in the columns it
   * computes with, no column that mixes numbers and texts, so that the
   * mode of an object column is the mode of its texts, and no object
   * column left without a value by the status filter.
   */
  predicate CleanableInput(raw: Table)
  {
    WellFormed(raw) && "loan_status" in raw.columns
    && ArithmeticSafe(raw)
    && (forall c :: c in raw.columns ==> !Mixed(raw, c))
    && KeepsObjectColumns(raw)
  }

  /** `df[df['loan_status'].isin([...])]`. */
  function KeepResolved(t: Table): (u: Table)
    ensures u.columns == t.columns && IsSubsequence(u.rows, t.rows)
    ensures forall i :: 0 <= i < |u.rows| ==> IsResolved(At(u.rows[i], "loan_status")) && u.rows[i] in t.rows
    ensures forall k :: 0 <= k < |t.rows| && IsResolved(At(t.rows[k], "loan_status")) ==> t.rows[k] in u.rows
    ensures forall r :: multiset(u.rows)[r] == if IsResolved(At(r, "loan_status")) then multiset(t.rows)[r] else 0
    ensures WellFormed(t) ==> WellFormed(u)
  {
    Select(t, (r: Row) => IsResolved(At(r, "loan_status")))
  }

  /** `df['defaulted'] = df['loan_status'].apply(...)`. */
  function WithLabel(t: Table): Table
  {
    SetColumn(t, "defaulted", (r: Row) => DefaultLabel(At(r, "loan_status")))
  }

  /** `[col for col in names if col in columns]`. */
  function PresentIn(names: seq<string>, columns: seq<string>): (kept: seq<string>)
    ensures forall c :: c in kept <==> c in names && c in columns
    ensures IsSubsequence(kept, names)
    ensures Distinct(names) ==> Distinct(kept)
  {
    if names == [] then []
    else
      var init := names[..|names| - 1];
      var last := names[|names| - 1];
      var prefix := PresentIn(init, columns);
      assert names == init + [last];
      if last in columns then
        assert (prefix + [last])[..|prefix|] == prefix;
        prefix + [last]
      else
        SubsequenceOfLonger(prefix, init, last);
        prefix
  }

  /** `df[columns_to_keep]`: the allow-listed columns that exist, in allow-list order. */
  function Project(t: Table, names: seq<string>): (u: Table)
    ensures u.columns == PresentIn(names, t.columns) && |u.rows| == |t.rows|
    ensures forall k, c :: 0 <= k < |t.rows| && c in u.columns ==> At(u.rows[k], c) == At(t.rows[k], c)
    ensures WellFormed(t) && Distinct(names) ==> WellFormed(u)
  {
    var kept := PresentIn(names, t.columns);
    Table(kept, seq(|t.rows|, k requires 0 <= k < |t.rows| => map c | c in t.rows[k] && c in kept :: t.rows[k][c]))
  }

  /** The four text-to-number conversions, each applied when its column exists. */
  function Converted(t: Table): Table
  {
    var withRate := Rewrite(t, "int_rate", PercentToNumber);
    var withUtil := Rewrite(withRate, "revol_util", PercentToNumber);
    var withTerm := Rewrite(withUtil, "term", LeadingNumber);
    Rewrite(withTerm, "emp_length", EmpLength)
  }

  /**
   * The value `fillna` uses for column c: `mode()[0]` of an object column,
   * `median()` of a numeric one; None when the column has no value (the
   * fill value is then NaN and the gaps stay).
   */
  function FillFor(rows: seq<Row>, c: string): Option<Cell>
  {
    if HasText(rows, c) then TextFill(Mode(Texts(rows, c))) else NumberFill(Median(Numbers(rows, c)))
  }

  /** The fill value of an object column is a most frequent text, of a numeric column the median. */
  lemma FillForMeaning(rows: seq<Row>, c: string)
    ensures HasText(rows, c) ==> FillFor(rows, c).Some? && FillFor(rows, c).value.Text?
                                 && IsMostFrequent(Texts(rows, c), FillFor(rows, c).value.s)
    ensures !HasText(rows, c) ==> (FillFor(rows, c).Some? <==> Numbers(rows, c) != [])
    ensures !HasText(rows, c) && FillFor(rows, c).Some? ==> FillFor(rows, c) == Some(Num(Median(Numbers(rows, c)).value))
  {
    if HasText(rows, c) {
      var k :| 0 <= k < |rows| && At(rows[k], c).Text?;
      assert At(rows[k], c).s in Texts(rows, c);
    }
  }

  function NumberFill(median: Option<real>): (fill: Option<Cell>)
    ensures fill.Some? <==> median.Some?
    ensures fill.Some? ==> fill.value == Num(median.value)
  {
    match median
    case Some(m) => Some(Num(m))
    case None => None
  }

  function TextFill(mode: Option<string>): (fill: Option<Cell>)
    ensures fill.Some? <==> mode.Some?
    ensures fill.Some? ==> fill.value == Text(mode.value)
  {
    match mode
    case Some(m) => Some(Text(m))
    case None => None
  }

  /** `fillna(value)` on one cell. */
  function Impute(cell: Cell, fill: Option<Cell>): Cell
  {
    if cell == Missing && fill.Some? then fill.value else cell
  }

  /** The fill value of every column, computed on the table before filling. */
  function FillValues(t: Table): (fills: map<string, Option<Cell>>)
    ensures fills.Keys == ColumnSet(t)
  {
    map c | c in t.columns :: FillFor(t.rows, c)
  }

  function ImputedRow(r: Row, fills: map<string, Option<Cell>>): Row
  {
    map c | c in r :: Impute(r[c], if c in fills then fills[c] else None)
  }

  /** Every missing cell filled with its column's fill value, computed on the table before filling. */
  function Imputed(t: Table): (u: Table)
    ensures u.columns == t.columns && |u.rows| == |t.rows|
    ensures forall k :: 0 <= k < |t.rows| ==> u.rows[k].Keys == t.rows[k].Keys
  {
    var fills := FillValues(t);
    Table(t.columns, seq(|t.rows|, k requires 0 <= k < |t.rows| => ImputedRow(t.rows[k], fills)))
  }

  /** `df['fico_score'] = (low + high) / 2` when both bounds exist. */
  function WithFico(t: Table): Table
  {
    if "fico_range_low" in t.columns && "fico_range_high" in t.columns then
      SetColumn(t, "fico_score", (r: Row) => FicoMidpoint(At(r, "fico_range_low"), At(r, "fico_range_high")))
    else t
  }

  /** `df['loan_to_income'] = loan_amnt / annual_inc` when both exist. */
  function WithLoanToIncome(t: Table): Table
  {
    if "loan_amnt" in t.columns && "annual_inc" in t.columns then
      SetColumn(t, "loan_to_income", (r: Row) => LoanToIncome(At(r, "loan_amnt"), At(r, "annual_inc")))
    else t
  }

  /** `df['annual_inc'].quantile(0.99)`, taken before either income filter. */
  function IncomeCap(t: Table): Option<real>
  {
    Quantile99(Numbers(t.rows, "annual_inc"))
  }

  /** `annual_inc < cap`: false for a missing income and against a NaN cap. */
  predicate BelowCap(r: Row, cap: Option<real>)
  {
    cap.Some? && At(r, "annual_inc").Num? && At(r, "annual_inc").x < cap.value
  }

  predicate PositiveIncome(r: Row)
  {
    At(r, "annual_inc").Num? && At(r, "annual_inc").x > 0.0
  }

  predicate DtiBelow100(r: Row)
  {
    At(r, "dti").Num? && At(r, "dti").x < 100.0
  }

  function WithoutIncomeOutliers(t: Table): Table
  {
    if "annual_inc" in t.columns then
      var cap := IncomeCap(t);
      Select(Select(t, (r: Row) => BelowCap(r, cap)), PositiveIncome)
    else t
  }

  function WithoutDtiOutliers(t: Table): Table
  {
    if "dti" in t.columns then Select(t, DtiBelow100) else t
  }

  /** The table after labelling, projection and the text conversions. */
  function Prepared(raw: Table): Table
  {
    Converted(Project(WithLabel(KeepResolved(raw)), KeptColumns))
  }

  /** The table after imputation and the two derived columns, just before the outlier filters. */
  function Derived(raw: Table): Table
  {
    WithLoanToIncome(WithFico(Imputed(Prepared(raw))))
  }

  /** What `load_and_clean_data` returns for the table it read. */
  function Cleaned(raw: Table): (df: Table)
    ensures |df.rows| <= |raw.rows|
  {
    Rewrite(WithoutDtiOutliers(WithoutIncomeOutliers(Derived(raw))), "issue_d", IssueDate)
  }


  /**
   * `df.select_dtypes(include=['object']).columns` when wantText holds,
   * `include=[np.number]` otherwise, in column order.
   */
  function ColumnsOfDtype(columns: seq<string>, rows: seq<Row>, wantText: bool): (r: seq<string>)
    ensures forall c :: c in r <==> c in columns && HasText(rows, c) == wantText
    ensures Distinct(columns) ==> Distinct(r)
  {
    if columns == [] then []
    else
      var init := columns[..|columns| - 1];
      var last := columns[|columns| - 1];
      assert columns == init + [last];
      ColumnsOfDtype(init, rows, wantText) + (if HasText(rows, last) == wantText then [last] else [])
  }

  /** `df[c].fillna(fill, inplace=True)`. */
  function FillColumn(t: Table, c: string, fill: Option<Cell>): Table
  {
    SetColumn(t, c, (r: Row) => Impute(At(r, c), fill))
  }

  /** u is t with the columns in done filled from fills, and nothing else changed. */
  predicate FilledUpTo(t: Table, fills: map<string, Option<Cell>>, u: Table, done: seq<string>)
  {
    u.columns == t.columns && |u.rows| == |t.rows|
    && (forall k :: 0 <= k < |t.rows| ==> u.rows[k].Keys == t.rows[k].Keys)
    && forall k, c :: 0 <= k < |t.rows| && c in t.rows[k] ==>
         u.rows[k][c] == if c in done && c in fills then Impute(t.rows[k][c], fills[c]) else t.rows[k][c]
  }

  lemma FillStep(t: Table, fills: map<string, Option<Cell>>, u: Table, done: seq<string>, c: string)
    requires WellFormed(t) && FilledUpTo(t, fills, u, done) && c in t.columns && c !in done && c in fills
    ensures FilledUpTo(t, fills, FillColumn(u, c, fills[c]), done + [c])
  {
    var v := FillColumn(u, c, fills[c]);
    forall k | 0 <= k < |t.rows|
      ensures v.rows[k].Keys == t.rows[k].Keys
      ensures forall d :: d in t.rows[k] ==>
        v.rows[k][d] == if d in done + [c] && d in fills then Impute(t.rows[k][d], fills[d]) else t.rows[k][d]
    {
      assert c in t.rows[k];
      var before := u.rows[k];
      assert v.rows[k] == before[c := Impute(At(before, c), fills[c])];
      assert before[c] == t.rows[k][c];
      forall d | d in t.rows[k]
        ensures v.rows[k][d] == if d in done + [c] && d in fills then Impute(t.rows[k][d], fills[d]) else t.rows[k][d]
      {
        if d != c {
          assert d in done + [c] <==> d in done;
        }
      }
    }
  }

  lemma SkipStep(t: Table, fills: map<string, Option<Cell>>, u: Table, done: seq<string>, c: string)
    requires FilledUpTo(t, fills, u, done) && c !in done && !HasMissing(u.rows, c)
    ensures FilledUpTo(t, fills, u, done + [c])
  {
    forall k | 0 <= k < |t.rows| && c in t.rows[k]
      ensures t.rows[k][c] != Missing
    {
      assert At(u.rows[k], c) != Missing;
    }
  }

  /** Column c of u is still column c of t. */
  lemma UntouchedColumn(t: Table, fills: map<string, Option<Cell>>, u: Table, done: seq<string>, c: string)
    requires FilledUpTo(t, fills, u, done) && c !in done
    ensures Numbers(u.rows, c) == Numbers(t.rows, c) && Texts(u.rows, c) == Texts(t.rows, c)
    ensures HasText(u.rows, c) == HasText(t.rows, c)
  {
    assert forall k :: 0 <= k < |t.rows| ==> At(u.rows[k], c) == At(t.rows[k], c);
    SameColumn(u.rows, t.rows, c);
  }

  /** Filling numeric columns with numbers never puts a text anywhere. */
  lemma TextKept(t: Table, fills: map<string, Option<Cell>>, u: Table, done: seq<string>, c: string)
    requires FilledUpTo(t, fills, u, done)
    requires forall d :: d in done ==> !HasText(t.rows, d) && (d in fills ==> fills[d] == None || fills[d].value.Num?)
    ensures HasText(u.rows, c) == HasText(t.rows, c)
  {
    if c !in done {
      UntouchedColumn(t, fills, u, done, c);
    } else {
      assert !HasText(t.rows, c);
      forall k | 0 <= k < |u.rows|
        ensures !At(u.rows[k], c).Text?
      {
        assert !At(t.rows[k], c).Text?;
      }
    }
  }

  /** A cell of the imputed table: the fill value where the cell was missing, the cell otherwise. */
  lemma ImputedAt(t: Table, k: nat, c: string)
    requires WellFormed(t) && k < |t.rows| && c in t.rows[k]
    ensures |Imputed(t).rows| == |t.rows| && c in Imputed(t).rows[k]
    ensures Imputed(t).rows[k][c] == Impute(t.rows[k][c], FillFor(t.rows, c))
  {
    assert c in t.columns;
  }

  /** The fill value of a numeric column is its median, of an object column its mode. */
  lemma FillOfColumn(t: Table, fills: map<string, Option<Cell>>, c: string)
    requires fills == FillValues(t) && c in t.columns
    ensures c in fills
    ensures !HasText(t.rows, c) ==> fills[c] == NumberFill(Median(Numbers(t.rows, c)))
    ensures HasText(t.rows, c) ==> fills[c] == TextFill(Mode(Texts(t.rows, c)))
  {
  }

  /** One pass of the numeric loop: fill column c with its median if it has a gap. */
  lemma NumericStep(t: Table, fills: map<string, Option<Cell>>, u: Table, numeric: seq<string>, i: nat)
    requires WellFormed(t) && fills == FillValues(t) && numeric == ColumnsOfDtype(t.columns, t.rows, false)
    requires i < |numeric| && FilledUpTo(t, fills, u, numeric[..i])
    ensures var c := numeric[i];
      FilledUpTo(t, fills, if HasMissing(u.rows, c) then FillColumn(u, c, NumberFill(Median(Numbers(u.rows, c)))) else u, numeric[..i + 1])
  {
    var c := numeric[i];
    var done := numeric[..i];
    NextOfDistinct(numeric, i);
    UntouchedColumn(t, fills, u, done, c);
    FillOfColumn(t, fills, c);
    if HasMissing(u.rows, c) {
      FillStep(t, fills, u, done, c);
    } else {
      SkipStep(t, fills, u, done, c);
    }
  }

  /** One pass of the object loop: fill column c with its mode if it has a gap. */
  lemma TextStep(t: Table, fills: map<string, Option<Cell>>, u: Table, numeric: seq<string>, categorical: seq<string>, j: nat)
    requires WellFormed(t) && fills == FillValues(t)
    requires numeric == ColumnsOfDtype(t.columns, t.rows, false) && categorical == ColumnsOfDtype(t.columns, t.rows, true)
    requires j < |categorical| && FilledUpTo(t, fills, u, numeric + categorical[..j])
    ensures var c := categorical[j];
      FilledUpTo(t, fills, if HasMissing(u.rows, c) then FillColumn(u, c, TextFill(Mode(Texts(u.rows, c)))) else u, numeric + categorical[..j + 1])
  {
    var c := categorical[j];
    var done := numeric + categorical[..j];
    NextOfDistinct(categorical, j);
    assert numeric + categorical[..j + 1] == done + [c];
    assert c !in numeric;
    UntouchedColumn(t, fills, u, done, c);
    FillOfColumn(t, fills, c);
    if HasMissing(u.rows, c) {
      FillStep(t, fills, u, done, c);
    } else {
      SkipStep(t, fills, u, done, c);
    }
  }

  /** A row whose every cell was filled is the imputed row. */
  lemma RowOfFills(r: Row, v: Row, fills: map<string, Option<Cell>>)
    requires v.Keys == r.Keys && forall c :: c in r ==> c in fills && v[c] == Impute(r[c], fills[c])
    ensures v == ImputedRow(r, fills)
  {
  }

  lemma RowFilled(t: Table, u: Table, done: seq<string>, k: nat)
    requires FilledUpTo(t, FillValues(t), u, done) && k < |t.rows|
    requires forall c :: c in t.rows[k] ==> c in done && c in FillValues(t)
    ensures |Imputed(t).rows| == |u.rows| && u.rows[k] == Imputed(t).rows[k]
  {
    var fills := FillValues(t);
    RowOfFills(t.rows[k], u.rows[k], fills);
  }

  lemma {:induction false} SameDtypes(columns: seq<string>, a: seq<Row>, b: seq<Row>, wantText: bool)
    requires forall c :: c in columns ==> HasText(a, c) == HasText(b, c)
    ensures ColumnsOfDtype(columns, a, wantText) == ColumnsOfDtype(columns, b, wantText)
  {
    if columns != [] {
      SameDtypes(columns[..|columns| - 1], a, b, wantText);
    }
  }

  /** Filling the numeric columns leaves the object columns as they were. */
  lemma NumericPassKeepsObjects(t: Table, u: Table)
    requires WellFormed(t) && FilledUpTo(t, FillValues(t), u, ColumnsOfDtype(t.columns, t.rows, false))
    ensures ColumnsOfDtype(u.columns, u.rows, true) == ColumnsOfDtype(t.columns, t.rows, true)
  {
    var fills := FillValues(t);
    var numeric := ColumnsOfDtype(t.columns, t.rows, false);
    forall d | d in numeric
      ensures !HasText(t.rows, d) && (d in fills ==> fills[d] == None || fills[d].value.Num?)
    {
      FillForMeaning(t.rows, d);
    }
    forall c | c in t.columns
      ensures HasText(u.rows, c) == HasText(t.rows, c)
    {
      TextKept(t, fills, u, numeric, c);
    }
    SameDtypes(t.columns, u.rows, t.rows, true);
  }

  /** A table every one of whose columns is filled from FillValues is the imputed table. */
  lemma AllFilled(t: Table, u: Table, done: seq<string>)
    requires WellFormed(t) && FilledUpTo(t, FillValues(t), u, done)
    requires forall c :: c in t.columns ==> c in done
    ensures u == Imputed(t)
  {
    forall k | 0 <= k < |t.rows|
      ensures u.rows[k] == Imputed(t).rows[k]
    {
      assert forall c :: c in t.rows[k] ==> c in t.columns;
      RowFilled(t, u, done, k);
    }
  }

  /** The first loop: each numeric column with a gap is filled with its median. */
  method FillNumericColumns(t: Table) returns (u: Table, numeric: seq<string>)
    requires WellFormed(t)
    ensures numeric == ColumnsOfDtype(t.columns, t.rows, false)
    ensures FilledUpTo(t, FillValues(t), u, numeric)
  {
    ghost var fills := FillValues(t);
    u := t;
    numeric := ColumnsOfDtype(u.columns, u.rows, false);
    var i := 0;
    while i < |numeric|
      invariant 0 <= i <= |numeric|
      invariant FilledUpTo(t, fills, u, numeric[..i])
    {
      var c := numeric[i];
      NumericStep(t, fills, u, numeric, i);
      if HasMissing(u.rows, c) {
        u := FillColumn(u, c, NumberFill(Median(Numbers(u.rows, c))));
      }
      i := i + 1;
    }
    assert numeric[..i] == numeric;
  }

  /** The second loop: each object column with a gap is filled with its mode. */
  method FillObjectColumns(t: Table, u0: Table, numeric: seq<string>) returns (u: Table, categorical: seq<string>)
    requires WellFormed(t) && numeric == ColumnsOfDtype(t.columns, t.rows, false)
    requires FilledUpTo(t, FillValues(t), u0, numeric)
    ensures categorical == ColumnsOfDtype(t.columns, t.rows, true)
    ensures FilledUpTo(t, FillValues(t), u, numeric + categorical)
  {
    ghost var fills := FillValues(t);
    u := u0;
    NumericPassKeepsObjects(t, u);
    categorical := ColumnsOfDtype(u.columns, u.rows, true);
    var j := 0;
    assert numeric + categorical[..0] == numeric;
    while j < |categorical|
      invariant 0 <= j <= |categorical|
      invariant FilledUpTo(t, fills, u, numeric + categorical[..j])
    {
      var c := categorical[j];
      TextStep(t, fills, u, numeric, categorical, j);
      if HasMissing(u.rows, c) {
        u := FillColumn(u, c, TextFill(Mode(Texts(u.rows, c))));
      }
      j := j + 1;
    }
    assert categorical[..j] == categorical;
  }

  /**
   * "Handling missing values": each numeric column with a gap is filled
   * with its median, then each object column with a gap with its mode.
   */
  method HandleMissingValues(t: Table) returns (u: Table)
    requires WellFormed(t)
    ensures u == Imputed(t)
  {
    var filled, numeric := FillNumericColumns(t);
    var categorical;
    u, categorical := FillObjectColumns(t, filled, numeric);
    AllFilled(t, u, numeric + categorical);
  }

  const KeptHead: seq<string> := [
    "id", "loan_amnt", "funded_amnt", "term", "int_rate", "grade", "sub_grade",
    "emp_length", "home_ownership", "annual_inc", "verification_status", "issue_d",
    "loan_status", "purpose"]

  const KeptTail: seq<string> := [
    "addr_state", "dti", "delinq_2yrs", "fico_range_low",
    "fico_range_high", "inq_last_6mths", "open_acc", "pub_rec", "revol_bal",
    "revol_util", "total_acc", "mort_acc", "pub_rec_bankruptcies", "defaulted"]

  lemma KeptHeadDistinct()
    ensures Distinct(KeptHead)
  {
  }

  lemma KeptTailDistinct()
    ensures Distinct(KeptTail)
  {
  }

  lemma KeptHalvesDisjoint()
    ensures Disjoint(KeptHead, KeptTail)
  {
  }

  /** The projection names no column twice. */
  lemma KeptColumnsDistinct()
    ensures Distinct(KeptColumns)
  {
    assert KeptColumns == KeptHead + KeptTail;
    KeptHeadDistinct();
    KeptTailDistinct();
    KeptHalvesDisjoint();
    DistinctJoin(KeptHead, KeptTail);
  }

  /**
   * `load_and_clean_data` once the CSV has been read into raw: the frame
   * is reassigned step by step in source order, and the result is the
   * table Cleaned describes.
   */
  method LoadAndClean(raw: Table) returns (df: Table)
    requires CleanableInput(raw)
    ensures df == Cleaned(raw)
  {
    df := KeepResolved(raw);
    df := WithLabel(df);
    KeptColumnsDistinct();
    df := Project(df, KeptColumns);
    df := Converted(df);
    df := HandleMissingValues(df);
    df := WithFico(df);
    df := WithLoanToIncome(df);
    if "annual_inc" in df.columns {
      var cap := IncomeCap(df);
      df := Select(df, (r: Row) => BelowCap(r, cap));
      df := Select(df, PositiveIncome);
    }
    if "dti" in df.columns {
      df := Select(df, DtiBelow100);
    }
    df := Rewrite(df, "issue_d", IssueDate);
  }
}
