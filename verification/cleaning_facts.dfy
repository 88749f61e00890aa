/**
 * What `load_and_clean_data` guarantees about the table it returns, proved
 * about Cleaned: which columns it has, which rows survive, and how the
 * label, the filled cells and the derived columns relate to the rest of
 * their row.
 *
 * Most guarantees are relations among a few cells of the same row. Holds
 * says that every row satisfies such a relation, and the Holds* lemmas
 * carry it through each step that does not write the columns involved.
 */
module CleaningFacts {
  import opened Wrappers
  import opened Text
  import opened Frame
  import opened Stats
  import opened CellRules
  import opened Cleaning

  /** The cells of row r in the columns cs, in that order. */
  function Cells(r: Row, cs: seq<string>): (v: seq<Cell>)
    ensures |v| == |cs| && forall i :: 0 <= i < |cs| ==> v[i] == At(r, cs[i])
  {
    seq(|cs|, i requires 0 <= i < |cs| => At(r, cs[i]))
  }

  /** Every row of t relates its cells in the columns cs by R. */
  predicate Holds(t: Table, cs: seq<string>, R: seq<Cell> -> bool)
  {
    forall k :: 0 <= k < |t.rows| ==> R(Cells(t.rows[k], cs))
  }

  lemma HoldsSelect(t: Table, keep: Row -> bool, cs: seq<string>, R: seq<Cell> -> bool)
    requires Holds(t, cs, R)
    ensures Holds(Select(t, keep), cs, R)
  {
    var u := Select(t, keep);
    forall i | 0 <= i < |u.rows|
      ensures R(Cells(u.rows[i], cs))
    {
      var k :| 0 <= k < |t.rows| && t.rows[k] == u.rows[i];
    }
  }

  lemma HoldsSetColumn(t: Table, c: string, f: Row -> Cell, cs: seq<string>, R: seq<Cell> -> bool)
    requires Holds(t, cs, R) && c !in cs
    ensures Holds(SetColumn(t, c, f), cs, R)
  {
    var u := SetColumn(t, c, f);
    forall k | 0 <= k < |u.rows|
      ensures R(Cells(u.rows[k], cs))
    {
      assert Cells(u.rows[k], cs) == Cells(t.rows[k], cs);
    }
  }

  lemma HoldsRewrite(t: Table, c: string, g: Cell -> Cell, cs: seq<string>, R: seq<Cell> -> bool)
    requires Holds(t, cs, R) && c !in cs
    ensures Holds(Rewrite(t, c, g), cs, R)
  {
    var u := Rewrite(t, c, g);
    forall k | 0 <= k < |u.rows|
      ensures R(Cells(u.rows[k], cs))
    {
      assert Cells(u.rows[k], cs) == Cells(t.rows[k], cs);
    }
  }

  lemma HoldsProject(t: Table, names: seq<string>, cs: seq<string>, R: seq<Cell> -> bool)
    requires Holds(t, cs, R)
    requires forall d :: d in cs ==> d in names && d in t.columns
    ensures Holds(Project(t, names), cs, R)
  {
    var u := Project(t, names);
    forall k | 0 <= k < |u.rows|
      ensures R(Cells(u.rows[k], cs))
    {
      assert Cells(u.rows[k], cs) == Cells(t.rows[k], cs);
    }
  }

  /** Imputation only writes missing cells, so a relation that rules them out survives it. */
  lemma HoldsImputed(t: Table, cs: seq<string>, R: seq<Cell> -> bool)
    requires WellFormed(t) && Holds(t, cs, R)
    requires forall v :: R(v) ==> Missing !in v
    ensures Holds(Imputed(t), cs, R)
  {
    var u := Imputed(t);
    forall k | 0 <= k < |u.rows|
      ensures R(Cells(u.rows[k], cs))
    {
      var before := Cells(t.rows[k], cs);
      assert R(before);
      forall i | 0 <= i < |cs|
        ensures At(u.rows[k], cs[i]) == before[i]
      {
        assert before[i] != Missing;
        ImputedAt(t, k, cs[i]);
      }
      assert Cells(u.rows[k], cs) == before;
    }
  }

  lemma HoldsConverted(t: Table, cs: seq<string>, R: seq<Cell> -> bool)
    requires Holds(t, cs, R)
    requires "int_rate" !in cs && "revol_util" !in cs && "term" !in cs && "emp_length" !in cs
    ensures Holds(Converted(t), cs, R)
  {
    var withRate := Rewrite(t, "int_rate", PercentToNumber);
    var withUtil := Rewrite(withRate, "revol_util", PercentToNumber);
    var withTerm := Rewrite(withUtil, "term", LeadingNumber);
    HoldsRewrite(t, "int_rate", PercentToNumber, cs, R);
    HoldsRewrite(withRate, "revol_util", PercentToNumber, cs, R);
    HoldsRewrite(withUtil, "term", LeadingNumber, cs, R);
    HoldsRewrite(withTerm, "emp_length", EmpLength, cs, R);
  }

  /** The two derived columns leave every other column as it was. */
  lemma HoldsDerivedColumns(t: Table, cs: seq<string>, R: seq<Cell> -> bool)
    requires Holds(t, cs, R) && "fico_score" !in cs && "loan_to_income" !in cs
    ensures Holds(WithLoanToIncome(WithFico(t)), cs, R)
  {
    var withFico := WithFico(t);
    if "fico_range_low" in t.columns && "fico_range_high" in t.columns {
      HoldsSetColumn(t, "fico_score", (r: Row) => FicoMidpoint(At(r, "fico_range_low"), At(r, "fico_range_high")), cs, R);
    }
    if "loan_amnt" in withFico.columns && "annual_inc" in withFico.columns {
      HoldsSetColumn(withFico, "loan_to_income", (r: Row) => LoanToIncome(At(r, "loan_amnt"), At(r, "annual_inc")), cs, R);
    }
  }

  lemma HoldsIncomeFilter(t: Table, cs: seq<string>, R: seq<Cell> -> bool)
    requires Holds(t, cs, R)
    ensures Holds(WithoutIncomeOutliers(t), cs, R)
  {
    if "annual_inc" in t.columns {
      var cap := IncomeCap(t);
      HoldsSelect(t, (r: Row) => BelowCap(r, cap), cs, R);
      HoldsSelect(Select(t, (r: Row) => BelowCap(r, cap)), PositiveIncome, cs, R);
    }
  }

  /** The dti filter deletes rows and the date parse writes only issue_d. */
  lemma HoldsDtiAndDate(t: Table, cs: seq<string>, R: seq<Cell> -> bool)
    requires Holds(t, cs, R) && "issue_d" !in cs
    ensures Holds(Rewrite(WithoutDtiOutliers(t), "issue_d", IssueDate), cs, R)
  {
    if "dti" in t.columns {
      HoldsSelect(t, DtiBelow100, cs, R);
    }
    HoldsRewrite(WithoutDtiOutliers(t), "issue_d", IssueDate, cs, R);
  }

  /** The outlier filters delete rows and the date parse writes only issue_d. */
  lemma HoldsFiltered(t: Table, cs: seq<string>, R: seq<Cell> -> bool)
    requires Holds(t, cs, R) && "issue_d" !in cs
    ensures Holds(Rewrite(WithoutDtiOutliers(WithoutIncomeOutliers(t)), "issue_d", IssueDate), cs, R)
  {
    HoldsIncomeFilter(t, cs, R);
    HoldsDtiAndDate(WithoutIncomeOutliers(t), cs, R);
  }

  /** The table before imputation is well formed and has the allow-listed columns the input has. */
  lemma PreparedShape(raw: Table)
    requires CleanableInput(raw)
    ensures WellFormed(Prepared(raw))
    ensures forall c :: c in Prepared(raw).columns <==> c in KeptColumns && (c in raw.columns || c == "defaulted")
  {
    KeptColumnsDistinct();
  }

  lemma DerivedColumnsOf(t: Table)
    requires WellFormed(t)
    ensures var u := WithLoanToIncome(WithFico(t));
      && WellFormed(u)
      && forall c :: c in u.columns <==>
        || c in t.columns
        || (c == "fico_score" && "fico_range_low" in t.columns && "fico_range_high" in t.columns)
        || (c == "loan_to_income" && "loan_amnt" in t.columns && "annual_inc" in t.columns)
  {
  }

  lemma FilteredColumnsOf(t: Table)
    ensures Rewrite(WithoutDtiOutliers(WithoutIncomeOutliers(t)), "issue_d", IssueDate).columns == t.columns
  {
    var incomeOk := WithoutIncomeOutliers(t);
    assert incomeOk.columns == t.columns;
    assert WithoutDtiOutliers(incomeOk).columns == t.columns;
  }

  /** Chaining the column sets of the stages. */
  lemma ColumnsThrough(raw: seq<string>, prepared: seq<string>, derived: seq<string>, cleaned: seq<string>)
    requires forall c :: c in prepared <==> c in KeptColumns && (c in raw || c == "defaulted")
    requires forall c :: c in derived <==>
      || c in prepared
      || (c == "fico_score" && "fico_range_low" in prepared && "fico_range_high" in prepared)
      || (c == "loan_to_income" && "loan_amnt" in prepared && "annual_inc" in prepared)
    requires cleaned == derived
    ensures forall c :: c in cleaned <==>
      || (c in KeptColumns && (c in raw || c == "defaulted"))
      || (c == "fico_score" && "fico_range_low" in raw && "fico_range_high" in raw)
      || (c == "loan_to_income" && "loan_amnt" in raw && "annual_inc" in raw)
  {
    assert "fico_range_low" in KeptColumns && "fico_range_high" in KeptColumns;
    assert "loan_amnt" in KeptColumns && "annual_inc" in KeptColumns;
  }

  /** The columns of the cleaned table: the allow-listed ones present, the label and the derived ones. */
  lemma CleanedColumns(raw: Table)
    requires CleanableInput(raw)
    ensures forall c :: c in Cleaned(raw).columns <==>
      || (c in KeptColumns && (c in raw.columns || c == "defaulted"))
      || (c == "fico_score" && "fico_range_low" in raw.columns && "fico_range_high" in raw.columns)
      || (c == "loan_to_income" && "loan_amnt" in raw.columns && "annual_inc" in raw.columns)
    ensures Distinct(Cleaned(raw).columns)
  {
    DerivedColumnNames(raw);
    FilteredColumnsOf(Derived(raw));
  }

  /** The columns just before the outlier filters, which keep them. */
  lemma DerivedColumnNames(raw: Table)
    requires CleanableInput(raw)
    ensures WellFormed(Derived(raw))
    ensures forall c :: c in Derived(raw).columns <==>
      || (c in KeptColumns && (c in raw.columns || c == "defaulted"))
      || (c == "fico_score" && "fico_range_low" in raw.columns && "fico_range_high" in raw.columns)
      || (c == "loan_to_income" && "loan_amnt" in raw.columns && "annual_inc" in raw.columns)
  {
    PreparedShape(raw);
    DerivedFromPrepared(Prepared(raw), raw.columns);
  }

  lemma DerivedFromPrepared(prepared: Table, rawColumns: seq<string>)
    requires WellFormed(prepared)
    requires forall c :: c in prepared.columns <==> c in KeptColumns && (c in rawColumns || c == "defaulted")
    ensures var u := WithLoanToIncome(WithFico(Imputed(prepared)));
      && WellFormed(u)
      && forall c :: c in u.columns <==>
        || (c in KeptColumns && (c in rawColumns || c == "defaulted"))
        || (c == "fico_score" && "fico_range_low" in rawColumns && "fico_range_high" in rawColumns)
        || (c == "loan_to_income" && "loan_amnt" in rawColumns && "annual_inc" in rawColumns)
  {
    ImputedShape(prepared);
    DerivedColumnsOf(Imputed(prepared));
    var u := WithLoanToIncome(WithFico(Imputed(prepared)));
    ColumnsThrough(rawColumns, prepared.columns, u.columns, u.columns);
  }

  /** Imputation keeps the columns and the cells' keys. */
  lemma ImputedShape(t: Table)
    requires WellFormed(t)
    ensures Imputed(t).columns == t.columns && WellFormed(Imputed(t))
  {
  }

  /** A relation among columns that only the labelling writes, once it holds, holds in the cleaned table. */
  lemma HoldsCleaned(raw: Table, cs: seq<string>, R: seq<Cell> -> bool)
    requires CleanableInput(raw) && Holds(Prepared(raw), cs, R)
    requires forall v :: R(v) ==> Missing !in v
    requires "fico_score" !in cs && "loan_to_income" !in cs && "issue_d" !in cs
    ensures Holds(Cleaned(raw), cs, R)
  {
    var prepared := Prepared(raw);
    PreparedShape(raw);
    HoldsImputed(prepared, cs, R);
    HoldsDerivedColumns(Imputed(prepared), cs, R);
    HoldsFiltered(Derived(raw), cs, R);
  }

  /** A resolved status beside the label the source derives from it. */
  predicate LabelOk(v: seq<Cell>)
  {
    |v| == 2 && IsResolved(v[0]) && v[1] == DefaultLabel(v[0])
  }

  lemma LabelOkPresent()
    ensures forall v :: LabelOk(v) ==> Missing !in v
  {
    forall v | LabelOk(v)
      ensures Missing !in v
    {
      assert v == [v[0], v[1]];
    }
  }

  /** The label is in place and every row is resolved, right after labelling. */
  lemma LabelledRows(raw: Table)
    ensures Holds(WithLabel(KeepResolved(raw)), ["loan_status", "defaulted"], LabelOk)
  {
    LabelledFrom(KeepResolved(raw));
  }

  /** Labelling a table whose rows are all resolved puts the right label beside every status. */
  lemma LabelledFrom(t: Table)
    requires forall k :: 0 <= k < |t.rows| ==> IsResolved(At(t.rows[k], "loan_status"))
    ensures Holds(WithLabel(t), ["loan_status", "defaulted"], LabelOk)
  {
    var u := WithLabel(t);
    forall k | 0 <= k < |u.rows|
      ensures LabelOk(Cells(u.rows[k], ["loan_status", "defaulted"]))
    {
      assert At(u.rows[k], "loan_status") == At(t.rows[k], "loan_status");
    }
  }

  lemma LabelOfRow(r: Row)
    requires LabelOk(Cells(r, ["loan_status", "defaulted"]))
    ensures At(r, "loan_status") in [Text("Fully Paid"), Text("Charged Off"), Text("Default")]
    ensures At(r, "defaulted") == if At(r, "loan_status") == Text("Fully Paid") then Num(0.0) else Num(1.0)
  {
    LabelOfResolved(At(r, "loan_status"));
  }

  lemma ProjectedLabels(raw: Table)
    requires CleanableInput(raw)
    ensures Holds(Project(WithLabel(KeepResolved(raw)), KeptColumns), ["loan_status", "defaulted"], LabelOk)
  {
    LabelledRows(raw);
    ProjectKeepsLabels(WithLabel(KeepResolved(raw)));
  }

  /** The allow-list keeps the status and the label, and with them the relation between the two. */
  lemma ProjectKeepsLabels(t: Table)
    requires Holds(t, ["loan_status", "defaulted"], LabelOk)
    requires "loan_status" in t.columns && "defaulted" in t.columns
    ensures Holds(Project(t, KeptColumns), ["loan_status", "defaulted"], LabelOk)
  {
    var cs := ["loan_status", "defaulted"];
    assert KeptColumns[12] == "loan_status" && KeptColumns[27] == "defaulted";
    assert forall d :: d in cs ==> d in KeptColumns && d in t.columns;
    HoldsProject(t, KeptColumns, cs, LabelOk);
  }

  lemma PreparedLabels(raw: Table)
    requires CleanableInput(raw)
    ensures Holds(Prepared(raw), ["loan_status", "defaulted"], LabelOk)
  {
    var t := Project(WithLabel(KeepResolved(raw)), KeptColumns);
    ProjectedLabels(raw);
    LabelColumnsNotConverted();
    HoldsConverted(t, ["loan_status", "defaulted"], LabelOk);
  }

  lemma LabelColumnsNotConverted()
    ensures var cs := ["loan_status", "defaulted"];
      "int_rate" !in cs && "revol_util" !in cs && "term" !in cs && "emp_length" !in cs
  {
  }

  /**
   * Every row of the cleaned table has a resolved loan status, so a loan
   * with any other status is gone, and its label is 1 exactly for
   * "Charged Off" and "Default" and 0 for "Fully Paid".
   */
  lemma CleanedLabels(raw: Table)
    requires CleanableInput(raw)
    ensures forall k :: 0 <= k < |Cleaned(raw).rows| ==>
      var r := Cleaned(raw).rows[k];
      && At(r, "loan_status") in [Text("Fully Paid"), Text("Charged Off"), Text("Default")]
      && At(r, "defaulted") == if At(r, "loan_status") == Text("Fully Paid") then Num(0.0) else Num(1.0)
  {
    CleanedLabelsHold(raw);
    LabelsOfRows(Cleaned(raw));
  }

  lemma CleanedLabelsHold(raw: Table)
    requires CleanableInput(raw)
    ensures Holds(Cleaned(raw), ["loan_status", "defaulted"], LabelOk)
  {
    PreparedLabels(raw);
    LabelOkPresent();
    LabelColumnsNotDerived();
    HoldsCleaned(raw, ["loan_status", "defaulted"], LabelOk);
  }

  lemma LabelColumnsNotDerived()
    ensures var cs := ["loan_status", "defaulted"];
      "fico_score" !in cs && "loan_to_income" !in cs && "issue_d" !in cs
  {
  }

  lemma LabelsOfRows(t: Table)
    requires Holds(t, ["loan_status", "defaulted"], LabelOk)
    ensures forall k :: 0 <= k < |t.rows| ==>
      var r := t.rows[k];
      && At(r, "loan_status") in [Text("Fully Paid"), Text("Charged Off"), Text("Default")]
      && At(r, "defaulted") == if At(r, "loan_status") == Text("Fully Paid") then Num(0.0) else Num(1.0)
  {
    forall k | 0 <= k < |t.rows|
      ensures var r := t.rows[k];
        && At(r, "loan_status") in [Text("Fully Paid"), Text("Charged Off"), Text("Default")]
        && At(r, "defaulted") == if At(r, "loan_status") == Text("Fully Paid") then Num(0.0) else Num(1.0)
    {
      LabelOfRow(t.rows[k]);
    }
  }

  /** An income strictly between 0 and the cap, which exists. */
  predicate IncomeWithin(v: seq<Cell>, cap: Option<real>)
  {
    |v| == 1 && cap.Some? && v[0].Num? && 0.0 < v[0].x < cap.value
  }

  predicate DtiWithin(v: seq<Cell>)
  {
    |v| == 1 && v[0].Num? && v[0].x < 100.0
  }

  lemma IncomeFilterKeeps(t: Table)
    requires "annual_inc" in t.columns
    ensures Holds(WithoutIncomeOutliers(t), ["annual_inc"], (v: seq<Cell>) => IncomeWithin(v, IncomeCap(t)))
  {
  }

  lemma DtiFilterKeeps(t: Table)
    requires "dti" in t.columns
    ensures Holds(Rewrite(WithoutDtiOutliers(t), "issue_d", IssueDate), ["dti"], DtiWithin)
  {
    HoldsRewrite(WithoutDtiOutliers(t), "issue_d", IssueDate, ["dti"], DtiWithin);
  }

  /** The columns an input column of the allow-list reaches the last steps with. */
  lemma DerivedHas(raw: Table, c: string)
    requires CleanableInput(raw) && c in KeptColumns && c in raw.columns
    ensures c in Derived(raw).columns && WellFormed(Derived(raw))
  {
    DerivedColumnNames(raw);
  }

  /** The income bounds, from the income filter to the end. */
  lemma IncomeToEnd(t: Table, out: Table, cap: Option<real>)
    requires "annual_inc" in t.columns && cap == IncomeCap(t)
    requires out == Rewrite(WithoutDtiOutliers(WithoutIncomeOutliers(t)), "issue_d", IssueDate)
    ensures forall k :: 0 <= k < |out.rows| ==> IncomeWithin(Cells(out.rows[k], ["annual_inc"]), cap)
  {
    var R := (v: seq<Cell>) => IncomeWithin(v, cap);
    IncomeFilterKeeps(t);
    HoldsDtiAndDate(WithoutIncomeOutliers(t), ["annual_inc"], R);
  }

  /** The dti bound, from the dti filter to the end. */
  lemma DtiToEnd(t: Table)
    requires "dti" in t.columns
    ensures var out := Rewrite(WithoutDtiOutliers(WithoutIncomeOutliers(t)), "issue_d", IssueDate);
      forall k :: 0 <= k < |out.rows| ==> At(out.rows[k], "dti").Num? && At(out.rows[k], "dti").x < 100.0
  {
    var incomeOk := WithoutIncomeOutliers(t);
    assert incomeOk.columns == t.columns;
    var out := Rewrite(WithoutDtiOutliers(incomeOk), "issue_d", IssueDate);
    DtiFilterKeeps(incomeOk);
    forall k | 0 <= k < |out.rows|
      ensures At(out.rows[k], "dti").Num? && At(out.rows[k], "dti").x < 100.0
    {
      assert DtiWithin(Cells(out.rows[k], ["dti"]));
    }
  }

  /**
   * Every surviving row has an income above 0 and below the 99th
   * percentile of the incomes before either income filter.
   */
  lemma CleanedIncome(raw: Table)
    requires CleanableInput(raw) && "annual_inc" in raw.columns
    ensures forall k :: 0 <= k < |Cleaned(raw).rows| ==>
      var income := At(Cleaned(raw).rows[k], "annual_inc");
      var cap := IncomeCap(Derived(raw));
      cap.Some? && income.Num? && 0.0 < income.x < cap.value
  {
    assert KeptColumns[9] == "annual_inc";
    DerivedHas(raw, "annual_inc");
    var cleaned := Cleaned(raw);
    var cap := IncomeCap(Derived(raw));
    IncomeToEnd(Derived(raw), cleaned, cap);
    forall k | 0 <= k < |cleaned.rows|
      ensures var income := At(cleaned.rows[k], "annual_inc");
        cap.Some? && income.Num? && 0.0 < income.x < cap.value
    {
      assert IncomeWithin(Cells(cleaned.rows[k], ["annual_inc"]), cap);
    }
  }

  /** Every surviving row has a dti below 100. */
  lemma CleanedDti(raw: Table)
    requires CleanableInput(raw) && "dti" in raw.columns
    ensures forall k :: 0 <= k < |Cleaned(raw).rows| ==>
      At(Cleaned(raw).rows[k], "dti").Num? && At(Cleaned(raw).rows[k], "dti").x < 100.0
  {
    assert KeptColumns[15] == "dti";
    DerivedHas(raw, "dti");
    DtiToEnd(Derived(raw));
  }

  /** The FICO midpoint beside the two bounds it comes from. */
  predicate FicoOk(v: seq<Cell>)
  {
    |v| == 3 && v[0] == FicoMidpoint(v[1], v[2])
  }

  /** The loan-to-income ratio beside the amount and the income it comes from. */
  predicate RatioOk(v: seq<Cell>)
  {
    |v| == 3 && v[0] == LoanToIncome(v[1], v[2])
  }

  lemma ImputedHas(raw: Table, c: string)
    requires CleanableInput(raw) && c in KeptColumns && c in raw.columns
    ensures c in Imputed(Prepared(raw)).columns && WellFormed(Imputed(Prepared(raw)))
  {
    PreparedShape(raw);
  }

  lemma FicoDerived(t: Table)
    requires "fico_range_low" in t.columns && "fico_range_high" in t.columns
    ensures Holds(WithLoanToIncome(WithFico(t)), ["fico_score", "fico_range_low", "fico_range_high"], FicoOk)
  {
    var cs := ["fico_score", "fico_range_low", "fico_range_high"];
    var withFico := WithFico(t);
    forall k | 0 <= k < |withFico.rows|
      ensures FicoOk(Cells(withFico.rows[k], cs))
    {
      assert At(withFico.rows[k], "fico_range_low") == At(t.rows[k], "fico_range_low");
      assert At(withFico.rows[k], "fico_range_high") == At(t.rows[k], "fico_range_high");
    }
    if "loan_amnt" in withFico.columns && "annual_inc" in withFico.columns {
      HoldsSetColumn(withFico, "loan_to_income", (r: Row) => LoanToIncome(At(r, "loan_amnt"), At(r, "annual_inc")), cs, FicoOk);
    }
  }

  lemma RatioDerived(t: Table)
    requires "loan_amnt" in t.columns && "annual_inc" in t.columns
    ensures Holds(WithLoanToIncome(WithFico(t)), ["loan_to_income", "loan_amnt", "annual_inc"], RatioOk)
  {
    var withFico := WithFico(t);
    var u := WithLoanToIncome(withFico);
    assert "loan_amnt" in withFico.columns && "annual_inc" in withFico.columns;
    forall k | 0 <= k < |u.rows|
      ensures RatioOk(Cells(u.rows[k], ["loan_to_income", "loan_amnt", "annual_inc"]))
    {
      assert At(u.rows[k], "loan_amnt") == At(withFico.rows[k], "loan_amnt");
      assert At(u.rows[k], "annual_inc") == At(withFico.rows[k], "annual_inc");
    }
  }

  lemma HoldsToEnd(t: Table, out: Table, cs: seq<string>, R: seq<Cell> -> bool)
    requires Holds(t, cs, R) && "issue_d" !in cs
    requires out == Rewrite(WithoutDtiOutliers(WithoutIncomeOutliers(t)), "issue_d", IssueDate)
    ensures forall k :: 0 <= k < |out.rows| ==> R(Cells(out.rows[k], cs))
  {
    HoldsFiltered(t, cs, R);
  }

  lemma DerivedFico(raw: Table)
    requires CleanableInput(raw) && "fico_range_low" in raw.columns && "fico_range_high" in raw.columns
    ensures Holds(Derived(raw), ["fico_score", "fico_range_low", "fico_range_high"], FicoOk)
  {
    assert KeptColumns[17] == "fico_range_low" && KeptColumns[18] == "fico_range_high";
    ImputedHas(raw, "fico_range_low");
    ImputedHas(raw, "fico_range_high");
    FicoDerived(Imputed(Prepared(raw)));
  }

  lemma DerivedRatio(raw: Table)
    requires CleanableInput(raw) && "loan_amnt" in raw.columns && "annual_inc" in raw.columns
    ensures Holds(Derived(raw), ["loan_to_income", "loan_amnt", "annual_inc"], RatioOk)
  {
    assert KeptColumns[1] == "loan_amnt" && KeptColumns[9] == "annual_inc";
    ImputedHas(raw, "loan_amnt");
    ImputedHas(raw, "annual_inc");
    RatioDerived(Imputed(Prepared(raw)));
  }

  lemma IssueDateNotRelated()
    ensures "issue_d" !in ["fico_score", "fico_range_low", "fico_range_high"]
    ensures "issue_d" !in ["loan_to_income", "loan_amnt", "annual_inc"]
  {
  }

  /** Every row's `fico_score` is the midpoint of its two FICO bounds. */
  lemma CleanedFico(raw: Table)
    requires CleanableInput(raw) && "fico_range_low" in raw.columns && "fico_range_high" in raw.columns
    ensures forall k :: 0 <= k < |Cleaned(raw).rows| ==>
      var r := Cleaned(raw).rows[k];
      At(r, "fico_score") == FicoMidpoint(At(r, "fico_range_low"), At(r, "fico_range_high"))
  {
    var cs := ["fico_score", "fico_range_low", "fico_range_high"];
    DerivedFico(raw);
    var cleaned := Cleaned(raw);
    IssueDateNotRelated();
    HoldsToEnd(Derived(raw), cleaned, cs, FicoOk);
    forall k | 0 <= k < |cleaned.rows|
      ensures At(cleaned.rows[k], "fico_score") == FicoMidpoint(At(cleaned.rows[k], "fico_range_low"), At(cleaned.rows[k], "fico_range_high"))
    {
      assert FicoOk(Cells(cleaned.rows[k], cs));
    }
  }

  lemma CleanedRatioRows(raw: Table)
    requires CleanableInput(raw) && "loan_amnt" in raw.columns && "annual_inc" in raw.columns
    ensures forall k :: 0 <= k < |Cleaned(raw).rows| ==>
      RatioOk(Cells(Cleaned(raw).rows[k], ["loan_to_income", "loan_amnt", "annual_inc"]))
  {
    DerivedRatio(raw);
    IssueDateNotRelated();
    HoldsToEnd(Derived(raw), Cleaned(raw), ["loan_to_income", "loan_amnt", "annual_inc"], RatioOk);
  }

  lemma CleanedIncomePositive(raw: Table)
    requires CleanableInput(raw) && "annual_inc" in raw.columns
    ensures forall k :: 0 <= k < |Cleaned(raw).rows| ==>
      At(Cleaned(raw).rows[k], "annual_inc").Num? && At(Cleaned(raw).rows[k], "annual_inc").x > 0.0
  {
    CleanedIncome(raw);
  }

  lemma RatioOfRow(r: Row)
    requires RatioOk(Cells(r, ["loan_to_income", "loan_amnt", "annual_inc"]))
    requires At(r, "annual_inc").Num? && At(r, "annual_inc").x > 0.0
    ensures At(r, "loan_to_income") == LoanToIncome(At(r, "loan_amnt"), At(r, "annual_inc"))
    ensures At(r, "loan_to_income").Num? <==> At(r, "loan_amnt").Num?
  {
  }

  /**
   * Every row's `loan_to_income` is its loan amount divided by its income
   * (LoanToIncome: the ratio times the income is the amount); the income
   * is positive after the filters, so the ratio exists exactly when the
   * amount does.
   */
  lemma CleanedRatio(raw: Table)
    requires CleanableInput(raw) && "loan_amnt" in raw.columns && "annual_inc" in raw.columns
    ensures forall k :: 0 <= k < |Cleaned(raw).rows| ==>
      var r := Cleaned(raw).rows[k];
      && At(r, "loan_to_income") == LoanToIncome(At(r, "loan_amnt"), At(r, "annual_inc"))
      && (At(r, "loan_to_income").Num? <==> At(r, "loan_amnt").Num?)
  {
    CleanedRatioRows(raw);
    CleanedIncomePositive(raw);
    var cleaned := Cleaned(raw);
    forall k | 0 <= k < |cleaned.rows|
      ensures var r := cleaned.rows[k];
        && At(r, "loan_to_income") == LoanToIncome(At(r, "loan_amnt"), At(r, "annual_inc"))
        && (At(r, "loan_to_income").Num? <==> At(r, "loan_amnt").Num?)
    {
      RatioOfRow(cleaned.rows[k]);
    }
  }

  /**
   * A cell after imputation: a present cell is unchanged; a gap in an
   * object column gets a most frequent text of the column, the least
   * among equally frequent ones; a gap in a numeric column gets the
   * column's median, and stays a gap when the column has no number.
   */
  lemma ImputedCell(t: Table, k: nat, c: string)
    requires WellFormed(t) && k < |t.rows| && c in t.columns
    ensures |Imputed(t).rows| == |t.rows|
    ensures At(t.rows[k], c) != Missing ==> At(Imputed(t).rows[k], c) == At(t.rows[k], c)
    ensures At(t.rows[k], c) == Missing && HasText(t.rows, c) ==>
      var filled := At(Imputed(t).rows[k], c);
      && filled.Text? && IsMostFrequent(Texts(t.rows, c), filled.s)
      && forall s :: s in Texts(t.rows, c) && IsMostFrequent(Texts(t.rows, c), s) ==> filled.s == s || LexLess(filled.s, s)
    ensures At(t.rows[k], c) == Missing && !HasText(t.rows, c) ==>
      At(Imputed(t).rows[k], c) == if Numbers(t.rows, c) == [] then Missing else Num(Median(Numbers(t.rows, c)).value)
  {
    assert c in t.rows[k];
    ImputedAt(t, k, c);
    FillForMeaning(t.rows, c);
  }

  /** After imputation a column that holds a number or a text has no gap left. */
  lemma ImputedNoGaps(t: Table, c: string)
    requires WellFormed(t) && c in t.columns
    requires HasText(t.rows, c) || Numbers(t.rows, c) != []
    ensures forall k :: 0 <= k < |Imputed(t).rows| ==> At(Imputed(t).rows[k], c) != Missing
  {
    forall k | 0 <= k < |Imputed(t).rows|
      ensures At(Imputed(t).rows[k], c) != Missing
    {
      ImputedCell(t, k, c);
    }
  }

  /** The outlier filters only delete rows: what is left keeps its values and its order. */
  lemma FiltersOnlyDelete(t: Table)
    ensures WithoutDtiOutliers(WithoutIncomeOutliers(t)).columns == t.columns
    ensures IsSubsequence(WithoutDtiOutliers(WithoutIncomeOutliers(t)).rows, t.rows)
  {
    var incomeOk := WithoutIncomeOutliers(t);
    if "annual_inc" in t.columns {
      var belowCap := Select(t, (r: Row) => BelowCap(r, IncomeCap(t)));
      SubsequenceTransitive(incomeOk.rows, belowCap.rows, t.rows);
    } else {
      SubsequenceReflexive(t.rows);
    }
    if "dti" in incomeOk.columns {
      SubsequenceTransitive(WithoutDtiOutliers(incomeOk).rows, incomeOk.rows, t.rows);
    }
  }

  /**
   * The 99th percentile is at most the largest income, so when the column
   * has any income the income filter drops at least one row: the top one.
   */
  lemma IncomeCapDropsTop(t: Table)
    requires "annual_inc" in t.columns && Numbers(t.rows, "annual_inc") != []
    ensures |WithoutIncomeOutliers(t).rows| < |t.rows|
  {
    var incomes := Numbers(t.rows, "annual_inc");
    var cap := IncomeCap(t);
    QuantileWithin(incomes);
    var j :| 0 <= j < |incomes| && cap.value <= incomes[j];
    assert incomes[j] in incomes;
    var k :| 0 <= k < |t.rows| && At(t.rows[k], "annual_inc") == Num(incomes[j]);
    var keep := (r: Row) => BelowCap(r, cap);
    assert !keep(t.rows[k]);
    FilterDrops(t.rows, keep, k);
    var belowCap := Select(t, keep);
    assert |belowCap.rows| < |t.rows|;
    assert |Select(belowCap, PositiveIncome).rows| <= |belowCap.rows|;
  }

  /**
   * An allow-listed column, not rewritten with numbers, whose texts all sit
   * in unresolved rows while some row is resolved: the status filter leaves
   * an object column with gaps only, where `mode()[0]` raises KeyError, so
   * the table is not cleanable input.
   */
  lemma TextsDroppedRejected(raw: Table, c: string, j: nat)
    requires c in KeptColumns && c !in RecastColumns && HasText(raw.rows, c)
    requires j < |raw.rows| && IsResolved(At(raw.rows[j], "loan_status"))
    requires forall k :: 0 <= k < |raw.rows| && At(raw.rows[k], c).Text? ==> !IsResolved(At(raw.rows[k], "loan_status"))
    ensures !CleanableInput(raw)
  {
    assert !ResolvedText(raw, c);
  }

  /** "Current" is not a resolved status. */
  lemma CurrentUnresolved()
    ensures !IsResolved(Text("Current"))
  {
    assert "Current"[0] != "Default"[0];
  }

  /**
   * For instance a `purpose` text only in a "Current" row, and a gap in a
   * "Fully Paid" row.
   */
  lemma EmptiedObjectColumnRejected(current: Row, paid: Row)
    requires At(current, "loan_status") == Text("Current") && At(current, "purpose") == Text("car")
    requires At(paid, "loan_status") == Text("Fully Paid") && At(paid, "purpose") == Missing
    ensures !CleanableInput(Table(["loan_status", "purpose"], [current, paid]))
  {
    CurrentUnresolved();
    var raw := Table(["loan_status", "purpose"], [current, paid]);
    assert KeptColumns[13] == "purpose";
    assert At(raw.rows[0], "purpose").Text?;
    TextsDroppedRejected(raw, "purpose", 1);
  }
}
