/**
 * `create_advanced_features` (src/feature_engineering.py): a frame object
 * whose columns are assigned one after another, in place, in source order.
 * The result is specified row by row by FeatureRow, and the lemmas state
 * what each new column holds in terms of the row as it came in.
 */
module Features {
  import opened Wrappers
  import opened Frame
  import opened Stats
  import opened FeatureRules

  /** The columns the formulas read. */
  const InputColumns: seq<string> := [
    "revol_util", "dti", "delinq_2yrs", "pub_rec_bankruptcies", "inq_last_6mths", "total_acc",
    "open_acc", "loan_to_income", "fico_score", "grade", "int_rate", "verification_status",
    "home_ownership", "term"]

  /** A cell that `astype(int)` of a comparison can give. */
  predicate IsFlag(x: Cell)
  {
    x == Num(0.0) || x == Num(1.0)
  }

  /** The input columns the formulas do arithmetic or order comparisons on. */
  const NumericInputs: seq<string> := [
    "revol_util", "dti", "delinq_2yrs", "pub_rec_bankruptcies", "inq_last_6mths", "total_acc",
    "open_acc", "loan_to_income", "fico_score", "int_rate"]

  /**
   * What the source needs of the frame: every column it reads exists
   * (KeyError otherwise), and the ones it computes with hold numbers or
   * gaps only (TypeError otherwise).
   */
  predicate FeatureInput(t: Table)
  {
    && WellFormed(t)
    && (forall c :: c in InputColumns ==> c in t.columns)
    && forall k, c :: 0 <= k < |t.rows| && c in NumericInputs ==> At(t.rows[k], c).Num? || At(t.rows[k], c) == Missing
  }

  /** `np.log1p(df['total_acc'])` and the account mix, row by row, for a given log1p. */
  function HistoryDepthWith(log1p: real -> real): Row -> Cell
  {
    (r: Row) => HistoryDepthOf(log1p, r)
  }

  function AccountMixWith(log1p: real -> real): Row -> Cell
  {
    (r: Row) => AccountMixOf(log1p, r)
  }

  /** `df.groupby('grade')['int_rate'].transform('median')` subtracted from `int_rate`. */
  function Premiums(rows: seq<Row>): (values: seq<Cell>)
    ensures |values| == |rows| && forall k :: 0 <= k < |rows| ==> values[k] == RatePremium(rows, k)
  {
    seq(|rows|, k requires 0 <= k < |rows| => RatePremium(rows, k))
  }

  /** The columns each group of assignments writes, in the order it writes them. */
  const RatioOrder: seq<string> := ["credit_utilization", "debt_burden_score"]
  const FlagOrder: seq<string> := ["has_delinquencies", "high_delinquency", "has_bankruptcy", "high_inquiries"]
  const HistoryOrder: seq<string> := ["credit_history_depth", "account_mix_score"]
  const BinOrder: seq<string> := ["loan_income_category", "fico_bin", "dti_bins"]
  const ScoreOrder: seq<string> := ["rate_premium", "simple_risk_score"]
  const StatusOrder: seq<string> := ["verified", "owns_home", "long_term"]

  /** The groups, one after another, are the sixteen new columns in source order. */
  lemma GroupsMakeNewFeatures()
    ensures NewFeatures == RatioOrder + FlagOrder + HistoryOrder + BinOrder + ScoreOrder + StatusOrder
  {
  }

  /** The column list after the sixteen assignments: each new name not already there goes last, in source order. */
  function FeatureColumns(columns: seq<string>): seq<string>
  {
    AddNames(columns, NewFeatures)
  }

  /** Assigning the groups one after another gives the column list of the sixteen assignments. */
  lemma GroupsMakeFeatureColumns(columns: seq<string>)
    ensures FeatureColumns(columns)
         == AddNames(AddNames(AddNames(AddNames(AddNames(AddNames(columns, RatioOrder), FlagOrder), HistoryOrder), BinOrder), ScoreOrder), StatusOrder)
  {
    GroupsMakeNewFeatures();
    var a := RatioOrder + FlagOrder;
    var b := a + HistoryOrder;
    var c := b + BinOrder;
    var d := c + ScoreOrder;
    AddNamesJoin(columns, RatioOrder, FlagOrder);
    AddNamesJoin(columns, a, HistoryOrder);
    AddNamesJoin(columns, b, BinOrder);
    AddNamesJoin(columns, c, ScoreOrder);
    AddNamesJoin(columns, d, StatusOrder);
  }

  /** A name is among the columns after the assignments iff it was before or it is one of the sixteen. */
  lemma FeatureColumnsMembers(columns: seq<string>, d: string)
    ensures d in FeatureColumns(columns) <==> d in columns || d in NewFeatures
  {
    AddNamesFacts(columns, NewFeatures);
  }

  /** The assignments keep the existing columns in place and their names unique. */
  lemma FeatureColumnsShape(columns: seq<string>)
    ensures |columns| <= |FeatureColumns(columns)| && FeatureColumns(columns)[..|columns|] == columns
    ensures Distinct(columns) ==> Distinct(FeatureColumns(columns))
  {
    AddNamesFacts(columns, NewFeatures);
  }

  /** The rows after the assignments: the same rows in the same order, each extended as FeatureRow says. */
  predicate FeatureRows(before: seq<Row>, after: seq<Row>, log1p: real -> real)
  {
    |after| == |before| && forall k {:trigger after[k]} :: 0 <= k < |before| ==> after[k] == FeatureRow(before[k], RatePremium(before, k), log1p)
  }

  /** A pandas DataFrame whose columns are assigned in place. */
  class DataFrame {
    var columns: seq<string>
    var rows: seq<Row>

    function Snapshot(): Table
      reads this
    {
      Table(columns, rows)
    }

    constructor (t: Table)
      ensures Snapshot() == t
    {
      columns := t.columns;
      rows := t.rows;
    }

    /** `df[name] = values`: an existing column is overwritten where it stands, a new one goes last. */
    method Assign(name: string, values: seq<Cell>)
      requires |values| == |rows|
      modifies this
      ensures Snapshot() == Assigned(old(Snapshot()), name, values)
    {
      var before := rows;
      columns := AddName(columns, name);
      rows := seq(|before|, k requires 0 <= k < |before| => before[k][name := values[k]]);
    }

    /** Assigns the utilization and debt burden columns, in source order. */
    method AddRatioColumns()
      modifies this
      ensures columns == AddNames(old(columns), RatioOrder)
      ensures |rows| == |old(rows)| && forall k :: 0 <= k < |old(rows)| ==> rows[k] == RatioColumns(old(rows)[k])
      ensures SameGradesAndRates(rows, old(rows))
    {
      ghost var c0 := columns;
      ghost var s0 := Snapshot();
      assert SameGradesAndRates(s0.rows, s0.rows);
      Assign("credit_utilization", ColumnOf(rows, UtilizationOf));
      ghost var s1 := Snapshot();
      AssignedKeepsGrades(s0, "credit_utilization", ColumnOf(s0.rows, UtilizationOf), s0.rows);
      Assign("debt_burden_score", ColumnOf(rows, DebtBurdenOf));
      ghost var s2 := Snapshot();
      AssignedKeepsGrades(s1, "debt_burden_score", ColumnOf(s1.rows, DebtBurdenOf), s0.rows);
      AddNamesTwo(c0, "credit_utilization", "debt_burden_score");
    }

    /** Assigns the delinquency, bankruptcy and inquiry indicators, in source order. */
    method AddFlagColumns()
      modifies this
      ensures columns == AddNames(old(columns), FlagOrder)
      ensures |rows| == |old(rows)| && forall k :: 0 <= k < |old(rows)| ==> rows[k] == FlagColumns(old(rows)[k])
      ensures SameGradesAndRates(rows, old(rows))
    {
      ghost var c0 := columns;
      ghost var s0 := Snapshot();
      assert SameGradesAndRates(s0.rows, s0.rows);
      Assign("has_delinquencies", ColumnOf(rows, HasDelinquenciesOf));
      ghost var s1 := Snapshot();
      AssignedKeepsGrades(s0, "has_delinquencies", ColumnOf(s0.rows, HasDelinquenciesOf), s0.rows);
      Assign("high_delinquency", ColumnOf(rows, HighDelinquencyOf));
      ghost var s2 := Snapshot();
      AssignedKeepsGrades(s1, "high_delinquency", ColumnOf(s1.rows, HighDelinquencyOf), s0.rows);
      Assign("has_bankruptcy", ColumnOf(rows, HasBankruptcyOf));
      ghost var s3 := Snapshot();
      AssignedKeepsGrades(s2, "has_bankruptcy", ColumnOf(s2.rows, HasBankruptcyOf), s0.rows);
      Assign("high_inquiries", ColumnOf(rows, HighInquiriesOf));
      ghost var s4 := Snapshot();
      AssignedKeepsGrades(s3, "high_inquiries", ColumnOf(s3.rows, HighInquiriesOf), s0.rows);
      AddNamesFour(c0, "has_delinquencies", "high_delinquency", "has_bankruptcy", "high_inquiries");
    }

    /** Assigns the history depth and account mix columns, in source order. */
    method AddHistoryColumns(log1p: real -> real)
      modifies this
      ensures columns == AddNames(old(columns), HistoryOrder)
      ensures |rows| == |old(rows)| && forall k :: 0 <= k < |old(rows)| ==> rows[k] == HistoryColumns(old(rows)[k], log1p)
      ensures SameGradesAndRates(rows, old(rows))
    {
      ghost var c0 := columns;
      ghost var s0 := Snapshot();
      assert SameGradesAndRates(s0.rows, s0.rows);
      Assign("credit_history_depth", ColumnOf(rows, HistoryDepthWith(log1p)));
      ghost var s1 := Snapshot();
      AssignedKeepsGrades(s0, "credit_history_depth", ColumnOf(s0.rows, HistoryDepthWith(log1p)), s0.rows);
      Assign("account_mix_score", ColumnOf(rows, AccountMixWith(log1p)));
      ghost var s2 := Snapshot();
      AssignedKeepsGrades(s1, "account_mix_score", ColumnOf(s1.rows, AccountMixWith(log1p)), s0.rows);
      AddNamesTwo(c0, "credit_history_depth", "account_mix_score");
    }

    /** Assigns the three `pd.cut` columns, in source order. */
    method AddBinColumns()
      modifies this
      ensures columns == AddNames(old(columns), BinOrder)
      ensures |rows| == |old(rows)| && forall k :: 0 <= k < |old(rows)| ==> rows[k] == BinColumns(old(rows)[k])
      ensures SameGradesAndRates(rows, old(rows))
    {
      ghost var c0 := columns;
      ghost var s0 := Snapshot();
      assert SameGradesAndRates(s0.rows, s0.rows);
      Assign("loan_income_category", ColumnOf(rows, LoanIncomeCategoryOf));
      ghost var s1 := Snapshot();
      AssignedKeepsGrades(s0, "loan_income_category", ColumnOf(s0.rows, LoanIncomeCategoryOf), s0.rows);
      Assign("fico_bin", ColumnOf(rows, FicoBinOf));
      ghost var s2 := Snapshot();
      AssignedKeepsGrades(s1, "fico_bin", ColumnOf(s1.rows, FicoBinOf), s0.rows);
      Assign("dti_bins", ColumnOf(rows, DtiBinOf));
      ghost var s3 := Snapshot();
      AssignedKeepsGrades(s2, "dti_bins", ColumnOf(s2.rows, DtiBinOf), s0.rows);
      AddNamesThree(c0, "loan_income_category", "fico_bin", "dti_bins");
    }

    /** Assigns the verification, home ownership and term indicators, in source order. */
    method AddStatusColumns()
      modifies this
      ensures columns == AddNames(old(columns), StatusOrder)
      ensures |rows| == |old(rows)| && forall k :: 0 <= k < |old(rows)| ==> rows[k] == StatusColumns(old(rows)[k])
    {
      ghost var c0 := columns;
      Assign("verified", ColumnOf(rows, VerifiedOf));
      Assign("owns_home", ColumnOf(rows, OwnsHomeOf));
      Assign("long_term", ColumnOf(rows, LongTermOf));
      AddNamesThree(c0, "verified", "owns_home", "long_term");
    }

    /**
     * Assigns `rate_premium`, the rate minus the median rate of the row's
     * grade, and then the risk score; base is the frame as it came in,
     * whose grades and rates this frame still holds.
     */
    method AddScoreColumns(ghost base: seq<Row>)
      requires SameGradesAndRates(rows, base)
      modifies this
      ensures columns == AddNames(old(columns), ScoreOrder)
      ensures |rows| == |old(rows)| && forall k :: 0 <= k < |old(rows)| ==> rows[k] == ScoreColumns(old(rows)[k], RatePremium(base, k))
    {
      ghost var c0 := columns;
      ghost var s0 := rows;
      Assign("rate_premium", Premiums(rows));
      Assign("simple_risk_score", ColumnOf(rows, RiskScoreOf));
      forall k | 0 <= k < |s0|
        ensures RatePremium(s0, k) == RatePremium(base, k)
      {
        PremiumsAgree(s0, base, k);
      }
      AddNamesTwo(c0, "rate_premium", "simple_risk_score");
    }

    /**
     * `create_advanced_features(df)`: sixteen column assignments on this
     * frame, each computed from the frame as the ones before left it.
     */
    method CreateAdvancedFeatures(log1p: real -> real)
      requires FeatureInput(Snapshot())
      modifies this
      ensures columns == FeatureColumns(old(columns))
      ensures FeatureRows(old(rows), rows, log1p)
      ensures WellFormed(Snapshot())
    {
      ghost var before := rows;
      AssignFeatures(log1p);
      FeaturesWellFormed(old(columns), before, rows, log1p);
    }

    /** The assignments themselves, group by group in source order. */
    method AssignFeatures(log1p: real -> real)
      modifies this
      ensures columns == FeatureColumns(old(columns))
      ensures FeatureRows(old(rows), rows, log1p)
    {
      ghost var r0 := rows;
      AddRatioColumns();
      ghost var r1 := rows;
      AddFlagColumns();
      ghost var r2 := rows;
      AddHistoryColumns(log1p);
      ghost var r3 := rows;
      AddBinColumns();
      ghost var r4 := rows;
      GradesTransitive(r4, r3, r2);
      GradesTransitive(r4, r2, r1);
      GradesTransitive(r4, r1, r0);
      AddScoreColumns(r0);
      ghost var r5 := rows;
      AddStatusColumns();
      GroupsMakeFeatureColumns(old(columns));
      GroupsMakeFeatureRows(r0, r1, r2, r3, r4, r5, rows, log1p);
    }
  }

  /** Chaining the column groups row by row gives FeatureRow. */
  lemma GroupsMakeFeatureRows(r0: seq<Row>, r1: seq<Row>, r2: seq<Row>, r3: seq<Row>, r4: seq<Row>, r5: seq<Row>, r6: seq<Row>,
                              log1p: real -> real)
    requires |r1| == |r0| && forall k :: 0 <= k < |r0| ==> r1[k] == RatioColumns(r0[k])
    requires |r2| == |r1| && forall k :: 0 <= k < |r1| ==> r2[k] == FlagColumns(r1[k])
    requires |r3| == |r2| && forall k :: 0 <= k < |r2| ==> r3[k] == HistoryColumns(r2[k], log1p)
    requires |r4| == |r3| && forall k :: 0 <= k < |r3| ==> r4[k] == BinColumns(r3[k])
    requires |r5| == |r4| && forall k :: 0 <= k < |r4| ==> r5[k] == ScoreColumns(r4[k], RatePremium(r0, k))
    requires |r6| == |r5| && forall k :: 0 <= k < |r5| ==> r6[k] == StatusColumns(r5[k])
    ensures FeatureRows(r0, r6, log1p)
  {
  }

  lemma GradesTransitive(a: seq<Row>, b: seq<Row>, c: seq<Row>)
    requires SameGradesAndRates(a, b) && SameGradesAndRates(b, c)
    ensures SameGradesAndRates(a, c)
  {
  }

  /** Row lists that agree on grade and rate, row by row. */
  predicate SameGradesAndRates(a: seq<Row>, b: seq<Row>)
  {
    |a| == |b| && forall k :: 0 <= k < |a| ==> At(a[k], "grade") == At(b[k], "grade") && At(a[k], "int_rate") == At(b[k], "int_rate")
  }

  /** An assignment to another column leaves every row's grade and rate as they were. */
  lemma AssignedKeepsGrades(t: Table, name: string, values: seq<Cell>, base: seq<Row>)
    requires |values| == |t.rows| && name != "grade" && name != "int_rate"
    requires SameGradesAndRates(t.rows, base)
    ensures SameGradesAndRates(Assigned(t, name, values).rows, base)
  {
    var u := Assigned(t, name, values);
    forall k | 0 <= k < |u.rows|
      ensures At(u.rows[k], "grade") == At(base[k], "grade") && At(u.rows[k], "int_rate") == At(base[k], "int_rate")
    {
      assert u.rows[k] == t.rows[k][name := values[k]];
    }
  }

  /** So the grade medians, and with them the premiums, are those of the frame as it came in. */
  lemma PremiumsAgree(a: seq<Row>, b: seq<Row>, k: nat)
    requires SameGradesAndRates(a, b) && k < |a|
    ensures RatePremium(a, k) == RatePremium(b, k)
  {
    GradeRatesAgree(a, b, At(a[k], "grade"));
  }

  /** The assignments add columns and nothing else: the same rows, in the same order, with every other cell as it was. */
  lemma FeaturesOnlyAdd(before: seq<Row>, after: seq<Row>, log1p: real -> real)
    requires FeatureRows(before, after, log1p)
    ensures |after| == |before|
    ensures forall k, c :: 0 <= k < |before| && c !in NewFeatures ==> At(after[k], c) == At(before[k], c)
  {
    forall k, c | 0 <= k < |before| && c !in NewFeatures
      ensures At(after[k], c) == At(before[k], c)
    {
      FeatureRowKeeps(before[k], RatePremium(before, k), log1p, c);
    }
  }

  /** A well-formed frame stays well formed: every row gets a cell in each new column. */
  lemma FeaturesWellFormed(columns: seq<string>, rows: seq<Row>, after: seq<Row>, log1p: real -> real)
    requires WellFormed(Table(columns, rows)) && FeatureRows(rows, after, log1p)
    ensures WellFormed(Table(FeatureColumns(columns), after))
  {
    FeatureColumnsFacts(columns);
    RowsGetNewColumns(Table(columns, rows), FeatureColumns(columns), after, log1p);
  }

  /** The column list after the assignments has unique names: the old ones and the sixteen new ones. */
  lemma FeatureColumnsFacts(columns: seq<string>)
    requires Distinct(columns)
    ensures Distinct(FeatureColumns(columns))
    ensures forall d :: d in FeatureColumns(columns) <==> d in columns || d in NewFeatures
  {
    FeatureColumnsDistinct(columns);
    FeatureColumnsSet(columns);
  }

  lemma FeatureColumnsSet(columns: seq<string>)
    ensures forall d :: d in FeatureColumns(columns) <==> d in columns || d in NewFeatures
  {
    forall d
      ensures d in FeatureColumns(columns) <==> d in columns || d in NewFeatures
    {
      FeatureColumnsMembers(columns, d);
    }
  }

  lemma FeatureColumnsDistinct(columns: seq<string>)
    requires Distinct(columns)
    ensures Distinct(FeatureColumns(columns))
  {
    FeatureColumnsShape(columns);
  }

  lemma RowsGetNewColumns(t: Table, columns: seq<string>, after: seq<Row>, log1p: real -> real)
    requires WellFormed(t) && FeatureRows(t.rows, after, log1p)
    requires Distinct(columns) && forall d :: d in columns <==> d in t.columns || d in NewFeatures
    ensures WellFormed(Table(columns, after))
  {
    var u := Table(columns, after);
    forall k | 0 <= k < |after|
      ensures after[k].Keys == ColumnSet(u)
    {
      FeatureRowColumns(t.rows[k], t, u, RatePremium(t.rows, k), log1p);
    }
  }

  /** A row with a cell in exactly t's columns gets one in exactly the columns after the assignments. */
  lemma FeatureRowColumns(r: Row, t: Table, u: Table, premium: Cell, log1p: real -> real)
    requires r.Keys == ColumnSet(t) && forall d :: d in u.columns <==> d in t.columns || d in NewFeatures
    ensures FeatureRow(r, premium, log1p).Keys == ColumnSet(u)
  {
    FeatureRowKeys(r, premium, log1p);
  }

  /**
   * What each row of the result guarantees: a utilisation within [0, 1],
   * indicators that are 0 or 1 with `high_delinquency` only where
   * `has_delinquencies`, a whole risk score from 0 to 13, and a premium
   * that is the row's rate minus the median rate of its grade.
   */
  lemma FeatureGuarantees(before: seq<Row>, after: seq<Row>, log1p: real -> real, k: nat)
    requires FeatureRows(before, after, log1p) && k < |before|
    ensures var u := At(after[k], "credit_utilization");
      (u.Num? <==> At(before[k], "revol_util").Num?) && (u.Num? ==> 0.0 <= u.x <= 1.0)
    ensures var r := after[k];
      && IsFlag(At(r, "has_delinquencies")) && IsFlag(At(r, "high_delinquency")) && IsFlag(At(r, "has_bankruptcy"))
      && IsFlag(At(r, "high_inquiries")) && IsFlag(At(r, "verified")) && IsFlag(At(r, "owns_home")) && IsFlag(At(r, "long_term"))
    ensures At(after[k], "high_delinquency") == Num(1.0) ==> At(after[k], "has_delinquencies") == Num(1.0)
    ensures var s := At(after[k], "simple_risk_score"); s.Num? && s.x == s.x.Floor as real && 0.0 <= s.x <= 13.0
    ensures var p := At(after[k], "rate_premium"); var g := At(before[k], "grade");
      && (p.Num? <==> g != Missing && At(before[k], "int_rate").Num?)
      && (p.Num? ==> GradeRates(before, g) != [] && p.x == At(before[k], "int_rate").x - Median(GradeRates(before, g)).value)
  {
    FeatureRowCells(before[k], RatePremium(before, k), log1p);
  }
}
