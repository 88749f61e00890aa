/**
 * The formulas of `create_advanced_features` (src/feature_engineering.py),
 * cell by cell and row by row. Arithmetic on a missing cell gives a
 * missing cell and a comparison with one is false, as NaN behaves in
 * pandas; `astype(int)` turns a comparison into the number 1 or 0.
 */
module FeatureRules {
  import opened Wrappers
  import opened Frame
  import opened Stats

  /** `Series.clip(0, 1)` on one value. */
  function Clip01(x: real): (r: real)
    ensures 0.0 <= r <= 1.0
    ensures 0.0 <= x <= 1.0 ==> r == x
    ensures x < 0.0 ==> r == 0.0
    ensures 1.0 < x ==> r == 1.0
  {
    if x < 0.0 then 0.0 else if x > 1.0 then 1.0 else x
  }

  /**
   * `(revol_util / 100.0).clip(0, 1)`: always within [0, 1], and exactly
   * revol_util / 100 for a utilisation between 0 and 100 percent.
   */
  function Utilization(revolUtil: Cell): (u: Cell)
    ensures u.Num? <==> revolUtil.Num?
    ensures u.Num? ==> 0.0 <= u.x <= 1.0
    ensures u.Num? && 0.0 <= revolUtil.x <= 100.0 ==> u.x * 100.0 == revolUtil.x
    ensures u.Num? && revolUtil.x > 100.0 ==> u.x == 1.0
    ensures u.Num? && revolUtil.x < 0.0 ==> u.x == 0.0
  {
    if revolUtil.Num? then Num(Clip01(revolUtil.x / 100.0)) else Missing
  }

  /** `(dti / 100) * 0.6 + credit_utilization * 0.4`. */
  function DebtBurden(dti: Cell, utilization: Cell): (d: Cell)
    ensures d.Num? <==> dti.Num? && utilization.Num?
  {
    if dti.Num? && utilization.Num? then Num(dti.x / 100.0 * 0.6 + utilization.x * 0.4) else Missing
  }

  /** With a dti in [0, 100] and a utilisation in [0, 1] the blend is in [0, 1] and grows with each. */
  lemma DebtBurdenBounds(dti: real, utilization: real, dti2: real, utilization2: real)
    requires 0.0 <= dti <= dti2 <= 100.0 && 0.0 <= utilization <= utilization2 <= 1.0
    ensures 0.0 <= DebtBurden(Num(dti), Num(utilization)).x <= DebtBurden(Num(dti2), Num(utilization2)).x <= 1.0
  {
  }

  /** `x > bound`; false for a missing cell. */
  predicate Exceeds(x: Cell, bound: real)
  {
    x.Num? && x.x > bound
  }

  /** `x >= bound`; false for a missing cell. */
  predicate Reaches(x: Cell, bound: real)
  {
    x.Num? && x.x >= bound
  }

  /** `x < bound`; false for a missing cell. */
  predicate Under(x: Cell, bound: real)
  {
    x.Num? && x.x < bound
  }

  /** `condition.astype(int)`. */
  function Indicator(condition: bool): (f: Cell)
    ensures f == Num(1.0) || f == Num(0.0)
    ensures f == Num(1.0) <==> condition
  {
    if condition then Num(1.0) else Num(0.0)
  }

  /** Two or more delinquencies are some delinquency: `high_delinquency` implies `has_delinquencies`. */
  lemma HighDelinquencyHasDelinquency(delinquencies: Cell)
    requires Indicator(Reaches(delinquencies, 2.0)) == Num(1.0)
    ensures Indicator(Exceeds(delinquencies, 0.0)) == Num(1.0)
  {
  }

  /** `np.log1p` of a number; arithmetic on a missing cell stays missing. */
  function Log1p(log1p: real -> real, x: Cell): (r: Cell)
    ensures r.Num? <==> x.Num?
  {
    if x.Num? then Num(log1p(x.x)) else Missing
  }

  /** `np.log1p(open_acc) * 0.5 + np.log1p(total_acc) * 0.5`. */
  function AccountMix(log1p: real -> real, openAcc: Cell, totalAcc: Cell): (r: Cell)
    ensures r.Num? <==> openAcc.Num? && totalAcc.Num?
  {
    if openAcc.Num? && totalAcc.Num? then Num(log1p(openAcc.x) * 0.5 + log1p(totalAcc.x) * 0.5) else Missing
  }

  const LoanIncomeEdges: seq<real> := [0.0, 0.1, 0.2, 0.3, 0.5, 10.0]
  const FicoEdges: seq<real> := [0.0, 600.0, 650.0, 700.0, 750.0, 850.0]
  const DtiEdges: seq<real> := [0.0, 10.0, 20.0, 30.0, 40.0, 100.0]
  const LoanIncomeLabels: seq<string> := ["very_low", "low", "medium", "high", "very_high"]
  const FicoLabels: seq<string> := ["poor", "fair", "good", "very_good", "excellent"]
  const DtiLabels: seq<string> := ["very_low", "low", "medium", "high", "very_high"]

  predicate Increasing(edges: seq<real>)
  {
    forall i, j :: 0 <= i < j < |edges| ==> edges[i] < edges[j]
  }

  /** The first interval `(edges[j], edges[j + 1]]` with j >= i that holds x. */
  function BinFrom(x: real, edges: seq<real>, i: nat): (j: Option<nat>)
    requires i <= |edges|
    ensures j.Some? ==> i <= j.value && j.value + 1 < |edges| && edges[j.value] < x <= edges[j.value + 1]
    ensures j.None? ==> forall m :: i <= m && m + 1 < |edges| ==> !(edges[m] < x <= edges[m + 1])
    decreases |edges| - i
  {
    if i + 1 >= |edges| then None
    else if edges[i] < x <= edges[i + 1] then Some(i)
    else BinFrom(x, edges, i + 1)
  }

  /** The right-closed interval of `pd.cut(bins=edges)` that holds x, if any. */
  function BinIndex(x: real, edges: seq<real>): (j: Option<nat>)
    requires Increasing(edges)
    ensures j.Some? ==> j.value + 1 < |edges| && edges[j.value] < x <= edges[j.value + 1]
    ensures j.Some? <==> 2 <= |edges| && edges[0] < x <= edges[|edges| - 1]
  {
    var j := BinFrom(x, edges, 0);
    if 2 <= |edges| && edges[0] < x <= edges[|edges| - 1] && j.None? then
      CoveredByBins(x, edges, 0);
      j
    else
      j
  }

  /** A value in `(edges[m], last edge]` lies in one of the intervals from m on. */
  lemma {:induction false} CoveredByBins(x: real, edges: seq<real>, m: nat)
    requires Increasing(edges) && m + 1 < |edges| && edges[m] < x <= edges[|edges| - 1]
    ensures exists j :: m <= j && j + 1 < |edges| && edges[j] < x <= edges[j + 1]
    decreases |edges| - m
  {
    if !(x <= edges[m + 1]) {
      CoveredByBins(x, edges, m + 1);
    }
  }

  /** Binning is monotone: a larger value never lands in a lower bin. */
  lemma BinMonotone(x: real, y: real, edges: seq<real>)
    requires Increasing(edges) && x <= y
    requires BinIndex(x, edges).Some? && BinIndex(y, edges).Some?
    ensures BinIndex(x, edges).value <= BinIndex(y, edges).value
  {
  }

  /** `pd.cut(x, bins=edges, labels=labels)`: the label of the bin, missing outside every bin. */
  function Cut(x: Cell, edges: seq<real>, labels: seq<string>): (r: Cell)
    requires Increasing(edges) && |labels| + 1 == |edges|
    ensures r == Missing || r.Text?
    ensures r.Text? <==> x.Num? && edges[0] < x.x <= edges[|edges| - 1]
    ensures r.Text? ==> exists j :: 0 <= j < |labels| && r.s == labels[j] && edges[j] < x.x <= edges[j + 1]
  {
    if x.Num? then
      match BinIndex(x.x, edges)
      case Some(j) => Text(labels[j])
      case None => Missing
    else Missing
  }

  lemma EdgesIncreasing()
    ensures Increasing(LoanIncomeEdges) && Increasing(FicoEdges) && Increasing(DtiEdges)
  {
  }

  /** `dti` 15 falls in (10, 20], labelled "low"; 10 in (0, 10], "very_low". */
  lemma DtiBinExamples()
    ensures Increasing(DtiEdges)
    ensures Cut(Num(15.0), DtiEdges, DtiLabels) == Text("low")
    ensures Cut(Num(10.0), DtiEdges, DtiLabels) == Text("very_low")
    ensures Cut(Num(0.0), DtiEdges, DtiLabels) == Missing
    ensures Cut(Num(100.5), DtiEdges, DtiLabels) == Missing
  {
    EdgesIncreasing();
    assert BinFrom(15.0, DtiEdges, 0) == Some(1);
    assert BinFrom(10.0, DtiEdges, 0) == Some(0);
  }

  /** `fico_score` 650 falls in (600, 650], "fair"; 650.5 in (650, 700], "good". */
  lemma FicoBinExamples()
    ensures Increasing(FicoEdges)
    ensures Cut(Num(650.0), FicoEdges, FicoLabels) == Text("fair")
    ensures Cut(Num(650.5), FicoEdges, FicoLabels) == Text("good")
    ensures Cut(Num(851.0), FicoEdges, FicoLabels) == Missing
  {
    EdgesIncreasing();
    assert BinFrom(650.0, FicoEdges, 0) == Some(1);
    assert BinFrom(650.5, FicoEdges, 0) == Some(2);
  }

  /** The rates of the rows in grade g (`groupby('grade')['int_rate']`), in row order. */
  function GradeRates(rows: seq<Row>, g: Cell): (rates: seq<real>)
    ensures forall x :: x in rates <==> exists k :: 0 <= k < |rows| && At(rows[k], "grade") == g && At(rows[k], "int_rate") == Num(x)
  {
    if rows == [] then []
    else
      var last := rows[|rows| - 1];
      GradeRates(rows[..|rows| - 1], g)
        + (if At(last, "grade") == g && At(last, "int_rate").Num? then [At(last, "int_rate").x] else [])
  }

  /**
   * `int_rate - groupby('grade')['int_rate'].transform('median')` for a row
   * with this rate and grade: missing when either is missing (a missing
   * grade forms no group).
   */
  function Premium(rate: Cell, grade: Cell, rows: seq<Row>): (p: Cell)
    ensures p.Num? ==> rate.Num? && grade != Missing && GradeRates(rows, grade) != []
    ensures p.Num? ==> p.x == rate.x - Median(GradeRates(rows, grade)).value
  {
    if grade == Missing || !rate.Num? then Missing
    else
      match Median(GradeRates(rows, grade))
      case Some(m) => Num(rate.x - m)
      case None => Missing
  }

  /** The premium of row k of rows. */
  function RatePremium(rows: seq<Row>, k: nat): (p: Cell)
    requires k < |rows|
    ensures p.Num? <==> At(rows[k], "grade") != Missing && At(rows[k], "int_rate").Num?
  {
    var rate := At(rows[k], "int_rate");
    var grade := At(rows[k], "grade");
    assert rate.Num? && grade != Missing ==> rate.x in GradeRates(rows, grade);
    Premium(rate, grade, rows)
  }

  predicate InGrade(r: Row, g: Cell)
  {
    At(r, "grade") == g
  }

  /**
   * Partner of GradeRates: a grade's rates are exactly the numeric rates of
   * the rows in that grade, in row order, each rated row counted once
   * (the group `groupby('grade')['int_rate']` with its NaN dropped).
   */
  lemma {:induction false} GradeRatesAreGroup(rows: seq<Row>, g: Cell)
    ensures GradeRates(rows, g) == Numbers(Filter(rows, (r: Row) => InGrade(r, g)), "int_rate")
  {
    if rows != [] {
      var keep := (r: Row) => InGrade(r, g);
      var init := rows[..|rows| - 1];
      var last := rows[|rows| - 1];
      GradeRatesAreGroup(init, g);
      var keptInit := Filter(init, keep);
      var kept := Filter(rows, keep);
      var rate := if At(last, "int_rate").Num? then [At(last, "int_rate").x] else [];
      if InGrade(last, g) {
        assert kept == keptInit + [last];
        assert kept[..|kept| - 1] == keptInit && kept[|kept| - 1] == last;
        assert Numbers(kept, "int_rate") == Numbers(keptInit, "int_rate") + rate;
        assert GradeRates(rows, g) == GradeRates(init, g) + rate;
      } else {
        assert kept == keptInit;
        assert GradeRates(rows, g) == GradeRates(init, g);
      }
    }
  }

  /** Only the rows of the same grade matter to a premium: dropping the others changes nothing. */
  lemma {:induction false} GradeRatesLocal(rows: seq<Row>, g: Cell)
    ensures GradeRates(Filter(rows, (r: Row) => InGrade(r, g)), g) == GradeRates(rows, g)
  {
    if rows != [] {
      var keep := (r: Row) => InGrade(r, g);
      var init := rows[..|rows| - 1];
      var last := rows[|rows| - 1];
      GradeRatesLocal(init, g);
      var keptInit := Filter(init, keep);
      var kept := Filter(rows, keep);
      assert GradeRates(keptInit, g) == GradeRates(init, g);
      if InGrade(last, g) {
        assert kept == keptInit + [last];
        assert kept[..|kept| - 1] == keptInit;
        assert GradeRates(kept, g) == GradeRates(keptInit, g) + (if At(last, "int_rate").Num? then [At(last, "int_rate").x] else []);
      } else {
        assert kept == keptInit;
        assert GradeRates(rows, g) == GradeRates(init, g);
      }
    }
  }

  lemma PremiumLocal(rate: Cell, grade: Cell, rows: seq<Row>)
    ensures Premium(rate, grade, Filter(rows, (r: Row) => InGrade(r, grade))) == Premium(rate, grade, rows)
  {
    GradeRatesLocal(rows, grade);
  }

  /** Two row lists that agree on grade and rate have the same grade rates. */
  lemma {:induction false} GradeRatesAgree(a: seq<Row>, b: seq<Row>, g: Cell)
    requires |a| == |b|
    requires forall k :: 0 <= k < |a| ==> At(a[k], "grade") == At(b[k], "grade") && At(a[k], "int_rate") == At(b[k], "int_rate")
    ensures GradeRates(a, g) == GradeRates(b, g)
  {
    if a != [] {
      GradeRatesAgree(a[..|a| - 1], b[..|b| - 1], g);
    }
  }

  /** Within a grade a higher rate never gets a lower premium. */
  lemma PremiumMonotone(rows: seq<Row>, i: nat, j: nat)
    requires i < |rows| && j < |rows|
    requires At(rows[i], "grade") == At(rows[j], "grade") != Missing
    requires At(rows[i], "int_rate").Num? && At(rows[j], "int_rate").Num?
    requires At(rows[i], "int_rate").x <= At(rows[j], "int_rate").x
    ensures RatePremium(rows, i).Num? && RatePremium(rows, j).Num?
    ensures RatePremium(rows, i).x <= RatePremium(rows, j).x
  {
  }

  /** At least half of a grade's rated loans have a premium of at most 0, and at least half of at least 0. */
  lemma PremiumHalves(rows: seq<Row>, g: Cell)
    requires g != Missing && GradeRates(rows, g) != []
    ensures var rates := GradeRates(rows, g);
      var m := Median(rates).value;
      2 * CountAtMost(rates, m) >= |rates| && 2 * CountAtLeast(rates, m) >= |rates|
  {
    MedianHalves(GradeRates(rows, g));
  }

  function Points(condition: bool, weight: nat): nat
  {
    if condition then weight else 0
  }

  /**
   * `(fico < 650) * 3 + (dti > 30) * 2 + (delinq > 0) * 2
   * + (bankruptcies > 0) * 4 + (utilization > 0.8) * 2`.
   */
  function RiskScore(fico: Cell, dti: Cell, delinquencies: Cell, bankruptcies: Cell, utilization: Cell): (s: Cell)
    ensures s.Num? && s.x == s.x.Floor as real && 0.0 <= s.x <= 13.0
  {
    var n := Points(Under(fico, 650.0), 3) + Points(Exceeds(dti, 30.0), 2) + Points(Exceeds(delinquencies, 0.0), 2)
      + Points(Exceeds(bankruptcies, 0.0), 4) + Points(Exceeds(utilization, 0.8), 2);
    Num(n as real)
  }

  /** The score is 13 exactly when every condition holds and 0 exactly when none does. */
  lemma RiskScoreExtremes(fico: Cell, dti: Cell, delinquencies: Cell, bankruptcies: Cell, utilization: Cell)
    ensures RiskScore(fico, dti, delinquencies, bankruptcies, utilization) == Num(13.0) <==>
      Under(fico, 650.0) && Exceeds(dti, 30.0) && Exceeds(delinquencies, 0.0) && Exceeds(bankruptcies, 0.0) && Exceeds(utilization, 0.8)
    ensures RiskScore(fico, dti, delinquencies, bankruptcies, utilization) == Num(0.0) <==>
      !Under(fico, 650.0) && !Exceeds(dti, 30.0) && !Exceeds(delinquencies, 0.0) && !Exceeds(bankruptcies, 0.0) && !Exceeds(utilization, 0.8)
  {
  }

  /** The columns `create_advanced_features` writes, in the order it writes them. */
  const NewFeatures: seq<string> := [
    "credit_utilization", "debt_burden_score", "has_delinquencies", "high_delinquency",
    "has_bankruptcy", "high_inquiries", "credit_history_depth", "account_mix_score",
    "loan_income_category", "fico_bin", "dti_bins", "rate_premium", "simple_risk_score",
    "verified", "owns_home", "long_term"]

  function UtilizationOf(r: Row): Cell { Utilization(At(r, "revol_util")) }
  function DebtBurdenOf(r: Row): Cell { DebtBurden(At(r, "dti"), At(r, "credit_utilization")) }
  function HasDelinquenciesOf(r: Row): Cell { Indicator(Exceeds(At(r, "delinq_2yrs"), 0.0)) }
  function HighDelinquencyOf(r: Row): Cell { Indicator(Reaches(At(r, "delinq_2yrs"), 2.0)) }
  function HasBankruptcyOf(r: Row): Cell { Indicator(Exceeds(At(r, "pub_rec_bankruptcies"), 0.0)) }
  function HighInquiriesOf(r: Row): Cell { Indicator(Reaches(At(r, "inq_last_6mths"), 2.0)) }
  function HistoryDepthOf(log1p: real -> real, r: Row): Cell { Log1p(log1p, At(r, "total_acc")) }
  function AccountMixOf(log1p: real -> real, r: Row): Cell { AccountMix(log1p, At(r, "open_acc"), At(r, "total_acc")) }

  /** The `loan_income_category` of a loan-to-income ratio. */
  function LoanIncomeCategory(x: Cell): Cell
  {
    EdgesIncreasing();
    Cut(x, LoanIncomeEdges, LoanIncomeLabels)
  }

  /** The `fico_bin` of a FICO score. */
  function FicoBin(x: Cell): Cell
  {
    EdgesIncreasing();
    Cut(x, FicoEdges, FicoLabels)
  }

  /** The `dti_bins` label of a debt-to-income ratio. */
  function DtiBin(x: Cell): Cell
  {
    EdgesIncreasing();
    Cut(x, DtiEdges, DtiLabels)
  }

  function LoanIncomeCategoryOf(r: Row): Cell { LoanIncomeCategory(At(r, "loan_to_income")) }
  function FicoBinOf(r: Row): Cell { FicoBin(At(r, "fico_score")) }
  function DtiBinOf(r: Row): Cell { DtiBin(At(r, "dti")) }

  function RiskScoreOf(r: Row): Cell
  {
    RiskScore(At(r, "fico_score"), At(r, "dti"), At(r, "delinq_2yrs"), At(r, "pub_rec_bankruptcies"), At(r, "credit_utilization"))
  }

  function VerifiedOf(r: Row): Cell { Indicator(At(r, "verification_status") == Text("Verified")) }
  function OwnsHomeOf(r: Row): Cell { Indicator(At(r, "home_ownership") in [Text("OWN"), Text("MORTGAGE")]) }
  function LongTermOf(r: Row): Cell { Indicator(At(r, "term") == Num(60.0)) }

  /** The utilization and debt burden columns. */
  function RatioColumns(r: Row): Row
  {
    var r1 := r["credit_utilization" := UtilizationOf(r)];
    r1["debt_burden_score" := DebtBurdenOf(r1)]
  }

  /** The delinquency, bankruptcy and inquiry indicators. */
  function FlagColumns(r: Row): Row
  {
    var r1 := r["has_delinquencies" := HasDelinquenciesOf(r)];
    var r2 := r1["high_delinquency" := HighDelinquencyOf(r1)];
    var r3 := r2["has_bankruptcy" := HasBankruptcyOf(r2)];
    r3["high_inquiries" := HighInquiriesOf(r3)]
  }

  /** The history depth and account mix columns. */
  function HistoryColumns(r: Row, log1p: real -> real): Row
  {
    var r1 := r["credit_history_depth" := HistoryDepthOf(log1p, r)];
    r1["account_mix_score" := AccountMixOf(log1p, r1)]
  }

  /** The three binned columns. */
  function BinColumns(r: Row): Row
  {
    var r1 := r["loan_income_category" := LoanIncomeCategoryOf(r)];
    var r2 := r1["fico_bin" := FicoBinOf(r1)];
    r2["dti_bins" := DtiBinOf(r2)]
  }

  /** The rate premium, computed over the whole table, and the risk score. */
  function ScoreColumns(r: Row, premium: Cell): Row
  {
    var r1 := r["rate_premium" := premium];
    r1["simple_risk_score" := RiskScoreOf(r1)]
  }

  /** The verification, home ownership and term indicators. */
  function StatusColumns(r: Row): Row
  {
    var r1 := r["verified" := VerifiedOf(r)];
    var r2 := r1["owns_home" := OwnsHomeOf(r1)];
    r2["long_term" := LongTermOf(r2)]
  }

  /**
   * One row after the sixteen assignments, each reading the row as the
   * assignments before it left it; premium is the row's rate premium,
   * a statistic of the whole table.
   */
  function FeatureRow(r: Row, premium: Cell, log1p: real -> real): Row
  {
    StatusColumns(ScoreColumns(BinColumns(HistoryColumns(FlagColumns(RatioColumns(r)), log1p)), premium))
  }

  /** Row s has the cells of row r outside the given columns. */
  ghost predicate Keeps(r: Row, s: Row, names: set<string>)
  {
    forall c {:trigger At(s, c)} :: c !in names ==> At(s, c) == At(r, c)
  }

  lemma KeptCell(r: Row, s: Row, names: set<string>, c: string)
    requires Keeps(r, s, names) && c !in names
    ensures At(s, c) == At(r, c)
  {
  }

  lemma KeepsTransitive(a: Row, b: Row, c: Row, n1: set<string>, n2: set<string>)
    requires Keeps(a, b, n1) && Keeps(b, c, n2)
    ensures Keeps(a, c, n1 + n2)
  {
  }

  /*
   * What each group of assignments leaves in a row s, in terms of the row
   * r it was given: its own columns hold the formulas and every other
   * column is as it was.
   */

  const RatioNames: set<string> := {"credit_utilization", "debt_burden_score"}

  ghost predicate RatioStep(r: Row, s: Row)
  {
    && At(s, "credit_utilization") == Utilization(At(r, "revol_util"))
    && At(s, "debt_burden_score") == DebtBurden(At(r, "dti"), Utilization(At(r, "revol_util")))
    && Keeps(r, s, RatioNames)
  }

  lemma RatioStepHolds(r: Row)
    ensures RatioStep(r, RatioColumns(r))
  {
  }

  const FlagNames: set<string> := {"has_delinquencies", "high_delinquency", "has_bankruptcy", "high_inquiries"}

  ghost predicate FlagStep(r: Row, s: Row)
  {
    && At(s, "has_delinquencies") == Indicator(Exceeds(At(r, "delinq_2yrs"), 0.0))
    && At(s, "high_delinquency") == Indicator(Reaches(At(r, "delinq_2yrs"), 2.0))
    && At(s, "has_bankruptcy") == Indicator(Exceeds(At(r, "pub_rec_bankruptcies"), 0.0))
    && At(s, "high_inquiries") == Indicator(Reaches(At(r, "inq_last_6mths"), 2.0))
    && Keeps(r, s, FlagNames)
  }

  lemma FlagStepHolds(r: Row)
    ensures FlagStep(r, FlagColumns(r))
  {
  }

  const HistoryNames: set<string> := {"credit_history_depth", "account_mix_score"}

  ghost predicate HistoryStep(r: Row, s: Row, log1p: real -> real)
  {
    && At(s, "credit_history_depth") == Log1p(log1p, At(r, "total_acc"))
    && At(s, "account_mix_score") == AccountMix(log1p, At(r, "open_acc"), At(r, "total_acc"))
    && Keeps(r, s, HistoryNames)
  }

  lemma HistoryStepHolds(r: Row, log1p: real -> real)
    ensures HistoryStep(r, HistoryColumns(r, log1p), log1p)
  {
  }

  const BinNames: set<string> := {"loan_income_category", "fico_bin", "dti_bins"}

  ghost predicate BinStep(r: Row, s: Row)
  {
    && At(s, "loan_income_category") == LoanIncomeCategoryOf(r)
    && At(s, "fico_bin") == FicoBinOf(r)
    && At(s, "dti_bins") == DtiBinOf(r)
    && Keeps(r, s, BinNames)
  }

  lemma BinStepHolds(r: Row)
    ensures BinStep(r, BinColumns(r))
  {
  }

  const ScoreNames: set<string> := {"rate_premium", "simple_risk_score"}

  ghost predicate ScoreStep(r: Row, s: Row, premium: Cell)
  {
    && At(s, "rate_premium") == premium
    && At(s, "simple_risk_score") == RiskScoreOf(r)
    && Keeps(r, s, ScoreNames)
  }

  lemma ScoreStepHolds(r: Row, premium: Cell)
    ensures ScoreStep(r, ScoreColumns(r, premium), premium)
  {
  }

  const StatusNames: set<string> := {"verified", "owns_home", "long_term"}

  ghost predicate StatusStep(r: Row, s: Row)
  {
    && At(s, "verified") == VerifiedOf(r)
    && At(s, "owns_home") == OwnsHomeOf(r)
    && At(s, "long_term") == LongTermOf(r)
    && Keeps(r, s, StatusNames)
  }

  lemma StatusStepHolds(r: Row)
    ensures StatusStep(r, StatusColumns(r))
  {
  }


  lemma RatioKeeps(r: Row)
    ensures Keeps(r, RatioColumns(r), RatioNames)
  {
    RatioStepHolds(r);
  }

  lemma FlagKeeps(r: Row)
    ensures Keeps(r, FlagColumns(r), FlagNames)
  {
    FlagStepHolds(r);
  }

  lemma HistoryKeeps(r: Row, log1p: real -> real)
    ensures Keeps(r, HistoryColumns(r, log1p), HistoryNames)
  {
    HistoryStepHolds(r, log1p);
  }

  lemma BinKeeps(r: Row)
    ensures Keeps(r, BinColumns(r), BinNames)
  {
    BinStepHolds(r);
  }

  lemma ScoreKeeps(r: Row, premium: Cell)
    ensures Keeps(r, ScoreColumns(r, premium), ScoreNames)
  {
    ScoreStepHolds(r, premium);
  }

  lemma StatusKeeps(r: Row)
    ensures Keeps(r, StatusColumns(r), StatusNames)
  {
    StatusStepHolds(r);
  }

  /*
   * Following one column through the six groups: it gets its value in its
   * own group and keeps it through the later ones, and the columns its
   * formula reads are those of the row the groups started from.
   */

  lemma RatiosThrough(r0: Row, r1: Row, r6: Row)
    requires RatioStep(r0, r1) && Keeps(r1, r6, FlagNames + HistoryNames + BinNames + ScoreNames + StatusNames)
    ensures At(r6, "credit_utilization") == Utilization(At(r0, "revol_util"))
    ensures At(r6, "debt_burden_score") == DebtBurden(At(r0, "dti"), Utilization(At(r0, "revol_util")))
  {
    KeptCell(r1, r6, FlagNames + HistoryNames + BinNames + ScoreNames + StatusNames, "credit_utilization");
    KeptCell(r1, r6, FlagNames + HistoryNames + BinNames + ScoreNames + StatusNames, "debt_burden_score");
  }

  lemma FlagsThrough(r0: Row, r1: Row, r2: Row, r6: Row)
    requires Keeps(r0, r1, RatioNames) && FlagStep(r1, r2) && Keeps(r2, r6, HistoryNames + BinNames + ScoreNames + StatusNames)
    ensures At(r6, "has_delinquencies") == Indicator(Exceeds(At(r0, "delinq_2yrs"), 0.0))
    ensures At(r6, "high_delinquency") == Indicator(Reaches(At(r0, "delinq_2yrs"), 2.0))
    ensures At(r6, "has_bankruptcy") == Indicator(Exceeds(At(r0, "pub_rec_bankruptcies"), 0.0))
    ensures At(r6, "high_inquiries") == Indicator(Reaches(At(r0, "inq_last_6mths"), 2.0))
  {
    KeptCell(r2, r6, HistoryNames + BinNames + ScoreNames + StatusNames, "has_delinquencies");
    KeptCell(r2, r6, HistoryNames + BinNames + ScoreNames + StatusNames, "high_delinquency");
    KeptCell(r2, r6, HistoryNames + BinNames + ScoreNames + StatusNames, "has_bankruptcy");
    KeptCell(r2, r6, HistoryNames + BinNames + ScoreNames + StatusNames, "high_inquiries");
    KeptCell(r0, r1, RatioNames, "delinq_2yrs");
    KeptCell(r0, r1, RatioNames, "pub_rec_bankruptcies");
    KeptCell(r0, r1, RatioNames, "inq_last_6mths");
  }

  lemma HistoryThrough(r0: Row, r2: Row, r3: Row, r6: Row, log1p: real -> real)
    requires Keeps(r0, r2, RatioNames + FlagNames) && HistoryStep(r2, r3, log1p) && Keeps(r3, r6, BinNames + ScoreNames + StatusNames)
    ensures At(r6, "credit_history_depth") == Log1p(log1p, At(r0, "total_acc"))
    ensures At(r6, "account_mix_score") == AccountMix(log1p, At(r0, "open_acc"), At(r0, "total_acc"))
  {
    KeptCell(r3, r6, BinNames + ScoreNames + StatusNames, "credit_history_depth");
    KeptCell(r3, r6, BinNames + ScoreNames + StatusNames, "account_mix_score");
    KeptCell(r0, r2, RatioNames + FlagNames, "total_acc");
    KeptCell(r0, r2, RatioNames + FlagNames, "open_acc");
  }

  lemma BinsThrough(r0: Row, r3: Row, r4: Row, r6: Row)
    requires Keeps(r0, r3, RatioNames + FlagNames + HistoryNames) && BinStep(r3, r4) && Keeps(r4, r6, ScoreNames + StatusNames)
    ensures At(r6, "loan_income_category") == LoanIncomeCategory(At(r0, "loan_to_income"))
    ensures At(r6, "fico_bin") == FicoBin(At(r0, "fico_score"))
    ensures At(r6, "dti_bins") == DtiBin(At(r0, "dti"))
  {
    KeptCell(r4, r6, ScoreNames + StatusNames, "loan_income_category");
    KeptCell(r4, r6, ScoreNames + StatusNames, "fico_bin");
    KeptCell(r4, r6, ScoreNames + StatusNames, "dti_bins");
    KeptCell(r0, r3, RatioNames + FlagNames + HistoryNames, "loan_to_income");
    KeptCell(r0, r3, RatioNames + FlagNames + HistoryNames, "fico_score");
    KeptCell(r0, r3, RatioNames + FlagNames + HistoryNames, "dti");
  }

  lemma ScoreThrough(r0: Row, r1: Row, r4: Row, r5: Row, r6: Row, premium: Cell)
    requires RatioStep(r0, r1) && Keeps(r1, r4, FlagNames + HistoryNames + BinNames)
    requires ScoreStep(r4, r5, premium) && Keeps(r5, r6, StatusNames)
    ensures At(r6, "rate_premium") == premium
    ensures At(r6, "simple_risk_score")
      == RiskScore(At(r0, "fico_score"), At(r0, "dti"), At(r0, "delinq_2yrs"), At(r0, "pub_rec_bankruptcies"), Utilization(At(r0, "revol_util")))
  {
    KeptCell(r5, r6, StatusNames, "rate_premium");
    KeptCell(r5, r6, StatusNames, "simple_risk_score");
    KeptCell(r1, r4, FlagNames + HistoryNames + BinNames, "credit_utilization");
    var inputs := ["fico_score", "dti", "delinq_2yrs", "pub_rec_bankruptcies"];
    forall c | c in inputs
      ensures At(r4, c) == At(r0, c)
    {
      KeptCell(r0, r1, RatioNames, c);
      KeptCell(r1, r4, FlagNames + HistoryNames + BinNames, c);
    }
  }

  lemma StatusThrough(r0: Row, r5: Row, r6: Row)
    requires Keeps(r0, r5, RatioNames + FlagNames + HistoryNames + BinNames + ScoreNames) && StatusStep(r5, r6)
    ensures At(r6, "verified") == Indicator(At(r0, "verification_status") == Text("Verified"))
    ensures At(r6, "owns_home") == Indicator(At(r0, "home_ownership") in [Text("OWN"), Text("MORTGAGE")])
    ensures At(r6, "long_term") == Indicator(At(r0, "term") == Num(60.0))
  {
    KeptCell(r0, r5, RatioNames + FlagNames + HistoryNames + BinNames + ScoreNames, "verification_status");
    KeptCell(r0, r5, RatioNames + FlagNames + HistoryNames + BinNames + ScoreNames, "home_ownership");
    KeptCell(r0, r5, RatioNames + FlagNames + HistoryNames + BinNames + ScoreNames, "term");
  }

  /** The groups an earlier group's columns pass through keep them, and the groups before a later one keep its inputs. */
  lemma FeatureRowKeepsAround(r: Row, premium: Cell, log1p: real -> real)
    ensures var r1 := RatioColumns(r);
      var r2 := FlagColumns(r1);
      var r3 := HistoryColumns(r2, log1p);
      var r4 := BinColumns(r3);
      var r5 := ScoreColumns(r4, premium);
      var r6 := StatusColumns(r5);
      && Keeps(r, r2, RatioNames + FlagNames)
      && Keeps(r, r3, RatioNames + FlagNames + HistoryNames)
      && Keeps(r, r5, RatioNames + FlagNames + HistoryNames + BinNames + ScoreNames)
      && Keeps(r1, r4, FlagNames + HistoryNames + BinNames)
      && Keeps(r1, r6, FlagNames + HistoryNames + BinNames + ScoreNames + StatusNames)
      && Keeps(r2, r6, HistoryNames + BinNames + ScoreNames + StatusNames)
      && Keeps(r3, r6, BinNames + ScoreNames + StatusNames)
      && Keeps(r4, r6, ScoreNames + StatusNames)
  {
    var r1 := RatioColumns(r);
    var r2 := FlagColumns(r1);
    var r3 := HistoryColumns(r2, log1p);
    var r4 := BinColumns(r3);
    var r5 := ScoreColumns(r4, premium);
    var r6 := StatusColumns(r5);
    RatioKeeps(r);
    FlagKeeps(r1);
    HistoryKeeps(r2, log1p);
    BinKeeps(r3);
    ScoreKeeps(r4, premium);
    StatusKeeps(r5);
    KeepsTransitive(r, r1, r2, RatioNames, FlagNames);
    KeepsTransitive(r, r2, r3, RatioNames + FlagNames, HistoryNames);
    KeepsTransitive(r, r3, r4, RatioNames + FlagNames + HistoryNames, BinNames);
    KeepsTransitive(r, r4, r5, RatioNames + FlagNames + HistoryNames + BinNames, ScoreNames);
    KeepsTransitive(r1, r2, r3, FlagNames, HistoryNames);
    KeepsTransitive(r1, r3, r4, FlagNames + HistoryNames, BinNames);
    KeepsTransitive(r4, r5, r6, ScoreNames, StatusNames);
    KeepsTransitive(r3, r4, r6, BinNames, ScoreNames + StatusNames);
    KeepsTransitive(r2, r3, r6, HistoryNames, BinNames + ScoreNames + StatusNames);
    KeepsTransitive(r1, r2, r6, FlagNames, HistoryNames + BinNames + ScoreNames + StatusNames);
  }

  /** The names of the sixteen new columns, written out. */
  lemma NewFeaturesMembers(d: string)
    ensures d in NewFeatures <==> (d == "credit_utilization" ||
      d == "debt_burden_score" ||
      d == "has_delinquencies" ||
      d == "high_delinquency" ||
      d == "has_bankruptcy" ||
      d == "high_inquiries" ||
      d == "credit_history_depth" ||
      d == "account_mix_score" ||
      d == "loan_income_category" ||
      d == "fico_bin" ||
      d == "dti_bins" ||
      d == "rate_premium" ||
      d == "simple_risk_score" ||
      d == "verified" ||
      d == "owns_home" ||
      d == "long_term")
  {
  }

  /**
   * One row through create_advanced_features: each new cell as a formula
   * of the cells the row came in with.
   */
  lemma FeatureRowCells(r: Row, premium: Cell, log1p: real -> real)
    ensures var s := FeatureRow(r, premium, log1p);
      && At(s, "credit_utilization") == Utilization(At(r, "revol_util"))
      && At(s, "debt_burden_score") == DebtBurden(At(r, "dti"), Utilization(At(r, "revol_util")))
      && At(s, "has_delinquencies") == Indicator(Exceeds(At(r, "delinq_2yrs"), 0.0))
      && At(s, "high_delinquency") == Indicator(Reaches(At(r, "delinq_2yrs"), 2.0))
      && At(s, "has_bankruptcy") == Indicator(Exceeds(At(r, "pub_rec_bankruptcies"), 0.0))
      && At(s, "high_inquiries") == Indicator(Reaches(At(r, "inq_last_6mths"), 2.0))
      && At(s, "credit_history_depth") == Log1p(log1p, At(r, "total_acc"))
      && At(s, "account_mix_score") == AccountMix(log1p, At(r, "open_acc"), At(r, "total_acc"))
      && At(s, "loan_income_category") == LoanIncomeCategory(At(r, "loan_to_income"))
      && At(s, "fico_bin") == FicoBin(At(r, "fico_score"))
      && At(s, "dti_bins") == DtiBin(At(r, "dti"))
      && At(s, "rate_premium") == premium
      && At(s, "simple_risk_score")
        == RiskScore(At(r, "fico_score"), At(r, "dti"), At(r, "delinq_2yrs"), At(r, "pub_rec_bankruptcies"), Utilization(At(r, "revol_util")))
      && At(s, "verified") == Indicator(At(r, "verification_status") == Text("Verified"))
      && At(s, "owns_home") == Indicator(At(r, "home_ownership") in [Text("OWN"), Text("MORTGAGE")])
      && At(s, "long_term") == Indicator(At(r, "term") == Num(60.0))
  {
    var r1 := RatioColumns(r);
    var r2 := FlagColumns(r1);
    var r3 := HistoryColumns(r2, log1p);
    var r4 := BinColumns(r3);
    var r5 := ScoreColumns(r4, premium);
    var r6 := StatusColumns(r5);
    RatioStepHolds(r);
    FlagStepHolds(r1);
    HistoryStepHolds(r2, log1p);
    BinStepHolds(r3);
    ScoreStepHolds(r4, premium);
    StatusStepHolds(r5);
    FeatureRowKeepsAround(r, premium, log1p);
    RatiosThrough(r, r1, r6);
    FlagsThrough(r, r1, r2, r6);
    HistoryThrough(r, r2, r3, r6, log1p);
    BinsThrough(r, r3, r4, r6);
    ScoreThrough(r, r1, r4, r5, r6, premium);
    StatusThrough(r, r5, r6);
  }

  /** Every cell outside the sixteen new columns comes through unchanged. */
  lemma FeatureRowKeeps(r: Row, premium: Cell, log1p: real -> real, c: string)
    requires c !in NewFeatures
    ensures At(FeatureRow(r, premium, log1p), c) == At(r, c)
  {
    var r1 := RatioColumns(r);
    var r2 := FlagColumns(r1);
    var r3 := HistoryColumns(r2, log1p);
    var r4 := BinColumns(r3);
    var r5 := ScoreColumns(r4, premium);
    var r6 := StatusColumns(r5);
    RatioKeeps(r);
    FlagKeeps(r1);
    HistoryKeeps(r2, log1p);
    BinKeeps(r3);
    ScoreKeeps(r4, premium);
    StatusKeeps(r5);
    NewFeaturesMembers(c);
    assert At(r1, c) == At(r, c);
    assert At(r2, c) == At(r1, c);
    assert At(r3, c) == At(r2, c);
    assert At(r4, c) == At(r3, c);
    assert At(r5, c) == At(r4, c);
    assert At(r6, c) == At(r5, c);
  }

  /** The keys of a row after the assignments: its own and the sixteen new ones. */
  lemma FeatureRowKeys(r: Row, premium: Cell, log1p: real -> real)
    ensures FeatureRow(r, premium, log1p).Keys == r.Keys + set c | c in NewFeatures
  {
  }
}
