/**
 * `prepare_modelling_data` (src/feature_engineering.py): the frame the
 * model is fitted on. It keeps the listed numeric features, in their
 * listed order, and replaces each of the three text columns by one
 * indicator column per category except the first in sorted order
 * (`pd.get_dummies(..., drop_first=True)`). The function is pure: the
 * caller's frame is copied, never changed.
 */
module Modelling {
  import opened Wrappers
  import opened Text
  import opened Frame

  /** The numeric columns of the cleaned loans that the model uses. */
  const LoanFeatures: seq<string> := [
    "loan_amnt", "int_rate", "annual_inc", "dti", "fico_score", "delinq_2yrs", "inq_last_6mths",
    "open_acc", "pub_rec", "revol_bal", "revol_util", "total_acc", "mort_acc", "loan_to_income"]

  /** The derived columns that the model uses. */
  const DerivedFeatures: seq<string> := [
    "credit_utilization", "debt_burden_score", "credit_history_depth", "account_mix_score",
    "rate_premium", "simple_risk_score", "has_delinquencies", "high_delinquency", "has_bankruptcy",
    "high_inquiries", "verified", "owns_home", "long_term"]

  /** The numeric features, the label included, in output order. */
  const ModelFeatures: seq<string> := LoanFeatures + DerivedFeatures + ["defaulted"]

  /** The text columns that are one-hot encoded, in output order. */
  const CategoricalFeatures: seq<string> := ["grade", "purpose", "home_ownership"]

  /** Strictly increasing in Python's string order, so also free of repeats. */
  predicate StrictlySorted(s: seq<string>)
  {
    forall i, j :: 0 <= i < j < |s| ==> LexLess(s[i], s[j])
  }

  lemma StrictlySortedDistinct(s: seq<string>)
    requires StrictlySorted(s)
    ensures Distinct(s)
  {
    forall i, j | 0 <= i < j < |s|
      ensures s[i] != s[j]
    {
      LexLessIrreflexive(s[i]);
    }
  }

  /** A text below the head of a sorted list is below all of it. */
  lemma BelowSorted(a: string, s: seq<string>)
    requires StrictlySorted(s) && s != [] && LexLess(a, s[0])
    ensures forall y :: y in s ==> LexLess(a, y)
  {
    forall y | y in s
      ensures LexLess(a, y)
    {
      if y != s[0] {
        LexLessTransitive(a, s[0], y);
      }
    }
  }

  lemma SortedCons(a: string, t: seq<string>)
    requires StrictlySorted(t) && forall y :: y in t ==> LexLess(a, y)
    ensures StrictlySorted([a] + t)
  {
    var s := [a] + t;
    forall i, j | 0 <= i < j < |s|
      ensures LexLess(s[i], s[j])
    {
      assert s[j] == t[j - 1];
      if i > 0 {
        assert s[i] == t[i - 1];
      }
    }
  }

  /** One more text in a sorted list of distinct texts: it goes in its place, once. */
  function InsertText(x: string, s: seq<string>): (r: seq<string>)
    requires StrictlySorted(s)
    ensures StrictlySorted(r)
    ensures forall y :: y in r <==> y == x || y in s
    decreases |s|
  {
    if s == [] then [x]
    else if x == s[0] then s
    else if LexLess(x, s[0]) then
      BelowSorted(x, s);
      SortedCons(x, s);
      [x] + s
    else
      LexLessTotal(x, s[0]);
      var tail := s[1..];
      assert forall y :: y in tail ==> LexLess(s[0], y) by {
        forall y | y in tail
          ensures LexLess(s[0], y)
        {
          var j :| 0 <= j < |tail| && tail[j] == y;
          assert s[j + 1] == y;
        }
      }
      var rest := InsertText(x, tail);
      SortedCons(s[0], rest);
      assert s == [s[0]] + tail;
      [s[0]] + rest
  }

  /** The distinct texts of a column in sorted order: the categories `get_dummies` finds. */
  function Categories(ts: seq<string>): (cats: seq<string>)
    ensures StrictlySorted(cats)
    ensures forall y :: y in cats <==> y in ts
  {
    if ts == [] then []
    else
      var init := ts[..|ts| - 1];
      assert ts == init + [ts[|ts| - 1]];
      InsertText(ts[|ts| - 1], Categories(init))
  }

  /** A list without repeats has as many entries as it has distinct values. */
  lemma {:induction false} DistinctCount(s: seq<string>)
    requires Distinct(s)
    ensures |set y | y in s| == |s|
  {
    if s != [] {
      var init := s[..|s| - 1];
      var last := s[|s| - 1];
      assert Distinct(init);
      DistinctCount(init);
      assert last !in init;
      assert (set y | y in s) == (set y | y in init) + {last};
    }
  }

  /** The least category comes before every other value of the column. */
  lemma BaselineLeast(ts: seq<string>, x: string)
    requires x in ts
    ensures Categories(ts) != []
    ensures x == Categories(ts)[0] || LexLess(Categories(ts)[0], x)
  {
    var cats := Categories(ts);
    var i :| 0 <= i < |cats| && cats[i] == x;
  }

  /** The name of the indicator of one category: prefix, `_`, category. */
  function DummyName(c: string, cat: string): string
  {
    c + "_" + cat
  }

  /** Two categories of one column give two different names. */
  lemma DummyNameInjective(c: string, x: string, y: string)
    ensures DummyName(c, x) == DummyName(c, y) ==> x == y
  {
    assert DummyName(c, x)[|c| + 1..] == x;
    assert DummyName(c, y)[|c| + 1..] == y;
  }

  /** The categories of a text column, from its texts; gaps are not a category. */
  function Levels(rows: seq<Row>, c: string): seq<string>
  {
    Categories(Texts(rows, c))
  }

  /** The categories that get a column: all but the least one (`drop_first=True`). */
  function KeptLevels(rows: seq<Row>, c: string): seq<string>
  {
    var cats := Levels(rows, c);
    if cats == [] then [] else cats[1..]
  }

  /** The indicator column names of one text column, in category order. */
  function DummyNames(c: string, kept: seq<string>): (names: seq<string>)
    ensures |names| == |kept| && forall i :: 0 <= i < |kept| ==> names[i] == DummyName(c, kept[i])
  {
    seq(|kept|, i requires 0 <= i < |kept| => DummyName(c, kept[i]))
  }

  /** The column list of the result: the features, then each text column's indicators. */
  function ModelColumns(rows: seq<Row>): seq<string>
  {
    ModelFeatures
      + DummyNames("grade", KeptLevels(rows, "grade"))
      + DummyNames("purpose", KeptLevels(rows, "purpose"))
      + DummyNames("home_ownership", KeptLevels(rows, "home_ownership"))
  }

  /** One indicator cell: 1 when the row holds that category, 0 otherwise, a gap included. */
  function Indicator(r: Row, c: string, cat: string): Cell
  {
    if At(r, c) == Text(cat) then Num(1.0) else Num(0.0)
  }

  /** The indicator cells of one row for one text column. */
  function Dummies(r: Row, c: string, kept: seq<string>): (m: map<string, Cell>)
    ensures m.Keys == set x | x in kept :: DummyName(c, x)
    ensures forall x :: x in kept ==> m[DummyName(c, x)] == Indicator(r, c, x)
  {
    if kept == [] then map[]
    else
      var init := kept[..|kept| - 1];
      var last := kept[|kept| - 1];
      assert kept == init + [last];
      forall x | x in init
        ensures DummyName(c, x) == DummyName(c, last) ==> x == last
      {
        DummyNameInjective(c, x, last);
      }
      Dummies(r, c, init)[DummyName(c, last) := Indicator(r, c, last)]
  }

  /** The feature cells of one row, copied. */
  function FeatureCells(r: Row): (m: map<string, Cell>)
    ensures m.Keys == set f | f in ModelFeatures
  {
    map f | f in ModelFeatures :: At(r, f)
  }

  /** One row of the result. */
  function ModelRow(r: Row, grades: seq<string>, purposes: seq<string>, homes: seq<string>): Row
  {
    FeatureCells(r)
      + Dummies(r, "grade", grades)
      + Dummies(r, "purpose", purposes)
      + Dummies(r, "home_ownership", homes)
  }

  /** The columns the source selects: a missing one raises KeyError. */
  predicate HasModelColumns(t: Table)
  {
    (forall f :: f in ModelFeatures ==> f in t.columns)
    && forall c :: c in CategoricalFeatures ==> c in t.columns
  }

  /**
   * `prepare_modelling_data`: None when a selected column is missing;
   * otherwise one output row per input row, in order.
   */
  function PrepareModellingData(t: Table): (r: Option<Table>)
    ensures r.Some? <==> HasModelColumns(t)
    ensures r.Some? ==> r.value.columns == ModelColumns(t.rows) && |r.value.rows| == |t.rows|
  {
    if HasModelColumns(t) then
      var grades := KeptLevels(t.rows, "grade");
      var purposes := KeptLevels(t.rows, "purpose");
      var homes := KeptLevels(t.rows, "home_ownership");
      Some(Table(ModelColumns(t.rows),
        seq(|t.rows|, k requires 0 <= k < |t.rows| => ModelRow(t.rows[k], grades, purposes, homes))))
    else None
  }

  /** A name that no indicator can have: indicators start with "gra", "pur" or "hom". */
  predicate UnlikeDummy(f: string)
  {
    |f| >= 3 && f[0] != 'g' && (f[0] == 'p' ==> f[2] != 'r') && (f[0] == 'h' ==> f[1] != 'o')
  }

  lemma LoanFeaturesUnlikeDummy()
    ensures forall f :: f in LoanFeatures ==> UnlikeDummy(f)
  {
  }

  lemma DerivedFeaturesUnlikeDummy()
    ensures forall f :: f in DerivedFeatures ==> UnlikeDummy(f)
  {
  }

  /** No feature name starts the way an indicator name does. */
  lemma FeaturePrefixes()
    ensures forall f :: f in ModelFeatures ==> UnlikeDummy(f)
  {
    LoanFeaturesUnlikeDummy();
    DerivedFeaturesUnlikeDummy();
    assert UnlikeDummy("defaulted");
  }

  /** An indicator never takes a feature's name, so it never overwrites a feature cell. */
  lemma DummyNotFeature(c: string, x: string)
    requires c in CategoricalFeatures
    ensures DummyName(c, x) !in ModelFeatures
  {
    var n := DummyName(c, x);
    assert n[0] == c[0] && n[1] == c[1] && n[2] == c[2];
    if c == "grade" {
      assert n[0] == 'g';
    } else if c == "purpose" {
      assert n[0] == 'p' && n[2] == 'r';
    } else {
      assert c == "home_ownership";
      assert n[0] == 'h' && n[1] == 'o';
    }
    FeaturePrefixes();
    assert !UnlikeDummy(n);
  }

  /** Indicators of two different text columns never share a name. */
  lemma DummyGroupsApart(c: string, d: string, x: string, y: string)
    requires c in CategoricalFeatures && d in CategoricalFeatures && c != d
    ensures DummyName(c, x) != DummyName(d, y)
  {
    assert DummyName(c, x)[0] == c[0] && DummyName(d, y)[0] == d[0];
  }

  /** An indicator of one text column is not a key of another column's indicator cells. */
  lemma DummyNotInOther(r: Row, c: string, x: string, d: string, kept: seq<string>)
    requires c in CategoricalFeatures && d in CategoricalFeatures && c != d
    ensures DummyName(c, x) !in Dummies(r, d, kept)
  {
    if DummyName(c, x) in Dummies(r, d, kept) {
      var y :| y in kept && DummyName(d, y) == DummyName(c, x);
      DummyGroupsApart(c, d, x, y);
    }
  }

  /** A feature is not a key of any indicator cells. */
  lemma FeatureNotDummy(r: Row, f: string, c: string, kept: seq<string>)
    requires f in ModelFeatures && c in CategoricalFeatures
    ensures f !in Dummies(r, c, kept)
  {
    if f in Dummies(r, c, kept) {
      var y :| y in kept && DummyName(c, y) == f;
      DummyNotFeature(c, y);
    }
  }

  /** Every feature cell of a result row is the input row's cell. */
  lemma ModelRowFeatures(r: Row, grades: seq<string>, purposes: seq<string>, homes: seq<string>, f: string)
    requires f in ModelFeatures
    ensures f in ModelRow(r, grades, purposes, homes) && ModelRow(r, grades, purposes, homes)[f] == At(r, f)
  {
    FeatureNotDummy(r, f, "grade", grades);
    FeatureNotDummy(r, f, "purpose", purposes);
    FeatureNotDummy(r, f, "home_ownership", homes);
  }

  /** Every indicator cell of a result row is that category's indicator. */
  lemma ModelRowIndicators(r: Row, grades: seq<string>, purposes: seq<string>, homes: seq<string>, c: string, x: string)
    requires c == "grade" ==> x in grades
    requires c == "purpose" ==> x in purposes
    requires c == "home_ownership" ==> x in homes
    requires c in CategoricalFeatures
    ensures var m := ModelRow(r, grades, purposes, homes);
      DummyName(c, x) in m && m[DummyName(c, x)] == Indicator(r, c, x)
  {
    if c == "grade" {
      GradeIndicator(r, grades, purposes, homes, x);
    } else if c == "purpose" {
      PurposeIndicator(r, grades, purposes, homes, x);
    } else {
      assert Dummies(r, c, homes)[DummyName(c, x)] == Indicator(r, c, x);
    }
  }

  lemma GradeIndicator(r: Row, grades: seq<string>, purposes: seq<string>, homes: seq<string>, x: string)
    requires x in grades
    ensures var m := ModelRow(r, grades, purposes, homes);
      DummyName("grade", x) in m && m[DummyName("grade", x)] == Indicator(r, "grade", x)
  {
    DummyNotInOther(r, "grade", x, "purpose", purposes);
    DummyNotInOther(r, "grade", x, "home_ownership", homes);
  }

  lemma PurposeIndicator(r: Row, grades: seq<string>, purposes: seq<string>, homes: seq<string>, x: string)
    requires x in purposes
    ensures var m := ModelRow(r, grades, purposes, homes);
      DummyName("purpose", x) in m && m[DummyName("purpose", x)] == Indicator(r, "purpose", x)
  {
    DummyNotInOther(r, "purpose", x, "home_ownership", homes);
  }

  /** The 28 features are in the result, each row holding its input row's value. */
  lemma ModelKeepsFeatures(t: Table, k: nat, f: string)
    requires PrepareModellingData(t).Some? && k < |t.rows| && f in ModelFeatures
    ensures var out := PrepareModellingData(t).value;
      f in out.columns && At(out.rows[k], f) == At(t.rows[k], f)
  {
    var grades := KeptLevels(t.rows, "grade");
    var purposes := KeptLevels(t.rows, "purpose");
    var homes := KeptLevels(t.rows, "home_ownership");
    ModelRowFeatures(t.rows[k], grades, purposes, homes, f);
  }

  /**
   * An indicator column `c_x` exists for each encoded category x of c,
   * and a row holds 1 in it exactly when its c is x, 0 otherwise.
   */
  lemma IndicatorMeaning(t: Table, k: nat, c: string, x: string)
    requires PrepareModellingData(t).Some? && k < |t.rows| && c in CategoricalFeatures
    requires x in KeptLevels(t.rows, c)
    ensures var out := PrepareModellingData(t).value;
      && DummyName(c, x) in out.columns
      && At(out.rows[k], DummyName(c, x)) == if At(t.rows[k], c) == Text(x) then Num(1.0) else Num(0.0)
  {
    var grades := KeptLevels(t.rows, "grade");
    var purposes := KeptLevels(t.rows, "purpose");
    var homes := KeptLevels(t.rows, "home_ownership");
    ModelRowIndicators(t.rows[k], grades, purposes, homes, c, x);
    var names := DummyNames(c, KeptLevels(t.rows, c));
    var i :| 0 <= i < |KeptLevels(t.rows, c)| && KeptLevels(t.rows, c)[i] == x;
    assert names[i] == DummyName(c, x);
  }

  /** After the head, a sorted list holds exactly its values above the head. */
  lemma SortedTail(cats: seq<string>, x: string)
    requires StrictlySorted(cats) && cats != []
    ensures x in cats[1..] <==> x in cats && LexLess(cats[0], x)
  {
    if x in cats[1..] {
      var i :| 0 <= i < |cats| - 1 && cats[1..][i] == x;
      assert cats[i + 1] == x;
    }
    if x in cats && LexLess(cats[0], x) {
      LexLessIrreflexive(x);
      var i :| 0 <= i < |cats| && cats[i] == x;
      assert cats[1..][i - 1] == x;
    }
  }

  /** The head of a sorted list is its least value. */
  lemma SortedHead(cats: seq<string>, y: string)
    requires StrictlySorted(cats) && y in cats
    ensures y == cats[0] || LexLess(cats[0], y)
  {
    var i :| 0 <= i < |cats| && cats[i] == y;
  }

  /**
   * The encoded categories of c are exactly the values of c that are not
   * the least: a text of the column with another text below it.
   */
  lemma KeptLevelsMeaning(rows: seq<Row>, c: string, x: string)
    ensures x in KeptLevels(rows, c) <==> x in Texts(rows, c) && exists y :: y in Texts(rows, c) && LexLess(y, x)
  {
    var ts := Texts(rows, c);
    var cats := Levels(rows, c);
    if cats != [] {
      SortedTail(cats, x);
      assert cats[0] in ts;
      if y :| y in ts && LexLess(y, x) {
        SortedHead(cats, y);
        if y != cats[0] {
          LexLessTransitive(cats[0], y, x);
        }
      }
    }
  }

  /** A text column with n distinct values gets n - 1 indicator columns (none when it has no value). */
  lemma IndicatorCount(rows: seq<Row>, c: string)
    ensures var n := |set y | y in Texts(rows, c)|;
      |DummyNames(c, KeptLevels(rows, c))| == if n == 0 then 0 else n - 1
  {
    var cats := Levels(rows, c);
    StrictlySortedDistinct(cats);
    DistinctCount(cats);
    assert (set y | y in cats) == (set y | y in Texts(rows, c));
  }

  /**
   * In each row, at most one indicator of a text column is 1, and all of
   * them are 0 exactly when the row's value is a gap or the column's
   * least value: the dropped baseline.
   */
  lemma OneHot(t: Table, k: nat, c: string)
    requires PrepareModellingData(t).Some? && k < |t.rows| && c in CategoricalFeatures
    ensures var row := PrepareModellingData(t).value.rows[k];
      var kept := KeptLevels(t.rows, c);
      var v := At(t.rows[k], c);
      && (forall x, y :: x in kept && y in kept && At(row, DummyName(c, x)) == Num(1.0) && At(row, DummyName(c, y)) == Num(1.0) ==> x == y)
      && ((forall x :: x in kept ==> At(row, DummyName(c, x)) == Num(0.0))
          <==> !v.Text? || forall y :: y in Texts(t.rows, c) ==> !LexLess(y, v.s))
  {
    var row := PrepareModellingData(t).value.rows[k];
    var kept := KeptLevels(t.rows, c);
    var v := At(t.rows[k], c);
    forall x | x in kept
      ensures At(row, DummyName(c, x)) == if v == Text(x) then Num(1.0) else Num(0.0)
    {
      IndicatorMeaning(t, k, c, x);
    }
    if v.Text? {
      assert v.s in Texts(t.rows, c);
      KeptLevelsMeaning(t.rows, c, v.s);
    }
    OneHotCells(row, c, kept, v, Texts(t.rows, c));
  }

  lemma OneHotCells(row: Row, c: string, kept: seq<string>, v: Cell, ts: seq<string>)
    requires forall x :: x in kept ==> At(row, DummyName(c, x)) == if v == Text(x) then Num(1.0) else Num(0.0)
    requires v.Text? ==> (v.s in kept <==> exists y :: y in ts && LexLess(y, v.s))
    ensures forall x, y :: x in kept && y in kept && At(row, DummyName(c, x)) == Num(1.0) && At(row, DummyName(c, y)) == Num(1.0) ==> x == y
    ensures (forall x :: x in kept ==> At(row, DummyName(c, x)) == Num(0.0))
      <==> !v.Text? || forall y :: y in ts ==> !LexLess(y, v.s)
  {
    if v.Text? && v.s in kept {
      assert At(row, DummyName(c, v.s)) == Num(1.0);
    }
  }

  lemma LoanFeaturesDistinct()
    ensures Distinct(LoanFeatures)
  {
  }

  lemma DerivedFeaturesDistinct()
    ensures Distinct(DerivedFeatures)
  {
  }

  lemma FeatureGroupsDisjoint()
    ensures Disjoint(LoanFeatures, DerivedFeatures)
  {
  }

  lemma LabelNotFeature()
    ensures Disjoint(LoanFeatures + DerivedFeatures, ["defaulted"])
  {
    assert "defaulted" !in LoanFeatures && "defaulted" !in DerivedFeatures;
  }

  /** The 28 features are named once each. */
  lemma ModelFeaturesDistinct()
    ensures Distinct(ModelFeatures)
  {
    LoanFeaturesDistinct();
    DerivedFeaturesDistinct();
    FeatureGroupsDisjoint();
    DistinctJoin(LoanFeatures, DerivedFeatures);
    LabelNotFeature();
    DistinctJoin(LoanFeatures + DerivedFeatures, ["defaulted"]);
  }

  lemma KeptLevelsDistinct(rows: seq<Row>, c: string)
    ensures Distinct(KeptLevels(rows, c))
  {
    var cats := Levels(rows, c);
    if cats != [] {
      assert StrictlySorted(cats[1..]);
      StrictlySortedDistinct(cats[1..]);
    }
  }

  lemma DummyNamesDistinct(c: string, kept: seq<string>)
    requires Distinct(kept)
    ensures Distinct(DummyNames(c, kept))
  {
    forall i, j | 0 <= i < j < |kept|
      ensures DummyName(c, kept[i]) != DummyName(c, kept[j])
    {
      DummyNameInjective(c, kept[i], kept[j]);
    }
  }

  lemma FeaturesApartFromDummies(c: string, kept: seq<string>)
    requires c in CategoricalFeatures
    ensures Disjoint(ModelFeatures, DummyNames(c, kept))
  {
    forall j | 0 <= j < |kept|
      ensures DummyName(c, kept[j]) !in ModelFeatures
    {
      DummyNotFeature(c, kept[j]);
    }
  }

  lemma DummyGroupsDisjoint(c: string, d: string, kc: seq<string>, kd: seq<string>)
    requires c in CategoricalFeatures && d in CategoricalFeatures && c != d
    ensures Disjoint(DummyNames(c, kc), DummyNames(d, kd))
  {
    forall i, j | 0 <= i < |kc| && 0 <= j < |kd|
      ensures DummyName(c, kc[i]) != DummyName(d, kd[j])
    {
      DummyGroupsApart(c, d, kc[i], kd[j]);
    }
  }

  /** The result names each column once. */
  lemma ModelColumnsDistinct(rows: seq<Row>)
    ensures Distinct(ModelColumns(rows))
  {
    var g := DummyNames("grade", KeptLevels(rows, "grade"));
    var p := DummyNames("purpose", KeptLevels(rows, "purpose"));
    var h := DummyNames("home_ownership", KeptLevels(rows, "home_ownership"));
    ModelFeaturesDistinct();
    KeptLevelsDistinct(rows, "grade");
    KeptLevelsDistinct(rows, "purpose");
    KeptLevelsDistinct(rows, "home_ownership");
    DummyNamesDistinct("grade", KeptLevels(rows, "grade"));
    DummyNamesDistinct("purpose", KeptLevels(rows, "purpose"));
    DummyNamesDistinct("home_ownership", KeptLevels(rows, "home_ownership"));
    FeaturesApartFromDummies("grade", KeptLevels(rows, "grade"));
    FeaturesApartFromDummies("purpose", KeptLevels(rows, "purpose"));
    FeaturesApartFromDummies("home_ownership", KeptLevels(rows, "home_ownership"));
    DummyGroupsDisjoint("grade", "purpose", KeptLevels(rows, "grade"), KeptLevels(rows, "purpose"));
    DummyGroupsDisjoint("grade", "home_ownership", KeptLevels(rows, "grade"), KeptLevels(rows, "home_ownership"));
    DummyGroupsDisjoint("purpose", "home_ownership", KeptLevels(rows, "purpose"), KeptLevels(rows, "home_ownership"));
    JoinFourDistinct(ModelFeatures, g, p, h);
  }

  lemma JoinFourDistinct(f: seq<string>, g: seq<string>, p: seq<string>, h: seq<string>)
    requires Distinct(f) && Distinct(g) && Distinct(p) && Distinct(h)
    requires Disjoint(f, g) && Disjoint(f, p) && Disjoint(f, h)
    requires Disjoint(g, p) && Disjoint(g, h) && Disjoint(p, h)
    ensures Distinct(f + g + p + h)
  {
    DistinctJoin(f, g);
    DisjointJoinLeft(f, g, p);
    DistinctJoin(f + g, p);
    DisjointJoinLeft(f, g, h);
    DisjointJoinLeft(f + g, p, h);
    DistinctJoin(f + g + p, h);
  }

  lemma DummyNamesSet(r: Row, c: string, kept: seq<string>)
    ensures Dummies(r, c, kept).Keys == set n | n in DummyNames(c, kept)
  {
    var names := DummyNames(c, kept);
    forall n | n in names
      ensures n in Dummies(r, c, kept)
    {
      var i :| 0 <= i < |names| && names[i] == n;
      assert kept[i] in kept;
    }
    forall x | x in kept
      ensures DummyName(c, x) in names
    {
      var i :| 0 <= i < |kept| && kept[i] == x;
      assert names[i] == DummyName(c, x);
    }
  }

  /** Each result row has a cell in exactly the result's columns. */
  lemma ModelRowKeys(r: Row, rows: seq<Row>)
    ensures var m := ModelRow(r, KeptLevels(rows, "grade"), KeptLevels(rows, "purpose"), KeptLevels(rows, "home_ownership"));
      m.Keys == set n | n in ModelColumns(rows)
  {
    DummyNamesSet(r, "grade", KeptLevels(rows, "grade"));
    DummyNamesSet(r, "purpose", KeptLevels(rows, "purpose"));
    DummyNamesSet(r, "home_ownership", KeptLevels(rows, "home_ownership"));
  }

  /** The result is a well-formed frame whatever the input holds. */
  lemma ModelWellFormed(t: Table)
    requires PrepareModellingData(t).Some?
    ensures WellFormed(PrepareModellingData(t).value)
  {
    var out := PrepareModellingData(t).value;
    ModelColumnsDistinct(t.rows);
    forall k | 0 <= k < |out.rows|
      ensures out.rows[k].Keys == ColumnSet(out)
    {
      ModelRowKeys(t.rows[k], t.rows);
    }
  }
}
