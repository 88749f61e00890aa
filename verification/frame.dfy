/**
 * A pandas DataFrame reduced to what the cleaner and the feature deriver
 * use: an ordered list of column names and a list of rows, each row a map
 * from column name to cell. A cell is missing (NaN, None or NaT), a number,
 * a text, or a month (a Timestamp on the first day of that month).
 */
module Frame {

  datatype Cell = Missing | Num(x: real) | Text(s: string) | Date(year: nat, month: nat)

  type Row = map<string, Cell>

  datatype Table = Table(columns: seq<string>, rows: seq<Row>)

  /** The cell of a row in a column, missing when the row has no such column. */
  function At(r: Row, c: string): Cell
  {
    if c in r then r[c] else Missing
  }

  predicate Distinct(s: seq<string>)
  {
    forall i, j :: 0 <= i < j < |s| ==> s[i] != s[j]
  }

  /** No name of a is a name of b. */
  predicate Disjoint(a: seq<string>, b: seq<string>)
  {
    forall i, j :: 0 <= i < |a| && 0 <= j < |b| ==> a[i] != b[j]
  }

  /** Two unique-name lists with no name in common join into a unique-name list. */
  lemma DistinctJoin(a: seq<string>, b: seq<string>)
    requires Distinct(a) && Distinct(b) && Disjoint(a, b)
    ensures Distinct(a + b)
  {
    forall i, j | 0 <= i < j < |a + b|
      ensures (a + b)[i] != (a + b)[j]
    {
      if j < |a| {
      } else if i >= |a| {
        assert (a + b)[i] == b[i - |a|] && (a + b)[j] == b[j - |a|];
      } else {
        assert (a + b)[j] == b[j - |a|];
      }
    }
  }

  lemma DisjointJoinLeft(a: seq<string>, b: seq<string>, c: seq<string>)
    requires Disjoint(a, c) && Disjoint(b, c)
    ensures Disjoint(a + b, c)
  {
    forall i, j | 0 <= i < |a + b| && 0 <= j < |c|
      ensures (a + b)[i] != c[j]
    {
      if i >= |a| {
        assert (a + b)[i] == b[i - |a|];
      }
    }
  }

  /** Walking a list without repeats: the next name extends the prefix and is not in it yet. */
  lemma NextOfDistinct(s: seq<string>, i: nat)
    requires Distinct(s) && i < |s|
    ensures s[..i + 1] == s[..i] + [s[i]] && s[i] !in s[..i]
  {
  }

  function ColumnSet(t: Table): set<string>
  {
    set c | c in t.columns
  }

  /** Column names are unique and every row has a cell in exactly the table's columns. */
  predicate WellFormed(t: Table)
  {
    Distinct(t.columns) && forall k :: 0 <= k < |t.rows| ==> t.rows[k].Keys == ColumnSet(t)
  }

  /** The numbers of a column, in row order (what a numeric Series holds once NaN is dropped). */
  function Numbers(rows: seq<Row>, c: string): (xs: seq<real>)
    ensures |xs| <= |rows|
    ensures forall x :: x in xs <==> exists k :: 0 <= k < |rows| && At(rows[k], c) == Num(x)
  {
    if rows == [] then []
    else
      var last := rows[|rows| - 1];
      Numbers(rows[..|rows| - 1], c) + (if At(last, c).Num? then [At(last, c).x] else [])
  }

  /** The texts of a column, in row order. */
  function Texts(rows: seq<Row>, c: string): (ts: seq<string>)
    ensures |ts| <= |rows|
    ensures forall s :: s in ts <==> exists k :: 0 <= k < |rows| && At(rows[k], c) == Text(s)
  {
    if rows == [] then []
    else
      var last := rows[|rows| - 1];
      Texts(rows[..|rows| - 1], c) + (if At(last, c).Text? then [At(last, c).s] else [])
  }

  /** pandas gives a column the object dtype exactly when it holds a text. */
  predicate HasText(rows: seq<Row>, c: string)
  {
    exists k :: 0 <= k < |rows| && At(rows[k], c).Text?
  }

  predicate HasMissing(rows: seq<Row>, c: string)
  {
    exists k :: 0 <= k < |rows| && At(rows[k], c) == Missing
  }

  /** Two row lists that agree on column c have the same numbers and texts in it. */
  lemma {:induction false} SameColumn(a: seq<Row>, b: seq<Row>, c: string)
    requires |a| == |b|
    requires forall k :: 0 <= k < |a| ==> At(a[k], c) == At(b[k], c)
    ensures Numbers(a, c) == Numbers(b, c) && Texts(a, c) == Texts(b, c)
  {
    if a != [] {
      SameColumn(a[..|a| - 1], b[..|b| - 1], c);
    }
  }

  /** Boolean indexing `df[mask]`: the rows that pass, in their original order. */
  function Filter(rows: seq<Row>, keep: Row -> bool): (kept: seq<Row>)
    ensures |kept| <= |rows|
    ensures forall i :: 0 <= i < |kept| ==> keep(kept[i]) && kept[i] in rows
    ensures forall k :: 0 <= k < |rows| && keep(rows[k]) ==> rows[k] in kept
    ensures forall r :: multiset(kept)[r] == if keep(r) then multiset(rows)[r] else 0
  {
    if rows == [] then []
    else
      var init := rows[..|rows| - 1];
      var last := rows[|rows| - 1];
      var rest := Filter(init, keep);
      var tail := if keep(last) then [last] else [];
      assert rows == init + [last];
      assert multiset(rows) == multiset(init) + multiset{last};
      assert multiset(rest + tail) == multiset(rest) + multiset(tail);
      rest + tail
  }

  /** a is b with some elements deleted: the order and the values of what is left are b's. */
  predicate IsSubsequence<T(==)>(a: seq<T>, b: seq<T>)
    decreases |b|
  {
    if a == [] then true
    else if b == [] then false
    else if a[|a| - 1] == b[|b| - 1] then IsSubsequence(a[..|a| - 1], b[..|b| - 1])
    else IsSubsequence(a, b[..|b| - 1])
  }

  /** A row that fails the test is dropped, so the result is shorter. */
  lemma {:induction false} FilterDrops(rows: seq<Row>, keep: Row -> bool, k: nat)
    requires k < |rows| && !keep(rows[k])
    ensures |Filter(rows, keep)| < |rows|
  {
    var init := rows[..|rows| - 1];
    if k < |rows| - 1 {
      FilterDrops(init, keep, k);
    }
  }

  /** Filtering only deletes rows. */
  lemma {:induction false} FilterSubsequence(rows: seq<Row>, keep: Row -> bool)
    ensures IsSubsequence(Filter(rows, keep), rows)
  {
    if rows != [] {
      var init := rows[..|rows| - 1];
      FilterSubsequence(init, keep);
      if !keep(rows[|rows| - 1]) {
        assert Filter(rows, keep) == Filter(init, keep);
        SubsequenceOfLonger(Filter(init, keep), init, rows[|rows| - 1]);
      } else {
        assert Filter(rows, keep)[..|Filter(rows, keep)| - 1] == Filter(init, keep);
      }
    }
  }

  lemma {:induction false} SubsequenceOfLonger<T>(a: seq<T>, b: seq<T>, x: T)
    requires IsSubsequence(a, b)
    ensures IsSubsequence(a, b + [x])
    decreases |b|, 1
  {
    var bx := b + [x];
    assert bx[..|bx| - 1] == b;
    if a != [] && a[|a| - 1] == x {
      SubsequenceDropLast(a, b);
    }
  }

  lemma {:induction false} SubsequenceDropLast<T>(a: seq<T>, b: seq<T>)
    requires a != [] && IsSubsequence(a, b)
    ensures IsSubsequence(a[..|a| - 1], b)
    decreases |b|, 0
  {
    if a[..|a| - 1] != [] {
      if a[|a| - 1] == b[|b| - 1] {
        SubsequenceOfLonger(a[..|a| - 1], b[..|b| - 1], b[|b| - 1]);
        assert b[..|b| - 1] + [b[|b| - 1]] == b;
      } else {
        SubsequenceDropLast(a, b[..|b| - 1]);
        SubsequenceOfLonger(a[..|a| - 1], b[..|b| - 1], b[|b| - 1]);
        assert b[..|b| - 1] + [b[|b| - 1]] == b;
      }
    }
  }

  lemma {:induction false} SubsequenceReflexive<T>(a: seq<T>)
    ensures IsSubsequence(a, a)
  {
    if a != [] {
      SubsequenceReflexive(a[..|a| - 1]);
    }
  }

  /** Deleting rows twice is deleting rows once. */
  lemma {:induction false} SubsequenceTransitive<T>(a: seq<T>, b: seq<T>, c: seq<T>)
    requires IsSubsequence(a, b) && IsSubsequence(b, c)
    ensures IsSubsequence(a, c)
    decreases |c|
  {
    if a != [] {
      var c0 := c[..|c| - 1];
      if b[|b| - 1] == c[|c| - 1] {
        if a[|a| - 1] == b[|b| - 1] {
          SubsequenceTransitive(a[..|a| - 1], b[..|b| - 1], c0);
        } else {
          SubsequenceTransitive(a, b[..|b| - 1], c0);
          SubsequenceOfLonger(a, c0, c[|c| - 1]);
          assert c0 + [c[|c| - 1]] == c;
        }
      } else {
        SubsequenceTransitive(a, b, c0);
        SubsequenceOfLonger(a, c0, c[|c| - 1]);
        assert c0 + [c[|c| - 1]] == c;
      }
    }
  }

  /** The column list after `df[c] = ...`: an existing column keeps its place, a new one goes last. */
  function AddName(columns: seq<string>, c: string): (r: seq<string>)
    ensures c in r && forall d :: d in r <==> d in columns || d == c
    ensures Distinct(columns) ==> Distinct(r)
    ensures |columns| <= |r| <= |columns| + 1
  {
    if c in columns then columns else columns + [c]
  }

  /** The existing columns keep their places. */
  lemma AddNameKeepsPlaces(columns: seq<string>, c: string)
    ensures AddName(columns, c)[..|columns|] == columns
  {
  }

  /** The column list after `df[c] = ...` for each name c of names in turn. */
  function AddNames(columns: seq<string>, names: seq<string>): seq<string>
  {
    if names == [] then columns
    else AddName(AddNames(columns, names[..|names| - 1]), names[|names| - 1])
  }

  /**
   * The names afterwards are the old ones and the assigned ones, the old
   * ones keep their places, and no name appears twice.
   */
  lemma {:induction false} AddNamesFacts(columns: seq<string>, names: seq<string>)
    ensures forall d :: d in AddNames(columns, names) <==> d in columns || d in names
    ensures |columns| <= |AddNames(columns, names)| && AddNames(columns, names)[..|columns|] == columns
    ensures Distinct(columns) ==> Distinct(AddNames(columns, names))
  {
    if names != [] {
      var init := names[..|names| - 1];
      var last := names[|names| - 1];
      assert names == init + [last];
      AddNamesFacts(columns, init);
      var before := AddNames(columns, init);
      AddNameKeepsPlaces(before, last);
      assert AddNames(columns, names)[..|columns|] == AddName(before, last)[..|before|][..|columns|];
    }
  }

  /** Assigning names and then c is assigning names + [c]. */
  lemma AddNamesLast(columns: seq<string>, names: seq<string>, c: string)
    ensures AddNames(columns, names + [c]) == AddName(AddNames(columns, names), c)
  {
    assert (names + [c])[..|names|] == names;
  }

  /** Assigning two, three or four names in one go is assigning them one by one. */
  lemma AddNamesTwo(columns: seq<string>, a: string, b: string)
    ensures AddNames(columns, [a, b]) == AddName(AddName(columns, a), b)
  {
    AddNamesLast(columns, [], a);
    AddNamesLast(columns, [a], b);
  }

  lemma AddNamesThree(columns: seq<string>, a: string, b: string, c: string)
    ensures AddNames(columns, [a, b, c]) == AddName(AddName(AddName(columns, a), b), c)
  {
    AddNamesTwo(columns, a, b);
    AddNamesLast(columns, [a, b], c);
    assert [a, b] + [c] == [a, b, c];
  }

  lemma AddNamesFour(columns: seq<string>, a: string, b: string, c: string, d: string)
    ensures AddNames(columns, [a, b, c, d]) == AddName(AddName(AddName(AddName(columns, a), b), c), d)
  {
    AddNamesThree(columns, a, b, c);
    AddNamesLast(columns, [a, b, c], d);
    assert [a, b, c] + [d] == [a, b, c, d];
  }

  /** Assigning a + b is assigning a, then b. */
  lemma {:induction false} AddNamesJoin(columns: seq<string>, a: seq<string>, b: seq<string>)
    ensures AddNames(columns, a + b) == AddNames(AddNames(columns, a), b)
  {
    if b != [] {
      var init := b[..|b| - 1];
      assert (a + b)[..|a + b| - 1] == a + init;
      AddNamesJoin(columns, a, init);
    } else {
      assert a + b == a;
    }
  }

  /** A Series computed row by row: one value per row, in row order. */
  function ColumnOf(rows: seq<Row>, f: Row -> Cell): (values: seq<Cell>)
    ensures |values| == |rows| && forall k :: 0 <= k < |rows| ==> values[k] == f(rows[k])
  {
    seq(|rows|, k requires 0 <= k < |rows| => f(rows[k]))
  }

  /** `df[c] = values`: row k gets values[k] in column c. */
  function Assigned(t: Table, c: string, values: seq<Cell>): (u: Table)
    requires |values| == |t.rows|
    ensures u.columns == AddName(t.columns, c) && |u.rows| == |t.rows|
    ensures forall k :: 0 <= k < |t.rows| ==> u.rows[k] == t.rows[k][c := values[k]]
  {
    Table(AddName(t.columns, c), seq(|t.rows|, k requires 0 <= k < |t.rows| => t.rows[k][c := values[k]]))
  }

  /** An assignment keeps the names unique and gives every row a cell in the new column. */
  lemma AssignedWellFormed(t: Table, c: string, values: seq<Cell>)
    requires |values| == |t.rows| && WellFormed(t)
    ensures WellFormed(Assigned(t, c, values))
  {
  }

  /** `df[c] = f(row)` for every row. */
  function SetColumn(t: Table, c: string, f: Row -> Cell): (u: Table)
    ensures u.columns == AddName(t.columns, c) && |u.rows| == |t.rows|
    ensures forall k :: 0 <= k < |t.rows| ==> u.rows[k] == t.rows[k][c := f(t.rows[k])]
    ensures WellFormed(t) ==> WellFormed(u)
  {
    if WellFormed(t) then
      AssignedWellFormed(t, c, ColumnOf(t.rows, f));
      Assigned(t, c, ColumnOf(t.rows, f))
    else
      Assigned(t, c, ColumnOf(t.rows, f))
  }

  /** `if c in df.columns: df[c] = g(df[c])`, cell by cell. */
  function Rewrite(t: Table, c: string, g: Cell -> Cell): (u: Table)
    ensures u.columns == t.columns && |u.rows| == |t.rows|
    ensures forall k, d :: 0 <= k < |t.rows| && d != c ==> At(u.rows[k], d) == At(t.rows[k], d)
    ensures forall k :: 0 <= k < |t.rows| ==> At(u.rows[k], c) == if c in t.columns then g(At(t.rows[k], c)) else At(t.rows[k], c)
    ensures WellFormed(t) ==> WellFormed(u)
  {
    if c in t.columns then SetColumn(t, c, (r: Row) => g(At(r, c))) else t
  }

  /** Keeping the rows that pass, with the same columns. */
  function Select(t: Table, keep: Row -> bool): (u: Table)
    ensures u.columns == t.columns && IsSubsequence(u.rows, t.rows) && |u.rows| <= |t.rows|
    ensures forall i :: 0 <= i < |u.rows| ==> keep(u.rows[i]) && u.rows[i] in t.rows
    ensures forall k :: 0 <= k < |t.rows| && keep(t.rows[k]) ==> t.rows[k] in u.rows
    ensures forall r :: multiset(u.rows)[r] == if keep(r) then multiset(t.rows)[r] else 0
    ensures WellFormed(t) ==> WellFormed(u)
  {
    FilterSubsequence(t.rows, keep);
    Table(t.columns, Filter(t.rows, keep))
  }
}
