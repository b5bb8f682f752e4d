/**
 * The product and weight selection over the loaded sheet: the distinct
 * product names in sorted order, the distinct weights of one product, and
 * the rows that match both choices.
 */
module Selection {
  import opened Wrappers
  import opened Sheet

  /** Python's `<` on strings: lexicographic by code point, a proper prefix first. */
  predicate StrLess(a: string, b: string)
    decreases |a|
  {
    if a == [] then b != []
    else if b == [] then false
    else if a[0] == b[0] then StrLess(a[1..], b[1..])
    else a[0] < b[0]
  }

  lemma {:induction false} StrLessIrreflexive(a: string)
    ensures !StrLess(a, a)
  {
    if a != [] {
      StrLessIrreflexive(a[1..]);
    }
  }

  lemma {:induction false} StrLessTransitive(a: string, b: string, c: string)
    requires StrLess(a, b) && StrLess(b, c)
    ensures StrLess(a, c)
  {
    if a != [] && b != [] && c != [] && a[0] == b[0] && b[0] == c[0] {
      StrLessTransitive(a[1..], b[1..], c[1..]);
    }
  }

  lemma {:induction false} StrLessTotal(a: string, b: string)
    ensures a == b || StrLess(a, b) || StrLess(b, a)
  {
    if a != [] && b != [] && a[0] == b[0] {
      StrLessTotal(a[1..], b[1..]);
      if a[1..] == b[1..] {
        assert a == [a[0]] + a[1..] && b == [b[0]] + b[1..];
      }
    }
  }

  lemma StrLessAsymmetric(a: string, b: string)
    requires StrLess(a, b)
    ensures !StrLess(b, a)
  {
    if StrLess(b, a) {
      StrLessTransitive(a, b, a);
      StrLessIrreflexive(a);
    }
  }

  /** Ascending with no repeats. */
  predicate StrictlySorted(s: seq<string>) {
    forall i, j :: 0 <= i < j < |s| ==> StrLess(s[i], s[j])
  }

  /** Inserts `x` into a strictly sorted sequence unless it is there already. */
  function Insert(x: string, s: seq<string>): (r: seq<string>)
    requires StrictlySorted(s)
    ensures StrictlySorted(r)
    ensures forall y :: y in r <==> y == x || y in s
  {
    if s == [] then [x]
    else if x == s[0] then s
    else if StrLess(x, s[0]) then
      assert forall j :: 0 <= j < |s| ==> StrLess(x, s[j]) by {
        forall j | 0 <= j < |s| ensures StrLess(x, s[j]) {
          if j > 0 { StrLessTransitive(x, s[0], s[j]); }
        }
      }
      [x] + s
    else
      StrLessTotal(x, s[0]);
      var rest := Insert(x, s[1..]);
      assert forall y :: y in rest ==> StrLess(s[0], y) by {
        forall y | y in rest ensures StrLess(s[0], y) {
          if y != x {
            var j :| 0 <= j < |s[1..]| && s[1..][j] == y;
            assert y == s[j + 1];
          }
        }
      }
      assert forall y :: y in s <==> y == s[0] || y in s[1..] by {
        assert s == [s[0]] + s[1..];
      }
      [s[0]] + rest
  }

  /** `sorted(set(xs))`: every value once, ascending. */
  function SortedUnique(xs: seq<string>): (r: seq<string>)
    ensures StrictlySorted(r)
    ensures forall y :: y in r <==> y in xs
  {
    if xs == [] then []
    else
      var init := xs[..|xs| - 1];
      assert xs == init + [xs[|xs| - 1]];
      Insert(xs[|xs| - 1], SortedUnique(init))
  }

  /** Sorted order with no repeats leaves no choice: the set of values fixes the sequence. */
  lemma {:induction false} SortedUniqueDetermined(r1: seq<string>, r2: seq<string>)
    requires StrictlySorted(r1) && StrictlySorted(r2)
    requires forall y :: y in r1 <==> y in r2
    ensures r1 == r2
  {
    if r1 != [] {
      assert r1[0] in r2;
    }
    if r2 != [] {
      assert r2[0] in r1;
    }
    if r1 != [] && r2 != [] {
      var a, b := r1[0], r2[0];
      if a != b {
        assert b in r2 && a in r1;
        var j :| 0 <= j < |r1| && r1[j] == b;
        var k :| 0 <= k < |r2| && r2[k] == a;
        StrLessAsymmetric(a, b);
      }
      forall y ensures y in r1[1..] <==> y in r2[1..] {
        if y in r1[1..] {
          var j :| 1 <= j < |r1| && r1[j] == y;
          assert StrLess(a, y);
          StrLessIrreflexive(a);
          assert y in r2 && y != b;
          assert r2 == [b] + r2[1..];
        }
        if y in r2[1..] {
          var j :| 1 <= j < |r2| && r2[j] == y;
          assert StrLess(b, y);
          StrLessIrreflexive(b);
          assert y in r1 && y != a;
          assert r1 == [a] + r1[1..];
        }
      }
      SortedUniqueDetermined(r1[1..], r2[1..]);
      assert r1 == [a] + r1[1..] && r2 == [b] + r2[1..];
    }
  }

  /** `series.dropna()`: the texts of the cells that are present, in order. */
  function NonNullTexts(cells: seq<Cell>): (r: seq<string>)
    ensures forall t :: t in r <==> Text(t) in cells
  {
    if cells == [] then []
    else
      var init := cells[..|cells| - 1];
      assert cells == init + [cells[|cells| - 1]];
      NonNullTexts(init) + (if cells[|cells| - 1].Text? then [cells[|cells| - 1].text] else [])
  }

  /** `df[column]`. */
  function Column(f: Frame, column: string): (r: Result<seq<Cell>, LookupError>)
    requires WellFormed(f)
    ensures r.Ok? <==> column in f.columns
    ensures r.Ok? ==> |r.value| == |f.rows| && forall i :: 0 <= i < |f.rows| ==> r.value[i] == f.rows[i][column]
    ensures r.Err? ==> r.error == KeyError(column)
  {
    if column !in f.columns then Err(KeyError(column))
    else Ok(seq(|f.rows|, i requires 0 <= i < |f.rows| => f.rows[i][column]))
  }

  /** `sorted(df['Name'].dropna().unique())`. */
  function ProductOptions(f: Frame): (r: Result<seq<string>, LookupError>)
    requires WellFormed(f)
  {
    var names := Column(f, NameColumn);
    if names.Err? then Err(names.error) else Ok(SortedUnique(NonNullTexts(names.value)))
  }

  /** The product names a sheet offers: sorted, each once, exactly the names present in some row. */
  lemma ProductOptionsSpec(f: Frame)
    requires WellFormed(f)
    ensures ProductOptions(f).Err? <==> NameColumn !in f.columns
    ensures ProductOptions(f).Ok? ==>
      StrictlySorted(ProductOptions(f).value) &&
      forall t :: t in ProductOptions(f).value <==> exists i :: 0 <= i < |f.rows| && f.rows[i][NameColumn] == Text(t)
  {
  }

  /** `df[mask]`: the rows for which `keep` holds, in their original order, under the same columns. */
  function Where(f: Frame, keep: Row -> bool): (r: Frame)
    ensures r.columns == f.columns && |r.rows| <= |f.rows|
    ensures WellFormed(f) ==> WellFormed(r)
    decreases |f.rows|
  {
    if f.rows == [] then f
    else
      var n := |f.rows| - 1;
      var prev := Where(Frame(f.columns, f.rows[..n]), keep);
      Frame(f.columns, prev.rows + (if keep(f.rows[n]) then [f.rows[n]] else []))
  }

  /** A row is kept exactly when it is a row of the sheet and the mask holds of it. */
  lemma {:induction false} WhereKeeps(f: Frame, keep: Row -> bool)
    ensures forall row :: row in Where(f, keep).rows <==> row in f.rows && keep(row)
    decreases |f.rows|
  {
    if f.rows != [] {
      var n := |f.rows| - 1;
      WhereKeeps(Frame(f.columns, f.rows[..n]), keep);
      assert f.rows == f.rows[..n] + [f.rows[n]];
    }
  }

  /** The mask works row by row: masking a concatenation concatenates the masked parts, so order is kept. */
  lemma {:induction false} WhereAppend(columns: set<string>, a: seq<Row>, b: seq<Row>, keep: Row -> bool)
    ensures Where(Frame(columns, a + b), keep).rows ==
      Where(Frame(columns, a), keep).rows + Where(Frame(columns, b), keep).rows
  {
    if b == [] {
      assert a + b == a;
    } else {
      var n := |b| - 1;
      assert (a + b)[..|a + b| - 1] == a + b[..n];
      WhereAppend(columns, a, b[..n], keep);
    }
  }

  /** Row `i` contributes itself, if the mask holds of it, between the rows kept before it and after it. */
  lemma WhereAt(f: Frame, keep: Row -> bool, i: nat)
    requires i < |f.rows|
    ensures Where(f, keep).rows ==
      Where(Frame(f.columns, f.rows[..i]), keep).rows +
      (if keep(f.rows[i]) then [f.rows[i]] else []) +
      Where(Frame(f.columns, f.rows[i + 1..]), keep).rows
  {
    var rows := f.rows;
    assert rows == rows[..i] + ([rows[i]] + rows[i + 1..]);
    WhereAppend(f.columns, rows[..i], [rows[i]] + rows[i + 1..], keep);
    WhereAppend(f.columns, [rows[i]], rows[i + 1..], keep);
    assert [rows[i]][..0] == [];
  }

  /** pandas `==` against the chosen product: a missing name matches nothing. */
  predicate NameMatches(row: Row, product: Cell) {
    NameColumn in row && CellEq(row[NameColumn], product)
  }

  /** pandas `==` against both choices, combined with `&`. */
  predicate Matches(row: Row, product: Cell, weight: Cell) {
    NameColumn in row && WeightColumn in row &&
    CellEq(row[NameColumn], product) && CellEq(row[WeightColumn], weight)
  }

  /** `sorted(df[df['Name'] == product]['Net Weight'].dropna().unique())`. */
  function ProductWeights(f: Frame, product: Cell): (r: Result<seq<string>, LookupError>)
    requires WellFormed(f)
  {
    if NameColumn !in f.columns then Err(KeyError(NameColumn))
    else
      var named := Where(f, row => NameMatches(row, product));
      var weights := Column(named, WeightColumn);
      if weights.Err? then Err(weights.error) else Ok(SortedUnique(NonNullTexts(weights.value)))
  }

  /** The weights offered for a product: sorted, each once, exactly the weights of its rows. */
  lemma ProductWeightsSpec(f: Frame, product: Cell)
    requires WellFormed(f)
    ensures ProductWeights(f, product).Err? <==> NameColumn !in f.columns || WeightColumn !in f.columns
    ensures ProductWeights(f, product).Ok? ==>
      StrictlySorted(ProductWeights(f, product).value) &&
      forall t :: t in ProductWeights(f, product).value <==>
        exists i :: 0 <= i < |f.rows| && CellEq(f.rows[i][NameColumn], product) && f.rows[i][WeightColumn] == Text(t)
  {
    if NameColumn in f.columns && WeightColumn in f.columns {
      var keep := row => NameMatches(row, product);
      var named := Where(f, keep);
      var weights := Column(named, WeightColumn).value;
      WhereKeeps(f, keep);
      forall t ensures Text(t) in weights <==>
        exists i :: 0 <= i < |f.rows| && CellEq(f.rows[i][NameColumn], product) && f.rows[i][WeightColumn] == Text(t)
      {
        if Text(t) in weights {
          var k :| 0 <= k < |weights| && weights[k] == Text(t);
          assert named.rows[k] in named.rows;
          var i :| 0 <= i < |f.rows| && f.rows[i] == named.rows[k];
        }
        if exists i :: 0 <= i < |f.rows| && CellEq(f.rows[i][NameColumn], product) && f.rows[i][WeightColumn] == Text(t) {
          var i :| 0 <= i < |f.rows| && CellEq(f.rows[i][NameColumn], product) && f.rows[i][WeightColumn] == Text(t);
          assert keep(f.rows[i]);
          assert f.rows[i] in named.rows;
          var k :| 0 <= k < |named.rows| && named.rows[k] == f.rows[i];
          assert weights[k] == Text(t);
        }
      }
    }
  }

  /** `df[(df['Name'] == product) & (df['Net Weight'] == weight)]`. */
  function FilterRows(f: Frame, product: Cell, weight: Cell): (r: Result<Frame, LookupError>)
    requires WellFormed(f)
    ensures r.Err? <==> NameColumn !in f.columns || WeightColumn !in f.columns
    ensures r.Err? ==> r.error == KeyError(if NameColumn !in f.columns then NameColumn else WeightColumn)
    ensures r.Ok? ==> r.value.columns == f.columns && WellFormed(r.value)
  {
    if NameColumn !in f.columns then Err(KeyError(NameColumn))
    else if WeightColumn !in f.columns then Err(KeyError(WeightColumn))
    else Ok(Where(f, row => Matches(row, product, weight)))
  }

  /**
   * The filtered sheet keeps exactly the rows matching both choices, each in
   * its original place relative to the others.
   */
  lemma FilterRowsSpec(f: Frame, product: Cell, weight: Cell)
    requires WellFormed(f)
    requires FilterRows(f, product, weight).Ok?
    ensures var kept := FilterRows(f, product, weight).value.rows;
      (forall row :: row in kept <==> row in f.rows && Matches(row, product, weight)) &&
      (forall i :: 0 <= i < |f.rows| ==>
        kept == Where(Frame(f.columns, f.rows[..i]), row => Matches(row, product, weight)).rows +
          (if Matches(f.rows[i], product, weight) then [f.rows[i]] else []) +
          Where(Frame(f.columns, f.rows[i + 1..]), row => Matches(row, product, weight)).rows)
  {
    var keep := row => Matches(row, product, weight);
    WhereKeeps(f, keep);
    forall i | 0 <= i < |f.rows|
      ensures Where(f, keep).rows ==
        Where(Frame(f.columns, f.rows[..i]), keep).rows +
          (if keep(f.rows[i]) then [f.rows[i]] else []) +
          Where(Frame(f.columns, f.rows[i + 1..]), keep).rows
    {
      WhereAt(f, keep, i);
    }
  }

  /**
   * Choosing a product from the offered names and a weight from the weights
   * offered for it always leaves at least one row to print.
   */
  lemma OfferedChoicesMatch(f: Frame, product: string, weight: string)
    requires WellFormed(f)
    requires ProductWeights(f, Text(product)).Ok? && weight in ProductWeights(f, Text(product)).value
    ensures FilterRows(f, Text(product), Text(weight)).Ok?
    ensures |FilterRows(f, Text(product), Text(weight)).value.rows| > 0
  {
    ProductWeightsSpec(f, Text(product));
    var i :| 0 <= i < |f.rows| && CellEq(f.rows[i][NameColumn], Text(product)) && f.rows[i][WeightColumn] == Text(weight);
    var keep := row => Matches(row, Text(product), Text(weight));
    WhereKeeps(f, keep);
    assert keep(f.rows[i]);
    assert f.rows[i] in FilterRows(f, Text(product), Text(weight)).value.rows;
  }
}
