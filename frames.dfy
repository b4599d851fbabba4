/** The tabular values the services pass around: cells, columns and frames
    (a pandas DataFrame as the services use it), and the insertion-ordered
    dictionaries the service builds (schemas, result rows). */
module Frames {
  import opened Common

  /** One scalar of a table. `Num` carries the text that `astype(str)` gives
      the number, because that text is what the date patterns are matched
      against and number formatting is not part of this model. */
  datatype Cell = Null | Num(x: real, shown: string) | Str(s: string)

  /** A column of a frame; `numeric` is pandas' verdict that the column's
      dtype is a number dtype (`select_dtypes(include='number')`). */
  datatype Column = Column(name: string, numeric: bool, cells: seq<Cell>)

  /** A data frame: its columns in order and its number of rows (`len(df)`). */
  datatype Frame = Frame(columns: seq<Column>, rows: nat)

  predicate Distinct<T(==)>(s: seq<T>) {
    forall i, j :: 0 <= i < j < |s| ==> s[i] != s[j]
  }

  function ColumnNames(cols: seq<Column>): (r: seq<string>)
    ensures |r| == |cols| && forall i :: 0 <= i < |cols| ==> r[i] == cols[i].name
  {
    seq(|cols|, i requires 0 <= i < |cols| => cols[i].name)
  }

  /** What every frame built by pandas satisfies: one cell per row in every
      column, no text in a numeric column, and column names that differ. */
  predicate WellFormed(f: Frame) {
    && (forall i :: 0 <= i < |f.columns| ==> |f.columns[i].cells| == f.rows)
    && (forall i, k :: 0 <= i < |f.columns| && 0 <= k < |f.columns[i].cells| && f.columns[i].numeric ==>
          !f.columns[i].cells[k].Str?)
    && Distinct(ColumnNames(f.columns))
  }

  /** `df.empty`: no rows or no columns. */
  predicate IsEmpty(f: Frame) {
    f.rows == 0 || |f.columns| == 0
  }

  /** `df.select_dtypes(include='number').columns`, in frame order. */
  function NumericColumns(cols: seq<Column>): (r: seq<Column>)
    ensures |r| <= |cols|
    ensures forall i :: 0 <= i < |r| ==> r[i].numeric && r[i] in cols
    decreases |cols|
  {
    if |cols| == 0 then []
    else NumericColumns(cols[..|cols| - 1]) + (if cols[|cols| - 1].numeric then [cols[|cols| - 1]] else [])
  }

  /** The columns that are not numeric, in frame order. */
  function NonNumericColumns(cols: seq<Column>): (r: seq<Column>)
    ensures |r| <= |cols|
    ensures forall i :: 0 <= i < |r| ==> !r[i].numeric && r[i] in cols
    decreases |cols|
  {
    if |cols| == 0 then []
    else NonNumericColumns(cols[..|cols| - 1]) + (if !cols[|cols| - 1].numeric then [cols[|cols| - 1]] else [])
  }

  lemma {:induction false} NumericColumnsEmpty(cols: seq<Column>)
    ensures NumericColumns(cols) == [] <==> forall i :: 0 <= i < |cols| ==> !cols[i].numeric
    decreases |cols|
  {
    if |cols| > 0 {
      NumericColumnsEmpty(cols[..|cols| - 1]);
      var init := cols[..|cols| - 1];
      assert forall i :: 0 <= i < |init| ==> init[i] == cols[i];
    }
  }

  lemma {:induction false} NonNumericColumnsEmpty(cols: seq<Column>)
    ensures NonNumericColumns(cols) == [] <==> forall i :: 0 <= i < |cols| ==> cols[i].numeric
    decreases |cols|
  {
    if |cols| > 0 {
      NonNumericColumnsEmpty(cols[..|cols| - 1]);
      var init := cols[..|cols| - 1];
      assert forall i :: 0 <= i < |init| ==> init[i] == cols[i];
    }
  }

  /** The numbers of a column with its nulls dropped (`df[col].dropna()`). */
  function Series(cells: seq<Cell>): (r: seq<real>)
    ensures |r| <= |cells|
    decreases |cells|
  {
    if |cells| == 0 then []
    else Series(cells[..|cells| - 1]) + (match cells[|cells| - 1] case Num(x, _) => [x] case _ => [])
  }

  /** The number a cell contributes to a sum: a null (NaN) counts as nothing. */
  function CellValue(c: Cell): real {
    match c
    case Num(x, _) => x
    case _ => 0.0
  }

  /** The number of non-null cells. */
  function NonNullCount(cells: seq<Cell>): (n: nat)
    ensures n <= |cells|
    decreases |cells|
  {
    if |cells| == 0 then 0
    else NonNullCount(cells[..|cells| - 1]) + (if cells[|cells| - 1].Null? then 0 else 1)
  }

  /** In a column without text cells, the series keeps every non-null cell. */
  lemma {:induction false} SeriesCountsNonNull(cells: seq<Cell>)
    requires forall k :: 0 <= k < |cells| ==> !cells[k].Str?
    ensures |Series(cells)| == NonNullCount(cells)
    decreases |cells|
  {
    if |cells| > 0 {
      SeriesCountsNonNull(cells[..|cells| - 1]);
    }
  }

  // ---------------------------------------------------------------------
  // Insertion-ordered dictionaries
  // ---------------------------------------------------------------------

  /** A Python dict: its (key, value) pairs in insertion order. */
  type Dict<K, V> = seq<(K, V)>

  function Keys<K, V>(d: Dict<K, V>): (r: seq<K>)
    ensures |r| == |d| && forall i :: 0 <= i < |d| ==> r[i] == d[i].0
  {
    seq(|d|, i requires 0 <= i < |d| => d[i].0)
  }

  /** The first index of `x` in `s`. */
  function IndexOf<T(==)>(s: seq<T>, x: T): (r: Option<nat>)
    ensures r.None? <==> x !in s
    ensures r.Some? ==> r.value < |s| && s[r.value] == x && forall j :: 0 <= j < r.value ==> s[j] != x
    decreases |s|
  {
    if |s| == 0 then None
    else if s[0] == x then Some(0)
    else match IndexOf(s[1..], x)
      case None => None
      case Some(j) => Some(j + 1)
  }

  /** `d[k]` as `d.get(k)`. */
  function Lookup<K(==), V>(d: Dict<K, V>, k: K): Option<V> {
    match IndexOf(Keys(d), k)
    case None => None
    case Some(i) => Some(d[i].1)
  }

  /** `d[k] = v`: an existing key keeps its place, a new key goes last. */
  function Put<K(==), V>(d: Dict<K, V>, k: K, v: V): Dict<K, V> {
    match IndexOf(Keys(d), k)
    case None => d + [(k, v)]
    case Some(i) => d[i := (k, v)]
  }

  /** `dict(pairs)`: the pairs put in order. */
  function FromPairs<K(==), V>(pairs: seq<(K, V)>): Dict<K, V>
    decreases |pairs|
  {
    if |pairs| == 0 then [] else Put(FromPairs(pairs[..|pairs| - 1]), pairs[|pairs| - 1].0, pairs[|pairs| - 1].1)
  }

  lemma PutFacts<K, V>(d: Dict<K, V>, k: K, v: V)
    ensures Keys(Put(d, k, v)) == if k in Keys(d) then Keys(d) else Keys(d) + [k]
    ensures Lookup(Put(d, k, v), k) == Some(v)
    ensures forall k' :: k' != k ==> Lookup(Put(d, k, v), k') == Lookup(d, k')
  {
    var r := Put(d, k, v);
    if k in Keys(d) {
      assert Keys(r) == Keys(d);
    } else {
      assert Keys(r) == Keys(d) + [k];
      forall k' | k' != k ensures Lookup(r, k') == Lookup(d, k') {
        if k' in Keys(d) {
          var i := IndexOf(Keys(d), k').value;
          assert IndexOf(Keys(r), k') == Some(i) by {
            assert Keys(r)[i] == k';
            assert forall j :: 0 <= j < i ==> Keys(r)[j] == Keys(d)[j];
          }
        }
      }
    }
  }

  /** The keys of `dict(pairs)` are the distinct keys of `pairs`. */
  lemma {:induction false} FromPairsKeys<K, V>(pairs: seq<(K, V)>)
    ensures Distinct(Keys(FromPairs(pairs)))
    ensures forall k :: k in Keys(FromPairs(pairs)) <==> k in Keys(pairs)
    decreases |pairs|
  {
    if |pairs| > 0 {
      var init, last := pairs[..|pairs| - 1], pairs[|pairs| - 1];
      FromPairsKeys(init);
      PutFacts(FromPairs(init), last.0, last.1);
      assert Keys(pairs) == Keys(init) + [last.0];
    }
  }

  /** In `dict(pairs)` each key maps to the value of its last pair. */
  lemma {:induction false} FromPairsLastWins<K, V>(pairs: seq<(K, V)>, j: nat)
    requires j < |pairs|
    requires forall l :: j < l < |pairs| ==> pairs[l].0 != pairs[j].0
    ensures Lookup(FromPairs(pairs), pairs[j].0) == Some(pairs[j].1)
    decreases |pairs|
  {
    var init, last := pairs[..|pairs| - 1], pairs[|pairs| - 1];
    PutFacts(FromPairs(init), last.0, last.1);
    if j < |pairs| - 1 {
      assert pairs[j] == init[j];
      forall l | j < l < |init| ensures init[l].0 != init[j].0 {
        assert init[l] == pairs[l];
      }
      FromPairsLastWins(init, j);
    }
  }

  /** With distinct keys, `dict(pairs)` is `pairs` itself. */
  lemma {:induction false} FromDistinctPairs<K, V>(pairs: seq<(K, V)>)
    requires Distinct(Keys(pairs))
    ensures FromPairs(pairs) == pairs
    decreases |pairs|
  {
    if |pairs| > 0 {
      var init := pairs[..|pairs| - 1];
      assert Keys(init) == Keys(pairs)[..|pairs| - 1];
      FromDistinctPairs(init);
      assert pairs[|pairs| - 1].0 !in Keys(init);
      assert init + [pairs[|pairs| - 1]] == pairs;
    }
  }

  /** A result row: column name to value. */
  type Row = Dict<string, Cell>

  /** `zip(columns, values)`: pairs up to the shorter length. */
  function Zip<A, B>(xs: seq<A>, ys: seq<B>): (r: seq<(A, B)>)
    ensures |r| == if |xs| <= |ys| then |xs| else |ys|
    ensures forall i :: 0 <= i < |r| ==> r[i] == (xs[i], ys[i])
  {
    var n := if |xs| <= |ys| then |xs| else |ys|;
    seq(n, i requires 0 <= i < n => (xs[i], ys[i]))
  }

  /** `dict(zip(columns, values))` */
  function ZipRow(columns: seq<string>, values: seq<Cell>): Row {
    FromPairs(Zip(columns, values))
  }

  /** With distinct names, a column named like the `j`-th numeric column is
      that numeric column. */
  lemma NumericNameIsNumeric(cols: seq<Column>, i: nat, j: nat)
    requires Distinct(ColumnNames(cols))
    requires i < |cols| && j < |NumericColumns(cols)| && NumericColumns(cols)[j].name == cols[i].name
    ensures cols[i].numeric
  {
    var k := IndexOf(cols, NumericColumns(cols)[j]).value;
    SameNameSameColumn(ColumnNames(cols), k, i);
  }

  lemma SameNameSameColumn(names: seq<string>, a: nat, b: nat)
    requires Distinct(names) && a < |names| && b < |names| && names[a] == names[b]
    ensures a == b
  {
  }

  /** A numeric column is among the numeric columns. */
  lemma {:induction false} NumericColumnsKeep(cols: seq<Column>, i: nat)
    requires i < |cols| && cols[i].numeric
    ensures cols[i].name in ColumnNames(NumericColumns(cols))
    decreases |cols|
  {
    var init := cols[..|cols| - 1];
    var last := if cols[|cols| - 1].numeric then [cols[|cols| - 1]] else [];
    assert NumericColumns(cols) == NumericColumns(init) + last;
    if i < |cols| - 1 {
      assert init[i] == cols[i];
      NumericColumnsKeep(init, i);
      var j :| 0 <= j < |NumericColumns(init)| && ColumnNames(NumericColumns(init))[j] == cols[i].name;
      assert NumericColumns(cols)[j] == NumericColumns(init)[j];
      assert ColumnNames(NumericColumns(cols))[j] == cols[i].name;
    } else {
      var n := |NumericColumns(init)|;
      assert NumericColumns(cols)[n] == cols[i];
      assert ColumnNames(NumericColumns(cols))[n] == cols[i].name;
    }
  }
}
