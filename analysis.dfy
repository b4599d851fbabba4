/** Descriptive statistics, half-versus-half trend notes and the ordered list
    of automatic insights computed over a query result. */
module Analysis {
  import opened Common
  import opened Frames

  // ---------------------------------------------------------------------
  // compute_stats
  // ---------------------------------------------------------------------

  /** The spread of a column: pandas' sample standard deviation is only
      computed for two or more values; for one value the service reports 0.
      The variance stands for the deviation (the square root is not part of
      this model). */
  datatype Spread = SingleValue | SampleVariance(variance: real)

  /** The statistics of one column (the median and the rounding to two
      decimals are not part of this model). */
  datatype ColumnStats = ColumnStats(mean: real, std: Spread, min: real, max: real, count: nat)

  /** The sum of squared deviations from `m`. */
  function SquaredDeviations(xs: seq<real>, m: real): real
    decreases |xs|
  {
    if |xs| == 0 then 0.0
    else SquaredDeviations(xs[..|xs| - 1], m) + (xs[|xs| - 1] - m) * (xs[|xs| - 1] - m)
  }

  lemma {:induction false} SquaredDeviationsNonNegative(xs: seq<real>, m: real)
    ensures SquaredDeviations(xs, m) >= 0.0
    decreases |xs|
  {
    if |xs| > 0 {
      SquaredDeviationsNonNegative(xs[..|xs| - 1], m);
      var d := xs[|xs| - 1] - m;
      assert d * d >= 0.0;
    }
  }

  /** The statistics of a non-empty series. */
  function StatsOf(xs: seq<real>): ColumnStats
    requires |xs| > 0
  {
    var std := if |xs| > 1 then SampleVariance(SquaredDeviations(xs, Mean(xs)) / ((|xs| - 1) as real)) else SingleValue;
    ColumnStats(Mean(xs), std, Min(xs), Max(xs), |xs|)
  }

  /** The statistics of a series describe it: `min <= mean <= max`, every value
      in `[min, max]`, `count` the length, the spread 0 exactly for one value
      and otherwise a non-negative variance. */
  lemma StatsOfFacts(xs: seq<real>)
    requires |xs| > 0
    ensures var s := StatsOf(xs);
      && s.min <= s.mean <= s.max
      && (forall i :: 0 <= i < |xs| ==> s.min <= xs[i] <= s.max)
      && s.count == |xs|
      && (s.std == SingleValue <==> |xs| == 1)
      && (s.std.SampleVariance? ==> s.std.variance >= 0.0)
  {
    MeanBetween(xs);
    SquaredDeviationsNonNegative(xs, Mean(xs));
  }

  /** The loop of `compute_stats` over the numeric columns: a column whose
      series has no value is skipped. */
  function StatsOver(cols: seq<Column>): Dict<string, ColumnStats>
    decreases |cols|
  {
    if |cols| == 0 then []
    else
      var last := cols[|cols| - 1];
      var xs := Series(last.cells);
      StatsOver(cols[..|cols| - 1]) + (if |xs| == 0 then [] else [(last.name, StatsOf(xs))])
  }

  /** `compute_stats`: nothing for a frame without numeric columns or rows. */
  function StatsSpec(f: Frame): Dict<string, ColumnStats> {
    var numeric := NumericColumns(f.columns);
    if |numeric| == 0 || f.rows == 0 then [] else StatsOver(numeric)
  }

  method ComputeStats(f: Frame) returns (stats: Dict<string, ColumnStats>)
    ensures stats == StatsSpec(f)
  {
    var numeric := NumericColumns(f.columns);
    if |numeric| == 0 || f.rows == 0 {
      return [];
    }
    stats := [];
    for i := 0 to |numeric|
      invariant stats == StatsOver(numeric[..i])
    {
      assert numeric[..i + 1][..i] == numeric[..i];
      var series := Series(numeric[i].cells);
      if |series| == 0 {
        continue;
      }
      stats := stats + [(numeric[i].name, StatsOf(series))];
    }
    assert numeric[..|numeric|] == numeric;
  }

  /** The entries of `StatsOver(cols)` are exactly the columns with values,
      each with the statistics of its series. */
  lemma {:induction false} StatsOverEntries(cols: seq<Column>)
    ensures forall e :: e in StatsOver(cols) ==>
              exists c :: c in cols && |Series(c.cells)| > 0 && e == (c.name, StatsOf(Series(c.cells)))
    ensures forall c :: c in cols && |Series(c.cells)| > 0 ==> (c.name, StatsOf(Series(c.cells))) in StatsOver(cols)
  {
    StatsOverSound(cols);
    StatsOverComplete(cols);
  }

  /** The entry of the last column, if it has values. */
  function LastEntry(last: Column): Dict<string, ColumnStats> {
    if |Series(last.cells)| == 0 then [] else [(last.name, StatsOf(Series(last.cells)))]
  }

  lemma {:induction false} StatsOverSound(cols: seq<Column>)
    ensures forall e :: e in StatsOver(cols) ==>
              exists c :: c in cols && |Series(c.cells)| > 0 && e == (c.name, StatsOf(Series(c.cells)))
    decreases |cols|
  {
    if |cols| > 0 {
      var init, last := cols[..|cols| - 1], cols[|cols| - 1];
      StatsOverSound(init);
      assert StatsOver(cols) == StatsOver(init) + LastEntry(last);
      forall e | e in StatsOver(cols)
        ensures exists c :: c in cols && |Series(c.cells)| > 0 && e == (c.name, StatsOf(Series(c.cells)))
      {
        if e in StatsOver(init) {
          var c :| c in init && |Series(c.cells)| > 0 && e == (c.name, StatsOf(Series(c.cells)));
          assert c in cols;
        } else {
          assert e in LastEntry(last);
          assert last in cols;
        }
      }
    }
  }

  lemma StatsOverComplete(cols: seq<Column>)
    ensures forall c :: c in cols && |Series(c.cells)| > 0 ==> (c.name, StatsOf(Series(c.cells))) in StatsOver(cols)
  {
    forall c | c in cols && |Series(c.cells)| > 0
      ensures (c.name, StatsOf(Series(c.cells))) in StatsOver(cols)
    {
      StatsOverCompleteAt(cols, IndexOf(cols, c).value);
    }
  }

  lemma {:induction false} StatsOverCompleteAt(cols: seq<Column>, i: nat)
    requires i < |cols| && |Series(cols[i].cells)| > 0
    ensures (cols[i].name, StatsOf(Series(cols[i].cells))) in StatsOver(cols)
    decreases |cols|
  {
    var init, last := cols[..|cols| - 1], cols[|cols| - 1];
    assert StatsOver(cols) == StatsOver(init) + LastEntry(last);
    if i < |cols| - 1 {
      assert init[i] == cols[i];
      StatsOverCompleteAt(init, i);
    }
  }

  /** Without numeric columns there are no statistics. */
  lemma StatsEmptyWithoutNumeric(f: Frame)
    requires forall i :: 0 <= i < |f.columns| ==> !f.columns[i].numeric
    ensures StatsSpec(f) == []
  {
    NumericColumnsEmpty(f.columns);
  }

  /** Every entry belongs to a numeric column with at least one value and
      carries the statistics of that column's non-null values; every such
      column of a frame with rows has its entry; `count` is its number of
      non-null cells. */
  lemma StatsSpecEntries(f: Frame)
    requires WellFormed(f)
    ensures forall e :: e in StatsSpec(f) ==>
              exists c :: c in f.columns && c.numeric && |Series(c.cells)| > 0
                          && e == (c.name, StatsOf(Series(c.cells))) && e.1.count == NonNullCount(c.cells)
    ensures f.rows > 0 ==> forall c :: c in f.columns && c.numeric && |Series(c.cells)| > 0 ==>
              (c.name, StatsOf(Series(c.cells))) in StatsSpec(f)
  {
    var numeric := NumericColumns(f.columns);
    StatsOverEntries(numeric);
    forall c | c in f.columns && c.numeric
      ensures |Series(c.cells)| == NonNullCount(c.cells)
    {
      var i :| 0 <= i < |f.columns| && f.columns[i] == c;
      SeriesCountsNonNull(c.cells);
    }
    NumericColumnsMembers(f.columns);
  }

  lemma {:induction false} NumericColumnsMembers(cols: seq<Column>)
    ensures forall c :: c in NumericColumns(cols) <==> c in cols && c.numeric
    decreases |cols|
  {
    if |cols| > 0 {
      var init := cols[..|cols| - 1];
      NumericColumnsMembers(init);
      assert cols == init + [cols[|cols| - 1]];
    }
  }

  // ---------------------------------------------------------------------
  // detect_trends
  // ---------------------------------------------------------------------

  /** One trend line: the column, the verdict, and the two half means the
      message's percentage is computed from. */
  datatype TrendNote = TrendNote(column: string, direction: Direction, firstMean: real, secondMean: real)

  /** The comparison: more than 10% above is upward, otherwise more than 10%
      below is downward, otherwise stable. */
  function Classify(first: real, second: real): (d: Direction)
    ensures d == Upward <==> second > first * 1.1
    ensures d == Downward <==> !(second > first * 1.1) && second < first * 0.9
    ensures d == Stable <==> !(second > first * 1.1) && !(second < first * 0.9)
  {
    if second > first * 1.1 then Upward
    else if second < first * 0.9 then Downward
    else Stable
  }

  /** The note for a series of at least three values, split at `len // 2`. */
  function TrendOf(name: string, xs: seq<real>): TrendNote
    requires |xs| >= 3
  {
    var mid := |xs| / 2;
    var first := Mean(xs[..mid]);
    var second := Mean(xs[mid..]);
    TrendNote(name, Classify(first, second), first, second)
  }

  /** The numeric columns that get a note: those with at least three values. */
  function Trended(cols: seq<Column>): (r: seq<Column>)
    ensures |r| <= |cols|
    ensures forall i :: 0 <= i < |r| ==> |Series(r[i].cells)| >= 3
    decreases |cols|
  {
    if |cols| == 0 then []
    else
      var last := cols[|cols| - 1];
      Trended(cols[..|cols| - 1]) + (if |Series(last.cells)| >= 3 then [last] else [])
  }

  lemma {:induction false} TrendedMembers(cols: seq<Column>)
    ensures forall c :: c in Trended(cols) <==> c in cols && |Series(c.cells)| >= 3
    decreases |cols|
  {
    if |cols| > 0 {
      var init := cols[..|cols| - 1];
      TrendedMembers(init);
      assert cols == init + [cols[|cols| - 1]];
    }
  }

  /** The loop of `detect_trends` over the given columns. */
  function TrendsOver(cols: seq<Column>): seq<TrendNote>
    decreases |cols|
  {
    if |cols| == 0 then []
    else
      var last := cols[|cols| - 1];
      var xs := Series(last.cells);
      TrendsOver(cols[..|cols| - 1]) + (if |xs| >= 3 then [TrendOf(last.name, xs)] else [])
  }

  function TrendsSpec(f: Frame): seq<TrendNote> {
    TrendsOver(NumericColumns(f.columns))
  }

  method DetectTrends(f: Frame) returns (trends: seq<TrendNote>)
    ensures trends == TrendsSpec(f)
  {
    var numeric := NumericColumns(f.columns);
    trends := [];
    for i := 0 to |numeric|
      invariant trends == TrendsOver(numeric[..i])
    {
      assert numeric[..i + 1][..i] == numeric[..i];
      var series := Series(numeric[i].cells);
      if |series| < 3 {
        continue;
      }
      trends := trends + [TrendOf(numeric[i].name, series)];
    }
    assert numeric[..|numeric|] == numeric;
  }

  /** One note per column with at least three values, in column order, and
      none for the others. */
  lemma {:induction false} TrendsOverOnePerColumn(cols: seq<Column>)
    ensures |TrendsOver(cols)| == |Trended(cols)|
    ensures forall i :: 0 <= i < |TrendsOver(cols)| ==>
              TrendsOver(cols)[i] == TrendOf(Trended(cols)[i].name, Series(Trended(cols)[i].cells))
    decreases |cols|
  {
    if |cols| > 0 {
      TrendsOverOnePerColumn(cols[..|cols| - 1]);
    }
  }

  /** `detect_trends` gives exactly one note per numeric column with at least
      three non-null values, in column order. */
  lemma TrendsSpecOnePerColumn(f: Frame)
    ensures |TrendsSpec(f)| == |Trended(NumericColumns(f.columns))|
    ensures forall c :: c in Trended(NumericColumns(f.columns)) <==>
              c in f.columns && c.numeric && |Series(c.cells)| >= 3
    ensures forall i :: 0 <= i < |TrendsSpec(f)| ==>
              var c := Trended(NumericColumns(f.columns))[i]; TrendsSpec(f)[i] == TrendOf(c.name, Series(c.cells))
  {
    TrendsOverOnePerColumn(NumericColumns(f.columns));
    TrendedMembers(NumericColumns(f.columns));
    NumericColumnsMembers(f.columns);
  }

  /** The halves: `len // 2` values, then the rest, both non-empty. */
  lemma TrendHalves(xs: seq<real>)
    requires |xs| >= 3
    ensures var mid := |xs| / 2; 1 <= |xs[..mid]| <= |xs[mid..]| && xs[..mid] + xs[mid..] == xs
  {
  }

  /** With a positive first-half mean, upward means the second half is higher
      and downward that it is lower. */
  lemma DirectionAgreesWithMeans(first: real, second: real)
    requires first > 0.0
    ensures Classify(first, second) == Upward ==> second > first
    ensures Classify(first, second) == Downward ==> second < first
    ensures first * 0.9 <= second <= first * 1.1 ==> Classify(first, second) == Stable
  {
  }

  /** A constant series is stable, except that a negative constant is
      labelled upward: `c > 1.1 * c` holds for every negative `c`. */
  lemma ConstantSeriesTrend(name: string, xs: seq<real>, c: real)
    requires |xs| >= 3
    requires forall i :: 0 <= i < |xs| ==> xs[i] == c
    ensures TrendOf(name, xs).direction == if c < 0.0 then Upward else Stable
  {
    var mid := |xs| / 2;
    MeanBounded(xs[..mid], c, c);
    MeanBounded(xs[mid..], c, c);
  }

  // ---------------------------------------------------------------------
  // generate_insights
  // ---------------------------------------------------------------------

  /** One insight line; the formatted text (title-casing, number formats) is
      not part of this model. */
  datatype Insight =
    | TopContributor(category: string, group: Cell, measure: string, percent: real)
    | Range(column: string, low: real, high: real, span: real)
    | Trend(note: TrendNote)
    | Summary(rows: nat, columns: nat)


  /** `df.groupby(cat)[num].sum()` over (key, value) rows: groups in first
      appearance order, rows with a null key dropped. */
  function GroupSums(rows: seq<(Cell, Cell)>): Dict<Cell, real>
    decreases |rows|
  {
    if |rows| == 0 then [] else AddRow(GroupSums(rows[..|rows| - 1]), rows[|rows| - 1])
  }

  /** The running sum of a group so far, 0 for a group not seen yet. */
  function SoFar(d: Dict<Cell, real>, k: Cell): real {
    match Lookup(d, k) case None => 0.0 case Some(s) => s
  }

  /** One row into the running sums: a null key is dropped. */
  function AddRow(d: Dict<Cell, real>, row: (Cell, Cell)): Dict<Cell, real> {
    if row.0.Null? then d else Put(d, row.0, SoFar(d, row.0) + CellValue(row.1))
  }

  /** The reference sum of a group: the values of the rows with that key. */
  function SumWhere(rows: seq<(Cell, Cell)>, k: Cell): real
    decreases |rows|
  {
    if |rows| == 0 then 0.0
    else SumWhere(rows[..|rows| - 1], k) + (if rows[|rows| - 1].0 == k then CellValue(rows[|rows| - 1].1) else 0.0)
  }

  /** The groups are the non-null keys, without repeats. */
  lemma GroupSumsKeys(rows: seq<(Cell, Cell)>)
    ensures Distinct(Keys(GroupSums(rows)))
    ensures forall k: Cell :: k in Keys(GroupSums(rows)) <==> !k.Null? && k in Keys(rows)
  {
    GroupSumsDistinct(rows);
    GroupSumsKeySet(rows);
  }

  lemma {:induction false} GroupSumsDistinct(rows: seq<(Cell, Cell)>)
    ensures Distinct(Keys(GroupSums(rows)))
    decreases |rows|
  {
    if |rows| > 0 {
      var init := rows[..|rows| - 1];
      var (k, v) := rows[|rows| - 1];
      GroupSumsDistinct(init);
      if !k.Null? {
        var d := GroupSums(init);
        PutKeys(d, k, SoFar(d, k) + CellValue(v));
      }
    }
  }

  lemma {:induction false} GroupSumsKeySet(rows: seq<(Cell, Cell)>)
    ensures forall k: Cell :: k in Keys(GroupSums(rows)) <==> !k.Null? && k in Keys(rows)
    decreases |rows|
  {
    if |rows| > 0 {
      var init := rows[..|rows| - 1];
      var (k, v) := rows[|rows| - 1];
      GroupSumsKeySet(init);
      assert Keys(rows) == Keys(init) + [k];
      AddRowKeys(GroupSums(init), (k, v));
    }
  }

  /** One row adds its key, unless the key is null. */
  lemma AddRowKeys(d: Dict<Cell, real>, row: (Cell, Cell))
    ensures forall k :: k in Keys(AddRow(d, row)) <==> k in Keys(d) || (!row.0.Null? && k == row.0)
  {
    if !row.0.Null? {
      PutFacts(d, row.0, SoFar(d, row.0) + CellValue(row.1));
    }
  }

  /** `Put` keeps the keys distinct and adds exactly its key. */
  lemma PutKeys<K, V>(d: Dict<K, V>, k: K, v: V)
    requires Distinct(Keys(d))
    ensures Distinct(Keys(Put(d, k, v)))
  {
    PutFacts(d, k, v);
    if k !in Keys(d) {
      DistinctAppend(Keys(d), k);
    }
  }

  lemma DistinctAppend<T>(s: seq<T>, x: T)
    requires Distinct(s) && x !in s
    ensures Distinct(s + [x])
  {
    var t := s + [x];
    forall i, j | 0 <= i < j < |t| ensures t[i] != t[j] {
      if j == |s| {
        assert t[i] == s[i];
      } else {
        assert t[i] == s[i] && t[j] == s[j];
      }
    }
  }

  /** The groups are the non-null keys, without repeats, and each group's sum
      is the sum of its rows' values. */
  lemma {:induction false} GroupSumsMeaning(rows: seq<(Cell, Cell)>)
    ensures Distinct(Keys(GroupSums(rows)))
    ensures forall k: Cell :: k in Keys(GroupSums(rows)) <==> !k.Null? && k in Keys(rows)
    ensures forall k: Cell :: !k.Null? && k in Keys(rows) ==> Lookup(GroupSums(rows), k) == Some(SumWhere(rows, k))
    decreases |rows|
  {
    GroupSumsKeys(rows);
    if |rows| > 0 {
      var init := rows[..|rows| - 1];
      GroupSumsMeaning(init);
      forall k: Cell | !k.Null? && k in Keys(rows)
        ensures Lookup(GroupSums(rows), k) == Some(SumWhere(rows, k))
      {
        GroupSumStep(rows, k);
      }
    }
  }

  /** One row more: the sum of a key follows from the sums before that row. */
  lemma {:induction false} GroupSumStep(rows: seq<(Cell, Cell)>, k': Cell)
    requires |rows| > 0 && !k'.Null? && k' in Keys(rows)
    requires forall k: Cell :: !k.Null? && k in Keys(rows[..|rows| - 1]) ==>
               Lookup(GroupSums(rows[..|rows| - 1]), k) == Some(SumWhere(rows[..|rows| - 1], k))
    ensures Lookup(GroupSums(rows), k') == Some(SumWhere(rows, k'))
  {
    var init := rows[..|rows| - 1];
    var (k, v) := rows[|rows| - 1];
    var d := GroupSums(init);
    assert Keys(rows) == Keys(init) + [k];
    AddRowLookup(d, (k, v), k');
    if k' in Keys(init) {
      assert SoFar(d, k') == SumWhere(init, k');
    } else {
      GroupSumsKeys(init);
      LookupAbsent(d, k');
      SumWhereAbsent(init, k');
    }
  }

  /** What one row does to the running sum of a non-null key. */
  lemma AddRowLookup(d: Dict<Cell, real>, row: (Cell, Cell), k: Cell)
    requires !k.Null?
    ensures Lookup(AddRow(d, row), k) == if row.0 == k then Some(SoFar(d, k) + CellValue(row.1)) else Lookup(d, k)
  {
    if !row.0.Null? {
      var x := SoFar(d, row.0) + CellValue(row.1);
      assert AddRow(d, row) == Put(d, row.0, x);
      PutFacts(d, row.0, x);
    }
  }

  lemma LookupAbsent<K, V>(d: Dict<K, V>, k: K)
    requires k !in Keys(d)
    ensures Lookup(d, k) == None
  {
  }

  lemma {:induction false} SumWhereAbsent(rows: seq<(Cell, Cell)>, k: Cell)
    requires k !in Keys(rows)
    ensures SumWhere(rows, k) == 0.0
    decreases |rows|
  {
    if |rows| > 0 {
      var init := rows[..|rows| - 1];
      assert Keys(init) == Keys(rows)[..|rows| - 1];
      SumWhereAbsent(init, k);
    }
  }

  function Values<K, V>(d: Dict<K, V>): (r: seq<V>)
    ensures |r| == |d| && forall i :: 0 <= i < |d| ==> r[i] == d[i].1
  {
    seq(|d|, i requires 0 <= i < |d| => d[i].1)
  }

  /** The first group with the largest sum. */
  function TopIndex(d: Dict<Cell, real>): (i: nat)
    requires |d| > 0
    ensures i < |d|
    ensures forall j :: 0 <= j < |d| ==> d[j].1 <= d[i].1
    decreases |d|
  {
    if |d| == 1 then 0
    else
      var k := TopIndex(d[..|d| - 1]);
      if d[|d| - 1].1 > d[k].1 then |d| - 1 else k
  }

  /** The (category, measure) pairs of the rows: the first non-numeric column
      against the first numeric column. */
  function CategoryRows(f: Frame): seq<(Cell, Cell)>
    requires |NonNumericColumns(f.columns)| > 0 && |NumericColumns(f.columns)| > 0
  {
    Zip(NonNumericColumns(f.columns)[0].cells, NumericColumns(f.columns)[0].cells)
  }

  function CategoryGroups(f: Frame): Dict<Cell, real>
    requires |NonNumericColumns(f.columns)| > 0 && |NumericColumns(f.columns)| > 0
  {
    GroupSums(CategoryRows(f))
  }

  /** The top-contributor insight: the first non-numeric column as category,
      the first numeric column as measure, only with at least two groups;
      the share is 0 unless the total is positive. */
  function TopContributorOf(f: Frame): Option<Insight> {
    var cats := NonNumericColumns(f.columns);
    var nums := NumericColumns(f.columns);
    if |cats| == 0 || |nums| == 0 then None
    else
      var groups := CategoryGroups(f);
      if |groups| <= 1 then None
      else
        var i := TopIndex(groups);
        var total := Sum(Values(groups));
        Some(TopContributor(cats[0].name, groups[i].0, nums[0].name,
                            if total > 0.0 then groups[i].1 / total * 100.0 else 0.0))
  }

  /** The range insight: the first entry of the statistics. */
  function RangeOf(stats: Dict<string, ColumnStats>): seq<Insight> {
    if |stats| == 0 then []
    else [Range(stats[0].0, stats[0].1.min, stats[0].1.max, stats[0].1.max - stats[0].1.min)]
  }

  function TrendInsights(notes: seq<TrendNote>): (r: seq<Insight>)
    ensures |r| == |notes| && forall i :: 0 <= i < |r| ==> r[i] == Trend(notes[i])
  {
    seq(|notes|, i requires 0 <= i < |notes| => Trend(notes[i]))
  }


  /** `generate_insights`: top contributor, one range, at most two trends,
      the size summary; nothing for an empty frame. */
  function InsightsSpec(f: Frame, stats: Dict<string, ColumnStats>): seq<Insight> {
    if IsEmpty(f) then []
    else
      (match TopContributorOf(f) case None => [] case Some(t) => [t])
      + RangeOf(stats)
      + TrendInsights(Take(TrendsSpec(f), 2))
      + [Summary(f.rows, |f.columns|)]
  }

  method GenerateInsights(f: Frame, stats: Dict<string, ColumnStats>) returns (insights: seq<Insight>)
    ensures insights == InsightsSpec(f, stats)
  {
    insights := [];
    if IsEmpty(f) {
      return;
    }
    var top := TopContributorOf(f);
    if top.Some? {
      insights := insights + [top.value];
    }
    // Every entry of the statistics has a min and a max, so the loop of the
    // range insight stops at the first entry.
    var range: seq<Insight> := [];
    if |stats| > 0 {
      var (col, s) := stats[0];
      range := [Range(col, s.min, s.max, s.max - s.min)];
    }
    assert range == RangeOf(stats);
    assert insights == match TopContributorOf(f) case None => [] case Some(t) => [t];
    insights := insights + range;
    var trends := DetectTrends(f);
    insights := insights + TrendInsights(Take(trends, 2));
    insights := insights + [Summary(f.rows, |f.columns|)];
  }

  /** An empty frame gives no insight. */
  lemma InsightsOfEmpty(f: Frame, stats: Dict<string, ColumnStats>)
    requires IsEmpty(f)
    ensures InsightsSpec(f, stats) == []
  {
  }

  /** A frame with rows and columns gets insights, the last being the size
      summary; there is at most one top contributor, at most one range and
      at most two trend insights. */
  lemma InsightsShape(f: Frame, stats: Dict<string, ColumnStats>)
    requires !IsEmpty(f)
    ensures var ins := InsightsSpec(f, stats);
      && |ins| > 0 && ins[|ins| - 1] == Summary(f.rows, |f.columns|)
      && (forall i, j :: 0 <= i < j < |ins| ==> !(ins[i].TopContributor? && ins[j].TopContributor?))
      && (forall i, j :: 0 <= i < j < |ins| ==> !(ins[i].Range? && ins[j].Range?))
      && (forall i, j, k :: 0 <= i < j < k < |ins| ==> !(ins[i].Trend? && ins[j].Trend? && ins[k].Trend?))
  {
    var top := match TopContributorOf(f) case None => [] case Some(t) => [t];
    var trends := TrendInsights(Take(TrendsSpec(f), 2));
    assert top == [] || top[0].TopContributor?;
    PartsShape(top, RangeOf(stats), trends, Summary(f.rows, |f.columns|));
  }

  /** The kinds of insight sit in blocks: at most one top contributor, then
      at most one range, then at most two trends, then the summary. */
  lemma PartsShape(top: seq<Insight>, range: seq<Insight>, trends: seq<Insight>, last: Insight)
    requires |top| <= 1 && forall i :: 0 <= i < |top| ==> top[i].TopContributor?
    requires |range| <= 1 && forall i :: 0 <= i < |range| ==> range[i].Range?
    requires |trends| <= 2 && forall i :: 0 <= i < |trends| ==> trends[i].Trend?
    requires last.Summary?
    ensures var ins := top + range + trends + [last];
      && |ins| > 0 && ins[|ins| - 1] == last
      && (forall i, j :: 0 <= i < j < |ins| ==> !(ins[i].TopContributor? && ins[j].TopContributor?))
      && (forall i, j :: 0 <= i < j < |ins| ==> !(ins[i].Range? && ins[j].Range?))
      && (forall i, j, k :: 0 <= i < j < k < |ins| ==> !(ins[i].Trend? && ins[j].Trend? && ins[k].Trend?))
  {
    var ins := top + range + trends + [last];
    var a, b, c := |top|, |top| + |range|, |top| + |range| + |trends|;
    forall i | 0 <= i < |ins|
      ensures (ins[i].TopContributor? ==> i < a) && (ins[i].Range? ==> a <= i < b) && (ins[i].Trend? ==> b <= i < c)
    {
      if i < a {
        assert ins[i] == top[i];
      } else if i < b {
        assert ins[i] == range[i - a];
      } else if i < c {
        assert ins[i] == trends[i - b];
      } else {
        assert ins[i] == last;
      }
    }
  }

  /** A top-contributor insight needs a non-numeric and a numeric column and
      at least two groups; it names the first of each kind of column and a
      group whose sum no other group exceeds. */
  lemma TopContributorMaximal(f: Frame)
    requires TopContributorOf(f).Some?
    ensures var t := TopContributorOf(f).value;
      var cats := NonNumericColumns(f.columns);
      var nums := NumericColumns(f.columns);
      && |cats| > 0 && |nums| > 0
      && t.TopContributor? && t.category == cats[0].name && t.measure == nums[0].name
      && var rows := CategoryRows(f);
         && |GroupSums(rows)| >= 2
         && !t.group.Null? && t.group in Keys(rows)
         && forall k: Cell :: !k.Null? && k in Keys(rows) ==> SumWhere(rows, k) <= SumWhere(rows, t.group)
  {
    TopGroupMaximal(CategoryRows(f));
  }

  /** The group `TopIndex` picks is a non-null key of the rows whose sum no
      other key's sum exceeds. */
  lemma TopGroupMaximal(rows: seq<(Cell, Cell)>)
    requires |GroupSums(rows)| > 0
    ensures var g := GroupSums(rows)[TopIndex(GroupSums(rows))].0;
      && !g.Null? && g in Keys(rows)
      && forall k: Cell :: !k.Null? && k in Keys(rows) ==> SumWhere(rows, k) <= SumWhere(rows, g)
  {
    var groups := GroupSums(rows);
    GroupSumsMeaning(rows);
    var i := TopIndex(groups);
    var g := groups[i].0;
    assert g == Keys(groups)[i];
    assert IndexOf(Keys(groups), g) == Some(i);
    assert Lookup(groups, g) == Some(groups[i].1);
    forall k: Cell | !k.Null? && k in Keys(rows) ensures SumWhere(rows, k) <= SumWhere(rows, g) {
      var j := IndexOf(Keys(groups), k).value;
      assert groups[j].1 <= groups[i].1;
      assert Lookup(groups, k) == Some(groups[j].1);
    }
  }

  /** With no negative group sum the share lies in [0, 100]. */
  lemma TopShareIsPercentage(f: Frame)
    requires TopContributorOf(f).Some?
    requires |NonNumericColumns(f.columns)| > 0 && |NumericColumns(f.columns)| > 0
    requires forall j :: 0 <= j < |CategoryGroups(f)| ==> CategoryGroups(f)[j].1 >= 0.0
    ensures 0.0 <= TopContributorOf(f).value.percent <= 100.0
  {
    var groups := CategoryGroups(f);
    var i := TopIndex(groups);
    var total := Sum(Values(groups));
    assert forall j :: 0 <= j < |groups| ==> Values(groups)[j] >= 0.0;
    SumHasElement(Values(groups), i);
    if total > 0.0 {
      ShareBounds(groups[i].1, total);
    }
  }

  lemma ShareBounds(part: real, total: real)
    requires 0.0 <= part <= total && total > 0.0
    ensures 0.0 <= part / total * 100.0 <= 100.0
  {
    var q := part / total;
    assert part == q * total;
    assert (1.0 - q) * total == total - part;
  }

  /** A sum of non-negative values is at least each of them. */
  lemma {:induction false} SumHasElement(xs: seq<real>, i: nat)
    requires i < |xs|
    requires forall j :: 0 <= j < |xs| ==> xs[j] >= 0.0
    ensures xs[i] <= Sum(xs)
    decreases |xs|
  {
    var init := xs[..|xs| - 1];
    assert forall j :: 0 <= j < |init| ==> init[j] == xs[j];
    if i < |xs| - 1 {
      SumHasElement(init, i);
    } else {
      SumNonNegative(init);
    }
  }

  lemma {:induction false} SumNonNegative(xs: seq<real>)
    requires forall j :: 0 <= j < |xs| ==> xs[j] >= 0.0
    ensures Sum(xs) >= 0.0
    decreases |xs|
  {
    if |xs| > 0 {
      SumNonNegative(xs[..|xs| - 1]);
    }
  }

  /** The range insight built from `compute_stats` output never has a
      negative span. */
  lemma RangeSpanNonNegative(f: Frame)
    ensures forall r :: r in RangeOf(StatsSpec(f)) ==> r.Range? && r.low <= r.high && r.span >= 0.0
  {
    StatsOverOrdered(NumericColumns(f.columns));
  }

  /** Every entry of `StatsOver` has `min <= max`. */
  lemma {:induction false} StatsOverOrdered(cols: seq<Column>)
    ensures forall i :: 0 <= i < |StatsOver(cols)| ==> StatsOver(cols)[i].1.min <= StatsOver(cols)[i].1.max
    decreases |cols|
  {
    if |cols| > 0 {
      var init := cols[..|cols| - 1];
      var xs := Series(cols[|cols| - 1].cells);
      StatsOverOrdered(init);
      if |xs| > 0 {
        StatsOfFacts(xs);
      }
    }
  }
}
