/** Chart selection: the decision table that picks a chart kind from a
    frame's shape, and the columns and caption `generate_chart` draws for
    each kind. Rendering the figure is not part of this model. */
module Charts {
  import opened Common
  import opened Frames

  datatype ChartKind = Bar | Line | Pie | Histogram | Scatter

  // ---------------------------------------------------------------------
  // Is the first column time-like?
  // ---------------------------------------------------------------------

  /** The text `astype(str)` gives a cell of a column: a missing number is
      `nan`, a missing object is `None`. */
  function CellText(numeric: bool, c: Cell): string {
    match c
    case Null => if numeric then "nan" else "None"
    case Num(_, shown) => shown
    case Str(s) => s
  }

  /** `df[x_col].astype(str)` */
  function ColumnTexts(c: Column): (r: seq<string>)
    ensures |r| == |c.cells|
    ensures forall k :: 0 <= k < |r| ==> r[k] == CellText(c.numeric, c.cells[k])
  {
    seq(|c.cells|, k requires 0 <= k < |c.cells| => CellText(c.numeric, c.cells[k]))
  }

  const MonthPrefixes: seq<string> := ["jan", "feb", "mar", "apr", "may", "jun", "jul", "aug", "sep", "oct", "nov", "dec"]

  /** `(?i)^(jan|feb|...|dec)`: a month abbreviation at the start, in any case. */
  predicate MonthPrefix(v: string) {
    |v| >= 3 && Lower(v[..3]) in MonthPrefixes
  }

  /** One value passes one of the three fallback patterns: a year alone,
      `YYYY-MM` or `YYYY/MM` at the start, or a month name at the start. */
  predicate TimeLikeValue(v: string) {
    YearOnly(v) || YearMonthPrefix(v) || MonthPrefix(v)
  }

  /** The fallback test: each of the first three values passes a pattern. */
  predicate PatternFallback(c: Column) {
    var head := Take(ColumnTexts(c), 3);
    forall k :: 0 <= k < |head| ==> TimeLikeValue(head[k])
  }

  /** The time test on the x column. `datesParse` stands for
      `pd.to_datetime(values, format='mixed')` succeeding on the column's
      texts; when it raises, the pattern fallback decides. */
  predicate TimeLike(c: Column, datesParse: seq<string> -> bool) {
    datesParse(ColumnTexts(c)) || PatternFallback(c)
  }

  /** `[c for c in cols if c not in num_cols]` is non-empty: some column's
      name is not the name of a numeric column. */
  predicate HasNonNumericName(cols: seq<Column>) {
    exists i :: 0 <= i < |cols| && cols[i].name !in ColumnNames(NumericColumns(cols))
  }

  // ---------------------------------------------------------------------
  // detect_chart_type
  // ---------------------------------------------------------------------

  /** `detect_chart_type`. */
  function DetectChartType(f: Frame, datesParse: seq<string> -> bool): (r: ChartKind)
    ensures r != Scatter
    ensures IsEmpty(f) ==> r == Bar
    ensures r == Histogram <==> !IsEmpty(f) && |f.columns| == 1 && f.columns[0].numeric
    ensures r == Line <==> !IsEmpty(f) && |f.columns| >= 2 && (TimeLike(f.columns[0], datesParse) || f.rows > 15)
    ensures r == Pie <==> !IsEmpty(f) && |f.columns| >= 2 && !TimeLike(f.columns[0], datesParse)
                          && f.rows <= 6 && |NumericColumns(f.columns)| >= 1 && HasNonNumericName(f.columns)
  {
    if IsEmpty(f) then Bar
    else
      var cols := f.columns;
      var num := NumericColumns(cols);
      SingleColumnNumeric(cols);
      if |cols| == 1 && |num| == 1 then Histogram
      else if |cols| >= 2 then
        if TimeLike(cols[0], datesParse) then Line
        else if f.rows <= 6 && |num| >= 1 && HasNonNumericName(cols) then Pie
        else if f.rows > 15 then Line
        else Bar
      else Bar
  }

  /** A single column is a numeric column list of length one exactly when it
      is numeric. */
  lemma SingleColumnNumeric(cols: seq<Column>)
    ensures |cols| == 1 ==> (|NumericColumns(cols)| == 1 <==> cols[0].numeric)
  {
    if |cols| == 1 {
      assert cols[..0] == [];
    }
  }

  /** With distinct column names, the non-numeric test by name is the test
      for a column whose dtype is not numeric. */
  lemma NonNumericByName(cols: seq<Column>)
    requires Distinct(ColumnNames(cols))
    ensures HasNonNumericName(cols) <==> exists i :: 0 <= i < |cols| && !cols[i].numeric
  {
    var names := ColumnNames(NumericColumns(cols));
    forall i | 0 <= i < |cols| ensures cols[i].name in names ==> cols[i].numeric {
      if cols[i].name in names {
        var j := IndexOf(names, cols[i].name).value;
        NumericNameIsNumeric(cols, i, j);
      }
    }
    forall i | 0 <= i < |cols| ensures cols[i].numeric ==> cols[i].name in names {
      if cols[i].numeric {
        NumericColumnsKeep(cols, i);
      }
    }
  }

  /** The pattern fallback reads only the first three values of the column. */
  lemma FallbackReadsThreeValues(c1: Column, c2: Column)
    requires c1.numeric == c2.numeric
    requires Take(c1.cells, 3) == Take(c2.cells, 3)
    ensures PatternFallback(c1) <==> PatternFallback(c2)
  {
    var h1, h2 := Take(ColumnTexts(c1), 3), Take(ColumnTexts(c2), 3);
    assert |h1| == |Take(c1.cells, 3)|;
    assert |h2| == |Take(c2.cells, 3)|;
    forall k | 0 <= k < |h1|
      ensures h1[k] == h2[k]
    {
      assert Take(c1.cells, 3)[k] == c1.cells[k];
      assert Take(c2.cells, 3)[k] == c2.cells[k];
    }
    assert h1 == h2;
  }

  /** The text of a missing value passes no pattern. */
  lemma NullTextFails(numeric: bool)
    ensures !TimeLikeValue(CellText(numeric, Null))
  {
    var v := CellText(numeric, Null);
    assert !IsDigit(v[0]);
    if numeric {
      assert Lower("nan"[..3]) == "nan";
    } else {
      assert "None"[..3] == "Non";
      assert Lower("Non") == "non";
    }
  }

  /** A missing value among the first three leaves only `to_datetime` to
      make the column time-like. */
  lemma NullBlocksFallback(c: Column, k: nat)
    requires k < 3 && k < |c.cells| && c.cells[k].Null?
    ensures !PatternFallback(c)
  {
    var head := Take(ColumnTexts(c), 3);
    assert head[k] == CellText(c.numeric, Null);
    NullTextFails(c.numeric);
  }

  /** A first column whose first three values are four-digit years makes a
      chart of two or more columns a line chart, whatever `to_datetime` says. */
  lemma YearColumnGivesLine(f: Frame, datesParse: seq<string> -> bool)
    requires f.rows > 0 && |f.columns| >= 2
    requires forall k :: 0 <= k < 3 && k < |f.columns[0].cells| ==>
               YearOnly(CellText(f.columns[0].numeric, f.columns[0].cells[k]))
    ensures DetectChartType(f, datesParse) == Line
  {
    var head := Take(ColumnTexts(f.columns[0]), 3);
    assert forall k :: 0 <= k < |head| ==> head[k] == CellText(f.columns[0].numeric, f.columns[0].cells[k]);
    assert PatternFallback(f.columns[0]);
  }

  /** Month names in any case and year-month texts pass; a bare number
      longer than a year does not. */
  lemma FallbackExamples()
    ensures MonthPrefix("January") && MonthPrefix("FEB") && MonthPrefix("mar 2024")
    ensures TimeLikeValue("2024/03") && TimeLikeValue("1999")
    ensures !TimeLikeValue("12345")
  {
    assert "January"[..3] == "Jan" && Lower("Jan") == "jan";
    assert "FEB"[..3] == "FEB" && Lower("FEB") == "feb";
    assert "mar 2024"[..3] == "mar" && Lower("mar") == "mar";
    assert DigitsAt("2024/03", 0, 4) && DigitsAt("2024/03", 5, 7);
    assert DigitsAt("1999", 0, 4);
    assert !IsDateSeparator("12345"[4]);
    assert "12345"[..3] == "123";
    assert Lower("123") == "123";
  }

  // ---------------------------------------------------------------------
  // generate_chart: what is drawn
  // ---------------------------------------------------------------------

  /** What `generate_chart` draws: the x column, the y column(s) and the
      caption, or nothing (the empty string). */
  datatype Plan =
    | NoChart
    | HistogramOf(x: string, caption: string)
    | PieOf(names: string, values: string, caption: string)
    | LinesOf(x: string, ys: seq<string>, caption: string)
    | ScatterOf(x: string, y: string, caption: string)
    | BarsOf(x: string, ys: seq<string>, caption: string)

  const MaxSeries: nat := 5

  function NumericNames(f: Frame): seq<string> {
    ColumnNames(NumericColumns(f.columns))
  }

  /** The chart drawn for a kind, from the column names `cols` and the
      numeric column names `num`. A kind with too few suitable columns falls
      through to the bar branch, which needs two columns. */
  function PlanOf(cols: seq<string>, num: seq<string>, kind: ChartKind): Plan {
    if kind == Histogram && |num| >= 1 then
      HistogramOf(num[0], "Distribution of " + num[0])
    else if kind == Pie && |cols| >= 2 then
      var y := if |num| > 0 then num[0] else cols[1];
      PieOf(cols[0], y, y + " by " + cols[0])
    else if kind == Line && |cols| >= 2 && |num| >= 1 then
      LinesOf(cols[0], Take(num, MaxSeries), "Trend: " + Join(", ", Take(num, 3)))
    else if kind == Scatter && |num| >= 2 then
      ScatterOf(num[0], num[1], num[1] + " vs " + num[0])
    else if |cols| >= 2 then
      var ys := if |num| > 0 then num else [cols[1]];
      BarsOf(cols[0], Take(ys, MaxSeries), Join(", ", Take(ys, 3)) + " by " + cols[0])
    else NoChart
  }

  /** `generate_chart(df, chart_type)`: nothing for an empty frame, else the
      chart for the given kind or, when none is given, the detected one. A
      `chart_type` string other than the five kinds behaves as `Bar`. */
  function GenerateChart(f: Frame, chartType: Option<ChartKind>, datesParse: seq<string> -> bool): Plan {
    if IsEmpty(f) then NoChart
    else
      var kind := if chartType.Some? then chartType.value else DetectChartType(f, datesParse);
      PlanOf(ColumnNames(f.columns), NumericNames(f), kind)
  }

  /** The name of every column a plan draws. */
  function PlanColumns(p: Plan): seq<string> {
    match p
    case NoChart => []
    case HistogramOf(x, _) => [x]
    case PieOf(names, values, _) => [names, values]
    case LinesOf(x, ys, _) => [x] + ys
    case ScatterOf(x, y, _) => [x, y]
    case BarsOf(x, ys, _) => [x] + ys
  }

  /** A chart draws only columns of the frame, and at most five y series;
      the x axis of pie, line and bar charts is the first column. */
  lemma PlanUsesFrameColumns(f: Frame, chartType: Option<ChartKind>, datesParse: seq<string> -> bool)
    ensures var p := GenerateChart(f, chartType, datesParse);
      && (forall k :: 0 <= k < |PlanColumns(p)| ==> PlanColumns(p)[k] in ColumnNames(f.columns))
      && ((p.LinesOf? || p.BarsOf?) ==> 1 <= |p.ys| <= MaxSeries)
      && ((p.PieOf? || p.LinesOf? || p.BarsOf?) ==> |f.columns| >= 2)
      && (p.PieOf? ==> p.names == f.columns[0].name)
      && ((p.LinesOf? || p.BarsOf?) ==> p.x == f.columns[0].name)
  {
    if !IsEmpty(f) {
      var kind := if chartType.Some? then chartType.value else DetectChartType(f, datesParse);
      NumericNamesAreNames(f);
      PlanOfUsesColumns(ColumnNames(f.columns), NumericNames(f), kind);
      if |f.columns| >= 1 {
        assert ColumnNames(f.columns)[0] == f.columns[0].name;
      }
    }
  }

  /** The columns a plan draws are among `cols` when the numeric names are. */
  lemma PlanOfUsesColumns(cols: seq<string>, num: seq<string>, kind: ChartKind)
    requires forall k :: 0 <= k < |num| ==> num[k] in cols
    ensures var p := PlanOf(cols, num, kind);
      && (forall k :: 0 <= k < |PlanColumns(p)| ==> PlanColumns(p)[k] in cols)
      && ((p.LinesOf? || p.BarsOf?) ==> 1 <= |p.ys| <= MaxSeries)
      && ((p.PieOf? || p.LinesOf? || p.BarsOf?) ==> |cols| >= 2)
      && ((p.PieOf? ==> p.names == cols[0]))
      && ((p.LinesOf? || p.BarsOf?) ==> p.x == cols[0])
  {
    var p := PlanOf(cols, num, kind);
    if |cols| >= 2 {
      assert cols[0] in cols && cols[1] in cols;
    }
    if kind == Line && |cols| >= 2 && |num| >= 1 {
      SeriesIn(cols[0], num, cols);
    } else if !(kind == Histogram && |num| >= 1) && !(kind == Pie && |cols| >= 2)
              && !(kind == Scatter && |num| >= 2) && |cols| >= 2 {
      SeriesIn(cols[0], if |num| > 0 then num else [cols[1]], cols);
    }
  }

  /** An x name and the first five of a list of names, all among `cols`. */
  lemma SeriesIn(x: string, ys: seq<string>, cols: seq<string>)
    requires x in cols && forall k :: 0 <= k < |ys| ==> ys[k] in cols
    ensures forall k :: 0 <= k < |[x] + Take(ys, MaxSeries)| ==> ([x] + Take(ys, MaxSeries))[k] in cols
  {
    forall k | 0 <= k < |[x] + Take(ys, MaxSeries)| ensures ([x] + Take(ys, MaxSeries))[k] in cols {
      if k > 0 {
        assert ([x] + Take(ys, MaxSeries))[k] == ys[k - 1];
      }
    }
  }

  lemma NumericNamesAreNames(f: Frame)
    ensures forall k :: 0 <= k < |NumericNames(f)| ==> NumericNames(f)[k] in ColumnNames(f.columns)
  {
    forall k | 0 <= k < |NumericNames(f)|
      ensures NumericNames(f)[k] in ColumnNames(f.columns)
    {
      var c := NumericColumns(f.columns)[k];
      var i :| 0 <= i < |f.columns| && f.columns[i] == c;
      assert ColumnNames(f.columns)[i] == c.name;
    }
  }

  /** Which columns each chart draws: a pie's values are the first numeric
      column, else the second column; line charts draw the first five numeric
      columns; bars draw the first five numeric columns, else the second
      column. */
  lemma PlanSeries(f: Frame, chartType: Option<ChartKind>, datesParse: seq<string> -> bool)
    ensures var p := GenerateChart(f, chartType, datesParse);
      var num := NumericNames(f);
      && (p.PieOf? ==> p.values == (if |num| > 0 then num[0] else f.columns[1].name))
      && (p.LinesOf? ==> p.ys == num[..|p.ys|] && |p.ys| == (if |num| <= MaxSeries then |num| else MaxSeries))
      && (p.BarsOf? && |num| > 0 ==> p.ys == num[..|p.ys|] && |p.ys| == (if |num| <= MaxSeries then |num| else MaxSeries))
      && (p.BarsOf? && |num| == 0 ==> p.ys == [f.columns[1].name])
  {
    var p := GenerateChart(f, chartType, datesParse);
    if !IsEmpty(f) && |f.columns| >= 2 {
      assert ColumnNames(f.columns)[1] == f.columns[1].name;
    }
  }

  /** No chart exactly for an empty frame, or when the bar branch is reached
      with a single column. */
  lemma NoChartCases(f: Frame, chartType: Option<ChartKind>, datesParse: seq<string> -> bool)
    ensures GenerateChart(f, chartType, datesParse) == NoChart <==>
              IsEmpty(f) || (|f.columns| == 1
                             && !((if chartType.Some? then chartType.value else DetectChartType(f, datesParse)) == Histogram
                                  && f.columns[0].numeric))
  {
    if !IsEmpty(f) && |f.columns| == 1 {
      SingleColumnNumeric(f.columns);
    }
  }

  /** Without an override no scatter plot is drawn: `Scatter` is reachable
      only through `chart_type`. */
  lemma DetectedPlanNeverScatter(f: Frame, datesParse: seq<string> -> bool)
    ensures !GenerateChart(f, None, datesParse).ScatterOf?
  {
  }
}
