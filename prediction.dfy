/** The forecast: which column is time, which column is the target, and a
    least-squares line through the target values against their row
    positions, evaluated one position past the end. */
module Prediction {
  import opened Common
  import opened Frames

  // ---------------------------------------------------------------------
  // detect_time_column
  // ---------------------------------------------------------------------

  /** The text `astype(str)` gives a non-null cell. */
  function Text(c: Cell): string {
    match c
    case Num(_, shown) => shown
    case Str(s) => s
    case Null => ""
  }

  /** The texts of the non-null cells, in order (`dropna().astype(str)`). */
  function NonNullTexts(cells: seq<Cell>): (r: seq<string>)
    ensures |r| <= |cells|
    decreases |cells|
  {
    if |cells| == 0 then []
    else
      var last := cells[|cells| - 1];
      NonNullTexts(cells[..|cells| - 1]) + (if last.Null? then [] else [Text(last)])
  }

  /** The sample a column is judged by: its first ten non-null values. */
  function SampleTexts(cells: seq<Cell>): seq<string> {
    Take(NonNullTexts(cells), 10)
  }

  /** `\d{4}[-/]\d{2}[-/]\d{2}` at the start. */
  predicate YearFirstDatePrefix(v: string) {
    |v| >= 10 && DigitsAt(v, 0, 4) && IsDateSeparator(v[4]) && DigitsAt(v, 5, 7)
    && IsDateSeparator(v[7]) && DigitsAt(v, 8, 10)
  }

  /** `\d{2}[-/]\d{2}[-/]\d{4}` at the start. */
  predicate DayFirstDatePrefix(v: string) {
    |v| >= 10 && DigitsAt(v, 0, 2) && IsDateSeparator(v[2]) && DigitsAt(v, 3, 5)
    && IsDateSeparator(v[5]) && DigitsAt(v, 6, 10)
  }

  /** `re.match` of any of the four date patterns. */
  predicate MatchesDatePattern(v: string) {
    YearFirstDatePrefix(v) || DayFirstDatePrefix(v) || YearMonthPrefix(v) || YearOnly(v)
  }

  /** The number of sample values matching a date pattern. */
  function MatchCount(sample: seq<string>): (n: nat)
    ensures n <= |sample|
    decreases |sample|
  {
    if |sample| == 0 then 0
    else MatchCount(sample[..|sample| - 1]) + (if MatchesDatePattern(sample[|sample| - 1]) then 1 else 0)
  }

  /** `matches >= len(sample) * 0.7`, in exact arithmetic: for samples of at
      most ten values the product is exact or lies strictly between two
      integers. */
  predicate LooksLikeTime(c: Column) {
    var sample := SampleTexts(c.cells);
    10 * MatchCount(sample) >= 7 * |sample|
  }

  const TimeKeywords: seq<string> := ["date", "time", "year", "month", "day", "period", "quarter"]

  predicate HasTimeKeyword(name: string) {
    exists k | 0 <= k < |TimeKeywords| :: Contains(Lower(name), TimeKeywords[k])
  }

  /** `detect_time_column` as an index: the first column whose sample looks
      like dates, failing that the first column whose name holds a time
      keyword. */
  function TimeColumnSpec(f: Frame): (r: Option<nat>)
    ensures r.Some? ==> r.value < |f.columns|
    ensures (exists i :: 0 <= i < |f.columns| && LooksLikeTime(f.columns[i])) ==>
              r.Some? && LooksLikeTime(f.columns[r.value])
              && forall j :: 0 <= j < r.value ==> !LooksLikeTime(f.columns[j])
    ensures (forall i :: 0 <= i < |f.columns| ==> !LooksLikeTime(f.columns[i])) ==>
              && (r.Some? ==> HasTimeKeyword(f.columns[r.value].name)
                              && forall j :: 0 <= j < r.value ==> !HasTimeKeyword(f.columns[j].name))
              && (r.None? ==> forall j :: 0 <= j < |f.columns| ==> !HasTimeKeyword(f.columns[j].name))
  {
    match FirstIndex(f.columns, LooksLikeTime)
    case Some(i) => Some(i)
    case None => FirstIndex(f.columns, (c: Column) => HasTimeKeyword(c.name))
  }

  function NameAt(cols: seq<Column>, i: Option<nat>): Option<string>
    requires i.Some? ==> i.value < |cols|
  {
    match i
    case None => None
    case Some(k) => Some(cols[k].name)
  }

  method DetectTimeColumn(f: Frame) returns (r: Option<string>)
    ensures r == NameAt(f.columns, TimeColumnSpec(f))
  {
    for i := 0 to |f.columns|
      invariant forall j :: 0 <= j < i ==> !LooksLikeTime(f.columns[j])
    {
      var sample := SampleTexts(f.columns[i].cells);
      var matches := MatchCount(sample);
      if 10 * matches >= 7 * |sample| {
        TimeSpecByPattern(f, i);
        return Some(f.columns[i].name);
      }
    }
    for i := 0 to |f.columns|
      invariant forall j :: 0 <= j < i ==> !HasTimeKeyword(f.columns[j].name)
    {
      if HasTimeKeyword(f.columns[i].name) {
        TimeSpecByName(f, i);
        return Some(f.columns[i].name);
      }
    }
    return None;
  }

  lemma TimeSpecByPattern(f: Frame, i: nat)
    requires i < |f.columns| && LooksLikeTime(f.columns[i])
    requires forall j :: 0 <= j < i ==> !LooksLikeTime(f.columns[j])
    ensures TimeColumnSpec(f) == Some(i)
  {
    var r := TimeColumnSpec(f);
    assert r.Some? && LooksLikeTime(f.columns[r.value]);
    assert !(r.value < i);
    assert !(i < r.value);
  }

  lemma TimeSpecByName(f: Frame, i: nat)
    requires i < |f.columns| && HasTimeKeyword(f.columns[i].name)
    requires forall j :: 0 <= j < |f.columns| ==> !LooksLikeTime(f.columns[j])
    requires forall j :: 0 <= j < i ==> !HasTimeKeyword(f.columns[j].name)
    ensures TimeColumnSpec(f) == Some(i)
  {
    var r := TimeColumnSpec(f);
    assert r.Some?;
    assert !(r.value < i);
    assert !(i < r.value);
  }

  /** A column with no non-null value passes the 70% test. */
  lemma AllNullColumnLooksLikeTime(c: Column)
    requires forall k :: 0 <= k < |c.cells| ==> c.cells[k].Null?
    ensures LooksLikeTime(c)
  {
    NoTextsOfNulls(c.cells);
  }

  lemma {:induction false} NoTextsOfNulls(cells: seq<Cell>)
    requires forall k :: 0 <= k < |cells| ==> cells[k].Null?
    ensures NonNullTexts(cells) == []
    decreases |cells|
  {
    if |cells| > 0 {
      NoTextsOfNulls(cells[..|cells| - 1]);
    }
  }

  /** A column whose every value matches a date pattern passes the test. */
  lemma AllDatesLookLikeTime(c: Column)
    requires forall k :: 0 <= k < |c.cells| && !c.cells[k].Null? ==> MatchesDatePattern(Text(c.cells[k]))
    ensures LooksLikeTime(c)
  {
    TextsOfDates(c.cells);
    var texts := NonNullTexts(c.cells);
    var sample := SampleTexts(c.cells);
    assert forall i :: 0 <= i < |sample| ==> sample[i] == texts[i];
    AllMatch(sample);
  }

  lemma {:induction false} TextsOfDates(cells: seq<Cell>)
    requires forall k :: 0 <= k < |cells| && !cells[k].Null? ==> MatchesDatePattern(Text(cells[k]))
    ensures forall i :: 0 <= i < |NonNullTexts(cells)| ==> MatchesDatePattern(NonNullTexts(cells)[i])
    decreases |cells|
  {
    if |cells| > 0 {
      var init := cells[..|cells| - 1];
      assert forall k :: 0 <= k < |init| ==> init[k] == cells[k];
      TextsOfDates(init);
    }
  }

  lemma {:induction false} AllMatch(sample: seq<string>)
    requires forall i :: 0 <= i < |sample| ==> MatchesDatePattern(sample[i])
    ensures MatchCount(sample) == |sample|
    decreases |sample|
  {
    if |sample| > 0 {
      AllMatch(sample[..|sample| - 1]);
    }
  }

  /** Dates, day-first dates, year-months and bare years are recognised; a
      float year as pandas prints it is not. */
  lemma DatePatternExamples()
    ensures MatchesDatePattern("2024-01-15")
    ensures MatchesDatePattern("15/01/2024")
    ensures MatchesDatePattern("2024-03")
    ensures MatchesDatePattern("2024")
    ensures !MatchesDatePattern("2024.0")
  {
    assert !YearOnly("2024.0");
    assert !YearMonthPrefix("2024.0") by { assert !IsDateSeparator("2024.0"[4]); }
  }

  // ---------------------------------------------------------------------
  // detect_target_column
  // ---------------------------------------------------------------------

  /** The question names the column: with `_` read as a space, or as is. */
  predicate Mentioned(question: string, name: string) {
    var q := Lower(question);
    Contains(q, Lower(ReplaceChar(name, '_', ' '))) || Contains(q, Lower(name))
  }

  /** `detect_target_column` as an index into the numeric columns: none
      without numeric columns, the first one the question names, else the
      first. */
  function TargetSpec(f: Frame, question: string): (r: Option<nat>)
    ensures r.None? <==> |NumericColumns(f.columns)| == 0
    ensures var nums := NumericColumns(f.columns);
      r.Some? ==> (r.value < |nums| && forall j :: 0 <= j < r.value ==> !Mentioned(question, nums[j].name))
    ensures var nums := NumericColumns(f.columns);
      r.Some? && (exists j :: 0 <= j < |nums| && Mentioned(question, nums[j].name)) ==> Mentioned(question, nums[r.value].name)
    ensures var nums := NumericColumns(f.columns);
      r.Some? && !Mentioned(question, nums[r.value].name) ==> r.value == 0
  {
    var nums := NumericColumns(f.columns);
    if |nums| == 0 then None
    else match FirstIndex(nums, (c: Column) => Mentioned(question, c.name))
      case Some(k) => Some(k)
      case None => Some(0)
  }

  method DetectTargetColumn(f: Frame, question: string) returns (r: Option<string>)
    ensures r == NameAt(NumericColumns(f.columns), TargetSpec(f, question))
  {
    var nums := NumericColumns(f.columns);
    if |nums| == 0 {
      return None;
    }
    var q := Lower(question);
    for i := 0 to |nums|
      invariant forall j :: 0 <= j < i ==> !Mentioned(question, nums[j].name)
    {
      var clean := Lower(ReplaceChar(nums[i].name, '_', ' '));
      if Contains(q, clean) || Contains(q, Lower(nums[i].name)) {
        return Some(nums[i].name);
      }
    }
    return Some(nums[0].name);
  }

  // ---------------------------------------------------------------------
  // The least-squares line over row positions
  // ---------------------------------------------------------------------

  /** `0 + 1 + ... + (n-1)` */
  function IndexSum(n: nat): real {
    if n == 0 then 0.0 else IndexSum(n - 1) + ((n - 1) as real)
  }

  /** `0² + 1² + ... + (n-1)²` */
  function IndexSquareSum(n: nat): real {
    if n == 0 then 0.0 else IndexSquareSum(n - 1) + ((n - 1) as real) * ((n - 1) as real)
  }

  /** `Σ i * ys[i]` */
  function WeightedSum(ys: seq<real>): real
    decreases |ys|
  {
    if |ys| == 0 then 0.0 else WeightedSum(ys[..|ys| - 1]) + ((|ys| - 1) as real) * ys[|ys| - 1]
  }

  lemma {:induction false} IndexSumClosed(n: nat)
    ensures 2.0 * IndexSum(n) == (n as real) * ((n as real) - 1.0)
  {
    if n > 0 {
      IndexSumClosed(n - 1);
    }
  }

  lemma {:induction false} IndexSquareSumClosed(n: nat)
    ensures 6.0 * IndexSquareSum(n) == ((n as real) - 1.0) * (n as real) * (2.0 * (n as real) - 1.0)
  {
    if n > 0 {
      IndexSquareSumClosed(n - 1);
      var m := (n - 1) as real;
      assert 6.0 * IndexSquareSum(n) == (m - 1.0) * m * (2.0 * m - 1.0) + 6.0 * m * m;
      assert (m - 1.0) * m * (2.0 * m - 1.0) + 6.0 * m * m == m * (m + 1.0) * (2.0 * m + 1.0);
    }
  }

  /** `m * s2 - s1²`: the determinant of the normal equations for `m` points
      with `s1 = Σx` and `s2 = Σx²`. */
  function Det(m: real, s1: real, s2: real): real {
    m * s2 - s1 * s1
  }

  /** `a * x + b * y`; sums over points on the line `a + b*i` take this form. */
  function Comb(x: real, y: real, a: real, b: real): real {
    a * x + b * y
  }

  /** The determinant for the positions `0, 1, ..., n-1`. */
  function Determinant(n: nat): real {
    Det(n as real, IndexSum(n), IndexSquareSum(n))
  }

  /** The determinant is `n²(n²-1)/12`, positive from two points on. */
  lemma DeterminantPositive(n: nat)
    requires n >= 2
    ensures Determinant(n) > 0.0
  {
    IndexSumClosed(n);
    IndexSquareSumClosed(n);
    var m := n as real;
    var s1, s2 := IndexSum(n), IndexSquareSum(n);
    assert 12.0 * Determinant(n) == 2.0 * m * (6.0 * s2) - 3.0 * (2.0 * s1) * (2.0 * s1);
    assert 12.0 * Determinant(n) == 2.0 * m * ((m - 1.0) * m * (2.0 * m - 1.0)) - 3.0 * (m * (m - 1.0)) * (m * (m - 1.0));
    assert 12.0 * Determinant(n) == (m * m) * ((m - 1.0) * (m + 1.0));
    assert m * m > 0.0;
    assert (m - 1.0) * (m + 1.0) > 0.0;
  }

  datatype Line = Line(slope: real, intercept: real)

  /** The solution of the normal equations from the sums: `m` points,
      `s1 = Σx`, `s2 = Σx²`, `sy = Σy`, `sxy = Σxy`. */
  function SolveNormal(m: real, s1: real, s2: real, sy: real, sxy: real): Line
    requires m > 0.0 && Det(m, s1, s2) != 0.0
  {
    var slope := (m * sxy - s1 * sy) / Det(m, s1, s2);
    Line(slope, (sy - slope * s1) / m)
  }

  /** Ordinary least squares of `ys` against `x = 0, 1, ..., n-1`. */
  function FitLine(ys: seq<real>): Line
    requires |ys| >= 2
  {
    var n := |ys|;
    DeterminantPositive(n);
    SolveNormal(n as real, IndexSum(n), IndexSquareSum(n), Sum(ys), WeightedSum(ys))
  }

  /** The line's value one position past the last point. */
  function NextValue(ys: seq<real>): real
    requires |ys| >= 2
  {
    var line := FitLine(ys);
    line.intercept + line.slope * (|ys| as real)
  }

  /** The points lie exactly on `a + b*i`, stated point by point from the
      last one back (see `OnLineAt` for the index form). */
  predicate OnLine(ys: seq<real>, a: real, b: real)
    decreases |ys|
  {
    |ys| == 0 || (OnLine(ys[..|ys| - 1], a, b) && ys[|ys| - 1] == a + b * ((|ys| - 1) as real))
  }

  lemma {:induction false} OnLineAt(ys: seq<real>, a: real, b: real)
    ensures OnLine(ys, a, b) <==> forall i :: 0 <= i < |ys| ==> ys[i] == a + b * (i as real)
    decreases |ys|
  {
    if |ys| > 0 {
      var init := ys[..|ys| - 1];
      OnLineAt(init, a, b);
      assert forall i :: 0 <= i < |init| ==> init[i] == ys[i];
    }
  }

  /** `Σy = a*n + b*Σi` for points on the line. */
  lemma {:induction false} SumOfLine(ys: seq<real>, a: real, b: real)
    requires OnLine(ys, a, b)
    ensures Sum(ys) == Comb(|ys| as real, IndexSum(|ys|), a, b)
    decreases |ys|
  {
    if |ys| > 0 {
      var init := ys[..|ys| - 1];
      SumOfLine(init, a, b);
      assert Sum(ys) == Sum(init) + (a + b * ((|ys| - 1) as real));
    }
  }

  /** `Σi*y = a*Σi + b*Σi²` for points on the line. */
  lemma {:induction false} WeightedSumOfLine(ys: seq<real>, a: real, b: real)
    requires OnLine(ys, a, b)
    ensures WeightedSum(ys) == Comb(IndexSum(|ys|), IndexSquareSum(|ys|), a, b)
    decreases |ys|
  {
    if |ys| > 0 {
      var init := ys[..|ys| - 1];
      WeightedSumOfLine(init, a, b);
      CombStep(IndexSum(|init|), IndexSquareSum(|init|), |init| as real, a, b);
    }
  }

  lemma CombStep(x: real, y: real, k: real, a: real, b: real)
    ensures Comb(x + k, y + k * k, a, b) == Comb(x, y, a, b) + k * (a + b * k)
  {
  }

  /** Points exactly on `a + b*i` give back slope `b` and intercept `a`, so
      the forecast is `a + b*n`. */
  lemma FitOfExactLine(ys: seq<real>, a: real, b: real)
    requires |ys| >= 2
    requires forall i :: 0 <= i < |ys| ==> ys[i] == a + b * (i as real)
    ensures FitLine(ys) == Line(b, a)
    ensures NextValue(ys) == a + b * (|ys| as real)
  {
    OnLineAt(ys, a, b);
    SumOfLine(ys, a, b);
    WeightedSumOfLine(ys, a, b);
    DeterminantPositive(|ys|);
    NormalEquations(|ys| as real, IndexSum(|ys|), IndexSquareSum(|ys|), Sum(ys), WeightedSum(ys), a, b);
  }

  /** The algebra of the normal equations for sums of points on a line. */
  lemma NormalEquations(m: real, s1: real, s2: real, sy: real, sxy: real, a: real, b: real)
    requires m > 0.0 && Det(m, s1, s2) != 0.0
    requires sy == Comb(m, s1, a, b) && sxy == Comb(s1, s2, a, b)
    ensures SolveNormal(m, s1, s2, sy, sxy) == Line(b, a)
  {
    var d := Det(m, s1, s2);
    assert m * sxy == m * a * s1 + m * b * s2;
    assert s1 * sy == m * a * s1 + b * s1 * s1;
    assert m * sxy - s1 * sy == b * d;
    SlopeFromNumerator(m * sxy - s1 * sy, b, d);
    assert sy - b * s1 == a * m;
  }

  lemma SlopeFromNumerator(num: real, b: real, d: real)
    requires d != 0.0 && num == b * d
    ensures num / d == b
  {
  }

  /** The trend label of a slope. */
  function SlopeTrend(slope: real): (d: Direction)
    ensures d == Upward <==> slope > 0.0
    ensures d == Downward <==> slope < 0.0
    ensures d == Stable <==> slope == 0.0
  {
    if slope > 0.0 then Upward else if slope < 0.0 then Downward else Stable
  }

  /** A constant series has slope 0 and is labelled stable, and its forecast
      is the constant. */
  lemma ConstantSeriesForecast(ys: seq<real>, c: real)
    requires |ys| >= 2
    requires forall i :: 0 <= i < |ys| ==> ys[i] == c
    ensures FitLine(ys).slope == 0.0 && SlopeTrend(FitLine(ys).slope) == Stable
    ensures NextValue(ys) == c
  {
    assert forall i :: 0 <= i < |ys| ==> ys[i] == c + 0.0 * (i as real);
    FitOfExactLine(ys, c, 0.0);
  }

  // ---------------------------------------------------------------------
  // predict
  // ---------------------------------------------------------------------

  datatype PredictError = NoTimeColumn | NoTargetColumn | TooFewPoints | Failed

  /** The forecast sentence `Predicted next period <subject>: <value> (trend:
      <trend>, ...)`, kept as its parts; number formatting and R² are not
      part of this model. */
  datatype ForecastMessage = ForecastMessage(subject: string, value: real, trend: Direction)

  /** The result of `predict`: a forecast, or an error with no predicted
      value. The confidence (R²) is not part of this model. */
  datatype Prediction =
    | Predicted(value: real, metric: string, slope: real, trend: Direction, message: ForecastMessage)
    | NoPrediction(error: PredictError)

  /** The returned `predicted_value` is `round(value, 2)`, and it is truthy
      exactly when that is not zero: when the value lies more than half a
      hundredth away from zero (an exact half rounds to the even 0.00). */
  predicate ReportedNonZero(value: real) {
    value > 0.005 || value < -0.005
  }

  function ErrorMessage(e: PredictError): string {
    match e
    case NoTimeColumn => "No time/date column detected. Prediction requires time-series data."
    case NoTargetColumn => "No numeric column found to predict."
    case TooFewPoints => "Not enough data points for prediction (need at least 3)."
    case Failed => "Prediction failed: "
  }

  /** The target values of the rows where both the time and the target cell
      are non-null (`df[[time_col, target_col]].dropna()`), in row order. */
  function CompleteTargets(rows: seq<(Cell, Cell)>): (r: seq<real>)
    ensures |r| <= |rows|
    decreases |rows|
  {
    if |rows| == 0 then []
    else
      var (t, y) := rows[|rows| - 1];
      CompleteTargets(rows[..|rows| - 1]) + (if t.Null? || y.Null? then [] else [CellValue(y)])
  }

  /** The complete target values for time column `t` and numeric column `k`. */
  function PredictionTargets(f: Frame, t: nat, k: nat): seq<real>
    requires t < |f.columns| && k < |NumericColumns(f.columns)|
  {
    CompleteTargets(Zip(f.columns[t].cells, NumericColumns(f.columns)[k].cells))
  }

  /** The forecast from the complete target values, once both columns are
      chosen. When the target is the time column itself, pandas selects a
      two-column frame for `y`, and converting the two-valued forecast to a
      float fails: that case is `Failed`. */
  function Forecast(timeName: string, target: string, ys: seq<real>): Prediction {
    if |ys| < 3 then NoPrediction(TooFewPoints)
    else if timeName == target then NoPrediction(Failed)
    else
      var line := FitLine(ys);
      var trend := SlopeTrend(line.slope);
      Predicted(NextValue(ys), Title(ReplaceChar(target, '_', ' ')), line.slope, trend,
                ForecastMessage(ReplaceChar(target, '_', ' '), NextValue(ys), trend))
  }

  /** `predict`. */
  function Predict(f: Frame, question: string): Prediction {
    match TimeColumnSpec(f)
    case None => NoPrediction(NoTimeColumn)
    case Some(t) =>
      match TargetSpec(f, question)
      case None => NoPrediction(NoTargetColumn)
      case Some(k) => Forecast(f.columns[t].name, NumericColumns(f.columns)[k].name, PredictionTargets(f, t, k))
  }

  /** The error branches in order: no time column first, then no numeric
      column, then too few complete rows. */
  lemma PredictErrorOrder(f: Frame, question: string)
    ensures TimeColumnSpec(f).None? ==> Predict(f, question) == NoPrediction(NoTimeColumn)
    ensures TimeColumnSpec(f).Some? && |NumericColumns(f.columns)| == 0 ==>
              Predict(f, question) == NoPrediction(NoTargetColumn)
    ensures Predict(f, question) == NoPrediction(TooFewPoints) ==>
              TimeColumnSpec(f).Some? && |NumericColumns(f.columns)| > 0
    ensures TimeColumnSpec(f).Some? && TargetSpec(f, question).Some? &&
            |PredictionTargets(f, TimeColumnSpec(f).value, TargetSpec(f, question).value)| < 3 ==>
              Predict(f, question) == NoPrediction(TooFewPoints)
    ensures Predict(f, question).Predicted? ==>
              TimeColumnSpec(f).Some? && TargetSpec(f, question).Some?
  {
  }

  /** A forecast needs three complete rows and two distinct columns; it is the
      fitted line at `x = n`, and its trend follows the slope's sign. Too few
      rows is reported before the target-is-time failure. */
  lemma ForecastFromTargets(timeName: string, target: string, ys: seq<real>)
    ensures Forecast(timeName, target, ys).Predicted? <==> |ys| >= 3 && timeName != target
    ensures |ys| < 3 ==> Forecast(timeName, target, ys) == NoPrediction(TooFewPoints)
    ensures |ys| >= 3 && timeName == target ==> Forecast(timeName, target, ys) == NoPrediction(Failed)
    ensures Forecast(timeName, target, ys).Predicted? ==>
      var p := Forecast(timeName, target, ys);
      && p.value == FitLine(ys).intercept + FitLine(ys).slope * (|ys| as real)
      && p.slope == FitLine(ys).slope
      && (p.trend == Upward <==> p.slope > 0.0)
      && (p.trend == Downward <==> p.slope < 0.0)
      && p.message == ForecastMessage(ReplaceChar(target, '_', ' '), p.value, p.trend)
  {
  }

  /** A constant target column forecasts its constant, with a stable trend. */
  lemma ConstantTargetForecast(timeName: string, target: string, ys: seq<real>, c: real)
    requires |ys| >= 3 && timeName != target
    requires forall i :: 0 <= i < |ys| ==> ys[i] == c
    ensures Forecast(timeName, target, ys).Predicted?
    ensures Forecast(timeName, target, ys).value == c
    ensures Forecast(timeName, target, ys).trend == Stable
  {
    ConstantSeriesForecast(ys, c);
  }
}
