/** The `/analyze` pipeline: question to SQL, the safety gate, the query,
    then chart, statistics and insights over the result, and a forecast over
    the whole table when the question asks for one. */
module App {
  import opened Common
  import opened Frames
  import opened Database
  import opened Llm
  import Analysis
  import Prediction
  import Charts

  const UnsafeSqlMessage := "Generated SQL contains unsafe operations. Only SELECT queries are allowed."
  const BadRequest: nat := 400
  const FullTableQuery := "SELECT * FROM data"
  const PredictionKeywords: seq<string> := ["predict", "forecast", "next month", "next quarter", "next year", "future", "estimate"]

  /** The question asks for a forecast: its lower-cased text holds one of
      the keywords. */
  predicate WantsPrediction(question: string) {
    exists k | 0 <= k < |PredictionKeywords| :: Contains(Lower(question), PredictionKeywords[k])
  }

  /** The steps whose exceptions are caught one by one; a step in `faults`
      raises. */
  datatype Step = ChartStep | StatsStep | InsightsStep

  /** An entry of `insights`: a rule-based insight or the forecast sentence. */
  datatype Note = Rule(insight: Analysis.Insight) | Forecast(message: Prediction.ForecastMessage)

  /** The `prediction` field: left at `{}`, what `predict` returned, or the
      `{"error": ...}` map of an exception. */
  datatype PredictionField = NotAttempted | Returned(p: Prediction.Prediction) | Raised(error: string)

  /** The response body; `chart` is what `chart_base64` encodes (`NoChart`
      for the empty string). */
  datatype Response = Response(
    sqlQuery: string,
    tableResult: seq<Row>,
    chart: Charts.Plan,
    stats: Dict<string, Analysis.ColumnStats>,
    insights: seq<Note>,
    prediction: PredictionField)

  datatype Outcome = Answered(response: Response) | HttpError(status: nat, detail: string)

  /** The initial `result` dict. */
  const Initial := Response("", [], Charts.NoChart, [], [], NotAttempted)

  function Rules(xs: seq<Analysis.Insight>): (r: seq<Note>)
    ensures |r| == |xs| && forall i :: 0 <= i < |xs| ==> r[i] == Rule(xs[i])
  {
    seq(|xs|, i requires 0 <= i < |xs| => Rule(xs[i]))
  }

  // ---------------------------------------------------------------------
  // The pipeline as a function of its inputs
  // ---------------------------------------------------------------------

  /** Steps 3 to 5 on a non-empty result frame. A step that raises leaves
      its field as it was; insights read the `stats` field, so they see `{}`
      when the statistics step raised. */
  function Analysed(r: Response, df: Frame, datesParse: seq<string> -> bool, faults: set<Step>): Response {
    var stats := if StatsStep in faults then r.stats else Analysis.StatsSpec(df);
    r.(chart := if ChartStep in faults then r.chart else Charts.GenerateChart(df, None, datesParse),
       stats := stats,
       insights := if InsightsStep in faults then r.insights else Rules(Analysis.InsightsSpec(df, stats)))
  }

  /** Step 6, given what reading the whole table gave. */
  function WithPrediction(r: Response, read: Result<Cursor, string>, readFrame: Cursor -> Frame, question: string): Response {
    match read
    case Err(e) => r.(prediction := Raised(e))
    case Ok(c) =>
      var p := Prediction.Predict(readFrame(c), question);
      r.(prediction := Returned(p),
         insights := r.insights + (if p.Predicted? && Prediction.ReportedNonZero(p.value) then [Forecast(p.message)] else []))
  }

  /** The outcome of `/analyze` and the statements sent to the database, for
      the text-to-SQL result `sqlResult`. `toFrame` is `pd.DataFrame` over
      the result rows, `readFrame` is `pd.read_sql` over a cursor. */
  function AnalyzeSpec(sqlResult: Result<string, string>, engine: string -> Result<Cursor, string>,
                       question: string, toFrame: seq<Row> -> Frame, readFrame: Cursor -> Frame,
                       datesParse: seq<string> -> bool, faults: set<Step>): (Outcome, seq<string>)
  {
    match sqlResult
    case Err(e) => (HttpError(BadRequest, e), [])
    case Ok(sql) =>
      if !IsSafeSql(sql) then (HttpError(BadRequest, UnsafeSqlMessage), [])
      else
        match engine(sql)
        case Err(e) => (HttpError(BadRequest, ExecutionErrorPrefix + e), [sql])
        case Ok(c) =>
          var rows := ZipRows(c);
          var base := Initial.(sqlQuery := sql, tableResult := rows);
          var analysed := if |rows| == 0 then base else Analysed(base, toFrame(rows), datesParse, faults);
          if WantsPrediction(question) then
            (Answered(WithPrediction(analysed, engine(FullTableQuery), readFrame, question)), [sql, FullTableQuery])
          else (Answered(analysed), [sql])
  }

  // ---------------------------------------------------------------------
  // The handler
  // ---------------------------------------------------------------------

  /** `analyze_data`: `result` is filled in field by field; a `ValueError`
      from text-to-SQL or from the query, and the refused SQL, end the
      request with status 400. */
  method AnalyzeData(question: string, schema: Dict<string, string>, sampleRows: seq<Row>,
                     slot: ClientSlot, envKey: Option<string>,
                     complete: (string, ChatRequest) -> Result<string, string>,
                     store: Store, toFrame: seq<Row> -> Frame, readFrame: Cursor -> Frame,
                     datesParse: seq<string> -> bool, faults: set<Step>)
    returns (r: Outcome)
    modifies slot, store
    ensures var run := AnalyzeSpec(SqlFor(ActiveKey(HeldKey(old(slot.client)), envKey), question, schema, complete),
                                   store.engine, question, toFrame, readFrame, datesParse, faults);
            r == run.0 && store.executed == old(store.executed) + run.1
    ensures HeldKey(slot.client) == ActiveKey(HeldKey(old(slot.client)), envKey)
  {
    var sql := NlToSql(question, schema, sampleRows, slot, envKey, complete);
    if sql.Err? {
      return HttpError(BadRequest, sql.error);
    }
    r := RunQuery(sql.value, store, question, toFrame, readFrame, datesParse, faults);
  }

  /** Steps 2 to 6 once the SQL text is known. */
  method RunQuery(sql: string, store: Store, question: string, toFrame: seq<Row> -> Frame,
                  readFrame: Cursor -> Frame, datesParse: seq<string> -> bool, faults: set<Step>)
    returns (r: Outcome)
    modifies store
    ensures var run := AnalyzeSpec(Ok(sql), store.engine, question, toFrame, readFrame, datesParse, faults);
            r == run.0 && store.executed == old(store.executed) + run.1
  {
    var result := Initial.(sqlQuery := sql);
    var ok := ValidateSql(sql);
    if !ok {
      return HttpError(BadRequest, UnsafeSqlMessage);
    }
    var table := ExecuteQuery(store, sql);
    if table.Err? {
      return HttpError(BadRequest, table.error);
    }
    result := result.(tableResult := table.value);
    if |table.value| > 0 {
      result := AnalyseRows(result, toFrame(table.value), datesParse, faults);
    }
    if WantsPrediction(question) {
      result := AddPrediction(result, store, readFrame, question);
    }
    r := Answered(result);
  }

  /** Steps 3 to 5, each behind its own exception handler. */
  method AnalyseRows(r0: Response, df: Frame, datesParse: seq<string> -> bool, faults: set<Step>)
    returns (r: Response)
    ensures r == Analysed(r0, df, datesParse, faults)
  {
    r := r0;
    if ChartStep !in faults {
      r := r.(chart := Charts.GenerateChart(df, None, datesParse));
    }
    if StatsStep !in faults {
      var stats := Analysis.ComputeStats(df);
      r := r.(stats := stats);
    }
    if InsightsStep !in faults {
      var insights := Analysis.GenerateInsights(df, r.stats);
      r := r.(insights := Rules(insights));
    }
  }

  /** Step 6: read the whole table and forecast; the forecast sentence joins
      the insights when the reported (rounded) value is not zero. */
  method AddPrediction(r0: Response, store: Store, readFrame: Cursor -> Frame, question: string)
    returns (r: Response)
    modifies store
    ensures r == WithPrediction(r0, store.engine(FullTableQuery), readFrame, question)
    ensures store.executed == old(store.executed) + [FullTableQuery]
  {
    r := r0;
    var full := store.Execute(FullTableQuery);
    match full
    case Err(e) =>
      r := r.(prediction := Raised(e));
    case Ok(c) =>
      var p := Prediction.Predict(readFrame(c), question);
      r := r.(prediction := Returned(p));
      if p.Predicted? && Prediction.ReportedNonZero(p.value) {
        r := r.(insights := r.insights + [Forecast(p.message)]);
      }
  }

  // ---------------------------------------------------------------------
  // What the pipeline guarantees
  // ---------------------------------------------------------------------

  /** Every statement the pipeline sends to the database passes the gate. */
  lemma OnlySafeStatementsRun(sqlResult: Result<string, string>, engine: string -> Result<Cursor, string>,
                              question: string, toFrame: seq<Row> -> Frame, readFrame: Cursor -> Frame,
                              datesParse: seq<string> -> bool, faults: set<Step>)
    ensures var sent := AnalyzeSpec(sqlResult, engine, question, toFrame, readFrame, datesParse, faults).1;
            forall i :: 0 <= i < |sent| ==> IsSafeSql(sent[i])
  {
    SelectAllIsSafe();
  }

  /** A failed text-to-SQL call and generated SQL the gate refuses both end
      the request with 400 before the database is touched. Accepted SQL is
      answered exactly when the engine runs it; an engine error is the third
      400, carrying the execution-error text. */
  lemma RejectedBeforeExecution(sqlResult: Result<string, string>, engine: string -> Result<Cursor, string>,
                                question: string, toFrame: seq<Row> -> Frame, readFrame: Cursor -> Frame,
                                datesParse: seq<string> -> bool, faults: set<Step>)
    ensures var run := AnalyzeSpec(sqlResult, engine, question, toFrame, readFrame, datesParse, faults);
      && (sqlResult.Err? ==> run == (HttpError(BadRequest, sqlResult.error), []))
      && (sqlResult.Ok? && !IsSafeSql(sqlResult.value) ==> run == (HttpError(BadRequest, UnsafeSqlMessage), []))
      && (run.0.Answered? ==> sqlResult.Ok? && IsSafeSql(sqlResult.value) && |run.1| > 0 && run.1[0] == sqlResult.value
                              && run.0.response.sqlQuery == sqlResult.value)
      && (sqlResult.Ok? && IsSafeSql(sqlResult.value) ==>
            && (run.0.Answered? <==> engine(sqlResult.value).Ok?)
            && (engine(sqlResult.value).Err? ==>
                  run == (HttpError(BadRequest, ExecutionErrorPrefix + engine(sqlResult.value).error), [sqlResult.value])))
  {
  }

  /** A query that returns no rows leaves chart and statistics at their
      defaults, and `insights` holds at most the forecast sentence. */
  lemma NoRowsKeepDefaults(sqlResult: Result<string, string>, engine: string -> Result<Cursor, string>,
                           question: string, toFrame: seq<Row> -> Frame, readFrame: Cursor -> Frame,
                           datesParse: seq<string> -> bool, faults: set<Step>)
    ensures var out := AnalyzeSpec(sqlResult, engine, question, toFrame, readFrame, datesParse, faults).0;
      out.Answered? && out.response.tableResult == [] ==>
        && out.response.chart == Charts.NoChart
        && out.response.stats == []
        && |out.response.insights| <= 1
        && forall i :: 0 <= i < |out.response.insights| ==> out.response.insights[i].Forecast?
  {
  }

  /** A raising step leaves only its own field at the default: the chart
      depends on the chart step alone, the statistics on the statistics step
      alone, the insights on those two, and neither the prediction nor the
      statements sent depend on any of them. */
  lemma FaultsStayLocal(sqlResult: Result<string, string>, engine: string -> Result<Cursor, string>,
                        question: string, toFrame: seq<Row> -> Frame, readFrame: Cursor -> Frame,
                        datesParse: seq<string> -> bool, faults1: set<Step>, faults2: set<Step>)
    ensures var run1 := AnalyzeSpec(sqlResult, engine, question, toFrame, readFrame, datesParse, faults1);
      var run2 := AnalyzeSpec(sqlResult, engine, question, toFrame, readFrame, datesParse, faults2);
      && run1.1 == run2.1
      && (run1.0.Answered? <==> run2.0.Answered?)
      && (run1.0.Answered? ==>
            var a, b := run1.0.response, run2.0.response;
            && a.tableResult == b.tableResult
            && a.prediction == b.prediction
            && ((ChartStep in faults1 <==> ChartStep in faults2) ==> a.chart == b.chart)
            && ((StatsStep in faults1 <==> StatsStep in faults2) ==> a.stats == b.stats)
            && (((StatsStep in faults1 <==> StatsStep in faults2) && (InsightsStep in faults1 <==> InsightsStep in faults2))
                ==> a.insights == b.insights))
  {
    match sqlResult
    case Err(_) =>
    case Ok(sql) =>
      if IsSafeSql(sql) {
        match engine(sql)
        case Err(_) =>
        case Ok(c) =>
          var rows := ZipRows(c);
          var base := Initial.(sqlQuery := sql, tableResult := rows);
          var a1 := if |rows| == 0 then base else Analysed(base, toFrame(rows), datesParse, faults1);
          var a2 := if |rows| == 0 then base else Analysed(base, toFrame(rows), datesParse, faults2);
          if WantsPrediction(question) {
            WithPredictionKeeps(a1, engine(FullTableQuery), readFrame, question);
            WithPredictionKeeps(a2, engine(FullTableQuery), readFrame, question);
          }
      }
  }

  /** A raising step's own field keeps its initial value: no chart, `{}` for
      the statistics, and no rule-based insight (at most the forecast
      sentence). */
  lemma FaultsKeepDefaults(sqlResult: Result<string, string>, engine: string -> Result<Cursor, string>,
                           question: string, toFrame: seq<Row> -> Frame, readFrame: Cursor -> Frame,
                           datesParse: seq<string> -> bool, faults: set<Step>)
    ensures var out := AnalyzeSpec(sqlResult, engine, question, toFrame, readFrame, datesParse, faults).0;
      out.Answered? ==>
        && (ChartStep in faults ==> out.response.chart == Charts.NoChart)
        && (StatsStep in faults ==> out.response.stats == [])
        && (InsightsStep in faults ==>
              && |out.response.insights| <= 1
              && forall i :: 0 <= i < |out.response.insights| ==> out.response.insights[i].Forecast?)
  {
  }

  /** The forecast step changes only `prediction` and the end of `insights`. */
  lemma WithPredictionKeeps(r: Response, read: Result<Cursor, string>, readFrame: Cursor -> Frame, question: string)
    ensures var w := WithPrediction(r, read, readFrame, question);
      && w.sqlQuery == r.sqlQuery && w.tableResult == r.tableResult && w.chart == r.chart && w.stats == r.stats
      && w.insights == r.insights + (if w.prediction.Returned? && w.prediction.p.Predicted? && Prediction.ReportedNonZero(w.prediction.p.value)
                                     then [Forecast(w.prediction.p.message)] else [])
      && (read.Err? ==> w.prediction == Raised(read.error))
      && (read.Ok? ==> w.prediction == Returned(Prediction.Predict(readFrame(read.value), question)))
  {
  }

  /** A forecast is attempted exactly when the question asks for one, and it
      is made from the whole table, read with its own statement, whatever the
      generated query returned. */
  lemma PredictionOnlyWhenAsked(sqlResult: Result<string, string>, engine: string -> Result<Cursor, string>,
                                question: string, toFrame: seq<Row> -> Frame, readFrame: Cursor -> Frame,
                                datesParse: seq<string> -> bool, faults: set<Step>)
    ensures var run := AnalyzeSpec(sqlResult, engine, question, toFrame, readFrame, datesParse, faults);
      run.0.Answered? ==>
        var p := run.0.response.prediction;
        && (p.NotAttempted? <==> !WantsPrediction(question))
        && run.1 == [sqlResult.value] + (if WantsPrediction(question) then [FullTableQuery] else [])
        && (p.Raised? ==> engine(FullTableQuery) == Err(p.error))
        && (p.Returned? ==> engine(FullTableQuery).Ok?
                            && p.p == Prediction.Predict(readFrame(engine(FullTableQuery).value), question))
  {
  }

  /** The forecast sentence is appended to `insights`, after every rule-based
      insight, exactly when a value was predicted and its rounded value is
      not zero. */
  lemma ForecastNoteWhenNonZero(sqlResult: Result<string, string>, engine: string -> Result<Cursor, string>,
                                question: string, toFrame: seq<Row> -> Frame, readFrame: Cursor -> Frame,
                                datesParse: seq<string> -> bool, faults: set<Step>)
    ensures var out := AnalyzeSpec(sqlResult, engine, question, toFrame, readFrame, datesParse, faults).0;
      out.Answered? ==> ForecastIsLast(out.response)
  {
    match sqlResult
    case Err(_) =>
    case Ok(sql) =>
      if IsSafeSql(sql) {
        match engine(sql)
        case Err(_) =>
        case Ok(c) =>
          var rows := ZipRows(c);
          var base := Initial.(sqlQuery := sql, tableResult := rows);
          var analysed := if |rows| == 0 then base else Analysed(base, toFrame(rows), datesParse, faults);
          if |rows| > 0 {
            AnalysedRules(base, toFrame(rows), datesParse, faults);
          }
          if WantsPrediction(question) {
            ForecastLast(analysed, engine(FullTableQuery), readFrame, question);
          } else {
            RulesOnly(analysed);
          }
      }
  }

  /** Every note but the last is rule-based, and the last is the forecast
      sentence exactly when a value was predicted whose rounding is not zero,
      with the
      prediction's own message. */
  predicate ForecastIsLast(r: Response) {
    var notes := r.insights;
    && (forall i :: 0 <= i < |notes| - 1 ==> notes[i].Rule?)
    && (|notes| > 0 && notes[|notes| - 1].Forecast? <==>
          r.prediction.Returned? && r.prediction.p.Predicted? && Prediction.ReportedNonZero(r.prediction.p.value))
    && (|notes| > 0 && notes[|notes| - 1].Forecast? ==>
          r.prediction.Returned? && notes[|notes| - 1].message == r.prediction.p.message)
  }

  predicate AllRules(notes: seq<Note>) {
    forall i :: 0 <= i < |notes| ==> notes[i].Rule?
  }

  /** Steps 3 to 5 add only rule-based insights and leave `prediction` alone. */
  lemma AnalysedRules(r: Response, df: Frame, datesParse: seq<string> -> bool, faults: set<Step>)
    requires AllRules(r.insights)
    ensures var a := Analysed(r, df, datesParse, faults);
      AllRules(a.insights) && a.prediction == r.prediction
  {
  }

  /** Without a forecast there are only rule-based notes. */
  lemma RulesOnly(r: Response)
    requires AllRules(r.insights) && r.prediction.NotAttempted?
    ensures ForecastIsLast(r)
  {
  }

  /** After rule-based insights only, step 6 appends the forecast sentence
      exactly when a value was predicted whose rounding is not zero. */
  lemma ForecastLast(r: Response, read: Result<Cursor, string>, readFrame: Cursor -> Frame, question: string)
    requires AllRules(r.insights)
    ensures ForecastIsLast(WithPrediction(r, read, readFrame, question))
  {
    var w := WithPrediction(r, read, readFrame, question);
    if read.Ok? && w.prediction.p.Predicted? && Prediction.ReportedNonZero(w.prediction.p.value) {
      assert w.insights == r.insights + [Forecast(w.prediction.p.message)];
    }
  }
}
