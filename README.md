# InsightAI analysis service, modelled in Dafny

This project models the Python microservice behind a natural-language BI
tool, and proves properties of the model. A user uploads a CSV file and
asks a question in plain words. The service then:

1. has a language model turn the question into SQL;
2. passes the SQL through a SELECT-only safety gate;
3. queries the SQLite copy of the upload;
4. picks a chart for the result;
5. computes column statistics and rule-based insights;
6. when the question asks for one, makes a linear-regression forecast over the whole table.

One Dafny module per source file:

| module | file | models |
|---|---|---|
| `Common` | — | `Option`/`Result`, ASCII string helpers (`strip`, `upper`, `lower`, `replace`, `startswith`, `in`), sums, means, minima and maxima over reals |
| `Frames` | — | cells, columns and frames (pandas `DataFrame` as data), and the insertion-ordered dictionary (`Dict`) with `dict(zip(...))` semantics |
| `Database` | `services/database.py` | column-name cleaning, the `.db` path, `csv_to_sqlite`, the `validate_sql` gate, the SQLite store as a class, `execute_query` |
| `Llm` | `services/llm.py` | the prompt, the request constants, the clean-up of the model's reply, the lazily created client as a class, `nl_to_sql` |
| `Analysis` | `services/analysis.py` | `compute_stats`, `detect_trends` and `generate_insights`, with the groupby-sum behind the top-contributor insight |
| `Prediction` | `services/prediction.py` | `detect_time_column`, `detect_target_column`, the least-squares line over the row index, `predict` |
| `Charts` | `services/charts.py` | `detect_chart_type` and what `generate_chart` draws for each chart kind |
| `App` | `main.py` | the `/analyze` handler: the order of the steps, the 400 paths, the per-step exception handlers, the forecast step |

## Modelling choices

- **Loops are methods.** `validate_sql`, `compute_stats`, `detect_trends`,
  `detect_time_column`, `detect_target_column` and `csv_to_sqlite` become
  methods with loops. Each method is proved equal to a specification
  function, and the properties are proved about that function.
  `generate_insights` is a method too, but it has no loop. Its loop for
  the range insight stops with `break` at the first statistics entry that
  has a min and a max. Every entry has both, so that is always the first
  entry, and the method reads that entry directly (`Analysis.RangeOf`).
- **Mutable state is a class.**
  - The module-level Groq client of `llm.py` is the object field
    `ClientSlot.client`.
  - The SQLite database is the class `Store`. Its engine is a function
    from statement to cursor-or-error. A ghost log, `executed`, records
    every statement handed to the engine. This makes "every statement sent
    to the database passed the gate" a provable property.
- **Outside calls are parameters.**
  - The Groq chat call is `complete(key, request)`.
  - The `GROQ_API_KEY` environment variable is `envKey`.
  - pandas' construction of a frame from rows is `toFrame`, and
    `pd.read_sql` over a cursor is `readFrame`.
  - `pd.to_datetime(..., format='mixed')` succeeding is `datesParse`.
- **Columns carry their dtype as a flag.** Each column says whether pandas
  inferred a numeric dtype. Each number keeps the text `astype(str)` gives
  it, because the time tests read that text.
- **Exceptions are cases.** An exception inside a chart, statistics or
  insights step of `/analyze` is modelled by naming that step in
  `faults`. Each step's handler leaves its field at its previous value.

### Behaviour of the code as written (proved, and kept in the model)

- A series whose values are all one negative constant is reported as an
  upward trend (`Analysis.ConstantSeriesTrend`). With a negative first-half
  mean, `second > first * 1.1` holds for equal halves.
- A column whose values are all missing passes the "70% look like dates"
  test, since `0 >= 0 * 0.7` (`Prediction.AllNullColumnLooksLikeTime`). It
  is chosen as the time column when it comes first.
- The safety gate accepts `created_at`: `CREATE` does not stand there as a
  whole word (`Database.GluedKeywordAccepted`). It also accepts a second
  statement after `;` when no deny-listed word occurs
  (`Database.SecondStatementAccepted`).
- When the detected target column is the time column itself, pandas
  selects a two-column frame for `y`. Converting the two-valued forecast
  to `float` then raises, and `predict` returns its `Prediction failed`
  error. This is the `Failed` case of `Prediction.Forecast`.
- The gate does not strip SQL comments, and `ATTACH` and `PRAGMA` are
  not on its deny-list. It does not count statements or check which tables
  a query names. No row cap is put on the result, and a rejected query is
  not sent back to the model for a second try. The model has none of these
  either.

## Model

| member | source | states |
|---|---|---|
| `Database.CleanColumnName` | python-service/services/database.py:19-22 | the clean name has the stripped name's length; each character is lower-cased when it is a letter, digit or `_`, and replaced by `_` otherwise; only lower-case letters, digits and `_` remain |
| `Database.CleanColumnNameIdempotent` | python-service/services/database.py:19-22 | cleaning an already clean name leaves it unchanged |
| `Database.LastIndexOf` | python-service/services/database.py:25 | the split point of `rsplit('.', 1)`: none exactly when there is no dot, otherwise a dot with no dot after it |
| `Database.DbPath` | python-service/services/database.py:25 | the path always ends in `.db`; without a dot it is the path plus `.db`, otherwise the text before the last dot plus `.db` |
| `Database.DbPathOfCsv` | python-service/services/database.py:25 | `x.csv` maps to `x.db` |
| `Database.DbPathIdempotent` | python-service/services/database.py:25 | deriving the path of a `.db` path gives the same path |
| `Frames.FromPairsKeys` | python-service/services/database.py:35-41 | a dict filled key by key has distinct keys, exactly the keys assigned |
| `Frames.FromPairsLastWins` | python-service/services/database.py:41 | a repeated key holds the value of its last assignment |
| `Database.CsvToSqlite` | python-service/services/database.py:10-58 | fails exactly when two headers clean to the same name, which makes `to_sql` raise; otherwise the upload record `UploadOf`: the derived `.db` path, table `data`, the cleaned names in header order as the column list, each cleaned name paired with its declared SQLite type as the schema (what `PRAGMA table_info` reports), the first five rows (or all rows when fewer) keyed by the cleaned names, and the row count |
| `Database.UploadColumnsClean` | python-service/services/database.py:19-41 | the columns of an upload are distinct, and each is made only of lower-case letters, digits and `_`; the schema's keys are exactly the columns in order, and each column maps to its own declared type |
| `Database.HeadersCollide` | python-service/services/database.py:19-29 | `First Name` and `first_name` clean to the same name `first_name`, so a CSV with both headers cannot be uploaded |
| `Database.CleanNames` | python-service/services/database.py:19-22 | defines the cleaned header, one `CleanColumnName` per header, in order; its properties are those of `CleanColumnName` and `Database.UploadColumnsClean` |
| `Database.UploadOf` | python-service/services/database.py:25-58 | defines the upload record `CsvToSqlite` returns for distinct cleaned names; `Database.UploadColumnsClean` states its properties |
| `Database.ValidateSql` | python-service/services/database.py:79-96 | the loop over the deny-list in order returns exactly the gate's verdict `IsSafeSql` (no deny-listed whole word in the stripped, upper-cased text, which starts with `SELECT` or `WITH`) |
| `Database.HasWord` | python-service/services/database.py:89 | defines `re.search(rf'\b{w}\b', s)`: `w` occurs at an offset with no word character on either side; `Database.RejectsDenyListedWord`, `Database.GluedKeywordAccepted` and `Database.SecondStatementAccepted` state what it accepts and refuses |
| `Database.IsSafeSql` | python-service/services/database.py:79-96 | defines the gate's verdict on the stripped, upper-cased text: no deny-listed whole word, and a `SELECT` or `WITH` prefix; `Database.ValidateSql` is proved to compute it, and the lemmas below state its properties |
| `Database.RejectsDenyListedWord` | python-service/services/database.py:84-90 | a deny-listed word, in any casing, standing as a whole word anywhere in the text makes the gate refuse it |
| `Database.VerdictIgnoresCase` | python-service/services/database.py:84 | two texts that upper-case alike get the same verdict |
| `Database.VerdictUnderRecasing` | python-service/services/database.py:84 | upper-casing or lower-casing a statement does not change its verdict |
| `Database.VerdictIgnoresSurroundingSpace` | python-service/services/database.py:84 | white space around a statement does not change its verdict |
| `Database.AcceptedStartsWithSelectOrWith` | python-service/services/database.py:92-96 | every accepted statement, stripped and upper-cased, starts with `SELECT` or `WITH` |
| `Database.SelectAllIsSafe` | python-service/services/database.py:79-96 | the full-table query `SELECT * FROM data` used for forecasts passes the gate |
| `Database.GluedKeywordAccepted` | python-service/services/database.py:87-96 | ` select created_at from data ` passes: a deny-listed word inside a longer identifier is not a whole word |
| `Database.GluedQueryNormalized` | python-service/services/database.py:84 | stripping and upper-casing ` select created_at from data ` gives `SELECT CREATED_AT FROM DATA` |
| `Database.SecondStatementAccepted` | python-service/services/database.py:79-96 | `SELECT 1; PRAGMA foo` passes: the gate counts no statements and does not list `PRAGMA` |
| `Database.DropRejected` | python-service/services/database.py:87-90 | `DROP TABLE data; SELECT 1` is refused |
| `Database.WithDeleteRejected` | python-service/services/database.py:87-94 | a `WITH` query that deletes is refused although it starts with `WITH` |
| `Database.Store.constructor` | python-service/services/database.py:107 | a fresh connection whose engine is the given one and which has been handed no statement yet |
| `Database.Store.Execute` | python-service/services/database.py:111-113 | the cursor or error is the engine's answer to the statement, and the statement is appended to the log of statements handed to the engine |
| `Database.ZipRows` | python-service/services/database.py:113-114 | one row per fetched row, in fetch order, each the zip of the column names with that row's values |
| `Database.ZipRowFacts` | python-service/services/database.py:114 | a zipped row's keys are exactly the column names, without repeats, and a name maps to the value of its last occurrence |
| `Database.ZipRowDistinct` | python-service/services/database.py:114 | with distinct column names the row is exactly the name/value pairs in column order |
| `Database.ExecuteQuery` | python-service/services/database.py:99-119 | a refused statement gives the blocked-query error and reaches no engine; an accepted one is handed to the engine exactly once, and the result is its rows zipped with the column names, or the engine's error behind `SQL execution error: ` |
| `Llm.SchemaEntries` | python-service/services/llm.py:39 | one `name (type)` entry per schema entry, in schema order |
| `Llm.SchemaString` | python-service/services/llm.py:39 | defines the schema line, the entries joined by `, `; `Llm.JoinHasPart` and `Llm.PromptHasColumn` state what it contains |
| `Llm.Prompt` | python-service/services/llm.py:41-48 | defines the user message: table line, schema line, rules, question; `Llm.PromptHasQuestion`, `Llm.PromptHasColumn` and `Llm.PromptDeterminesQuestion` state its properties |
| `Llm.JoinHasPart` | python-service/services/llm.py:39 | every part of a `", ".join` occurs in the result, at the offset returned |
| `Llm.PromptHasQuestion` | python-service/services/llm.py:41-48 | the prompt contains the question verbatim |
| `Llm.PromptHasColumn` | python-service/services/llm.py:39-48 | the prompt contains every column's `name (type)` entry |
| `Llm.PromptDeterminesQuestion` | python-service/services/llm.py:41-48 | two questions with the same prompt over one schema are the same question |
| `Llm.WordRun` | python-service/services/llm.py:71 | the length of the `\w*` run at the start: all word characters, and the next character is not one |
| `Llm.CleanSql` | python-service/services/llm.py:68-76 | defines the clean-up of the reply: strip, drop an opening and a closing fence, strip again, drop trailing `;`; `Llm.CleanSqlEnds`, `Llm.FencedReply`, `Llm.UnfencedReply` and the fence lemmas state its properties |
| `Llm.CleanSqlEnds` | python-service/services/llm.py:68-76 | cleaned SQL never ends with `;` and never starts with white space |
| `Llm.FencedReply` | python-service/services/llm.py:68-76 | a reply fenced as ```` ```tag ```` … ```` ``` ```` cleans to its stripped body without trailing semicolons |
| `Llm.OpeningFenceDropped` | python-service/services/llm.py:71 | the opening fence with a word tag and its newline is removed, and nothing else |
| `Llm.ClosingFenceDropped` | python-service/services/llm.py:72 | a newline and closing fence at the end are removed, and nothing else |
| `Llm.UnfencedReply` | python-service/services/llm.py:68-76 | a reply without fences at either end cleans to its stripped text without trailing semicolons |
| `Llm.LlmClient.constructor` | python-service/services/llm.py:21 | the client holds the key it was created with |
| `Llm.ClientSlot.constructor` | python-service/services/llm.py:10 | no client exists at start |
| `Llm.ClientSlot.GetClient` | python-service/services/llm.py:13-22 | an existing client is returned unchanged; otherwise a missing or placeholder key gives the key error and no client, and a usable key creates, stores and returns a new client with that key |
| `Llm.ActiveKey` | python-service/services/llm.py:15-21 | the key in use: the held client's key, else the environment key when it is usable, else none |
| `Llm.SqlFor` | python-service/services/llm.py:50-81 | without a key the result is the key error behind `Groq API error: `; every error carries that prefix; a success is the cleaned reply to the fixed request (model, system message, prompt, temperature 0.1, 300 tokens) made with the key |
| `Llm.NlToSql` | python-service/services/llm.py:25-81 | the result is `SqlFor` with the key in use, the slot afterwards holds that key's client, and a client that existed is kept |
| `Analysis.SquaredDeviationsNonNegative` | python-service/services/analysis.py:28 | the sum of squared deviations behind the sample spread is never negative |
| `Analysis.StatsOf` | python-service/services/analysis.py:22-32 | defines the statistics of one non-empty series: mean, spread, min, max and count; `Analysis.StatsOfFacts` states its properties |
| `Analysis.StatsSpec` | python-service/services/analysis.py:8-34 | defines `compute_stats` over a frame: nothing without numeric columns or rows, else one entry per numeric column with values; `Analysis.ComputeStats` is proved to compute it, and `Analysis.StatsSpecEntries` and `Analysis.StatsEmptyWithoutNumeric` state its properties |
| `Analysis.StatsOfFacts` | python-service/services/analysis.py:22-32 | for a non-empty series: `min <= mean <= max`, every value lies in `[min, max]`, `count` is the length, the spread is the single-value 0 exactly for one value, and otherwise a non-negative variance |
| `Analysis.ComputeStats` | python-service/services/analysis.py:8-34 | the loop builds exactly `StatsSpec`: nothing without numeric columns or rows, else one entry per numeric column with values, in column order |
| `Analysis.NumericColumnsMembers` | python-service/services/analysis.py:15 | `select_dtypes(include='number')` keeps exactly the numeric columns |
| `Analysis.StatsOverEntries` | python-service/services/analysis.py:20-32 | every entry is the statistics of a column with values under its name, and every column with values has its entry |
| `Analysis.StatsEmptyWithoutNumeric` | python-service/services/analysis.py:15-18 | a frame without numeric columns has no statistics |
| `Analysis.StatsSpecEntries` | python-service/services/analysis.py:15-32 | every entry belongs to a numeric column with values, and its count is the column's non-null count; with rows, every such column has its entry |
| `Analysis.StatsOverOrdered` | python-service/services/analysis.py:29-30 | every entry's `min` is at most its `max` |
| `Analysis.Classify` | python-service/services/analysis.py:57-62 | upward exactly when the second half mean exceeds 1.1 times the first; otherwise downward exactly when it is below 0.9 times; stable otherwise |
| `Analysis.Trended` | python-service/services/analysis.py:47-50 | only series of at least three non-null values are kept |
| `Analysis.TrendsSpec` | python-service/services/analysis.py:44-64 | defines the trend notes of the numeric columns; `Analysis.DetectTrends` is proved to compute it, and `Analysis.TrendsSpecOnePerColumn` states its properties |
| `Analysis.TrendedMembers` | python-service/services/analysis.py:47-50 | a column is kept exactly when it has at least three non-null values |
| `Analysis.DetectTrends` | python-service/services/analysis.py:37-64 | the loop builds exactly `TrendsSpec`, the trend notes of the numeric columns |
| `Analysis.TrendsOverOnePerColumn` | python-service/services/analysis.py:47-62 | one note per column with three or more values, in column order, each the half-versus-half note of that column |
| `Analysis.TrendsSpecOnePerColumn` | python-service/services/analysis.py:45-62 | one note per numeric column with at least three values, in order, each that column's half-versus-half note |
| `Analysis.TrendHalves` | python-service/services/analysis.py:53-55 | splitting at `len // 2` gives a non-empty first half no longer than the second, which together make the series |
| `Analysis.DirectionAgreesWithMeans` | python-service/services/analysis.py:57-62 | for a positive first half mean, upward means the second mean is larger, downward means it is smaller, and a change within 10% is stable |
| `Analysis.ConstantSeriesTrend` | python-service/services/analysis.py:57-62 | a constant series is stable, except that a negative constant is upward |
| `Analysis.GroupSums` | python-service/services/analysis.py:89 | defines `groupby(cat)[num].sum()` over rows, in first-appearance order; `Analysis.GroupSumsKeys` and `Analysis.GroupSumsMeaning` state its properties |
| `Analysis.GroupSumsKeys` | python-service/services/analysis.py:89 | the groups are the distinct non-null category values of the rows |
| `Analysis.GroupSumsMeaning` | python-service/services/analysis.py:89 | each group's sum is the sum of the measure over the rows with that category value (a missing measure counts 0) |
| `Analysis.TopIndex` | python-service/services/analysis.py:89-92 | the index of a group whose sum is the largest |
| `Analysis.TopGroupMaximal` | python-service/services/analysis.py:89-92 | the top group is a non-null category of the rows, and no category's sum exceeds its sum |
| `Analysis.TopContributorOf` | python-service/services/analysis.py:84-99 | defines the top-contributor insight; `Analysis.TopContributorMaximal` and `Analysis.TopShareIsPercentage` state its properties |
| `Analysis.RangeOf` | python-service/services/analysis.py:101-108 | defines the range insight of the first statistics entry; `Analysis.RangeSpanNonNegative` states its properties |
| `Analysis.TopContributorMaximal` | python-service/services/analysis.py:84-99 | the top contributor is reported only for frames with a non-numeric and a numeric column and at least two groups; it names the first non-numeric column, the first numeric column and a largest-sum group |
| `Analysis.TopShareIsPercentage` | python-service/services/analysis.py:93-94 | with non-negative group sums the top group's share is a percentage between 0 and 100 |
| `Analysis.RangeSpanNonNegative` | python-service/services/analysis.py:101-108 | the range insight has `low <= high` and a non-negative span |
| `Analysis.TrendInsights` | python-service/services/analysis.py:111-112 | one trend insight per trend note, in order |
| `Analysis.InsightsSpec` | python-service/services/analysis.py:67-117 | defines `generate_insights`; `Analysis.GenerateInsights` is proved to compute it, and `Analysis.InsightsOfEmpty` and `Analysis.InsightsShape` state its properties |
| `Analysis.GenerateInsights` | python-service/services/analysis.py:67-117 | the method builds exactly `InsightsSpec`: top contributor, the first range, at most two trends, the size summary |
| `Analysis.InsightsOfEmpty` | python-service/services/analysis.py:76-77 | an empty frame has no insights |
| `Analysis.InsightsShape` | python-service/services/analysis.py:79-117 | for a non-empty frame the last insight is the summary of rows and columns; there is at most one top contributor, at most one range and at most two trend insights |
| `Prediction.TimeColumnSpec` | python-service/services/prediction.py:11-43 | the first column whose sample looks like dates (70% of its first ten non-null texts match a date pattern); when none does, the first column whose name holds a time keyword; else none |
| `Prediction.DetectTimeColumn` | python-service/services/prediction.py:11-43 | the two loops return the name of the column `TimeColumnSpec` chooses |
| `Prediction.TimeSpecByPattern` | python-service/services/prediction.py:18-35 | the first column that looks like dates is the one chosen |
| `Prediction.TimeSpecByName` | python-service/services/prediction.py:37-41 | when no column looks like dates, the first column with a time keyword in its name is chosen |
| `Prediction.AllNullColumnLooksLikeTime` | python-service/services/prediction.py:29-35 | a column without values passes the date test |
| `Prediction.AllDatesLookLikeTime` | python-service/services/prediction.py:22-35 | a column whose values all match a date pattern passes the date test |
| `Prediction.DatePatternExamples` | python-service/services/prediction.py:22-27 | `2024-01-15`, `15/01/2024`, `2024-03` and `2024` match a date pattern; `2024.0` does not |
| `Prediction.TargetSpec` | python-service/services/prediction.py:46-62 | none exactly without numeric columns; otherwise the first numeric column named in the question (with `_` as space, any case), and the first numeric column when none is named |
| `Prediction.DetectTargetColumn` | python-service/services/prediction.py:46-62 | the loop returns the name of the column `TargetSpec` chooses |
| `Prediction.IndexSumClosed` | python-service/services/prediction.py:101-106 | the sum of the row indices `0..n-1` is `n(n-1)/2` |
| `Prediction.IndexSquareSumClosed` | python-service/services/prediction.py:101-106 | the sum of their squares is `(n-1)n(2n-1)/6` |
| `Prediction.DeterminantPositive` | python-service/services/prediction.py:101-106 | from two rows on, the least-squares system over the row index has a unique solution |
| `Prediction.FitOfExactLine` | python-service/services/prediction.py:101-110 | values on a line `a + b·i` fit to slope `b` and intercept `a`, and the next value is `a + b·n` |
| `Prediction.SlopeTrend` | python-service/services/prediction.py:117-123 | upward exactly for a positive slope, downward for a negative one, stable for zero |
| `Prediction.ConstantSeriesForecast` | python-service/services/prediction.py:105-123 | a constant series has slope 0, is stable, and forecasts its constant |
| `Prediction.FitLine` | python-service/services/prediction.py:101-106 | defines the least-squares line over the row index; `Prediction.FitOfExactLine` and `Prediction.ConstantSeriesForecast` state its properties |
| `Prediction.CompleteTargets` | python-service/services/prediction.py:93 | defines the target values of the rows where neither the time nor the target cell is null, in row order; used by `Prediction.ForecastFromTargets` |
| `Prediction.Forecast` | python-service/services/prediction.py:94-137 | defines the forecast once both columns are chosen; `Prediction.ForecastFromTargets` and `Prediction.ConstantTargetForecast` state its properties |
| `Prediction.Predict` | python-service/services/prediction.py:65-137 | defines `predict`; `Prediction.PredictErrorOrder` and `Prediction.ForecastFromTargets` state its properties |
| `Prediction.ReportedNonZero` | python-service/services/prediction.py:126 | defines when `round(value, 2)` is truthy; `App.ForecastNoteWhenNonZero` and `App.ForecastLast` state its use |
| `Prediction.PredictErrorOrder` | python-service/services/prediction.py:77-98 | no time column is reported first, then no numeric column; with both columns found, fewer than three complete rows is too few points, and too few points means both columns were found; a forecast means both columns were found |
| `Prediction.ForecastFromTargets` | python-service/services/prediction.py:93-137 | a forecast is made exactly from three complete rows on, when the target is not the time column; fewer than three rows is too few points, checked before the target-is-time failure; its value is the fitted line at the next index, its trend follows the slope's sign, and its message carries the target with `_` as space |
| `Prediction.ConstantTargetForecast` | python-service/services/prediction.py:101-131 | a constant target forecasts its constant with a stable trend |
| `Charts.ColumnTexts` | python-service/services/charts.py:32 | one text per cell: a number's own text, a missing number `nan`, a missing object `None` |
| `Charts.DetectChartType` | python-service/services/charts.py:13-60 | bar for an empty frame; histogram exactly for a single numeric column; line exactly for two or more columns whose first is time-like or with more than 15 rows; pie exactly for two or more columns, a first column that is not time-like, at most 6 rows, a numeric column and a non-numeric name; never scatter |
| `Charts.SingleColumnNumeric` | python-service/services/charts.py:27-28 | one column is one numeric column exactly when it is numeric |
| `Charts.NonNumericByName` | python-service/services/charts.py:23-24 | with distinct names, the name-based non-numeric test finds exactly a column whose dtype is not numeric |
| `Charts.FallbackReadsThreeValues` | python-service/services/charts.py:46 | the pattern fallback depends only on the first three values |
| `Charts.NullTextFails` | python-service/services/charts.py:41-46 | the text of a missing value matches no time pattern |
| `Charts.NullBlocksFallback` | python-service/services/charts.py:41-46 | a missing value among the first three defeats the pattern fallback |
| `Charts.YearColumnGivesLine` | python-service/services/charts.py:40-50 | a first column starting with three four-digit years gives a line chart, whatever `to_datetime` does |
| `Charts.FallbackExamples` | python-service/services/charts.py:41-45 | month names in any case and `YYYY/MM` texts pass the fallback; `12345` does not |
| `Charts.TimeLike` | python-service/services/charts.py:30-50 | defines the time test on the x column: `to_datetime` succeeds or the pattern fallback passes; `Charts.FallbackReadsThreeValues`, `Charts.NullBlocksFallback` and `Charts.YearColumnGivesLine` state its properties |
| `Charts.PlanOf` | python-service/services/charts.py:97-155 | defines the chart drawn for a kind from the column names; `Charts.PlanOfUsesColumns` and `Charts.PlanSeries` state its properties |
| `Charts.GenerateChart` | python-service/services/charts.py:63-155 | defines `generate_chart`: nothing for an empty frame, else the plan for the given or detected kind; `Charts.PlanUsesFrameColumns`, `Charts.NoChartCases` and `Charts.DetectedPlanNeverScatter` state its properties |
| `Charts.PlanUsesFrameColumns` | python-service/services/charts.py:63-155 | a chart draws only frame columns and at most five series; pie, line and bar charts need two columns and put the first column on the x axis |
| `Charts.PlanOfUsesColumns` | python-service/services/charts.py:97-152 | the same, for any kind and any numeric names drawn from the column names |
| `Charts.PlanSeries` | python-service/services/charts.py:104-150 | pie values are the first numeric column, else the second column; lines are the first five numeric columns; bars are the first five numeric columns, else the second column |
| `Charts.NoChartCases` | python-service/services/charts.py:74-155 | no chart exactly for an empty frame, or for a single column that is not drawn as a histogram |
| `Charts.DetectedPlanNeverScatter` | python-service/services/charts.py:77-133 | without an explicit `chart_type` a scatter plot is never drawn |
| `App.WantsPrediction` | python-service/main.py:156-157 | defines the keyword test on the lower-cased question; `App.PredictionOnlyWhenAsked` states its use |
| `App.Analysed` | python-service/main.py:129-153 | defines steps 3 to 5 with their per-step handlers; `App.AnalyseRows`, `App.FaultsStayLocal` and `App.AnalysedRules` state its properties |
| `App.WithPrediction` | python-service/main.py:155-168 | defines step 6 given what reading the whole table gave; `App.AddPrediction`, `App.WithPredictionKeeps` and `App.ForecastLast` state its properties |
| `App.AnalyzeSpec` | python-service/main.py:101-177 | defines the handler's outcome and the statements it sends; `App.AnalyzeData` is proved to compute it, and the `App` lemmas below state its properties |
| `App.AnalyzeData` | python-service/main.py:85-177 | the outcome and the statements sent to the database are those of `AnalyzeSpec`, for the SQL that the key in use and the model give |
| `App.RunQuery` | python-service/main.py:117-170 | from known SQL: 400 for refused SQL or an execution error, else the filled result; the statements sent are those of `AnalyzeSpec` |
| `App.AnalyseRows` | python-service/main.py:129-153 | chart, statistics and insights each computed unless their step raises; insights read the `stats` field |
| `App.AddPrediction` | python-service/main.py:155-168 | the full table is read with its own statement; a read error becomes the error field, otherwise the prediction is stored and its sentence appended when the rounded value is not zero |
| `App.OnlySafeStatementsRun` | python-service/main.py:117-160 | every statement the handler sends to the database passes the gate |
| `App.RejectedBeforeExecution` | python-service/main.py:110-177 | a failed text-to-SQL call or refused SQL ends with 400 before any statement is sent; accepted SQL is answered exactly when the engine runs it, and an engine error ends with 400 and `SQL execution error: ` plus the error, after that one statement; an answer means the generated SQL passed, was sent first, and is echoed as `sql_query` |
| `App.NoRowsKeepDefaults` | python-service/main.py:101-129 | a query with no rows leaves chart and statistics at their defaults, and the insights hold at most the forecast sentence |
| `App.FaultsStayLocal` | python-service/main.py:132-153 | a raising step changes only its own field (and insights depend on the statistics step); rows, prediction and statements sent are unaffected |
| `App.FaultsKeepDefaults` | python-service/main.py:101-153 | in an answer, a raising chart step leaves no chart, a raising statistics step leaves `{}`, and a raising insights step leaves no rule-based insight, at most the forecast sentence |
| `App.WithPredictionKeeps` | python-service/main.py:158-168 | the forecast step changes only `prediction` and the end of `insights` |
| `App.PredictionOnlyWhenAsked` | python-service/main.py:155-162 | a forecast is attempted exactly when the question holds a forecast keyword, from the whole table read with its own statement |
| `App.ForecastNoteWhenNonZero` | python-service/main.py:163-164 | the forecast sentence comes after every rule-based insight, is the prediction's own message, and is present exactly when a value was predicted whose rounding is not zero |
| `App.AnalysedRules` | python-service/main.py:141-153 | the analysis steps add only rule-based insights and leave the prediction alone |
| `App.ForecastLast` | python-service/main.py:163-164 | after rule-based insights only, the forecast step appends the sentence exactly when the rounded value is not zero |

## Left out

- Escaping, Unicode and locale: strings are ASCII-level. `strip`, `upper`,
  `lower` and `title` act on ASCII letters and white space only.
- pandas: type inference, `read_csv` and `to_sql` are outside the model.
  Column dtypes and the texts of numbers are inputs, and building a frame
  from rows is the `toFrame` parameter.
- SQLite is outside the model. The engine's answer to a statement is a
  parameter of the store, and `read_sql` is the `readFrame` parameter.
- The Groq client library and the network: the chat completion is the
  `complete` parameter, and the environment variable is the `envKey`
  parameter.
- `get_schema` (database.py:61-76) is not used by the analysis path and
  is not part of this model.
- `Analysis.ComputeStats`: reports the sample variance where the service
  reports its square root. It omits the median and the rounding to two
  decimals, which are floating-point formatting.
- `Analysis.GenerateInsights`: the insight texts (title-casing, `,.2f` and
  `.1f` number formats) are kept as their parts, not as formatted strings.
- `Analysis.TopContributorMaximal`: pandas sorts groups by key and then by
  sum. The model keeps groups in first-appearance order, so between groups
  with equal sums the one named may differ.
- `Prediction.ForecastFromTargets`: the R² confidence and floating-point
  error in the fit are not modelled. The fit is exact least squares over
  reals. The forecast keeps the unrounded value. Rounding `predicted_value`
  to two decimals matters only to the truthiness test in `main.py`, which
  `Prediction.ReportedNonZero` states. Exceptions other than the one for a
  target equal to the time column are not modelled.
- `Charts.DetectChartType`: whether `pd.to_datetime(..., format='mixed')`
  succeeds is the `datesParse` parameter.
- Plotly figures, colours, layout and PNG/base64 encoding are left out. A
  rendering failure, which turns a chart into the empty string, is the
  chart step's fault. A `chart_type` string other than the five kinds
  behaves as `Bar`.
- The `/upload` and `/health` endpoints, FastAPI request parsing, CORS and
  the upload directory are left out. The logic `/upload` calls is
  `Database.CsvToSqlite`.
- `Database.CsvToSqlite`: the CSV reader is not modelled, so `header` is the
  header after pandas has renamed repeated names. The SQLite types are an
  input. The failure on colliding names is `None`, not the exception text
  that `/upload` reports as a 500. The `.db` file that `sqlite3.connect`
  creates before `to_sql` raises is not modelled.
- Floating point: every computation outside the fit is exact real
  arithmetic as well. This covers the `1.1` and `0.9` thresholds of
  `Analysis.Classify`, the means and spread of `Analysis.StatsOf` and the
  share of `Analysis.TopShareIsPercentage`.
- `App.WithPrediction`: a failure while reading the whole table stores the
  engine's error as the `error` text. The text that `pd.read_sql` and
  `sqlite3.connect` would put there is not modelled.
- `App.AnalyzeData`: an exception outside the per-step handlers, which the
  service turns into 500 "Analysis failed", is not modelled. The text-to-
  SQL and query errors are `ValueError`s, and they become 400 as modelled.
- `nl_to_sql` ignores its `sample_rows` argument, and so does
  `Llm.NlToSql`.
