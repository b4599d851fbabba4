/** `services/database.py`: turning an uploaded CSV into the `data` table
    (column-name cleaning, the database path, the schema and sample rows),
    the SELECT-only gate `validate_sql`, and `execute_query`, which checks the
    gate again before the store sees the statement. */
module Database {
  import opened Common
  import opened Frames

  // ---------------------------------------------------------------------
  // Upload: column names, database path, schema assembly
  // ---------------------------------------------------------------------

  /** The characters a cleaned column name is made of: `[a-z0-9_]`. */
  predicate IsCleanChar(c: char) {
    IsLowerLetter(c) || IsDigit(c) || c == '_'
  }

  /** `re.sub(r'[^a-zA-Z0-9_]', '_', col.strip()).lower()` */
  function CleanColumnName(col: string): (r: string)
    ensures |r| == |Strip(col)|
    ensures forall i :: 0 <= i < |r| ==> IsCleanChar(r[i])
    ensures forall i :: 0 <= i < |r| ==>
              r[i] == (if IsWordChar(Strip(col)[i]) then LowerChar(Strip(col)[i]) else '_')
  {
    var t := Strip(col);
    Lower(seq(|t|, i requires 0 <= i < |t| => if IsWordChar(t[i]) then t[i] else '_'))
  }

  /** Cleaning a cleaned name changes nothing. */
  lemma CleanColumnNameIdempotent(col: string)
    ensures CleanColumnName(CleanColumnName(col)) == CleanColumnName(col)
  {
    var r := CleanColumnName(col);
    assert !IsSpace('_');
    if |r| > 0 {
      assert !IsSpace(r[0]) && !IsSpace(r[|r| - 1]);
      assert LStrip(r) == r;
      assert RStrip(r) == r;
    }
    assert Strip(r) == r;
  }

  /** The last index of `c` in `s`. */
  function LastIndexOf(s: string, c: char): (r: Option<nat>)
    ensures r.None? <==> c !in s
    ensures r.Some? ==> r.value < |s| && s[r.value] == c && c !in s[r.value + 1..]
    decreases |s|
  {
    if |s| == 0 then None
    else if s[|s| - 1] == c then Some(|s| - 1)
    else
      var r := LastIndexOf(s[..|s| - 1], c);
      assert r.Some? ==> s[r.value + 1..] == s[..|s| - 1][r.value + 1..] + [s[|s| - 1]];
      r
  }

  lemma {:induction false} LastIndexOfIs(s: string, c: char, i: nat)
    requires i < |s| && s[i] == c && c !in s[i + 1..]
    ensures LastIndexOf(s, c) == Some(i)
    decreases |s|
  {
    if i < |s| - 1 {
      assert s[|s| - 1] in s[i + 1..];
      assert s[..|s| - 1][i + 1..] == s[i + 1..|s| - 1];
      LastIndexOfIs(s[..|s| - 1], c, i);
    }
  }

  /** `file_path.rsplit('.', 1)[0] + '.db'` */
  function DbPath(filePath: string): (r: string)
    ensures EndsWith(r, ".db")
    ensures '.' !in filePath ==> r == filePath + ".db"
    ensures '.' in filePath ==>
              (exists i :: 0 <= i < |filePath| && filePath[i] == '.' && '.' !in filePath[i + 1..] && r == filePath[..i] + ".db")
  {
    match LastIndexOf(filePath, '.')
    case None => filePath + ".db"
    case Some(i) => filePath[..i] + ".db"
  }

  /** An uploaded `.csv` file gets the database file of the same stem. */
  lemma DbPathOfCsv(stem: string)
    ensures DbPath(stem + ".csv") == stem + ".db"
  {
    var p := stem + ".csv";
    assert p[|p| - 4] == '.' && p[|p| - 3..] == "csv";
    LastIndexOfIs(p, '.', |p| - 4);
    assert p[..|p| - 4] == stem;
  }

  /** A database path is its own database path. */
  lemma DbPathIdempotent(filePath: string)
    ensures DbPath(DbPath(filePath)) == DbPath(filePath)
  {
    var r := DbPath(filePath);
    assert r[|r| - 3..] == ".db";
    assert r[|r| - 2..] == "db";
    LastIndexOfIs(r, '.', |r| - 3);
    assert r[..|r| - 3] + ".db" == r;
  }

  /** The dictionary returned by `csv_to_sqlite`. */
  datatype Upload = Upload(
    dbPath: string,
    tableName: string,
    columns: seq<string>,
    schema: Dict<string, string>,
    sampleRows: seq<Row>,
    rowCount: nat)

  const TableName := "data"

  /** The cleaned header, column by column. */
  function CleanNames(header: seq<string>): seq<string> {
    seq(|header|, j requires 0 <= j < |header| => CleanColumnName(header[j]))
  }

  /** `csv_to_sqlite`. The CSV has been parsed into `header` and `records`
      (pandas' reader, which also renames repeated headers, is not
      modelled), and `sqlTypes[j]` is the SQLite type `to_sql` declares for
      column `j`. `PRAGMA table_info(data)` then reports the cleaned names
      with those types, in column order. Two headers that clean to the same
      name make `to_sql` raise, since SQLite refuses a repeated column name:
      that is `None`. */
  method CsvToSqlite(filePath: string, header: seq<string>, records: seq<seq<Cell>>,
                     sqlTypes: seq<string>) returns (r: Option<Upload>)
    requires |sqlTypes| == |header|
    ensures r.None? <==> !Distinct(CleanNames(header))
    ensures r.Some? ==> UploadOf(r.value, filePath, header, records, sqlTypes)
  {
    var names := CleanNames(header);
    var dbPath := DbPath(filePath);
    if !Distinct(names) {
      return None;
    }
    var tableInfo := Zip(names, sqlTypes);
    assert Keys(tableInfo) == names;

    var schema: Dict<string, string> := [];
    var columns: seq<string> := [];
    for i := 0 to |tableInfo|
      invariant columns == Keys(tableInfo[..i])
      invariant schema == FromPairs(tableInfo[..i])
    {
      assert tableInfo[..i + 1][..i] == tableInfo[..i];
      columns := columns + [tableInfo[i].0];
      schema := Put(schema, tableInfo[i].0, tableInfo[i].1);
    }
    assert tableInfo[..|tableInfo|] == tableInfo;
    FromDistinctPairs(tableInfo);

    var n := if |records| < 5 then |records| else 5;
    var sample := seq(n, i requires 0 <= i < n => ZipRow(names, records[i]));
    r := Some(Upload(dbPath, TableName, columns, schema, sample, |records|));
  }

  /** The upload record for distinct cleaned names: the derived `.db` path,
      table `data`, the cleaned names as columns, each with its SQLite type
      as the schema, the first five rows (or all, when fewer) keyed by the
      cleaned names, and the row count. */
  predicate UploadOf(u: Upload, filePath: string, header: seq<string>, records: seq<seq<Cell>>,
                     sqlTypes: seq<string>)
  {
    var names := CleanNames(header);
    && u.dbPath == DbPath(filePath) && u.tableName == TableName
    && u.columns == names
    && u.schema == Zip(names, sqlTypes)
    && |u.sampleRows| == (if |records| < 5 then |records| else 5)
    && (forall i :: 0 <= i < |u.sampleRows| ==> u.sampleRows[i] == ZipRow(names, records[i]))
    && u.rowCount == |records|
  }

  /** The reported columns are distinct clean names (lower-case letters,
      digits and `_`), and the schema has one entry per column, in order. */
  lemma UploadColumnsClean(u: Upload, filePath: string, header: seq<string>, records: seq<seq<Cell>>,
                           sqlTypes: seq<string>)
    requires |sqlTypes| == |header| && Distinct(CleanNames(header))
    requires UploadOf(u, filePath, header, records, sqlTypes)
    ensures Distinct(u.columns) && Keys(u.schema) == u.columns
    ensures forall j, k :: 0 <= j < |u.columns| && 0 <= k < |u.columns[j]| ==> IsCleanChar(u.columns[j][k])
    ensures forall j :: 0 <= j < |u.columns| ==> Lookup(u.schema, u.columns[j]) == Some(sqlTypes[j])
  {
    var names := CleanNames(header);
    assert Keys(Zip(names, sqlTypes)) == names;
    forall j | 0 <= j < |u.columns|
      ensures Lookup(u.schema, u.columns[j]) == Some(sqlTypes[j])
    {
      FromDistinctPairs(u.schema);
      FromPairsLastWins(u.schema, j);
    }
  }

  /** Headers that differ only in spacing, case or punctuation clean to the
      same column name, so such a CSV cannot be uploaded. */
  lemma HeadersCollide()
    ensures CleanColumnName("First Name") == CleanColumnName("first_name") == "first_name"
    ensures !Distinct(CleanNames(["First Name", "first_name"]))
  {
    assert Strip("First Name") == "First Name";
    assert Strip("first_name") == "first_name";
    assert CleanNames(["First Name", "first_name"])[0] == CleanColumnName("First Name");
    assert CleanNames(["First Name", "first_name"])[1] == CleanColumnName("first_name");
  }

  // ---------------------------------------------------------------------
  // The SELECT-only gate
  // ---------------------------------------------------------------------

  /** The deny-list of `validate_sql`, in its order. */
  const DenyList: seq<string> :=
    ["DROP", "DELETE", "UPDATE", "INSERT", "ALTER", "CREATE", "TRUNCATE", "EXEC", "EXECUTE"]

  /** `\bw\b` matches `s` at `i`, for a word `w` made of word characters. */
  predicate WordAt(s: string, i: nat, w: string) {
    && i + |w| <= |s| && s[i..i + |w|] == w
    && (i == 0 || !IsWordChar(s[i - 1]))
    && (i + |w| == |s| || !IsWordChar(s[i + |w|]))
  }

  /** `re.search(rf'\b{w}\b', s)` succeeds. */
  predicate HasWord(s: string, w: string) {
    exists i | 0 <= i <= |s| :: WordAt(s, i, w)
  }

  /** `sql.strip().upper()` */
  function Normalize(sql: string): string {
    Upper(Strip(sql))
  }

  /** What `validate_sql` decides: no deny-listed keyword as a whole word, and
      the normalised text starts with SELECT or WITH. */
  predicate IsSafeSql(sql: string) {
    var u := Normalize(sql);
    && (forall k | 0 <= k < |DenyList| :: !HasWord(u, DenyList[k]))
    && (StartsWith(u, "SELECT") || StartsWith(u, "WITH"))
  }

  /** `validate_sql`: the keyword loop with its early return, then the
      prefix test. */
  method ValidateSql(sql: string) returns (ok: bool)
    ensures ok == IsSafeSql(sql)
  {
    var u := Strip(sql);
    u := Upper(u);
    for k := 0 to |DenyList|
      invariant forall j | 0 <= j < k :: !HasWord(u, DenyList[j])
    {
      if HasWord(u, DenyList[k]) {
        return false;
      }
    }
    if !(StartsWith(u, "SELECT") || StartsWith(u, "WITH")) {
      return false;
    }
    return true;
  }

  lemma UpperKeepsWordChars(c: char)
    ensures IsWordChar(UpperChar(c)) <==> IsWordChar(c)
  {
  }

  /** `Normalize` read back position by position: the stripped span, upper-cased. */
  lemma NormalizeAt(sql: string) returns (a: nat, b: nat)
    ensures a <= b <= |sql| && |Normalize(sql)| == b - a
    ensures forall m :: 0 <= m < a ==> IsSpace(sql[m])
    ensures forall m :: b <= m < |sql| ==> IsSpace(sql[m])
    ensures forall m :: a <= m < b ==> Normalize(sql)[m - a] == UpperChar(sql[m])
  {
    a, b := StripShape(sql);
    forall m | a <= m < b ensures Normalize(sql)[m - a] == UpperChar(sql[m]) {
      assert Strip(sql)[m - a] == sql[m];
    }
  }

  /** The letters of an upper-cased span that spells an upper-case word. */
  lemma SpelledWord(sql: string, i: nat, w: string)
    requires forall m :: 0 <= m < |w| ==> IsUpperLetter(w[m])
    requires i + |w| <= |sql| && Upper(sql[i..i + |w|]) == w
    ensures forall m :: i <= m < i + |w| ==> UpperChar(sql[m]) == w[m - i] && !IsSpace(sql[m])
  {
    forall m | i <= m < i + |w| ensures UpperChar(sql[m]) == w[m - i] && !IsSpace(sql[m]) {
      assert Upper(sql[i..i + |w|])[m - i] == UpperChar(sql[m]);
    }
  }

  /** An upper-case word that stands whole in the raw text, in any casing,
      stands whole in the normalised text. */
  lemma WordSurvivesNormalize(sql: string, i: nat, w: string) returns (j: nat)
    requires |w| > 0 && forall m :: 0 <= m < |w| ==> IsUpperLetter(w[m])
    requires i + |w| <= |sql| && Upper(sql[i..i + |w|]) == w
    requires i == 0 || !IsWordChar(sql[i - 1])
    requires i + |w| == |sql| || !IsWordChar(sql[i + |w|])
    ensures WordAt(Normalize(sql), j, w)
  {
    SpelledWord(sql, i, w);
    var a, b := NormalizeAt(sql);
    j := WordInSpan(sql, Normalize(sql), a, b, i, w);
  }

  /** The step behind `WordSurvivesNormalize`, over any `u` that is the span
      `sql[a..b]` upper-cased with only spaces outside it. */
  lemma WordInSpan(sql: string, u: string, a: nat, b: nat, i: nat, w: string) returns (j: nat)
    requires a <= b <= |sql| && |u| == b - a
    requires forall m :: 0 <= m < a ==> IsSpace(sql[m])
    requires forall m :: b <= m < |sql| ==> IsSpace(sql[m])
    requires forall m :: a <= m < b ==> u[m - a] == UpperChar(sql[m])
    requires |w| > 0 && i + |w| <= |sql|
    requires forall m :: i <= m < i + |w| ==> UpperChar(sql[m]) == w[m - i] && !IsSpace(sql[m])
    requires i == 0 || !IsWordChar(sql[i - 1])
    requires i + |w| == |sql| || !IsWordChar(sql[i + |w|])
    ensures WordAt(u, j, w)
  {
    var e := i + |w|;
    assert !IsSpace(sql[i]) && !IsSpace(sql[e - 1]);
    assert a <= i && e <= b;
    j := i - a;
    assert u[j..j + |w|] == w by {
      forall m | 0 <= m < |w| ensures u[j..j + |w|][m] == w[m] {
        assert u[j + m] == UpperChar(sql[i + m]);
      }
    }
    if j > 0 {
      assert u[j - 1] == UpperChar(sql[i - 1]);
      UpperKeepsWordChars(sql[i - 1]);
    }
    if j + |w| < |u| {
      assert u[j + |w|] == UpperChar(sql[e]);
      UpperKeepsWordChars(sql[e]);
    }
  }

  /** Every deny-listed keyword is a non-empty upper-case word. */
  lemma DenyListIsUpperWords()
    ensures forall k | 0 <= k < |DenyList| ::
              |DenyList[k]| > 0 && forall m :: 0 <= m < |DenyList[k]| ==> IsUpperLetter(DenyList[k][m])
  {
  }

  /** A deny-listed keyword written in any casing, standing as a whole word
      anywhere in the raw text, makes the gate reject it. */
  lemma RejectsDenyListedWord(sql: string, k: nat, i: nat)
    requires k < |DenyList|
    requires i + |DenyList[k]| <= |sql| && Upper(sql[i..i + |DenyList[k]|]) == DenyList[k]
    requires i == 0 || !IsWordChar(sql[i - 1])
    requires i + |DenyList[k]| == |sql| || !IsWordChar(sql[i + |DenyList[k]|])
    ensures !IsSafeSql(sql)
  {
    DenyListIsUpperWords();
    var j := WordSurvivesNormalize(sql, i, DenyList[k]);
    assert HasWord(Normalize(sql), DenyList[k]);
  }

  /** Two texts that agree up to letter case get the same verdict. */
  lemma VerdictIgnoresCase(sql: string, other: string)
    requires Upper(sql) == Upper(other)
    ensures IsSafeSql(sql) == IsSafeSql(other)
  {
    StripUpper(sql);
    StripUpper(other);
    UpperIdempotent(Strip(sql));
    UpperIdempotent(Strip(other));
    assert Normalize(sql) == Upper(Strip(Upper(sql)));
    assert Normalize(other) == Upper(Strip(Upper(other)));
  }

  /** In particular upper- and lower-casing the whole text change nothing. */
  lemma VerdictUnderRecasing(sql: string)
    ensures IsSafeSql(Upper(sql)) == IsSafeSql(sql)
    ensures IsSafeSql(Lower(sql)) == IsSafeSql(sql)
  {
    UpperIdempotent(sql);
    VerdictIgnoresCase(Upper(sql), sql);
    UpperOfLower(sql);
    VerdictIgnoresCase(Lower(sql), sql);
  }

  /** Leading and trailing whitespace does not change the verdict. */
  lemma VerdictIgnoresSurroundingSpace(pre: string, sql: string, post: string)
    requires AllSpace(pre) && AllSpace(post)
    ensures IsSafeSql(pre + sql + post) == IsSafeSql(sql)
  {
    StripSurrounding(pre, sql, post);
  }

  /** An accepted text, normalised, starts with SELECT or WITH. */
  lemma AcceptedStartsWithSelectOrWith(sql: string)
    requires IsSafeSql(sql)
    ensures exists p | p in ["SELECT", "WITH"] :: StartsWith(Upper(Strip(sql)), p)
  {
    if StartsWith(Normalize(sql), "SELECT") {
      assert "SELECT" in ["SELECT", "WITH"];
    } else {
      assert "WITH" in ["SELECT", "WITH"];
    }
  }

  // Helpers for the concrete verdicts below.

  lemma NotWordAtByMismatch(s: string, i: nat, w: string, m: nat)
    requires m < |w| && i + m < |s| && s[i + m] != w[m]
    ensures !WordAt(s, i, w)
  {
    if i + |w| <= |s| { assert s[i..i + |w|][m] == s[i + m]; }
  }

  /** A word of three letters or more that does not stand whole anywhere in
      `u`, shown position by position from its first three letters and, at
      the positions in `glue`, from a word character glued to it. */
  lemma NoWord(u: string, w: string, glue: set<nat>)
    requires |w| >= 3
    requires forall i :: 0 <= i && i + |w| <= |u| && i !in glue ==>
               u[i] != w[0] || u[i + 1] != w[1] || u[i + 2] != w[2]
    requires forall i | i in glue ::
               (0 < i <= |u| && IsWordChar(u[i - 1])) || (i + |w| < |u| && IsWordChar(u[i + |w|]))
    ensures !HasWord(u, w)
  {
    forall i | 0 <= i <= |u| ensures !WordAt(u, i, w) {
      if i + |w| > |u| {
      } else if i in glue {
      } else if u[i] != w[0] {
        NotWordAtByMismatch(u, i, w, 0);
      } else if u[i + 1] != w[1] {
        NotWordAtByMismatch(u, i, w, 1);
      } else {
        NotWordAtByMismatch(u, i, w, 2);
      }
    }
  }

  /** A word with a letter that `u` does not hold does not stand in `u`. */
  lemma AbsentLetter(u: string, w: string, m: nat)
    requires m < |w| && w[m] !in u
    ensures !HasWord(u, w)
  {
    forall i | 0 <= i <= |u| ensures !WordAt(u, i, w) {
      if i + |w| <= |u| {
        assert u[i..i + |w|][m] == u[i + m];
      }
    }
  }

  /** No character of `u` is one of `bad`. */
  lemma NoneOf(u: string, bad: set<char>)
    requires forall i | 0 <= i < |u| :: u[i] !in bad
    ensures forall c | c in bad :: c !in u
  {
  }

  /** Without `I`, `U`, `X` and one of `D` and `P` (the `spare` letter),
      none of DROP, UPDATE, INSERT, TRUNCATE, EXEC and EXECUTE stands in
      `u`. */
  lemma RareLettersAbsent(u: string, spare: char)
    requires spare == 'D' || spare == 'P'
    requires forall i | 0 <= i < |u| :: u[i] !in {'I', 'U', 'X', spare}
    ensures !HasWord(u, "DROP") && !HasWord(u, "UPDATE") && !HasWord(u, "INSERT")
    ensures !HasWord(u, "TRUNCATE") && !HasWord(u, "EXEC") && !HasWord(u, "EXECUTE")
  {
    NoneOf(u, {'I', 'U', 'X', spare});
    if spare == 'P' {
      AbsentLetter(u, "DROP", 3);
    } else {
      AbsentLetter(u, "DROP", 0);
    }
    AbsentLetter(u, "UPDATE", 0);
    AbsentLetter(u, "INSERT", 0);
    AbsentLetter(u, "TRUNCATE", 2);
    AbsentLetter(u, "EXEC", 1);
    AbsentLetter(u, "EXECUTE", 1);
  }

  /** The deny-list checked word by word. */
  lemma NoDenyListedWord(u: string)
    requires !HasWord(u, "DROP") && !HasWord(u, "DELETE") && !HasWord(u, "UPDATE")
    requires !HasWord(u, "INSERT") && !HasWord(u, "ALTER") && !HasWord(u, "CREATE")
    requires !HasWord(u, "TRUNCATE") && !HasWord(u, "EXEC") && !HasWord(u, "EXECUTE")
    ensures forall k | 0 <= k < |DenyList| :: !HasWord(u, DenyList[k])
  {
  }

  /** `SELECT * FROM data`, the statement the prediction step reads the
      whole table with, passes the gate. */
  lemma SelectAllIsSafe()
    ensures IsSafeSql("SELECT * FROM data")
  {
    var s := "SELECT * FROM data";
    assert Strip(s) == s;
    var u := Normalize(s);
    assert u == "SELECT * FROM DATA";
    RareLettersAbsent(u, 'P');
    SelectAllCommonLetters(u);
    NoDenyListedWord(u);
  }

  lemma SelectAllCommonLetters(u: string)
    requires u == "SELECT * FROM DATA"
    ensures !HasWord(u, "DELETE") && !HasWord(u, "ALTER") && !HasWord(u, "CREATE")
  {
    NoWord(u, "DELETE", {});
    NoWord(u, "ALTER", {});
    NoWord(u, "CREATE", {});
  }

  /** Whole-word matching: `CREATE` glued to `D_AT` is no keyword, so a
      lower-case query over a `created_at` column, padded with spaces, is
      accepted. */
  lemma GluedKeywordAccepted()
    ensures IsSafeSql(" select created_at from data ")
  {
    GluedQueryNormalized();
    GluedQuerySafe(" select created_at from data ", "SELECT CREATED_AT FROM DATA");
  }

  lemma GluedQueryNormalized()
    ensures Normalize(" select created_at from data ") == "SELECT CREATED_AT FROM DATA"
  {
    GluedQueryStripped();
    GluedQueryUpper();
    NormalizeVia(" select created_at from data ", "select created_at from data", "SELECT CREATED_AT FROM DATA");
  }

  lemma GluedQuerySafe(sql: string, u: string)
    requires u == "SELECT CREATED_AT FROM DATA" && Normalize(sql) == u
    ensures IsSafeSql(sql)
  {
    RareLettersAbsent(u, 'P');
    GluedQueryCommonLetters(u);
    NoDenyListedWord(u);
    SafeVia(sql, u);
  }

  lemma GluedQueryCommonLetters(u: string)
    requires u == "SELECT CREATED_AT FROM DATA"
    ensures !HasWord(u, "DELETE") && !HasWord(u, "ALTER") && !HasWord(u, "CREATE")
  {
    NoWord(u, "DELETE", {});
    NoWord(u, "ALTER", {});
    NoWord(u, "CREATE", {7});
  }

  lemma GluedQueryStripped()
    ensures Strip(" select created_at from data ") == "select created_at from data"
  {
    var s := " select created_at from data ";
    assert LStrip(s) == s[1..];
    assert s[1..] == "select created_at from data ";
    assert LStrip(s[1..]) == s[1..];
    assert RStrip(s[1..]) == "select created_at from data";
  }

  lemma GluedQueryUpper()
    ensures Upper("select created_at from data") == "SELECT CREATED_AT FROM DATA"
  {
  }

  lemma NormalizeVia(sql: string, t: string, u: string)
    requires Strip(sql) == t && Upper(t) == u
    ensures Normalize(sql) == u
  {
  }

  lemma SafeVia(sql: string, u: string)
    requires Normalize(sql) == u
    requires forall k | 0 <= k < |DenyList| :: !HasWord(u, DenyList[k])
    requires StartsWith(u, "SELECT")
    ensures IsSafeSql(sql)
  {
  }

  /** The gate is a deny-list plus a prefix test only: a second statement
      after `;`, here a PRAGMA, is let through. */
  lemma SecondStatementAccepted()
    ensures IsSafeSql("SELECT 1; PRAGMA foo")
  {
    var s := "SELECT 1; PRAGMA foo";
    assert Strip(s) == s;
    var u := Normalize(s);
    assert u == "SELECT 1; PRAGMA FOO";
    SecondStatementWords(u);
    NoDenyListedWord(u);
  }

  lemma SecondStatementWords(u: string)
    requires u == "SELECT 1; PRAGMA FOO"
    ensures !HasWord(u, "DROP") && !HasWord(u, "DELETE") && !HasWord(u, "UPDATE")
    ensures !HasWord(u, "INSERT") && !HasWord(u, "ALTER") && !HasWord(u, "CREATE")
    ensures !HasWord(u, "TRUNCATE") && !HasWord(u, "EXEC") && !HasWord(u, "EXECUTE")
  {
    RareLettersAbsent(u, 'D');
    AbsentLetter(u, "DELETE", 0);
    NoWord(u, "ALTER", {});
    NoWord(u, "CREATE", {});
  }

  /** A statement that starts with DROP is rejected. */
  lemma DropRejected()
    ensures !IsSafeSql("DROP TABLE data; SELECT 1")
  {
    var s := "DROP TABLE data; SELECT 1";
    RejectsDenyListedWord(s, 0, 0);
  }

  /** A WITH prefix does not save a DELETE. */
  lemma WithDeleteRejected()
    ensures !IsSafeSql("WITH t AS (SELECT 1) DELETE FROM data")
  {
    var s := "WITH t AS (SELECT 1) DELETE FROM data";
    assert s[21..27] == "DELETE";
    RejectsDenyListedWord(s, 1, 21);
  }

  // ---------------------------------------------------------------------
  // Query execution
  // ---------------------------------------------------------------------

  /** What the SQLite cursor holds after `execute`: the column names of
      `cursor.description` and the fetched rows, in fetch order. */
  datatype Cursor = Cursor(columns: seq<string>, rows: seq<seq<Cell>>)

  /** The SQLite database behind `db_path`. The engine itself is not
      modelled: `engine` is what it answers to a statement (a cursor, or the
      engine's error text), and `executed` records every statement it was
      handed, oldest first. */
  class Store {
    const engine: string -> Result<Cursor, string>
    ghost var executed: seq<string>

    constructor (engine: string -> Result<Cursor, string>)
      ensures this.engine == engine && executed == []
    {
      this.engine := engine;
      executed := [];
    }

    /** `conn.execute(sql)` followed by `fetchall()`. */
    method Execute(sql: string) returns (r: Result<Cursor, string>)
      modifies this
      ensures r == engine(sql)
      ensures executed == old(executed) + [sql]
    {
      r := engine(sql);
      executed := executed + [sql];
    }
  }

  /** `[dict(zip(columns, row)) for row in rows]` */
  function ZipRows(c: Cursor): (r: seq<Row>)
    ensures |r| == |c.rows|
    ensures forall i :: 0 <= i < |r| ==> r[i] == ZipRow(c.columns, c.rows[i])
  {
    seq(|c.rows|, i requires 0 <= i < |c.rows| => ZipRow(c.columns, c.rows[i]))
  }

  /** A zipped row has exactly the cursor's column names as keys and maps
      each name to that row's value (the last one, if a name repeats). */
  lemma ZipRowFacts(columns: seq<string>, values: seq<Cell>)
    requires |values| == |columns|
    ensures forall k :: k in Keys(ZipRow(columns, values)) <==> k in columns
    ensures Distinct(Keys(ZipRow(columns, values)))
    ensures forall j :: 0 <= j < |columns| && (forall l :: j < l < |columns| ==> columns[l] != columns[j]) ==>
              Lookup(ZipRow(columns, values), columns[j]) == Some(values[j])
  {
    var pairs := Zip(columns, values);
    FromPairsKeys(pairs);
    assert Keys(pairs) == columns;
    forall j | 0 <= j < |columns| && (forall l :: j < l < |columns| ==> columns[l] != columns[j])
      ensures Lookup(ZipRow(columns, values), columns[j]) == Some(values[j])
    {
      FromPairsLastWins(pairs, j);
    }
  }

  /** With distinct column names the row is the zipped pairs themselves. */
  lemma ZipRowDistinct(columns: seq<string>, values: seq<Cell>)
    requires |values| == |columns| && Distinct(columns)
    ensures ZipRow(columns, values) == Zip(columns, values)
  {
    assert Keys(Zip(columns, values)) == columns;
    FromDistinctPairs(Zip(columns, values));
  }

  const BlockedMessage := "Only SELECT queries are allowed. Destructive operations are blocked."
  const ExecutionErrorPrefix := "SQL execution error: "

  /** `execute_query`: a statement the gate refuses raises before the store
      is touched; otherwise the store runs it and each fetched row is zipped
      with the column names. Errors are the ValueError messages. */
  method ExecuteQuery(store: Store, sql: string) returns (r: Result<seq<Row>, string>)
    modifies store
    ensures !IsSafeSql(sql) ==> r == Err(BlockedMessage) && store.executed == old(store.executed)
    ensures IsSafeSql(sql) ==> store.executed == old(store.executed) + [sql]
    ensures IsSafeSql(sql) ==> r == match store.engine(sql)
                                    case Err(e) => Err(ExecutionErrorPrefix + e)
                                    case Ok(c) => Ok(ZipRows(c))
  {
    var ok := ValidateSql(sql);
    if !ok {
      return Err(BlockedMessage);
    }
    var reply := store.Execute(sql);
    match reply
    case Err(e) => r := Err(ExecutionErrorPrefix + e);
    case Ok(c) => r := Ok(ZipRows(c));
  }
}
