/** internal/orm/query.go: the nil guards and driver calls of Query, QueryRow
    and Exec, the Insert builder with its Postgres RETURNING branch, and the
    postgresResult accessors. The database behind a *sql.DB is an `Engine`:
    the outcomes of the calls the ORM makes on it. */
module Queries {
  import opened Text
  import opened Meta
  import opened Adapter

  /** Go's int64. */
  type Int64 = x: int | -0x8000_0000_0000_0000 <= x < 0x8000_0000_0000_0000

  /** A statement text with the arguments bound to its placeholders. */
  datatype Statement = Statement(sql: string, args: seq<Value>)

  /** The sql.Result a driver reports for an executed statement. */
  datatype DriverResult = DriverResult(lastInsertId: Result<Int64>, rowsAffected: Result<Int64>)

  /** The sql.Result the ORM hands back: the driver's own, or postgresResult. */
  datatype SqlResult = Native(driver: DriverResult) | PgResult(lastInsertID: Int64, rowsAffected: Int64)

  /** The database: what DB.Prepare rejects, what Stmt.Exec reports, the row
      QueryRow finds (or the error its Scan will report, NoRows when there is
      none), the rows Stmt.Query returns, and how Scan converts a column value
      into a destination of a Go type (None when it cannot). */
  datatype Engine = Engine(
    prepare: string -> Option<Error>,
    exec: Statement -> Result<DriverResult>,
    queryRow: Statement -> Result<seq<Value>>,
    query: Statement -> Result<seq<seq<Value>>>,
    convert: (string, Value) -> Option<Value>)

  /** orm.Datastore: a possibly nil connection and a possibly nil adapter. */
  datatype Datastore = Datastore(db: Option<Engine>, adapter: Option<Dialect>)

  const ConnectionNilMessage: string := "datastore or database connection was nil"
  const DatastoreNilMessage: string := "datastore, database connection, or adapter was nil"
  const ScanIdContext: string := "failed to execute insert query and scan ID: "
  const PrepareQueryContext: string := "failed to prepare query: "
  const ExecuteQueryContext: string := "failed to execute query: "
  const PrepareExecContext: string := "failed to prepare exec statement: "
  const ExecuteExecContext: string := "failed to execute exec statement: "

  /** The datastore and its connection are there: what QueryRow and Exec check. */
  predicate Connected(ds: Option<Datastore>)
  {
    ds.Some? && ds.value.db.Some?
  }

  /** The adapter is there too: what Query and Insert check. */
  predicate Ready(ds: Option<Datastore>)
  {
    Connected(ds) && ds.value.adapter.Some?
  }

  /** Query: the three-way nil guard, then the adapter's Query (identical in
      both adapters): prepare, then run. */
  function Query(ds: Option<Datastore>, sql: string, args: seq<Value>): (r: Result<seq<seq<Value>>>)
    ensures !Ready(ds) ==> r == Err(Message(DatastoreNilMessage))
    ensures r.Ok? <==> Ready(ds) && ds.value.db.value.prepare(sql).None? && ds.value.db.value.query(Statement(sql, args)).Ok?
    ensures r.Ok? ==> r.value == ds.value.db.value.query(Statement(sql, args)).value
    ensures Ready(ds) && ds.value.db.value.prepare(sql).Some? ==>
      r == Err(Wrapped(PrepareQueryContext, ds.value.db.value.prepare(sql).value))
    ensures Ready(ds) && ds.value.db.value.prepare(sql).None? && ds.value.db.value.query(Statement(sql, args)).Err? ==>
      r == Err(Wrapped(ExecuteQueryContext, ds.value.db.value.query(Statement(sql, args)).error))
  {
    if !Ready(ds) then Err(Message(DatastoreNilMessage))
    else
      var db := ds.value.db.value;
      match db.prepare(sql)
      case Some(e) => Err(Wrapped(PrepareQueryContext, e))
      case None =>
        match db.query(Statement(sql, args))
        case Err(e) => Err(Wrapped(ExecuteQueryContext, e))
        case Ok(rows) => Ok(rows)
  }

  /** QueryRow: the connection guard, then prepare; the row itself carries
      any error of the query, reported when it is scanned. */
  function QueryRow(ds: Option<Datastore>, sql: string, args: seq<Value>): (r: Result<Result<seq<Value>>>)
    ensures !Connected(ds) ==> r == Err(Message(ConnectionNilMessage))
    ensures r.Ok? <==> Connected(ds) && ds.value.db.value.prepare(sql).None?
    ensures r.Ok? ==> r.value == ds.value.db.value.queryRow(Statement(sql, args))
    ensures Connected(ds) && ds.value.db.value.prepare(sql).Some? ==>
      r == Err(Wrapped(PrepareQueryContext, ds.value.db.value.prepare(sql).value))
  {
    if !Connected(ds) then Err(Message(ConnectionNilMessage))
    else
      var db := ds.value.db.value;
      match db.prepare(sql)
      case Some(e) => Err(Wrapped(PrepareQueryContext, e))
      case None => Ok(db.queryRow(Statement(sql, args)))
  }

  /** Exec: the connection guard, prepare, execute; the driver's result is
      passed through unchanged. */
  function Exec(ds: Option<Datastore>, sql: string, args: seq<Value>): (r: Result<SqlResult>)
    ensures !Connected(ds) ==> r == Err(Message(ConnectionNilMessage))
    ensures r.Ok? <==> Connected(ds) && ds.value.db.value.prepare(sql).None? && ds.value.db.value.exec(Statement(sql, args)).Ok?
    ensures r.Ok? ==> r.value == Native(ds.value.db.value.exec(Statement(sql, args)).value)
    ensures Connected(ds) && ds.value.db.value.prepare(sql).Some? ==>
      r == Err(Wrapped(PrepareExecContext, ds.value.db.value.prepare(sql).value))
    ensures Connected(ds) && ds.value.db.value.prepare(sql).None? && ds.value.db.value.exec(Statement(sql, args)).Err? ==>
      r == Err(Wrapped(ExecuteExecContext, ds.value.db.value.exec(Statement(sql, args)).error))
  {
    if !Connected(ds) then Err(Message(ConnectionNilMessage))
    else
      var db := ds.value.db.value;
      match db.prepare(sql)
      case Some(e) => Err(Wrapped(PrepareExecContext, e))
      case None =>
        match db.exec(Statement(sql, args))
        case Err(e) => Err(Wrapped(ExecuteExecContext, e))
        case Ok(res) => Ok(Native(res))
  }

  /** Neither QueryRow nor Exec looks at the adapter: with a connection they
      get past the guard whatever the adapter, while Query does not. */
  lemma GuardsDifferOnAdapter(db: Engine, sql: string, args: seq<Value>)
    ensures QueryRow(Some(Datastore(Some(db), None)), sql, args) == QueryRow(Some(Datastore(Some(db), Some(SQLite))), sql, args)
    ensures Exec(Some(Datastore(Some(db), None)), sql, args) == Exec(Some(Datastore(Some(db), Some(SQLite))), sql, args)
    ensures Query(Some(Datastore(Some(db), None)), sql, args) == Err(Message(DatastoreNilMessage))
  {
  }

  /** sql.Result.LastInsertId of either kind of result. */
  function LastInsertId(r: SqlResult): (n: Result<Int64>)
    ensures r.PgResult? ==> n == Ok(r.lastInsertID)
    ensures r.Native? ==> n == r.driver.lastInsertId
  {
    match r
    case Native(dr) => dr.lastInsertId
    case PgResult(id, _) => Ok(id)
  }

  /** sql.Result.RowsAffected of either kind of result. */
  function RowsAffected(r: SqlResult): (n: Result<Int64>)
    ensures r.PgResult? ==> n == Ok(r.rowsAffected)
    ensures r.Native? ==> n == r.driver.rowsAffected
  {
    match r
    case Native(dr) => dr.rowsAffected
    case PgResult(_, n) => Ok(n)
  }

  /** What a Row.Scan leaves behind: its error, if any, and the struct whose
      fields were its destinations. */
  datatype Scanned = Scanned(err: Option<Error>, rec: Record)

  /** database/sql's Row.Scan with one destination per field: the row's
      deferred error, a count mismatch, or the columns converted into the
      fields in order, stopping at the first that does not convert. */
  function Scan(db: Engine, row: Result<seq<Value>>, rec: Record): (s: Scanned)
    ensures s.rec.typeName == rec.typeName && |s.rec.fields| == |rec.fields|
    ensures forall j :: 0 <= j < |rec.fields| ==> s.rec.fields[j] == rec.fields[j].(value := s.rec.fields[j].value)
    ensures row.Err? ==> s == Scanned(Some(row.error), rec)
    ensures row.Ok? && |row.value| != |rec.fields| ==> s == Scanned(Some(ScanArity(|row.value|, |rec.fields|)), rec)
    ensures s.err.None? <==> (row.Ok? && |row.value| == |rec.fields| &&
      forall j :: 0 <= j < |rec.fields| ==> db.convert(rec.fields[j].goType, row.value[j]).Some?)
    ensures s.err.None? ==> forall j :: 0 <= j < |rec.fields| ==> db.convert(rec.fields[j].goType, row.value[j]) == Some(s.rec.fields[j].value)
    ensures row.Ok? && |row.value| == |rec.fields| && s.err.Some? ==> (s.err.value.ScanConvert? &&
      s.err.value.column < |rec.fields| &&
      db.convert(rec.fields[s.err.value.column].goType, row.value[s.err.value.column]).None? &&
      (forall j :: 0 <= j < s.err.value.column ==> db.convert(rec.fields[j].goType, row.value[j]) == Some(s.rec.fields[j].value)) &&
      forall j :: s.err.value.column <= j < |rec.fields| ==> s.rec.fields[j] == rec.fields[j])
  {
    match row
    case Err(e) => Scanned(Some(e), rec)
    case Ok(vals) =>
      if |vals| != |rec.fields| then Scanned(Some(ScanArity(|vals|, |rec.fields|)), rec)
      else ScanFrom(db, vals, rec, 0)
  }

  /** The conversion loop of Scan from column `i` on. A failing column, and
      every one after it, keeps its old value. */
  function ScanFrom(db: Engine, vals: seq<Value>, rec: Record, i: nat): (s: Scanned)
    requires |vals| == |rec.fields| && i <= |vals|
    ensures s.rec.typeName == rec.typeName && |s.rec.fields| == |rec.fields|
    ensures forall j :: 0 <= j < |rec.fields| ==> s.rec.fields[j] == rec.fields[j].(value := s.rec.fields[j].value)
    ensures forall j :: 0 <= j < i ==> s.rec.fields[j] == rec.fields[j]
    ensures s.err.None? <==> forall j :: i <= j < |vals| ==> db.convert(rec.fields[j].goType, vals[j]).Some?
    ensures s.err.None? ==> forall j :: i <= j < |vals| ==> db.convert(rec.fields[j].goType, vals[j]) == Some(s.rec.fields[j].value)
    ensures s.err.Some? ==> (s.err.value.ScanConvert? && i <= s.err.value.column < |vals| &&
      db.convert(rec.fields[s.err.value.column].goType, vals[s.err.value.column]).None? &&
      (forall j :: i <= j < s.err.value.column ==> db.convert(rec.fields[j].goType, vals[j]) == Some(s.rec.fields[j].value)) &&
      forall j :: s.err.value.column <= j < |vals| ==> s.rec.fields[j] == rec.fields[j])
    decreases |vals| - i
  {
    if i == |vals| then Scanned(None, rec)
    else
      match db.convert(rec.fields[i].goType, vals[i])
      case None => Scanned(Some(ScanConvert(i)), rec)
      case Some(v) => ScanFrom(db, vals, rec.(fields := rec.fields[i := rec.fields[i].(value := v)]), i + 1)
  }

  /** Row.Scan(&lastInsertID) into one int64. */
  function ScanKey(db: Engine, row: Result<seq<Value>>): Result<Int64>
  {
    var s := Scan(db, row, Record("", [Field("int64", "lastInsertID", "", false, IntV(0))]));
    match s.err
    case Some(e) => Err(e)
    case None =>
      var v := s.rec.fields[0].value;
      if v.IntV? && -0x8000_0000_0000_0000 <= v.n < 0x8000_0000_0000_0000 then Ok(v.n)
      else Err(ScanConvert(0))
  }

  // ----- Insert -----

  /** Insert's pkCol: the primary-key column, or "" when the model has none. */
  function InsertKeyColumn(rec: Record): (pk: string)
    ensures PrimaryKeyColumn(rec).Some? ==> pk == PrimaryKeyColumn(rec).value
    ensures PrimaryKeyColumn(rec).None? ==> pk == ""
  {
    match PrimaryKeyColumn(rec)
    case None => ""
    case Some(c) => c
  }

  /** The positions of the fields Insert sends: every column except pkCol. */
  function InsertIndices(rec: Record): (k: seq<nat>)
    ensures forall j :: 0 <= j < |k| ==> k[j] < |rec.fields|
  {
    Kept(Columns(rec), InsertKeyColumn(rec))
  }

  /** The inserted columns, in declaration order. */
  function InsertColumns(rec: Record): seq<string>
  {
    Pick(Columns(rec), InsertIndices(rec))
  }

  /** The inserted values, filtered at the same positions. */
  function InsertValues(rec: Record): seq<Value>
  {
    Pick(Values(rec), InsertIndices(rec))
  }

  /** The placeholders for n arguments: GetPlaceholder(1) .. GetPlaceholder(n). */
  function Placeholders(d: Dialect, n: nat): (ps: seq<string>)
    ensures |ps| == n && forall i :: 0 <= i < n ==> ps[i] == Placeholder(d, i + 1)
  {
    seq(n, i requires 0 <= i < n => Placeholder(d, i + 1))
  }

  /** INSERT INTO t (c1, ..., cn) VALUES (p1, ..., pn) with the values of
      the inserted columns as arguments. */
  function InsertStatement(d: Dialect, rec: Record): Statement
  {
    var cols := InsertColumns(rec);
    Statement("INSERT INTO " + TableName(rec) + " (" + Join(cols, ", ") + ") VALUES (" + Join(Placeholders(d, |cols|), ", ") + ")",
      InsertValues(rec))
  }

  /** The Postgres path with a key: the statement with RETURNING run through
      DB.QueryRow, and the scanned id as a postgresResult with one row. */
  function ReturningResult(db: Engine, st: Statement, pk: string): Result<SqlResult>
  {
    match ScanKey(db, db.queryRow(Statement(st.sql + " RETURNING " + pk, st.args)))
    case Err(e) => Err(Wrapped(ScanIdContext, e))
    case Ok(id) => Ok(PgResult(id, 1))
  }

  /** What Insert returns. */
  function InsertResult(ds: Option<Datastore>, rec: Record): (r: Result<SqlResult>)
    ensures !Ready(ds) ==> r == Err(Message(DatastoreNilMessage))
  {
    if !Ready(ds) then Err(Message(DatastoreNilMessage))
    else
      var st := InsertStatement(ds.value.adapter.value, rec);
      if ds.value.adapter.value == Postgres && InsertKeyColumn(rec) != "" then
        ReturningResult(ds.value.db.value, st, InsertKeyColumn(rec))
      else
        Exec(ds, st.sql, st.args)
  }

  /** Insert: the guard, the loop that drops the key column, the loop that
      numbers the placeholders, and the dialect branch. */
  method Insert(ds: Option<Datastore>, rec: Record) returns (r: Result<SqlResult>)
    ensures r == InsertResult(ds, rec)
  {
    if ds.None? || ds.value.db.None? || ds.value.adapter.None? {
      return Err(Message(DatastoreNilMessage));
    }
    var db := ds.value.db.value;
    var adapter := ds.value.adapter.value;
    var tableName := TableName(rec);
    var allColumns := Columns(rec);
    var allValues := Values(rec);
    var pkCol := "";
    var key := PrimaryKeyColumn(rec);
    if key.Some? {
      pkCol := key.value;
    }
    var columns, values := SkipColumn(allColumns, allValues, pkCol);
    var placeholders := NumberPlaceholders(adapter, |columns|);
    var query := "INSERT INTO " + tableName + " (" + Join(columns, ", ") + ") VALUES (" + Join(placeholders, ", ") + ")";
    if adapter == Postgres {
      if pkCol == "" {
        r := Exec(ds, query, values);
        return;
      }
      query := query + " RETURNING " + pkCol;
      var row := db.queryRow(Statement(query, values));
      var scanned := ScanKey(db, row);
      if scanned.Err? {
        return Err(Wrapped(ScanIdContext, scanned.error));
      }
      return Ok(PgResult(scanned.value, 1));
    }
    r := Exec(ds, query, values);
  }

  /** Insert's first loop: the columns other than `skip`, and the values at
      the same positions. */
  method SkipColumn(allColumns: seq<string>, allValues: seq<Value>, skip: string) returns (columns: seq<string>, values: seq<Value>)
    requires |allValues| == |allColumns|
    ensures columns == Pick(allColumns, Kept(allColumns, skip))
    ensures values == Pick(allValues, Kept(allColumns, skip))
  {
    columns := [];
    values := [];
    var i := 0;
    while i < |allColumns|
      invariant 0 <= i <= |allColumns|
      invariant columns == Pick(allColumns, Kept(allColumns[..i], skip))
      invariant values == Pick(allValues, Kept(allColumns[..i], skip))
    {
      KeptStep(allColumns, skip, i);
      PickAppend(allColumns, Kept(allColumns[..i], skip), i);
      PickAppend(allValues, Kept(allColumns[..i], skip), i);
      if allColumns[i] != skip {
        columns := columns + [allColumns[i]];
        values := values + [allValues[i]];
      }
      i := i + 1;
    }
    assert allColumns[..i] == allColumns;
  }

  /** Insert's second loop: a placeholder array filled by index. */
  method NumberPlaceholders(d: Dialect, n: nat) returns (ps: seq<string>)
    ensures ps == Placeholders(d, n)
  {
    var placeholders := new string[n];
    var i := 0;
    while i < n
      invariant 0 <= i <= n
      invariant forall k :: 0 <= k < i ==> placeholders[k] == Placeholder(d, k + 1)
    {
      placeholders[i] := Placeholder(d, i + 1);
      i := i + 1;
    }
    ps := placeholders[..];
  }

  /** The inserted columns are exactly the model's columns other than the key
      column, in declaration order. */
  lemma InsertColumnsFiltered(rec: Record)
    ensures |InsertColumns(rec)| == |InsertValues(rec)|
    ensures forall j :: 0 <= j < |InsertColumns(rec)| ==> InsertColumns(rec)[j] != InsertKeyColumn(rec)
    ensures forall i :: 0 <= i < |rec.fields| && Columns(rec)[i] != InsertKeyColumn(rec) ==> Columns(rec)[i] in InsertColumns(rec)
    ensures forall j1, j2 :: 0 <= j1 < j2 < |InsertIndices(rec)| ==> InsertIndices(rec)[j1] < InsertIndices(rec)[j2]
  {
    var cols := Columns(rec);
    var k := InsertIndices(rec);
    KeptComplete(cols, InsertKeyColumn(rec));
    forall i | 0 <= i < |rec.fields| && cols[i] != InsertKeyColumn(rec)
      ensures cols[i] in InsertColumns(rec)
    {
      var j :| 0 <= j < |k| && k[j] == i;
      assert InsertColumns(rec)[j] == cols[i];
    }
  }

  /** Each inserted column is sent with its own field's value: the j-th
      inserted pair is the column and value of field InsertIndices(rec)[j]. */
  lemma InsertValuesAligned(rec: Record)
    ensures |InsertColumns(rec)| == |InsertValues(rec)| == |InsertIndices(rec)|
    ensures forall j :: 0 <= j < |InsertIndices(rec)| ==>
      InsertColumns(rec)[j] == Lower(rec.fields[InsertIndices(rec)[j]].name) &&
      InsertValues(rec)[j] == rec.fields[InsertIndices(rec)[j]].value
  {
  }

  /** Without a primary key every column is inserted (field names are never
      empty, so none equals the "" that stands for the missing key). */
  lemma InsertWithoutKey(rec: Record)
    requires PrimaryKeyColumn(rec).None?
    requires forall i :: 0 <= i < |rec.fields| ==> rec.fields[i].name != ""
    ensures InsertColumns(rec) == Columns(rec)
    ensures InsertValues(rec) == Values(rec)
  {
    var cols := Columns(rec);
    forall i | 0 <= i < |cols|
      ensures cols[i] != ""
    {
      assert |cols[i]| == |rec.fields[i].name|;
    }
    KeptAll(cols, "");
  }

  /** With a key and distinct column names, exactly the key column is left
      out: one column fewer, and the key column is not among them. */
  lemma InsertWithKey(rec: Record)
    requires PrimaryKeyColumn(rec).Some?
    requires forall i, j :: 0 <= i < j < |rec.fields| ==> Columns(rec)[i] != Columns(rec)[j]
    ensures |InsertColumns(rec)| == |InsertValues(rec)| == |rec.fields| - 1
    ensures PrimaryKeyColumn(rec).value !in InsertColumns(rec)
  {
    var cols := Columns(rec);
    var p := KeyIndex(rec).value;
    KeptAllButOne(cols, InsertKeyColumn(rec), p);
    InsertColumnsFiltered(rec);
  }

  /** Every argument has its placeholder: as many placeholders as values, and
      the i-th is GetPlaceholder(i + 1). */
  lemma InsertPlaceholdersMatchArguments(d: Dialect, rec: Record)
    ensures InsertStatement(d, rec).sql ==
      "INSERT INTO " + TableName(rec) + " (" + Join(InsertColumns(rec), ", ") + ") VALUES ("
        + Join(Placeholders(d, |InsertStatement(d, rec).args|), ", ") + ")"
    ensures InsertStatement(d, rec).args == InsertValues(rec)
  {
    InsertColumnsFiltered(rec);
  }

  /** Postgres numbers its placeholders $1..$n, all different, each naming
      its own position. */
  lemma PostgresPlaceholdersNumbered(n: nat)
    ensures forall i :: 0 <= i < n ==> PlaceholderIndex(Placeholders(Postgres, n)[i]) == Some(i + 1)
    ensures forall i, j :: 0 <= i < j < n ==> Placeholders(Postgres, n)[i] != Placeholders(Postgres, n)[j]
  {
    forall i | 0 <= i < n
      ensures PlaceholderIndex(Placeholders(Postgres, n)[i]) == Some(i + 1)
    {
      PostgresPlaceholderRoundTrip(i + 1);
    }
    forall i, j | 0 <= i < j < n
      ensures Placeholders(Postgres, n)[i] != Placeholders(Postgres, n)[j]
    {
      PostgresPlaceholdersDistinct(i + 1, j + 1);
    }
  }

  /** No question mark in a string. */
  predicate NoMark(s: string)
  {
    forall i :: 0 <= i < |s| ==> s[i] != '?'
  }

  lemma LowerKeepsNoMark(s: string)
    requires NoMark(s)
    ensures NoMark(Lower(s)) && Count(Lower(s), '?') == 0
  {
    CountAbsent(Lower(s), '?');
  }

  /** The SQLite INSERT holds exactly as many "?" as it has arguments, for
      any model whose names hold no "?" (Go identifiers never do). */
  lemma SQLiteInsertMarksMatchArguments(rec: Record)
    requires NoMark(rec.typeName)
    requires forall i :: 0 <= i < |rec.fields| ==> NoMark(rec.fields[i].name)
    ensures Count(InsertStatement(SQLite, rec).sql, '?') == |InsertStatement(SQLite, rec).args|
  {
    InsertColumnsUnmarked(rec);
    InsertColumnsFiltered(rec);
    var n := |InsertColumns(rec)|;
    PlaceholderMarks(n);
    LowerKeepsNoMark(rec.typeName);
    CountInsertShape(TableName(rec), Join(InsertColumns(rec), ", "), Join(Placeholders(SQLite, n), ", "));
  }

  lemma InsertColumnsUnmarked(rec: Record)
    requires forall i :: 0 <= i < |rec.fields| ==> NoMark(rec.fields[i].name)
    ensures Count(Join(InsertColumns(rec), ", "), '?') == 0
  {
    var cols := InsertColumns(rec);
    forall j | 0 <= j < |cols|
      ensures Count(cols[j], '?') == 0
    {
      LowerKeepsNoMark(rec.fields[InsertIndices(rec)[j]].name);
    }
    CountAbsent(", ", '?');
    CountJoin(cols, ", ", '?', 0);
  }

  lemma PlaceholderMarks(n: nat)
    ensures Count(Join(Placeholders(SQLite, n), ", "), '?') == n
  {
    var phs := Placeholders(SQLite, n);
    forall j | 0 <= j < n
      ensures Count(phs[j], '?') == 1
    {
      assert phs[j] == "?";
    }
    CountAbsent(", ", '?');
    CountJoin(phs, ", ", '?', 1);
  }

  /** The fixed text of an INSERT holds no "?". */
  lemma CountInsertShape(t: string, jc: string, jp: string)
    ensures Count("INSERT INTO " + t + " (" + jc + ") VALUES (" + jp + ")", '?') == Count(t, '?') + Count(jc, '?') + Count(jp, '?')
  {
    InsertTextUnmarked();
    CountInterleaved("INSERT INTO ", t, " (", jc, ") VALUES (", jp, ")");
  }

  lemma InsertTextUnmarked()
    ensures Count("INSERT INTO ", '?') == 0
    ensures Count(" (", '?') == 0
    ensures Count(") VALUES (", '?') == 0
    ensures Count(")", '?') == 0
  {
    InsertKeywordUnmarked();
    OpenUnmarked();
    ValuesKeywordUnmarked();
    CloseUnmarked();
  }

  lemma InsertKeywordUnmarked() ensures Count("INSERT INTO ", '?') == 0 { CountAbsent("INSERT INTO ", '?'); }
  lemma OpenUnmarked() ensures Count(" (", '?') == 0 { CountAbsent(" (", '?'); }
  lemma ValuesKeywordUnmarked() ensures Count(") VALUES (", '?') == 0 { CountAbsent(") VALUES (", '?'); }
  lemma CloseUnmarked() ensures Count(")", '?') == 0 { CountAbsent(")", '?'); }

  lemma CountInterleaved(a: string, t: string, b: string, jc: string, c: string, jp: string, e: string)
    requires Count(a, '?') == Count(b, '?') == Count(c, '?') == Count(e, '?') == 0
    ensures Count(a + t + b + jc + c + jp + e, '?') == Count(t, '?') + Count(jc, '?') + Count(jp, '?')
  {
    CountConcat(a, t, '?');
    CountConcat(a + t, b, '?');
    CountConcat(a + t + b, jc, '?');
    CountConcat(a + t + b + jc, c, '?');
    CountConcat(a + t + b + jc + c, jp, '?');
    CountConcat(a + t + b + jc + c + jp, e, '?');
  }

  /** On Postgres with a key, the statement gains RETURNING pk and goes
      through DB.QueryRow; a scanned id comes back as LastInsertId with one
      row affected, any failure wrapped. */
  lemma PostgresInsertReturning(db: Engine, rec: Record)
    requires PrimaryKeyColumn(rec).Some?
    requires PrimaryKeyColumn(rec).value != ""
    ensures var r := InsertResult(Some(Datastore(Some(db), Some(Postgres))), rec);
      var st := InsertStatement(Postgres, rec);
      var key := ScanKey(db, db.queryRow(Statement(st.sql + " RETURNING " + PrimaryKeyColumn(rec).value, st.args)));
      (r.Ok? <==> key.Ok?) &&
      (r.Ok? ==> LastInsertId(r.value) == Ok(key.value) && RowsAffected(r.value) == Ok(1)) &&
      (r.Err? ==> r.error == Wrapped(ScanIdContext, key.error))
  {
  }

  /** On SQLite, and on Postgres without a key, the plain statement goes
      through Exec unchanged. */
  lemma InsertThroughExec(ds: Option<Datastore>, rec: Record)
    requires Ready(ds)
    requires ds.value.adapter.value == SQLite || PrimaryKeyColumn(rec).None?
    ensures InsertResult(ds, rec) == Exec(ds, InsertStatement(ds.value.adapter.value, rec).sql, InsertValues(rec))
  {
  }
}
