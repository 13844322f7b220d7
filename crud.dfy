/** The older CRUD helpers, SQLite only: Create inserts every field, and
    Get, Update and Delete address the row by a hard-coded `id` column of a
    table the caller names. */
module Crud {
  import opened Text
  import opened Meta
  import opened Adapter
  import opened Queries
  import opened Table
  import Repository

  const InsertPrepareContext: string := "failed to prepare insert statement: "
  const InsertExecContext: string := "failed to execute insert statement: "
  const SelectPrepareContext: string := "failed to prepare select statement: "
  const ScanRowContext: string := "failed to scan row: "
  const UpdatePrepareContext: string := "failed to prepare update statement: "
  const UpdateExecContext: string := "failed to execute update statement: "
  const DeletePrepareContext: string := "failed to prepare delete statement: "
  const DeleteExecContext: string := "failed to execute delete statement: "

  /** fmt.Errorf("record not found with id %d", id): a plain message, nothing wrapped. */
  function NotFoundMessage(id: int): string
  {
    "record not found with id " + IntToDecimal(id)
  }

  /** Prepare, then Exec, each failure wrapped with its own context. */
  function Run(db: Engine, st: Statement, prepareContext: string, execContext: string): (err: Option<Error>)
    ensures err.None? <==> db.prepare(st.sql).None? && db.exec(st).Ok?
    ensures db.prepare(st.sql).Some? ==> err == Some(Wrapped(prepareContext, db.prepare(st.sql).value))
    ensures db.prepare(st.sql).None? && db.exec(st).Err? ==> err == Some(Wrapped(execContext, db.exec(st).error))
  {
    match db.prepare(st.sql)
    case Some(e) => Some(Wrapped(prepareContext, e))
    case None =>
      match db.exec(st)
      case Ok(_) => None
      case Err(e) => Some(Wrapped(execContext, e))
  }

  // ----- Create -----

  /** INSERT INTO t (c1, ..., cn) VALUES (?, ..., ?) over every field, the
      key included, with every field's value as an argument. */
  function CreateStatement(rec: Record): Statement
  {
    Statement("INSERT INTO " + TableName(rec) + " (" + Join(FieldColumns(rec), ", ") + ") VALUES ("
      + Join(Placeholders(SQLite, |rec.fields|), ", ") + ")", Values(rec))
  }

  /** Create: the INSERT is prepared, then every field is read and the
      statement executed. Reading an unexported field panics, so such a
      struct is only accepted when the prepare fails first. */
  method Create(db: Engine, m: ModelArg) returns (err: Option<Error>)
    requires HasFields(m)
    requires db.prepare(CreateStatement(m.shape.rec).sql).None? ==> AllExported(m.shape.rec)
    ensures err == Run(db, CreateStatement(m.shape.rec), InsertPrepareContext, InsertExecContext)
  {
    var rec := m.shape.rec;
    var tableName := GetTableName(m);
    var columns, placeholders := GetFieldInfo(m);
    assert placeholders == Placeholders(SQLite, |rec.fields|);
    var insertQuery := "INSERT INTO " + tableName + " (" + Join(columns, ", ") + ") VALUES (" + Join(placeholders, ", ") + ")";
    assert insertQuery == CreateStatement(rec).sql;
    var prepared := db.prepare(insertQuery);
    if prepared.Some? {
      return Some(Wrapped(InsertPrepareContext, prepared.value));
    }
    var args := FieldValues(rec);
    var result := db.exec(Statement(insertQuery, args[..]));
    if result.Err? {
      return Some(Wrapped(InsertExecContext, result.error));
    }
    return None;
  }

  /** args[i] = val.Field(i).Interface() for every field. */
  method FieldValues(rec: Record) returns (args: array<Value>)
    requires AllExported(rec)
    ensures fresh(args)
    ensures args[..] == Values(rec)
  {
    args := new Value[|rec.fields|];
    for i := 0 to |rec.fields|
      invariant forall k :: 0 <= k < i ==> args[k] == rec.fields[k].value
    {
      args[i] := rec.fields[i].value;
    }
  }

  /** Create binds one "?" per field and one argument per field, the key
      among them, whenever no name or tag holds a "?". */
  lemma CreateInsertsEveryField(rec: Record)
    requires NoMark(rec.typeName)
    requires forall i :: 0 <= i < |rec.fields| ==> NoMark(FieldColumn(rec.fields[i]))
    ensures CreateStatement(rec).args == Values(rec)
    ensures KeyIndex(rec).Some? ==> FieldColumn(rec.fields[KeyIndex(rec).value]) in FieldColumns(rec)
    ensures Count(CreateStatement(rec).sql, '?') == |CreateStatement(rec).args| == |FieldColumns(rec)|
  {
    var n := |rec.fields|;
    ColumnsUnmarked(FieldColumns(rec));
    PlaceholderMarks(n);
    LowerKeepsNoMark(rec.typeName);
    CountInsertShape(TableName(rec), Join(FieldColumns(rec), ", "), Join(Placeholders(SQLite, n), ", "));
    if KeyIndex(rec).Some? {
      assert FieldColumns(rec)[KeyIndex(rec).value] == FieldColumn(rec.fields[KeyIndex(rec).value]);
    }
  }

  lemma ColumnsUnmarked(cols: seq<string>)
    requires forall i :: 0 <= i < |cols| ==> NoMark(cols[i])
    ensures Count(Join(cols, ", "), '?') == 0
  {
    forall j | 0 <= j < |cols|
      ensures Count(cols[j], '?') == 0
    {
      CountAbsent(cols[j], '?');
    }
    CountAbsent(", ", '?');
    CountJoin(cols, ", ", '?', 0);
  }

  // ----- Get -----

  /** SELECT c1, ..., cn FROM table WHERE id = ?: the caller's table name,
      the `id` column whatever the key is, and the id as the only argument. */
  function GetStatement(table: string, id: int, rec: Record): Statement
  {
    Statement("SELECT " + Join(FieldColumns(rec), ", ") + " FROM " + table + " WHERE id = ?", [IntV(id)])
  }

  /** What Get returns and leaves in the model. */
  function GetResult(db: Engine, table: string, id: int, m: ModelArg): (f: Repository.Found)
    requires HasFields(m)
    requires db.prepare(GetStatement(table, id, m.shape.rec).sql).None? ==> m.Ptr? && AllExported(m.shape.rec)
    ensures db.prepare(GetStatement(table, id, m.shape.rec).sql).Some? ==>
      f == Repository.Found(Some(Wrapped(SelectPrepareContext, db.prepare(GetStatement(table, id, m.shape.rec).sql).value)), m)
    ensures db.prepare(GetStatement(table, id, m.shape.rec).sql).None? ==>
      var s := Scan(db, db.queryRow(GetStatement(table, id, m.shape.rec)), m.shape.rec);
      (s.err.None? ==> f == Repository.Found(None, Ptr(Struct(s.rec)))) &&
      (s.err == Some(NoRows) ==> f == Repository.Found(Some(Message(NotFoundMessage(id))), Ptr(Struct(s.rec)))) &&
      (s.err.Some? && s.err.value != NoRows ==> f == Repository.Found(Some(Wrapped(ScanRowContext, s.err.value)), Ptr(Struct(s.rec))))
  {
    var rec := m.shape.rec;
    var st := GetStatement(table, id, rec);
    match db.prepare(st.sql)
    case Some(e) => Repository.Found(Some(Wrapped(SelectPrepareContext, e)), m)
    case None =>
      var s := Scan(db, db.queryRow(st), rec);
      match s.err
      case None => Repository.Found(None, Ptr(Struct(s.rec)))
      case Some(e) =>
        Repository.Found(Some(if e == NoRows then Message(NotFoundMessage(id)) else Wrapped(ScanRowContext, e)), Ptr(Struct(s.rec)))
  }

  /** Get: the SELECT is prepared, field i becomes destination i, and the
      row is scanned into the fields. A struct value, whose fields have no
      address, and a struct with an unexported field, whose pointer cannot be
      read out, are only accepted when the prepare fails first. */
  method Get(db: Engine, table: string, id: int, m: ModelArg) returns (f: Repository.Found)
    requires HasFields(m)
    requires db.prepare(GetStatement(table, id, m.shape.rec).sql).None? ==> m.Ptr? && AllExported(m.shape.rec)
    ensures f == GetResult(db, table, id, m)
  {
    var tableName := table;
    var columns, _ := GetFieldInfo(m);
    var selectQuery := "SELECT " + Join(columns, ", ") + " FROM " + tableName + " WHERE id = ?";
    var prepared := db.prepare(selectQuery);
    if prepared.Some? {
      return Repository.Found(Some(Wrapped(SelectPrepareContext, prepared.value)), m);
    }
    var rec := m.shape.rec;
    var dest := new nat[|rec.fields|];
    for i := 0 to |rec.fields|
      invariant forall k :: 0 <= k < i ==> dest[k] == k
    {
      dest[i] := i;
    }
    var row := db.queryRow(Statement(selectQuery, [IntV(id)]));
    var scanned := Scan(db, row, rec);
    if scanned.err.Some? {
      if scanned.err.value == NoRows {
        return Repository.Found(Some(Message(NotFoundMessage(id))), Ptr(Struct(scanned.rec)));
      }
      return Repository.Found(Some(Wrapped(ScanRowContext, scanned.err.value)), Ptr(Struct(scanned.rec)));
    }
    return Repository.Found(None, Ptr(Struct(scanned.rec)));
  }

  /** sql.ErrNoRows itself becomes the "record not found" message, which no
      longer matches sql.ErrNoRows; an error that only wraps it is reported
      as a scan failure. */
  lemma GetNotFound(db: Engine, table: string, id: int, rec: Record, context: string)
    requires db.prepare(GetStatement(table, id, rec).sql).None?
    requires AllExported(rec)
    ensures db.queryRow(GetStatement(table, id, rec)) == Err(NoRows) ==>
      GetResult(db, table, id, Ptr(Struct(rec))) == Repository.Found(Some(Message(NotFoundMessage(id))), Ptr(Struct(rec)))
    ensures db.queryRow(GetStatement(table, id, rec)) == Err(NoRows) ==> !IsNoRows(GetResult(db, table, id, Ptr(Struct(rec))).err.value)
    ensures db.queryRow(GetStatement(table, id, rec)) == Err(Wrapped(context, NoRows)) ==>
      GetResult(db, table, id, Ptr(Struct(rec))).err == Some(Wrapped(ScanRowContext, Wrapped(context, NoRows)))
  {
  }

  /** On success field i holds column i of the row, converted, for every field. */
  lemma GetFillsEveryField(db: Engine, table: string, id: int, rec: Record)
    requires AllExported(rec)
    requires GetResult(db, table, id, Ptr(Struct(rec))).err.None?
    ensures var f := GetResult(db, table, id, Ptr(Struct(rec)));
      var row := db.queryRow(GetStatement(table, id, rec));
      f.model.Ptr? && f.model.shape.Struct? &&
      f.model.shape.rec.typeName == rec.typeName && |f.model.shape.rec.fields| == |rec.fields| &&
      row.Ok? && |row.value| == |rec.fields| &&
      forall i :: 0 <= i < |rec.fields| ==>
        f.model.shape.rec.fields[i] == rec.fields[i].(value := f.model.shape.rec.fields[i].value) &&
        db.convert(rec.fields[i].goType, row.value[i]) == Some(f.model.shape.rec.fields[i].value)
  {
  }

  /** The converse of GetFillsEveryField: when the row is there and every
      column converts, Get succeeds. */
  lemma GetSucceeds(db: Engine, table: string, id: int, rec: Record)
    requires AllExported(rec)
    requires var st := GetStatement(table, id, rec);
      db.prepare(st.sql).None? && db.queryRow(st).Ok? && |db.queryRow(st).value| == |rec.fields| &&
      forall j :: 0 <= j < |rec.fields| ==> db.convert(rec.fields[j].goType, db.queryRow(st).value[j]).Some?
    ensures GetResult(db, table, id, Ptr(Struct(rec))).err.None?
  {
  }

  /** The SELECT binds one "?" and one argument, when neither the table name
      nor a column holds a "?". */
  lemma GetMarksMatchArguments(table: string, id: int, rec: Record)
    requires NoMark(table)
    requires forall i :: 0 <= i < |rec.fields| ==> NoMark(FieldColumn(rec.fields[i]))
    ensures Count(GetStatement(table, id, rec).sql, '?') == |GetStatement(table, id, rec).args| == 1
  {
    ColumnsUnmarked(FieldColumns(rec));
    CountAbsent(table, '?');
    CountSelectShape(Join(FieldColumns(rec), ", "), table);
  }

  lemma CountSelectShape(j: string, t: string)
    ensures Count("SELECT " + j + " FROM " + t + " WHERE id = ?", '?') == Count(j, '?') + Count(t, '?') + 1
  {
    SelectKeywordUnmarked();
    FromKeywordUnmarked();
    WhereIdMarked();
    CountConcat("SELECT ", j, '?');
    CountConcat("SELECT " + j, " FROM ", '?');
    CountConcat("SELECT " + j + " FROM ", t, '?');
    CountConcat("SELECT " + j + " FROM " + t, " WHERE id = ?", '?');
  }

  lemma SelectKeywordUnmarked() ensures Count("SELECT ", '?') == 0 { CountAbsent("SELECT ", '?'); }
  lemma FromKeywordUnmarked() ensures Count(" FROM ", '?') == 0 { CountAbsent(" FROM ", '?'); }

  lemma WhereIdMarked()
    ensures Count(" WHERE id = ?", '?') == 1
  {
    var w := " WHERE id = ?";
    assert w == " WHERE id = " + "?";
    CountAbsent(" WHERE id = ", '?');
    CountConcat(" WHERE id = ", "?", '?');
  }

  // ----- Update -----

  /** "c = ?" for every column, in order, the id column included. */
  function Assignments(cols: seq<string>): (cs: seq<string>)
    ensures |cs| == |cols|
    ensures forall i :: 0 <= i < |cols| ==> cs[i] == cols[i] + " = ?"
  {
    seq(|cols|, i requires 0 <= i < |cols| => cols[i] + " = ?")
  }

  /** UPDATE table SET c1 = ?, ..., cn = ? WHERE id = ?, with every field's
      value and then the id. */
  function UpdateStatement(table: string, id: int, rec: Record): Statement
  {
    Statement("UPDATE " + table + " SET " + Join(Assignments(FieldColumns(rec)), ", ") + " WHERE id = ?",
      Values(rec) + [IntV(id)])
  }

  /** Update: the SET clauses are built and prepared, then every field is
      read, the id appended, and the statement executed; as in Create, an
      unexported field is only accepted when the prepare fails first. */
  method Update(db: Engine, table: string, id: int, data: ModelArg) returns (err: Option<Error>)
    requires HasFields(data)
    requires db.prepare(UpdateStatement(table, id, data.shape.rec).sql).None? ==> AllExported(data.shape.rec)
    ensures err == Run(db, UpdateStatement(table, id, data.shape.rec), UpdatePrepareContext, UpdateExecContext)
  {
    var tableName := table;
    var columns, _ := GetFieldInfo(data);
    var setClauses: seq<string> := [];
    for i := 0 to |columns|
      invariant |setClauses| == i && forall k :: 0 <= k < i ==> setClauses[k] == columns[k] + " = ?"
    {
      setClauses := setClauses + [columns[i] + " = ?"];
    }
    assert setClauses == Assignments(columns);
    var updateQuery := "UPDATE " + tableName + " SET " + Join(setClauses, ", ") + " WHERE id = ?";
    assert updateQuery == UpdateStatement(table, id, data.shape.rec).sql;
    var prepared := db.prepare(updateQuery);
    if prepared.Some? {
      return Some(Wrapped(UpdatePrepareContext, prepared.value));
    }
    var args := FieldValues(data.shape.rec);
    var allArgs := args[..] + [IntV(id)];
    var result := db.exec(Statement(updateQuery, allArgs));
    if result.Err? {
      return Some(Wrapped(UpdateExecContext, result.error));
    }
    return None;
  }

  /** Update sets every column, and the statement binds as many "?" as it
      has arguments: one per field and one for the id. */
  lemma UpdateMarksMatchArguments(table: string, id: int, rec: Record)
    requires NoMark(table)
    requires forall i :: 0 <= i < |rec.fields| ==> NoMark(FieldColumn(rec.fields[i]))
    ensures |UpdateStatement(table, id, rec).args| == |rec.fields| + 1
    ensures Count(UpdateStatement(table, id, rec).sql, '?') == |UpdateStatement(table, id, rec).args|
  {
    var cs := Assignments(FieldColumns(rec));
    forall j | 0 <= j < |cs|
      ensures Count(cs[j], '?') == 1
    {
      AssignmentMarked(FieldColumns(rec)[j]);
    }
    CountAbsent(", ", '?');
    CountJoin(cs, ", ", '?', 1);
    CountAbsent(table, '?');
    CountUpdateShape(table, Join(cs, ", "));
  }

  lemma CountUpdateShape(t: string, j: string)
    ensures Count("UPDATE " + t + " SET " + j + " WHERE id = ?", '?') == Count(t, '?') + Count(j, '?') + 1
  {
    Repository.UpdateKeywordUnmarked();
    Repository.SetKeywordUnmarked();
    WhereIdMarked();
    CountConcat("UPDATE ", t, '?');
    CountConcat("UPDATE " + t, " SET ", '?');
    CountConcat("UPDATE " + t + " SET ", j, '?');
    CountConcat("UPDATE " + t + " SET " + j, " WHERE id = ?", '?');
  }

  lemma AssignmentMarked(col: string)
    requires NoMark(col)
    ensures Count(col + " = ?", '?') == 1
  {
    CountAbsent(col, '?');
    EqualsMarked();
    CountConcat(col, " = ?", '?');
  }

  lemma EqualsMarked()
    ensures Count(" = ?", '?') == 1
  {
    assert " = ?" == " = " + "?";
    CountAbsent(" = ", '?');
    CountConcat(" = ", "?", '?');
  }

  // ----- Delete -----

  /** DELETE FROM table WHERE id = ?, with the id as the only argument. */
  function DeleteStatement(table: string, id: int): Statement
  {
    Statement("DELETE FROM " + table + " WHERE id = ?", [IntV(id)])
  }

  /** Delete: prepare, then Exec with the id, each failure wrapped. */
  function Delete(db: Engine, table: string, id: int): (err: Option<Error>)
    ensures var st := DeleteStatement(table, id);
      (err.None? <==> db.prepare(st.sql).None? && db.exec(st).Ok?) &&
      (db.prepare(st.sql).Some? ==> err == Some(Wrapped(DeletePrepareContext, db.prepare(st.sql).value))) &&
      (db.prepare(st.sql).None? && db.exec(st).Err? ==> err == Some(Wrapped(DeleteExecContext, db.exec(st).error)))
  {
    Run(db, DeleteStatement(table, id), DeletePrepareContext, DeleteExecContext)
  }

  /** The DELETE binds exactly one "?", for its one argument. */
  lemma DeleteMarksMatchArguments(table: string, id: int)
    requires NoMark(table)
    ensures Count(DeleteStatement(table, id).sql, '?') == |DeleteStatement(table, id).args| == 1
  {
    CountAbsent(table, '?');
    DeleteKeywordUnmarked();
    WhereIdMarked();
    CountConcat("DELETE FROM ", table, '?');
    CountConcat("DELETE FROM " + table, " WHERE id = ?", '?');
  }

  lemma DeleteKeywordUnmarked() ensures Count("DELETE FROM ", '?') == 0 { CountAbsent("DELETE FROM ", '?'); }
}
