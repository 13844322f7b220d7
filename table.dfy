/** The older, SQLite-only table helpers: getTableName, getFieldInfo and
    CreateTable. Unlike the adapters, a `db` tag renames the column here,
    and CreateTable accepts a struct value only. */
module Table {
  import opened Text
  import opened Meta
  import opened Adapter
  import opened Queries

  const NoModelMessage: string := "no model passed in"
  const CreateTableContext: string := "failed to create table: "

  /** reflect's Type.Name() of the value's type. */
  function ShapeName(s: Shape): string
  {
    match s
    case Struct(rec) => rec.typeName
    case Scalar(goType) => goType
  }

  /** getTableName: the lower-cased type name, with one pointer dereferenced.
      reflect.TypeOf(nil) has no Kind, so nil is excluded. */
  function GetTableName(m: ModelArg): (name: string)
    requires !m.NilArg?
    ensures m.shape.Struct? ==> name == TableName(m.shape.rec)
  {
    Lower(ShapeName(m.shape))
  }

  /** A pointer, nil or not, names the table of the type it points to. */
  lemma TableNameDereferences(s: Shape)
    ensures GetTableName(Ptr(s)) == GetTableName(Val(s)) == GetTableName(NilPtr(s))
    ensures s.Struct? ==> GetTableName(Ptr(s)) == TableName(s.rec)
  {
  }

  /** The column of a field: its `db` tag when it has one, otherwise its
      lower-cased name. */
  function FieldColumn(f: Field): string
  {
    if f.dbTag != "" then f.dbTag else Lower(f.name)
  }

  function FieldColumns(rec: Record): (cols: seq<string>)
    ensures |cols| == |rec.fields|
    ensures forall i :: 0 <= i < |cols| ==> cols[i] == FieldColumn(rec.fields[i])
  {
    seq(|rec.fields|, i requires 0 <= i < |rec.fields| => FieldColumn(rec.fields[i]))
  }

  /** Without tags the columns are the ones the rest of the ORM uses. */
  lemma UntaggedColumnsAgree(rec: Record)
    requires forall i :: 0 <= i < |rec.fields| ==> rec.fields[i].dbTag == ""
    ensures FieldColumns(rec) == Columns(rec)
  {
  }

  /** A struct value or a non-nil pointer to one: what val.NumField() needs. */
  predicate HasFields(m: ModelArg)
  {
    (m.Val? || m.Ptr?) && m.shape.Struct?
  }

  /** Every field is exported. reflect's Value.Interface panics on a field
      that is not, so the CRUD helpers need this once they read the fields. */
  predicate AllExported(rec: Record)
  {
    forall i :: 0 <= i < |rec.fields| ==> IsExported(rec.fields[i].name)
  }

  /** getFieldInfo: one column per field in declaration order, and as many
      "?" placeholders. */
  method GetFieldInfo(m: ModelArg) returns (columns: seq<string>, placeholders: seq<string>)
    requires HasFields(m)
    ensures columns == FieldColumns(m.shape.rec)
    ensures |placeholders| == |columns| && forall i :: 0 <= i < |placeholders| ==> placeholders[i] == "?"
  {
    var rec := m.shape.rec;
    columns, placeholders := [], [];
    var i := 0;
    while i < |rec.fields|
      invariant 0 <= i <= |rec.fields|
      invariant |columns| == i && forall k :: 0 <= k < i ==> columns[k] == FieldColumn(rec.fields[k])
      invariant |placeholders| == i && forall k :: 0 <= k < i ==> placeholders[k] == "?"
    {
      var field := rec.fields[i];
      var columnName := Lower(field.name);
      if field.dbTag != "" {
        columnName := field.dbTag;
      }
      columns := columns + [columnName];
      placeholders := placeholders + ["?"];
      i := i + 1;
    }
  }

  /** The SQL type: SQLite's type switch, then " PRIMARY KEY" on the key. */
  function TableColumnType(f: Field): string
  {
    SqlType(SQLite, f.goType) + (if f.isPk then " PRIMARY KEY" else "")
  }

  /** fmt.Sprintf("%s %s", columnName, sqlType): no constraint part. */
  function TableColumnDefinition(f: Field): string
  {
    FieldColumn(f) + " " + TableColumnType(f)
  }

  function TableColumnDefinitions(fields: seq<Field>): (defs: seq<string>)
    ensures |defs| == |fields|
    ensures forall i :: 0 <= i < |fields| ==> defs[i] == TableColumnDefinition(fields[i])
  {
    seq(|fields|, i requires 0 <= i < |fields| => TableColumnDefinition(fields[i]))
  }

  function TableStatement(rec: Record): string
  {
    "CREATE TABLE IF NOT EXISTS " + TableName(rec) + " (" + Join(TableColumnDefinitions(rec.fields), ", ") + ")"
  }

  /** What db.Exec's outcome becomes. */
  function CreateTableOutcome(db: Engine, sql: string): (err: Option<Error>)
    ensures err.None? <==> db.exec(Statement(sql, [])).Ok?
    ensures err.Some? ==> err.value == Wrapped(CreateTableContext, db.exec(Statement(sql, [])).error)
  {
    match db.exec(Statement(sql, []))
    case Ok(_) => None
    case Err(e) => Some(Wrapped(CreateTableContext, e))
  }

  /** CreateTable: nil is rejected, and so is every kind other than a struct
      value (a pointer to a struct included); the definitions are built in
      field order and the statement is executed. */
  method CreateTable(db: Engine, m: ModelArg) returns (err: Option<Error>)
    ensures m.NilArg? ==> err == Some(Message(NilModelMessage))
    ensures !m.NilArg? && !(m.Val? && m.shape.Struct?) ==> err == Some(Message(NoModelMessage))
    ensures m.Val? && m.shape.Struct? ==> err == CreateTableOutcome(db, TableStatement(m.shape.rec))
  {
    if m.NilArg? {
      return Some(Message(NilModelMessage));
    }
    if !m.Val? || !m.shape.Struct? {
      return Some(Message(NoModelMessage));
    }
    var tableName := GetTableName(m);
    var rec := m.shape.rec;
    var columnDefinitions: seq<string> := [];
    var i := 0;
    while i < |rec.fields|
      invariant 0 <= i <= |rec.fields|
      invariant |columnDefinitions| == i
      invariant forall k :: 0 <= k < i ==> columnDefinitions[k] == TableColumnDefinition(rec.fields[k])
    {
      var field := rec.fields[i];
      var columnName := Lower(field.name);
      if field.dbTag != "" {
        columnName := field.dbTag;
      }
      var sqlType := "";
      if field.goType in IntegerTypes {
        sqlType := "INTEGER";
      } else if field.goType == "string" {
        sqlType := "TEXT";
      } else if field.goType in FloatTypes {
        sqlType := "REAL";
      } else if field.goType == "bool" {
        sqlType := "BOOLEAN";
      } else {
        sqlType := "TEXT";
      }
      if field.isPk {
        sqlType := sqlType + " PRIMARY KEY";
      }
      columnDefinitions := columnDefinitions + [columnName + " " + sqlType];
      i := i + 1;
    }
    assert columnDefinitions == TableColumnDefinitions(rec.fields);
    var createQuery := "CREATE TABLE IF NOT EXISTS " + tableName + " (" + Join(columnDefinitions, ", ") + ")";
    var result := db.exec(Statement(createQuery, []));
    if result.Err? {
      return Some(Wrapped(CreateTableContext, result.error));
    }
    return None;
  }

  /** The type part is SQLite's: floats are REAL, and the key is marked
      PRIMARY KEY after its type (never SERIAL). */
  lemma TableTypeIsSQLite(f: Field)
    ensures TableColumnType(f) == ColumnType(SQLite, f)
    ensures f.goType in FloatTypes ==> TableColumnType(f) == "REAL" + (if f.isPk then " PRIMARY KEY" else "")
  {
  }

  /** Against the SQLite adapter: an untagged field gets the same definition
      except for the adapter's trailing space; a tagged one is named by its
      tag here and by its field name, followed by the upper-cased tag, there. */
  lemma TableAgainstAdapter(f: Field)
    ensures f.dbTag == "" ==> ColumnDefinition(SQLite, f) == TableColumnDefinition(f) + " "
    ensures f.dbTag != "" ==> (TableColumnDefinition(f) == f.dbTag + " " + ColumnType(SQLite, f) &&
      ColumnDefinition(SQLite, f) == Lower(f.name) + " " + ColumnType(SQLite, f) + " " + Upper(f.dbTag))
  {
    TableTypeIsSQLite(f);
  }

  /** The same holds definition by definition over a whole untagged struct. */
  lemma TableStatementAgainstAdapter(rec: Record)
    requires forall i :: 0 <= i < |rec.fields| ==> rec.fields[i].dbTag == ""
    ensures |ColumnDefinitions(SQLite, rec.fields)| == |TableColumnDefinitions(rec.fields)|
    ensures forall i :: 0 <= i < |rec.fields| ==>
      ColumnDefinitions(SQLite, rec.fields)[i] == TableColumnDefinitions(rec.fields)[i] + " "
  {
    forall i | 0 <= i < |rec.fields|
      ensures ColumnDefinitions(SQLite, rec.fields)[i] == TableColumnDefinitions(rec.fields)[i] + " "
    {
      TableAgainstAdapter(rec.fields[i]);
    }
  }
}
