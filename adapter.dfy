/** The two dialect adapters of internal/orm/adapter.go: CREATE TABLE
    generation and the parameter placeholder. The adapters are a closed set of
    variants; the code shared by SQLiteAdapter and PostgresAdapter is one
    definition taking the dialect. */
module Adapter {
  import opened Text
  import opened Meta

  datatype Dialect = SQLite | Postgres

  const NilModelMessage: string := "no model passed in. model was nil"
  const NotStructMessage: string := "model must be a struct or pointer to struct"

  /** GetPlaceholder: SQLite's fixed "?" or Postgres's "$" and the index. */
  function Placeholder(d: Dialect, index: int): string
  {
    match d
    case SQLite => "?"
    case Postgres => "$" + IntToDecimal(index)
  }

  /** Reads the index back out of a Postgres placeholder. */
  function PlaceholderIndex(p: string): Option<nat>
  {
    if |p| >= 2 && p[0] == '$' && IsDigits(p[1..]) then Some(DecimalValue(p[1..])) else None
  }

  lemma PlaceholderExamples()
    ensures Placeholder(SQLite, 1) == "?" && Placeholder(SQLite, 5) == "?"
    ensures Placeholder(Postgres, 1) == "$1"
    ensures Placeholder(Postgres, 2) == "$2"
    ensures Placeholder(Postgres, 10) == "$10"
  {
    assert NatToDecimal(10) == NatToDecimal(1) + [DigitChar(0)];
  }

  /** SQLite's placeholder ignores the index. */
  lemma SQLitePlaceholderConstant(i: int, j: int)
    ensures Placeholder(SQLite, i) == Placeholder(SQLite, j) == "?"
  {
  }

  /** A Postgres placeholder names its index: reading it back gives the index. */
  lemma PostgresPlaceholderRoundTrip(i: nat)
    ensures PlaceholderIndex(Placeholder(Postgres, i)) == Some(i)
  {
    var p := Placeholder(Postgres, i);
    assert p[1..] == NatToDecimal(i);
    DecimalRoundTrip(i);
  }

  /** Distinct indices give distinct Postgres placeholders. */
  lemma PostgresPlaceholdersDistinct(i: int, j: int)
    requires i != j
    ensures Placeholder(Postgres, i) != Placeholder(Postgres, j)
  {
    if Placeholder(Postgres, i) == Placeholder(Postgres, j) {
      assert IntToDecimal(i) == Placeholder(Postgres, i)[1..] == IntToDecimal(j);
      IntToDecimalInjective(i, j);
    }
  }

  const IntegerTypes: set<string> := {"int", "int64", "int32", "int16", "int8"}
  const FloatTypes: set<string> := {"float64", "float32"}

  /** The floating-point type name of each dialect. */
  function RealTypeName(d: Dialect): string
  {
    match d
    case SQLite => "REAL"
    case Postgres => "DOUBLE PRECISION"
  }

  /** The switch on field.Type.String(); unknown types default to TEXT. */
  function SqlType(d: Dialect, goType: string): (r: string)
    ensures r in {"INTEGER", "TEXT", "BOOLEAN", RealTypeName(d)}
  {
    if goType in IntegerTypes then "INTEGER"
    else if goType == "string" then "TEXT"
    else if goType in FloatTypes then RealTypeName(d)
    else if goType == "bool" then "BOOLEAN"
    else "TEXT"
  }

  /** Each Go type maps to its SQL type: the int family to INTEGER, bool to
      BOOLEAN, float32/float64 to REAL (SQLite) or DOUBLE PRECISION
      (Postgres), and string and everything else to TEXT. */
  lemma SqlTypeMapping(d: Dialect, goType: string)
    ensures SqlType(d, goType) == "INTEGER" <==> goType in IntegerTypes
    ensures SqlType(d, goType) == "BOOLEAN" <==> goType == "bool"
    ensures SqlType(d, goType) == RealTypeName(d) <==> goType in FloatTypes
    ensures SqlType(d, goType) == "TEXT" <==> goType !in IntegerTypes + FloatTypes + {"bool"}
    ensures d == SQLite ==> (SqlType(d, goType) == "REAL" <==> goType in FloatTypes)
    ensures d == Postgres ==> (SqlType(d, goType) == "DOUBLE PRECISION" <==> goType in FloatTypes)
  {
  }

  /** The SQL type with the primary-key fragment: SQLite appends it; Postgres
      uses SERIAL when the type contains INTEGER and appends it otherwise. */
  function ColumnType(d: Dialect, f: Field): string
  {
    var t := SqlType(d, f.goType);
    if !f.isPk then t
    else if d == Postgres && Contains(t, "INTEGER") then "SERIAL PRIMARY KEY"
    else t + " PRIMARY KEY"
  }

  /** The upper-cased `db` tag, or nothing. */
  function Constraint(f: Field): string
  {
    if f.dbTag != "" then Upper(f.dbTag) else ""
  }

  /** fmt.Sprintf("%s %s %s", columnName, sqlType, columnConstraint). */
  function ColumnDefinition(d: Dialect, f: Field): string
  {
    Lower(f.name) + " " + ColumnType(d, f) + " " + Constraint(f)
  }

  function ColumnDefinitions(d: Dialect, fields: seq<Field>): seq<string>
  {
    seq(|fields|, i requires 0 <= i < |fields| => ColumnDefinition(d, fields[i]))
  }

  function CreateTableStatement(d: Dialect, rec: Record): string
  {
    "CREATE TABLE IF NOT EXISTS " + TableName(rec) + " (" + Join(ColumnDefinitions(d, rec.fields), ", ") + ")"
  }

  /** After dereferencing one pointer, the model is a struct. */
  predicate IsStructKind(m: ModelArg)
  {
    match m
    case NilArg => false
    case Val(s) => s.Struct?
    case Ptr(s) => s.Struct?
    case NilPtr(s) => s.Struct?
  }

  /** CreateTableSQL of both adapters. A typed nil pointer to a struct passes
      the validation and then panics in reflect, so it is excluded. */
  method CreateTableSQL(d: Dialect, m: ModelArg) returns (r: Result<string>)
    requires !(m.NilPtr? && m.shape.Struct?)
    ensures m.NilArg? ==> r == Err(Message(NilModelMessage))
    ensures !m.NilArg? && !IsStructKind(m) ==> r == Err(Message(NotStructMessage))
    ensures IsStructKind(m) ==> r == Ok(CreateTableStatement(d, m.shape.rec))
  {
    if m.NilArg? {
      return Err(Message(NilModelMessage));
    }
    if !m.shape.Struct? {
      return Err(Message(NotStructMessage));
    }
    var rec := m.shape.rec;
    var tableName := TableName(rec);
    var columnDefinitions: seq<string> := [];
    var i := 0;
    while i < |rec.fields|
      invariant 0 <= i <= |rec.fields|
      invariant |columnDefinitions| == i
      invariant forall k :: 0 <= k < i ==> columnDefinitions[k] == ColumnDefinition(d, rec.fields[k])
    {
      var definition := DefineColumn(d, rec.fields[i]);
      columnDefinitions := columnDefinitions + [definition];
      i := i + 1;
    }
    assert columnDefinitions == ColumnDefinitions(d, rec.fields);
    return Ok("CREATE TABLE IF NOT EXISTS " + tableName + " (" + Join(columnDefinitions, ", ") + ")");
  }

  /** One pass of CreateTableSQL's loop: the definition of one field. */
  method DefineColumn(d: Dialect, field: Field) returns (definition: string)
    ensures definition == ColumnDefinition(d, field)
  {
    var columnName := Lower(field.name);
    var columnConstraint := "";
    if field.dbTag != "" {
      columnConstraint := Upper(field.dbTag);
    }
    var sqlType := "";
    if field.goType in IntegerTypes {
      sqlType := "INTEGER";
    } else if field.goType == "string" {
      sqlType := "TEXT";
    } else if field.goType in FloatTypes {
      sqlType := if d == SQLite then "REAL" else "DOUBLE PRECISION";
    } else if field.goType == "bool" {
      sqlType := "BOOLEAN";
    } else {
      sqlType := "TEXT";
    }
    if field.isPk {
      if d == Postgres && Contains(sqlType, "INTEGER") {
        sqlType := "SERIAL PRIMARY KEY";
      } else {
        sqlType := sqlType + " PRIMARY KEY";
      }
    }
    definition := columnName + " " + sqlType + " " + columnConstraint;
  }

  /** Only INTEGER, among the Postgres type names, contains "INTEGER". */
  lemma PostgresTypeContainsInteger(goType: string)
    ensures Contains(SqlType(Postgres, goType), "INTEGER") <==> goType in IntegerTypes
  {
    var t := SqlType(Postgres, goType);
    if t == "INTEGER" {
      assert t[..7] == "INTEGER";
    } else if t == "DOUBLE PRECISION" {
      NotContainsByFirstChar(t, "INTEGER");
    } else {
      NotContainsByFirstChar(t, "INTEGER");
    }
  }

  /** Postgres declares a column SERIAL PRIMARY KEY exactly when it is the
      primary key and of an integer type. */
  lemma PostgresSerialKey(f: Field)
    ensures ColumnType(Postgres, f) == "SERIAL PRIMARY KEY" <==> f.isPk && f.goType in IntegerTypes
  {
    PostgresTypeContainsInteger(f.goType);
    var t := SqlType(Postgres, f.goType);
    if f.isPk && f.goType !in IntegerTypes {
      assert ColumnType(Postgres, f) == t + " PRIMARY KEY";
      assert (t + " PRIMARY KEY")[0] != 'S' || |t + " PRIMARY KEY"| != 18;
    }
  }

  /** On the primary key SQLite appends " PRIMARY KEY" to the type; every
      other column carries its plain SQL type in both dialects. */
  lemma PrimaryKeyFragment(d: Dialect, f: Field)
    ensures !f.isPk ==> ColumnType(d, f) == SqlType(d, f.goType)
    ensures f.isPk && d == SQLite ==> ColumnType(d, f) == SqlType(d, f.goType) + " PRIMARY KEY"
    ensures f.isPk && d == Postgres && f.goType in IntegerTypes ==> ColumnType(d, f) == "SERIAL PRIMARY KEY"
    ensures f.isPk && d == Postgres && f.goType !in IntegerTypes ==> ColumnType(d, f) == SqlType(d, f.goType) + " PRIMARY KEY"
  {
    PostgresTypeContainsInteger(f.goType);
  }

  /** "a + x + b == a + y + b" only when x == y. */
  lemma CancelAround(a: string, x: string, y: string, b: string)
    ensures a + x + b == a + y + b <==> x == y
  {
    if a + x + b == a + y + b {
      assert |x| == |y|;
      assert x == (a + x + b)[|a|..|a| + |x|];
      assert y == (a + y + b)[|a|..|a| + |y|];
    }
  }

  /** The two dialects give a column the same definition exactly when it is
      not floating point and not an integer primary key. */
  lemma DialectsAgreeOnColumn(f: Field)
    ensures ColumnDefinition(SQLite, f) == ColumnDefinition(Postgres, f)
        <==> f.goType !in FloatTypes && !(f.isPk && f.goType in IntegerTypes)
  {
    DialectsAgreeOnType(f);
    CancelAround(Lower(f.name) + " ", ColumnType(SQLite, f), ColumnType(Postgres, f), " " + Constraint(f));
    assert ColumnDefinition(SQLite, f) == Lower(f.name) + " " + ColumnType(SQLite, f) + (" " + Constraint(f));
    assert ColumnDefinition(Postgres, f) == Lower(f.name) + " " + ColumnType(Postgres, f) + (" " + Constraint(f));
  }

  /** The column types agree exactly when the column is not floating point and
      not an integer primary key. */
  lemma DialectsAgreeOnType(f: Field)
    ensures ColumnType(SQLite, f) == ColumnType(Postgres, f)
        <==> f.goType !in FloatTypes && !(f.isPk && f.goType in IntegerTypes)
  {
    PrimaryKeyFragment(SQLite, f);
    PrimaryKeyFragment(Postgres, f);
    var s := SqlType(SQLite, f.goType);
    var p := SqlType(Postgres, f.goType);
    if f.isPk && f.goType !in IntegerTypes {
      CancelAround("", s, p, " PRIMARY KEY");
      assert s + " PRIMARY KEY" == "" + s + " PRIMARY KEY";
      assert p + " PRIMARY KEY" == "" + p + " PRIMARY KEY";
    }
  }

  /** A model without floating-point fields or an integer primary key gets the
      same CREATE TABLE statement from both adapters. */
  lemma DialectsAgreeOnTable(rec: Record)
    requires forall i :: 0 <= i < |rec.fields| ==>
      rec.fields[i].goType !in FloatTypes && !(rec.fields[i].isPk && rec.fields[i].goType in IntegerTypes)
    ensures CreateTableStatement(SQLite, rec) == CreateTableStatement(Postgres, rec)
  {
    forall i | 0 <= i < |rec.fields|
      ensures ColumnDefinition(SQLite, rec.fields[i]) == ColumnDefinition(Postgres, rec.fields[i])
    {
      DialectsAgreeOnColumn(rec.fields[i]);
    }
    assert ColumnDefinitions(SQLite, rec.fields) == ColumnDefinitions(Postgres, rec.fields);
  }

  /** Without a `db` tag the definition ends in the separator space of the
      empty constraint. */
  lemma UntaggedTrailingSpace(d: Dialect, f: Field)
    requires f.dbTag == ""
    ensures ColumnDefinition(d, f) == Lower(f.name) + " " + ColumnType(d, f) + " "
  {
  }

  /** The TestUser model of the repository's tests. */
  function TestUser(): Record
  {
    Record("TestUser", [
      Field("int", "ID", "not null", true, IntV(0)),
      Field("string", "Username", "unique not null", false, StrV("")),
      Field("string", "Email", "not null unique", false, StrV("")),
      Field("int", "Age", "", false, IntV(0)),
      Field("bool", "IsActive", "", false, BoolV(false))])
  }

  /** The expected SQLite DDL of the repository's adapter test: the column
      definitions, joined by ", " inside "CREATE TABLE IF NOT EXISTS testuser (...)".
      Written out, the statement is
        CREATE TABLE IF NOT EXISTS testuser (id INTEGER PRIMARY KEY NOT NULL, username TEXT UNIQUE NOT NULL, email TEXT NOT NULL UNIQUE, age INTEGER , isactive BOOLEAN ) */
  lemma TestUserSQLite()
    ensures ColumnDefinitions(SQLite, TestUser().fields) == TestUserDefinitions("id INTEGER PRIMARY KEY NOT NULL")
    ensures CreateTableStatement(SQLite, TestUser()) ==
      "CREATE TABLE IF NOT EXISTS " + "testuser" + " (" + Join(TestUserDefinitions("id INTEGER PRIMARY KEY NOT NULL"), ", ") + ")"
  {
    TestUserKeyColumn(SQLite);
    TestUserColumns(SQLite, "id INTEGER PRIMARY KEY NOT NULL");
    TestUserNames();
  }

  /** The expected Postgres DDL: identical except for the SERIAL key.
      Written out, the statement is
        CREATE TABLE IF NOT EXISTS testuser (id SERIAL PRIMARY KEY NOT NULL, username TEXT UNIQUE NOT NULL, email TEXT NOT NULL UNIQUE, age INTEGER , isactive BOOLEAN ) */
  lemma TestUserPostgres()
    ensures ColumnDefinitions(Postgres, TestUser().fields) == TestUserDefinitions("id SERIAL PRIMARY KEY NOT NULL")
    ensures CreateTableStatement(Postgres, TestUser()) ==
      "CREATE TABLE IF NOT EXISTS " + "testuser" + " (" + Join(TestUserDefinitions("id SERIAL PRIMARY KEY NOT NULL"), ", ") + ")"
  {
    TestUserKeyColumn(Postgres);
    TestUserColumns(Postgres, "id SERIAL PRIMARY KEY NOT NULL");
    TestUserNames();
  }

  /** The column definitions the test expects, after the key column. */
  function TestUserDefinitions(first: string): seq<string>
  {
    [first, "username TEXT UNIQUE NOT NULL", "email TEXT NOT NULL UNIQUE", "age INTEGER ", "isactive BOOLEAN "]
  }

  /** The ID column: the only one on which the dialects differ. */
  lemma TestUserKeyColumn(d: Dialect)
    ensures ColumnDefinition(d, TestUser().fields[0]) ==
      (if d == SQLite then "id INTEGER PRIMARY KEY NOT NULL" else "id SERIAL PRIMARY KEY NOT NULL")
  {
    if d == SQLite {
      TestUserKeySQLite();
    } else {
      TestUserKeyPostgres();
    }
  }

  lemma TestUserKeySQLite()
    ensures ColumnDefinition(SQLite, TestUser().fields[0]) == "id INTEGER PRIMARY KEY NOT NULL"
  {
    var f := TestUser().fields[0];
    PrimaryKeyFragment(SQLite, f);
    IdLower();
    IdTag();
    IntegerKeyType();
    IntegerKeyDefinition();
    DefinitionFromParts(SQLite, f, "id", "INTEGER PRIMARY KEY", "NOT NULL");
  }

  lemma TestUserKeyPostgres()
    ensures ColumnDefinition(Postgres, TestUser().fields[0]) == "id SERIAL PRIMARY KEY NOT NULL"
  {
    var f := TestUser().fields[0];
    PrimaryKeyFragment(Postgres, f);
    IdLower();
    IdTag();
    SerialKeyDefinition();
    DefinitionFromParts(Postgres, f, "id", "SERIAL PRIMARY KEY", "NOT NULL");
  }

  // Single literal facts about the test struct's parts. Each is its own
  // lemma so that no one proof has to evaluate a long string at once.
  lemma IdLower() ensures Lower("ID") == "id" { }
  lemma IdTag() ensures Upper("not null") == "NOT NULL" { }
  lemma IntegerKeyType() ensures "INTEGER" + " PRIMARY KEY" == "INTEGER PRIMARY KEY" { }
  lemma IntegerKeyDefinition() ensures "id" + " " + "INTEGER PRIMARY KEY" + " " + "NOT NULL" == "id INTEGER PRIMARY KEY NOT NULL" { }
  lemma SerialKeyDefinition() ensures "id" + " " + "SERIAL PRIMARY KEY" + " " + "NOT NULL" == "id SERIAL PRIMARY KEY NOT NULL" { }

  lemma TestUserUsername(d: Dialect)
    ensures ColumnDefinition(d, TestUser().fields[1]) == "username TEXT UNIQUE NOT NULL"
  {
    var f := TestUser().fields[1];
    UsernameLower();
    UsernameTag();
    UsernameDefinition();
    DefinitionFromParts(d, f, "username", "TEXT", "UNIQUE NOT NULL");
  }

  lemma TestUserEmail(d: Dialect)
    ensures ColumnDefinition(d, TestUser().fields[2]) == "email TEXT NOT NULL UNIQUE"
  {
    var f := TestUser().fields[2];
    EmailLower();
    EmailTag();
    EmailDefinition();
    DefinitionFromParts(d, f, "email", "TEXT", "NOT NULL UNIQUE");
  }

  /** A column definition from its three parts. */
  lemma DefinitionFromParts(d: Dialect, f: Field, name: string, sqlType: string, constraint: string)
    requires Lower(f.name) == name && ColumnType(d, f) == sqlType && Constraint(f) == constraint
    ensures ColumnDefinition(d, f) == name + " " + sqlType + " " + constraint
  {
  }

  // More single literal facts, kept apart for the same reason.
  lemma UsernameLower() ensures Lower("Username") == "username" { }
  lemma UsernameTag() ensures Upper("unique not null") == "UNIQUE NOT NULL" { }
  lemma UsernameDefinition() ensures "username" + " " + "TEXT" + " " + "UNIQUE NOT NULL" == "username TEXT UNIQUE NOT NULL" { }
  lemma EmailLower() ensures Lower("Email") == "email" { }
  lemma EmailTag() ensures Upper("not null unique") == "NOT NULL UNIQUE" { }
  lemma EmailDefinition() ensures "email" + " " + "TEXT" + " " + "NOT NULL UNIQUE" == "email TEXT NOT NULL UNIQUE" { }

  lemma TestUserAge(d: Dialect)
    ensures ColumnDefinition(d, TestUser().fields[3]) == "age INTEGER "
  {
    TestUserNames();
  }

  lemma TestUserIsActive(d: Dialect)
    ensures ColumnDefinition(d, TestUser().fields[4]) == "isactive BOOLEAN "
  {
    TestUserNames();
  }

  /** The case-mapped names and tags of TestUser. */
  lemma TestUserNames()
    ensures TableName(TestUser()) == "testuser"
    ensures Lower("ID") == "id" && Constraint(TestUser().fields[0]) == "NOT NULL"
    ensures Lower("Username") == "username" && Constraint(TestUser().fields[1]) == "UNIQUE NOT NULL"
    ensures Lower("Email") == "email" && Constraint(TestUser().fields[2]) == "NOT NULL UNIQUE"
    ensures Lower("Age") == "age" && Constraint(TestUser().fields[3]) == ""
    ensures Lower("IsActive") == "isactive" && Constraint(TestUser().fields[4]) == ""
  {
    TestUserTags();
    assert Lower("TestUser") == "testuser";
    assert Lower("ID") == "id";
    assert Lower("Username") == "username";
    assert Lower("Email") == "email";
    assert Lower("Age") == "age";
    assert Lower("IsActive") == "isactive";
  }

  lemma TestUserTags()
    ensures Upper("not null") == "NOT NULL"
    ensures Upper("unique not null") == "UNIQUE NOT NULL"
    ensures Upper("not null unique") == "NOT NULL UNIQUE"
  {
    assert Upper("not null") == "NOT NULL";
    assert Upper("unique not null") == "UNIQUE NOT NULL";
    assert Upper("not null unique") == "NOT NULL UNIQUE";
  }

  lemma TestUserColumns(d: Dialect, first: string)
    requires ColumnDefinition(d, TestUser().fields[0]) == first
    ensures ColumnDefinitions(d, TestUser().fields) == TestUserDefinitions(first)
  {
    var defs := ColumnDefinitions(d, TestUser().fields);
    TestUserUsername(d);
    TestUserEmail(d);
    TestUserAge(d);
    TestUserIsActive(d);
    FiveElements(defs, first, "username TEXT UNIQUE NOT NULL", "email TEXT NOT NULL UNIQUE", "age INTEGER ", "isactive BOOLEAN ");
  }

  lemma FiveElements<T>(s: seq<T>, a: T, b: T, c: T, e: T, f: T)
    requires |s| == 5 && s[0] == a && s[1] == b && s[2] == c && s[3] == e && s[4] == f
    ensures s == [a, b, c, e, f]
  {
  }
}
