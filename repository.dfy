/** pkg/model/model.go: ORMRepository's Save, FindByID, Update and Delete over
    an orm.Datastore. Each operation calls GetPlaceholder on the adapter
    without a nil check, so each requires the adapter to be there whenever the
    code gets as far as that call. */
module Repository {
  import opened Text
  import opened Meta
  import opened Adapter
  import opened Queries

  /** ORMRepository with its possibly nil datastore. */
  datatype OrmRepository = OrmRepository(ds: Option<Datastore>)

  const DatastoreMissingMessage: string := "datastore is nil"
  const NotPointerMessage: string := "model must be a non-nil pointer to a struct"
  const NoFieldsMessage: string := "model has no fields to query"
  const KeyContext: string := "model must have a primary key field with 'pk' tag: "
  const QueryRowContext: string := "failed to query row: "
  const ScanContext: string := "failed to scan row into model: "
  const NothingToUpdateMessage: string := "no fields to update"

  /** The adapter, once the code has reached a GetPlaceholder call. */
  function DialectOf(repo: OrmRepository): Dialect
    requires repo.ds.Some? && repo.ds.value.adapter.Some?
  {
    repo.ds.value.adapter.value
  }

  // ----- Update -----

  /** The positions of the columns Update sets: all but the key column. */
  function UpdateIndices(rec: Record): (k: seq<nat>)
    requires PrimaryKeyColumn(rec).Some?
    ensures forall j :: 0 <= j < |k| ==> k[j] < |rec.fields| && Columns(rec)[k[j]] != PrimaryKeyColumn(rec).value
  {
    Kept(Columns(rec), PrimaryKeyColumn(rec).value)
  }

  /** "col = placeholder" for the columns at `idx`, numbered from 1. */
  function SetClauses(d: Dialect, cols: seq<string>, idx: seq<nat>): (cs: seq<string>)
    requires forall j :: 0 <= j < |idx| ==> idx[j] < |cols|
    ensures |cs| == |idx|
    ensures forall j :: 0 <= j < |idx| ==> cs[j] == cols[idx[j]] + " = " + Placeholder(d, j + 1)
  {
    seq(|idx|, j requires 0 <= j < |idx| => cols[idx[j]] + " = " + Placeholder(d, j + 1))
  }

  /** UPDATE t SET c1 = p1, ..., ck = pk WHERE key = p(k+1), with the k
      values and then the key's value as arguments. */
  function UpdateStatement(d: Dialect, rec: Record): Statement
    requires PrimaryKeyColumn(rec).Some?
  {
    var k := UpdateIndices(rec);
    Statement(
      "UPDATE " + TableName(rec) + " SET " + Join(SetClauses(d, Columns(rec), k), ", ")
        + " WHERE " + PrimaryKeyColumn(rec).value + " = " + Placeholder(d, |k| + 1),
      Pick(Values(rec), k) + [PrimaryKeyValue(rec).value])
  }

  /** Update reaches GetPlaceholder: there is a datastore, a key, and a column to set. */
  predicate UpdateReachesAdapter(repo: OrmRepository, rec: Record)
  {
    repo.ds.Some? && PrimaryKeyColumn(rec).Some? && |UpdateIndices(rec)| > 0
  }

  /** What Update returns. */
  function UpdateResult(repo: OrmRepository, rec: Record): (r: Result<SqlResult>)
    requires UpdateReachesAdapter(repo, rec) ==> repo.ds.value.adapter.Some?
    ensures repo.ds.None? ==> r == Err(Message(DatastoreMissingMessage))
    ensures repo.ds.Some? && PrimaryKeyColumn(rec).None? ==> r == Err(Wrapped(KeyContext, NoPrimaryKey))
    ensures repo.ds.Some? && PrimaryKeyColumn(rec).Some? && |UpdateIndices(rec)| == 0 ==> r == Err(Message(NothingToUpdateMessage))
    ensures UpdateReachesAdapter(repo, rec) ==>
      r == Exec(repo.ds, UpdateStatement(DialectOf(repo), rec).sql, UpdateStatement(DialectOf(repo), rec).args)
  {
    if repo.ds.None? then Err(Message(DatastoreMissingMessage))
    else if PrimaryKeyColumn(rec).None? then Err(Wrapped(KeyContext, NoPrimaryKey))
    else if |UpdateIndices(rec)| == 0 then Err(Message(NothingToUpdateMessage))
    else
      var st := UpdateStatement(DialectOf(repo), rec);
      Exec(repo.ds, st.sql, st.args)
  }

  /** Update: the guard, the key, then the loop that builds the SET clauses
      with a running placeholder index, and the key's value appended last. */
  method Update(repo: OrmRepository, rec: Record) returns (r: Result<SqlResult>)
    requires UpdateReachesAdapter(repo, rec) ==> repo.ds.value.adapter.Some?
    ensures r == UpdateResult(repo, rec)
  {
    if repo.ds.None? {
      return Err(Message(DatastoreMissingMessage));
    }
    var tableName := TableName(rec);
    var columns := Columns(rec);
    var values := Values(rec);
    var key := PrimaryKeyColumn(rec);
    if key.None? {
      return Err(Wrapped(KeyContext, NoPrimaryKey));
    }
    var pkCol := key.value;
    var pkValue := PrimaryKeyValue(rec).value;
    var setClauses, updateValues, placeholderIndex := BuildSetClauses(repo.ds.value.adapter, columns, values, pkCol);
    if |setClauses| == 0 {
      return Err(Message(NothingToUpdateMessage));
    }
    updateValues := updateValues + [pkValue];
    var query := "UPDATE " + tableName + " SET " + Join(setClauses, ", ") + " WHERE " + pkCol + " = "
      + Placeholder(repo.ds.value.adapter.value, placeholderIndex);
    r := Exec(repo.ds, query, updateValues);
  }

  /** Update's loop. The adapter is consulted only for a column it keeps. */
  method BuildSetClauses(adapter: Option<Dialect>, columns: seq<string>, values: seq<Value>, pkCol: string)
    returns (setClauses: seq<string>, updateValues: seq<Value>, placeholderIndex: int)
    requires |values| == |columns|
    requires |Kept(columns, pkCol)| > 0 ==> adapter.Some?
    ensures placeholderIndex == |Kept(columns, pkCol)| + 1
    ensures |Kept(columns, pkCol)| == 0 ==> setClauses == []
    ensures |Kept(columns, pkCol)| > 0 ==> setClauses == SetClauses(adapter.value, columns, Kept(columns, pkCol))
    ensures updateValues == Pick(values, Kept(columns, pkCol))
  {
    setClauses := [];
    updateValues := [];
    placeholderIndex := 1;
    var i := 0;
    ghost var kept: seq<nat> := [];
    while i < |columns|
      invariant 0 <= i <= |columns|
      invariant kept == Kept(columns[..i], pkCol)
      invariant placeholderIndex == |kept| + 1
      invariant |kept| == 0 ==> setClauses == []
      invariant |kept| > 0 ==> adapter.Some? && setClauses == SetClauses(adapter.value, columns, kept)
      invariant updateValues == Pick(values, kept)
    {
      KeptStep(columns, pkCol, i);
      if columns[i] != pkCol {
        KeptGrows(columns, pkCol, i + 1);
        SetClausesAppend(adapter.value, columns, kept, i);
        PickAppend(values, kept, i);
        setClauses := setClauses + [columns[i] + " = " + Placeholder(adapter.value, placeholderIndex)];
        updateValues := updateValues + [values[i]];
        placeholderIndex := placeholderIndex + 1;
        kept := kept + [i];
      }
      i := i + 1;
    }
    assert columns[..i] == columns;
  }

  lemma SetClausesAppend(d: Dialect, cols: seq<string>, idx: seq<nat>, i: nat)
    requires i < |cols| && forall j :: 0 <= j < |idx| ==> idx[j] < |cols|
    ensures SetClauses(d, cols, idx + [i]) == SetClauses(d, cols, idx) + [cols[i] + " = " + Placeholder(d, |idx| + 1)]
  {
  }

  /** Update sets every column but the key, numbering its placeholders
      1..k in order; the key's placeholder is number k + 1 and its value the
      last of the k + 1 arguments. */
  lemma UpdatePlaceholdersNumbered(d: Dialect, rec: Record)
    requires PrimaryKeyColumn(rec).Some?
    ensures var st := UpdateStatement(d, rec);
      var k := UpdateIndices(rec);
      |st.args| == |k| + 1 &&
      st.args[|k|] == PrimaryKeyValue(rec).value &&
      (forall j :: 0 <= j < |k| ==> st.args[j] == rec.fields[k[j]].value) &&
      st.sql == "UPDATE " + TableName(rec) + " SET " + Join(SetClauses(d, Columns(rec), k), ", ")
        + " WHERE " + PrimaryKeyColumn(rec).value + " = " + Placeholder(d, |st.args|)
  {
  }

  /** With distinct column names every column but the key is set, so the
      statement takes one argument per field. */
  lemma UpdateSetsAllButKey(d: Dialect, rec: Record)
    requires PrimaryKeyColumn(rec).Some?
    requires forall i, j :: 0 <= i < j < |rec.fields| ==> Columns(rec)[i] != Columns(rec)[j]
    ensures |UpdateIndices(rec)| == |rec.fields| - 1
    ensures |UpdateStatement(d, rec).args| == |rec.fields|
    ensures forall i :: 0 <= i < |rec.fields| && i != KeyIndex(rec).value ==> i in UpdateIndices(rec)
  {
    var p := KeyIndex(rec).value;
    KeptAllButOne(Columns(rec), PrimaryKeyColumn(rec).value, p);
    KeptComplete(Columns(rec), PrimaryKeyColumn(rec).value);
  }

  /** A model whose only field is its key has nothing to update. */
  lemma UpdateKeyOnly(repo: OrmRepository, rec: Record)
    requires repo.ds.Some?
    requires |rec.fields| == 1 && rec.fields[0].isPk
    ensures PrimaryKeyColumn(rec).Some? && |UpdateIndices(rec)| == 0
    ensures UpdateResult(repo, rec) == Err(Message(NothingToUpdateMessage))
  {
    assert KeyIndex(rec) == Some(0);
    var cols := Columns(rec);
    assert cols[..|cols| - 1] == [];
    assert Kept(cols, cols[0]) == Kept([], cols[0]);
  }

  /** On Postgres the placeholder of the WHERE clause, `$(k+1)` for k SET
      clauses (UpdatePlaceholdersNumbered), names the last argument, and
      differs from the placeholder `$(j+1)` of every SET clause j. */
  lemma PostgresUpdateKeyPlaceholderFresh(rec: Record)
    requires PrimaryKeyColumn(rec).Some?
    ensures var st := UpdateStatement(Postgres, rec);
      PlaceholderIndex(Placeholder(Postgres, |st.args|)) == Some(|st.args|)
    ensures var st := UpdateStatement(Postgres, rec);
      var cs := SetClauses(Postgres, Columns(rec), UpdateIndices(rec));
      |cs| == |st.args| - 1 &&
      forall j :: 0 <= j < |cs| ==>
        (cs[j] == Columns(rec)[UpdateIndices(rec)[j]] + " = " + Placeholder(Postgres, j + 1) &&
         Placeholder(Postgres, j + 1) != Placeholder(Postgres, |st.args|))
  {
    UpdatePlaceholdersNumbered(Postgres, rec);
    var st := UpdateStatement(Postgres, rec);
    var m := |st.args|;
    PostgresPlaceholderRoundTrip(m);
    var k := UpdateIndices(rec);
    var cs := SetClauses(Postgres, Columns(rec), k);
    assert |cs| == |k| == m - 1;
    KeyPlaceholderFresh(cs, Columns(rec), k, m);
  }

  lemma KeyPlaceholderFresh(cs: seq<string>, cols: seq<string>, k: seq<nat>, m: int)
    requires |cs| == |k| == m - 1
    requires forall j :: 0 <= j < |k| ==> k[j] < |cols| && cs[j] == cols[k[j]] + " = " + Placeholder(Postgres, j + 1)
    ensures forall j :: 0 <= j < |cs| ==>
      (cs[j] == cols[k[j]] + " = " + Placeholder(Postgres, j + 1) && Placeholder(Postgres, j + 1) != Placeholder(Postgres, m))
  {
    forall j | 0 <= j < |cs|
      ensures cs[j] == cols[k[j]] + " = " + Placeholder(Postgres, j + 1)
      ensures Placeholder(Postgres, j + 1) != Placeholder(Postgres, m)
    {
      PostgresPlaceholdersDistinct(j + 1, m);
    }
  }

  /** The SQLite UPDATE holds one "?" per argument, for names without "?". */
  lemma SQLiteUpdateMarksMatchArguments(rec: Record)
    requires PrimaryKeyColumn(rec).Some?
    requires NoMark(rec.typeName)
    requires forall i :: 0 <= i < |rec.fields| ==> NoMark(rec.fields[i].name)
    ensures Count(UpdateStatement(SQLite, rec).sql, '?') == |UpdateStatement(SQLite, rec).args|
  {
    var k := UpdateIndices(rec);
    var cs := SetClauses(SQLite, Columns(rec), k);
    forall j | 0 <= j < |cs|
      ensures Count(cs[j], '?') == 1
    {
      LowerKeepsNoMark(rec.fields[k[j]].name);
      ClauseMarks(Columns(rec)[k[j]]);
    }
    CommaUnmarked();
    CountJoin(cs, ", ", '?', 1);
    LowerKeepsNoMark(rec.typeName);
    var p := KeyIndex(rec).value;
    LowerKeepsNoMark(rec.fields[p].name);
    CountUpdateShape(TableName(rec), Join(cs, ", "), PrimaryKeyColumn(rec).value);
  }

  lemma ClauseMarks(col: string)
    requires Count(col, '?') == 0
    ensures Count(col + " = " + "?", '?') == 1
  {
    EqualsUnmarked();
    CountConcat(col, " = ", '?');
    CountConcat(col + " = ", "?", '?');
  }

  lemma CountUpdateShape(t: string, cs: string, key: string)
    requires Count(t, '?') == 0 && Count(key, '?') == 0
    ensures Count("UPDATE " + t + " SET " + cs + " WHERE " + key + " = " + "?", '?') == Count(cs, '?') + 1
  {
    UpdateKeywordUnmarked();
    SetKeywordUnmarked();
    WhereKeywordUnmarked();
    EqualsUnmarked();
    CountConcat("UPDATE ", t, '?');
    CountConcat("UPDATE " + t, " SET ", '?');
    CountConcat("UPDATE " + t + " SET ", cs, '?');
    CountConcat("UPDATE " + t + " SET " + cs, " WHERE ", '?');
    CountConcat("UPDATE " + t + " SET " + cs + " WHERE ", key, '?');
    CountConcat("UPDATE " + t + " SET " + cs + " WHERE " + key, " = ", '?');
    CountConcat("UPDATE " + t + " SET " + cs + " WHERE " + key + " = ", "?", '?');
  }

  lemma UpdateKeywordUnmarked() ensures Count("UPDATE ", '?') == 0 { CountAbsent("UPDATE ", '?'); }
  lemma SetKeywordUnmarked() ensures Count(" SET ", '?') == 0 { CountAbsent(" SET ", '?'); }
  lemma WhereKeywordUnmarked() ensures Count(" WHERE ", '?') == 0 { CountAbsent(" WHERE ", '?'); }
  lemma EqualsUnmarked() ensures Count(" = ", '?') == 0 { CountAbsent(" = ", '?'); }
  lemma CommaUnmarked() ensures Count(", ", '?') == 0 { CountAbsent(", ", '?'); }

  // ----- Save -----

  /** Save's choice: insert when the model has no key, or when the key is of
      kind int or int64 and holds zero; update in every other case. */
  predicate SaveInserts(rec: Record)
  {
    match KeyIndex(rec)
    case None => true
    case Some(k) => rec.fields[k].goType in {"int", "int64"} && rec.fields[k].value == IntV(0)
  }

  /** What Save returns: Insert's or Update's result. */
  function Save(repo: OrmRepository, rec: Record): (r: Result<SqlResult>)
    requires !SaveInserts(rec) && UpdateReachesAdapter(repo, rec) ==> repo.ds.value.adapter.Some?
    ensures repo.ds.None? ==> r == Err(Message(DatastoreMissingMessage))
    ensures repo.ds.Some? && SaveInserts(rec) ==> r == InsertResult(repo.ds, rec)
    ensures repo.ds.Some? && !SaveInserts(rec) ==> r == UpdateResult(repo, rec)
  {
    if repo.ds.None? then Err(Message(DatastoreMissingMessage))
    else if PrimaryKeyValue(rec).None? then InsertResult(repo.ds, rec)
    else if rec.fields[KeyIndex(rec).value].goType in {"int", "int64"} && PrimaryKeyValue(rec).value == IntV(0) then InsertResult(repo.ds, rec)
    else UpdateResult(repo, rec)
  }

  /** Save inserts exactly when the key is missing or an int/int64 zero: a
      set key updates, and so does a zero key of any other kind (an int32 or a
      string key), which then reaches Update's WHERE with that zero. */
  lemma SaveChoosesUpdate(repo: OrmRepository, rec: Record)
    requires repo.ds.Some?
    requires PrimaryKeyColumn(rec).Some?
    requires var f := rec.fields[KeyIndex(rec).value]; f.goType !in {"int", "int64"} || f.value != IntV(0)
    requires UpdateReachesAdapter(repo, rec) ==> repo.ds.value.adapter.Some?
    ensures Save(repo, rec) == UpdateResult(repo, rec)
  {
  }

  /** A model without a key always goes to Insert, which inserts every column. */
  lemma SaveWithoutKeyInserts(repo: OrmRepository, rec: Record)
    requires PrimaryKeyColumn(rec).None?
    requires forall i :: 0 <= i < |rec.fields| ==> rec.fields[i].name != ""
    ensures repo.ds.Some? ==> Save(repo, rec) == InsertResult(repo.ds, rec)
    ensures InsertColumns(rec) == Columns(rec)
  {
    InsertWithoutKey(rec);
  }

  // ----- Delete -----

  /** DELETE FROM t WHERE key = p(1), with the key's value as the only argument. */
  function DeleteStatement(d: Dialect, rec: Record): Statement
    requires PrimaryKeyColumn(rec).Some?
  {
    Statement("DELETE FROM " + TableName(rec) + " WHERE " + PrimaryKeyColumn(rec).value + " = " + Placeholder(d, 1),
      [PrimaryKeyValue(rec).value])
  }

  /** Delete: the guard, the key, then Exec. */
  function Delete(repo: OrmRepository, rec: Record): (r: Result<SqlResult>)
    requires repo.ds.Some? && PrimaryKeyColumn(rec).Some? ==> repo.ds.value.adapter.Some?
    ensures repo.ds.None? ==> r == Err(Message(DatastoreMissingMessage))
    ensures repo.ds.Some? && PrimaryKeyColumn(rec).None? ==> r == Err(Wrapped(KeyContext, NoPrimaryKey))
    ensures repo.ds.Some? && PrimaryKeyColumn(rec).Some? ==>
      r == Exec(repo.ds, DeleteStatement(DialectOf(repo), rec).sql, [rec.fields[KeyIndex(rec).value].value])
    ensures r.Ok? ==> repo.ds.Some? && PrimaryKeyColumn(rec).Some?
  {
    if repo.ds.None? then Err(Message(DatastoreMissingMessage))
    else if PrimaryKeyColumn(rec).None? then Err(Wrapped(KeyContext, NoPrimaryKey))
    else
      var st := DeleteStatement(DialectOf(repo), rec);
      Exec(repo.ds, st.sql, st.args)
  }

  /** The SQLite DELETE binds exactly one "?", for its one argument, the
      key's value; for names without "?". */
  lemma SQLiteDeleteMarksMatchArguments(rec: Record)
    requires PrimaryKeyColumn(rec).Some?
    requires NoMark(rec.typeName)
    requires forall i :: 0 <= i < |rec.fields| ==> NoMark(rec.fields[i].name)
    ensures Count(DeleteStatement(SQLite, rec).sql, '?') == |DeleteStatement(SQLite, rec).args| == 1
    ensures DeleteStatement(SQLite, rec).args == [PrimaryKeyValue(rec).value]
  {
    LowerKeepsNoMark(rec.typeName);
    LowerKeepsNoMark(rec.fields[KeyIndex(rec).value].name);
    CountDeleteShape(TableName(rec), PrimaryKeyColumn(rec).value);
  }

  lemma CountDeleteShape(t: string, key: string)
    requires Count(t, '?') == 0 && Count(key, '?') == 0
    ensures Count("DELETE FROM " + t + " WHERE " + key + " = " + "?", '?') == 1
  {
    DeleteKeywordUnmarked();
    WhereKeywordUnmarked();
    EqualsUnmarked();
    CountConcat("DELETE FROM ", t, '?');
    CountConcat("DELETE FROM " + t, " WHERE ", '?');
    CountConcat("DELETE FROM " + t + " WHERE ", key, '?');
    CountConcat("DELETE FROM " + t + " WHERE " + key, " = ", '?');
    CountConcat("DELETE FROM " + t + " WHERE " + key + " = ", "?", '?');
  }

  lemma DeleteKeywordUnmarked() ensures Count("DELETE FROM ", '?') == 0 { CountAbsent("DELETE FROM ", '?'); }

  // ----- FindByID -----

  /** What FindByID leaves behind: its error, if any, and the model argument,
      whose pointed-to struct Scan may have written. */
  datatype Found = Found(err: Option<Error>, model: ModelArg)

  predicate IsStructPointer(m: ModelArg)
  {
    m.Ptr? && m.shape.Struct?
  }

  /** SELECT c1, ..., cn FROM t WHERE key = p(1), with the id as the only argument. */
  function SelectStatement(d: Dialect, rec: Record, id: int): Statement
    requires PrimaryKeyColumn(rec).Some?
  {
    Statement("SELECT " + Join(Columns(rec), ", ") + " FROM " + TableName(rec) + " WHERE " + PrimaryKeyColumn(rec).value
      + " = " + Placeholder(d, 1), [IntV(id)])
  }

  /** The first field at or after `from` that Scan could not set through the
      pointer (an unexported one). */
  function FirstUnsettable(fields: seq<Field>, from: nat): (r: Option<nat>)
    requires from <= |fields|
    ensures r.Some? ==> from <= r.value < |fields| && !IsExported(fields[r.value].name)
    ensures r.Some? ==> forall j :: from <= j < r.value ==> IsExported(fields[j].name)
    ensures r.None? <==> forall j :: from <= j < |fields| ==> IsExported(fields[j].name)
    decreases |fields| - from
  {
    if from == |fields| then None
    else if !IsExported(fields[from].name) then Some(from)
    else FirstUnsettable(fields, from + 1)
  }

  /** FindByID reaches GetPlaceholder: datastore, pointer, fields and key all there. */
  predicate FindReachesAdapter(repo: OrmRepository, m: ModelArg)
  {
    repo.ds.Some? && IsStructPointer(m) && |m.shape.rec.fields| > 0 && PrimaryKeyColumn(m.shape.rec).Some?
  }

  function NotSettableMessage(name: string): string
  {
    "field " + name + " is not settable"
  }

  /** What FindByID returns and leaves in the model. */
  function FindByIDResult(repo: OrmRepository, m: ModelArg, id: int): (f: Found)
    requires FindReachesAdapter(repo, m) ==> repo.ds.value.adapter.Some?
    ensures repo.ds.None? ==> f == Found(Some(Message(DatastoreMissingMessage)), m)
    ensures repo.ds.Some? && !IsStructPointer(m) ==> f == Found(Some(Message(NotPointerMessage)), m)
    ensures repo.ds.Some? && IsStructPointer(m) && |m.shape.rec.fields| == 0 ==> f == Found(Some(Message(NoFieldsMessage)), m)
    ensures repo.ds.Some? && IsStructPointer(m) && |m.shape.rec.fields| > 0 && PrimaryKeyColumn(m.shape.rec).None? ==>
      f == Found(Some(Wrapped(KeyContext, NoPrimaryKey)), m)
    ensures FindReachesAdapter(repo, m) ==>
      var st := SelectStatement(DialectOf(repo), m.shape.rec, id);
      var q := QueryRow(repo.ds, st.sql, st.args);
      q.Err? ==> f == Found(Some(Wrapped(QueryRowContext, q.error)), m)
    ensures FindReachesAdapter(repo, m) ==>
      var st := SelectStatement(DialectOf(repo), m.shape.rec, id);
      var u := FirstUnsettable(m.shape.rec.fields, 0);
      QueryRow(repo.ds, st.sql, st.args).Ok? && u.Some? ==>
        f == Found(Some(Message(NotSettableMessage(m.shape.rec.fields[u.value].name))), m)
    ensures FindReachesAdapter(repo, m) ==>
      var st := SelectStatement(DialectOf(repo), m.shape.rec, id);
      var q := QueryRow(repo.ds, st.sql, st.args);
      q.Ok? && FirstUnsettable(m.shape.rec.fields, 0).None? ==>
        var s := Scan(repo.ds.value.db.value, q.value, m.shape.rec);
        (s.err.None? ==> f == Found(None, Ptr(Struct(s.rec)))) &&
        (s.err == Some(NoRows) ==> f == Found(Some(NoRows), Ptr(Struct(s.rec)))) &&
        (s.err.Some? && s.err.value != NoRows ==> f == Found(Some(Wrapped(ScanContext, s.err.value)), Ptr(Struct(s.rec))))
    ensures f.err.Some? && f.err.value != NoRows && (f.err.value.Wrapped? ==> f.err.value.context != ScanContext) ==> f.model == m
  {
    if repo.ds.None? then Found(Some(Message(DatastoreMissingMessage)), m)
    else if !IsStructPointer(m) then Found(Some(Message(NotPointerMessage)), m)
    else
      var rec := m.shape.rec;
      if |rec.fields| == 0 then Found(Some(Message(NoFieldsMessage)), m)
      else if PrimaryKeyColumn(rec).None? then Found(Some(Wrapped(KeyContext, NoPrimaryKey)), m)
      else
        var st := SelectStatement(DialectOf(repo), rec, id);
        match QueryRow(repo.ds, st.sql, st.args)
        case Err(e) => Found(Some(Wrapped(QueryRowContext, e)), m)
        case Ok(row) =>
          match FirstUnsettable(rec.fields, 0)
          case Some(i) => Found(Some(Message(NotSettableMessage(rec.fields[i].name))), m)
          case None =>
            var s := Scan(repo.ds.value.db.value, row, rec);
            match s.err
            case None => Found(None, Ptr(Struct(s.rec)))
            case Some(e) => Found(Some(if e == NoRows then e else Wrapped(ScanContext, e)), Ptr(Struct(s.rec)))
  }

  /** FindByID: validation, the SELECT through QueryRow, the loop that makes
      field i the destination of column i, and the scan. */
  method FindByID(repo: OrmRepository, m: ModelArg, id: int) returns (f: Found)
    requires FindReachesAdapter(repo, m) ==> repo.ds.value.adapter.Some?
    ensures f == FindByIDResult(repo, m, id)
  {
    if repo.ds.None? {
      return Found(Some(Message(DatastoreMissingMessage)), m);
    }
    if !m.Ptr? || !m.shape.Struct? {
      return Found(Some(Message(NotPointerMessage)), m);
    }
    var rec := m.shape.rec;
    var tableName := TableName(rec);
    var columns := Columns(rec);
    if |columns| == 0 {
      return Found(Some(Message(NoFieldsMessage)), m);
    }
    var key := PrimaryKeyColumn(rec);
    if key.None? {
      return Found(Some(Wrapped(KeyContext, NoPrimaryKey)), m);
    }
    var pkCol := key.value;
    var query := "SELECT " + Join(columns, ", ") + " FROM " + tableName + " WHERE " + pkCol + " = "
      + Placeholder(repo.ds.value.adapter.value, 1);
    var row := QueryRow(repo.ds, query, [IntV(id)]);
    if row.Err? {
      return Found(Some(Wrapped(QueryRowContext, row.error)), m);
    }
    var dest, unsettable := Destinations(rec);
    if unsettable.Some? {
      return Found(Some(Message(NotSettableMessage(rec.fields[unsettable.value].name))), m);
    }
    var scanned := Scan(repo.ds.value.db.value, row.value, rec);
    if scanned.err.Some? {
      if scanned.err.value == NoRows {
        return Found(Some(NoRows), Ptr(Struct(scanned.rec)));
      }
      return Found(Some(Wrapped(ScanContext, scanned.err.value)), Ptr(Struct(scanned.rec)));
    }
    return Found(None, Ptr(Struct(scanned.rec)));
  }

  /** FindByID's destination loop: the i-th destination is field i, unless
      a field cannot be set, and then the first such field is reported. */
  method Destinations(rec: Record) returns (dest: seq<nat>, unsettable: Option<nat>)
    ensures unsettable == FirstUnsettable(rec.fields, 0)
    ensures unsettable.None? ==> |dest| == |rec.fields| && forall k :: 0 <= k < |dest| ==> dest[k] == k
  {
    dest := [];
    var i := 0;
    while i < |rec.fields|
      invariant 0 <= i <= |rec.fields|
      invariant |dest| == i && forall k :: 0 <= k < i ==> dest[k] == k
      invariant forall k :: 0 <= k < i ==> IsExported(rec.fields[k].name)
    {
      var field := rec.fields[i];
      if !IsExported(field.name) {
        return dest, Some(i);
      }
      dest := dest + [i];
      i := i + 1;
    }
    return dest, None;
  }

  /** A struct whose fields are all exported passes the settability check,
      and every field is a destination. */
  lemma ExportedFieldsSettable(rec: Record)
    requires forall i :: 0 <= i < |rec.fields| ==> IsExported(rec.fields[i].name)
    ensures FirstUnsettable(rec.fields, 0).None?
  {
  }

  /** When the SELECT finds no row, FindByID reports sql.ErrNoRows itself,
      unwrapped, and leaves the model as it was. */
  lemma FindByIDNoRows(repo: OrmRepository, rec: Record, id: int)
    requires Ready(repo.ds) && |rec.fields| > 0 && PrimaryKeyColumn(rec).Some?
    requires forall i :: 0 <= i < |rec.fields| ==> IsExported(rec.fields[i].name)
    requires var db := repo.ds.value.db.value; var st := SelectStatement(DialectOf(repo), rec, id);
      db.prepare(st.sql).None? && db.queryRow(st) == Err(NoRows)
    ensures FindByIDResult(repo, Ptr(Struct(rec)), id) == Found(Some(NoRows), Ptr(Struct(rec)))
    ensures IsNoRows(FindByIDResult(repo, Ptr(Struct(rec)), id).err.value)
  {
  }

  /** On success the model's fields hold the row's columns, converted, in
      order; nothing else about the struct changes. */
  lemma FindByIDFills(repo: OrmRepository, rec: Record, id: int)
    requires FindReachesAdapter(repo, Ptr(Struct(rec))) ==> repo.ds.value.adapter.Some?
    requires FindByIDResult(repo, Ptr(Struct(rec)), id).err.None?
    ensures var f := FindByIDResult(repo, Ptr(Struct(rec)), id);
      var st := SelectStatement(DialectOf(repo), rec, id);
      var row := repo.ds.value.db.value.queryRow(st);
      f.model.Ptr? && f.model.shape.Struct? &&
      f.model.shape.rec.typeName == rec.typeName && |f.model.shape.rec.fields| == |rec.fields| &&
      row.Ok? && |row.value| == |rec.fields| &&
      forall i :: 0 <= i < |rec.fields| ==>
        f.model.shape.rec.fields[i] == rec.fields[i].(value := f.model.shape.rec.fields[i].value) &&
        repo.ds.value.db.value.convert(rec.fields[i].goType, row.value[i]) == Some(f.model.shape.rec.fields[i].value)
  {
  }

  /** The converse of FindByIDFills: when the row is there and every column
      converts, FindByID succeeds. */
  lemma FindByIDSucceeds(repo: OrmRepository, rec: Record, id: int)
    requires Ready(repo.ds) && |rec.fields| > 0 && PrimaryKeyColumn(rec).Some?
    requires forall i :: 0 <= i < |rec.fields| ==> IsExported(rec.fields[i].name)
    requires var db := repo.ds.value.db.value; var st := SelectStatement(DialectOf(repo), rec, id);
      db.prepare(st.sql).None? && db.queryRow(st).Ok? && |db.queryRow(st).value| == |rec.fields| &&
      forall j :: 0 <= j < |rec.fields| ==> db.convert(rec.fields[j].goType, db.queryRow(st).value[j]).Some?
    ensures FindByIDResult(repo, Ptr(Struct(rec)), id).err.None?
  {
  }

  /** The SELECT names every column in order and binds the id once. */
  lemma SelectShape(d: Dialect, rec: Record, id: int)
    requires PrimaryKeyColumn(rec).Some?
    ensures SelectStatement(d, rec, id).args == [IntV(id)]
    ensures d == SQLite ==> (SelectStatement(d, rec, id).sql ==
      "SELECT " + Join(Columns(rec), ", ") + " FROM " + TableName(rec) + " WHERE " + PrimaryKeyColumn(rec).value + " = " + "?")
    ensures d == Postgres ==> (SelectStatement(d, rec, id).sql ==
      "SELECT " + Join(Columns(rec), ", ") + " FROM " + TableName(rec) + " WHERE " + PrimaryKeyColumn(rec).value + " = " + "$1")
  {
    PlaceholderExamples();
  }
}
