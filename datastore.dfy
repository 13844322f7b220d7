/** The application-level data store over users: ORMDataStore, which goes
    through a Repository and translates its errors, and the APIDataStore
    stand-in, whose answers are fixed. */
module DataStore {
  import opened Text
  import opened Meta
  import opened Queries
  import opened Adapter
  import opened Repository

  /** model.User: ID int `liteforge:"pk"`, Name string, Age int. */
  datatype User = User(id: int, name: string, age: int)

  /** The zero User{} that GetUserByID hands to FindByID. */
  const EmptyUser: User := User(0, "", 0)

  /** The (*User, error) pair GetUserByID returns. */
  datatype Lookup = Lookup(user: Option<User>, err: Option<Error>)

  /** The Repository as the data store uses it, with the User pointer made
      explicit: FindByID returns its error and the User it leaves behind;
      Save and Delete return only their error (the data store drops the
      sql.Result). Any implementation fits, the ORM's or a test double. */
  datatype UserRepository = UserRepository(
    findByID: (User, int) -> (Option<Error>, User),
    save: User -> Option<Error>,
    delete: User -> Option<Error>)

  /** ORMDataStore with its possibly nil Repo. */
  datatype OrmDataStore = OrmDataStore(repo: Option<UserRepository>)

  const RepositoryNilMessage: string := "repository is nil"
  const SaveContext: string := "failed to save user: "

  function FindContext(id: int): string
  {
    "failed to find user by ID " + IntToDecimal(id) + ": "
  }

  function DeleteContext(id: int): string
  {
    "failed to delete user with ID " + IntToDecimal(id) + ": "
  }

  /** errors.Is(err, target): the error is the target or wraps it, at any depth. */
  predicate Is(e: Error, target: Error)
  {
    e == target || (e.Wrapped? && Is(e.cause, target))
  }

  /** IsNoRows is errors.Is with sql.ErrNoRows as the target. */
  lemma {:induction false} IsNoRowsIsIs(e: Error)
    ensures IsNoRows(e) <==> Is(e, NoRows)
  {
    if e.Wrapped? {
      IsNoRowsIsIs(e.cause);
    }
  }

  // ----- ORMDataStore -----

  /** GetUserByID: a nil repository is an error; "not found" (an error that
      is or wraps sql.ErrNoRows) is no user and no error; any other error is
      wrapped with the id; otherwise the user FindByID filled. */
  function GetUserByID(s: OrmDataStore, id: int): (r: Lookup)
    ensures r.user.None? || r.err.None?
    ensures s.repo.None? ==> r == Lookup(None, Some(Message(RepositoryNilMessage)))
    ensures s.repo.Some? ==> var (e, u) := s.repo.value.findByID(EmptyUser, id);
      (r.user.Some? <==> e.None?) && (r.user.Some? ==> r.user.value == u) &&
      (r.err.None? <==> (e.None? || IsNoRows(e.value))) &&
      (r.err.Some? ==> r.err.value == Wrapped(FindContext(id), e.value))
  {
    match s.repo
    case None => Lookup(None, Some(Message(RepositoryNilMessage)))
    case Some(repo) =>
      var (e, u) := repo.findByID(EmptyUser, id);
      match e
      case None => Lookup(Some(u), None)
      case Some(err) =>
        if IsNoRows(err) then Lookup(None, None)
        else Lookup(None, Some(Wrapped(FindContext(id), err)))
  }

  /** SaveUser: the nil check, then Save, whose error comes back wrapped. */
  function SaveUser(s: OrmDataStore, u: User): (r: Option<Error>)
    ensures s.repo.None? ==> r == Some(Message(RepositoryNilMessage))
    ensures s.repo.Some? ==> (r.None? <==> s.repo.value.save(u).None?)
    ensures s.repo.Some? && r.Some? ==> r.value == Wrapped(SaveContext, s.repo.value.save(u).value)
  {
    match s.repo
    case None => Some(Message(RepositoryNilMessage))
    case Some(repo) =>
      match repo.save(u)
      case None => None
      case Some(e) => Some(Wrapped(SaveContext, e))
  }

  /** The User{ID: id} that DeleteUser hands to Delete. */
  function KeyOnlyUser(id: int): (u: User)
    ensures u.id == id && u.name == "" && u.age == 0
  {
    User(id, "", 0)
  }

  /** DeleteUser: the nil check, then Delete on a User holding only the id;
      its error comes back wrapped with the id. */
  function DeleteUser(s: OrmDataStore, id: int): (r: Option<Error>)
    ensures s.repo.None? ==> r == Some(Message(RepositoryNilMessage))
    ensures s.repo.Some? ==> (r.None? <==> s.repo.value.delete(KeyOnlyUser(id)).None?)
    ensures s.repo.Some? && r.Some? ==> r.value == Wrapped(DeleteContext(id), s.repo.value.delete(KeyOnlyUser(id)).value)
  {
    match s.repo
    case None => Some(Message(RepositoryNilMessage))
    case Some(repo) =>
      match repo.delete(KeyOnlyUser(id))
      case None => None
      case Some(e) => Some(Wrapped(DeleteContext(id), e))
  }

  /** Every error the data store passes on from the repository still
      matches the repository's error under errors.Is, and is "not found"
      exactly when that one is. */
  lemma {:induction false} ErrorsKeepCause(s: OrmDataStore, id: int, u: User)
    requires s.repo.Some?
    ensures var e := s.repo.value.findByID(EmptyUser, id).0;
      GetUserByID(s, id).err.Some? ==> e.Some? && Is(GetUserByID(s, id).err.value, e.value) && !IsNoRows(GetUserByID(s, id).err.value)
    ensures SaveUser(s, u).Some? ==> (Is(SaveUser(s, u).value, s.repo.value.save(u).value) &&
      (IsNoRows(SaveUser(s, u).value) <==> IsNoRows(s.repo.value.save(u).value)))
    ensures DeleteUser(s, id).Some? ==> (Is(DeleteUser(s, id).value, s.repo.value.delete(KeyOnlyUser(id)).value) &&
      (IsNoRows(DeleteUser(s, id).value) <==> IsNoRows(s.repo.value.delete(KeyOnlyUser(id)).value)))
  {
    var g := GetUserByID(s, id);
    if g.err.Some? {
      var e := s.repo.value.findByID(EmptyUser, id).0.value;
      assert g.err.value == Wrapped(FindContext(id), e);
      assert Is(e, e);
    }
    var sv := SaveUser(s, u);
    if sv.Some? {
      assert Is(s.repo.value.save(u).value, s.repo.value.save(u).value);
    }
    var dl := DeleteUser(s, id);
    if dl.Some? {
      assert Is(s.repo.value.delete(KeyOnlyUser(id)).value, s.repo.value.delete(KeyOnlyUser(id)).value);
    }
  }

  /** Distinct ids give distinct error contexts, so a wrapped error names the
      id it was about. */
  lemma FindContextNamesId(id1: int, id2: int)
    requires FindContext(id1) == FindContext(id2)
    ensures id1 == id2
  {
    var a, b := IntToDecimal(id1), IntToDecimal(id2);
    var p := "failed to find user by ID ";
    assert FindContext(id1) == p + a + ": " && FindContext(id2) == p + b + ": ";
    assert a == FindContext(id1)[|p|..|p| + |a|];
    assert b == FindContext(id2)[|p|..|p| + |b|];
    IntToDecimalInjective(id1, id2);
  }

  lemma DeleteContextNamesId(id1: int, id2: int)
    requires DeleteContext(id1) == DeleteContext(id2)
    ensures id1 == id2
  {
    var a, b := IntToDecimal(id1), IntToDecimal(id2);
    var p := "failed to delete user with ID ";
    assert DeleteContext(id1) == p + a + ": " && DeleteContext(id2) == p + b + ": ";
    assert a == DeleteContext(id1)[|p|..|p| + |a|];
    assert b == DeleteContext(id2)[|p|..|p| + |b|];
    IntToDecimalInjective(id1, id2);
  }

  // ----- APIDataStore -----

  const ApiUser: User := User(1, "Mock API User", 30)
  const ApiNotFoundMessage: string := "API not implemented: user not found"
  const ApiSaveMessage: string := "API not implemented: cannot save user"
  const ApiDeleteMessage: string := "API not implemented: cannot delete user"

  /** APIDataStore.GetUserByID: user 1 exists, every other id is an error. */
  function ApiGetUserByID(id: int): (r: Lookup)
    ensures r.user.Some? <==> id == 1
    ensures r.user.Some? ==> r.user.value.id == id && r.err.None?
    ensures id == 1 ==> r == Lookup(Some(User(1, "Mock API User", 30)), None)
    ensures r.user.None? ==> r.err == Some(Message(ApiNotFoundMessage))
  {
    if id == 1 then Lookup(Some(ApiUser), None) else Lookup(None, Some(Message(ApiNotFoundMessage)))
  }

  /** APIDataStore.SaveUser: always refused, whatever the user. */
  function ApiSaveUser(u: User): (r: Option<Error>)
    ensures r == Some(Message("API not implemented: cannot save user"))
    ensures r.Some? && !IsNoRows(r.value)
  {
    Some(Message(ApiSaveMessage))
  }

  /** APIDataStore.DeleteUser: always refused, whatever the id. */
  function ApiDeleteUser(id: int): (r: Option<Error>)
    ensures r == Some(Message("API not implemented: cannot delete user"))
    ensures r.Some? && !IsNoRows(r.value)
  {
    Some(Message(ApiDeleteMessage))
  }

  /** The two stores differ on a missing user: the ORM store answers (nil,
      nil), the API store an error. */
  lemma StoresDifferOnMissingUser(s: OrmDataStore, id: int)
    requires s.repo.Some? && id != 1
    requires var e := s.repo.value.findByID(EmptyUser, id).0; e.Some? && IsNoRows(e.value)
    ensures GetUserByID(s, id) == Lookup(None, None)
    ensures ApiGetUserByID(id).err.Some?
  {
  }

  // ----- ORMDataStore over the ORM's own repository -----

  /** The User struct as the ORM sees it. */
  function UserRecord(u: User): (rec: Record)
    ensures |rec.fields| == 3 && rec.fields[0].isPk && !rec.fields[1].isPk && !rec.fields[2].isPk
    ensures Values(rec) == [IntV(u.id), StrV(u.name), IntV(u.age)]
  {
    Record("User", [
      Field("int", "ID", "", true, IntV(u.id)),
      Field("string", "Name", "", false, StrV(u.name)),
      Field("int", "Age", "", false, IntV(u.age))])
  }

  /** Reads a User back from its record, keeping `prior` when the values are
      not of User's field kinds. */
  function UserOf(rec: Record, prior: User): User
  {
    if |rec.fields| == 3 && rec.fields[0].value.IntV? && rec.fields[1].value.StrV? && rec.fields[2].value.IntV?
    then User(rec.fields[0].value.n, rec.fields[1].value.s, rec.fields[2].value.n)
    else prior
  }

  lemma UserRecordRoundTrip(u: User, prior: User)
    ensures UserOf(UserRecord(u), prior) == u
  {
    assert UserRecord(u).fields[0].value == IntV(u.id);
  }

  /** An ORMRepository whose datastore, when present, has its adapter: the
      repository methods then never dereference a nil adapter. */
  type AdapterRepository = r: OrmRepository | r.ds.Some? ==> r.ds.value.adapter.Some?
    witness OrmRepository(None)

  /** The error half of a (result, error) pair. */
  function ErrorOf<T>(r: Result<T>): Option<Error>
  {
    if r.Err? then Some(r.error) else None
  }

  /** The ORM's repository seen through the User-typed interface. */
  function OrmUsers(repo: AdapterRepository): UserRepository
  {
    UserRepository(
      (u: User, id: int) =>
        var f := FindByIDResult(repo, Ptr(Struct(UserRecord(u))), id);
        (f.err, if f.model.Ptr? && f.model.shape.Struct? then UserOf(f.model.shape.rec, u) else u),
      (u: User) => ErrorOf(Save(repo, UserRecord(u))),
      (u: User) => ErrorOf(Delete(repo, UserRecord(u))))
  }

  lemma UserTableName()
    ensures TableName(UserRecord(EmptyUser)) == "user"
  {
  }

  lemma UserKeyColumn(u: User)
    ensures PrimaryKeyColumn(UserRecord(u)) == Some("id")
  {
    assert KeyIndex(UserRecord(u)) == Some(0);
    assert Lower("ID") == "id";
  }

  lemma UserFieldsExported(u: User)
    ensures forall i :: 0 <= i < |UserRecord(u).fields| ==> IsExported(UserRecord(u).fields[i].name)
  {
  }

  /** End to end: when the SELECT finds no row, GetUserByID over the ORM
      answers "no user, no error". */
  lemma OrmGetUserNotFound(repo: AdapterRepository, id: int)
    requires Ready(repo.ds)
    requires var db := repo.ds.value.db.value; var st := SelectStatement(DialectOf(repo), UserRecord(EmptyUser), id);
      db.prepare(st.sql).None? && db.queryRow(st) == Err(NoRows)
    ensures GetUserByID(OrmDataStore(Some(OrmUsers(repo))), id) == Lookup(None, None)
  {
    UserKeyColumn(EmptyUser);
    UserFieldsExported(EmptyUser);
    FindByIDNoRows(repo, UserRecord(EmptyUser), id);
  }

  /** End to end: DeleteUser over the ORM runs DELETE FROM user WHERE id = p(1)
      with the id as its only argument. */
  lemma OrmDeleteUserStatement(repo: AdapterRepository, id: int)
    requires repo.ds.Some?
    ensures DeleteStatement(DialectOf(repo), UserRecord(KeyOnlyUser(id))) ==
      Statement("DELETE FROM " + "user" + " WHERE " + "id" + " = " + Placeholder(DialectOf(repo), 1), [IntV(id)])
    ensures OrmUsers(repo).delete(KeyOnlyUser(id)) ==
      ErrorOf(Exec(repo.ds, DeleteStatement(DialectOf(repo), UserRecord(KeyOnlyUser(id))).sql, [IntV(id)]))
  {
    UserKeyColumn(KeyOnlyUser(id));
    UserTableName();
    assert TableName(UserRecord(KeyOnlyUser(id))) == TableName(UserRecord(EmptyUser));
  }

  /** End to end: saving a user whose ID is zero inserts its name and age
      (the key column is left to the database); any other ID updates them. */
  lemma OrmSaveUserChoice(repo: AdapterRepository, u: User)
    requires repo.ds.Some?
    ensures u.id == 0 ==> OrmUsers(repo).save(u) == ErrorOf(InsertResult(repo.ds, UserRecord(u)))
    ensures u.id == 0 ==> InsertValues(UserRecord(u)) == [StrV(u.name), IntV(u.age)]
    ensures u.id != 0 ==> OrmUsers(repo).save(u) == ErrorOf(UpdateResult(repo, UserRecord(u)))
    ensures UpdateIndices(UserRecord(u)) == [1, 2]
  {
    UserKeyColumn(u);
    UserKept(u);
  }

  /** The key's column is the first of the three, so the other two are kept. */
  lemma UserKept(u: User)
    ensures Kept(Columns(UserRecord(u)), "id") == [1, 2]
  {
    UserColumns(u);
    UserColumnsKept();
  }

  lemma UserColumns(u: User)
    ensures Columns(UserRecord(u)) == ["id", "name", "age"]
  {
    UserColumnNames();
  }

  lemma UserColumnsKept()
    ensures Kept(["id", "name", "age"], "id") == [1, 2]
  {
    var cols := ["id", "name", "age"];
    assert cols[..2] == ["id", "name"];
    assert cols[..2][..1] == ["id"];
    assert ["id"][..0] == [];
  }

  lemma UserColumnNames()
    ensures Lower("ID") == "id" && Lower("Name") == "name" && Lower("Age") == "age"
  {
  }
}
