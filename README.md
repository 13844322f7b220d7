# liteforge core, modelled in Dafny

liteforge is a small Go ORM. The part modelled here covers:

- the two SQL dialect adapters, SQLite (`?` placeholders) and PostgreSQL (`$n` placeholders, `SERIAL` keys);
- the datastore-level `Query`, `QueryRow`, `Exec` and `Insert` helpers, including Postgres's `RETURNING` branch;
- the model-centric `ORMRepository` (`Save`, `FindByID`, `Update`, `Delete`);
- the application-level `ORMDataStore` and `APIDataStore`;
- the older SQLite-only helpers `getTableName`, `getFieldInfo`, `CreateTable`, `Create`, `Get`, `Update` and `Delete`.

Go reflection is replaced by explicit descriptors. A struct is a `Record`: its type name, then its fields in declaration order. Each field gives its Go type as `Type.String()` prints it, its name, its `db` tag, whether it is marked as the primary key, and its current value. The `model interface{}` argument is a `ModelArg`: nil, a value, a non-nil pointer, or a typed nil pointer.

The database behind a `*sql.DB` is an `Engine`: a set of total functions giving the outcome of each call the ORM makes:

- what `Prepare` rejects;
- what `Exec` reports;
- the row `QueryRow` finds;
- the rows `Query` returns;
- how `Scan` converts a column value into a destination of a given Go type.

A Go error is an `Error` value. `Wrapped(context, cause)` is `fmt.Errorf(context + "%w", cause)`, and `IsNoRows` is `errors.Is(err, sql.ErrNoRows)`.

Modules, in dependency order:

- `Text`: ASCII `strings.ToLower`/`ToUpper`, `strings.Join`, `strings.Contains`, `%d`, and character counts.
- `Meta`: the descriptors and errors, plus the extractors `GetTableName`, `GetFieldInfo`, `GetPrimaryKeyColumn` and `GetPrimaryKeyValue` as functions.
- `Adapter` (internal/orm/adapter.go): the dialects, `GetPlaceholder` and `CreateTableSQL`.
- `Queries` (internal/orm/query.go, plus the adapters' `Query`).
- `Repository` (pkg/model/model.go).
- `DataStore` (pkg/model/datastore.go).
- `Table` (internal/orm/table.go).
- `Crud` (internal/orm/crud.go).

Each loop of the source becomes a method, proved against a function that specifies it. Straight-line control flow is written as functions.

## Model

| member | source | states |
|---|---|---|
| Adapter.SqlType | internal/orm/adapter.go:97-217 | The column type is one of INTEGER, TEXT, BOOLEAN and the dialect's real type; `SqlTypeMapping` gives each case |
| Adapter.PostgresPlaceholderRoundTrip | internal/orm/adapter.go:237-239 | Postgres's GetPlaceholder (`Adapter.Placeholder`) is `$` followed by the index's digits: for every index i >= 0, parsing `$i` gives back `i` |
| Adapter.PostgresPlaceholdersDistinct | internal/orm/adapter.go:237-239 | Distinct indices give distinct Postgres placeholders |
| Adapter.SQLitePlaceholderConstant | internal/orm/adapter.go:124-126 | SQLite's GetPlaceholder (`Adapter.Placeholder`) is `?` whatever the index |
| Adapter.PlaceholderExamples | internal/orm/adapter.go:124-239 | Worked values: `?`, `$1`, `$2`, `$10` |
| Adapter.SqlTypeMapping | internal/orm/adapter.go:97-217 | Each type switch, case by case and in both directions: int, int64, int32, int16 and int8 give INTEGER; bool gives BOOLEAN; float32 and float64 give REAL on SQLite and DOUBLE PRECISION on Postgres; string and every other type give TEXT |
| Adapter.CreateTableSQL | internal/orm/adapter.go:61-121 | Nil is "no model passed in. model was nil"; a non-struct (after one dereference) is "model must be a struct or pointer to struct"; a struct or pointer to struct gives `CREATE TABLE IF NOT EXISTS t (defs)`, one definition per field in order |
| Adapter.DefineColumn | internal/orm/adapter.go:84-115 | One loop pass: `name type constraint`, with the lower-cased name, the dialect's type plus the primary-key part, and the upper-cased `db` tag as constraint |
| Adapter.PostgresTypeContainsInteger | internal/orm/adapter.go:219-226 | Among Postgres type names, exactly INTEGER contains "INTEGER", so the SERIAL branch fires only for integer Go types |
| Adapter.PostgresSerialKey | internal/orm/adapter.go:219-226 | A Postgres column is SERIAL PRIMARY KEY iff it is the key and of an integer type |
| Adapter.PrimaryKeyFragment | internal/orm/adapter.go:110-226 | What each dialect appends for the key column, and that other columns keep their plain type |
| Adapter.DialectsAgreeOnType | internal/orm/adapter.go:97-226 | The two column types agree iff the field is not floating point and not an integer key |
| Adapter.DialectsAgreeOnColumn | internal/orm/adapter.go:115-228 | The two definitions agree iff the field is not floating point and not an integer key |
| Adapter.DialectsAgreeOnTable | internal/orm/adapter.go:119-232 | Without such fields, both adapters produce the same CREATE TABLE statement |
| Adapter.UntaggedTrailingSpace | internal/orm/adapter.go:89-115 | An untagged column's definition ends in the space before the empty constraint |
| Adapter.TestUserSQLite | test/adapter_test.go:46 | The test's TestUser gets exactly the expected SQLite definitions and statement shape |
| Adapter.TestUserPostgres | test/adapter_test.go:52 | The same for Postgres, which differs only in the `SERIAL` key |
| Adapter.TestUserKeyColumn | test/lightforge_test.go:77 | The `ID` field with `db:"not null" pk:"true"` is `id INTEGER PRIMARY KEY NOT NULL` on SQLite and `id SERIAL PRIMARY KEY NOT NULL` on Postgres |
| Adapter.TestUserColumns | test/lightforge_test.go:76-82 | Given the key column, the five definitions are the expected ones, in field order |
| Queries.Query | internal/orm/query.go:10-15 | Nil datastore, connection or adapter is the nil error; success iff prepare and query both succeed, and then the rows are passed through; the adapter's Query wraps a prepare failure in "failed to prepare query: " and a query failure in "failed to execute query: " |
| Queries.QueryRow | internal/orm/query.go:18-32 | The guard ignores the adapter; success iff prepare succeeds, and the row then carries the query's own result; a prepare failure is wrapped in "failed to prepare query: " |
| Queries.LastInsertId | internal/orm/query.go:61-63 | A Postgres result's LastInsertId always succeeds with the id it holds; a driver result returns what the driver reports |
| Queries.RowsAffected | internal/orm/query.go:65-67 | A Postgres result's RowsAffected always succeeds with the count it holds; a driver result returns what the driver reports |
| Queries.Exec | internal/orm/query.go:35-52 | The guard ignores the adapter; success iff prepare and exec both succeed, and the driver's result is passed through; the failures are wrapped in "failed to prepare exec statement: " and "failed to execute exec statement: " |
| Queries.GuardsDifferOnAdapter | internal/orm/query.go:10-52 | With a connection but no adapter, QueryRow and Exec proceed and Query refuses |
| Queries.Scan | internal/orm/query.go:119 | Row.Scan: the row's error passes through, a count mismatch is an arity error, success iff every column converts, and then each field holds its converted column; nothing else in the struct changes; on a conversion failure, the fields before the failing column hold their converted values and it and the later fields are unchanged |
| Queries.ScanFrom | internal/orm/query.go:119 | The conversion loop stops at the first column that does not convert and names it; every earlier column converted and its field holds the converted value; the failing field and every later one are unchanged |
| Queries.Insert | internal/orm/query.go:70-128 | Insert equals `InsertResult`: the guard, the key column dropped, placeholders numbered from 1, then RETURNING on Postgres with a key and Exec otherwise |
| Queries.SkipColumn | internal/orm/query.go:84-93 | The first loop keeps the columns other than the key, with their values, in order |
| Queries.NumberPlaceholders | internal/orm/query.go:95-99 | The placeholder array holds `GetPlaceholder(1)` to `GetPlaceholder(n)` |
| Queries.InsertColumnsFiltered | internal/orm/query.go:78-93 | The inserted columns are every column other than the key, each once, in declaration order |
| Queries.InsertValuesAligned | internal/orm/query.go:84-93 | The j-th inserted value belongs to the j-th inserted column's field |
| Queries.InsertWithoutKey | internal/orm/query.go:78-82 | Without a key (pkCol ""), every column and value is inserted |
| Queries.InsertWithKey | internal/orm/query.go:84-93 | With a key and distinct columns, exactly one column fewer, and not the key |
| Queries.InsertPlaceholdersMatchArguments | internal/orm/query.go:95-105 | There are as many placeholders as arguments, numbered in order |
| Queries.PostgresPlaceholdersNumbered | internal/orm/query.go:95-99 | Postgres placeholders `$1..$n` are pairwise distinct and each names its position |
| Queries.SQLiteInsertMarksMatchArguments | internal/orm/query.go:95-105 | The SQLite INSERT text holds exactly as many `?` as it has arguments |
| Queries.PostgresInsertReturning | internal/orm/query.go:108-124 | Postgres with a key: success iff the RETURNING id scans; then LastInsertId is that id and RowsAffected is 1; otherwise the scan error, wrapped |
| Queries.InsertThroughExec | internal/orm/query.go:108-127 | SQLite, or Postgres without a key: the plain INSERT goes through Exec |
| Repository.Update | pkg/model/model.go:132-182 | Update equals `UpdateResult`: a nil datastore and a missing key are errors, a record whose only column is the key is "no fields to update", and otherwise the loop's SET clauses over all but the key and the key's value appended last go to Exec |
| Repository.BuildSetClauses | pkg/model/model.go:150-163 | The loop sets `col = p(j)` for the non-key columns in order, with their values and the next placeholder index |
| Repository.UpdateResult | pkg/model/model.go:132-182 | A nil datastore is "datastore is nil"; a missing key is the wrapped key error; a key with no other column is "no fields to update"; otherwise the result is Exec of `UpdateStatement` (SQL and arguments) on the datastore |
| Repository.UpdatePlaceholdersNumbered | pkg/model/model.go:156-176 | SET uses `p(1)..p(k)`, WHERE uses `p(k+1)`, and the arguments are the k values then the key value |
| Repository.UpdateSetsAllButKey | pkg/model/model.go:156-163 | With distinct columns, every column except the key is set |
| Repository.UpdateKeyOnly | pkg/model/model.go:165-167 | A model whose only field is its key gets "no fields to update" |
| Repository.PostgresUpdateKeyPlaceholderFresh | pkg/model/model.go:173-178 | In the Postgres UPDATE, the WHERE clause's placeholder (the one UpdatePlaceholdersNumbered places there) names the last argument's position; SET clause j is `col = $(j+1)`, which differs from it |
| Repository.SQLiteUpdateMarksMatchArguments | pkg/model/model.go:173-181 | The SQLite UPDATE holds exactly as many `?` as it has arguments |
| Repository.Save | pkg/model/model.go:37-58 | A nil datastore is an error; no key, or an int/int64 key equal to zero, inserts; anything else updates |
| Repository.SaveChoosesUpdate | pkg/model/model.go:42-57 | A key that is set, or any zero of another kind, goes to Update |
| Repository.SaveWithoutKeyInserts | pkg/model/model.go:42-46 | A model without a key goes to Insert, which inserts every column |
| Repository.Delete | pkg/model/model.go:185-212 | A nil datastore and a missing key are errors. With both present, the result is Exec's on `DELETE FROM t WHERE key = p(1)`, with the key's value as the only argument |
| Repository.SQLiteDeleteMarksMatchArguments | pkg/model/model.go:204-211 | The SQLite DELETE holds exactly one `?` and has exactly one argument, the key's value |
| Repository.FirstUnsettable | pkg/model/model.go:103-118 | The first field that cannot be set through the pointer (an unexported one), or none iff all are exported |
| Repository.FindByIDResult | pkg/model/model.go:61-129 | The nil-datastore, non-pointer and no-field errors; a missing key is the wrapped key error; a QueryRow failure is wrapped in "failed to query row: "; an unexported field gives "field <name> is not settable" for the first such field; a successful scan gives no error and the scanned struct; sql.ErrNoRows from the scan comes back unwrapped; a scan failure other than sql.ErrNoRows is wrapped in "failed to scan row into model: "; every error other than sql.ErrNoRows and a scan failure leaves the model unchanged |
| Repository.FindByID | pkg/model/model.go:61-129 | FindByID equals `FindByIDResult`: validation, SELECT through QueryRow, destination loop, scan; NoRows is returned unwrapped |
| Repository.Destinations | pkg/model/model.go:103-118 | Destination i is field i unless a field is unsettable, and then the first such field is reported |
| Repository.ExportedFieldsSettable | pkg/model/model.go:111-113 | A struct of exported fields passes the settability check |
| Repository.FindByIDNoRows | pkg/model/model.go:121-124 | When no row matches, FindByID returns sql.ErrNoRows itself and leaves the model as it was |
| Repository.FindByIDFills | pkg/model/model.go:121-128 | On success each field holds its column of the row, converted, and nothing else changes |
| Repository.FindByIDSucceeds | pkg/model/model.go:121-128 | The converse: with a row present, every field exported and every column converting, FindByID succeeds |
| Repository.SelectShape | pkg/model/model.go:89-94 | `SELECT cols FROM t WHERE key = ?` (SQLite) or `= $1` (Postgres), with the id as the only argument |
| DataStore.GetUserByID | pkg/model/datastore.go:28-41 | Nil repository is an error; a user iff FindByID succeeds; no error iff success or an error wrapping sql.ErrNoRows; any other error wrapped with the id |
| DataStore.SaveUser | pkg/model/datastore.go:44-54 | Nil repository is an error; fails iff Save fails, with Save's error wrapped |
| DataStore.DeleteUser | pkg/model/datastore.go:58-70 | Delete gets a User holding only the id; fails iff Delete fails, with the error wrapped with the id |
| DataStore.KeyOnlyUser | pkg/model/datastore.go:63 | `&User{ID: id}`: the id, with name and age zero |
| DataStore.ErrorsKeepCause | pkg/model/datastore.go:34-67 | Every error passed on still matches the repository's error under errors.Is, and is "not found" iff that one is |
| DataStore.IsNoRowsIsIs | pkg/model/datastore.go:35 | IsNoRows is errors.Is with sql.ErrNoRows as the target |
| DataStore.FindContextNamesId | pkg/model/datastore.go:38 | Distinct ids give distinct "failed to find user by ID %d" contexts |
| DataStore.DeleteContextNamesId | pkg/model/datastore.go:66 | Distinct ids give distinct "failed to delete user with ID %d" contexts |
| DataStore.ApiGetUserByID | pkg/model/datastore.go:75-80 | A user iff the id is 1, and then it is `User{ID: 1, Name: "Mock API User", Age: 30}` with no error; otherwise no user and the error "API not implemented: user not found" |
| DataStore.ApiSaveUser | pkg/model/datastore.go:83-85 | Always the error "API not implemented: cannot save user", which is not "not found" |
| DataStore.ApiDeleteUser | pkg/model/datastore.go:88-90 | Always the error "API not implemented: cannot delete user", which is not "not found" |
| DataStore.StoresDifferOnMissingUser | pkg/model/datastore.go:35-79 | A missing user is (nil, nil) in the ORM store and an error in the API store |
| DataStore.UserRecord | pkg/model/model.go:215-219 | User as the ORM sees it: three fields, the first the key, the values in order |
| DataStore.UserRecordRoundTrip | pkg/model/model.go:215-219 | Reading a User back from its record gives the same User |
| DataStore.UserKeyColumn | pkg/model/model.go:216 | The User's key column is `id` |
| DataStore.OrmGetUserNotFound | pkg/model/datastore.go:33-37 | Over the ORM repository, a SELECT that finds no row makes GetUserByID answer no user and no error |
| DataStore.OrmDeleteUserStatement | pkg/model/datastore.go:63-64 | Over the ORM repository, DeleteUser runs `DELETE FROM user WHERE id = p(1)` with the id as the only argument |
| DataStore.OrmSaveUserChoice | pkg/model/datastore.go:49 | A User with ID 0 is inserted as (name, age); any other ID is updated; Update sets name and age |
| Table.GetTableName | internal/orm/table.go:12-21 | For a struct, the same table name the rest of the ORM uses |
| Table.TableNameDereferences | internal/orm/table.go:14-16 | A pointer, nil or not, gives the name of the type it points to |
| Table.FieldColumns | internal/orm/table.go:36-46 | One column per field, in order: the `db` tag when non-empty, else the lower-cased name |
| Table.UntaggedColumnsAgree | internal/orm/table.go:38-44 | Without tags, these are the columns the adapters and Insert use |
| Table.GetFieldInfo | internal/orm/table.go:25-50 | The columns are one per field as above; the placeholders are all `?`, as many as the columns |
| Table.TableColumnDefinitions | internal/orm/table.go:73-105 | One definition per field, in order |
| Table.CreateTableOutcome | internal/orm/table.go:108-113 | Success iff Exec succeeds; otherwise "failed to create table: " wrapping Exec's error |
| Table.CreateTable | internal/orm/table.go:53-114 | Nil is "no model passed in. model was nil"; anything but a struct value (a pointer included) is "no model passed in"; otherwise the CREATE statement over all fields is executed |
| Table.TableTypeIsSQLite | internal/orm/table.go:85-101 | The types are SQLite's, REAL for floats, and the key gets " PRIMARY KEY" (never SERIAL) |
| Table.TableAgainstAdapter | internal/orm/table.go:75-103 | Untagged, the definition is the SQLite adapter's without its trailing space; tagged, the tag names the column here but only adds a constraint there |
| Table.TableStatementAgainstAdapter | internal/orm/table.go:103-107 | The same, definition by definition, over a whole untagged struct |
| Crud.Run | internal/orm/crud.go:18-38 | Success iff prepare and exec both succeed; each failure is wrapped with its own context |
| Crud.Create | internal/orm/crud.go:11-41 | Create equals running `INSERT INTO t (all columns) VALUES (?, ..., ?)` with every field's value; the errors are "failed to prepare/execute insert statement"; past a successful prepare every field must be exported |
| Crud.FieldValues | internal/orm/crud.go:29-33 | The argument array holds every field's value in order |
| Crud.CreateInsertsEveryField | internal/orm/crud.go:12-35 | The key is included, and the `?` count, argument count and column count are all the number of fields |
| Crud.GetResult | internal/orm/crud.go:44-78 | A failed prepare is "failed to prepare select statement", leaving the model alone; past the prepare, a successful scan gives no error and the filled struct, sql.ErrNoRows gives "record not found with id %d", and any other scan error is wrapped in "failed to scan row: " |
| Crud.Get | internal/orm/crud.go:44-78 | Get equals `GetResult`: SELECT over all columns from the caller's table `WHERE id = ?`, field i as destination i, scan; ErrNoRows becomes "record not found with id %d"; other errors are "failed to scan row"; past a successful prepare the model must be a pointer whose fields are all exported |
| Crud.GetNotFound | internal/orm/crud.go:70-74 | sql.ErrNoRows becomes the not-found message, which no longer matches ErrNoRows; an error that merely wraps ErrNoRows is reported as a scan failure |
| Crud.GetFillsEveryField | internal/orm/crud.go:63-69 | On success every field holds its column of the row, converted, and nothing else in the struct changes |
| Crud.GetSucceeds | internal/orm/crud.go:63-77 | The converse: with a row present and every column converting, Get succeeds |
| Crud.GetMarksMatchArguments | internal/orm/crud.go:50-68 | The SELECT holds one `?` and has one argument, the id |
| Crud.Assignments | internal/orm/crud.go:85-88 | `col = ?` for every column, the id column included |
| Crud.Update | internal/orm/crud.go:81-116 | Update equals running `UPDATE table SET c = ?, ... WHERE id = ?` with every field's value and then the id; past a successful prepare every field must be exported |
| Crud.UpdateMarksMatchArguments | internal/orm/crud.go:85-110 | One argument per field plus the id, and exactly as many `?` |
| Crud.Delete | internal/orm/crud.go:119-136 | `DELETE FROM table WHERE id = ?` with the id; each failure wrapped as "failed to prepare/execute delete statement" |
| Crud.DeleteMarksMatchArguments | internal/orm/crud.go:122-130 | The DELETE holds exactly one `?`, for its one argument |
| Text.DecimalRoundTrip | internal/orm/adapter.go:238 | `%d` of a natural number reads back as that number |
| Text.IntToDecimalInjective | internal/orm/adapter.go:238 | Distinct integers print differently under `%d` |
| Meta.KeyIndexFrom | pkg/model/model.go:83-86 | The first field marked as the key, and that none before it is marked |
| Meta.PrimaryKeyColumn | pkg/model/model.go:83-86 | A key column exists iff some field is marked; it is that field's column |
| Meta.KeptComplete | internal/orm/query.go:84-93 | The filtering loop keeps every column other than the skipped one, in increasing order |

## Left out

- Connection setup (`Connect`, `OpenDB`), transactions (`BeginTx`, transaction.go), configuration and the encryption settings: these are I/O and driver state.
- sanitize.go and the top-level stubs in liteforge.go are not part of this model.
- The source of `GetPrimaryKeyColumn`, `GetPrimaryKeyValue` and `GetTableName` of internal/orm is not among the files modelled here. They are specified abstractly instead: the key is the first field marked as key, and the table name is the lower-cased type name. The marker is one abstract flag, standing both for the `pk:"true"` tag the adapters and table.go read and for the `liteforge:"pk"` tag on model.go's User.
- The "failed to get primary key value" branches of model.go cannot be reached in this model: the key value comes from the same field as the key column.
- Case mapping is ASCII only. Go's Unicode case tables are not modelled.
- Meta.IsExported: a name is exported when its first letter is an ASCII upper-case letter. Go also exports names that start with any other Unicode upper-case letter. For such a field, the settability checks of FindByID and Crud differ from the model.
- Save decides between insert and update from the key field's Go type string ("int", "int64"). It does not model named integer types, whose reflect Kind is int but whose type string is different.
- Scan's conversions are the abstract `Engine.convert`. The error texts produced by database/sql and the driver are abstract `Error` constructors.
- Queries.ScanKey: the int64 conversion of the RETURNING id is modelled as "an integer in int64 range". Any other value is a conversion error.
- Calls that would panic in Go are excluded by preconditions:
  - a nil adapter at `GetPlaceholder` in Update, Delete, FindByID and Save;
  - a typed nil pointer to a struct in `CreateTableSQL`;
  - a nil model in `getTableName`;
  - in `getFieldInfo`, Create, Get and Update, a model that is not a struct value or a non-nil pointer to a struct;
  - in Create, Get and Update, once the prepare has succeeded, a struct with an unexported field: `Value.Interface` panics on it;
  - in Get, a struct value whose fields have no address.
- Repository.Destinations and the destination array of Crud.Get are computed and proved, but Scan does not take them as input. Scan writes column i into field i directly. The alignment of fields and columns therefore holds by construction of Scan, and the destination lists only restate it.
- `fmt.Println(model)` in table.go's CreateTable is output only and is not modelled.
- Repository.FindByID: the check that column i matches field i's lower-cased name can never fail, since columns are defined as those names. The model does not carry it.
- Save, Update, Delete and Insert take a `Record`, so a nil model or a `model any` that is not a struct is not represented for them. The Go code would reach reflection on such a value.
- The pointer argument is modelled by value. FindByID and Get return the struct they fill instead of writing through the caller's pointer, so aliasing is not captured.
- The deferred `stmt.Close()` calls are not modelled.
- DataStore.UserOf: when a conversion yields a value of the wrong kind for a User field, the User is left as it was. Go's Scan cannot produce such a value.
- Table.GetTableName: the `Name()` of a non-struct type is taken to be its type string. The empty name Go gives unnamed composite types is not modelled.
