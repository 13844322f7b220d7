/** The values the ORM reflects over, stated explicitly instead of through Go
    reflection: a model is a sequence of field descriptors, and the exported
    extractors GetTableName, GetFieldInfo, GetPrimaryKeyColumn and
    GetPrimaryKeyValue are functions over that sequence. */
module Meta {
  import opened Text

  datatype Option<T> = None | Some(value: T)

  /** Go errors. `Wrapped(context, cause)` is fmt.Errorf(context + "%w", cause);
      `Message` is errors.New or fmt.Errorf without %w. NoRows is
      sql.ErrNoRows; NoPrimaryKey is whatever GetPrimaryKeyColumn/Value return
      when no field is marked; ScanArity and ScanConvert are the errors
      database/sql's Scan reports for a column/destination count mismatch and
      for a value it cannot convert. */
  datatype Error =
    | NoRows
    | NoPrimaryKey
    | ScanArity(columns: nat, destinations: nat)
    | ScanConvert(column: nat)
    | Message(text: string)
    | Wrapped(context: string, cause: Error)

  /** errors.Is(err, sql.ErrNoRows): the error or one it wraps is sql.ErrNoRows. */
  predicate IsNoRows(e: Error)
  {
    match e
    case NoRows => true
    case Wrapped(_, cause) => IsNoRows(cause)
    case _ => false
  }

  datatype Result<T> = Ok(value: T) | Err(error: Error)

  /** The current contents of a field. */
  datatype Value = IntV(n: int) | StrV(s: string) | RealV(x: real) | BoolV(b: bool) | OtherV(text: string)

  /** One struct field: its Go type as reflect's Type.String() prints it, its
      name, its `db` tag, whether it carries the primary-key marker, and its
      current value. */
  datatype Field = Field(goType: string, name: string, dbTag: string, isPk: bool, value: Value)

  /** A struct value: its type name and its fields in declaration order. */
  datatype Record = Record(typeName: string, fields: seq<Field>)

  /** What a value of the model's (pointed-to) type is: a struct or something else. */
  datatype Shape = Struct(rec: Record) | Scalar(goType: string)

  /** The `model interface{}` argument: nil, a value, a non-nil pointer to a
      value, or a typed nil pointer. */
  datatype ModelArg = NilArg | Val(shape: Shape) | Ptr(shape: Shape) | NilPtr(shape: Shape)

  /** Go's exported-identifier rule, which decides reflect's CanSet for a field
      reached through a pointer (ASCII upper-case initial). */
  predicate IsExported(name: string)
  {
    |name| > 0 && 'A' <= name[0] <= 'Z'
  }

  /** GetTableName: the lower-cased type name. */
  function TableName(rec: Record): string
  {
    Lower(rec.typeName)
  }

  /** GetFieldInfo's columns: the lower-cased field names in declaration order. */
  function Columns(rec: Record): (cols: seq<string>)
    ensures |cols| == |rec.fields|
    ensures forall i :: 0 <= i < |cols| ==> cols[i] == Lower(rec.fields[i].name)
  {
    seq(|rec.fields|, i requires 0 <= i < |rec.fields| => Lower(rec.fields[i].name))
  }

  /** GetFieldInfo's values, aligned with Columns. */
  function Values(rec: Record): (vals: seq<Value>)
    ensures |vals| == |rec.fields|
    ensures forall i :: 0 <= i < |vals| ==> vals[i] == rec.fields[i].value
  {
    seq(|rec.fields|, i requires 0 <= i < |rec.fields| => rec.fields[i].value)
  }

  /** The index of the first field at or after `from` that carries the
      primary-key marker. */
  function KeyIndexFrom(fields: seq<Field>, from: nat): (r: Option<nat>)
    requires from <= |fields|
    ensures r.Some? ==> from <= r.value < |fields| && fields[r.value].isPk
    ensures r.Some? ==> forall j :: from <= j < r.value ==> !fields[j].isPk
    ensures r.None? ==> forall j :: from <= j < |fields| ==> !fields[j].isPk
    decreases |fields| - from
  {
    if from == |fields| then None
    else if fields[from].isPk then Some(from)
    else KeyIndexFrom(fields, from + 1)
  }

  /** The first marked field wins when several are marked. */
  function KeyIndex(rec: Record): Option<nat>
  {
    KeyIndexFrom(rec.fields, 0)
  }

  /** GetPrimaryKeyColumn: the column of the first marked field, or the error. */
  function PrimaryKeyColumn(rec: Record): (r: Option<string>)
    ensures r.Some? <==> exists j :: 0 <= j < |rec.fields| && rec.fields[j].isPk
    ensures r.Some? ==> r.value == Columns(rec)[KeyIndex(rec).value]
  {
    match KeyIndex(rec)
    case None => None
    case Some(k) => Some(Lower(rec.fields[k].name))
  }

  /** GetPrimaryKeyValue: the value of the same field. */
  function PrimaryKeyValue(rec: Record): (r: Option<Value>)
    ensures r.Some? <==> PrimaryKeyColumn(rec).Some?
    ensures r.Some? ==> r.value == Values(rec)[KeyIndex(rec).value]
  {
    match KeyIndex(rec)
    case None => None
    case Some(k) => Some(rec.fields[k].value)
  }

  /** The struct after row.Scan has stored `vals`, one per field in order. */
  function WithValues(rec: Record, vals: seq<Value>): (r: Record)
    requires |vals| == |rec.fields|
    ensures r.typeName == rec.typeName && |r.fields| == |rec.fields|
    ensures Values(r) == vals
    ensures forall i :: 0 <= i < |r.fields| ==> r.fields[i] == rec.fields[i].(value := vals[i])
  {
    Record(rec.typeName, seq(|rec.fields|, i requires 0 <= i < |rec.fields| => rec.fields[i].(value := vals[i])))
  }

  /** The entries of `s` at the positions `idx`, in that order. */
  function Pick<T>(s: seq<T>, idx: seq<nat>): (r: seq<T>)
    requires forall j :: 0 <= j < |idx| ==> idx[j] < |s|
    ensures |r| == |idx| && forall j :: 0 <= j < |idx| ==> r[j] == s[idx[j]]
  {
    seq(|idx|, j requires 0 <= j < |idx| => s[idx[j]])
  }

  /** The positions, in increasing order, of the columns different from
      `skip`: what a `for i, col := range columns { if col == skip { continue } ... }`
      loop keeps. */
  function Kept(cols: seq<string>, skip: string): (k: seq<nat>)
    ensures forall j :: 0 <= j < |k| ==> k[j] < |cols| && cols[k[j]] != skip
  {
    if |cols| == 0 then []
    else Kept(cols[..|cols| - 1], skip) + (if cols[|cols| - 1] != skip then [|cols| - 1] else [])
  }

  /** Kept lists every such position exactly once, in order. */
  lemma {:induction false} KeptComplete(cols: seq<string>, skip: string)
    ensures forall j1, j2 :: 0 <= j1 < j2 < |Kept(cols, skip)| ==> Kept(cols, skip)[j1] < Kept(cols, skip)[j2]
    ensures forall i :: 0 <= i < |cols| && cols[i] != skip ==> i in Kept(cols, skip)
  {
    if |cols| > 0 {
      var init := cols[..|cols| - 1];
      KeptComplete(init, skip);
      forall i | 0 <= i < |cols| && cols[i] != skip
        ensures i in Kept(cols, skip)
      {
        if i < |cols| - 1 {
          assert init[i] == cols[i];
          assert i in Kept(init, skip);
        }
      }
    }
  }

  /** When no column equals `skip`, every position is kept. */
  lemma {:induction false} KeptAll(cols: seq<string>, skip: string)
    requires forall i :: 0 <= i < |cols| ==> cols[i] != skip
    ensures Kept(cols, skip) == seq(|cols|, i requires 0 <= i < |cols| => i)
  {
    if |cols| > 0 {
      KeptAll(cols[..|cols| - 1], skip);
    }
  }

  /** When exactly one column equals `skip`, all others are kept. */
  lemma {:induction false} KeptAllButOne(cols: seq<string>, skip: string, p: nat)
    requires p < |cols| && cols[p] == skip
    requires forall i :: 0 <= i < |cols| && i != p ==> cols[i] != skip
    ensures |Kept(cols, skip)| == |cols| - 1
    ensures p !in Kept(cols, skip)
  {
    var init := cols[..|cols| - 1];
    if p == |cols| - 1 {
      KeptAll(init, skip);
    } else {
      KeptAllButOne(init, skip, p);
    }
  }

  /** A prefix keeps no more positions than the whole. */
  lemma {:induction false} KeptGrows(cols: seq<string>, skip: string, i: nat)
    requires i <= |cols|
    ensures |Kept(cols[..i], skip)| <= |Kept(cols, skip)|
    decreases |cols| - i
  {
    if i < |cols| {
      KeptGrows(cols, skip, i + 1);
      assert cols[..i + 1][..i] == cols[..i];
    } else {
      assert cols[..i] == cols;
    }
  }

  /** One more step of a filtering loop keeps position i or not. */
  lemma KeptStep(cols: seq<string>, skip: string, i: nat)
    requires i < |cols|
    ensures Kept(cols[..i + 1], skip) == Kept(cols[..i], skip) + (if cols[i] != skip then [i] else [])
  {
    assert cols[..i + 1][..i] == cols[..i];
  }

  lemma PickAppend<T>(s: seq<T>, idx: seq<nat>, i: nat)
    requires i < |s| && forall j :: 0 <= j < |idx| ==> idx[j] < |s|
    ensures Pick(s, idx + [i]) == Pick(s, idx) + [s[i]]
  {
  }
}
