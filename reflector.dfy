/** Source/ADOMore/Reflector.cs: the per-type metadata (scalar or composite with
    a property table), binding a model to command parameters, and materializing
    a model from a row. The first half gives the behaviour as functions with
    their properties; the class Reflector below computes it step by step. */
module Reflection {
  import opened Outcomes
  import opened Text
  import opened ClrTypes
  import opened Values
  import opened ValueProviders
  import opened Driver

  /** One entry of the property table: a property and its semantic type. */
  datatype PropertyEntry = PropertyEntry(prop: Property, semantic: ClrType)

  /** GetProperties: every public property, with UnderlyingType of its declared type. */
  function PropertyTable(t: ClrType): (table: seq<PropertyEntry>)
    ensures |table| == |Props(t)|
  {
    seq(|Props(t)|, i requires 0 <= i < |Props(t)| => PropertyEntry(Props(t)[i], UnderlyingType(Props(t)[i].declared)))
  }

  // ---------------------------------------------------------------------------
  // Write path: model -> parameters

  /** PropertyInfo.GetValue: a property without a getter throws ArgumentException.
      (A well-typed instance holds every property of its type.) */
  function PropertyValue(p: Property, fields: map<string, Value>): (r: Result<Value>)
    ensures r.Err? <==> !p.canRead
    ensures r.Ok? && p.name in fields ==> r.value == fields[p.name]
  {
    if !p.canRead then Err(Argument("Property get method not found."))
    else if p.name in fields then Ok(fields[p.name])
    else Ok(Null)
  }

  /** The fields of a model instance; a scalar model has none. */
  function ModelFields(model: Value): map<string, Value>
  {
    if model.ObjectV? then model.fields else map[]
  }

  /** The parameter one table entry contributes: none when no provider accepts its
      semantic type, otherwise "@" + name bound to the written value (or the error). */
  function BindOne(e: PropertyEntry, ps: seq<Provider>, fields: map<string, Value>): Option<Result<Parameter>>
  {
    match FirstProvider(ps, e.semantic)
    case None => None
    case Some(p) =>
      match PropertyValue(e.prop, fields)
      case Err(err) => Some(Err(err))
      case Ok(v) =>
        match p.writeValue(e.semantic, v)
        case Err(err) => Some(Err(err))
        case Ok(w) => Some(Ok(Parameter("@" + e.prop.name, w)))
  }

  /** The parameters CreateCommand appends, table entry by table entry; the first failing entry decides the error. */
  function BindParameters(table: seq<PropertyEntry>, ps: seq<Provider>, fields: map<string, Value>): (r: Result<seq<Parameter>>)
    decreases |table|
  {
    if |table| == 0 then Ok([])
    else
      match BindParameters(table[..|table| - 1], ps, fields)
      case Err(err) => Err(err)
      case Ok(prefix) =>
        match BindOne(table[|table| - 1], ps, fields)
        case None => Ok(prefix)
        case Some(Err(err)) => Err(err)
        case Some(Ok(param)) => Ok(prefix + [param])
  }

  /** A table entry is bound to a parameter when some provider accepts its semantic type. */
  predicate IsBound(e: PropertyEntry, ps: seq<Provider>)
  {
    FirstProvider(ps, e.semantic).Some?
  }

  /** The bound entries, in table order. */
  function BoundEntries(table: seq<PropertyEntry>, ps: seq<Provider>): (r: seq<PropertyEntry>)
    ensures forall e :: e in r ==> e in table && IsBound(e, ps)
    ensures forall e :: e in table && IsBound(e, ps) ==> e in r
    decreases |table|
  {
    if |table| == 0 then []
    else
      var prefix := BoundEntries(table[..|table| - 1], ps);
      assert forall e :: e in table ==> e in table[..|table| - 1] || e == table[|table| - 1];
      if IsBound(table[|table| - 1], ps) then prefix + [table[|table| - 1]] else prefix
  }

  /** The value a bound entry is written as, when reading and writing it succeed. */
  predicate WritesTo(e: PropertyEntry, ps: seq<Provider>, fields: map<string, Value>, w: Value)
  {
    IsBound(e, ps) && BindOne(e, ps, fields) == Some(Ok(Parameter("@" + e.prop.name, w)))
  }

  lemma BindParametersPrefixErr(table: seq<PropertyEntry>, ps: seq<Provider>, fields: map<string, Value>, n: nat)
    requires n <= |table|
    requires BindParameters(table[..n], ps, fields).Err?
    ensures BindParameters(table, ps, fields) == BindParameters(table[..n], ps, fields)
    decreases |table| - n
  {
    if n < |table| {
      var shorter := table[..|table| - 1];
      assert shorter[..n] == table[..n];
      BindParametersPrefixErr(shorter, ps, fields, n);
    } else {
      assert table[..n] == table;
    }
  }

  /** One more table entry: the binding of a successful prefix grows by what that entry binds. */
  lemma BindStep(table: seq<PropertyEntry>, ps: seq<Provider>, fields: map<string, Value>, k: nat)
    requires k < |table| && BindParameters(table[..k], ps, fields).Ok?
    ensures BindParameters(table[..k + 1], ps, fields) ==
      match BindOne(table[k], ps, fields)
      case None => BindParameters(table[..k], ps, fields)
      case Some(Err(err)) => Err(err)
      case Some(Ok(param)) => Ok(BindParameters(table[..k], ps, fields).value + [param])
  {
    assert table[..k + 1][..k] == table[..k];
  }

  /** Binding succeeds exactly when every bound property can be read and written. */
  lemma {:induction false} BindSucceeds(table: seq<PropertyEntry>, ps: seq<Provider>, fields: map<string, Value>)
    ensures BindParameters(table, ps, fields).Ok? <==>
      forall i :: 0 <= i < |table| && IsBound(table[i], ps) ==> BindOne(table[i], ps, fields).value.Ok?
    decreases |table|
  {
    if |table| > 0 {
      var n := |table| - 1;
      BindSucceeds(table[..n], ps, fields);
      assert forall i :: 0 <= i < n ==> table[..n][i] == table[i];
    }
  }

  /** A successful binding has exactly one parameter per bound property, in table
      order, named "@" + the property name and holding the provider's WriteValue of
      the property's value. Properties no provider accepts contribute nothing;
      read-only properties are included. */
  lemma {:induction false} BindContents(table: seq<PropertyEntry>, ps: seq<Provider>, fields: map<string, Value>)
    requires BindParameters(table, ps, fields).Ok?
    ensures var params := BindParameters(table, ps, fields).value;
      var bound := BoundEntries(table, ps);
      |params| == |bound| &&
      forall k :: 0 <= k < |params| ==>
        params[k].name == "@" + bound[k].prop.name && WritesTo(bound[k], ps, fields, params[k].value)
    decreases |table|
  {
    if |table| > 0 {
      var n := |table| - 1;
      var last, shorter := table[n], table[..n];
      assert BindParameters(shorter, ps, fields).Ok?;
      BindContents(shorter, ps, fields);
      var prefix, bound := BindParameters(shorter, ps, fields).value, BoundEntries(shorter, ps);
      if IsBound(last, ps) {
        assert BindParameters(table, ps, fields).value == prefix + [BindOne(last, ps, fields).value.value];
        assert BoundEntries(table, ps) == bound + [last];
      } else {
        assert BindParameters(table, ps, fields).value == prefix;
        assert BoundEntries(table, ps) == bound;
      }
    }
  }

  /** The command Reflector.CreateCommand builds: the argument checks in source
      order (connection, model, sql), then the property table, which a scalar
      reflector does not have (the NullReferenceException the code raises), then binding. */
  function CommandFor(table: Option<seq<PropertyEntry>>, ps: seq<Provider>, sql: Option<string>, model: Value,
                      connection: Option<Connection>, commandType: CommandType, transaction: Option<Transaction>): (r: Result<CommandData>)
    ensures connection.None? ==> r == Err(ArgumentNull("connection"))
    ensures connection.Some? && model.Null? ==> r == Err(ArgumentNull("model"))
    ensures connection.Some? && !model.Null? && (sql.None? || sql == Some("")) ==> r == Err(ArgumentNull("sql"))
    ensures r.Ok? ==> table.Some? && r.value.text == sql && r.value.commandType == commandType
                      && r.value.transaction == transaction
                      && Ok(r.value.parameters) == BindParameters(table.value, ps, ModelFields(model))
  {
    if connection.None? then Err(ArgumentNull("connection"))
    else if model.Null? then Err(ArgumentNull("model"))
    else if sql.None? || sql.value == "" then Err(ArgumentNull("sql"))
    else if table.None? then Err(NullReference)
    else
      match BindParameters(table.value, ps, ModelFields(model))
      case Err(err) => Err(err)
      case Ok(params) => Ok(CommandData(sql, commandType, transaction, params))
  }

  // ---------------------------------------------------------------------------
  // Read path: row -> model

  function UpperName(c: Column): string
  {
    ToUpperInvariant(c.name)
  }

  /** The upper-cased column names, in column order. */
  function ColumnKeys(row: Row): (keys: seq<string>)
    ensures |keys| == |row|
  {
    seq(|row|, i requires 0 <= i < |row| => UpperName(row[i]))
  }

  predicate Distinct<K(==)>(keys: seq<K>)
  {
    forall i, j :: 0 <= i < j < |keys| ==> keys[i] != keys[j]
  }

  predicate DistinctUpperNames(row: Row)
  {
    Distinct(ColumnKeys(row))
  }

  /** The message of the ArgumentException Dictionary.Add throws. */
  const DuplicateKey := "An item with the same key has already been added."

  /** Dictionary.Add(keys[i], i) for each i in turn; adding a key twice fails. */
  function IndexKeys<K(==)>(keys: seq<K>): (r: Result<map<K, nat>>)
    ensures r.Ok? ==> forall k :: k in r.value ==> r.value[k] < |keys|
    ensures r.Err? ==> r.error == Argument(DuplicateKey)
    decreases |keys|
  {
    if |keys| == 0 then Ok(map[])
    else
      var n := |keys| - 1;
      match IndexKeys(keys[..n])
      case Err(err) => Err(err)
      case Ok(m) => if keys[n] in m then Err(Argument(DuplicateKey)) else Ok(m[keys[n] := n])
  }

  lemma IndexKeysPrefixErr<K>(keys: seq<K>, n: nat)
    requires n <= |keys|
    requires IndexKeys(keys[..n]).Err?
    ensures IndexKeys(keys) == IndexKeys(keys[..n])
    decreases |keys| - n
  {
    if n < |keys| {
      var shorter := keys[..|keys| - 1];
      assert shorter[..n] == keys[..n];
      IndexKeysPrefixErr(shorter, n);
    } else {
      assert keys[..n] == keys;
    }
  }

  /** A successful index maps each key to its position and holds nothing else. */
  lemma {:induction false} IndexKeysContents<K>(keys: seq<K>)
    requires IndexKeys(keys).Ok?
    ensures var m := IndexKeys(keys).value;
      (forall i :: 0 <= i < |keys| ==> keys[i] in m && m[keys[i]] == i)
      && (forall k :: k in m ==> keys[m[k]] == k)
    decreases |keys|
  {
    if |keys| > 0 {
      var n := |keys| - 1;
      IndexKeysContents(keys[..n]);
      assert forall i :: 0 <= i < n ==> keys[..n][i] == keys[i];
    }
  }

  /** The index is built exactly when the keys are distinct. */
  lemma {:induction false} IndexKeysSucceeds<K>(keys: seq<K>)
    ensures IndexKeys(keys).Ok? <==> Distinct(keys)
    decreases |keys|
  {
    if |keys| > 0 {
      var n := |keys| - 1;
      var shorter := keys[..n];
      IndexKeysSucceeds(shorter);
      assert forall i :: 0 <= i < n ==> shorter[i] == keys[i];
      if IndexKeys(shorter).Ok? {
        IndexKeysContents(shorter);
        var m := IndexKeys(shorter).value;
        if keys[n] in m {
          assert keys[m[keys[n]]] == keys[n];
        } else {
          assert forall i :: 0 <= i < n ==> keys[i] in m;
        }
      } else {
        var i, j :| 0 <= i < j < n && shorter[i] == shorter[j];
        assert keys[i] == keys[j];
      }
    }
  }

  /** The fieldDictionary loop: upper-cased column name to column index. */
  function ColumnIndex(row: Row): (r: Result<map<string, nat>>)
    ensures r.Ok? ==> forall k :: k in r.value ==> r.value[k] < |row|
    ensures r.Err? ==> r.error == Argument(DuplicateKey)
  {
    IndexKeys(ColumnKeys(row))
  }

  /** The column index is built exactly when no two column names are equal after
      upper-casing, and then maps each column's upper-cased name to its position
      and holds nothing else. */
  lemma ColumnIndexSpec(row: Row)
    ensures ColumnIndex(row).Ok? <==> DistinctUpperNames(row)
    ensures ColumnIndex(row).Ok? ==>
      var m := ColumnIndex(row).value;
      (forall i :: 0 <= i < |row| ==> UpperName(row[i]) in m && m[UpperName(row[i])] == i)
      && (forall k :: k in m ==> UpperName(row[m[k]]) == k)
  {
    IndexKeysSucceeds(ColumnKeys(row));
    assert forall i :: 0 <= i < |row| ==> ColumnKeys(row)[i] == UpperName(row[i]);
    if ColumnIndex(row).Ok? {
      IndexKeysContents(ColumnKeys(row));
    }
  }

  /** PropertyInfo.SetValue: a null argument for a value-type property stores its
      default, so null or a value of the property's type leaves a value of that type. */
  function SetValue(p: Property, x: Value): (r: Value)
    ensures WellFormed(p.declared) && (x.Null? || HasType(x, p.declared)) ==> HasType(r, p.declared)
  {
    if x.Null? then DefaultValue(p.declared) else x
  }

  /** PropertyInfo.SetValue's argument check: a non-null value of another type than
      the property's is an ArgumentException (the message's type names are not modelled). */
  const ConversionMismatch := "Object cannot be converted to the type of the property."

  function CheckSettable(p: Property, read: Result<Value>): (r: Result<Value>)
    ensures r.Ok? <==> read.Ok? && (read.value.Null? || HasType(read.value, p.declared))
    ensures r.Ok? ==> r.value == read.value
  {
    match read
    case Err(err) => Err(err)
    case Ok(x) => if x.Null? || HasType(x, p.declared) then Ok(x) else Err(Argument(ConversionMismatch))
  }

  /** What the assignment loop does for one table entry: nothing (None) when the
      property has no setter, no provider accepts its semantic type, or no column
      has its upper-cased name; otherwise the provider's ReadValue of that column,
      checked against the property's type. */
  function ReadOutcome(e: PropertyEntry, ps: seq<Provider>, row: Row, index: map<string, nat>): Option<Result<Value>>
    requires forall k :: k in index ==> index[k] < |row|
  {
    if !e.prop.canWrite then None
    else
      match FirstProvider(ps, e.semantic)
      case None => None
      case Some(p) =>
        var key := ToUpperInvariant(e.prop.name);
        if key !in index then None
        else Some(CheckSettable(e.prop, p.readValue(e.semantic, row[index[key]].value)))
  }

  function ReadOutcomes(table: seq<PropertyEntry>, ps: seq<Provider>, row: Row, index: map<string, nat>): (r: seq<Option<Result<Value>>>)
    requires forall k :: k in index ==> index[k] < |row|
    ensures |r| == |table|
  {
    seq(|table|, i requires 0 <= i < |table| => ReadOutcome(table[i], ps, row, index))
  }

  /** The assignment loop over the table, given what each entry reads; the first
      failing read decides the error. */
  function Assign(table: seq<PropertyEntry>, outcomes: seq<Option<Result<Value>>>, fields: map<string, Value>): Result<map<string, Value>>
    requires |outcomes| == |table|
    decreases |table|
  {
    if |table| == 0 then Ok(fields)
    else
      var n := |table| - 1;
      match Assign(table[..n], outcomes[..n], fields)
      case Err(err) => Err(err)
      case Ok(f) =>
        match outcomes[n]
        case None => Ok(f)
        case Some(Err(err)) => Err(err)
        case Some(Ok(x)) => Ok(f[table[n].prop.name := SetValue(table[n].prop, x)])
  }

  lemma AssignPrefixErr(table: seq<PropertyEntry>, outcomes: seq<Option<Result<Value>>>, fields: map<string, Value>, n: nat)
    requires |outcomes| == |table| && n <= |table|
    requires Assign(table[..n], outcomes[..n], fields).Err?
    ensures Assign(table, outcomes, fields) == Assign(table[..n], outcomes[..n], fields)
    decreases |table| - n
  {
    if n < |table| {
      var m := |table| - 1;
      assert table[..m][..n] == table[..n] && outcomes[..m][..n] == outcomes[..n];
      AssignPrefixErr(table[..m], outcomes[..m], fields, n);
    } else {
      assert table[..n] == table && outcomes[..n] == outcomes;
    }
  }

  predicate DistinctPropertyNames(table: seq<PropertyEntry>)
  {
    forall i, j :: 0 <= i < j < |table| ==> table[i].prop.name != table[j].prop.name
  }

  /** The assignment loop succeeds exactly when every read it performs succeeds. */
  lemma {:induction false} AssignSucceeds(table: seq<PropertyEntry>, outcomes: seq<Option<Result<Value>>>, fields: map<string, Value>)
    requires |outcomes| == |table|
    ensures Assign(table, outcomes, fields).Ok? <==> forall i :: 0 <= i < |outcomes| && outcomes[i].Some? ==> outcomes[i].value.Ok?
    decreases |table|
  {
    if |table| > 0 {
      var n := |table| - 1;
      AssignSucceeds(table[..n], outcomes[..n], fields);
      assert forall i :: 0 <= i < n ==> outcomes[..n][i] == outcomes[i];
    }
  }

  /** The assignment loop never adds or removes a field. */
  lemma {:induction false} AssignKeys(table: seq<PropertyEntry>, outcomes: seq<Option<Result<Value>>>, fields: map<string, Value>)
    requires |outcomes| == |table|
    requires forall i :: 0 <= i < |table| ==> table[i].prop.name in fields
    requires Assign(table, outcomes, fields).Ok?
    ensures Assign(table, outcomes, fields).value.Keys == fields.Keys
    decreases |table|
  {
    if |table| > 0 {
      var n := |table| - 1;
      assert forall i :: 0 <= i < n ==> table[..n][i] == table[i];
      AssignKeys(table[..n], outcomes[..n], fields);
    }
  }

  /** After a successful assignment loop, an entry that read x holds SetValue of x. */
  lemma {:induction false} AssignSets(table: seq<PropertyEntry>, outcomes: seq<Option<Result<Value>>>, fields: map<string, Value>, i: nat)
    requires |outcomes| == |table| && DistinctPropertyNames(table)
    requires Assign(table, outcomes, fields).Ok?
    requires i < |table| && outcomes[i].Some?
    ensures outcomes[i].value.Ok?
    ensures var f := Assign(table, outcomes, fields).value;
      table[i].prop.name in f && f[table[i].prop.name] == SetValue(table[i].prop, outcomes[i].value.value)
    decreases |table|
  {
    var n := |table| - 1;
    if i < n {
      assert table[..n][i] == table[i] && outcomes[..n][i] == outcomes[i];
      assert DistinctPropertyNames(table[..n]);
      AssignSets(table[..n], outcomes[..n], fields, i);
      assert table[n].prop.name != table[i].prop.name;
    }
  }

  /** After a successful assignment loop, a field that no entry reads into is unchanged. */
  lemma {:induction false} AssignKeeps(table: seq<PropertyEntry>, outcomes: seq<Option<Result<Value>>>, fields: map<string, Value>, k: string)
    requires |outcomes| == |table|
    requires Assign(table, outcomes, fields).Ok?
    requires k in fields
    requires forall i :: 0 <= i < |table| && table[i].prop.name == k ==> outcomes[i].None?
    ensures var f := Assign(table, outcomes, fields).value;
      k in f && f[k] == fields[k]
    decreases |table|
  {
    if |table| > 0 {
      var n := |table| - 1;
      assert forall i :: 0 <= i < n ==> table[..n][i] == table[i] && outcomes[..n][i] == outcomes[i];
      AssignKeeps(table[..n], outcomes[..n], fields, k);
    }
  }

  /** The fields of a freshly constructed instance: every property at its type's default. */
  function DefaultFields(props: seq<Property>): (f: map<string, Value>)
    requires forall i, j :: 0 <= i < j < |props| ==> props[i].name != props[j].name
    ensures forall k :: k in f <==> exists i :: 0 <= i < |props| && props[i].name == k
    ensures forall i :: 0 <= i < |props| ==> f[props[i].name] == DefaultValue(props[i].declared)
  {
    map p | p in props :: p.name := DefaultValue(p.declared)
  }

  /** Activator.CreateInstance<T>(): a class needs a parameterless constructor, as
      do string and Uri; a value type is its default; Version() is 0.0. The
      constructor's own body is not modelled: the instance holds default values. */
  function NewInstance(t: ClrType): (r: Result<Value>)
    requires WellFormed(t)
    ensures t.Class? && t.hasDefaultCtor ==> r.Ok? && r.value.ObjectV? && r.value.typ == t
    ensures t.Class? && !t.hasDefaultCtor ==> r == Err(MissingMethod)
  {
    if t.Class? then
      if t.hasDefaultCtor then Ok(ObjectV(t, DefaultFields(t.props))) else Err(MissingMethod)
    else if t == StringType || t == UriType then Err(MissingMethod)
    else if t == VersionType then
      assert ValidVersion(Version(0, 0, None, None));
      Ok(VersionV(Version(0, 0, None, None)))
    else Ok(DefaultValue(t))
  }

  /** The created instance is a value of the requested type. */
  lemma NewInstanceHasType(t: ClrType)
    requires WellFormed(t) && NewInstance(t).Ok?
    ensures HasType(NewInstance(t).value, t)
  {
    if t.Class? {
      assert ValidValue(NewInstance(t).value);
    } else if t == VersionType {
      assert NewInstance(t).value == VersionV(Version(0, 0, None, None));
    } else {
      assert NewInstance(t).value == DefaultValue(t);
    }
  }

  /** The scalar branch of ToObject: column 0 read through the provider as the
      underlying type, then cast to T (null into a non-nullable value type is a
      NullReferenceException, a value of another type an InvalidCastException);
      an empty record gives default(T). */
  function ReadScalar(t: ClrType, p: Provider, row: Row): (r: Result<Value>)
    ensures WellFormed(t) && r.Ok? ==> HasType(r.value, t)
  {
    if |row| == 0 then Ok(DefaultValue(t))
    else
      match p.readValue(UnderlyingType(t), row[0].value)
      case Err(err) => Err(err)
      case Ok(x) =>
        if HasType(x, t) then Ok(x)
        else if x.Null? then Err(NullReference)
        else Err(InvalidCast)
  }

  /** The instance of class t holding the assigned fields, or the assignment's error. */
  function WithFields(t: ClrType, outcome: Result<map<string, Value>>): Result<Value>
  {
    match outcome
    case Err(err) => Err(err)
    case Ok(f) => Ok(ObjectV(t, f))
  }

  /** The composite branch of ToObject: create the instance, index the columns
      (a repeated name fails), then assign the settable properties. */
  function ReadComposite(t: ClrType, table: seq<PropertyEntry>, ps: seq<Provider>, row: Row): (r: Result<Value>)
    requires WellFormed(t)
    ensures r.Ok? ==> HasType(r.value, t)
  {
    match NewInstance(t)
    case Err(err) => Err(err)
    case Ok(inst) =>
      NewInstanceHasType(t);
      match ColumnIndex(row)
      case Err(err) => Err(err)
      case Ok(index) =>
        if !inst.ObjectV? then Ok(inst)
        else
          WithFields(t, Assign(table, ReadOutcomes(table, ps, row, index), inst.fields))
  }

  /** Reflector.ToObject for a reflector built from t and ps. Whatever it returns
      is a value of the model type. */
  function Materialize(t: ClrType, ps: seq<Provider>, row: Row): (r: Result<Value>)
    requires WellFormed(t)
    ensures r.Ok? ==> HasType(r.value, t)
  {
    match FirstProvider(ps, UnderlyingType(t))
    case Some(p) => ReadScalar(t, p, row)
    case None => ReadComposite(t, PropertyTable(t), ps, row)
  }

  /** A column feeds a property when their names agree after upper-casing. */
  predicate Matches(c: Column, name: string)
  {
    UpperName(c) == ToUpperInvariant(name)
  }

  /** A property ToObject sets when a column matches it: it has a setter and a
      provider accepts its semantic type. */
  predicate Settable(p: Property, ps: seq<Provider>)
  {
    p.canWrite && FirstProvider(ps, UnderlyingType(p.declared)).Some?
  }

  /** What the first provider accepting t reads from a field value. */
  function ReadWith(ps: seq<Provider>, t: ClrType, v: Value): Result<Value>
    requires FirstProvider(ps, t).Some?
  {
    FirstProvider(ps, t).value.readValue(t, v)
  }

  /** A scalar reflector: an empty record gives default(T); otherwise column 0 read
      as T's underlying type, failing on a read error and on a value the cast to T
      rejects (null into a non-nullable value type, or a value of another type). */
  lemma MaterializeScalar(t: ClrType, ps: seq<Provider>, row: Row)
    requires WellFormed(t) && FirstProvider(ps, UnderlyingType(t)).Some?
    ensures |row| == 0 ==> Materialize(t, ps, row) == Ok(DefaultValue(t))
    ensures |row| > 0 ==>
      var x := ReadWith(ps, UnderlyingType(t), row[0].value);
      (Materialize(t, ps, row).Ok? <==> x.Ok? && HasType(x.value, t))
      && (Materialize(t, ps, row).Ok? ==> Materialize(t, ps, row).value == x.value)
      && (x.Ok? && x.value.Null? && IsValueType(t) && !t.Nullable? ==> Materialize(t, ps, row) == Err(NullReference))
  {
  }

  /** A successful read by a well-typed provider is null or of the property's
      declared type, so SetValue and the cast to T accept it. */
  lemma WellTypedReadFits(ps: seq<Provider>, t: ClrType, v: Value)
    requires WellFormed(t) && ValidValue(v)
    requires FirstProvider(ps, UnderlyingType(t)).Some? && WellTypedReads(FirstProvider(ps, UnderlyingType(t)).value)
    requires ReadWith(ps, UnderlyingType(t), v).Ok?
    ensures var x := ReadWith(ps, UnderlyingType(t), v).value; x.Null? || HasType(x, t)
  {
  }

  /** With a well-typed provider the cast to T fails only on null into a
      non-nullable value type. */
  lemma MaterializeScalarWellTyped(t: ClrType, ps: seq<Provider>, row: Row)
    requires WellFormed(t) && FirstProvider(ps, UnderlyingType(t)).Some?
    requires WellTypedReads(FirstProvider(ps, UnderlyingType(t)).value)
    requires |row| > 0 && ValidValue(row[0].value)
    ensures var x := ReadWith(ps, UnderlyingType(t), row[0].value);
      Materialize(t, ps, row).Ok? <==> x.Ok? && !(x.value.Null? && IsValueType(t) && !t.Nullable?)
  {
    MaterializeScalar(t, ps, row);
    if ReadWith(ps, UnderlyingType(t), row[0].value).Ok? {
      WellTypedReadFits(ps, t, row[0].value);
    }
  }

  /** A class no provider accepts cannot be materialized without a parameterless
      constructor, and with one it fails on a record whose column names repeat
      after upper-casing. */
  lemma MaterializeClassErrors(t: ClrType, ps: seq<Provider>, row: Row)
    requires WellFormed(t) && t.Class? && FirstProvider(ps, t).None?
    ensures !t.hasDefaultCtor ==> Materialize(t, ps, row) == Err(MissingMethod)
    ensures t.hasDefaultCtor && !DistinctUpperNames(row) ==> Materialize(t, ps, row) == Err(Argument(DuplicateKey))
  {
    ColumnIndexSpec(row);
  }

  /** For a property of a class, the assignment loop reads exactly when the
      property is settable and a column matches it, and it reads that column. */
  lemma OutcomeOfProperty(t: ClrType, ps: seq<Provider>, row: Row, i: nat)
    requires WellFormed(t) && t.Class? && i < |t.props| && ColumnIndex(row).Ok?
    ensures var e := PropertyTable(t)[i]; var index := ColumnIndex(row).value;
      e.prop == t.props[i]
      && (ReadOutcome(e, ps, row, index).Some? <==>
            Settable(t.props[i], ps) && exists j :: 0 <= j < |row| && Matches(row[j], t.props[i].name))
      && (forall j :: 0 <= j < |row| && Settable(t.props[i], ps) && Matches(row[j], t.props[i].name) ==>
            ReadOutcome(e, ps, row, index) == Some(CheckSettable(t.props[i], ReadWith(ps, UnderlyingType(t.props[i].declared), row[j].value))))
  {
    var index := ColumnIndex(row).value;
    ColumnIndexSpec(row);
    var key := ToUpperInvariant(t.props[i].name);
    if key in index {
      assert Matches(row[index[key]], t.props[i].name);
    }
  }

  /** For a class no provider accepts, with a parameterless constructor, and a
      record without repeated column names, ToObject is the assignment loop over
      the default instance. */
  lemma MaterializeClassAssigns(t: ClrType, ps: seq<Provider>, row: Row)
    requires WellFormed(t) && t.Class? && FirstProvider(ps, t).None? && t.hasDefaultCtor && DistinctUpperNames(row)
    ensures ColumnIndex(row).Ok?
    ensures Materialize(t, ps, row) ==
      WithFields(t, Assign(PropertyTable(t), ReadOutcomes(PropertyTable(t), ps, row, ColumnIndex(row).value), DefaultFields(t.props)))
  {
    ColumnIndexSpec(row);
  }

  /** A column-matched settable property is set when its read succeeds and
      SetValue accepts what was read. */
  predicate ReadFits(p: Property, ps: seq<Provider>, c: Column)
    requires FirstProvider(ps, UnderlyingType(p.declared)).Some?
  {
    CheckSettable(p, ReadWith(ps, UnderlyingType(p.declared), c.value)).Ok?
  }

  /** Such a materialization succeeds exactly when every read it performs succeeds
      and is accepted by SetValue. */
  lemma MaterializeClassSucceeds(t: ClrType, ps: seq<Provider>, row: Row)
    requires WellFormed(t) && t.Class? && FirstProvider(ps, t).None? && t.hasDefaultCtor && DistinctUpperNames(row)
    ensures Materialize(t, ps, row).Ok? <==>
      forall i, j :: 0 <= i < |t.props| && 0 <= j < |row| && Settable(t.props[i], ps) && Matches(row[j], t.props[i].name) ==>
        ReadFits(t.props[i], ps, row[j])
  {
    MaterializeClassAssigns(t, ps, row);
    var table := PropertyTable(t);
    var outs := ReadOutcomes(table, ps, row, ColumnIndex(row).value);
    AssignSucceeds(table, outs, DefaultFields(t.props));
    forall i | 0 <= i < |table|
      ensures outs[i].Some? <==> Settable(t.props[i], ps) && exists j :: 0 <= j < |row| && Matches(row[j], t.props[i].name)
      ensures forall j :: 0 <= j < |row| && Settable(t.props[i], ps) && Matches(row[j], t.props[i].name) ==>
                outs[i] == Some(CheckSettable(t.props[i], ReadWith(ps, UnderlyingType(t.props[i].declared), row[j].value)))
    {
      OutcomeOfProperty(t, ps, row, i);
    }
  }

  /** With well-typed providers SetValue accepts every read, so such a
      materialization succeeds exactly when every read it performs succeeds. */
  lemma MaterializeClassSucceedsWellTyped(t: ClrType, ps: seq<Provider>, row: Row)
    requires WellFormed(t) && t.Class? && FirstProvider(ps, t).None? && t.hasDefaultCtor && DistinctUpperNames(row)
    requires (forall k :: 0 <= k < |ps| ==> WellTypedReads(ps[k])) && (forall j :: 0 <= j < |row| ==> ValidValue(row[j].value))
    ensures Materialize(t, ps, row).Ok? <==>
      forall i, j :: 0 <= i < |t.props| && 0 <= j < |row| && Settable(t.props[i], ps) && Matches(row[j], t.props[i].name) ==>
        ReadWith(ps, UnderlyingType(t.props[i].declared), row[j].value).Ok?
  {
    MaterializeClassSucceeds(t, ps, row);
    forall i, j | 0 <= i < |t.props| && 0 <= j < |row| && Settable(t.props[i], ps) && Matches(row[j], t.props[i].name)
      ensures ReadFits(t.props[i], ps, row[j]) <==> ReadWith(ps, UnderlyingType(t.props[i].declared), row[j].value).Ok?
    {
      assert WellFormed(t.props[i].declared);
      if ReadWith(ps, UnderlyingType(t.props[i].declared), row[j].value).Ok? {
        WellTypedReadFits(ps, t.props[i].declared, row[j].value);
      }
    }
  }

  /** The fields a successful class materialization assigns, before they are wrapped. */
  function ClassFields(t: ClrType, ps: seq<Provider>, row: Row): Result<map<string, Value>>
    requires WellFormed(t) && t.Class? && t.hasDefaultCtor && DistinctUpperNames(row)
  {
    ColumnIndexSpec(row);
    Assign(PropertyTable(t), ReadOutcomes(PropertyTable(t), ps, row, ColumnIndex(row).value), DefaultFields(t.props))
  }

  lemma ColumnIndexOk(row: Row)
    requires DistinctUpperNames(row)
    ensures ColumnIndex(row).Ok?
  {
    ColumnIndexSpec(row);
  }

  lemma TableNamesHaveDefaults(t: ClrType)
    requires WellFormed(t) && t.Class?
    ensures forall i :: 0 <= i < |PropertyTable(t)| ==> PropertyTable(t)[i].prop.name in DefaultFields(t.props)
  {
    var table := PropertyTable(t);
    forall i | 0 <= i < |table|
      ensures table[i].prop.name in DefaultFields(t.props)
    {
      assert table[i].prop == t.props[i];
    }
  }

  /** The assigned fields are exactly the class's property names. */
  lemma ClassFieldsKeys(t: ClrType, ps: seq<Provider>, row: Row)
    requires WellFormed(t) && t.Class? && t.hasDefaultCtor && DistinctUpperNames(row)
    requires ClassFields(t, ps, row).Ok?
    ensures forall k :: k in ClassFields(t, ps, row).value <==> exists i :: 0 <= i < |t.props| && t.props[i].name == k
  {
    ColumnIndexOk(row);
    var table := PropertyTable(t);
    var fields := DefaultFields(t.props);
    TableNamesHaveDefaults(t);
    AssignKeys(table, ReadOutcomes(table, ps, row, ColumnIndex(row).value), fields);
    assert ClassFields(t, ps, row).value.Keys == fields.Keys;
  }

  /** A settable property matched by column j holds what the provider read from
      that column, null read as the property's default. */
  lemma ClassFieldsMatchedAt(t: ClrType, ps: seq<Provider>, row: Row, i: nat, j: nat)
    requires WellFormed(t) && t.Class? && t.hasDefaultCtor && DistinctUpperNames(row)
    requires ClassFields(t, ps, row).Ok?
    requires i < |t.props| && j < |row| && Settable(t.props[i], ps) && Matches(row[j], t.props[i].name)
    ensures ReadFits(t.props[i], ps, row[j])
    ensures var f := ClassFields(t, ps, row).value;
      t.props[i].name in f
      && f[t.props[i].name] == SetValue(t.props[i], ReadWith(ps, UnderlyingType(t.props[i].declared), row[j].value).value)
  {
    ColumnIndexOk(row);
    var table := PropertyTable(t);
    var outs := ReadOutcomes(table, ps, row, ColumnIndex(row).value);
    OutcomeOfProperty(t, ps, row, i);
    AssignSets(table, outs, DefaultFields(t.props), i);
  }

  /** No entry of the table reads a property that is not settable or not matched. */
  lemma UnmatchedNotRead(t: ClrType, ps: seq<Provider>, row: Row, i: nat)
    requires WellFormed(t) && t.Class? && ColumnIndex(row).Ok?
    requires i < |t.props| && (!Settable(t.props[i], ps) || forall j :: 0 <= j < |row| ==> !Matches(row[j], t.props[i].name))
    ensures var table := PropertyTable(t); var outs := ReadOutcomes(table, ps, row, ColumnIndex(row).value);
      forall i' :: 0 <= i' < |table| && table[i'].prop.name == t.props[i].name ==> outs[i'].None?
  {
    var table := PropertyTable(t);
    OutcomeOfProperty(t, ps, row, i);
    forall i' | 0 <= i' < |table| && table[i'].prop.name == t.props[i].name
      ensures i' == i
    {
      assert table[i'].prop == t.props[i'];
    }
  }

  /** A property that is not settable, or that no column matches, keeps its default value. */
  lemma ClassFieldsUnmatchedAt(t: ClrType, ps: seq<Provider>, row: Row, i: nat)
    requires WellFormed(t) && t.Class? && t.hasDefaultCtor && DistinctUpperNames(row)
    requires ClassFields(t, ps, row).Ok?
    requires i < |t.props| && (!Settable(t.props[i], ps) || forall j :: 0 <= j < |row| ==> !Matches(row[j], t.props[i].name))
    ensures var f := ClassFields(t, ps, row).value;
      t.props[i].name in f && f[t.props[i].name] == DefaultValue(t.props[i].declared)
  {
    ColumnIndexOk(row);
    var table := PropertyTable(t);
    var outs := ReadOutcomes(table, ps, row, ColumnIndex(row).value);
    UnmatchedNotRead(t, ps, row, i);
    AssignKeeps(table, outs, DefaultFields(t.props), t.props[i].name);
  }

  /** The materialized instance has one field per property of the class, and a
      settable property matched by a column holds what the provider read from that
      column (null read as the property's default). */
  lemma MaterializeClassMatched(t: ClrType, ps: seq<Provider>, row: Row)
    requires WellFormed(t) && t.Class? && FirstProvider(ps, t).None? && t.hasDefaultCtor && DistinctUpperNames(row)
    requires Materialize(t, ps, row).Ok?
    ensures var r := Materialize(t, ps, row).value;
      r.ObjectV? && r.typ == t
      && (forall k :: k in r.fields <==> exists i :: 0 <= i < |t.props| && t.props[i].name == k)
      && (forall i, j :: 0 <= i < |t.props| && 0 <= j < |row| && Settable(t.props[i], ps) && Matches(row[j], t.props[i].name) ==>
            ReadFits(t.props[i], ps, row[j])
            && r.fields[t.props[i].name] == SetValue(t.props[i], ReadWith(ps, UnderlyingType(t.props[i].declared), row[j].value).value))
  {
    MaterializeClassAssigns(t, ps, row);
    assert Materialize(t, ps, row) == WithFields(t, ClassFields(t, ps, row));
    var f := ClassFields(t, ps, row).value;
    ClassFieldsKeys(t, ps, row);
    forall i, j | 0 <= i < |t.props| && 0 <= j < |row| && Settable(t.props[i], ps) && Matches(row[j], t.props[i].name)
      ensures ReadFits(t.props[i], ps, row[j])
      ensures f[t.props[i].name] == SetValue(t.props[i], ReadWith(ps, UnderlyingType(t.props[i].declared), row[j].value).value)
    {
      ClassFieldsMatchedAt(t, ps, row, i, j);
    }
  }

  /** Every property of the materialized instance that is not settable, or that no
      column matches, keeps its default value. */
  lemma MaterializeClassUnmatched(t: ClrType, ps: seq<Provider>, row: Row)
    requires WellFormed(t) && t.Class? && FirstProvider(ps, t).None? && t.hasDefaultCtor && DistinctUpperNames(row)
    requires Materialize(t, ps, row).Ok?
    ensures var r := Materialize(t, ps, row).value;
      r.ObjectV?
      && (forall i :: 0 <= i < |t.props| && (!Settable(t.props[i], ps) || forall j :: 0 <= j < |row| ==> !Matches(row[j], t.props[i].name)) ==>
            t.props[i].name in r.fields && r.fields[t.props[i].name] == DefaultValue(t.props[i].declared))
  {
    MaterializeClassAssigns(t, ps, row);
    assert Materialize(t, ps, row) == WithFields(t, ClassFields(t, ps, row));
    var f := ClassFields(t, ps, row).value;
    forall i | 0 <= i < |t.props| && (!Settable(t.props[i], ps) || forall j :: 0 <= j < |row| ==> !Matches(row[j], t.props[i].name))
      ensures t.props[i].name in f && f[t.props[i].name] == DefaultValue(t.props[i].declared)
    {
      ClassFieldsUnmatchedAt(t, ps, row, i);
    }
  }

  /** Each assigned field holds a value of its property's declared type. */
  lemma ClassFieldTyped(t: ClrType, ps: seq<Provider>, row: Row, i: nat)
    requires WellFormed(t) && t.Class? && t.hasDefaultCtor && DistinctUpperNames(row)
    requires ClassFields(t, ps, row).Ok? && i < |t.props|
    ensures var f := ClassFields(t, ps, row).value;
      t.props[i].name in f && HasType(f[t.props[i].name], t.props[i].declared)
  {
    var p := t.props[i];
    assert WellFormed(p.declared);
    if Settable(p, ps) && exists j :: 0 <= j < |row| && Matches(row[j], p.name) {
      var j :| 0 <= j < |row| && Matches(row[j], p.name);
      ClassFieldsMatchedAt(t, ps, row, i, j);
      var x := ReadWith(ps, UnderlyingType(p.declared), row[j].value).value;
      assert x.Null? || HasType(x, p.declared);
    } else {
      ClassFieldsUnmatchedAt(t, ps, row, i);
    }
  }

  /** Every field of a materialized class instance holds a value of its property's
      declared type. */
  lemma MaterializeFieldsTyped(t: ClrType, ps: seq<Provider>, row: Row)
    requires WellFormed(t) && t.Class? && FirstProvider(ps, t).None?
    requires Materialize(t, ps, row).Ok?
    ensures var r := Materialize(t, ps, row).value;
      r.ObjectV? && r.typ == t
      && forall i :: 0 <= i < |t.props| ==> t.props[i].name in r.fields && HasType(r.fields[t.props[i].name], t.props[i].declared)
  {
    MaterializeClassErrors(t, ps, row);
    MaterializeClassAssigns(t, ps, row);
    assert Materialize(t, ps, row) == WithFields(t, ClassFields(t, ps, row));
    var f := ClassFields(t, ps, row).value;
    forall i | 0 <= i < |t.props|
      ensures t.props[i].name in f && HasType(f[t.props[i].name], t.props[i].declared)
    {
      ClassFieldTyped(t, ps, row, i);
    }
  }

  // ---------------------------------------------------------------------------
  // The Reflector object

  /** The property table a reflector for t keeps: none for a scalar model. */
  function TableFor(t: ClrType, ps: seq<Provider>): (r: Option<seq<PropertyEntry>>)
    ensures r.None? <==> FirstProvider(ps, UnderlyingType(t)).Some?
    ensures r.Some? ==> r.value == PropertyTable(t)
  {
    if FirstProvider(ps, UnderlyingType(t)).Some? then None else Some(PropertyTable(t))
  }

  /** A Reflector: the model type, the registered providers, and either the
      provider for the model's semantic type (a scalar model) or the property
      table (a composite model). */
  class Reflector {
    const modelType: ClrType
    const valueProviders: seq<Provider>
    const valueTypeProvider: Option<Provider>
    const isValueType: bool
    const typeProperties: Option<seq<PropertyEntry>>

    ghost predicate Valid()
    {
      WellFormed(modelType)
      && valueTypeProvider == FirstProvider(valueProviders, UnderlyingType(modelType))
      && isValueType == valueTypeProvider.Some?
      && typeProperties == TableFor(modelType, valueProviders)
    }

    /** The constructor past its null checks: a scalar model keeps its provider,
        a composite one its property table. */
    constructor (t: ClrType, providers: seq<Provider>)
      requires WellFormed(t)
      ensures Valid() && modelType == t && valueProviders == providers
      ensures isValueType <==> FirstProvider(providers, UnderlyingType(t)).Some?
    {
      modelType := t;
      valueProviders := providers;
      var provider := FirstProvider(providers, UnderlyingType(t));
      valueTypeProvider := provider;
      if provider.Some? {
        isValueType := true;
        typeProperties := None;
      } else {
        isValueType := false;
        var table := GetProperties(t);
        typeProperties := Some(table);
      }
    }

    /** new Reflector(type, valueProviders), including its null checks. */
    static method New(t: Option<ClrType>, providers: Option<seq<Provider>>) returns (r: Result<Reflector>)
      requires t.Some? ==> WellFormed(t.value)
      ensures t.None? ==> r == Err(ArgumentNull("type"))
      ensures t.Some? && providers.None? ==> r == Err(ArgumentNull("valueProviders"))
      ensures t.Some? && providers.Some? ==>
        r.Ok? && fresh(r.value) && r.value.Valid() && r.value.modelType == t.value && r.value.valueProviders == providers.value
    {
      if t.None? {
        return Err(ArgumentNull("type"));
      }
      if providers.None? {
        return Err(ArgumentNull("valueProviders"));
      }
      var reflector := new Reflector(t.value, providers.value);
      return Ok(reflector);
    }

    /** GetProperties: one entry per property of Props(t), in the order reflection returns them. */
    static method GetProperties(t: ClrType) returns (table: seq<PropertyEntry>)
      ensures table == PropertyTable(t)
    {
      var props := Props(t);
      table := [];
      var i := 0;
      while i < |props|
        invariant 0 <= i <= |props|
        invariant table == PropertyTable(t)[..i]
      {
        table := table + [PropertyEntry(props[i], UnderlyingType(props[i].declared))];
        i := i + 1;
      }
    }

    /** ToObject: a scalar model reads column 0; a composite model creates the
        instance, indexes the columns by upper-cased name and assigns every
        settable property that a provider accepts and a column matches. */
    method ToObject(row: Row) returns (r: Result<Value>)
      requires Valid()
      ensures r == Materialize(modelType, valueProviders, row)
    {
      if isValueType {
        if |row| > 0 {
          var read := valueTypeProvider.value.readValue(UnderlyingType(modelType), row[0].value);
          if read.Err? {
            r := Err(read.error);
          } else if HasType(read.value, modelType) {
            r := Ok(read.value);
          } else if read.value.Null? {
            r := Err(NullReference);
          } else {
            r := Err(InvalidCast);
          }
        } else {
          r := Ok(DefaultValue(modelType));
        }
        return;
      }
      var created := NewInstance(modelType);
      if created.Err? {
        return Err(created.error);
      }
      var index := IndexColumns(row);
      if index.Err? {
        return Err(index.error);
      }
      var instance := created.value;
      if !instance.ObjectV? {
        return Ok(instance);
      }
      var fields := AssignProperties(typeProperties.value, row, index.value, instance.fields);
      r := WithFields(modelType, fields);
    }

    /** The column dictionary: each upper-cased column name added with its position. */
    static method IndexColumns(row: Row) returns (r: Result<map<string, nat>>)
      ensures r == ColumnIndex(row)
    {
      ghost var keys := ColumnKeys(row);
      var index: map<string, nat> := map[];
      var i := 0;
      while i < |row|
        invariant 0 <= i <= |row|
        invariant IndexKeys(keys[..i]) == Ok(index)
      {
        var key := ToUpperInvariant(row[i].name);
        assert keys[..i + 1][..i] == keys[..i] && keys[i] == key;
        if key in index {
          IndexKeysPrefixErr(keys, i + 1);
          return Err(Argument(DuplicateKey));
        }
        index := index[key := i];
        i := i + 1;
      }
      assert keys[..i] == keys;
      return Ok(index);
    }

    /** The assignment loop over the settable properties. */
    method AssignProperties(table: seq<PropertyEntry>, row: Row, index: map<string, nat>, start: map<string, Value>)
      returns (r: Result<map<string, Value>>)
      requires forall k :: k in index ==> index[k] < |row|
      ensures r == Assign(table, ReadOutcomes(table, valueProviders, row, index), start)
    {
      ghost var outs := ReadOutcomes(table, valueProviders, row, index);
      var fields := start;
      var k := 0;
      while k < |table|
        invariant 0 <= k <= |table|
        invariant Assign(table[..k], outs[..k], start) == Ok(fields)
      {
        var e := table[k];
        assert table[..k + 1][..k] == table[..k] && outs[..k + 1][..k] == outs[..k];
        if e.prop.canWrite {
          var provider := FirstProvider(valueProviders, e.semantic);
          if provider.Some? {
            var key := ToUpperInvariant(e.prop.name);
            if key in index {
              var read := provider.value.readValue(e.semantic, row[index[key]].value);
              var checked := CheckSettable(e.prop, read);
              if checked.Err? {
                AssignPrefixErr(table, outs, start, k + 1);
                return Err(checked.error);
              }
              fields := fields[e.prop.name := SetValue(e.prop, checked.value)];
            }
          }
        }
        k := k + 1;
      }
      assert table[..k] == table && outs[..k] == outs;
      return Ok(fields);
    }

    /** CreateCommand: the argument checks, then a command with the text, type and
        transaction, and one parameter per property a provider accepts. */
    method CreateCommand(sql: Option<string>, model: Value, connection: Option<Connection>,
                         commandType: CommandType, transaction: Option<Transaction>) returns (r: Result<Command>)
      requires Valid() && (!model.Null? ==> RuntimeType(model) == modelType)
      ensures var expected := CommandFor(typeProperties, valueProviders, sql, model, connection, commandType, transaction);
        (r.Err? <==> expected.Err?)
        && (r.Err? ==> r.error == expected.error)
        && (r.Ok? ==> fresh(r.value) && r.value.Data() == expected.value)
    {
      if connection.None? {
        return Err(ArgumentNull("connection"));
      }
      if model.Null? {
        return Err(ArgumentNull("model"));
      }
      if sql.None? || sql.value == "" {
        return Err(ArgumentNull("sql"));
      }
      var command := new Command();
      command.text := sql;
      command.commandType := commandType;
      if transaction.Some? {
        command.transaction := transaction;
      }
      if typeProperties.None? {
        return Err(NullReference);
      }
      var outcome := BindProperties(command, typeProperties.value, ModelFields(model));
      if outcome.Err? {
        return Err(outcome.error);
      }
      return Ok(command);
    }

    /** The parameter loop of CreateCommand: one parameter per table entry that a
        provider accepts, appended to the command in table order. */
    method BindProperties(command: Command, table: seq<PropertyEntry>, fields: map<string, Value>) returns (r: Result<()>)
      requires command.parameters == []
      modifies command
      ensures command.text == old(command.text) && command.commandType == old(command.commandType)
      ensures command.transaction == old(command.transaction)
      ensures r.Err? <==> BindParameters(table, valueProviders, fields).Err?
      ensures r.Err? ==> r.error == BindParameters(table, valueProviders, fields).error
      ensures r.Ok? ==> command.parameters == BindParameters(table, valueProviders, fields).value
    {
      var k := 0;
      while k < |table|
        invariant 0 <= k <= |table|
        invariant command.text == old(command.text) && command.commandType == old(command.commandType)
        invariant command.transaction == old(command.transaction)
        invariant BindParameters(table[..k], valueProviders, fields) == Ok(command.parameters)
      {
        var e := table[k];
        BindStep(table, valueProviders, fields, k);
        var provider := FirstProvider(valueProviders, e.semantic);
        if provider.Some? {
          var v := PropertyValue(e.prop, fields);
          if v.Err? {
            BindParametersPrefixErr(table, valueProviders, fields, k + 1);
            return Err(v.error);
          }
          var w := provider.value.writeValue(e.semantic, v.value);
          if w.Err? {
            BindParametersPrefixErr(table, valueProviders, fields, k + 1);
            return Err(w.error);
          }
          command.AddParameter(Parameter("@" + e.prop.name, w.value));
        }
        k := k + 1;
      }
      assert table[..k] == table;
      return Ok(());
    }
  }
}
