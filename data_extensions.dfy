/** Source/ADOMore/DataExtensions.cs: the public extension methods over a
    connection and a data record, and the process-wide reflector cache. */
module Data {
  import opened Outcomes
  import opened ClrTypes
  import opened Values
  import opened ValueProviders
  import opened Driver
  import opened Reflection

  /** The providers the library registers. */
  const StandardProviders: seq<Provider> := [ValueProvider]

  /** The library's provider is the only one registered, so a type is scalar
      exactly when it is bindable, and reads through the registration are ValueProvider.ReadValue. */
  lemma StandardSelection(t: ClrType)
    ensures FirstProvider(StandardProviders, t).Some? <==> !t.Class?
    ensures FirstProvider(StandardProviders, t).Some? ==> forall v :: ReadWith(StandardProviders, t, v) == Read(t, v)
  {
    FirstProviderOfStandard(t);
    ProvidesExactlyScalars(t);
  }

  /** The library's provider meets what the engine relies on from reads. */
  lemma StandardProvidersWellTyped()
    ensures forall k :: 0 <= k < |StandardProviders| ==> WellTypedReads(StandardProviders[k])
  {
    ValueProviderWellTyped();
  }

  /** ToObject<T> of a record for a bindable T: ValueProvider.ReadValue of column 0,
      failing only on a read error or on null into a non-nullable value type. */
  lemma StandardScalar(t: ClrType, row: Row)
    requires WellFormed(t) && !UnderlyingType(t).Class? && |row| > 0 && ValidValue(row[0].value)
    ensures var x := Read(UnderlyingType(t), row[0].value);
      (Materialize(t, StandardProviders, row).Ok? <==> x.Ok? && !(x.value.Null? && IsValueType(t) && !t.Nullable?))
      && (Materialize(t, StandardProviders, row).Ok? ==> Materialize(t, StandardProviders, row).value == x.value)
  {
    StandardSelection(UnderlyingType(t));
    StandardProvidersWellTyped();
    MaterializeScalar(t, StandardProviders, row);
    MaterializeScalarWellTyped(t, StandardProviders, row);
  }

  /** ToObject<T> of a record for a class T with a parameterless constructor and
      no repeated column names succeeds exactly when ValueProvider.ReadValue
      succeeds for every writable, bindable property and its matching column. */
  lemma StandardClassSucceeds(t: ClrType, row: Row)
    requires WellFormed(t) && t.Class? && t.hasDefaultCtor && DistinctUpperNames(row)
    requires forall j :: 0 <= j < |row| ==> ValidValue(row[j].value)
    ensures Materialize(t, StandardProviders, row).Ok? <==>
      forall i, j :: 0 <= i < |t.props| && 0 <= j < |row| && t.props[i].canWrite && !UnderlyingType(t.props[i].declared).Class?
                     && Matches(row[j], t.props[i].name) ==>
        Read(UnderlyingType(t.props[i].declared), row[j].value).Ok?
  {
    StandardSelection(t);
    StandardProvidersWellTyped();
    MaterializeClassSucceedsWellTyped(t, StandardProviders, row);
    forall i | 0 <= i < |t.props|
      ensures Settable(t.props[i], StandardProviders) <==> t.props[i].canWrite && !UnderlyingType(t.props[i].declared).Class?
      ensures Settable(t.props[i], StandardProviders) ==>
        forall v :: ReadWith(StandardProviders, UnderlyingType(t.props[i].declared), v) == Read(UnderlyingType(t.props[i].declared), v)
    {
      StandardSelection(UnderlyingType(t.props[i].declared));
    }
  }

  /** The command CreateCommand(connection, sql, parameters, transaction) builds:
      without parameters, a plain text command (calling CreateCommand on a null
      connection is a NullReferenceException); with parameters, the reflector for
      the parameters' runtime type binds them as one model. */
  function CommandOf(ps: seq<Provider>, connection: Option<Connection>, sql: Option<string>, parameters: Value,
                     transaction: Option<Transaction>): (r: Result<CommandData>)
    ensures r.Ok? ==> connection.Some? && r.value.text == sql && r.value.commandType == Text && r.value.transaction == transaction
    ensures parameters.Null? ==> (r.Ok? <==> connection.Some?) && (r.Ok? ==> r.value.parameters == [])
  {
    if parameters.Null? then
      if connection.None? then Err(NullReference)
      else Ok(CommandData(sql, Text, transaction, []))
    else
      var t := RuntimeType(parameters);
      CommandFor(TableFor(t, ps), ps, sql, parameters, connection, Text, transaction)
  }

  /** Without parameters nothing is validated: any sql, even none or empty, gives
      a text command with that sql, the transaction and no parameters. With
      parameters, a missing or empty sql is rejected. */
  lemma SqlCheckedOnlyWithParameters(connection: Connection, sql: Option<string>, parameters: Value, transaction: Option<Transaction>)
    ensures parameters.Null? ==>
      CommandOf(StandardProviders, Some(connection), sql, parameters, transaction) == Ok(CommandData(sql, Text, transaction, []))
    ensures !parameters.Null? && (sql.None? || sql == Some("")) ==>
      CommandOf(StandardProviders, Some(connection), sql, parameters, transaction) == Err(ArgumentNull("sql"))
  {
  }

  /** A parameters object of a bindable (scalar) type has no property table, so
      CreateCommand fails with a NullReferenceException once the checks pass. */
  lemma ScalarParametersFail(connection: Connection, sql: string, parameters: Value, transaction: Option<Transaction>)
    requires !parameters.Null? && sql != "" && Provides(UnderlyingType(RuntimeType(parameters)))
    ensures CommandOf(StandardProviders, Some(connection), Some(sql), parameters, transaction) == Err(NullReference)
  {
    FirstProviderOfStandard(UnderlyingType(RuntimeType(parameters)));
  }

  /** A parameters object of a class type is bound as a single model: one
      parameter per property the value provider accepts, in property order. */
  lemma ClassParametersBind(connection: Connection, sql: string, parameters: Value, transaction: Option<Transaction>)
    requires !parameters.Null? && sql != "" && RuntimeType(parameters).Class?
    ensures var t := RuntimeType(parameters);
      var bound := BindParameters(PropertyTable(t), StandardProviders, ModelFields(parameters));
      var r := CommandOf(StandardProviders, Some(connection), Some(sql), parameters, transaction);
      (r.Ok? <==> bound.Ok?)
      && (r.Ok? ==> r.value == CommandData(Some(sql), Text, transaction, bound.value))
  {
    var t := RuntimeType(parameters);
    ProvidesExactlyScalars(UnderlyingType(t));
    FirstProviderOfStandard(UnderlyingType(t));
  }

  /** What Query yields when enumerated to the end: the items produced before the
      first failure, and that failure, if any. */
  datatype Stream<T> = Stream(items: seq<T>, failure: Option<Error>)

  /** Enumerating results in order, stopping at the first failure. */
  function Collect<T>(results: seq<Result<T>>): Stream<T>
    decreases |results|
  {
    if |results| == 0 then Stream([], None)
    else
      var prefix := Collect(results[..|results| - 1]);
      if prefix.failure.Some? then prefix
      else
        match results[|results| - 1]
        case Err(err) => Stream(prefix.items, Some(err))
        case Ok(x) => Stream(prefix.items + [x], None)
  }

  lemma CollectPrefixFailure<T>(results: seq<Result<T>>, n: nat)
    requires n <= |results|
    requires Collect(results[..n]).failure.Some?
    ensures Collect(results) == Collect(results[..n])
    decreases |results| - n
  {
    if n < |results| {
      var shorter := results[..|results| - 1];
      assert shorter[..n] == results[..n];
      CollectPrefixFailure(shorter, n);
    } else {
      assert results[..n] == results;
    }
  }

  /** One more result: a success extends the items, a failure ends the enumeration. */
  lemma CollectStep<T>(results: seq<Result<T>>, i: nat, items: seq<T>)
    requires i < |results| && Collect(results[..i]) == Stream(items, None)
    ensures results[i].Ok? ==> Collect(results[..i + 1]) == Stream(items + [results[i].value], None)
    ensures results[i].Err? ==> Collect(results) == Stream(items, Some(results[i].error))
  {
    assert results[..i + 1][..i] == results[..i];
    if results[i].Err? {
      CollectPrefixFailure(results, i + 1);
    }
  }

  /** The enumeration yields the successful results in order, up to the first
      failure, which it then reports. */
  lemma {:induction false} CollectContents<T>(results: seq<Result<T>>)
    ensures var s := Collect(results);
      |s.items| <= |results|
      && (forall i :: 0 <= i < |s.items| ==> results[i] == Ok(s.items[i]))
      && (s.failure.None? ==> |s.items| == |results|)
      && (s.failure.Some? ==> |s.items| < |results| && results[|s.items|] == Err(s.failure.value))
    decreases |results|
  {
    if |results| > 0 {
      var n := |results| - 1;
      CollectContents(results[..n]);
      assert forall i :: 0 <= i < n ==> results[..n][i] == results[i];
    }
  }

  /** The enumeration completes exactly when every result is a success. */
  lemma {:induction false} CollectSucceeds<T>(results: seq<Result<T>>)
    ensures Collect(results).failure.None? <==> forall i :: 0 <= i < |results| ==> results[i].Ok?
    decreases |results|
  {
    if |results| > 0 {
      var n := |results| - 1;
      CollectSucceeds(results[..n]);
      assert forall i :: 0 <= i < n ==> results[..n][i] == results[i];
    }
  }

  /** ToObject of each row, in row order. */
  function RowResults(t: ClrType, ps: seq<Provider>, rows: seq<Row>): (r: seq<Result<Value>>)
    requires WellFormed(t)
    ensures |r| == |rows|
  {
    seq(|rows|, i requires 0 <= i < |rows| => Materialize(t, ps, rows[i]))
  }

  /** ToObject over the rows in order, stopping at the first row that fails. Every
      object yielded is a value of the model type. */
  function MaterializeRows(t: ClrType, ps: seq<Provider>, rows: seq<Row>): (s: Stream<Value>)
    requires WellFormed(t)
    ensures forall i :: 0 <= i < |s.items| ==> HasType(s.items[i], t)
  {
    CollectContents(RowResults(t, ps, rows));
    Collect(RowResults(t, ps, rows))
  }

  /** Query yields one object per row, in row order, each the ToObject of its row;
      zero rows yield nothing; when a row fails, the objects of the rows before it
      have been yielded and the enumeration ends with that row's error. */
  lemma MaterializeRowsContents(t: ClrType, ps: seq<Provider>, rows: seq<Row>)
    requires WellFormed(t)
    ensures var s := MaterializeRows(t, ps, rows);
      |s.items| <= |rows|
      && (forall i :: 0 <= i < |s.items| ==> Materialize(t, ps, rows[i]) == Ok(s.items[i]))
      && (s.failure.None? <==> forall i :: 0 <= i < |rows| ==> Materialize(t, ps, rows[i]).Ok?)
      && (s.failure.None? ==> |s.items| == |rows|)
      && (s.failure.Some? ==> |s.items| < |rows| && Materialize(t, ps, rows[|s.items|]) == Err(s.failure.value))
  {
    CollectContents(RowResults(t, ps, rows));
    CollectSucceeds(RowResults(t, ps, rows));
  }

  /** What Query(connection, sql, parameters, transaction) yields for model type t:
      the command's failure, or the rows of the reader materialized in order. */
  function QueryOf(t: ClrType, ps: seq<Provider>, connection: Option<Connection>, sql: Option<string>, parameters: Value,
                   transaction: Option<Transaction>): (s: Stream<Value>)
    requires WellFormed(t)
    ensures forall i :: 0 <= i < |s.items| ==> HasType(s.items[i], t)
    ensures |s.items| > 0 ==> CommandOf(ps, connection, sql, parameters, transaction).Ok?
  {
    match CommandOf(ps, connection, sql, parameters, transaction)
    case Err(err) => Stream([], Some(err))
    case Ok(command) => MaterializeRows(t, ps, connection.value.reader(command))
  }

  /** The type whose reflector CreateCommand looks up: the parameters object's, if any. */
  function ParameterTypes(parameters: Value): set<ClrType>
  {
    if parameters.Null? then {} else {RuntimeType(parameters)}
  }

  /** The types whose reflectors Query looks up: the parameters object's, and the
      model type once the reader yields a row. */
  function QueryTypes(t: ClrType, ps: seq<Provider>, connection: Option<Connection>, sql: Option<string>, parameters: Value,
                      transaction: Option<Transaction>): set<ClrType>
  {
    ParameterTypes(parameters)
      + match CommandOf(ps, connection, sql, parameters, transaction)
        case Ok(command) => if |connection.value.reader(command)| > 0 then {t} else {}
        case Err(_) => {}
  }

  /** Query when the command cannot be built: no items, that error, and only the parameters' type looked up. */
  lemma QueryFails(t: ClrType, ps: seq<Provider>, connection: Option<Connection>, sql: Option<string>, parameters: Value,
                   transaction: Option<Transaction>)
    requires WellFormed(t) && CommandOf(ps, connection, sql, parameters, transaction).Err?
    ensures QueryOf(t, ps, connection, sql, parameters, transaction) == Stream([], Some(CommandOf(ps, connection, sql, parameters, transaction).error))
    ensures QueryTypes(t, ps, connection, sql, parameters, transaction) == ParameterTypes(parameters)
  {
  }

  /** Query once the command is built: the rows the reader yields for it, materialized. */
  lemma QueryRuns(t: ClrType, ps: seq<Provider>, connection: Option<Connection>, sql: Option<string>, parameters: Value,
                  transaction: Option<Transaction>, command: CommandData)
    requires WellFormed(t) && CommandOf(ps, connection, sql, parameters, transaction) == Ok(command)
    ensures var rows := connection.value.reader(command);
      QueryOf(t, ps, connection, sql, parameters, transaction) == MaterializeRows(t, ps, rows)
      && QueryTypes(t, ps, connection, sql, parameters, transaction) == ParameterTypes(parameters) + if |rows| == 0 then {} else {t}
  {
  }

  /** A cache after an operation: every earlier entry is kept as it was, and
      entries exist for exactly the types in added besides. */
  predicate Grown(before: map<ClrType, Reflector>, after: map<ClrType, Reflector>, added: set<ClrType>)
  {
    after.Keys == before.Keys + added && forall u :: u in before ==> after[u] == before[u]
  }

  lemma GrownTrans(a: map<ClrType, Reflector>, b: map<ClrType, Reflector>, c: map<ClrType, Reflector>, x: set<ClrType>, y: set<ClrType>)
    requires Grown(a, b, x) && Grown(b, c, y)
    ensures Grown(a, c, x + y)
  {
  }

  /** The static state of DataExtensions: the registered providers and the
      reflector cache, keyed by type. */
  class DataExtensions {
    var cache: map<ClrType, Reflector>
    const valueProviders: seq<Provider>

    /** Every cached reflector was built for its key with the registered providers. */
    ghost predicate Valid()
      reads this
    {
      forall t :: t in cache ==>
           cache[t].Valid() && cache[t].modelType == t && cache[t].valueProviders == valueProviders
    }

    constructor ()
      ensures Valid() && cache == map[] && valueProviders == StandardProviders
    {
      cache := map[];
      valueProviders := StandardProviders;
    }

    /** GetReflector: a cached type returns its reflector and leaves the cache as it
        was; any other type gets a new reflector, stored under that type only. */
    method GetReflector(t: ClrType) returns (r: Reflector)
      requires Valid() && WellFormed(t)
      modifies this
      ensures Valid() && Grown(old(cache), cache, {t})
      ensures t in cache && cache[t] == r
      ensures r.Valid() && r.modelType == t && r.valueProviders == valueProviders
      ensures t in old(cache) ==> cache == old(cache)
      ensures t !in old(cache) ==> cache == old(cache)[t := r] && fresh(r)
    {
      if t in cache {
        return cache[t];
      }
      r := new Reflector(t, valueProviders);
      cache := cache[t := r];
    }

    /** CreateCommand(connection, sql, parameters, transaction). */
    method CreateCommand(connection: Option<Connection>, sql: Option<string>, parameters: Value,
                         transaction: Option<Transaction>) returns (r: Result<Command>)
      requires Valid() && (!parameters.Null? ==> WellFormed(RuntimeType(parameters)))
      modifies this
      ensures Valid() && Grown(old(cache), cache, ParameterTypes(parameters))
      ensures parameters.Null? ==> cache == old(cache)
      ensures var expected := CommandOf(valueProviders, connection, sql, parameters, transaction);
        (r.Err? <==> expected.Err?)
        && (r.Err? ==> r.error == expected.error)
        && (r.Ok? ==> fresh(r.value) && r.value.Data() == expected.value)
    {
      if !parameters.Null? {
        var reflector := GetReflector(RuntimeType(parameters));
        r := reflector.CreateCommand(sql, parameters, connection, Text, transaction);
      } else {
        if connection.None? {
          return Err(NullReference);
        }
        var command := new Command();
        command.text := sql;
        command.commandType := Text;
        if transaction.Some? {
          command.transaction := transaction;
        }
        r := Ok(command);
      }
    }

    /** CreateCommand(connection, sql): no parameters, no transaction. */
    method CreateCommandFromSql(connection: Option<Connection>, sql: Option<string>) returns (r: Result<Command>)
      requires Valid()
      modifies this
      ensures Valid() && cache == old(cache)
      ensures var expected := CommandOf(valueProviders, connection, sql, Null, None);
        (r.Err? <==> expected.Err?)
        && (r.Err? ==> r.error == expected.error)
        && (r.Ok? ==> fresh(r.value) && r.value.Data() == expected.value)
    {
      r := CreateCommand(connection, sql, Null, None);
    }

    /** CreateCommand(connection, sql, parameters): no transaction. */
    method CreateCommandWithParameters(connection: Option<Connection>, sql: Option<string>, parameters: Value)
      returns (r: Result<Command>)
      requires Valid() && (!parameters.Null? ==> WellFormed(RuntimeType(parameters)))
      modifies this
      ensures Valid() && Grown(old(cache), cache, ParameterTypes(parameters))
      ensures var expected := CommandOf(valueProviders, connection, sql, parameters, None);
        (r.Err? <==> expected.Err?)
        && (r.Err? ==> r.error == expected.error)
        && (r.Ok? ==> fresh(r.value) && r.value.Data() == expected.value)
    {
      r := CreateCommand(connection, sql, parameters, None);
    }

    /** Execute: the non-query count of the command CreateCommand builds. */
    method Execute(connection: Option<Connection>, sql: Option<string>, parameters: Value,
                   transaction: Option<Transaction>) returns (r: Result<int>)
      requires Valid() && (!parameters.Null? ==> WellFormed(RuntimeType(parameters)))
      modifies this
      ensures Valid() && Grown(old(cache), cache, ParameterTypes(parameters))
      ensures var command := CommandOf(valueProviders, connection, sql, parameters, transaction);
        (r.Err? <==> command.Err?)
        && (r.Err? ==> r.error == command.error)
        && (r.Ok? ==> connection.Some? && r.value == connection.value.nonQuery(command.value))
    {
      var command := CreateCommand(connection, sql, parameters, transaction);
      if command.Err? {
        return Err(command.error);
      }
      var data := command.value.Data();
      r := Ok(connection.value.nonQuery(data));
    }

    /** Execute(connection, sql). */
    method ExecuteSql(connection: Option<Connection>, sql: Option<string>) returns (r: Result<int>)
      requires Valid()
      modifies this
      ensures Valid() && cache == old(cache)
      ensures var command := CommandOf(valueProviders, connection, sql, Null, None);
        (r.Err? <==> command.Err?)
        && (r.Err? ==> r.error == command.error)
        && (r.Ok? ==> connection.Some? && r.value == connection.value.nonQuery(command.value))
    {
      r := Execute(connection, sql, Null, None);
    }

    /** Execute(connection, sql, parameters). */
    method ExecuteWithParameters(connection: Option<Connection>, sql: Option<string>, parameters: Value) returns (r: Result<int>)
      requires Valid() && (!parameters.Null? ==> WellFormed(RuntimeType(parameters)))
      modifies this
      ensures Valid() && Grown(old(cache), cache, ParameterTypes(parameters))
      ensures var command := CommandOf(valueProviders, connection, sql, parameters, None);
        (r.Err? <==> command.Err?)
        && (r.Err? ==> r.error == command.error)
        && (r.Ok? ==> connection.Some? && r.value == connection.value.nonQuery(command.value))
    {
      r := Execute(connection, sql, parameters, None);
    }

    /** ToObject<T>(record): the cached reflector for T materializes the record. */
    method ToObject(t: ClrType, row: Row) returns (r: Result<Value>)
      requires Valid() && WellFormed(t)
      modifies this
      ensures Valid() && Grown(old(cache), cache, {t})
      ensures r == Materialize(t, valueProviders, row)
    {
      var reflector := GetReflector(t);
      r := reflector.ToObject(row);
    }

    /** Query<T>(connection, sql, parameters, transaction), enumerated to the end:
        build the command, then materialize each row the reader yields, through
        the cached reflector for T. */
    method Query(t: ClrType, connection: Option<Connection>, sql: Option<string>, parameters: Value,
                 transaction: Option<Transaction>) returns (s: Stream<Value>)
      requires Valid() && WellFormed(t) && (!parameters.Null? ==> WellFormed(RuntimeType(parameters)))
      modifies this
      ensures Valid() && Grown(old(cache), cache, QueryTypes(t, valueProviders, connection, sql, parameters, transaction))
      ensures s == QueryOf(t, valueProviders, connection, sql, parameters, transaction)
    {
      var command := CreateCommand(connection, sql, parameters, transaction);
      if command.Err? {
        QueryFails(t, valueProviders, connection, sql, parameters, transaction);
        return Stream([], Some(command.error));
      }
      ghost var built := cache;
      var data := command.value.Data();
      var rows := connection.value.reader(data);
      QueryRuns(t, valueProviders, connection, sql, parameters, transaction, data);
      ghost var added: set<ClrType> := if |rows| == 0 then {} else {t};
      s := ReadAll(t, rows);
      GrownTrans(old(cache), built, cache, ParameterTypes(parameters), added);
    }

    /** The reader loop of Query: one ToObject per row, in order, through the
        cached reflector for T. */
    method ReadAll(t: ClrType, rows: seq<Row>) returns (s: Stream<Value>)
      requires Valid() && WellFormed(t)
      modifies this
      ensures Valid() && Grown(old(cache), cache, if |rows| == 0 then {} else {t})
      ensures s == MaterializeRows(t, valueProviders, rows)
    {
      ghost var results := RowResults(t, valueProviders, rows);
      assert MaterializeRows(t, valueProviders, rows) == Collect(results);
      var items: seq<Value> := [];
      var i := 0;
      while i < |rows|
        invariant 0 <= i <= |rows|
        invariant Valid() && Grown(old(cache), cache, if i == 0 then {} else {t})
        invariant Collect(results[..i]) == Stream(items, None)
      {
        ghost var before := cache;
        var item := ToObject(t, rows[i]);
        GrownTrans(old(cache), before, cache, if i == 0 then {} else {t}, {t});
        CollectStep(results, i, items);
        if item.Err? {
          return Stream(items, Some(item.error));
        }
        items := items + [item.value];
        i := i + 1;
      }
      assert results[..i] == results;
      s := Stream(items, None);
    }

    /** Query<T>(connection, sql). */
    method QuerySql(t: ClrType, connection: Option<Connection>, sql: Option<string>) returns (s: Stream<Value>)
      requires Valid() && WellFormed(t)
      modifies this
      ensures Valid() && Grown(old(cache), cache, QueryTypes(t, valueProviders, connection, sql, Null, None))
      ensures s == QueryOf(t, valueProviders, connection, sql, Null, None)
    {
      s := Query(t, connection, sql, Null, None);
    }

    /** Query<T>(connection, sql, parameters). */
    method QueryWithParameters(t: ClrType, connection: Option<Connection>, sql: Option<string>, parameters: Value) returns (s: Stream<Value>)
      requires Valid() && WellFormed(t) && (!parameters.Null? ==> WellFormed(RuntimeType(parameters)))
      modifies this
      ensures Valid() && Grown(old(cache), cache, QueryTypes(t, valueProviders, connection, sql, parameters, None))
      ensures s == QueryOf(t, valueProviders, connection, sql, parameters, None)
    {
      s := Query(t, connection, sql, parameters, None);
    }
  }
}
