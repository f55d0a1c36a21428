# ADOMore binding engine in Dafny

ADOMore is a small library of extension methods over ADO.NET. It binds the
public properties of a model object to the parameters of an `IDbCommand`. It
also materializes model objects from the records an `IDataReader` yields. This
project models its engine and proves properties of that model:

- `ValueProvider` (module `ValueProviders`, `value_provider.dfy`) decides which
  types are bindable. It converts a model's values to storage values
  (`WriteValue`) and back (`ReadValue`).
- `ReflectionExtensions.UnderlyingType` (module `ClrTypes`, `clr_types.dfy`)
  unwraps `Nullable<T>`.
- `Reflector` (module `Reflection`, `reflector.dfy`) is the per-type metadata.
  - A type is either scalar, with the first provider that accepts it, or
    composite, with a property table.
  - `CreateCommand` binds a model to `@Name` parameters.
  - `ToObject` builds a model from a record.
  - The behaviour is stated first as functions with their lemmas. The class
    `Reflector` then computes it with the source's loops and is proved equal
    to those functions.
- `DataExtensions` (module `Data`, `data_extensions.dfy`) is the public façade:
  the `CreateCommand`, `Execute`, `Query` and `ToObject` overloads, and the
  process-wide reflector cache.

Supporting modules:

- `Outcomes` holds `Option`, `Result` and the exceptions, as error values.
- `Text` holds decimal and hexadecimal text, splitting, and ASCII upper-casing.
- `Values` holds the runtime values with `Guid`, `Version` and `Uri` text forms
  and the library conversions `Enum.ToObject` and `Convert.ChangeType`.
- `Driver` is the ADO.NET driver as the engine sees it:
  - a connection answers commands;
  - a command is text, a command type, an optional transaction and a parameter
    list;
  - a record is a sequence of named column values.

.NET reflection is replaced by an explicit type universe (`ClrType`):

- every reference type other than `string`, `Version` and `Uri` is a `Class`
  carrying its public properties and whether it has a parameterless
  constructor;
- a boxed object is a `Value`;
- an `IValueProvider` is a `Provider` record holding its three operations, and
  the engine's lemmas hold for any sequence of providers;
- an exception is an `Err` outcome naming its .NET type.

Where the code and its tests or documentation differ, the model follows the code:

- Null parameters give a plain text command. Sql is not validated on that
  path.
- A parameters object of a bindable (scalar) type fails with a
  `NullReferenceException`. A scalar reflector has no property table, and the
  binding loop iterates it anyway.
- The object is always bound as one model. There is no batch fan-out over
  sequences.
- A column whose value is null or `DBNull` is still assigned. The property then
  receives `SetValue(null)`, which is the type's default for a value type.
- A `Guid`, `Version` or `Uri` parameter holds its text, as `WriteValue`
  produces it. The test at `Source/ADOMore.Test/DataExtensionsTests.cs` lines
  49 and 59 compares the parameter with the `Guid` itself.

## Model

| member | source | states |
|---|---|---|
| ClrTypes.UnderlyingType | Source/ADOMore/ReflectionExtensions.cs:11-19 | the result is the type itself or the argument of the `Nullable<>` it is; for a well-formed type the result is never `Nullable` |
| ClrTypes.UnderlyingTypeIdempotent | Source/ADOMore/ReflectionExtensions.cs:11-19 | unwrapping twice is unwrapping once |
| ClrTypes.UnderlyingTypeOfNullable | Source/ADOMore/ReflectionExtensions.cs:13-18 | `T?` and `T` have the same semantic type, namely `T` |
| Text.ToUpperInvariant | Source/ADOMore/Reflector.cs:67 | the upper-cased name has the same length and upper-cases each character |
| Text.UpperIdempotent | Source/ADOMore/Reflector.cs:77 | upper-casing an upper-cased name changes nothing |
| Values.ParseGuid | Source/ADOMore/ValueProvider.cs:41 | a failing `new Guid(text)` is a `FormatException` |
| Values.ParseVersion | Source/ADOMore/ValueProvider.cs:45 | a successful `new Version(text)` has two to four components, each between 0 and `Int32.MaxValue` |
| Values.ToText | Source/ADOMore/ValueProvider.cs:77-81 | the text of an integer or enum parses back to its number, that of a `Guid` back to the `Guid`, and that of a valid `Version` back to the `Version` |
| Values.RuntimeType | Source/ADOMore/DataExtensions.cs:64 | `GetType()` of a well-formed value is never a `Nullable` type, because a boxed `Nullable<T>` is a boxed `T` |
| Values.GuidTextRoundTrip | Source/ADOMore/ValueProvider.cs:41 | `new Guid(g.ToString())` gives back `g` |
| Values.VersionTextRoundTrip | Source/ADOMore/ValueProvider.cs:45 | `new Version(v.ToString())` gives back every valid version `v` |
| Values.ParseUri | Source/ADOMore/ValueProvider.cs:49 | in this model `new Uri(s)` succeeds exactly for text that starts with a scheme, and keeps that text |
| Values.EnumToObject | Source/ADOMore/ValueProvider.cs:37 | a successful `Enum.ToObject` is a value of the enum type |
| Values.ChangeType | Source/ADOMore/ValueProvider.cs:53 | a value already of the target type is returned as is; a non-convertible value of another type is an `InvalidCastException` |
| Values.DefaultValue | Source/ADOMore/Reflector.cs:54 | `default(T)` is a value of type `T` |
| ValueProviders.ProvidesExactlyScalars | Source/ADOMore/ValueProvider.cs:15-21 | a type is bindable exactly when it is not a class-like reference type (arrays, object, interfaces, user classes) |
| ValueProviders.CanProvideValue | Source/ADOMore/ValueProvider.cs:8-22 | a null type is an `ArgumentNullException`; otherwise true exactly for non-class types |
| ValueProviders.Read | Source/ADOMore/ValueProvider.cs:31-33 | a null or `DBNull` field reads as null whatever the type |
| ValueProviders.ReadDispatch | Source/ADOMore/ValueProvider.cs:35-54 | enums go through `Enum.ToObject`; `Guid`, `Version` and `Uri` are parsed from the value's text and succeed exactly when the parse does; only every other type goes through `Convert.ChangeType` |
| ValueProviders.ReadValue | Source/ADOMore/ValueProvider.cs:24-33 | a null type is an `ArgumentNullException`; a null or `DBNull` value reads as null |
| ValueProviders.Write | Source/ADOMore/ValueProvider.cs:67-84 | null becomes `DBNull`; a char becomes the one-character string holding it; a non-char value for a char type is an `InvalidCastException`; `Guid`, `Version` and `Uri` become their text; anything else is unchanged |
| ValueProviders.WriteValue | Source/ADOMore/ValueProvider.cs:60-72 | a null type is an `ArgumentNullException`; a null value becomes `DBNull` for every type |
| ValueProviders.FirstProvider | Source/ADOMore/Reflector.cs:30 | the chosen provider accepts the type and no earlier one does; no provider is chosen only when none accepts it |
| ValueProviders.FirstProviderOfStandard | Source/ADOMore/DataExtensions.cs:18 | with the library's registration the provider is found exactly for bindable types |
| ValueProviders.WriteReadRoundTrip | Source/ADOMore/ValueProvider.cs:24-85 | a value of a bindable type (or null) written and read back through its semantic type is the same value; this is the insert-then-query round trip |
| ValueProviders.ReadFromInt64 | Source/ADOMore/ValueProvider.cs:51-54 | an `Int64` column read as an integral type gives the number when it fits and an `OverflowException` when it does not; read as an enum it gives the member; read as a boolean it gives whether it is non-zero |
| ValueProviders.ChangeTypeHasType | Source/ADOMore/ValueProvider.cs:53 | a successful coercion of a valid value to a bindable type is a value of that type |
| ValueProviders.ParsedHasType | Source/ADOMore/ValueProvider.cs:35-50 | a successful enum, `Guid`, `Version` or `Uri` read is a value of that type |
| ValueProviders.ReadHasType | Source/ADOMore/ValueProvider.cs:24-58 | a successful read of a valid value is null or a value of the requested type |
| ValueProviders.ValueProviderWellTyped | Source/ADOMore/ValueProvider.cs:24-58 | the library's provider makes only well-typed reads |
| Reflection.BoundEntries | Source/ADOMore/Reflector.cs:119-124 | the bound entries are exactly the table entries some provider accepts |
| Reflection.PropertyValue | Source/ADOMore/Reflector.cs:128 | reading a property fails exactly when it has no getter; otherwise it gives the instance's value of that property |
| Reflection.BindSucceeds | Source/ADOMore/Reflector.cs:119-131 | binding succeeds exactly when every bound property can be read and written |
| Reflection.BindContents | Source/ADOMore/Reflector.cs:119-131 | one parameter per bound property, in table order, named `"@" + name`, holding the first accepting provider's `WriteValue` of the property's value; unbound properties add nothing, and read-only ones are included |
| Reflection.CommandFor | Source/ADOMore/Reflector.cs:95-117 | a null connection, then a null model, then a null or empty sql is an `ArgumentNullException`; a built command carries the sql, the command type, the transaction and the bound parameters |
| Reflection.IndexKeysContents | Source/ADOMore/Reflector.cs:65-68 | the dictionary maps each key to its position and holds nothing else |
| Reflection.IndexKeysSucceeds | Source/ADOMore/Reflector.cs:65-68 | the dictionary is built exactly when no key repeats |
| Reflection.ColumnIndex | Source/ADOMore/Reflector.cs:63-68 | every index is a column position; the only failure is the duplicate-key `ArgumentException` |
| Reflection.ColumnIndexSpec | Source/ADOMore/Reflector.cs:63-68 | the column dictionary is built exactly when no two column names are equal after upper-casing, and then maps each upper-cased name to its column |
| Reflection.SetValue | Source/ADOMore/Reflector.cs:82 | storing null or a value of the property's declared type leaves the property holding a value of that type (null becomes the type's default) |
| Reflection.CheckSettable | Source/ADOMore/Reflector.cs:82 | in this model, where a value's type is matched exactly, `SetValue` accepts a successful read exactly when it is null or of the property's declared type, and stores it unchanged |
| Reflection.AssignSucceeds | Source/ADOMore/Reflector.cs:70-85 | the assignment loop succeeds exactly when every read it performs succeeds |
| Reflection.AssignKeys | Source/ADOMore/Reflector.cs:70-85 | the assignment loop never adds or removes a field |
| Reflection.AssignSets | Source/ADOMore/Reflector.cs:82 | a property that was read holds `SetValue` of what was read |
| Reflection.AssignKeeps | Source/ADOMore/Reflector.cs:70-85 | a field that nothing reads into keeps its value |
| Reflection.DefaultFields | Source/ADOMore/Reflector.cs:61 | a new instance has exactly one field per property, each at its type's default |
| Reflection.NewInstance | Source/ADOMore/Reflector.cs:61 | a class with a parameterless constructor gives an instance of that class; without one, a `MissingMethodException` |
| Reflection.NewInstanceHasType | Source/ADOMore/Reflector.cs:61 | the created instance is a value of the requested type |
| Reflection.ReadScalar | Source/ADOMore/Reflector.cs:46-56 | a scalar `ToObject<T>` that succeeds gives a value of `T` |
| Reflection.ReadComposite | Source/ADOMore/Reflector.cs:57-86 | a composite `ToObject<T>` that succeeds gives a value of `T` |
| Reflection.Materialize | Source/ADOMore/Reflector.cs:42-89 | whatever `ToObject<T>` returns is a value of `T` |
| Reflection.MaterializeScalar | Source/ADOMore/Reflector.cs:46-56 | an empty record gives `default(T)`; otherwise column 0 is read as `T`'s underlying type; the cast to `T` keeps the value and fails with a `NullReferenceException` on null into a non-nullable value type; with types matched exactly, as modelled, it fails whenever the value read is not of type `T` |
| Reflection.WellTypedReadFits | Source/ADOMore/Reflector.cs:50 | a successful read by a well-typed provider is null or of the property's type |
| Reflection.MaterializeScalarWellTyped | Source/ADOMore/Reflector.cs:46-56 | with a well-typed provider, a scalar fails only on a read error or on null into a non-nullable value type |
| Reflection.MaterializeClassErrors | Source/ADOMore/Reflector.cs:61-68 | with no parameterless constructor, a `MissingMethodException`; with repeated upper-cased column names, the duplicate-key `ArgumentException` |
| Reflection.OutcomeOfProperty | Source/ADOMore/Reflector.cs:70-83 | a property is read exactly when it has a setter, a provider accepts it and a column matches its name, and it reads that column |
| Reflection.MaterializeClassAssigns | Source/ADOMore/Reflector.cs:57-86 | a composite `ToObject` is the assignment loop over the default instance |
| Reflection.MaterializeClassSucceeds | Source/ADOMore/Reflector.cs:70-85 | a composite `ToObject` succeeds exactly when every read of a matched, settable property succeeds and `SetValue` accepts it |
| Reflection.MaterializeClassSucceedsWellTyped | Source/ADOMore/Reflector.cs:70-85 | with well-typed providers it succeeds exactly when every such read succeeds |
| Reflection.ClassFieldsKeys | Source/ADOMore/Reflector.cs:61-85 | the assigned fields are exactly the class's properties |
| Reflection.ClassFieldsMatchedAt | Source/ADOMore/Reflector.cs:77-82 | a settable property matched by a column holds the value read from that column, with null stored as the default |
| Reflection.UnmatchedNotRead | Source/ADOMore/Reflector.cs:70-83 | a property that is not settable or not matched is never read |
| Reflection.ClassFieldsUnmatchedAt | Source/ADOMore/Reflector.cs:79 | a property that is not settable or not matched keeps its default |
| Reflection.MaterializeClassMatched | Source/ADOMore/Reflector.cs:70-85 | the instance is of the class, has one field per property, and every settable property matched by a column holds what the provider read from that column; extra columns are ignored |
| Reflection.MaterializeClassUnmatched | Source/ADOMore/Reflector.cs:70-85 | every read-only, unbindable or unmatched property keeps the new instance's value |
| Reflection.ClassFieldTyped | Source/ADOMore/Reflector.cs:82 | each assigned field holds a value of its property's declared type |
| Reflection.MaterializeFieldsTyped | Source/ADOMore/Reflector.cs:57-86 | every field of a materialized instance holds a value of its property's declared type |
| Reflection.TableFor | Source/ADOMore/Reflector.cs:29-39 | a type has no property table exactly when some provider accepts its underlying type, and otherwise its table is `GetProperties` |
| Reflection.Reflector.constructor | Source/ADOMore/Reflector.cs:29-39 | the reflector is scalar exactly when a provider accepts the underlying type; it then keeps the first such provider, and otherwise the property table |
| Reflection.Reflector.New | Source/ADOMore/Reflector.cs:17-40 | a null type, then null providers, is an `ArgumentNullException`; otherwise a valid new reflector for that type and those providers |
| Reflection.Reflector.GetProperties | Source/ADOMore/Reflector.cs:136-146 | one entry per property of `Props(t)`, in the order reflection returns them, with the underlying type of its declared type |
| Reflection.Reflector.ToObject | Source/ADOMore/Reflector.cs:42-89 | the result is the materialization the lemmas above describe |
| Reflection.Reflector.IndexColumns | Source/ADOMore/Reflector.cs:63-68 | the loop builds the column dictionary or fails on the first repeated name |
| Reflection.Reflector.AssignProperties | Source/ADOMore/Reflector.cs:70-85 | the loop computes the assignment over the table, stopping at the first failing read |
| Reflection.Reflector.CreateCommand | Source/ADOMore/Reflector.cs:91-134 | for a model of the reflector's type (as its caller guarantees), fails exactly when and as the command description does; otherwise returns a new command holding it |
| Reflection.Reflector.BindProperties | Source/ADOMore/Reflector.cs:119-131 | appends the bound parameters in table order, or fails with the first entry's error, leaving text, type and transaction alone |
| Driver.Command.AddParameter | Source/ADOMore/Reflector.cs:129 | appends one parameter and changes nothing else |
| Data.StandardSelection | Source/ADOMore/DataExtensions.cs:18 | with the registered provider a type is scalar exactly when it is bindable, and reads are `ValueProvider.ReadValue` |
| Data.StandardProvidersWellTyped | Source/ADOMore/DataExtensions.cs:18 | the registered providers make only well-typed reads |
| Data.StandardScalar | Source/ADOMore/DataExtensions.cs:185-188 | `ToObject<T>` for a bindable `T` is `ReadValue` of column 0, failing only on a read error or on null into a non-nullable value type |
| Data.StandardClassSucceeds | Source/ADOMore/DataExtensions.cs:185-188 | `ToObject<T>` for a class succeeds exactly when `ReadValue` succeeds for every writable, bindable property and its matching column |
| Data.SqlCheckedOnlyWithParameters | Source/ADOMore/DataExtensions.cs:62-76 | without parameters any sql gives a text command with the transaction and no parameters; with parameters a null or empty sql is an `ArgumentNullException` |
| Data.ScalarParametersFail | Source/ADOMore/DataExtensions.cs:62-65 | a parameters object of a bindable type fails with a `NullReferenceException` |
| Data.ClassParametersBind | Source/ADOMore/DataExtensions.cs:62-65 | a parameters object of a class type is bound as one model: the command holds the sql, `CommandType.Text`, the transaction and the bound parameters |
| Data.CommandOf | Source/ADOMore/DataExtensions.cs:56-90 | a built command has the sql, `CommandType.Text` and the transaction, and needs a connection; without parameters it is built exactly when there is a connection, and has no parameters |
| Data.MaterializeRows | Source/ADOMore/DataExtensions.cs:169-174 | every object the enumeration yields is a value of `T` |
| Data.QueryOf | Source/ADOMore/DataExtensions.cs:165-177 | every object `Query<T>` yields is a value of `T`; it yields something only when the command was built |
| Data.QueryFails | Source/ADOMore/DataExtensions.cs:165-167 | when the command cannot be built, `Query<T>` yields nothing but that error and looks up only the parameters' type |
| Data.QueryRuns | Source/ADOMore/DataExtensions.cs:165-177 | once the command is built, `Query<T>` yields the materialization of the rows the reader returns for it, and looks up `T` only when there is a row |
| Data.CollectStep | Source/ADOMore/DataExtensions.cs:171-173 | one more row extends the items or ends the enumeration with its error |
| Data.CollectContents | Source/ADOMore/DataExtensions.cs:169-174 | the enumeration yields the successful results in order up to the first failure, which it reports |
| Data.CollectSucceeds | Source/ADOMore/DataExtensions.cs:169-174 | the enumeration completes exactly when every result is a success |
| Data.MaterializeRowsContents | Source/ADOMore/DataExtensions.cs:169-174 | one object per row, in row order, each the `ToObject` of its row; zero rows yield nothing; a failing row ends the enumeration after the rows before it |
| Data.DataExtensions.constructor | Source/ADOMore/DataExtensions.cs:17-18 | the cache starts empty and the library's provider is registered |
| Data.DataExtensions.GetReflector | Source/ADOMore/DataExtensions.cs:190-205 | the type is then cached and its entry returned; every earlier entry is kept and only that type is added; a hit leaves the cache unchanged; a miss adds exactly a new reflector for that type |
| Data.DataExtensions.CreateCommand | Source/ADOMore/DataExtensions.cs:56-90 | fails with exactly `CommandOf`'s error, or returns a new command holding `CommandOf`'s description; every earlier cache entry is kept and exactly the parameters object's runtime type is added (nothing without parameters) |
| Data.DataExtensions.CreateCommandFromSql | Source/ADOMore/DataExtensions.cs:31-34 | as the full overload with no parameters and no transaction: `CommandOf`'s error or a new command holding its description; the cache is unchanged |
| Data.DataExtensions.CreateCommandWithParameters | Source/ADOMore/DataExtensions.cs:43-46 | as the full overload with no transaction: `CommandOf`'s error or a new command holding its description; the cache keeps its entries and gains exactly the parameters' runtime type |
| Data.DataExtensions.Execute | Source/ADOMore/DataExtensions.cs:123-129 | `CommandOf`'s error, or the connection's non-query count for the command `CommandOf` describes; the cache keeps its entries and gains exactly the parameters' runtime type |
| Data.DataExtensions.ExecuteSql | Source/ADOMore/DataExtensions.cs:98-101 | as the full overload with no parameters and no transaction: `CommandOf`'s error or the non-query count; the cache is unchanged |
| Data.DataExtensions.ExecuteWithParameters | Source/ADOMore/DataExtensions.cs:110-113 | as the full overload with no transaction: `CommandOf`'s error or the non-query count; the cache keeps its entries and gains exactly the parameters' runtime type |
| Data.DataExtensions.ToObject | Source/ADOMore/DataExtensions.cs:185-188 | the cached reflector for `T` materializes the record as `Materialize` says; the cache keeps its entries and gains exactly `T` |
| Data.DataExtensions.Query | Source/ADOMore/DataExtensions.cs:165-177 | yields exactly `QueryOf`: a failing command yields nothing and its error, otherwise the reader's rows materialized in order; the cache keeps its entries and gains the parameters' type, and `T` once a row is read |
| Data.DataExtensions.ReadAll | Source/ADOMore/DataExtensions.cs:169-174 | the reader loop yields `ToObject` of each row in order, stopping at the first failure; the cache keeps its entries and gains exactly `T` when there is a row, and is unchanged otherwise |
| Data.DataExtensions.QuerySql | Source/ADOMore/DataExtensions.cs:138-141 | as the full overload with no parameters and no transaction: yields exactly `QueryOf`, and the cache gains `T` once a row is read |
| Data.DataExtensions.QueryWithParameters | Source/ADOMore/DataExtensions.cs:151-154 | as the full overload with no transaction: yields exactly `QueryOf`, and the cache gains the parameters' type and `T` once a row is read |

## Left out

- The ADO.NET driver is a parameter of the model (`Connection`): what `ExecuteNonQuery` returns and which records `ExecuteReader` yields for a command. `Dispose`, `using`, and the dispose-and-rethrow path of `DataExtensions.CreateCommand` (`Source/ADOMore/DataExtensions.cs:78-87`) are not modelled. A failing command is simply not returned.
- The lock around the cache insertion (`Source/ADOMore/DataExtensions.cs:198`) is not modelled. The cache is sequential. Under concurrency the unlocked lookup at line 192 lets two reflectors be built for one type, and the last write wins.
- `Query` yields lazily. The model enumerates it to the end, as the items produced before the first failure and that failure (`Stream`). Stopping the enumeration early is not modelled.
- `IValueProvider` (`Source/ADOMore/IValueProvider.cs`) is the `Provider` record of three functions rather than an interface.
- Floating-point, `decimal` and `DateTime` values are opaque. Conversions to them are an `Unmodelled` error, and conversions from them to integral or boolean types are too.
- `Convert.ChangeType` is modelled for boolean, char, integral, string and object targets. Culture-specific parsing, whitespace and sign handling beyond an optional leading `-` are not modelled.
- Values.ParseGuid: accepts the "N", "D", "B" and "P" formats only. The hexadecimal "X" format and surrounding whitespace are not modelled.
- Values.ParseUri: accepts any text with a scheme. `Uri`'s canonicalisation and its checks on the rest of the text are not modelled. Implicit file paths with no scheme, which `Uri` accepts (a UNC path such as `\\server\share`, or a rooted path on Unix), are rejected.
- Values.ToText: an enum value prints as its number, because enum member names are not part of `ClrType`.
- Text.ToUpperInvariant: upper-cases ASCII letters only.
- Reflection.CheckSettable: the `ArgumentException` message does not name the two types.
- Reflection.ReadScalar, Reflection.ReadComposite, Reflection.Reflector.ToObject, Data.DataExtensions.ToObject: a `Row` is never null, so the `NullReferenceException` that a null `IDataRecord` raises is not modelled. The source raises it at `Source/ADOMore/Reflector.cs:48` for a scalar type, and at line 65 for a class, after the instance is created and after the cache has gained `T`.
- Reflection.NewInstance: a class's constructor body is not modelled, so a new instance holds every property at its default. The public properties of built-in types are never enumerated (`Props` is empty for them).
- The property table is the sequence `Props(t)`, standing for whatever order reflection returns. Neither `Type.GetProperties` nor the enumeration of the source's `Dictionary` guarantees an order, so the model binds parameters and assigns properties in that one fixed order.
- Every model type is required to be `WellFormed`: enums over integral types, `Nullable<T>` only over a non-nullable value type, and unique property names. Properties hidden with `new`, which give two public properties of one name, are therefore not modelled. Static properties and indexers, which `GetProperties` also returns, are not modelled either.
- Values.CharOfCode: a code in the surrogate range 0xD800 to 0xDFFF gives an `OverflowException`, because a Dafny `char` cannot hold a lone surrogate; .NET returns the surrogate `char`.
- Values.ParseVersionComponent: a leading `+` sign and surrounding whitespace, which `Int32.Parse` accepts, are not modelled.
- Values.ParseVersion: rejects a component with a leading `+` or surrounding whitespace, for the same reason.
- Reflection.CheckSettable: a value's type is matched exactly. The primitive widening that reflection's `SetValue` performs (an `Int32` into an `Int64` property) and the unboxing of an enum from its underlying type are not modelled. With the library's provider the value read always has the property's type, so this is not reached.
- Reflection.ReadScalar: the cast to `T` matches types exactly. It does not model unboxing an enum as its underlying type or the reverse; with the library's provider the value read always has the semantic type.
- Reflection.Reflector.CreateCommand: requires the model's runtime type to be the reflector's type, as its one caller (`Source/ADOMore/DataExtensions.cs:64`) guarantees by looking the reflector up by `parameters.GetType()`.
- `DataExtensions.ReflectorCache` (the internal accessor at `Source/ADOMore/DataExtensions.cs:20-23`) is the `cache` field itself.
- `IsDatabaseCompatible`, a generic `Reflector<T>`, `ToModel` and a dictionary overload of `CreateCommand` are not part of this model. The library sources here do not define them.
