/** Source/ADOMore/ValueProvider.cs: which types are bindable, and the two
    conversions between a model's typed values and the values a database
    command or row carries. */
module ValueProviders {
  import opened Outcomes
  import opened Text
  import opened ClrTypes
  import opened Values

  /** An IValueProvider as the engine uses it: which (non-null) types it accepts
      and its two conversions. The engine never passes a null type. */
  datatype Provider = Provider(
    canProvide: ClrType -> bool,
    readValue: (ClrType, Value) -> Result<Value>,
    writeValue: (ClrType, Value) -> Result<Value>)

  /** ValueProvider.CanProvideValue on a non-null type: primitives, every other
      value type (enums, Guid, DateTime, decimal, Nullable<T>, structs), string, Version and Uri. */
  predicate Provides(t: ClrType)
  {
    (t.Prim? && IsConvertibleType(t)) || IsValueType(t) || t == StringType
      || t == GuidType || t == VersionType || t == UriType
  }

  /** A type is bindable exactly when it is not a class-like reference type:
      arrays, object, interfaces, generic containers and user classes are rejected. */
  lemma ProvidesExactlyScalars(t: ClrType)
    ensures Provides(t) <==> !t.Class?
  {
  }

  /** ValueProvider.CanProvideValue, including its null check. */
  function CanProvideValue(t: Option<ClrType>): (r: Result<bool>)
    ensures t.None? ==> r == Err(ArgumentNull("type"))
    ensures t.Some? ==> r.Ok? && (r.value <==> !t.value.Class?)
  {
    match t
    case None => Err(ArgumentNull("type"))
    case Some(ty) => ProvidesExactlyScalars(ty); Ok(Provides(ty))
  }

  /** ValueProvider.ReadValue on a non-null type. A null or DBNull field reads as null. */
  function Read(t: ClrType, v: Value): (r: Result<Value>)
    ensures v.Null? || v.DBNull? ==> r == Ok(Null)
  {
    if v.Null? || v.DBNull? then Ok(Null)
    else if t.Enum? && IsIntegral(t.underlying) then EnumToObject(t, v)
    else if t == GuidType then
      match ParseGuid(ToText(v))
      case Ok(g) => Ok(GuidV(g))
      case Err(e) => Err(e)
    else if t == VersionType then
      match ParseVersion(ToText(v))
      case Ok(ver) => Ok(VersionV(ver))
      case Err(e) => Err(e)
    else if t == UriType then
      match ParseUri(ToText(v))
      case Ok(u) => Ok(UriV(u))
      case Err(e) => Err(e)
    else ChangeType(v, t)
  }

  /** The order in which ReadValue tries the conversions for a non-null field value:
      enums first, then Guid, Version and Uri parsed from the value's text, and
      Convert.ChangeType only for every other type. */
  lemma ReadDispatch(t: ClrType, v: Value)
    requires WellFormed(t) && !v.Null? && !v.DBNull?
    ensures t.Enum? ==> Read(t, v) == EnumToObject(t, v)
    ensures t == GuidType ==>
      (Read(t, v).Ok? <==> ParseGuid(ToText(v)).Ok?) && (Read(t, v).Ok? ==> Read(t, v).value == GuidV(ParseGuid(ToText(v)).value))
    ensures t == VersionType ==>
      (Read(t, v).Ok? <==> ParseVersion(ToText(v)).Ok?) && (Read(t, v).Ok? ==> Read(t, v).value == VersionV(ParseVersion(ToText(v)).value))
    ensures t == UriType ==>
      (Read(t, v).Ok? <==> IsAbsoluteUri(ToText(v))) && (Read(t, v).Ok? ==> Read(t, v).value == UriV(Uri(ToText(v))))
    ensures !t.Enum? && t !in {GuidType, VersionType, UriType} ==> Read(t, v) == ChangeType(v, t)
  {
  }

  /** ValueProvider.ReadValue, including its null check. */
  function ReadValue(t: Option<ClrType>, v: Value): (r: Result<Value>)
    ensures t.None? ==> r == Err(ArgumentNull("type"))
    ensures t.Some? && (v.Null? || v.DBNull?) ==> r == Ok(Null)
  {
    match t
    case None => Err(ArgumentNull("type"))
    case Some(ty) => Read(ty, v)
  }

  /** ValueProvider.WriteValue on a non-null type. */
  function Write(t: ClrType, v: Value): (r: Result<Value>)
    ensures v.Null? ==> r == Ok(DBNull)
    ensures !v.Null? && t == Prim(Char) && v.CharV? ==> r == Ok(StrV([v.c])) && |r.value.s| == 1
    ensures !v.Null? && t == Prim(Char) && !v.CharV? ==> r == Err(InvalidCast)
    ensures !v.Null? && t in {GuidType, VersionType, UriType} ==> r == Ok(StrV(ToText(v)))
    ensures !v.Null? && t != Prim(Char) && t !in {GuidType, VersionType, UriType} ==> r == Ok(v)
  {
    if v.Null? then Ok(DBNull)
    else if t == Prim(Char) then
      (match v
       case CharV(c) => Ok(StrV([c]))
       case _ => Err(InvalidCast))
    else if t == GuidType || t == VersionType || t == UriType then Ok(StrV(ToText(v)))
    else Ok(v)
  }

  /** ValueProvider.WriteValue, including its null check. */
  function WriteValue(t: Option<ClrType>, v: Value): (r: Result<Value>)
    ensures t.None? ==> r == Err(ArgumentNull("type"))
    ensures t.Some? && v.Null? ==> r == Ok(DBNull)
  {
    match t
    case None => Err(ArgumentNull("type"))
    case Some(ty) => Write(ty, v)
  }

  /** The provider the library registers. */
  const ValueProvider: Provider := Provider(Provides, Read, Write)

  /** The first registered provider that accepts t (Enumerable.FirstOrDefault). */
  function FirstProvider(ps: seq<Provider>, t: ClrType): (r: Option<Provider>)
    ensures r.Some? ==> r.value.canProvide(t)
    ensures r.Some? ==> exists i :: 0 <= i < |ps| && ps[i] == r.value && (forall i' :: 0 <= i' < i ==> !ps[i'].canProvide(t))
    ensures r.None? ==> forall i :: 0 <= i < |ps| ==> !ps[i].canProvide(t)
    decreases |ps|, 1
  {
    if |ps| == 0 then None
    else if ps[0].canProvide(t) then Some(ps[0])
    else
      FirstProviderShift(ps, t);
      FirstProvider(ps[1..], t)
  }

  lemma FirstProviderShift(ps: seq<Provider>, t: ClrType)
    requires |ps| > 0 && !ps[0].canProvide(t)
    ensures var r := FirstProvider(ps[1..], t);
      r.Some? ==> exists i :: 0 <= i < |ps| && ps[i] == r.value && (forall i' :: 0 <= i' < i ==> !ps[i'].canProvide(t))
    ensures FirstProvider(ps[1..], t).None? ==> forall i :: 0 <= i < |ps| ==> !ps[i].canProvide(t)
    decreases |ps|, 0
  {
    var r := FirstProvider(ps[1..], t);
    assert forall i :: 1 <= i < |ps| ==> ps[i] == ps[1..][i - 1];
    if r.Some? {
      var i :| 0 <= i < |ps[1..]| && ps[1..][i] == r.value && (forall i' :: 0 <= i' < i ==> !ps[1..][i'].canProvide(t));
      assert ps[i + 1] == r.value;
    }
  }

  /** With the library's registration, the provider is found exactly for bindable types. */
  lemma FirstProviderOfStandard(t: ClrType)
    ensures FirstProvider([ValueProvider], t) == if Provides(t) then Some(ValueProvider) else None
  {
  }

  /** A value written for a bindable type and read back through the same type is
      the value the model held; null comes back as null. This is the insert-then-query
      round trip, with the store returning what it was given. */
  lemma WriteReadRoundTrip(t: ClrType, v: Value)
    requires WellFormed(t) && Provides(UnderlyingType(t)) && HasType(v, t)
    ensures Write(UnderlyingType(t), v).Ok?
    ensures Read(UnderlyingType(t), Write(UnderlyingType(t), v).value) == Ok(v)
  {
    var u := UnderlyingType(t);
    if v.Null? {
    } else if u.Enum? {
      assert v.EnumV?;
    } else if u == GuidType {
      GuidTextRoundTrip(v.g);
    } else if u == VersionType {
      VersionTextRoundTrip(v.v);
    } else if u == UriType {
    } else if u == Prim(Char) {
      assert ToChar(StrV([v.c])) == Ok(v);
    }
  }

  /** Integer columns come back from SQLite as Int64: an integral, enum or boolean
      property whose value fits reads back the value it wrote. */
  lemma ReadFromInt64(t: ClrType, n: int)
    requires WellFormed(t) && InRange(Int64, n)
    ensures t.Prim? && IsIntegral(t.kind) && InRange(t.kind, n) ==> Read(t, IntV(Int64, n)) == Ok(IntV(t.kind, n))
    ensures t.Prim? && IsIntegral(t.kind) && !InRange(t.kind, n) ==> Read(t, IntV(Int64, n)) == Err(Overflow)
    ensures t.Enum? && InRange(t.underlying, n) ==> Read(t, IntV(Int64, n)) == Ok(EnumV(t.name, t.underlying, n))
    ensures t == Prim(Boolean) ==> Read(t, IntV(Int64, n)) == Ok(BoolV(n != 0))
  {
  }

  lemma ChangeTypeHasType(v: Value, t: ClrType)
    requires ValidValue(v) && !v.Null? && Provides(t) && !t.Nullable?
    requires ChangeType(v, t).Ok?
    ensures HasType(ChangeType(v, t).value, t)
  {
    if RuntimeType(v) != t && t.Prim? {
      var r := ChangeType(v, t).value;
      if t.kind == Boolean {
        assert r == ToBoolean(v).value;
      } else if t.kind == Char {
        assert r == ToChar(v).value;
      } else if IsIntegral(t.kind) {
        assert r == ToIntegral(v, t.kind).value;
      }
    }
  }

  /** A successful read produces a value of the requested type (or null), so the
      reflective SetValue that follows it cannot fail on a type mismatch. */
  lemma ReadHasType(t: ClrType, v: Value)
    requires WellFormed(t) && ValidValue(v) && Provides(t) && !t.Nullable?
    requires Read(t, v).Ok?
    ensures var r := Read(t, v).value; r.Null? || HasType(r, t)
  {
    if v.Null? || v.DBNull? {
    } else if t.Enum? || t == GuidType || t == VersionType || t == UriType {
      ParsedHasType(t, v);
    } else {
      assert Read(t, v) == ChangeType(v, t);
      ChangeTypeHasType(v, t);
    }
  }

  lemma ParsedHasType(t: ClrType, v: Value)
    requires WellFormed(t) && !v.Null? && !v.DBNull?
    requires t.Enum? || t == GuidType || t == VersionType || t == UriType
    requires Read(t, v).Ok?
    ensures HasType(Read(t, v).value, t)
  {
    if t == VersionType {
      assert Read(t, v).value == VersionV(ParseVersion(ToText(v)).value);
    } else if t == UriType {
      assert Read(t, v).value == UriV(Uri(ToText(v)));
    }
  }

  /** What the engine relies on from a provider's reads: a successful read of a
      valid value as an accepted, non-nullable type is null or a value of that type. */
  ghost predicate WellTypedReads(p: Provider)
  {
    forall t, v :: WellFormed(t) && !t.Nullable? && p.canProvide(t) && ValidValue(v) && p.readValue(t, v).Ok? ==>
      p.readValue(t, v).value.Null? || HasType(p.readValue(t, v).value, t)
  }

  lemma ValueProviderWellTyped()
    ensures WellTypedReads(ValueProvider)
  {
    forall t, v | WellFormed(t) && !t.Nullable? && Provides(t) && ValidValue(v) && Read(t, v).Ok?
      ensures Read(t, v).value.Null? || HasType(Read(t, v).value, t)
    {
      ReadHasType(t, v);
    }
  }
}
