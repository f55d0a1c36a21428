/** The .NET type universe the binding engine inspects, with `UnderlyingType`
    from Source/ADOMore/ReflectionExtensions.cs. Reflection over a real type is
    replaced by the explicit property list of a `Class`. */
module ClrTypes {

  /** The types for which Type.IsPrimitive holds. */
  datatype PrimKind =
    | Boolean | Char
    | SByte | Byte | Int16 | UInt16 | Int32 | UInt32 | Int64 | UInt64
    | IntPtr | UIntPtr | Single | Double

  /** A public instance property: its name, declared type and whether it has a getter and a setter. */
  datatype Property = Property(name: string, declared: ClrType, canRead: bool, canWrite: bool)

  datatype ClrType =
    | Prim(kind: PrimKind)
    | Enum(name: string, underlying: PrimKind)
    | GuidType
    | DateTimeType
    | DecimalType
    | Struct(name: string)                 // any other user-defined value type
    | Nullable(arg: ClrType)               // Nullable<arg>
    | StringType
    | VersionType
    | UriType
    | Class(name: string, props: seq<Property>, hasDefaultCtor: bool)
      // every other reference type: classes, arrays, interfaces, object, generic containers

  const ObjectType: ClrType := Class("System.Object", [], true)
  const DBNullType: ClrType := Class("System.DBNull", [], false)

  predicate IsIntegral(k: PrimKind)
  {
    match k
    case Boolean | Char | IntPtr | UIntPtr | Single | Double => false
    case _ => true
  }

  /** Type.IsValueType */
  predicate IsValueType(t: ClrType)
  {
    t.Prim? || t.Enum? || t == GuidType || t == DateTimeType || t == DecimalType || t.Struct? || t.Nullable?
  }

  /** Types that can only be written by a .NET program: enums over integral types,
      Nullable<T> only over a non-nullable value type, property names unique per class. */
  predicate WellFormed(t: ClrType)
    decreases t
  {
    match t
    case Enum(_, k) => IsIntegral(k)
    case Nullable(a) => IsValueType(a) && !a.Nullable? && WellFormed(a)
    case Class(_, props, _) =>
      (forall i :: 0 <= i < |props| ==> WellFormed(props[i].declared))
      && (forall i, j :: 0 <= i < j < |props| ==> props[i].name != props[j].name)
    case _ => true
  }

  /** The public properties Type.GetProperties reports: a class's own list; the
      built-in scalar types are never enumerated by the engine. */
  function Props(t: ClrType): seq<Property>
  {
    if t.Class? then t.props else []
  }

  /** ReflectionExtensions.UnderlyingType: Nullable<T> becomes T, anything else is kept. */
  function UnderlyingType(t: ClrType): (r: ClrType)
    ensures r == t || t == Nullable(r)
    ensures WellFormed(t) ==> WellFormed(r) && !r.Nullable?
  {
    if t.Nullable? then t.arg else t
  }

  lemma UnderlyingTypeIdempotent(t: ClrType)
    requires WellFormed(t)
    ensures UnderlyingType(UnderlyingType(t)) == UnderlyingType(t)
  {
  }

  /** `T` and `T?` have the same semantic type. */
  lemma UnderlyingTypeOfNullable(t: ClrType)
    requires WellFormed(Nullable(t))
    ensures UnderlyingType(Nullable(t)) == UnderlyingType(t) == t
  {
  }
}
