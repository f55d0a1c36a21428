/** Runtime values and the library conversions ValueProvider calls:
    Object.ToString, new Guid(string), new Version(string), new Uri(string),
    Enum.ToObject and Convert.ChangeType. */
module Values {
  import opened Outcomes
  import opened Text
  import opened ClrTypes

  const Int32Max: int := 0x7FFF_FFFF

  /** Smallest and largest value of an integral kind. */
  function MinOf(k: PrimKind): int
    requires IsIntegral(k)
  {
    match k
    case SByte => -0x80
    case Int16 => -0x8000
    case Int32 => -0x8000_0000
    case Int64 => -0x8000_0000_0000_0000
    case _ => 0
  }

  function MaxOf(k: PrimKind): int
    requires IsIntegral(k)
  {
    match k
    case SByte => 0x7F
    case Byte => 0xFF
    case Int16 => 0x7FFF
    case UInt16 => 0xFFFF
    case Int32 => 0x7FFF_FFFF
    case UInt32 => 0xFFFF_FFFF
    case Int64 => 0x7FFF_FFFF_FFFF_FFFF
    case UInt64 => 0xFFFF_FFFF_FFFF_FFFF
    case _ => 0
  }

  predicate InRange(k: PrimKind, n: int)
  {
    IsIntegral(k) && MinOf(k) <= n <= MaxOf(k)
  }

  /** Unchecked narrowing to an integral kind (two's-complement wrap-around). */
  function Wrap(k: PrimKind, n: int): (r: int)
    requires IsIntegral(k)
    ensures InRange(k, r)
    ensures InRange(k, n) ==> r == n
    ensures (r - n) % (MaxOf(k) - MinOf(k) + 1) == 0
  {
    MinOf(k) + (n - MinOf(k)) % (MaxOf(k) - MinOf(k) + 1)
  }

  type GuidDigits = s: seq<Nibble> | |s| == 32 witness seq(32, i => 0)

  /** A Guid, as the 32 hexadecimal digits of its text form. */
  datatype Guid = Guid(digits: GuidDigits)

  /** Guid.ToString(): the "D" format, 8-4-4-4-12 lower-case hexadecimal digits. */
  function GuidText(g: Guid): (s: string)
    ensures |s| == 36
  {
    var d := g.digits;
    HexEncode(d[..8]) + "-" + HexEncode(d[8..12]) + "-" + HexEncode(d[12..16]) + "-"
      + HexEncode(d[16..20]) + "-" + HexEncode(d[20..])
  }

  /** The "D" format (hyphen-separated groups) without braces. */
  function ParseGuidD(s: string): Result<Guid>
    requires |s| == 36
  {
    if s[8] != '-' || s[13] != '-' || s[18] != '-' || s[23] != '-' then Err(Format("guid"))
    else
      match HexDecode(s[..8] + s[9..13] + s[14..18] + s[19..23] + s[24..])
      case None => Err(Format("guid"))
      case Some(ds) => Ok(Guid(ds))
  }

  /** new Guid(string) for the "N", "D", "B" and "P" formats; hexadecimal digits in either case. */
  function ParseGuid(s: string): (r: Result<Guid>)
    ensures r.Err? ==> r.error == Format("guid")
  {
    if |s| == 32 then
      match HexDecode(s)
      case None => Err(Format("guid"))
      case Some(ds) => Ok(Guid(ds))
    else if |s| == 36 then ParseGuidD(s)
    else if |s| == 38 && ((s[0] == '{' && s[37] == '}') || (s[0] == '(' && s[37] == ')')) then
      ParseGuidD(s[1..37])
    else Err(Format("guid"))
  }

  lemma GuidTextRoundTrip(g: Guid)
    ensures ParseGuid(GuidText(g)) == Ok(g)
  {
    var d := g.digits;
    var s := GuidText(g);
    var a, b, c, e, f := HexEncode(d[..8]), HexEncode(d[8..12]), HexEncode(d[12..16]), HexEncode(d[16..20]), HexEncode(d[20..]);
    assert s == a + "-" + b + "-" + c + "-" + e + "-" + f;
    assert s[..8] == a && s[9..13] == b && s[14..18] == c && s[19..23] == e && s[24..] == f;
    assert a + b + c + e + f == HexEncode(d);
    HexRoundTrip(d);
  }

  /** System.Version: two to four non-negative Int32 components. */
  datatype Version = Version(major: nat, minor: nat, build: Option<nat>, revision: Option<nat>)

  predicate ValidVersion(v: Version)
  {
    && v.major <= Int32Max && v.minor <= Int32Max
    && (v.build.Some? ==> v.build.value <= Int32Max)
    && (v.revision.Some? ==> v.build.Some? && v.revision.value <= Int32Max)
  }

  /** Version.ToString(): the defined components joined by '.'. */
  function VersionText(v: Version): string
  {
    Join(ComponentTexts(v), '.')
  }

  /** One component of a version string, as Int32.Parse and the range check treat it. */
  function ParseVersionComponent(s: string): (r: Result<nat>)
    ensures r.Ok? ==> r.value <= Int32Max
  {
    match ParseInt(s)
    case None => Err(Format("version"))
    case Some(n) =>
      if n < -0x8000_0000 || n > Int32Max then Err(Overflow)
      else if n < 0 then Err(ArgumentOutOfRange("version"))
      else Ok(n)
  }

  /** new Version(string): components are checked in order; the first bad one decides the error. */
  function ParseVersion(s: string): (r: Result<Version>)
    ensures r.Ok? ==> ValidVersion(r.value)
  {
    var parts := Split(s, '.');
    if |parts| < 2 || |parts| > 4 then Err(Argument("version"))
    else
      match ParseVersionComponent(parts[0])
      case Err(e) => Err(e)
      case Ok(major) =>
        match ParseVersionComponent(parts[1])
        case Err(e) => Err(e)
        case Ok(minor) =>
          if |parts| == 2 then Ok(Version(major, minor, None, None))
          else
            match ParseVersionComponent(parts[2])
            case Err(e) => Err(e)
            case Ok(build) =>
              if |parts| == 3 then Ok(Version(major, minor, Some(build), None))
              else
                match ParseVersionComponent(parts[3])
                case Err(e) => Err(e)
                case Ok(revision) => Ok(Version(major, minor, Some(build), Some(revision)))
  }

  lemma NoDotInNumber(n: nat)
    ensures '.' !in NatToString(n)
  {
    var s := NatToString(n);
    forall i | 0 <= i < |s| ensures s[i] != '.' {
      assert IsDigit(s[i]);
    }
  }

  lemma ComponentRoundTrip(n: nat)
    requires n <= Int32Max
    ensures ParseVersionComponent(NatToString(n)) == Ok(n)
  {
    ParseNatToString(n);
    assert IsDigit(NatToString(n)[0]);
  }

  /** The texts of a version's defined components, in order. */
  function ComponentTexts(v: Version): seq<string>
  {
    [NatToString(v.major), NatToString(v.minor)]
      + (match v.build
         case None => []
         case Some(b) =>
           [NatToString(b)] + match v.revision
             case None => []
             case Some(r) => [NatToString(r)])
  }

  lemma SplitVersionText(v: Version)
    ensures Split(VersionText(v), '.') == ComponentTexts(v)
  {
    var parts := ComponentTexts(v);
    forall i | 0 <= i < |parts|
      ensures '.' !in parts[i]
    {
      NoDotInNumber(v.major);
      NoDotInNumber(v.minor);
      if v.build.Some? {
        NoDotInNumber(v.build.value);
      }
      if v.revision.Some? {
        NoDotInNumber(v.revision.value);
      }
    }
    SplitJoin(parts, '.');
  }

  lemma VersionTextRoundTrip(v: Version)
    requires ValidVersion(v)
    ensures ParseVersion(VersionText(v)) == Ok(v)
  {
    SplitVersionText(v);
    ComponentRoundTrip(v.major);
    ComponentRoundTrip(v.minor);
    if v.build.Some? {
      ComponentRoundTrip(v.build.value);
      if v.revision.Some? {
        ComponentRoundTrip(v.revision.value);
      }
    }
  }

  /** A Uri is kept as its text; only absolute URIs ("scheme:rest") can be built. */
  datatype Uri = Uri(text: string)

  predicate IsSchemeChar(c: char)
  {
    'a' <= c <= 'z' || 'A' <= c <= 'Z' || IsDigit(c) || c == '+' || c == '-' || c == '.'
  }

  predicate IsAbsoluteUri(s: string)
  {
    && ':' in s
    && var i := IndexOf(s, ':');
    && i > 0
    && ('a' <= s[0] <= 'z' || 'A' <= s[0] <= 'Z')
    && forall j :: 0 <= j < i ==> IsSchemeChar(s[j])
  }

  /** new Uri(string): UriFormatException unless the text starts with a scheme; implicit
      file paths without one are not recognised. */
  function ParseUri(s: string): (r: Result<Uri>)
    ensures r.Ok? <==> IsAbsoluteUri(s)
    ensures r.Ok? ==> r.value.text == s
  {
    if IsAbsoluteUri(s) then Ok(Uri(s)) else Err(Format("uri"))
  }

  /** A boxed .NET object. OpaqueV stands for the values the model does not look
      inside (Single, Double, Decimal, DateTime, IntPtr, other structs) and keeps
      their ToString text. */
  datatype Value =
    | Null                                            // a null reference
    | DBNull                                          // DBNull.Value
    | BoolV(b: bool)
    | CharV(c: char)
    | IntV(kind: PrimKind, n: int)
    | EnumV(name: string, underlying: PrimKind, n: int)
    | GuidV(g: Guid)
    | VersionV(v: Version)
    | UriV(u: Uri)
    | StrV(s: string)
    | OpaqueV(typ: ClrType, text: string)
    | ObjectV(typ: ClrType, fields: map<string, Value>)

  /** Types whose values are OpaqueV. */
  predicate IsOpaqueType(t: ClrType)
  {
    (t.Prim? && (t.kind == IntPtr || t.kind == UIntPtr || t.kind == Single || t.kind == Double))
      || t == DecimalType || t == DateTimeType || t.Struct?
  }

  /** Object.GetType(). A boxed Nullable<T> is a boxed T, so no value reports a Nullable type. */
  function RuntimeType(v: Value): (r: ClrType)
    requires !v.Null?
    ensures ValidValue(v) ==> !r.Nullable?
  {
    match v
    case DBNull => DBNullType
    case BoolV(_) => Prim(Boolean)
    case CharV(_) => Prim(Char)
    case IntV(k, _) => Prim(k)
    case EnumV(name, k, _) => Enum(name, k)
    case GuidV(_) => GuidType
    case VersionV(_) => VersionType
    case UriV(_) => UriType
    case StrV(_) => StringType
    case OpaqueV(t, _) => t
    case ObjectV(t, _) => t
  }

  predicate IsUtf16Unit(c: char) { c as int < 0x1_0000 }

  /** Values a .NET program can hold: integers in their kind's range, chars that
      are single UTF-16 units, valid versions and absolute URIs. */
  predicate ValidValue(v: Value)
  {
    match v
    case CharV(c) => IsUtf16Unit(c)
    case IntV(k, n) => InRange(k, n)
    case EnumV(_, k, n) => InRange(k, n)
    case VersionV(ver) => ValidVersion(ver)
    case UriV(u) => IsAbsoluteUri(u.text)
    case OpaqueV(t, _) => IsOpaqueType(t)
    case ObjectV(t, _) => t.Class?
    case _ => true
  }

  /** A value that may be stored in a property or variable of declared type t. */
  predicate HasType(v: Value, t: ClrType)
  {
    if v.Null? then !IsValueType(t) || t.Nullable?
    else if t.Nullable? then ValidValue(v) && RuntimeType(v) == t.arg
    else ValidValue(v) && RuntimeType(v) == t
  }

  /** default(T) */
  function DefaultValue(t: ClrType): (r: Value)
    ensures WellFormed(t) ==> HasType(r, t)
  {
    match t
    case Prim(k) =>
      if k == Boolean then BoolV(false)
      else if k == Char then CharV(0 as char)
      else if IsIntegral(k) then IntV(k, 0)
      else OpaqueV(t, "0")
    case Enum(name, k) => EnumV(name, k, 0)
    case GuidType => GuidV(Guid(seq(32, i => 0)))
    case DateTimeType => OpaqueV(t, "01/01/0001 00:00:00")
    case DecimalType => OpaqueV(t, "0")
    case Struct(name) => OpaqueV(t, name)
    case _ => Null
  }

  /** Object.ToString(). Enum values print as their number (member names are not
      modelled). The text of a number, a Guid or a valid version parses back to it,
      which is what lets ReadValue rebuild a Guid or Version from a stored text. */
  function ToText(v: Value): (s: string)
    requires !v.Null?
    ensures v.IntV? ==> ParseInt(s) == Some(v.n)
    ensures v.EnumV? ==> ParseInt(s) == Some(v.n)
    ensures v.GuidV? ==> ParseGuid(s) == Ok(v.g)
    ensures v.VersionV? && ValidVersion(v.v) ==> ParseVersion(s) == Ok(v.v)
  {
    match v
    case DBNull => ""
    case BoolV(b) => if b then "True" else "False"
    case CharV(c) => [c]
    case IntV(_, n) => ParseIntToString(n); IntToString(n)
    case EnumV(_, _, n) => ParseIntToString(n); IntToString(n)
    case GuidV(g) => GuidTextRoundTrip(g); GuidText(g)
    case VersionV(ver) => (if ValidVersion(ver) then VersionTextRoundTrip(ver); VersionText(ver) else VersionText(ver))
    case UriV(u) => u.text
    case StrV(s) => s
    case OpaqueV(_, text) => text
    case ObjectV(t, _) => if t.Class? then t.name else ""
  }

  /** Enum.ToObject(enumType, value): integral, char, boolean and enum values are
      accepted and narrowed to the enum's underlying type; anything else is an ArgumentException. */
  function EnumToObject(t: ClrType, v: Value): (r: Result<Value>)
    requires t.Enum? && IsIntegral(t.underlying)
    requires !v.Null?
    ensures r.Ok? ==> HasType(r.value, t)
  {
    var k := t.underlying;
    match v
    case IntV(_, n) => Ok(EnumV(t.name, k, Wrap(k, n)))
    case EnumV(_, _, n) => Ok(EnumV(t.name, k, Wrap(k, n)))
    case CharV(c) => Ok(EnumV(t.name, k, Wrap(k, c as int)))
    case BoolV(b) => Ok(EnumV(t.name, k, if b then 1 else 0))
    case _ => Err(Argument("value must be an enum base or an underlying type for an enum"))
  }

  /** The value types that implement IConvertible (and DBNull, which also does). */
  predicate IsConvertibleType(t: ClrType)
  {
    (t.Prim? && t.kind != IntPtr && t.kind != UIntPtr) || t.Enum? || t == StringType
      || t == DecimalType || t == DateTimeType || t == DBNullType
  }

  predicate IsFloatingType(t: ClrType)
  {
    t == Prim(Single) || t == Prim(Double) || t == DecimalType
  }

  /** IConvertible.ToBoolean */
  function ToBoolean(v: Value): Result<Value>
    requires !v.Null?
  {
    match v
    case BoolV(b) => Ok(v)
    case IntV(_, n) => Ok(BoolV(n != 0))
    case EnumV(_, _, n) => Ok(BoolV(n != 0))
    case StrV(s) =>
      if ToUpperInvariant(s) == "TRUE" then Ok(BoolV(true))
      else if ToUpperInvariant(s) == "FALSE" then Ok(BoolV(false))
      else Err(Format("boolean"))
    case OpaqueV(t, _) => if IsFloatingType(t) then Err(Unmodelled("floating-point to Boolean")) else Err(InvalidCast)
    case _ => Err(InvalidCast)
  }

  /** IConvertible.ToChar */
  function ToChar(v: Value): Result<Value>
    requires !v.Null?
  {
    match v
    case CharV(_) => Ok(v)
    case IntV(_, n) => CharOfCode(n)
    case EnumV(_, _, n) => CharOfCode(n)
    case StrV(s) =>
      // a character outside the Basic Multilingual Plane is two UTF-16 units in .NET
      if |s| == 1 && IsUtf16Unit(s[0]) then Ok(CharV(s[0])) else Err(Format("char"))
    case _ => Err(InvalidCast)
  }

  /** A UTF-16 code unit; codes outside 0..0xFFFF overflow (lone surrogates are reported the same way). */
  function CharOfCode(n: int): (r: Result<Value>)
    ensures r.Ok? ==> r.value.CharV? && r.value.c as int == n
  {
    if 0 <= n < 0xD800 || 0xE000 <= n <= 0xFFFF then Ok(CharV(n as char)) else Err(Overflow)
  }

  /** IConvertible.ToSByte ... ToUInt64: checked conversion to an integral kind. */
  function ToIntegral(v: Value, k: PrimKind): (r: Result<Value>)
    requires !v.Null? && IsIntegral(k)
    ensures r.Ok? ==> r.value.IntV? && r.value.kind == k && InRange(k, r.value.n)
  {
    match v
    case BoolV(b) => Ok(IntV(k, if b then 1 else 0))
    case CharV(c) => Checked(k, c as int)
    case IntV(_, n) => Checked(k, n)
    case EnumV(_, _, n) => Checked(k, n)
    case StrV(s) =>
      (match ParseInt(s)
       case None => Err(Format("integer"))
       case Some(n) => Checked(k, n))
    case OpaqueV(t, _) => if IsFloatingType(t) then Err(Unmodelled("floating-point to integer")) else Err(InvalidCast)
    case _ => Err(InvalidCast)
  }

  function Checked(k: PrimKind, n: int): (r: Result<Value>)
    requires IsIntegral(k)
    ensures r.Ok? <==> InRange(k, n)
    ensures r.Ok? ==> r.value == IntV(k, n)
    ensures r.Err? ==> r.error == Overflow
  {
    if InRange(k, n) then Ok(IntV(k, n)) else Err(Overflow)
  }

  /** Convert.ChangeType(value, type) for a non-null value. A value that is not
      IConvertible converts only to its own type; an IConvertible value converts
      through the IConvertible member for the target; Object returns the value itself. */
  function ChangeType(v: Value, t: ClrType): (r: Result<Value>)
    requires !v.Null?
    ensures RuntimeType(v) == t ==> r == Ok(v)
    ensures !IsConvertibleType(RuntimeType(v)) && RuntimeType(v) != t ==> r == Err(InvalidCast)
  {
    var vt := RuntimeType(v);
    if vt == t then Ok(v)
    else if !IsConvertibleType(vt) then Err(InvalidCast)
    else if t == ObjectType then Ok(v)
    else
      match t
      case Prim(k) =>
        if k == Boolean then ToBoolean(v)
        else if k == Char then ToChar(v)
        else if IsIntegral(k) then ToIntegral(v, k)
        else if k == Single || k == Double then Err(Unmodelled("conversion to floating-point"))
        else Err(InvalidCast)
      case StringType => Ok(StrV(ToText(v)))
      case DecimalType => Err(Unmodelled("conversion to Decimal"))
      case DateTimeType => Err(Unmodelled("conversion to DateTime"))
      case _ => Err(InvalidCast)
  }
}
