/**
 * The schemaless property bag of a table entity: each property name maps to
 * a typed stored value, read through typed accessors that fall back to a
 * default when the name is absent (the `IDictionaryExtensions` helpers), and
 * through the generic object conversion behind `GetProperty<T>` and
 * `SetProperty<T>`.
 */
module PropertyBag {
  import opened Wrappers
  import opened TimeFormat

  type Int32 = i: int | -0x8000_0000 <= i < 0x8000_0000

  /** A `DateTime` value: an instant that type can represent. */
  type Instant = t: int | InRange(t)

  /** The storage types of entity properties the diagnostics source reads. */
  datatype EdmType = EdmString | EdmInt32 | EdmBoolean | EdmDateTime | EdmOther

  /**
   * A stored entity property.  Every property may hold null; a date is
   * held as its UTC instant.  `VOther` stands for the kinds this core never
   * reads through a typed accessor (binary, double, Guid, Int64).
   */
  datatype Value =
    | VString(str: Option<string>)
    | VInt(int32: Option<Int32>)
    | VBool(boolean: Option<bool>)
    | VTime(ticks: Option<Instant>)
    | VOther(blob: Option<nat>)

  type Bag = map<string, Value>

  function TypeOf(v: Value): EdmType {
    match v
    case VString(_) => EdmString
    case VInt(_) => EdmInt32
    case VBool(_) => EdmBoolean
    case VTime(_) => EdmDateTime
    case VOther(_) => EdmOther
  }

  /** The target types `GetProperty<T>` is asked for in this model. */
  datatype Target =
    | TString
    | TInt32
    | TNullableInt32
    | TBoolean
    | TNullableBoolean
    | TDateTimeOffset
    | TObject

  /** The failures the core raises. */
  datatype Error =
      /** A typed accessor read a property stored with another type. */
    | TypeMismatch(name: string, stored: EdmType, requested: EdmType)
      /** `GetProperty<T>` could not convert the stored value; it is traced and re-raised. */
    | ConversionFailed(name: string, target: Target)
      /** Date arithmetic left the range of `DateTimeOffset`. */
    | OutOfRange
      /** The cursor text could not be read as an instant. */
    | MalformedCursor(text: string)

  // ---- typed accessors of a stored property ----

  function StringValue(name: string, v: Value): (r: Result<Option<string>, Error>)
    ensures r.Success? <==> v.VString?
    ensures r.Success? ==> r.value == v.str
  {
    if v.VString? then Success(v.str) else Failure(TypeMismatch(name, TypeOf(v), EdmString))
  }

  function Int32Value(name: string, v: Value): (r: Result<Option<Int32>, Error>)
    ensures r.Success? <==> v.VInt?
    ensures r.Success? ==> r.value == v.int32
  {
    if v.VInt? then Success(v.int32) else Failure(TypeMismatch(name, TypeOf(v), EdmInt32))
  }

  function BooleanValue(name: string, v: Value): (r: Result<Option<bool>, Error>)
    ensures r.Success? <==> v.VBool?
    ensures r.Success? ==> r.value == v.boolean
  {
    if v.VBool? then Success(v.boolean) else Failure(TypeMismatch(name, TypeOf(v), EdmBoolean))
  }

  function DateTimeOffsetValue(name: string, v: Value): (r: Result<Option<Instant>, Error>)
    ensures r.Success? <==> v.VTime?
    ensures r.Success? ==> r.value == v.ticks
  {
    if v.VTime? then Success(v.ticks) else Failure(TypeMismatch(name, TypeOf(v), EdmDateTime))
  }

  // ---- get-with-default over the bag ----

  function GetStringValue(bag: Bag, name: string, defaultValue: Option<string> := None): (r: Result<Option<string>, Error>)
    ensures name !in bag ==> r == Success(defaultValue)
    ensures name in bag && bag[name].VString? ==> r == Success(bag[name].str)
    ensures name in bag && !bag[name].VString? ==> r.Failure?
  {
    if name in bag then StringValue(name, bag[name]) else Success(defaultValue)
  }

  function GetIntValue(bag: Bag, name: string, defaultValue: Option<Int32> := None): (r: Result<Option<Int32>, Error>)
    ensures name !in bag ==> r == Success(defaultValue)
    ensures name in bag && bag[name].VInt? ==> r == Success(bag[name].int32)
    ensures name in bag && !bag[name].VInt? ==> r.Failure?
  {
    if name in bag then Int32Value(name, bag[name]) else Success(defaultValue)
  }

  function GetDateTimeValue(bag: Bag, name: string, defaultValue: Option<Instant> := None): (r: Result<Option<Instant>, Error>)
    ensures name !in bag ==> r == Success(defaultValue)
    ensures name in bag && bag[name].VTime? ==> r == Success(bag[name].ticks)
    ensures name in bag && !bag[name].VTime? ==> r.Failure?
  {
    if name in bag then DateTimeOffsetValue(name, bag[name]) else Success(defaultValue)
  }

  function GetBooleanValue(bag: Bag, name: string, defaultValue: Option<bool> := None): (r: Result<Option<bool>, Error>)
    ensures name !in bag ==> r == Success(defaultValue)
    ensures name in bag && bag[name].VBool? ==> r == Success(bag[name].boolean)
    ensures name in bag && !bag[name].VBool? ==> r.Failure?
  {
    if name in bag then BooleanValue(name, bag[name]) else Success(defaultValue)
  }

  /**
   * A string property written by a setter reads back as written, and every
   * other property reads as it did.
   */
  lemma StringWriteThenRead(bag: Bag, name: string, value: Option<string>, other: string, defaultValue: Option<string>)
    ensures GetStringValue(bag[name := VString(value)], name, defaultValue) == Success(value)
    ensures other != name ==> GetStringValue(bag[name := VString(value)], other, defaultValue) == GetStringValue(bag, other, defaultValue)
  {
  }

  /** The same for a date property. */
  lemma DateTimeWriteThenRead(bag: Bag, name: string, value: Option<Instant>, other: string, defaultValue: Option<Instant>)
    ensures GetDateTimeValue(bag[name := VTime(value)], name, defaultValue) == Success(value)
    ensures other != name ==> GetDateTimeValue(bag[name := VTime(value)], other, defaultValue) == GetDateTimeValue(bag, other, defaultValue)
  {
  }

  // ---- the object view behind GetProperty<T>, SetProperty<T> and the summary ----

  /** A boxed CLR value, as `PropertyAsObject` returns and `SetProperty<T>` receives it. */
  datatype Boxed =
    | Null
    | BString(s: string)
    | BInt32(i: Int32)
    | BBool(b: bool)
    | BDateTime(dateTime: Instant)
    | BDateTimeOffset(instant: Instant)
    | BOpaque(blob: nat)

  /** A property holding null. */
  predicate IsNull(v: Value) {
    || (v.VString? && v.str.None?) || (v.VInt? && v.int32.None?)
    || (v.VBool? && v.boolean.None?) || (v.VTime? && v.ticks.None?)
    || (v.VOther? && v.blob.None?)
  }

  /** `EntityProperty.PropertyAsObject`: the stored value boxed, null for a null property. */
  function PropertyAsObject(v: Value): (o: Boxed)
    ensures o == Null <==> IsNull(v)
    ensures !IsNull(v) ==> FromObject(o) == v
  {
    match v
    case VString(s) => if s.Some? then BString(s.value) else Null
    case VInt(i) => if i.Some? then BInt32(i.value) else Null
    case VBool(b) => if b.Some? then BBool(b.value) else Null
    case VTime(t) => if t.Some? then BDateTime(t.value) else Null
    case VOther(blob) => if blob.Some? then BOpaque(blob.value) else Null
  }

  /**
   * `EntityProperty.CreateEntityPropertyFromObject`: the stored property for
   * a boxed value; null is stored as a null string, and a `DateTimeOffset`
   * as the date of its UTC instant.
   */
  function FromObject(o: Boxed): (v: Value)
    ensures IsNull(v) <==> o.Null?
  {
    match o
    case Null => VString(None)
    case BString(s) => VString(Some(s))
    case BInt32(i) => VInt(Some(i))
    case BBool(b) => VBool(Some(b))
    case BDateTime(t) => VTime(Some(t))
    case BDateTimeOffset(t) => VTime(Some(t))
    case BOpaque(blob) => VOther(Some(blob))
  }

  /**
   * Storing an object and boxing the stored property gives the object back,
   * except that a `DateTimeOffset` comes back as the `DateTime` it is stored as.
   */
  lemma StoreThenBox(o: Boxed)
    ensures PropertyAsObject(FromObject(o)) == (if o.BDateTimeOffset? then BDateTime(o.instant) else o)
  {
  }

  /** Whether a boxed value is a value of the target type. */
  predicate HasType(o: Boxed, t: Target) {
    match t
    case TString => o.Null? || o.BString?
    case TInt32 => o.BInt32?
    case TNullableInt32 => o.Null? || o.BInt32?
    case TBoolean => o.BBool?
    case TNullableBoolean => o.Null? || o.BBool?
    case TDateTimeOffset => o.BDateTimeOffset?
    case TObject => true
  }

  /** `default(T)`: null for reference and nullable types, zero for the others. */
  function DefaultOf(t: Target): (o: Boxed)
    ensures HasType(o, t)
  {
    match t
    case TInt32 => BInt32(0)
    case TBoolean => BBool(false)
    case TDateTimeOffset => BDateTimeOffset(0)
    case _ => Null
  }

  /**
   * The conversion `GetProperty<T>` applies to a stored object: a cast for
   * every target but `DateTimeOffset`, which is built from a stored
   * `DateTime`.  `None` when the cast or the construction throws.
   */
  function Convert(o: Boxed, t: Target): (r: Option<Boxed>)
    ensures r.Some? ==> HasType(r.value, t)
    ensures t != TDateTimeOffset ==> (r.Some? <==> HasType(o, t)) && (r.Some? ==> r.value == o)
    ensures t == TDateTimeOffset ==> (r.Some? <==> o.BDateTime?)
    ensures t == TDateTimeOffset && r.Some? ==> r.value == BDateTimeOffset(o.dateTime)
  {
    match t
    case TDateTimeOffset => if o.BDateTime? then Some(BDateTimeOffset(o.dateTime)) else None
    case _ => if HasType(o, t) then Some(o) else None
  }

  /**
   * `GetProperty<T>(name)`: the stored value converted to the target type,
   * `default(T)` when the name is absent, and a failure, never a default,
   * when a stored value does not convert.
   */
  function GetPropertyOf(bag: Bag, name: string, t: Target): (r: Result<Boxed, Error>)
    ensures name !in bag ==> r == Success(DefaultOf(t))
    ensures r.Success? ==> HasType(r.value, t)
    ensures r.Failure? <==> name in bag && Convert(PropertyAsObject(bag[name]), t).None?
    ensures r.Failure? ==> r.error == ConversionFailed(name, t)
    ensures name in bag && r.Success? ==> Some(r.value) == Convert(PropertyAsObject(bag[name]), t)
  {
    if name in bag then
      match Convert(PropertyAsObject(bag[name]), t)
      case Some(o) => Success(o)
      case None => Failure(ConversionFailed(name, t))
    else
      Success(DefaultOf(t))
  }

  /**
   * `SetProperty<T>` followed by `GetProperty<T>` of the same name and type
   * gives back the value written, except that a `DateTimeOffset` read back
   * as `object` comes back as the `DateTime` it is stored as; other names
   * read as they did.
   */
  lemma SetThenGetProperty(bag: Bag, name: string, o: Boxed, t: Target, other: string, u: Target)
    requires HasType(o, t)
    ensures GetPropertyOf(bag[name := FromObject(o)], name, t)
      == Success(if o.BDateTimeOffset? && t == TObject then BDateTime(o.instant) else o)
    ensures other != name ==> GetPropertyOf(bag[name := FromObject(o)], other, u) == GetPropertyOf(bag, other, u)
  {
  }

  /** The text of a value read as `string`. */
  function AsText(o: Boxed): (s: Option<string>)
    ensures s.Some? <==> o.BString?
    ensures s.Some? ==> s.value == o.s
  {
    if o.BString? then Some(o.s) else None
  }
}
