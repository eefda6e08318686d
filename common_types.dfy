/** The value types of CommonTypes.cs: the capability an option uses to check
    (`Validate`) and convert (`FromString`) each raw argument. */
module CommonTypes {
  import opened Common

  /** `AbstractType` and its subclasses. `StringType` and `EnumStringType` keep
      their own logic (the list of an `EnumStringType` may hold `null` entries, as
      a C# `string[]` can); `BoolType`, `DoubleType` and any user subclass wrap a
      foreign parser, so only their `Validate` verdict is kept, as `accepts`. */
  datatype ValueType =
    | StringType
    | EnumStringType(allowedStrings: seq<Nullable<string>>)
    | Foreign(name: string, accepts: string -> bool)

  /** `ValueType.Validate(value)`. */
  function Validate(valueType: ValueType, value: Nullable<string>): (valid: bool)
    ensures valueType.StringType? ==> (valid <==> value.NonNull?)
    ensures valueType.EnumStringType? ==> (valid <==> value in valueType.allowedStrings)
    ensures valid && value.Null? ==> valueType.EnumStringType? && Null in valueType.allowedStrings
  {
    match valueType
    case StringType => value != Null
    case EnumStringType(allowed) => value in allowed
    case Foreign(_, accepts) => value.NonNull? && accepts(value.value)
  }

  /** `ValueType.FromString(value)` for the two value types whose conversion is
      part of the library: a string value converts to itself. */
  function FromString(valueType: ValueType, value: Nullable<string>): (r: Result<Nullable<string>>)
    requires !valueType.Foreign?
    ensures r.Ok? ==> r.value == value
    ensures valueType.StringType? ==> r.Ok?
    ensures valueType.EnumStringType? ==> (r.Ok? <==> Validate(valueType, value))
    ensures r.Err? ==> r.error == NotImplemented
  {
    match valueType
    case StringType => Ok(value)
    case EnumStringType(allowed) =>
      if value in allowed then Ok(value) else Err(NotImplemented)
  }

  /** Every value a validating type accepts converts without error, and to itself. */
  lemma ValidValuesConvert(valueType: ValueType, value: Nullable<string>)
    requires !valueType.Foreign? && Validate(valueType, value)
    ensures FromString(valueType, value) == Ok(value)
  {
  }

  /** `null` is accepted exactly by an enumeration whose list holds a `null` entry. */
  lemma NullValidity(valueType: ValueType)
    ensures Validate(valueType, Null) <==> valueType.EnumStringType? && Null in valueType.allowedStrings
    ensures valueType.EnumStringType? ==> (FromString(valueType, Null).Ok? <==> Null in valueType.allowedStrings)
  {
  }
}
