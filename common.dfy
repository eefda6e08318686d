/** Shared vocabulary of the option parser: C#'s nullable references, the
    32-bit unsigned counters, and the exceptions the library raises, as values. */
module Common {

  /** A C# reference that may be null (a `string` value, or `OptionArity?`). */
  datatype Nullable<+T> = Null | NonNull(value: T)

  /** C#'s `uint`. */
  newtype uint32 = x: int | 0 <= x < 0x1_0000_0000

  /** `uint.MaxValue`, used both as "unbounded" arity and as the tokenizer's "no option" count. */
  const UIntMax: uint32 := 0xFFFF_FFFF

  /** The exceptions of the library (Exceptions.cs) and the system exceptions the core raises. */
  datatype Error =
    | RequiredOptionIsMissing(switchIdentifier: string)
    | RequiredArgumentIsMissing(switchIdentifier: string)
    | ArgumentValidity
    | DuplicitOptionSwitch(switchIdentifier: string)
    | SwitchNotRegistred(switchIdentifier: string)
    | OptionNotFound(optionIdentifier: string)
    /** `ArgumentNullException` with the parameter name. */
    | ArgumentNull(paramName: string)
    /** `ArgumentException` raised for a repeated switch in a switch list. */
    | RepeatedSwitch(switchIdentifier: string)
    /** `ArgumentException` raised by `Dictionary.Add` for a key already present. */
    | DuplicateKey(key: string)
    /** `NotImplementedException` (EnumStringType.FromString on a value not allowed). */
    | NotImplemented
    /** `ArgumentOutOfRangeException` of a list indexer. */
    | IndexOutOfRange(position: int)
    /** `ArgumentOutOfRangeException` of `Substring` asked for a negative length. */
    | NegativeLength(length: int)
    /** `NullReferenceException`: a member accessed through a null reference. */
    | NullReference
    /** `InvalidOperationException` of `First()` on an empty sequence. */
    | NoElements

  /** A value, or the exception that aborted its computation. */
  datatype Result<+T> = Ok(value: T) | Err(error: Error)

  /** Completion of a `void` operation: normal return or the exception thrown. */
  datatype Outcome = Pass | Fail(error: Error)

  /** Sequence concatenation is associative; stated once so that proofs about
      growing lists do not rediscover it. */
  lemma AppendAssociative<T>(a: seq<T>, b: seq<T>, c: seq<T>)
    ensures (a + b) + c == a + (b + c)
  {
  }
}
