/** Option.cs: the arity of an option and the option itself, which owns its
    switches and the list of argument values bound to it while parsing. */
module Options {
  import opened Common
  import opened Text
  import opened CommonTypes

  /** `OptionArity`: how many argument values an option takes. The constructor stores
      both bounds as given and does not check that the minimum is at most the maximum. */
  datatype Arity = Arity(minimalOccurs: uint32, maximalOccurs: uint32)

  /** The bounds are ordered; the tokenizer's `Debug.Assert` relies on it. */
  predicate WellFormed(arity: Arity) {
    arity.minimalOccurs <= arity.maximalOccurs
  }

  /** The factory properties of `OptionArity`. */
  const NoArgument: Arity := Arity(0, 0)
  const OptionalArgument: Arity := Arity(0, 1)
  const OneArgument: Arity := Arity(1, 1)
  const OneOrMoreArguments: Arity := Arity(1, UIntMax)
  const ZeroOrMoreArguments: Arity := Arity(0, UIntMax)

  /** The five factory arities are well formed, and only the two "one ..." factories
      demand an argument; the "more" factories are bounded by `uint.MaxValue`. */
  lemma FactoryArities()
    ensures WellFormed(NoArgument) && WellFormed(OptionalArgument) && WellFormed(OneArgument)
    ensures WellFormed(OneOrMoreArguments) && WellFormed(ZeroOrMoreArguments)
    ensures NoArgument.maximalOccurs == 0 && OptionalArgument.maximalOccurs == 1
    ensures OneArgument.minimalOccurs == 1 && OneOrMoreArguments.minimalOccurs == 1
    ensures NoArgument.minimalOccurs == OptionalArgument.minimalOccurs == ZeroOrMoreArguments.minimalOccurs == 0
    ensures OneOrMoreArguments.maximalOccurs == ZeroOrMoreArguments.maximalOccurs == 0xFFFF_FFFF
  {
  }

  /** `Option.Mode`: accepted by the constructor and then discarded. */
  datatype Mode = Optional | Required

  /** `Option`: the switches identifying an option, its arity and value type, and
      the argument values bound to it (append-only). */
  class Option {
    const switches: seq<string>
    const arity: Arity
    const valueType: ValueType
    var arguments: seq<string>

    /** The body of the six-parameter constructor once its null checks passed:
        the switches are the space-separated words of `switchesText`. */
    constructor (switchesText: string, optionArity: Arity, valueType: ValueType)
      ensures switches == Words(switchesText)
      ensures arity == optionArity && this.valueType == valueType
      ensures arguments == []
    {
      switches := Words(switchesText);
      arity := optionArity;
      this.valueType := valueType;
      arguments := [];
    }

    /** `new Option(switches, description, defaultValue, mode, optionArity, valueType)`:
        null `switches` or `description` throw; `description`, `defaultValue` and
        `mode` are not stored. */
    static method Create<D>(switchesText: Nullable<string>, description: Nullable<string>, defaultValue: D,
                            mode: Mode, optionArity: Arity, valueType: ValueType)
      returns (r: Result<Option>)
      ensures switchesText.Null? ==> r == Err(ArgumentNull("switches"))
      ensures switchesText.NonNull? && description.Null? ==> r == Err(ArgumentNull("description"))
      ensures r.Ok? <==> switchesText.NonNull? && description.NonNull?
      ensures r.Ok? ==> fresh(r.value) && r.value.switches == Words(switchesText.value)
      ensures r.Ok? ==> r.value.arity == optionArity && r.value.valueType == valueType && r.value.arguments == []
    {
      if switchesText.Null? {
        return Err(ArgumentNull("switches"));
      }
      if description.Null? {
        return Err(ArgumentNull("description"));
      }
      var option := new Option(switchesText.value, optionArity, valueType);
      r := Ok(option);
    }

    /** `new Option(switches, description, mode, optionArity, valueType)`: no default value. */
    static method CreateWithoutDefault(switchesText: Nullable<string>, description: Nullable<string>,
                                       mode: Mode, optionArity: Arity, valueType: ValueType)
      returns (r: Result<Option>)
      ensures r.Ok? <==> switchesText.NonNull? && description.NonNull?
      ensures r.Ok? ==> fresh(r.value) && r.value.switches == Words(switchesText.value)
      ensures r.Ok? ==> r.value.arity == optionArity && r.value.valueType == valueType && r.value.arguments == []
    {
      var noDefault: Nullable<string> := Null;
      r := Create(switchesText, description, noDefault, mode, optionArity, valueType);
    }

    /** `new Option(switches, description)`: an optional flag, `NoArgument` arity,
        validated as a boolean (the foreign `bool.TryParse`, given as `boolAccepts`). */
    static method CreateFlag(switchesText: Nullable<string>, description: Nullable<string>, boolAccepts: string -> bool)
      returns (r: Result<Option>)
      ensures r.Ok? <==> switchesText.NonNull? && description.NonNull?
      ensures r.Ok? ==> fresh(r.value) && r.value.switches == Words(switchesText.value)
      ensures r.Ok? ==> r.value.arity == NoArgument && r.value.valueType == Foreign("BoolType", boolAccepts)
      ensures r.Ok? ==> r.value.arguments == []
    {
      r := Create(switchesText, description, false, Optional, NoArgument, Foreign("BoolType", boolAccepts));
    }

    /** The `Switches` getter: a fresh copy, so callers never reach the option's own array. */
    method Switches() returns (copy: array<string>)
      ensures fresh(copy) && copy[..] == switches
    {
      copy := new string[|switches|](i requires 0 <= i < |switches| => switches[i]);
    }

    /** The indexer `this[position]`: the argument bound at that position, or the
        list's out-of-range exception. */
    function Get(position: int): (r: Result<string>)
      reads this
      ensures r.Ok? <==> 0 <= position < |arguments|
      ensures r.Ok? ==> r.value == arguments[position]
      ensures r.Err? ==> r.error == IndexOutOfRange(position)
    {
      if 0 <= position < |arguments| then Ok(arguments[position]) else Err(IndexOutOfRange(position))
    }

    /** `ArgumentsCount`: the number of values bound so far. */
    function ArgumentsCount(): (count: nat)
      reads this
      ensures count == |arguments|
    {
      |arguments|
    }

    /** `AddArgumentValue`: appends one value at the end; earlier values keep their positions. */
    method AddArgumentValue(argument: string)
      modifies this
      ensures arguments == old(arguments) + [argument]
      ensures ArgumentsCount() == old(ArgumentsCount()) + 1
      ensures forall i :: 0 <= i < old(ArgumentsCount()) ==> Get(i) == old(Get(i))
      ensures Get(old(ArgumentsCount())) == Ok(argument)
    {
      arguments := arguments + [argument];
    }
  }
}
