/** Tokenizer.cs: the token variant and the `SmartTokenizer`, which prepares the
    raw strings (splitting at `=`, exploding `-abc`) and classifies each prepared
    string as an option, an argument of the option before it, or the end-of-options
    marker, honouring each registered option's minimal and maximal arity. */
module Tokenizer {
  import opened Common
  import opened Text
  import opened Options

  /** The closed `Token` hierarchy: `OptionToken`, `ArgumentToken`, `TreatAsArgumentToken`. */
  datatype Token = OptionToken(value: string) | ArgumentToken(value: string) | TreatAsArgumentToken

  /** `Token.Value`: a `TreatAsArgumentToken` never sets it, so it reads null. */
  function ValueOf(token: Token): (v: Nullable<string>)
    ensures v.Null? <==> token.TreatAsArgumentToken?
    ensures v.NonNull? ==> v.value == token.value
  {
    match token
    case OptionToken(value) => NonNull(value)
    case ArgumentToken(value) => NonNull(value)
    case TreatAsArgumentToken => Null
  }

  const ShortOptionStarter: string := "-"
  const LongOptionStarter: string := "--"
  const TreatAsArgumentMark: string := "--"
  const MappingSymbol: char := '='

  // ---------------------------------------------------------------------------
  // PrepareInput

  /** The first stage of `PrepareInput`: every string split at every `=`, empty pieces dropped. */
  function SplitMappings(input: seq<string>): seq<string> {
    if input == [] then []
    else SplitMappings(input[..|input| - 1]) + Split(input[|input| - 1], {MappingSymbol})
  }

  /** A string starting with the short prefix but not the long one: a cluster of short flags. */
  predicate IsShortCluster(s: string) {
    StartsWith(s, ShortOptionStarter) && !StartsWith(s, LongOptionStarter)
  }

  /** The second stage of `PrepareInput` for one string: `-abc` becomes `-a`, `-b`, `-c`
      (a lone `-` becomes nothing); any other string stays as it is. */
  function Explode(s: string): seq<string> {
    if IsShortCluster(s) then ShortFlags(s[|ShortOptionStarter|..]) else [s]
  }

  /** One short option per character of `flags`, in order. */
  function ShortFlags(flags: string): seq<string> {
    if flags == [] then [] else ShortFlags(flags[..|flags| - 1]) + [ShortOptionStarter + [flags[|flags| - 1]]]
  }

  lemma {:induction false} ShortFlagsShape(flags: string)
    ensures |ShortFlags(flags)| == |flags|
    ensures forall i :: 0 <= i < |flags| ==> ShortFlags(flags)[i] == ShortOptionStarter + [flags[i]]
    decreases |flags|
  {
    if flags != [] {
      ShortFlagsShape(flags[..|flags| - 1]);
    }
  }

  /** `-abc` becomes `-a`, `-b`, `-c` (a lone `-` becomes nothing); any other string stays as it is. */
  lemma ExplodeShape(s: string)
    ensures IsShortCluster(s) ==> |Explode(s)| == |s| - 1
    ensures IsShortCluster(s) ==> forall i :: 0 <= i < |s| - 1 ==> Explode(s)[i] == ShortOptionStarter + [s[i + 1]]
    ensures !IsShortCluster(s) ==> Explode(s) == [s]
  {
    if IsShortCluster(s) {
      ShortFlagsShape(s[|ShortOptionStarter|..]);
    }
  }

  function ExplodeAll(xs: seq<string>): seq<string> {
    if xs == [] then [] else ExplodeAll(xs[..|xs| - 1]) + Explode(xs[|xs| - 1])
  }

  /** `SmartTokenizer.PrepareInput`, as a function of the raw strings. */
  function Prepare(input: seq<string>): seq<string> {
    ExplodeAll(SplitMappings(input))
  }

  lemma SplitMappingsSnoc(xs: seq<string>, i: nat)
    requires i < |xs|
    ensures SplitMappings(xs[..i + 1]) == SplitMappings(xs[..i]) + Split(xs[i], {MappingSymbol})
  {
    assert xs[..i + 1][..i] == xs[..i];
  }

  lemma ExplodeAllSnoc(xs: seq<string>, i: nat)
    requires i < |xs|
    ensures IsShortCluster(xs[i]) ==>
              ExplodeAll(xs[..i + 1]) == ExplodeAll(xs[..i]) + ShortFlags(xs[i][|ShortOptionStarter|..])
    ensures !IsShortCluster(xs[i]) ==> ExplodeAll(xs[..i + 1]) == ExplodeAll(xs[..i]) + [xs[i]]
  {
    assert xs[..i + 1][..i] == xs[..i];
  }

  lemma ShortFlagsSnoc(s: string, j: nat)
    requires |ShortOptionStarter| <= j < |s|
    ensures ShortFlags(s[|ShortOptionStarter|..j + 1]) == ShortFlags(s[|ShortOptionStarter|..j]) + [ShortOptionStarter + [s[j]]]
  {
    assert s[|ShortOptionStarter|..j + 1][..j - |ShortOptionStarter|] == s[|ShortOptionStarter|..j];
  }

  /** `SmartTokenizer.PrepareInput`: the two loops filling `mapping` and then `result`. */
  method PrepareInput(input: seq<string>) returns (result: seq<string>)
    ensures result == Prepare(input)
  {
    var mapping: seq<string> := [];
    for i := 0 to |input|
      invariant mapping == SplitMappings(input[..i])
    {
      var exploded := Split(input[i], {MappingSymbol});
      SplitMappingsSnoc(input, i);
      mapping := mapping + exploded;
    }
    assert input[..|input|] == input;
    result := ExplodeShortOptions(mapping);
  }

  /** The second loop of `PrepareInput`: `-abc` exploded, every other string copied. */
  method ExplodeShortOptions(mapping: seq<string>) returns (result: seq<string>)
    ensures result == ExplodeAll(mapping)
  {
    result := [];
    for i := 0 to |mapping|
      invariant result == ExplodeAll(mapping[..i])
    {
      var s := mapping[i];
      ExplodeAllSnoc(mapping, i);
      if StartsWith(s, ShortOptionStarter) && !StartsWith(s, LongOptionStarter) {
        ghost var done := result;
        for j := |ShortOptionStarter| to |s|
          invariant result == done + ShortFlags(s[|ShortOptionStarter|..j])
        {
          ShortFlagsSnoc(s, j);
          AppendAssociative(done, ShortFlags(s[|ShortOptionStarter|..j]), [ShortOptionStarter + [s[j]]]);
          result := result + [ShortOptionStarter + [s[j]]];
        }
        assert s[|ShortOptionStarter|..|s|] == s[|ShortOptionStarter|..];
      } else {
        result := result + [s];
      }
    }
    assert mapping[..|mapping|] == mapping;
  }

  lemma {:induction false} SplitMappingsAppend(a: seq<string>, b: seq<string>)
    ensures SplitMappings(a + b) == SplitMappings(a) + SplitMappings(b)
    decreases |b|
  {
    if b == [] {
      assert a + b == a;
    } else {
      var init, last := b[..|b| - 1], b[|b| - 1];
      assert (a + b)[..|a + b| - 1] == a + init && (a + b)[|a + b| - 1] == last;
      SplitMappingsAppend(a, init);
      AppendAssociative(SplitMappings(a), SplitMappings(init), Split(last, {MappingSymbol}));
    }
  }

  lemma {:induction false} ExplodeAllAppend(a: seq<string>, b: seq<string>)
    ensures ExplodeAll(a + b) == ExplodeAll(a) + ExplodeAll(b)
    decreases |b|
  {
    if b == [] {
      assert a + b == a;
    } else {
      var init, last := b[..|b| - 1], b[|b| - 1];
      assert (a + b)[..|a + b| - 1] == a + init && (a + b)[|a + b| - 1] == last;
      ExplodeAllAppend(a, init);
      AppendAssociative(ExplodeAll(a), ExplodeAll(init), Explode(last));
    }
  }

  /** Preparation works string by string: preparing a concatenation concatenates the results. */
  lemma PrepareAppend(a: seq<string>, b: seq<string>)
    ensures Prepare(a + b) == Prepare(a) + Prepare(b)
  {
    SplitMappingsAppend(a, b);
    ExplodeAllAppend(SplitMappings(a), SplitMappings(b));
  }

  /** `--foo=bar` prepares to the same list as `--foo`, `bar`: a string is split at
      an `=` whatever its two sides hold (every `=`, not only the first). */
  lemma PrepareSplitsAtEquals(a: string, b: string)
    ensures Prepare([a + "=" + b]) == Prepare([a, b])
  {
    var d := {MappingSymbol};
    assert [a + "=" + b][..0] == [] && [a, b][..1] == [a] && [a][..0] == [];
    assert SplitMappings([a + "=" + b]) == Split(a + "=" + b, d);
    assert SplitMappings([a]) == Split(a, d);
    assert SplitMappings([a, b]) == Split(a, d) + Split(b, d);
    assert a + "=" + b == a + [MappingSymbol] + b;
    SplitAtDelimiter(a, MappingSymbol, b, d);
  }

  /** A prepared string: non-empty, free of `=`, and left unchanged by explosion. */
  predicate Prepared(p: string) {
    p != [] && Undelimited(p, {MappingSymbol}) && Explode(p) == [p]
  }

  lemma ExplodePrepared(s: string)
    requires s != [] && Undelimited(s, {MappingSymbol})
    ensures forall i :: 0 <= i < |Explode(s)| ==> Prepared(Explode(s)[i])
  {
    ExplodeShape(s);
    if IsShortCluster(s) {
      forall i | 0 <= i < |Explode(s)| ensures Prepared(Explode(s)[i]) {
        var p := Explode(s)[i];
        assert p == ShortOptionStarter + [s[i + 1]];
        assert |p| == 2 && p[0] == '-';
        ExplodeShape(p);
        if p[1] == '-' {
          assert StartsWith(p, LongOptionStarter);
        } else {
          assert Explode(p)[0] == ShortOptionStarter + [p[1]] == p;
        }
      }
    }
  }

  lemma {:induction false} SplitMappingsPieces(xs: seq<string>)
    ensures forall i :: 0 <= i < |SplitMappings(xs)| ==>
      SplitMappings(xs)[i] != [] && Undelimited(SplitMappings(xs)[i], {MappingSymbol})
    decreases |xs|
  {
    if xs != [] {
      SplitMappingsPieces(xs[..|xs| - 1]);
    }
  }

  lemma {:induction false} ExplodeAllPrepared(xs: seq<string>)
    requires forall i :: 0 <= i < |xs| ==> xs[i] != [] && Undelimited(xs[i], {MappingSymbol})
    ensures forall i :: 0 <= i < |ExplodeAll(xs)| ==> Prepared(ExplodeAll(xs)[i])
    decreases |xs|
  {
    if xs != [] {
      ExplodeAllPrepared(xs[..|xs| - 1]);
      ExplodePrepared(xs[|xs| - 1]);
    }
  }

  /** Every string `PrepareInput` produces is non-empty, has no `=`, and would not be
      exploded again. */
  lemma PreparedStrings(xs: seq<string>)
    ensures forall i :: 0 <= i < |Prepare(xs)| ==> Prepared(Prepare(xs)[i])
  {
    SplitMappingsPieces(xs);
    ExplodeAllPrepared(SplitMappings(xs));
  }

  lemma {:induction false} SplitMappingsFixes(ys: seq<string>)
    requires forall i :: 0 <= i < |ys| ==> ys[i] != [] && Undelimited(ys[i], {MappingSymbol})
    ensures SplitMappings(ys) == ys
    decreases |ys|
  {
    if ys != [] {
      var init, last := ys[..|ys| - 1], ys[|ys| - 1];
      SplitMappingsFixes(init);
      SplitUndelimited(last, {MappingSymbol});
      assert init + [last] == ys;
    }
  }

  lemma {:induction false} ExplodeAllFixes(ys: seq<string>)
    requires forall i :: 0 <= i < |ys| ==> Explode(ys[i]) == [ys[i]]
    ensures ExplodeAll(ys) == ys
    decreases |ys|
  {
    if ys != [] {
      var init, last := ys[..|ys| - 1], ys[|ys| - 1];
      ExplodeAllFixes(init);
      assert init + [last] == ys;
    }
  }

  lemma PrepareFixes(ys: seq<string>)
    requires forall i :: 0 <= i < |ys| ==> Prepared(ys[i])
    ensures Prepare(ys) == ys
  {
    SplitMappingsFixes(ys);
    ExplodeAllFixes(ys);
  }

  /** Preparing prepared input changes nothing, so tokenizing an already exploded
      `-abc` gives what tokenizing `-abc` gives. */
  lemma PrepareIdempotent(xs: seq<string>)
    ensures Prepare(Prepare(xs)) == Prepare(xs)
  {
    PreparedStrings(xs);
    PrepareFixes(Prepare(xs));
  }

  /** The `Debug.Assert` on short options holds: after preparation a string with the
      short prefix but not the long one is exactly two characters long. */
  lemma ShortOptionsAreSingleCharacters(xs: seq<string>)
    ensures forall i :: 0 <= i < |Prepare(xs)| && IsShortCluster(Prepare(xs)[i]) ==> |Prepare(xs)[i]| == 2
  {
    PreparedStrings(xs);
    forall i | 0 <= i < |Prepare(xs)| && IsShortCluster(Prepare(xs)[i]) ensures |Prepare(xs)[i]| == 2 {
      ExplodeShape(Prepare(xs)[i]);
      assert |Explode(Prepare(xs)[i])| == 1;
    }
  }

  // ---------------------------------------------------------------------------
  // Tokenize

  /** `TreatMode`: how the next string is read. */
  datatype TreatMode = None | OptionArgument | Argument

  /** The running context of `Tokenize`: the mode, `lastOptionArgumentCount` and `lastOptionArity`. */
  datatype Context = Context(treatMode: TreatMode, argumentCount: uint32, optionArity: Nullable<Arity>)

  const StartContext: Context := Context(None, UIntMax, Null)

  /** Every registered arity is well formed (required by the `Debug.Assert` in `AddArgument`). */
  predicate ArityMapOk(options: map<string, Arity>) {
    forall name :: name in options ==> WellFormed(options[name])
  }

  /** While option arguments are expected there is an arity and room under its maximum:
      the `Debug.Assert` of `AddArgument` never fails. */
  predicate Consistent(ctx: Context) {
    && (ctx.optionArity.NonNull? ==> WellFormed(ctx.optionArity.value))
    && (ctx.treatMode.OptionArgument? ==>
          ctx.optionArity.NonNull? && ctx.argumentCount < ctx.optionArity.value.maximalOccurs)
  }

  /** The context update of `AddArgument`. */
  function AfterArgument(ctx: Context): (next: Context)
    requires ctx.optionArity.NonNull? && ctx.argumentCount < ctx.optionArity.value.maximalOccurs
    ensures Consistent(ctx) ==> Consistent(next)
  {
    var arity := ctx.optionArity.value;
    var count := ctx.argumentCount + 1;
    var mode := if count >= arity.minimalOccurs then None else ctx.treatMode;
    if count == arity.maximalOccurs then Context(mode, UIntMax, Null) else Context(mode, count, ctx.optionArity)
  }

  /** The context update of `AddOption`: a registered option demanding arguments opens
      the argument mode with a zero count. */
  function AfterOption(options: map<string, Arity>, option: string, ctx: Context): (next: Context)
    requires ArityMapOk(options)
    ensures Consistent(ctx) ==> Consistent(next)
  {
    if option in options && options[option].minimalOccurs > 0
    then Context(OptionArgument, 0, NonNull(options[option]))
    else ctx
  }

  /** One iteration of the `foreach` of `Tokenize`: the token emitted for `input` and the new context. */
  function Step(options: map<string, Arity>, ignoreCase: bool, ctx: Context, input: string): (r: (Token, Context))
    requires ArityMapOk(options) && Consistent(ctx)
    ensures Consistent(r.1)
  {
    if ctx.treatMode == Argument then (ArgumentToken(input), ctx)
    else if SameText(ignoreCase, input, TreatAsArgumentMark) then (TreatAsArgumentToken, ctx.(treatMode := Argument))
    else if ctx.treatMode == OptionArgument then (ArgumentToken(input), AfterArgument(ctx))
    else if StartsWith(input, LongOptionStarter) then
      (OptionToken(input[|LongOptionStarter|..]), AfterOption(options, input[|LongOptionStarter|..], ctx))
    else if StartsWith(input, ShortOptionStarter) then
      (OptionToken(input[|ShortOptionStarter|..]), AfterOption(options, input[|ShortOptionStarter|..], ctx))
    else (ArgumentToken(input), ctx)
  }

  /** The tokens `Tokenize` emits for the prepared strings `inputs` from context `ctx`:
      exactly one per string, in order. */
  function Run(options: map<string, Arity>, ignoreCase: bool, ctx: Context, inputs: seq<string>): (tokens: seq<Token>)
    requires ArityMapOk(options) && Consistent(ctx)
    ensures |tokens| == |inputs|
    decreases |inputs|
  {
    if inputs == [] then []
    else
      var (token, next) := Step(options, ignoreCase, ctx, inputs[0]);
      [token] + Run(options, ignoreCase, next, inputs[1..])
  }

  lemma RunStep(options: map<string, Arity>, ignoreCase: bool, ctx: Context, inputs: seq<string>)
    requires ArityMapOk(options) && Consistent(ctx) && inputs != []
    ensures Run(options, ignoreCase, ctx, inputs)
            == [Step(options, ignoreCase, ctx, inputs[0]).0]
               + Run(options, ignoreCase, Step(options, ignoreCase, ctx, inputs[0]).1, inputs[1..])
  {
  }

  /** One more string consumed: the invariant of the `foreach` of `Tokenize` advances. */
  lemma RunAdvance(options: map<string, Arity>, ignoreCase: bool, inputs: seq<string>, i: nat,
                   ctx: Context, before: seq<Token>)
    requires ArityMapOk(options) && Consistent(ctx) && i < |inputs|
    requires before + Run(options, ignoreCase, ctx, inputs[i..]) == Run(options, ignoreCase, StartContext, inputs)
    ensures var step := Step(options, ignoreCase, ctx, inputs[i]);
            (before + [step.0]) + Run(options, ignoreCase, step.1, inputs[i + 1..])
            == Run(options, ignoreCase, StartContext, inputs)
  {
    var step := Step(options, ignoreCase, ctx, inputs[i]);
    assert inputs[i..][0] == inputs[i] && inputs[i..][1..] == inputs[i + 1..];
    RunStep(options, ignoreCase, ctx, inputs[i..]);
    var rest := Run(options, ignoreCase, step.1, inputs[i + 1..]);
    assert before + ([step.0] + rest) == (before + [step.0]) + rest;
  }

  /** `SmartTokenizer.Tokenize(options, inputs)`, as a function. */
  function Tokenized(options: map<string, Arity>, ignoreCase: bool, inputs: seq<string>): seq<Token>
    requires ArityMapOk(options)
  {
    Run(options, ignoreCase, StartContext, Prepare(inputs))
  }

  /** `AddArgument(tokens, argument)`. */
  method AddArgument(tokens: seq<Token>, argument: string) returns (result: seq<Token>)
    ensures result == tokens + [ArgumentToken(argument)]
  {
    result := tokens + [ArgumentToken(argument)];
  }

  /** `AddArgument(tokens, argument, ref treatMode, ref argumentCount, ref optionArity)`: the
      `ref` parameters are passed in and returned. It demands an arity with room left,
      counts the argument, leaves the argument mode once the minimum is reached and
      forgets the option once its maximum is reached. */
  method AddArgumentInContext(tokens: seq<Token>, argument: string, treatMode: TreatMode,
                              argumentCount: uint32, optionArity: Nullable<Arity>)
    returns (result: seq<Token>, treatMode': TreatMode, argumentCount': uint32, optionArity': Nullable<Arity>)
    requires optionArity.NonNull? && argumentCount < optionArity.value.maximalOccurs
    ensures result == tokens + [ArgumentToken(argument)]
    ensures Context(treatMode', argumentCount', optionArity') == AfterArgument(Context(treatMode, argumentCount, optionArity))
  {
    result := AddArgument(tokens, argument);
    argumentCount' := argumentCount + 1;
    treatMode', optionArity' := treatMode, optionArity;
    if argumentCount' >= optionArity.value.minimalOccurs {
      treatMode' := None;
    }
    if argumentCount' == optionArity.value.maximalOccurs {
      optionArity' := Null;
      argumentCount' := UIntMax;
    }
  }

  /** `AddOption(tokens, option)`. */
  method AddOption(tokens: seq<Token>, option: string) returns (result: seq<Token>)
    ensures result == tokens + [OptionToken(option)]
  {
    result := tokens + [OptionToken(option)];
  }

  /** `AddOption(tokens, option, options, ref ...)`: the token is emitted whether or not
      the option is registered; a registered option demanding arguments opens the
      argument mode. */
  method AddOptionInContext(tokens: seq<Token>, option: string, options: map<string, Arity>,
                            treatMode: TreatMode, argumentCount: uint32, optionArity: Nullable<Arity>)
    returns (result: seq<Token>, treatMode': TreatMode, argumentCount': uint32, optionArity': Nullable<Arity>)
    requires ArityMapOk(options)
    ensures result == tokens + [OptionToken(option)]
    ensures Context(treatMode', argumentCount', optionArity') == AfterOption(options, option, Context(treatMode, argumentCount, optionArity))
  {
    treatMode', argumentCount', optionArity' := treatMode, argumentCount, optionArity;
    if option in options {
      result := AddOption(tokens, option);
      var arity := options[option];
      if arity.minimalOccurs > 0 {
        treatMode' := OptionArgument;
        argumentCount' := 0;
        optionArity' := NonNull(arity);
      }
    } else {
      result := AddOption(tokens, option);
    }
  }

  /** `SmartTokenizer.Tokenize`: one token per prepared string, as `Run` describes. */
  method Tokenize(options: map<string, Arity>, ignoreCase: bool, inputs: seq<string>) returns (tokens: seq<Token>)
    requires ArityMapOk(options)
    ensures tokens == Tokenized(options, ignoreCase, inputs)
    ensures |tokens| == |Prepare(inputs)|
  {
    var prepared := PrepareInput(inputs);
    tokens := [];
    var treatMode := None;
    var lastOptionArgumentCount := UIntMax;
    var lastOptionArity: Nullable<Arity> := Null;
    for i := 0 to |prepared|
      invariant Consistent(Context(treatMode, lastOptionArgumentCount, lastOptionArity))
      invariant tokens + Run(options, ignoreCase, Context(treatMode, lastOptionArgumentCount, lastOptionArity), prepared[i..])
                == Run(options, ignoreCase, StartContext, prepared)
    {
      var input := prepared[i];
      ghost var before := tokens;
      ghost var ctx := Context(treatMode, lastOptionArgumentCount, lastOptionArity);
      ghost var step := Step(options, ignoreCase, ctx, input);
      if treatMode == Argument {
        tokens := AddArgument(tokens, input);
        assert step == (ArgumentToken(input), ctx);
      } else if SameText(ignoreCase, input, TreatAsArgumentMark) {
        treatMode := Argument;
        tokens := tokens + [TreatAsArgumentToken];
        assert step == (TreatAsArgumentToken, ctx.(treatMode := Argument));
      } else if treatMode == OptionArgument {
        tokens, treatMode, lastOptionArgumentCount, lastOptionArity :=
          AddArgumentInContext(tokens, input, treatMode, lastOptionArgumentCount, lastOptionArity);
        assert step == (ArgumentToken(input), AfterArgument(ctx));
      } else if StartsWith(input, LongOptionStarter) {
        var option := input[|LongOptionStarter|..];
        tokens, treatMode, lastOptionArgumentCount, lastOptionArity :=
          AddOptionInContext(tokens, option, options, treatMode, lastOptionArgumentCount, lastOptionArity);
        assert step == (OptionToken(option), AfterOption(options, option, ctx));
      } else if StartsWith(input, ShortOptionStarter) {
        var option := input[|ShortOptionStarter|..];
        tokens, treatMode, lastOptionArgumentCount, lastOptionArity :=
          AddOptionInContext(tokens, option, options, treatMode, lastOptionArgumentCount, lastOptionArity);
        assert step == (OptionToken(option), AfterOption(options, option, ctx));
      } else {
        tokens := AddArgument(tokens, input);
        assert step == (ArgumentToken(input), ctx);
      }
      assert tokens == before + [step.0];
      assert Context(treatMode, lastOptionArgumentCount, lastOptionArity) == step.1;
      RunAdvance(options, ignoreCase, prepared, i, ctx, before);
    }
  }

  // ---------------------------------------------------------------------------
  // Properties of Tokenize

  /** The context `Tokenize` holds after the strings `inputs`. */
  function Final(options: map<string, Arity>, ignoreCase: bool, ctx: Context, inputs: seq<string>): (last: Context)
    requires ArityMapOk(options) && Consistent(ctx)
    ensures Consistent(last)
    decreases |inputs|
  {
    if inputs == [] then ctx
    else Final(options, ignoreCase, Step(options, ignoreCase, ctx, inputs[0]).1, inputs[1..])
  }

  /** Tokenizing `a + b` is tokenizing `a`, then `b` from where `a` left the context. */
  lemma {:induction false} RunAppend(options: map<string, Arity>, ignoreCase: bool, ctx: Context,
                                     a: seq<string>, b: seq<string>)
    requires ArityMapOk(options) && Consistent(ctx)
    ensures Run(options, ignoreCase, ctx, a + b)
            == Run(options, ignoreCase, ctx, a) + Run(options, ignoreCase, Final(options, ignoreCase, ctx, a), b)
    decreases |a|
  {
    if a == [] {
      assert a + b == b;
    } else {
      var step := Step(options, ignoreCase, ctx, a[0]);
      assert (a + b)[0] == a[0] && (a + b)[1..] == a[1..] + b;
      RunAppend(options, ignoreCase, step.1, a[1..], b);
      AppendAssociative([step.0], Run(options, ignoreCase, step.1, a[1..]),
                        Run(options, ignoreCase, Final(options, ignoreCase, ctx, a), b));
    }
  }

  /** The marker consists of caseless characters, so every comparer recognises exactly `--`. */
  lemma MarkerIsExact(ignoreCase: bool, s: string)
    ensures SameText(ignoreCase, s, TreatAsArgumentMark) <==> s == TreatAsArgumentMark
  {
    SameTextCaseless(ignoreCase, s, TreatAsArgumentMark);
  }

  /** In argument mode every string becomes an `ArgumentToken` with its text unchanged,
      and the mode is never left. */
  lemma {:induction false} ArgumentModeVerbatim(options: map<string, Arity>, ignoreCase: bool, ctx: Context,
                                                inputs: seq<string>)
    requires ArityMapOk(options) && Consistent(ctx) && ctx.treatMode == Argument
    ensures forall j :: 0 <= j < |inputs| ==> Run(options, ignoreCase, ctx, inputs)[j] == ArgumentToken(inputs[j])
    ensures Final(options, ignoreCase, ctx, inputs) == ctx
    decreases |inputs|
  {
    if inputs != [] {
      ArgumentModeVerbatim(options, ignoreCase, ctx, inputs[1..]);
      var tokens := Run(options, ignoreCase, ctx, inputs);
      assert tokens == [ArgumentToken(inputs[0])] + Run(options, ignoreCase, ctx, inputs[1..]);
      forall j | 0 <= j < |inputs| ensures tokens[j] == ArgumentToken(inputs[j]) {
        if j > 0 {
          assert tokens[j] == Run(options, ignoreCase, ctx, inputs[1..])[j - 1];
        }
      }
    }
  }

  /** Argument mode is reached exactly through a marker: it holds after `inputs`
      when it held before or when `--` is among them. */
  lemma {:induction false} ArgumentModeIffMarker(options: map<string, Arity>, ignoreCase: bool, ctx: Context,
                                                 inputs: seq<string>)
    requires ArityMapOk(options) && Consistent(ctx)
    ensures Final(options, ignoreCase, ctx, inputs).treatMode == Argument
            <==> ctx.treatMode == Argument || TreatAsArgumentMark in inputs
    decreases |inputs|
  {
    if inputs == [] {
    } else if ctx.treatMode == Argument {
      ArgumentModeVerbatim(options, ignoreCase, ctx, inputs);
    } else {
      MarkerIsExact(ignoreCase, inputs[0]);
      var next := Step(options, ignoreCase, ctx, inputs[0]).1;
      ArgumentModeIffMarker(options, ignoreCase, next, inputs[1..]);
      assert inputs == [inputs[0]] + inputs[1..];
      assert next.treatMode == Argument <==> inputs[0] == TreatAsArgumentMark;
    }
  }

  /** The marker: the first `--` yields a `TreatAsArgumentToken`, a later one an
      `ArgumentToken`, and every string after a `--` becomes an `ArgumentToken` with
      its text unchanged. */
  lemma MarkerTurnsRestIntoArguments(options: map<string, Arity>, ignoreCase: bool, inputs: seq<string>, k: nat)
    requires ArityMapOk(options) && k < |inputs| && inputs[k] == TreatAsArgumentMark
    ensures var tokens := Run(options, ignoreCase, StartContext, inputs);
            && (TreatAsArgumentMark !in inputs[..k] ==> tokens[k] == TreatAsArgumentToken)
            && (TreatAsArgumentMark in inputs[..k] ==> tokens[k] == ArgumentToken(inputs[k]))
            && (forall j :: k < j < |inputs| ==> tokens[j] == ArgumentToken(inputs[j]))
  {
    var before, rest := inputs[..k], inputs[k..];
    assert inputs == before + rest;
    RunAppend(options, ignoreCase, StartContext, before, rest);
    var ctx := Final(options, ignoreCase, StartContext, before);
    ArgumentModeIffMarker(options, ignoreCase, StartContext, before);
    var tokens := Run(options, ignoreCase, StartContext, inputs);
    var tail := Run(options, ignoreCase, ctx, rest);
    assert forall j :: k <= j < |inputs| ==> tokens[j] == tail[j - k];
    if ctx.treatMode == Argument {
      ArgumentModeVerbatim(options, ignoreCase, ctx, rest);
    } else {
      MarkerIsExact(ignoreCase, rest[0]);
      var next := ctx.(treatMode := Argument);
      assert Step(options, ignoreCase, ctx, rest[0]) == (TreatAsArgumentToken, next);
      RunStep(options, ignoreCase, ctx, rest);
      ArgumentModeVerbatim(options, ignoreCase, next, rest[1..]);
      assert forall j :: 1 <= j < |rest| ==> tail[j] == Run(options, ignoreCase, next, rest[1..])[j - 1];
    }
  }

  /** Every token stands for its own prepared string: an `OptionToken` carries the
      string minus its `--` or `-` prefix, an `ArgumentToken` the string itself, and a
      `TreatAsArgumentToken` stands for `--`. No string is dropped or duplicated. */
  lemma {:induction false} TokensFollowStrings(options: map<string, Arity>, ignoreCase: bool, ctx: Context,
                                               inputs: seq<string>)
    requires ArityMapOk(options) && Consistent(ctx)
    ensures var tokens := Run(options, ignoreCase, ctx, inputs);
            forall j :: 0 <= j < |inputs| ==>
              || (tokens[j].TreatAsArgumentToken? && inputs[j] == TreatAsArgumentMark)
              || tokens[j] == ArgumentToken(inputs[j])
              || (tokens[j].OptionToken? && inputs[j] == LongOptionStarter + tokens[j].value)
              || (tokens[j].OptionToken? && inputs[j] == ShortOptionStarter + tokens[j].value)
    decreases |inputs|
  {
    if inputs != [] {
      var step := Step(options, ignoreCase, ctx, inputs[0]);
      TokensFollowStrings(options, ignoreCase, step.1, inputs[1..]);
      MarkerIsExact(ignoreCase, inputs[0]);
      var x := inputs[0];
      if StartsWith(x, LongOptionStarter) {
        assert x == LongOptionStarter + x[|LongOptionStarter|..];
      }
      if StartsWith(x, ShortOptionStarter) {
        assert x == ShortOptionStarter + x[|ShortOptionStarter|..];
      }
      var tokens := Run(options, ignoreCase, ctx, inputs);
      assert forall j :: 1 <= j < |inputs| ==> tokens[j] == Run(options, ignoreCase, step.1, inputs[1..])[j - 1];
    }
  }

  /** In `None` mode a string other than `--` with a `--` or `-` prefix yields an
      `OptionToken` holding the rest of the string, registered or not; any other
      string yields an `ArgumentToken`. */
  lemma OptionInNoneMode(options: map<string, Arity>, ignoreCase: bool, ctx: Context, input: string)
    requires ArityMapOk(options) && Consistent(ctx) && ctx.treatMode == None && input != TreatAsArgumentMark
    ensures var token := Run(options, ignoreCase, ctx, [input])[0];
            && (StartsWith(input, LongOptionStarter) ==> token == OptionToken(input[2..]))
            && (!StartsWith(input, LongOptionStarter) && StartsWith(input, ShortOptionStarter) ==>
                  token == OptionToken(input[1..]))
            && (!StartsWith(input, ShortOptionStarter) ==> token == ArgumentToken(input))
  {
    MarkerIsExact(ignoreCase, input);
    if StartsWith(input, LongOptionStarter) {
      assert StartsWith(input, ShortOptionStarter);
    }
  }

  /** While an option still lacks arguments, the next strings up to its minimum are its
      arguments, whatever prefix they carry, as long as none of them is `--`. */
  lemma {:induction false} OptionArgumentsTaken(options: map<string, Arity>, ignoreCase: bool, ctx: Context,
                                                inputs: seq<string>)
    requires ArityMapOk(options) && Consistent(ctx) && ctx.treatMode == OptionArgument
    requires ctx.argumentCount < ctx.optionArity.value.minimalOccurs
    requires ctx.optionArity.value.minimalOccurs as int - ctx.argumentCount as int <= |inputs|
    requires forall j :: 0 <= j < ctx.optionArity.value.minimalOccurs as int - ctx.argumentCount as int ==>
               inputs[j] != TreatAsArgumentMark
    ensures forall j :: 0 <= j < ctx.optionArity.value.minimalOccurs as int - ctx.argumentCount as int ==>
              Run(options, ignoreCase, ctx, inputs)[j] == ArgumentToken(inputs[j])
    decreases |inputs|
  {
    var m := ctx.optionArity.value.minimalOccurs as int - ctx.argumentCount as int;
    MarkerIsExact(ignoreCase, inputs[0]);
    var next := AfterArgument(ctx);
    assert Step(options, ignoreCase, ctx, inputs[0]) == (ArgumentToken(inputs[0]), next);
    var tokens := Run(options, ignoreCase, ctx, inputs);
    if m > 1 {
      assert next == Context(OptionArgument, ctx.argumentCount + 1, ctx.optionArity);
      OptionArgumentsTaken(options, ignoreCase, next, inputs[1..]);
      forall j | 1 <= j < m ensures tokens[j] == ArgumentToken(inputs[j]) {
        assert tokens[j] == Run(options, ignoreCase, next, inputs[1..])[j - 1];
      }
    }
  }

  /** After the `OptionToken` of a registered option with a minimum of `n > 0`, the next
      `n` strings other than `--` are its `ArgumentToken`s, even those starting with `-`. */
  lemma RequiredArgumentsFollow(options: map<string, Arity>, ignoreCase: bool, ctx: Context,
                                inputs: seq<string>, option: string)
    requires ArityMapOk(options) && Consistent(ctx) && ctx.treatMode == None
    requires inputs != [] && inputs[0] != TreatAsArgumentMark
    requires || inputs[0] == LongOptionStarter + option
             || (inputs[0] == ShortOptionStarter + option && !StartsWith(option, ShortOptionStarter))
    requires option in options && options[option].minimalOccurs > 0
    requires options[option].minimalOccurs as int < |inputs|
    requires forall j :: 1 <= j <= options[option].minimalOccurs as int ==> inputs[j] != TreatAsArgumentMark
    ensures var tokens := Run(options, ignoreCase, ctx, inputs);
            && tokens[0] == OptionToken(option)
            && forall j :: 1 <= j <= options[option].minimalOccurs as int ==> tokens[j] == ArgumentToken(inputs[j])
  {
    var x := inputs[0];
    MarkerIsExact(ignoreCase, x);
    var start := Context(OptionArgument, 0, NonNull(options[option]));
    if x == LongOptionStarter + option {
      assert StartsWith(x, LongOptionStarter) && x[|LongOptionStarter|..] == option;
    } else {
      assert StartsWith(x, ShortOptionStarter) && x[|ShortOptionStarter|..] == option;
    }
    assert Step(options, ignoreCase, ctx, x) == (OptionToken(option), start);
    OptionArgumentsTaken(options, ignoreCase, start, inputs[1..]);
    var tokens := Run(options, ignoreCase, ctx, inputs);
    forall j | 1 <= j <= options[option].minimalOccurs as int ensures tokens[j] == ArgumentToken(inputs[j]) {
      assert tokens[j] == Run(options, ignoreCase, start, inputs[1..])[j - 1];
    }
  }

  /** The context effect of `AddArgument`: the count grows by one, argument mode ends once
      the minimum is reached, and the option is forgotten once its maximum is reached. */
  lemma AfterArgumentEffect(ctx: Context)
    requires ctx.optionArity.NonNull? && ctx.argumentCount < ctx.optionArity.value.maximalOccurs
    ensures var next, arity := AfterArgument(ctx), ctx.optionArity.value;
            && (next.treatMode == None <==> ctx.argumentCount + 1 >= arity.minimalOccurs || ctx.treatMode == None)
            && (next.treatMode != None ==> next.treatMode == ctx.treatMode)
            && (ctx.argumentCount + 1 == arity.maximalOccurs ==> next.optionArity == Null && next.argumentCount == UIntMax)
            && (ctx.argumentCount + 1 < arity.maximalOccurs ==>
                  next.optionArity == ctx.optionArity && next.argumentCount == ctx.argumentCount + 1)
  {
  }

  /** A string with `=` tokenizes as its two sides given separately: `--foo=bar` is `--foo bar`. */
  lemma TokenizedSplitsAtEquals(options: map<string, Arity>, ignoreCase: bool, a: string, b: string)
    requires ArityMapOk(options)
    ensures Tokenized(options, ignoreCase, [a + "=" + b]) == Tokenized(options, ignoreCase, [a, b])
  {
    PrepareSplitsAtEquals(a, b);
  }

  /** Tokenizing already prepared strings changes nothing. */
  lemma TokenizedPrepared(options: map<string, Arity>, ignoreCase: bool, inputs: seq<string>)
    requires ArityMapOk(options)
    ensures Tokenized(options, ignoreCase, Prepare(inputs)) == Tokenized(options, ignoreCase, inputs)
  {
    PrepareIdempotent(inputs);
  }

  lemma PrepareSingle(s: string)
    requires s != [] && Undelimited(s, {MappingSymbol})
    ensures Prepare([s]) == Explode(s)
  {
    SplitUndelimited(s, {MappingSymbol});
    assert [s][..0] == [];
    assert SplitMappings([s]) == [] + [s];
    assert ExplodeAll([s]) == [] + Explode(s);
  }

  /** `-abc` is exploded to `-a`, `-b`, `-c`. */
  lemma ExplodeCluster()
    ensures Explode("-abc") == ["-a", "-b", "-c"]
  {
    var s := "-abc";
    assert IsShortCluster(s) by {
      assert s[..1] == ShortOptionStarter;
      assert s[..2][1] == 'a' != LongOptionStarter[1];
    }
    assert s[|ShortOptionStarter|..] == "abc";
    ShortFlagsShape("abc");
    var flags := ShortFlags("abc");
    assert flags[0] == "-a" && flags[1] == "-b" && flags[2] == "-c";
  }

  /** `-abc` is prepared to `-a`, `-b`, `-c`. */
  lemma PrepareShortCluster()
    ensures Prepare(["-abc"]) == ["-a", "-b", "-c"]
  {
    var s := "-abc";
    assert Undelimited(s, {MappingSymbol}) by {
      forall k | 0 <= k < |s| ensures s[k] !in {MappingSymbol} {
      }
    }
    PrepareSingle(s);
    ExplodeCluster();
  }

  /** Characters that, after `-`, read as a flag taking no argument: neither `-` (which
      would form `--`) nor `=` (which `PrepareInput` splits at), and either unregistered
      or registered with a zero minimum. */
  predicate FreeFlags(options: map<string, Arity>, flags: string) {
    forall i :: 0 <= i < |flags| ==>
      flags[i] != '-' && flags[i] != MappingSymbol
      && ([flags[i]] in options ==> options[[flags[i]]].minimalOccurs == 0)
  }

  /** A short flag `-c` read in `None` mode yields `OptionToken("c")`; an unregistered or
      zero-minimum option leaves the context as it was. */
  lemma FreeFlagStep(options: map<string, Arity>, ignoreCase: bool, ctx: Context, c: char)
    requires ArityMapOk(options) && Consistent(ctx) && ctx.treatMode == None
    requires FreeFlags(options, [c])
    ensures Step(options, ignoreCase, ctx, ['-', c]) == (OptionToken([c]), ctx)
  {
    var s := ['-', c];
    MarkerIsExact(ignoreCase, s);
    assert s[..1] == ShortOptionStarter && s[..2][1] == c != LongOptionStarter[1] && s[1..] == [c];
    assert [c][0] == c;
  }

  /** Flags read one after another from `None` mode: one `OptionToken` per flag, and the
      context comes back unchanged. */
  lemma {:induction false} FreeFlagsRun(options: map<string, Arity>, ignoreCase: bool, ctx: Context,
                                        flags: string, inputs: seq<string>)
    requires ArityMapOk(options) && Consistent(ctx) && ctx.treatMode == None && FreeFlags(options, flags)
    requires |inputs| == |flags| && forall i :: 0 <= i < |inputs| ==> inputs[i] == ShortOptionStarter + [flags[i]]
    ensures var tokens := Run(options, ignoreCase, ctx, inputs);
      forall i :: 0 <= i < |tokens| ==> tokens[i] == OptionToken([flags[i]])
    ensures Final(options, ignoreCase, ctx, inputs) == ctx
    decreases |inputs|
  {
    if inputs != [] {
      assert FreeFlags(options, [flags[0]]);
      FreeFlagStep(options, ignoreCase, ctx, flags[0]);
      assert inputs[0] == ['-', flags[0]];
      FreeFlagsRun(options, ignoreCase, ctx, flags[1..], inputs[1..]);
      var tokens := Run(options, ignoreCase, ctx, inputs);
      assert forall i :: 1 <= i < |tokens| ==> tokens[i] == Run(options, ignoreCase, ctx, inputs[1..])[i - 1];
    }
  }

  /** A cluster `-abc` of flags that take no argument yields one `OptionToken` per
      character, in order, and leaves the tokenizer in `None` mode with no arity pending. */
  lemma ShortClusterTokens(options: map<string, Arity>, ignoreCase: bool, flags: string)
    requires ArityMapOk(options) && FreeFlags(options, flags)
    ensures var tokens := Tokenized(options, ignoreCase, [ShortOptionStarter + flags]);
      && |tokens| == |flags|
      && (forall i :: 0 <= i < |flags| ==> tokens[i] == OptionToken([flags[i]]))
    ensures Final(options, ignoreCase, StartContext, Prepare([ShortOptionStarter + flags])) == StartContext
  {
    var s := ShortOptionStarter + flags;
    assert Undelimited(s, {MappingSymbol}) by {
      forall k | 0 <= k < |s| ensures s[k] !in {MappingSymbol} {
        if k > 0 {
          assert s[k] == flags[k - 1];
        }
      }
    }
    assert IsShortCluster(s) by {
      assert s[..1] == ShortOptionStarter;
      if |s| >= 2 {
        assert s[..2][1] == flags[0] != LongOptionStarter[1];
      }
    }
    PrepareSingle(s);
    assert s[|ShortOptionStarter|..] == flags;
    ShortFlagsShape(flags);
    FreeFlagsRun(options, ignoreCase, StartContext, flags, ShortFlags(flags));
  }

  /** `-abc` with no option registered: three `OptionToken`s, one per letter. */
  lemma ShortClusterExample(ignoreCase: bool)
    ensures Tokenized(map[], ignoreCase, ["-abc"]) == [OptionToken("a"), OptionToken("b"), OptionToken("c")]
  {
    var flags := "abc";
    assert ShortOptionStarter + flags == "-abc";
    ShortClusterTokens(map[], ignoreCase, flags);
  }
}
