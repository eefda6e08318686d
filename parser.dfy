/** Parser.cs: the cursor over the token array and the parser that walks it with
    three mutually recursive procedures, binding argument values to options,
    closing options, and collecting everything else as parameters. */
module Parser {
  import opened Common
  import opened CommonTypes
  import opened Options
  import opened Tokenizer

  // ---------------------------------------------------------------------------
  // The walk, as functions

  /** What the parser holds besides the cursor: the argument list of every option,
      `Parameters`, `ParsedOption` and `lastOption`. */
  datatype State = State(arguments: map<Option, seq<string>>, parameters: seq<Nullable<string>>,
                         parsedOption: seq<Option>, lastOption: Option?)

  /** Where a walk stopped: the state, the cursor, and whether an exception ended it. */
  datatype Walk = Walk(state: State, cursor: int, outcome: Outcome)

  /** Every option the parser can reach has an argument list in the state. */
  predicate Covers(options: seq<Option>, st: State) {
    forall o :: o in options ==> o in st.arguments
  }

  /** `GetOptionByToken`: the first option whose switches contain the token's value
      (compared ordinally), or null. */
  function FirstWithSwitch(options: seq<Option>, value: Nullable<string>): (r: Option?)
    ensures r != null ==> r in options && value.NonNull? && value.value in r.switches
  {
    if options == [] then null
    else if value.NonNull? && value.value in options[0].switches then options[0]
    else FirstWithSwitch(options[1..], value)
  }

  /** The lookup finds nothing exactly when no option owns the value, and otherwise
      finds the earliest option that does. */
  lemma {:induction false} FirstWithSwitchShape(options: seq<Option>, value: Nullable<string>)
    ensures var r := FirstWithSwitch(options, value);
      r == null <==> forall i :: 0 <= i < |options| ==> !(value.NonNull? && value.value in options[i].switches)
    ensures var r := FirstWithSwitch(options, value);
      r != null ==> exists i :: 0 <= i < |options| && options[i] == r
                                && forall j :: 0 <= j < i ==> value.value !in options[j].switches
  {
    if options != [] && !(value.NonNull? && value.value in options[0].switches) {
      FirstWithSwitchShape(options[1..], value);
      var r := FirstWithSwitch(options, value);
      if r != null {
        var i :| 0 <= i < |options[1..]| && options[1..][i] == r
                 && forall j :: 0 <= j < i ==> value.value !in options[1..][j].switches;
        assert options[i + 1] == r;
        assert forall j :: 0 <= j < i + 1 ==> value.value !in options[j].switches by {
          forall j | 0 <= j < i + 1 ensures value.value !in options[j].switches {
            if j > 0 {
              assert options[j] == options[1..][j - 1];
            }
          }
        }
      } else {
        forall i | 0 <= i < |options| ensures !(value.NonNull? && value.value in options[i].switches) {
          if i > 0 {
            assert options[i] == options[1..][i - 1];
          }
        }
      }
    }
  }

  /** `CheckSaturation` for an option holding `args`: at least the minimum, or the
      exception naming the option's first switch. */
  function Saturation(option: Option, args: seq<string>): (outcome: Outcome)
    ensures outcome.Pass? <==> |args| >= option.arity.minimalOccurs as int
    ensures outcome.Fail? && option.switches != [] ==> outcome.error == RequiredArgumentIsMissing(option.switches[0])
  {
    if |args| >= option.arity.minimalOccurs as int then Pass
    else if option.switches == [] then Fail(NoElements)
    else Fail(RequiredArgumentIsMissing(option.switches[0]))
  }

  /** `IsFullSaturated` for an option holding `count` values: true when it may still take one. */
  function Unfilled(count: nat, arity: Arity): bool {
    var minimalSaturation := count >= arity.minimalOccurs as int;
    var maximalSaturation := count >= arity.maximalOccurs as int;
    !minimalSaturation || (minimalSaturation && !maximalSaturation)
  }

  /** The misnamed `IsFullSaturated` holds exactly when the option is not saturated at both
      bounds; for a well-formed arity, exactly when the maximum is not yet reached. */
  lemma UnfilledMeaning(count: nat, arity: Arity)
    ensures Unfilled(count, arity) <==> !(count >= arity.minimalOccurs as int && count >= arity.maximalOccurs as int)
    ensures WellFormed(arity) ==> (Unfilled(count, arity) <==> count < arity.maximalOccurs as int)
  {
  }

  /** Closing an option: the `"true"` sentinel when nothing was bound, and `ParsedOption.Add`. */
  function Close(st: State, option: Option, sentinel: bool): (next: State)
    requires option in st.arguments
  {
    State(if sentinel then st.arguments[option := st.arguments[option] + ["true"]] else st.arguments,
          st.parameters, st.parsedOption + [option], st.lastOption)
  }

  /** `ParseParameters(token)` with the cursor at `pos` (the token is null at the end). */
  function WalkParameters(options: seq<Option>, toks: seq<Token>, pos: nat, st: State): (w: Walk)
    requires pos <= |toks| && Covers(options, st)
    decreases |toks| - pos, 1
  {
    if pos == |toks| then Walk(st, pos, Fail(NullReference))
    else
      var st1 := st.(parameters := st.parameters + [ValueOf(toks[pos])]);
      var next := pos + 1;
      if next == |toks| then Walk(st1, next, Pass)
      else match toks[next]
        case ArgumentToken(_) => WalkParameters(options, toks, next, st1)
        case TreatAsArgumentToken => WalkParameters(options, toks, next + 1, st1)
        case OptionToken(_) => WalkOption(options, toks, next, st1)
  }

  /** `ParseOption(token)` with the `OptionToken` at `pos`: the switch is looked up and
      becomes `lastOption`; an unknown switch is dereferenced as null right after. */
  function WalkOption(options: seq<Option>, toks: seq<Token>, pos: nat, st: State): (w: Walk)
    requires pos < |toks| && toks[pos].OptionToken? && Covers(options, st)
    decreases |toks| - pos, 1
  {
    var option := FirstWithSwitch(options, ValueOf(toks[pos]));
    if option == null then Walk(st.(lastOption := null), pos + 1, Fail(NullReference))
    else WalkOpen(options, toks, pos + 1, st.(lastOption := option), true)
  }

  /** `ParseOptionArguments(token)` with the `ArgumentToken` at `pos` and `lastOption` open:
      a value the type rejects aborts, any other is appended to the option's list. */
  function WalkArguments(options: seq<Option>, toks: seq<Token>, pos: nat, st: State): (w: Walk)
    requires pos < |toks| && toks[pos].ArgumentToken? && Covers(options, st)
    requires st.lastOption != null && st.lastOption in options
    decreases |toks| - pos, 1
  {
    var option := st.lastOption;
    var value := toks[pos].value;
    if !Validate(option.valueType, NonNull(value)) then Walk(st, pos, Fail(ArgumentValidity))
    else WalkOpen(options, toks, pos + 1, st.(arguments := st.arguments[option := st.arguments[option] + [value]]), false)
  }

  /** The continuation both `ParseOption` and `ParseOptionArguments` write out, with the
      cursor at `next` and `lastOption` open; `sentinel` says whether closing the option
      appends `"true"` (it does in `ParseOption`, where no value was bound). The end of the
      tokens, another option or a marker close the option after `CheckSaturation`; an
      argument is taken while `IsFullSaturated` holds and otherwise closes the option
      without that check and starts the parameters. */
  function WalkOpen(options: seq<Option>, toks: seq<Token>, next: nat, st: State, sentinel: bool): (w: Walk)
    requires 0 < next <= |toks| && Covers(options, st)
    requires st.lastOption != null && st.lastOption in options
    decreases |toks| - next, 2
  {
    var option := st.lastOption;
    var sat := Saturation(option, st.arguments[option]);
    var closed := Close(st, option, sentinel);
    if next == |toks| then
      if sat.Fail? then Walk(st, next, sat) else Walk(closed, next, Pass)
    else match toks[next]
      case OptionToken(_) =>
        if sat.Fail? then Walk(st, next, sat) else WalkOption(options, toks, next, closed)
      case ArgumentToken(_) =>
        if Unfilled(|st.arguments[option]|, option.arity) then WalkArguments(options, toks, next, st)
        else WalkParameters(options, toks, next, closed)
      case TreatAsArgumentToken =>
        if sat.Fail? then Walk(st, next, sat) else WalkParameters(options, toks, next + 1, closed)
  }

  /** `Parse()` from cursor `pos`: `ParsedOption` is reset (`Parameters` is not), and the
      token at the cursor starts an option or parameter collection. */
  function ParseFrom(options: seq<Option>, toks: seq<Token>, pos: nat, st: State): (w: Walk)
    requires pos <= |toks| && Covers(options, st)
  {
    var st0 := st.(parsedOption := []);
    if pos == |toks| then Walk(st0, pos, Pass)
    else if toks[pos].OptionToken? then WalkOption(options, toks, pos, st0)
    else WalkParameters(options, toks, pos, st0)
  }

  // ---------------------------------------------------------------------------
  // Properties of the walk

  /** `after` extends `before`: argument lists, `Parameters` and `ParsedOption` only grow at their ends. */
  predicate Extends(before: State, after: State) {
    && after.arguments.Keys == before.arguments.Keys
    && (forall o :: o in before.arguments ==> before.arguments[o] <= after.arguments[o])
    && before.parameters <= after.parameters
    && before.parsedOption <= after.parsedOption
  }

  lemma ExtendsTransitive(a: State, b: State, c: State)
    requires Extends(a, b) && Extends(b, c)
    ensures Extends(a, c)
  {
    forall o | o in a.arguments ensures a.arguments[o] <= c.arguments[o] {
      assert b.arguments[o] <= c.arguments[o];
    }
  }

  lemma CloseExtends(st: State, option: Option, sentinel: bool)
    requires option in st.arguments
    ensures Extends(st, Close(st, option, sentinel))
  {
  }

  /** Every walk moves the cursor forward and stays within the tokens, ends at the last
      token whenever no exception stopped it, and only appends to what the parser holds. */
  /** A whole parse from `pos` stays within the tokens, consumes them all when it
      succeeds, and only extends what it starts from (its list of parsed options
      restarts empty). */
  lemma ParseFromProgress(options: seq<Option>, toks: seq<Token>, pos: nat, st: State)
    requires pos <= |toks| && Covers(options, st)
    ensures var w := ParseFrom(options, toks, pos, st);
      pos <= w.cursor <= |toks| && (w.outcome.Pass? ==> w.cursor == |toks|)
      && Extends(st.(parsedOption := []), w.state)
  {
    var st0 := st.(parsedOption := []);
    if pos < |toks| {
      if toks[pos].OptionToken? {
        OptionProgress(options, toks, pos, st0);
      } else {
        ParametersProgress(options, toks, pos, st0);
      }
    }
  }

  lemma {:induction false} ParametersProgress(options: seq<Option>, toks: seq<Token>, pos: nat, st: State)
    requires pos <= |toks| && Covers(options, st)
    ensures var w := WalkParameters(options, toks, pos, st);
      pos <= w.cursor <= |toks| && (w.outcome.Pass? ==> w.cursor == |toks|) && Extends(st, w.state)
    decreases |toks| - pos, 1
  {
    if pos < |toks| {
      var st1 := st.(parameters := st.parameters + [ValueOf(toks[pos])]);
      var next := pos + 1;
      if next < |toks| {
        match toks[next]
        case ArgumentToken(_) =>
          ParametersProgress(options, toks, next, st1);
          ExtendsTransitive(st, st1, WalkParameters(options, toks, next, st1).state);
        case TreatAsArgumentToken =>
          ParametersProgress(options, toks, next + 1, st1);
          ExtendsTransitive(st, st1, WalkParameters(options, toks, next + 1, st1).state);
        case OptionToken(_) =>
          OptionProgress(options, toks, next, st1);
          ExtendsTransitive(st, st1, WalkOption(options, toks, next, st1).state);
      }
    }
  }

  lemma {:induction false} OptionProgress(options: seq<Option>, toks: seq<Token>, pos: nat, st: State)
    requires pos < |toks| && toks[pos].OptionToken? && Covers(options, st)
    ensures var w := WalkOption(options, toks, pos, st);
      pos < w.cursor <= |toks| && (w.outcome.Pass? ==> w.cursor == |toks|) && Extends(st, w.state)
    decreases |toks| - pos, 1
  {
    var option := FirstWithSwitch(options, ValueOf(toks[pos]));
    if option != null {
      OpenProgress(options, toks, pos + 1, st.(lastOption := option), true);
    }
  }

  lemma {:induction false} ArgumentsProgress(options: seq<Option>, toks: seq<Token>, pos: nat, st: State)
    requires pos < |toks| && toks[pos].ArgumentToken? && Covers(options, st)
    requires st.lastOption != null && st.lastOption in options
    ensures var w := WalkArguments(options, toks, pos, st);
      pos <= w.cursor <= |toks| && (w.outcome.Pass? ==> w.cursor == |toks|) && Extends(st, w.state)
    decreases |toks| - pos, 1
  {
    var option := st.lastOption;
    var value := toks[pos].value;
    if Validate(option.valueType, NonNull(value)) {
      var st1 := st.(arguments := st.arguments[option := st.arguments[option] + [value]]);
      assert Extends(st, st1);
      OpenProgress(options, toks, pos + 1, st1, false);
      ExtendsTransitive(st, st1, WalkOpen(options, toks, pos + 1, st1, false).state);
    }
  }

  lemma {:induction false} OpenProgress(options: seq<Option>, toks: seq<Token>, next: nat, st: State, sentinel: bool)
    requires 0 < next <= |toks| && Covers(options, st)
    requires st.lastOption != null && st.lastOption in options
    ensures var w := WalkOpen(options, toks, next, st, sentinel);
      next <= w.cursor <= |toks| && (w.outcome.Pass? ==> w.cursor == |toks|) && Extends(st, w.state)
    decreases |toks| - next, 2
  {
    var option := st.lastOption;
    var sat := Saturation(option, st.arguments[option]);
    var closed := Close(st, option, sentinel);
    CloseExtends(st, option, sentinel);
    if next < |toks| {
      match toks[next]
      case OptionToken(_) =>
        if sat.Pass? {
          OptionProgress(options, toks, next, closed);
          ExtendsTransitive(st, closed, WalkOption(options, toks, next, closed).state);
        }
      case ArgumentToken(_) =>
        if Unfilled(|st.arguments[option]|, option.arity) {
          ArgumentsProgress(options, toks, next, st);
        } else {
          ParametersProgress(options, toks, next, closed);
          ExtendsTransitive(st, closed, WalkParameters(options, toks, next, closed).state);
        }
      case TreatAsArgumentToken =>
        if sat.Pass? {
          ParametersProgress(options, toks, next + 1, closed);
          ExtendsTransitive(st, closed, WalkParameters(options, toks, next + 1, closed).state);
        }
    }
  }

  /** Every token from `pos` on is an `ArgumentToken`. */
  predicate AllArguments(toks: seq<Token>, pos: nat) {
    forall i :: pos <= i < |toks| ==> toks[i].ArgumentToken?
  }

  /** The values of the tokens from `pos` on, as `Token.Value` gives them. */
  function ValuesFrom(toks: seq<Token>, pos: nat): seq<Nullable<string>>
    decreases |toks| - pos
  {
    if pos >= |toks| then [] else [ValueOf(toks[pos])] + ValuesFrom(toks, pos + 1)
  }

  /** The texts of the `ArgumentToken`s from `pos` on. */
  function TextsFrom(toks: seq<Token>, pos: nat): seq<string>
    requires AllArguments(toks, pos)
    decreases |toks| - pos
  {
    if pos >= |toks| then [] else [toks[pos].value] + TextsFrom(toks, pos + 1)
  }

  /** Parameter collection: when only `ArgumentToken`s follow, the token at the cursor and
      all of them are appended to `Parameters` in order and the walk ends normally. */
  lemma {:induction false} ParametersCollected(options: seq<Option>, toks: seq<Token>, pos: nat, st: State)
    requires pos < |toks| && AllArguments(toks, pos + 1) && Covers(options, st)
    ensures WalkParameters(options, toks, pos, st)
            == Walk(st.(parameters := st.parameters + ValuesFrom(toks, pos)), |toks|, Pass)
    decreases |toks| - pos
  {
    var st1 := st.(parameters := st.parameters + [ValueOf(toks[pos])]);
    if pos + 1 < |toks| {
      ParametersCollected(options, toks, pos + 1, st1);
      AppendAssociative(st.parameters, [ValueOf(toks[pos])], ValuesFrom(toks, pos + 1));
    }
  }

  /** A marker after a parameter is skipped: it never reaches `Parameters`. */
  lemma MarkerAfterParameter(options: seq<Option>, toks: seq<Token>, pos: nat, st: State)
    requires pos + 2 < |toks| && toks[pos + 1].TreatAsArgumentToken? && AllArguments(toks, pos + 3)
    requires Covers(options, st)
    ensures WalkParameters(options, toks, pos, st)
            == Walk(st.(parameters := st.parameters + [ValueOf(toks[pos])] + ValuesFrom(toks, pos + 2)), |toks|, Pass)
  {
    var st1 := st.(parameters := st.parameters + [ValueOf(toks[pos])]);
    ParametersCollected(options, toks, pos + 2, st1);
  }

  /** A marker that is the last token, after a parameter, dereferences the missing token. */
  lemma TrailingMarker(options: seq<Option>, toks: seq<Token>, pos: nat, st: State)
    requires pos + 2 == |toks| && toks[pos + 1].TreatAsArgumentToken? && Covers(options, st)
    ensures WalkParameters(options, toks, pos, st).outcome == Fail(NullReference)
  {
  }

  /** A marker as the very first token reaches `Parameters` as a null entry. */
  lemma LeadingMarker(options: seq<Option>, toks: seq<Token>, st: State)
    requires |toks| > 0 && toks[0].TreatAsArgumentToken? && AllArguments(toks, 1) && Covers(options, st)
    ensures ParseFrom(options, toks, 0, st)
            == Walk(State(st.arguments, st.parameters + [Null] + ValuesFrom(toks, 1), [], st.lastOption), |toks|, Pass)
  {
    ParametersCollected(options, toks, 0, st.(parsedOption := []));
  }

  /** Argument binding: while the open option may take more values and only valid
      `ArgumentToken`s follow, each value is appended to its list in token order (no
      `"true"` sentinel), nothing reaches `Parameters`, and the walk ends normally exactly
      when the option has its minimum. */
  lemma {:induction false} ArgumentsBound(options: seq<Option>, toks: seq<Token>, pos: nat, st: State)
    requires pos < |toks| && AllArguments(toks, pos) && Covers(options, st)
    requires st.lastOption != null && st.lastOption in options
    requires forall i :: pos <= i < |toks| ==> Validate(st.lastOption.valueType, NonNull(toks[i].value))
    requires |st.arguments[st.lastOption]| + (|toks| - pos) <= st.lastOption.arity.maximalOccurs as int
    ensures var w := WalkArguments(options, toks, pos, st);
      var o := st.lastOption;
      && w.state.arguments == st.arguments[o := st.arguments[o] + TextsFrom(toks, pos)]
      && w.state.parameters == st.parameters
      && (w.outcome.Pass? <==> |st.arguments[o]| + (|toks| - pos) >= o.arity.minimalOccurs as int)
      && (w.outcome.Pass? ==> w.state.parsedOption == st.parsedOption + [o])
      && (w.outcome.Fail? && o.switches != [] ==> w.outcome.error == RequiredArgumentIsMissing(o.switches[0]))
    decreases |toks| - pos
  {
    var o := st.lastOption;
    var value := toks[pos].value;
    var st1 := st.(arguments := st.arguments[o := st.arguments[o] + [value]]);
    if pos + 1 < |toks| {
      assert Unfilled(|st1.arguments[o]|, o.arity);
      ArgumentsBound(options, toks, pos + 1, st1);
      AppendAssociative(st.arguments[o], [value], TextsFrom(toks, pos + 1));
    } else {
      assert TextsFrom(toks, pos) == [value];
    }
  }

  /** Every token in `[pos, j)` is an `ArgumentToken`. */
  predicate ArgumentsBetween(toks: seq<Token>, pos: nat, j: nat) {
    forall i :: pos <= i < j && i < |toks| ==> toks[i].ArgumentToken?
  }

  /** The texts of the `ArgumentToken`s in `[pos, j)`. */
  function TextsBetween(toks: seq<Token>, pos: nat, j: nat): (texts: seq<string>)
    requires j <= |toks| && ArgumentsBetween(toks, pos, j)
    ensures pos <= j ==> |texts| == j - pos
    ensures forall k :: pos <= k < j ==> texts[k - pos] == toks[k].value
    decreases j - pos
  {
    if pos >= j then [] else [toks[pos].value] + TextsBetween(toks, pos + 1, j)
  }

  /** A run of valid `ArgumentToken`s the open option has room for is bound to it in token
      order, and the walk resumes after the run at the same decision point (end, option,
      marker or further argument), with no `"true"` sentinel pending. */
  lemma {:induction false} ArgumentsRun(options: seq<Option>, toks: seq<Token>, pos: nat, j: nat, st: State)
    requires pos < j <= |toks| && ArgumentsBetween(toks, pos, j) && Covers(options, st)
    requires st.lastOption != null && st.lastOption in options
    requires forall i :: pos <= i < j ==> Validate(st.lastOption.valueType, NonNull(toks[i].value))
    requires |st.arguments[st.lastOption]| + (j - pos) <= st.lastOption.arity.maximalOccurs as int
    ensures var o := st.lastOption;
      var bound := st.(arguments := st.arguments[o := st.arguments[o] + TextsBetween(toks, pos, j)]);
      Covers(options, bound) && WalkArguments(options, toks, pos, st) == WalkOpen(options, toks, j, bound, false)
    decreases j - pos
  {
    var o := st.lastOption;
    var value := toks[pos].value;
    var st1 := st.(arguments := st.arguments[o := st.arguments[o] + [value]]);
    if pos + 1 == j {
      assert TextsBetween(toks, pos, j) == [value];
    } else {
      assert Unfilled(|st1.arguments[o]|, o.arity);
      ArgumentsRun(options, toks, pos + 1, j, st1);
      AppendAssociative(st.arguments[o], [value], TextsBetween(toks, pos + 1, j));
      assert st1.arguments[o := st1.arguments[o] + TextsBetween(toks, pos + 1, j)]
          == st.arguments[o := st.arguments[o] + TextsBetween(toks, pos, j)];
    }
  }

  /** An open option short of its minimum, whether or not it already took values, fails
      with `RequiredArgumentIsMissing` naming its first switch as soon as the end, another
      option or a marker follows; nothing is closed or bound. */
  lemma MinimumMissingAtClose(options: seq<Option>, toks: seq<Token>, next: nat, st: State, sentinel: bool)
    requires 0 < next <= |toks| && Covers(options, st)
    requires st.lastOption != null && st.lastOption in options
    requires |st.arguments[st.lastOption]| < st.lastOption.arity.minimalOccurs as int
    requires next == |toks| || !toks[next].ArgumentToken?
    ensures var o := st.lastOption;
      && WalkOpen(options, toks, next, st, sentinel) == Walk(st, next, Saturation(o, st.arguments[o]))
      && (o.switches != [] ==>
            WalkOpen(options, toks, next, st, sentinel) == Walk(st, next, Fail(RequiredArgumentIsMissing(o.switches[0]))))
  {
  }

  /** An option whose minimum is not met and that is followed by the end, another option
      or a marker makes the walk fail with `RequiredArgumentIsMissing` naming its first
      switch, before anything is bound. */
  lemma RequiredArgumentMissing(options: seq<Option>, toks: seq<Token>, pos: nat, st: State)
    requires pos < |toks| && toks[pos].OptionToken? && Covers(options, st)
    requires FirstWithSwitch(options, ValueOf(toks[pos])) != null
    requires var o := FirstWithSwitch(options, ValueOf(toks[pos]));
      |st.arguments[o]| < o.arity.minimalOccurs as int
    requires pos + 1 == |toks| || !toks[pos + 1].ArgumentToken?
    ensures var o := FirstWithSwitch(options, ValueOf(toks[pos]));
      WalkOption(options, toks, pos, st)
      == Walk(st.(lastOption := o), pos + 1, Fail(RequiredArgumentIsMissing(o.switches[0])))
  {
    var o := FirstWithSwitch(options, ValueOf(toks[pos]));
    MinimumMissingAtClose(options, toks, pos + 1, st.(lastOption := o), true);
  }

  /** An option that took `j - pos` valid values and still lacks its minimum fails with
      `RequiredArgumentIsMissing` at the end, another option or a marker, with the values
      it took bound. */
  lemma ArgumentsThenMissing(options: seq<Option>, toks: seq<Token>, pos: nat, j: nat, st: State)
    requires pos < j <= |toks| && ArgumentsBetween(toks, pos, j) && Covers(options, st)
    requires st.lastOption != null && st.lastOption in options && st.lastOption.switches != []
    requires forall i :: pos <= i < j ==> Validate(st.lastOption.valueType, NonNull(toks[i].value))
    requires |st.arguments[st.lastOption]| + (j - pos) < st.lastOption.arity.minimalOccurs as int
    requires |st.arguments[st.lastOption]| + (j - pos) <= st.lastOption.arity.maximalOccurs as int
    requires j == |toks| || !toks[j].ArgumentToken?
    ensures var o := st.lastOption;
      WalkArguments(options, toks, pos, st)
      == Walk(st.(arguments := st.arguments[o := st.arguments[o] + TextsBetween(toks, pos, j)]), j,
              Fail(RequiredArgumentIsMissing(o.switches[0])))
  {
    var o := st.lastOption;
    ArgumentsRun(options, toks, pos, j, st);
    MinimumMissingAtClose(options, toks, j, st.(arguments := st.arguments[o := st.arguments[o] + TextsBetween(toks, pos, j)]), false);
  }

  /** An option that took `j - pos` valid values, within its bounds and followed by another
      option, has all of them bound, is added to `ParsedOption` without the `"true"`
      sentinel, and the walk continues with the next option. */
  lemma ArgumentsThenOption(options: seq<Option>, toks: seq<Token>, pos: nat, j: nat, st: State)
    requires pos < j < |toks| && ArgumentsBetween(toks, pos, j) && toks[j].OptionToken? && Covers(options, st)
    requires st.lastOption != null && st.lastOption in options
    requires forall i :: pos <= i < j ==> Validate(st.lastOption.valueType, NonNull(toks[i].value))
    requires st.lastOption.arity.minimalOccurs as int <= |st.arguments[st.lastOption]| + (j - pos)
                                                      <= st.lastOption.arity.maximalOccurs as int
    ensures var o := st.lastOption;
      var bound := st.(arguments := st.arguments[o := st.arguments[o] + TextsBetween(toks, pos, j)]);
      Covers(options, Close(bound, o, false))
      && WalkArguments(options, toks, pos, st)
         == WalkOption(options, toks, j,
                       State(bound.arguments, st.parameters, st.parsedOption + [o], o))
  {
    var o := st.lastOption;
    ArgumentsRun(options, toks, pos, j, st);
    OpenStep(options, toks, j, st.(arguments := st.arguments[o := st.arguments[o] + TextsBetween(toks, pos, j)]), false);
  }

  /** An option followed by the end once it has its minimum gets the `"true"` sentinel
      appended and is added to `ParsedOption`. */
  lemma SentinelAtEnd(options: seq<Option>, toks: seq<Token>, st: State)
    requires |toks| > 0 && toks[|toks| - 1].OptionToken? && Covers(options, st)
    requires FirstWithSwitch(options, ValueOf(toks[|toks| - 1])) != null
    requires var o := FirstWithSwitch(options, ValueOf(toks[|toks| - 1]));
      |st.arguments[o]| >= o.arity.minimalOccurs as int
    ensures var o := FirstWithSwitch(options, ValueOf(toks[|toks| - 1]));
      WalkOption(options, toks, |toks| - 1, st)
      == Walk(State(st.arguments[o := st.arguments[o] + ["true"]], st.parameters, st.parsedOption + [o], o),
              |toks|, Pass)
  {
  }

  /** A switch no option owns leaves `lastOption` null, which the next step dereferences. */
  lemma UnregisteredSwitch(options: seq<Option>, toks: seq<Token>, pos: nat, st: State)
    requires pos < |toks| && toks[pos].OptionToken? && Covers(options, st)
    requires forall o :: o in options ==> toks[pos].value !in o.switches
    ensures WalkOption(options, toks, pos, st) == Walk(st.(lastOption := null), pos + 1, Fail(NullReference))
  {
  }

  /** A value the option's type rejects aborts the walk with nothing bound. */
  lemma InvalidValue(options: seq<Option>, toks: seq<Token>, pos: nat, st: State)
    requires pos < |toks| && toks[pos].ArgumentToken? && Covers(options, st)
    requires st.lastOption != null && st.lastOption in options
    requires !Validate(st.lastOption.valueType, NonNull(toks[pos].value))
    ensures WalkArguments(options, toks, pos, st) == Walk(st, pos, Fail(ArgumentValidity))
  {
  }

  // One step of each walk, as the methods take it

  /** `ParseParameters` with a token under the cursor continues with the token after it. */
  lemma ParametersStep(options: seq<Option>, toks: seq<Token>, pos: nat, st: State)
    requires pos + 1 < |toks| && Covers(options, st)
    ensures var st1 := st.(parameters := st.parameters + [ValueOf(toks[pos])]);
      && (toks[pos + 1].ArgumentToken? ==> WalkParameters(options, toks, pos, st) == WalkParameters(options, toks, pos + 1, st1))
      && (toks[pos + 1].TreatAsArgumentToken? ==> WalkParameters(options, toks, pos, st) == WalkParameters(options, toks, pos + 2, st1))
      && (toks[pos + 1].OptionToken? ==> WalkParameters(options, toks, pos, st) == WalkOption(options, toks, pos + 1, st1))
  {
  }

  /** `WalkOpen` with a token under the cursor. */
  lemma OpenStep(options: seq<Option>, toks: seq<Token>, next: nat, st: State, sentinel: bool)
    requires 0 < next < |toks| && Covers(options, st)
    requires st.lastOption != null && st.lastOption in options
    ensures var o := st.lastOption;
      var sat := Saturation(o, st.arguments[o]);
      var closed := Close(st, o, sentinel);
      var w := WalkOpen(options, toks, next, st, sentinel);
      && (toks[next].OptionToken? && sat.Pass? ==> w == WalkOption(options, toks, next, closed))
      && (toks[next].OptionToken? && sat.Fail? ==> w == Walk(st, next, sat))
      && (toks[next].ArgumentToken? && Unfilled(|st.arguments[o]|, o.arity) ==> w == WalkArguments(options, toks, next, st))
      && (toks[next].ArgumentToken? && !Unfilled(|st.arguments[o]|, o.arity) ==> w == WalkParameters(options, toks, next, closed))
      && (toks[next].TreatAsArgumentToken? && sat.Pass? ==> w == WalkParameters(options, toks, next + 1, closed))
      && (toks[next].TreatAsArgumentToken? && sat.Fail? ==> w == Walk(st, next, sat))
  {
  }

  // ---------------------------------------------------------------------------
  // The classes

  /** `Tokens`: the token array and a cursor into it. */
  class Tokens {
    const tokens: seq<Token>
    var tokenNum: int

    constructor (tokens: seq<Token>)
      ensures this.tokens == tokens && tokenNum == 0
    {
      this.tokens := tokens;
      tokenNum := 0;
    }

    /** The cursor is on a token or just past the last one. */
    predicate Valid()
      reads this
    {
      0 <= tokenNum <= |tokens|
    }

    /** `ActualToken`: the token under the cursor, null once the cursor is past the end. */
    function ActualToken(): (t: Nullable<Token>)
      requires Valid()
      reads this
      ensures t.Null? <==> tokenNum == |tokens|
      ensures t.NonNull? ==> t.value == tokens[tokenNum]
    {
      if tokenNum == |tokens| then Null else NonNull(tokens[tokenNum])
    }

    /** `NextToken`: advances the cursor by one and returns the token now under it. */
    method NextToken() returns (t: Nullable<Token>)
      requires Valid() && tokenNum < |tokens|
      modifies this
      ensures Valid() && tokenNum == old(tokenNum) + 1
      ensures t == ActualToken()
    {
      tokenNum := tokenNum + 1;
      if tokenNum == |tokens| {
        t := Null;
      } else {
        t := NonNull(tokens[tokenNum]);
      }
    }
  }

  /** `Parser`: walks the tokens, binding values to the options it is given. */
  class Parser {
    const options: seq<Option>
    const tokens: Tokens
    var lastOption: Option?
    var parameters: seq<Nullable<string>>
    var parsedOption: seq<Option>
    /** The argument list of every option, as the walk functions see it. */
    ghost var bound: map<Option, seq<string>>

    /** `new Parser(tokens, options)`: the cursor on the first token, nothing collected. */
    constructor (toks: seq<Token>, options: seq<Option>)
      ensures Valid() && fresh(tokens)
      ensures this.options == options && tokens.tokens == toks && tokens.tokenNum == 0
      ensures parameters == [] && parsedOption == [] && lastOption == null
      ensures bound == map o | o in options :: o.arguments
    {
      this.tokens := new Tokens(toks);
      this.options := options;
      bound := map o | o in options :: o.arguments;
      parameters := [];
      parsedOption := [];
      lastOption := null;
    }

    /** The cursor is valid, `lastOption` is one of the options, and `bound` holds
        exactly the options' argument lists. */
    ghost predicate Valid()
      reads this, tokens, options
    {
      && tokens.Valid()
      && (lastOption != null ==> lastOption in options)
      && forall o :: o in options ==> o in bound && bound[o] == o.arguments
    }

    /** What the parser holds, as the walk functions see it. */
    ghost function Snapshot(): (st: State)
      reads this
    {
      State(bound, parameters, parsedOption, lastOption)
    }

    /** The parser now holds what the walk `w` ends with, and `outcome` is its outcome. */
    ghost predicate Walked(w: Walk, outcome: Outcome)
      reads this, tokens
    {
      Snapshot() == w.state && tokens.tokenNum == w.cursor && outcome == w.outcome
    }

    /** `GetOptionByToken`. */
    function GetOptionByToken(token: Token): Option? {
      FirstWithSwitch(options, ValueOf(token))
    }

    /** `Parse`: resets `ParsedOption` and walks from the cursor until the tokens run out. */
    method Parse() returns (outcome: Outcome)
      requires Valid()
      modifies this, tokens, options
      ensures Valid()
      ensures Walked(ParseFrom(options, tokens.tokens, old(tokens.tokenNum), old(Snapshot())), outcome)
    {
      ghost var w := ParseFrom(options, tokens.tokens, tokens.tokenNum, Snapshot());
      parsedOption := [];
      outcome := Pass;
      var actualToken := tokens.ActualToken();
      ghost var first := true;
      while actualToken.NonNull?
        invariant Valid() && actualToken == tokens.ActualToken() && outcome == Pass
        invariant first ==> Snapshot() == old(Snapshot()).(parsedOption := []) && tokens.tokenNum == old(tokens.tokenNum)
        invariant !first ==> Walked(w, Pass) && tokens.tokenNum == |tokens.tokens|
        decreases |tokens.tokens| - tokens.tokenNum
      {
        ghost var pos, st := tokens.tokenNum, Snapshot();
        if actualToken.value.OptionToken? {
          outcome := ParseOption(actualToken.value);
          OptionProgress(options, tokens.tokens, pos, st);
        } else {
          outcome := ParseParameters(actualToken);
          ParametersProgress(options, tokens.tokens, pos, st);
        }
        if outcome.Fail? {
          return;
        }
        first := false;
        actualToken := tokens.ActualToken();
      }
    }

    /** `ParseParameters(token)`: appends the token's value to `Parameters` and continues
        with the next token; a marker is skipped. */
    method ParseParameters(token: Nullable<Token>) returns (outcome: Outcome)
      requires Valid() && token == tokens.ActualToken()
      modifies this, tokens, options
      ensures Valid()
      ensures Walked(WalkParameters(options, tokens.tokens, old(tokens.tokenNum), old(Snapshot())), outcome)
      decreases |tokens.tokens| - tokens.tokenNum, 1
    {
      ghost var toks, pos, st := tokens.tokens, tokens.tokenNum, Snapshot();
      if token.Null? {
        assert WalkParameters(options, toks, pos, st) == Walk(st, pos, Fail(NullReference));
        return Fail(NullReference);
      }
      parameters := parameters + [ValueOf(token.value)];
      ghost var st1 := Snapshot();
      assert st1 == st.(parameters := st.parameters + [ValueOf(toks[pos])]);
      var nextToken := tokens.NextToken();
      if nextToken.Null? {
        assert WalkParameters(options, toks, pos, st) == Walk(st1, pos + 1, Pass);
        return Pass;
      }
      ParametersStep(options, toks, pos, st);
      match nextToken.value
      case ArgumentToken(_) =>
        assert Snapshot() == st1 && tokens.tokenNum == pos + 1;
        outcome := ParseParameters(nextToken);
        assert Walked(WalkParameters(options, toks, pos + 1, st1), outcome);
      case TreatAsArgumentToken =>
        var afterMarker := tokens.NextToken();
        assert Snapshot() == st1 && tokens.tokenNum == pos + 2;
        outcome := ParseParameters(afterMarker);
        assert Walked(WalkParameters(options, toks, pos + 2, st1), outcome);
      case OptionToken(_) =>
        assert Snapshot() == st1 && tokens.tokenNum == pos + 1;
        outcome := ParseOption(nextToken.value);
        assert Walked(WalkOption(options, toks, pos + 1, st1), outcome);
    }

    /** `ParseOption(token)`: looks the switch up and makes it `lastOption`, then
        continues as `ContinueOpen` says, with the `"true"` sentinel on closing. */
    method ParseOption(token: Token) returns (outcome: Outcome)
      requires Valid() && token.OptionToken? && tokens.ActualToken() == NonNull(token)
      modifies this, tokens, options
      ensures Valid()
      ensures Walked(WalkOption(options, tokens.tokens, old(tokens.tokenNum), old(Snapshot())), outcome)
      decreases |tokens.tokens| - tokens.tokenNum, 1
    {
      ghost var toks, pos, st := tokens.tokens, tokens.tokenNum, Snapshot();
      lastOption := GetOptionByToken(token);
      var nextToken := tokens.NextToken();
      if lastOption == null {
        // every branch of the continuation starts by reading through lastOption
        return Fail(NullReference);
      }
      outcome := ContinueOpen(nextToken, true);
    }

    /** `ParseOptionArguments(token)`: validates the value and binds it to `lastOption`,
        then continues as `ContinueOpen` says, without the sentinel. */
    method ParseOptionArguments(token: Token) returns (outcome: Outcome)
      requires Valid() && token.ArgumentToken? && tokens.ActualToken() == NonNull(token) && lastOption != null
      modifies this, tokens, options
      ensures Valid()
      ensures Walked(WalkArguments(options, tokens.tokens, old(tokens.tokenNum), old(Snapshot())), outcome)
      decreases |tokens.tokens| - tokens.tokenNum, 1
    {
      var option := lastOption;
      if !Validate(option.valueType, NonNull(token.value)) {
        return Fail(ArgumentValidity);
      }
      option.AddArgumentValue(token.value);
      bound := bound[option := option.arguments];
      var nextToken := tokens.NextToken();
      outcome := ContinueOpen(nextToken, false);
    }

    /** The tail `ParseOption` and `ParseOptionArguments` share, with `nextToken` just
        read and `lastOption` open: the end of the tokens, another option or a marker close
        the option after `CheckSaturation`; an argument is taken while `IsFullSaturated`
        holds, and otherwise closes the option unchecked and starts the parameters. */
    method ContinueOpen(nextToken: Nullable<Token>, sentinel: bool) returns (outcome: Outcome)
      requires Valid() && 0 < tokens.tokenNum && nextToken == tokens.ActualToken() && lastOption != null
      modifies this, tokens, options
      ensures Valid()
      ensures Walked(WalkOpen(options, tokens.tokens, old(tokens.tokenNum), old(Snapshot()), sentinel), outcome)
      decreases |tokens.tokens| - tokens.tokenNum, 2
    {
      ghost var toks, next, st := tokens.tokens, tokens.tokenNum, Snapshot();
      var option := lastOption;
      ghost var closed := Close(st, option, sentinel);
      if nextToken.Null? {
        outcome := Saturation(option, option.arguments);
        if outcome.Fail? {
          return;
        }
        CloseOption(option, sentinel);
        return;
      }
      OpenStep(options, toks, next, st, sentinel);
      match nextToken.value
      case OptionToken(_) =>
        outcome := Saturation(option, option.arguments);
        if outcome.Fail? {
          return;
        }
        CloseOption(option, sentinel);
        outcome := ParseOption(nextToken.value);
      case ArgumentToken(_) =>
        if Unfilled(|option.arguments|, option.arity) {
          outcome := ParseOptionArguments(nextToken.value);
        } else {
          CloseOption(option, sentinel);
          outcome := ParseParameters(nextToken);
        }
      case TreatAsArgumentToken =>
        outcome := Saturation(option, option.arguments);
        if outcome.Fail? {
          return;
        }
        CloseOption(option, sentinel);
        var afterMarker := tokens.NextToken();
        outcome := ParseParameters(afterMarker);
    }

    /** The closing of an option: `AddArgumentValue("true")` when `sentinel` (no value
        was bound), then `ParsedOption.Add`. */
    method CloseOption(option: Option, sentinel: bool)
      requires Valid() && option in options
      modifies this, option
      ensures Valid() && Snapshot() == Close(old(Snapshot()), option, sentinel)
      ensures tokens.tokenNum == old(tokens.tokenNum)
    {
      if sentinel {
        option.AddArgumentValue("true");
        bound := bound[option := option.arguments];
      }
      parsedOption := parsedOption + [option];
    }
  }
}
