/** Tokenizer.cs, `BasicTokenizer`: the older tokenizer, which joins quoted texts
    spread over several strings, drops the `--` marker itself, and splits every short
    option string into one option per character. */
module BasicTokenizer {
  import opened Common
  import opened Text
  import opened Tokenizer

  const TextSymbol: string := "\""
  const JoinCharacter: char := ' '
  const EscapeSymbol: char := '\\'

  /** `EscapeSymbol + TextSymbol`: a quote that does not close a text. */
  const EscapeSequence: string := [EscapeSymbol] + TextSymbol

  // ---------------------------------------------------------------------------
  // PrepareInput

  /** The variables of the quote-joining loop: `inText`, the pending `text`, and `result`. */
  datatype Joining = Joining(inText: bool, text: string, result: seq<string>)

  /** A string that opens and closes a quoted text by itself. */
  predicate ClosesText(str: string) {
    EndsWith(str, TextSymbol) && !EndsWith(str, EscapeSequence)
  }

  /** One iteration of the quote-joining loop. A string that starts a new quote while a
      text is open is dropped (the branch the source leaves as a to-do). */
  function JoinStep(state: Joining, str: string): Joining {
    if !state.inText && StartsWith(str, TextSymbol) && ClosesText(str) then
      state.(result := state.result + [str])
    else if !state.inText && StartsWith(str, TextSymbol) then
      Joining(true, str, state.result)
    else if state.inText && ClosesText(str) then
      Joining(false, state.text + [JoinCharacter] + str, state.result + [state.text + [JoinCharacter] + str])
    else if state.inText && !StartsWith(str, TextSymbol) then
      state.(text := state.text + [JoinCharacter] + str)
    else if !state.inText then
      state.(result := state.result + [str])
    else
      state
  }

  /** The quote-joining loop over `pieces`. */
  function JoinAll(pieces: seq<string>): Joining {
    if pieces == [] then Joining(false, "", [])
    else JoinStep(JoinAll(pieces[..|pieces| - 1]), pieces[|pieces| - 1])
  }

  /** `BasicTokenizer.PrepareInput`, as a function: split at `=`, then join quoted texts.
      A text still open at the end is lost. */
  function BasicPrepare(input: seq<string>): seq<string> {
    JoinAll(SplitMappings(input)).result
  }

  /** `BasicTokenizer.PrepareInput`: the splitting loop, then the quote-joining loop. */
  method BasicPrepareInput(input: seq<string>) returns (result: seq<string>)
    ensures result == BasicPrepare(input)
  {
    var mappingSymbolSplit: seq<string> := [];
    for i := 0 to |input|
      invariant mappingSymbolSplit == SplitMappings(input[..i])
    {
      var exploded := Split(input[i], {MappingSymbol});
      SplitMappingsSnoc(input, i);
      mappingSymbolSplit := mappingSymbolSplit + exploded;
    }
    assert input[..|input|] == input;
    result := JoinQuotedTexts(mappingSymbolSplit);
  }

  /** The second loop of `BasicTokenizer.PrepareInput`: quoted texts joined with spaces. */
  method JoinQuotedTexts(mappingSymbolSplit: seq<string>) returns (result: seq<string>)
    ensures result == JoinAll(mappingSymbolSplit).result
  {
    result := [];
    var inText := false;
    var text := "";
    for i := 0 to |mappingSymbolSplit|
      invariant Joining(inText, text, result) == JoinAll(mappingSymbolSplit[..i])
    {
      var str := mappingSymbolSplit[i];
      assert mappingSymbolSplit[..i + 1][..i] == mappingSymbolSplit[..i];
      if !inText && StartsWith(str, TextSymbol) && EndsWith(str, TextSymbol) && !EndsWith(str, EscapeSequence) {
        result := result + [str];
      } else if !inText && StartsWith(str, TextSymbol) {
        text := str;
        inText := true;
      } else if inText && EndsWith(str, TextSymbol) && !EndsWith(str, EscapeSequence) {
        text := text + [JoinCharacter] + str;
        inText := false;
        result := result + [text];
      } else if inText && !StartsWith(str, TextSymbol) {
        text := text + [JoinCharacter] + str;
      } else if !inText {
        result := result + [str];
      }
    }
    assert mappingSymbolSplit[..|mappingSymbolSplit|] == mappingSymbolSplit;
  }

  /** While no text is open the pending text is irrelevant; while one is open it starts
      with a quote. */
  predicate Tidy(state: Joining) {
    state.inText ==> StartsWith(state.text, TextSymbol)
  }

  /** Every string that starts with a quote also ends with one. */
  predicate QuotesClosed(strings: seq<string>) {
    forall k :: 0 <= k < |strings| && StartsWith(strings[k], TextSymbol) ==> EndsWith(strings[k], TextSymbol)
  }

  lemma QuotesClosedSnoc(strings: seq<string>, str: string)
    requires QuotesClosed(strings) && (StartsWith(str, TextSymbol) ==> EndsWith(str, TextSymbol))
    ensures QuotesClosed(strings + [str])
  {
    var all := strings + [str];
    forall k | 0 <= k < |all| && StartsWith(all[k], TextSymbol) ensures EndsWith(all[k], TextSymbol) {
      if k < |strings| {
        assert all[k] == strings[k];
      }
    }
  }

  /** Joining keeps the opening quote of the text and the closing quote of the string. */
  lemma JoinKeepsQuotes(text: string, str: string)
    requires StartsWith(text, TextSymbol)
    ensures StartsWith(text + [JoinCharacter] + str, TextSymbol)
    ensures EndsWith(str, TextSymbol) ==> EndsWith(text + [JoinCharacter] + str, TextSymbol)
  {
    var joined := text + [JoinCharacter] + str;
    assert joined[..1] == text[..1];
    if EndsWith(str, TextSymbol) {
      assert joined[|joined| - 1..] == str[|str| - 1..];
    }
  }

  lemma JoinStepQuotes(state: Joining, str: string)
    requires Tidy(state) && QuotesClosed(state.result)
    ensures Tidy(JoinStep(state, str)) && QuotesClosed(JoinStep(state, str).result)
  {
    if state.inText {
      JoinKeepsQuotes(state.text, str);
    }
    var next := JoinStep(state, str);
    if next.result != state.result {
      assert next.result == state.result + [next.result[|next.result| - 1]];
      QuotesClosedSnoc(state.result, next.result[|next.result| - 1]);
    }
  }

  lemma {:induction false} JoinAllQuotes(pieces: seq<string>)
    ensures Tidy(JoinAll(pieces)) && QuotesClosed(JoinAll(pieces).result)
    decreases |pieces|
  {
    if pieces != [] {
      JoinAllQuotes(pieces[..|pieces| - 1]);
      JoinStepQuotes(JoinAll(pieces[..|pieces| - 1]), pieces[|pieces| - 1]);
    }
  }

  /** The `Debug.Assert` of `Tokenize` holds: a prepared string starting with a quote also
      ends with one. */
  lemma QuotedStringsAreClosed(input: seq<string>)
    ensures QuotesClosed(BasicPrepare(input))
  {
    JoinAllQuotes(SplitMappings(input));
  }

  // ---------------------------------------------------------------------------
  // Tokenize

  /** One `OptionToken` per character of `flags`. */
  function CharOptions(flags: string): seq<Token> {
    if flags == [] then [] else CharOptions(flags[..|flags| - 1]) + [OptionToken([flags[|flags| - 1]])]
  }

  lemma {:induction false} CharOptionsShape(flags: string)
    ensures |CharOptions(flags)| == |flags|
    ensures forall i :: 0 <= i < |flags| ==> CharOptions(flags)[i] == OptionToken([flags[i]])
    decreases |flags|
  {
    if flags != [] {
      CharOptionsShape(flags[..|flags| - 1]);
    }
  }

  lemma CharOptionsSnoc(flags: string, j: nat)
    requires j < |flags|
    ensures CharOptions(flags[..j + 1]) == CharOptions(flags[..j]) + [OptionToken([flags[j]])]
  {
    assert flags[..j + 1][..j] == flags[..j];
  }

  /** One `ArgumentToken` per string, with its text unchanged. */
  function AsArguments(inputs: seq<string>): (r: seq<Token>)
    ensures |r| == |inputs| && forall i :: 0 <= i < |inputs| ==> r[i] == ArgumentToken(inputs[i])
  {
    if inputs == [] then [] else AsArguments(inputs[..|inputs| - 1]) + [ArgumentToken(inputs[|inputs| - 1])]
  }

  /** The tokens one prepared string adds and the new `treatAsArgument` flag, or the
      `Substring` exception for a lone quote. */
  function BasicStep(ignoreCase: bool, treatAsArgument: bool, input: string): Result<(seq<Token>, bool)> {
    if treatAsArgument then Ok(([ArgumentToken(input)], true))
    else if StartsWith(input, TextSymbol) then
      if |input| < 2 * |TextSymbol| then Err(NegativeLength(|input| - 2 * |TextSymbol|))
      else Ok(([ArgumentToken(input[|TextSymbol|..|input| - |TextSymbol|])], false))
    else if SameText(ignoreCase, input, TreatAsArgumentMark) then Ok(([], true))
    else if StartsWith(input, LongOptionStarter) then Ok(([OptionToken(input[|LongOptionStarter|..])], false))
    else if StartsWith(input, ShortOptionStarter) then Ok((CharOptions(input[|ShortOptionStarter|..]), false))
    else Ok(([ArgumentToken(input)], false))
  }

  /** The tokens and the flag after the prepared strings `inputs`, or the first exception. */
  function BasicRun(ignoreCase: bool, inputs: seq<string>): Result<(seq<Token>, bool)> {
    if inputs == [] then Ok(([], false))
    else Extend(ignoreCase, BasicRun(ignoreCase, inputs[..|inputs| - 1]), inputs[|inputs| - 1])
  }

  /** One more prepared string after the run `before`. */
  function Extend(ignoreCase: bool, before: Result<(seq<Token>, bool)>, input: string): Result<(seq<Token>, bool)> {
    if before.Err? then before
    else
      var step := BasicStep(ignoreCase, before.value.1, input);
      if step.Err? then Err(step.error) else Ok((before.value.0 + step.value.0, step.value.1))
  }

  /** An exception ends the run: whatever follows, the result is that exception. */
  lemma {:induction false} ErrorSticks(ignoreCase: bool, inputs: seq<string>, i: nat)
    requires i <= |inputs| && BasicRun(ignoreCase, inputs[..i]).Err?
    ensures BasicRun(ignoreCase, inputs) == BasicRun(ignoreCase, inputs[..i])
    decreases |inputs| - i
  {
    if i < |inputs| {
      BasicRunSnoc(ignoreCase, inputs, i);
      ErrorSticks(ignoreCase, inputs, i + 1);
    } else {
      assert inputs[..i] == inputs;
    }
  }

  /** `BasicTokenizer.Tokenize(options, inputs)`, as a function; `options` is not consulted. */
  function BasicTokenized(ignoreCase: bool, inputs: seq<string>): Result<seq<Token>> {
    var run := BasicRun(ignoreCase, BasicPrepare(inputs));
    if run.Err? then Err(run.error) else Ok(run.value.0)
  }

  lemma BasicRunSnoc(ignoreCase: bool, inputs: seq<string>, i: nat)
    requires i < |inputs|
    ensures BasicRun(ignoreCase, inputs[..i + 1]) == Extend(ignoreCase, BasicRun(ignoreCase, inputs[..i]), inputs[i])
  {
    assert inputs[..i + 1][..i] == inputs[..i];
  }

  /** The inner `foreach` of `Tokenize`: one `OptionToken` per character, in order. */
  method AddCharOptions(tokens: seq<Token>, option: string) returns (result: seq<Token>)
    ensures result == tokens + CharOptions(option)
  {
    result := tokens;
    for j := 0 to |option|
      invariant result == tokens + CharOptions(option[..j])
    {
      CharOptionsSnoc(option, j);
      AppendAssociative(tokens, CharOptions(option[..j]), [OptionToken([option[j]])]);
      result := result + [OptionToken([option[j]])];
    }
    assert option[..|option|] == option;
  }

  /** `BasicTokenizer.Tokenize`: the loop over the prepared strings with the
      `treatAsArgument` flag, and the inner loop over the characters of a short option
      string. The `options` map is not consulted. */
  method BasicTokenize(options: map<string, Options.Arity>, ignoreCase: bool, inputs: seq<string>)
    returns (r: Result<seq<Token>>)
    ensures r == BasicTokenized(ignoreCase, inputs)
  {
    var prepared := BasicPrepareInput(inputs);
    var tokens: seq<Token> := [];
    var treatAsArgument := false;
    for i := 0 to |prepared|
      invariant BasicRun(ignoreCase, prepared[..i]) == Ok((tokens, treatAsArgument))
    {
      var input := prepared[i];
      BasicRunSnoc(ignoreCase, prepared, i);
      ghost var before := tokens;
      ghost var step := BasicStep(ignoreCase, treatAsArgument, input);
      if treatAsArgument {
        tokens := tokens + [ArgumentToken(input)];
        assert step == Ok(([ArgumentToken(input)], true));
      } else if StartsWith(input, TextSymbol) {
        if |input| < 2 * |TextSymbol| {
          ErrorSticks(ignoreCase, prepared, i + 1);
          return Err(NegativeLength(|input| - 2 * |TextSymbol|));
        }
        var argument := input[|TextSymbol|..|input| - |TextSymbol|];
        tokens := tokens + [ArgumentToken(argument)];
        assert step == Ok(([ArgumentToken(argument)], false));
      } else if SameText(ignoreCase, input, TreatAsArgumentMark) {
        treatAsArgument := true;
        assert step == Ok(([], true));
        assert tokens == before + [];
      } else if StartsWith(input, LongOptionStarter) {
        var option := input[|LongOptionStarter|..];
        tokens := tokens + [OptionToken(option)];
        assert step == Ok(([OptionToken(option)], false));
      } else if StartsWith(input, ShortOptionStarter) {
        var option := input[|ShortOptionStarter|..];
        tokens := AddCharOptions(tokens, option);
        assert step == Ok((CharOptions(option), false));
      } else {
        tokens := tokens + [ArgumentToken(input)];
        assert step == Ok(([ArgumentToken(input)], false));
      }
      assert tokens == before + step.value.0 && treatAsArgument == step.value.1;
    }
    assert prepared[..|prepared|] == prepared;
    r := Ok(tokens);
  }

  // ---------------------------------------------------------------------------
  // Properties of Tokenize

  lemma MarkerIsNotQuoted()
    ensures !StartsWith(TreatAsArgumentMark, TextSymbol)
  {
    assert TreatAsArgumentMark[0] == '-' && TextSymbol[0] == '"';
  }

  /** The flag is set exactly once a `--` has been read. */
  lemma {:induction false} FlagIffMarker(ignoreCase: bool, inputs: seq<string>)
    requires BasicRun(ignoreCase, inputs).Ok?
    ensures BasicRun(ignoreCase, inputs).value.1 <==> TreatAsArgumentMark in inputs
    decreases |inputs|
  {
    if inputs != [] {
      var init, last := inputs[..|inputs| - 1], inputs[|inputs| - 1];
      assert inputs == init + [last];
      FlagIffMarker(ignoreCase, init);
      MarkerIsExact(ignoreCase, last);
      MarkerIsNotQuoted();
    }
  }

  /** Once the flag is set, every string becomes an `ArgumentToken` with its text unchanged. */
  lemma {:induction false} ArgumentsAfterFlag(ignoreCase: bool, done: seq<string>, rest: seq<string>)
    requires BasicRun(ignoreCase, done).Ok? && BasicRun(ignoreCase, done).value.1
    ensures BasicRun(ignoreCase, done + rest) == Ok((BasicRun(ignoreCase, done).value.0 + AsArguments(rest), true))
    decreases |rest|
  {
    if rest == [] {
      assert done + rest == done;
      assert BasicRun(ignoreCase, done).value.0 + AsArguments(rest) == BasicRun(ignoreCase, done).value.0;
    } else {
      var init, last := rest[..|rest| - 1], rest[|rest| - 1];
      ArgumentsAfterFlag(ignoreCase, done, init);
      assert (done + rest)[..|done + rest| - 1] == done + init && (done + rest)[|done + rest| - 1] == last;
      AppendAssociative(BasicRun(ignoreCase, done).value.0, AsArguments(init), [ArgumentToken(last)]);
    }
  }

  /** An exception in the strings before a suffix is the result of the whole run. */
  lemma ErrorBeforeSuffix(ignoreCase: bool, done: seq<string>, rest: seq<string>)
    requires BasicRun(ignoreCase, done).Err?
    ensures BasicRun(ignoreCase, done + rest) == BasicRun(ignoreCase, done)
  {
    assert (done + rest)[..|done|] == done;
    ErrorSticks(ignoreCase, done + rest, |done|);
  }

  /** The marker of `BasicTokenizer`: the first `--` emits no token, and every string
      after it becomes an `ArgumentToken` with its text unchanged. */
  lemma BasicMarker(ignoreCase: bool, before: seq<string>, after: seq<string>)
    requires TreatAsArgumentMark !in before
    ensures var run := BasicRun(ignoreCase, before);
            BasicRun(ignoreCase, before + [TreatAsArgumentMark] + after)
            == if run.Err? then run else Ok((run.value.0 + AsArguments(after), true))
  {
    var run := BasicRun(ignoreCase, before);
    var marked := before + [TreatAsArgumentMark];
    if run.Err? {
      ErrorBeforeSuffix(ignoreCase, before, [TreatAsArgumentMark] + after);
      assert marked + after == before + ([TreatAsArgumentMark] + after);
    } else {
      FlagIffMarker(ignoreCase, before);
      MarkerIsExact(ignoreCase, TreatAsArgumentMark);
      assert marked[..|marked| - 1] == before;
      MarkerIsNotQuoted();
      assert BasicStep(ignoreCase, false, TreatAsArgumentMark) == Ok(([], true));
      assert run.value.0 + [] == run.value.0;
      ArgumentsAfterFlag(ignoreCase, marked, after);
    }
  }

  /** A short option string `-xyz` outside argument mode yields one `OptionToken` per
      character, in order, and leaves the flag clear. */
  lemma BasicShortCluster(ignoreCase: bool, input: string)
    requires IsShortCluster(input)
    ensures BasicStep(ignoreCase, false, input).Ok?
    ensures var step := BasicStep(ignoreCase, false, input).value;
            && !step.1 && |step.0| == |input| - 1
            && forall i :: 0 <= i < |input| - 1 ==> step.0[i] == OptionToken([input[i + 1]])
  {
    MarkerIsExact(ignoreCase, input);
    assert !StartsWith(input, TextSymbol) by {
      assert input[..1] == ShortOptionStarter;
    }
    CharOptionsShape(input[|ShortOptionStarter|..]);
  }

  /** A quoted string outside argument mode yields one `ArgumentToken` holding the text
      between the quotes, whatever it contains. */
  lemma BasicQuotedArgument(ignoreCase: bool, input: string)
    requires StartsWith(input, TextSymbol) && 2 <= |input|
    ensures BasicStep(ignoreCase, false, input) == Ok(([ArgumentToken(input[1..|input| - 1])], false))
  {
  }

  lemma JoinTwo(a: string, b: string)
    ensures JoinAll([a, b]) == JoinStep(JoinStep(Joining(false, "", []), a), b)
  {
    assert [a, b][..1] == [a] && [a][..0] == [];
    assert JoinAll([a]) == JoinStep(JoinAll([]), a);
  }

  /** `"a` and `b"` are joined into the single string `"a b"`. */
  lemma JoinExample()
    ensures BasicPrepare(["\"a", "b\""]) == ["\"a b\""]
  {
    var a, b := "\"a", "b\"";
    assert Undelimited(a, {MappingSymbol}) && Undelimited(b, {MappingSymbol});
    SplitMappingsFixes([a, b]);
    JoinTwo(a, b);
    assert StartsWith(a, TextSymbol) && !ClosesText(a) by {
      assert a[..1] == TextSymbol && a[1..] == "a";
    }
    var first := JoinStep(Joining(false, "", []), a);
    assert first == Joining(true, a, []);
    assert ClosesText(b) by {
      assert b[1..] == TextSymbol && b[0..] == b;
    }
    assert a + [JoinCharacter] + b == "\"a b\"";
  }

  lemma QuotedRun(ignoreCase: bool)
    ensures BasicRun(ignoreCase, ["\"a b\""]) == Ok(([ArgumentToken("a b")], false))
  {
    var quoted := "\"a b\"";
    var none: seq<string> := [];
    assert [quoted][..0] == none;
    assert StartsWith(quoted, TextSymbol) && quoted[1..4] == "a b" by {
      assert quoted[..1] == TextSymbol;
    }
    BasicQuotedArgument(ignoreCase, quoted);
    assert [] + [ArgumentToken("a b")] == [ArgumentToken("a b")];
  }

  /** Tokenizing `"a` `b"` gives the one argument `a b`. */
  lemma QuoteExample(ignoreCase: bool)
    ensures BasicTokenized(ignoreCase, ["\"a", "b\""]) == Ok([ArgumentToken("a b")])
  {
    JoinExample();
    QuotedRun(ignoreCase);
  }
}
