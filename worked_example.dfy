/** An end-to-end run of the library: a flag `-v` with no argument and an option
    `-o` taking one string, over the command line `-v -o out.txt file1`. The flag
    receives `"true"`, the option `out.txt`, and `file1` is left as a parameter,
    with either tokenizer. */
module WorkedExample {
  import opened Common
  import opened Text
  import opened Options
  import opened CommonTypes
  import opened Tokenizer
  import BasicTokenizer
  import opened Parser
  import opened OptionParser

  const Input: seq<string> := ["-v", "-o", "out.txt", "file1"]

  const Tokens: seq<Token> := [OptionToken("v"), OptionToken("o"), ArgumentToken("out.txt"), ArgumentToken("file1")]

  const Dictionary: map<string, Arity> := map["v" := NoArgument, "o" := OneArgument]

  /** The flag and the option of the example. */
  predicate Example(v: Option, o: Option) {
    && v.switches == ["v"] && v.arity == NoArgument
    && o.switches == ["o"] && o.arity == OneArgument && o.valueType == StringType
  }

  const ExampleEntries: seq<(string, Arity)> := [("v", NoArgument), ("o", OneArgument)]

  /** The `Add` calls of the example, in order. */
  lemma ExampleAdds(v: Option, o: Option)
    requires Example(v, o)
    ensures Entries([v, o]) == ExampleEntries
  {
    assert Pairs(v) == [("v", NoArgument)] && Pairs(o) == [("o", OneArgument)];
    assert [v, o][..1] == [v] && [v][..0] == [];
    assert Entries([v]) == [("v", NoArgument)];
  }

  /** Both switches enter the dictionary with their arities. */
  lemma ExampleDictionary(v: Option, o: Option)
    requires Example(v, o)
    ensures BuildMap(Entries([v, o])) == Ok(Dictionary)
  {
    ExampleAdds(v, o);
    var entries := ExampleEntries;
    assert entries[..1] == [("v", NoArgument)] && entries[..1][..0] == [];
    assert BuildMap(entries[..1]) == Ok(map["v" := NoArgument]);
  }

  /** A short flag `-c`, for a character `c` other than `-`. */
  lemma FlagString(c: char)
    requires c != '-'
    ensures StartsWith(['-', c], ShortOptionStarter) && !StartsWith(['-', c], LongOptionStarter)
    ensures ['-', c] != TreatAsArgumentMark && ['-', c][1..] == [c]
    ensures !StartsWith(['-', c], BasicTokenizer.TextSymbol)
    ensures c != MappingSymbol ==> Undelimited(['-', c], {MappingSymbol})
  {
    assert ['-', c][..1] == ShortOptionStarter && ['-', c][..2] == ['-', c];
    if c != MappingSymbol {
      forall k | 0 <= k < 2 ensures ['-', c][k] !in {MappingSymbol} {
        assert ['-', c][k] == '-' || ['-', c][k] == c;
      }
      assert Undelimited(['-', c], {MappingSymbol});
    }
  }

  /** A string starting with neither `-` nor a quote. */
  lemma PlainString(s: string)
    requires s != [] && s[0] != '-' && s[0] != '"'
    ensures !StartsWith(s, ShortOptionStarter) && !StartsWith(s, LongOptionStarter)
    ensures !StartsWith(s, BasicTokenizer.TextSymbol) && s != TreatAsArgumentMark
  {
    assert s[..1] == [s[0]];
  }

  lemma ExampleStrings()
    ensures forall i :: 0 <= i < |Input| ==> Input[i] != [] && Undelimited(Input[i], {MappingSymbol})
  {
    FlagString('v');
    FlagString('o');
    assert Undelimited("out.txt", {MappingSymbol}) && Undelimited("file1", {MappingSymbol});
  }

  /** No string of the example contains `=` or clusters short options: preparing
      leaves the input as it is. */
  lemma ExamplePrepared()
    ensures Prepare(Input) == Input
  {
    ExampleStrings();
    SplitMappingsFixes(Input);
    FlagString('v');
    FlagString('o');
    PlainString("out.txt");
    PlainString("file1");
    ExplodeShape("-v");
    ExplodeShape("-o");
    ExplodeShape("out.txt");
    ExplodeShape("file1");
    assert ShortOptionStarter + ["-v"[1]] == "-v" && ShortOptionStarter + ["-o"[1]] == "-o";
    assert Explode("-v") == ["-v"] && Explode("-o") == ["-o"];
    ExplodeAllFixes(Input);
  }

  /** The smart tokenizer: `-o` opens the argument mode, `out.txt` fills it, and
      `file1` is read outside it. */
  lemma ExampleSmartTokens()
    ensures Tokenized(Dictionary, false, Input) == Tokens
  {
    ExamplePrepared();
    ExampleSmartSteps();
    ExampleSmartTail();
    var rest := Input[1..];
    assert rest == ["-o", "out.txt", "file1"] && rest[1..] == ["out.txt", "file1"];
    assert Run(Dictionary, false, StartContext, rest) == Tokens[1..];
  }

  /** Once `-o` waits for its argument, `out.txt` fills it and `file1` follows as an argument. */
  lemma ExampleSmartTail()
    ensures Run(Dictionary, false, Context(OptionArgument, 0, NonNull(OneArgument)), ["out.txt", "file1"])
            == [ArgumentToken("out.txt"), ArgumentToken("file1")]
  {
    ExampleSmartSteps();
    var tail := ["out.txt", "file1"];
    assert tail[1..] == ["file1"] && tail[1..][1..] == [];
    assert Run(Dictionary, false, StartContext, ["file1"]) == [ArgumentToken("file1")];
  }

  /** The four steps of the smart tokenizer over the example. */
  lemma ExampleSmartSteps()
    ensures var d := Dictionary;
      var waiting := Context(OptionArgument, 0, NonNull(OneArgument));
      && Step(d, false, StartContext, "-v") == (OptionToken("v"), StartContext)
      && Step(d, false, StartContext, "-o") == (OptionToken("o"), waiting)
      && Step(d, false, waiting, "out.txt") == (ArgumentToken("out.txt"), StartContext)
      && Step(d, false, StartContext, "file1") == (ArgumentToken("file1"), StartContext)
  {
    FlagString('v');
    FlagString('o');
    PlainString("out.txt");
    PlainString("file1");
    MarkerIsExact(false, "-v");
    MarkerIsExact(false, "-o");
    MarkerIsExact(false, "out.txt");
    MarkerIsExact(false, "file1");
  }

  /** Quote joining keeps the example's strings: none starts with a quote. */
  lemma ExamplePlain()
    ensures BasicTokenizer.JoinAll(Input) == BasicTokenizer.Joining(false, "", Input)
  {
    FlagString('v');
    FlagString('o');
    PlainString("out.txt");
    PlainString("file1");
    JoinUnquoted(Input);
  }

  /** Strings none of which starts with a quote pass quote joining unchanged. */
  lemma {:induction false} JoinUnquoted(pieces: seq<string>)
    requires forall i :: 0 <= i < |pieces| ==> !StartsWith(pieces[i], BasicTokenizer.TextSymbol)
    ensures BasicTokenizer.JoinAll(pieces) == BasicTokenizer.Joining(false, "", pieces)
    decreases |pieces|
  {
    if pieces != [] {
      var init := pieces[..|pieces| - 1];
      JoinUnquoted(init);
      assert init + [pieces[|pieces| - 1]] == pieces;
    }
  }

  /** The basic tokenizer yields the same tokens. */
  lemma ExampleBasicTokens()
    ensures BasicTokenizer.BasicTokenized(false, Input) == Ok(Tokens)
  {
    ExampleStrings();
    SplitMappingsFixes(Input);
    ExamplePlain();
    ExampleBasicRun();
  }

  /** The basic tokenizer's loop over the example's strings. */
  lemma ExampleBasicRun()
    ensures BasicTokenizer.BasicRun(false, Input) == Ok((Tokens, false))
  {
    ExampleBasicSteps();
    var none: seq<string> := [];
    assert ["-v"][..0] == none && ["-v", "-o"][..1] == ["-v"];
    assert ["-v", "-o", "out.txt"][..2] == ["-v", "-o"] && Input[..3] == ["-v", "-o", "out.txt"];
    var empty: seq<Token> := [];
    assert empty + [OptionToken("v")] == [OptionToken("v")];
    assert Tokens[..2] == [OptionToken("v")] + [OptionToken("o")];
    assert Tokens[..3] == Tokens[..2] + [ArgumentToken("out.txt")];
    assert Tokens == Tokens[..3] + [ArgumentToken("file1")];
    assert BasicTokenizer.BasicRun(false, ["-v"]) == Ok(([OptionToken("v")], false));
    assert BasicTokenizer.BasicRun(false, ["-v", "-o"]) == Ok((Tokens[..2], false));
    assert BasicTokenizer.BasicRun(false, Input[..3]) == Ok((Tokens[..3], false));
  }

  /** The four steps of the basic tokenizer over the example. */
  lemma ExampleBasicSteps()
    ensures BasicTokenizer.BasicStep(false, false, "-v") == Ok(([OptionToken("v")], false))
    ensures BasicTokenizer.BasicStep(false, false, "-o") == Ok(([OptionToken("o")], false))
    ensures BasicTokenizer.BasicStep(false, false, "out.txt") == Ok(([ArgumentToken("out.txt")], false))
    ensures BasicTokenizer.BasicStep(false, false, "file1") == Ok(([ArgumentToken("file1")], false))
  {
    FlagString('v');
    FlagString('o');
    PlainString("out.txt");
    PlainString("file1");
    MarkerIsExact(false, "-v");
    MarkerIsExact(false, "-o");
    MarkerIsExact(false, "out.txt");
    MarkerIsExact(false, "file1");
    assert BasicTokenizer.CharOptions("v") == [OptionToken("v")] && BasicTokenizer.CharOptions("o") == [OptionToken("o")] by {
      assert "v"[..0] == [] && "o"[..0] == [];
    }
  }

  /** The bindings after the run: `true` for the flag, `out.txt` for the option. */
  function Bound(v: Option, o: Option): map<Option, seq<string>> {
    map[v := ["true"], o := ["out.txt"]]
  }

  /** The parser over the tokens: `-v` is closed by `-o` with its sentinel `"true"`,
      `out.txt` is taken by `-o`, which is then full, so `file1` becomes a parameter. */
  lemma ExampleWalk(v: Option, o: Option)
    requires Example(v, o)
    ensures ParseFrom([v, o], Tokens, 0, State(map[v := [], o := []], [], [], null))
            == Walk(State(Bound(v, o), [NonNull("file1")], [v, o], o), 4, Pass)
  {
    var options := [v, o];
    assert v != o by {
      assert v.switches != o.switches;
    }
    var st := State(map[v := [], o := []], [], [], null);
    assert FirstWithSwitch(options, NonNull("v")) == v;
    var atV := st.(lastOption := v);
    var closedV := Close(atV, v, true);
    assert st.arguments[v] + ["true"] == ["true"];
    assert closedV == State(map[v := ["true"], o := []], [], [v], v);
    ExampleWalkTail(v, o);
    var final := State(Bound(v, o), [NonNull("file1")], [v, o], o);
    assert WalkOpen(options, Tokens, 1, atV, true) == Walk(final, 4, Pass);
    assert WalkOption(options, Tokens, 0, st) == Walk(final, 4, Pass);
  }

  /** From `-o` on, with `-v` already closed holding `"true"`. */
  lemma ExampleWalkTail(v: Option, o: Option)
    requires Example(v, o)
    ensures WalkOption([v, o], Tokens, 1, State(map[v := ["true"], o := []], [], [v], v))
            == Walk(State(Bound(v, o), [NonNull("file1")], [v, o], o), 4, Pass)
  {
    var options := [v, o];
    assert v != o by {
      assert v.switches != o.switches;
    }
    assert options[1..] == [o];
    assert FirstWithSwitch(options, NonNull("o")) == o;
    var closedV := State(map[v := ["true"], o := []], [], [v], v);
    var atO := closedV.(lastOption := o);
    var filled := atO.(arguments := atO.arguments[o := ["out.txt"]]);
    assert atO.arguments[o] + ["out.txt"] == ["out.txt"];
    var closedO := Close(filled, o, false);
    var final := State(Bound(v, o), [NonNull("file1")], [v, o], o);
    assert closedO.(parameters := closedO.parameters + [NonNull("file1")]) == final;
    assert WalkParameters(options, Tokens, 3, closedO) == Walk(final, 4, Pass);
    assert WalkOpen(options, Tokens, 3, filled, false) == Walk(final, 4, Pass);
    assert WalkArguments(options, Tokens, 2, atO) == Walk(final, 4, Pass);
    assert WalkOpen(options, Tokens, 2, atO, true) == Walk(final, 4, Pass);
  }

  /** End to end, with either tokenizer: `v` holds `["true"]`, `o` holds
      `["out.txt"]`, the parameters are `["file1"]`, and the run succeeds. */
  lemma ExampleEndToEnd(v: Option, o: Option, kind: TokenizerKind)
    requires Example(v, o)
    ensures AritiesOk([v, o])
    ensures Bind(kind, [v, o], false, Input, map[v := [], o := []])
            == Ok(Walk(State(Bound(v, o), [NonNull("file1")], [v, o], o), 4, Pass))
  {
    ExampleDictionary(v, o);
    ExampleSmartTokens();
    ExampleBasicTokens();
    ExampleWalk(v, o);
  }
}
