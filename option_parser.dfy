/** OptionParser.cs: the façade. It registers options (skipping any whose switch is
    already taken), builds the switch-to-arity dictionary, and tokenizes a command
    line with the chosen tokenizer. Binding the tokens to the options through
    `Parser` is left as a TODO in the source; `ParseAndBind` composes the two. */
module OptionParser {
  import opened Common
  import opened Text
  import opened Options
  import opened Tokenizer
  import BasicTokenizer
  import Parser
  import OptionSwitches

  /** The two tokenizers shipped with the library; `Basic` is the default. */
  datatype TokenizerKind = Basic | Smart

  // ---------------------------------------------------------------------------
  // Switch ownership under the comparer

  /** `opt.Switches.Contains(s, stringEqualityComparer)`. */
  predicate Owns(option: Option, ignoreCase: bool, s: string) {
    exists t :: t in option.switches && SameText(ignoreCase, t, s)
  }

  /** Some option of `options` carries `s`. */
  predicate Registered(options: seq<Option>, ignoreCase: bool, s: string) {
    exists k :: 0 <= k < |options| && Owns(options[k], ignoreCase, s)
  }

  /** `options.Where(opt => opt.Switches.Contains(s, comparer)).Count()`. */
  function CountOwners(options: seq<Option>, ignoreCase: bool, s: string): nat {
    if options == [] then 0
    else
      CountOwners(options[..|options| - 1], ignoreCase, s)
      + (if Owns(options[|options| - 1], ignoreCase, s) then 1 else 0)
  }

  /** The count is positive exactly when some option carries the switch. */
  lemma {:induction false} CountOwnersPositive(options: seq<Option>, ignoreCase: bool, s: string)
    ensures CountOwners(options, ignoreCase, s) > 0 <==> Registered(options, ignoreCase, s)
  {
    if options != [] {
      var init := options[..|options| - 1];
      CountOwnersPositive(init, ignoreCase, s);
      if Registered(init, ignoreCase, s) {
        var k :| 0 <= k < |init| && Owns(init[k], ignoreCase, s);
        assert options[k] == init[k];
      }
      if Registered(options, ignoreCase, s) && !Owns(options[|options| - 1], ignoreCase, s) {
        var k :| 0 <= k < |options| && Owns(options[k], ignoreCase, s);
        assert init[k] == options[k];
      }
    }
  }

  /** `FirstOrDefault()` of the options carrying `s`. */
  function FirstOwner(options: seq<Option>, ignoreCase: bool, s: string): (r: Option?)
    ensures r != null ==> r in options && Owns(r, ignoreCase, s)
  {
    if options == [] then null
    else if Owns(options[0], ignoreCase, s) then options[0]
    else FirstOwner(options[1..], ignoreCase, s)
  }

  /** `options[k]` is the earliest option carrying `s`. */
  predicate FirstIndex(options: seq<Option>, ignoreCase: bool, s: string, k: int) {
    && 0 <= k < |options|
    && Owns(options[k], ignoreCase, s)
    && forall j :: 0 <= j < k ==> !Owns(options[j], ignoreCase, s)
  }

  /** `FirstOwner` is null exactly when no option carries `s`, and otherwise the
      option at the earliest position carrying it. */
  lemma {:induction false} FirstOwnerShape(options: seq<Option>, ignoreCase: bool, s: string)
    ensures FirstOwner(options, ignoreCase, s) == null <==> !Registered(options, ignoreCase, s)
    ensures FirstOwner(options, ignoreCase, s) != null ==>
      exists k :: FirstIndex(options, ignoreCase, s, k) && options[k] == FirstOwner(options, ignoreCase, s)
  {
    if options != [] && !Owns(options[0], ignoreCase, s) {
      var rest := options[1..];
      FirstOwnerShape(rest, ignoreCase, s);
      if Registered(options, ignoreCase, s) {
        var k :| 0 <= k < |options| && Owns(options[k], ignoreCase, s);
        assert rest[k - 1] == options[k];
      }
      if Registered(rest, ignoreCase, s) {
        var k :| FirstIndex(rest, ignoreCase, s, k) && rest[k] == FirstOwner(rest, ignoreCase, s);
        assert options[k + 1] == rest[k];
        forall j | 0 <= j < k + 1 ensures !Owns(options[j], ignoreCase, s) {
          if j > 0 {
            assert options[j] == rest[j - 1];
          }
        }
        assert FirstIndex(options, ignoreCase, s, k + 1);
      }
    } else if options != [] {
      assert FirstIndex(options, ignoreCase, s, 0);
    }
  }

  // ---------------------------------------------------------------------------
  // Registration

  /** An option whose switches are all free in `registered` (`SwitchesAreCorect`). */
  predicate Accepts(registered: seq<Option>, ignoreCase: bool, option: Option) {
    forall m :: 0 <= m < |option.switches| ==> !Registered(registered, ignoreCase, option.switches[m])
  }

  /** `AddOptions` as a fold: each option in turn is appended when its switches are
      free in the list built so far, and silently skipped otherwise. */
  function Register(registered: seq<Option>, ignoreCase: bool, added: seq<Option>): seq<Option>
    decreases |added|
  {
    if added == [] then registered
    else
      var prev := Register(registered, ignoreCase, added[..|added| - 1]);
      var option := added[|added| - 1];
      if Accepts(prev, ignoreCase, option) then prev + [option] else prev
  }

  /** No registered option carries a switch of a later one: the invariant that the
      clash check of `AddOptions` keeps. */
  predicate NoClash(options: seq<Option>, ignoreCase: bool) {
    forall k, j, m :: 0 <= k < j < |options| && 0 <= m < |options[j].switches| ==>
      !Owns(options[k], ignoreCase, options[j].switches[m])
  }

  /** Registration keeps the list free of clashes. */
  lemma {:induction false} RegisterNoClash(registered: seq<Option>, ignoreCase: bool, added: seq<Option>)
    requires NoClash(registered, ignoreCase)
    ensures NoClash(Register(registered, ignoreCase, added), ignoreCase)
    decreases |added|
  {
    if added != [] {
      var prev := Register(registered, ignoreCase, added[..|added| - 1]);
      RegisterNoClash(registered, ignoreCase, added[..|added| - 1]);
      var option := added[|added| - 1];
      if Accepts(prev, ignoreCase, option) {
        var next := prev + [option];
        forall k, j, m | 0 <= k < j < |next| && 0 <= m < |next[j].switches|
          ensures !Owns(next[k], ignoreCase, next[j].switches[m])
        {
          if j == |prev| {
            assert next[k] == prev[k];
            assert !Registered(prev, ignoreCase, option.switches[m]);
          } else {
            assert next[k] == prev[k] && next[j] == prev[j];
          }
        }
      }
    }
  }

  /** Strictly increasing positions. */
  predicate Ascending(idx: seq<nat>) {
    forall a, b :: 0 <= a < b < |idx| ==> idx[a] < idx[b]
  }

  predicate Below(idx: seq<nat>, n: nat) {
    forall a :: 0 <= a < |idx| ==> idx[a] < n
  }

  /** The elements of `xs` at the positions `idx`, in that order. */
  function Pick(xs: seq<Option>, idx: seq<nat>): (r: seq<Option>)
    requires Below(idx, |xs|)
    ensures |r| == |idx| && forall a :: 0 <= a < |idx| ==> r[a] == xs[idx[a]]
  {
    seq(|idx|, a requires 0 <= a < |idx| => xs[idx[a]])
  }

  /** Registration only appends: the options already registered stay in front, and
      after them come some of the added options, in argument order. */
  lemma {:induction false} RegisterInOrder(registered: seq<Option>, ignoreCase: bool, added: seq<Option>)
    ensures exists idx :: Ascending(idx) && Below(idx, |added|)
                          && Register(registered, ignoreCase, added) == registered + Pick(added, idx)
    decreases |added|
  {
    if added == [] {
      var none: seq<nat> := [];
      assert Register(registered, ignoreCase, added) == registered + Pick(added, none);
    } else {
      var init := added[..|added| - 1];
      RegisterInOrder(registered, ignoreCase, init);
      var idx: seq<nat> :| Ascending(idx) && Below(idx, |init|)
                 && Register(registered, ignoreCase, init) == registered + Pick(init, idx);
      var prev := Register(registered, ignoreCase, init);
      var option := added[|added| - 1];
      assert Pick(added, idx) == Pick(init, idx);
      if Accepts(prev, ignoreCase, option) {
        var idx' := idx + [|added| - 1];
        assert Pick(added, idx') == Pick(added, idx) + [option];
        AppendAssociative(registered, Pick(added, idx), [option]);
        assert Ascending(idx') && Below(idx', |added|);
      } else {
        assert Below(idx, |added|);
      }
    }
  }

  /** When no added option clashes with an earlier one, every option is appended. */
  lemma {:induction false} RegisterAll(registered: seq<Option>, ignoreCase: bool, added: seq<Option>)
    requires NoClash(registered + added, ignoreCase)
    ensures Register(registered, ignoreCase, added) == registered + added
    decreases |added|
  {
    if added == [] {
      assert registered + added == registered;
    } else {
      var init := added[..|added| - 1];
      var option := added[|added| - 1];
      var all := registered + added;
      assert registered + init == all[..|all| - 1];
      assert NoClash(registered + init, ignoreCase) by {
        forall k, j, m | 0 <= k < j < |registered + init| && 0 <= m < |(registered + init)[j].switches|
          ensures !Owns((registered + init)[k], ignoreCase, (registered + init)[j].switches[m])
        {
          assert (registered + init)[k] == all[k] && (registered + init)[j] == all[j];
        }
      }
      RegisterAll(registered, ignoreCase, init);
      var prev := registered + init;
      forall m | 0 <= m < |option.switches| ensures !Registered(prev, ignoreCase, option.switches[m]) {
        forall k | 0 <= k < |prev| ensures !Owns(prev[k], ignoreCase, option.switches[m]) {
          assert prev[k] == all[k] && option == all[|all| - 1];
        }
      }
      AppendAssociative(registered, init, [option]);
      assert init + [option] == added;
    }
  }

  // ---------------------------------------------------------------------------
  // The switch-to-arity dictionary

  /** The `Add(identifier, option.Arity)` calls of one option, in switch order. */
  function Pairs(option: Option): (r: seq<(string, Arity)>)
    ensures |r| == |option.switches|
    ensures forall m :: 0 <= m < |r| ==> r[m] == (option.switches[m], option.arity)
  {
    seq(|option.switches|, m requires 0 <= m < |option.switches| => (option.switches[m], option.arity))
  }

  /** Every `Add` call of the nested loop of `Parse`, in order. */
  function Entries(options: seq<Option>): seq<(string, Arity)> {
    if options == [] then [] else Entries(options[..|options| - 1]) + Pairs(options[|options| - 1])
  }

  /** Filling a `Dictionary` by `Add`: the first key added a second time throws. */
  function BuildMap(entries: seq<(string, Arity)>): (r: Result<map<string, Arity>>)
    ensures r.Err? ==> r.error.DuplicateKey?
  {
    if entries == [] then Ok(map[])
    else
      var prev := BuildMap(entries[..|entries| - 1]);
      var key := entries[|entries| - 1].0;
      if prev.Err? then prev
      else if key in prev.value then Err(DuplicateKey(key))
      else Ok(prev.value[key := entries[|entries| - 1].1])
  }

  /** A built dictionary has a key for every entry, and each of its pairs is an entry. */
  lemma {:induction false} BuildMapKeys(entries: seq<(string, Arity)>)
    ensures var r := BuildMap(entries);
      r.Ok? ==> (forall i :: 0 <= i < |entries| ==> entries[i].0 in r.value)
                && (forall key :: key in r.value ==> exists i :: 0 <= i < |entries| && entries[i] == (key, r.value[key]))
    decreases |entries|
  {
    if entries != [] {
      var n := |entries| - 1;
      var init := entries[..n];
      BuildMapKeys(init);
      var prev := BuildMap(init);
      if prev.Ok? && entries[n].0 !in prev.value {
        var r := BuildMap(entries).value;
        forall i | 0 <= i < |entries| ensures entries[i].0 in r {
          if i < n {
            assert init[i] == entries[i];
          }
        }
        forall key | key in r ensures exists i :: 0 <= i < |entries| && entries[i] == (key, r[key]) {
          if key != entries[n].0 {
            var i :| 0 <= i < |init| && init[i] == (key, prev.value[key]);
            assert entries[i] == init[i];
          } else {
            assert entries[n] == (key, r[key]);
          }
        }
      }
    }
  }

  /** No key is added twice. */
  predicate DistinctKeys(entries: seq<(string, Arity)>) {
    forall i, j :: 0 <= i < j < |entries| ==> entries[i].0 != entries[j].0
  }

  /** The dictionary is built exactly when no key repeats, and then maps every key to
      the arity added with it. */
  lemma {:induction false} BuildMapMeaning(entries: seq<(string, Arity)>)
    ensures BuildMap(entries).Ok? <==> DistinctKeys(entries)
    ensures BuildMap(entries).Ok? ==>
      forall i :: 0 <= i < |entries| ==>
        entries[i].0 in BuildMap(entries).value && BuildMap(entries).value[entries[i].0] == entries[i].1
    decreases |entries|
  {
    if entries != [] {
      var n := |entries| - 1;
      var init := entries[..n];
      BuildMapMeaning(init);
      BuildMapKeys(init);
      var prev := BuildMap(init);
      var key := entries[n].0;
      assert forall i :: 0 <= i < n ==> init[i] == entries[i];
      if prev.Ok? && key in prev.value {
        var i :| 0 <= i < |init| && init[i] == (key, prev.value[key]);
        assert entries[i].0 == entries[n].0;
      }
    }
  }

  /** A failed build names the first key added a second time. */
  lemma {:induction false} BuildMapFirstDuplicate(entries: seq<(string, Arity)>)
    ensures BuildMap(entries).Err? ==>
      exists i, j :: 0 <= i < j < |entries| && DistinctKeys(entries[..j])
                     && entries[i].0 == entries[j].0 == BuildMap(entries).error.key
    decreases |entries|
  {
    if entries != [] {
      var n := |entries| - 1;
      var init := entries[..n];
      var prev := BuildMap(init);
      var key := entries[n].0;
      if prev.Err? {
        BuildMapFirstDuplicate(init);
        var i, j :| 0 <= i < j < |init| && DistinctKeys(init[..j]) && init[i].0 == init[j].0 == prev.error.key;
        assert init[..j] == entries[..j] && init[i] == entries[i] && init[j] == entries[j];
      } else if key in prev.value {
        BuildMapMeaning(init);
        BuildMapKeys(init);
        var i :| 0 <= i < |init| && init[i] == (key, prev.value[key]);
        assert entries[..n] == init && entries[i] == init[i];
      }
    }
  }

  lemma {:induction false} EntriesAppend(a: seq<Option>, b: seq<Option>)
    ensures Entries(a + b) == Entries(a) + Entries(b)
    decreases |b|
  {
    if b == [] {
      assert a + b == a;
    } else {
      var b' := b[..|b| - 1];
      assert (a + b)[..|a + b| - 1] == a + b';
      EntriesAppend(a, b');
      AppendAssociative(Entries(a), Entries(b'), Pairs(b[|b| - 1]));
    }
  }

  /** Every entry is a switch of some option, paired with that option's arity. */
  lemma {:induction false} EntriesFrom(options: seq<Option>)
    ensures forall i :: 0 <= i < |Entries(options)| ==>
      exists k :: 0 <= k < |options| && Entries(options)[i].0 in options[k].switches
                  && Entries(options)[i].1 == options[k].arity
    decreases |options|
  {
    if options != [] {
      var init := options[..|options| - 1];
      EntriesFrom(init);
      var e := Entries(options);
      var n := |Entries(init)|;
      forall i | 0 <= i < |e| ensures exists k :: 0 <= k < |options| && e[i].0 in options[k].switches
                                                  && e[i].1 == options[k].arity
      {
        if i < n {
          var k :| 0 <= k < |init| && Entries(init)[i].0 in init[k].switches && Entries(init)[i].1 == init[k].arity;
          assert e[i] == Entries(init)[i] && options[k] == init[k];
        } else {
          var k := |options| - 1;
          assert e[i] == Pairs(options[k])[i - n];
          assert e[i].0 in options[k].switches && e[i].1 == options[k].arity;
        }
      }
    } else {
      assert Entries(options) == [];
    }
  }

  /** Options registered without clashes, each with a repeat-free switch list, add
      no key twice. */
  lemma {:induction false} NoClashDistinctKeys(options: seq<Option>, ignoreCase: bool)
    requires NoClash(options, ignoreCase)
    requires forall k :: 0 <= k < |options| ==> OptionSwitches.NoDuplicates(options[k].switches)
    ensures DistinctKeys(Entries(options))
    decreases |options|
  {
    if options != [] {
      var n := |options| - 1;
      var init := options[..n];
      assert forall k :: 0 <= k < n ==> init[k] == options[k];
      NoClashDistinctKeys(init, ignoreCase);
      LastKeysFresh(options, ignoreCase);
      var before := Entries(init);
      var e := Entries(options);
      var p := Pairs(options[n]);
      forall i, j | 0 <= i < j < |e| ensures e[i].0 != e[j].0 {
        if j >= |before| && i < |before| {
          assert e[j] == p[j - |before|] && e[i] == before[i];
        } else if i >= |before| {
          assert e[i] == p[i - |before|] && e[j] == p[j - |before|];
        } else {
          assert e[i] == before[i] && e[j] == before[j];
        }
      }
    }
  }

  /** No switch of the last option is a key added by the options before it. */
  lemma LastKeysFresh(options: seq<Option>, ignoreCase: bool)
    requires options != [] && NoClash(options, ignoreCase)
    ensures var n := |options| - 1;
      forall i, m :: 0 <= i < |Entries(options[..n])| && 0 <= m < |options[n].switches| ==>
        Entries(options[..n])[i].0 != options[n].switches[m]
  {
    var n := |options| - 1;
    var init := options[..n];
    EntriesFrom(init);
    forall i, m | 0 <= i < |Entries(init)| && 0 <= m < |options[n].switches|
      ensures Entries(init)[i].0 != options[n].switches[m]
    {
      var key := Entries(init)[i].0;
      var k :| 0 <= k < |init| && key in init[k].switches && Entries(init)[i].1 == init[k].arity;
      assert options[k] == init[k];
      SameTextEquivalence(ignoreCase, key, key, key);
      assert !Owns(options[k], ignoreCase, options[n].switches[m]);
    }
  }

  /** Options registered without clashes, each with a repeat-free switch list, never
      make the dictionary throw: the clash check of `AddOptions` is what keeps the
      `Add` calls of `Parse` from failing. */
  lemma NoClashBuilds(options: seq<Option>, ignoreCase: bool)
    requires NoClash(options, ignoreCase)
    requires forall k :: 0 <= k < |options| ==> OptionSwitches.NoDuplicates(options[k].switches)
    ensures BuildMap(Entries(options)).Ok?
  {
    NoClashDistinctKeys(options, ignoreCase);
    BuildMapMeaning(Entries(options));
  }

  /** Every arity of the options is well formed. */
  predicate AritiesOk(options: seq<Option>) {
    forall k :: 0 <= k < |options| ==> WellFormed(options[k].arity)
  }

  /** The dictionary holds only arities of the options. */
  lemma DictionaryArities(options: seq<Option>)
    requires AritiesOk(options) && BuildMap(Entries(options)).Ok?
    ensures ArityMapOk(BuildMap(Entries(options)).value)
  {
    BuildMapKeys(Entries(options));
    EntriesFrom(options);
  }

  // ---------------------------------------------------------------------------
  // Tokenizing and binding

  /** `Parse(string[])` up to its last statement: the dictionary, then the tokens of
      the chosen tokenizer. */
  function TokensFor(kind: TokenizerKind, options: seq<Option>, ignoreCase: bool, arguments: seq<string>)
    : Result<seq<Token>>
    requires kind.Smart? ==> AritiesOk(options)
  {
    var dictionary := BuildMap(Entries(options));
    if dictionary.Err? then Err(dictionary.error)
    else if kind.Smart? then
      DictionaryArities(options);
      Ok(Tokenized(dictionary.value, ignoreCase, arguments))
    else BasicTokenizer.BasicTokenized(ignoreCase, arguments)
  }

  /** The delimiters of `String.Split`: the given characters, or the white-space
      characters of `Char.IsWhiteSpace` when none are given. */
  function Separators(delimiters: seq<char>): (r: set<char>)
    ensures delimiters != [] ==> forall c :: c in r <==> c in delimiters
  {
    if delimiters == [] then WhiteSpace else set c | c in delimiters
  }

  const WhiteSpace: set<char> :=
    {'\t', '\n', '\U{000B}', '\U{000C}', '\r', ' ', '\U{0085}', '\U{00A0}', '\U{1680}',
     '\U{2000}', '\U{2001}', '\U{2002}', '\U{2003}', '\U{2004}', '\U{2005}', '\U{2006}',
     '\U{2007}', '\U{2008}', '\U{2009}', '\U{200A}', '\U{2028}', '\U{2029}', '\U{202F}',
     '\U{205F}', '\U{3000}'}

  /** The values bound to each option. */
  ghost function Bindings(options: seq<Option>): (b: map<Option, seq<string>>)
    reads set o | o in options
    ensures forall o :: o in options ==> o in b && b[o] == o.arguments
  {
    map o | o in options :: o.arguments
  }

  /** Tokenize, then run `Parser.Parse` from the start over the tokens with the
      options holding `bindings`: what the source's TODO at the end of `Parse`
      describes. */
  ghost function Bind(kind: TokenizerKind, options: seq<Option>, ignoreCase: bool, arguments: seq<string>,
                      bindings: map<Option, seq<string>>): Result<Parser.Walk>
    requires kind.Smart? ==> AritiesOk(options)
    requires forall o :: o in options ==> o in bindings
  {
    var tokens := TokensFor(kind, options, ignoreCase, arguments);
    if tokens.Err? then Err(tokens.error)
    else Ok(Parser.ParseFrom(options, tokens.value, 0, Parser.State(bindings, [], [], null)))
  }

  // ---------------------------------------------------------------------------
  // The façade

  class OptionParser {
    const tokenizer: TokenizerKind
    const ignoreCase: bool
    const mainHelp: string
    var options: seq<Option>
    var parameters: seq<Nullable<string>>

    /** `OptionParser(tokenizer, culture, ignoreCase, mainHelp)` with a non-null
        tokenizer: no option registered, no parameter. */
    constructor (tokenizer: TokenizerKind, ignoreCase: bool, mainHelp: string)
      ensures this.tokenizer == tokenizer && this.ignoreCase == ignoreCase && this.mainHelp == mainHelp
      ensures options == [] && parameters == []
    {
      this.tokenizer := tokenizer;
      this.ignoreCase := ignoreCase;
      this.mainHelp := mainHelp;
      options := [];
      parameters := [];
    }

    /** `OptionParser()` and `OptionParser(mainHelp)`: the basic tokenizer, case-sensitive. */
    constructor Default(mainHelp: string)
      ensures tokenizer == Basic && !ignoreCase && this.mainHelp == mainHelp
      ensures options == [] && parameters == []
    {
      tokenizer := Basic;
      ignoreCase := false;
      this.mainHelp := mainHelp;
      options := [];
      parameters := [];
    }

    /** The four-argument constructor: a null tokenizer throws. */
    static method Create(tokenizer: Nullable<TokenizerKind>, ignoreCase: bool, mainHelp: string)
      returns (r: Result<OptionParser>)
      ensures r.Err? <==> tokenizer.Null?
      ensures r.Err? ==> r.error == ArgumentNull("tokenizer")
      ensures r.Ok? ==> fresh(r.value) && r.value.tokenizer == tokenizer.value && r.value.ignoreCase == ignoreCase
      ensures r.Ok? ==> r.value.options == [] && r.value.parameters == []
    {
      if tokenizer.Null? {
        return Err(ArgumentNull("tokenizer"));
      }
      var parser := new OptionParser(tokenizer.value, ignoreCase, mainHelp);
      r := Ok(parser);
    }

    /** `SwitchesAreCorect`: true exactly when no switch is carried, under the
        comparer, by an option already registered. */
    method SwitchesAreCorect(switches: seq<string>) returns (correct: bool)
      ensures correct <==> forall i :: 0 <= i < |switches| ==> !Registered(options, ignoreCase, switches[i])
    {
      for i := 0 to |switches|
        invariant forall j :: 0 <= j < i ==> !Registered(options, ignoreCase, switches[j])
      {
        var count := CountOwners(options, ignoreCase, switches[i]);
        CountOwnersPositive(options, ignoreCase, switches[i]);
        if count > 0 {
          return false;
        }
      }
      return true;
    }

    /** `AddOptions`: appends each option whose switches are all free, checking
        against the list as it grows. */
    method AddOptions(newOptions: seq<Option>)
      modifies this
      ensures options == Register(old(options), ignoreCase, newOptions)
      ensures parameters == old(parameters)
    {
      for i := 0 to |newOptions|
        invariant options == Register(old(options), ignoreCase, newOptions[..i])
        invariant parameters == old(parameters)
      {
        var option := newOptions[i];
        var correct := SwitchesAreCorect(option.switches);
        assert newOptions[..i + 1][..i] == newOptions[..i];
        if correct {
          options := options + [option];
        }
      }
      assert newOptions[..|newOptions|] == newOptions;
    }

    /** The nested loop of `Parse`: `Add(identifier, option.Arity)` for every switch
        of every option, throwing at the first key already present. */
    method ArityDictionary() returns (r: Result<map<string, Arity>>)
      ensures r == BuildMap(Entries(options))
    {
      var dictionary: map<string, Arity> := map[];
      for i := 0 to |options|
        invariant BuildMap(Entries(options[..i])) == Ok(dictionary)
      {
        var option := options[i];
        var added := AddSwitches(dictionary, options[..i], option);
        if added.Err? {
          DuplicateAborts(options, i);
          return added;
        }
        assert options[..i + 1][..i] == options[..i];
        dictionary := added.value;
      }
      assert options[..|options|] == options;
      r := Ok(dictionary);
    }

    /** The inner loop of `Parse` for one option. */
    static method AddSwitches(dictionary: map<string, Arity>, before: seq<Option>, option: Option)
      returns (r: Result<map<string, Arity>>)
      requires BuildMap(Entries(before)) == Ok(dictionary)
      ensures r == BuildMap(Entries(before) + Pairs(option))
    {
      var switches := option.switches;
      var entries := Entries(before);
      var pairs := Pairs(option);
      var current := dictionary;
      assert entries + pairs[..0] == entries;
      for j := 0 to |switches|
        invariant BuildMap(entries + pairs[..j]) == Ok(current)
      {
        var identifier := switches[j];
        assert pairs[..j + 1] == pairs[..j] + [pairs[j]];
        AppendAssociative(entries, pairs[..j], [pairs[j]]);
        BuildMapSnoc(entries + pairs[..j], pairs[j], current);
        if identifier in current {
          ErrorSticks(entries + pairs[..j + 1], pairs[j + 1..]);
          AppendAssociative(entries, pairs[..j + 1], pairs[j + 1..]);
          assert pairs[..j + 1] + pairs[j + 1..] == pairs;
          return Err(DuplicateKey(identifier));
        }
        current := current[identifier := option.arity];
      }
      assert pairs[..|switches|] == pairs;
      r := Ok(current);
    }

    /** `Parse(string[])`: the tokens of the chosen tokenizer over the dictionary
        (the source drops them; here they are returned). */
    method Parse(arguments: seq<string>) returns (r: Result<seq<Token>>)
      requires tokenizer.Smart? ==> AritiesOk(options)
      ensures r == TokensFor(tokenizer, options, ignoreCase, arguments)
    {
      var dictionary := ArityDictionary();
      if dictionary.Err? {
        return Err(dictionary.error);
      }
      if tokenizer.Smart? {
        DictionaryArities(options);
        var tokens := Tokenize(dictionary.value, ignoreCase, arguments);
        r := Ok(tokens);
      } else {
        r := BasicTokenizer.BasicTokenize(dictionary.value, ignoreCase, arguments);
      }
    }

    /** `Parse(string, params char[])`: split, drop empty pieces, then `Parse(string[])`. */
    method ParseText(arguments: string, delimiters: seq<char>) returns (r: Result<seq<Token>>)
      requires tokenizer.Smart? ==> AritiesOk(options)
      ensures r == TokensFor(tokenizer, options, ignoreCase, Split(arguments, Separators(delimiters)))
    {
      var input := Split(arguments, Separators(delimiters));
      r := Parse(input);
    }

    /** `Parse` followed by the binding its TODO announces: a `Parser` over the
        tokens and the registered options; the options receive their values and the
        parameters are kept. */
    method ParseAndBind(arguments: seq<string>) returns (outcome: Outcome)
      requires tokenizer.Smart? ==> AritiesOk(options)
      modifies this, options
      ensures options == old(options)
      ensures var b := Bind(tokenizer, options, ignoreCase, arguments, old(Bindings(options)));
        && (b.Err? ==>
              && outcome == Fail(b.error) && parameters == old(parameters)
              && (forall o :: o in options ==> o.arguments == old(o.arguments)))
        && (b.Ok? ==>
              && outcome == b.value.outcome && parameters == b.value.state.parameters
              && (forall o :: o in options ==> o in b.value.state.arguments && o.arguments == b.value.state.arguments[o]))
    {
      var tokens := Parse(arguments);
      if tokens.Err? {
        return Fail(tokens.error);
      }
      var parser := new Parser.Parser(tokens.value, options);
      ghost var start := parser.Snapshot();
      assert start == Parser.State(Bindings(options), [], [], null);
      Parser.ParseFromProgress(options, tokens.value, 0, start);
      outcome := parser.Parse();
      parameters := parser.parameters;
    }

    /** `IsSet`: whether the first option carrying the switch holds a value; a
        switch no option carries dereferences null. */
    function IsSet(switchIdentifier: string): (r: Result<bool>)
      reads this, options
      ensures r.Err? <==> !Registered(options, ignoreCase, switchIdentifier)
      ensures r.Err? ==> r.error == NullReference
      ensures r.Ok? ==>
        (r.value <==> exists k :: FirstIndex(options, ignoreCase, switchIdentifier, k) && options[k].ArgumentsCount() != 0)
    {
      FirstOwnerShape(options, ignoreCase, switchIdentifier);
      var option := FirstOwner(options, ignoreCase, switchIdentifier);
      if option == null then Err(NullReference)
      else
        assert forall k, k' ::
          FirstIndex(options, ignoreCase, switchIdentifier, k) && FirstIndex(options, ignoreCase, switchIdentifier, k')
          ==> k == k';
        Ok(option.ArgumentsCount() != 0)
    }

    /** `GetParameters`: a new array holding the parameters. */
    method GetParameters() returns (copy: array<Nullable<string>>)
      ensures fresh(copy) && copy[..] == parameters
    {
      var list := parameters;
      copy := new Nullable<string>[|list|](i requires 0 <= i < |list| => list[i]);
    }
  }

  /** One more `Add` on the dictionary built so far: it throws on a key already present
      and otherwise maps the key to its arity. */
  lemma BuildMapSnoc(entries: seq<(string, Arity)>, entry: (string, Arity), dictionary: map<string, Arity>)
    requires BuildMap(entries) == Ok(dictionary)
    ensures BuildMap(entries + [entry])
            == if entry.0 in dictionary then Err(DuplicateKey(entry.0)) else Ok(dictionary[entry.0 := entry.1])
  {
    assert (entries + [entry])[..|entries|] == entries;
  }

  /** A dictionary that failed stays failed whatever is added after. */
  lemma {:induction false} ErrorSticks(entries: seq<(string, Arity)>, more: seq<(string, Arity)>)
    requires BuildMap(entries).Err?
    ensures BuildMap(entries + more) == BuildMap(entries)
    decreases |more|
  {
    if more == [] {
      assert entries + more == entries;
    } else {
      var init := more[..|more| - 1];
      assert (entries + more)[..|entries + more| - 1] == entries + init;
      ErrorSticks(entries, init);
    }
  }

  /** A failure while adding the switches of `options[i]` is the failure of the whole loop. */
  lemma DuplicateAborts(options: seq<Option>, i: nat)
    requires i < |options|
    requires BuildMap(Entries(options[..i]) + Pairs(options[i])).Err?
    ensures BuildMap(Entries(options)) == BuildMap(Entries(options[..i]) + Pairs(options[i]))
  {
    EntriesAround(options, i);
    ErrorSticks(Entries(options[..i]) + Pairs(options[i]), Entries(options[i + 1..]));
  }

  /** The entries of the options before `options[i]`, then its own, then the rest. */
  lemma EntriesAround(options: seq<Option>, i: nat)
    requires i < |options|
    ensures Entries(options) == (Entries(options[..i]) + Pairs(options[i])) + Entries(options[i + 1..])
  {
    var head, tail := options[..i + 1], options[i + 1..];
    assert options == head + tail;
    EntriesAppend(head, tail);
    assert head[..|head| - 1] == options[..i] && head[|head| - 1] == options[i];
  }
}
