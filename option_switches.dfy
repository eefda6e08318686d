/** OptionSwitches.cs: switch lists parsed from a space-separated string, with
    repeated switches rejected, and the help text rendered from them. */
module OptionSwitches {
  import opened Common
  import opened Text
  import opened Options

  /** The two concrete subclasses of `AbstractSwitches`. */
  datatype SwitchKind = ShortSwitches | LongSwitches

  /** No switch occurs twice. */
  predicate NoDuplicates(list: seq<string>) {
    forall i, j :: 0 <= i < j < |list| ==> list[i] != list[j]
  }

  /** Appending `words` one by one to `list` never meets a word already present. */
  predicate Admissible(list: seq<string>, words: seq<string>) {
    forall i :: 0 <= i < |words| ==> words[i] !in list + words[..i]
  }

  /** A duplicate-free list stays duplicate-free after an append exactly when the
      appended words are admissible: the membership check of `ParseSwicthesString`
      is what keeps a switch list free of repeats. */
  lemma AdmissibleIffNoDuplicates(list: seq<string>, words: seq<string>)
    requires NoDuplicates(list)
    ensures Admissible(list, words) <==> NoDuplicates(list + words)
  {
    var all := list + words;
    if Admissible(list, words) {
      forall i, j | 0 <= i < j < |all| ensures all[i] != all[j] {
        if j >= |list| {
          var k := j - |list|;
          assert all[j] == words[k];
          assert all[i] == (list + words[..k])[i];
        }
      }
    }
    if NoDuplicates(all) {
      forall i | 0 <= i < |words| ensures words[i] !in list + words[..i] {
        forall m | 0 <= m < |list| + i ensures (list + words[..i])[m] != words[i] {
          assert (list + words[..i])[m] == all[m] && words[i] == all[|list| + i];
        }
      }
    }
  }

  lemma AdmissibleSnoc(list: seq<string>, words: seq<string>, i: nat)
    requires i < |words| && Admissible(list, words[..i]) && words[i] !in list + words[..i]
    ensures Admissible(list, words[..i + 1])
  {
    var next := words[..i + 1];
    forall k | 0 <= k < |next| ensures next[k] !in list + next[..k] {
      assert next[..k] == words[..i][..k] || k == i;
      assert next[..i] == words[..i];
    }
  }

  /** `ShortSwitches.ToHelp`: `-sw, ` for every switch, in order. */
  function ShortHelp(list: seq<string>): string {
    if list == [] then [] else ShortHelp(list[..|list| - 1]) + ShortEntry(list[|list| - 1])
  }

  /** `AppendFormat("-{0}, ", sw)`. */
  function ShortEntry(sw: string): string {
    "-" + sw + ", "
  }

  /** The `[=type]` suffix of a long switch, present exactly when no argument is required. */
  function Postfix(arity: Arity, valueTypeName: string): string {
    if arity.minimalOccurs == 0 then "[=" + valueTypeName + "]" else ""
  }

  /** `LongSwitches.ToHelp`: `--sw<postfix> ` for every switch, in order. */
  function LongHelp(list: seq<string>, postfix: string): string {
    if list == [] then [] else LongHelp(list[..|list| - 1], postfix) + LongEntry(list[|list| - 1], postfix)
  }

  /** `AppendFormat("--{0}{1} ", sw, postfix)`. */
  function LongEntry(sw: string, postfix: string): string {
    "--" + sw + postfix + " "
  }

  /** The short help of a list is the help of its parts, one entry per switch. */
  lemma {:induction false} ShortHelpAppend(a: seq<string>, b: seq<string>)
    ensures ShortHelp(a + b) == ShortHelp(a) + ShortHelp(b)
    decreases |b|
  {
    if b == [] {
      assert a + b == a;
    } else {
      var b', last := b[..|b| - 1], b[|b| - 1];
      assert (a + b)[..|a + b| - 1] == a + b' && (a + b)[|a + b| - 1] == last;
      ShortHelpAppend(a, b');
      var entry := ShortEntry(last);
      assert ShortHelp(a + b) == ShortHelp(a + b') + entry;
      assert ShortHelp(b) == ShortHelp(b') + entry;
    }
  }

  /** The long help of a list is the help of its parts, one entry per switch. */
  lemma {:induction false} LongHelpAppend(a: seq<string>, b: seq<string>, postfix: string)
    ensures LongHelp(a + b, postfix) == LongHelp(a, postfix) + LongHelp(b, postfix)
    decreases |b|
  {
    if b == [] {
      assert a + b == a;
    } else {
      var b', last := b[..|b| - 1], b[|b| - 1];
      assert (a + b)[..|a + b| - 1] == a + b' && (a + b)[|a + b| - 1] == last;
      LongHelpAppend(a, b', postfix);
      var entry := LongEntry(last, postfix);
      assert LongHelp(a + b, postfix) == LongHelp(a + b', postfix) + entry;
      assert LongHelp(b, postfix) == LongHelp(b', postfix) + entry;
    }
  }

  /** One switch's entries, exactly as the `AppendFormat` patterns render them. */
  lemma HelpSingle(sw: string, postfix: string)
    ensures ShortHelp([sw]) == "-" + sw + ", "
    ensures LongHelp([sw], postfix) == "--" + sw + postfix + " "
  {
    assert [sw][..0] == [];
  }

  /** `AbstractSwitches`: an append-only list of switches. */
  class AbstractSwitches {
    const kind: SwitchKind
    var switchesList: seq<string>

    constructor (kind: SwitchKind)
      ensures this.kind == kind && switchesList == []
    {
      this.kind := kind;
      switchesList := [];
    }

    /** `new ShortSwitches(text)` / `new LongSwitches(text)`: the words of `text`, or
        the `ArgumentException` raised by the first repeated one. */
    static method Parse(kind: SwitchKind, switchesString: string) returns (r: Result<AbstractSwitches>)
      ensures r.Ok? <==> NoDuplicates(Words(switchesString))
      ensures r.Ok? ==> fresh(r.value) && r.value.kind == kind && r.value.switchesList == Words(switchesString)
      ensures r.Err? ==> r.error.RepeatedSwitch? && r.error.switchIdentifier in Words(switchesString)
    {
      var switches := new AbstractSwitches(kind);
      var outcome := switches.ParseSwitchesString(switchesString);
      AdmissibleIffNoDuplicates([], Words(switchesString));
      assert [] + Words(switchesString) == Words(switchesString);
      if outcome.Fail? {
        return Err(outcome.error);
      }
      r := Ok(switches);
    }

    /** `ParseSwicthesString`: appends the words of the string in order, throwing at
        the first word already in the list (the words before it stay appended). */
    method ParseSwitchesString(switchesString: string) returns (outcome: Outcome)
      modifies this
      ensures outcome.Pass? <==> Admissible(old(switchesList), Words(switchesString))
      ensures outcome.Pass? ==> switchesList == old(switchesList) + Words(switchesString)
      ensures outcome.Fail? ==>
        (exists k :: 0 <= k < |Words(switchesString)|
           && Admissible(old(switchesList), Words(switchesString)[..k])
           && Words(switchesString)[k] in switchesList
           && switchesList == old(switchesList) + Words(switchesString)[..k]
           && outcome == Fail(RepeatedSwitch(Words(switchesString)[k])))
    {
      var switches := Words(switchesString);
      ghost var list := switchesList;
      for i := 0 to |switches|
        invariant switchesList == list + switches[..i]
        invariant Admissible(list, switches[..i])
      {
        if switches[i] in switchesList {
          assert Words(switchesString)[i] in switchesList;
          return Fail(RepeatedSwitch(switches[i]));
        }
        AdmissibleSnoc(list, switches, i);
        switchesList := switchesList + [switches[i]];
        assert switchesList == list + switches[..i + 1];
      }
      assert switches[..|switches|] == switches;
      outcome := Pass;
    }

    /** The `Switches` getter: a new array holding the switches in insertion order. */
    method Switches() returns (copy: array<string>)
      ensures fresh(copy) && copy[..] == switchesList
    {
      var list := switchesList;
      copy := new string[|list|](i requires 0 <= i < |list| => list[i]);
    }

    /** `Count`: the number of stored switches. */
    function Count(): (n: nat)
      reads this
      ensures n == |switchesList|
    {
      |switchesList|
    }

    /** `ToHelp`: the overriding method of the concrete subclass; the value type
        enters only through its `ToString()`, given as `valueTypeName`. */
    method ToHelp(arity: Arity, valueTypeName: string) returns (help: string)
      ensures kind.ShortSwitches? ==> help == ShortHelp(switchesList)
      ensures kind.LongSwitches? ==> help == LongHelp(switchesList, Postfix(arity, valueTypeName))
    {
      var switches := switchesList;
      help := "";
      if kind.ShortSwitches? {
        for i := 0 to |switches|
          invariant help == ShortHelp(switches[..i])
        {
          assert switches[..i + 1][..i] == switches[..i];
          help := help + ShortEntry(switches[i]);
        }
      } else {
        var postfix := "";
        if arity.minimalOccurs == 0 {
          postfix := "[=" + valueTypeName + "]";
        }
        for i := 0 to |switches|
          invariant help == LongHelp(switches[..i], postfix)
        {
          assert switches[..i + 1][..i] == switches[..i];
          help := help + LongEntry(switches[i], postfix);
        }
      }
      assert switches[..|switches|] == switches;
    }
  }

  /** `SwitchesManager`: a short and a long switch list of one option. */
  class SwitchesManager {
    const shortSwitches: AbstractSwitches
    const longSwitches: AbstractSwitches

    constructor (shortSwitches: AbstractSwitches, longSwitches: AbstractSwitches)
      ensures this.shortSwitches == shortSwitches && this.longSwitches == longSwitches
    {
      this.shortSwitches := shortSwitches;
      this.longSwitches := longSwitches;
    }

    /** `new SwitchesManager(shortText, longText, optionArity, valueType)`: both lists
        parsed (the short one first); arity and value type are not stored. */
    static method Create(shortSwitchesString: string, longSwitchesString: string, optionArity: Arity)
      returns (r: Result<SwitchesManager>)
      ensures r.Ok? <==> NoDuplicates(Words(shortSwitchesString)) && NoDuplicates(Words(longSwitchesString))
      ensures r.Ok? ==> fresh(r.value) && r.value.Valid()
      ensures r.Ok? ==> r.value.shortSwitches.switchesList == Words(shortSwitchesString)
      ensures r.Ok? ==> r.value.longSwitches.switchesList == Words(longSwitchesString)
    {
      var short := AbstractSwitches.Parse(ShortSwitches, shortSwitchesString);
      if short.Err? {
        return Err(short.error);
      }
      var long := AbstractSwitches.Parse(LongSwitches, longSwitchesString);
      if long.Err? {
        return Err(long.error);
      }
      var manager := new SwitchesManager(short.value, long.value);
      r := Ok(manager);
    }

    predicate Valid() {
      shortSwitches.kind.ShortSwitches? && longSwitches.kind.LongSwitches?
    }

    /** `ToHelp`: the short help, then `", "`, then the long help. */
    method ToHelp(arity: Arity, valueTypeName: string) returns (help: string)
      requires Valid()
      ensures help == ShortHelp(shortSwitches.switchesList) + ", "
                      + LongHelp(longSwitches.switchesList, Postfix(arity, valueTypeName))
    {
      var shortHelp := shortSwitches.ToHelp(arity, valueTypeName);
      var longHelp := longSwitches.ToHelp(arity, valueTypeName);
      help := shortHelp + ", " + longHelp;
    }
  }
}
