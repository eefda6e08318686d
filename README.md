# OptionParser in Dafny

A model of the command-line option parser of the `OptionParser` C# library and proofs about it.
The library works as two chained state machines over a shared data model:

- The **tokenizer** turns the raw command-line strings into tokens. It has two variants.
  - `SmartTokenizer` splits at `=` and explodes `-abc` into `-a -b -c`. It then walks the
    strings with a `TreatMode` and the arity of the option that is still waiting for arguments.
  - `BasicTokenizer` splits at `=` and joins quoted texts. The first `--` switches it to
    argument mode without emitting a token.
- The **parser** walks the tokens with a cursor.
  - It binds argument values to options, checking each through the option's value type.
  - It enforces each option's minimal number of values.
  - It closes an option that took no value with the sentinel `"true"`.
  - It collects everything else as parameters.
- The **façade** `OptionParser` registers options, skipping one whose switch clashes with a
  registered one. It builds the switch→arity dictionary and runs the tokenizer.

One module per source file:

| module | file | source |
|---|---|---|
| `Common` | common.dfy | `null` as `Nullable`, exceptions as `Result`/`Outcome` values, `uint` |
| `Text` | text.dfy | `String.Split` with `RemoveEmptyEntries`, and the string comparer of the library (Comparer.cs) |
| `CommonTypes` | common_types.dfy | CommonTypes.cs |
| `Options` | option.dfy | Option.cs |
| `OptionSwitches` | option_switches.dfy | OptionSwitches.cs |
| `Tokenizer` | tokenizer.dfy | Tokenizer.cs: the tokens and `SmartTokenizer` |
| `BasicTokenizer` | basic_tokenizer.dfy | Tokenizer.cs: `BasicTokenizer` |
| `Parser` | parser.dfy | Parser.cs |
| `OptionParser` | option_parser.dfy | OptionParser.cs |
| `WorkedExample` | worked_example.dfy | an end-to-end run: `-v -o out.txt file1` |

How the C# constructs are carried over:

- **Imperative code stays imperative.**
  - Loops that fill lists become methods with `while`/`for` loops over `seq` variables. Each is
    proved equal to a specification function, and the properties are proved about that function.
  - `ref` parameters become extra in- and out-parameters.
  - Objects whose fields change are classes: `Option` (its argument list), `AbstractSwitches`,
    `Tokens` (the cursor), `Parser` and `OptionParser`.
  - The parser's three mutually recursive procedures are methods. Each is proved against a walk
    function over the tokens (`WalkParameters`, `WalkOption`, `WalkArguments`).
- **Exceptions are values.**
  - An operation that throws returns `Err(error)` (or `Fail(error)`) with the exception as a
    variant of `Error`.
  - Where the parser dereferences a null (an unregistered switch, a trailing `--` marker), the
    model returns `Fail(NullReference)` instead of excluding the input, so these paths are
    modelled rather than assumed away.
- **Values carry C# `null` as `Nullable`.**
  - The `--` marker token has a null `Value`.
  - A marker that is the very first token therefore reaches `Parameters` as a null entry.
- **`uint` is `uint32`.** The smart tokenizer's "no option waiting" count is `uint.MaxValue`.

## Model

| member | source | states |
|---|---|---|
| Text.SplitFrom | Tokenizer.cs:152 | every piece of a `RemoveEmptyEntries` split is non-empty and free of delimiters |
| Text.SplitFromAt | Tokenizer.cs:152 | splitting continues after a delimiter as a fresh split of the rest |
| Text.SplitAtDelimiter | Tokenizer.cs:152 | a string with a delimiter splits as its two sides split separately, in order |
| Text.SplitFromUndelimited | OptionSwitches.cs:27 | a delimiter-free remainder is appended to the current piece |
| Text.SplitUndelimited | OptionSwitches.cs:27 | a non-empty string without delimiters splits into itself |
| Text.SplitFromKeepsText | Option.cs:209 | the pieces, concatenated, are the pending piece followed by the string with its delimiters removed |
| Text.SplitKeepsText | Option.cs:209 | splitting keeps every non-delimiter character, in order: the pieces concatenate to the input minus its delimiters |
| Text.SameTextCaseless | Comparer.cs:35-38 | against a string without letters, comparing with or without case is plain equality |
| Text.SameTextEquivalence | Comparer.cs:35-38 | the comparer is reflexive, symmetric and transitive, and equal strings compare equal |
| CommonTypes.Validate | CommonTypes.cs:59-92 | `StringType` accepts exactly the non-null values; `EnumStringType` exactly the values in its list, `null` included when the list holds a `null` entry; no other type accepts null |
| CommonTypes.NullValidity | CommonTypes.cs:90-93 | `null` validates, and converts, exactly for an enumeration whose list holds a `null` entry |
| CommonTypes.FromString | CommonTypes.cs:76-88 | conversion returns the value unchanged; `StringType` always succeeds; `EnumStringType` succeeds exactly when `Validate` holds and otherwise raises `NotImplementedException` |
| CommonTypes.ValidValuesConvert | CommonTypes.cs:54-57 | every value that validates converts to itself |
| Options.FactoryArities | Option.cs:49-84 | the five factories are (0,0), (0,1), (1,1), (1,`uint.MaxValue`) and (0,`uint.MaxValue`), all with min ≤ max |
| Options.Option.constructor | Option.cs:204-216 | the switches are the space-separated words of the switch string, arity and value type are stored, no value is bound |
| Options.Option.Create | Option.cs:204-216 | `ArgumentNullException("switches")` for a null switch string, then `ArgumentNullException("description")`; otherwise a fresh option as the constructor builds it, with mode and default value discarded |
| Options.Option.CreateWithoutDefault | Option.cs:191-193 | the five-parameter constructor: fails exactly on a null argument, else the same option |
| Options.Option.CreateFlag | Option.cs:178-180 | the two-parameter constructor gives `NoArgument` arity with the `BoolType` value type |
| Options.Option.Switches | Option.cs:133-138 | the getter returns a fresh array holding the switches in order |
| Options.Option.Get | Option.cs:144-147 | the indexer returns the value at a position in range and raises `IndexOutOfRange` otherwise |
| Options.Option.ArgumentsCount | Option.cs:152-155 | the count is the number of bound values |
| Options.Option.AddArgumentValue | Option.cs:224-227 | appends at the end: the count grows by one, old positions keep their values, the new one holds the argument |
| OptionSwitches.AdmissibleIffNoDuplicates | OptionSwitches.cs:28-37 | the loop accepts every word exactly when the list extended by the words has no duplicates |
| OptionSwitches.ShortHelpAppend | OptionSwitches.cs:58-61 | short help distributes over concatenation of switch lists |
| OptionSwitches.LongHelpAppend | OptionSwitches.cs:85-90 | long help distributes over concatenation of switch lists |
| OptionSwitches.HelpSingle | OptionSwitches.cs:55-93 | one switch gives `-sw, ` in short help and `--sw<postfix> ` in long help |
| OptionSwitches.AbstractSwitches.constructor | OptionSwitches.cs:15 | a switch list starts empty |
| OptionSwitches.AbstractSwitches.Parse | OptionSwitches.cs:49-52 | building short or long switches succeeds exactly when the words have no duplicates, keeps them in order, and otherwise names a repeated word |
| OptionSwitches.AbstractSwitches.ParseSwitchesString | OptionSwitches.cs:25-39 | appends the words in order when none repeats; otherwise fails on the first word already present, with the words before it appended |
| OptionSwitches.AbstractSwitches.Switches | OptionSwitches.cs:19 | a new array with the switches in insertion order |
| OptionSwitches.AbstractSwitches.Count | OptionSwitches.cs:21 | the number of stored switches |
| OptionSwitches.AbstractSwitches.ToHelp | OptionSwitches.cs:55-94 | short help is `-sw, ` per switch; long help is `--sw` + postfix + ` ` per switch, the postfix being `[=type]` exactly when the minimum is 0 |
| OptionSwitches.SwitchesManager.constructor | OptionSwitches.cs:103-107 | stores the short and long switch lists |
| OptionSwitches.SwitchesManager.Create | OptionSwitches.cs:103-107 | succeeds exactly when neither switch string repeats a word, holding both word lists |
| OptionSwitches.SwitchesManager.ToHelp | OptionSwitches.cs:109-114 | short help, then `, `, then long help |
| Tokenizer.ValueOf | Tokenizer.cs:377-401 | `Token.Value` is null exactly for the marker and the token's text otherwise |
| Tokenizer.ShortFlagsShape | Tokenizer.cs:162-165 | one `-c` string per character, in order |
| Tokenizer.ExplodeShape | Tokenizer.cs:158-171 | a `-xyz` string (not `--`) becomes one `-c` per following character, a lone `-` gives nothing; any other string passes unchanged |
| Tokenizer.PrepareInput | Tokenizer.cs:146-174 | the two loops compute `Prepare`: split every string at every `=`, drop empty pieces, explode short clusters |
| Tokenizer.ExplodeShortOptions | Tokenizer.cs:156-171 | the second loop explodes each string in order |
| Tokenizer.SplitMappingsAppend | Tokenizer.cs:150-154 | splitting at `=` works string by string, in order |
| Tokenizer.ExplodeAllAppend | Tokenizer.cs:158-171 | exploding works string by string, in order |
| Tokenizer.PrepareAppend | Tokenizer.cs:146-174 | preparing works string by string: the preparation of a concatenation is the concatenation of the preparations |
| Tokenizer.PrepareSplitsAtEquals | Tokenizer.cs:150-154 | `a=b` prepares to the same strings as `a` and `b` given separately |
| Tokenizer.ExplodePrepared | Tokenizer.cs:158-171 | every string an exploded piece yields is already prepared |
| Tokenizer.SplitMappingsPieces | Tokenizer.cs:150-154 | every piece is non-empty and contains no `=` |
| Tokenizer.ExplodeAllPrepared | Tokenizer.cs:158-171 | exploding `=`-free pieces yields prepared strings only |
| Tokenizer.PreparedStrings | Tokenizer.cs:146-174 | every prepared string is non-empty, has no `=`, and is left unchanged by explosion |
| Tokenizer.SplitMappingsFixes | Tokenizer.cs:150-154 | splitting leaves non-empty `=`-free strings unchanged |
| Tokenizer.ExplodeAllFixes | Tokenizer.cs:158-171 | exploding leaves unchanged strings that explode to themselves |
| Tokenizer.PrepareFixes | Tokenizer.cs:146-174 | preparing leaves prepared strings unchanged |
| Tokenizer.PrepareIdempotent | Tokenizer.cs:146-174 | preparing twice is preparing once |
| Tokenizer.ShortOptionsAreSingleCharacters | Tokenizer.cs:229 | the `Debug.Assert` holds: every prepared short option string has exactly one character after `-` |
| Tokenizer.AfterArgument | Tokenizer.cs:81-98 | taking an argument keeps the context consistent |
| Tokenizer.AfterOption | Tokenizer.cs:120-139 | reading an option keeps the context consistent |
| Tokenizer.Step | Tokenizer.cs:205-236 | one string yields one token and a consistent context |
| Tokenizer.Run | Tokenizer.cs:205-236 | exactly one token per prepared string |
| Tokenizer.AddArgument | Tokenizer.cs:67-71 | appends one `ArgumentToken` with the text |
| Tokenizer.AddArgumentInContext | Tokenizer.cs:81-98 | appends one `ArgumentToken` and updates mode, count and arity as `AfterArgument` says |
| Tokenizer.AddOption | Tokenizer.cs:105-109 | appends one `OptionToken` with the name |
| Tokenizer.AddOptionInContext | Tokenizer.cs:120-139 | appends one `OptionToken`; a registered option with minimum > 0 puts the tokenizer in `OptionArgument` mode with count 0 and its arity |
| Tokenizer.Tokenize | Tokenizer.cs:186-239 | the loop computes `Tokenized`, one token per prepared string |
| Tokenizer.Final | Tokenizer.cs:205-236 | the context after a run stays consistent |
| Tokenizer.RunAppend | Tokenizer.cs:205-236 | a run over a concatenation is the run over the first part followed by the run from its final context |
| Tokenizer.MarkerIsExact | Tokenizer.cs:211 | comparing with `--`, with or without case, is plain equality |
| Tokenizer.ArgumentModeVerbatim | Tokenizer.cs:207-210 | in argument mode every string becomes an `ArgumentToken` with its text unchanged, and the mode stays |
| Tokenizer.ArgumentModeIffMarker | Tokenizer.cs:207-215 | argument mode holds after a run exactly when it held before or a `--` was read |
| Tokenizer.MarkerTurnsRestIntoArguments | Tokenizer.cs:207-215 | the first `--` yields a `TreatAsArgumentToken`, a later one an `ArgumentToken`, and every string after a `--` an `ArgumentToken` with its text unchanged |
| Tokenizer.TokensFollowStrings | Tokenizer.cs:205-236 | every token stands for its own string: the marker for `--`, an argument for the string itself, an option for the string minus its `--` or `-` |
| Tokenizer.OptionInNoneMode | Tokenizer.cs:221-234 | in `None` mode a string with a `--` or `-` prefix yields an `OptionToken` with the rest, registered or not; any other string an `ArgumentToken` |
| Tokenizer.OptionArgumentsTaken | Tokenizer.cs:216-218 | while an option still lacks its minimum, the next strings other than `--` are its `ArgumentToken`s, even when they start with `-` |
| Tokenizer.RequiredArgumentsFollow | Tokenizer.cs:123-133 | after a registered option with minimum n > 0, the next n strings other than `--` become `ArgumentToken`s |
| Tokenizer.AfterArgumentEffect | Tokenizer.cs:83-97 | the count goes up by one; the mode returns to `None` once the minimum is met; at the maximum the arity is cleared and the count reset to `uint.MaxValue` |
| Tokenizer.TokenizedSplitsAtEquals | Tokenizer.cs:152 | `--foo=bar` tokenizes as `--foo bar` |
| Tokenizer.TokenizedPrepared | Tokenizer.cs:196 | tokenizing prepared strings is tokenizing the raw ones |
| Tokenizer.PrepareSingle | Tokenizer.cs:158-171 | a single `=`-free string prepares to its explosion |
| Tokenizer.ExplodeCluster | Tokenizer.cs:160-166 | `-abc` explodes to `-a -b -c` |
| Tokenizer.PrepareShortCluster | Tokenizer.cs:158-166 | `-abc` prepares to `-a -b -c` |
| Tokenizer.ShortClusterExample | Tokenizer.cs:226-231 | `-abc` tokenizes to the options `a`, `b`, `c` |
| Tokenizer.FreeFlagStep | Tokenizer.cs:226-231 | `-c` in `None` mode yields `OptionToken("c")` and keeps the context when `c` is unregistered or registered with a zero minimum |
| Tokenizer.FreeFlagsRun | Tokenizer.cs:205-236 | such flags read in a row yield one `OptionToken` each, in order, and leave the context as it was |
| Tokenizer.ShortClusterTokens | Tokenizer.cs:158-231 | a cluster `-` + flags of unregistered or zero-minimum flags (no `-`, no `=`) tokenizes to one `OptionToken` per character, in order, and leaves the tokenizer in `None` mode |
| BasicTokenizer.BasicPrepareInput | Tokenizer.cs:261-309 | the two loops compute `BasicPrepare`: split at `=`, then join quoted texts |
| BasicTokenizer.JoinQuotedTexts | Tokenizer.cs:271-306 | the quote-joining loop computes `JoinAll` |
| BasicTokenizer.JoinAllQuotes | Tokenizer.cs:277-306 | every string the joining loop outputs that starts with a quote ends with one |
| BasicTokenizer.QuotedStringsAreClosed | Tokenizer.cs:344 | the `Debug.Assert` holds: every prepared string starting with `"` ends with `"` |
| BasicTokenizer.CharOptionsShape | Tokenizer.cs:360-363 | one `OptionToken` per character, in order |
| BasicTokenizer.AsArguments | Tokenizer.cs:338-341 | one `ArgumentToken` per string with its text unchanged |
| BasicTokenizer.ErrorSticks | Tokenizer.cs:336-369 | once a string raises an exception, the run's result is that exception |
| BasicTokenizer.AddCharOptions | Tokenizer.cs:360-363 | the inner loop appends one `OptionToken` per character |
| BasicTokenizer.BasicTokenize | Tokenizer.cs:315-372 | the loop computes `BasicTokenized` |
| BasicTokenizer.MarkerIsNotQuoted | Tokenizer.cs:342-351 | `--` does not start with a quote, so it reaches the marker test |
| BasicTokenizer.FlagIffMarker | Tokenizer.cs:348-351 | the argument flag is set exactly when a `--` was read |
| BasicTokenizer.ArgumentsAfterFlag | Tokenizer.cs:338-341 | once the flag is set every string becomes an `ArgumentToken` with its text unchanged |
| BasicTokenizer.ErrorBeforeSuffix | Tokenizer.cs:345 | an exception before a suffix is the result of the whole run |
| BasicTokenizer.BasicMarker | Tokenizer.cs:348-351 | the first `--` emits no token and every later string becomes an `ArgumentToken` |
| BasicTokenizer.BasicShortCluster | Tokenizer.cs:357-364 | `-xyz` yields one `OptionToken` per character, in order |
| BasicTokenizer.BasicQuotedArgument | Tokenizer.cs:342-347 | a quoted string yields one `ArgumentToken` holding the text between the quotes |
| BasicTokenizer.JoinExample | Tokenizer.cs:283-293 | `"a` and `b"` are joined into `"a b"` |
| BasicTokenizer.QuotedRun | Tokenizer.cs:342-347 | the string `"a b"` yields the argument `a b` |
| BasicTokenizer.QuoteExample | Tokenizer.cs:261-372 | tokenizing `"a` `b"` gives the single argument `a b` |
| Parser.FirstWithSwitch | Parser.cs:187-190 | a found option is one of the options and owns the token's value |
| Parser.FirstWithSwitchShape | Parser.cs:189 | the lookup is null exactly when no option owns the value, and otherwise is the earliest option that does |
| Parser.Saturation | Parser.cs:192-199 | passes exactly when the option holds at least its minimum, else raises `RequiredArgumentIsMissing` naming its first switch |
| Parser.UnfilledMeaning | Parser.cs:201-206 | `IsFullSaturated` is true exactly when not both bounds are reached; for min ≤ max, exactly when another value may be taken |
| Parser.ParseFromProgress | Parser.cs:61-81 | a parse stays within the tokens, consumes them all when it succeeds, and only appends to what it started from, with `ParsedOption` reset |
| Parser.ParametersProgress | Parser.cs:83-105 | parameter collection advances the cursor, ends at the last token unless an exception stops it, and only appends |
| Parser.OptionProgress | Parser.cs:107-145 | the same for `ParseOption` |
| Parser.ArgumentsProgress | Parser.cs:147-185 | the same for `ParseOptionArguments` |
| Parser.OpenProgress | Parser.cs:110-184 | the same for the continuation after an open option |
| Parser.ParametersCollected | Parser.cs:83-96 | when only `ArgumentToken`s follow, their values are appended to `Parameters` in order |
| Parser.MarkerAfterParameter | Parser.cs:97-100 | a marker met while collecting parameters is skipped, not added |
| Parser.TrailingMarker | Parser.cs:97-100 | a marker as the last token after a parameter dereferences the missing next token |
| Parser.LeadingMarker | Parser.cs:75-77 | a marker as the first token reaches `Parameters` as a null entry |
| Parser.ArgumentsBound | Parser.cs:147-185 | while the open option may take more values and they validate, each value is appended to it in token order, with no `"true"` sentinel |
| Parser.TextsBetween | Parser.cs:147-155 | the texts of a run of argument tokens, one per token, in order |
| Parser.ArgumentsRun | Parser.cs:147-185 | a run of valid values the open option has room for is appended to it in token order, and the walk resumes after the run at the same decision point with no `"true"` sentinel |
| Parser.MinimumMissingAtClose | Parser.cs:112-185 | an open option below its minimum, whether or not it took values, followed by the end, an option or the marker raises `RequiredArgumentIsMissing` naming its first switch, with nothing closed |
| Parser.RequiredArgumentMissing | Parser.cs:112-143 | an option below its minimum followed by the end, an option or the marker raises `RequiredArgumentIsMissing` naming its first switch |
| Parser.ArgumentsThenMissing | Parser.cs:147-165 | an option that took some valid values but still lacks its minimum raises `RequiredArgumentIsMissing` at the end, an option or the marker, with those values bound |
| Parser.ArgumentsThenOption | Parser.cs:147-165 | an option that took values within its bounds and is followed by an option has all of them bound, joins `ParsedOption` without the sentinel, and parsing goes on with the next option |
| Parser.OpenStep | Parser.cs:112-185 | the decision after an open option: another option or the marker closes it when its minimum is met and otherwise fails with the saturation error; an argument is taken while the option has room, else it starts the parameters |
| Parser.SentinelAtEnd | Parser.cs:112-117 | an option at the end that has its minimum gets the `"true"` sentinel and is added to `ParsedOption` |
| Parser.UnregisteredSwitch | Parser.cs:109 | a switch no option owns leaves `lastOption` null and the walk fails with a null dereference |
| Parser.InvalidValue | Parser.cs:149-152 | a value the option's type rejects raises `ArgumentValidityException` with nothing appended |
| Parser.Tokens.constructor | Parser.cs:13-17 | the cursor starts at the first token |
| Parser.Tokens.ActualToken | Parser.cs:18-28 | null exactly when the cursor is at the end, otherwise the token under it |
| Parser.Tokens.NextToken | Parser.cs:29-39 | moves the cursor forward by one, then returns the token under it or null at the end |
| Parser.Parser.constructor | Parser.cs:53-59 | cursor on the first token, no parameters, no parsed options, no open option |
| Parser.Parser.Parse | Parser.cs:61-81 | the parser ends holding the walk `ParseFrom` computes, with its outcome |
| Parser.Parser.ParseParameters | Parser.cs:83-105 | the parser ends holding the walk `WalkParameters` computes |
| Parser.Parser.ParseOption | Parser.cs:107-145 | the parser ends holding the walk `WalkOption` computes |
| Parser.Parser.ParseOptionArguments | Parser.cs:147-185 | the parser ends holding the walk `WalkArguments` computes |
| Parser.Parser.ContinueOpen | Parser.cs:110-145 | the branches after an open option, as `WalkOpen` computes them |
| Parser.Parser.CloseOption | Parser.cs:115-116 | closing appends `"true"` when no value was taken and adds the option to `ParsedOption`, cursor unchanged |
| OptionParser.CountOwnersPositive | OptionParser.cs:68-69 | the count of options carrying a switch under the comparer is positive exactly when some registered option carries it |
| OptionParser.FirstOwner | OptionParser.cs:104 | a found option is registered and carries the switch under the comparer |
| OptionParser.FirstOwnerShape | OptionParser.cs:104 | `FirstOrDefault` is null exactly when no option carries the switch, and otherwise is the earliest one that does |
| OptionParser.RegisterNoClash | OptionParser.cs:136-151 | registration never lets two options share a switch under the comparer |
| OptionParser.RegisterInOrder | OptionParser.cs:136-151 | registration appends a subsequence of the new options, in argument order, and nothing else |
| OptionParser.RegisterAll | OptionParser.cs:136-151 | when no switch clashes, every new option is appended |
| OptionParser.BuildMap | OptionParser.cs:116-123 | the only failure is `Dictionary.Add` rejecting a duplicate key |
| OptionParser.BuildMapKeys | OptionParser.cs:116-123 | a built dictionary has exactly the entries' keys, each mapped to an arity it was added with |
| OptionParser.BuildMapMeaning | OptionParser.cs:116-123 | building succeeds exactly when no key repeats, and then maps every switch to its option's arity |
| OptionParser.BuildMapFirstDuplicate | OptionParser.cs:121 | a failure names the first key that repeats an earlier one |
| OptionParser.EntriesAppend | OptionParser.cs:117-123 | the entries of a concatenation are the entries of its parts, in order |
| OptionParser.EntriesFrom | OptionParser.cs:117-123 | every entry is a switch of some registered option with that option's arity |
| OptionParser.NoClashDistinctKeys | OptionParser.cs:116-123 | options with distinct switch lists that do not clash give distinct keys |
| OptionParser.NoClashBuilds | OptionParser.cs:116-123 | options registered through `AddOptions`, each with no repeated switch, always build a dictionary |
| OptionParser.DictionaryArities | OptionParser.cs:116-124 | well-formed arities give the tokenizer a well-formed dictionary |
| OptionParser.Separators | OptionParser.cs:132 | `Split` with delimiters splits at exactly those characters |
| OptionParser.BuildMapSnoc | OptionParser.cs:121 | one more `Add` throws `DuplicateKey` on a key already present and otherwise maps the key to its arity |
| OptionParser.ErrorSticks | OptionParser.cs:121 | once `Dictionary.Add` throws, later switches do not change the result |
| OptionParser.DuplicateAborts | OptionParser.cs:116-123 | a duplicate key within an option aborts the build at that option |
| OptionParser.EntriesAround | OptionParser.cs:117-123 | the entries are those before an option, the option's own, and those after it |
| OptionParser.OptionParser.constructor | OptionParser.cs:46-58 | stores tokenizer, case mode and help text; no options and no parameters |
| OptionParser.OptionParser.Default | OptionParser.cs:42-44 | the default constructor: `BasicTokenizer`, case-sensitive |
| OptionParser.OptionParser.Create | OptionParser.cs:46-58 | `ArgumentNullException("tokenizer")` exactly when the tokenizer is null |
| OptionParser.OptionParser.SwitchesAreCorect | OptionParser.cs:64-73 | true exactly when no given switch matches, under the comparer, a switch of a registered option |
| OptionParser.OptionParser.AddOptions | OptionParser.cs:136-151 | the options become `Register` of the old ones and the new ones: accepted options appended in order, clashing ones skipped |
| OptionParser.OptionParser.ArityDictionary | OptionParser.cs:116-123 | the nested loop computes `BuildMap` of every switch of every option |
| OptionParser.OptionParser.AddSwitches | OptionParser.cs:119-122 | the inner loop adds the option's switches to the dictionary built so far |
| OptionParser.OptionParser.Parse | OptionParser.cs:114-127 | builds the dictionary (failing on a duplicate key) and tokenizes with the configured tokenizer |
| OptionParser.OptionParser.ParseText | OptionParser.cs:129-134 | splits the text at the delimiters, dropping empty pieces, and then behaves like `Parse` |
| OptionParser.OptionParser.ParseAndBind | OptionParser.cs:124-126 | tokenizes and then runs `Parser.Parse`: on a tokenizer exception nothing changes; otherwise parameters and every option's values are those of the walk |
| OptionParser.OptionParser.IsSet | OptionParser.cs:101-106 | a null dereference when no option carries the switch; otherwise true exactly when the first option carrying it holds a value |
| OptionParser.OptionParser.GetParameters | OptionParser.cs:109-112 | a fresh array copy of the parameters |
| WorkedExample.ExampleAdds | OptionParser.cs:117-123 | the example's entries are `v`→(0,0) and `o`→(1,1) |
| WorkedExample.ExampleDictionary | OptionParser.cs:116-123 | the example's dictionary builds |
| WorkedExample.ExamplePrepared | Tokenizer.cs:146-174 | the example's strings are already prepared |
| WorkedExample.ExampleSmartTokens | Tokenizer.cs:186-239 | `SmartTokenizer` gives `v`, `o`, `out.txt`, `file1` |
| WorkedExample.ExampleSmartSteps | Tokenizer.cs:205-236 | the four steps, with `-o` waiting for one argument |
| WorkedExample.ExamplePlain | Tokenizer.cs:277-306 | quote joining keeps strings without quotes |
| WorkedExample.ExampleBasicTokens | Tokenizer.cs:315-372 | `BasicTokenizer` gives the same tokens |
| WorkedExample.ExampleBasicRun | Tokenizer.cs:336-369 | the basic run over the example ends with those tokens and the flag clear |
| WorkedExample.ExampleBasicSteps | Tokenizer.cs:336-369 | the four basic steps |
| WorkedExample.ExampleWalk | Parser.cs:61-185 | the parser binds `"true"` to `v` and `out.txt` to `o`, and collects `file1` |
| WorkedExample.ExampleEndToEnd | OptionParser.cs:114-127 | with either tokenizer, dictionary, tokens and walk together give `v` = `["true"]`, `o` = `["out.txt"]`, parameters `["file1"]` |

## Left out

- Culture: the comparer folds only ASCII letters (`Text.SameText`); culture-sensitive comparison and `CultureInfo` are not modelled, nor is the culture `null` check of the `OptionParser` and comparer constructors.
- `BoolType` and `DoubleType`: `Validate` of a foreign value type is a parameter (`Foreign(name, accepts)`), because those wrap `bool.TryParse` and floating-point parsing.
- `OptionParser.GetValue`, `GetValues` (a stub), `WriteHelp` (empty) and the `Program` console demo are not modelled: they are casts through foreign conversions, stubs or I/O.
- Exception messages (Exceptions.cs) are not modelled; each exception is an `Error` variant.
- `AddOptions` also copies the culture and case mode into each accepted option's value type; that configuration is not modelled.
- `Tokens.NextToken` is never called past the end by the parser; the model requires the cursor to be before the end.
- Options.Option.constructor: the null checks of the C# constructor are stated by `Option.Create`, not by the constructor itself.
- `OptionParser.OptionParser.Parse` returns the tokens, which the C# method drops; `ParseAndBind` runs the parser over them, a step the C# `Parse` leaves as a TODO.
- `OptionParser.OptionParser.Parse` requires well-formed arities (min ≤ max) for `SmartTokenizer`, whose `Debug.Assert` relies on them.
- `Parse(string, char[])` with a null string (a `NullReferenceException`) is not modelled: strings are never null here.
- `Parser.Parser.ContinueOpen` and `Parser.Parser.CloseOption`, `Tokenizer.ExplodeShortOptions`, `BasicTokenizer.JoinQuotedTexts` and `BasicTokenizer.AddCharOptions` are parts of C# methods split out as methods of their own; the statements are those of the C# method.
- `Option.Mode`, the default value and the description are accepted and then discarded, as in the C# constructor.
- Characters: a Dafny `char` is a Unicode scalar value, a C# `char` a UTF-16 code unit. The model agrees with the source on text inside the Basic Multilingual Plane; a character outside it (`-😀`) is one flag here, while `ExplodeShortOptions` and `AddCharOptions` split it into two lone surrogates.
- A null `Option` in the array given to `AddOptions` (a `NullReferenceException` after the earlier options were added) is not modelled: options are never null here.
- A null value type is accepted by the C# `Option` constructor and later dereferenced by `AddOptions` and `ParseOptionArguments`; the model's options always carry a value type.
- A null argument string in `Parse(string[])` (a `NullReferenceException` in `PrepareInput`) and a null `allowedStrings` array of an `EnumStringType` (an `ArgumentNullException` in `Validate`) are not modelled; null entries inside that array are.
- `Tokenizer` is an abstract class users may extend; the model covers only the two tokenizers the library ships, as the closed `TokenizerKind` (`Basic` and `Smart`).
- The unfinished error branch of the quote-joining loop (a string starting with a quote while a text is open) does nothing, so that string is dropped, as in the C# code.
