# Command-line parser and configuration store, in Dafny

This project models the command-line parser of the Ishiko configuration
library together with the two data structures it works on:

- the **Configuration**, a map from option name to a value;
- the **CommandLineSpecification**, which declares named options, short
  aliases, positional slots and sub-commands.

`CommandLineParser::parse` reads the arguments after the program name left to
right. Each argument becomes one of three kinds of token:

- a long option, `--name[=value]`;
- a short option, `-s[=value]`, whose short name is resolved through the
  top-level specification's alias table;
- a positional argument, looked up by a single global positional counter in
  the current command's slots and then in the root's slots.

The resulting (name, value) pair either enters a sub-command or is stored. A
sub-command gets a nested configuration `{"name": value}`, and the parser
descends into it. A stored value goes into the current command's node only
when it came from one of that command's own positional slots; every other
value goes to the top-level configuration.

Modules, one per component:

| file | module | what it holds |
|---|---|---|
| `wrappers.dfy` | `Wrappers` | `Option` and `Result` |
| `configuration.dfy` | `Configurations` | `Value`, `Configuration`, `value` / `valueOrDefault` / `valueOrNull` / `set`, and paths into the tree |
| `specification.dfy` | `Specifications` | `OptionDetails`, `CommandDetails`, `Specification`, `addNamedOption` / `find`, and the parser's lookups |
| `tokens.dfy` | `Tokens` | splitting one argument into a token, and writing it back |
| `parser.dfy` | `Parser` | `Step`, `Run` and `Parse`, and the properties of the pass |
| `parser_examples.dfy` | `ParserExamples` | the repository's test scenarios, stated over the model |

Modelling choices:

- The parser's pointer to the current configuration node is a path of names
  from the top-level configuration.
- Its copy of the current command's details is a `CommandDetails` value.
  Before the first command is entered this value is a default-constructed,
  empty scope, not the root specification, because `command_details` is
  default-constructed at line 12.
- `isValueAllowed` has no implementation in the source, so it is a parameter
  `allowed` of the parser.
- `parse` writes into a configuration the caller passes in, so `Parse` takes
  that configuration as input and returns it with the writes applied.
- `value(name)` is not `noexcept`, unlike `valueOrDefault` and `valueOrNull`,
  so it is taken to raise when the name is absent. It is modelled as a
  `Result` whose error is `NotFound`.
- Substring operations take end-exclusive bounds.

The source marks several branches with a TODO and raises no error in any of
them; the model follows the code:

- `--=v` and `-=v` store under the empty name: the empty-name check at
  `src/CommandLineParser.cpp:28-31` and `:49-52` is an empty TODO block.
- An unresolved short option stores under the empty name, because
  `option_name` stays empty when `findShortNamedOption` fails (`:61-65`).
- A positional argument with no slot stores `""` under the empty name
  (`:95-98`).
- A positional argument that its slot's option rejects stores `""` under that
  slot's name, at the top level (`:79-82`, `:90-93`).

Two further points of the code that the model keeps as written:

- Short names are looked up only in the top-level specification
  (`specification.findShortNamedOption` at `:62`), whereas positional slots
  and commands are looked up in the current command first (`:72`, `:102`).
- The positional counter is declared once before the loop (`:16`) and only
  ever incremented (`:69`); entering a command does not reset it. The tests
  rely on this: a command's slot is numbered 2 and a sub-command's 3
  (`tests/src/CommandLineParserTests.cpp:127` and `:166`).

One case has no defined behaviour in the source. Take a top-level store
(a long option, say) whose name equals the name of the first command entered.
It replaces the node that the parser's current-node pointer lies inside. The
next write through that pointer is undefined in C++. The model stops the pass
at that write with `CurrentNodeLost`. `Parser.StepFailsOnlyOnLostNode` states
that this is the only way a step fails, and
`ParserExamples.ParseLosesCommandNode` shows it on concrete arguments.

## Model

| member | source | states |
|---|---|---|
| Configurations.Size | include/Ishiko/Configuration/Configuration.hpp:38 | the number of names stored; its laws are stated by `Empty`, `Set` and `SizeCountsDistinctNames` |
| Configurations.Empty | include/Ishiko/Configuration/Configuration.hpp:38 | a new configuration has size 0 and every name reads as absent |
| Configurations.ValueOf | include/Ishiko/Configuration/Configuration.hpp:40 | `value(name)` succeeds exactly when the name is present, with the stored value; otherwise fails with NotFound(name) |
| Configurations.ValueOrDefault | include/Ishiko/Configuration/Configuration.hpp:41 | total; the stored value when present, the given default when absent |
| Configurations.ValueOrNull | include/Ishiko/Configuration/Configuration.hpp:42 | total; Some(stored value) exactly when present, None (null) when absent |
| Configurations.Set | include/Ishiko/Configuration/Configuration.hpp:44-47 | after `set(name, v)` reading `name` gives `v`, every other name reads as before, and the size grows by one exactly when the name was new |
| Configurations.SetAllKeys | include/Ishiko/Configuration/Configuration.hpp:47 | after any series of `set` calls the stored names are the old names plus the names set |
| Configurations.SizeCountsDistinctNames | include/Ishiko/Configuration/Configuration.hpp:47 | from empty, the size after a series of `set` calls is the number of distinct names set |
| Configurations.SetAllLastWriteWins | include/Ishiko/Configuration/Configuration.hpp:44-47 | after a series of `set` calls each name reads as its last write, or as before when never written |
| Configurations.NodeAt | src/CommandLineParser.cpp:107 | the node the current-node pointer designates, reached by following nested configurations by name; its laws are stated by `NodeAtSnoc`, `SetAtPath` and `SetKeepsNodeAt` |
| Configurations.SetAtPath | src/CommandLineParser.cpp:106-107 | writing into the node at a path succeeds exactly when that node exists; the node then reads as itself with the entry set, and top-level names off the path are unchanged |
| Configurations.SetAtPathKeepsSiblings | src/CommandLineParser.cpp:106-107 | writing at the end of a path leaves every entry off the path of any one node along the path as it was |
| Configurations.SetAtPathFrame | src/CommandLineParser.cpp:106-107 | writing at the end of a path changes nothing off the path, at any depth: each node on the way down keeps all its other entries |
| Configurations.SetKeepsNodeAt | src/CommandLineParser.cpp:126 | a top-level `set` under a name other than the first name of a path leaves the node at the end of the path as it was |
| Specifications.Find | src/CommandLineSpecification.cpp:19-31 | `find` returns true exactly for registered names, yielding their details; for any other name it returns false and hands back the `details` argument untouched |
| Specifications.AddNamedOption | src/CommandLineSpecification.cpp:14-17 | after `addNamedOption(name, d)` the name is found with its ORIGINAL details when it was already registered (emplace) and with `d` otherwise; no other name's lookup changes |
| Specifications.FindAfterAddNamedOption | src/CommandLineSpecification.cpp:14-26 | on an empty specification, `find` after `addNamedOption(name, d)` returns true with `d` and its default value |
| Specifications.AddNamedOptionTwice | src/CommandLineSpecification.cpp:16 | adding a registered name again, with any details, changes nothing |
| Tokens.Tokenize | src/CommandLineParser.cpp:23-66 | an argument starting with `--` is a long option, one starting with `-` a short option, anything else positional, split at the first `=`; its laws are `RenderTokenize` and `TokenizeRender` |
| Tokens.IndexOf | src/CommandLineParser.cpp:25 | the position found is the first `=` of the argument, and None means the argument holds no `=` |
| Tokens.RenderTokenize | src/CommandLineParser.cpp:23-66 | splitting an argument loses nothing: the token writes back as the same argument, with the name before the first `=` and the value after it |
| Tokens.TokenizeRender | src/CommandLineParser.cpp:23-66 | every well-formed long, short or positional token is recovered from the argument it is written as |
| Parser.Parse | src/CommandLineParser.cpp:9-130 | `parse` skips `argv[0]` and writes into the caller's configuration; its laws are `ParseIgnoresProgramName` and `ParseWithoutCommands` |
| Parser.Step | src/CommandLineParser.cpp:19-128 | one iteration of the loop; its laws are the per-argument lemmas below, `StepFailsOnlyOnLostNode` and `StepKeepsCurrentNode` |
| Parser.Resolve | src/CommandLineParser.cpp:20-99 | the option name and value one argument yields; its laws are `LongOptionStoredAtTop`, `ShortOptionStoredAtTop`, `PositionalStored`, `ShortNameIgnoresScope` and `CurrentSlotHidesRootSlot` |
| Parser.CommandFor | src/CommandLineParser.cpp:101-117 | the command a (name, value) triggers, the current scope's before the root's; its law is `CommandEntered` |
| Parser.ParseIgnoresProgramName | src/CommandLineParser.cpp:15-17 | `argv[0]` has no influence on the result |
| Parser.RunAppend | src/CommandLineParser.cpp:17-129 | arguments are processed once each, left to right: the pass over `a + b` is the pass over `a` continued over `b` |
| Parser.RunCountsPositionals | src/CommandLineParser.cpp:16-69 | the positional counter grows by exactly the number of positional arguments, commands included, and is never reset on entering a command |
| Parser.RunWithoutCommands | src/CommandLineParser.cpp:17-129 | with no commands in the root scope the pass never fails, never leaves the top level, and equals one top-level `set` per argument |
| Parser.ParseWithoutCommands | src/CommandLineParser.cpp:118-127 | with no commands, each option in the result is the value of the last argument that wrote it, or what the caller's configuration held |
| Parser.LongOptionStoredAtTop | src/CommandLineParser.cpp:23-42 | `--name=value` and `--name` store `value`, or "", under `name` at the top level, even for names unknown to the specification or empty, with any scope active; when `name` differs from the name the first active command was entered under, the active command's node is untouched |
| Parser.ShortOptionStoredAtTop | src/CommandLineParser.cpp:43-66 | `-s[=value]` stores at the top level under the long name the root specification's alias table gives `s`, or under "" when it gives none |
| Parser.PositionalStored | src/CommandLineParser.cpp:67-127 | a positional argument that triggers no command moves the counter by one. An accepting slot of the current scope writes it into the current node, failing only when that node is gone, and changes nothing off the path. In every other case exactly one top-level name changes: the current scope's rejecting slot gets "", else the root's slot gets the argument or "", else "" gets "". The current node then stays as it was unless that name is the first command's |
| Parser.ShortNameIgnoresScope | src/CommandLineParser.cpp:61-62 | a short option resolves to the same name and value whichever command scope is active |
| Parser.CurrentSlotHidesRootSlot | src/CommandLineParser.cpp:72-84 | when the current scope has a slot for the positional number, the root's slots have no effect on the step |
| Parser.RunIgnoresNamedOptions | src/CommandLineParser.cpp:36-41 | with the short-name alias table held fixed, the parser never consults the named-option table: any table gives the same pass, so long options are stored whether declared or not |
| Parser.CommandEntered | src/CommandLineParser.cpp:101-117 | a (name, value) that triggers a command enters the current scope's command when there is one and the root's only otherwise; it sets `{"name": value}` under `name` in the current node, changes nothing off the path to that node (at the top level, nothing but the first command's entry), and both the current node and the scope descend into it |
| Parser.StepFailsOnlyOnLostNode | src/CommandLineParser.cpp:101-127 | a step fails exactly when it must write into the current node and that node is no longer in the tree |
| Parser.StepKeepsCurrentNode | src/CommandLineParser.cpp:118-127 | unless a top-level store hits the first command's name, a step succeeds and the current node stays in the tree |
| ParserExamples.ConfigurationConstructed | tests/src/ConfigurationTests.cpp:21-27 | a new configuration has size 0 |
| ParserExamples.ConfigurationSetAndRead | tests/src/ConfigurationTests.cpp:29-69 | after one `set`, size 1; `value`, `valueOrDefault` and `valueOrNull` read it back, and a missing name gives the default or null |
| ParserExamples.SpecificationAddAndFind | tests/src/CommandLineSpecificationTests.cpp:28-40 | a named option added to an empty specification is found with its default value |
| ParserExamples.ParsePositional | tests/src/CommandLineParserTests.cpp:31-44 | root slot 1 binds the first positional argument |
| ParserExamples.ParseLongOptions | tests/src/CommandLineParserTests.cpp:46-75 | `--option1=value1`, and then `--option2=value2` for an undeclared option, both land at the top level |
| ParserExamples.ParseBareLongOption | tests/src/CommandLineParserTests.cpp:77-89 | `--option1` against an empty specification stores "" |
| ParserExamples.ParseShortOption | tests/src/CommandLineParserTests.cpp:91-104 | `-o=value1` stores under the long name `option1` |
| ParserExamples.ParseCommand | tests/src/CommandLineParserTests.cpp:106-120 | a positional that triggers a command creates `{"name": "command1"}` under `command` |
| ParserExamples.ParseCommandOption | tests/src/CommandLineParserTests.cpp:122-139 | the command's slot 2 (global numbering) stores into the command's node |
| ParserExamples.ParseSubcommand | tests/src/CommandLineParserTests.cpp:141-159 | a chained sub-command nests under `subcommand` inside the command's node |
| ParserExamples.ParseSubcommandOption | tests/src/CommandLineParserTests.cpp:161-182 | the sub-command's slot 3 stores two levels down |
| ParserExamples.ParseLosesCommandNode | src/CommandLineParser.cpp:106-126 | a long option named like the active command replaces its node; the next current-node write stops the pass |

## Left out

- The `char*` overload of `parse` (`src/CommandLineParser.cpp:132-136`) only casts its argument, so it is not modelled.
- `isValueAllowed`'s rule has no implementation in the source, so the parser takes it as a parameter and every property holds for any rule.
- `findPositionalOption`, `findShortNamedOption` and `findCommand` also have no implementation in the source. They are plain map lookups over the model's `CommandDetails` and `Specification`, which write their out-parameters only on success, as `find` does.
- `addPositionalOption`, `addCommand` (including its chained form) and the `addNamedOption` overload with a short name have no implementation in the source. The scenarios build the specification values those calls evidently produce directly.
- `createDefaultConfiguration` has no implementation in the source and the parser does not call it.
- `OptionType` is carried but never read, as in the parser. `CommandDetails` holds no named-option table because the parser never reads one below the root.
- `Value::type()` and the `boost::variant` base are replaced by the `Value` datatype. It adds a nested-configuration case, which the parser stores and the tests read back with `asConfiguration()` but the header does not show.
- Configurations.ValueOf: the header (`include/Ishiko/Configuration/Configuration.hpp:40`) only declares `value`, and its body is not part of this model. That it raises on an absent name is an assumption, drawn from its not being `noexcept` while `valueOrDefault` and `valueOrNull` are.
- Configurations.Set: the header (`include/Ishiko/Configuration/Configuration.hpp:44`) only declares `set`, and its body is not part of this model. That it inserts or overwrites one entry of the `std::map` at line 47 is an assumption, drawn from that member and from how the parser and the tests use `set`.
- `findShortNamedOption` yields `OptionDetails` as well as the long name, so it presumably reads the named-option table. The model keeps the alias table apart from the named-option table, and `Parser.RunIgnoresNamedOptions` varies only the latter.
- The header declares `value`, `valueOrDefault` and `set` over `std::string` only. The model generalises them to `Value`, as the parser's calls require.
- Writing through the current-node pointer after its node was replaced has no defined behaviour, so the model stops with `CurrentNodeLost` instead of guessing one.
- The ownership of the parser's `Configuration&` argument is not modelled, nor is memory; the model is a pure function from the caller's configuration to the result.
