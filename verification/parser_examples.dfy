/** The scenarios of the repository's tests, stated over the model, plus one
    that shows the parser losing its current node. */
module ParserExamples {
  import opened Wrappers
  import opened Configurations
  import opened Specifications
  import opened Parser

  /** Every positional slot accepts every argument, as the tests assume. */
  function AllowAll(): ValueAllowed {
    (d: OptionDetails, s: string) => true
  }

  function Single(): OptionDetails {
    OptionDetails(SingleValue, "")
  }

  function WithDefault(): OptionDetails {
    OptionDetails(SingleValue, "default")
  }

  /** Running over a non-empty list is one step and then the rest. */
  lemma RunCons(spec: Specification, st: ParseState, next: ParseState, arg: string, rest: seq<string>)
    requires Step(spec, AllowAll(), st, arg) == Success(next)
    ensures Run(spec, AllowAll(), st, [arg] + rest) == Run(spec, AllowAll(), next, rest)
  {
    assert ([arg] + rest)[1..] == rest;
  }

  lemma ConfigurationConstructed()
    ensures Size(Empty()) == 0
  {
  }

  lemma ConfigurationSetAndRead()
    ensures var c := Set(Empty(), "option1", Str("value1"));
      && Size(c) == 1
      && ValueOf(c, "option1") == Success(Str("value1"))
      && ValueOrDefault(c, "option1", Str("default1")) == Str("value1")
      && ValueOrDefault(c, "option2", Str("default2")) == Str("default2")
      && ValueOrNull(c, "option1") == Some(Str("value1"))
      && ValueOrNull(c, "option2") == None
  {
  }

  lemma SpecificationAddAndFind()
    ensures var r := Find(AddNamedOption(EmptySpecification(), "option1", WithDefault()), "option1", Single());
      r.0 && r.1.defaultValue == "default"
  {
  }

  /** One positional slot at the root. */
  lemma ParsePositional()
    ensures var spec := Specification(map[], map[], CommandDetails(map[1 := PositionalOption("option1", Single())], map[]));
      Parse(spec, AllowAll(), ["dummy", "value1"], Empty()) == Success(Configuration(map["option1" := Str("value1")]))
  {
    var spec := Specification(map[], map[], CommandDetails(map[1 := PositionalOption("option1", Single())], map[]));
    var st0 := Initial(Empty());
    PositionalStored(spec, AllowAll(), st0, "value1");
    var st1 := st0.(top := Set(Empty(), "option1", Str("value1")), positionalCount := 1);
    RunCons(spec, st0, st1, "value1", []);
    assert ["dummy", "value1"][1..] == ["value1"] == ["value1"] + [];
    assert Step(spec, AllowAll(), st0, "value1") == Success(st1);
    assert Run(spec, AllowAll(), st0, ["value1"]) == Success(st1);
    assert st1.top == Configuration(map["option1" := Str("value1")]);
  }

  /** Two long options with values, the second unknown to the specification. */
  lemma ParseLongOptions()
    ensures var spec := Specification(map["option1" := WithDefault()], map[], NoCommand());
      && Parse(spec, AllowAll(), ["dummy", "--option1=value1"], Empty())
         == Success(Configuration(map["option1" := Str("value1")]))
      && Parse(spec, AllowAll(), ["dummy", "--option1=value1", "--option2=value2"], Empty())
         == Success(Configuration(map["option1" := Str("value1"), "option2" := Str("value2")]))
  {
    var spec := Specification(map["option1" := WithDefault()], map[], NoCommand());
    var st0 := Initial(Empty());
    assert "--option1=value1" == Tokens.Render(Tokens.LongOption("option1", Some("value1")));
    assert "--option2=value2" == Tokens.Render(Tokens.LongOption("option2", Some("value2")));
    LongOptionStoredAtTop(spec, AllowAll(), st0, "option1", Some("value1"));
    var st1 := st0.(top := Set(Empty(), "option1", Str("value1")));
    assert Step(spec, AllowAll(), st0, "--option1=value1") == Success(st1);
    LongOptionStoredAtTop(spec, AllowAll(), st1, "option2", Some("value2"));
    var st2 := st1.(top := Set(st1.top, "option2", Str("value2")));
    assert Step(spec, AllowAll(), st1, "--option2=value2") == Success(st2);
    RunCons(spec, st0, st1, "--option1=value1", []);
    assert ["dummy", "--option1=value1"][1..] == ["--option1=value1"] == ["--option1=value1"] + [];
    assert Run(spec, AllowAll(), st0, ["--option1=value1"]) == Success(st1);
    RunCons(spec, st1, st2, "--option2=value2", []);
    assert Run(spec, AllowAll(), st1, ["--option2=value2"]) == Success(st2);
    RunCons(spec, st0, st1, "--option1=value1", ["--option2=value2"]);
    assert ["dummy", "--option1=value1", "--option2=value2"][1..] == ["--option1=value1"] + ["--option2=value2"];
    assert Run(spec, AllowAll(), st0, ["--option1=value1", "--option2=value2"]) == Success(st2);
    assert st1.top == Configuration(map["option1" := Str("value1")]);
    assert st2.top == Configuration(map["option1" := Str("value1"), "option2" := Str("value2")]);
  }

  /** A long option without `=` against an empty specification. */
  lemma ParseBareLongOption()
    ensures Parse(EmptySpecification(), AllowAll(), ["dummy", "--option1"], Empty())
      == Success(Configuration(map["option1" := Str("")]))
  {
    var spec := EmptySpecification();
    var st0 := Initial(Empty());
    assert "--option1" == Tokens.Render(Tokens.LongOption("option1", None));
    LongOptionStoredAtTop(spec, AllowAll(), st0, "option1", None);
    var st1 := st0.(top := Set(Empty(), "option1", Str("")));
    assert Step(spec, AllowAll(), st0, "--option1") == Success(st1);
    RunCons(spec, st0, st1, "--option1", []);
    assert ["dummy", "--option1"][1..] == ["--option1"] == ["--option1"] + [];
    assert Run(spec, AllowAll(), st0, ["--option1"]) == Success(st1);
    assert st1.top == Configuration(map["option1" := Str("")]);
  }

  /** A short alias stores under its long name. */
  lemma ParseShortOption()
    ensures var spec := Specification(map["option1" := WithDefault()], map["o" := "option1"], NoCommand());
      Parse(spec, AllowAll(), ["dummy", "-o=value1"], Empty()) == Success(Configuration(map["option1" := Str("value1")]))
  {
    var spec := Specification(map["option1" := WithDefault()], map["o" := "option1"], NoCommand());
    var st0 := Initial(Empty());
    assert "-o=value1" == Tokens.Render(Tokens.ShortOption("o", Some("value1")));
    ShortOptionStoredAtTop(spec, AllowAll(), st0, "o", Some("value1"));
    var st1 := st0.(top := Set(Empty(), "option1", Str("value1")));
    assert Step(spec, AllowAll(), st0, "-o=value1") == Success(st1);
    RunCons(spec, st0, st1, "-o=value1", []);
    assert ["dummy", "-o=value1"][1..] == ["-o=value1"] == ["-o=value1"] + [];
    assert Run(spec, AllowAll(), st0, ["-o=value1"]) == Success(st1);
    assert st1.top == Configuration(map["option1" := Str("value1")]);
  }

  function CommandSpec(command1: CommandDetails): Specification {
    Specification(map[], map[],
      CommandDetails(map[1 := PositionalOption("command", Single())], map[("command", "command1") := command1]))
  }

  /** The state after the first argument "command1" of the command scenarios. */
  function InCommand1(command1: CommandDetails): ParseState {
    ParseState(Configuration(map["command" := Nested(CommandNode("command1"))]), ["command"], command1, 1)
  }

  /** "command1" fills root slot 1, "command", and so triggers command1. */
  lemma EnterCommand1(command1: CommandDetails)
    ensures Step(CommandSpec(command1), AllowAll(), Initial(Empty()), "command1") == Success(InCommand1(command1))
  {
    var spec := CommandSpec(command1);
    var st0 := Initial(Empty());
    PositionalStored(spec, AllowAll(), st0, "command1");
    assert Resolve(spec, AllowAll(), NoCommand(), 1, "command1") == Resolution("command", "command1", false);
    assert CommandFor(spec, NoCommand(), "command", "command1") == Some(command1);
    var top1 := Set(Empty(), "command", Nested(CommandNode("command1")));
    assert SetAtPath(Empty(), [], "command", Nested(CommandNode("command1"))) == Some(top1);
    assert st0.path + ["command"] == ["command"];
    assert top1 == InCommand1(command1).top;
  }

  /** A positional that triggers a command creates its node. */
  lemma ParseCommand()
    ensures Parse(CommandSpec(NoCommand()), AllowAll(), ["dummy", "command1"], Empty())
      == Success(Configuration(map["command" := Nested(CommandNode("command1"))]))
  {
    EnterCommand1(NoCommand());
    RunCons(CommandSpec(NoCommand()), Initial(Empty()), InCommand1(NoCommand()), "command1", []);
    assert ["dummy", "command1"][1..] == ["command1"] + [];
  }

  /** A slot of the command, numbered by the global count (2, not 1), stores
      into the command's node. */
  lemma ParseCommandOption()
    ensures var command1 := CommandDetails(map[2 := PositionalOption("command1_option1", Single())], map[]);
      Parse(CommandSpec(command1), AllowAll(), ["dummy", "command1", "value1"], Empty())
      == Success(Configuration(map["command" := Nested(Configuration(map[
           "name" := Str("command1"), "command1_option1" := Str("value1")]))]))
  {
    var command1 := CommandDetails(map[2 := PositionalOption("command1_option1", Single())], map[]);
    var spec := CommandSpec(command1);
    var st1 := InCommand1(command1);
    EnterCommand1(command1);
    PositionalStored(spec, AllowAll(), st1, "value1");
    assert Resolve(spec, AllowAll(), command1, 2, "value1") == Resolution("command1_option1", "value1", true);
    assert CommandFor(spec, command1, "command1_option1", "value1") == None;
    var node1 := Set(CommandNode("command1"), "command1_option1", Str("value1"));
    assert SetAtPath(st1.top, ["command"], "command1_option1", Str("value1")) == Some(Set(st1.top, "command", Nested(node1)));
    var st2 := st1.(top := Set(st1.top, "command", Nested(node1)), positionalCount := 2);
    assert Step(spec, AllowAll(), st1, "value1") == Success(st2);
    RunCons(spec, st1, st2, "value1", []);
    RunCons(spec, Initial(Empty()), st1, "command1", ["value1"]);
    assert ["dummy", "command1", "value1"][1..] == ["command1"] + ["value1"];
    assert node1 == Configuration(map["name" := Str("command1"), "command1_option1" := Str("value1")]);
    assert st2.top == Configuration(map["command" := Nested(node1)]);
  }

  /** What a chained `addCommand("command", "command1", "subcommand1")`
      registers: slot 2 of command1 is "subcommand", and "subcommand1" is a
      command of command1 with the given details. */
  function Chained(subcommand1: CommandDetails): CommandDetails {
    CommandDetails(map[2 := PositionalOption("subcommand", Single())], map[("subcommand", "subcommand1") := subcommand1])
  }

  /** The state after "command1" "subcommand1". */
  function InSubcommand1(subcommand1: CommandDetails): ParseState {
    ParseState(
      Configuration(map["command" := Nested(Configuration(map[
        "name" := Str("command1"), "subcommand" := Nested(CommandNode("subcommand1"))]))]),
      ["command", "subcommand"], subcommand1, 2)
  }

  /** "subcommand1" fills command1's slot 2, "subcommand", and so triggers
      subcommand1 inside command1's node. */
  lemma EnterSubcommand1(subcommand1: CommandDetails)
    ensures Step(CommandSpec(Chained(subcommand1)), AllowAll(), InCommand1(Chained(subcommand1)), "subcommand1")
      == Success(InSubcommand1(subcommand1))
  {
    var command1 := Chained(subcommand1);
    var spec := CommandSpec(command1);
    var st1 := InCommand1(command1);
    PositionalStored(spec, AllowAll(), st1, "subcommand1");
    assert Resolve(spec, AllowAll(), command1, 2, "subcommand1") == Resolution("subcommand", "subcommand1", true);
    assert CommandFor(spec, command1, "subcommand", "subcommand1") == Some(subcommand1);
    var node1 := Set(CommandNode("command1"), "subcommand", Nested(CommandNode("subcommand1")));
    assert SetAtPath(st1.top, ["command"], "subcommand", Nested(CommandNode("subcommand1")))
      == Some(Set(st1.top, "command", Nested(node1)));
    assert st1.path + ["subcommand"] == ["command", "subcommand"];
    assert node1 == Configuration(map["name" := Str("command1"), "subcommand" := Nested(CommandNode("subcommand1"))]);
    assert Set(st1.top, "command", Nested(node1)) == InSubcommand1(subcommand1).top;
  }

  lemma ParseSubcommand()
    ensures Parse(CommandSpec(Chained(NoCommand())), AllowAll(), ["dummy", "command1", "subcommand1"], Empty())
      == Success(Configuration(map["command" := Nested(Configuration(map[
           "name" := Str("command1"), "subcommand" := Nested(CommandNode("subcommand1"))]))]))
  {
    var spec := CommandSpec(Chained(NoCommand()));
    EnterCommand1(Chained(NoCommand()));
    EnterSubcommand1(NoCommand());
    RunCons(spec, InCommand1(Chained(NoCommand())), InSubcommand1(NoCommand()), "subcommand1", []);
    RunCons(spec, Initial(Empty()), InCommand1(Chained(NoCommand())), "command1", ["subcommand1"]);
    assert ["dummy", "command1", "subcommand1"][1..] == ["command1"] + ["subcommand1"];
  }

  function SubcommandWithOption(): CommandDetails {
    CommandDetails(map[3 := PositionalOption("subcommand1_option1", Single())], map[])
  }

  /** The configuration the last sub-command scenario expects. */
  function TwoLevels(): Configuration {
    Configuration(map["command" := Nested(Configuration(map[
      "name" := Str("command1"),
      "subcommand" := Nested(Configuration(map[
        "name" := Str("subcommand1"), "subcommand1_option1" := Str("value1")]))]))])
  }

  /** "value1" fills subcommand1's slot 3 inside the doubly nested node. */
  lemma SubcommandOptionStep()
    ensures Step(CommandSpec(Chained(SubcommandWithOption())), AllowAll(), InSubcommand1(SubcommandWithOption()), "value1")
      == Success(InSubcommand1(SubcommandWithOption()).(top := TwoLevels(), positionalCount := 3))
  {
    var subcommand1 := SubcommandWithOption();
    var spec := CommandSpec(Chained(subcommand1));
    var st2 := InSubcommand1(subcommand1);
    PositionalStored(spec, AllowAll(), st2, "value1");
    assert Resolve(spec, AllowAll(), subcommand1, 3, "value1") == Resolution("subcommand1_option1", "value1", true);
    assert CommandFor(spec, subcommand1, "subcommand1_option1", "value1") == None;
    var node1 := Configuration(map["name" := Str("command1"), "subcommand" := Nested(CommandNode("subcommand1"))]);
    var node2 := Set(CommandNode("subcommand1"), "subcommand1_option1", Str("value1"));
    var node1' := Set(node1, "subcommand", Nested(node2));
    assert SetAtPath(node1, ["subcommand"], "subcommand1_option1", Str("value1")) == Some(node1');
    assert SetAtPath(st2.top, ["command", "subcommand"], "subcommand1_option1", Str("value1"))
      == Some(Set(st2.top, "command", Nested(node1')));
    assert node2 == Configuration(map["name" := Str("subcommand1"), "subcommand1_option1" := Str("value1")]);
    assert node1' == Configuration(map["name" := Str("command1"), "subcommand" := Nested(node2)]);
    assert Set(st2.top, "command", Nested(node1')) == TwoLevels();
  }

  /** Slot 3 of the sub-command stores two levels down. */
  lemma ParseSubcommandOption()
    ensures Parse(CommandSpec(Chained(SubcommandWithOption())), AllowAll(),
      ["dummy", "command1", "subcommand1", "value1"], Empty()) == Success(TwoLevels())
  {
    var subcommand1 := SubcommandWithOption();
    var spec := CommandSpec(Chained(subcommand1));
    var st1 := InCommand1(Chained(subcommand1));
    var st2 := InSubcommand1(subcommand1);
    var st3 := st2.(top := TwoLevels(), positionalCount := 3);
    EnterCommand1(Chained(subcommand1));
    EnterSubcommand1(subcommand1);
    SubcommandOptionStep();
    RunCons(spec, st2, st3, "value1", []);
    RunCons(spec, st1, st2, "subcommand1", ["value1"]);
    RunCons(spec, Initial(Empty()), st1, "command1", ["subcommand1", "value1"]);
    assert ["dummy", "command1", "subcommand1", "value1"][1..] == ["command1"] + ["subcommand1", "value1"];
  }

  function Command1WithOption(): CommandDetails {
    CommandDetails(map[2 := PositionalOption("command1_option1", Single())], map[])
  }

  /** After "command1", "--command=other" stores at the top level under
      "command", replacing command1's node. */
  lemma OverwriteCommandStep()
    ensures Step(CommandSpec(Command1WithOption()), AllowAll(), InCommand1(Command1WithOption()), "--command=other")
      == Success(InCommand1(Command1WithOption()).(top := Configuration(map["command" := Str("other")])))
  {
    var st1 := InCommand1(Command1WithOption());
    assert "--command=other" == Tokens.Render(Tokens.LongOption("command", Some("other")));
    LongOptionStoredAtTop(CommandSpec(Command1WithOption()), AllowAll(), st1, "command", Some("other"));
    assert Set(st1.top, "command", Str("other")) == Configuration(map["command" := Str("other")]);
  }

  /** Then "value1", for command1's slot 2, has no node to go to. */
  lemma LostNodeStep()
    ensures Step(CommandSpec(Command1WithOption()), AllowAll(),
      InCommand1(Command1WithOption()).(top := Configuration(map["command" := Str("other")])), "value1")
      == Failure(CurrentNodeLost("value1"))
  {
    var command1 := Command1WithOption();
    var spec := CommandSpec(command1);
    var st2 := InCommand1(command1).(top := Configuration(map["command" := Str("other")]));
    PositionalStored(spec, AllowAll(), st2, "value1");
    assert Resolve(spec, AllowAll(), command1, 2, "value1") == Resolution("command1_option1", "value1", true);
    assert CommandFor(spec, command1, "command1_option1", "value1") == None;
    assert NodeAt(st2.top, ["command"]) == None;
  }

  /** A long option named like the active command replaces the command's node
      at the top level. That alone is well defined; the next write into the
      command's node is the one the parser cannot make. */
  lemma ParseLosesCommandNode()
    ensures Parse(CommandSpec(Command1WithOption()), AllowAll(), ["dummy", "command1", "--command=other"], Empty())
      == Success(Configuration(map["command" := Str("other")]))
    ensures Parse(CommandSpec(Command1WithOption()), AllowAll(), ["dummy", "command1", "--command=other", "value1"], Empty())
      == Failure(CurrentNodeLost("value1"))
  {
    var command1 := Command1WithOption();
    var spec := CommandSpec(command1);
    var st1 := InCommand1(command1);
    var st2 := st1.(top := Configuration(map["command" := Str("other")]));
    EnterCommand1(command1);
    OverwriteCommandStep();
    LostNodeStep();
    RunCons(spec, st1, st2, "--command=other", []);
    RunCons(spec, st1, st2, "--command=other", ["value1"]);
    RunCons(spec, Initial(Empty()), st1, "command1", ["--command=other"]);
    RunCons(spec, Initial(Empty()), st1, "command1", ["--command=other", "value1"]);
    assert ["dummy", "command1", "--command=other"][1..] == ["command1"] + ["--command=other"];
    assert ["dummy", "command1", "--command=other", "value1"][1..] == ["command1"] + ["--command=other", "value1"];
    assert ["--command=other", "value1"] == ["--command=other"] + ["value1"];
    assert Run(spec, AllowAll(), st2, ["value1"]) == Failure(CurrentNodeLost("value1"));
  }
}
