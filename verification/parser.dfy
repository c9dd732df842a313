/** The command-line parser: one left-to-right pass over the arguments after
    the program name, writing into a configuration tree.

    The pass carries four things: the top-level configuration, the path from
    it to the node of the innermost command entered so far (the "current
    node"), the command scope whose positional slots and sub-commands are
    consulted first (initially a scope with neither), and one positional
    counter that is never reset.

    Each argument yields an option name and value:
    - a long option gives its own name, and its value or "" without `=`;
    - a short option gives the long name its alias has in the top-level
      specification's alias table, or "" when it has none;
    - a positional argument bumps the counter and looks it up in the current
      scope's slots, then in the root scope's slots. A slot whose option
      accepts the argument gives its name and the argument; one that rejects
      it gives its name and ""; no slot gives "" and "".
    If (name, value) triggers a sub-command of the current scope, or else of
    the root scope, a node `{"name": value}` is set under `name` in the
    current node and both the current node and the scope descend into it.
    Otherwise the value is stored: into the current node when it came from a
    slot of the current scope that accepted it, and into the top-level
    configuration in every other case.

    A top-level store under the same name as the first command entered
    replaces the node the current node lies in. The parser then keeps writing
    through a pointer to a destroyed node, which has no defined behaviour;
    here the pass stops with CurrentNodeLost at the first such write. */
module Parser {
  import opened Wrappers
  import opened Configurations
  import opened Specifications
  import opened Tokens

  /** `isValueAllowed`: whether a positional slot's option accepts an
      argument. Its rule is not part of this model; it is a parameter. */
  type ValueAllowed = (OptionDetails, string) -> bool

  datatype ParseState = ParseState(
    top: Configuration,
    path: seq<string>,
    scope: CommandDetails,
    positionalCount: nat)

  datatype ParseError = CurrentNodeLost(arg: string)

  /** The option name and value one argument yields, and whether it came from
      a slot of the current command scope that accepted it. */
  datatype Resolution = Resolution(name: string, value: string, inCurrentCommand: bool)

  function Initial(configuration: Configuration): ParseState {
    ParseState(configuration, [], NoCommand(), 0)
  }

  predicate IsPositional(arg: string) {
    Tokenize(arg).Positional?
  }

  /** The positional counter after `arg`. */
  function Advance(count: nat, arg: string): nat {
    if IsPositional(arg) then count + 1 else count
  }

  /** `index` is the positional counter already advanced past `arg`. */
  function Resolve(spec: Specification, allowed: ValueAllowed, scope: CommandDetails, index: nat, arg: string): Resolution {
    match Tokenize(arg)
    case LongOption(name, v) => Resolution(name, v.GetOr(""), false)
    case ShortOption(s, v) => Resolution(FindShortNamedOption(spec, s).GetOr(""), v.GetOr(""), false)
    case Positional(text) =>
      match FindPositionalOption(scope, index) {
        case Some(p) =>
          if allowed(p.details, text) then Resolution(p.name, text, true) else Resolution(p.name, "", false)
        case None =>
          match FindPositionalOption(spec.root, index) {
            case Some(p) => Resolution(p.name, if allowed(p.details, text) then text else "", false)
            case None => Resolution("", "", false)
          }
      }
  }

  /** The sub-command (name, value) triggers: current scope first, then root. */
  function CommandFor(spec: Specification, scope: CommandDetails, name: string, value: string): Option<CommandDetails> {
    match FindCommand(scope, name, value)
    case Some(cmd) => Some(cmd)
    case None => FindCommand(spec.root, name, value)
  }

  /** The node a command creates in the configuration. */
  function CommandNode(value: string): Configuration {
    Configuration(map["name" := Str(value)])
  }

  /** Processes one argument. */
  function Step(spec: Specification, allowed: ValueAllowed, st: ParseState, arg: string): Result<ParseState, ParseError> {
    var count := Advance(st.positionalCount, arg);
    var res := Resolve(spec, allowed, st.scope, count, arg);
    match CommandFor(spec, st.scope, res.name, res.value)
    case Some(cmd) =>
      (match SetAtPath(st.top, st.path, res.name, Nested(CommandNode(res.value)))
       case Some(top) => Success(ParseState(top, st.path + [res.name], cmd, count))
       case None => Failure(CurrentNodeLost(arg)))
    case None =>
      if res.inCurrentCommand then
        match SetAtPath(st.top, st.path, res.name, Str(res.value))
        case Some(top) => Success(st.(top := top, positionalCount := count))
        case None => Failure(CurrentNodeLost(arg))
      else
        Success(st.(top := Set(st.top, res.name, Str(res.value)), positionalCount := count))
  }

  /** Processes the arguments left to right, stopping at the first failure. */
  function Run(spec: Specification, allowed: ValueAllowed, st: ParseState, args: seq<string>): Result<ParseState, ParseError>
    decreases |args|
  {
    if |args| == 0 then Success(st)
    else
      match Step(spec, allowed, st, args[0])
      case Failure(e) => Failure(e)
      case Success(next) => Run(spec, allowed, next, args[1..])
  }

  /** `parse(specification, argc, argv, configuration)`: the first argument is
      the program name and is skipped; `configuration` is written into, not
      replaced. */
  function Parse(spec: Specification, allowed: ValueAllowed, argv: seq<string>, configuration: Configuration): Result<Configuration, ParseError> {
    var args := if |argv| == 0 then [] else argv[1..];
    match Run(spec, allowed, Initial(configuration), args)
    case Success(st) => Success(st.top)
    case Failure(e) => Failure(e)
  }

  // ---------------------------------------------------------------------
  // The pass as a whole
  // ---------------------------------------------------------------------

  /** The program name has no effect on the result. */
  lemma ParseIgnoresProgramName(spec: Specification, allowed: ValueAllowed, p: string, q: string, args: seq<string>, c: Configuration)
    ensures Parse(spec, allowed, [p] + args, c) == Parse(spec, allowed, [q] + args, c)
  {
    assert ([p] + args)[1..] == args == ([q] + args)[1..];
  }

  /** Arguments are processed once each, left to right: running over `a + b`
      is running over `a` and then, from where that left off, over `b`. */
  lemma {:induction false} RunAppend(spec: Specification, allowed: ValueAllowed, st: ParseState, a: seq<string>, b: seq<string>)
    ensures Run(spec, allowed, st, a + b) ==
      match Run(spec, allowed, st, a)
      case Failure(e) => Failure(e)
      case Success(mid) => Run(spec, allowed, mid, b)
    decreases |a|
  {
    if |a| == 0 {
      assert a + b == b;
    } else {
      assert (a + b)[0] == a[0];
      assert (a + b)[1..] == a[1..] + b;
      match Step(spec, allowed, st, a[0]) {
        case Failure(_) =>
        case Success(next) => RunAppend(spec, allowed, next, a[1..], b);
      }
    }
  }

  /** The number of positional arguments. */
  function CountPositional(args: seq<string>): nat
    decreases |args|
  {
    if |args| == 0 then 0 else (if IsPositional(args[0]) then 1 else 0) + CountPositional(args[1..])
  }

  /** The positional counter is one shared count: after a run it has grown by
      the number of positional arguments, commands among them, whatever
      commands were entered on the way. */
  lemma {:induction false} RunCountsPositionals(spec: Specification, allowed: ValueAllowed, st: ParseState, args: seq<string>)
    ensures Run(spec, allowed, st, args).Success? ==>
      Run(spec, allowed, st, args).value.positionalCount == st.positionalCount + CountPositional(args)
    decreases |args|
  {
    if |args| > 0 {
      match Step(spec, allowed, st, args[0]) {
        case Failure(_) =>
        case Success(next) =>
          assert next.positionalCount == Advance(st.positionalCount, args[0]);
          RunCountsPositionals(spec, allowed, next, args[1..]);
      }
    }
  }

  /** The writes a pass makes when no command is ever entered: one per
      argument, each at the top level. */
  function FlatWrites(spec: Specification, allowed: ValueAllowed, count: nat, args: seq<string>): seq<(string, Value)>
    decreases |args|
  {
    if |args| == 0 then []
    else
      var k := Advance(count, args[0]);
      var res := Resolve(spec, allowed, NoCommand(), k, args[0]);
      [(res.name, Str(res.value))] + FlatWrites(spec, allowed, k, args[1..])
  }

  /** With no commands in the root scope, no scope is ever entered: the pass
      never fails and is the series of top-level `set` calls, one per
      argument, so the last argument naming an option decides its value. */
  lemma {:induction false} RunWithoutCommands(spec: Specification, allowed: ValueAllowed, top: Configuration, count: nat, args: seq<string>)
    requires spec.root.commands == map[]
    ensures Run(spec, allowed, ParseState(top, [], NoCommand(), count), args) ==
      Success(ParseState(SetAll(top, FlatWrites(spec, allowed, count, args)), [], NoCommand(), count + CountPositional(args)))
    decreases |args|
  {
    if |args| > 0 {
      var k := Advance(count, args[0]);
      var res := Resolve(spec, allowed, NoCommand(), k, args[0]);
      assert !res.inCurrentCommand;
      assert CommandFor(spec, NoCommand(), res.name, res.value) == None;
      RunWithoutCommands(spec, allowed, Set(top, res.name, Str(res.value)), k, args[1..]);
    }
  }

  /** Hence, without commands, each option read back from the parse result is
      the value of the last argument that wrote it. */
  lemma ParseWithoutCommands(spec: Specification, allowed: ValueAllowed, argv: seq<string>, c: Configuration, name: string)
    requires spec.root.commands == map[] && |argv| > 0
    ensures Parse(spec, allowed, argv, c).Success?
    ensures ValueOrNull(Parse(spec, allowed, argv, c).value, name) ==
      var last := LastWrite(FlatWrites(spec, allowed, 0, argv[1..]), name);
      if last.Some? then last else ValueOrNull(c, name)
  {
    RunWithoutCommands(spec, allowed, c, 0, argv[1..]);
    SetAllLastWriteWins(c, FlatWrites(spec, allowed, 0, argv[1..]), name);
  }

  // ---------------------------------------------------------------------
  // One argument at a time
  // ---------------------------------------------------------------------

  /** `--name=value` and `--name` store at the top level under `name`, with
      the empty string when there is no `=`, whatever scope is active and
      whether or not the specification knows the name (even an empty one).
      The current node is not written, nor is the counter moved. */
  lemma LongOptionStoredAtTop(spec: Specification, allowed: ValueAllowed, st: ParseState, name: string, value: Option<string>)
    requires '=' !in name
    requires CommandFor(spec, st.scope, name, value.GetOr("")).None?
    ensures Step(spec, allowed, st, Render(LongOption(name, value))) ==
      Success(st.(top := Set(st.top, name, Str(value.GetOr("")))))
    ensures |st.path| > 0 && name != st.path[0] ==>
      NodeAt(Set(st.top, name, Str(value.GetOr(""))), st.path) == NodeAt(st.top, st.path)
  {
    TokenizeRender(LongOption(name, value));
  }

  /** `-s=value` and `-s` store at the top level under the long name `s` is
      an alias of in the top-level specification, never one of the current
      scope; under the empty name when `s` is no alias. */
  lemma ShortOptionStoredAtTop(spec: Specification, allowed: ValueAllowed, st: ParseState, s: string, value: Option<string>)
    requires '=' !in s && !StartsWithDash(s)
    requires CommandFor(spec, st.scope, FindShortNamedOption(spec, s).GetOr(""), value.GetOr("")).None?
    ensures Step(spec, allowed, st, Render(ShortOption(s, value))) ==
      Success(st.(top := Set(st.top, if s in spec.shortNames then spec.shortNames[s] else "", Str(value.GetOr("")))))
  {
    TokenizeRender(ShortOption(s, value));
  }

  /** A positional argument takes the next slot number, and a slot of the
      current scope comes before one of the root scope. When the argument
      triggers no command:
      - a current-scope slot whose option accepts it writes it into the
        current node under the slot's name, which fails only when that node
        is gone, and nothing off the path to the node changes;
      - otherwise the write is at the top level: a current-scope slot that
        rejects the argument stores its name with "", a root slot stores its
        name with the argument or "" when rejected, and no slot at all stores
        "" under "". Only that one top-level name changes, and the current
        node stays as it was unless the name is the first command's. */
  lemma PositionalStored(spec: Specification, allowed: ValueAllowed, st: ParseState, arg: string)
    requires !StartsWithDash(arg)
    ensures Tokenize(arg) == Positional(arg)
    ensures var k := st.positionalCount + 1;
      var res := Resolve(spec, allowed, st.scope, k, arg);
      var r := Step(spec, allowed, st, arg);
      CommandFor(spec, st.scope, res.name, res.value).None? ==>
      if k in st.scope.positionals && allowed(st.scope.positionals[k].details, arg) then
        && (r.Success? <==> NodeAt(st.top, st.path).Some?)
        && (r.Failure? ==> r.error == CurrentNodeLost(arg))
        && (r.Success? ==>
              && r.value == st.(top := r.value.top, positionalCount := k)
              && NodeAt(r.value.top, st.path)
                 == Some(Set(NodeAt(st.top, st.path).value, st.scope.positionals[k].name, Str(arg)))
              && OffPathUnchanged(st.top, r.value.top, st.path))
      else
        var stored :=
          if k in st.scope.positionals then (st.scope.positionals[k].name, "")
          else if k in spec.root.positionals then
            (spec.root.positionals[k].name, if allowed(spec.root.positionals[k].details, arg) then arg else "")
          else ("", "");
        && r.Success?
        && r.value == st.(top := r.value.top, positionalCount := k)
        && ValueOrNull(r.value.top, stored.0) == Some(Str(stored.1))
        && (forall other :: other != stored.0 ==> ValueOrNull(r.value.top, other) == ValueOrNull(st.top, other))
        && (|st.path| > 0 && stored.0 != st.path[0] ==> NodeAt(r.value.top, st.path) == NodeAt(st.top, st.path))
  {
    TokenizeRender(Positional(arg));
    var k := st.positionalCount + 1;
    var res := Resolve(spec, allowed, st.scope, k, arg);
    if CommandFor(spec, st.scope, res.name, res.value).None? {
      if res.inCurrentCommand {
        if NodeAt(st.top, st.path).Some? {
          SetAtPathFrame(st.top, st.path, res.name, Str(res.value));
        }
      } else if |st.path| > 0 && res.name != st.path[0] {
        SetKeepsNodeAt(st.top, st.path, res.name, Str(res.value));
      }
    }
  }

  /** Short names are resolved through the top-level specification only:
      which command scope is active makes no difference. */
  lemma ShortNameIgnoresScope(spec: Specification, allowed: ValueAllowed, s1: CommandDetails, s2: CommandDetails, index: nat, arg: string)
    requires Tokenize(arg).ShortOption?
    ensures Resolve(spec, allowed, s1, index, arg) == Resolve(spec, allowed, s2, index, arg)
  {
  }

  /** A slot of the current scope hides the root's slot with the same number:
      replacing the root's slots changes nothing. */
  lemma CurrentSlotHidesRootSlot(spec: Specification, allowed: ValueAllowed, st: ParseState, arg: string, rootSlots: map<nat, PositionalOption>)
    requires IsPositional(arg) && st.positionalCount + 1 in st.scope.positionals
    ensures var spec' := spec.(root := spec.root.(positionals := rootSlots));
      Step(spec', allowed, st, arg) == Step(spec, allowed, st, arg)
  {
  }

  lemma StepIgnoresNamedOptions(spec: Specification, allowed: ValueAllowed, st: ParseState, arg: string, named: map<string, OptionDetails>)
    ensures Step(spec.(named := named), allowed, st, arg) == Step(spec, allowed, st, arg)
  {
    var spec' := spec.(named := named);
    var count := Advance(st.positionalCount, arg);
    assert Resolve(spec', allowed, st.scope, count, arg) == Resolve(spec, allowed, st.scope, count, arg);
    var res := Resolve(spec, allowed, st.scope, count, arg);
    assert CommandFor(spec', st.scope, res.name, res.value) == CommandFor(spec, st.scope, res.name, res.value);
  }

  /** The parser never reads the named-option table: the pass gives the same
      result whatever named options the specification declares. */
  lemma {:induction false} RunIgnoresNamedOptions(spec: Specification, allowed: ValueAllowed, st: ParseState, args: seq<string>, named: map<string, OptionDetails>)
    ensures Run(spec.(named := named), allowed, st, args) == Run(spec, allowed, st, args)
    decreases |args|
  {
    if |args| > 0 {
      StepIgnoresNamedOptions(spec, allowed, st, args[0], named);
      match Step(spec, allowed, st, args[0]) {
        case Failure(_) =>
        case Success(next) => RunIgnoresNamedOptions(spec, allowed, next, args[1..], named);
      }
    }
  }

  /** A (name, value) that triggers a command of the current scope, or else of
      the root scope, is not stored as a value: `{"name": value}` is set under
      `name` in the current node, and both the current node and the scope
      descend into the new command. The root scope is consulted only when the
      current scope has no such command. Nothing off the path to the current
      node changes, so in particular the trigger is not also stored as a
      plain value at the top level. */
  lemma CommandEntered(spec: Specification, allowed: ValueAllowed, st: ParseState, arg: string, cmd: CommandDetails)
    requires NodeAt(st.top, st.path).Some?
    requires var res := Resolve(spec, allowed, st.scope, Advance(st.positionalCount, arg), arg);
      CommandFor(spec, st.scope, res.name, res.value) == Some(cmd)
    ensures var res := Resolve(spec, allowed, st.scope, Advance(st.positionalCount, arg), arg);
      && ((res.name, res.value) in st.scope.commands ==> cmd == st.scope.commands[(res.name, res.value)])
      && ((res.name, res.value) !in st.scope.commands ==> cmd == spec.root.commands[(res.name, res.value)])
    ensures var res := Resolve(spec, allowed, st.scope, Advance(st.positionalCount, arg), arg);
      && Step(spec, allowed, st, arg).Success?
      && var next := Step(spec, allowed, st, arg).value;
      && next.path == st.path + [res.name]
      && next.scope == cmd
      && next.positionalCount == Advance(st.positionalCount, arg)
      && NodeAt(next.top, st.path) == Some(Set(NodeAt(st.top, st.path).value, res.name, Nested(CommandNode(res.value))))
      && NodeAt(next.top, next.path) == Some(CommandNode(res.value))
      && OffPathUnchanged(st.top, next.top, st.path)
      && (|st.path| > 0 ==> forall other :: other != st.path[0] ==> ValueOrNull(next.top, other) == ValueOrNull(st.top, other))
  {
    var res := Resolve(spec, allowed, st.scope, Advance(st.positionalCount, arg), arg);
    var next := Step(spec, allowed, st, arg).value;
    NodeAtSnoc(next.top, st.path, res.name);
    SetAtPathFrame(st.top, st.path, res.name, Nested(CommandNode(res.value)));
  }

  /** A step fails exactly when it must write into the current node (to enter
      a command, or to store a current-scope positional) and that node is no
      longer in the tree. */
  lemma StepFailsOnlyOnLostNode(spec: Specification, allowed: ValueAllowed, st: ParseState, arg: string)
    ensures var res := Resolve(spec, allowed, st.scope, Advance(st.positionalCount, arg), arg);
      Step(spec, allowed, st, arg).Failure? <==>
        (CommandFor(spec, st.scope, res.name, res.value).Some? || res.inCurrentCommand)
        && NodeAt(st.top, st.path).None?
  {
  }

  /** The name a non-command step stores at the top level, if it does. */
  function TopLevelName(spec: Specification, allowed: ValueAllowed, st: ParseState, arg: string): Option<string> {
    var res := Resolve(spec, allowed, st.scope, Advance(st.positionalCount, arg), arg);
    if CommandFor(spec, st.scope, res.name, res.value).None? && !res.inCurrentCommand then Some(res.name)
    else None
  }

  /** The current node stays in the tree unless a top-level store hits the
      name under which the first command was entered. */
  lemma {:induction false} StepKeepsCurrentNode(spec: Specification, allowed: ValueAllowed, st: ParseState, arg: string)
    requires NodeAt(st.top, st.path).Some?
    requires |st.path| > 0 ==> TopLevelName(spec, allowed, st, arg) != Some(st.path[0])
    ensures Step(spec, allowed, st, arg).Success?
    ensures NodeAt(Step(spec, allowed, st, arg).value.top, Step(spec, allowed, st, arg).value.path).Some?
  {
    var count := Advance(st.positionalCount, arg);
    var res := Resolve(spec, allowed, st.scope, count, arg);
    match CommandFor(spec, st.scope, res.name, res.value) {
      case Some(cmd) =>
        CommandEntered(spec, allowed, st, arg, cmd);
      case None =>
        if !res.inCurrentCommand && |st.path| > 0 {
          var top' := Set(st.top, res.name, Str(res.value));
          assert top'.entries[st.path[0]] == st.top.entries[st.path[0]];
          assert NodeAt(top', st.path) == NodeAt(st.top, st.path);
        }
    }
  }
}
