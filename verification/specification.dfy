/** The command-line specification: the named-option table of the top-level
    specification, the short-name aliases, and a tree of command scopes, each
    with its own positional slots and the sub-commands it recognises. */
module Specifications {
  import opened Wrappers

  datatype OptionType = SingleValue | Toggle | MultiValue

  datatype OptionDetails = OptionDetails(kind: OptionType, defaultValue: string)

  /** The option bound to one positional slot. */
  datatype PositionalOption = PositionalOption(name: string, details: OptionDetails)

  /** One command scope. Positional slots are numbered from 1, by the global
      count of positional tokens seen so far. A sub-command is keyed by the
      option name and the value that trigger it. */
  datatype CommandDetails = CommandDetails(
    positionals: map<nat, PositionalOption>,
    commands: map<(string, string), CommandDetails>)

  /** The top-level specification: named options with their short aliases
      (short name to long name), and the root command scope. */
  datatype Specification = Specification(
    named: map<string, OptionDetails>,
    shortNames: map<string, string>,
    root: CommandDetails)

  /** A default-constructed command scope: no positional slots, no commands. */
  function NoCommand(): CommandDetails {
    CommandDetails(map[], map[])
  }

  function EmptySpecification(): Specification {
    Specification(map[], map[], NoCommand())
  }

  /** `find(name, details)`: reports whether `name` is registered and, when it
      is, yields its details; otherwise `details` comes back untouched. */
  function Find(spec: Specification, name: string, details: OptionDetails): (r: (bool, OptionDetails))
    ensures r.0 <==> name in spec.named
    ensures r.0 ==> r.1 == spec.named[name]
    ensures !r.0 ==> r.1 == details
  {
    if name in spec.named then (true, spec.named[name]) else (false, details)
  }

  /** `addNamedOption(name, details)` with emplace semantics: a name already
      registered keeps its original details, and no other name's lookup
      changes. Short aliases and command scopes are untouched. */
  function AddNamedOption(spec: Specification, name: string, details: OptionDetails): (r: Specification)
    ensures Find(r, name, details) == (true, if name in spec.named then spec.named[name] else details)
    ensures forall other, d :: other != name ==> Find(r, other, d) == Find(spec, other, d)
    ensures r.shortNames == spec.shortNames && r.root == spec.root
  {
    if name in spec.named then spec else spec.(named := spec.named[name := details])
  }

  /** On an empty specification, the option just added is found with the
      details, and so the default value, it was added with. */
  lemma FindAfterAddNamedOption(name: string, details: OptionDetails, probe: OptionDetails)
    ensures Find(AddNamedOption(EmptySpecification(), name, details), name, probe) == (true, details)
  {
  }

  /** Adding is idempotent: adding a name a second time, with any details,
      leaves the specification as the first addition made it. */
  lemma AddNamedOptionTwice(spec: Specification, name: string, first: OptionDetails, second: OptionDetails)
    ensures AddNamedOption(AddNamedOption(spec, name, first), name, second) == AddNamedOption(spec, name, first)
  {
  }

  // Lookups the parser makes. Each is scoped to one node; falling back from
  // the current command to the root is the parser's business.

  function FindPositionalOption(scope: CommandDetails, index: nat): Option<PositionalOption> {
    if index in scope.positionals then Some(scope.positionals[index]) else None
  }

  function FindShortNamedOption(spec: Specification, shortName: string): Option<string> {
    if shortName in spec.shortNames then Some(spec.shortNames[shortName]) else None
  }

  function FindCommand(scope: CommandDetails, name: string, value: string): Option<CommandDetails> {
    if (name, value) in scope.commands then Some(scope.commands[(name, value)]) else None
  }
}
