/** Splitting one command-line argument into a token. An argument that starts
    with `--` is a long option, one that starts with a single `-` is a short
    option, anything else (the empty argument included) is positional. An
    option is split at the first `=` of the argument into a name and a value;
    without `=` there is no value. */
module Tokens {
  import opened Wrappers

  datatype Token =
    | LongOption(name: string, value: Option<string>)
    | ShortOption(shortName: string, value: Option<string>)
    | Positional(text: string)

  /** The position of the first `c` in `s`, if any. */
  function IndexOf(s: string, c: char): (r: Option<nat>)
    ensures r.Some? ==> r.value < |s| && s[r.value] == c && forall j :: 0 <= j < r.value ==> s[j] != c
    ensures r.None? ==> forall j :: 0 <= j < |s| ==> s[j] != c
  {
    if |s| == 0 then None
    else if s[0] == c then Some(0)
    else
      match IndexOf(s[1..], c)
      case None => None
      case Some(i) => Some(i + 1)
  }

  /** Splits an argument as the parser does. Both prefix tests and the search
      for `=` look at the whole argument. */
  function Tokenize(arg: string): Token {
    if "--" <= arg then
      match IndexOf(arg, '=')
      case Some(pos) => LongOption(arg[2..pos], Some(arg[pos + 1..]))
      case None => LongOption(arg[2..], None)
    else if "-" <= arg then
      match IndexOf(arg, '=')
      case Some(pos) => ShortOption(arg[1..pos], Some(arg[pos + 1..]))
      case None => ShortOption(arg[1..], None)
    else Positional(arg)
  }

  /** The argument a token is written as. */
  function Render(t: Token): string {
    match t
    case LongOption(name, None) => "--" + name
    case LongOption(name, Some(v)) => "--" + name + "=" + v
    case ShortOption(s, None) => "-" + s
    case ShortOption(s, Some(v)) => "-" + s + "=" + v
    case Positional(text) => text
  }

  predicate StartsWithDash(s: string) {
    |s| > 0 && s[0] == '-'
  }

  /** The tokens `Tokenize` can produce: names hold no `=`, a short name does
      not start with `-` (that would make a long option), and a positional
      argument does not start with `-`. */
  predicate WellFormed(t: Token) {
    match t
    case LongOption(name, _) => '=' !in name
    case ShortOption(s, _) => '=' !in s && !StartsWithDash(s)
    case Positional(text) => !StartsWithDash(text)
  }

  /** The split loses nothing: the token writes back as the argument. */
  lemma RenderTokenize(arg: string)
    ensures WellFormed(Tokenize(arg))
    ensures Render(Tokenize(arg)) == arg
  {
    if "--" <= arg {
      match IndexOf(arg, '=') {
        case Some(pos) =>
          assert arg == arg[..2] + arg[2..pos] + "=" + arg[pos + 1..];
          assert arg[2..pos] == arg[..pos][2..];
        case None =>
          assert arg == arg[..2] + arg[2..];
      }
    } else if "-" <= arg {
      assert arg[..1] == "-";
      match IndexOf(arg, '=') {
        case Some(pos) =>
          assert arg == arg[..1] + arg[1..pos] + "=" + arg[pos + 1..];
          assert arg[1..pos] == arg[..pos][1..];
          assert |arg| < 2 || arg[1] != '-' by { assert |arg| >= 2 ==> arg[..2] == [arg[0], arg[1]]; }
          assert |arg[1..pos]| == 0 || arg[1..pos][0] == arg[1];
        case None =>
          assert arg == arg[..1] + arg[1..];
          assert |arg| < 2 || arg[1] != '-' by { assert |arg| >= 2 ==> arg[..2] == [arg[0], arg[1]]; }
          assert |arg[1..]| == 0 || arg[1..][0] == arg[1];
      }
    }
  }

  /** Conversely, every well-formed token is recovered from its argument. */
  lemma TokenizeRender(t: Token)
    requires WellFormed(t)
    ensures Tokenize(Render(t)) == t
  {
    var arg := Render(t);
    match t
    case LongOption(name, v) =>
      assert "--" <= arg;
      match v {
        case None =>
          assert arg[2..] == name;
        case Some(x) =>
          assert arg[2 + |name|] == '=';
          assert arg[..2 + |name|] == "--" + name;
          assert IndexOf(arg, '=') == Some(2 + |name|);
          assert arg[2..2 + |name|] == name;
          assert arg[2 + |name| + 1..] == x;
      }
    case ShortOption(s, v) =>
      assert "-" <= arg;
      match v {
        case None =>
          assert |s| == 0 || arg[1] == s[0];
          assert !("--" <= arg);
          assert arg[1..] == s;
        case Some(x) =>
          assert arg[1] == if |s| == 0 then '=' else s[0];
          assert !("--" <= arg);
          assert arg[1 + |s|] == '=';
          assert arg[..1 + |s|] == "-" + s;
          assert IndexOf(arg, '=') == Some(1 + |s|);
          assert arg[1..1 + |s|] == s;
          assert arg[1 + |s| + 1..] == x;
      }
    case Positional(text) =>
  }
}
