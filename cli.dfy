/** Command-line dispatch: only the first argument after the program name chooses the action. */
module Cli {
  import opened Wrappers

  datatype CliAction = Run(args: seq<string>) | Env | Help | Version

  /** The action a first argument names, if it names one. */
  function Command(arg: string): Option<CliAction>
  {
    match arg
    case "env" => Some(Env)
    case "--help" => Some(Help)
    case "-h" => Some(Help)
    case "--version" => Some(Version)
    case "-V" => Some(Version)
    case _ => None
  }

  /** `parse_args`: `args[0]` is the program name; a recognised `args[1]` selects
      env/help/version, anything else runs Neovim with `args[1..]`. */
  function ParseArgs(args: seq<string>): (a: CliAction)
    ensures |args| <= 1 ==> a == Run([])
    ensures |args| > 1 && Command(args[1]).Some? ==> a == Command(args[1]).value
    ensures |args| > 1 && Command(args[1]).None? ==> a == Run(args[1..])
  {
    if |args| > 1 then
      match Command(args[1])
      case Some(action) => action
      case None => Run(args[1..])
    else Run([])
  }

  /** The action depends only on `args[1]` (and the rest of the arguments only when they are passed on). */
  lemma OnlyFirstArgumentDecides(args: seq<string>, other: seq<string>)
    requires |args| > 1 && |other| > 1 && args[1] == other[1]
    ensures ParseArgs(args).Run? <==> ParseArgs(other).Run?
    ensures !ParseArgs(args).Run? ==> ParseArgs(args) == ParseArgs(other)
  {
  }

  /** A run passes every argument after the program name through, unchanged and in order. */
  lemma RunPassesArguments(args: seq<string>)
    requires |args| > 1 && ParseArgs(args).Run?
    ensures args[..1] + ParseArgs(args).args == args
  {
  }
}
