/**
 * The `terminalai` entry point: the arguments after the program name and the
 * environment decide between the setup, the help text and a command request.
 * What is written to standard output and standard error, and the exit code,
 * make up the outcome of one run.
 */
module Cli {
  import opened Wrappers
  import opened Environment
  import opened Text
  import opened Api

  const ShellOverrideVariable: string := "TERMINALAI_SHELL"
  const ShellVariable: string := "SHELL"
  const KeyVariable: string := "OPENROUTER_API_KEY"

  /** The shell assumed when the environment names none. */
  const FallbackShell: string := "zsh"

  /** The usage text, with the blank line before and after it. */
  const HelpText: string :=
    ("\n"
     + "terminalai - AI-powered terminal command generator\n"
     + "\n"
     + "Usage:\n"
     + "  terminalai <natural language query>    Generate a shell command\n"
     + "  terminalai setup                       Set up shell integration\n"
     + "  terminalai --help                      Show this help message\n")
    + ("\n"
       + "Examples:\n"
       + "  terminalai find all jpg files\n"
       + "  terminalai list files sorted by size\n"
       + "  terminalai show disk usage\n")
    + ("\n"
       + "Environment variables:\n"
       + "  OPENROUTER_API_KEY    Optional API key for higher rate limits\n"
       + "  TERMINALAI_SHELL      Override detected shell (zsh, bash, fish)\n")

  /** What the arguments ask for. */
  datatype Action =
    | StartSetup
    | ShowHelp
    | Generate(query: string, shell: string, apiKey: Option<string>)

  /**
   * The result of a run: the interactive setup, the usage text, a command
   * line on standard output, or an error on standard error with an exit code.
   */
  datatype Outcome =
    | SetupStarted
    | HelpShown
    | Printed(stdout: string)
    | Failed(stderr: string, exitCode: int)

  predicate IsHelpFlag(arg: string) {
    arg == "--help" || arg == "-h"
  }

  /** The last `/`-separated segment of a path (`split("/").pop()`). */
  function LastSegment(path: string): (seg: string)
    ensures '/' !in seg
  {
    var parts := Split(path, '/');
    SplitLeavesNoSeparator(path, '/');
    parts[|parts| - 1]
  }

  /**
   * The shell to generate for: a non-empty `TERMINALAI_SHELL`, else the last
   * segment of `SHELL` when that is non-empty, else zsh.
   */
  function ResolveShell(env: Env): (shell: string)
    ensures shell != ""
    ensures IsSet(env, ShellOverrideVariable) ==> shell == env[ShellOverrideVariable]
    ensures !IsSet(env, ShellOverrideVariable) && ShellVariable !in env ==> shell == FallbackShell
  {
    if IsSet(env, ShellOverrideVariable) then env[ShellOverrideVariable]
    else if ShellVariable in env && LastSegment(env[ShellVariable]) != "" then LastSegment(env[ShellVariable])
    else FallbackShell
  }

  /** `setup` is checked before the help flags; any other arguments form the query. */
  function Dispatch(args: seq<string>, env: Env): (a: Action)
    ensures a.StartSetup? <==> |args| > 0 && args[0] == "setup"
    ensures a.ShowHelp? <==> |args| == 0 || IsHelpFlag(args[0])
    ensures a.Generate? ==> |args| > 0 && a.shell == ResolveShell(env) && a.apiKey == Lookup(env, KeyVariable)
    ensures a.Generate? ==> a.query == Join(args, ' ')
  {
    if |args| > 0 && args[0] == "setup" then StartSetup
    else if |args| == 0 || IsHelpFlag(args[0]) then ShowHelp
    else Generate(Join(args, ' '), ResolveShell(env), Lookup(env, KeyVariable))
  }

  /** One run, with `fetch` answering the single request a query makes. */
  function Run(args: seq<string>, env: Env, fetch: Request -> Reply): (o: Outcome)
    ensures o.SetupStarted? <==> Dispatch(args, env).StartSetup?
    ensures o.HelpShown? <==> Dispatch(args, env).ShowHelp?
    ensures o.Failed? <==> (var a := Dispatch(args, env);
      a.Generate? && GenerateCommand(a.query, a.shell, a.apiKey, fetch).Err?)
    ensures var a := Dispatch(args, env);
      a.Generate? ==> o == Report(GenerateCommand(a.query, a.shell, a.apiKey, fetch))
  {
    match Dispatch(args, env)
    case StartSetup => SetupStarted
    case ShowHelp => HelpShown
    case Generate(query, shell, apiKey) => Report(GenerateCommand(query, shell, apiKey, fetch))
  }

  /** What a run writes to standard output: nothing when it fails. */
  function StandardOutput(o: Outcome): (out: string)
    ensures o.Failed? ==> out == ""
  {
    match o
    case HelpShown => HelpText + "\n"
    case Printed(stdout) => stdout
    case _ => ""
  }

  /** A command is printed on a line of its own; an error goes to standard error with exit code 1. */
  function Report(result: Result<string, Failure>): (o: Outcome)
    ensures o.Failed? <==> result.Err?
    ensures result.Ok? ==> o == Printed(result.value + "\n")
    ensures o.Failed? ==> o.exitCode == 1
    ensures result.Err? ==> o.stderr == "Error: " + ErrorMessage(result.error) + "\n"
  {
    match result
    case Ok(command) => Printed(command + "\n")
    case Err(failure) => Failed("Error: " + ErrorMessage(failure) + "\n", 1)
  }

  /** `setup` wins whatever follows it and whatever the environment holds. */
  lemma SetupWinsOverEverything(rest: seq<string>, env: Env, fetch: Request -> Reply)
    ensures Run(["setup"] + rest, env, fetch) == SetupStarted
  {
    assert (["setup"] + rest)[0] == "setup";
  }

  /** Help needs nothing from the environment and sends no request. */
  lemma HelpIsFixed(args: seq<string>, e1: Env, e2: Env, f: Request -> Reply, g: Request -> Reply)
    requires |args| == 0 || IsHelpFlag(args[0])
    ensures Run(args, e1, f) == Run(args, e2, g) == HelpShown
    ensures StandardOutput(Run(args, e1, f)) == HelpText + "\n"
  {
  }

  /** A failed run writes its message to standard error only. */
  lemma FailureWritesNoOutput(args: seq<string>, env: Env, f: Request -> Reply)
    requires Run(args, env, f).Failed?
    ensures StandardOutput(Run(args, env, f)) == ""
    ensures Run(args, env, f).exitCode == 1
  {
  }

  /** The shell wrappers pass all words as one argument: it becomes the query unchanged. */
  lemma SingleArgumentIsQuery(arg: string, env: Env)
    requires arg != "setup" && !IsHelpFlag(arg)
    ensures Dispatch([arg], env).Generate? && Dispatch([arg], env).query == arg
  {
  }

  /** Arguments without spaces are recovered from the query by splitting it at spaces. */
  lemma QuerySplitsIntoArguments(args: seq<string>, env: Env)
    requires Dispatch(args, env).Generate?
    requires forall k :: 0 <= k < |args| ==> ' ' !in args[k]
    ensures Split(Dispatch(args, env).query, ' ') == args
  {
    SplitJoin(args, ' ');
  }

  /** The shell is the file name at the end of `$SHELL` when no override is set. */
  lemma ShellFromPath(env: Env, dir: string, name: string)
    requires !IsSet(env, ShellOverrideVariable)
    requires ShellVariable in env && env[ShellVariable] == dir + "/" + name
    requires '/' !in name && name != ""
    ensures ResolveShell(env) == name
  {
    SplitConcat(dir, '/', name);
    SplitWithout(name, '/');
  }

  /** A `$SHELL` without any `/` is the shell's name itself. */
  lemma BareShellName(env: Env)
    requires !IsSet(env, ShellOverrideVariable)
    requires ShellVariable in env && env[ShellVariable] != "" && '/' !in env[ShellVariable]
    ensures ResolveShell(env) == env[ShellVariable]
  {
    SplitWithout(env[ShellVariable], '/');
  }

  /** An empty `$SHELL` names no shell, and zsh is assumed. */
  lemma EmptyShellMeansZsh(env: Env)
    requires !IsSet(env, ShellOverrideVariable)
    requires ShellVariable in env && env[ShellVariable] == ""
    ensures ResolveShell(env) == FallbackShell
  {
    SplitWithout("", '/');
  }

  /** A `$SHELL` that ends in `/` gives no name, and zsh is assumed. */
  lemma TrailingSlashMeansZsh(env: Env, dir: string)
    requires !IsSet(env, ShellOverrideVariable)
    requires ShellVariable in env && env[ShellVariable] == dir + "/"
    ensures ResolveShell(env) == FallbackShell
  {
    assert dir + "/" == dir + ['/'] + "";
    SplitConcat(dir, '/', "");
  }

  /** Without a key the program fails with the fixed message, whatever the endpoint would say. */
  lemma MissingKeyMessage(args: seq<string>, env: Env, f: Request -> Reply)
    requires Dispatch(args, env).Generate?
    requires !IsSet(env, KeyVariable)
    ensures Run(args, env, f) == Failed("Error: " + ErrorMessage(MissingApiKey) + "\n", 1)
  {
    var a := Dispatch(args, env);
    assert GenerateCommand(a.query, a.shell, a.apiKey, f) == Err(MissingApiKey);
    assert Run(args, env, f) == Report(Err(MissingApiKey));
  }

  /** A printed command is a trimmed piece of the first choice the endpoint returned. */
  lemma PrintedCommandComesFromReply(args: seq<string>, env: Env, f: Request -> Reply)
    requires Dispatch(args, env).Generate?
    requires Run(args, env, f).Printed?
    ensures var a := Dispatch(args, env);
      var out := Run(args, env, f).stdout;
      var reply := f(BuildRequest(a.query, a.shell));
      && a.apiKey.Some? && a.apiKey.value != ""
      && reply.choices.Some? && |reply.choices.value| > 0
      && |out| > 0 && out[|out| - 1] == '\n'
      && Trimmed(out[..|out| - 1])
      && IsSliceOf(out[..|out| - 1], reply.choices.value[0])
  {
    var a := Dispatch(args, env);
    KeyOfPrintedRun(args, env, f);
    PrintedRunOutput(args, env, f);
    SuccessIsPieceOfFirstChoice(a.query, a.shell, a.apiKey.value, f);
    PrintedLine(GenerateCommand(a.query, a.shell, a.apiKey, f).value);
  }

  /** A successful request prints the command on a line of its own. */
  lemma SuccessIsPrinted(args: seq<string>, env: Env, f: Request -> Reply,
                         query: string, shell: string, key: Option<string>, command: string)
    requires Dispatch(args, env) == Generate(query, shell, key)
    requires GenerateCommand(query, shell, key, f) == Ok(command)
    ensures StandardOutput(Run(args, env, f)) == command + "\n"
  {
    assert Run(args, env, f) == Printed(command + "\n");
  }

  /** A command is only printed when a key was found and the reply was usable. */
  lemma KeyOfPrintedRun(args: seq<string>, env: Env, f: Request -> Reply)
    requires Dispatch(args, env).Generate?
    requires Run(args, env, f).Printed?
    ensures var a := Dispatch(args, env);
      && a.apiKey.Some? && a.apiKey.value != ""
      && GenerateCommand(a.query, a.shell, a.apiKey, f).Ok?
  {
    var a := Dispatch(args, env);
    MissingKeyIsFirstCheck(a.query, a.shell, a.apiKey, f);
  }

  /** The printed line is the generated command. */
  lemma PrintedRunOutput(args: seq<string>, env: Env, f: Request -> Reply)
    requires Dispatch(args, env).Generate?
    requires Run(args, env, f).Printed?
    ensures var a := Dispatch(args, env);
      && GenerateCommand(a.query, a.shell, a.apiKey, f).Ok?
      && Run(args, env, f).stdout == GenerateCommand(a.query, a.shell, a.apiKey, f).value + "\n"
  {
    var a := Dispatch(args, env);
    var r := GenerateCommand(a.query, a.shell, a.apiKey, f);
    assert Run(args, env, f) == Report(r);
    ReportedCommand(r);
  }

  lemma ReportedCommand(r: Result<string, Failure>)
    requires Report(r).Printed?
    ensures r.Ok? && Report(r).stdout == r.value + "\n"
  {
  }

  lemma PrintedLine(command: string)
    ensures (command + "\n")[..|command|] == command
  {
  }
}
