/**
 * Shell integration: the `ai` function appended to a shell's start-up file,
 * the detection of the user's shell, and the setup run that installs the
 * function for one shell or for all three. The start-up files are the
 * fields of `Filesystem`; the answer to the setup question is passed in.
 */
module Setup {
  import opened Wrappers
  import opened Environment
  import opened Text

  /** The word whose presence in a start-up file counts as "already installed". */
  const Marker: string := "terminalai"

  /** The comment line every snippet starts with, after an empty line. */
  const Banner: string := "\n# " + Marker + " - AI command generator\n"

  /** The usage message every snippet prints when `ai` is called without words. */
  const UsageLines: string :=
    "    echo \"Usage: ai <natural language query>\"\n"
    + ("    echo \"Example: ai find all jpg files\"\n" + "    return 1\n")

  /** zsh: put the command in the line editor buffer. */
  const ZshBody: string :=
    ("function ai() {\n" + "  if [[ -z \"$*\" ]]; then\n")
    + UsageLines
    + ("  fi\n" + "  local cmd\n" + "  cmd=$(terminalai \"$*\")\n")
    + ("  if [[ -n \"$cmd\" ]]; then\n" + "    print -z \"$cmd\"\n" + "  fi\n" + "}\n")

  /** bash: add the command to the history and print it. */
  const BashBody: string :=
    ("function ai() {\n" + "  if [[ -z \"$*\" ]]; then\n")
    + UsageLines
    + ("  fi\n" + "  local cmd\n" + "  cmd=$(terminalai \"$*\")\n")
    + ("  if [[ -n \"$cmd\" ]]; then\n"
       + "    # Add to history and print for manual copy\n"
       + "    history -s \"$cmd\"\n")
    + ("    echo \"$cmd\"\n"
       + "    echo \"Command added to history. Press Up arrow or copy to execute.\"\n"
       + "  fi\n" + "}\n")

  /** fish: replace the command line with the command. */
  const FishBody: string :=
    ("function ai\n" + "  if test (count $argv) -eq 0\n")
    + UsageLines
    + ("  end\n" + "  set cmd (terminalai $argv)\n")
    + ("  if test -n \"$cmd\"\n" + "    commandline -r \"$cmd\"\n" + "  end\n" + "end\n")

  /** A start-up file, relative to the home directory, and the snippet for it after the banner. */
  datatype ShellProfile = ShellProfile(file: string, body: string) {
    /** The text appended to the start-up file. */
    function Code(): (code: string) {
      Banner + body
    }
  }

  const SupportedShells: seq<string> := ["zsh", "bash", "fish"]

  /** The entry of `SHELL_CONFIGS` for a shell name, if there is one. */
  function ShellConfig(shell: string): (r: Option<ShellProfile>)
    ensures r.Some? <==> shell in SupportedShells
  {
    if shell == "zsh" then Some(ShellProfile(".zshrc", ZshBody))
    else if shell == "bash" then Some(ShellProfile(".bashrc", BashBody))
    else if shell == "fish" then Some(ShellProfile(".config/fish/config.fish", FishBody))
    else None
  }

  /** `detectShell`: the first of zsh, bash, fish that `$SHELL` mentions, zsh if none. */
  function DetectShell(env: Env): (shell: string)
    ensures shell in SupportedShells
  {
    var s := ValueOrEmpty(env, "SHELL");
    if Contains(s, "zsh") then "zsh"
    else if Contains(s, "bash") then "bash"
    else if Contains(s, "fish") then "fish"
    else "zsh"
  }

  /** `path.join(home, file)` for a relative file without `.` or `..` parts. */
  function JoinPath(home: string, file: string): (p: string) {
    home + "/" + file
  }

  /** `path.dirname(p)`: everything before the last `/`. */
  function ParentDir(p: string): (dir: string) {
    var parts := Split(p, '/');
    Join(parts[..|parts| - 1], '/')
  }

  /** `getConfigPath`: the start-up file of a supported shell under `home`. */
  function GetConfigPath(home: string, shell: string): (r: Result<string, string>)
    ensures r.Ok? <==> shell in SupportedShells
    ensures r.Err? ==> r.error == "Unsupported shell: " + shell
  {
    match ShellConfig(shell)
    case None => Err("Unsupported shell: " + shell)
    case Some(profile) => Ok(JoinPath(home, profile.file))
  }

  /** The parent of a file joined to a directory is that directory. */
  lemma ParentOfJoined(dir: string, name: string)
    requires '/' !in name
    ensures ParentDir(dir + "/" + name) == dir
  {
    SplitConcat(dir, '/', name);
    SplitWithout(name, '/');
    var parts := Split(dir + "/" + name, '/');
    assert parts[..|parts| - 1] == Split(dir, '/');
    JoinSplit(dir, '/');
  }

  /** Each shell's start-up file lies at its own place under the home directory. */
  lemma ZshConfigPath(home: string)
    ensures GetConfigPath(home, "zsh") == Ok(home + "/.zshrc")
  {
    JoinedFile(home, ".zshrc", "/.zshrc");
  }

  lemma BashConfigPath(home: string)
    ensures GetConfigPath(home, "bash") == Ok(home + "/.bashrc")
  {
    JoinedFile(home, ".bashrc", "/.bashrc");
  }

  lemma FishConfigPath(home: string)
    ensures GetConfigPath(home, "fish") == Ok(home + "/.config/fish/config.fish")
  {
    JoinedFile(home, ".config/fish/config.fish", "/.config/fish/config.fish");
  }

  lemma JoinedFile(home: string, file: string, rest: string)
    requires rest == "/" + file
    ensures JoinPath(home, file) == home + rest
  {
  }

  /** The fish start-up file lies one directory below `.config`. */
  lemma FishFileParts()
    ensures ".config/fish/config.fish" == ".config/fish" + "/" + "config.fish"
    ensures '/' !in "config.fish"
  {
  }

  /** The fish start-up file is the one whose directory may need creating: `~/.config/fish`. */
  lemma FishConfigDirectory(home: string)
    ensures ParentDir(GetConfigPath(home, "fish").value) == home + "/.config/fish"
  {
    FishFileParts();
    assert JoinPath(home, ".config/fish/config.fish") == (home + "/.config/fish") + "/" + "config.fish";
    ParentOfJoined(home + "/.config/fish", "config.fish");
  }

  /** The start-up files and the directories on disk. */
  datatype Disk = Disk(files: map<string, string>, dirs: set<string>)

  /** `isAlreadyInstalled`: the file exists and mentions the program. */
  predicate IsAlreadyInstalled(files: map<string, string>, p: string)
    ensures IsAlreadyInstalled(files, p) ==> p in files && |files[p]| >= |Marker|
  {
    p in files && Contains(files[p], Marker)
  }

  /** What `appendFileSync` finds at a path: the file's text, or nothing. */
  function Existing(files: map<string, string>, p: string): (text: string) {
    if p in files then files[p] else ""
  }

  /** The disk after `installForShell(shell)`. */
  function AfterInstall(d: Disk, home: string, shell: string): (r: Disk)
    ensures shell !in SupportedShells ==> r == d
    ensures shell in SupportedShells && IsAlreadyInstalled(d.files, GetConfigPath(home, shell).value) ==> r == d
    ensures shell in SupportedShells && !IsAlreadyInstalled(d.files, GetConfigPath(home, shell).value) ==>
      var p := GetConfigPath(home, shell).value;
      && r.files == d.files[p := Existing(d.files, p) + ShellConfig(shell).value.Code()]
      && r.dirs == d.dirs + {ParentDir(p)}
    ensures d.files.Keys <= r.files.Keys && d.dirs <= r.dirs
  {
    match ShellConfig(shell)
    case None => d
    case Some(profile) =>
      var p := JoinPath(home, profile.file);
      if IsAlreadyInstalled(d.files, p) then d
      else Disk(d.files[p := Existing(d.files, p) + profile.Code()], d.dirs + {ParentDir(p)})
  }

  /** The disk after installing for each shell of `shells` in turn. */
  function AfterSetup(d: Disk, home: string, shells: seq<string>): (r: Disk)
    ensures d.files.Keys <= r.files.Keys && d.dirs <= r.dirs
    decreases |shells|
  {
    if |shells| == 0 then d
    else AfterInstall(AfterSetup(d, home, shells[..|shells| - 1]), home, shells[|shells| - 1])
  }

  /** Setting up for one more shell is one more install. */
  lemma AfterSetupStep(d: Disk, home: string, shells: seq<string>, i: nat)
    requires i < |shells|
    ensures AfterSetup(d, home, shells[..i + 1]) == AfterInstall(AfterSetup(d, home, shells[..i]), home, shells[i])
  {
    assert shells[..i + 1][..i] == shells[..i];
  }

  /** The shells `runSetup` installs for: the detected one after "n", all three otherwise. */
  function SetupShells(env: Env, answer: string): (shells: seq<string>)
    ensures forall k :: 0 <= k < |shells| ==> shells[k] in SupportedShells
    ensures ToLower(Trim(answer)) == "n" <==> shells == [DetectShell(env)]
    ensures ToLower(Trim(answer)) != "n" ==> shells == SupportedShells
  {
    if ToLower(Trim(answer)) == "n" then [DetectShell(env)] else SupportedShells
  }

  /** Every snippet mentions the program, so an installed file is recognised as one. */
  lemma CodeMentionsMarker(profile: ShellProfile)
    ensures Contains(profile.Code(), Marker)
  {
    BannerMentionsMarker();
    ContainsBefore(Banner, profile.body, Marker);
  }

  lemma BannerMentionsMarker()
    ensures Contains(Banner, Marker)
  {
    OccursInConcat("\n# ", Marker, " - AI command generator\n");
    assert Banner == "\n# " + Marker + " - AI command generator\n";
  }

  /** A file that mentions the program anywhere counts as installed. */
  lemma MentionedIsInstalled(files: map<string, string>, p: string, pre: string, post: string)
    requires p in files && files[p] == pre + Marker + post
    ensures IsAlreadyInstalled(files, p)
  {
    OccursInConcat(pre, Marker, post);
  }

  /** An existing start-up file that does not mention the program gets the snippet appended. */
  lemma UnmarkedFileGetsSnippet(d: Disk, home: string, shell: string)
    requires shell in SupportedShells
    requires var p := GetConfigPath(home, shell).value; p in d.files && !Contains(d.files[p], Marker)
    ensures var p := GetConfigPath(home, shell).value;
      AfterInstall(d, home, shell).files[p] == d.files[p] + ShellConfig(shell).value.Code()
  {
  }

  /** After an install the start-up file of the shell counts as installed. */
  lemma InstallMarksInstalled(d: Disk, home: string, shell: string)
    requires shell in SupportedShells
    ensures IsAlreadyInstalled(AfterInstall(d, home, shell).files, GetConfigPath(home, shell).value)
  {
    var profile := ShellConfig(shell).value;
    var p := JoinPath(home, profile.file);
    if !IsAlreadyInstalled(d.files, p) {
      CodeMentionsMarker(profile);
      ContainsAfter(Existing(d.files, p), profile.Code(), Marker);
    }
  }

  /** Installing twice is installing once: the second run finds the marker and writes nothing. */
  lemma InstallIsIdempotent(d: Disk, home: string, shell: string)
    ensures AfterInstall(AfterInstall(d, home, shell), home, shell) == AfterInstall(d, home, shell)
  {
    if shell in SupportedShells {
      InstallMarksInstalled(d, home, shell);
    }
  }

  /**
   * An install only appends: every file keeps its text as a prefix, only the
   * shell's own start-up file can change, and no other file appears.
   */
  lemma InstallOnlyAppends(d: Disk, home: string, shell: string)
    ensures var d' := AfterInstall(d, home, shell);
      && (forall q :: q in d.files ==> q in d'.files && d'.files[q][..|d.files[q]|] == d.files[q])
      && (forall q :: q in d'.files && (shell !in SupportedShells || q != GetConfigPath(home, shell).value)
            ==> q in d.files && d'.files[q] == d.files[q])
      && d.dirs <= d'.dirs
  {
  }

  /** An unsupported shell leaves the disk as it is. */
  lemma UnsupportedShellChangesNothing(d: Disk, home: string, shell: string)
    requires shell !in SupportedShells
    ensures AfterInstall(d, home, shell) == d
  {
  }

  /** A file that counts as installed keeps counting as installed, whatever is installed next. */
  lemma InstalledStaysInstalled(d: Disk, home: string, shell: string, q: string)
    requires IsAlreadyInstalled(d.files, q)
    ensures IsAlreadyInstalled(AfterInstall(d, home, shell).files, q)
  {
    var d' := AfterInstall(d, home, shell);
    if d' != d {
      var p := GetConfigPath(home, shell).value;
      if q == p {
        assert false;
      }
    }
  }

  /** Installing for a sequence of shells leaves installed what was installed. */
  lemma {:induction false} SetupKeepsInstalled(d: Disk, home: string, shells: seq<string>, q: string)
    requires IsAlreadyInstalled(d.files, q)
    ensures IsAlreadyInstalled(AfterSetup(d, home, shells).files, q)
    decreases |shells|
  {
    if |shells| > 0 {
      SetupKeepsInstalled(d, home, shells[..|shells| - 1], q);
      InstalledStaysInstalled(AfterSetup(d, home, shells[..|shells| - 1]), home, shells[|shells| - 1], q);
    }
  }

  /** After a setup every supported shell it was run for is installed. */
  lemma {:induction false} SetupInstallsEach(d: Disk, home: string, shells: seq<string>, k: nat)
    requires k < |shells| && shells[k] in SupportedShells
    ensures IsAlreadyInstalled(AfterSetup(d, home, shells).files, GetConfigPath(home, shells[k]).value)
    decreases |shells|
  {
    var n := |shells| - 1;
    var before := AfterSetup(d, home, shells[..n]);
    if k == n {
      InstallMarksInstalled(before, home, shells[k]);
    } else {
      SetupInstallsEach(d, home, shells[..n], k);
      InstalledStaysInstalled(before, home, shells[n], GetConfigPath(home, shells[k]).value);
    }
  }

  /** Installing where everything is already installed changes nothing. */
  lemma {:induction false} SetupOverInstalled(d: Disk, home: string, shells: seq<string>)
    requires forall k :: 0 <= k < |shells| && shells[k] in SupportedShells ==>
      IsAlreadyInstalled(d.files, GetConfigPath(home, shells[k]).value)
    ensures AfterSetup(d, home, shells) == d
    decreases |shells|
  {
    if |shells| > 0 {
      var n := |shells| - 1;
      forall k | 0 <= k < n && shells[..n][k] in SupportedShells
        ensures IsAlreadyInstalled(d.files, GetConfigPath(home, shells[..n][k]).value)
      {
        assert shells[..n][k] == shells[k];
      }
      SetupOverInstalled(d, home, shells[..n]);
    }
  }

  /** Running the same setup twice is running it once. */
  lemma SetupIsIdempotent(d: Disk, home: string, shells: seq<string>)
    ensures AfterSetup(AfterSetup(d, home, shells), home, shells) == AfterSetup(d, home, shells)
  {
    var d' := AfterSetup(d, home, shells);
    forall k | 0 <= k < |shells| && shells[k] in SupportedShells
      ensures IsAlreadyInstalled(d'.files, GetConfigPath(home, shells[k]).value)
    {
      SetupInstallsEach(d, home, shells, k);
    }
    SetupOverInstalled(d', home, shells);
  }

  /** Declining with "n" or "N", with whitespace around it, installs for the detected shell only. */
  lemma DecliningInstallsDetectedShell(env: Env, pre: string, c: char, post: string)
    requires c == 'n' || c == 'N'
    requires AllSpace(pre)
    requires AllSpace(post)
    ensures SetupShells(env, pre + [c] + post) == [DetectShell(env)]
  {
    TrimPadded(pre, [c], post);
    assert ToLower([c]) == "n";
  }

  /** Any other answer installs for all three shells: "no" is not a refusal. */
  lemma AnsweringNoInstallsAll(env: Env)
    ensures SetupShells(env, "no") == ["zsh", "bash", "fish"]
  {
    NoIsNotN();
  }

  /** Just pressing Enter, or typing only whitespace, takes the default: all three shells. */
  lemma BlankAnswerInstallsAll(env: Env, answer: string)
    requires AllSpace(answer)
    ensures SetupShells(env, answer) == ["zsh", "bash", "fish"]
  {
    TrimAllSpace(answer);
  }

  lemma NoIsNotN()
    ensures ToLower(Trim("no")) != "n"
  {
    TrimKeepsTrimmed("no");
  }

  /** zsh is tested first, so a `$SHELL` that mentions zsh anywhere is detected as zsh. */
  lemma ZshPathIsDetected(env: Env, pre: string, post: string)
    requires "SHELL" in env && env["SHELL"] == pre + "zsh" + post
    ensures DetectShell(env) == "zsh"
  {
    OccursInConcat(pre, "zsh", post);
  }

  /** A `$SHELL` that mentions bash but not zsh, anywhere in it, is detected as bash. */
  lemma BashPathIsDetected(env: Env, pre: string, post: string)
    requires "SHELL" in env && env["SHELL"] == pre + "bash" + post
    requires !Contains(env["SHELL"], "zsh")
    ensures DetectShell(env) == "bash"
  {
    OccursInConcat(pre, "bash", post);
  }

  /** A `$SHELL` that mentions fish but neither zsh nor bash is detected as fish. */
  lemma FishPathIsDetected(env: Env, pre: string, post: string)
    requires "SHELL" in env && env["SHELL"] == pre + "fish" + post
    requires !Contains(env["SHELL"], "zsh") && !Contains(env["SHELL"], "bash")
    ensures DetectShell(env) == "fish"
  {
    OccursInConcat(pre, "fish", post);
  }

  /** Without `$SHELL`, or with a shell other than the three, zsh is assumed. */
  lemma UnknownShellIsZsh(env: Env)
    requires !Contains(ValueOrEmpty(env, "SHELL"), "bash") && !Contains(ValueOrEmpty(env, "SHELL"), "fish")
    ensures DetectShell(env) == "zsh"
  {
  }

  /** The start-up files and directories the setup writes to. */
  class Filesystem {
    const home: string
    var files: map<string, string>
    var dirs: set<string>

    function State(): (disk: Disk)
      reads this
    {
      Disk(files, dirs)
    }

    constructor (home: string, files: map<string, string>, dirs: set<string>)
      ensures this.home == home && this.files == files && this.dirs == dirs
    {
      this.home := home;
      this.files := files;
      this.dirs := dirs;
    }

    /**
     * `installForShell`: false for an unsupported shell; true otherwise,
     * after appending the snippet unless the file already mentions the program.
     */
    method InstallForShell(shell: string) returns (ok: bool)
      modifies this
      ensures ok <==> shell in SupportedShells
      ensures State() == AfterInstall(old(State()), home, shell)
    {
      var config := ShellConfig(shell);
      if config.None? {
        return false;
      }
      var path := JoinPath(home, config.value.file);
      if IsAlreadyInstalled(files, path) {
        return true;
      }
      var dir := ParentDir(path);
      if dir !in dirs {
        dirs := dirs + {dir};
      }
      files := files[path := Existing(files, path) + config.value.Code()];
      return true;
    }

    /** `runSetup` given the answer typed to "Install for all supported shells? (Y/n)". */
    method RunSetup(env: Env, answer: string)
      modifies this
      ensures State() == AfterSetup(old(State()), home, SetupShells(env, answer))
    {
      var shells := SetupShells(env, answer);
      var i := 0;
      while i < |shells|
        invariant 0 <= i <= |shells|
        invariant State() == AfterSetup(old(State()), home, shells[..i])
      {
        AfterSetupStep(old(State()), home, shells, i);
        var _ := InstallForShell(shells[i]);
        i := i + 1;
      }
      assert shells[..|shells|] == shells;
    }
  }
}
