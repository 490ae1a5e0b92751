/**
 * The prompt builder: the fixed system instructions, with the shell dialect
 * interpolated at exactly one place, and the user's query passed on verbatim.
 */
module Prompt {
  import opened Text

  /** The first line of the instructions and the rules before the dialect rule. */
  const Introduction: string :=
    "You are a terminal command generator. Convert natural language requests into shell commands.\n"
    + ("\n" + "Rules:\n")
    + ("- Output ONLY the command, nothing else\n" + "- No explanations, no markdown, no code blocks")

  /** The rules after the dialect rule. */
  const LaterRules: string :=
    ("- Assume macOS environment\n"
     + "- Use common Unix utilities (find, grep, awk, sed, etc.)\n")
    + ("- For file searches, prefer 'find' or 'fd' if available\n"
       + "- For text searches, prefer 'grep' or 'rg' if available\n")
    + ("- If the request is ambiguous, make reasonable assumptions\n"
       + "- Avoid destructive commands (rm -rf /, etc.) unless explicitly requested\n")
    + "- Use safe defaults (e.g., -i for interactive mode when deleting)\n"

  /** The worked examples that close the instructions. */
  const Examples: string :=
    ("\n" + "Examples:\n")
    + ("User: find all jpg files\n" + "Output: find . -name \"*.jpg\"\n")
    + ("\n" + "User: list files sorted by size\n" + "Output: ls -lhS\n")
    + ("\n" + "User: find text \"TODO\" in all python files\n"
       + "Output: grep -r \"TODO\" --include=\"*.py\" .\n")
    + ("\n" + "User: show disk usage\n" + "Output: df -h\n")
    + ("\n" + "User: count lines in all js files\n"
       + "Output: find . -name \"*.js\" -exec wc -l {} + | tail -1")

  /** The instructions after the rule line that names the dialect. */
  const Remainder: string := LaterRules + Examples

  /** The template text before the interpolation. */
  const SystemHead: string := Introduction + "\n" + "- Use "

  /** The template text after the interpolation. */
  const SystemTail: string := " syntax" + "\n" + Remainder

  datatype ChatPrompt = ChatPrompt(system: string, user: string)

  /** The rule line that names the dialect, as it appears in the instructions. */
  function DialectRule(shell: string): (rule: string) {
    "- Use " + shell + " syntax"
  }

  /** `getSystemPrompt`: the template with `shell` interpolated once. */
  function GetSystemPrompt(shell: string): (prompt: string)
    ensures |prompt| == |SystemHead| + |shell| + |SystemTail|
    ensures prompt[|SystemHead|..|SystemHead| + |shell|] == shell
  {
    FrameAround(SystemHead, shell, SystemTail);
    SystemHead + shell + SystemTail
  }

  /** `buildPrompt`: the system text depends on the shell alone, the user text is the query. */
  function BuildPrompt(query: string, shell: string): (r: ChatPrompt)
    ensures r.user == query
    ensures r.system == GetSystemPrompt(shell)
  {
    ChatPrompt(GetSystemPrompt(shell), query)
  }

  /** Interpolating into a fixed frame: the frame survives around the value. */
  lemma FrameAround(head: string, x: string, tail: string)
    ensures |head + x + tail| == |head| + |x| + |tail|
    ensures (head + x + tail)[..|head|] == head
    ensures (head + x + tail)[|head|..|head| + |x|] == x
    ensures (head + x + tail)[|head| + |x|..] == tail
  {
  }

  /** Interpolating into a fixed frame is one-to-one. */
  lemma FrameIsInjective(head: string, a: string, b: string, tail: string)
    ensures head + a + tail == head + b + tail <==> a == b
  {
    if head + a + tail == head + b + tail {
      FrameAround(head, a, tail);
      FrameAround(head, b, tail);
    }
  }

  /** The rule line sits on a line of its own, right after the introduction. */
  lemma RuleLineInFrame(intro: string, shell: string, rest: string)
    ensures var p := (intro + "\n" + "- Use ") + shell + (" syntax" + "\n" + rest);
      && OccursAt(p, DialectRule(shell), |intro| + 1)
      && p[|intro|] == '\n'
      && p[|intro| + 1 + |DialectRule(shell)|] == '\n'
  {
    var p := (intro + "\n" + "- Use ") + shell + (" syntax" + "\n" + rest);
    assert p == (intro + "\n") + DialectRule(shell) + ("\n" + rest);
    OccursInConcat(intro + "\n", DialectRule(shell), "\n" + rest);
  }

  /** The instructions contain "- Use <shell> syntax" as a line of its own. */
  lemma SystemPromptNamesDialect(shell: string)
    ensures OccursAt(GetSystemPrompt(shell), DialectRule(shell), |Introduction| + 1)
    ensures GetSystemPrompt(shell)[|Introduction|] == '\n'
    ensures GetSystemPrompt(shell)[|Introduction| + 1 + |DialectRule(shell)|] == '\n'
    ensures Contains(GetSystemPrompt(shell), DialectRule(shell))
  {
    RuleLineInFrame(Introduction, shell, Remainder);
  }

  /**
   * Prompts for two shells share the text before and after the interpolation,
   * and they are equal only when the shells are.
   */
  lemma SystemPromptsDifferOnlyInDialect(a: string, b: string)
    ensures GetSystemPrompt(a)[..|SystemHead|] == GetSystemPrompt(b)[..|SystemHead|]
    ensures GetSystemPrompt(a)[|SystemHead| + |a|..] == GetSystemPrompt(b)[|SystemHead| + |b|..]
    ensures GetSystemPrompt(a) == GetSystemPrompt(b) <==> a == b
  {
    FrameAround(SystemHead, a, SystemTail);
    FrameAround(SystemHead, b, SystemTail);
    FrameIsInjective(SystemHead, a, b, SystemTail);
  }

  /** The system text does not depend on the query, the user text does not depend on the shell. */
  lemma PromptPartsIndependent(q1: string, q2: string, s1: string, s2: string)
    ensures BuildPrompt(q1, s1).system == BuildPrompt(q2, s1).system
    ensures BuildPrompt(q1, s1).user == BuildPrompt(q1, s2).user
  {
  }
}
