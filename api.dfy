/**
 * The model client: the API-key guard, the request payload, the fixed order
 * of checks on the reply, and the clean-up of the returned text into a bare
 * command. The HTTP exchange itself is a function parameter `fetch` from the
 * request sent to the reply received.
 */
module Api {
  import opened Wrappers
  import opened Text
  import opened Prompt

  /** The client's own list of free models; the request always names the first. */
  const FreeModels: seq<string> := [
    "meta-llama/llama-3.1-8b-instruct:free",
    "mistralai/mistral-7b-instruct:free",
    "google/gemma-2-9b-it:free"
  ]

  const MaxTokens: nat := 500
  const Temperature: real := 0.1

  datatype Role = System | User
  datatype ChatMessage = ChatMessage(role: Role, content: string)

  /** The JSON body of the chat-completion request. */
  datatype Request = Request(model: string, messages: seq<ChatMessage>, maxTokens: nat, temperature: real)

  /**
   * What the endpoint answers: the HTTP status, the raw body text, and the
   * fields of the JSON body: the message of its `error` object, if any, and
   * the contents of its `choices`, if the field is present.
   */
  datatype Reply = Reply(status: nat, bodyText: string, error: Option<string>, choices: Option<seq<string>>)

  /** `response.ok`. */
  predicate IsOkStatus(status: nat) {
    200 <= status <= 299
  }

  /** The errors `generateCommand` throws, in the order it checks for them. */
  datatype Failure =
    | MissingApiKey
    | HttpError(status: nat, body: string)
    | ServiceError(message: string)
    | NoResponse

  /** The `message` of the thrown error. */
  function ErrorMessage(f: Failure): (m: string)
    ensures m != ""
  {
    match f
    case MissingApiKey =>
      "OPENROUTER_API_KEY required. Get a free key at https://openrouter.ai/keys\n"
      + "Then run: export OPENROUTER_API_KEY='your-key-here'"
    case HttpError(status, body) => "OpenRouter API error: " + NatToString(status) + " - " + body
    case ServiceError(message) => "OpenRouter error: " + message
    case NoResponse => "No response from AI model"
  }

  /** The service's own error text follows the fixed prefix. */
  lemma ServiceErrorMessageCarriesText(message: string)
    ensures StartsWith(ErrorMessage(ServiceError(message)), "OpenRouter error: ")
    ensures EndsWith(ErrorMessage(ServiceError(message)), message)
  {
  }

  /** The status code is written in decimal right after the fixed prefix, and the body follows it. */
  lemma HttpErrorMessageCarriesStatus(status: nat, body: string)
    ensures StartsWith(ErrorMessage(HttpError(status, body)), "OpenRouter API error: ")
    ensures ParseInt(ErrorMessage(HttpError(status, body))[22..]) == Some(status)
    ensures EndsWith(ErrorMessage(HttpError(status, body)), " - " + body)
  {
    var m := ErrorMessage(HttpError(status, body));
    var prefix := "OpenRouter API error: ";
    var digits := NatToString(status);
    var rest := " - " + body;
    assert m == prefix + digits + rest;
    assert |prefix| == 22;
    assert m[22..] == digits + rest;
    assert rest[0] == ' ';
    ParseIntOfDigitsThen(digits, rest);
    DigitsValueOfNatToString(status);
    assert m[|m| - |rest|..] == rest;
  }

  /** The two-message request `generateCommand` sends for a query and a shell. */
  function BuildRequest(query: string, shell: string): (req: Request)
    ensures req.model == FreeModels[0]
    ensures |req.messages| == 2
    ensures req.messages[0].role == System && req.messages[1].role == User
    ensures req.messages[0].content == GetSystemPrompt(shell)
    ensures req.messages[1].content == query
    ensures req.maxTokens == 500 && req.temperature == 0.1
  {
    var prompt := BuildPrompt(query, shell);
    Request(FreeModels[0], [ChatMessage(System, prompt.system), ChatMessage(User, prompt.user)], MaxTokens, Temperature)
  }

  // The clean-up of the returned text.

  const Fence: string := "```"

  /** `\w` in a JavaScript regular expression without the `u` flag. */
  predicate IsWordChar(c: char) {
    ('a' <= c <= 'z') || ('A' <= c <= 'Z') || ('0' <= c <= '9') || c == '_'
  }

  /** A run of `\w` characters, such as a code block's language tag. */
  predicate IsWord(w: string) {
    forall i :: 0 <= i < |w| ==> IsWordChar(w[i])
  }

  predicate IsQuote(c: char) {
    c == '"' || c == '\''
  }

  /** The length of the longest run of word characters at the front of `s`. */
  function WordRun(s: string): (n: nat)
    ensures n <= |s|
    ensures forall i :: 0 <= i < n ==> IsWordChar(s[i])
    ensures n < |s| ==> !IsWordChar(s[n])
  {
    if |s| > 0 && IsWordChar(s[0]) then 1 + WordRun(s[1..]) else 0
  }

  /** `p` is a match of `^```[\w]*\n?`: a fence, word characters, and perhaps one newline. */
  predicate IsOpener(p: string) {
    && |p| >= 3 && p[..3] == Fence
    && (|| (forall i :: 3 <= i < |p| ==> IsWordChar(p[i]))
        || (p[|p| - 1] == '\n' && forall i :: 3 <= i < |p| - 1 ==> IsWordChar(p[i])))
  }

  /** The opener `p` cannot be extended by the text `r` after it (the pattern is greedy). */
  predicate Longest(p: string, r: string) {
    (|p| > 3 && p[|p| - 1] == '\n') || |r| == 0 || (!IsWordChar(r[0]) && r[0] != '\n')
  }

  /** `.replace(/^```[\w]*\n?/, "")`: removes one opening fence with its language tag. */
  function StripOpeningFence(s: string): (r: string)
    ensures |r| <= |s| && r == s[|s| - |r|..]
    ensures r == s <==> !StartsWith(s, Fence)
    ensures StartsWith(s, Fence) ==> |r| <= |s| - 3
  {
    if !StartsWith(s, Fence) then s
    else s[OpenerLength(s)..]
  }

  /** The length of the match of `^```[\w]*\n?` at the front of a fenced text. */
  function OpenerLength(s: string): (n: nat)
    requires StartsWith(s, Fence)
    ensures 3 <= n <= |s|
  {
    var w := 3 + WordRun(s[3..]);
    if w < |s| && s[w] == '\n' then w + 1 else w
  }

  /** What is removed is exactly one opener, as long as the pattern can make it. */
  lemma OpeningFenceRemovesOneOpener(s: string)
    requires StartsWith(s, Fence)
    ensures var r := StripOpeningFence(s);
      IsOpener(s[..|s| - |r|]) && Longest(s[..|s| - |r|], r)
  {
    var n := OpenerLength(s);
    var w := 3 + WordRun(s[3..]);
    assert s[..n][..3] == Fence;
    forall i | 3 <= i < w ensures IsWordChar(s[..n][i]) {
      assert s[..n][i] == s[3..][i - 3];
    }
    assert StripOpeningFence(s) == s[n..];
  }

  /** `.replace(/\n?```$/, "")`: removes one closing fence and the newline before it, if any. */
  function StripClosingFence(s: string): (r: string)
    ensures |r| <= |s| && r == s[..|r|]
    ensures r == s <==> !EndsWith(s, Fence)
    ensures EndsWith(s, "\n" + Fence) ==> s == r + "\n" + Fence
    ensures EndsWith(s, Fence) && !EndsWith(s, "\n" + Fence) ==> s == r + Fence
  {
    if EndsWith(s, "\n" + Fence) then s[..|s| - 4]
    else if EndsWith(s, Fence) then s[..|s| - 3]
    else s
  }

  /**
   * `.replace(/^["']|["']$/g, "")`: removes a quote at the front and a quote
   * at the back, each on its own; the two need not match or both be there.
   */
  function StripQuotes(s: string): (r: string)
    ensures |r| <= |s|
    ensures r == s <==> |s| == 0 || (!IsQuote(s[0]) && !IsQuote(s[|s| - 1]))
    ensures |s| >= 2 ==>
      r == s[(if IsQuote(s[0]) then 1 else 0)..|s| - (if IsQuote(s[|s| - 1]) then 1 else 0)]
    ensures |s| == 1 && IsQuote(s[0]) ==> r == ""
  {
    var t := if |s| > 0 && IsQuote(s[0]) then s[1..] else s;
    if |t| > 0 && IsQuote(t[|t| - 1]) then t[..|t| - 1] else t
  }

  /** The whole clean-up: trim, strip the fences, strip the quotes, trim again. */
  function NormaliseCommand(content: string): (r: string)
    ensures Trimmed(r)
    ensures |r| <= |content|
  {
    Trim(StripQuotes(StripClosingFence(StripOpeningFence(Trim(content)))))
  }

  /** Text that needs no clean-up: no outer whitespace, no fence at either end, no quote at either end. */
  predicate IsPlainCommand(s: string) {
    && Trimmed(s)
    && !StartsWith(s, Fence) && !EndsWith(s, Fence)
    && (|s| == 0 || (!IsQuote(s[0]) && !IsQuote(s[|s| - 1])))
  }

  lemma OpeningFenceIsSlice(s: string)
    ensures IsSliceOf(StripOpeningFence(s), s)
  {
    var r := StripOpeningFence(s);
    assert s[|s| - |r|..|s| - |r| + |r|] == r;
    assert OccursAt(s, r, |s| - |r|);
  }

  lemma ClosingFenceIsSlice(s: string)
    ensures IsSliceOf(StripClosingFence(s), s)
  {
    var r := StripClosingFence(s);
    assert OccursAt(s, r, 0);
  }

  lemma QuotesIsSlice(s: string)
    ensures IsSliceOf(StripQuotes(s), s)
  {
    var r := StripQuotes(s);
    if r == s {
      SliceOfItself(s);
    } else if |s| == 1 {
      assert OccursAt(s, r, 0);
    } else {
      var i := if IsQuote(s[0]) then 1 else 0;
      assert OccursAt(s, r, i);
    }
  }

  /** The clean-up returns a piece of the reply's text, never anything added. */
  lemma NormaliseIsSlice(content: string)
    ensures IsSliceOf(NormaliseCommand(content), content)
  {
    var t1 := Trim(content);
    var t2 := StripOpeningFence(t1);
    var t3 := StripClosingFence(t2);
    var t4 := StripQuotes(t3);
    OpeningFenceIsSlice(t1);
    ClosingFenceIsSlice(t2);
    QuotesIsSlice(t3);
    SliceOfSlice(t3, t2, t1);
    SliceOfSlice(t4, t3, t1);
    SliceOfSlice(t4, t1, content);
    SliceOfSlice(Trim(t4), t4, content);
  }

  /** The text is returned unchanged exactly when it needs no clean-up. */
  lemma NormaliseFixedPoints(content: string)
    ensures NormaliseCommand(content) == content <==> IsPlainCommand(content)
  {
    if IsPlainCommand(content) {
      PlainIsKept(content);
    }
    if NormaliseCommand(content) == content {
      KeptIsPlain(content);
    }
  }

  lemma PlainIsKept(s: string)
    requires IsPlainCommand(s)
    ensures NormaliseCommand(s) == s
  {
    assert Trim(s) == s;
    assert StripOpeningFence(s) == s;
    assert StripClosingFence(s) == s;
    assert StripQuotes(s) == s;
  }

  lemma KeptIsPlain(s: string)
    requires NormaliseCommand(s) == s
    ensures IsPlainCommand(s)
  {
    LengthKeptIsPlain(s);
  }

  /** A clean-up that removes nothing leaves every stage unchanged. */
  lemma LengthKeptIsPlain(s: string)
    requires |NormaliseCommand(s)| == |s|
    ensures IsPlainCommand(s)
  {
    StageLengthsKept(s);
    TrimKeptByLength(s);
    StagesKeptArePlain(s);
  }

  /** Each stage can only shorten the text, so none of them does when the whole leaves its length. */
  lemma StageLengthsKept(s: string)
    requires |NormaliseCommand(s)| == |s|
    ensures var t := Trim(s);
      && |t| == |s|
      && |StripOpeningFence(t)| == |s|
      && |StripClosingFence(StripOpeningFence(t))| == |s|
      && |StripQuotes(StripClosingFence(StripOpeningFence(t)))| == |s|
  {
  }

  lemma StagesKeptArePlain(s: string)
    requires Trim(s) == s
    requires |StripOpeningFence(s)| == |s|
    requires |StripClosingFence(StripOpeningFence(s))| == |s|
    requires |StripQuotes(StripClosingFence(StripOpeningFence(s)))| == |s|
    ensures IsPlainCommand(s)
  {
    OpeningKeptByLength(s);
    ClosingKeptByLength(s);
    QuotesKeptByLength(s);
  }

  lemma TrimKeptByLength(s: string)
    requires |Trim(s)| == |s|
    ensures Trim(s) == s && Trimmed(s)
  {
    var i :| OccursAt(s, Trim(s), i);
    assert s[0..|s|] == s;
  }

  lemma OpeningKeptByLength(s: string)
    requires |StripOpeningFence(s)| == |s|
    ensures StripOpeningFence(s) == s && !StartsWith(s, Fence)
  {
  }

  lemma ClosingKeptByLength(s: string)
    requires |StripClosingFence(s)| == |s|
    ensures StripClosingFence(s) == s && !EndsWith(s, Fence)
  {
  }

  lemma QuotesKeptByLength(s: string)
    requires |StripQuotes(s)| == |s|
    ensures |s| == 0 || (!IsQuote(s[0]) && !IsQuote(s[|s| - 1]))
  {
  }

  /** Neither fence pattern can match text that does not begin or end with a backtick. */
  lemma UnfencedIsKept(s: string)
    requires |s| > 0 && s[0] != '`' && s[|s| - 1] != '`'
    ensures StripOpeningFence(s) == s && StripClosingFence(s) == s
  {
    if |s| >= 3 {
      assert s[..3][0] == s[0];
      assert s[|s| - 3..][2] == s[|s| - 1];
    }
  }

  lemma QuoteIsNeither(c: char)
    requires IsQuote(c)
    ensures !IsSpace(c) && c != '`'
  {
  }

  /** The parts of a text wrapped in one character at each end. */
  lemma WrappedParts(c: string, open: char, close: char)
    ensures var s := [open] + c + [close];
      |s| == |c| + 2 && s[0] == open && s[|s| - 1] == close && s[1..|s| - 1] == c
  {
  }

  /** A text wrapped in a quote at each end goes through the trim and fence stages unchanged. */
  lemma QuotedSurvivesFences(c: string, open: char, close: char)
    requires IsQuote(open) && IsQuote(close)
    ensures var s := [open] + c + [close];
      StripClosingFence(StripOpeningFence(Trim(s))) == s
  {
    var s := [open] + c + [close];
    WrappedParts(c, open, close);
    QuoteIsNeither(open);
    QuoteIsNeither(close);
    assert Trim(s) == s;
    UnfencedIsKept(s);
  }

  /** A quote at each end of a trimmed command is removed, and nothing else. */
  lemma QuotedPlainCommand(c: string, open: char, close: char)
    requires Trimmed(c)
    requires IsQuote(open) && IsQuote(close)
    ensures NormaliseCommand([open] + c + [close]) == c
  {
    QuotedSurvivesFences(c, open, close);
    QuotesOfWrapped(c, open, close);
  }

  lemma QuotesOfWrapped(c: string, open: char, close: char)
    requires IsQuote(open) && IsQuote(close)
    ensures StripQuotes([open] + c + [close]) == c
  {
    WrappedParts(c, open, close);
    QuotesAtBothEnds([open] + c + [close]);
  }

  lemma QuotesAtBothEnds(s: string)
    requires |s| >= 2 && IsQuote(s[0]) && IsQuote(s[|s| - 1])
    ensures StripQuotes(s) == s[1..|s| - 1]
  {
  }

  /**
   * Cleaning up is not idempotent: a command wrapped in two quotes at each
   * end keeps one at each end, which a second clean-up then removes.
   */
  lemma NormaliseNotIdempotent(c: string, open: char, close: char)
    requires Trimmed(c)
    requires IsQuote(open) && IsQuote(close)
    ensures NormaliseCommand([open, open] + c + [close, close]) == [open] + c + [close]
    ensures NormaliseCommand(NormaliseCommand([open, open] + c + [close, close])) == c
  {
    var t := [open] + c + [close];
    assert [open, open] + c + [close, close] == [open] + t + [close];
    QuoteIsNeither(open);
    QuoteIsNeither(close);
    WrappedParts(c, open, close);
    assert Trimmed(t);
    QuotedPlainCommand(t, open, close);
    QuotedPlainCommand(c, open, close);
  }

  /**
   * A fenced reply whose command ends in a quote loses that quote: the quote
   * at the back is removed although none is at the front.
   */
  lemma FencedCommandLosesTrailingQuote(tag: string, c: string, quote: char)
    requires IsWord(tag)
    requires Trimmed(c) && |c| > 0 && !IsQuote(c[0])
    requires IsQuote(quote)
    ensures NormaliseCommand(Fence + tag + "\n" + (c + [quote] + "\n" + Fence)) == c
  {
    FencedNormalise(tag, c + [quote]);
    TrailingQuoteNormalised(c, quote);
  }

  /** Of a fenced block only the quote stage and the final trim act on its inner line. */
  lemma FencedNormalise(tag: string, u: string)
    requires IsWord(tag)
    ensures NormaliseCommand(Fence + tag + "\n" + (u + "\n" + Fence)) == Trim(StripQuotes(u))
  {
    FencedIsTrimmed(tag, u);
    OpenerWithTag(tag, u + "\n" + Fence);
    CloserOnOwnLine(u);
  }

  /** A trimmed command with one quote after it comes out of the last two stages without the quote. */
  lemma TrailingQuoteNormalised(c: string, quote: char)
    requires Trimmed(c) && |c| > 0 && !IsQuote(c[0]) && IsQuote(quote)
    ensures Trim(StripQuotes(c + [quote])) == c
  {
    TrailingQuoteOnly(c, quote);
    TrimKeepsTrimmed(c);
  }

  /** A text that begins and ends with a backtick is left alone by the trim. */
  lemma FencedIsTrimmed(tag: string, u: string)
    ensures var s := Fence + tag + "\n" + (u + "\n" + Fence); Trim(s) == s
  {
    FencedEnds(tag, u);
    TrimKeepsTrimmed(Fence + tag + "\n" + (u + "\n" + Fence));
  }

  lemma FencedEnds(tag: string, u: string)
    ensures var s := Fence + tag + "\n" + (u + "\n" + Fence);
      |s| > 0 && s[0] == '`' && s[|s| - 1] == '`' && Trimmed(s)
  {
    var t := u + "\n" + Fence;
    var s := Fence + tag + "\n" + t;
    assert s[0] == '`';
    assert s[|s| - 1] == t[|t| - 1] == '`';
  }

  /** The opener pattern takes the fence, the language tag and the newline after it. */
  lemma OpenerWithTag(tag: string, t: string)
    requires IsWord(tag)
    ensures StripOpeningFence(Fence + tag + "\n" + t) == t
  {
    var s := Fence + tag + "\n" + t;
    assert StartsWith(s, Fence);
    assert s[3..] == tag + ("\n" + t);
    WordRunOfWord(tag, "\n" + t);
    assert s[3 + |tag|] == '\n';
    assert s[4 + |tag|..] == t;
  }

  /** The closer pattern takes a fence on a line of its own and the newline before it. */
  lemma CloserOnOwnLine(u: string)
    ensures StripClosingFence(u + "\n" + Fence) == u
  {
    var s := u + "\n" + Fence;
    assert s[|s| - 4..] == "\n" + Fence;
    assert s[..|s| - 4] == u;
  }

  /** A quote at the back alone is removed. */
  lemma TrailingQuoteOnly(c: string, quote: char)
    requires |c| > 0 && !IsQuote(c[0]) && IsQuote(quote)
    ensures StripQuotes(c + [quote]) == c
  {
    var u := c + [quote];
    assert u[0] == c[0] && u[|u| - 1] == quote;
    assert u[..|u| - 1] == c;
  }

  lemma {:induction false} WordRunOfWord(w: string, rest: string)
    requires IsWord(w)
    requires |rest| > 0 && !IsWordChar(rest[0])
    ensures WordRun(w + rest) == |w|
  {
    if |w| > 0 {
      assert (w + rest)[1..] == w[1..] + rest;
      WordRunOfWord(w[1..], rest);
    } else {
      assert w + rest == rest;
    }
  }

  /** The reply "```bash", "find . -name \"*.jpg\"", "```" (three lines) gives `find . -name "*.jpg`. */
  lemma FencedFindExample()
    ensures NormaliseCommand("```bash\nfind . -name \"*.jpg\"\n```") == "find . -name \"*.jpg"
  {
    ExampleParts();
    ExampleTagIsWord();
    ExampleCommandIsTrimmed();
    FencedCommandLosesTrailingQuote("bash", "find . -name \"*.jpg", '"');
  }

  lemma ExampleParts()
    ensures "```bash\nfind . -name \"*.jpg\"\n```"
         == Fence + "bash" + "\n" + ("find . -name \"*.jpg" + ['"'] + "\n" + Fence)
  {
  }

  lemma ExampleTagIsWord()
    ensures IsWord("bash")
  {
  }

  lemma ExampleCommandIsTrimmed()
    ensures var c := "find . -name \"*.jpg"; Trimmed(c) && |c| > 0 && !IsQuote(c[0])
  {
  }

  /**
   * A quote at the end of an unfenced command is removed even when it closes
   * a quotation opened inside the command.
   */
  lemma UnpairedQuoteIsStripped(c: string, quote: char)
    requires Trimmed(c) && |c| > 0 && !IsQuote(c[0]) && c[0] != '`'
    requires IsQuote(quote)
    ensures NormaliseCommand(c + [quote]) == c
  {
    UnfencedQuotedTail(c, quote);
    TrailingQuoteNormalised(c, quote);
  }

  /** Of a quoted tail only the quote stage and the final trim act. */
  lemma UnfencedQuotedTail(c: string, quote: char)
    requires |c| > 0 && !IsSpace(c[0]) && c[0] != '`' && IsQuote(quote)
    ensures NormaliseCommand(c + [quote]) == Trim(StripQuotes(c + [quote]))
  {
    QuotedTailIsTrimmed(c, quote);
    UnfencedIsKept(c + [quote]);
  }

  lemma QuotedTailIsTrimmed(c: string, quote: char)
    requires |c| > 0 && !IsSpace(c[0]) && IsQuote(quote)
    ensures var s := c + [quote]; s[0] == c[0] && s[|s| - 1] == quote && quote != '`' && Trim(s) == s
  {
    QuoteIsNeither(quote);
    TrimKeepsTrimmed(c + [quote]);
  }

  /** The reply `it's "fine"` gives `it's "fine`: the closing quote goes, the opening one stays. */
  lemma InnerQuotationExample()
    ensures NormaliseCommand("it's \"fine\"") == "it's \"fine"
  {
    InnerQuotationParts();
    UnpairedQuoteIsStripped("it's \"fine", '"');
  }

  lemma InnerQuotationParts()
    ensures "it's \"fine\"" == "it's \"fine" + ['"']
    ensures var c := "it's \"fine"; Trimmed(c) && |c| > 0 && !IsQuote(c[0]) && c[0] != '`'
  {
  }

  /** The checks on an answered request, in the order the client makes them. */
  function ClassifyReply(reply: Reply): (r: Result<string, Failure>)
    ensures !IsOkStatus(reply.status) ==> r == Err(HttpError(reply.status, reply.bodyText))
    ensures IsOkStatus(reply.status) && reply.error.Some? ==> r == Err(ServiceError(reply.error.value))
    ensures r.Ok? <==>
      IsOkStatus(reply.status) && reply.error.None? && reply.choices.Some? && |reply.choices.value| > 0
    ensures r.Ok? ==> r.value == NormaliseCommand(reply.choices.value[0])
    ensures r.Err? && r.error == NoResponse <==>
      IsOkStatus(reply.status) && reply.error.None? && (reply.choices.None? || |reply.choices.value| == 0)
  {
    if !IsOkStatus(reply.status) then Err(HttpError(reply.status, reply.bodyText))
    else if reply.error.Some? then Err(ServiceError(reply.error.value))
    else if reply.choices.None? || |reply.choices.value| == 0 then Err(NoResponse)
    else Ok(NormaliseCommand(reply.choices.value[0]))
  }

  /** `generateCommand(query, shell, apiKey)` against an endpoint that answers `fetch`. */
  function GenerateCommand(query: string, shell: string, apiKey: Option<string>, fetch: Request -> Reply)
    : (r: Result<string, Failure>)
    ensures apiKey.None? || apiKey.value == "" ==> r == Err(MissingApiKey)
    ensures r.Ok? ==>
      (&& apiKey.Some? && apiKey.value != ""
       && var reply := fetch(BuildRequest(query, shell));
          reply.choices.Some? && |reply.choices.value| > 0 && r.value == NormaliseCommand(reply.choices.value[0]))
  {
    if apiKey.None? || apiKey.value == "" then Err(MissingApiKey)
    else ClassifyReply(fetch(BuildRequest(query, shell)))
  }

  /** The instructions sent name the dialect of the shell asked for. */
  lemma RequestNamesDialect(query: string, shell: string)
    ensures Contains(BuildRequest(query, shell).messages[0].content, DialectRule(shell))
  {
    SystemPromptNamesDialect(shell);
  }

  /** The key guard comes first, and the error it raises is raised for no other reason. */
  lemma MissingKeyIsFirstCheck(query: string, shell: string, apiKey: Option<string>, f: Request -> Reply)
    ensures GenerateCommand(query, shell, apiKey, f) == Err(MissingApiKey) <==> apiKey.None? || apiKey.value == ""
    ensures apiKey.Some? && apiKey.value != "" ==>
      GenerateCommand(query, shell, apiKey, f) == ClassifyReply(f(BuildRequest(query, shell)))
  {
    if apiKey.Some? && apiKey.value != "" {
      ClassifiedReplyIsNotKeyError(f(BuildRequest(query, shell)));
    }
  }

  /** No reply is ever reported as a missing key. */
  lemma ClassifiedReplyIsNotKeyError(reply: Reply)
    ensures ClassifyReply(reply) != Err(MissingApiKey)
  {
  }

  /** Without a key the outcome does not depend on the endpoint: nothing is sent. */
  lemma MissingKeySendsNothing(query: string, shell: string, apiKey: Option<string>,
                               f: Request -> Reply, g: Request -> Reply)
    requires apiKey.None? || apiKey.value == ""
    ensures GenerateCommand(query, shell, apiKey, f) == GenerateCommand(query, shell, apiKey, g)
    ensures GenerateCommand(query, shell, apiKey, f) == Err(MissingApiKey)
  {
  }

  /** With a key exactly one request is observed: endpoints agreeing on it give the same outcome. */
  lemma OnlyTheBuiltRequestMatters(query: string, shell: string, key: string,
                                   f: Request -> Reply, g: Request -> Reply)
    requires key != ""
    requires f(BuildRequest(query, shell)) == g(BuildRequest(query, shell))
    ensures GenerateCommand(query, shell, Some(key), f) == GenerateCommand(query, shell, Some(key), g)
  {
  }

  /** A successful command is a trimmed piece of the first choice's text. */
  lemma SuccessIsPieceOfFirstChoice(query: string, shell: string, key: string, f: Request -> Reply)
    requires GenerateCommand(query, shell, Some(key), f).Ok?
    ensures var reply := f(BuildRequest(query, shell));
      && reply.choices.Some? && |reply.choices.value| > 0
      && Trimmed(GenerateCommand(query, shell, Some(key), f).value)
      && IsSliceOf(GenerateCommand(query, shell, Some(key), f).value, reply.choices.value[0])
  {
    NormaliseIsSlice(f(BuildRequest(query, shell)).choices.value[0]);
  }
}
