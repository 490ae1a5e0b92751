# terminalai, modelled in Dafny

`terminalai` turns a request in plain language into one shell command. It
sends the request to an OpenRouter chat-completion endpoint and prints the
cleaned-up reply for the user's shell to pre-fill. `terminalai setup` appends
an `ai` wrapper function to the start-up files of zsh, bash and fish. The
configuration helpers store an API key and a model in
`~/.config/terminalai/config.json`.

The project models these five parts of the program:

- `index.ts`, the command-line dispatch, in `cli.dfy` (module `Cli`).
- `api.ts`, the model client, in `api.dfy` (module `Api`).
- `prompt.ts`, the prompt builder, in `prompt.dfy` (module `Prompt`).
- `config.ts`, the configuration store, in `config.dfy` (module `Config`).
- `setup.ts`, the shell installer, in `setup.dfy` (module `Setup`).

Three support modules stand in for the JavaScript runtime:

- `Text` (`text.dfy`) models the string built-ins the code uses: `trim`, `toLowerCase`, `includes`, `split`, `join`, `parseInt` and number-to-string.
- `Environment` (`environment.dfy`) models `process.env` as a map.
- `Wrappers` (`wrappers.dfy`) has `Option` and `Result`.

How the outside world enters the model:

- **The network** is a parameter `fetch: Request -> Reply`. A `Reply` holds the HTTP status, the body text, and the parsed `error` and `choices` fields.
- **What the user types at a prompt** is an answer string passed in.
- **The settings file** is a field of the class `Config.ConfigStore`. It holds an `Absent`, `Unparseable` or `Parsed` value.
- **The start-up files and directories** are the fields `files` (a map) and `dirs` (a set) of the class `Setup.Filesystem`.
- **A run of the program** is the function `Cli.Run` from the arguments, the environment and `fetch` to an `Outcome`. The outcome is: the setup started, the help text shown, a line on standard output, or a message on standard error with exit code 1.

Behaviour that the code has, and that a reader of the tool's description might not expect:

- **Quote stripping.** The pattern `^["']|["']$` removes a quote at the front and a quote at the back independently. The quotes need not match. So `it's "fine"` comes back as `it's "fine` (`Api.InnerQuotationExample`). A fenced `find . -name "*.jpg"` loses its closing quote too (`Api.FencedFindExample`).
- **Clean-up is not idempotent.** `""ls""` cleans up to `"ls"`, and cleaning that again gives `ls` (`Api.NormaliseNotIdempotent`).
- **No timeout and no spinner.** `generateCommand` sends the request with no timeout and shows no progress indicator. It has no error of its own for a disabled model.
- **Commands.** `index.ts` has no `model` command. It never reads the settings file: the API key comes from `OPENROUTER_API_KEY` only.

## Model

| member | source | states |
|---|---|---|
| `Cli.Dispatch` | src/index.ts:7-44 | `setup` as the first argument starts the setup. No arguments, `--help` or `-h` first shows help (both as if-and-only-if). Any other arguments ask for a command. The query is the arguments joined by single spaces, the shell is resolved from the environment and the key is read from `OPENROUTER_API_KEY` |
| `Cli.SetupWinsOverEverything` | src/index.ts:10-13 | `setup` followed by anything starts the setup, whatever the environment and the endpoint |
| `Cli.HelpIsFixed` | src/index.ts:16-35 | the help outcome does not depend on the environment or the endpoint, and standard output gets the usage text |
| `Cli.QuerySplitsIntoArguments` | src/index.ts:38 | when no argument contains a space, splitting the query at spaces gives back exactly the arguments |
| `Cli.SingleArgumentIsQuery` | src/index.ts:38 | a single argument that is not `setup` or a help flag is the query unchanged, spaces included, as the shell wrappers pass `"$*"` |
| `Cli.LastSegment` | src/index.ts:41 | the last piece of `split("/")` holds no `/` |
| `Cli.ResolveShell` | src/index.ts:41 | the shell is never empty. A non-empty `TERMINALAI_SHELL` wins. Without it or `SHELL`, zsh is used |
| `Cli.ShellFromPath` | src/index.ts:41 | with `SHELL` = `dir/name`, the shell is `name` |
| `Cli.BareShellName` | src/index.ts:41 | a `SHELL` with no `/` in it is the shell name itself |
| `Cli.EmptyShellMeansZsh` | src/index.ts:41 | an empty `SHELL` falls through to zsh |
| `Cli.TrailingSlashMeansZsh` | src/index.ts:41 | a `SHELL` ending in `/` gives an empty last piece, so zsh is used |
| `Cli.Run` | src/index.ts:9-57 | the setup starts exactly when dispatch says so, and help is shown exactly for the help arguments. When a command was asked for, the outcome is the report of what `generateCommand` returned: the run fails exactly when it threw |
| `Cli.Report` | src/index.ts:46-57 | a returned command is printed, followed by a newline. Exactly an error is reported as a failure. A failure has exit code 1, and standard error gets `Error: `, the error's message and a newline |
| `Cli.StandardOutput` | src/index.ts:46-57 | a failure writes nothing to standard output |
| `Cli.FailureWritesNoOutput` | src/index.ts:50-56 | a failed run writes nothing to standard output and exits with status 1 |
| `Cli.SuccessIsPrinted` | src/index.ts:46-49 | when `generateCommand` returns a command, standard output gets that command and a newline |
| `Cli.MissingKeyMessage` | src/index.ts:44-57 | without a non-empty `OPENROUTER_API_KEY`, a query fails with `Error: ` followed by the key-required message and exit code 1, whatever the endpoint would answer |
| `Cli.KeyOfPrintedRun` | src/index.ts:44-49 | a command is printed only when a non-empty key was present and the request succeeded |
| `Cli.PrintedRunOutput` | src/index.ts:47-49 | the printed line is the command `generateCommand` returned, followed by a newline |
| `Cli.PrintedCommandComesFromReply` | src/index.ts:46-49 | the printed command is a trimmed contiguous piece of the first choice in the endpoint's reply, ended by a newline |
| `Prompt.BuildPrompt` | src/prompt.ts:33-38 | the user text is the query, unchanged. The system text is the instructions for the shell |
| `Prompt.GetSystemPrompt` | src/prompt.ts:1-31 | the instructions are the fixed head, the shell name and the fixed tail: the shell name sits at the same offset for every shell |
| `Prompt.SystemPromptNamesDialect` | src/prompt.ts:1-31 | the instructions contain `- Use <shell> syntax` as a line of its own, right after the introduction and the first two rules |
| `Prompt.SystemPromptsDifferOnlyInDialect` | src/prompt.ts:1-31 | prompts for two shells share all the text before and after the shell name. They are equal if and only if the shells are |
| `Prompt.PromptPartsIndependent` | src/prompt.ts:33-38 | the system text does not depend on the query, and the user text does not depend on the shell |
| `Api.BuildRequest` | src/api.ts:35-53 | the request names the first free model, has exactly a system message with the instructions then a user message with the query, and sets `max_tokens` to 500 and temperature to 0.1 |
| `Api.GenerateCommand` | src/api.ts:23-81 | without a non-empty key, the key-required error. A command is returned only with a non-empty key, and it is the cleaned-up first choice of the reply to the built request |
| `Api.RequestNamesDialect` | src/api.ts:35-49 | the system message sent names the shell's dialect |
| `Api.MissingKeyIsFirstCheck` | src/api.ts:28-33 | the key-required error is raised if and only if the key is missing or empty. With a key, the outcome is the classification of the endpoint's reply to the built request |
| `Api.MissingKeySendsNothing` | src/api.ts:28-37 | without a key, the outcome does not depend on the endpoint |
| `Api.OnlyTheBuiltRequestMatters` | src/api.ts:35-80 | with a key, two endpoints that answer the built request alike give the same outcome |
| `Api.ClassifyReply` | src/api.ts:56-80 | a non-2xx status gives the HTTP error with status and body. Otherwise an `error` field gives the service error. Otherwise missing or empty `choices` gives "no response". Success holds if and only if none of these apply, and its value is the cleaned-up first choice |
| `Api.HttpErrorMessageCarriesStatus` | src/api.ts:56-59 | the HTTP error message starts with `OpenRouter API error: `, then the status in decimal (read back by `parseInt`), and ends with ` - ` and the body |
| `Api.ErrorMessage` | src/api.ts:28-69 | every error `generateCommand` throws carries a non-empty message. HttpErrorMessageCarriesStatus and ServiceErrorMessageCarriesText give the form of the two messages that carry the service's answer |
| `Api.ServiceErrorMessageCarriesText` | src/api.ts:63-64 | the service error's message is `OpenRouter error: ` followed by the service's own message text |
| `Api.SuccessIsPieceOfFirstChoice` | src/api.ts:67-80 | a returned command comes from a reply with at least one choice, and is a trimmed contiguous piece of that choice's text |
| `Api.StripOpeningFence` | src/api.ts:75 | the opening-fence replace removes a prefix. It changes the text if and only if the text starts with three backticks, and then removes at least those |
| `Api.OpeningFenceRemovesOneOpener` | src/api.ts:75 | what is removed is one match of the backticks, any `\w` characters and at most one newline, as long as the greedy pattern can make it |
| `Api.StripClosingFence` | src/api.ts:75 | the closing-fence replace removes a suffix. It changes the text if and only if the text ends with three backticks, taking the newline before them when there is one |
| `Api.StripQuotes` | src/api.ts:78 | the quote replace removes at most a leading and a trailing quote character. It changes the text if and only if it begins or ends with one. A lone quote becomes empty |
| `Api.NormaliseCommand` | src/api.ts:72-80 | the cleaned-up command has no surrounding whitespace and is never longer than the reply |
| `Api.NormaliseIsSlice` | src/api.ts:72-80 | the cleaned-up command is a contiguous piece of the reply text: nothing is added |
| `Api.NormaliseFixedPoints` | src/api.ts:72-80 | a text comes back unchanged if and only if it has no surrounding whitespace, no fence at either end and no quote at either end |
| `Api.QuotedPlainCommand` | src/api.ts:78-80 | a trimmed command wrapped in a quote at each end comes back without those two quotes |
| `Api.NormaliseNotIdempotent` | src/api.ts:72-80 | a command wrapped in two quotes at each end loses one at each end per clean-up, so cleaning up twice differs from once |
| `Api.FencedCommandLosesTrailingQuote` | src/api.ts:75-78 | in a fenced block with a language tag, a command that ends in a quote but does not start with one loses that trailing quote |
| `Api.FencedFindExample` | src/api.ts:72-80 | the three-line reply with a `bash` fence around `find . -name "*.jpg"` gives `find . -name "*.jpg` |
| `Api.UnpairedQuoteIsStripped` | src/api.ts:78 | in an unfenced command, a trailing quote is removed even though it closes a quotation opened inside the command |
| `Api.InnerQuotationExample` | src/api.ts:78 | `it's "fine"` gives `it's "fine` |
| `Config.LoadConfig` | src/config.ts:23-33 | a parsed file gives its settings. A missing or malformed file gives no key and no model |
| `Config.WithApiKey` | src/config.ts:52-56 | after `saveApiKey`, the file is always a parsed settings object |
| `Config.WithModel` | src/config.ts:68-72 | after `saveModel`, the file is always a parsed settings object |
| `Config.GetApiKey` | src/config.ts:42-50 | a non-empty `OPENROUTER_API_KEY` is the key. Otherwise the key comes from the loaded file, and is missing when the file is |
| `Config.GetModel` | src/config.ts:58-66 | a non-empty `TERMINALAI_MODEL` is the model. Otherwise the model comes from the loaded file, and is missing when the file is |
| `Config.UnreadableFileHasNoSettings` | src/config.ts:42-66 | with a missing or malformed file and no variables set, neither a key nor a model is found |
| `Config.EnvironmentKeyWins` | src/config.ts:42-50 | a non-empty `OPENROUTER_API_KEY` is the key, whatever the file holds |
| `Config.SavedKeyIsRead` | src/config.ts:42-56 | without the variable, the key read after `saveApiKey(k)` is `k` |
| `Config.EnvironmentModelWins` | src/config.ts:58-66 | a non-empty `TERMINALAI_MODEL` is the model, whatever the file holds |
| `Config.SavedModelIsRead` | src/config.ts:58-72 | without the variable, the model read after `saveModel(m)` is `m` |
| `Config.SavesKeepTheOtherField` | src/config.ts:52-72 | saving a key leaves the model read unchanged, and saving a model leaves the key read unchanged |
| `Config.SaveKeyIdempotent` | src/config.ts:52-56 | saving the same key twice leaves the same file as saving it once |
| `Config.SaveOverMalformedFile` | src/config.ts:23-56 | saving a key over a malformed file leaves a file with only that key |
| `Config.ModelForChoice` | src/config.ts:118-132 | the model is never empty. Choices 1 to 3 pick the listed model. Choice 4 picks the custom identifier, or the default when that is empty. Anything else picks the default |
| `Config.ChosenModel` | src/config.ts:105-132 | the model chosen from the typed answers is never empty, and is either a recommended model or the trimmed custom identifier |
| `Config.MenuNumberIsRead` | src/config.ts:115-116 | a menu number typed as digits is parsed back as that number |
| `Config.ChoosingListedModel` | src/config.ts:120-121 | typing 1, 2 or 3 selects that model of the list |
| `Config.ChoosingCustomModel` | src/config.ts:122-128 | typing 4 selects the trimmed custom identifier, or the default when it is blank |
| `Config.NonNumericChoiceIsDefault` | src/config.ts:129-132 | an answer that does not parse as a number selects the default model |
| `Config.NegativeChoiceIsDefault` | src/config.ts:116-131 | typing a negative number such as `-2` selects no listed model: it gives the default, because `parseInt` keeps the sign |
| `Config.ConfigStore.SaveConfig` | src/config.ts:35-40 | afterwards the directory exists and the file holds exactly the given settings |
| `Config.ConfigStore.SaveApiKey` | src/config.ts:52-56 | the file becomes the loaded settings with the key replaced |
| `Config.ConfigStore.SaveModel` | src/config.ts:68-72 | the file becomes the loaded settings with the model replaced |
| `Config.ConfigStore.PromptForApiKey` | src/config.ts:88-103 | a blank answer gives no key and leaves the store untouched (the program then exits). Any other answer is trimmed, saved and returned |
| `Config.ConfigStore.PromptForModel` | src/config.ts:105-138 | the model returned is the one the menu answers select. It is never empty and is saved to the file |
| `Setup.ShellConfig` | src/setup.ts:6-63 | exactly zsh, bash and fish have a snippet and a start-up file |
| `Setup.CodeMentionsMarker` | src/setup.ts:9-10 | every snippet contains `terminalai`, so a file it was appended to is recognised as installed |
| `Setup.DetectShell` | src/setup.ts:79-85 | the detected shell is always one of the three supported shells |
| `Setup.ZshPathIsDetected` | src/setup.ts:80-81 | a `SHELL` that contains `zsh` anywhere is detected as zsh |
| `Setup.BashPathIsDetected` | src/setup.ts:82 | a `SHELL` that contains `bash` anywhere and does not contain zsh is detected as bash |
| `Setup.FishPathIsDetected` | src/setup.ts:83 | a `SHELL` that contains `fish` anywhere and contains neither zsh nor bash is detected as fish |
| `Setup.UnknownShellIsZsh` | src/setup.ts:79-85 | a `SHELL` that mentions neither bash nor fish, or no `SHELL`, gives zsh |
| `Setup.IsAlreadyInstalled` | src/setup.ts:96-102 | a missing file is never installed. With MentionedIsInstalled and UnmarkedFileGetsSnippet, an existing file counts as installed exactly when its text contains `terminalai` |
| `Setup.MentionedIsInstalled` | src/setup.ts:96-102 | a file whose text contains `terminalai` anywhere counts as installed |
| `Setup.UnmarkedFileGetsSnippet` | src/setup.ts:101-126 | an existing start-up file that does not contain `terminalai` gets the shell's snippet appended to its text |
| `Setup.AfterInstall` | src/setup.ts:104-128 | an unsupported shell, or a start-up file that already counts as installed, leaves the disk as it is. Otherwise the start-up file becomes its old text (empty when missing) followed by this shell's snippet, the file's directory is added, and nothing else changes |
| `Setup.AfterSetup` | src/setup.ts:143-146 | over the whole loop no file or directory disappears |
| `Setup.GetConfigPath` | src/setup.ts:87-94 | a path is given if and only if the shell is supported. Otherwise the error is `Unsupported shell: ` followed by the shell |
| `Setup.ZshConfigPath` | src/setup.ts:8 | the zsh start-up file is `~/.zshrc` |
| `Setup.BashConfigPath` | src/setup.ts:26 | the bash start-up file is `~/.bashrc` |
| `Setup.FishConfigPath` | src/setup.ts:47 | the fish start-up file is `~/.config/fish/config.fish` |
| `Setup.ParentOfJoined` | src/setup.ts:119 | the directory of `dir/name` is `dir` when the name holds no `/` |
| `Setup.FishConfigDirectory` | src/setup.ts:118-122 | the directory checked before installing for fish is `~/.config/fish` |
| `Setup.SetupShells` | src/setup.ts:137-139 | every shell chosen is a supported one. Only the detected shell is chosen if and only if the trimmed, lower-cased answer is `n`. Every other answer chooses zsh, bash and fish |
| `Setup.DecliningInstallsDetectedShell` | src/setup.ts:137-139 | `n` or `N`, with any whitespace around it, installs for the detected shell only |
| `Setup.AnsweringNoInstallsAll` | src/setup.ts:139 | the answer `no` is not a refusal: it installs for all three shells |
| `Setup.BlankAnswerInstallsAll` | src/setup.ts:137-139 | pressing Enter, or typing only whitespace, installs for all three shells |
| `Setup.InstallMarksInstalled` | src/setup.ts:104-128 | after installing for a supported shell, its start-up file exists and counts as installed |
| `Setup.InstallIsIdempotent` | src/setup.ts:104-128 | installing twice for a shell leaves the same files and directories as installing once |
| `Setup.InstallOnlyAppends` | src/setup.ts:118-125 | installing never removes a file and never changes existing content except by appending. Only the shell's own start-up file differs afterwards. Directories are only added |
| `Setup.UnsupportedShellChangesNothing` | src/setup.ts:105-109 | installing for an unsupported shell changes nothing |
| `Setup.InstalledStaysInstalled` | src/setup.ts:113-125 | a file that counts as installed still does after any install |
| `Setup.SetupKeepsInstalled` | src/setup.ts:143-146 | a whole setup run keeps every installed file installed |
| `Setup.SetupInstallsEach` | src/setup.ts:143-146 | after the loop, every supported shell in the list has an installed start-up file |
| `Setup.SetupOverInstalled` | src/setup.ts:143-146 | a setup in which every listed shell is already installed changes nothing |
| `Setup.SetupIsIdempotent` | src/setup.ts:130-153 | running the setup twice with the same shells leaves the same files and directories as running it once |
| `Setup.Filesystem.InstallForShell` | src/setup.ts:104-128 | the result is true if and only if the shell is supported. The files and directories become those of one install: parent directory created, snippet appended, unless already installed |
| `Setup.Filesystem.RunSetup` | src/setup.ts:130-153 | the loop installs, in order, for each shell chosen by the answer. The final state is that of installing for each in turn |
| `Text.Trim` | src/api.ts:72 | the result has no whitespace at either end and is a contiguous piece of the input. It equals the input if and only if the input has no whitespace at either end |
| `Text.TrimPadded` | src/setup.ts:74 | trimming removes exactly the whitespace padding around a trimmed non-empty text |
| `Text.TrimAllSpace` | src/setup.ts:74 | whitespace alone trims to the empty text |
| `Text.ToLower` | src/setup.ts:74 | lower-casing keeps the length and maps each character by itself |
| `Text.JoinSplit` | src/index.ts:38 | splitting at a separator and joining with it gives back the text |
| `Text.SplitJoin` | src/index.ts:38 | joining pieces without the separator and splitting again gives back the pieces |
| `Text.SplitConcat` | src/index.ts:41 | a separator splits the text into the pieces before it followed by the pieces after it |
| `Text.Split` | src/index.ts:41 | `split` always gives at least one piece |
| `Text.SplitLeavesNoSeparator` | src/index.ts:41 | no piece of a `split` contains the separator |
| `Text.Join` | src/index.ts:38 | joining a single piece gives that piece |
| `Text.NatToString` | src/api.ts:58 | the decimal rendering of a number is a non-empty run of digits |
| `Text.ParseIntOfNatToString` | src/config.ts:116 | `parseInt` reads back the decimal rendering of any natural number |
| `Text.ParseIntOfDigitsThen` | src/config.ts:116 | `parseInt` reads the leading digits and ignores everything after the first non-digit |
| `Text.ParseIntOfMinus` | src/config.ts:116 | a leading `-` before digits makes `parseInt` return the negated value of those digits |
| `Text.ParseIntOfNegated` | src/config.ts:116 | `parseInt` reads `-` followed by the decimal rendering of `n` as `-n` |

## Left out

- HTTP headers, the endpoint URL and the JSON encoding of the request are not modelled. Only the request's fields are.
- `response.json()` failing on a body that is not JSON is left out: `fetch` always returns a parsed reply.
- `Reply.error` holds only the error's `message` text. An `error` field without a `message`, such as `"error": "rate limited"`, makes the program report `OpenRouter error: undefined`. The model cannot express that.
- A choice without `message.content` is left out. `choices` is a list of content strings.
- The readline prompts, `console.log` and `console.error` messages, and `process.exit` are not modelled. The prompts' answers are parameters; the exit after a blank API key is the `None` result of `PromptForApiKey`.
- The messages `runSetup` prints are left out. So are the "Already installed" and "Added to" lines, and the model menu text.
- `showModelHelp` only prints text and is not modelled.
- `fetch` rejecting, for example on a network error, is not modelled: `fetch` always answers. In the program, such a rejection is reported as `Error: ` and its message, with exit status 1.
- `generateCommand`'s default shell `zsh` is not modelled. Every caller in the program passes a shell, so the default is never used.
- `index.ts`'s "An unknown error occurred" branch is left out: every failure of the model client is an `Error`.
- `Setup.ParentDir`: `path.join` and `path.dirname` are modelled as joining with `/` and dropping the last `/`-separated piece. Normalisation of `.` and `..`, repeated slashes and a relative home directory is not modelled.
- `mkdirSync(..., { recursive: true })` creates every missing directory. The model records only the start-up file's own directory.
- A settings path or start-up file path that is a directory, and read or write errors, are not modelled.
- `Config.ConfigFile`: extra JSON fields and non-string values in the settings file are not kept. `JSON.parse` giving a non-object, such as `null`, is not modelled.
- `Setup.ShellConfig`: `SHELL_CONFIGS[shell]` with an inherited object key such as `constructor` is not modelled. Only the three own keys give a snippet.
- `Text.ToLower` lower-cases the ASCII letters only, not the rest of Unicode.
- `Text.ParseInt` reads decimal digits without the precision limit of JavaScript numbers. Very long digit strings are not rounded.
- `Text.IsSpace` uses the whitespace and line-terminator characters of ECMAScript `trim` as a fixed set.
- The character positions are UTF-16 code units in the source and Dafny `char`s here. Surrogate pairs are not treated specially.
