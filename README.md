# A model of the Copilot chat agent scaffolding CLI

The CLI scaffolds a VS Code extension project for a GitHub Copilot chat agent. It works in three steps:

- It merges the parsed command line into an option bag and asks for whatever is missing.
- It runs a fixed list of steps:
  - preflight checks of the package name and the target folder;
  - rendering of a template tree into the folder;
  - `npm install`;
  - an optional `git init`;
  - fetching proposed API types;
  - a compile.
- For each external command it forwards the output line by line as status messages.

This Dafny project models the logic of those three pieces and proves what they promise.

| file | models |
|---|---|
| `wrappers.dfy` | `Option`, `Result` and `Outcome` (success, or failure with a message) |
| `js_strings.dfy` | the JavaScript string built-ins the code relies on: `indexOf`, `replace` with a string pattern (first occurrence only), `endsWith`, `trim` (ECMA-262 whitespace), `split(/\r?\n/)`, and the decimal rendering of a number in a template literal |
| `contracts.dfy` | the option bag `InitOptions`, as a map from key to an optional value, because an object spread copies a key that is present but `undefined`; truthiness; `${}` display |
| `file_system.dfy` | `src/helpers/file-system.ts`: the destination path and content of each rendered file, the render loop over a file store (`class Disk`), `encodingFromExt`, `folderIsEmpty`, `isValidFolderName` |
| `new_agent.dfy` | `src/commands/new-agent.ts`: `wrappedExec` over a given sequence of child-process events, the two preflight validations, and the step list `run` builds |
| `initializer.dfy` | `src/cli/initializer.ts`: `mergeParsedArguments`, `validateAndPrompt` with its validator, and the `.action` callback as a method, specified by staged functions |

The following are parameters of the model:

- the file store, as a map from path to content;
- the discovered template list;
- the mustache engine, as a function `(string, C) -> string`;
- `strip-ansi`;
- the npm name validator;
- the events of a child process;
- commander's parsed arguments;
- the user's answers to the prompts, as a sequence in which the j-th prompt shown receives the j-th answer.

Three behaviours of the code are easy to misread. The model follows the code in each:

- `folderIsEmpty` lists only files (`nodir`), so a folder that holds only subdirectories counts as empty.
- `render` removes the first `.mustache` anywhere in the relative path, not the suffix. A template under a directory named `x.mustache` loses the directory's marker and keeps its own (`FileSystem.MarkerRemovedFromDirectoryName`).
- Template discovery uses the pattern `**/*.*`, which lists only names that contain a dot, not every file.

Further behaviours the model keeps as the code has them:

- The exit code of a child process is never looked at (`NewAgent.ExitStatusIgnored`).
- Passed options can never change `silent`, `git` or `publisher`.
- The answer to the git question always replaces `--no-git`.

## Model

| member | source | states |
|---|---|---|
| Contracts.Truthy | src/commands/new-agent.ts:67 | JavaScript truthiness of an option, as in `!options.git` and `!mergedOptions.silent`; `GitStepIffTruthy` and `AfterMergeConfirm` state what it decides |
| Contracts.Display | src/commands/new-agent.ts:25 | `${value}` of an option in a template literal; `TaskListShape` and `DisplayDefaultFromEnteredName` state the titles and defaults built with it |
| JsStrings.IndexOfFromSpec | src/helpers/file-system.ts:95 | `indexOf` from a position returns the first index at or after it where the pattern occurs; none means it occurs nowhere after it |
| JsStrings.IndexOfSpec | src/helpers/file-system.ts:95 | `indexOf` returns the first occurrence, or none when the pattern occurs nowhere |
| JsStrings.RemoveFirst | src/helpers/file-system.ts:95 | `replace(pat, '')` leaves the string alone when the pattern is absent and otherwise shortens it by exactly the pattern's length |
| JsStrings.RemoveFirstOfPrefix | src/helpers/file-system.ts:95 | removing a pattern that starts the string leaves exactly the rest |
| JsStrings.RemoveFirstAt | src/helpers/file-system.ts:97 | when the first occurrence is at index i, exactly the characters at i onwards that spell the pattern are cut out |
| JsStrings.RemoveFirstOfSoleSuffix | src/helpers/file-system.ts:97 | a marker that occurs only at the end is removed, leaving the stem |
| JsStrings.TrimStartSpec | src/commands/new-agent.ts:118 | the start of the trim drops a prefix made only of whitespace and stops at the first character that is not whitespace |
| JsStrings.TrimEndSpec | src/commands/new-agent.ts:118 | the end of the trim drops a suffix made only of whitespace and stops at the last character that is not whitespace |
| JsStrings.TrimSpec | src/commands/new-agent.ts:118 | `trim` is empty exactly when the whole string is whitespace; otherwise neither end is whitespace |
| JsStrings.TrimOfTrimmed | src/commands/new-agent.ts:119 | a string whose ends are not whitespace is its own trim |
| JsStrings.TrimIdempotent | src/commands/new-agent.ts:118-119 | trimming twice equals trimming once, so a forwarded line is already trimmed |
| JsStrings.TrimNonEmptyIff | src/cli/initializer.ts:57 | `s.trim()` is non-empty exactly when `s` has a character that is not whitespace |
| JsStrings.SplitLines | src/commands/new-agent.ts:116 | `split(/\r?\n/)` always yields at least one piece |
| JsStrings.SplitLinesHaveNoLineFeed | src/commands/new-agent.ts:116 | no piece of the split contains a line feed |
| JsStrings.CrLfToLfWithoutCr | src/commands/new-agent.ts:116 | text without a carriage return has no `\r\n` pair to rewrite |
| JsStrings.SplitLinesJoin | src/commands/new-agent.ts:116 | for every chunk, joining the pieces with `\n` gives back the chunk with each `\r\n` written as `\n`: the split consumes line breaks and nothing else, and a lone `\r` stays in its piece |
| JsStrings.SplitLinesJoinWithoutCr | src/commands/new-agent.ts:116 | without carriage returns, joining the pieces with `\n` gives back the chunk itself |
| JsStrings.NatToString | src/helpers/file-system.ts:61 | the count renders as decimal digits without a leading zero |
| JsStrings.NatToStringRoundTrip | src/helpers/file-system.ts:61 | reading the rendered digits back gives the count |
| FileSystem.EncodingFromExt | src/helpers/file-system.ts:70-72 | binary exactly for paths that end in `.ttf`, UTF-8 otherwise |
| FileSystem.PathJoin | src/helpers/file-system.ts:101 | `path.join` of the destination root and a relative path; `JoinKeepsEnding` and `StaticFileCopied` state what it keeps |
| FileSystem.JoinKeepsEnding | src/helpers/file-system.ts:101 | joining a non-empty relative path onto the destination root keeps how it ends |
| FileSystem.StripRoot | src/helpers/file-system.ts:95 | `filePath.replace(sourceRootPath, '')`; `StaticFileCopied` and `TemplateFileRendered` state that a path under the root loses exactly the root |
| FileSystem.OutputRelative | src/helpers/file-system.ts:96-97 | the marker removal for a template; `TemplateFileRendered`, `MarkerRemovedFromDirectoryName` and `FirstMarkerInDirectory` state which occurrence goes |
| FileSystem.DestinationPath | src/helpers/file-system.ts:95-101 | where `render` writes a file; `StaticFileCopied`, `TemplateFileRendered` and `MarkerRemovedFromDirectoryName` state it for static files, end-marked templates and marked directories |
| FileSystem.RenderedContent | src/helpers/file-system.ts:94-98 | what `render` writes; `StaticFileCopied` and `TemplateFileRendered` state that static content is copied and template content goes through the engine |
| FileSystem.StaticFileCopied | src/helpers/file-system.ts:94-101 | a file that is not a template goes to the destination root joined with its relative path, with its content unchanged |
| FileSystem.TemplateFileRendered | src/helpers/file-system.ts:94-101 | a template whose marker occurs only at the end loses the marker, and its content goes through the engine with the config |
| FileSystem.MarkerRemovedFromDirectoryName | src/helpers/file-system.ts:95-101 | for a template directly inside a top-level directory whose name ends in the marker and has no other `.`, the directory's marker is the one removed and the file keeps its own |
| FileSystem.FirstMarkerInDirectory | src/helpers/file-system.ts:97 | the relative path after removing the first marker, for a marked directory |
| FileSystem.StaticCopyKeepsEncoding | src/helpers/file-system.ts:70-86 | a copied non-template file is read and written with the same encoding |
| FileSystem.GetFileContent | src/helpers/file-system.ts:74-80 | an existing file reads as its content; a missing one reads as empty only when allowed, and otherwise fails with Node's ENOENT message |
| FileSystem.RenderFiles | src/helpers/file-system.ts:54-59 | the render loop over the discovered list; `FailureStops`, `RenderedLength`, `RenderedInOrder`, `FailingFileIsMissing`, `RenderKeepsFiles` and `RenderedStore` state its behaviour |
| FileSystem.FailureStops | src/helpers/file-system.ts:54-55 | once a file fails, the rest of the list changes nothing |
| FileSystem.RenderedLength | src/helpers/file-system.ts:54-59 | a run renders at most the whole list, and renders all of it exactly when no file failed |
| FileSystem.RenderedInOrder | src/helpers/file-system.ts:54-57 | the paths rendered so far are the destinations of a prefix of the list, in list order |
| FileSystem.FailingFileIsMissing | src/helpers/file-system.ts:54-55 | a failed run fails at the first file missing from the store as it was then, with the ENOENT message |
| FileSystem.RenderKeepsFiles | src/helpers/file-system.ts:82-86 | rendering only adds or overwrites files and never removes one |
| FileSystem.PresentFilesAllRender | src/helpers/file-system.ts:54-59 | when every discovered file exists, nothing fails and every destination is rendered, in order |
| FileSystem.DestPaths | src/helpers/file-system.ts:55-58 | the paths the loop reports, one per discovered file and in list order, each the destination of that file |
| FileSystem.TemplateBase | src/helpers/file-system.ts:49 | `pathJoin(packageRoot, 'templates', folder)`, the root the templates are found under and the base of the "No templates found" message (`RenderTemplatesMessages`) |
| FileSystem.RenderTemplatesReport | src/helpers/file-system.ts:49-62 | the store, the callback messages and the outcome of `renderTemplates`; `RenderTemplatesMessages` and `NoCallbackSameWrites` state them |
| FileSystem.RenderTemplatesMessages | src/helpers/file-system.ts:49-62 | an empty list fails with "No templates found in …" and changes nothing; otherwise the callback hears the n destinations in order, then "n files rendered successfully" (n+1 messages) |
| FileSystem.NoCallbackSameWrites | src/helpers/file-system.ts:56-61 | without a callback the same files are written with the same outcome, and nothing is reported |
| FileSystem.RenderedStore | src/helpers/file-system.ts:54-59 | with separate destinations, each destination holds its source file's original content, rendered when it is a template; every other file is untouched |
| FileSystem.RenderOrderIndependent | src/helpers/file-system.ts:54-59 | with separate destinations, the order of discovery does not change the store that results |
| FileSystem.Disk.WriteFileContent | src/helpers/file-system.ts:82-86 | the file at the path now holds the content, overwriting, and nothing else changes |
| FileSystem.Disk.Render | src/helpers/file-system.ts:88-106 | a missing file fails with ENOENT and changes nothing; otherwise exactly the destination path is written, with the rendered content, and the path is returned |
| FileSystem.Disk.RenderTemplates | src/helpers/file-system.ts:43-63 | the new store, the messages and the outcome are exactly those of the render loop over the discovered files |
| FileSystem.FolderIsEmpty | src/helpers/file-system.ts:108-111 | empty exactly when no file lies directly in the folder |
| FileSystem.WriteMakesFolderNonEmpty | src/helpers/file-system.ts:108-111 | after a file is written directly in the folder, the folder is not empty |
| FileSystem.NestedFileKeepsFolderEmpty | src/helpers/file-system.ts:108-111 | a folder holding only a file in a subdirectory is empty, because directories are not listed |
| FileSystem.MatchesFolderChars | src/helpers/file-system.ts:114 | the character class `[a-z0-9_-]` with the `i` flag matches every character |
| FileSystem.IsValidFolderName | src/helpers/file-system.ts:113-115 | valid exactly when the name is non-empty and every character is an ASCII letter of either case, a digit, `_` or `-` |
| NewAgent.LineMessages | src/commands/new-agent.ts:118-120 | a line with a character that is not whitespace contributes exactly its trim; a blank line contributes nothing |
| NewAgent.NonBlankTrimmed | src/commands/new-agent.ts:117-121 | the lines of a chunk yield no more messages than lines, each non-empty and trimmed |
| NewAgent.NonBlankTrimmedSpec | src/commands/new-agent.ts:117-121 | every non-blank line is reported as its trim, and every message is the trim of some non-blank line |
| NewAgent.NonBlankTrimmedAppend | src/commands/new-agent.ts:117-121 | the line filter distributes over concatenation, so lines are forwarded in their original order |
| NewAgent.ForwardLines | src/commands/new-agent.ts:117-121 | the `forEach` appends exactly the non-blank lines, trimmed, in order |
| NewAgent.ChunkLines | src/commands/new-agent.ts:116-121 | the messages of one stdout chunk; `NonBlankTrimmedSpec` and `SplitLinesJoin` state that they are the trimmed non-blank lines of the stripped chunk |
| NewAgent.EventMessages | src/commands/new-agent.ts:115-129 | every message an event produces is a trimmed non-blank line or the completion notice |
| NewAgent.ExecMessages | src/commands/new-agent.ts:112 | the first message is always `Executing: '<cmd>'` |
| NewAgent.WrappedExec | src/commands/new-agent.ts:111-131 | the messages and the settlement of the promise are those the event sequence determines |
| NewAgent.MessagesAfterHeader | src/commands/new-agent.ts:115-129 | after the header, every message is a trimmed non-blank output line or "Completed successfully" |
| NewAgent.Settle | src/commands/new-agent.ts:123-129 | the promise stays pending exactly when no error or close occurred, and a rejection carries the error of one of the events |
| NewAgent.FirstSettlingEventDecides | src/commands/new-agent.ts:123-129 | the promise stays pending exactly when no error or close occurred; otherwise the first of them decides: close resolves, error rejects with that error |
| NewAgent.ExitStatusIgnored | src/commands/new-agent.ts:126-129 | exit code and signal change neither the messages nor the settlement |
| NewAgent.OutputOnly | src/commands/new-agent.ts:115-122 | output with no close or error gives the header, then the lines of all chunks, and a pending promise |
| NewAgent.OutputThenClose | src/commands/new-agent.ts:126-129 | output then a close, with any status, gives the header, the lines, then "Completed successfully", and resolves |
| NewAgent.OutputThenError | src/commands/new-agent.ts:123-125 | output then a spawn error gives the header and the lines without a completion notice, and rejects with the error |
| NewAgent.ValidatePackageName | src/commands/new-agent.ts:93-99 | passes exactly when the validator accepts the name for new packages, and otherwise fails with the npm-name message |
| NewAgent.ValidateFolder | src/commands/new-agent.ts:101-109 | rejects exactly when a file lies directly in the folder, with the "folder is not empty" message |
| NewAgent.FolderCheck | src/commands/new-agent.ts:29-36 | fails exactly when a file lies directly in the folder, always with the preflight message that replaces the validator's |
| NewAgent.FolderCheckFailsIffEntry | src/commands/new-agent.ts:29-36 | the preflight folder step fails exactly when `validateFolder` rejects |
| NewAgent.NewAgentTasks | src/commands/new-agent.ts:17-88 | only the git step can be skipped, and every top-level step after the preflight is a single action with persistent output |
| NewAgent.Skipped | src/commands/new-agent.ts:67 | `skip: () => !options.git`; `TaskListShape` states that only the git step is ever skipped, exactly when `git` is falsy |
| NewAgent.Steps | src/commands/new-agent.ts:17-88 | the actions Listr runs when none fails, skipped tasks dropped and sequential subtasks in order; `RunOrder` states them for the step list |
| NewAgent.TaskListShape | src/commands/new-agent.ts:17-88 | the six titles in order; only "Initialize Git" is ever skipped, and exactly when `git` is falsy; the preflight is the name check then the folder check, not concurrent |
| NewAgent.RunOrder | src/commands/new-agent.ts:17-88 | the actions that run, in order: name check, folder check, render `agent-new` into the project folder, `npm install --verbose`, `git init` only when `git` is truthy, vscode-dts, `npm run compile` |
| Initializer.Defaults | src/cli/initializer.ts:19-23 | the three defaults `silent: false`, `git: true`, `publisher: 'undefined_publisher'`; `MergeWithoutArguments`, `OptionOverridesDefault` and `DefaultsBeatPassed` state how they take part in the merge |
| Initializer.LastIndexOf | src/cli/initializer.ts:30-32 | the last position at which a key is registered; no later position registers it |
| Initializer.Layered | src/cli/initializer.ts:27-32 | a key is present after the spread and the positional writes exactly when it is registered, is a command option or is a default |
| Initializer.Merge | src/cli/initializer.ts:14-37 | fails exactly when the last argument is not the command, and then with the TypeError |
| Initializer.MergeEntries | src/cli/initializer.ts:27-35 | every key of the merge holds the entry the precedence order gives it: the last positional, then the option, then the default, then the passed option |
| Initializer.MergeParsedArguments | src/cli/initializer.ts:14-37 | the loop's result is exactly the merge of the arguments, including the TypeError when the last argument is no command |
| Initializer.MergeWithoutArguments | src/cli/initializer.ts:19-26 | without arguments the result is exactly the three defaults, whatever was passed |
| Initializer.OptionOverridesDefault | src/cli/initializer.ts:28 | a command option that no positional overwrites wins over its default |
| Initializer.PositionalOverrides | src/cli/initializer.ts:30-32 | positional i is written under its name, overriding options and defaults, even when undefined |
| Initializer.DefaultsBeatPassed | src/cli/initializer.ts:33-35 | passed options never change `silent`, `git` or `publisher` |
| Initializer.PassedFillsAbsentKeys | src/cli/initializer.ts:33-35 | a passed option shows through exactly where no default, option or positional put the key |
| Initializer.Validator | src/cli/initializer.ts:56-61 | an undefined value is rejected; only a non-string can raise the TypeError; an accepted value is a non-empty string |
| Initializer.ValidatorAccepts | src/cli/initializer.ts:56-61 | the validator accepts exactly the strings with a character that is not whitespace; an undefined value is rejected |
| Initializer.InputAnswer | src/cli/initializer.ts:64-70 | an input prompt returns only values its `validate` accepts: a valid typed value as typed, an empty line as the default when that is valid; anything else ends as an interrupted prompt |
| Initializer.ValidateAndPrompt | src/cli/initializer.ts:51-74 | an accepted value comes back unchanged and nothing is asked; otherwise the input prompt is shown with its default and its answer is what the prompt returns; a non-string value is a TypeError; whatever comes back passes the validator |
| Initializer.ActionRun | src/cli/initializer.ts:83-121 | the whole callback for given arguments and answers; `ConfirmUnlessSilent`, `DeclineStops`, `RanOptions` and `GitInitFollowsAnswer` state its behaviour |
| Initializer.AfterMerge | src/cli/initializer.ts:85-120 | the callback after the merge; `AfterMergeConfirm` and `AfterMergeRan` state it |
| Initializer.ResolveFrom | src/cli/initializer.ts:97-101 | the name step, then the rest; `ResolveFromResolves` and `ValidNameKept` state it |
| Initializer.AfterName | src/cli/initializer.ts:103-107 | the display-name step, then the rest; `ResolveFromResolves` and `DisplayDefaultFromEnteredName` state it |
| Initializer.AfterDisplayName | src/cli/initializer.ts:109-113 | the description step, then the git question; `ResolveFromResolves` and `DescriptionDefaultFromDisplayName` state it |
| Initializer.AskGit | src/cli/initializer.ts:115-118 | the git question, whose answer replaces `git`; `ResolveFromResolves` states it |
| Initializer.Action | src/cli/initializer.ts:83-121 | the prompts shown and how the action ends are those the arguments and answers determine |
| Initializer.ResolveOptions | src/cli/initializer.ts:97-107 | the name and display-name steps, then the rest, as specified |
| Initializer.FinishOptions | src/cli/initializer.ts:109-118 | the description step, then the git question, whose answer replaces `git` |
| Initializer.ResolveText | src/cli/initializer.ts:97-113 | one `mergedOptions.k = await validateAndPrompt(…)` step; `ResolveTextAsksWhenBlank` and `ResolveTextFrame` state when it asks, what it writes and what it leaves alone |
| Initializer.ResolveTextAsksWhenBlank | src/cli/initializer.ts:63-73 | a prompt appears exactly when the current value fails the validator; an accepted value is kept and the options are unchanged; what the input prompt returns is written under the key |
| Initializer.ResolveTextFrame | src/cli/initializer.ts:97-113 | resolving one option adds at most its prompt, leaves a value the validator accepts under its key and changes no other key |
| Initializer.ResolveFromResolves | src/cli/initializer.ts:97-118 | after the confirmation no prompt is the confirmation and the action is never declined; a run has asked the git question last, carries its answer as `git`, holds values the validator accepts for name, displayName and description and keeps every other merged key |
| Initializer.AfterMergeConfirm | src/cli/initializer.ts:85-93 | the confirmation comes first exactly when not silent; the action is declined exactly on a "no" to it, and then nothing else was asked |
| Initializer.AfterMergeRan | src/cli/initializer.ts:84-120 | a run handed to `new agent` keeps every merged key except the three text options and `git` |
| Initializer.ConfirmUnlessSilent | src/cli/initializer.ts:85-93 | the action shows the continue prompt first exactly when the merged `silent` is falsy |
| Initializer.DeclineStops | src/cli/initializer.ts:85-93 | the action is declined exactly on a "no" to the continue prompt, with only that prompt shown |
| Initializer.RanOptions | src/cli/initializer.ts:84-120 | the options handed to `new agent` carry the git answer whatever `--no-git` said, hold values the validator accepts for the three text options, and otherwise equal the merge of the command line alone, without `init`'s options |
| Initializer.GitStepIffTruthy | src/commands/new-agent.ts:67 | `new agent` runs `git init` exactly when `git` is truthy |
| Initializer.GitInitFollowsAnswer | src/cli/initializer.ts:115-120 | the `git init` step runs exactly when the git question was answered yes |
| Initializer.ValidNameKept | src/cli/initializer.ts:97-101 | a valid name is not asked for and stays as it is |
| Initializer.DisplayDefaultFromEnteredName | src/cli/initializer.ts:97-107 | a blank name is asked with the folder name as default, and the display-name prompt then defaults to "Copilot agent: @" followed by the name the prompt returned |
| Initializer.DescriptionDefaultFromDisplayName | src/cli/initializer.ts:109-113 | a blank description is asked with a default built from the resolved display name |

## Left out

- `packageJsonPath`, with its upward walk and module-level cache: a file-system search. The template root is a parameter, and `Disk.RenderTemplates` receives the package root.
- Template discovery (`getTemplates`, `getFiles`, glob): a foreign library; the discovered list is an input. Its `**/*.*` pattern lists only names that contain a dot.
- `deleteSuffix`: declared and never used.
- mustache, strip-ansi and validate-npm-package-name: foreign libraries, modelled as function parameters.
- FileSystem.RenderedContent: the engine is a total function, so it is assumed to accept every template. mustache throws on a template it cannot parse, such as an unclosed tag or section. That stops the write and the loop as a missing file does, and it is not modelled. `PresentFilesAllRender`, `RenderTemplatesMessages`, `RenderedStore` and `Disk.Render` hold only for templates the engine can parse.
- FileSystem.PathJoin: modelled for POSIX paths, and weaker than Node's normalisation. It does not resolve `.` and `..`. It keeps repeated separators inside an argument (`/a//b` joined with `c` gives `/a//b/c`, where Node gives `/a/b/c`). It returns the relative part unnormalised when the root is empty. It gives `""` rather than `.` when both parts are empty. Windows separators are not modelled.
- File contents are strings; the binary/UTF-8 encoding is computed but bytes are not modelled.
- FileSystem.StaticCopyKeepsEncoding: states only that a copied file is read and written with the same encoding. A binary file other than `.ttf` is decoded as UTF-8, so it is not copied byte for byte.
- `writeFileContent`'s `mkdirSync`: directories are implicit in the map's paths. Write errors are not modelled.
- `child_process.exec` and its timing: the child is the sequence of events it emits. The handlers keep running after the promise settles, as the callbacks are never removed.
- Listr: the running of tasks, aborting on the first failure and displaying `task.output` are library behaviour. The model states which actions run, in which order, when none fails.
- commander parsing: the parsed arguments are an input.
- Initializer.InputAnswer: inquirer keeps an input prompt open and asks again after a value its `validate` refuses. The model gives each prompt one answer, the last line the user submits. A refused value can then only be followed by an interrupt, so it ends as `PromptInterrupted`. The answer's text is taken as entered.
- chalk colouring of the continue message; `console.clear` and the success and failure banners: display only.
- `getCurrentTime`: clock-dependent and never called.
- The text of JavaScript TypeErrors: they are the `Failure` constructors `NotACommand` and `NotAString`. An aborted prompt is `PromptInterrupted`.
- JsStrings.Trim and the string functions count characters as code points; JavaScript counts UTF-16 code units. This makes no difference for the whitespace `trim` removes.
- The generated `dist/` bundle, the launcher, the type declarations and the tests are not part of this model.
