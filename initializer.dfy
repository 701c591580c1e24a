/**
 * The command-line front end of src/cli/initializer.ts: the merge of the
 * parsed command line into the option bag, and the action that asks for
 * whatever is missing before handing the options to the `new agent` command.
 *
 * commander's parsed arguments are given as values. The prompts are answered
 * from a sequence: the j-th prompt asked receives the j-th answer, and an
 * answer that is missing or of the wrong kind stands for a prompt that was
 * aborted.
 */
module Initializer {
  import opened Wrappers
  import opened JsStrings
  import opened Contracts
  import NewAgent

  const Summary: string :=
    "This package will scaffold a new GitHub Copilot chat agent typescript extension for VS Code usiing TypeScript."

  /** The errors the action can end with. */
  datatype Failure =
    | NotACommand        // the last argument has no `opts()`: a TypeError
    | NotAString         // `validator` reached `trim` on a value that is not a string: a TypeError
    | PromptInterrupted  // a prompt was aborted

  // ---------------------------------------------------------------------------
  // mergeParsedArguments

  /** One element of the `args` commander passes to the action. */
  datatype Arg =
    | Plain(value: Option<Value>)
    | Command(opts: Options, registered: seq<string>)  // the Command object: `opts()` and the registered names

  /** `args[i]`: `undefined` past the end, an object for the command itself. */
  function ArgAt(args: seq<Arg>, i: nat): Option<Value> {
    if i >= |args| then None
    else match args[i]
      case Plain(v) => v
      case Command(_, _) => Some(Object)
  }

  /** The options every merge starts from. */
  function Defaults(): Options {
    map["silent" := Some(Bool(false)), "git" := Some(Bool(true)), "publisher" := Some(Str("undefined_publisher"))]
  }

  /** The last position at which `k` is registered. */
  function LastIndexOf(names: seq<string>, k: string): (r: Option<nat>)
    ensures r.None? <==> k !in names
    ensures r.Some? ==> r.value < |names| && names[r.value] == k
    ensures r.Some? ==> forall j :: r.value < j < |names| ==> names[j] != k
  {
    if names == [] then None
    else if names[|names| - 1] == k then Some(|names| - 1)
    else LastIndexOf(names[..|names| - 1], k)
  }

  /**
   * The entry for `k` once the command's options are spread over the
   * defaults and the positional arguments are written: the last positional
   * registered under `k` wins, even when it is undefined; then the option;
   * then the default.
   */
  function Layered(args: seq<Arg>, opts: Options, names: seq<string>, k: string): (e: Option<Option<Value>>)
    ensures e.Some? <==> k in names || k in opts || k in Defaults()
  {
    match LastIndexOf(names, k)
    case Some(i) => Some(ArgAt(args, i))
    case None => if k in opts then Some(opts[k]) else Entry(Defaults(), k)
  }

  /** The entry for `k` after `passedOptions` are spread underneath: they only fill absent keys. */
  function MergedEntry(args: seq<Arg>, opts: Options, names: seq<string>, passed: Option<Options>, k: string)
    : Option<Option<Value>>
  {
    if Layered(args, opts, names, k).Some? then Layered(args, opts, names, k)
    else if passed.Some? then Entry(passed.value, k)
    else None
  }

  function MergedKeys(opts: Options, names: seq<string>, passed: Option<Options>): set<string> {
    Defaults().Keys + opts.Keys + (set n | n in names) + (if passed.Some? then passed.value.Keys else {})
  }

  /** The bag that holds every merged key with its entry. */
  function MergedBag(args: seq<Arg>, opts: Options, names: seq<string>, passed: Option<Options>): Options {
    map k | k in MergedKeys(opts, names, passed) :: MergedEntry(args, opts, names, passed, k).value
  }

  /** The option bag `mergeParsedArguments` returns, or the error it throws. */
  function Merge(args: Option<seq<Arg>>, passed: Option<Options>): (r: Result<Options, Failure>)
    ensures r.Err? <==> args.Some? && args.value != [] && args.value[|args.value| - 1].Plain?
    ensures r.Err? ==> r.error == NotACommand
  {
    if args.None? || |args.value| == 0 then Ok(Defaults())
    else match args.value[|args.value| - 1]
      case Plain(_) => Err(NotACommand)
      case Command(opts, names) => Ok(MergedBag(args.value, opts, names, passed))
  }

  /** A merge holds, for every key, exactly the entry the precedence order gives it. */
  lemma MergeEntries(args: seq<Arg>, opts: Options, names: seq<string>, passed: Option<Options>)
    requires args != [] && args[|args| - 1] == Command(opts, names)
    ensures Merge(Some(args), passed).Ok?
    ensures forall k :: Entry(Merge(Some(args), passed).value, k) == MergedEntry(args, opts, names, passed, k)
  {
    assert Merge(Some(args), passed) == Ok(MergedBag(args, opts, names, passed));
  }

  /** The defaults with the options spread over them, before any positional is written. */
  lemma LayeredStart(args: seq<Arg>, opts: Options)
    ensures forall k :: Entry(Defaults() + opts, k) == Layered(args, opts, [], k)
  {
  }

  /** Writing the next positional argument under its registered name. */
  lemma LayeredStep(args: seq<Arg>, opts: Options, names: seq<string>, i: nat, result: Options, updated: Options)
    requires i < |names| && updated == result[names[i] := ArgAt(args, i)]
    requires forall k :: Entry(result, k) == Layered(args, opts, names[..i], k)
    ensures forall k :: Entry(updated, k) == Layered(args, opts, names[..i + 1], k)
  {
    assert names[..i + 1][..i] == names[..i];
    forall k ensures Entry(updated, k) == Layered(args, opts, names[..i + 1], k) {
      if k != names[i] {
        assert Layered(args, opts, names[..i + 1], k) == Layered(args, opts, names[..i], k);
      }
    }
  }

  /** A merged key is one that some layer supplies. */
  lemma MergedEntryDefined(args: seq<Arg>, opts: Options, names: seq<string>, passed: Option<Options>, k: string)
    ensures MergedEntry(args, opts, names, passed, k).Some? <==> k in MergedKeys(opts, names, passed)
  {
  }

  /** Spreading the passed options underneath gives the merged bag. */
  lemma MergedBagOfLayers(args: seq<Arg>, opts: Options, names: seq<string>, passed: Option<Options>, result: Options)
    requires forall k :: Entry(result, k) == Layered(args, opts, names, k)
    ensures MergedBag(args, opts, names, passed) == if passed.Some? then passed.value + result else result
  {
    var merged := if passed.Some? then passed.value + result else result;
    var expected := MergedBag(args, opts, names, passed);
    forall k ensures (k in merged <==> k in expected) && (k in merged ==> merged[k] == expected[k]) {
      MergedEntryDefined(args, opts, names, passed, k);
      assert Entry(merged, k) == MergedEntry(args, opts, names, passed, k);
    }
  }

  lemma MergeFinish(args: seq<Arg>, opts: Options, names: seq<string>, passed: Option<Options>, result: Options)
    requires args != [] && args[|args| - 1] == Command(opts, names)
    requires forall k :: Entry(result, k) == Layered(args, opts, names, k)
    ensures Merge(Some(args), passed) == Ok(if passed.Some? then passed.value + result else result)
  {
    MergedBagOfLayers(args, opts, names, passed, result);
  }

  /** `mergeParsedArguments`. */
  method MergeParsedArguments(args: Option<seq<Arg>>, passed: Option<Options>) returns (r: Result<Options, Failure>)
    ensures r == Merge(args, passed)
  {
    var result := Defaults();
    if args.None? || |args.value| == 0 {
      return Ok(result);
    }
    var list := args.value;
    var cmd := list[|list| - 1];
    if !cmd.Command? {
      return Err(NotACommand);
    }
    result := result + cmd.opts;
    LayeredStart(list, cmd.opts);
    var i := 0;
    while i < |cmd.registered|
      invariant 0 <= i <= |cmd.registered|
      invariant forall k :: Entry(result, k) == Layered(list, cmd.opts, cmd.registered[..i], k)
    {
      LayeredStep(list, cmd.opts, cmd.registered, i, result, result[cmd.registered[i] := ArgAt(list, i)]);
      result := result[cmd.registered[i] := ArgAt(list, i)];
      i := i + 1;
    }
    assert cmd.registered[..i] == cmd.registered;
    MergeFinish(list, cmd.opts, cmd.registered, passed, result);
    if passed.Some? {
      result := passed.value + result;
    }
    return Ok(result);
  }

  /** Without arguments the defaults come back as they are, whatever was passed. */
  lemma MergeWithoutArguments(args: Option<seq<Arg>>, passed: Option<Options>)
    requires args.None? || args.value == []
    ensures Merge(args, passed) == Ok(Defaults())
    ensures Merge(args, passed).value == map["silent" := Some(Bool(false)), "git" := Some(Bool(true)),
                                             "publisher" := Some(Str("undefined_publisher"))]
  {
  }

  /** A command option overrides the default of the same name. */
  lemma OptionOverridesDefault(args: seq<Arg>, opts: Options, names: seq<string>, passed: Option<Options>, k: string)
    requires args != [] && args[|args| - 1] == Command(opts, names)
    requires k in opts && k !in names
    ensures Entry(Merge(Some(args), passed).value, k) == Some(opts[k])
  {
    MergeEntries(args, opts, names, passed);
  }

  /** A positional argument is written under its name, overriding options and defaults, even when undefined. */
  lemma PositionalOverrides(args: seq<Arg>, opts: Options, names: seq<string>, passed: Option<Options>, i: nat)
    requires args != [] && args[|args| - 1] == Command(opts, names)
    requires i < |names| && forall j :: i < j < |names| ==> names[j] != names[i]
    ensures Entry(Merge(Some(args), passed).value, names[i]) == Some(ArgAt(args, i))
  {
    MergeEntries(args, opts, names, passed);
    var r := LastIndexOf(names, names[i]);
    assert r.Some?;
    assert r.value == i;
  }

  /** Passed options never change `silent`, `git` or `publisher`: the defaults are always present above them. */
  lemma DefaultsBeatPassed(args: seq<Arg>, passed: Options, k: string)
    requires args != [] && args[|args| - 1].Command?
    requires k in Defaults()
    ensures Entry(Merge(Some(args), Some(passed)).value, k) == Entry(Merge(Some(args), None).value, k)
  {
    var cmd := args[|args| - 1];
    MergeEntries(args, cmd.opts, cmd.registered, Some(passed));
    MergeEntries(args, cmd.opts, cmd.registered, None);
  }

  /** A passed option shows through only where nothing else put the key. */
  lemma PassedFillsAbsentKeys(args: seq<Arg>, opts: Options, names: seq<string>, passed: Options, k: string)
    requires args != [] && args[|args| - 1] == Command(opts, names)
    ensures Entry(Merge(Some(args), Some(passed)).value, k)
            == if k in Defaults() || k in opts || k in names then Entry(Merge(Some(args), None).value, k)
               else Entry(passed, k)
  {
    MergeEntries(args, opts, names, Some(passed));
    MergeEntries(args, opts, names, None);
  }

  // ---------------------------------------------------------------------------
  // validateAndPrompt

  /** `validator`: a value counts once it is defined and its trim is not empty. */
  function Validator(input: Option<Value>): (r: Result<bool, Failure>)
    ensures input.None? ==> r == Ok(false)
    ensures r.Err? ==> input.Some? && !input.value.Str? && r.error == NotAString
    ensures r == Ok(true) ==> input.Some? && input.value.Str? && input.value.text != ""
  {
    match input
    case None => Ok(false)
    case Some(Str(s)) => Ok(!(s == "" || |Trim(s)| == 0))
    case Some(Bool(b)) => if !b then Ok(false) else Err(NotAString)
    case Some(Object) => Err(NotAString)
  }

  /** The validator accepts exactly the strings with a character that is not whitespace. */
  lemma ValidatorAccepts(input: Option<Value>)
    ensures Validator(input) == Ok(true) <==>
      input.Some? && input.value.Str? && exists i :: 0 <= i < |input.value.text| && !IsJsWhitespace(input.value.text[i])
    ensures input.None? ==> Validator(input) == Ok(false)
  {
    if input.Some? && input.value.Str? {
      TrimNonEmptyIff(input.value.text);
    }
  }

  /** What the user can do with a prompt. */
  datatype Answer = Confirmed(yes: bool) | Typed(text: string) | Aborted

  /** The questions the action can ask. */
  datatype Question = Continue | AgentName | DisplayName | Description | InitGit

  /** A confirm prompt with its preset answer, or an input prompt with its default text. */
  datatype Prompt = ConfirmPrompt(question: Question, preset: bool) | InputPrompt(question: Question, defaultText: string)

  /** The answer to the prompt at position `j`. */
  function AnswerAt(answers: seq<Answer>, j: nat): Answer {
    if j < |answers| then answers[j] else Aborted
  }

  /** What one `validateAndPrompt` call asks and resolves to. */
  datatype Prompted = Prompted(asked: seq<Prompt>, value: Result<string, Failure>)

  /**
   * What an input prompt with `validate` returns for an answer: an empty line
   * stands for the default, and the value is returned only when it passes the
   * validator. A value that fails keeps the prompt open, which the user can
   * only leave by interrupting it.
   */
  function InputAnswer(defaultText: string, answer: Answer): (r: Result<string, Failure>)
    ensures r.Ok? ==> Validator(Some(Str(r.value))) == Ok(true)
    ensures r.Ok? ==> answer.Typed? && r.value == (if answer.text == "" then defaultText else answer.text)
    ensures answer.Typed? && Validator(Some(Str(answer.text))) == Ok(true) ==> r == Ok(answer.text)
    ensures answer == Typed("") && Validator(Some(Str(defaultText))) == Ok(true) ==> r == Ok(defaultText)
    ensures r.Err? ==> r.error == PromptInterrupted
  {
    match answer
    case Typed(text) =>
      var value := if text == "" then defaultText else text;
      if Validator(Some(Str(value))) == Ok(true) then Ok(value) else Err(PromptInterrupted)
    case _ => Err(PromptInterrupted)
  }

  /**
   * `validateAndPrompt`: an accepted current value is returned as it is and
   * nothing is asked; otherwise the input prompt is shown with its default and
   * its answer returned. Whatever it returns passes the validator.
   */
  function ValidateAndPrompt(question: Question, current: Option<Value>, defaultText: string, answer: Answer): (r: Prompted)
    ensures Validator(current) == Ok(true) ==> r == Prompted([], Ok(current.value.text))
    ensures Validator(current) == Ok(false) ==> r == Prompted([InputPrompt(question, defaultText)], InputAnswer(defaultText, answer))
    ensures Validator(current).Err? ==> r == Prompted([], Err(NotAString))
    ensures r.value.Ok? ==> Validator(Some(Str(r.value.value))) == Ok(true)
  {
    match Validator(current)
    case Err(f) => Prompted([], Err(f))
    case Ok(valid) =>
      if !valid then
        Prompted([InputPrompt(question, defaultText)], InputAnswer(defaultText, answer))
      else
        Prompted([], Ok(current.value.text))
  }

  // ---------------------------------------------------------------------------
  // The action

  /** The text of each question. */
  function QuestionText(q: Question): string {
    match q
    case Continue => Summary + "\nDo you want to continue?"
    case AgentName => "What would you like to name your new Copilot chat agent? Don't use spaces or special characters."
    case DisplayName => "Enter a \"friendly\" name for your agent."
    case Description => "Enter a brief description of what it does for your users."
    case InitGit => "Initialize a local git repository?"
  }

  /** The message a prompt shows: input prompts put the marker `==>` on a line of its own. */
  function PromptMessage(p: Prompt): string {
    match p
    case ConfirmPrompt(q, _) => QuestionText(q)
    case InputPrompt(q, _) => QuestionText(q) + "\n  ==>"
  }

  const ContinuePrompt: Prompt := ConfirmPrompt(Continue, true)
  const GitPrompt: Prompt := ConfirmPrompt(InitGit, true)

  function DisplayNameDefault(name: string): string {
    "Copilot agent: @" + name
  }

  function DescriptionDefault(displayName: string): string {
    displayName + " - A GitHub Copilot chat agent for VS Code"
  }

  function NamePrompt(cwdName: string): Prompt {
    InputPrompt(AgentName, cwdName)
  }

  function DisplayNamePrompt(name: string): Prompt {
    InputPrompt(DisplayName, DisplayNameDefault(name))
  }

  function DescriptionPrompt(displayName: string): Prompt {
    InputPrompt(Description, DescriptionDefault(displayName))
  }

  /** How the action ends: declined at the first question, handed to `new agent`, or with an error. */
  datatype ActionOutcome = Declined | Ran(options: Options) | Failed(failure: Failure)

  /** The prompts shown and the outcome, after the options are merged and the user has agreed to go on. */
  datatype Resolution = Resolution(asked: seq<Prompt>, outcome: ActionOutcome)

  /** Resolves one text option through `validateAndPrompt` and writes it back. */
  function ResolveText(options: Options, asked: seq<Prompt>, key: string, question: Question, defaultText: string,
                       answers: seq<Answer>): Result<(Options, seq<Prompt>), Resolution>
  {
    var p := ValidateAndPrompt(question, Get(options, key), defaultText, AnswerAt(answers, |asked|));
    match p.value
    case Err(f) => Err(Resolution(asked + p.asked, Failed(f)))
    case Ok(text) => Ok((options[key := Some(Str(text))], asked + p.asked))
  }

  /** From the name prompt on: name, display name, description, then the git question. */
  function ResolveFrom(options: Options, asked: seq<Prompt>, cwdName: string, answers: seq<Answer>): Resolution {
    match ResolveText(options, asked, "name", AgentName, cwdName, answers)
    case Err(stop) => stop
    case Ok((o, a)) => AfterName(o, a, answers)
  }

  /** The display name defaults to one derived from the resolved name. */
  function AfterName(options: Options, asked: seq<Prompt>, answers: seq<Answer>): Resolution {
    match ResolveText(options, asked, "displayName", DisplayName, DisplayNameDefault(Display(Get(options, "name"))), answers)
    case Err(stop) => stop
    case Ok((o, a)) => AfterDisplayName(o, a, answers)
  }

  /** The description defaults to one derived from the resolved display name. */
  function AfterDisplayName(options: Options, asked: seq<Prompt>, answers: seq<Answer>): Resolution {
    match ResolveText(options, asked, "description", Description, DescriptionDefault(Display(Get(options, "displayName"))), answers)
    case Err(stop) => stop
    case Ok((o, a)) => AskGit(o, a, answers)
  }

  /** The git question is always asked, and its answer replaces `git`. */
  function AskGit(options: Options, asked: seq<Prompt>, answers: seq<Answer>): Resolution {
    match AnswerAt(answers, |asked|)
    case Confirmed(yes) => Resolution(asked + [GitPrompt], Ran(options["git" := Some(Bool(yes))]))
    case _ => Resolution(asked + [GitPrompt], Failed(PromptInterrupted))
  }

  /** The whole `.action` callback for the given arguments and answers. */
  function ActionRun(args: seq<Arg>, cwdName: string, answers: seq<Answer>): Resolution {
    match Merge(Some(args), None)
    case Err(f) => Resolution([], Failed(f))
    case Ok(merged) => AfterMerge(merged, cwdName, answers)
  }

  /** The confirmation, asked only when not silent; a "no" ends the action. */
  function AfterMerge(merged: Options, cwdName: string, answers: seq<Answer>): Resolution {
    if Truthy(Get(merged, "silent")) then ResolveFrom(merged, [], cwdName, answers)
    else match AnswerAt(answers, 0)
      case Confirmed(yes) =>
        if yes then ResolveFrom(merged, [ContinuePrompt], cwdName, answers)
        else Resolution([ContinuePrompt], Declined)
      case _ => Resolution([ContinuePrompt], Failed(PromptInterrupted))
  }

  /**
   * The `.action` callback: merges the arguments (without `init`'s options),
   * asks to continue unless silent, resolves the three text options and
   * always asks whether to initialise git. `cwdName` is `path.basename(process.cwd())`.
   */
  method Action(args: seq<Arg>, cwdName: string, answers: seq<Answer>) returns (asked: seq<Prompt>, outcome: ActionOutcome)
    ensures Resolution(asked, outcome) == ActionRun(args, cwdName, answers)
  {
    var merged := MergeParsedArguments(Some(args), None);
    if merged.Err? {
      return [], Failed(merged.error);
    }
    var mergedOptions := merged.value;
    asked := [];
    if !Truthy(Get(mergedOptions, "silent")) {
      asked := [ContinuePrompt];
      var reply := AnswerAt(answers, 0);
      if !reply.Confirmed? {
        return asked, Failed(PromptInterrupted);
      }
      if !reply.yes {
        return asked, Declined;
      }
    }
    asked, outcome := ResolveOptions(mergedOptions, asked, cwdName, answers);
  }

  /** The name and display name prompts, then the rest. */
  method ResolveOptions(options: Options, before: seq<Prompt>, cwdName: string, answers: seq<Answer>)
    returns (asked: seq<Prompt>, outcome: ActionOutcome)
    ensures Resolution(asked, outcome) == ResolveFrom(options, before, cwdName, answers)
  {
    var resolved := options;
    var p := ValidateAndPrompt(AgentName, Get(resolved, "name"), cwdName, AnswerAt(answers, |before|));
    asked := before + p.asked;
    if p.value.Err? {
      return asked, Failed(p.value.error);
    }
    resolved := resolved["name" := Some(Str(p.value.value))];
    assert ResolveFrom(options, before, cwdName, answers) == AfterName(resolved, asked, answers);

    p := ValidateAndPrompt(DisplayName, Get(resolved, "displayName"), DisplayNameDefault(Display(Get(resolved, "name"))),
                           AnswerAt(answers, |asked|));
    var afterName := asked;
    asked := asked + p.asked;
    if p.value.Err? {
      return asked, Failed(p.value.error);
    }
    var named := resolved;
    resolved := resolved["displayName" := Some(Str(p.value.value))];
    assert AfterName(named, afterName, answers) == AfterDisplayName(resolved, asked, answers);
    asked, outcome := FinishOptions(resolved, asked, answers);
  }

  /** The description prompt, then the git question, whose answer replaces `git`. */
  method FinishOptions(options: Options, before: seq<Prompt>, answers: seq<Answer>)
    returns (asked: seq<Prompt>, outcome: ActionOutcome)
    ensures Resolution(asked, outcome) == AfterDisplayName(options, before, answers)
  {
    var resolved := options;
    var p := ValidateAndPrompt(Description, Get(resolved, "description"),
                               DescriptionDefault(Display(Get(resolved, "displayName"))), AnswerAt(answers, |before|));
    asked := before + p.asked;
    if p.value.Err? {
      return asked, Failed(p.value.error);
    }
    resolved := resolved["description" := Some(Str(p.value.value))];
    assert AfterDisplayName(options, before, answers) == AskGit(resolved, asked, answers);

    var git := AnswerAt(answers, |asked|);
    asked := asked + [GitPrompt];
    if !git.Confirmed? {
      return asked, Failed(PromptInterrupted);
    }
    resolved := resolved["git" := Some(Bool(git.yes))];
    outcome := Ran(resolved);
  }

  // ---------------------------------------------------------------------------
  // What the action promises

  /** The options the prompts resolve. */
  const TextKeys: set<string> := {"name", "displayName", "description"}

  /** A question is asked exactly when the current value fails the validator; an accepted value stays as it is. */
  lemma ResolveTextAsksWhenBlank(options: Options, asked: seq<Prompt>, key: string, question: Question, defaultText: string,
                                 answers: seq<Answer>)
    ensures var r := ResolveText(options, asked, key, question, defaultText, answers);
      && (Validator(Get(options, key)) == Ok(true) ==> r == Ok((options, asked)))
      && (Validator(Get(options, key)) == Ok(false) ==>
            match InputAnswer(defaultText, AnswerAt(answers, |asked|))
            case Ok(text) => r == Ok((options[key := Some(Str(text))], asked + [InputPrompt(question, defaultText)]))
            case Err(f) => r == Err(Resolution(asked + [InputPrompt(question, defaultText)], Failed(f))))
      && (Validator(Get(options, key)).Err? ==> r == Err(Resolution(asked, Failed(NotAString))))
  {
    var p := ValidateAndPrompt(question, Get(options, key), defaultText, AnswerAt(answers, |asked|));
    if Validator(Get(options, key)) == Ok(true) {
      var s := Get(options, key).value.text;
      assert options[key := Some(Str(s))] == options;
      assert asked + p.asked == asked;
    } else if Validator(Get(options, key)).Err? {
      assert asked + p.asked == asked;
    }
  }

  /**
   * One resolved option: the prompts grow by at most this one, the key now
   * holds a value the validator accepts and no other key changes.
   */
  lemma ResolveTextFrame(options: Options, asked: seq<Prompt>, key: string, question: Question, defaultText: string,
                         answers: seq<Answer>)
    ensures match ResolveText(options, asked, key, question, defaultText, answers)
      case Ok((o, a)) =>
        && (a == asked || a == asked + [InputPrompt(question, defaultText)])
        && Validator(Get(o, key)) == Ok(true)
        && (forall k :: k != key ==> Entry(o, k) == Entry(options, k))
      case Err(stop) =>
        && stop.outcome.Failed?
        && (stop.asked == asked || stop.asked == asked + [InputPrompt(question, defaultText)])
  {
  }

  /**
   * A run handed to `new agent` has answered the git question last, carries
   * that answer as `git`, holds a value the validator accepts in every key of
   * `resolved` and leaves every other key of `options` as it was.
   */
  ghost predicate RanWith(options: Options, answers: seq<Answer>, r: Resolution, resolved: set<string>) {
    r.outcome.Ran? ==>
      && r.asked != [] && r.asked[|r.asked| - 1] == GitPrompt
      && AnswerAt(answers, |r.asked| - 1).Confirmed?
      && Get(r.outcome.options, "git") == Some(Bool(AnswerAt(answers, |r.asked| - 1).yes))
      && (forall k :: k in resolved ==> Validator(Get(r.outcome.options, k)) == Ok(true))
      && (forall k :: k !in resolved && k != "git" ==> Entry(r.outcome.options, k) == Entry(options, k))
  }

  /**
   * What a stage of the resolution guarantees, given the options and prompts
   * before it: the prompts already shown stay first and no later prompt is
   * the confirmation; the stage never ends in "declined"; a run asks at least
   * the git question and satisfies `RanWith`.
   */
  ghost predicate Resolves(options: Options, asked: seq<Prompt>, answers: seq<Answer>, r: Resolution, resolved: set<string>) {
    && |asked| <= |r.asked| && r.asked[..|asked|] == asked
    && (forall i :: |asked| <= i < |r.asked| ==> r.asked[i].question != Continue)
    && !r.outcome.Declined?
    && (r.outcome.Ran? ==> |r.asked| > |asked|)
    && RanWith(options, answers, r, resolved)
  }

  /** Resolving one more text option in front of a stage keeps the guarantee and adds the key to `resolved`. */
  lemma ResolvesCompose(options: Options, asked: seq<Prompt>, key: string, question: Question, defaultText: string,
                        answers: seq<Answer>, o: Options, a: seq<Prompt>, r: Resolution, resolved: set<string>)
    requires question != Continue && key != "git"
    requires ResolveText(options, asked, key, question, defaultText, answers) == Ok((o, a))
    requires Resolves(o, a, answers, r, resolved)
    ensures Resolves(options, asked, answers, r, resolved + {key})
  {
    ResolveTextFrame(options, asked, key, question, defaultText, answers);
    assert a[..|asked|] == asked;
    assert r.asked[..|asked|] == r.asked[..|a|][..|asked|];
    forall i | |asked| <= i < |r.asked|
      ensures r.asked[i].question != Continue
    {
      if i < |a| {
        assert r.asked[i] == a[i] == InputPrompt(question, defaultText);
      }
    }
    if r.outcome.Ran? {
      forall k | k in resolved + {key}
        ensures Validator(Get(r.outcome.options, k)) == Ok(true)
      {
        if k !in resolved {
          assert Entry(r.outcome.options, k) == Entry(o, k);
        }
      }
    }
  }

  /** A stage that stops at a text option keeps the guarantee trivially. */
  lemma ResolvesStop(options: Options, asked: seq<Prompt>, key: string, question: Question, defaultText: string,
                     answers: seq<Answer>, stop: Resolution, resolved: set<string>)
    requires question != Continue
    requires ResolveText(options, asked, key, question, defaultText, answers) == Err(stop)
    ensures Resolves(options, asked, answers, stop, resolved)
  {
    ResolveTextFrame(options, asked, key, question, defaultText, answers);
    if stop.asked != asked {
      assert stop.asked[|asked|] == InputPrompt(question, defaultText);
    }
  }

  lemma AskGitResolves(options: Options, asked: seq<Prompt>, answers: seq<Answer>)
    ensures Resolves(options, asked, answers, AskGit(options, asked, answers), {})
  {
    var r := AskGit(options, asked, answers);
    assert r.asked[..|asked|] == asked;
  }

  lemma AfterDisplayNameResolves(options: Options, asked: seq<Prompt>, answers: seq<Answer>)
    ensures Resolves(options, asked, answers, AfterDisplayName(options, asked, answers), {"description"})
  {
    var d := DescriptionDefault(Display(Get(options, "displayName")));
    match ResolveText(options, asked, "description", Description, d, answers)
    case Err(stop) =>
      ResolvesStop(options, asked, "description", Description, d, answers, stop, {"description"});
    case Ok((o, a)) =>
      AskGitResolves(o, a, answers);
      ResolvesCompose(options, asked, "description", Description, d, answers, o, a, AskGit(o, a, answers), {});
  }

  lemma AfterNameResolves(options: Options, asked: seq<Prompt>, answers: seq<Answer>)
    ensures Resolves(options, asked, answers, AfterName(options, asked, answers), {"displayName", "description"})
  {
    var d := DisplayNameDefault(Display(Get(options, "name")));
    match ResolveText(options, asked, "displayName", DisplayName, d, answers)
    case Err(stop) =>
      ResolvesStop(options, asked, "displayName", DisplayName, d, answers, stop, {"displayName", "description"});
    case Ok((o, a)) =>
      AfterDisplayNameResolves(o, a, answers);
      ResolvesCompose(options, asked, "displayName", DisplayName, d, answers, o, a, AfterDisplayName(o, a, answers), {"description"});
      assert {"description"} + {"displayName"} == {"displayName", "description"};
  }

  /** Everything after the confirmation satisfies the guarantee, with all three text options resolved. */
  lemma ResolveFromResolves(options: Options, asked: seq<Prompt>, cwdName: string, answers: seq<Answer>)
    ensures Resolves(options, asked, answers, ResolveFrom(options, asked, cwdName, answers), TextKeys)
  {
    match ResolveText(options, asked, "name", AgentName, cwdName, answers)
    case Err(stop) =>
      ResolvesStop(options, asked, "name", AgentName, cwdName, answers, stop, TextKeys);
    case Ok((o, a)) =>
      AfterNameResolves(o, a, answers);
      ResolvesCompose(options, asked, "name", AgentName, cwdName, answers, o, a, AfterName(o, a, answers), {"displayName", "description"});
      assert {"displayName", "description"} + {"name"} == TextKeys;
  }

  /** The confirmation and the "no" that stops the action, for merged options. */
  lemma AfterMergeConfirm(merged: Options, cwdName: string, answers: seq<Answer>)
    ensures var r := AfterMerge(merged, cwdName, answers);
      && ((r.asked != [] && r.asked[0] == ContinuePrompt) <==> !Truthy(Get(merged, "silent")))
      && (r.outcome.Declined? <==> !Truthy(Get(merged, "silent")) && AnswerAt(answers, 0) == Confirmed(false))
      && (r.outcome.Declined? ==> r.asked == [ContinuePrompt])
  {
    if Truthy(Get(merged, "silent")) {
      ResolveFromResolves(merged, [], cwdName, answers);
    } else if AnswerAt(answers, 0) == Confirmed(true) {
      ResolveFromResolves(merged, [ContinuePrompt], cwdName, answers);
    }
  }

  /** The options of a run, for merged options. */
  lemma AfterMergeRan(merged: Options, cwdName: string, answers: seq<Answer>)
    ensures var r := AfterMerge(merged, cwdName, answers);
      RanWith(merged, answers, r, TextKeys)
  {
    if Truthy(Get(merged, "silent")) {
      ResolveFromResolves(merged, [], cwdName, answers);
    } else if AnswerAt(answers, 0) == Confirmed(true) {
      ResolveFromResolves(merged, [ContinuePrompt], cwdName, answers);
    }
  }

  /** The confirmation is the first prompt exactly when the merged options are not silent. */
  lemma ConfirmUnlessSilent(args: seq<Arg>, cwdName: string, answers: seq<Answer>, merged: Options)
    requires Merge(Some(args), None) == Ok(merged)
    ensures var r := ActionRun(args, cwdName, answers);
      (r.asked != [] && r.asked[0] == ContinuePrompt) <==> !Truthy(Get(merged, "silent"))
  {
    assert ActionRun(args, cwdName, answers) == AfterMerge(merged, cwdName, answers);
    AfterMergeConfirm(merged, cwdName, answers);
  }

  /** The action ends "declined" exactly on a "no" to the confirmation, and then nothing else was asked. */
  lemma DeclineStops(args: seq<Arg>, cwdName: string, answers: seq<Answer>, merged: Options)
    requires Merge(Some(args), None) == Ok(merged)
    ensures var r := ActionRun(args, cwdName, answers);
      && (r.outcome.Declined? <==> !Truthy(Get(merged, "silent")) && AnswerAt(answers, 0) == Confirmed(false))
      && (r.outcome.Declined? ==> r.asked == [ContinuePrompt])
  {
    assert ActionRun(args, cwdName, answers) == AfterMerge(merged, cwdName, answers);
    AfterMergeConfirm(merged, cwdName, answers);
  }

  /**
   * A run handed to `new agent`: the git question was the last one asked and
   * its answer is `git`, whatever `--git`/`--no-git` said; the three text
   * options hold values the validator accepts; every other option is exactly as merged from the
   * command line and defaults, so `init`'s own options never reach it.
   */
  lemma RanOptions(args: seq<Arg>, cwdName: string, answers: seq<Answer>, merged: Options)
    requires Merge(Some(args), None) == Ok(merged)
    ensures var r := ActionRun(args, cwdName, answers);
      r.outcome.Ran? ==>
        && r.asked != [] && r.asked[|r.asked| - 1] == GitPrompt
        && AnswerAt(answers, |r.asked| - 1).Confirmed?
        && Get(r.outcome.options, "git") == Some(Bool(AnswerAt(answers, |r.asked| - 1).yes))
        && (forall k :: k in TextKeys ==> Validator(Get(r.outcome.options, k)) == Ok(true))
        && (forall k :: k !in TextKeys && k != "git" ==> Entry(r.outcome.options, k) == Entry(merged, k))
  {
    assert ActionRun(args, cwdName, answers) == AfterMerge(merged, cwdName, answers);
    AfterMergeRan(merged, cwdName, answers);
  }

  /** `new agent` runs `git init` exactly when `git` is truthy. */
  lemma GitStepIffTruthy(options: Options, projectFolder: string)
    ensures NewAgent.Exec("git init") in NewAgent.Steps(NewAgent.NewAgentTasks(options, projectFolder), options)
            <==> Truthy(Get(options, "git"))
  {
    NewAgent.RunOrder(options, projectFolder);
  }

  /**
   * Handing the resolved options to `new agent`: the `git init` step is among
   * its steps exactly when the git question was answered yes.
   */
  lemma GitInitFollowsAnswer(args: seq<Arg>, cwdName: string, answers: seq<Answer>, projectFolder: string)
    requires ActionRun(args, cwdName, answers).outcome.Ran?
    ensures var r := ActionRun(args, cwdName, answers);
      && r.asked != []
      && (NewAgent.Exec("git init") in NewAgent.Steps(NewAgent.NewAgentTasks(r.outcome.options, projectFolder), r.outcome.options)
          <==> AnswerAt(answers, |r.asked| - 1) == Confirmed(true))
  {
    var r := ActionRun(args, cwdName, answers);
    var merged := Merge(Some(args), None).value;
    assert r == AfterMerge(merged, cwdName, answers);
    AfterMergeRan(merged, cwdName, answers);
    GitStepIffTruthy(r.outcome.options, projectFolder);
  }

  /** A name that passes the validator is kept and not asked for. */
  lemma ValidNameKept(options: Options, asked: seq<Prompt>, cwdName: string, answers: seq<Answer>)
    requires Validator(Get(options, "name")) == Ok(true)
    ensures ResolveFrom(options, asked, cwdName, answers) == AfterName(options, asked, answers)
  {
    ResolveTextAsksWhenBlank(options, asked, "name", AgentName, cwdName, answers);
  }

  /**
   * A blank name is asked for with the folder name as default, and the display
   * name prompt then offers a default built from the name entered.
   */
  lemma DisplayDefaultFromEnteredName(options: Options, asked: seq<Prompt>, cwdName: string, answers: seq<Answer>, name: string)
    requires Validator(Get(options, "name")) == Ok(false) && InputAnswer(cwdName, AnswerAt(answers, |asked|)) == Ok(name)
    requires Validator(Get(options, "displayName")) == Ok(false)
    ensures var r := ResolveFrom(options, asked, cwdName, answers);
      |r.asked| >= |asked| + 2
      && r.asked[|asked|..|asked| + 2] == [NamePrompt(cwdName), DisplayNamePrompt(name)]
  {
    ResolveTextAsksWhenBlank(options, asked, "name", AgentName, cwdName, answers);
    var o := options["name" := Some(Str(name))];
    var a := asked + [NamePrompt(cwdName)];
    var d := DisplayNameDefault(name);
    ResolveTextAsksWhenBlank(o, a, "displayName", DisplayName, d, answers);
    AfterNameResolves(o, a, answers);
    var r := AfterName(o, a, answers);
    var entered := InputAnswer(d, AnswerAt(answers, |a|));
    if entered.Ok? {
      var named := o["displayName" := Some(Str(entered.value))];
      AfterDisplayNameResolves(named, a + [DisplayNamePrompt(name)], answers);
      assert r.asked[..|a| + 1] == a + [DisplayNamePrompt(name)];
    }
  }

  /** A blank description is asked for with a default built from the resolved display name. */
  lemma DescriptionDefaultFromDisplayName(options: Options, asked: seq<Prompt>, answers: seq<Answer>)
    requires Validator(Get(options, "description")) == Ok(false)
    ensures var r := AfterDisplayName(options, asked, answers);
      |r.asked| > |asked| && r.asked[|asked|] == DescriptionPrompt(Display(Get(options, "displayName")))
  {
    var d := DescriptionDefault(Display(Get(options, "displayName")));
    ResolveTextAsksWhenBlank(options, asked, "description", Description, d, answers);
    var entered := InputAnswer(d, AnswerAt(answers, |asked|));
    if entered.Ok? {
      AskGitResolves(options["description" := Some(Str(entered.value))], asked + [DescriptionPrompt(Display(Get(options, "displayName")))], answers);
    }
  }
}
