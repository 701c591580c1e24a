/**
 * The `new agent` command of src/commands/new-agent.ts: the wrapper that
 * turns a child process's output into status messages, the two preflight
 * validations and the fixed list of steps the command runs.
 *
 * A child process is given as the sequence of events it emits; `strip-ansi`
 * and `validate-npm-package-name` are parameters.
 */
module NewAgent {
  import opened Wrappers
  import opened JsStrings
  import opened Contracts
  import FileSystem

  // ---------------------------------------------------------------------------
  // wrappedExec

  /** What the child process emits, in the order the handlers see it. */
  datatype ProcessEvent =
    | Stdout(chunk: string)
    | SpawnError(error: string)
    | Close(code: Option<int>, signal: Option<string>)

  /** The state of the promise `wrappedExec` returns. */
  datatype Settlement = Pending | Resolved | Rejected(error: string)

  function ExecutingMessage(cmd: string): string {
    "Executing: '" + cmd + "'"
  }

  const CompletedMessage: string := "Completed successfully"

  /** What one line contributes: itself trimmed, or nothing when it is blank. */
  function LineMessages(line: string): (r: seq<string>)
    ensures Trim(line) != "" ==> r == [Trim(line)]
    ensures Trim(line) == "" ==> r == []
    ensures forall i :: 0 <= i < |r| ==> r[i] != "" && Trim(r[i]) == r[i]
  {
    var t := Trim(line);
    TrimIdempotent(line);
    if t != "" then [t] else []
  }

  /** The lines of a chunk that are not blank, each trimmed, in their order. */
  function NonBlankTrimmed(lines: seq<string>): (r: seq<string>)
    ensures |r| <= |lines|
    ensures forall i :: 0 <= i < |r| ==> r[i] != "" && Trim(r[i]) == r[i]
  {
    if lines == [] then []
    else NonBlankTrimmed(lines[..|lines| - 1]) + LineMessages(lines[|lines| - 1])
  }

  /**
   * The messages of a chunk are exactly the trims of its non-blank lines:
   * every non-blank line is reported, trimmed, and every message is the trim
   * of some non-blank line. `NonBlankTrimmedAppend` gives their order.
   */
  lemma {:induction false} NonBlankTrimmedSpec(lines: seq<string>)
    ensures forall i :: 0 <= i < |lines| && Trim(lines[i]) != "" ==> Trim(lines[i]) in NonBlankTrimmed(lines)
    ensures forall m :: m in NonBlankTrimmed(lines) ==> exists i :: 0 <= i < |lines| && Trim(lines[i]) != "" && m == Trim(lines[i])
    decreases |lines|
  {
    if lines != [] {
      var init := lines[..|lines| - 1];
      var last := lines[|lines| - 1];
      NonBlankTrimmedSpec(init);
      var r := NonBlankTrimmed(lines);
      assert r == NonBlankTrimmed(init) + LineMessages(last);
      forall i | 0 <= i < |lines| && Trim(lines[i]) != "" ensures Trim(lines[i]) in r {
        if i < |init| {
          assert lines[i] == init[i];
        }
      }
      forall m | m in r ensures exists i :: 0 <= i < |lines| && Trim(lines[i]) != "" && m == Trim(lines[i]) {
        if m in NonBlankTrimmed(init) {
          var i :| 0 <= i < |init| && Trim(init[i]) != "" && m == Trim(init[i]);
          assert lines[i] == init[i];
        } else {
          assert m in LineMessages(last);
          assert lines[|lines| - 1] == last;
        }
      }
    }
  }

  /** The filter works line by line: it distributes over concatenation. */
  lemma {:induction false} NonBlankTrimmedAppend(a: seq<string>, b: seq<string>)
    ensures NonBlankTrimmed(a + b) == NonBlankTrimmed(a) + NonBlankTrimmed(b)
    decreases |b|
  {
    if b == [] {
      assert a + b == a;
    } else {
      var b' := b[..|b| - 1];
      assert (a + b)[..|a + b| - 1] == a + b';
      assert (a + b)[|a + b| - 1] == b[|b| - 1];
      NonBlankTrimmedAppend(a, b');
    }
  }

  /** The messages one stdout chunk produces. */
  function ChunkLines(chunk: string, stripAnsi: string -> string): seq<string> {
    NonBlankTrimmed(SplitLines(stripAnsi(chunk)))
  }

  /** A message the handlers can send: the completion notice or a trimmed non-blank line. */
  predicate IsReported(message: string) {
    message == CompletedMessage || (message != "" && Trim(message) == message)
  }

  /** The messages the handlers send for one event; an error sends none. */
  function EventMessages(e: ProcessEvent, stripAnsi: string -> string): (r: seq<string>)
    ensures forall i :: 0 <= i < |r| ==> IsReported(r[i])
  {
    match e
    case Stdout(chunk) => ChunkLines(chunk, stripAnsi)
    case SpawnError(_) => []
    case Close(_, _) => [CompletedMessage]
  }

  /** Every message the callback receives, header first. */
  function ExecMessages(cmd: string, events: seq<ProcessEvent>, stripAnsi: string -> string): (m: seq<string>)
    ensures |m| >= 1 && m[0] == ExecutingMessage(cmd)
    decreases |events|
  {
    if events == [] then [ExecutingMessage(cmd)]
    else ExecMessages(cmd, events[..|events| - 1], stripAnsi) + EventMessages(events[|events| - 1], stripAnsi)
  }

  predicate Settles(e: ProcessEvent) {
    e.SpawnError? || e.Close?
  }

  /** A promise settles once: the first error or close decides it. */
  function Settle(events: seq<ProcessEvent>): (r: Settlement)
    ensures r == Pending <==> forall i :: 0 <= i < |events| ==> !Settles(events[i])
    ensures r.Rejected? ==> exists i :: 0 <= i < |events| && events[i] == SpawnError(r.error)
    decreases |events|
  {
    if events == [] then Pending
    else
      var prev := Settle(events[..|events| - 1]);
      match events[|events| - 1]
      case Stdout(_) => prev
      case SpawnError(error) => if prev == Pending then Rejected(error) else prev
      case Close(_, _) => if prev == Pending then Resolved else prev
  }

  /** One more line of a chunk: reported trimmed unless it is blank. */
  lemma ForwardLineStep(lines: seq<string>, j: nat)
    requires j < |lines|
    ensures NonBlankTrimmed(lines[..j + 1]) == NonBlankTrimmed(lines[..j]) + (if Trim(lines[j]) != "" then [Trim(lines[j])] else [])
  {
    assert lines[..j + 1][..j] == lines[..j];
    assert LineMessages(lines[j]) == (if Trim(lines[j]) != "" then [Trim(lines[j])] else []);
  }

  /** The `forEach` over one chunk's lines: each non-blank line goes to the callback, trimmed. */
  method ForwardLines(before: seq<string>, lines: seq<string>) returns (messages: seq<string>)
    ensures messages == before + NonBlankTrimmed(lines)
  {
    messages := before;
    var j := 0;
    while j < |lines|
      invariant 0 <= j <= |lines|
      invariant messages == before + NonBlankTrimmed(lines[..j])
    {
      var line := Trim(lines[j]);
      ForwardLineStep(lines, j);
      if line != "" {
        messages := messages + [line];
        assert messages == before + (NonBlankTrimmed(lines[..j]) + [line]);
      }
      j := j + 1;
    }
    assert lines[..j] == lines;
  }

  /**
   * `wrappedExec`: announces the command, forwards each stdout chunk's
   * non-blank lines, reports completion on close and settles the promise on
   * the first error or close.
   */
  method WrappedExec(cmd: string, events: seq<ProcessEvent>, stripAnsi: string -> string)
    returns (messages: seq<string>, settled: Settlement)
    ensures messages == ExecMessages(cmd, events, stripAnsi)
    ensures settled == Settle(events)
  {
    messages := [ExecutingMessage(cmd)];
    settled := Pending;
    var i := 0;
    while i < |events|
      invariant 0 <= i <= |events|
      invariant messages == ExecMessages(cmd, events[..i], stripAnsi)
      invariant settled == Settle(events[..i])
    {
      assert events[..i + 1][..i] == events[..i];
      match events[i] {
        case Stdout(chunk) =>
          messages := ForwardLines(messages, SplitLines(stripAnsi(chunk)));
        case SpawnError(error) =>
          if settled == Pending {
            settled := Rejected(error);
          }
        case Close(_, _) =>
          messages := messages + [CompletedMessage];
          if settled == Pending {
            settled := Resolved;
          }
      }
      i := i + 1;
    }
    assert events[..i] == events;
  }

  /** After the header, every message is a trimmed non-blank output line or the completion notice. */
  lemma {:induction false} MessagesAfterHeader(cmd: string, events: seq<ProcessEvent>, stripAnsi: string -> string)
    ensures forall i :: 1 <= i < |ExecMessages(cmd, events, stripAnsi)| ==> IsReported(ExecMessages(cmd, events, stripAnsi)[i])
    decreases |events|
  {
    if events != [] {
      var init := events[..|events| - 1];
      MessagesAfterHeader(cmd, init, stripAnsi);
      var prev := ExecMessages(cmd, init, stripAnsi);
      var last := EventMessages(events[|events| - 1], stripAnsi);
      var m := ExecMessages(cmd, events, stripAnsi);
      assert m == prev + last;
      forall i | 1 <= i < |m| ensures IsReported(m[i]) {
        if i >= |prev| {
          assert m[i] == last[i - |prev|];
          assert IsReported(last[i - |prev|]);
        } else {
          assert m[i] == prev[i];
          assert IsReported(prev[i]);
        }
      }
    }
  }

  /** Whether an error or a close came first, for every event sequence. */
  lemma {:induction false} FirstSettlingEventDecides(events: seq<ProcessEvent>)
    ensures Settle(events) == Pending <==> forall i :: 0 <= i < |events| ==> !Settles(events[i])
    ensures forall i :: 0 <= i < |events| && Settles(events[i]) && (forall j :: 0 <= j < i ==> !Settles(events[j])) ==>
      Settle(events) == (if events[i].Close? then Resolved else Rejected(events[i].error))
    decreases |events|
  {
    if events != [] {
      var init := events[..|events| - 1];
      FirstSettlingEventDecides(init);
      assert forall i :: 0 <= i < |init| ==> init[i] == events[i];
    }
  }

  /** Exit codes and signals are never looked at. */
  function WithoutStatus(events: seq<ProcessEvent>): (r: seq<ProcessEvent>)
    ensures |r| == |events|
  {
    seq(|events|, i requires 0 <= i < |events| => if events[i].Close? then Close(None, None) else events[i])
  }

  lemma {:induction false} ExitStatusIgnored(cmd: string, events: seq<ProcessEvent>, stripAnsi: string -> string)
    ensures ExecMessages(cmd, events, stripAnsi) == ExecMessages(cmd, WithoutStatus(events), stripAnsi)
    ensures Settle(events) == Settle(WithoutStatus(events))
    decreases |events|
  {
    if events != [] {
      var init := events[..|events| - 1];
      ExitStatusIgnored(cmd, init, stripAnsi);
      var w := WithoutStatus(events);
      assert w[..|events| - 1] == WithoutStatus(init);
      assert EventMessages(w[|events| - 1], stripAnsi) == EventMessages(events[|events| - 1], stripAnsi);
      assert Settles(w[|events| - 1]) == Settles(events[|events| - 1]);
    }
  }

  /** The stdout events for a list of chunks. */
  function OutputEvents(chunks: seq<string>): (r: seq<ProcessEvent>)
    ensures |r| == |chunks| && forall i :: 0 <= i < |r| ==> r[i] == Stdout(chunks[i])
  {
    seq(|chunks|, i requires 0 <= i < |chunks| => Stdout(chunks[i]))
  }

  /** The lines of all chunks, each chunk split on its own. */
  function OutputLines(chunks: seq<string>, stripAnsi: string -> string): seq<string>
    decreases |chunks|
  {
    if chunks == [] then []
    else OutputLines(chunks[..|chunks| - 1], stripAnsi) + ChunkLines(chunks[|chunks| - 1], stripAnsi)
  }

  /** Output alone: the header, then the output lines, and the promise still pending. */
  lemma {:induction false} OutputOnly(cmd: string, chunks: seq<string>, stripAnsi: string -> string)
    ensures ExecMessages(cmd, OutputEvents(chunks), stripAnsi) == [ExecutingMessage(cmd)] + OutputLines(chunks, stripAnsi)
    ensures Settle(OutputEvents(chunks)) == Pending
    decreases |chunks|
  {
    if chunks != [] {
      var init := chunks[..|chunks| - 1];
      OutputOnly(cmd, init, stripAnsi);
      assert OutputEvents(chunks)[..|chunks| - 1] == OutputEvents(init);
    }
  }

  /** A run that closes, whatever its exit status, completes and resolves. */
  lemma OutputThenClose(cmd: string, chunks: seq<string>, code: Option<int>, signal: Option<string>,
                        stripAnsi: string -> string)
    ensures var events := OutputEvents(chunks) + [Close(code, signal)];
      && ExecMessages(cmd, events, stripAnsi) == [ExecutingMessage(cmd)] + OutputLines(chunks, stripAnsi) + [CompletedMessage]
      && Settle(events) == Resolved
  {
    var events := OutputEvents(chunks) + [Close(code, signal)];
    OutputOnly(cmd, chunks, stripAnsi);
    assert events[..|events| - 1] == OutputEvents(chunks);
  }

  /** A run that fails to spawn rejects with the error and reports no completion. */
  lemma OutputThenError(cmd: string, chunks: seq<string>, error: string, stripAnsi: string -> string)
    ensures var events := OutputEvents(chunks) + [SpawnError(error)];
      && ExecMessages(cmd, events, stripAnsi) == [ExecutingMessage(cmd)] + OutputLines(chunks, stripAnsi)
      && Settle(events) == Rejected(error)
  {
    var events := OutputEvents(chunks) + [SpawnError(error)];
    OutputOnly(cmd, chunks, stripAnsi);
    assert events[..|events| - 1] == OutputEvents(chunks);
  }

  // ---------------------------------------------------------------------------
  // Preflight validations

  const InvalidNameMessage: string :=
    "The specified agent name must be a valid npm package name.  See https://docs.npmjs.com/package-name-guidelines"

  const FolderNotEmptyMessage: string :=
    "The target file system path is not empty. A new agent can only be created in an empty folder."

  const PreflightFolderMessage: string :=
    "The specified folder is not empty.  A new agent can only be created in an empty folder."

  /** `validatePackageName`: throws exactly when the validator rejects the name for new packages. */
  function ValidatePackageName(name: Option<Value>, validForNewPackages: Option<Value> -> bool): (r: Outcome<string>)
    ensures r.Pass? <==> validForNewPackages(name)
    ensures r.Fail? ==> r.error == InvalidNameMessage
  {
    if !validForNewPackages(name) then Fail(InvalidNameMessage) else Pass
  }

  /** `validateFolder`: rejects when the folder has a direct entry. */
  function ValidateFolder(files: map<string, string>, folderPath: string): (r: Outcome<string>)
    ensures r.Fail? <==> exists p :: p in files && FileSystem.IsDirectEntry(folderPath, p)
    ensures r.Fail? ==> r.error == FolderNotEmptyMessage
  {
    if !FileSystem.FolderIsEmpty(files, folderPath) then Fail(FolderNotEmptyMessage) else Pass
  }

  /** The folder step of the preflight checks, which replaces any rejection with its own message. */
  function FolderCheck(files: map<string, string>, folderPath: string): (r: Outcome<string>)
    ensures r.Fail? <==> exists p :: p in files && FileSystem.IsDirectEntry(folderPath, p)
    ensures r.Fail? ==> r.error == PreflightFolderMessage
  {
    match ValidateFolder(files, folderPath)
    case Pass => Pass
    case Fail(_) => Fail(PreflightFolderMessage)
  }

  /** The preflight folder step fails exactly when `validateFolder` rejects. */
  lemma FolderCheckFailsIffEntry(files: map<string, string>, folderPath: string)
    ensures ValidateFolder(files, folderPath).Fail? <==> FolderCheck(files, folderPath).Fail?
  {
  }

  // ---------------------------------------------------------------------------
  // The step list of `run`

  /** When a task is skipped. */
  datatype SkipRule = NeverSkip | SkipUnlessGit

  /** What a task does. */
  datatype Action =
    | Subtasks(tasks: seq<Task>, concurrent: bool)
    | CheckName(name: Option<Value>)
    | CheckFolder(folder: string)
    | RenderTemplates(templateFolder: string, destination: string, config: Options)
    | Exec(command: string)

  datatype Task = Task(title: string, skip: SkipRule, action: Action, persistentOutput: bool)

  /** `options.git` falsy skips the git step. */
  predicate Skipped(t: Task, options: Options) {
    match t.skip
    case NeverSkip => false
    case SkipUnlessGit => !Truthy(Get(options, "git"))
  }

  /** The steps `run` builds, for the given options and project folder (the resolved current directory). */
  function NewAgentTasks(options: Options, projectFolder: string): (r: seq<Task>)
    ensures forall i :: 0 <= i < |r| ==> (r[i].skip == SkipUnlessGit <==> r[i].action == Exec("git init"))
    ensures forall i :: 0 < i < |r| ==> r[i].persistentOutput && !r[i].action.Subtasks?
  {
    [ Task("Preflight checks", NeverSkip,
           Subtasks([ Task("Checking name \"" + Display(Get(options, "name")) + "\"", NeverSkip,
                           CheckName(Get(options, "name")), false),
                      Task("Checking folder \"" + projectFolder + "\"", NeverSkip,
                           CheckFolder(projectFolder), false) ],
                    false),
           false),
      Task("Generate package files", NeverSkip, RenderTemplates("agent-new", projectFolder, options), true),
      Task("Install npm packages", NeverSkip, Exec("npm install --verbose"), true),
      Task("Initialize Git", SkipUnlessGit, Exec("git init"), true),
      Task("Install vscode-dts proposed API types", NeverSkip, Exec("npx --yes vscode-dts@latest dev -f"), true),
      Task("Compile typeScript", NeverSkip, Exec("npm run compile"), true) ]
  }

  function Titles(tasks: seq<Task>): (r: seq<string>)
    ensures |r| == |tasks| && forall i :: 0 <= i < |r| ==> r[i] == tasks[i].title
  {
    seq(|tasks|, i requires 0 <= i < |tasks| => tasks[i].title)
  }

  /**
   * The actions that run, in order, when no step fails: skipped tasks drop
   * out and sequential subtasks run in their own order.
   */
  function Steps(tasks: seq<Task>, options: Options): seq<Action>
    decreases tasks
  {
    if tasks == [] then []
    else
      var t := tasks[0];
      var here :=
        if Skipped(t, options) then []
        else match t.action
          case Subtasks(sub, _) => Steps(sub, options)
          case _ => [t.action];
      here + Steps(tasks[1..], options)
  }

  /** The six top-level steps, in order, with only the git step ever skipped. */
  lemma TaskListShape(options: Options, projectFolder: string)
    ensures var tasks := NewAgentTasks(options, projectFolder);
      && Titles(tasks) == ["Preflight checks", "Generate package files", "Install npm packages", "Initialize Git",
                           "Install vscode-dts proposed API types", "Compile typeScript"]
      && (forall i :: 0 <= i < |tasks| ==> (Skipped(tasks[i], options) <==> i == 3 && !Truthy(Get(options, "git"))))
      && tasks[0].action.Subtasks? && !tasks[0].action.concurrent
      && Titles(tasks[0].action.tasks) == ["Checking name \"" + Display(Get(options, "name")) + "\"",
                                           "Checking folder \"" + projectFolder + "\""]
  {
  }

  /**
   * What runs, in order: the name check, the folder check, the rendering
   * into the project folder, then the commands, with `git init` only when
   * `options.git` is truthy.
   */
  lemma RunOrder(options: Options, projectFolder: string)
    ensures Steps(NewAgentTasks(options, projectFolder), options)
            == [CheckName(Get(options, "name")), CheckFolder(projectFolder),
                RenderTemplates("agent-new", projectFolder, options), Exec("npm install --verbose")]
               + (if Truthy(Get(options, "git")) then [Exec("git init")] else [])
               + [Exec("npx --yes vscode-dts@latest dev -f"), Exec("npm run compile")]
  {
    var tasks := NewAgentTasks(options, projectFolder);
    var pre := tasks[0].action.tasks;
    assert Steps(pre[1..], options) == [CheckFolder(projectFolder)] by {
      assert pre[1..][1..] == [];
    }
    assert Steps(pre, options) == [CheckName(Get(options, "name")), CheckFolder(projectFolder)];
    var gitStep := if Truthy(Get(options, "git")) then [Exec("git init")] else [];
    var t5 := tasks[5..];
    assert Steps(t5, options) == [Exec("npm run compile")] by {
      assert t5[1..] == [];
    }
    var t4 := tasks[4..];
    assert t4[1..] == t5;
    assert Steps(t4, options) == [Exec("npx --yes vscode-dts@latest dev -f"), Exec("npm run compile")];
    var t3 := tasks[3..];
    assert t3[1..] == t4;
    assert Steps(t3, options) == gitStep + Steps(t4, options);
    var t2 := tasks[2..];
    assert t2[1..] == t3;
    assert Steps(t2, options) == [Exec("npm install --verbose")] + Steps(t3, options);
    var t1 := tasks[1..];
    assert t1[1..] == t2;
    assert Steps(t1, options) == [RenderTemplates("agent-new", projectFolder, options)] + Steps(t2, options);
    assert tasks[1..] == t1;
    assert Steps(tasks, options) == Steps(pre, options) + Steps(t1, options);
  }
}
