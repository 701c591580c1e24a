/**
 * The template renderer of src/helpers/file-system.ts.
 *
 * The file system is a map from file path to content; directories are
 * implicit in the paths. Template discovery (a glob for `**` / `*.*`, which only
 * matches names that contain a dot) is not modelled: the discovered list is an
 * input. The substitution engine (mustache) is the parameter `engine`.
 */
module FileSystem {
  import opened Wrappers
  import opened JsStrings

  /** The marker that makes a file a template (file-system.ts:11). */
  const TemplateSuffix: string := ".mustache"

  /** The only extension read and written as binary (file-system.ts:71). */
  const FontSuffix: string := ".ttf"

  datatype Encoding = Binary | Utf8

  /** `encodingFromExt`: binary for font files, UTF-8 otherwise. */
  function EncodingFromExt(path: string): (e: Encoding)
    ensures e == Binary <==> EndsWith(path, FontSuffix)
  {
    if EndsWith(path, FontSuffix) then Binary else Utf8
  }

  // ---------------------------------------------------------------------------
  // path.join on POSIX paths

  function TrimTrailingSlashes(s: string): (r: string)
    ensures |r| <= |s| && r == s[..|r|]
    ensures r == [] || r[|r| - 1] != '/'
  {
    if s != [] && s[|s| - 1] == '/' then TrimTrailingSlashes(s[..|s| - 1]) else s
  }

  function TrimLeadingSlashes(s: string): (r: string)
    ensures |r| <= |s| && r == s[|s| - |r|..]
    ensures r == [] || r[0] != '/'
  {
    if s != [] && s[0] == '/' then TrimLeadingSlashes(s[1..]) else s
  }

  /** Only separators are trimmed from the front. */
  lemma {:induction false} TrimLeadingSlashesDropsSlashes(s: string)
    ensures forall i :: 0 <= i < |s| - |TrimLeadingSlashes(s)| ==> s[i] == '/'
    decreases |s|
  {
    if s != [] && s[0] == '/' {
      TrimLeadingSlashesDropsSlashes(s[1..]);
    }
  }

  /** `path.join(dir, rel)`: the two parts with exactly one separator between them. */
  function PathJoin(dir: string, rel: string): string {
    if dir == "" then rel
    else if rel == "" then dir
    else TrimTrailingSlashes(dir) + "/" + TrimLeadingSlashes(rel)
  }

  /** What follows a separator decides how a path ends, for an ending without separators. */
  lemma EndsWithAfterSlash(x: string, y: string, suffix: string)
    requires suffix != "" && '/' !in suffix
    ensures EndsWith(x + "/" + y, suffix) <==> EndsWith(y, suffix)
  {
    var z := x + "/" + y;
    if |y| >= |suffix| {
      assert z[|z| - |suffix|..] == y[|y| - |suffix|..];
    } else if |suffix| <= |z| {
      // the ending of z that is as long as suffix contains the separator
      var k := |x| - (|z| - |suffix|);
      assert z[|z| - |suffix|..][k] == '/';
    }
  }

  /** Joining onto a directory keeps the ending of a non-empty relative path. */
  lemma JoinKeepsEnding(dir: string, rel: string, suffix: string)
    requires rel != "" && suffix != "" && '/' !in suffix
    ensures EndsWith(PathJoin(dir, rel), suffix) <==> EndsWith(rel, suffix)
  {
    if dir != "" {
      var t := TrimLeadingSlashes(rel);
      TrimLeadingSlashesDropsSlashes(rel);
      EndsWithAfterSlash(TrimTrailingSlashes(dir), t, suffix);
      var k := |rel| - |t|;
      if k > 0 {
        assert rel == rel[..k - 1] + "/" + t;
        EndsWithAfterSlash(rel[..k - 1], t, suffix);
      } else {
        assert rel == t;
      }
    }
  }

  // ---------------------------------------------------------------------------
  // The destination of one file (render, file-system.ts:88-106)

  /** `filePath.replace(sourceRootPath, '')`. */
  function StripRoot(filePath: string, sourceRoot: string): string {
    RemoveFirst(filePath, sourceRoot)
  }

  predicate IsTemplate(relativePath: string) {
    EndsWith(relativePath, TemplateSuffix)
  }

  /** For a template, `relativePath.replace('.mustache', '')`: the FIRST occurrence goes. */
  function OutputRelative(relativePath: string): string {
    if IsTemplate(relativePath) then RemoveFirst(relativePath, TemplateSuffix) else relativePath
  }

  /** The path `render` writes to and returns. */
  function DestinationPath(filePath: string, sourceRoot: string, destRoot: string): string {
    PathJoin(destRoot, OutputRelative(StripRoot(filePath, sourceRoot)))
  }

  /** What `render` writes: templates go through the engine, other files are copied. */
  function RenderedContent<C>(content: string, filePath: string, sourceRoot: string,
                              config: C, engine: (string, C) -> string): string
  {
    if IsTemplate(StripRoot(filePath, sourceRoot)) then engine(content, config) else content
  }

  /** A file that is not a template keeps its relative path and its content. */
  lemma StaticFileCopied<C>(sourceRoot: string, rel: string, destRoot: string, content: string,
                            config: C, engine: (string, C) -> string)
    requires !IsTemplate(rel)
    ensures DestinationPath(sourceRoot + rel, sourceRoot, destRoot) == PathJoin(destRoot, rel)
    ensures RenderedContent(content, sourceRoot + rel, sourceRoot, config, engine) == content
  {
    RemoveFirstOfPrefix(sourceRoot + rel, sourceRoot, rel);
  }

  /** A template whose marker occurs only at the end loses exactly that marker and is rendered. */
  lemma TemplateFileRendered<C>(sourceRoot: string, stem: string, destRoot: string, content: string,
                                config: C, engine: (string, C) -> string)
    requires forall j: nat :: j < |stem| ==> !OccursAt(stem + TemplateSuffix, TemplateSuffix, j)
    ensures DestinationPath(sourceRoot + stem + TemplateSuffix, sourceRoot, destRoot) == PathJoin(destRoot, stem)
    ensures RenderedContent(content, sourceRoot + stem + TemplateSuffix, sourceRoot, config, engine)
            == engine(content, config)
  {
    var rel := stem + TemplateSuffix;
    assert sourceRoot + stem + TemplateSuffix == sourceRoot + rel;
    RemoveFirstOfPrefix(sourceRoot + rel, sourceRoot, rel);
    assert IsTemplate(rel) by { assert rel[|rel| - |TemplateSuffix|..] == TemplateSuffix; }
    RemoveFirstOfSoleSuffix(rel, TemplateSuffix, stem);
  }

  /**
   * The marker is removed where it first occurs, not where it ends the path:
   * a template under a directory whose name ends in `.mustache` keeps its own
   * suffix and loses the directory's.
   */
  lemma MarkerRemovedFromDirectoryName(sourceRoot: string, dir: string, name: string, destRoot: string)
    requires '.' !in dir
    ensures DestinationPath(sourceRoot + "/" + dir + TemplateSuffix + "/" + name + TemplateSuffix, sourceRoot, destRoot)
            == PathJoin(destRoot, "/" + dir + "/" + name + TemplateSuffix)
  {
    var rel := "/" + dir + TemplateSuffix + "/" + name + TemplateSuffix;
    assert sourceRoot + "/" + dir + TemplateSuffix + "/" + name + TemplateSuffix == sourceRoot + rel;
    RemoveFirstOfPrefix(sourceRoot + rel, sourceRoot, rel);
    FirstMarkerInDirectory(dir, name);
  }

  lemma FirstMarkerInDirectory(dir: string, name: string)
    requires '.' !in dir
    ensures OutputRelative("/" + dir + TemplateSuffix + "/" + name + TemplateSuffix) == "/" + dir + "/" + name + TemplateSuffix
  {
    var head := "/" + dir;
    var rel := head + TemplateSuffix + ("/" + name + TemplateSuffix);
    assert rel == "/" + dir + TemplateSuffix + "/" + name + TemplateSuffix;
    assert IsTemplate(rel) by { assert rel[|rel| - |TemplateSuffix|..] == TemplateSuffix; }
    assert OccursAt(rel, TemplateSuffix, |head|) by {
      assert rel[|head|..|head| + |TemplateSuffix|] == TemplateSuffix;
    }
    forall j: nat | j < |head| ensures !OccursAt(rel, TemplateSuffix, j) {
      assert rel[j] == head[j];
      assert head[j] != '.' by {
        if j > 0 { assert head[j] == dir[j - 1]; }
      }
    }
    RemoveFirstAt(rel, TemplateSuffix, |head|);
    assert rel[..|head|] == head;
    assert rel[|head| + |TemplateSuffix|..] == "/" + name + TemplateSuffix;
  }

  /**
   * A copied (non-template) file found under the template root is read and
   * written with the same encoding.
   */
  lemma StaticCopyKeepsEncoding(sourceRoot: string, name: string, destRoot: string)
    requires !IsTemplate("/" + name)
    ensures EncodingFromExt(DestinationPath(sourceRoot + "/" + name, sourceRoot, destRoot))
            == EncodingFromExt(sourceRoot + "/" + name)
  {
    var file := sourceRoot + "/" + name;
    RemoveFirstOfPrefix(file, sourceRoot, "/" + name);
    assert sourceRoot + ("/" + name) == file;
    JoinKeepsEnding(destRoot, "/" + name, FontSuffix);
    EndsWithAfterSlash(sourceRoot, name, FontSuffix);
    EndsWithAfterSlash("", name, FontSuffix);
    assert "" + "/" + name == "/" + name;
  }

  // ---------------------------------------------------------------------------
  // Reading, writing and the rendering loop

  /** The message Node's `readFileSync` throws for a missing file. */
  function NoSuchFile(path: string): string {
    "ENOENT: no such file or directory, open '" + path + "'"
  }

  /** `getFileContent(path, allowEmpty)`: a missing file reads as empty only when allowed. */
  function GetFileContent(files: map<string, string>, path: string, allowEmpty: bool): (r: Result<string, string>)
    ensures path in files ==> r == Ok(files[path])
    ensures path !in files && allowEmpty ==> r == Ok("")
    ensures path !in files && !allowEmpty ==> r == Err(NoSuchFile(path))
  {
    if !allowEmpty || path in files then
      (if path in files then Ok(files[path]) else Err(NoSuchFile(path)))
    else Ok("")
  }

  /** The state after rendering a list of files one after another. */
  datatype RenderRun = RenderRun(files: map<string, string>, rendered: seq<string>, failure: Option<string>)

  /**
   * Rendering `list` in order, starting from `files`: each file is read from
   * the current store (so an earlier write is visible to a later read) and
   * the first unreadable file stops the run.
   */
  function RenderFiles<C>(files: map<string, string>, list: seq<string>, sourceRoot: string, destRoot: string,
                          config: C, engine: (string, C) -> string): RenderRun
    decreases |list|
  {
    if list == [] then RenderRun(files, [], None)
    else
      var prev := RenderFiles(files, list[..|list| - 1], sourceRoot, destRoot, config, engine);
      var f := list[|list| - 1];
      if prev.failure.Some? then prev
      else if f !in prev.files then RenderRun(prev.files, prev.rendered, Some(NoSuchFile(f)))
      else
        var d := DestinationPath(f, sourceRoot, destRoot);
        RenderRun(prev.files[d := RenderedContent(prev.files[f], f, sourceRoot, config, engine)],
                  prev.rendered + [d], None)
  }

  /** Extending the list by one file: the run goes on from the run of the prefix. */
  lemma RenderFilesStep<C>(files: map<string, string>, list: seq<string>, i: nat, sourceRoot: string, destRoot: string,
                           config: C, engine: (string, C) -> string)
    requires i < |list|
    requires RenderFiles(files, list[..i], sourceRoot, destRoot, config, engine).failure.None?
    ensures var prev := RenderFiles(files, list[..i], sourceRoot, destRoot, config, engine);
      var f := list[i];
      RenderFiles(files, list[..i + 1], sourceRoot, destRoot, config, engine)
      == if f !in prev.files then RenderRun(prev.files, prev.rendered, Some(NoSuchFile(f)))
         else RenderRun(prev.files[DestinationPath(f, sourceRoot, destRoot)
                                     := RenderedContent(prev.files[f], f, sourceRoot, config, engine)],
                        prev.rendered + [DestinationPath(f, sourceRoot, destRoot)], None)
  {
    assert list[..i + 1][..i] == list[..i];
  }

  /** The destination of every file of `list`, in list order. */
  function DestPaths(list: seq<string>, sourceRoot: string, destRoot: string): (paths: seq<string>)
    ensures |paths| == |list|
    ensures forall i :: 0 <= i < |list| ==> paths[i] == DestinationPath(list[i], sourceRoot, destRoot)
    decreases |list|
  {
    if list == [] then []
    else DestPaths(list[..|list| - 1], sourceRoot, destRoot) + [DestinationPath(list[|list| - 1], sourceRoot, destRoot)]
  }

  function SummaryMessage(count: nat): string {
    NatToString(count) + " files rendered successfully"
  }

  function NoTemplatesMessage(basePath: string): string {
    "No templates found in " + basePath
  }

  /** `pathJoin(packageRoot, 'templates', folder)`. */
  function TemplateBase(packageRoot: string, folder: string): string {
    PathJoin(PathJoin(packageRoot, "templates"), folder)
  }

  /** The store, the callback messages and the completion of one `renderTemplates` call. */
  datatype RenderReport = RenderReport(files: map<string, string>, messages: seq<string>, outcome: Outcome<string>)

  function RenderTemplatesReport<C>(files: map<string, string>, list: seq<string>, basePath: string,
                                    destRoot: string, config: C, engine: (string, C) -> string,
                                    withCallback: bool): RenderReport
  {
    if |list| == 0 then RenderReport(files, [], Fail(NoTemplatesMessage(basePath)))
    else
      var run := RenderFiles(files, list, basePath, destRoot, config, engine);
      var messages :=
        if !withCallback then []
        else run.rendered + (if run.failure.None? then [SummaryMessage(|list|)] else []);
      RenderReport(run.files, messages, if run.failure.Some? then Fail(run.failure.value) else Pass)
  }

  /** Once a file fails, the rest of the list changes nothing. */
  lemma {:induction false} FailureStops<C>(files: map<string, string>, list: seq<string>, k: nat,
                                          sourceRoot: string, destRoot: string, config: C,
                                          engine: (string, C) -> string)
    requires k <= |list|
    requires RenderFiles(files, list[..k], sourceRoot, destRoot, config, engine).failure.Some?
    ensures RenderFiles(files, list, sourceRoot, destRoot, config, engine)
            == RenderFiles(files, list[..k], sourceRoot, destRoot, config, engine)
    decreases |list| - k
  {
    if k < |list| {
      var next := list[..k + 1];
      assert next[..|next| - 1] == list[..k];
      FailureStops(files, list, k + 1, sourceRoot, destRoot, config, engine);
    } else {
      assert list[..k] == list;
    }
  }

  /** A run renders at most the whole list, and all of it exactly when nothing failed. */
  lemma {:induction false} RenderedLength<C>(files: map<string, string>, list: seq<string>,
                                            sourceRoot: string, destRoot: string, config: C,
                                            engine: (string, C) -> string)
    ensures var run := RenderFiles(files, list, sourceRoot, destRoot, config, engine);
      |run.rendered| <= |list| && (run.failure.None? <==> |run.rendered| == |list|)
    decreases |list|
  {
    if list != [] {
      RenderedLength(files, list[..|list| - 1], sourceRoot, destRoot, config, engine);
    }
  }

  /**
   * Files are rendered in list order: the paths rendered so far are the
   * destinations of a prefix of the list.
   */
  lemma {:induction false} RenderedInOrder<C>(files: map<string, string>, list: seq<string>,
                                             sourceRoot: string, destRoot: string, config: C,
                                             engine: (string, C) -> string)
    ensures var run := RenderFiles(files, list, sourceRoot, destRoot, config, engine);
      |run.rendered| <= |list| && run.rendered == DestPaths(list[..|run.rendered|], sourceRoot, destRoot)
    decreases |list|
  {
    if list == [] {
      assert list[..0] == [];
    } else {
      var init := list[..|list| - 1];
      RenderedInOrder(files, init, sourceRoot, destRoot, config, engine);
      RenderedLength(files, init, sourceRoot, destRoot, config, engine);
      var prev := RenderFiles(files, init, sourceRoot, destRoot, config, engine);
      var m := |prev.rendered|;
      assert list[..m] == init[..m];
      if prev.failure.None? && list[|list| - 1] in prev.files {
        assert init[..m] == init;
        assert list[..m + 1] == list;
        assert DestPaths(list, sourceRoot, destRoot)
               == DestPaths(init, sourceRoot, destRoot) + [DestinationPath(list[|list| - 1], sourceRoot, destRoot)];
      } else {
        assert DestPaths(list[..m], sourceRoot, destRoot) == DestPaths(init[..m], sourceRoot, destRoot);
      }
    }
  }

  /** The file a run fails at is the first one missing from the store as it was then. */
  lemma {:induction false} FailingFileIsMissing<C>(files: map<string, string>, list: seq<string>,
                                                  sourceRoot: string, destRoot: string, config: C,
                                                  engine: (string, C) -> string)
    ensures var run := RenderFiles(files, list, sourceRoot, destRoot, config, engine);
      run.failure.Some? ==>
        && |run.rendered| < |list|
        && run.failure.value == NoSuchFile(list[|run.rendered|])
        && list[|run.rendered|] !in RenderFiles(files, list[..|run.rendered|], sourceRoot, destRoot, config, engine).files
    decreases |list|
  {
    if list != [] {
      var init := list[..|list| - 1];
      FailingFileIsMissing(files, init, sourceRoot, destRoot, config, engine);
      RenderedLength(files, init, sourceRoot, destRoot, config, engine);
      var prev := RenderFiles(files, init, sourceRoot, destRoot, config, engine);
      var m := |prev.rendered|;
      if prev.failure.Some? {
        assert list[..m] == init[..m];
      } else {
        assert init[..m] == init;
        assert list[..m] == init;
      }
    }
  }

  /** Rendering only ever adds or overwrites files; it never removes one. */
  lemma {:induction false} RenderKeepsFiles<C>(files: map<string, string>, list: seq<string>,
                                              sourceRoot: string, destRoot: string, config: C,
                                              engine: (string, C) -> string)
    ensures files.Keys <= RenderFiles(files, list, sourceRoot, destRoot, config, engine).files.Keys
    decreases |list|
  {
    if list != [] {
      RenderKeepsFiles(files, list[..|list| - 1], sourceRoot, destRoot, config, engine);
    }
  }

  /** When every discovered file exists, the whole list is rendered, in order. */
  lemma PresentFilesAllRender<C>(files: map<string, string>, list: seq<string>,
                                 sourceRoot: string, destRoot: string, config: C,
                                 engine: (string, C) -> string)
    requires forall f :: f in list ==> f in files
    ensures var run := RenderFiles(files, list, sourceRoot, destRoot, config, engine);
      run.failure.None? && run.rendered == DestPaths(list, sourceRoot, destRoot)
  {
    RenderedLength(files, list, sourceRoot, destRoot, config, engine);
    RenderedInOrder(files, list, sourceRoot, destRoot, config, engine);
    FailingFileIsMissing(files, list, sourceRoot, destRoot, config, engine);
    var run := RenderFiles(files, list, sourceRoot, destRoot, config, engine);
    var k := |run.rendered|;
    RenderKeepsFiles(files, list[..k], sourceRoot, destRoot, config, engine);
  }

  /**
   * An empty template set is an error that writes nothing and reports
   * nothing; otherwise, with every discovered file present and a callback,
   * the callback hears each destination in order and then the count.
   */
  lemma RenderTemplatesMessages<C>(files: map<string, string>, list: seq<string>, basePath: string,
                                   destRoot: string, config: C, engine: (string, C) -> string)
    requires forall f :: f in list ==> f in files
    ensures var report := RenderTemplatesReport(files, list, basePath, destRoot, config, engine, true);
      if |list| == 0 then
        report == RenderReport(files, [], Fail(NoTemplatesMessage(basePath)))
      else
        && report.outcome == Pass
        && report.messages == DestPaths(list, basePath, destRoot) + [SummaryMessage(|list|)]
        && |report.messages| == |list| + 1
  {
    if |list| > 0 {
      PresentFilesAllRender(files, list, basePath, destRoot, config, engine);
    }
  }

  /** Without a callback the same files are written and nothing is reported. */
  lemma NoCallbackSameWrites<C>(files: map<string, string>, list: seq<string>, basePath: string,
                                destRoot: string, config: C, engine: (string, C) -> string)
    ensures var silent := RenderTemplatesReport(files, list, basePath, destRoot, config, engine, false);
      var heard := RenderTemplatesReport(files, list, basePath, destRoot, config, engine, true);
      silent.messages == [] && silent.files == heard.files && silent.outcome == heard.outcome
  {
  }

  /** `render`'s choice of destination for the files of one call, as a function of the file path. */
  function DestinationOf(sourceRoot: string, destRoot: string): (dest: string -> string)
    ensures forall p :: dest(p) == DestinationPath(p, sourceRoot, destRoot)
  {
    p => DestinationPath(p, sourceRoot, destRoot)
  }

  /** `render`'s choice of content for the files of one call, from the content read and the path. */
  function RenderingOf<C>(sourceRoot: string, config: C, engine: (string, C) -> string): (render: (string, string) -> string)
    ensures forall content, p :: render(content, p) == RenderedContent(content, p, sourceRoot, config, engine)
  {
    (content, p) => RenderedContent(content, p, sourceRoot, config, engine)
  }

  /** The destinations of a list of files, as a set. */
  function DestSet(list: seq<string>, dest: string -> string): set<string> {
    set f | f in list :: dest(f)
  }

  /** No two discovered files share a destination and no destination is a discovered file. */
  predicate SeparateDestinations(list: seq<string>, dest: string -> string) {
    && (forall f, g :: f in list && g in list && dest(f) == dest(g) ==> f == g)
    && (forall f, g :: f in list && g in list ==> dest(g) != f)
  }

  /** `out` holds, at each destination, the rendering of its source in `files`, and agrees with `files` elsewhere. */
  ghost predicate StoreRendersFrom(files: map<string, string>, out: map<string, string>, list: seq<string>,
                                   dest: string -> string, render: (string, string) -> string)
    requires forall f :: f in list ==> f in files
  {
    && (forall f :: f in list ==> dest(f) in out && out[dest(f)] == render(files[f], f))
    && (forall k :: k !in DestSet(list, dest) ==> (k in out <==> k in files) && (k in files ==> out[k] == files[k]))
  }

  lemma DestSetSnoc(init: seq<string>, f: string, dest: string -> string)
    ensures DestSet(init + [f], dest) == DestSet(init, dest) + {dest(f)}
  {
    var list := init + [f];
    assert f in list;
    assert forall g :: g in list ==> g in init || g == f;
    assert forall g :: g in init ==> g in list;
  }

  /** The destination of a newly added file is no file of the list and no earlier destination. */
  lemma FreshDestination(init: seq<string>, f: string, dest: string -> string)
    requires SeparateDestinations(init + [f], dest)
    ensures f !in DestSet(init, dest)
    ensures forall g :: g in init && g != f ==> dest(g) != dest(f)
  {
    var list := init + [f];
    assert f in list;
    forall g | g in init ensures dest(g) != f && (g != f ==> dest(g) != dest(f)) {
      assert g in list;
    }
  }

  /** The new destination gets the new rendering; earlier destinations keep theirs. */
  lemma StoreStepDestinations(files: map<string, string>, out: map<string, string>, init: seq<string>, f: string,
                              dest: string -> string, render: (string, string) -> string)
    requires forall g :: g in init + [f] ==> g in files
    requires f in out && out[f] == files[f]
    requires forall g :: g in init && g != f ==> dest(g) != dest(f)
    requires forall g :: g in init ==> dest(g) in out && out[dest(g)] == render(files[g], g)
    ensures var out' := out[dest(f) := render(out[f], f)];
      forall g :: g in init + [f] ==> dest(g) in out' && out'[dest(g)] == render(files[g], g)
  {
    assert forall g :: g in init + [f] ==> g in init || g == f;
  }

  /** Writing one more destination leaves every path outside the destinations as it was in `files`. */
  lemma StoreStepOthers(files: map<string, string>, out: map<string, string>, before: set<string>, d: string, content: string)
    requires forall k :: k !in before ==> (k in out <==> k in files) && (k in files ==> out[k] == files[k])
    ensures forall k :: k !in before + {d} ==>
      (k in out[d := content] <==> k in files) && (k in files ==> out[d := content][k] == files[k])
  {
  }

  /** One more file, read before being overwritten and written to its own destination, keeps the store in step. */
  lemma StoreStep(files: map<string, string>, out: map<string, string>, init: seq<string>, f: string,
                  dest: string -> string, render: (string, string) -> string)
    requires forall g :: g in init + [f] ==> g in files
    requires SeparateDestinations(init + [f], dest)
    requires StoreRendersFrom(files, out, init, dest, render)
    ensures f in out && out[f] == files[f]
    ensures StoreRendersFrom(files, out[dest(f) := render(out[f], f)], init + [f], dest, render)
  {
    assert forall g :: g in init ==> g in init + [f];
    FreshDestination(init, f, dest);
    DestSetSnoc(init, f, dest);
    StoreStepDestinations(files, out, init, f, dest, render);
    StoreStepOthers(files, out, DestSet(init, dest), dest(f), render(out[f], f));
  }

  /**
   * With separate destinations, every destination holds the rendering of its
   * own source as found before the run, and every other path is untouched.
   */
  lemma {:induction false} RenderedStore<C>(files: map<string, string>, list: seq<string>,
                                           sourceRoot: string, destRoot: string, config: C,
                                           engine: (string, C) -> string)
    requires forall f :: f in list ==> f in files
    requires SeparateDestinations(list, DestinationOf(sourceRoot, destRoot))
    ensures RenderFiles(files, list, sourceRoot, destRoot, config, engine).failure.None?
    ensures StoreRendersFrom(files, RenderFiles(files, list, sourceRoot, destRoot, config, engine).files,
                             list, DestinationOf(sourceRoot, destRoot), RenderingOf(sourceRoot, config, engine))
    decreases |list|
  {
    if list == [] {
    } else {
      var init := list[..|list| - 1];
      var f := list[|list| - 1];
      var dest := DestinationOf(sourceRoot, destRoot);
      assert list == init + [f];
      assert forall g :: g in init ==> g in list;
      assert SeparateDestinations(init, dest);
      RenderedStore(files, init, sourceRoot, destRoot, config, engine);
      var prev := RenderFiles(files, init, sourceRoot, destRoot, config, engine);
      StoreStep(files, prev.files, init, f, dest, RenderingOf(sourceRoot, config, engine));
    }
  }

  /**
   * Rendering is order-independent: any list of the same files, in any order
   * and with any repetitions, leaves the same store.
   */
  lemma RenderOrderIndependent<C>(files: map<string, string>, list1: seq<string>, list2: seq<string>,
                                  sourceRoot: string, destRoot: string, config: C,
                                  engine: (string, C) -> string)
    requires forall f :: f in list1 <==> f in list2
    requires forall f :: f in list1 ==> f in files
    requires SeparateDestinations(list1, DestinationOf(sourceRoot, destRoot))
    ensures RenderFiles(files, list1, sourceRoot, destRoot, config, engine).files
            == RenderFiles(files, list2, sourceRoot, destRoot, config, engine).files
  {
    var dest := DestinationOf(sourceRoot, destRoot);
    assert SeparateDestinations(list2, dest);
    RenderedStore(files, list1, sourceRoot, destRoot, config, engine);
    RenderedStore(files, list2, sourceRoot, destRoot, config, engine);
    var out1 := RenderFiles(files, list1, sourceRoot, destRoot, config, engine).files;
    var out2 := RenderFiles(files, list2, sourceRoot, destRoot, config, engine).files;
    assert DestSet(list1, dest) == DestSet(list2, dest);
    forall k ensures (k in out1 <==> k in out2) && (k in out1 ==> out1[k] == out2[k]) {
      if k in DestSet(list1, dest) {
        var f :| f in list1 && dest(f) == k;
      }
    }
    assert out1.Keys == out2.Keys;
  }

  /** The store the source code writes through `fs`, with its write operations. */
  class Disk {
    var files: map<string, string>

    constructor (initial: map<string, string>)
      ensures files == initial
    {
      files := initial;
    }

    /** `writeFileContent`: creates the parent directories and writes, overwriting. */
    method WriteFileContent(path: string, content: string)
      modifies this
      ensures files == old(files)[path := content]
    {
      files := files[path := content];
    }

    /** `render`: reads one file, renders it if it is a template and writes it to its destination. */
    method Render<C>(filePath: string, sourceRoot: string, destRoot: string, config: C,
                     engine: (string, C) -> string) returns (r: Result<string, string>)
      modifies this
      ensures filePath !in old(files) ==> r == Err(NoSuchFile(filePath)) && files == old(files)
      ensures filePath in old(files) ==>
        && r == Ok(DestinationPath(filePath, sourceRoot, destRoot))
        && files == old(files)[r.value := RenderedContent(old(files)[filePath], filePath, sourceRoot, config, engine)]
    {
      var read := GetFileContent(files, filePath, false);
      if read.Err? {
        return Err(read.error);
      }
      var fileData := read.value;
      var relativePath := RemoveFirst(filePath, sourceRoot);
      if EndsWith(relativePath, TemplateSuffix) {
        relativePath := RemoveFirst(relativePath, TemplateSuffix);
        fileData := engine(fileData, config);
      }
      var newFilePath := PathJoin(destRoot, relativePath);
      WriteFileContent(newFilePath, fileData);
      return Ok(newFilePath);
    }

    /**
     * `renderTemplates`: renders every discovered file in order, telling the
     * callback (when there is one) each destination and then the count.
     */
    method RenderTemplates<C>(packageRoot: string, folder: string, discovered: seq<string>,
                              destRoot: string, config: C, engine: (string, C) -> string,
                              withCallback: bool) returns (messages: seq<string>, outcome: Outcome<string>)
      modifies this
      ensures var report := RenderTemplatesReport(old(files), discovered, TemplateBase(packageRoot, folder),
                                                  destRoot, config, engine, withCallback);
        files == report.files && messages == report.messages && outcome == report.outcome
    {
      var basePath := PathJoin(PathJoin(packageRoot, "templates"), folder);
      if |discovered| == 0 {
        return [], Fail(NoTemplatesMessage(basePath));
      }
      ghost var initial := files;
      ghost var run := RenderFiles(initial, [], basePath, destRoot, config, engine);
      messages := [];
      var i := 0;
      while i < |discovered|
        invariant 0 <= i <= |discovered|
        invariant run == RenderFiles(initial, discovered[..i], basePath, destRoot, config, engine)
        invariant run.failure.None? && files == run.files && messages == (if withCallback then run.rendered else [])
      {
        RenderFilesStep(initial, discovered, i, basePath, destRoot, config, engine);
        var r := Render(discovered[i], basePath, destRoot, config, engine);
        if r.Err? {
          FailureStops(initial, discovered, i + 1, basePath, destRoot, config, engine);
          return messages, Fail(r.error);
        }
        if withCallback {
          messages := messages + [r.value];
        }
        run := RenderFiles(initial, discovered[..i + 1], basePath, destRoot, config, engine);
        i := i + 1;
      }
      assert discovered[..i] == discovered;
      if withCallback {
        messages := messages + [SummaryMessage(|discovered|)];
      }
      outcome := Pass;
    }
  }

  // ---------------------------------------------------------------------------
  // folderIsEmpty and isValidFolderName

  /** The prefix a direct entry of `dir` starts with, as `path.join(dir, '*')` spells it. */
  function EntryPrefix(dir: string): string {
    if dir == "" then "" else TrimTrailingSlashes(dir) + "/"
  }

  /** `path` names a file directly inside `dir`, not one inside a subdirectory. */
  predicate IsDirectEntry(dir: string, path: string) {
    var prefix := EntryPrefix(dir);
    StartsWith(path, prefix) && path[|prefix|..] != "" && '/' !in path[|prefix|..]
  }

  /**
   * `folderIsEmpty`: the glob for `*` with `nodir` lists the files directly
   * inside `dir`, dot-files included; only a listing without entries is empty.
   * Subdirectories are not listed, so a folder holding only directories is empty.
   */
  function FolderIsEmpty(files: map<string, string>, dir: string): (empty: bool)
    ensures empty <==> forall p :: p in files ==> !IsDirectEntry(dir, p)
  {
    var listing := set p | p in files && IsDirectEntry(dir, p);
    assert forall p :: p in files && IsDirectEntry(dir, p) ==> p in listing;
    |listing| == 0
  }

  /** A file written under its bare name makes the folder non-empty. */
  lemma WriteMakesFolderNonEmpty(files: map<string, string>, dir: string, name: string, content: string)
    requires name != "" && '/' !in name
    ensures !FolderIsEmpty(files[PathJoin(dir, name) := content], dir)
  {
    var p := PathJoin(dir, name);
    if dir != "" {
      var prefix := EntryPrefix(dir);
      assert TrimLeadingSlashes(name) == name;
      assert p == prefix + name;
      assert p[|prefix|..] == name;
    }
    assert IsDirectEntry(dir, p);
  }

  /** A file inside a subdirectory leaves an otherwise empty folder empty. */
  lemma NestedFileKeepsFolderEmpty(dir: string, sub: string, name: string, content: string)
    requires dir != "" && sub != "" && '/' !in sub
    ensures FolderIsEmpty(map[TrimTrailingSlashes(dir) + "/" + sub + "/" + name := content], dir)
  {
    var p := TrimTrailingSlashes(dir) + "/" + sub + "/" + name;
    var prefix := EntryPrefix(dir);
    assert p[|prefix|..] == sub + "/" + name;
    assert p[|prefix|..][|sub|] == '/';
  }

  predicate IsFolderNameChar(c: char) {
    ('a' <= c <= 'z') || ('A' <= c <= 'Z') || ('0' <= c <= '9') || c == '_' || c == '-'
  }

  /** The regular expression `[a-z0-9_-]*` with the `i` flag, matched against all of `s`. */
  function MatchesFolderChars(s: string): (ok: bool)
    ensures ok <==> forall i :: 0 <= i < |s| ==> IsFolderNameChar(s[i])
  {
    s == [] || (IsFolderNameChar(s[0]) && MatchesFolderChars(s[1..]))
  }

  /** `isValidFolderName`: `/^[a-z0-9_-]+$/i`, that is one or more letters, digits, `_` or `-`. */
  function IsValidFolderName(folderName: string): (ok: bool)
    ensures ok <==> folderName != "" && forall i :: 0 <= i < |folderName| ==> IsFolderNameChar(folderName[i])
  {
    |folderName| > 0 && MatchesFolderChars(folderName)
  }
}
