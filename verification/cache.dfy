/** The bundle cache engine (`Sprockets_Cache`): resolving a manifest's file
    list to a fingerprinted bundle path, rebuilding a missing bundle from
    per-file cached outputs, and garbage-collecting superseded artifacts.
    The file system is threaded through as a `Store` value; `md5`, the
    compiler and the clock are uninterpreted `Tools`. */
module Cache {
  import opened Results
  import opened Strings
  import opened Glob
  import opened FileStore

  // ---------------------------------------------------------------------
  // Configuration, collaborators and the record of what a run did

  /** The instance's configured directories and minification settings. */
  datatype Config = Config(
    assetCompileDir: string,  // asset_compile_dir
    jsDir: string,            // js_dir
    cssDir: string,           // css_dir
    cacheJsDir: string,       // cache_js_dir
    cacheCssDir: string,      // cache_css_dir
    minifyFlag: string,       // minify_flag, the marker put in file names
    minify: bool)             // minify, passed to the compiler

  /** The collaborators: the digest, the compiler (`None` when it throws)
      and the clock reading that stamps every file written. */
  datatype Tools = Tools(md5: string -> string, compile: (string, bool) -> Option<string>, now: nat)

  datatype Kind = Script | Style

  /** The `file_asset_dir` and `file_cache_dir` instance fields. */
  datatype Dirs = Dirs(assetDir: string, cacheDir: string)

  /** One observable action of a resolution, in the order it happened. */
  datatype Event =
    | Reused(file: string, path: string, content: string)  // per-file cache hit
    | Compiled(file: string, output: Option<string>)        // compiler invoked
    | Saved(path: string, content: string)                  // save_file succeeded
    | Swept(keep: string, removed: set<string>)              // remove_stale_files

  /** A resolution's outcome: the final store, the directory fields as the
      instance is left with them, the events, and the bundle path or the
      exception thrown. */
  datatype Run = Run(store: Store, dirs: Dirs, trace: seq<Event>, result: Result<string>)

  // ---------------------------------------------------------------------
  // What the events say

  /** The source files handled per file, in order. */
  function FilesOf(t: seq<Event>): seq<string>
  {
    if |t| == 0 then []
    else
      (match t[0]
       case Reused(f, _, _) => [f]
       case Compiled(f, _) => [f]
       case Saved(_, _) => []
       case Swept(_, _) => [])
      + FilesOf(t[1..])
  }

  /** The per-file outputs, reused or freshly compiled, in order. */
  function OutputsOf(t: seq<Event>): seq<string>
  {
    if |t| == 0 then []
    else
      (match t[0]
       case Reused(_, _, c) => [c]
       case Compiled(_, Some(o)) => [o]
       case Compiled(_, None) => []
       case Saved(_, _) => []
       case Swept(_, _) => [])
      + OutputsOf(t[1..])
  }

  /** The files the compiler was invoked on, in order. */
  function CompiledFiles(t: seq<Event>): seq<string>
  {
    if |t| == 0 then []
    else (if t[0].Compiled? then [t[0].file] else []) + CompiledFiles(t[1..])
  }

  /** Each handled file paired with the output it contributed, in order:
      a reuse with the cached content, a compile with the compiler's output.
      A failed compile contributes no pair. */
  function Handled(t: seq<Event>): seq<(string, string)>
  {
    if |t| == 0 then []
    else
      (match t[0]
       case Reused(f, _, c) => [(f, c)]
       case Compiled(f, Some(o)) => [(f, o)]
       case Compiled(_, None) => []
       case Saved(_, _) => []
       case Swept(_, _) => [])
      + Handled(t[1..])
  }

  /** The files of a list of pairs. */
  function Firsts(h: seq<(string, string)>): seq<string>
  {
    if |h| == 0 then [] else [h[0].0] + Firsts(h[1..])
  }

  /** The outputs of a list of pairs. */
  function Seconds(h: seq<(string, string)>): seq<string>
  {
    if |h| == 0 then [] else [h[0].1] + Seconds(h[1..])
  }

  /** No compiler invocation in the trace failed. */
  predicate NoFailedCompile(t: seq<Event>) {
    forall j :: 0 <= j < |t| && t[j].Compiled? ==> t[j].output.Some?
  }

  /** Without a failed compile, the files and the outputs of a trace are the
      two halves of its pairs: the i-th output belongs to the i-th file. */
  lemma {:induction false} HandledAligned(t: seq<Event>)
    ensures NoFailedCompile(t) ==> Firsts(Handled(t)) == FilesOf(t) && Seconds(Handled(t)) == OutputsOf(t)
    decreases |t|
  {
    if |t| > 0 && NoFailedCompile(t) {
      assert NoFailedCompile(t[1..]) by {
        forall j | 0 <= j < |t[1..]| && t[1..][j].Compiled?
          ensures t[1..][j].output.Some?
        {
          assert t[1..][j] == t[j + 1];
        }
      }
      HandledAligned(t[1..]);
      assert t[0].Compiled? ==> t[0].output.Some?;
      var h := Handled(t);
      match t[0]
      case Reused(f, _, c) =>
        assert h == [(f, c)] + Handled(t[1..]);
        assert h[1..] == Handled(t[1..]);
      case Compiled(f, o) =>
        assert h == [(f, o.value)] + Handled(t[1..]);
        assert h[1..] == Handled(t[1..]);
      case Saved(_, _) =>
        assert h == Handled(t[1..]);
      case Swept(_, _) =>
        assert h == Handled(t[1..]);
    }
  }

  lemma NoFailedCompileAppend(a: seq<Event>, b: seq<Event>)
    requires NoFailedCompile(a) && NoFailedCompile(b)
    ensures NoFailedCompile(a + b)
  {
    forall j | 0 <= j < |a + b| && (a + b)[j].Compiled?
      ensures (a + b)[j].output.Some?
    {
      if j >= |a| {
        assert (a + b)[j] == b[j - |a|];
      }
    }
  }

  /** Every sweep comes immediately after the successful save of the path
      it keeps, and never removes that path. */
  predicate SaveThenSweep(t: seq<Event>) {
    forall j :: 0 <= j < |t| && t[j].Swept? ==>
      && 0 < j
      && t[j - 1].Saved?
      && t[j - 1].path == Trim(t[j].keep)
      && t[j].keep !in t[j].removed
  }

  /** The trace does not open with a sweep. */
  predicate OpensUnswept(t: seq<Event>) {
    |t| > 0 ==> !t[0].Swept?
  }

  /** Every compiler event records what the compiler returns for that file. */
  predicate CompilerConsulted(tools: Tools, minify: bool, t: seq<Event>) {
    forall j :: 0 <= j < |t| && t[j].Compiled? ==> t[j].output == tools.compile(t[j].file, minify)
  }

  lemma {:induction false} FilesOfAppend(a: seq<Event>, b: seq<Event>)
    ensures FilesOf(a + b) == FilesOf(a) + FilesOf(b)
    ensures OutputsOf(a + b) == OutputsOf(a) + OutputsOf(b)
    ensures CompiledFiles(a + b) == CompiledFiles(a) + CompiledFiles(b)
    ensures Handled(a + b) == Handled(a) + Handled(b)
    decreases |a|
  {
    if |a| > 0 {
      assert (a + b)[1..] == a[1..] + b;
      FilesOfAppend(a[1..], b);
    } else {
      assert a + b == b;
    }
  }

  /** What a single event contributes. */
  lemma OneEvent(e: Event)
    ensures FilesOf([e]) == (if e.Reused? || e.Compiled? then [e.file] else [])
    ensures OutputsOf([e]) == (if e.Reused? then [e.content]
                               else if e.Compiled? && e.output.Some? then [e.output.value]
                               else [])
    ensures CompiledFiles([e]) == (if e.Compiled? then [e.file] else [])
    ensures Handled([e]) == (if e.Reused? then [(e.file, e.content)]
                             else if e.Compiled? && e.output.Some? then [(e.file, e.output.value)]
                             else [])
  {
    assert [e][1..] == [];
  }

  /** What the three events of a compile-save-sweep say. */
  lemma MissTrace(tools: Tools, minify: bool, file: string, o: string, keep: string, removed: set<string>)
    requires tools.compile(file, minify) == Some(o) && keep !in removed
    ensures var t := [Compiled(file, Some(o)), Saved(Trim(keep), o), Swept(keep, removed)];
      && FilesOf(t) == [file] && OutputsOf(t) == [o] && CompiledFiles(t) == [file]
      && Handled(t) == [(file, o)] && NoFailedCompile(t)
      && SaveThenSweep(t) && OpensUnswept(t) && CompilerConsulted(tools, minify, t)
  {
    var a, b, c := Compiled(file, Some(o)), Saved(Trim(keep), o), Swept(keep, removed);
    var t := [a, b, c];
    assert t == [a] + ([b] + [c]);
    assert FilesOf(t) == [file] && OutputsOf(t) == [o] && CompiledFiles(t) == [file]
           && Handled(t) == [(file, o)] by {
      OneEvent(a);
      OneEvent(b);
      OneEvent(c);
      FilesOfAppend([b], [c]);
      FilesOfAppend([a], [b] + [c]);
    }
  }

  /** What the save-and-sweep of the bundle adds to the loop's events. */
  lemma BundleTrace(tools: Tools, minify: bool, files: seq<string>, head: seq<Event>,
                    keep: string, content: string, removed: set<string>)
    requires FilesOf(head) == files && content == Concat(OutputsOf(head)) && keep !in removed
    requires SaveThenSweep(head) && OpensUnswept(head) && CompilerConsulted(tools, minify, head)
    requires NoFailedCompile(head)
    ensures var t := head + [Saved(Trim(keep), content), Swept(keep, removed)];
      && FilesOf(t) == files && OutputsOf(t) == OutputsOf(head) && Handled(t) == Handled(head)
      && NoFailedCompile(t)
      && SaveThenSweep(t) && OpensUnswept(t) && CompilerConsulted(tools, minify, t)
  {
    var b, c := Saved(Trim(keep), content), Swept(keep, removed);
    OneEvent(b);
    OneEvent(c);
    FilesOfAppend([b], [c]);
    assert [b, c] == [b] + [c];
    FilesOfAppend(head, [b, c]);
    SaveThenSweepAppend(head, [b, c]);
    NoFailedCompileAppend(head, [b, c]);
  }

  lemma SaveThenSweepAppend(a: seq<Event>, b: seq<Event>)
    requires SaveThenSweep(a) && SaveThenSweep(b) && OpensUnswept(b)
    ensures SaveThenSweep(a + b)
  {
    forall j | 0 <= j < |a + b| && (a + b)[j].Swept?
      ensures 0 < j && (a + b)[j - 1].Saved? && (a + b)[j - 1].path == Trim((a + b)[j].keep)
              && (a + b)[j].keep !in (a + b)[j].removed
    {
      if j >= |a| {
        assert (a + b)[j] == b[j - |a|];
        if j > |a| {
          assert (a + b)[j - 1] == b[j - 1 - |a|];
        }
      }
    }
  }

  // ---------------------------------------------------------------------
  // process_files: name split, kind, fingerprint, bundle path

  /** The requested name's stem and lower-cased extension. */
  datatype Requested = Requested(stem: string, ext: string)

  /** Splits the requested name at its last dot; the extension is lower-cased.
      Without a dot the stem is empty and the extension is the name minus its
      first character. */
  function SplitRequested(requested: string): (r: Requested)
    ensures '.' in requested ==>
      && |r.stem| < |requested|
      && requested[..|r.stem|] == r.stem
      && requested[|r.stem|] == '.'
      && '.' !in requested[|r.stem| + 1..]
      && r.ext == Lower(requested[|r.stem| + 1..])
    ensures '.' !in requested ==>
      r.stem == "" && r.ext == Lower(if |requested| == 0 then "" else requested[1..])
  {
    var parts := SplitAtLastDot(requested);
    assert '.' in requested ==> requested[..|parts.0|] == parts.0
                                && requested[|parts.0| + 1..] == parts.1;
    Requested(parts.0, Lower(parts.1))
  }

  /** The `switch` on the extension: scripts and styles; any other extension
      has no case and no default. */
  function KindOf(ext: string): (r: Option<Kind>)
    ensures r == Some(Script) <==> ext == "js" || ext == "coffee"
    ensures r == Some(Style) <==> ext == "css" || ext == "scss" || ext == "less"
    ensures r.Some? <==> ext in AcceptedFileTypes
  {
    if ext == "js" || ext == "coffee" then Some(Script)
    else if ext == "css" || ext == "scss" || ext == "less" then Some(Style)
    else None
  }

  /** The extension the bundle is named with. */
  function NormalizedExt(ext: string): (r: string)
    ensures KindOf(ext) == Some(Script) ==> r == "js"
    ensures KindOf(ext) == Some(Style) ==> r == "css"
    ensures KindOf(ext).None? ==> r == ext
    ensures KindOf(r) == KindOf(ext)
  {
    match KindOf(ext)
    case Some(Script) => "js"
    case Some(Style) => "css"
    case None => ext
  }

  /** The directory fields after the `switch`: set from the configuration
      for a known kind, left as the instance had them otherwise. */
  function SelectDirs(cfg: Config, kind: Option<Kind>, prev: Dirs): Dirs
  {
    match kind
    case Some(Script) => Dirs(cfg.jsDir, cfg.cacheJsDir)
    case Some(Style) => Dirs(cfg.cssDir, cfg.cacheCssDir)
    case None => prev
  }

  /** The directory fields a request for `requested` leaves behind. */
  function RequestDirs(cfg: Config, prev: Dirs, requested: string): Dirs
  {
    SelectDirs(cfg, KindOf(SplitRequested(requested).ext), prev)
  }

  /** The mtimes of all listed files, in list order; a file that is not a
      regular file aborts with `FileNotFound` (the first such file, as
      `GetMtimesFirstMissing` shows). */
  function GetMtimes(st: Store, files: seq<string>): (r: Result<seq<nat>>)
    ensures r.Ok? <==> forall i :: 0 <= i < |files| ==> Trim(files[i]) in st.files
    ensures r.Ok? ==> |r.value| == |files|
                      && forall i :: 0 <= i < |files| ==> r.value[i] == st.files[Trim(files[i])].mtime
    decreases |files|
  {
    if |files| == 0 then Ok([])
    else match GetFileMtime(st, files[0])
      case Err(e) => Err(e)
      case Ok(m) =>
        match GetMtimes(st, files[1..])
        case Err(e) =>
          assert forall i :: 0 < i < |files| ==> files[i] == files[1..][i - 1];
          Err(e)
        case Ok(ms) =>
          assert forall i :: 0 < i < |files| ==> files[i] == files[1..][i - 1];
          Ok([m] + ms)
  }

  /** The error `GetMtimes` reports names the first listed file that is
      missing. */
  lemma {:induction false} GetMtimesFirstMissing(st: Store, files: seq<string>)
    requires GetMtimes(st, files).Err?
    ensures exists i :: 0 <= i < |files| && FirstMissing(st, files, i)
                        && GetMtimes(st, files).error == FileNotFound(Trim(files[i]))
    decreases |files|
  {
    if Trim(files[0]) !in st.files {
      assert FirstMissing(st, files, 0);
    } else {
      GetMtimesFirstMissing(st, files[1..]);
      var i :| 0 <= i < |files| - 1 && FirstMissing(st, files[1..], i)
               && GetMtimes(st, files[1..]).error == FileNotFound(Trim(files[1..][i]));
      assert FirstMissing(st, files, i + 1);
    }
  }

  /** `files[i]` is missing from the store and every earlier file is present. */
  predicate FirstMissing(st: Store, files: seq<string>, i: nat)
    requires i < |files|
  {
    Trim(files[i]) !in st.files && forall k :: 0 <= k < i ==> Trim(files[k]) in st.files
  }

  /** The path up to the fingerprint: `asset_compile_dir . file_asset_dir .
      stem . "_"`. */
  function BundlePrefix(cfg: Config, dirs: Dirs, stem: string): string
  {
    cfg.assetCompileDir + dirs.assetDir + stem + "_"
  }

  /** The path after the fingerprint: `minify_flag . "." . ext`. */
  function Suffix(cfg: Config, ext: string): string
  {
    cfg.minifyFlag + "." + ext
  }

  /** `sprockets_file_full_path`. The fingerprint can be read back from
      between the prefix and the suffix. */
  function BundlePath(cfg: Config, dirs: Dirs, stem: string, fp: string, ext: string): (r: string)
    ensures var pre := BundlePrefix(cfg, dirs, stem);
      && |r| == |pre| + |fp| + |Suffix(cfg, ext)|
      && r[..|pre|] == pre && pre[|pre| - 1] == '_'
      && r[|pre|..|pre| + |fp|] == fp
      && r[|pre| + |fp|..] == Suffix(cfg, ext)
  {
    BundlePrefix(cfg, dirs, stem) + fp + Suffix(cfg, ext)
  }

  /** The bundle fingerprint: the digest of the mtimes joined with no
      separator. */
  function Fingerprint(tools: Tools, mtimes: seq<nat>): string
  {
    tools.md5(Join(mtimes))
  }

  /** The bundle path a request resolves to, given the files' mtimes. */
  function ExpectedBundle(cfg: Config, tools: Tools, prev: Dirs, requested: string, mtimes: seq<nat>): string
  {
    var req := SplitRequested(requested);
    BundlePath(cfg, RequestDirs(cfg, prev, requested), req.stem,
               Fingerprint(tools, mtimes), NormalizedExt(req.ext))
  }

  // ---------------------------------------------------------------------
  // reprocess_files: per-file cache paths

  /** The per-file cache path up to the mtime: the cache dir, the stem of
      the path relative to the asset dir (`explode(file_asset_dir, $file)[1]`)
      with `/` flattened to `-`, and `_`. */
  function CachePrefix(dirs: Dirs, file: string): string
  {
    dirs.cacheDir + Flatten(SplitAtLastDot(ExplodeSecond(file, dirs.assetDir)).0) + "_"
  }

  /** The per-file cache path after the mtime; the extension is the file's
      own, not normalised. */
  function CacheSuffix(cfg: Config, dirs: Dirs, file: string): string
  {
    Suffix(cfg, SplitAtLastDot(ExplodeSecond(file, dirs.assetDir)).1)
  }

  /** `expected_cached_file` for a file with modification time `mtime`. The
      decimal mtime can be read back from between the prefix and the
      suffix. */
  function PerFilePath(cfg: Config, dirs: Dirs, file: string, mtime: nat): (r: string)
    ensures var pre := CachePrefix(dirs, file);
      var digits := NatToString(mtime);
      && |r| == |pre| + |digits| + |CacheSuffix(cfg, dirs, file)|
      && r[..|pre|] == pre && pre[|pre| - 1] == '_'
      && r[|pre|..|pre| + |digits|] == digits
      && r[|pre| + |digits|..] == CacheSuffix(cfg, dirs, file)
  {
    CachePrefix(dirs, file) + NatToString(mtime) + CacheSuffix(cfg, dirs, file)
  }

  // ---------------------------------------------------------------------
  // remove_stale_files

  /** What the sweep unlinks: the glob matches other than the kept path. */
  function StaleMatches(st: Store, pattern: string, keep: string): set<string>
  {
    set p | p in st.files && Matches(pattern, p) && p != keep
  }

  /** `remove_stale_files`: every path matching the pattern except the one
      to keep is deleted; all other files are untouched. */
  function RemoveStaleFiles(st: Store, pattern: string, keep: string): (r: Store)
    ensures r.denied == st.denied
    ensures forall p :: p in r.files <==> p in st.files && (p == keep || !Matches(pattern, p))
    ensures forall p :: p in r.files ==> r.files[p] == st.files[p]
  {
    st.(files := st.files - StaleMatches(st, pattern, keep))
  }

  /** The `foreach` over the glob result, unlinking one path at a time, in
      whatever order `glob` lists them. */
  method SweepStale(st: Store, pattern: string, keep: string) returns (r: Store)
    ensures r == RemoveStaleFiles(st, pattern, keep)
    ensures keep in st.files ==> keep in r.files && r.files[keep] == st.files[keep]
  {
    var matches := set p | p in st.files && Matches(pattern, p);
    var files := st.files;
    var todo := matches;
    while todo != {}
      invariant todo <= matches
      invariant files == st.files - (matches - todo - {keep})
      decreases todo
    {
      var p :| p in todo;
      if p != keep {
        files := files - {p};
      }
      todo := todo - {p};
    }
    assert matches - {} - {keep} == StaleMatches(st, pattern, keep);
    r := st.(files := files);
  }

  // ---------------------------------------------------------------------
  // reprocess_files: one file

  /** The outcome of handling one listed file. */
  datatype Step = Step(store: Store, trace: seq<Event>, output: Result<string>)

  /** The per-file cache path for `file` at its current mtime. */
  function CachePathNow(cfg: Config, dirs: Dirs, st: Store, file: string): string
    requires Trim(file) in st.files
  {
    PerFilePath(cfg, dirs, file, st.files[Trim(file)].mtime)
  }

  /** The cache-miss branch for a file with mtime `m`: compile, save the
      output at the per-file path, then sweep that path's siblings. */
  function CompileAndCache(cfg: Config, tools: Tools, dirs: Dirs, st: Store, file: string, m: nat): (r: Step)
    ensures var path := PerFilePath(cfg, dirs, file, m);
      var compiled := tools.compile(file, cfg.minify);
      && (r.output.Ok? <==> compiled.Some? && compiled.value != "" && Trim(path) !in st.denied)
      && (r.output.Ok? ==> r.output.value == compiled.value)
      && (compiled.None? ==> r.store == st && r.output == Err(CompileError(file)))
      && (compiled.Some? && r.output.Err? ==> r.output == Err(FileException(path)))
    ensures r.output.Ok? ==> FilesOf(r.trace) == [file] && OutputsOf(r.trace) == [r.output.value]
    ensures r.output.Ok? ==> Handled(r.trace) == [(file, r.output.value)] && NoFailedCompile(r.trace)
    ensures r.output.Err? ==> FilesOf(r.trace) <= [file]
    ensures SaveThenSweep(r.trace) && OpensUnswept(r.trace)
    ensures CompilerConsulted(tools, cfg.minify, r.trace)
  {
    var path := PerFilePath(cfg, dirs, file, m);
    var compiled := tools.compile(file, cfg.minify);
    match compiled
    case None => Step(st, [Compiled(file, None)], Err(CompileError(file)))
    case Some(o) =>
      var saved := SaveFile(st, path, o, tools.now);
      match saved.outcome
      case Fail(e) => Step(saved.store, [Compiled(file, compiled)], Err(e))
      case Pass =>
        var pattern := ReplaceAll(path, NatToString(m), "*");
        var removed := StaleMatches(saved.store, pattern, path);
        MissTrace(tools, cfg.minify, file, o, path, removed);
        Step(RemoveStaleFiles(saved.store, pattern, path),
             [Compiled(file, compiled), Saved(Trim(path), o), Swept(path, removed)],
             Ok(o))
  }

  /** The cache-hit branch: read the output cached at `path`. */
  function ReuseCached(tools: Tools, minify: bool, st: Store, file: string, path: string): (r: Step)
    ensures r.store == st && CompiledFiles(r.trace) == []
    ensures r.output == ReadSource(st, path)
    ensures r.output.Ok? ==> FilesOf(r.trace) == [file] && OutputsOf(r.trace) == [r.output.value]
    ensures r.output.Ok? ==> Handled(r.trace) == [(file, r.output.value)] && NoFailedCompile(r.trace)
    ensures r.output.Err? ==> r.trace == []
    ensures SaveThenSweep(r.trace) && OpensUnswept(r.trace)
    ensures CompilerConsulted(tools, minify, r.trace)
  {
    match ReadSource(st, path)
    case Ok(c) =>
      OneEvent(Reused(file, path, c));
      Step(st, [Reused(file, path, c)], Ok(c))
    case Err(e) => Step(st, [], Err(e))
  }

  /** One iteration of the loop in `reprocess_files`: reuse the cached output
      when its path exists; otherwise compile, save, and sweep the siblings. */
  function ReprocessStep(cfg: Config, tools: Tools, dirs: Dirs, st: Store, file: string): (r: Step)
    ensures r.output.Ok? ==> FilesOf(r.trace) == [file] && OutputsOf(r.trace) == [r.output.value]
    ensures r.output.Ok? ==> Handled(r.trace) == [(file, r.output.value)] && NoFailedCompile(r.trace)
    ensures r.output.Err? ==> FilesOf(r.trace) <= [file]
    ensures SaveThenSweep(r.trace) && OpensUnswept(r.trace)
    ensures CompilerConsulted(tools, cfg.minify, r.trace)
  {
    match GetFileMtime(st, file)
    case Err(e) => Step(st, [], Err(e))
    case Ok(m) =>
      var path := PerFilePath(cfg, dirs, file, m);
      if FileExists(st, path) then ReuseCached(tools, cfg.minify, st, file, path)
      else CompileAndCache(cfg, tools, dirs, st, file, m)
  }

  // ---------------------------------------------------------------------
  // reprocess_files: the loop and the bundle

  /** The outcome of the per-file loop: `compiled_source` on success. */
  datatype LoopRun = LoopRun(store: Store, trace: seq<Event>, result: Result<string>)

  /** The `foreach` in `reprocess_files`, with `acc` the `compiled_source`
      built so far. The first exception ends the loop; what earlier files
      wrote stays in the store. */
  function ReprocessLoop(cfg: Config, tools: Tools, dirs: Dirs, st: Store, files: seq<string>, acc: string): (r: LoopRun)
    ensures r.result.Ok? ==> FilesOf(r.trace) == files
                             && r.result.value == acc + Concat(OutputsOf(r.trace))
    ensures r.result.Ok? ==> NoFailedCompile(r.trace)
                             && Firsts(Handled(r.trace)) == files
                             && r.result.value == acc + Concat(Seconds(Handled(r.trace)))
    ensures FilesOf(r.trace) <= files
    ensures SaveThenSweep(r.trace) && OpensUnswept(r.trace)
    ensures CompilerConsulted(tools, cfg.minify, r.trace)
    decreases |files|
  {
    if |files| == 0 then LoopRun(st, [], Ok(acc))
    else
      var step := ReprocessStep(cfg, tools, dirs, st, files[0]);
      match step.output
      case Err(e) =>
        LoopStop(files, step.trace);
        LoopRun(step.store, step.trace, Err(e))
      case Ok(o) =>
        var rest := ReprocessLoop(cfg, tools, dirs, step.store, files[1..], acc + o);
        LoopCompose(tools, cfg.minify, files, acc, o, step.trace, rest.trace, rest.result);
        HandledAligned(step.trace + rest.trace);
        LoopRun(rest.store, step.trace + rest.trace, rest.result)
  }

  /** A successful first step hands its store and output on to the rest
      of the loop, and its events come first. */
  lemma LoopUnfold(cfg: Config, tools: Tools, dirs: Dirs, st: Store, files: seq<string>, acc: string)
    requires |files| > 0
    requires ReprocessStep(cfg, tools, dirs, st, files[0]).output.Ok?
    ensures var step := ReprocessStep(cfg, tools, dirs, st, files[0]);
      var rest := ReprocessLoop(cfg, tools, dirs, step.store, files[1..], acc + step.output.value);
      ReprocessLoop(cfg, tools, dirs, st, files, acc) == LoopRun(rest.store, step.trace + rest.trace, rest.result)
  {
  }

  /** A first step that failed has touched at most the first file. */
  lemma LoopStop(files: seq<string>, head: seq<Event>)
    requires |files| > 0 && FilesOf(head) <= [files[0]]
    ensures FilesOf(head) <= files
  {
  }

  /** The facts about one file's events and the rest of the loop's events
      combine into the same facts about the whole loop. */
  lemma LoopCompose(tools: Tools, minify: bool, files: seq<string>, acc: string, o: string,
                    head: seq<Event>, tail: seq<Event>, result: Result<string>)
    requires |files| > 0
    requires FilesOf(head) == [files[0]] && OutputsOf(head) == [o]
    requires SaveThenSweep(head) && OpensUnswept(head) && CompilerConsulted(tools, minify, head)
    requires NoFailedCompile(head)
    requires result.Ok? ==> FilesOf(tail) == files[1..] && result.value == acc + o + Concat(OutputsOf(tail))
                            && NoFailedCompile(tail)
    requires FilesOf(tail) <= files[1..]
    requires SaveThenSweep(tail) && OpensUnswept(tail) && CompilerConsulted(tools, minify, tail)
    ensures result.Ok? ==> FilesOf(head + tail) == files
                           && result.value == acc + Concat(OutputsOf(head + tail))
                           && NoFailedCompile(head + tail)
    ensures FilesOf(head + tail) <= files
    ensures SaveThenSweep(head + tail) && OpensUnswept(head + tail)
    ensures CompilerConsulted(tools, minify, head + tail)
  {
    assert files == [files[0]] + files[1..];
    FilesOfAppend(head, tail);
    SaveThenSweepAppend(head, tail);
    if result.Ok? {
      NoFailedCompileAppend(head, tail);
    }
    assert Concat([o] + OutputsOf(tail)) == o + Concat(OutputsOf(tail)) by {
      assert ([o] + OutputsOf(tail))[1..] == OutputsOf(tail);
    }
  }

  /** `reprocess_files` after the loop: the concatenated outputs are saved as
      the bundle, then the other bundles matching its fingerprint pattern
      are swept. */
  function Reprocess(cfg: Config, tools: Tools, dirs: Dirs, st: Store, files: seq<string>,
                     bundlePath: string, fp: string): (r: Run)
    ensures r.dirs == dirs
    ensures r.result.Ok? ==>
      && r.result.value == bundlePath
      && FilesOf(r.trace) == files
      && NoFailedCompile(r.trace) && Firsts(Handled(r.trace)) == files
      && |r.trace| >= 2
      && r.trace[|r.trace| - 2] == Saved(Trim(bundlePath), Concat(Seconds(Handled(r.trace))))
      && r.trace[|r.trace| - 1].Swept? && r.trace[|r.trace| - 1].keep == bundlePath
    ensures r.result.Ok? && Trim(bundlePath) == bundlePath ==>
      && bundlePath in r.store.files
      && r.store.files[bundlePath] == Entry(Concat(Seconds(Handled(r.trace))), tools.now)
    ensures var loop := ReprocessLoop(cfg, tools, dirs, st, files, "");
      loop.result.Err? ==> r.store == loop.store && r.trace == loop.trace && r.result == loop.result
    ensures var loop := ReprocessLoop(cfg, tools, dirs, st, files, "");
      loop.result.Ok? ==>
        && (r.result.Ok? <==> Trim(bundlePath) !in loop.store.denied && loop.result.value != "")
        && (r.result.Err? ==>
              && r.result == Err(FileException(bundlePath))
              && r.trace == loop.trace
              && r.store == SaveFile(loop.store, bundlePath, loop.result.value, tools.now).store)
    ensures FilesOf(r.trace) <= files
    ensures SaveThenSweep(r.trace) && OpensUnswept(r.trace)
    ensures CompilerConsulted(tools, cfg.minify, r.trace)
  {
    var loop := ReprocessLoop(cfg, tools, dirs, st, files, "");
    match loop.result
    case Err(e) => Run(loop.store, dirs, loop.trace, Err(e))
    case Ok(content) =>
      var saved := SaveFile(loop.store, bundlePath, content, tools.now);
      match saved.outcome
      case Fail(e) => Run(saved.store, dirs, loop.trace, Err(e))
      case Pass =>
        var pattern := ReplaceAll(bundlePath, fp, "*");
        var removed := StaleMatches(saved.store, pattern, bundlePath);
        BundleTrace(tools, cfg.minify, files, loop.trace, bundlePath, content, removed);
        var tail := [Saved(Trim(bundlePath), content), Swept(bundlePath, removed)];
        HandledAligned(loop.trace + tail);
        Run(RemoveStaleFiles(saved.store, pattern, bundlePath), dirs, loop.trace + tail, Ok(bundlePath))
  }

  /** `process_files`: split the requested name, select the directories,
      fingerprint the mtimes, and serve the bundle if its path exists,
      otherwise rebuild it. The returned path stands for the include tag
      `generate_include_tag` renders from it. */
  function ProcessFiles(cfg: Config, tools: Tools, prev: Dirs, st: Store, files: seq<string>, requested: string): (r: Run)
    ensures r.dirs == RequestDirs(cfg, prev, requested)
    ensures GetMtimes(st, files).Err? ==>
      r.store == st && r.trace == [] && r.result == Err(GetMtimes(st, files).error)
    ensures GetMtimes(st, files).Ok? ==>
      var path := ExpectedBundle(cfg, tools, prev, requested, GetMtimes(st, files).value);
      && (r.result.Ok? ==> r.result.value == path)
      && (FileExists(st, path) ==> r.store == st && r.trace == [] && r.result == Ok(path))
      && (!FileExists(st, path) ==> FilesOf(r.trace) <= files
                                    && (r.result.Ok? ==> FilesOf(r.trace) == files))
    ensures SaveThenSweep(r.trace)
    ensures CompilerConsulted(tools, cfg.minify, r.trace)
  {
    var req := SplitRequested(requested);
    var dirs := SelectDirs(cfg, KindOf(req.ext), prev);
    match GetMtimes(st, files)
    case Err(e) => Run(st, dirs, [], Err(e))
    case Ok(mtimes) =>
      var fp := Fingerprint(tools, mtimes);
      var path := BundlePath(cfg, dirs, req.stem, fp, NormalizedExt(req.ext));
      if FileExists(st, path) then Run(st, dirs, [], Ok(path))
      else Reprocess(cfg, tools, dirs, st, files, path, fp)
  }
}
