/** Properties of the cache engine that relate several calls, or a call and
    the store it leaves behind. */
module CacheProperties {
  import opened Results
  import opened Strings
  import opened Glob
  import opened FileStore
  import opened Cache

  // ---------------------------------------------------------------------
  // The requested name and its kind

  /** A name with several dots is split at the last one and its extension
      lower-cased; the kind follows the lower-cased extension. */
  lemma SplitRequestedExample()
    ensures SplitRequested("a.b.JS") == Requested("a.b", "js")
    ensures KindOf("js") == Some(Script) && NormalizedExt("coffee") == "js"
  {
    SplitJoin("a.b", "JS");
    assert "a.b" + "." + "JS" == "a.b.JS";
    assert Lower("JS") == "js";
  }

  /** A name without a dot has an empty stem and, as extension, the name
      minus its first character. */
  lemma SplitRequestedWithoutDot()
    ensures SplitRequested("bundle") == Requested("", "undle")
  {
    assert '.' !in "bundle";
    assert "bundle"[1..] == "undle";
    assert Lower("undle") == "undle";
  }

  /** Splitting a name built as stem, dot and dot-free extension gives back
      the stem and the lower-cased extension, for every stem. */
  lemma SplitRequestedJoin(stem: string, ext: string)
    requires '.' !in ext
    ensures SplitRequested(stem + "." + ext) == Requested(stem, Lower(ext))
  {
    SplitJoin(stem, ext);
  }

  /** The directory fields a request `stem.ext` leaves: the script
      directories for `js` and `coffee`, the style directories for `css`,
      `scss` and `less`, in any letter case, and the earlier ones otherwise. */
  lemma RequestDirsFollowKind(cfg: Config, prev: Dirs, stem: string, ext: string)
    requires '.' !in ext
    ensures RequestDirs(cfg, prev, stem + "." + ext)
         == if Lower(ext) in {"js", "coffee"} then Dirs(cfg.jsDir, cfg.cacheJsDir)
            else if Lower(ext) in {"css", "scss", "less"} then Dirs(cfg.cssDir, cfg.cacheCssDir)
            else prev
  {
    SplitRequestedJoin(stem, ext);
  }

  // ---------------------------------------------------------------------
  // The bundle fingerprint and path

  /** The mtimes are joined without a separator, so lists whose digits run
      together alike get the same fingerprint and the same bundle. */
  lemma {:induction false} FingerprintCollision(cfg: Config, tools: Tools, prev: Dirs, requested: string)
    ensures Join([1, 23]) == Join([12, 3]) == "123"
    ensures ExpectedBundle(cfg, tools, prev, requested, [1, 23])
         == ExpectedBundle(cfg, tools, prev, requested, [12, 3])
  {
    assert NatToString(23) == NatToString(2) + ['3'];
    assert NatToString(12) == NatToString(1) + ['2'];
    assert Join([23]) == "23" by { assert [23][1..] == []; }
    assert Join([3]) == "3" by { assert [3][1..] == []; }
    assert [1, 23][1..] == [23];
    assert [12, 3][1..] == [3];
  }

  /** Swapping two distinct mtimes whose renderings are equally long
      changes what is digested. */
  lemma FingerprintInputFollowsOrder(a: nat, b: nat)
    requires a != b && |NatToString(a)| == |NatToString(b)|
    ensures Join([a, b]) != Join([b, a])
  {
    JoinAppend([a], [b]);
    JoinAppend([b], [a]);
    assert [a] + [b] == [a, b] && [b] + [a] == [b, a];
    if Join([a, b]) == Join([b, a]) {
      assert NatToString(a) == Join([a, b])[..|NatToString(a)|];
      assert NatToString(b) == Join([b, a])[..|NatToString(b)|];
      NatToStringInjective(a, b);
    }
  }

  /** Without the equal lengths, order need not show: `[1, 11]` and
      `[11, 1]` both join to `"111"`, so reordering such a manifest keeps
      its bundle. */
  lemma FingerprintOrderCollision(cfg: Config, tools: Tools, prev: Dirs, requested: string)
    ensures Join([1, 11]) == Join([11, 1]) == "111"
    ensures ExpectedBundle(cfg, tools, prev, requested, [1, 11])
         == ExpectedBundle(cfg, tools, prev, requested, [11, 1])
  {
    assert NatToString(11) == NatToString(1) + ['1'];
    JoinAppend([1], [11]);
    JoinAppend([11], [1]);
    assert [1] + [11] == [1, 11] && [11] + [1] == [11, 1];
  }

  /** Filling a slot between a fixed prefix and suffix is injective. */
  lemma FillInjective(pre: string, x: string, y: string, suf: string)
    requires pre + x + suf == pre + y + suf
    ensures x == y
  {
    var s := pre + x + suf;
    assert |x| == |y|;
    assert s[|pre|..|pre| + |x|] == x;
    assert (pre + y + suf)[|pre|..|pre| + |y|] == y;
  }

  /** Different fingerprints name different bundles. */
  lemma BundlePathInjective(cfg: Config, dirs: Dirs, stem: string, fp1: string, fp2: string, ext: string)
    requires BundlePath(cfg, dirs, stem, fp1, ext) == BundlePath(cfg, dirs, stem, fp2, ext)
    ensures fp1 == fp2
  {
    FillInjective(BundlePrefix(cfg, dirs, stem), fp1, fp2, Suffix(cfg, ext));
  }

  /** The bundle sweep's pattern for `stem` also matches the bundles of any
      stem that extends it after a `_`: rebuilding `app.js` removes
      `app_admin_<fp>.js`. */
  lemma BundleSweepReachesLongerStem(cfg: Config, dirs: Dirs, stem: string, more: string, fp: string, ext: string)
    requires '/' !in more && '/' !in fp
    ensures Matches(Fill(BundlePrefix(cfg, dirs, stem), "*", Suffix(cfg, ext)),
                    BundlePath(cfg, dirs, stem + "_" + more, fp, ext))
  {
    var pre := BundlePrefix(cfg, dirs, stem);
    var x := more + "_" + fp;
    assert '/' !in "_";
    assert BundlePath(cfg, dirs, stem + "_" + more, fp, ext) == Fill(pre, x, Suffix(cfg, ext));
    SiblingMatches(pre, x, Suffix(cfg, ext));
  }

  // ---------------------------------------------------------------------
  // Per-file cache paths

  /** Different mtimes give different per-file paths, so an edited file
      never reuses its old output. */
  lemma PerFilePathInjective(cfg: Config, dirs: Dirs, file: string, m1: nat, m2: nat)
    requires PerFilePath(cfg, dirs, file, m1) == PerFilePath(cfg, dirs, file, m2)
    ensures m1 == m2
  {
    FillInjective(CachePrefix(dirs, file), NatToString(m1), NatToString(m2), CacheSuffix(cfg, dirs, file));
    NatToStringInjective(m1, m2);
  }

  /** For a source under the asset dir, the per-file cache path is the cache
      dir, the relative stem with `/` flattened to `-`, `_`, the mtime, the
      minify flag, and the file's own extension. */
  lemma PerFilePathLayout(cfg: Config, dirs: Dirs, root: string, stem: string, ext: string, mtime: nat)
    requires |dirs.assetDir| > 0 && '.' !in ext
    requires Absent(dirs.assetDir, stem + "." + ext)
    requires forall i: nat :: i < |root| ==>
               !OccursAt(root + dirs.assetDir + (stem + "." + ext), dirs.assetDir, i)
    ensures PerFilePath(cfg, dirs, root + dirs.assetDir + stem + "." + ext, mtime)
         == dirs.cacheDir + Flatten(stem) + "_" + NatToString(mtime) + cfg.minifyFlag + "." + ext
  {
    var file := root + dirs.assetDir + stem + "." + ext;
    assert file == root + dirs.assetDir + (stem + "." + ext);
    ExplodeRelative(root, dirs.assetDir, stem + "." + ext);
    SplitJoin(stem, ext);
  }

  // ---------------------------------------------------------------------
  // One file of the rebuild

  /** A listed file that is not a regular file aborts with `FileNotFound`
      before anything is written. */
  lemma StepMissingSource(cfg: Config, tools: Tools, dirs: Dirs, st: Store, file: string)
    requires Trim(file) !in st.files
    ensures ReprocessStep(cfg, tools, dirs, st, file) == Step(st, [], Err(FileNotFound(Trim(file))))
  {
  }

  /** A cache hit reads the cached output and neither compiles, writes nor
      sweeps. */
  lemma StepOnHit(cfg: Config, tools: Tools, dirs: Dirs, st: Store, file: string)
    requires Trim(file) in st.files && FileExists(st, CachePathNow(cfg, dirs, st, file))
    ensures var r := ReprocessStep(cfg, tools, dirs, st, file);
      var path := CachePathNow(cfg, dirs, st, file);
      && r.store == st
      && CompiledFiles(r.trace) == []
      && (r.output.Ok? <==> Trim(path) in st.files && Truthy(st.files[Trim(path)].content))
      && (r.output.Ok? ==> r.output.value == st.files[Trim(path)].content
                           && r.trace == [Reused(file, path, r.output.value)])
      && (r.output.Err? ==> r.output.error == FileNotFound(path) && r.trace == [])
  {
    var r := ReprocessStep(cfg, tools, dirs, st, file);
    if r.output.Ok? {
      OneEvent(r.trace[0]);
    }
  }

  /** A cache miss invokes the compiler on the file; a compiler failure
      leaves the store as it was; a successful save is followed at once by
      the sweep that keeps the new per-file artifact. */
  lemma StepOnMiss(cfg: Config, tools: Tools, dirs: Dirs, st: Store, file: string)
    requires Trim(file) in st.files && !FileExists(st, CachePathNow(cfg, dirs, st, file))
    ensures var r := ReprocessStep(cfg, tools, dirs, st, file);
      var path := CachePathNow(cfg, dirs, st, file);
      var compiled := tools.compile(file, cfg.minify);
      && |r.trace| > 0 && r.trace[0] == Compiled(file, compiled)
      && CompiledFiles(r.trace) == [file]
      && (compiled.None? ==> r.store == st && r.output == Err(CompileError(file)))
      && (r.output.Ok? <==> compiled.Some? && |compiled.value| > 0 && Trim(path) !in st.denied)
      && (compiled.Some? && r.output.Err? ==> r.output == Err(FileException(path)))
      && (r.output.Ok? ==>
            && r.output.value == compiled.value
            && |r.trace| == 3
            && r.trace[1] == Saved(Trim(path), r.output.value)
            && r.trace[2].Swept? && r.trace[2].keep == path)
  {
    var r := ReprocessStep(cfg, tools, dirs, st, file);
    var m := st.files[Trim(file)].mtime;
    var path := CachePathNow(cfg, dirs, st, file);
    var compiled := tools.compile(file, cfg.minify);
    if compiled.Some? {
      var saved := SaveFile(st, path, compiled.value, tools.now);
      if saved.outcome.Pass? {
        var pattern := ReplaceAll(path, NatToString(m), "*");
        MissTrace(tools, cfg.minify, file, compiled.value, path, StaleMatches(saved.store, pattern, path));
      } else {
        OneEvent(Compiled(file, compiled));
      }
    } else {
      OneEvent(Compiled(file, compiled));
    }
  }

  /** A miss on `file` compiles it to a non-empty output and may write its
      per-file path. */
  predicate MissSucceeds(cfg: Config, tools: Tools, dirs: Dirs, st: Store, file: string)
    requires Trim(file) in st.files
  {
    var compiled := tools.compile(file, cfg.minify);
    compiled.Some? && compiled.value != "" && Trim(CachePathNow(cfg, dirs, st, file)) !in st.denied
  }

  /** After a miss that saved its output, the store is the old store with
      the trimmed per-file path written and every other path matching the
      mtime-wildcard pattern removed; nothing else changes. */
  lemma StepMissStore(cfg: Config, tools: Tools, dirs: Dirs, st: Store, file: string)
    requires Trim(file) in st.files && !FileExists(st, CachePathNow(cfg, dirs, st, file))
    requires MissSucceeds(cfg, tools, dirs, st, file)
    ensures var r := ReprocessStep(cfg, tools, dirs, st, file);
      var path := CachePathNow(cfg, dirs, st, file);
      var pattern := ReplaceAll(path, NatToString(st.files[Trim(file)].mtime), "*");
      && r.output == Ok(tools.compile(file, cfg.minify).value)
      && r.store.denied == st.denied
      && (forall p :: p in r.store.files <==>
                        (p == Trim(path) || p in st.files) && (p == path || !Matches(pattern, p)))
      && (forall p :: p in r.store.files ==>
                        r.store.files[p] == if p == Trim(path) then Entry(r.output.value, tools.now)
                                            else st.files[p])
  {
  }

  /** A string built from a prefix, a slot and a suffix. */
  function Fill(pre: string, x: string, suf: string): string
  {
    pre + x + suf
  }

  /** Single survivor per source file: once a miss has saved its output,
      no per-file artifact of the same identifier with another slash-free
      mtime slot remains, while the new one does (for an untrimmed-free path).
      It needs the mtime's digits to appear nowhere else in the path. */
  lemma PerFileSingleSurvivor(cfg: Config, tools: Tools, dirs: Dirs, st: Store, file: string)
    requires Trim(file) in st.files && !FileExists(st, CachePathNow(cfg, dirs, st, file))
    requires MissSucceeds(cfg, tools, dirs, st, file)
    requires var digits := NatToString(st.files[Trim(file)].mtime);
      Absent(digits, CachePrefix(dirs, file)) && Absent(digits, CacheSuffix(cfg, dirs, file))
    ensures var r := ReprocessStep(cfg, tools, dirs, st, file);
      var digits := NatToString(st.files[Trim(file)].mtime);
      var pre := CachePrefix(dirs, file);
      var suf := CacheSuffix(cfg, dirs, file);
      && (forall x :: '/' !in x && x != digits ==> Fill(pre, x, suf) !in r.store.files)
      && (Trim(Fill(pre, digits, suf)) == Fill(pre, digits, suf) ==>
            Fill(pre, digits, suf) in r.store.files
            && r.store.files[Fill(pre, digits, suf)] == Entry(r.output.value, tools.now))
  {
    var r := ReprocessStep(cfg, tools, dirs, st, file);
    var digits := NatToString(st.files[Trim(file)].mtime);
    var pre := CachePrefix(dirs, file);
    var suf := CacheSuffix(cfg, dirs, file);
    var path := CachePathNow(cfg, dirs, st, file);
    assert path == pre + digits + suf;
    assert pre[|pre| - 1] == '_';
    assert '_' !in digits;
    ReplaceInSlot(pre, digits, suf, "*");
    StepMissStore(cfg, tools, dirs, st, file);
    forall x | '/' !in x && x != digits
      ensures Fill(pre, x, suf) !in r.store.files
    {
      SiblingMatches(pre, x, suf);
      if Fill(pre, x, suf) == path {
        FillInjective(pre, x, digits, suf);
      }
    }
  }

  // ---------------------------------------------------------------------
  // The whole loop

  /** Every listed file's per-file artifact exists and reads back. */
  predicate AllCached(cfg: Config, dirs: Dirs, st: Store, files: seq<string>) {
    forall i :: 0 <= i < |files| ==>
      && Trim(files[i]) in st.files
      && FileExists(st, CachePathNow(cfg, dirs, st, files[i]))
      && ReadSource(st, CachePathNow(cfg, dirs, st, files[i])).Ok?
  }

  /** The cached outputs of the listed files, in list order. */
  function CachedOutputs(cfg: Config, dirs: Dirs, st: Store, files: seq<string>): (r: seq<string>)
    requires AllCached(cfg, dirs, st, files)
    ensures |r| == |files|
  {
    if |files| == 0 then []
    else
      assert AllCached(cfg, dirs, st, files[1..]) by {
        forall i | 0 <= i < |files| - 1
          ensures Trim(files[1..][i]) in st.files
        {
          assert files[1..][i] == files[i + 1];
        }
      }
      [ReadSource(st, CachePathNow(cfg, dirs, st, files[0])).value]
      + CachedOutputs(cfg, dirs, st, files[1..])
  }

  /** Dropping the first file keeps the rest cached, and the cached
      outputs split the same way. */
  lemma CachedOutputsCons(cfg: Config, dirs: Dirs, st: Store, files: seq<string>)
    requires |files| > 0 && AllCached(cfg, dirs, st, files)
    ensures AllCached(cfg, dirs, st, files[1..])
    ensures CachedOutputs(cfg, dirs, st, files)
         == [ReadSource(st, CachePathNow(cfg, dirs, st, files[0])).value] + CachedOutputs(cfg, dirs, st, files[1..])
  {
    forall i | 0 <= i < |files| - 1
      ensures Trim(files[1..][i]) in st.files
    {
      assert files[1..][i] == files[i + 1];
    }
  }

  /** Per-file reuse: when every file's artifact is cached, the loop
      compiles nothing, changes nothing, and yields the cached outputs
      concatenated in list order. */
  lemma {:induction false} ReuseAll(cfg: Config, tools: Tools, dirs: Dirs, st: Store, files: seq<string>, acc: string)
    requires AllCached(cfg, dirs, st, files)
    ensures var r := ReprocessLoop(cfg, tools, dirs, st, files, acc);
      && r.store == st
      && CompiledFiles(r.trace) == []
      && OutputsOf(r.trace) == CachedOutputs(cfg, dirs, st, files)
      && r.result == Ok(acc + Concat(CachedOutputs(cfg, dirs, st, files)))
    decreases |files|
  {
    if |files| > 0 {
      StepOnHit(cfg, tools, dirs, st, files[0]);
      var step := ReprocessStep(cfg, tools, dirs, st, files[0]);
      var o := step.output.value;
      CachedOutputsCons(cfg, dirs, st, files);
      ReuseAll(cfg, tools, dirs, st, files[1..], acc + o);
      LoopUnfold(cfg, tools, dirs, st, files, acc);
      var rest := ReprocessLoop(cfg, tools, dirs, st, files[1..], acc + o);
      FilesOfAppend(step.trace, rest.trace);
    }
  }

  /** A one-file loop is that file's step, its output appended. */
  lemma SingleFileLoop(cfg: Config, tools: Tools, dirs: Dirs, st: Store, file: string, acc: string)
    requires ReprocessStep(cfg, tools, dirs, st, file).output.Ok?
    ensures var step := ReprocessStep(cfg, tools, dirs, st, file);
      ReprocessLoop(cfg, tools, dirs, st, [file], acc)
      == LoopRun(step.store, step.trace, Ok(acc + step.output.value))
  {
    assert [file][1..] == [];
    LoopUnfold(cfg, tools, dirs, st, [file], acc);
  }

  /** A two-file loop whose steps both succeed: the second step sees the
      first one's store, the events are the steps' events in order, and
      the result is the two outputs concatenated. */
  lemma PairLoop(cfg: Config, tools: Tools, dirs: Dirs, st: Store, a: string, b: string)
    requires ReprocessStep(cfg, tools, dirs, st, a).output.Ok?
    requires ReprocessStep(cfg, tools, dirs, ReprocessStep(cfg, tools, dirs, st, a).store, b).output.Ok?
    ensures var sa := ReprocessStep(cfg, tools, dirs, st, a);
      var sb := ReprocessStep(cfg, tools, dirs, sa.store, b);
      ReprocessLoop(cfg, tools, dirs, st, [a, b], "")
      == LoopRun(sb.store, sa.trace + sb.trace, Ok(sa.output.value + sb.output.value))
  {
    var sa := ReprocessStep(cfg, tools, dirs, st, a);
    var rest := ReprocessLoop(cfg, tools, dirs, sa.store, [b], sa.output.value);
    assert ReprocessLoop(cfg, tools, dirs, st, [a, b], "") == LoopRun(rest.store, sa.trace + rest.trace, rest.result) by {
      assert [a, b][0] == a && [a, b][1..] == [b];
      LoopUnfold(cfg, tools, dirs, st, [a, b], "");
      assert "" + sa.output.value == sa.output.value;
    }
    SingleFileLoop(cfg, tools, dirs, sa.store, b, sa.output.value);
  }

  /** Per-file reuse next to a miss: with `a` cached and `b`
      not, rebuilding `[a, b]` compiles `b` alone and concatenates `a`'s
      cached output with `b`'s fresh one. */
  lemma ReuseThenRecompile(cfg: Config, tools: Tools, dirs: Dirs, st: Store, a: string, b: string)
    requires Trim(a) in st.files && FileExists(st, CachePathNow(cfg, dirs, st, a))
    requires ReadSource(st, CachePathNow(cfg, dirs, st, a)).Ok?
    requires Trim(b) in st.files && !FileExists(st, CachePathNow(cfg, dirs, st, b))
    requires MissSucceeds(cfg, tools, dirs, st, b)
    ensures var r := ReprocessLoop(cfg, tools, dirs, st, [a, b], "");
      var ca := ReadSource(st, CachePathNow(cfg, dirs, st, a)).value;
      var cb := tools.compile(b, cfg.minify).value;
      && CompiledFiles(r.trace) == [b]
      && OutputsOf(r.trace) == [ca, cb]
      && r.result == Ok(ca + cb)
  {
    var ca := ReadSource(st, CachePathNow(cfg, dirs, st, a)).value;
    var cb := tools.compile(b, cfg.minify).value;
    var sa := ReprocessStep(cfg, tools, dirs, st, a);
    assert sa.store == st && CompiledFiles(sa.trace) == [] && sa.output == Ok(ca) by {
      StepOnHit(cfg, tools, dirs, st, a);
    }
    var sb := ReprocessStep(cfg, tools, dirs, st, b);
    assert CompiledFiles(sb.trace) == [b] && sb.output == Ok(cb) by {
      StepOnMiss(cfg, tools, dirs, st, b);
    }
    assert ReprocessLoop(cfg, tools, dirs, st, [a, b], "") == LoopRun(sb.store, sa.trace + sb.trace, Ok(ca + cb)) by {
      PairLoop(cfg, tools, dirs, st, a, b);
    }
    assert OutputsOf(sa.trace) == [ca] && OutputsOf(sb.trace) == [cb];
    HitThenMiss(sa.trace, sb.trace, b, ca, cb);
  }

  /** The events of a hit followed by those of a miss. */
  lemma HitThenMiss(ta: seq<Event>, tb: seq<Event>, b: string, ca: string, cb: string)
    requires CompiledFiles(ta) == [] && OutputsOf(ta) == [ca]
    requires CompiledFiles(tb) == [b] && OutputsOf(tb) == [cb]
    ensures CompiledFiles(ta + tb) == [b] && OutputsOf(ta + tb) == [ca, cb]
  {
    FilesOfAppend(ta, tb);
    assert [ca] + [cb] == [ca, cb];
  }

  /** A compiled output of exactly "0" is cached, but PHP reads it back as
      false: the next rebuild that reuses it fails with `FileNotFound`. */
  lemma ZeroOutputPoisonsCache(cfg: Config, tools: Tools, dirs: Dirs, st: Store, file: string)
    requires Trim(file) in st.files
    requires var path := CachePathNow(cfg, dirs, st, file);
      && !FileExists(st, path) && Trim(path) == path && path !in st.denied
      && Trim(file) != path
      && !Matches(ReplaceAll(path, NatToString(st.files[Trim(file)].mtime), "*"), Trim(file))
    requires tools.compile(file, cfg.minify) == Some("0")
    ensures var r1 := ReprocessStep(cfg, tools, dirs, st, file);
      && r1.output == Ok("0")
      && ReprocessStep(cfg, tools, dirs, r1.store, file).output
         == Err(FileNotFound(CachePathNow(cfg, dirs, st, file)))
  {
    var r1 := ReprocessStep(cfg, tools, dirs, st, file);
    StepOnMiss(cfg, tools, dirs, st, file);
    StepMissStore(cfg, tools, dirs, st, file);
    var path := CachePathNow(cfg, dirs, st, file);
    assert r1.store.files[Trim(file)] == st.files[Trim(file)];
    assert CachePathNow(cfg, dirs, r1.store, file) == path;
    StepOnHit(cfg, tools, dirs, r1.store, file);
  }

  // ---------------------------------------------------------------------
  // Whole resolutions

  /** The directory fields a request sets are the ones a repeat of it sets. */
  lemma RequestDirsStable(cfg: Config, prev: Dirs, requested: string)
    ensures RequestDirs(cfg, RequestDirs(cfg, prev, requested), requested) == RequestDirs(cfg, prev, requested)
  {
  }

  /** Idempotence: after a successful resolution, resolving the same list
      again with unchanged mtimes takes the fast path: no compile, no write,
      the same bundle path. */
  lemma SecondResolutionIsFastPath(cfg: Config, tools: Tools, prev: Dirs, st: Store, files: seq<string>, requested: string)
    requires ProcessFiles(cfg, tools, prev, st, files, requested).result.Ok?
    requires var r1 := ProcessFiles(cfg, tools, prev, st, files, requested);
      Trim(r1.result.value) == r1.result.value && GetMtimes(r1.store, files) == GetMtimes(st, files)
    ensures var r1 := ProcessFiles(cfg, tools, prev, st, files, requested);
      var r2 := ProcessFiles(cfg, tools, r1.dirs, r1.store, files, requested);
      r2.store == r1.store && r2.trace == [] && r2.result == r1.result && r2.dirs == r1.dirs
  {
    var r1 := ProcessFiles(cfg, tools, prev, st, files, requested);
    var mtimes := GetMtimes(st, files).value;
    var path := ExpectedBundle(cfg, tools, prev, requested, mtimes);
    RequestDirsStable(cfg, prev, requested);
    assert ExpectedBundle(cfg, tools, r1.dirs, requested, mtimes) == path;
    if !FileExists(st, path) {
      var req := SplitRequested(requested);
      var dirs := RequestDirs(cfg, prev, requested);
      assert r1 == Reprocess(cfg, tools, dirs, st, files, path, Fingerprint(tools, mtimes));
    }
    assert FileExists(r1.store, path);
  }

  /** An empty list has a fingerprint too. Without a bundle under it, the
      rebuild saves an empty bundle and throws; the next resolution then
      serves that empty file. */
  lemma EmptyManifestThrowsThenServesEmpty(cfg: Config, tools: Tools, prev: Dirs, st: Store, requested: string)
    requires var path := ExpectedBundle(cfg, tools, prev, requested, []);
      !FileExists(st, path) && Trim(path) == path && path !in st.denied
    ensures var path := ExpectedBundle(cfg, tools, prev, requested, []);
      var r1 := ProcessFiles(cfg, tools, prev, st, [], requested);
      && r1.result == Err(FileException(path))
      && path in r1.store.files && r1.store.files[path].content == ""
      && ProcessFiles(cfg, tools, r1.dirs, r1.store, [], requested).result == Ok(path)
  {
    var path := ExpectedBundle(cfg, tools, prev, requested, []);
    RequestDirsStable(cfg, prev, requested);
    var dirs := RequestDirs(cfg, prev, requested);
    var r1 := ProcessFiles(cfg, tools, prev, st, [], requested);
    assert r1 == Reprocess(cfg, tools, dirs, st, [], path, Fingerprint(tools, []));
    assert ExpectedBundle(cfg, tools, r1.dirs, requested, []) == path;
  }

  /** After a successful rebuild the store is the loop's store with the
      trimmed bundle path written and every other path matching the
      fingerprint-wildcard pattern removed; nothing else changes. */
  lemma BundleStore(cfg: Config, tools: Tools, dirs: Dirs, st: Store, files: seq<string>, bundlePath: string, fp: string)
    ensures var r := Reprocess(cfg, tools, dirs, st, files, bundlePath, fp);
      var loop := ReprocessLoop(cfg, tools, dirs, st, files, "");
      var pattern := ReplaceAll(bundlePath, fp, "*");
      r.result.Ok? ==>
        && loop.result.Ok?
        && r.store.denied == loop.store.denied
        && (forall p :: p in r.store.files <==>
                          (p == Trim(bundlePath) || p in loop.store.files) && (p == bundlePath || !Matches(pattern, p)))
        && (forall p :: p in r.store.files ==>
                          r.store.files[p] == if p == Trim(bundlePath) then Entry(loop.result.value, tools.now)
                                              else loop.store.files[p])
  {
  }

  /** Single surviving bundle: after a rebuild, no bundle with the same
      stem and another slash-free fingerprint slot remains, while the new
      one does. It needs the fingerprint to be non-empty, free of `_`, and
      absent from the rest of the path. */
  lemma BundleSingleSurvivor(cfg: Config, tools: Tools, prev: Dirs, st: Store, files: seq<string>, requested: string)
    requires GetMtimes(st, files).Ok?
    requires !FileExists(st, ExpectedBundle(cfg, tools, prev, requested, GetMtimes(st, files).value))
    requires var fp := Fingerprint(tools, GetMtimes(st, files).value);
      var req := SplitRequested(requested);
      && |fp| > 0 && '_' !in fp
      && Absent(fp, BundlePrefix(cfg, RequestDirs(cfg, prev, requested), req.stem))
      && Absent(fp, Suffix(cfg, NormalizedExt(req.ext)))
    ensures var r := ProcessFiles(cfg, tools, prev, st, files, requested);
      var fp := Fingerprint(tools, GetMtimes(st, files).value);
      var req := SplitRequested(requested);
      var pre := BundlePrefix(cfg, RequestDirs(cfg, prev, requested), req.stem);
      var suf := Suffix(cfg, NormalizedExt(req.ext));
      r.result.Ok? ==>
        && (forall x :: '/' !in x && x != fp ==> Fill(pre, x, suf) !in r.store.files)
        && (Trim(Fill(pre, fp, suf)) == Fill(pre, fp, suf) ==> Fill(pre, fp, suf) in r.store.files)
  {
    var r := ProcessFiles(cfg, tools, prev, st, files, requested);
    if r.result.Err? { return; }
    var mtimes := GetMtimes(st, files).value;
    var fp := Fingerprint(tools, mtimes);
    var req := SplitRequested(requested);
    var dirs := RequestDirs(cfg, prev, requested);
    var pre := BundlePrefix(cfg, dirs, req.stem);
    var suf := Suffix(cfg, NormalizedExt(req.ext));
    var path := ExpectedBundle(cfg, tools, prev, requested, mtimes);
    assert path == pre + fp + suf;
    assert r == Reprocess(cfg, tools, dirs, st, files, path, fp);
    var loop := ReprocessLoop(cfg, tools, dirs, st, files, "");
    var saved := SaveFile(loop.store, path, loop.result.value, tools.now);
    var pattern := ReplaceAll(path, fp, "*");
    assert r.store == RemoveStaleFiles(saved.store, pattern, path);
    assert pre[|pre| - 1] == '_';
    ReplaceInSlot(pre, fp, suf, "*");
    forall x | '/' !in x && x != fp
      ensures Fill(pre, x, suf) !in r.store.files
    {
      SiblingMatches(pre, x, suf);
      if Fill(pre, x, suf) == path {
        FillInjective(pre, x, fp, suf);
      }
    }
  }
}
