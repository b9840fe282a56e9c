/** The file helper the cache engine goes through (`Sprockets_File`), as
    operations on an abstract file store. Every path-taking operation trims
    its argument first; `file_exists` calls made directly by the cache do
    not. */
module FileStore {
  import opened Results
  import opened Strings

  /** One regular file: its bytes and its modification time in seconds. */
  datatype Entry = Entry(content: string, mtime: nat)

  /** The file system: the regular files by path, and the paths a write to
      which fails (missing directory, no permission). */
  datatype Store = Store(files: map<string, Entry>, denied: set<string>)

  /** The extensions `accepted_file_types` lists. */
  const AcceptedFileTypes: set<string> := {"js", "coffee", "css", "scss", "less"}

  /** PHP `file_exists`, untrimmed. */
  predicate FileExists(st: Store, path: string) {
    path in st.files
  }

  /** PHP truthiness of a string: everything but "" and "0". */
  predicate Truthy(s: string) {
    s != "" && s != "0"
  }

  /** `read_source`: the content at the trimmed path; `FileNotFound` when
      the file is missing or its content is falsy. */
  function ReadSource(st: Store, file: string): (r: Result<string>)
    ensures r.Ok? <==> Trim(file) in st.files && Truthy(st.files[Trim(file)].content)
    ensures r.Ok? ==> r.value == st.files[Trim(file)].content
    ensures r.Err? ==> r.error == FileNotFound(file)
  {
    var path := Trim(file);
    if path in st.files && Truthy(st.files[path].content) then Ok(st.files[path].content)
    else Err(FileNotFound(file))
  }

  /** The store after a write, and whether `save_file` threw. */
  datatype Save = Save(store: Store, outcome: Outcome)

  /** `save_file`: `file_put_contents` at the trimmed path, stamped with the
      clock reading `now`; throws `FileException` when the write fails or
      reports 0 bytes. An empty source is therefore written (the file is
      created or truncated) and still throws. */
  function SaveFile(st: Store, filePath: string, source: string, now: nat): (r: Save)
    ensures r.store.denied == st.denied
    ensures r.outcome.Pass? <==> Trim(filePath) !in st.denied && |source| > 0
    ensures r.outcome.Fail? ==> r.outcome.error == FileException(filePath)
    ensures Trim(filePath) in st.denied ==> r.store == st
    ensures Trim(filePath) !in st.denied ==>
              && Trim(filePath) in r.store.files
              && r.store.files[Trim(filePath)] == Entry(source, now)
              && r.store.files.Keys == st.files.Keys + {Trim(filePath)}
              && forall p :: p in st.files && p != Trim(filePath) ==> r.store.files[p] == st.files[p]
  {
    var path := Trim(filePath);
    if path in st.denied then Save(st, Fail(FileException(filePath)))
    else
      var written := st.(files := st.files[path := Entry(source, now)]);
      if |source| == 0 then Save(written, Fail(FileException(filePath)))
      else Save(written, Pass)
  }

  /** `get_filemtime`: the mtime of the trimmed path; `FileNotFound` when it
      is not a regular file. */
  function GetFileMtime(st: Store, file: string): (r: Result<nat>)
    ensures r.Ok? <==> Trim(file) in st.files
    ensures r.Ok? ==> r.value == st.files[Trim(file)].mtime
    ensures r.Err? ==> r.error == FileNotFound(Trim(file))
  {
    var path := Trim(file);
    if path !in st.files then Err(FileNotFound(path)) else Ok(st.files[path].mtime)
  }

  /** The cache's own `file_exists` does not trim: on a trimmed path it
      agrees with `get_filemtime`, while a path with a leading blank can
      exist for one and be missing for the other. */
  lemma FileExistsUntrimmed(st: Store, path: string)
    ensures Trim(path) == path ==> (FileExists(st, path) <==> GetFileMtime(st, path).Ok?)
    ensures var blank := Store(map[" a" := Entry("x", 0)], {});
      FileExists(blank, " a") && GetFileMtime(blank, " a") == Err(FileNotFound("a"))
  {
    assert Trim(" a") == "a" by {
      assert " a"[1..] == "a";
      assert TrimLeft(" a") == "a";
      assert TrimRight("a") == "a";
    }
  }

  /** Paths that trim alike are the same file to every store operation. */
  lemma TrimmedPathsAgree(st: Store, p: string, q: string, source: string, now: nat)
    requires Trim(p) == Trim(q)
    ensures GetFileMtime(st, p) == GetFileMtime(st, q)
    ensures ReadSource(st, p).Ok? <==> ReadSource(st, q).Ok?
    ensures ReadSource(st, p).Ok? ==> ReadSource(st, p) == ReadSource(st, q)
    ensures SaveFile(st, p, source, now).store == SaveFile(st, q, source, now).store
  {
  }

  /** A write that is not refused is read back: the mtime is the write's
      clock reading, and the source is returned unless PHP reads it as
      false; `save_file` itself reports success exactly for a non-empty
      source. */
  lemma SaveThenRead(st: Store, filePath: string, source: string, now: nat)
    requires Trim(filePath) !in st.denied
    ensures var saved := SaveFile(st, filePath, source, now);
      && (saved.outcome.Pass? <==> source != "")
      && GetFileMtime(saved.store, filePath) == Ok(now)
      && ReadSource(saved.store, filePath)
         == (if Truthy(source) then Ok(source) else Err(FileNotFound(filePath)))
  {
  }

  /** A refused write changes nothing a later read can see. */
  lemma RefusedSaveInvisible(st: Store, filePath: string, source: string, now: nat, other: string)
    requires Trim(filePath) in st.denied
    ensures var saved := SaveFile(st, filePath, source, now);
      && saved.outcome == Fail(FileException(filePath))
      && GetFileMtime(saved.store, other) == GetFileMtime(st, other)
      && ReadSource(saved.store, other) == ReadSource(st, other)
  {
  }

  /** `fix_trailing_slash`: a path that ends in `/`. */
  function FixTrailingSlash(s: string): (r: string)
    ensures |r| > 0 && r[|r| - 1] == '/'
    ensures |s| > 0 && s[|s| - 1] == '/' ==> r == s
    ensures !(|s| > 0 && s[|s| - 1] == '/') ==> r == s + "/"
  {
    if |s| > 0 && s[|s| - 1] == '/' then s else s + "/"
  }

  lemma FixTrailingSlashIdempotent(s: string)
    ensures FixTrailingSlash(FixTrailingSlash(s)) == FixTrailingSlash(s)
  {
  }
}
