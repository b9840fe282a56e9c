# Fuel Sprockets bundle cache, modelled in Dafny

This project models the bundle cache engine of Fuel Sprockets
(`Sprockets_Cache`) and the file helper it goes through (`Sprockets_File`).

A page asks for a bundle by name, for example `application.js`, together
with the ordered list of source files the bundle's manifest names. The
engine works in three parts:

- **Resolver** (`process_files`). It splits the requested name at its last
  dot and lower-cases the extension. The extension selects the script or
  style directories. It then digests the files' modification times, joined
  with no separator, into a fingerprint, and builds the bundle path from
  that fingerprint. When the path exists it serves the bundle as it is.
  Otherwise it rebuilds it.
- **Rebuilder** (`reprocess_files`). For each file in list order it derives
  a per-file cache path that contains the file's mtime. It reuses the output
  cached there when that path exists. Otherwise it compiles the file, saves
  the output, and sweeps that path's older siblings. It concatenates the
  outputs, saves the bundle, and sweeps the older bundles.
- **Garbage collector** (`remove_stale_files`). It deletes every path that
  matches a glob pattern except the one to keep.

The file system is a value, `Store`. It maps each path to the file's content
and mtime, and it holds the set of paths a write to which fails. Every
operation takes a store and returns the store it leaves behind. The digest
(`md5`), the compiler and the clock are uninterpreted fields of `Tools`. A
rebuild also returns a trace of `Event`s: per-file reuse, compiler call,
successful save and sweep, in the order they happen. The ordering
properties are stated over that trace: list order, "a sweep follows the save
of the path it keeps", and "the compiler was consulted for exactly these
files".

PHP's behaviour is modelled as the code has it, edge cases included:

- `trim` strips space, tab, line feed, carriage return, NUL and vertical
  tab.
- `strtolower` folds ASCII only.
- A name without a dot has an empty stem, and its "extension" is the name
  minus its first character (`strrpos` returns `false`, which `substr`
  reads as 0).
- `str_replace` replaces non-overlapping occurrences from left to right.
- `explode(...)[1]` of a path without the delimiter is the empty string.
- `read_source` treats the contents `""` and `"0"` as failures.
- `save_file` of an empty source writes the file and then throws.

Files:

- `results.dfy`: `Option`, `Result` and the exceptions the code throws.
- `strings.dfy`: the PHP string built-ins used.
- `glob.dfy`: the `*` wildcard.
- `file_store.dfy`: `Sprockets_File`.
- `cache.dfy`: `Sprockets_Cache`.
- `cache_properties.dfy`: properties that relate several calls.

PHP behaviour worth noting, modelled as the code has it:

- An extension other than `js`, `coffee`, `css`, `scss` or `less` is not an
  error. The `switch` has no default, so the directory fields keep the
  values an earlier request on the same instance left in them (`prev` in
  `ProcessFiles`), and the bundle is named with the raw extension.
- An empty file list is not rejected. It gets a fingerprint like any other
  list. Its rebuild saves an empty bundle and throws `FileException`, and
  the next request serves that empty file
  (`CacheProperties.EmptyManifestThrowsThenServesEmpty`).
- A read failure is `FileNotFound`, not a separate read error. It also
  covers cached content that PHP reads as false
  (`CacheProperties.ZeroOutputPoisonsCache`).
- The mtimes are joined without a separator, so two different lists can
  digest alike: `[1, 23]` and `[12, 3]`, or the reordered `[1, 11]` and
  `[11, 1]` (`CacheProperties.FingerprintCollision`,
  `CacheProperties.FingerprintOrderCollision`).
- The sweeps' `*` stands for any text without `/`, `_` included. The
  bundle sweep of `app.js` therefore also removes the bundles of
  `app_admin.js`, and, when the minify flag is empty, the minified
  variants (`CacheProperties.BundleSweepReachesLongerStem`). Likewise,
  compiling `a.js` removes the per-file artifacts of `a_b.js`.

## Model

| member | source | states |
|---|---|---|
| FileStore.ReadSource | classes/sprockets/file.php:36-46 | succeeds exactly when the trimmed path exists with content other than `""` and `"0"`; returns that content unchanged; otherwise fails with `FileNotFound` naming the untrimmed argument |
| FileStore.SaveFile | classes/sprockets/file.php:54-62 | a refused path leaves the store unchanged and throws `FileException`; otherwise the trimmed path holds the source stamped with the clock, no other file changes, and success is reported exactly for a non-empty source |
| FileStore.GetFileMtime | classes/sprockets/file.php:81-89 | returns the trimmed path's mtime exactly when it is a regular file, and `FileNotFound` naming the trimmed path otherwise |
| FileStore.SaveThenRead | classes/sprockets/file.php:54-62 | after a write that is not refused, `get_filemtime` gives the write's clock reading and `read_source` gives back the source unless it is `""` or `"0"` |
| FileStore.RefusedSaveInvisible | classes/sprockets/file.php:56-61 | a refused write throws `FileException` and no later read or mtime query sees any change |
| FileStore.TrimmedPathsAgree | classes/sprockets/file.php:36-89 | two paths that trim to the same string are the same file to `read_source`, `save_file` and `get_filemtime` |
| FileStore.FixTrailingSlash | classes/sprockets/file.php:156-159 | the result ends in `/`; input already ending in `/` is returned unchanged, anything else gets exactly one `/` appended |
| FileStore.FixTrailingSlashIdempotent | classes/sprockets/file.php:157 | applying it twice is the same as applying it once |
| FileStore.FileExistsUntrimmed | classes/sprockets/cache.php:79 | the cache's untrimmed `file_exists` agrees with `get_filemtime` on a trimmed path, while ` a` can exist for the one and be missing for the other |
| Cache.KindOf | classes/sprockets/cache.php:46-63 | `js` and `coffee` are scripts, `css`, `scss` and `less` are styles, and nothing else has a kind; so an extension has a kind exactly when it is one of the five accepted file types of `Sprockets_File` |
| Cache.NormalizedExt | classes/sprockets/cache.php:46-63 | scripts are named `js`, styles `css`, any other extension is kept raw; normalising keeps the kind |
| CacheProperties.RequestDirsFollowKind | classes/sprockets/cache.php:41-63 | a request `stem.ext` selects the js and cache-js directories when the lower-cased extension is `js` or `coffee`, the css and cache-css ones for `css`, `scss` or `less`, and otherwise keeps the directories the instance already had |
| CacheProperties.RequestDirsStable | classes/sprockets/cache.php:46-63 | repeating a request on the instance it left behind selects the same directories |
| Cache.SplitRequested | classes/sprockets/cache.php:41-42 | with a dot, the stem is the name up to the last dot and the extension is the lower-cased dot-free rest; without a dot, the stem is empty and the extension is the lower-cased name minus its first character |
| CacheProperties.SplitRequestedJoin | classes/sprockets/cache.php:41-42 | for every stem and dot-free extension, splitting `stem.ext` gives back the stem and the lower-cased extension |
| CacheProperties.SplitRequestedExample | classes/sprockets/cache.php:41-42 | `a.b.JS` splits into stem `a.b` and extension `js`, and `coffee` normalises to `js` |
| CacheProperties.SplitRequestedWithoutDot | classes/sprockets/cache.php:41-42 | a dot-free name such as `bundle` gives an empty stem and the extension `undle` |
| Cache.GetMtimes | classes/sprockets/cache.php:65-69 | succeeds exactly when every listed file is a regular file, and then returns their mtimes in list order |
| Cache.GetMtimesFirstMissing | classes/sprockets/cache.php:67-68 | a failure names the first listed file that is not a regular file, and every earlier file is one |
| CacheProperties.FingerprintCollision | classes/sprockets/cache.php:65-71 | the mtime lists `[1, 23]` and `[12, 3]` join to the same digits, so they resolve to the same bundle path |
| CacheProperties.FingerprintInputFollowsOrder | classes/sprockets/cache.php:67-71 | swapping two distinct mtimes whose decimal renderings are equally long always changes the digest input |
| CacheProperties.FingerprintOrderCollision | classes/sprockets/cache.php:67-71 | without equal lengths order need not show: `[1, 11]` and `[11, 1]` both join to `111` and resolve to the same bundle path |
| Cache.BundlePath | classes/sprockets/cache.php:73-77 | the path splits back into the directories and stem followed by `_`, the fingerprint, and the minify flag with `.` and the extension |
| CacheProperties.BundlePathInjective | classes/sprockets/cache.php:73-77 | with the prefix `asset_compile_dir . file_asset_dir . stem . "_"` and the suffix `minify_flag . "." . ext` fixed, different fingerprints give different bundle paths |
| CacheProperties.BundleSweepReachesLongerStem | classes/sprockets/cache.php:129 | the bundle sweep pattern of a stem also matches the bundle of that stem extended by `_` and any slash-free text, whatever its fingerprint |
| Cache.ProcessFiles | classes/sprockets/cache.php:38-85 | the directory fields follow the requested extension; a missing source aborts before anything is written; when the bundle path exists the store is unchanged, no file is compiled and that path is returned; otherwise every file is handled in list order and a success returns the bundle path |
| CacheProperties.SecondResolutionIsFastPath | classes/sprockets/cache.php:79-83 | after a successful resolution, resolving the same list again with unchanged mtimes takes the fast path: same path, no compile, no write |
| CacheProperties.EmptyManifestThrowsThenServesEmpty | classes/sprockets/cache.php:93-131 | an empty list with no bundle yet saves an empty bundle and throws `FileException`; the next resolution serves that empty bundle |
| Cache.ReprocessStep | classes/sprockets/cache.php:97-123 | a success handles exactly the one file, paired with its output, with no failed compile; a sweep only ever follows the save of the path it keeps, and any compiler event records the compiler's result for that file |
| CacheProperties.PerFilePathLayout | classes/sprockets/cache.php:99-108 | for a source laid out as root, asset dir, stem, `.`, extension, the per-file cache path is the cache dir, the stem with `/` turned into `-`, `_`, the decimal mtime, the minify flag, `.` and the raw extension |
| Cache.PerFilePath | classes/sprockets/cache.php:99-108 | the path splits back into the cache dir and flattened relative stem followed by `_`, the decimal mtime, and the minify flag with `.` and the raw extension |
| CacheProperties.PerFilePathInjective | classes/sprockets/cache.php:107-110 | different mtimes give different per-file paths, so an edited file never finds its old output |
| CacheProperties.StepMissingSource | classes/sprockets/cache.php:99 | a listed file that is not a regular file aborts with `FileNotFound` and writes nothing |
| CacheProperties.StepOnHit | classes/sprockets/cache.php:110-112 | when the per-file path exists, the store is unchanged, the compiler is not called, and the output is the cached content, or `FileNotFound` when PHP reads that content as false |
| Cache.ReuseCached | classes/sprockets/cache.php:110-112 | a hit leaves the store alone, compiles nothing, and returns what `read_source` gives for the cached path; a readable output is the one file-output pair handled, and an unreadable one records nothing |
| CacheProperties.StepOnMiss | classes/sprockets/cache.php:114-122 | when the per-file path is missing, the compiler is called on the file first. A compiler failure changes nothing. The step succeeds exactly when the output is non-empty and the path is writable. A success is the compiled output, saved and then swept |
| Cache.CompileAndCache | classes/sprockets/cache.php:114-122 | the compiler is consulted first; a compiler failure changes nothing and throws; the step succeeds exactly when the output is non-empty and the per-file path writable, and then yields the compiled output as the one file-output pair handled, saved and then swept |
| CacheProperties.StepMissStore | classes/sprockets/cache.php:116-120 | after a successful miss, the store is the old one with the trimmed per-file path written and every other match of the mtime-wildcard pattern removed |
| CacheProperties.PerFileSingleSurvivor | classes/sprockets/cache.php:117-120 | after a successful miss no per-file artifact of the form prefix, slash-free slot, suffix survives other than the new one, which holds the output; the slot may hold `_`, so artifacts of stems extending this one after `_` are removed too |
| CacheProperties.ZeroOutputPoisonsCache | classes/sprockets/cache.php:110-122 | a compiled output of exactly `"0"` is cached, and the next rebuild that reuses it fails with `FileNotFound` |
| Cache.ReprocessLoop | classes/sprockets/cache.php:95-124 | on success no compile failed, the handled file-output pairs list every file once in list order, and the result is those files' outputs concatenated in that order; on failure a prefix of the list was handled |
| Cache.HandledAligned | classes/sprockets/cache.php:110-123 | in a trace without a failed compile the i-th output recorded belongs to the i-th file handled |
| CacheProperties.ReuseAll | classes/sprockets/cache.php:95-124 | when every file's per-file artifact exists and reads back, the loop changes nothing, compiles nothing, and yields the cached contents concatenated in list order |
| CacheProperties.ReuseThenRecompile | classes/sprockets/cache.php:95-124 | with `a` cached and `b` not, rebuilding `[a, b]` compiles only `b`, and the result is `a`'s cached output followed by `b`'s fresh output |
| Cache.Reprocess | classes/sprockets/cache.php:93-132 | a loop failure is passed on with no bundle written and no bundle sweep; after a successful loop the bundle save succeeds exactly when the concatenation is non-empty and the path writable, and a failed save throws `FileException` without a sweep; a success saves the outputs of the handled files, in order, at the bundle path and then sweeps with that path kept |
| CacheProperties.BundleStore | classes/sprockets/cache.php:126-129 | after a successful rebuild the store is the loop's store with the trimmed bundle path written and every other match of the fingerprint-wildcard pattern removed, and nothing else changed |
| CacheProperties.BundleSingleSurvivor | classes/sprockets/cache.php:126-129 | after a successful rebuild no bundle of the form prefix, slash-free slot, suffix survives other than the new one, which survives when its path needs no trimming; the slot may hold `_`, so bundles of stems extending this one after `_` are removed too |
| Cache.RemoveStaleFiles | classes/sprockets/cache.php:152-158 | a path survives exactly when it is the kept path or does not match the pattern, and survivors keep their content and mtime |
| Cache.SweepStale | classes/sprockets/cache.php:152-158 | unlinking the glob result one path at a time, in any order, ends in the same store as the set-level sweep, and the kept path survives unchanged |
| Glob.Matches | classes/sprockets/cache.php:153 | `*` stands for a run of characters other than `/`; every other character stands for itself |
| Glob.StarMatchesIff | classes/sprockets/cache.php:153 | a lone `*` matches exactly the slash-free strings |
| Glob.SiblingMatches | classes/sprockets/cache.php:120 | the pattern with `*` in a slot matches every path that fills the slot with slash-free text |
| Glob.MatchesConcat | classes/sprockets/cache.php:153 | matching pieces concatenate into a match of the concatenated pattern |
| Glob.MatchesItself | classes/sprockets/cache.php:153 | every path matches itself read as a pattern |
| Strings.Trim | classes/sprockets/file.php:38 | the result has no trim character at either end, and a string with none at either end is unchanged |
| Strings.TrimStripsEndsOnly | classes/sprockets/file.php:38 | the result is a contiguous piece of the input, and everything cut off on either side is a trim character |
| Strings.TrimLeftSpec | classes/sprockets/file.php:38 | the left trim drops a run of trim characters from the front and keeps the rest, which does not start with one |
| Strings.TrimRightSpec | classes/sprockets/file.php:38 | the right trim drops a run of trim characters from the back and keeps the rest, which does not end with one |
| Strings.Lower | classes/sprockets/cache.php:42 | same length, every ASCII capital lowered, every other character kept |
| Strings.LastIndexOf | classes/sprockets/cache.php:41 | the index of the last occurrence of the character, or none exactly when it does not occur |
| Strings.SplitAtLastDot | classes/sprockets/cache.php:102-105 | with a dot, the string is stem, `.`, dot-free extension; without one, the stem is empty and the extension drops the first character |
| Strings.SplitJoin | classes/sprockets/cache.php:102-105 | splitting `stem . "." . ext` at the last dot gives back `stem` and `ext` for every dot-free `ext` |
| Strings.ReplaceAll | classes/sprockets/cache.php:120 | an empty search string, or one that does not occur, leaves the subject unchanged |
| Strings.ReplaceInSlot | classes/sprockets/cache.php:129 | a fingerprint that occurs only in its own slot is the only text replaced by `*` |
| Strings.ReplaceAfterPrefix | classes/sprockets/cache.php:120 | a prefix where no occurrence starts is copied through unchanged |
| Strings.FindFrom | classes/sprockets/cache.php:100 | the first occurrence at or after the start index, or none when there is none |
| Strings.ExplodeSecond | classes/sprockets/cache.php:100 | empty when the delimiter is empty or absent; otherwise the text that starts right after the first occurrence and runs up to the next occurrence or to the end, with no occurrence starting inside it |
| Strings.ExplodeRelative | classes/sprockets/cache.php:100 | for a path `root . delim . rel` whose first delimiter follows the root, the second piece is `rel` |
| Strings.Flatten | classes/sprockets/cache.php:103 | same length, every `/` becomes `-`, every other character is kept, so no `/` remains |
| Strings.NatToString | classes/sprockets/cache.php:108 | a non-empty digit string without a leading zero |
| Strings.ParseNatToString | classes/sprockets/cache.php:108 | reading the decimal rendering back gives the original mtime |
| Strings.NatToStringInjective | classes/sprockets/cache.php:108 | distinct mtimes render as distinct strings |
| Strings.Join | classes/sprockets/cache.php:71 | all digits, at least one per mtime, and a single mtime joins to its decimal rendering |
| Strings.JoinAppend | classes/sprockets/cache.php:71 | the join of two lists put together is the two joins put together, so a list joins to its renderings in list order with no separator |
| Strings.ConcatAppend | classes/sprockets/cache.php:112 | concatenating two lists of outputs is concatenating their concatenations |

## Left out

- `get_remotemtime`: a network call through `get_headers`.
- `get_files_in_dir`: directory scanning and the framework's `Arr::flatten`. The accepted-type check it applies is modelled through `KindOf`.
- `get_extension`: a thin wrapper around `pathinfo`. The cache does not call it.
- `generate_include_tag`: HTML rendering against the framework's `DOCROOT`. A successful resolution returns the bundle path the tag would point to.
- The digest, the compiler and the clock are uninterpreted. One clock reading stamps every write of a resolution.
- Where the configuration fields come from. They are parameters (`Config`).
- `glob`: only `*` is modelled. `?`, `[...]`, braces and the hidden-file rule for a leading `.` are not.
- Directories: a path either names a regular file or nothing. Failing writes are the given `denied` set.
- Unlinking: every unlink succeeds. A failed unlink would only leave a stale file behind.
- Concurrency: parallel resolutions racing on the same files.
- Path identity: a path string is the file. There is no normalisation of `a//b` or `./`, no symbolic links and no case-insensitive file system.
- Bytes: PHP strings are byte strings and the model uses characters. The built-ins involved act on ASCII alone, so nothing changes.
- Cache.Reprocess: an empty write that then throws is not recorded as a `Saved` event. Its effect on the store is modelled.
- Strings.ReplaceAll: the contract covers only the cases that leave the subject unchanged. What a replacement does is stated by `ReplaceInSlot` for the path layout the cache uses.
- Strings.ExplodeSecond: an empty delimiter gives the empty string, as PHP 7 does. PHP 8 throws a `ValueError` instead.
