# provenance, modelled in Dafny

`provenance` compares two snapshots of a directory tree (typically two copies
of a WordPress site) and writes a CSV report. The report has one row per file
that was added, removed or modified. Each row says where the new copy of the
file most likely came from:

- a local reference directory;
- the official WordPress release;
- a plugin from the WordPress plugin directory;
- a commit of a git repository.

This project models the tool's core in Dafny and proves what that core promises:

- **Snapshot differencer** (`compare.py`). Snapshots are maps from relative
  path to bytes. `FileComparer` fills its two file lists, does set algebra on
  them, and returns the Added, Removed and Modified records in that group order.
  `modifications()` describes each record.
- **Checker** (`provenance.py`). `load_sources` builds one source per enabled
  descriptor, in configuration order. `find_provenance` is a first-match search
  with "Unknown" as its fallback.
- **Four sources** (`sources/*.py`). Each is a decision procedure over a path
  string:
  - a prefix test (containment, for git);
  - `str.replace`-based stripping;
  - slug extraction;
  - a lookup in a name-to-MD5 index and a hash comparison;
  - a first-match search over a file's commits.

  The plugin source keeps a per-slug table of downloaded indexes. The table
  includes failed downloads, so no slug is fetched twice.
- **Report** (`report.py`). A header, then one row per change. Removed files
  get "File Deleted" without asking the checker.

The outside world is one value, `Env.Environment`:

- the file system, as a map from path to entry;
- `fetch`: the HTTP download: the archive for status 200, None for any other status;
- `md5`: the hash, shared by index building and querying;
- `clone`: the git clone.

Python exceptions are values (`Env.Error`). The ones the model raises
propagate the way the code lets them. A few exceptions the code can raise are
not modelled; "## Left out" lists them.

Modules, one per file:

- `wrappers.dfy`: Option and Result.
- `strings.dfy`: `startswith`, `in`, `replace(pat, "")`, `split`/`join` and
  `str(n)`, with their round trips.
- `env.dfy`: the world, `os.path.join`, `filecmp.cmp` and the checksum-index
  build.
- `compare.dfy`, `results.dfy`, `local_files.dfy`, `wordpress_core.dfy`,
  `wordpress_plugin.dfy`, `git_repo.dfy`, `provenance.dfy`, `report.dfy`: the
  source files.

Objects whose fields change are classes: `FileComparer`, the WordPress core,
plugin and git sources, and `ProvenanceChecker`. The local files source never
changes after construction, so it is a datatype. Each state-changing method is
proved against a function. Queries are proved against `Provenance.Answer` and
`Provenance.Resolve`, and the report against `Report.Rows`.

Where the tool's documented design and its code differ, the model follows the
code:

- `modifications()` is "File Added" and "File Removed" for added and removed
  files. There is no diff count or empty text for them.
- Records and rows are not sorted. They come in the group order that
  `compare` builds, and within a group in set-iteration order.
- Configuration keys are snake_case (`relative_path`, `git_url`, ...), and the
  class is named by its dotted Python path.
- The git source tests containment, not a prefix. `relative_to` then raises
  ValueError for a path that contains the prefix but does not start with it.

## Model

| member | source | states |
|---|---|---|
| Compare.ModificationsMeaning | compare.py:25-52 | Removed gives "File Removed" and Added gives "File Added". A Modified record gives a decimal that parses back to the unified-diff line count exactly when both files decode; otherwise it gives "Binary files differ" and nothing is raised. |
| Strings.ParseNatToString | compare.py:50 | The `str(len(...))` text reads back as the count it was made from. |
| Compare.FileComparer.constructor | compare.py:56-58 | Records the two roots. |
| Compare.FileComparer.WalkFiles | compare.py:60-73 | Afterwards each list holds every file of its snapshot, once each. |
| Compare.FileComparer.AddedFiles | compare.py:78-79 | Once walked, this is exactly new paths minus old paths. |
| Compare.FileComparer.RemovedFiles | compare.py:81-82 | Once walked, this is exactly old paths minus new paths. |
| Compare.FileComparer.CommonFiles | compare.py:84-85 | Once walked, this is exactly the paths in both snapshots. |
| Compare.FileComparer.FileSetsPartition | compare.py:78-85 | Added, removed and common are pairwise disjoint, and their union is the union of both path sets. |
| Compare.ChangeKindsPartition | compare.py:78-98 | Each path of either snapshot is exactly one of Added, Removed, Modified (common with different bytes) or unchanged. |
| Compare.FileComparer.ModifiedFiles | compare.py:87-98 | Yields a path, at most once, iff it is common and its bytes differ. It never yields a path outside the common files. |
| Compare.Records | compare.py:103-120 | One record of the given kind and roots per path of the set, with no path twice. |
| Compare.FileComparer.Compare | compare.py:100-121 | Walks, then returns one record per changed path and none for any other path. Each record is the change its path calls for, and the records are grouped Added, Removed, Modified. |
| Compare.GroupsFormDiff | compare.py:100-121 | The three comprehensions, concatenated in that order, form a valid diff. |
| Compare.GroupedConcat | compare.py:103-120 | The Added, then Removed, then Modified concatenation is ordered by kind. |
| Compare.DiffLength | compare.py:100-121 | There are as many records as changed paths. |
| Compare.IdenticalSnapshotsNoChanges | compare.py:78-121 | Identical snapshots give no record. |
| Env.BuildChecksums | sources/wordpress_plugin.py:26-35 | The index has exactly the archive's names, each mapped to the MD5 of that entry's bytes. |
| Env.PathJoin | sources/local_files.py:26 | `os.path.join`: an absolute second part wins. Otherwise the result starts with the first part and ends with the second. |
| Env.ReadFile | sources/wordpress_core.py:56 | Succeeds exactly for a regular file, with its bytes. A missing path raises FileNotFoundError. |
| Env.FileCmp | sources/local_files.py:32 | True exactly for two regular files with equal bytes. It raises exactly when either path is missing. |
| Results.IndexedMatch | sources/wordpress_core.py:52-63 | A match needs a non-empty indexed checksum equal to the MD5 of the disk file. A present checksum with an unreadable disk file raises. |
| LocalFiles.NewLocalFilesSource | sources/local_files.py:9-14 | Each setting is present exactly when its key is in the config, and is then that key's value. None of them is checked. |
| LocalFiles.GetProvenance | sources/local_files.py:16-34 | Raises AssertionError exactly when a setting is missing. A path outside the prefix gives None. A match happens exactly when the path has the prefix, the stripped reference file exists, and both files are regular with equal bytes; it gives (source_type, source_additional). Only a missing disk file raises. |
| Strings.RemoveAllIdentity | sources/local_files.py:24 | `replace(pat, "")` leaves a string unchanged iff `pat` does not occur in it. |
| Strings.RemoveAllAt | sources/local_files.py:24 | For every `a`, `pat` and `b`: when `pat` occurs nowhere in `a` (nor across its end), `(a + pat + b).replace(pat, "")` is `a` followed by `b.replace(pat, "")`. An occurrence is deleted wherever it stands. |
| LocalFiles.StripRemovesEveryOccurrence | sources/local_files.py:24-26 | For any configured source, a path prefix/a/prefix/b with no further occurrence is looked up at a + b under the reference directory. The second occurrence is removed as well as the leading one, so "lib/a/lib/b" becomes "a/b". |
| LocalFiles.StripLeadingPrefix | sources/local_files.py:24-26 | With no further occurrence, the lookup is at exactly the rest of the path under the reference directory. |
| WordpressCore.DownloadUrl | sources/wordpress_core.py:14-16 | The configured URL, or "https://wordpress.org/latest.zip" by default. |
| WordpressCore.ReleaseIndex | sources/wordpress_core.py:20-44 | None exactly when the download fails. Otherwise the index has exactly the archive's names, each mapped to the MD5 of that entry. |
| WordpressCore.WordpressCoreSource.constructor | sources/wordpress_core.py:12-18 | Settles the URL and fetches once; `file_checksums` is the release index (None iff the download failed). |
| WordpressCore.WordpressCoreSource.GetFileData | sources/wordpress_core.py:38-44 | A failed download leaves `file_checksums` as it was; a successful one records the index. |
| WordpressCore.Provenance | sources/wordpress_core.py:46-63 | No index, or an empty one, gives None. The result is ("Vendor Source", "https://wordpress.org/") iff "wordpress/" + path has a non-empty checksum equal to the disk file's MD5. |
| WordpressCore.WordpressCoreSource.GetProvenance | sources/wordpress_core.py:46-63 | With no index the answer is None; any match is the WordPress result. |
| WordpressCore.ReleaseMatch | sources/wordpress_core.py:27-63 | Against a downloaded release, a match means the archive holds "wordpress/" + path with a non-empty hash equal to the disk file's hash. |
| WordpressPlugin.PluginIndex | sources/wordpress_plugin.py:18-35 | None iff the plugin's latest-stable download fails; otherwise the checksum index of its archive. |
| WordpressPlugin.Slug | sources/wordpress_plugin.py:55-56 | The slug is the "/"-free leading piece of the stripped path that runs to its end or to a "/", which is `split("/")[0]`. |
| Strings.FirstSegment | sources/wordpress_plugin.py:56 | `split("/")[0]`: a leading piece with no separator, ending at the end or at a separator. |
| Strings.SplitJoin | sources/wordpress_plugin.py:56 | Joining the pieces of `split` gives the string back. |
| Strings.JoinSplit | sources/wordpress_plugin.py:56 | Splitting a join of separator-free pieces gives the pieces back. |
| WordpressPlugin.SlugOfPluginFile | sources/wordpress_plugin.py:55-56 | For prefix + "/" + slug + "/" + rest, the slug is the first directory under the prefix, and the stripped path is slug + "/" + rest. |
| WordpressPlugin.Provenance | sources/wordpress_plugin.py:50-77 | A path outside the prefix gives None. A match happens iff the plugin downloads, and its index has a non-empty checksum for the stripped path equal to the disk file's MD5. A match is ("Vendor Source", "https://wordpress.org/plugins/" + slug + "/"). |
| WordpressPlugin.WordpressPluginSource.constructor | sources/wordpress_plugin.py:12-16 | Once `relative_path` is present, the table starts empty and consistent. |
| WordpressPlugin.WordpressPluginSource.GetPluginData | sources/wordpress_plugin.py:37-48 | Returns the slug's index (None iff the download failed) and stores it under the slug. Other entries are unchanged. A slug already in the table, a None entry included, is not downloaded again. |
| WordpressPlugin.WordpressPluginSource.GetProvenance | sources/wordpress_plugin.py:50-77 | The answer is the cache-independent `Provenance`. The table changes only at the path's slug, and not at all for a path outside the prefix. |
| WordpressPlugin.DownloadsOncePerSlug | sources/wordpress_plugin.py:38-48 | The number of downloads ever made equals the number of table entries. |
| GitRepo.RelativeTo | sources/git_repo.py:72-74 | Succeeds iff the prefix's components lead the path's components; otherwise it raises ValueError. |
| GitRepo.RelativeToMeaning | sources/git_repo.py:72-74 | The prefix's parts followed by the result's parts are the path's parts. The result is "." iff both name the same place. |
| GitRepo.PartsOfJoin | sources/git_repo.py:72-74 | Parts of a "/"-join of components are those components. |
| GitRepo.FirstMatchingCommitMeaning | sources/git_repo.py:41-45 | Returns the earliest commit whose blob equals the disk bytes. It gives None only when every commit has the file with other bytes, and raises KeyError at a commit lacking the file that comes before any match. |
| GitRepo.MatchingCommit | sources/git_repo.py:38-40 | A disk file that cannot be read raises before any commit is looked at. |
| GitRepo.GetMatchingCommitForFile | sources/git_repo.py:25-45 | The loop with early return computes `MatchingCommit`. |
| GitRepo.Provenance | sources/git_repo.py:65-84 | No repository raises AssertionError. A path not containing the prefix gives None. Containment followed by a failing `relative_to` raises ValueError. Otherwise the commit search decides. A found commit gives ("Vendor Software", git_url + "commit/" + hexsha), and a match is always that. No commit gives None. A KeyError or read error from the search is raised to the caller. |
| GitRepo.ContainedButNotLeading | sources/git_repo.py:68-74 | Any path lead/prefix/rest with lead different from prefix passes the containment test and then raises ValueError. |
| GitRepo.GitRepoSource.constructor | sources/git_repo.py:49-55 | Reads the settings and clones at once, before any query. |
| GitRepo.GitRepoSource.CloneRepo | sources/git_repo.py:60-63 | `repo` is the clone of the URL (None when there is no URL or the clone fails). |
| GitRepo.GitRepoSource.GetProvenance | sources/git_repo.py:65-84 | Computes `Provenance` with the commit-search loop. |
| Provenance.EnabledMembership | provenance.py:30-32 | A descriptor is kept iff it is present and its `enabled` is not false, whether absent or true. |
| Provenance.EnabledConcat | provenance.py:29-32 | Filtering commutes with concatenation, so the kept descriptors keep their relative order. |
| Provenance.Instance | provenance.py:34-39 | Only the four source classes construct. The plugin and git classes raise AssertionError without `relative_path`. |
| Provenance.LoadedMeaning | provenance.py:29-41 | Builds one source per enabled descriptor in order. On a raise it keeps the sources of the earlier enabled descriptors and returns the first raised exception. |
| Provenance.Instantiate | provenance.py:34-39 | Builds the named class's object, or the exception, as `Instance` says. |
| Provenance.ProvenanceChecker.constructor | provenance.py:23-26 | Starts with no sources. |
| Provenance.ProvenanceChecker.LoadSources | provenance.py:29-41 | Appends the sources `Loaded` describes and returns its exception. |
| Provenance.ProvenanceChecker.LoadDescriptor | provenance.py:34-40 | One descriptor: append its source, or return its exception and change nothing. |
| Provenance.ProvenanceChecker.AppendSource | provenance.py:40 | Appends one source and leaves the others as they were. |
| Provenance.Query | provenance.py:45 | One `get_provenance` call answers as the source's model says. Only a plugin source changes, and its new table is the old one with the path's slug filled in (none for a path outside its prefix). |
| Provenance.ProvenanceChecker.QueryAt | provenance.py:44-45 | Asking the source at position i may change only that source. Every other plugin source is unchanged, and a plugin source at i gets its slug filled in. Every source's answers stay as they were. |
| Provenance.ResolveMeaning | provenance.py:43-48 | The result is the answer of the earliest source that does not answer None, whether a result or an exception. If all answer None, it is ("Unknown", ""). |
| Provenance.ResolveIgnoresLater | provenance.py:44-47 | Once a source has decided, appending more sources changes nothing. |
| Provenance.ProvenanceChecker.FindProvenance | provenance.py:43-48 | Returns `Resolve` over the sources in order. The source list and the sources' answers are unchanged. A plugin source whose predecessors all answered None was asked, and has the path's slug filled in. A plugin source after the deciding one is untouched, so it downloads nothing. |
| Report.RowFor | report.py:16-34 | A removal gives [path, "File Removed", "File Deleted", ""]. Any other change gives [path, modifications(), type, additional_info] of `find_provenance`, or its exception. |
| Report.RowsMeaning | report.py:15-34 | Exactly one row per change, in order, up to the first change whose attribution raised. |
| Report.RemovedNeverResolved | report.py:16-24 | A report of removals only never raises and does not depend on the sources. |
| Report.ReportChanges | report.py:8-34 | The header, then the rows `Rows` describes; the sources' answers are unchanged. |
| Report.ReportRow | report.py:16-34 | One row. The checker is asked only for a change that is not a removal; for a removal, no plugin table changes. |
| Report.ReportOfDiff | report.py:14-34 | For a `compare` result with no raise, the report has 1 + (number of changed paths) rows. |

## Left out

- `os.walk` and `os.path.relpath`: snapshots are given as maps from relative path to bytes. Symbolic links, special files and the order `os.walk` lists files in are not modelled.
- The sources' paths are taken to be normalised relative POSIX paths, so `pathlib.Path(path).as_posix()` is the identity. Absolute paths in `relative_to` are not modelled.
- MD5, `difflib.unified_diff`, text decoding, HTTP, zip reading and git are abstract functions of the `Environment` or of `TextDiff`. A download or clone is a fixed function of its URL, so network nondeterminism is not modelled.
- `requests.get` raising, for example on a connection error, is not modelled. Neither is `ZipFile` raising BadZipFile when a status-200 body is not a zip archive. In the code both escape: for the core source from its constructor and so from `load_sources`, and for a plugin source from `get_provenance`. The model's `fetch` always returns either an archive or None.
- An archive is a map, so a zip with a repeated entry name is not modelled.
- Env.FileCmp: `filecmp.cmp` is called with its default `shallow=True`. With that default, two regular files with equal type, size and mtime count as equal without their bytes being read. Entries carry no size or mtime, so the model always compares bytes. A same-size, same-mtime file with other bytes therefore matches in the code but not in the model.
- CSV quoting, opening and writing the report file, and every `print` are left out. The report's rows are returned instead.
- `importlib`: class names are resolved through a fixed registry of the four source classes. The model turns every other name into ImportError. The code raises different exceptions for some of them:
  - ModuleNotFoundError for a missing module;
  - AttributeError for a module that exists but lacks the class;
  - ValueError from `import_module("")` for a name with no dot.

  Importable classes outside the four are not modelled.
- Configuration values are strings and `enabled` is a boolean. JSON values of other types, such as a null `relative_path` or a numeric `enabled`, are not modelled. A missing "sources", "name", "class" or "config" key is not modelled either. The code reads `source['name']` first, so a descriptor without a name raises KeyError.
- `main.py` argument parsing and config loading are not part of this model.
- The compare snapshots and the sources' file system are independent values. In the code, `newRoot[p]` and the file the sources read at base_path joined with p are the same file under the new directory. The model does not tie the two together.
- Compare.Modifications: requires both files of a Modified record to exist. A file deleted between `compare` and the report would raise in the code.
- Compare.FileComparer.ModifiedFiles: requires `walk_files` to have run. Before that the code raises AttributeError.
- Compare.FileComparer.Compare: within each group, the order is the set's iteration order, which the model leaves unspecified.
- Provenance.ProvenanceChecker.LoadSources: does not state that each new source is a fresh object. The construction errors of the plugin and git classes are raised by `Instantiate`, not by their Dafny constructors.
- WordpressPlugin.WordpressPluginSource.GetProvenance: the query-time `relative_path` assertion is not modelled separately. The constructor already guarantees it.
