/**
 * The outside world as the tool sees it, reduced to values: the file system,
 * the download, hashing and cloning capabilities, the Python exceptions the
 * core can raise, `os.path.join`, `filecmp.cmp` and the path-to-hash index
 * built from a downloaded archive.
 */
module Env {
  import opened Wrappers
  import opened Strings

  type Bytes = seq<bv8>

  /** A directory entry: a regular file with its bytes, or a directory. */
  datatype Entry = File(content: Bytes) | Directory

  /** The file system, keyed by full path. */
  type FileSystem = map<string, Entry>

  /** A zip archive: entry name to the bytes `ZipFile.open(name)` yields. */
  type Archive = map<string, Bytes>

  /** A commit: its id and its tree, path to blob bytes. */
  datatype Commit = Commit(hexsha: string, tree: map<string, Bytes>)

  /** A cloned repository: per path, the commits `iter_commits(paths=path)` yields, in order. */
  datatype Repo = Repo(history: map<string, seq<Commit>>)

  /**
   * The fixed world of one run: the file system, `requests.get` (None for any
   * status other than 200), the MD5 hex digest shared by index build and query,
   * and `Repo.clone_from` (None when the clone fails).
   */
  datatype Environment = Environment(
    fs: FileSystem,
    fetch: string -> Option<Archive>,
    md5: Bytes -> string,
    clone: string -> Option<Repo>)

  /** The Python exceptions the core can raise. */
  datatype Error =
    | AssertionError(message: string)
    | FileNotFoundError(path: string)
    | IsADirectoryError(path: string)
    | ValueError(message: string)
    | KeyError(key: string)
    | ImportError(name: string)
    | CloneError(url: Option<string>)

  /** A value, or the exception raised while computing it. */
  type Outcome<T> = Result<T, Error>

  /** Python's `dict.get(key)` on a configuration mapping. */
  function Get(config: map<string, string>, key: string): Option<string>
  {
    if key in config then Some(config[key]) else None
  }

  /** Python's `os.path.join(a, b)` on POSIX. */
  function PathJoin(a: string, b: string): (r: string)
    ensures StartsWith(b, "/") ==> r == b
    ensures !StartsWith(b, "/") && a == "" ==> r == b
    ensures !StartsWith(b, "/") && a != "" ==> StartsWith(r, a) && |b| < |r| && r[|r| - |b|..] == b
  {
    if StartsWith(b, "/") then b
    else if a == "" || a[|a| - 1] == '/' then a + b
    else a + "/" + b
  }

  /** `open(path, "rb").read()`. */
  function ReadFile(fs: FileSystem, path: string): (r: Outcome<Bytes>)
    ensures r.Ok? <==> path in fs && fs[path].File?
    ensures r.Ok? ==> r.value == fs[path].content
    ensures path !in fs ==> r == Err(FileNotFoundError(path))
  {
    if path !in fs then Err(FileNotFoundError(path))
    else match fs[path]
      case File(content) => Ok(content)
      case Directory => Err(IsADirectoryError(path))
  }

  /**
   * `filecmp.cmp(f1, f2)`: both paths are stat-ed (a missing one raises); a
   * non-regular file compares unequal; otherwise the bytes decide. The default
   * shallow shortcut (equal type, size and mtime count as equal without
   * reading) is not modelled: entries carry no size or mtime.
   */
  function FileCmp(fs: FileSystem, f1: string, f2: string): (r: Outcome<bool>)
    ensures r == Ok(true) <==> f1 in fs && f2 in fs && fs[f1].File? && fs[f2].File? && fs[f1].content == fs[f2].content
    ensures r.Err? <==> f1 !in fs || f2 !in fs
  {
    if f1 !in fs then Err(FileNotFoundError(f1))
    else if f2 !in fs then Err(FileNotFoundError(f2))
    else if !fs[f1].File? || !fs[f2].File? then Ok(false)
    else Ok(fs[f1].content == fs[f2].content)
  }

  /** The index an archive yields: every entry name mapped to the hash of its bytes. */
  function Checksums(archive: Archive, hash: Bytes -> string): map<string, string>
  {
    map name | name in archive :: hash(archive[name])
  }

  /**
   * `get_plugin_checksums` / `get_file_checksums`: walk the archive's names and
   * record each entry's hash.
   */
  method BuildChecksums(archive: Archive, hash: Bytes -> string) returns (checksums: map<string, string>)
    ensures checksums.Keys == archive.Keys
    ensures forall name :: name in checksums ==> checksums[name] == hash(archive[name])
    ensures checksums == Checksums(archive, hash)
  {
    checksums := map[];
    var names := archive.Keys;
    while names != {}
      invariant names <= archive.Keys
      invariant checksums.Keys == archive.Keys - names
      invariant forall name :: name in checksums ==> checksums[name] == hash(archive[name])
      decreases names
    {
      var name :| name in names;
      checksums := checksums[name := hash(archive[name])];
      names := names - {name};
    }
  }
}
