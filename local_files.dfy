/**
 * sources/local_files.py: a directory of reference files. A path under the
 * configured prefix is looked up in the reference directory and compared byte
 * for byte with the file on disk. Nothing changes after construction, so the
 * source is a value.
 */
module LocalFiles {
  import opened Wrappers
  import opened Strings
  import opened Env
  import opened Results

  /** The four settings `__init__` reads with `config.get`; any of them may be missing. */
  datatype LocalFilesSource = LocalFilesSource(
    basePath: string,
    relativePath: Option<string>,
    referencePath: Option<string>,
    sourceType: Option<string>,
    sourceAdditional: Option<string>)

  /** `LocalFilesSource.__init__`: it reads the four settings and checks none of them. */
  function NewLocalFilesSource(basePath: string, config: map<string, string>): (s: LocalFilesSource)
    ensures s.basePath == basePath
    ensures s.relativePath.Some? <==> "relative_path" in config
    ensures s.relativePath.Some? ==> s.relativePath.value == config["relative_path"]
    ensures s.referencePath.Some? <==> "reference_path" in config
    ensures s.referencePath.Some? ==> s.referencePath.value == config["reference_path"]
    ensures s.sourceType.Some? <==> "source_type" in config
    ensures s.sourceType.Some? ==> s.sourceType.value == config["source_type"]
    ensures s.sourceAdditional.Some? <==> "source_additional" in config
    ensures s.sourceAdditional.Some? ==> s.sourceAdditional.value == config["source_additional"]
  {
    LocalFilesSource(basePath, Get(config, "relative_path"), Get(config, "reference_path"),
                     Get(config, "source_type"), Get(config, "source_additional"))
  }

  predicate Configured(s: LocalFilesSource) {
    s.relativePath.Some? && s.referencePath.Some? && s.sourceType.Some? && s.sourceAdditional.Some?
  }

  /** The path with every `relative_path + "/"` removed, joined onto the reference directory. */
  function ComparisonPath(s: LocalFilesSource, path: string): string
    requires Configured(s)
  {
    PathJoin(s.referencePath.value, RemoveAll(path, s.relativePath.value + "/"))
  }

  /**
   * `get_provenance`: the four settings are asserted at query time; a path
   * outside the prefix, or with no reference file, gives None; otherwise the
   * disk file and the reference file are compared and a match gives the
   * configured type and additional information.
   */
  function GetProvenance(env: Environment, s: LocalFilesSource, path: string): (r: Lookup)
    ensures !Configured(s) <==> r.Err? && r.error.AssertionError?
    ensures Configured(s) && !StartsWith(path, s.relativePath.value) ==> r == Ok(None)
    ensures r.Ok? && r.value.Some? ==>
      r.value.value == ProvenanceResult(s.sourceType.value, s.sourceAdditional.value)
    // a match needs the prefix, the reference file, and two regular files with the same bytes
    ensures Configured(s) ==>
      (r.Ok? && r.value.Some? <==>
        && StartsWith(path, s.relativePath.value)
        && var comparison := ComparisonPath(s, path);
        && var disk := PathJoin(s.basePath, path);
        && comparison in env.fs && disk in env.fs
        && env.fs[comparison].File? && env.fs[disk].File?
        && env.fs[disk].content == env.fs[comparison].content)
    // with the settings present, only a missing disk file (behind an existing reference file) raises
    ensures Configured(s) ==>
      (r.Err? <==>
        StartsWith(path, s.relativePath.value) && ComparisonPath(s, path) in env.fs
        && PathJoin(s.basePath, path) !in env.fs)
  {
    if s.relativePath.None? then Err(AssertionError("relative_path must be set"))
    else if s.referencePath.None? then Err(AssertionError("reference_path must be set"))
    else if s.sourceType.None? then Err(AssertionError("source_type must be set"))
    else if s.sourceAdditional.None? then Err(AssertionError("source_additional must be set"))
    else if !StartsWith(path, s.relativePath.value) then Ok(None)
    else
      var comparison := ComparisonPath(s, path);
      if comparison !in env.fs then Ok(None)
      else match FileCmp(env.fs, PathJoin(s.basePath, path), comparison)
        case Err(e) => Err(e)
        case Ok(same) =>
          if same then Ok(Some(ProvenanceResult(s.sourceType.value, s.sourceAdditional.value)))
          else Ok(None)
  }

  /**
   * When the rest of the path holds no further `relative_path + "/"`, the
   * lookup happens at exactly that rest under the reference directory.
   */
  lemma StripLeadingPrefix(s: LocalFilesSource, rest: string)
    requires Configured(s) && !Contains(rest, s.relativePath.value + "/")
    ensures ComparisonPath(s, s.relativePath.value + "/" + rest) == PathJoin(s.referencePath.value, rest)
  {
    StripLeading(s.relativePath.value + "/", rest);
  }

  /**
   * The strip removes every occurrence of `relative_path + "/"`, not only the
   * leading one: with prefix "lib", "lib/a/lib/b" is looked up as "a/b".
   */
  lemma StripRemovesEveryOccurrence(s: LocalFilesSource, a: string, b: string)
    requires Configured(s)
    requires var pat := s.relativePath.value + "/";
      !Contains(a + pat[..|pat| - 1], pat) && !Contains(b, pat)
    ensures var pat := s.relativePath.value + "/";
      ComparisonPath(s, pat + a + pat + b) == PathJoin(s.referencePath.value, a + b)
  {
    var pat := s.relativePath.value + "/";
    var p := pat + a + pat + b;
    assert p == pat + (a + pat + b);
    assert StartsWith(p, pat) && p[|pat|..] == a + pat + b;
    RemoveAllAt(a, pat, b);
    RemoveAllIdentity(b, pat);
  }
}
