/**
 * sources/git_repo.py: a vendored copy of a git repository. The repository is
 * cloned once, when the source is built. A path that contains the configured
 * prefix is made relative to it, and the file's history is searched for the
 * first commit whose blob equals the file on disk.
 */
module GitRepo {
  import opened Wrappers
  import opened Strings
  import opened Env
  import opened Results

  /** A component `PurePosixPath` keeps: not empty and not ".". */
  predicate IsComponent(part: string) {
    part != "" && part != "." && '/' !in part
  }

  /** The pieces of `parts` that are components, in order. */
  function Components(parts: seq<string>): (cs: seq<string>)
    ensures forall i :: 0 <= i < |cs| ==> cs[i] != "" && cs[i] != "."
    ensures |cs| <= |parts|
  {
    if parts == [] then []
    else if parts[0] == "" || parts[0] == "." then Components(parts[1..])
    else [parts[0]] + Components(parts[1..])
  }

  /** `PurePosixPath(p).parts` for a relative path: the `/`-pieces minus empty and "." ones. */
  function Parts(p: string): seq<string> {
    Components(Split(p, '/'))
  }

  /**
   * `str(PurePosixPath(p).relative_to(base))`: the components of `p` after
   * those of `base` ("." when none remain); ValueError when the components of
   * `base` are not a leading run of those of `p`.
   */
  function RelativeTo(p: string, base: string): (r: Outcome<string>)
    ensures r.Ok? <==> |Parts(base)| <= |Parts(p)| && Parts(p)[..|Parts(base)|] == Parts(base)
    ensures r.Err? ==> r.error.ValueError?
  {
    var ps := Parts(p);
    var bs := Parts(base);
    if |bs| <= |ps| && ps[..|bs|] == bs then
      Ok(if |bs| == |ps| then "." else JoinWith(ps[|bs|..], '/'))
    else Err(ValueError(p + " is not in the subpath of " + base))
  }

  /** No piece of a split holds the separator. */
  lemma {:induction false} SplitSepFree(s: string, sep: char)
    ensures forall i :: 0 <= i < |Split(s, sep)| ==> sep !in Split(s, sep)[i]
    decreases |s|
  {
    var seg := FirstSegment(s, sep);
    if |seg| < |s| {
      SplitStep(s, sep);
      SplitSepFree(s[|seg| + 1..], sep);
    }
  }

  /** Everything `Components` keeps from a split is a proper component. */
  lemma {:induction false} ComponentsOfSepFree(parts: seq<string>)
    requires forall i :: 0 <= i < |parts| ==> '/' !in parts[i]
    ensures forall i :: 0 <= i < |Components(parts)| ==> IsComponent(Components(parts)[i])
  {
    if parts != [] {
      ComponentsOfSepFree(parts[1..]);
    }
  }

  /** Components leaves a list of proper components as it is. */
  lemma {:induction false} ComponentsKeep(parts: seq<string>)
    requires forall i :: 0 <= i < |parts| ==> IsComponent(parts[i])
    ensures Components(parts) == parts
  {
    if parts != [] {
      ComponentsKeep(parts[1..]);
    }
  }

  /** The parts of a path are proper components. */
  lemma PartsAreComponents(p: string)
    ensures forall i :: 0 <= i < |Parts(p)| ==> IsComponent(Parts(p)[i])
  {
    SplitSepFree(p, '/');
    ComponentsOfSepFree(Split(p, '/'));
  }

  /** Joining proper components with "/" and taking the parts again gives them back. */
  lemma PartsOfJoin(cs: seq<string>)
    requires |cs| >= 1
    requires forall i :: 0 <= i < |cs| ==> IsComponent(cs[i])
    ensures Parts(JoinWith(cs, '/')) == cs
  {
    JoinSplit(cs, '/');
    ComponentsKeep(cs);
  }

  /** "." has no parts. */
  lemma PartsOfDot()
    ensures Parts(".") == []
  {
    FirstSegmentUnique(".", '/', ".");
    assert Split(".", '/') == ["."];
  }

  /**
   * What `relative_to` promises: the parts of the result follow the parts of
   * the base to make up the parts of the path, and the result is "." exactly
   * when the two paths name the same place.
   */
  lemma RelativeToMeaning(p: string, base: string)
    requires RelativeTo(p, base).Ok?
    ensures Parts(base) + Parts(RelativeTo(p, base).value) == Parts(p)
    ensures RelativeTo(p, base).value == "." <==> Parts(p) == Parts(base)
  {
    var ps := Parts(p);
    var bs := Parts(base);
    PartsOfDot();
    if |bs| < |ps| {
      var rest := ps[|bs|..];
      assert Parts(JoinWith(rest, '/')) == rest by {
        PartsAreComponents(p);
        assert forall i :: 0 <= i < |rest| ==> rest[i] == ps[|bs| + i];
        PartsOfJoin(rest);
      }
      assert ps == bs + rest;
    } else {
      assert ps == bs + [];
    }
  }

  /** The commits `iter_commits(paths=filename)` yields; none for a path with no history. */
  function History(repo: Repo, filename: string): seq<Commit> {
    if filename in repo.history then repo.history[filename] else []
  }

  /** Every commit before position `k` has the file, with other bytes. */
  predicate Skipped(commits: seq<Commit>, k: nat, filename: string, content: Bytes)
    requires k <= |commits|
  {
    forall j :: 0 <= j < k ==> filename in commits[j].tree && commits[j].tree[filename] != content
  }

  /**
   * The loop of `get_matching_commit_for_file`: the first commit whose blob at
   * `filename` has the given bytes; `commit.tree / filename` raises KeyError
   * at the first commit whose tree lacks the file.
   */
  function FirstMatchingCommit(commits: seq<Commit>, filename: string, content: Bytes): Outcome<Option<Commit>>
  {
    if commits == [] then Ok(None)
    else if filename !in commits[0].tree then Err(KeyError(filename))
    else if commits[0].tree[filename] == content then Ok(Some(commits[0]))
    else FirstMatchingCommit(commits[1..], filename, content)
  }

  /**
   * The search returns the earliest matching commit, None only when every
   * commit has the file with other bytes, and raises at a lacking tree met
   * before any match.
   */
  lemma {:induction false} FirstMatchingCommitMeaning(commits: seq<Commit>, filename: string, content: Bytes)
    ensures FirstMatchingCommit(commits, filename, content) == Ok(None) <==>
      Skipped(commits, |commits|, filename, content)
    ensures forall i :: 0 <= i < |commits| && Skipped(commits, i, filename, content) ==>
      (filename in commits[i].tree && commits[i].tree[filename] == content ==>
        FirstMatchingCommit(commits, filename, content) == Ok(Some(commits[i])))
      && (filename !in commits[i].tree ==> FirstMatchingCommit(commits, filename, content) == Err(KeyError(filename)))
    ensures var r := FirstMatchingCommit(commits, filename, content);
      r.Ok? && r.value.Some? ==>
        r.value.value in commits && filename in r.value.value.tree && r.value.value.tree[filename] == content
  {
    if commits != [] && filename in commits[0].tree && commits[0].tree[filename] != content {
      var rest := commits[1..];
      FirstMatchingCommitMeaning(rest, filename, content);
      assert Skipped(commits, |commits|, filename, content) <==> Skipped(rest, |rest|, filename, content) by {
        assert forall j :: 0 < j < |commits| ==> commits[j] == rest[j - 1];
      }
      forall i | 0 < i < |commits| && Skipped(commits, i, filename, content)
        ensures Skipped(rest, i - 1, filename, content)
      {
        assert forall j :: 0 <= j < i - 1 ==> rest[j] == commits[j + 1];
      }
      assert forall i :: 0 < i < |commits| ==> commits[i] == rest[i - 1];
    }
  }

  /** `get_matching_commit_for_file`: read the disk file, then search the file's history. */
  function MatchingCommit(env: Environment, repo: Repo, filename: string, diskPath: string): (r: Outcome<Option<Commit>>)
    ensures ReadFile(env.fs, diskPath).Err? ==> r == Err(ReadFile(env.fs, diskPath).error)
  {
    match ReadFile(env.fs, diskPath)
    case Err(e) => Err(e)
    case Ok(content) => FirstMatchingCommit(History(repo, filename), filename, content)
  }

  /** The loop itself, with its early return. */
  method GetMatchingCommitForFile(env: Environment, repo: Repo, filename: string, diskPath: string)
    returns (r: Outcome<Option<Commit>>)
    ensures r == MatchingCommit(env, repo, filename, diskPath)
  {
    var commits := History(repo, filename);
    var read := ReadFile(env.fs, diskPath);
    if read.Err? {
      return Err(read.error);
    }
    var fileContent := read.value;
    var i := 0;
    while i < |commits|
      invariant 0 <= i <= |commits|
      invariant FirstMatchingCommit(commits[i..], filename, fileContent) == FirstMatchingCommit(commits, filename, fileContent)
    {
      var commit := commits[i];
      assert commits[i..][1..] == commits[i + 1..];
      if filename !in commit.tree {
        return Err(KeyError(filename));
      }
      if commit.tree[filename] == fileContent {
        return Ok(Some(commit));
      }
      i := i + 1;
    }
    r := Ok(None);
  }

  /** What `f"{self.git_url}"` renders: the URL, or "None" when it was never set. */
  function UrlText(gitUrl: Option<string>): string {
    if gitUrl.Some? then gitUrl.value else "None"
  }

  function GitResult(gitUrl: Option<string>, commit: Commit): ProvenanceResult {
    ProvenanceResult("Vendor Software", UrlText(gitUrl) + "commit/" + commit.hexsha)
  }

  /**
   * `get_provenance`: no repository raises; a path that does not contain the
   * prefix gives None; otherwise the path is made relative to the prefix
   * (which raises when the prefix is not a leading run of components) and the
   * first commit whose blob equals the disk file names the result.
   */
  function Provenance(env: Environment, basePath: string, relativePath: string, gitUrl: Option<string>,
                      repo: Option<Repo>, path: string): (r: Lookup)
    ensures repo.None? ==> r.Err? && r.error.AssertionError?
    ensures repo.Some? && !Contains(path, relativePath) ==> r == Ok(None)
    ensures r.Ok? && r.value.Some? ==>
      && repo.Some? && Contains(path, relativePath) && RelativeTo(path, relativePath).Ok?
      && var gitPath := RelativeTo(path, relativePath).value;
      && var found := MatchingCommit(env, repo.value, gitPath, PathJoin(basePath, path));
      && found.Ok? && found.value.Some?
      && r.value.value == GitResult(gitUrl, found.value.value)
    ensures repo.Some? && Contains(path, relativePath) && RelativeTo(path, relativePath).Err? ==>
      r.Err? && r.error.ValueError?
    ensures repo.Some? && Contains(path, relativePath) && RelativeTo(path, relativePath).Ok? ==>
      var found := MatchingCommit(env, repo.value, RelativeTo(path, relativePath).value, PathJoin(basePath, path));
      && (found.Err? ==> r == Err(found.error))
      && (found == Ok(None) ==> r == Ok(None))
      && (found.Ok? && found.value.Some? ==> r == Ok(Some(GitResult(gitUrl, found.value.value))))
  {
    if repo.None? then Err(AssertionError("repo must be set"))
    else if !Contains(path, relativePath) then Ok(None)
    else match RelativeTo(path, relativePath)
      case Err(e) => Err(e)
      case Ok(gitPath) =>
        match MatchingCommit(env, repo.value, gitPath, PathJoin(basePath, path))
        case Err(e) => Err(e)
        case Ok(None) => Ok(None)
        case Ok(Some(commit)) => Ok(Some(GitResult(gitUrl, commit)))
  }

  /** A single component is its own only part. */
  lemma PartsOfComponent(c: string)
    requires IsComponent(c)
    ensures Parts(c) == [c]
  {
    FirstSegmentUnique(c, '/', c);
    assert Split(c, '/') == [c];
  }

  /** A leading component followed by "/" is the first part of a path. */
  lemma FirstPart(p: string, seg: string)
    requires IsComponent(seg) && |seg| < |p| && p[..|seg|] == seg && p[|seg|] == '/'
    ensures |Parts(p)| >= 1 && Parts(p)[0] == seg
  {
    var parts := Split(p, '/');
    assert parts[0] == seg by {
      FirstSegmentUnique(p, '/', seg);
    }
    assert Components(parts) == [seg] + Components(parts[1..]);
  }

  /**
   * Containment is not a prefix test: with prefix "lib", a path such as
   * "vendor/lib/x.php" passes the containment check and then raises
   * ValueError in `relative_to`, whatever the repository holds.
   */
  lemma ContainedButNotLeading(env: Environment, basePath: string, gitUrl: Option<string>, repo: Repo,
                               lead: string, prefix: string, rest: string)
    requires IsComponent(lead) && IsComponent(prefix) && lead != prefix
    ensures var r := Provenance(env, basePath, prefix, gitUrl, Some(repo), lead + "/" + prefix + "/" + rest);
      r.Err? && r.error.ValueError?
  {
    var p := lead + "/" + prefix + "/" + rest;
    assert Contains(p, prefix) by {
      assert p[|lead| + 1..][..|prefix|] == prefix;
      ContainsAt(p, prefix, |lead| + 1);
    }
    assert RelativeTo(p, prefix).Err? by {
      PartsOfComponent(prefix);
      assert p[..|lead|] == lead && p[|lead|] == '/';
      FirstPart(p, lead);
      assert Parts(p)[..1] != Parts(prefix);
    }
  }

  class GitRepoSource {
    const env: Environment
    const basePath: string
    const config: map<string, string>
    const relativePath: string
    const gitUrl: Option<string>
    var repo: Option<Repo>

    /**
     * `__init__` once its `relative_path` assertion has passed: read the
     * settings and clone at once.
     */
    constructor(env: Environment, basePath: string, config: map<string, string>)
      requires "relative_path" in config
      ensures this.env == env && this.basePath == basePath && this.config == config
      ensures relativePath == config["relative_path"] && gitUrl == Get(config, "git_url")
      ensures repo == Clone(env, gitUrl)
    {
      this.env := env;
      this.basePath := basePath;
      this.config := config;
      relativePath := config["relative_path"];
      gitUrl := Get(config, "git_url");
      repo := None;
      new;
      CloneRepo();
    }

    /** `clone_repo`: clone the configured URL into a fresh directory. */
    method CloneRepo()
      modifies this`repo
      ensures repo == Clone(env, gitUrl)
    {
      repo := Clone(env, gitUrl);
    }

    /** `get_provenance`, running the commit search loop. */
    method GetProvenance(path: string) returns (r: Lookup)
      ensures r == Provenance(env, basePath, relativePath, gitUrl, repo, path)
    {
      if repo.None? {
        return Err(AssertionError("repo must be set"));
      }
      if !Contains(path, relativePath) {
        return Ok(None);
      }
      var gitPath := RelativeTo(path, relativePath);
      if gitPath.Err? {
        return Err(gitPath.error);
      }
      var commit := GetMatchingCommitForFile(env, repo.value, gitPath.value, PathJoin(basePath, path));
      match commit {
        case Err(e) => r := Err(e);
        case Ok(None) => r := Ok(None);
        case Ok(Some(c)) => r := Ok(Some(GitResult(gitUrl, c)));
      }
    }
  }

  /** `Repo.clone_from(git_url, ...)`: None when there is no URL or the clone fails. */
  function Clone(env: Environment, gitUrl: Option<string>): Option<Repo> {
    if gitUrl.None? then None else env.clone(gitUrl.value)
  }
}
