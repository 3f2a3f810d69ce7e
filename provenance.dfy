/**
 * provenance.py: the ProvenanceChecker. It builds one source per enabled
 * descriptor of the configuration, in configuration order, and answers a path
 * with the first source that knows it, or "Unknown".
 */
module Provenance {
  import opened Wrappers
  import opened Strings
  import opened Env
  import opened Results
  import LocalFiles
  import WordpressCore
  import WordpressPlugin
  import GitRepo

  /** One entry of the configuration's "sources" list. */
  datatype SourceDescriptor = SourceDescriptor(
    name: string,
    className: string,
    enabled: Option<bool>,
    config: map<string, string>)

  /** `not ("enabled" in source and not source["enabled"])`. */
  predicate IsEnabled(d: SourceDescriptor) {
    d.enabled != Some(false)
  }

  /** The descriptors `load_sources` does not skip, in configuration order. */
  function Enabled(ds: seq<SourceDescriptor>): seq<SourceDescriptor>
  {
    if ds == [] then []
    else (if IsEnabled(ds[0]) then [ds[0]] else []) + Enabled(ds[1..])
  }

  /** A descriptor is kept exactly when it is present and not switched off. */
  lemma {:induction false} EnabledMembership(ds: seq<SourceDescriptor>, d: SourceDescriptor)
    ensures d in Enabled(ds) <==> d in ds && IsEnabled(d)
  {
    if ds != [] {
      EnabledMembership(ds[1..], d);
      assert d in ds <==> d == ds[0] || d in ds[1..];
    }
  }

  /** Filtering commutes with concatenation, so the kept descriptors stay in configuration order. */
  lemma {:induction false} EnabledConcat(a: seq<SourceDescriptor>, b: seq<SourceDescriptor>)
    ensures Enabled(a + b) == Enabled(a) + Enabled(b)
  {
    if a == [] {
      assert a + b == b;
    } else {
      assert (a + b)[0] == a[0] && (a + b)[1..] == a[1..] + b;
      EnabledConcat(a[1..], b);
      AppendAssoc(if IsEnabled(a[0]) then [a[0]] else [], Enabled(a[1..]), Enabled(b));
    }
  }

  const LocalFilesClass: string := "sources.local_files.LocalFilesSource"
  const WordpressCoreClass: string := "sources.wordpress_core.WordpressCoreSource"
  const WordpressPluginClass: string := "sources.wordpress_plugin.WordpressPluginSource"
  const GitRepoClass: string := "sources.git_repo.GitHubRepoSource"

  /**
   * What a source answers, reduced to the values its answer depends on. The
   * plugin source's table is left out on purpose: its answers do not depend on
   * what it has cached.
   */
  datatype SourceModel =
    | LocalModel(local: LocalFiles.LocalFilesSource)
    | CoreModel(coreBase: string, index: Option<map<string, string>>)
    | PluginModel(pluginBase: string, pluginPrefix: string)
    | GitModel(gitBase: string, gitPrefix: string, gitUrl: Option<string>, repo: Option<Repo>)

  /** `source.get_provenance(path)`. */
  function Answer(env: Environment, m: SourceModel, path: string): Lookup
  {
    match m
    case LocalModel(local) => LocalFiles.GetProvenance(env, local, path)
    case CoreModel(base, index) => WordpressCore.Provenance(env, base, index, path)
    case PluginModel(base, prefix) => WordpressPlugin.Provenance(env, base, prefix, path)
    case GitModel(base, prefix, url, repo) => GitRepo.Provenance(env, base, prefix, url, repo, path)
  }

  /**
   * Importing and constructing the class a descriptor names: the four source
   * classes are known; any other name fails to import. The plugin and git
   * constructors assert `relative_path`, and the git constructor raises when
   * the clone fails.
   */
  function Instance(env: Environment, basePath: string, d: SourceDescriptor): (r: Outcome<SourceModel>)
    ensures r.Ok? ==> d.className in {LocalFilesClass, WordpressCoreClass, WordpressPluginClass, GitRepoClass}
    ensures d.className == LocalFilesClass ==> r == Ok(LocalModel(LocalFiles.NewLocalFilesSource(basePath, d.config)))
    ensures d.className in {WordpressPluginClass, GitRepoClass} && "relative_path" !in d.config ==>
      r.Err? && r.error.AssertionError?
  {
    if d.className == LocalFilesClass then
      Ok(LocalModel(LocalFiles.NewLocalFilesSource(basePath, d.config)))
    else if d.className == WordpressCoreClass then
      Ok(CoreModel(basePath, WordpressCore.ReleaseIndex(env, WordpressCore.DownloadUrl(d.config))))
    else if d.className == WordpressPluginClass then
      if "relative_path" !in d.config then Err(AssertionError("relative_path must be set"))
      else Ok(PluginModel(basePath, d.config["relative_path"]))
    else if d.className == GitRepoClass then
      if "relative_path" !in d.config then Err(AssertionError("relative_path must be set"))
      else
        var url := Get(d.config, "git_url");
        match GitRepo.Clone(env, url)
        case None => Err(CloneError(url))
        case Some(repo) => Ok(GitModel(basePath, d.config["relative_path"], url, Some(repo)))
    else Err(ImportError(d.className))
  }

  /** What `load_sources` builds from a descriptor list, and the exception that stopped it, if any. */
  datatype Loading = Loading(models: seq<SourceModel>, error: Option<Error>)

  /**
   * The `load_sources` loop over the descriptors so far: a disabled
   * descriptor is skipped; the first construction that raises stops the loop.
   */
  function Loaded(env: Environment, basePath: string, ds: seq<SourceDescriptor>): Loading
  {
    if ds == [] then Loading([], None)
    else
      var before := Loaded(env, basePath, ds[..|ds| - 1]);
      var d := ds[|ds| - 1];
      if before.error.Some? || !IsEnabled(d) then before
      else match Instance(env, basePath, d)
        case Err(e) => Loading(before.models, Some(e))
        case Ok(m) => Loading(before.models + [m], None)
  }

  /**
   * `load_sources` builds the enabled descriptors' sources in order: when
   * nothing raises, one per enabled descriptor; otherwise those of the enabled
   * descriptors before the first one whose construction raised, and that
   * descriptor's exception.
   */
  lemma {:induction false} LoadedMeaning(env: Environment, basePath: string, ds: seq<SourceDescriptor>)
    ensures var l := Loaded(env, basePath, ds);
      && |l.models| <= |Enabled(ds)|
      && (forall i :: 0 <= i < |l.models| ==> Instance(env, basePath, Enabled(ds)[i]) == Ok(l.models[i]))
      && (l.error.None? ==> |l.models| == |Enabled(ds)|)
      && (l.error.Some? ==>
            |l.models| < |Enabled(ds)| && Instance(env, basePath, Enabled(ds)[|l.models|]) == Err(l.error.value))
  {
    if ds != [] {
      var init := ds[..|ds| - 1];
      var d := ds[|ds| - 1];
      LoadedMeaning(env, basePath, init);
      assert ds == init + [d];
      EnabledConcat(init, [d]);
      assert Enabled([d]) == if IsEnabled(d) then [d] else [] by {
        assert [d][1..] == [];
      }
    }
  }

  /** A source as the checker holds it; the local files source is a plain value. */
  datatype Source =
    | Local(local: LocalFiles.LocalFilesSource)
    | Core(core: WordpressCore.WordpressCoreSource)
    | Plugin(plugin: WordpressPlugin.WordpressPluginSource)
    | Git(git: GitRepo.GitRepoSource)

  function ObjectOf(s: Source): set<object> {
    match s
    case Local(_) => {}
    case Core(c) => {c}
    case Plugin(p) => {p}
    case Git(g) => {g}
  }

  function Footprint(ss: seq<Source>): set<object> {
    set i, o | 0 <= i < |ss| && o in ObjectOf(ss[i]) :: o
  }

  /** The objects whose fields a source's answers depend on: the core and git sources. */
  function StateOf(s: Source): set<object> {
    match s
    case Core(c) => {c}
    case Git(g) => {g}
    case _ => {}
  }

  function StateFootprint(ss: seq<Source>): set<object> {
    set i, o | 0 <= i < |ss| && o in StateOf(ss[i]) :: o
  }

  function PluginObjects(ss: seq<Source>): set<object> {
    set i | 0 <= i < |ss| && ss[i].Plugin? :: ss[i].plugin as object
  }

  /** The answer-relevant state of a source. */
  function ModelOf(s: Source): SourceModel
    reads StateOf(s)
  {
    match s
    case Local(l) => LocalModel(l)
    case Core(c) => CoreModel(c.basePath, c.fileChecksums)
    case Plugin(p) => PluginModel(p.basePath, p.relativePath)
    case Git(g) => GitModel(g.basePath, g.relativePath, g.gitUrl, g.repo)
  }

  /** A source works in the given world, and a plugin source's table is consistent. */
  ghost predicate SourceValid(env: Environment, s: Source)
    reads ObjectOf(s)
  {
    match s
    case Local(_) => true
    case Core(c) => c.env == env
    case Plugin(p) => p.env == env && p.Valid()
    case Git(g) => g.env == env
  }

  /** One `get_provenance` call, dispatched on the source's class. */
  method Query(env: Environment, s: Source, path: string) returns (a: Lookup)
    requires SourceValid(env, s)
    modifies if s.Plugin? then {s.plugin} else {}
    ensures SourceValid(env, s)
    ensures a == Answer(env, ModelOf(s), path)
    ensures s.Plugin? ==>
      (s.plugin.pluginChecksums == WordpressPlugin.TableAfter(env, s.plugin.relativePath, old(s.plugin.pluginChecksums), path))
  {
    match s
    case Local(l) =>
      a := LocalFiles.GetProvenance(env, l, path);
    case Core(c) =>
      a := c.GetProvenance(path);
    case Plugin(p) =>
      a := p.GetProvenance(path);
    case Git(g) =>
      a := g.GetProvenance(path);
  }

  /**
   * Importing and constructing the class a descriptor names, as
   * `load_sources` does for one descriptor.
   */
  method Instantiate(env: Environment, basePath: string, d: SourceDescriptor) returns (r: Outcome<Source>)
    ensures r.Err? <==> Instance(env, basePath, d).Err?
    ensures r.Err? ==> r.error == Instance(env, basePath, d).error
    ensures r.Ok? ==> SourceValid(env, r.value) && ModelOf(r.value) == Instance(env, basePath, d).value
    ensures r.Ok? ==> forall o :: o in ObjectOf(r.value) ==> fresh(o)
  {
    if d.className == LocalFilesClass {
      r := Ok(Local(LocalFiles.NewLocalFilesSource(basePath, d.config)));
    } else if d.className == WordpressCoreClass {
      var c := new WordpressCore.WordpressCoreSource(env, basePath, d.config);
      r := Ok(Core(c));
    } else if d.className == WordpressPluginClass {
      if "relative_path" !in d.config {
        return Err(AssertionError("relative_path must be set"));
      }
      var p := new WordpressPlugin.WordpressPluginSource(env, basePath, d.config);
      r := Ok(Plugin(p));
    } else if d.className == GitRepoClass {
      if "relative_path" !in d.config {
        return Err(AssertionError("relative_path must be set"));
      }
      var g := new GitRepo.GitRepoSource(env, basePath, d.config);
      if g.repo.None? {
        return Err(CloneError(g.gitUrl));
      }
      r := Ok(Git(g));
    } else {
      r := Err(ImportError(d.className));
    }
  }

  /** `find_provenance` over answers: the first source that answers or raises decides. */
  function Resolve(env: Environment, models: seq<SourceModel>, path: string): Outcome<ProvenanceResult>
  {
    if models == [] then Ok(Unknown)
    else match Answer(env, models[0], path)
      case Err(e) => Err(e)
      case Ok(Some(result)) => Ok(result)
      case Ok(None) => Resolve(env, models[1..], path)
  }

  /** Every source before position `k` answers None. */
  predicate NoneBefore(env: Environment, models: seq<SourceModel>, k: nat, path: string)
    requires k <= |models|
  {
    forall j :: 0 <= j < k ==> Answer(env, models[j], path) == Ok(None)
  }

  /** How a single answer that is not None ends the search. */
  function Decision(a: Lookup): Outcome<ProvenanceResult>
    requires a != Ok(None)
  {
    match a
    case Err(e) => Err(e)
    case Ok(r) => Ok(r.value)
  }

  /**
   * `find_provenance` returns the answer of the earliest source that does not
   * answer None (its result, or its exception), and ("Unknown", "") when all
   * of them answer None.
   */
  lemma {:induction false} ResolveMeaning(env: Environment, models: seq<SourceModel>, path: string)
    ensures NoneBefore(env, models, |models|, path) ==> Resolve(env, models, path) == Ok(Unknown)
    ensures forall i ::
      (0 <= i < |models| && NoneBefore(env, models, i, path) && Answer(env, models[i], path) != Ok(None)) ==>
        Resolve(env, models, path) == Decision(Answer(env, models[i], path))
  {
    if models != [] {
      var rest := models[1..];
      ResolveMeaning(env, rest, path);
      assert forall j :: 0 < j < |models| ==> models[j] == rest[j - 1];
      if Answer(env, models[0], path) == Ok(None) {
        forall i | 0 < i <= |models| && NoneBefore(env, models, i, path)
          ensures NoneBefore(env, rest, i - 1, path)
        {
          assert forall j :: 0 <= j < i - 1 ==> rest[j] == models[j + 1];
        }
      }
    }
  }

  /** Once a source has decided, the sources after it are never consulted. */
  lemma {:induction false} ResolveIgnoresLater(env: Environment, models: seq<SourceModel>, more: seq<SourceModel>, path: string)
    requires !NoneBefore(env, models, |models|, path)
    ensures Resolve(env, models + more, path) == Resolve(env, models, path)
  {
    assert models != [];
    assert (models + more)[0] == models[0] && (models + more)[1..] == models[1..] + more;
    if Answer(env, models[0], path) == Ok(None) {
      var rest := models[1..];
      assert !NoneBefore(env, rest, |rest|, path) by {
        var j :| 0 <= j < |models| && Answer(env, models[j], path) != Ok(None);
        assert j > 0 && rest[j - 1] == models[j];
      }
      ResolveIgnoresLater(env, rest, more, path);
    }
  }

  class ProvenanceChecker {
    const env: Environment
    const basePath: string
    const configuration: seq<SourceDescriptor>
    var sources: seq<Source>

    /** Every source works in this world, and no object is held at two positions. */
    ghost predicate Valid()
      reads this, Footprint(sources)
    {
      && (forall i :: 0 <= i < |sources| ==> SourceValid(env, sources[i]))
      && Separate()
    }

    /** No source object is held at two positions. */
    predicate Separate()
      reads this
    {
      forall i, j :: 0 <= i < j < |sources| ==> ObjectOf(sources[i]) !! ObjectOf(sources[j])
    }

    /** The answer-relevant state of every source, in order. */
    function Models(): (ms: seq<SourceModel>)
      reads this, StateFootprint(sources)
      ensures |ms| == |sources|
    {
      seq(|sources|, i requires 0 <= i < |sources| reads this, StateFootprint(sources) => ModelOf(sources[i]))
    }

    /** The plugin sources, the only objects a query changes. */
    function Plugins(): set<object>
      reads this
    {
      PluginObjects(sources)
    }

    /** `__init__` up to its call of `load_sources`: no source yet. */
    constructor(env: Environment, basePath: string, configuration: seq<SourceDescriptor>)
      ensures this.env == env && this.basePath == basePath && this.configuration == configuration
      ensures sources == []
      ensures Valid()
    {
      this.env := env;
      this.basePath := basePath;
      this.configuration := configuration;
      sources := [];
    }

    /**
     * `load_sources`: build the source of every enabled descriptor and append
     * it, in configuration order; an exception from a constructor ends the
     * loop with the sources built so far kept.
     */
    method LoadSources() returns (error: Option<Error>)
      requires Valid()
      modifies this`sources
      ensures Valid()
      ensures Models() == old(Models()) + Loaded(env, basePath, configuration).models
      ensures error == Loaded(env, basePath, configuration).error
    {
      var i := 0;
      ghost var oldModels := Models();
      while i < |configuration|
        invariant 0 <= i <= |configuration|
        invariant Valid()
        invariant Models() == oldModels + Loaded(env, basePath, configuration[..i]).models
        invariant Loaded(env, basePath, configuration[..i]).error.None?
      {
        var d := configuration[i];
        LoadedStep(env, basePath, configuration, i);
        if !IsEnabled(d) {
          i := i + 1;
          continue;
        }
        error := LoadDescriptor(d);
        if error.Some? {
          LoadedStops(env, basePath, configuration[..i + 1], configuration[i + 1..]);
          assert configuration[..i + 1] + configuration[i + 1..] == configuration;
          return;
        }
        i := i + 1;
      }
      assert configuration[..i] == configuration;
      error := None;
    }

    /** One iteration of `load_sources` for an enabled descriptor: build its source and append it. */
    method LoadDescriptor(d: SourceDescriptor) returns (error: Option<Error>)
      requires Valid()
      modifies this`sources
      ensures Valid()
      ensures error.Some? <==> Instance(env, basePath, d).Err?
      ensures error.Some? ==> error.value == Instance(env, basePath, d).error && Models() == old(Models())
      ensures error.None? ==> Models() == old(Models()) + [Instance(env, basePath, d).value]
    {
      var instance := Instantiate(env, basePath, d);
      if instance.Err? {
        return Some(instance.error);
      }
      AppendSource(instance.value);
      error := None;
    }

    /** Append one freshly built source. */
    method AppendSource(s: Source)
      requires Valid() && SourceValid(env, s) && ObjectOf(s) !! Footprint(sources)
      modifies this`sources
      ensures Valid()
      ensures sources == old(sources) + [s]
      ensures Models() == old(Models()) + [ModelOf(s)]
    {
      ghost var before := Models();
      sources := sources + [s];
      assert forall i :: 0 <= i < |sources| - 1 ==> ObjectOf(sources[i]) <= old(Footprint(sources));
    }

    /** One iteration of `find_provenance`: ask the source at position `i`. */
    method QueryAt(i: nat, path: string) returns (a: Lookup)
      requires Valid() && i < |sources|
      modifies if sources[i].Plugin? then {sources[i].plugin} else {}
      ensures Valid() && Models() == old(Models())
      ensures a == Answer(env, Models()[i], path)
      ensures sources[i].Plugin? ==>
        (sources[i].plugin.pluginChecksums ==
         WordpressPlugin.TableAfter(env, sources[i].plugin.relativePath, old(sources[i].plugin.pluginChecksums), path))
      ensures forall j :: 0 <= j < |sources| && j != i && sources[j].Plugin? ==> unchanged(sources[j].plugin)
    {
      var s := sources[i];
      assert forall j :: 0 <= j < |sources| && j != i ==> ObjectOf(sources[j]) !! ObjectOf(s);
      a := Query(env, s, path);
      assert Valid() by {
        forall j | 0 <= j < |sources| ensures SourceValid(env, sources[j]) {
          if j != i {
            assert old(SourceValid(env, sources[j]));
          }
        }
      }
      assert Models() == old(Models()) by {
        forall j | 0 <= j < |sources| ensures ModelOf(sources[j]) == old(ModelOf(sources[j])) {
        }
      }
    }

    /**
     * `find_provenance`: ask the sources in order and return the first
     * result; an exception from a source propagates; the source list itself
     * never changes, and neither does any source's answer-relevant state. A
     * plugin source is asked, and its table filled in, only when every source
     * before it answered None; the plugin sources after the deciding one are
     * left untouched.
     */
    method FindProvenance(path: string) returns (r: Outcome<ProvenanceResult>)
      requires Valid()
      modifies Plugins()
      ensures Valid()
      ensures sources == old(sources) && Models() == old(Models())
      ensures r == Resolve(env, Models(), path)
      ensures forall j :: 0 <= j < |sources| && sources[j].Plugin? ==>
        if NoneBefore(env, Models(), j, path)
        then sources[j].plugin.pluginChecksums ==
          WordpressPlugin.TableAfter(env, sources[j].plugin.relativePath, old(sources[j].plugin.pluginChecksums), path)
        else unchanged(sources[j].plugin)
    {
      ghost var models := Models();
      var i := 0;
      while i < |sources|
        invariant 0 <= i <= |sources|
        invariant Valid() && Models() == models
        invariant Resolve(env, models[i..], path) == Resolve(env, models, path)
        invariant NoneBefore(env, models, i, path)
        invariant forall j :: 0 <= j < |sources| && sources[j].Plugin? ==>
          if j < i
          then sources[j].plugin.pluginChecksums ==
            WordpressPlugin.TableAfter(env, sources[j].plugin.relativePath, old(sources[j].plugin.pluginChecksums), path)
          else unchanged(sources[j].plugin)
      {
        var a := QueryAt(i, path);
        assert models[i..][0] == models[i] && models[i..][1..] == models[i + 1..];
        if a != Ok(None) {
          assert forall j :: i < j <= |models| ==> !NoneBefore(env, models, j, path);
          r := if a.Err? then Err(a.error) else Ok(a.value.value);
          return;
        }
        i := i + 1;
      }
      r := Ok(Unknown);
    }
  }

  /** One more descriptor of the loop: the prefix up to and including position `i`. */
  lemma LoadedStep(env: Environment, basePath: string, ds: seq<SourceDescriptor>, i: nat)
    requires i < |ds|
    ensures var before := Loaded(env, basePath, ds[..i]);
      Loaded(env, basePath, ds[..i + 1]) ==
        if before.error.Some? || !IsEnabled(ds[i]) then before
        else match Instance(env, basePath, ds[i])
          case Err(e) => Loading(before.models, Some(e))
          case Ok(m) => Loading(before.models + [m], None)
  {
    assert ds[..i + 1][..i] == ds[..i];
  }

  /** A raise while building the last descriptor of a prefix is final: later descriptors change nothing. */
  lemma {:induction false} LoadedStops(env: Environment, basePath: string, ds: seq<SourceDescriptor>, more: seq<SourceDescriptor>)
    requires Loaded(env, basePath, ds).error.Some?
    ensures Loaded(env, basePath, ds + more) == Loaded(env, basePath, ds)
    decreases |more|
  {
    if more != [] {
      var init := more[..|more| - 1];
      assert (ds + more)[..|ds + more| - 1] == ds + init;
      LoadedStops(env, basePath, ds, init);
    } else {
      assert ds + more == ds;
    }
  }
}
