/**
 * sources/wordpress_plugin.py: plugins from the WordPress plugin directory.
 * The first path segment under the configured prefix names the plugin (its
 * slug); the plugin's latest stable archive is downloaded on first use and its
 * index kept in a per-slug table, a failed download included, so that no slug
 * is ever fetched twice.
 */
module WordpressPlugin {
  import opened Wrappers
  import opened Strings
  import opened Env
  import opened Results

  /** The download address of a plugin's latest stable release. */
  function PluginUrl(slug: string): string {
    "https://downloads.wordpress.org/plugin/" + slug + ".latest-stable.zip"
  }

  /** What the plugin's directory page is reported as. */
  function PluginResult(slug: string): ProvenanceResult {
    ProvenanceResult("Vendor Source", "https://wordpress.org/plugins/" + slug + "/")
  }

  /** The index of a plugin's archive; None when the download fails. */
  function PluginIndex(env: Environment, slug: string): (index: Option<map<string, string>>)
    ensures index.None? <==> env.fetch(PluginUrl(slug)).None?
    ensures index.Some? ==> index.value == Checksums(env.fetch(PluginUrl(slug)).value, env.md5)
  {
    match env.fetch(PluginUrl(slug))
    case None => None
    case Some(archive) => Some(Checksums(archive, env.md5))
  }

  /** The path with every `relative_path + "/"` removed. */
  function Stripped(relativePath: string, path: string): string {
    RemoveAll(path, relativePath + "/")
  }

  /** The plugin slug: the first `/`-segment of the stripped path. */
  function Slug(relativePath: string, path: string): (slug: string)
    ensures StartsWith(Stripped(relativePath, path), slug) && '/' !in slug
    ensures |slug| == |Stripped(relativePath, path)| || Stripped(relativePath, path)[|slug|] == '/'
  {
    FirstSegment(Stripped(relativePath, path), '/')
  }

  /**
   * `get_provenance` with every download's outcome known: a path outside the
   * prefix gives None; so does a plugin whose download fails; otherwise the
   * stripped path is looked up in the plugin's index and compared with the
   * disk file's hash.
   */
  function Provenance(env: Environment, basePath: string, relativePath: string, path: string): (r: Lookup)
    ensures !StartsWith(path, relativePath) ==> r == Ok(None)
    ensures r.Ok? && r.value.Some? ==> r.value.value == PluginResult(Slug(relativePath, path))
    ensures r.Ok? && r.value.Some? <==>
      && StartsWith(path, relativePath)
      && var index := PluginIndex(env, Slug(relativePath, path));
      && var key := Stripped(relativePath, path);
      && var disk := PathJoin(basePath, path);
      && index.Some? && key in index.value && index.value[key] != ""
      && disk in env.fs && env.fs[disk].File?
      && env.md5(env.fs[disk].content) == index.value[key]
  {
    if !StartsWith(path, relativePath) then Ok(None)
    else
      var slug := Slug(relativePath, path);
      match PluginIndex(env, slug)
      case None => Ok(None)
      case Some(index) =>
        IndexedMatch(env, index, Stripped(relativePath, path), PathJoin(basePath, path), PluginResult(slug))
  }

  /**
   * A file under the prefix, in the directory named after its plugin, is
   * attributed to that plugin's page: for "wp-content/plugins/akismet/x.php"
   * with prefix "wp-content/plugins" the slug is "akismet".
   */
  lemma SlugOfPluginFile(relativePath: string, slug: string, rest: string)
    requires '/' !in slug
    requires !Contains(slug + "/" + rest, relativePath + "/")
    ensures Slug(relativePath, relativePath + "/" + slug + "/" + rest) == slug
    ensures Stripped(relativePath, relativePath + "/" + slug + "/" + rest) == slug + "/" + rest
  {
    var path := relativePath + "/" + slug + "/" + rest;
    var stripped := slug + "/" + rest;
    assert Stripped(relativePath, path) == stripped by {
      assert path == (relativePath + "/") + stripped;
      StripLeading(relativePath + "/", stripped);
    }
    assert FirstSegment(stripped, '/') == slug by {
      assert stripped[..|slug|] == slug && stripped[|slug|] == '/';
      FirstSegmentUnique(stripped, '/', slug);
    }
  }

  /**
   * The table after one `get_provenance` of `path`: a path under the prefix
   * fills in its slug's entry; any other path leaves the table as it was.
   */
  function TableAfter(env: Environment, relativePath: string, table: map<string, Option<map<string, string>>>,
                      path: string): map<string, Option<map<string, string>>>
  {
    if StartsWith(path, relativePath) then table[Slug(relativePath, path) := PluginIndex(env, Slug(relativePath, path))]
    else table
  }

  class WordpressPluginSource {
    const env: Environment
    const basePath: string
    const config: map<string, string>
    const relativePath: string
    /** Slug to index, None for a plugin whose download failed. */
    var pluginChecksums: map<string, Option<map<string, string>>>
    /** Every slug downloaded so far, in order. */
    ghost var downloads: seq<string>

    /**
     * Every cached entry is what downloading that slug yields, and each cached
     * slug was downloaded exactly once.
     */
    ghost predicate Valid()
      reads this
    {
      && (forall slug :: slug in pluginChecksums ==> pluginChecksums[slug] == PluginIndex(env, slug))
      && (forall slug :: slug in pluginChecksums <==> slug in downloads)
      && (forall i, j :: 0 <= i < j < |downloads| ==> downloads[i] != downloads[j])
    }

    /**
     * `__init__` once its `relative_path` assertion has passed: the table
     * starts empty.
     */
    constructor(env: Environment, basePath: string, config: map<string, string>)
      requires "relative_path" in config
      ensures this.env == env && this.basePath == basePath && this.config == config
      ensures relativePath == config["relative_path"]
      ensures pluginChecksums == map[] && downloads == []
      ensures Valid()
    {
      this.env := env;
      this.basePath := basePath;
      this.config := config;
      relativePath := config["relative_path"];
      pluginChecksums := map[];
      downloads := [];
    }

    /**
     * `get_plugin_data`: an unseen slug is downloaded once and its index (or
     * None) stored; a slug already in the table, a None entry included, is
     * answered from the table. Other entries never change.
     */
    method GetPluginData(slug: string) returns (index: Option<map<string, string>>)
      requires Valid()
      modifies this`pluginChecksums, this`downloads
      ensures Valid()
      ensures index == PluginIndex(env, slug)
      ensures pluginChecksums == old(pluginChecksums)[slug := index]
      ensures downloads == old(downloads) + (if slug in old(pluginChecksums) then [] else [slug])
    {
      if slug !in pluginChecksums {
        var zipContent := env.fetch(PluginUrl(slug));
        downloads := downloads + [slug];
        if zipContent.None? {
          pluginChecksums := pluginChecksums[slug := None];
        } else {
          var checksums := BuildChecksums(zipContent.value, env.md5);
          pluginChecksums := pluginChecksums[slug := Some(checksums)];
        }
      }
      index := pluginChecksums[slug];
      assert pluginChecksums == old(pluginChecksums)[slug := index];
    }

    /**
     * `get_provenance`: the answer does not depend on what is cached, and the
     * only table change is the entry of the path's slug.
     */
    method GetProvenance(path: string) returns (r: Lookup)
      requires Valid()
      modifies this`pluginChecksums, this`downloads
      ensures Valid()
      ensures r == Provenance(env, basePath, relativePath, path)
      ensures !StartsWith(path, relativePath) ==> pluginChecksums == old(pluginChecksums)
      ensures StartsWith(path, relativePath) ==>
        pluginChecksums == old(pluginChecksums)[Slug(relativePath, path) := PluginIndex(env, Slug(relativePath, path))]
    {
      if !StartsWith(path, relativePath) {
        return Ok(None);
      }
      var posixPath := Stripped(relativePath, path);
      var pluginSlug := Slug(relativePath, path);
      var index := GetPluginData(pluginSlug);
      if index.None? {
        return Ok(None);
      }
      r := IndexedMatch(env, index.value, posixPath, PathJoin(basePath, path), PluginResult(pluginSlug));
    }
  }

  /**
   * The download log never repeats a slug, so over any sequence of queries
   * each plugin is fetched at most once: the number of fetches is the number
   * of table entries.
   */
  lemma DownloadsOncePerSlug(s: WordpressPluginSource)
    requires s.Valid()
    ensures |s.downloads| == |s.pluginChecksums.Keys|
  {
    DistinctCount(s.downloads, s.pluginChecksums.Keys);
  }

  lemma {:induction false} DistinctCount(log: seq<string>, keys: set<string>)
    requires forall i, j :: 0 <= i < j < |log| ==> log[i] != log[j]
    requires forall x :: x in keys <==> x in log
    ensures |log| == |keys|
  {
    if log != [] {
      var last := log[|log| - 1];
      var init := log[..|log| - 1];
      assert forall x :: x in init ==> x != last;
      assert forall x :: x in keys - {last} <==> x in init;
      DistinctCount(init, keys - {last});
    }
  }
}
