/**
 * sources/wordpress_core.py: the official WordPress release. The release
 * archive is downloaded once, when the source is built, and turned into an
 * index from entry name to MD5; a file is attributed to WordPress when its
 * hash equals the indexed hash of "wordpress/" + its path.
 */
module WordpressCore {
  import opened Wrappers
  import opened Env
  import opened Results

  const DefaultDownloadUrl: string := "https://wordpress.org/latest.zip"

  const WordpressResult: ProvenanceResult := ProvenanceResult("Vendor Source", "https://wordpress.org/")

  /** `config.get("download_url", "https://wordpress.org/latest.zip")`. */
  function DownloadUrl(config: map<string, string>): (url: string)
    ensures "download_url" in config ==> url == config["download_url"]
    ensures "download_url" !in config ==> url == DefaultDownloadUrl
  {
    if "download_url" in config then config["download_url"] else DefaultDownloadUrl
  }

  /** The index the download at `url` yields, None when the download fails. */
  function ReleaseIndex(env: Environment, url: string): (index: Option<map<string, string>>)
    ensures index.None? <==> env.fetch(url).None?
    ensures index.Some? ==> index.value.Keys == env.fetch(url).value.Keys
    ensures index.Some? ==> forall name :: name in index.value ==>
      index.value[name] == env.md5(env.fetch(url).value[name])
  {
    match env.fetch(url)
    case None => None
    case Some(archive) => Some(Checksums(archive, env.md5))
  }

  /**
   * `get_provenance` over a given index: no index, or an empty one, gives None;
   * otherwise the indexed checksum of "wordpress/" + path is compared with the
   * hash of the file at base_path joined with path.
   */
  function Provenance(env: Environment, basePath: string, index: Option<map<string, string>>, path: string): (r: Lookup)
    ensures index.None? || index.value == map[] ==> r == Ok(None)
    ensures r == Ok(Some(WordpressResult)) <==>
      && index.Some?
      && var key := "wordpress/" + path;
      && var disk := PathJoin(basePath, path);
      && key in index.value && index.value[key] != ""
      && disk in env.fs && env.fs[disk].File?
      && env.md5(env.fs[disk].content) == index.value[key]
    ensures r.Ok? && r.value.Some? ==> r.value.value == WordpressResult
  {
    if index.None? || index.value == map[] then Ok(None)
    else IndexedMatch(env, index.value, "wordpress/" + path, PathJoin(basePath, path), WordpressResult)
  }

  /**
   * Against the index built from a release archive, a file matches exactly
   * when the archive holds an entry "wordpress/" + path whose hash is non-empty
   * and equal to the hash of the file on disk.
   */
  lemma ReleaseMatch(env: Environment, basePath: string, url: string, path: string)
    requires env.fetch(url).Some?
    ensures var archive := env.fetch(url).value;
      var disk := PathJoin(basePath, path);
      Provenance(env, basePath, ReleaseIndex(env, url), path) == Ok(Some(WordpressResult)) <==>
        && "wordpress/" + path in archive
        && env.md5(archive["wordpress/" + path]) != ""
        && disk in env.fs && env.fs[disk].File?
        && env.md5(env.fs[disk].content) == env.md5(archive["wordpress/" + path])
  {
    var archive := env.fetch(url).value;
    if "wordpress/" + path in archive {
      assert ReleaseIndex(env, url).value != map[];
    }
  }

  class WordpressCoreSource {
    const env: Environment
    const basePath: string
    const config: map<string, string>
    const downloadUrl: string
    var fileChecksums: Option<map<string, string>>

    /** `__init__`: settle the download URL, then fetch the release once. */
    constructor(env: Environment, basePath: string, config: map<string, string>)
      ensures this.env == env && this.basePath == basePath && this.config == config
      ensures downloadUrl == DownloadUrl(config)
      ensures fileChecksums == ReleaseIndex(env, downloadUrl)
    {
      this.env := env;
      this.basePath := basePath;
      this.config := config;
      downloadUrl := DownloadUrl(config);
      fileChecksums := None;
      new;
      GetFileData();
    }

    /**
     * `get_file_data`: download the release; on success record its index, on
     * failure leave `file_checksums` as it was.
     */
    method GetFileData()
      modifies this`fileChecksums
      ensures env.fetch(downloadUrl).None? ==> fileChecksums == old(fileChecksums)
      ensures env.fetch(downloadUrl).Some? ==> fileChecksums == ReleaseIndex(env, downloadUrl)
    {
      var zipContent := env.fetch(downloadUrl);
      if zipContent.Some? {
        var checksums := BuildChecksums(zipContent.value, env.md5);
        fileChecksums := Some(checksums);
      }
    }

    /** `get_provenance` over the index this source holds. */
    function GetProvenance(path: string): (r: Lookup)
      reads this
      ensures fileChecksums.None? ==> r == Ok(None)
      ensures r.Ok? && r.value.Some? ==> r.value.value == WordpressResult
    {
      Provenance(env, basePath, fileChecksums, path)
    }
  }
}
