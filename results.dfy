/**
 * What a provenance source answers: `ProvenanceResult` (a type and a line of
 * additional information), or nothing, or the exception its query raised; and
 * the checksum comparison the two WordPress sources share.
 */
module Results {
  import opened Wrappers
  import opened Env

  /** `ProvenanceResult(provenance_type, additional_info)`. */
  datatype ProvenanceResult = ProvenanceResult(provenanceType: string, additionalInfo: string)

  /** What `find_provenance` falls back to when no source knows the file. */
  const Unknown: ProvenanceResult := ProvenanceResult("Unknown", "")

  /** The answer of one `get_provenance` call: a result, None, or a raised exception. */
  type Lookup = Outcome<Option<ProvenanceResult>>

  /**
   * Whether the file on disk has the hash an index records for it: `checksum =
   * index.get(key)`; a missing or empty checksum is no match; otherwise the
   * disk file is read (which raises when it cannot be) and its hash compared.
   */
  function IndexedMatch(env: Environment, index: map<string, string>, key: string, diskPath: string,
                        result: ProvenanceResult): (r: Lookup)
    ensures r == Ok(Some(result)) <==>
      && key in index && index[key] != ""
      && diskPath in env.fs && env.fs[diskPath].File?
      && env.md5(env.fs[diskPath].content) == index[key]
    ensures r.Err? <==> key in index && index[key] != "" && !(diskPath in env.fs && env.fs[diskPath].File?)
    ensures r.Ok? && r.value.Some? ==> r.value.value == result
  {
    var checksum := Get(index, key);
    if checksum.None? || checksum.value == "" then Ok(None)
    else match ReadFile(env.fs, diskPath)
      case Err(e) => Err(e)
      case Ok(content) => if env.md5(content) == checksum.value then Ok(Some(result)) else Ok(None)
  }
}
