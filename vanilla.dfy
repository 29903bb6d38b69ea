/**
 * Vanilla server resolution over an already-fetched release manifest:
 * the exact-id scan with its "none" sentinel, the step from the sentinel to
 * `LibError::Ver`, and the release filter behind the game-version list.
 */
module Vanilla {
  import opened Common

  datatype Latest = Latest(release: string, snapshot: string)

  /** One entry of the release manifest; `kind` is the JSON field `type`. */
  datatype MojangVersionEntry = MojangVersionEntry(
    id: string,
    kind: string,
    url: string,
    time: string,
    releaseTime: string,
    sha1: string,
    complianceLevel: int)

  datatype MojangVersionManifest = MojangVersionManifest(latest: Latest, versions: seq<MojangVersionEntry>)

  /** What the scan returns when no entry matches. */
  const NoneSentinel: string := "none"

  /** The metadata URL of the last entry whose id is exactly `version`. */
  function LastMatch(versions: seq<MojangVersionEntry>, version: string): (r: Option<string>)
    ensures r.None? <==> forall i :: 0 <= i < |versions| ==> versions[i].id != version
    ensures r.Some? ==>
      exists i :: 0 <= i < |versions| && versions[i].id == version && versions[i].url == r.value
        && forall j :: i < j < |versions| ==> versions[j].id != version
    decreases |versions|
  {
    if versions == [] then None
    else
      var last := versions[|versions| - 1];
      if last.id == version then Some(last.url) else LastMatch(versions[..|versions| - 1], version)
  }

  /** The scan's answer as a plain string, with the sentinel standing for "not found". */
  function DataUrl(versions: seq<MojangVersionEntry>, version: string): string
  {
    match LastMatch(versions, version)
    case Some(u) => u
    case None => NoneSentinel
  }

  /** `download_vanilla_get_version_data_url` after the manifest is fetched:
      every entry is visited and a match overwrites the answer, so the last
      match wins and "none" remains when nothing matches. */
  method VersionDataUrl(manifest: MojangVersionManifest, version: string) returns (returnData: string)
    ensures returnData == DataUrl(manifest.versions, version)
  {
    var versions := manifest.versions;
    returnData := NoneSentinel;
    for i := 0 to |versions|
      invariant returnData == DataUrl(versions[..i], version)
    {
      assert versions[..i + 1][..i] == versions[..i];
      if versions[i].id == version {
        returnData := versions[i].url;
      }
    }
    assert versions[..|versions|] == versions;
  }

  /** Some entry with id `version` has a metadata document naming `server` as the server binary. */
  ghost predicate ServedBy(versions: seq<MojangVersionEntry>, versionData: map<string, string>, version: string, server: string)
  {
    exists i :: 0 <= i < |versions| && versions[i].id == version
                && versions[i].url in versionData && versionData[versions[i].url] == server
  }

  /** `download_vanilla_server` up to the server URL, as written: the sentinel
      check turns "none" into `Ver(version)`, otherwise the per-release document
      (`versionData`, keyed by its URL; an unknown URL is a failed fetch) names
      the server binary. */
  function ServerUrlAsWritten(manifest: MojangVersionManifest, versionData: map<string, string>, version: string): (r: Result<string>)
    ensures r == Err(Ver(version)) <==> DataUrl(manifest.versions, version) == NoneSentinel
    ensures (forall i :: 0 <= i < |manifest.versions| ==> manifest.versions[i].id != version) ==> r == Err(Ver(version))
    ensures r.Ok? ==> ServedBy(manifest.versions, versionData, version, r.value)
  {
    var intermediate := DataUrl(manifest.versions, version);
    if intermediate != NoneSentinel then
      if intermediate in versionData then Ok(versionData[intermediate]) else Err(Net)
    else
      Err(Ver(version))
  }

  /** The same step with absence kept out of band: `Ver(version)` exactly when
      no entry carries the requested id. */
  function ServerUrl(manifest: MojangVersionManifest, versionData: map<string, string>, version: string): (r: Result<string>)
    ensures r == Err(Ver(version)) <==> forall i :: 0 <= i < |manifest.versions| ==> manifest.versions[i].id != version
    ensures r.Ok? ==> ServedBy(manifest.versions, versionData, version, r.value)
  {
    match LastMatch(manifest.versions, version)
    case None => Err(Ver(version))
    case Some(u) => if u in versionData then Ok(versionData[u]) else Err(Net)
  }

  /** The two agree except when the matching entry's URL is itself the literal "none". */
  lemma ServerUrlAgreesOffSentinel(manifest: MojangVersionManifest, versionData: map<string, string>, version: string)
    ensures ServerUrlAsWritten(manifest, versionData, version) != ServerUrl(manifest, versionData, version)
      <==> LastMatch(manifest.versions, version) == Some(NoneSentinel)
  {
  }

  /** A manifest whose matching entry has the URL "none" is reported as
      `Ver`, although the version is listed. */
  lemma SentinelCollision()
    ensures var m := MojangVersionManifest(Latest("1.21.11", "1.21.11"),
                       [MojangVersionEntry("1.21.11", "release", "none", "", "", "", 0)]);
            var data := map["none" := "https://example.invalid/server.jar"];
            && ServerUrlAsWritten(m, data, "1.21.11") == Err(Ver("1.21.11"))
            && ServerUrl(m, data, "1.21.11") == Ok("https://example.invalid/server.jar")
  {
  }

  /** The ids of the `"release"` entries, in manifest order. */
  function ReleaseIds(versions: seq<MojangVersionEntry>): (r: seq<string>)
    ensures |r| <= |versions|
    ensures forall x :: x in r <==> exists i :: 0 <= i < |versions| && versions[i].kind == "release" && versions[i].id == x
    decreases |versions|
  {
    if versions == [] then []
    else
      var last := versions[|versions| - 1];
      ReleaseIds(versions[..|versions| - 1]) + (if last.kind == "release" then [last.id] else [])
  }

  /** `meta_fetch_game_versions` after the manifest is fetched: push the id of
      every release entry. */
  method FetchGameVersions(manifest: MojangVersionManifest) returns (result: seq<string>)
    ensures result == ReleaseIds(manifest.versions)
  {
    var versions := manifest.versions;
    result := [];
    for i := 0 to |versions|
      invariant result == ReleaseIds(versions[..i])
    {
      assert versions[..i + 1][..i] == versions[..i];
      if versions[i].kind == "release" {
        result := result + [versions[i].id];
      }
    }
    assert versions[..|versions|] == versions;
  }

  /** Filtering keeps manifest order: the releases of a concatenation are the
      releases of the first part followed by those of the second. */
  lemma {:induction false} ReleaseIdsAppend(a: seq<MojangVersionEntry>, b: seq<MojangVersionEntry>)
    ensures ReleaseIds(a + b) == ReleaseIds(a) + ReleaseIds(b)
    decreases |b|
  {
    if b != [] {
      var b' := b[..|b| - 1];
      assert (a + b)[..|a + b| - 1] == a + b';
      ReleaseIdsAppend(a, b');
    } else {
      assert a + b == a;
    }
  }

  /** Every listed release resolves past the version check. */
  lemma ReleasesResolve(manifest: MojangVersionManifest, versionData: map<string, string>, id: string)
    requires id in ReleaseIds(manifest.versions)
    ensures ServerUrl(manifest, versionData, id) != Err(Ver(id))
  {
  }
}
