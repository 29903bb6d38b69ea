/**
 * Paper and Folia resolution over the already-fetched project and build
 * listings: the latest-build scan with its `0` sentinel, the `build != 0`
 * gate and the per-project download URL.
 */
module Paper {
  import opened Common
  import Text

  datatype PaperProjectVersions = PaperProjectVersions(
    projectId: string,
    projectName: string,
    versions: seq<string>,
    builds: Option<seq<u32>>)

  datatype PaperProjectBuilds = PaperProjectBuilds(
    projectId: string,
    projectName: string,
    builds: Option<seq<u32>>)

  /** The latest build of `ver`: the last element of its build list when the
      version is listed and the list is present, `0` when the version is not
      listed or the list is absent; an empty list is indexed at -1 and panics. */
  function LatestBuild(versions: seq<string>, ver: string, builds: Option<seq<u32>>): Outcome<u32>
  {
    if ver !in versions then Completes(0)
    else match builds
      case None => Completes(0)
      case Some(bs) => if |bs| == 0 then Panics else Completes(bs[|bs| - 1])
  }

  /** `download_paper_fetch_latest_build` after the project listing is fetched.
      `response` is the build listing fetched for `ver`; it is fetched and
      inspected again for every listed copy of `ver`, always with the same answer. */
  method FetchLatestBuild(project: PaperProjectVersions, ver: string, response: PaperProjectBuilds) returns (r: Outcome<u32>)
    ensures r == LatestBuild(project.versions, ver, response.builds)
  {
    var versions := project.versions;
    var result: u32 := 0;
    for i := 0 to |versions|
      invariant ver in versions[..i] ==> response.builds != Some([])
      invariant result == if ver in versions[..i] then LatestBuild(versions, ver, response.builds).value else 0
    {
      assert versions[..i + 1] == versions[..i] + [versions[i]];
      if versions[i] == ver {
        match response.builds {
          case Some(builds) =>
            if |builds| == 0 {
              return Panics;
            }
            result := builds[|builds| - 1];
          case None =>
        }
      }
    }
    assert versions[..|versions|] == versions;
    r := Completes(result);
  }

  /** A nonzero latest build is the last entry of the listing of a listed version. */
  lemma NonzeroBuildIsListed(versions: seq<string>, ver: string, builds: Option<seq<u32>>, b: u32)
    requires LatestBuild(versions, ver, builds) == Completes(b) && b != 0
    ensures ver in versions && builds.Some? && |builds.value| > 0 && b == builds.value[|builds.value| - 1]
  {
  }

  function ProjectName(folia: bool): string
  {
    if folia then "folia" else "paper"
  }

  const ApiBase: string := "https://api.papermc.io/v2/projects/"

  /** The download URL `download_paper_server` formats for a build. */
  function BuildDownloadUrl(ver: string, build: u32, folia: bool): string
  {
    var p := ProjectName(folia);
    var b := Text.Decimal(build as nat);
    ApiBase + p + "/versions/" + ver + "/builds/" + b + "/downloads/" + p + "-" + ver + "-" + b + ".jar"
  }

  /** `download_paper_server` up to the download: the sentinel build `0` is
      `Ver(ver)`, any other build is downloaded from its URL, whose build
      segment is therefore never "0". */
  function ServerDownloadUrl(ver: string, build: u32, folia: bool): (r: Result<string>)
    ensures r.Err? <==> build == 0
    ensures r.Err? ==> r.error == Ver(ver)
    ensures r.Ok? ==> r.value == BuildDownloadUrl(ver, build, folia) && Text.Decimal(build as nat) != "0"
  {
    if build != 0 then Ok(BuildDownloadUrl(ver, build, folia)) else Err(Ver(ver))
  }

  /** For a fixed project and version, distinct builds get distinct URLs. */
  lemma BuildDownloadUrlInjective(ver: string, b1: u32, b2: u32, folia: bool)
    requires BuildDownloadUrl(ver, b1, folia) == BuildDownloadUrl(ver, b2, folia)
    ensures b1 == b2
  {
    var p := ProjectName(folia);
    var d1, d2 := Text.Decimal(b1 as nat), Text.Decimal(b2 as nat);
    var u1, u2 := BuildDownloadUrl(ver, b1, folia), BuildDownloadUrl(ver, b2, folia);
    assert |u1| == |ApiBase| + 2 * |p| + 2 * |ver| + 2 * |d1| + 35;
    assert |u2| == |ApiBase| + 2 * |p| + 2 * |ver| + 2 * |d2| + 35;
    var k := |ApiBase| + |p| + 10 + |ver| + 8;
    assert u1[k..k + |d1|] == d1;
    assert u2[k..k + |d2|] == d2;
    Text.DecimalInjective(b1 as nat, b2 as nat);
  }

  /** The flag alone decides the project: a Folia URL is never a Paper URL. */
  lemma ProjectsNeverShareUrl(v1: string, b1: u32, v2: string, b2: u32)
    ensures BuildDownloadUrl(v1, b1, true) != BuildDownloadUrl(v2, b2, false)
  {
    var k := |ApiBase|;
    assert BuildDownloadUrl(v1, b1, true)[k] == 'f';
    assert BuildDownloadUrl(v2, b2, false)[k] == 'p';
  }
}
