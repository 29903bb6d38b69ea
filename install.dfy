/**
 * The per-provider server pipelines of the library (`download_*_server`),
 * reduced to what they decide: which artifact is fetched from where into
 * which file, and which installer command, if any, is run afterwards. The
 * metadata each one fetches is supplied already parsed.
 */
module Install {
  import opened Common
  import V = Vanilla
  import F = Forge
  import P = Paper
  import Maven

  /** The library's `Modloaders`. */
  datatype Modloader = Vanilla | Forge | NeoForge | Fabric | Paper | Folia

  /** A download: the URL and the file it is written to (`<dir>/<fileName>`). */
  datatype Fetch = Fetch(url: string, dir: string, fileName: string)

  /** A child process: program, arguments and working directory. */
  datatype InstallJob = InstallJob(program: string, args: seq<string>, workingDir: string)

  /** What one pipeline does: one download, then possibly one installer run. */
  datatype Plan = Plan(fetch: Fetch, install: Option<InstallJob>)

  const ServerJar: string := "server.jar"
  const InstallerJar: string := "installer.jar"

  /** The arguments Forge and NeoForge installers are run with. */
  function InstallServerArgs(): seq<string>
  {
    ["-jar", "installer.jar", "--installServer"]
  }

  /** The arguments the Fabric installer is run with. */
  function FabricArgs(mcVersion: string, path: string): seq<string>
  {
    ["-jar", "installer.jar", "server", "-mcversion", mcVersion, "-dir", path]
  }

  const NeoForgeRepo: string := "https://maven.neoforged.net/releases/net/neoforged/"
  const FabricRepo: string := "https://maven.fabricmc.net/net/fabricmc/"

  /** The URL `download_neoforge_installer` formats; the loader version is used verbatim. */
  function NeoForgeInstallerUrl(neoforgeVersion: string): (url: string)
    ensures url == Maven.ArtifactUrl(NeoForgeRepo, "neoforge", neoforgeVersion, "-installer")
  {
    assert "https://maven.neoforged.net/releases/net/neoforged/neoforge/" == NeoForgeRepo + "neoforge" + "/";
    assert "/neoforge-" == "/" + "neoforge" + "-";
    assert "-installer.jar" == "-installer" + ".jar";
    "https://maven.neoforged.net/releases/net/neoforged/neoforge/" + neoforgeVersion + "/neoforge-" + neoforgeVersion + "-installer.jar"
  }

  /** The fixed URL `download_fabric_installer` uses: installer version 1.0.0. */
  function FabricInstallerUrl(): (url: string)
    ensures url == Maven.ArtifactUrl(FabricRepo, "fabric-installer", "1.0.0", "")
  {
    var repo := "https://maven.fabricmc.net/net/fabricmc/";
    var dir := "fabric-installer/1.0.0/";
    var file := "fabric-installer-1.0.0.jar";
    assert repo == FabricRepo;
    assert dir == "fabric-installer" + "/" + "1.0.0" + "/";
    assert file == "fabric-installer" + "-" + "1.0.0" + "" + ".jar";
    repo + dir + file
  }

  /** The metadata the pipelines fetch, already parsed. `versionData` maps a
      per-release document URL to the server URL it names; the Paper and
      Folia build listings are the ones fetched for the requested version. */
  datatype Upstream = Upstream(
    manifest: V.MojangVersionManifest,
    versionData: map<string, string>,
    forge: F.ForgeMetadata,
    paper: P.PaperProjectVersions,
    paperBuilds: P.PaperProjectBuilds,
    folia: P.PaperProjectVersions,
    foliaBuilds: P.PaperProjectBuilds)

  /** `download_vanilla_server`: fetch `server.jar`; no installer. */
  function VanillaServer(up: Upstream, ver: string, path: string): (r: Result<Plan>)
    ensures r == Err(Ver(ver)) <==> forall i :: 0 <= i < |up.manifest.versions| ==> up.manifest.versions[i].id != ver
    ensures r.Ok? ==> RunsWhatItFetches(Vanilla, path, r.value)
    ensures r.Ok? ==> V.ServedBy(up.manifest.versions, up.versionData, ver, r.value.fetch.url)
  {
    match V.ServerUrl(up.manifest, up.versionData, ver)
    case Err(e) => Err(e)
    case Ok(url) => Ok(Plan(Fetch(url, path, ServerJar), None))
  }

  /** `download_forge_server`: select the loader version, fetch `installer.jar`
      from the matching template, run it with `--installServer`. */
  function ForgeServer(up: Upstream, ver: string, path: string): (r: Outcome<Plan>)
    ensures r.Panics? <==> ver !in up.forge.minecraftVersions || |up.forge.minecraftVersions[ver].builds| == 0
    ensures r.Completes? ==> RunsWhatItFetches(Forge, path, r.value)
    ensures r.Completes? ==> r.value.fetch.url == F.InstallerUrl(ver, F.SelectedVersion(up.forge, ver).value)
    ensures r.Completes? ==> r.value.install == Some(InstallJob("java", InstallServerArgs(), path))
  {
    match F.SelectedVersion(up.forge, ver)
    case Panics => Panics
    case Completes(forgeVersion) =>
      Completes(Plan(Fetch(F.InstallerUrl(ver, forgeVersion), path, InstallerJar),
                     Some(InstallJob("java", InstallServerArgs(), path))))
  }

  /** `download_neoforge_server`: no discovery; the game version is unused. */
  function NeoForgeServer(path: string, ver: string, neoforgeVersion: string): (p: Plan)
    ensures RunsWhatItFetches(NeoForge, path, p)
    ensures p.fetch.url == Maven.ArtifactUrl(NeoForgeRepo, "neoforge", neoforgeVersion, "-installer")
    ensures p.install.value.args == InstallServerArgs()
  {
    Plan(Fetch(NeoForgeInstallerUrl(neoforgeVersion), path, InstallerJar),
         Some(InstallJob("java", InstallServerArgs(), path)))
  }

  /** `download_fabric_server`: the fixed installer, told the game version and directory. */
  function FabricServer(mcVersion: string, path: string): (p: Plan)
    ensures RunsWhatItFetches(Fabric, path, p)
    ensures p.fetch.url == Maven.ArtifactUrl(FabricRepo, "fabric-installer", "1.0.0", "")
    ensures p.install.value.args[2..] == ["server", "-mcversion", mcVersion, "-dir", p.install.value.workingDir]
  {
    Plan(Fetch(FabricInstallerUrl(), path, InstallerJar),
         Some(InstallJob("java", FabricArgs(mcVersion, path), path)))
  }

  /** `download_paper_server`: latest build, the `0` gate, then `server.jar`. */
  function PaperServer(up: Upstream, ver: string, path: string, folia: bool): (r: Outcome<Result<Plan>>)
    ensures var project := if folia then up.folia else up.paper;
            var listing := if folia then up.foliaBuilds else up.paperBuilds;
            && (r.Panics? <==> ver in project.versions && listing.builds == Some([]))
            && (r.Completes? ==> (r.value == Err(Ver(ver)) <==> P.LatestBuild(project.versions, ver, listing.builds) == Completes(0)))
            && (r.Completes? && r.value.Ok? ==>
                  && RunsWhatItFetches(if folia then Folia else Paper, path, r.value.value)
                  && r.value.value.fetch.url == P.BuildDownloadUrl(ver, P.LatestBuild(project.versions, ver, listing.builds).value, folia))
  {
    var project := if folia then up.folia else up.paper;
    var listing := if folia then up.foliaBuilds else up.paperBuilds;
    match P.LatestBuild(project.versions, ver, listing.builds)
    case Panics => Panics
    case Completes(build) =>
      match P.ServerDownloadUrl(ver, build, folia)
      case Err(e) => Completes(Err(e))
      case Ok(url) => Completes(Ok(Plan(Fetch(url, path, ServerJar), None)))
  }

  /** One server request as the entry points receive it. */
  datatype ServerRequest = ServerRequest(loader: Modloader, ver: string, path: string, loaderVersion: string)

  predicate IsModLoader(loader: Modloader)
  {
    loader == Forge || loader == NeoForge || loader == Fabric
  }

  /** Every plan writes into the requested directory; exactly the mod loaders
      run an installer, and that installer is the `installer.jar` the plan
      just fetched, run by `java` in the same directory; the others fetch
      `server.jar`. */
  predicate RunsWhatItFetches(loader: Modloader, path: string, p: Plan)
  {
    && p.fetch.dir == path
    && (p.install.Some? <==> IsModLoader(loader))
    && p.fetch.fileName == (if IsModLoader(loader) then InstallerJar else ServerJar)
    && (p.install.Some? ==>
          && p.install.value.program == "java"
          && p.install.value.workingDir == p.fetch.dir
          && |p.install.value.args| >= 2
          && p.install.value.args[0] == "-jar"
          && p.install.value.args[1] == p.fetch.fileName)
  }

  /** The provider dispatch: each request goes to its provider's pipeline. */
  function ServerPlan(up: Upstream, req: ServerRequest): (r: Outcome<Result<Plan>>)
    ensures r.Completes? && r.value.Ok? ==> RunsWhatItFetches(req.loader, req.path, r.value.value)
    ensures r.Completes? && r.value.Err? ==>
      r.value.error == Ver(req.ver) || (req.loader == Vanilla && r.value.error == Net)
    ensures req.loader == Vanilla ==>
              && r.Completes?
              && (r.value == Err(Ver(req.ver)) <==>
                    forall i :: 0 <= i < |up.manifest.versions| ==> up.manifest.versions[i].id != req.ver)
    ensures (req.loader == Paper || req.loader == Folia) && r.Completes? ==>
      var project := if req.loader == Folia then up.folia else up.paper;
      var listing := if req.loader == Folia then up.foliaBuilds else up.paperBuilds;
      (r.value == Err(Ver(req.ver)) <==> P.LatestBuild(project.versions, req.ver, listing.builds) == Completes(0))
  {
    match req.loader
    case Vanilla => Completes(VanillaServer(up, req.ver, req.path))
    case Forge =>
      (match ForgeServer(up, req.ver, req.path)
       case Panics => Panics
       case Completes(p) => Completes(Ok(p)))
    case NeoForge => Completes(Ok(NeoForgeServer(req.path, req.ver, req.loaderVersion)))
    case Fabric => Completes(Ok(FabricServer(req.ver, req.path)))
    case Paper => PaperServer(up, req.ver, req.path, false)
    case Folia => PaperServer(up, req.ver, req.path, true)
  }
}
