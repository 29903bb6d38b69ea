/**
 * Forge resolution over the already-fetched maven metadata document: the
 * reshaping of its `version -> [ids]` map into records, the selection of the
 * loader version for a game version, and the installer URL with its legacy
 * and modern templates.
 */
module Forge {
  import opened Common
  import Text
  import Maven

  datatype ForgeBuild = ForgeBuild(id: string)

  datatype ForgeMinecraftVersion = ForgeMinecraftVersion(version: string, builds: seq<ForgeBuild>)

  datatype ForgeMetadata = ForgeMetadata(minecraftVersions: map<string, ForgeMinecraftVersion>)

  /** The ids of a build list, in order. */
  function BuildIds(builds: seq<ForgeBuild>): (ids: seq<string>)
    ensures |ids| == |builds| && forall i :: 0 <= i < |builds| ==> ids[i] == builds[i].id
  {
    seq(|builds|, i requires 0 <= i < |builds| => builds[i].id)
  }

  /** `meta_forge_minecraft_versions_from_map`: each key becomes a record that
      repeats the key as its `version` and wraps each id, in order, as a build. */
  function VersionsFromMap(raw: map<string, seq<string>>): (m: map<string, ForgeMinecraftVersion>)
    ensures m.Keys == raw.Keys
    ensures forall k :: k in m ==> m[k].version == k && BuildIds(m[k].builds) == raw[k]
  {
    map k | k in raw :: ForgeMinecraftVersion(k, seq(|raw[k]|, i requires 0 <= i < |raw[k]| => ForgeBuild(raw[k][i])))
  }

  /** The raw map a reshaped map came from. */
  function ToRawMap(m: map<string, ForgeMinecraftVersion>): map<string, seq<string>>
  {
    map k | k in m :: BuildIds(m[k].builds)
  }

  /** Reshaping loses nothing: the raw map can be read back. */
  lemma RawMapRoundTrip(raw: map<string, seq<string>>)
    ensures ToRawMap(VersionsFromMap(raw)) == raw
  {
    var back := ToRawMap(VersionsFromMap(raw));
    assert back.Keys == raw.Keys;
    forall k | k in raw ensures back[k] == raw[k] {
    }
  }

  /** The loader version carried by a build id: every occurrence of the game
      version is deleted, then every hyphen, so no hyphen is left. */
  function Flatten(mcVersion: string, id: string): (r: string)
    ensures '-' !in r
    ensures |r| <= |id|
  {
    var withoutMc := Text.RemoveAll(id, mcVersion);
    Text.RemoveCharRemovesAll(withoutMc, '-');
    Text.RemoveAll(withoutMc, "-")
  }

  /** For the usual id shape `<mc>-<loader>` the loader version comes back
      unchanged, provided the loader version has no hyphen and does not contain
      the game version. */
  lemma FlattenRecoversLoader(mcVersion: string, loader: string)
    requires |mcVersion| > 0 && '-' !in mcVersion
    requires '-' !in loader && Text.Absent(loader, mcVersion)
    ensures Flatten(mcVersion, mcVersion + "-" + loader) == loader
  {
    var tail := "-" + loader;
    assert mcVersion + "-" + loader == mcVersion + tail;
    Text.RemoveLeading(mcVersion, tail);
    forall i: nat | i <= |tail| ensures !Text.OccursAt(tail, mcVersion, i) {
      if i == 0 && |mcVersion| <= |tail| {
        assert tail[0..|mcVersion|][0] == '-';
        assert mcVersion[0] in mcVersion;
      } else if i > 0 && i + |mcVersion| <= |tail| {
        assert tail[i..i + |mcVersion|] == loader[i - 1..i - 1 + |mcVersion|];
        assert !Text.OccursAt(loader, mcVersion, i - 1);
      }
    }
    Text.RemoveAbsent(tail, mcVersion);
    Text.RemoveLeading("-", loader);
    assert Text.Absent(loader, "-");
    Text.RemoveAbsent(loader, "-");
  }

  /** The flattened ids of one game version's builds, in list order. */
  function FlattenAll(mcVersion: string, builds: seq<ForgeBuild>): (r: seq<string>)
    ensures |r| == |builds| && forall i :: 0 <= i < |builds| ==> r[i] == Flatten(mcVersion, builds[i].id)
  {
    seq(|builds|, i requires 0 <= i < |builds| => Flatten(mcVersion, builds[i].id))
  }

  /** What the build selection amounts to: the flattened last build listed
      under the requested game version; with no such build the final index
      is out of range and the call panics. */
  function SelectedVersion(meta: ForgeMetadata, ver: string): Outcome<string>
  {
    if ver in meta.minecraftVersions && |meta.minecraftVersions[ver].builds| > 0 then
      var builds := meta.minecraftVersions[ver].builds;
      Completes(Flatten(ver, builds[|builds| - 1].id))
    else
      Panics
  }

  /** `meta_get_forge_version_for_corresponding_mc_version` after the document
      is fetched and parsed. The map is walked in an unspecified order (a
      `HashMap`); every build is visited, but only those under the key equal to
      `ver` are flattened and collected, and the last collected one is returned. */
  method ForgeVersionFor(meta: ForgeMetadata, ver: string) returns (r: Outcome<string>)
    ensures r == SelectedVersion(meta, ver)
  {
    var versions := meta.minecraftVersions;
    var builds: seq<string> := [];
    var remaining := versions.Keys;
    while remaining != {}
      invariant remaining <= versions.Keys
      invariant builds == if ver in versions && ver !in remaining then FlattenAll(ver, versions[ver].builds) else []
      decreases remaining
    {
      var mcVersion :| mcVersion in remaining;
      var forgeVersion := versions[mcVersion];
      ghost var before := builds;
      for j := 0 to |forgeVersion.builds|
        invariant builds == before + if ver == mcVersion then FlattenAll(mcVersion, forgeVersion.builds[..j]) else []
      {
        if ver == mcVersion {
          var buildFlat := Flatten(mcVersion, forgeVersion.builds[j].id);
          builds := builds + [buildFlat];
        }
      }
      assert forgeVersion.builds[..|forgeVersion.builds|] == forgeVersion.builds;
      remaining := remaining - {mcVersion};
    }
    if |builds| == 0 {
      r := Panics;
    } else {
      r := Completes(builds[|builds| - 1]);
    }
  }

  /** Selection over a parsed document, stated on the raw map: the flattened
      last id listed for `ver`, or a panic when `ver` is missing or lists nothing. */
  lemma SelectFromRawMap(raw: map<string, seq<string>>, ver: string)
    ensures SelectedVersion(ForgeMetadata(VersionsFromMap(raw)), ver) ==
      if ver in raw && |raw[ver]| > 0 then Completes(Flatten(ver, raw[ver][|raw[ver]| - 1])) else Panics
  {
    var m := VersionsFromMap(raw);
    if ver in raw {
      assert |BuildIds(m[ver].builds)| == |raw[ver]|;
    }
  }

  /** The last listed build wins whatever its shape, and its hyphens go:
      the list `["1", "2", "3-beta"]` yields `"3beta"`. */
  lemma LastBuildWinsFlattened()
    ensures SelectedVersion(ForgeMetadata(VersionsFromMap(map["1.21.11" := ["1", "2", "3-beta"]])), "1.21.11")
            == Completes("3beta")
  {
    SelectFromRawMap(map["1.21.11" := ["1", "2", "3-beta"]], "1.21.11");
    assert Text.RemoveAll("3-beta", "1.21.11") == "3-beta";
    assert Text.RemoveAll("-beta", "-") == "beta";
    assert Text.RemoveAll("3-beta", "-") == "3beta";
  }

  /** The three releases whose installers use the legacy template; matched
      by exact string equality, not by version order. */
  predicate IsLegacy(mcVersion: string)
  {
    mcVersion == "1.9.4" || mcVersion == "1.8.9" || mcVersion == "1.7.10"
  }

  const ForgeRepo: string := "https://maven.minecraftforge.net/net/minecraftforge/"

  /** The maven version directory for a game and loader version. */
  function MavenVersion(mcVersion: string, forgeVersion: string): (v: string)
    ensures IsLegacy(mcVersion) <==> v == mcVersion + "-" + forgeVersion + "-" + mcVersion
    ensures !IsLegacy(mcVersion) <==> v == mcVersion + "-" + forgeVersion
  {
    if IsLegacy(mcVersion) then mcVersion + "-" + forgeVersion + "-" + mcVersion
    else mcVersion + "-" + forgeVersion
  }

  /** The URL chosen by `download_forge_installer`: both templates are the
      maven layout, with the legacy one repeating the game version after the
      loader version. */
  function InstallerUrl(mcVersion: string, forgeVersion: string): (url: string)
    ensures url == Maven.ArtifactUrl(ForgeRepo, "forge", MavenVersion(mcVersion, forgeVersion), "-installer")
  {
    var v := MavenVersion(mcVersion, forgeVersion);
    assert "https://maven.minecraftforge.net/net/minecraftforge/forge/" == ForgeRepo + "forge" + "/";
    assert "/forge-" == "/" + "forge" + "-";
    assert "-installer.jar" == "-installer" + ".jar";
    "https://maven.minecraftforge.net/net/minecraftforge/forge/" + v + "/forge-" + v + "-installer.jar"
  }

  /** For a fixed game version, distinct loader versions get distinct installer URLs. */
  lemma InstallerUrlInjective(mcVersion: string, f1: string, f2: string)
    requires InstallerUrl(mcVersion, f1) == InstallerUrl(mcVersion, f2)
    ensures f1 == f2
  {
    var v1, v2 := MavenVersion(mcVersion, f1), MavenVersion(mcVersion, f2);
    Maven.ArtifactUrlInjective(ForgeRepo, "forge", v1, v2, "-installer");
    var p := mcVersion + "-";
    if IsLegacy(mcVersion) {
      var t := "-" + mcVersion;
      assert v1 == p + (f1 + t);
      assert v2 == p + (f2 + t);
      PrefixCancel(p, f1 + t, f2 + t);
      SuffixCancel(f1, f2, t);
    } else {
      assert v1 == p + f1;
      assert v2 == p + f2;
      PrefixCancel(p, f1, f2);
    }
  }

  lemma PrefixCancel(p: string, a: string, b: string)
    requires p + a == p + b
    ensures a == b
  {
    assert a == (p + a)[|p|..];
    assert b == (p + b)[|p|..];
  }

  lemma SuffixCancel(a: string, b: string, t: string)
    requires a + t == b + t
    ensures a == b
  {
    assert |a| == |b|;
    assert a == (a + t)[..|a|];
    assert b == (b + t)[..|b|];
  }
}
