/**
 * The Maven repository layout that the Forge, NeoForge and Fabric installer
 * URLs follow: an artifact version is a directory, and the file in it is named
 * after the artifact, the version and an optional classifier. The installer
 * URL builders are proved to produce exactly this layout.
 */
module Maven {

  /** `<repo><artifact>/<version>/<artifact>-<version><classifier>.jar` */
  function ArtifactUrl(repo: string, artifact: string, version: string, classifier: string): string
  {
    repo + artifact + "/" + version + "/" + artifact + "-" + version + classifier + ".jar"
  }

  /** Within one repository, artifact and classifier, the URL determines the
      version: two versions never share a download URL. */
  lemma ArtifactUrlInjective(repo: string, artifact: string, v1: string, v2: string, classifier: string)
    requires ArtifactUrl(repo, artifact, v1, classifier) == ArtifactUrl(repo, artifact, v2, classifier)
    ensures v1 == v2
  {
    var u1 := ArtifactUrl(repo, artifact, v1, classifier);
    var u2 := ArtifactUrl(repo, artifact, v2, classifier);
    var k := |repo| + |artifact| + 1;
    assert |u1| == 2 * |v1| + 2 * |artifact| + |repo| + |classifier| + 7;
    assert |v1| == |v2|;
    assert u1[k..k + |v1|] == v1;
    assert u2[k..k + |v2|] == v2;
  }
}
