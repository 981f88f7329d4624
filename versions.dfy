/** How spruce.py 1.1.0 relates to Spruce.py 0.1.0 on the parts both have. */
module Versions {
  import opened Builtins
  import opened Jss
  import SpruceV0
  import SpruceV1

  /** Both versions read a removal file the same way. */
  lemma {:induction false} LoadersAgree(lines: seq<string>)
    ensures SpruceV0.LoadFile(lines) == SpruceV1.LoadRemovalFile(lines)
  {
    if lines != [] {
      assert SpruceV0.SkippedStarts == SpruceV1.SkippedStarts;
      LoadersAgree(lines[1..]);
    }
  }

  /** With no computer configurations, the unused packages and scripts of
      version 1.1.0 are those of version 0.1.0; configurations can only
      take names out of the unused sets. */
  lemma UnusedSetsAcrossVersions(
    packages: seq<string>, scripts: seq<string>, policies: seq<Policy>, configs: seq<ComputerConfiguration>)
    ensures SpruceV1.BuildPackagesReport(packages, policies, []).unused ==
              SpruceV0.PackageUsage(packages, policies).unused
    ensures SpruceV1.BuildScriptsReport(scripts, policies, []).unused ==
              SpruceV0.ScriptUsage(scripts, policies).unused
    ensures SpruceV1.BuildPackagesReport(packages, policies, configs).unused <=
              SpruceV0.PackageUsage(packages, policies).unused
    ensures SpruceV1.BuildScriptsReport(scripts, policies, configs).unused <=
              SpruceV0.ScriptUsage(scripts, policies).unused
  {
    assert forall n :: !InConfigurationPackages(n, []);
    assert forall n :: !InConfigurationScripts(n, []);
  }

  /** From the same AutoPkg preferences, the connection of version 1.1.0
      (map_jssimporter_prefs) and the intended connection of version 0.1.0
      (configure_jss) agree on url, credentials, certificate checking and
      repositories, but not on the default for suppressing warnings: True
      in 1.1.0, False in 0.1.0. */
  lemma ConnectionsAcrossVersions(prefs: map<string, Value>)
    ensures SpruceV1.JssImporterConnection(prefs).Ok? <==> SpruceV0.IntendedConfigureJss(prefs).Ok?
    ensures SpruceV1.JssImporterConnection(prefs).Ok? ==>
              var c1, c0 := SpruceV1.JssImporterConnection(prefs).value, SpruceV0.IntendedConfigureJss(prefs).value;
              && c1["url"] == c0.url && c1["user"] == c0.user && c1["password"] == c0.password
              && c1["ssl_verify"] == c0.sslVerify && c1["repo_prefs"] == c0.repoPrefs
              && ("JSS_SUPPRESS_WARNINGS" in prefs ==> c1["suppress_warnings"] == c0.suppressWarnings)
              && ("JSS_SUPPRESS_WARNINGS" !in prefs ==>
                    c1["suppress_warnings"] == Bool(true) && c0.suppressWarnings == Bool(false))
  {
  }
}
