/** spruce.py, version 1.1.0: usage reports for packages and scripts over
    policies and computer imaging configurations, the removal-file reader,
    and the conversion of AutoPkg/JSSImporter preferences into the keyword
    arguments of a python-jss connection. */
module SpruceV1 {
  import opened Wrappers
  import opened Builtins
  import opened Jss

  // ---------------------------------------------------------------------
  // map_jssimporter_prefs

  /** The seven keys of the connection dictionary. */
  const ConnectionKeys: set<string> :=
    {"url", "user", "password", "ssl_verify", "suppress_warnings", "jss_migrated", "repo_prefs"}

  /** The connection dictionary built from the AutoPkg preferences `prefs`,
      or the KeyError of the first required preference that is missing. */
  function JssImporterConnection(prefs: map<string, Value>): (r: Result<map<string, Value>, KeyError>)
    ensures r.Ok? <==> "JSS_URL" in prefs && "API_USERNAME" in prefs && "API_PASSWORD" in prefs
    ensures "JSS_URL" !in prefs ==> r == Err(KeyError("JSS_URL"))
    ensures "JSS_URL" in prefs && "API_USERNAME" !in prefs ==> r == Err(KeyError("API_USERNAME"))
    ensures "JSS_URL" in prefs && "API_USERNAME" in prefs && "API_PASSWORD" !in prefs ==>
              r == Err(KeyError("API_PASSWORD"))
    ensures r.Ok? ==> r.value.Keys == ConnectionKeys
    ensures r.Ok? ==>
              && r.value["url"] == prefs["JSS_URL"]
              && r.value["user"] == prefs["API_USERNAME"]
              && r.value["password"] == prefs["API_PASSWORD"]
    ensures r.Ok? ==>
              && r.value["ssl_verify"] == DictGet(prefs, "JSS_VERIFY_SSL", Bool(true))
              && r.value["suppress_warnings"] == DictGet(prefs, "JSS_SUPPRESS_WARNINGS", Bool(true))
              && r.value["jss_migrated"] == DictGet(prefs, "JSS_MIGRATED", Bool(true))
              && r.value["repo_prefs"] == DictGet(prefs, "JSS_REPOS", Null)
  {
    if "JSS_URL" !in prefs then Err(KeyError("JSS_URL"))
    else if "API_USERNAME" !in prefs then Err(KeyError("API_USERNAME"))
    else if "API_PASSWORD" !in prefs then Err(KeyError("API_PASSWORD"))
    else Ok(map[
      "url" := prefs["JSS_URL"],
      "user" := prefs["API_USERNAME"],
      "password" := prefs["API_PASSWORD"],
      "ssl_verify" := DictGet(prefs, "JSS_VERIFY_SSL", Bool(true)),
      "suppress_warnings" := DictGet(prefs, "JSS_SUPPRESS_WARNINGS", Bool(true)),
      "jss_migrated" := DictGet(prefs, "JSS_MIGRATED", Bool(true)),
      "repo_prefs" := DictGet(prefs, "JSS_REPOS", Null)])
  }

  /** map_jssimporter_prefs: fills a fresh dictionary one key at a time.
      `prefs` is a value here, so it is left as it was. */
  method MapJssImporterPrefs(prefs: map<string, Value>) returns (r: Result<map<string, Value>, KeyError>)
    ensures r == JssImporterConnection(prefs)
  {
    var connection: map<string, Value> := map[];
    if "JSS_URL" !in prefs { return Err(KeyError("JSS_URL")); }
    connection := connection["url" := prefs["JSS_URL"]];
    if "API_USERNAME" !in prefs { return Err(KeyError("API_USERNAME")); }
    connection := connection["user" := prefs["API_USERNAME"]];
    if "API_PASSWORD" !in prefs { return Err(KeyError("API_PASSWORD")); }
    connection := connection["password" := prefs["API_PASSWORD"]];
    connection := connection["ssl_verify" := DictGet(prefs, "JSS_VERIFY_SSL", Bool(true))];
    connection := connection["suppress_warnings" := DictGet(prefs, "JSS_SUPPRESS_WARNINGS", Bool(true))];
    connection := connection["jss_migrated" := DictGet(prefs, "JSS_MIGRATED", Bool(true))];
    connection := connection["repo_prefs" := DictGet(prefs, "JSS_REPOS", Null)];
    return Ok(connection);
  }

  /** Optional preferences left unset fall back to the documented defaults. */
  lemma ConnectionDefaults(prefs: map<string, Value>)
    requires "JSS_URL" in prefs && "API_USERNAME" in prefs && "API_PASSWORD" in prefs
    requires "JSS_VERIFY_SSL" !in prefs && "JSS_SUPPRESS_WARNINGS" !in prefs
    requires "JSS_MIGRATED" !in prefs && "JSS_REPOS" !in prefs
    ensures JssImporterConnection(prefs).Ok?
    ensures var c := JssImporterConnection(prefs).value;
            c["ssl_verify"] == Bool(true) && c["suppress_warnings"] == Bool(true)
            && c["jss_migrated"] == Bool(true) && c["repo_prefs"] == Null
  {
  }

  // ---------------------------------------------------------------------
  // remove

  /** remove is a stub in this version: whatever `items` holds, nothing is
      deleted from the server. */
  method Remove(j: Server, items: seq<string>)
    ensures j.deletions == old(j.deletions)
  {
  }

  // ---------------------------------------------------------------------
  // build_computer_scoped_report and the two reports built on it

  /** The four-key dictionary of a usage report: the catalog list as given,
      the names policies reference, the names configurations reference,
      and the catalog names neither references. */
  datatype ScopedReport = ScopedReport(
    all: seq<string>,
    policyUsed: set<string>,
    configUsed: set<string>,
    unused: set<string>)

  /** build_computer_scoped_report, with `policyFound[i]` (`configFound[i]`)
      the names `findall` yields on the i-th policy (configuration). */
  function BuildComputerScopedReport(
    jssObjects: seq<string>, policyFound: seq<seq<string>>, configFound: seq<seq<string>>): (r: ScopedReport)
    ensures r.all == jssObjects
    ensures forall n :: n in r.policyUsed <==> exists i :: 0 <= i < |policyFound| && n in policyFound[i]
    ensures forall n :: n in r.configUsed <==> exists i :: 0 <= i < |configFound| && n in configFound[i]
    ensures forall n :: n in r.unused <==> n in jssObjects && n !in r.policyUsed && n !in r.configUsed
  {
    var objsUsedInPolicies := Referenced(policyFound);
    var objsUsedInConfigs := Referenced(configFound);
    var used := objsUsedInPolicies + objsUsedInConfigs;
    ScopedReport(jssObjects, objsUsedInPolicies, objsUsedInConfigs, (set n | n in jssObjects) - used)
  }

  /** Every catalog name is either unused or referenced, never both; names
      referenced but absent from the catalog never appear as unused. */
  lemma {:induction false} ScopedReportPartitions(
    jssObjects: seq<string>, policyFound: seq<seq<string>>, configFound: seq<seq<string>>)
    ensures var r := BuildComputerScopedReport(jssObjects, policyFound, configFound);
            && r.unused !! (r.policyUsed + r.configUsed)
            && r.unused + ((r.policyUsed + r.configUsed) * set n | n in jssObjects) == set n | n in jssObjects
  {
  }

  /** A name only a computer configuration references still counts as used. */
  lemma ConfigurationOnlyReferenceIsUsed(
    jssObjects: seq<string>, policyFound: seq<seq<string>>, configFound: seq<seq<string>>, n: string, i: nat)
    requires i < |configFound| && n in configFound[i]
    requires forall k :: 0 <= k < |policyFound| ==> n !in policyFound[k]
    ensures var r := BuildComputerScopedReport(jssObjects, policyFound, configFound);
            n in r.configUsed && n !in r.policyUsed && n !in r.unused
  {
  }

  /** build_packages_report: package names from the catalog against the
      packages that policies and configurations list. */
  function BuildPackagesReport(
    packages: seq<string>, policies: seq<Policy>, configs: seq<ComputerConfiguration>): (r: ScopedReport)
    ensures r.all == packages
    ensures forall n :: n in r.policyUsed <==> InPolicyPackages(n, policies)
    ensures forall n :: n in r.configUsed <==> InConfigurationPackages(n, configs)
    ensures forall n :: n in r.unused <==>
              n in packages && !InPolicyPackages(n, policies) && !InConfigurationPackages(n, configs)
  {
    ReferencedPolicyPackages(policies);
    ReferencedConfigurationPackages(configs);
    BuildComputerScopedReport(packages, PolicyPackages(policies), ConfigurationPackages(configs))
  }

  /** build_scripts_report: script names from the catalog against the
      scripts that policies and configurations list. */
  function BuildScriptsReport(
    scripts: seq<string>, policies: seq<Policy>, configs: seq<ComputerConfiguration>): (r: ScopedReport)
    ensures r.all == scripts
    ensures forall n :: n in r.policyUsed <==> InPolicyScripts(n, policies)
    ensures forall n :: n in r.configUsed <==> InConfigurationScripts(n, configs)
    ensures forall n :: n in r.unused <==>
              n in scripts && !InPolicyScripts(n, policies) && !InConfigurationScripts(n, configs)
  {
    ReferencedPolicyScripts(policies);
    ReferencedConfigurationScripts(configs);
    BuildComputerScopedReport(scripts, PolicyScripts(policies), ConfigurationScripts(configs))
  }

  /** What a policy or configuration lists as scripts never changes the
      package report, and what it lists as packages never changes the
      script report. */
  lemma ReportsAreIndependent(
    names: seq<string>, policies: seq<Policy>, configs: seq<ComputerConfiguration>,
    policies': seq<Policy>, configs': seq<ComputerConfiguration>)
    requires |policies'| == |policies| && |configs'| == |configs|
    ensures (forall i :: 0 <= i < |policies| ==> policies'[i].packages == policies[i].packages)
            && (forall i :: 0 <= i < |configs| ==> configs'[i].packages == configs[i].packages)
            ==> BuildPackagesReport(names, policies', configs') == BuildPackagesReport(names, policies, configs)
    ensures (forall i :: 0 <= i < |policies| ==> policies'[i].scripts == policies[i].scripts)
            && (forall i :: 0 <= i < |configs| ==> configs'[i].scripts == configs[i].scripts)
            ==> BuildScriptsReport(names, policies', configs') == BuildScriptsReport(names, policies, configs)
  {
    if (forall i :: 0 <= i < |policies| ==> policies'[i].packages == policies[i].packages)
       && (forall i :: 0 <= i < |configs| ==> configs'[i].packages == configs[i].packages)
    {
      assert PolicyPackages(policies') == PolicyPackages(policies);
      assert ConfigurationPackages(configs') == ConfigurationPackages(configs);
    }
    if (forall i :: 0 <= i < |policies| ==> policies'[i].scripts == policies[i].scripts)
       && (forall i :: 0 <= i < |configs| ==> configs'[i].scripts == configs[i].scripts)
    {
      assert PolicyScripts(policies') == PolicyScripts(policies);
      assert ConfigurationScripts(configs') == ConfigurationScripts(configs);
    }
  }

  /** Three packages, one policy installing the first and a configuration
      installing the third: only the second is unused, and the catalog list
      comes back as given. */
  lemma PackagesReportExample()
    ensures var r := BuildPackagesReport(
              ["Chrome.pkg", "Flash.pkg", "Firefox.dmg", "Chrome.pkg"],
              [Policy(["Chrome.pkg"], ["cleanup.sh"])],
              [ComputerConfiguration(["Firefox.dmg"], [])]);
            && r.unused == {"Flash.pkg"}
            && r.policyUsed == {"Chrome.pkg"}
            && r.configUsed == {"Firefox.dmg"}
            && r.all == ["Chrome.pkg", "Flash.pkg", "Firefox.dmg", "Chrome.pkg"]
  {
    var packages := ["Chrome.pkg", "Flash.pkg", "Firefox.dmg", "Chrome.pkg"];
    var policies := [Policy(["Chrome.pkg"], ["cleanup.sh"])];
    var configs := [ComputerConfiguration(["Firefox.dmg"], [])];
    var r := BuildPackagesReport(packages, policies, configs);
    assert InPolicyPackages("Chrome.pkg", policies) by { assert policies[0] in policies; }
    assert InConfigurationPackages("Firefox.dmg", configs) by { assert configs[0] in configs; }
    assert forall n :: InPolicyPackages(n, policies) <==> n == "Chrome.pkg";
    assert forall n :: InConfigurationPackages(n, configs) <==> n == "Firefox.dmg";
    assert forall n :: n in r.unused <==> n == "Flash.pkg";
  }

  // ---------------------------------------------------------------------
  // load_removal_file

  /** The line starts that mark a comment or whitespace line. */
  const SkippedStarts: seq<string> := [" ", "#", "\t", "\n"]

  /** The list comprehension of load_removal_file over the lines already
      read from the file (each with its newline). */
  function LoadRemovalFile(lines: seq<string>): (r: seq<string>)
    ensures |r| <= |lines|
  {
    if lines == [] then []
    else
      (if StartsWithAny(lines[0], SkippedStarts) then [] else [RStrip(lines[0], '\n')])
      + LoadRemovalFile(lines[1..])
  }

  /** An entry is read exactly when some line is not skipped and strips to it. */
  lemma {:induction false} LoadRemovalFileMembers(lines: seq<string>)
    ensures forall e :: e in LoadRemovalFile(lines) <==>
              exists l :: l in lines && !StartsWithAny(l, SkippedStarts) && e == RStrip(l, '\n')
  {
    if lines != [] {
      LoadRemovalFileMembers(lines[1..]);
      assert forall l :: l in lines <==> l == lines[0] || l in lines[1..];
    }
  }

  /** The file is read line by line: the entries of a concatenation are the
      entries of each part, in order. */
  lemma {:induction false} LoadRemovalFileAppend(a: seq<string>, b: seq<string>)
    ensures LoadRemovalFile(a + b) == LoadRemovalFile(a) + LoadRemovalFile(b)
  {
    if a == [] {
      assert a + b == b;
    } else {
      var head := if StartsWithAny(a[0], SkippedStarts) then [] else [RStrip(a[0], '\n')];
      assert (a + b)[0] == a[0];
      assert (a + b)[1..] == a[1..] + b;
      assert LoadRemovalFile(a + b) == head + LoadRemovalFile(a[1..] + b);
      LoadRemovalFileAppend(a[1..], b);
    }
  }

  /** One line yields nothing when it is skipped, and otherwise itself
      without its trailing newlines. */
  lemma LoadRemovalFileLine(line: string)
    ensures LoadRemovalFile([line]) ==
              if StartsWithAny(line, SkippedStarts) then [] else [RStrip(line, '\n')]
  {
    assert [line][1..] == [];
  }

  /** No entry starts like a comment or whitespace line, and none ends with
      a newline. */
  lemma {:induction false} LoadRemovalFileEntries(lines: seq<string>)
    ensures forall e :: e in LoadRemovalFile(lines) ==>
              !StartsWithAny(e, SkippedStarts) && (e == [] || e[|e| - 1] != '\n')
  {
    LoadRemovalFileMembers(lines);
    forall e | e in LoadRemovalFile(lines)
      ensures !StartsWithAny(e, SkippedStarts) && (e == [] || e[|e| - 1] != '\n')
    {
      var l :| l in lines && !StartsWithAny(l, SkippedStarts) && e == RStrip(l, '\n');
      KeptLineKeepsItsStart(l);
    }
  }

  /** A kept line loses only trailing newlines, so its first character
      survives the strip. */
  lemma KeptLineKeepsItsStart(l: string)
    requires !StartsWithAny(l, SkippedStarts)
    ensures !StartsWithAny(RStrip(l, '\n'), SkippedStarts)
  {
    var e := RStrip(l, '\n');
    StartsWithCharacter(l, SkippedStarts);
    StartsWithCharacter(e, SkippedStarts);
    if l != [] {
      assert l[0] != '\n';
      assert e != [];
      assert e[0] == l[0];
    }
  }
}
