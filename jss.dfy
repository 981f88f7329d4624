/** The python-jss collaborator, reduced to what Spruce reads from it and
    asks of it. Fetching objects over the network is replaced by the records
    below, given as inputs; deleting is replaced by appending to a log. */
module Jss {

  /** A policy, reduced to the names its XML lists at
      `package_configuration/packages/package/name` (packages) and at
      `scripts/script/name` (scripts), in document order. */
  datatype Policy = Policy(packages: seq<string>, scripts: seq<string>)

  /** A computer imaging configuration, reduced to the names its XML lists
      at `packages/package/name` and at `scripts/script/name`. */
  datatype ComputerConfiguration = ComputerConfiguration(packages: seq<string>, scripts: seq<string>)

  /** One deletion requested from the server. */
  datatype Deletion =
    | PackageObject(name: string)         // j.Package(name).delete()
    | ScriptObject(name: string)          // j.Script(name).delete()
    | DistributionPointFile(name: string) // j.distribution_points.delete(name)

  /** A connected JSS, observed only through the deletions asked of it. */
  class Server {
    var deletions: seq<Deletion>

    constructor ()
      ensures deletions == []
    {
      deletions := [];
    }

    method DeletePackage(name: string)
      modifies this
      ensures deletions == old(deletions) + [PackageObject(name)]
    {
      deletions := deletions + [PackageObject(name)];
    }

    method DeleteScript(name: string)
      modifies this
      ensures deletions == old(deletions) + [ScriptObject(name)]
    {
      deletions := deletions + [ScriptObject(name)];
    }

    method DeleteFromDistributionPoints(name: string)
      modifies this
      ensures deletions == old(deletions) + [DistributionPointFile(name)]
    {
      deletions := deletions + [DistributionPointFile(name)];
    }
  }

  /** The set comprehension `{obj.text for c in containers for obj in
      c.findall(path)}`, where `found[i]` is what `findall` yields on the
      i-th container: a name is referenced when some container lists it. */
  function Referenced(found: seq<seq<string>>): (r: set<string>)
    ensures forall n :: n in r <==> exists i :: 0 <= i < |found| && n in found[i]
  {
    if found == [] then {}
    else
      var last := found[|found| - 1];
      Referenced(found[..|found| - 1]) + set n | n in last
  }

  function PolicyPackages(policies: seq<Policy>): (r: seq<seq<string>>)
    ensures |r| == |policies|
    ensures forall i :: 0 <= i < |policies| ==> r[i] == policies[i].packages
  {
    seq(|policies|, i requires 0 <= i < |policies| => policies[i].packages)
  }

  function PolicyScripts(policies: seq<Policy>): (r: seq<seq<string>>)
    ensures |r| == |policies|
    ensures forall i :: 0 <= i < |policies| ==> r[i] == policies[i].scripts
  {
    seq(|policies|, i requires 0 <= i < |policies| => policies[i].scripts)
  }

  function ConfigurationPackages(configs: seq<ComputerConfiguration>): (r: seq<seq<string>>)
    ensures |r| == |configs|
    ensures forall i :: 0 <= i < |configs| ==> r[i] == configs[i].packages
  {
    seq(|configs|, i requires 0 <= i < |configs| => configs[i].packages)
  }

  function ConfigurationScripts(configs: seq<ComputerConfiguration>): (r: seq<seq<string>>)
    ensures |r| == |configs|
    ensures forall i :: 0 <= i < |configs| ==> r[i] == configs[i].scripts
  {
    seq(|configs|, i requires 0 <= i < |configs| => configs[i].scripts)
  }

  /** A name is a package some policy lists. */
  ghost predicate InPolicyPackages(n: string, policies: seq<Policy>)
  {
    exists p :: p in policies && n in p.packages
  }

  ghost predicate InPolicyScripts(n: string, policies: seq<Policy>)
  {
    exists p :: p in policies && n in p.scripts
  }

  ghost predicate InConfigurationPackages(n: string, configs: seq<ComputerConfiguration>)
  {
    exists c :: c in configs && n in c.packages
  }

  ghost predicate InConfigurationScripts(n: string, configs: seq<ComputerConfiguration>)
  {
    exists c :: c in configs && n in c.scripts
  }

  /** The packages the policies reference are exactly the names some policy lists. */
  lemma ReferencedPolicyPackages(policies: seq<Policy>)
    ensures forall n :: n in Referenced(PolicyPackages(policies)) <==> InPolicyPackages(n, policies)
  {
    var found := PolicyPackages(policies);
    forall n ensures n in Referenced(found) <==> InPolicyPackages(n, policies) {
      if n in Referenced(found) {
        var i :| 0 <= i < |found| && n in found[i];
        assert policies[i] in policies;
      }
      if InPolicyPackages(n, policies) {
        var p :| p in policies && n in p.packages;
        var i :| 0 <= i < |policies| && policies[i] == p;
        assert n in found[i];
      }
    }
  }

  lemma ReferencedPolicyScripts(policies: seq<Policy>)
    ensures forall n :: n in Referenced(PolicyScripts(policies)) <==> InPolicyScripts(n, policies)
  {
    var found := PolicyScripts(policies);
    forall n ensures n in Referenced(found) <==> InPolicyScripts(n, policies) {
      if n in Referenced(found) {
        var i :| 0 <= i < |found| && n in found[i];
        assert policies[i] in policies;
      }
      if InPolicyScripts(n, policies) {
        var p :| p in policies && n in p.scripts;
        var i :| 0 <= i < |policies| && policies[i] == p;
        assert n in found[i];
      }
    }
  }

  lemma ReferencedConfigurationPackages(configs: seq<ComputerConfiguration>)
    ensures forall n :: n in Referenced(ConfigurationPackages(configs)) <==> InConfigurationPackages(n, configs)
  {
    var found := ConfigurationPackages(configs);
    forall n ensures n in Referenced(found) <==> InConfigurationPackages(n, configs) {
      if n in Referenced(found) {
        var i :| 0 <= i < |found| && n in found[i];
        assert configs[i] in configs;
      }
      if InConfigurationPackages(n, configs) {
        var c :| c in configs && n in c.packages;
        var i :| 0 <= i < |configs| && configs[i] == c;
        assert n in found[i];
      }
    }
  }

  lemma ReferencedConfigurationScripts(configs: seq<ComputerConfiguration>)
    ensures forall n :: n in Referenced(ConfigurationScripts(configs)) <==> InConfigurationScripts(n, configs)
  {
    var found := ConfigurationScripts(configs);
    forall n ensures n in Referenced(found) <==> InConfigurationScripts(n, configs) {
      if n in Referenced(found) {
        var i :| 0 <= i < |found| && n in found[i];
        assert configs[i] in configs;
      }
      if InConfigurationScripts(n, configs) {
        var c :| c in configs && n in c.scripts;
        var i :| 0 <= i < |configs| && configs[i] == c;
        assert n in found[i];
      }
    }
  }
}
