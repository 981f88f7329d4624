/** Spruce.py, version 0.1.0: the report of unused packages and scripts over
    policies, removal with a yes/no confirmation, the removal-file reader, and
    the preference plumbing around the `Plist` wrapper. */
module SpruceV0 {
  import opened Wrappers
  import opened Builtins
  import opened Jss

  // ---------------------------------------------------------------------
  // Plist

  /** The `Plist` wrapper. It subclasses `dict` but keeps its entries in
      `self._xml` (here `xml`); the item accessors it overrides use `xml`,
      while the `dict` methods it does not override (`get`, `in`) consult the
      storage of the base `dict` (here `inherited`), which its constructor
      leaves empty and no method of the class ever fills. */
  class Plist {
    var xml: map<string, Value>
    var inherited: map<string, Value>

    /** `Plist()` with no file name: `new_plist` does nothing. */
    constructor ()
      ensures xml == map[] && inherited == map[]
    {
      xml := map[];
      inherited := map[];
    }

    /** `p[key]`. */
    function GetItem(key: string): (r: Result<Value, KeyError>)
      reads this`xml
      ensures r.Ok? <==> key in xml
      ensures r.Ok? ==> r.value == xml[key]
      ensures r.Err? ==> r.error == KeyError(key)
    {
      if key in xml then Ok(xml[key]) else Err(KeyError(key))
    }

    /** `iter(p)`: the keys of `xml`; the order is not modelled. */
    function Iter(): (r: set<string>)
      reads this`xml
      ensures forall k :: k in r <==> GetItem(k).Ok?
    {
      xml.Keys
    }

    /** `len(p)`. */
    function Len(): (n: nat)
      reads this`xml
      ensures n == |Iter()|
    {
      |xml|
    }

    /** `p.get(key, default)`, inherited from `dict`. */
    function Get(key: string, default: Value): (v: Value)
      reads this`inherited
    {
      DictGet(inherited, key, default)
    }

    /** `key in p`, inherited from `dict`. */
    predicate Contains(key: string)
      reads this`inherited
    {
      key in inherited
    }

    /** `p[key] = value`. */
    method SetItem(key: string, value: Value)
      modifies this`xml
      ensures xml == old(xml)[key := value]
      ensures GetItem(key) == Ok(value)
      ensures forall k :: k != key ==> GetItem(k) == old(GetItem(k))
    {
      xml := xml[key := value];
    }

    /** `del p[key]`: removes `key` only, or raises KeyError when it is absent. */
    method DelItem(key: string) returns (error: Option<KeyError>)
      modifies this`xml
      ensures error == if key in old(xml) then None else Some(KeyError(key))
      ensures xml == old(xml) - {key}
      ensures GetItem(key).Err?
      ensures forall k :: k != key ==> GetItem(k) == old(GetItem(k))
      ensures Len() == old(Len()) - (if key in old(xml) then 1 else 0)
    {
      if key !in xml {
        return Some(KeyError(key));
      }
      assert xml.Keys == (xml - {key}).Keys + {key};
      xml := xml - {key};
      return None;
    }
  }

  // ---------------------------------------------------------------------
  // map_python_jss_env

  /** The keys map_python_jss_env writes. */
  const EnvKeys: set<string> :=
    {"JSS_URL", "API_USERNAME", "API_PASSWORD", "JSS_VERIFY_SSL", "JSS_SUPPRESS_WARNINGS", "JSS_REPOS"}

  /** An environment after map_python_jss_env, and the KeyError it raised, if any. */
  datatype EnvUpdate = EnvUpdate(items: map<string, Value>, error: Option<KeyError>)

  /** map_python_jss_env on an environment whose subscripted entries are
      `items` and whose `get` consults `base`. For a plain `dict` the two
      are the same map; for a `Plist`, `base` is its `inherited` storage.
      A missing required key stops the function after the writes before it. */
  function MapEnv(items: map<string, Value>, base: map<string, Value>): (r: EnvUpdate)
    ensures r.error.None? <==> "jss_url" in items && "jss_user" in items && "jss_pass" in items
    ensures "jss_url" !in items ==> r == EnvUpdate(items, Some(KeyError("jss_url")))
    ensures "jss_url" in items && "jss_user" !in items ==>
              r == EnvUpdate(items["JSS_URL" := items["jss_url"]], Some(KeyError("jss_user")))
    ensures "jss_url" in items && "jss_user" in items && "jss_pass" !in items ==>
              r == EnvUpdate(items["JSS_URL" := items["jss_url"]]["API_USERNAME" := items["jss_user"]],
                             Some(KeyError("jss_pass")))
    ensures items.Keys <= r.items.Keys
    ensures forall k :: k in items && k !in EnvKeys ==> r.items[k] == items[k]
    ensures r.error.None? ==> r.items.Keys == items.Keys + EnvKeys
    ensures r.error.None? ==>
              && r.items["JSS_URL"] == items["jss_url"]
              && r.items["API_USERNAME"] == items["jss_user"]
              && r.items["API_PASSWORD"] == items["jss_pass"]
              && r.items["JSS_VERIFY_SSL"] == DictGet(base, "ssl_verify", Bool(true))
              && r.items["JSS_SUPPRESS_WARNINGS"] == DictGet(base, "suppress_warnings", Bool(false))
              && r.items["JSS_REPOS"] == DictGet(base, "repos", Null)
  {
    if "jss_url" !in items then EnvUpdate(items, Some(KeyError("jss_url")))
    else
      var withUrl := items["JSS_URL" := items["jss_url"]];
      if "jss_user" !in withUrl then EnvUpdate(withUrl, Some(KeyError("jss_user")))
      else
        var withUser := withUrl["API_USERNAME" := withUrl["jss_user"]];
        if "jss_pass" !in withUser then EnvUpdate(withUser, Some(KeyError("jss_pass")))
        else
          var mapped := withUser["API_PASSWORD" := withUser["jss_pass"]]
                                ["JSS_VERIFY_SSL" := DictGet(base, "ssl_verify", Bool(true))]
                                ["JSS_SUPPRESS_WARNINGS" := DictGet(base, "suppress_warnings", Bool(false))]
                                ["JSS_REPOS" := DictGet(base, "repos", Null)];
          EnvUpdate(mapped, None)
  }

  /** map_python_jss_env on a `Plist`: updates `env` in place and returns
      the same object, or raises KeyError part-way. */
  method MapPythonJssEnv(env: Plist) returns (r: Result<Plist, KeyError>)
    modifies env`xml
    ensures env.xml == MapEnv(old(env.xml), env.inherited).items
    ensures r == match MapEnv(old(env.xml), env.inherited).error
                 case None => Ok(env)
                 case Some(e) => Err(e)
  {
    ghost var update := MapEnv(env.xml, env.inherited);
    var url := env.GetItem("jss_url");
    if url.Err? { return Err(url.error); }
    env.SetItem("JSS_URL", url.value);
    var user := env.GetItem("jss_user");
    if user.Err? {
      assert update == EnvUpdate(env.xml, Some(user.error));
      return Err(user.error);
    }
    env.SetItem("API_USERNAME", user.value);
    var password := env.GetItem("jss_pass");
    if password.Err? {
      assert update == EnvUpdate(env.xml, Some(password.error));
      return Err(password.error);
    }
    env.SetItem("API_PASSWORD", password.value);
    env.SetItem("JSS_VERIFY_SSL", env.Get("ssl_verify", Bool(true)));
    env.SetItem("JSS_SUPPRESS_WARNINGS", env.Get("suppress_warnings", Bool(false)));
    env.SetItem("JSS_REPOS", env.Get("repos", Null));
    assert update == EnvUpdate(env.xml, None);
    return Ok(env);
  }

  // ---------------------------------------------------------------------
  // configure_jss

  /** The keyword arguments configure_jss passes to `jss.JSS`. */
  datatype JssArguments = JssArguments(
    url: Value, user: Value, password: Value,
    sslVerify: Value, repoPrefs: Value, suppressWarnings: Value)

  /** configure_jss on an environment whose subscripted entries are `items`
      and whose `get` and `in` consult `base`. */
  function ConfigureJss(items: map<string, Value>, base: map<string, Value>): (r: Result<JssArguments, KeyError>)
    ensures r.Ok? <==>
              && "JSS_URL" in items && "API_USERNAME" in items && "API_PASSWORD" in items
              && ("JSS_REPOS" in base ==> "JSS_REPOS" in items)
    ensures "JSS_URL" !in items ==> r == Err(KeyError("JSS_URL"))
    ensures "JSS_URL" in items && "API_USERNAME" !in items ==> r == Err(KeyError("API_USERNAME"))
    ensures "JSS_URL" in items && "API_USERNAME" in items && "API_PASSWORD" !in items ==>
              r == Err(KeyError("API_PASSWORD"))
    ensures "JSS_URL" in items && "API_USERNAME" in items && "API_PASSWORD" in items
            && "JSS_REPOS" in base && "JSS_REPOS" !in items ==>
              r == Err(KeyError("JSS_REPOS"))
    ensures r.Ok? ==>
              && r.value.url == items["JSS_URL"]
              && r.value.user == items["API_USERNAME"]
              && r.value.password == items["API_PASSWORD"]
              && r.value.sslVerify == DictGet(base, "JSS_VERIFY_SSL", Bool(true))
              && r.value.suppressWarnings == DictGet(base, "JSS_SUPPRESS_WARNINGS", Bool(false))
              && r.value.repoPrefs == (if "JSS_REPOS" in base then items["JSS_REPOS"] else Null)
  {
    if "JSS_URL" !in items then Err(KeyError("JSS_URL"))
    else if "API_USERNAME" !in items then Err(KeyError("API_USERNAME"))
    else if "API_PASSWORD" !in items then Err(KeyError("API_PASSWORD"))
    else
      var sslVerify := DictGet(base, "JSS_VERIFY_SSL", Bool(true));
      var suppressWarnings := DictGet(base, "JSS_SUPPRESS_WARNINGS", Bool(false));
      if "JSS_REPOS" in base && "JSS_REPOS" !in items then Err(KeyError("JSS_REPOS"))
      else
        var repos := if "JSS_REPOS" in base then items["JSS_REPOS"] else Null;
        Ok(JssArguments(items["JSS_URL"], items["API_USERNAME"], items["API_PASSWORD"],
                        sslVerify, repos, suppressWarnings))
  }

  /** On a `Plist`, whose `inherited` storage stays empty, the optional
      preferences are never read: map_python_jss_env always writes the
      defaults, and configure_jss always passes them. */
  lemma PlistOptionsIgnored(items: map<string, Value>)
    ensures var r := MapEnv(items, map[]);
            r.error.None? ==>
              && r.items["JSS_VERIFY_SSL"] == Bool(true)
              && r.items["JSS_SUPPRESS_WARNINGS"] == Bool(false)
              && r.items["JSS_REPOS"] == Null
    ensures var c := ConfigureJss(items, map[]);
            c.Ok? ==>
              && c.value.sslVerify == Bool(true)
              && c.value.suppressWarnings == Bool(false)
              && c.value.repoPrefs == Null
  {
  }

  /** A python-jss preference file that turns certificate checking off,
      read into a `Plist`: the mapped environment and the connection both
      keep certificate checking on. */
  lemma SslVerifyOffIsLost()
    ensures var prefs := map["jss_url" := Str("https://jss.example.com:8443"),
                             "jss_user" := Str("api"), "jss_pass" := Str("secret"),
                             "ssl_verify" := Bool(false)];
            var mapped := MapEnv(prefs, map[]);
            && mapped.error.None?
            && mapped.items["JSS_VERIFY_SSL"] == Bool(true)
            && ConfigureJss(mapped.items, map[]).Ok?
            && ConfigureJss(mapped.items, map[]).value.sslVerify == Bool(true)
            && prefs["ssl_verify"] == Bool(false)
  {
  }

  /** An AutoPkg preference file that lists a distribution point, read into
      a `Plist`: configure_jss passes no repositories at all. */
  lemma ReposAreLost()
    ensures var prefs := map["JSS_URL" := Str("https://jss.example.com:8443"),
                             "API_USERNAME" := Str("api"), "API_PASSWORD" := Str("secret"),
                             "JSS_REPOS" := Array([Dict(map["name" := Str("CasperShare"),
                                                            "password" := Str("pw")])])];
            && ConfigureJss(prefs, map[]).Ok?
            && ConfigureJss(prefs, map[]).value.repoPrefs == Null
            && prefs["JSS_REPOS"] != Null
  {
  }

  /** map_python_jss_env as evidently intended: `get` reads the entries
      `env[...]` reads, so optional preferences that are present are
      carried over and only absent ones take the defaults. */
  function IntendedMapEnv(env: map<string, Value>): (r: EnvUpdate)
    ensures r.error.None? <==> "jss_url" in env && "jss_user" in env && "jss_pass" in env
    ensures r.error.None? ==>
              && r.items.Keys == env.Keys + EnvKeys
              && r.items["JSS_URL"] == env["jss_url"]
              && r.items["API_USERNAME"] == env["jss_user"]
              && r.items["API_PASSWORD"] == env["jss_pass"]
              && r.items["JSS_VERIFY_SSL"] == (if "ssl_verify" in env then env["ssl_verify"] else Bool(true))
              && r.items["JSS_SUPPRESS_WARNINGS"] ==
                   (if "suppress_warnings" in env then env["suppress_warnings"] else Bool(false))
              && r.items["JSS_REPOS"] == (if "repos" in env then env["repos"] else Null)
  {
    MapEnv(env, env)
  }

  /** configure_jss as evidently intended: `get` and `in` read the entries
      `env[...]` reads, so `repos` is None exactly when JSS_REPOS is absent
      (or holds None). */
  function IntendedConfigureJss(env: map<string, Value>): (r: Result<JssArguments, KeyError>)
    ensures r.Ok? <==> "JSS_URL" in env && "API_USERNAME" in env && "API_PASSWORD" in env
    ensures "JSS_URL" !in env ==> r == Err(KeyError("JSS_URL"))
    ensures "JSS_URL" in env && "API_USERNAME" !in env ==> r == Err(KeyError("API_USERNAME"))
    ensures "JSS_URL" in env && "API_USERNAME" in env && "API_PASSWORD" !in env ==>
              r == Err(KeyError("API_PASSWORD"))
    ensures r.Ok? ==>
              && r.value.url == env["JSS_URL"]
              && r.value.user == env["API_USERNAME"]
              && r.value.password == env["API_PASSWORD"]
              && r.value.sslVerify == (if "JSS_VERIFY_SSL" in env then env["JSS_VERIFY_SSL"] else Bool(true))
              && r.value.suppressWarnings ==
                   (if "JSS_SUPPRESS_WARNINGS" in env then env["JSS_SUPPRESS_WARNINGS"] else Bool(false))
              && r.value.repoPrefs == (if "JSS_REPOS" in env then env["JSS_REPOS"] else Null)
  {
    ConfigureJss(env, env)
  }

  /** The python-jss branch of `main` as intended: the connection made from
      a python-jss preference dictionary carries its url, credentials and
      optional settings, with the documented defaults for absent ones. */
  lemma {:induction false} PythonJssPreferencesReachConnection(env: map<string, Value>)
    requires "jss_url" in env && "jss_user" in env && "jss_pass" in env
    ensures IntendedMapEnv(env).error.None?
    ensures var c := IntendedConfigureJss(IntendedMapEnv(env).items);
            && c.Ok?
            && c.value.url == env["jss_url"]
            && c.value.user == env["jss_user"]
            && c.value.password == env["jss_pass"]
            && c.value.sslVerify == DictGet(env, "ssl_verify", Bool(true))
            && c.value.suppressWarnings == DictGet(env, "suppress_warnings", Bool(false))
            && c.value.repoPrefs == DictGet(env, "repos", Null)
  {
    var mapped := IntendedMapEnv(env).items;
    assert "JSS_URL" in mapped && "API_USERNAME" in mapped && "API_PASSWORD" in mapped;
    assert "JSS_VERIFY_SSL" in mapped && "JSS_SUPPRESS_WARNINGS" in mapped && "JSS_REPOS" in mapped;
  }

  // ---------------------------------------------------------------------
  // remove

  /** The extensions, upper-cased, that mark an item as a package. */
  const PackageExtensions: seq<string> := [".PKG", ".DMG"]

  /** remove's test: the extension `os.path.splitext` finds, upper-cased, is
      `.PKG` or `.DMG`; every other item is taken for a script. */
  predicate IsPackage(item: string)
  {
    Upper(SplitExt(item).1) in PackageExtensions
  }

  /** The file-name part of `stem` (after its last '/') holds a character
      other than '.'. */
  predicate HasNamedStem(stem: string)
  {
    !OnlyDots(stem[RFind(stem, '/') + 1..])
  }

  /** An item is a package exactly when it ends in ".pkg" or ".dmg", in any
      letter case, after a file name that is not made of dots only. */
  lemma IsPackageIff(item: string)
    ensures IsPackage(item) <==>
              && |item| >= 4
              && Upper(item[|item| - 4..]) in PackageExtensions
              && HasNamedStem(item[..|item| - 4])
  {
    if IsPackage(item) {
      var split := SplitExt(item);
      SplitExtShape(item);
      PackageExtensionShape(split.1);
      assert item[|item| - 4..] == split.1 && item[..|item| - 4] == split.0;
    }
    if |item| >= 4 && Upper(item[|item| - 4..]) in PackageExtensions && HasNamedStem(item[..|item| - 4]) {
      PackageExtensionShape(item[|item| - 4..]);
      SplitsAtPackageExtension(item);
    }
  }

  /** A disk image named in capitals is a package. */
  lemma DiskImageIsPackage()
    ensures IsPackage("Firefox.DMG")
  {
    var item := "Firefox.DMG";
    assert Upper(item[7..]) == ".DMG";
    assert item[..7] == "Firefox";
    assert RFind("Firefox", '/') == -1;
    assert "Firefox"[0] != '.';
    IsPackageIff(item);
  }

  /** A shell script is taken for a script. */
  lemma ShellScriptIsScript()
    ensures !IsPackage("cleanup.sh")
  {
    var item := "cleanup.sh";
    assert Upper(item[6..])[0] == 'P';
    IsPackageIff(item);
  }

  /** A file named ".pkg" has no extension, so it is taken for a script. */
  lemma DotFileIsScript()
    ensures !IsPackage("Tools/.pkg")
  {
    var item := "Tools/.pkg";
    assert item[..6] == "Tools/";
    assert RFind("Tools/", '/') == 5;
    IsPackageIff(item);
  }

  /** Whatever upper-cases to ".PKG" or ".DMG" is a dot and three letters. */
  lemma PackageExtensionShape(t: string)
    requires Upper(t) in PackageExtensions
    ensures |t| == 4 && t[0] == '.'
    ensures forall k :: 0 < k < 4 ==> t[k] != '.' && t[k] != '/'
  {
    assert |Upper(t)| == 4;
    assert forall k :: 0 <= k < 4 ==> Upper(t)[k] == UpperChar(t[k]);
  }

  /** An item ending in a dot and three non-separators, after a named stem,
      splits right before that dot. */
  lemma SplitsAtPackageExtension(item: string)
    requires |item| >= 4 && item[|item| - 4] == '.'
    requires forall k :: |item| - 4 < k < |item| ==> item[k] != '.' && item[k] != '/'
    requires HasNamedStem(item[..|item| - 4])
    ensures SplitExt(item) == (item[..|item| - 4], item[|item| - 4..])
  {
    var n := |item| - 4;
    RFindIsLast(item, '.');
    assert RFind(item, '.') == n;
    RFindPrefix(item, '/', n);
    assert item[..n][RFind(item, '/') + 1..] == item[RFind(item, '/') + 1..n];
  }

  /** The deletions remove requests for one item: its catalog object, as a
      package or as a script, then its file on the distribution points. */
  function ItemDeletions(item: string): (r: seq<Deletion>)
    ensures |r| == 2
    ensures r[0] == (if IsPackage(item) then PackageObject(item) else ScriptObject(item))
    ensures r[1] == DistributionPointFile(item)
  {
    [if IsPackage(item) then PackageObject(item) else ScriptObject(item), DistributionPointFile(item)]
  }

  /** The deletions remove requests for `items`, item after item. */
  function RemovalDeletions(items: seq<string>): (r: seq<Deletion>)
    ensures |r| == 2 * |items|
  {
    if items == [] then []
    else
      var init, last := items[..|items| - 1], items[|items| - 1];
      RemovalDeletions(init) + ItemDeletions(last)
  }

  /** Deletions follow the order of the items: those for a concatenation
      are those for each part, one part after the other. */
  lemma {:induction false} RemovalDeletionsAppend(a: seq<string>, b: seq<string>)
    ensures RemovalDeletions(a + b) == RemovalDeletions(a) + RemovalDeletions(b)
    decreases |b|
  {
    if b == [] {
      assert a + b == a;
    } else {
      var init := b[..|b| - 1];
      assert (a + b)[..|a + b| - 1] == a + init;
      assert (a + b)[|a + b| - 1] == b[|b| - 1];
      RemovalDeletionsAppend(a, init);
    }
  }

  /** A single item gives exactly its own deletions. */
  lemma RemovalDeletionsSingle(item: string)
    ensures RemovalDeletions([item]) == ItemDeletions(item)
  {
    assert [item][..0] == [];
  }

  /** remove: for each item in turn, delete its catalog object as a package
      or a script, then delete its file from the distribution points. */
  method Remove(j: Server, items: seq<string>)
    modifies j
    ensures j.deletions == old(j.deletions) + RemovalDeletions(items)
  {
    for i := 0 to |items|
      invariant j.deletions == old(j.deletions) + RemovalDeletions(items[..i])
    {
      RemoveItem(j, items[i]);
      RemovalDeletionsExtend(items, i);
    }
    assert items[..|items|] == items;
  }

  /** The body of remove's loop for one item. */
  method RemoveItem(j: Server, item: string)
    modifies j
    ensures j.deletions == old(j.deletions) + ItemDeletions(item)
  {
    if IsPackage(item) {
      j.DeletePackage(item);
    } else {
      j.DeleteScript(item);
    }
    j.DeleteFromDistributionPoints(item);
  }

  /** One more item appends that item's deletions. */
  lemma RemovalDeletionsExtend(items: seq<string>, i: nat)
    requires i < |items|
    ensures RemovalDeletions(items[..i + 1]) == RemovalDeletions(items[..i]) + ItemDeletions(items[i])
  {
    assert items[..i + 1][..i] == items[..i];
  }

  // ---------------------------------------------------------------------
  // report

  /** One object type's sets in report: the catalog, what policies use,
      and the difference. */
  datatype Usage = Usage(all: set<string>, used: set<string>, unused: set<string>)

  /** The package sets of report over the catalog names and the policies. */
  function PackageUsage(packageNames: seq<string>, policies: seq<Policy>): (u: Usage)
    ensures forall n :: n in u.all <==> n in packageNames
    ensures forall n :: n in u.used <==> InPolicyPackages(n, policies)
    ensures forall n :: n in u.unused <==> n in packageNames && !InPolicyPackages(n, policies)
  {
    ReferencedPolicyPackages(policies);
    var allPackages := set n | n in packageNames;
    var usedPackages := Referenced(PolicyPackages(policies));
    Usage(allPackages, usedPackages, allPackages - usedPackages)
  }

  /** The script sets of report over the catalog names and the policies. */
  function ScriptUsage(scriptNames: seq<string>, policies: seq<Policy>): (u: Usage)
    ensures forall n :: n in u.all <==> n in scriptNames
    ensures forall n :: n in u.used <==> InPolicyScripts(n, policies)
    ensures forall n :: n in u.unused <==> n in scriptNames && !InPolicyScripts(n, policies)
  {
    ReferencedPolicyScripts(policies);
    var allScripts := set n | n in scriptNames;
    var usedScripts := Referenced(PolicyScripts(policies));
    Usage(allScripts, usedScripts, allScripts - usedScripts)
  }

  /** The unused set is the catalog less the used set: disjoint from it, and
      together with the used catalog names it covers the catalog. */
  lemma UsagePartitions(names: seq<string>, policies: seq<Policy>)
    ensures var u := PackageUsage(names, policies);
            u.unused !! u.used && u.unused + (u.used * u.all) == u.all
    ensures var u := ScriptUsage(names, policies);
            u.unused !! u.used && u.unused + (u.used * u.all) == u.all
  {
  }

  /** The package sets depend only on the policies' package lists, and the
      script sets only on their script lists. */
  lemma UsagesAreIndependent(names: seq<string>, policies: seq<Policy>, policies': seq<Policy>)
    requires |policies'| == |policies|
    ensures (forall i :: 0 <= i < |policies| ==> policies'[i].packages == policies[i].packages)
            ==> PackageUsage(names, policies') == PackageUsage(names, policies)
    ensures (forall i :: 0 <= i < |policies| ==> policies'[i].scripts == policies[i].scripts)
            ==> ScriptUsage(names, policies') == ScriptUsage(names, policies)
  {
    if forall i :: 0 <= i < |policies| ==> policies'[i].packages == policies[i].packages {
      assert PolicyPackages(policies') == PolicyPackages(policies);
    }
    if forall i :: 0 <= i < |policies| ==> policies'[i].scripts == policies[i].scripts {
      assert PolicyScripts(policies') == PolicyScripts(policies);
    }
  }

  /** A heading and the names printed under it. */
  datatype Section = Section(heading: string, names: set<string>)

  /** report: the sections it prints, in order, and the pair of unused sets
      it returns. */
  method Report(packageNames: seq<string>, scriptNames: seq<string>, policies: seq<Policy>, verbose: bool)
    returns (sections: seq<Section>, unusedPackages: set<string>, unusedScripts: set<string>)
    ensures unusedPackages == PackageUsage(packageNames, policies).unused
    ensures unusedScripts == ScriptUsage(scriptNames, policies).unused
    ensures |sections| == if verbose then 6 else 2
    ensures sections[..2] == [Section("Unused packages", unusedPackages), Section("Unused scripts", unusedScripts)]
    ensures verbose ==>
              var packages, scripts := PackageUsage(packageNames, policies), ScriptUsage(scriptNames, policies);
              sections[2..] == [Section("All packages", packages.all), Section("Used packages", packages.used),
                                Section("All scripts", scripts.all), Section("Used scripts", scripts.used)]
  {
    var packages := PackageUsage(packageNames, policies);
    var scripts := ScriptUsage(scriptNames, policies);
    unusedPackages := packages.unused;
    unusedScripts := scripts.unused;
    sections := [Section("Unused packages", unusedPackages), Section("Unused scripts", unusedScripts)];
    if verbose {
      sections := sections + [Section("All packages", packages.all)];
      sections := sections + [Section("Used packages", packages.used)];
      sections := sections + [Section("All scripts", scripts.all)];
      sections := sections + [Section("Used scripts", scripts.used)];
    }
  }

  // ---------------------------------------------------------------------
  // report_clean

  /** The confirmation test `response.upper() == 'Y'`. */
  predicate Confirms(response: string)
  {
    Upper(response) == "Y"
  }

  /** Only a lone "y" or "Y" confirms; "yes", " y" and "" do not. */
  lemma ConfirmsIff(response: string)
    ensures Confirms(response) <==> response == "y" || response == "Y"
  {
    if Confirms(response) {
      assert |response| == 1;
      assert Upper(response)[0] == UpperChar(response[0]) == 'Y';
      assert response == [response[0]];
    }
    if response == "y" || response == "Y" {
      assert Upper(response) == "Y";
    }
  }

  /** report_clean: report, then remove the unused packages if the first
      answer confirms, then the unused scripts if the second answer
      confirms. The sets are removed in an iteration order the model leaves
      open, returned as `removedPackages` and `removedScripts`. */
  method ReportClean(
    j: Server, packageNames: seq<string>, scriptNames: seq<string>, policies: seq<Policy>, verbose: bool,
    packageAnswer: string, scriptAnswer: string)
    returns (sections: seq<Section>, removedPackages: seq<string>, removedScripts: seq<string>)
    modifies j
    ensures |sections| == if verbose then 6 else 2
    ensures !Confirms(packageAnswer) ==> removedPackages == []
    ensures Confirms(packageAnswer) ==>
              forall n :: n in removedPackages <==> n in PackageUsage(packageNames, policies).unused
    ensures !Confirms(scriptAnswer) ==> removedScripts == []
    ensures Confirms(scriptAnswer) ==>
              forall n :: n in removedScripts <==> n in ScriptUsage(scriptNames, policies).unused
    ensures forall i, k :: 0 <= i < k < |removedPackages| ==> removedPackages[i] != removedPackages[k]
    ensures forall i, k :: 0 <= i < k < |removedScripts| ==> removedScripts[i] != removedScripts[k]
    ensures j.deletions == old(j.deletions) + RemovalDeletions(removedPackages) + RemovalDeletions(removedScripts)
  {
    var unusedPackages, unusedScripts;
    sections, unusedPackages, unusedScripts := Report(packageNames, scriptNames, policies, verbose);
    removedPackages, removedScripts := [], [];
    if Confirms(packageAnswer) {
      removedPackages := Enumerate(unusedPackages);
      Remove(j, removedPackages);
    }
    if Confirms(scriptAnswer) {
      removedScripts := Enumerate(unusedScripts);
      Remove(j, removedScripts);
    }
  }

  // ---------------------------------------------------------------------
  // load_file

  /** The line starts that mark a comment or whitespace line. */
  const SkippedStarts: seq<string> := [" ", "#", "\t", "\n"]

  /** The list comprehension of load_file over the lines already read from
      the file: skipped lines dropped, trailing newlines stripped, order kept. */
  function LoadFile(lines: seq<string>): (r: seq<string>)
    ensures |r| <= |lines|
  {
    if lines == [] then []
    else
      (if StartsWithAny(lines[0], SkippedStarts) then [] else [RStrip(lines[0], '\n')])
      + LoadFile(lines[1..])
  }
}
