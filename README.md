# Spruce: unused package and script reports, in Dafny

Spruce finds the packages and scripts on a JAMF Software Server (JSS) that nothing
references, reports them, and offers to remove them. This project models two
early versions of its command-line tool as two separate modules:

- `SpruceV1` models `spruce.py`, version 1.1.0. It builds a usage report for
  packages and for scripts. Each report has four keys: `all` (the catalog list as
  given), `policy_used`, `config_used`, and `unused`. `unused` holds the catalog
  names that no policy and no computer imaging configuration references. The
  module also models reading a removal file, mapping AutoPkg/JSSImporter
  preferences to connection arguments, and `remove`, which is a stub in this
  version.
- `SpruceV0` models `Spruce.py`, version 0.1.0. `report` computes unused packages
  and scripts against policies only, and orders its printed sections. `remove`
  classifies each item as a package or a script by its extension, then deletes
  it from the distribution points. `report_clean` removes a batch only after a
  "Y" answer. The module also models `load_file`, the `Plist` dictionary wrapper,
  `map_python_jss_env` and `configure_jss`.
- `Versions` relates the two versions. They read removal files identically. With
  no computer configurations, their unused sets coincide. With 0.1.0 corrected
  as described under "Findings", their connection arguments differ only in the
  `suppress_warnings` default, and 1.1.0 also passes `jss_migrated`. As written,
  0.1.0 ignores the stored `JSS_VERIFY_SSL`, `JSS_SUPPRESS_WARNINGS` and
  `JSS_REPOS`, and always passes True, False and None.

Supporting modules:

- `Builtins` models the Python behaviour the tool relies on: `dict.get`,
  `startswith` with a tuple, `rstrip`, `upper`, `rfind`, `os.path.splitext`, and
  iteration over a `set`.
- `Jss` stands in for the python-jss library. Policies and configurations become
  records of the names their XML lists. The server becomes a log of requested
  deletions. The set comprehension over `findall` results becomes `Referenced`.
- `Wrappers` holds `Option` and `Result`. A Python `KeyError` becomes an `Err`
  result rather than a precondition.

Group-nesting resolution, cruftiness scores and device histograms do not appear
in either version, so they are not modelled.

## Model

| member | source | states |
|---|---|---|
| `Jss.Referenced` | spruce.py:294-297 | the set comprehension over `findall` results holds a name exactly when some container lists it |
| `SpruceV1.JssImporterConnection` | spruce.py:234-245 | succeeds exactly when `JSS_URL`, `API_USERNAME` and `API_PASSWORD` are all present, otherwise raises KeyError for the first missing one in that order; on success the result has exactly seven keys, copies the three required values, and takes `ssl_verify`, `suppress_warnings` and `jss_migrated` from the preferences with default True and `repo_prefs` with default None |
| `SpruceV1.MapJssImporterPrefs` | spruce.py:236-245 | filling the fresh dictionary key by key gives exactly `JssImporterConnection`, including which KeyError is raised |
| `SpruceV1.ConnectionDefaults` | spruce.py:240-243 | with no optional preferences set, the connection has `ssl_verify`, `suppress_warnings` and `jss_migrated` True and `repo_prefs` None |
| `SpruceV1.Remove` | spruce.py:248-255 | for any items, no deletion is requested |
| `SpruceV1.BuildComputerScopedReport` | spruce.py:269-315 | `all` is the input list unchanged, duplicates kept; `policy_used` and `config_used` are exactly the names some policy or configuration lists; `unused` holds exactly the catalog names in neither |
| `SpruceV1.ScopedReportPartitions` | spruce.py:299-300 | `unused` is disjoint from the used names, and together with the used catalog names it covers the whole catalog |
| `SpruceV1.ConfigurationOnlyReferenceIsUsed` | spruce.py:296-300 | a name that only a computer configuration references is in `config_used`, not in `policy_used`, and not in `unused` |
| `SpruceV1.BuildPackagesReport` | spruce.py:318-335 | the package report checks the catalog against the package names of policies and configurations: a package is unused exactly when it is in the catalog and listed by no policy and no configuration |
| `SpruceV1.BuildScriptsReport` | spruce.py:338-355 | the same for scripts, against the script names of policies and configurations |
| `SpruceV1.ReportsAreIndependent` | spruce.py:330-351 | changing only the script lists never changes the package report, and changing only the package lists never changes the script report |
| `SpruceV1.PackagesReportExample` | spruce.py:294-306 | for catalog Chrome, Flash, Firefox, Chrome, with a policy installing Chrome and a configuration installing Firefox, only Flash is unused and `all` keeps the duplicate |
| `SpruceV1.LoadRemovalFile` | spruce.py:358-375 | the file never gives more entries than it has lines |
| `SpruceV1.LoadRemovalFileMembers` | spruce.py:373-374 | an entry is in the result exactly when it is some line that does not start with a space, '#', a tab or a newline, with its trailing newlines stripped |
| `SpruceV1.LoadRemovalFileAppend` | spruce.py:373-374 | the entries of two concatenated runs of lines are the entries of the first run followed by those of the second, so the original order is kept |
| `SpruceV1.LoadRemovalFileLine` | spruce.py:373-374 | a single line gives no entry when it starts with a skipped character, and otherwise gives itself without trailing newlines |
| `SpruceV1.LoadRemovalFileEntries` | spruce.py:365-374 | no entry starts with a space, '#', a tab or a newline, and no entry ends with a newline |
| `SpruceV0.Plist.constructor` | Spruce.py:70-78 | a Plist made without a file has an empty `_xml`, and its base `dict` storage is empty too |
| `SpruceV0.Plist.GetItem` | Spruce.py:80-81 | `p[key]` returns the `_xml` value, and raises KeyError exactly when `key` is absent |
| `SpruceV0.Plist.SetItem` | Spruce.py:83-84 | after `p[k] = v`, `_xml` is the old `_xml` with `k` bound to `v`: `p[k]` is `v`, every other key reads as before, and the base storage is untouched |
| `SpruceV0.Plist.DelItem` | Spruce.py:86-87 | `del p[k]` removes only `k`, raises KeyError exactly when `k` was absent, and lowers the length by one exactly when `k` was present |
| `SpruceV0.Plist.Iter` | Spruce.py:89-90 | iteration yields exactly the keys that `p[key]` can read |
| `SpruceV0.Plist.Len` | Spruce.py:92-93 | `len(p)` is the number of keys iteration yields |
| `SpruceV0.MapEnv` | Spruce.py:160-169 | the six upper-case keys are added and every existing key is kept; keys outside the six are left unchanged; KeyError is raised for `jss_url`, then `jss_user`, then `jss_pass`, after the writes that precede it; `JSS_VERIFY_SSL`, `JSS_SUPPRESS_WARNINGS` and `JSS_REPOS` take what `get` finds, with defaults True, False and None |
| `SpruceV0.MapPythonJssEnv` | Spruce.py:160-169 | updates the Plist in place to `MapEnv` of its old entries, and returns that same object, or the KeyError |
| `SpruceV0.ConfigureJss` | Spruce.py:142-157 | url and credentials come from `env[...]`, with KeyError for the first missing one in the order `JSS_URL`, `API_USERNAME`, `API_PASSWORD`, and KeyError for `JSS_REPOS` when the `in` test finds it but `env[...]` does not; `ssl_verify` defaults to True and `suppress_warnings` to False; `repos` is None unless the `in` test finds `JSS_REPOS` |
| `SpruceV0.PlistOptionsIgnored` | Spruce.py:147-167 | on a Plist, `map_python_jss_env` always writes True, False and None for the optional keys, and `configure_jss` always passes True, False and None, whatever the plist holds |
| `SpruceV0.SslVerifyOffIsLost` | Spruce.py:165 | a python-jss plist whose `ssl_verify` is false still yields `JSS_VERIFY_SSL` True and a connection that checks certificates |
| `SpruceV0.ReposAreLost` | Spruce.py:150-153 | an AutoPkg plist that lists a distribution point still yields `repos` None |
| `SpruceV0.IntendedMapEnv` | Spruce.py:160-169 | with `get` reading the same entries as `env[...]`, optional preferences that are present are carried over, and only absent ones take the defaults |
| `SpruceV0.IntendedConfigureJss` | Spruce.py:142-157 | with `get` and `in` reading the same entries as `env[...]`, it succeeds exactly when url and credentials are present and otherwise raises KeyError for the first missing one; `repos` is the stored `JSS_REPOS`, and None when it is absent; `suppress_warnings` defaults to False |
| `SpruceV0.PythonJssPreferencesReachConnection` | Spruce.py:306-308 | a python-jss preference dictionary with url, user and password always maps to a connection carrying those values and its optional settings, with the defaults True, False and None |
| `SpruceV0.IsPackageIff` | Spruce.py:179 | an item is a package exactly when it ends in ".pkg" or ".dmg" in any letter case, and the file name before that ending is not made of dots only |
| `SpruceV0.DiskImageIsPackage` | Spruce.py:179-180 | "Firefox.DMG" is deleted as a package |
| `SpruceV0.ShellScriptIsScript` | Spruce.py:179-183 | "cleanup.sh" is deleted as a script |
| `SpruceV0.DotFileIsScript` | Spruce.py:179-183 | "Tools/.pkg" has no extension, so it is deleted as a script |
| `SpruceV0.ItemDeletions` | Spruce.py:178-186 | one item gives two deletions: first its catalog object, as a package exactly when it is classified as one and otherwise as a script, then its distribution-point file |
| `SpruceV0.RemovalDeletions` | Spruce.py:177-187 | n items give 2n deletions |
| `SpruceV0.RemovalDeletionsAppend` | Spruce.py:177-187 | the deletions for two runs of items are those of the first run followed by those of the second, so they follow the iteration order |
| `SpruceV0.RemovalDeletionsSingle` | Spruce.py:178-186 | a single item gives exactly its own two deletions |
| `SpruceV0.RemoveItem` | Spruce.py:178-186 | one pass of the loop appends exactly that item's two deletions |
| `SpruceV0.Remove` | Spruce.py:172-187 | the server's deletion log grows by exactly `RemovalDeletions(items)` |
| `SpruceV0.PackageUsage` | Spruce.py:196-204 | `all` is the set of catalog names; `used` is exactly the package names some policy lists, catalog or not; `unused` is exactly the catalog names no policy lists |
| `SpruceV0.ScriptUsage` | Spruce.py:197-205 | the same for scripts, against the script names of policies |
| `SpruceV0.UsagePartitions` | Spruce.py:204-205 | for packages and for scripts, `unused` is disjoint from `used`, and together with the used catalog names it covers `all` |
| `SpruceV0.UsagesAreIndependent` | Spruce.py:196-205 | changing only the policies' script lists never changes the package sets, and changing only their package lists never changes the script sets |
| `SpruceV0.Report` | Spruce.py:190-217 | returns the unused packages and unused scripts; the sections start with "Unused packages" and "Unused scripts"; without `verbose` there are no others; with `verbose`, "All packages", "Used packages", "All scripts" and "Used scripts" follow in that order |
| `SpruceV0.ConfirmsIff` | Spruce.py:229 | an answer confirms exactly when it is "y" or "Y" |
| `SpruceV0.ReportClean` | Spruce.py:220-237 | the unused packages are removed, each once, only if the first answer confirms; then the unused scripts, only if the second answer confirms; nothing else is deleted |
| `SpruceV0.LoadFile` | Spruce.py:240-251 | the file never gives more entries than it has lines |
| `Versions.LoadersAgree` | Spruce.py:248-251 | `load_file` of 0.1.0 and `load_removal_file` of 1.1.0 give the same entries from the same lines |
| `Versions.UnusedSetsAcrossVersions` | spruce.py:294-300 | with no computer configurations, both versions find the same unused packages and the same unused scripts; with configurations, 1.1.0 finds only a subset of what 0.1.0 finds |
| `Versions.ConnectionsAcrossVersions` | spruce.py:240-243 | from the same AutoPkg preferences, 1.1.0 and the intended 0.1.0 connection succeed together, and agree on url, credentials, `ssl_verify` and repositories; when `JSS_SUPPRESS_WARNINGS` is absent, 1.1.0 suppresses warnings and 0.1.0 does not |
| `Builtins.RStrip` | spruce.py:373 | `rstrip("\n")` keeps a prefix of the line, removes only newlines, and leaves no trailing newline |
| `Builtins.SplitExt` | Spruce.py:179 | `splitext` gives a root and an extension that concatenate to the path |
| `Builtins.SplitExtShape` | Spruce.py:179 | the extension is empty, or it is a '.' followed by no other '.' and no '/', split off after a file name that is not made of dots only |
| `Builtins.SplitsAtExtension` | Spruce.py:179 | conversely, a file name not made of dots only, followed by a '.' and then no '.' and no '/', splits exactly before that '.' |
| `Builtins.Enumerate` | Spruce.py:230 | iterating over the set of unused names visits each element exactly once |

## Findings

| source | as written | input that shows it | evidently intended | confidence | as-written member | corrected member |
|---|---|---|---|---|---|---|
| Spruce.py:165-167 | `env.get(...)` on the `Plist` that `main` passes reaches the inherited `dict.get`. That reads the base `dict` storage, which `Plist` never fills, because `__setitem__` writes to `_xml`. So the three optional preferences are always their defaults | a python-jss plist with `jss_url`, `jss_user`, `jss_pass` and `ssl_verify` = false gives `JSS_VERIFY_SSL` = True | read the plist's own entries; use the defaults only when a key is absent. Version 1.1.0 makes `Plist` a real `dict`, so its `get` works | high; not executed | `SpruceV0.SslVerifyOffIsLost` | `SpruceV0.IntendedMapEnv` |
| Spruce.py:147-153 | in `configure_jss`, `env.get(...)` and `"JSS_REPOS" in env` also consult the empty base storage, so `ssl_verify` is always True, `suppress_warnings` always False and `repos` always None | an AutoPkg plist with `JSS_URL`, `API_USERNAME`, `API_PASSWORD` and a `JSS_REPOS` array gives `repo_prefs` = None | pass the stored `JSS_REPOS` and the stored settings | high; not executed | `SpruceV0.ReposAreLost` | `SpruceV0.IntendedConfigureJss` |

`SpruceV0.PlistOptionsIgnored` states both findings for every input. The
composed preference path (`SpruceV0.PythonJssPreferencesReachConnection`) and
the cross-version comparison (`Versions.ConnectionsAcrossVersions`) use the
corrected definitions.

## Left out

- The `JSSConnection` class of spruce.py is left out. It is the class-level shared connection and its `setup`/`get`, and it exists only to reach the network library.
- Fetching from the server is left out. The lists from `j.Package()`, `j.Script()`, `Policy().retrieve_all()` and `ComputerConfiguration().retrieve_all()` are given as input sequences.
- XPath `findall` is not modelled. Each policy or configuration is the list of names it holds at each path. An empty `<name/>` element, whose `text` is None in Python, is not modelled.
- A deletion that raises on the server is not modelled, for example because the named object does not exist. The log records the requested deletions in order.
- Reading and writing plist files is not modelled: `read_file`, `write_plist`, `read_recipe`, `write_recipe` and `Plist(filename)`. These are Foundation calls. The `Plist` of spruce.py is a plain `dict` built from such a file, so its preferences are a `map` here.
- `__repr__` and `__str__` of `Plist` are left out. They only produce display text.
- `Plist.Get` and `Plist.Contains` carry no contract. They model the inherited `dict.get` and `in`, and `SpruceV0.PlistOptionsIgnored` states what they do on a `Plist`.
- Printing is left out: `output`, its sorted listing (case-insensitive in spruce.py), and the "Deleted" and "Skipping" messages. `Report` returns its sections in print order instead.
- `raw_input` and `open` are not modelled. The answers and the lines already read from the file are parameters.
- argparse, `main`'s dispatch between options, and the `StrictVersion` check of the python-jss version are left out. They are command-line plumbing.
- The commented-out code in spruce.py is not modelled: the old `remove` body and the verbose output in `build_computer_scoped_report`.
- Python 2 `str.upper` is modelled for ASCII only, as in the C locale. Any non-ASCII byte is left as it is.
- Iteration order over a `set` and over `Plist` keys is not modelled. `ReportClean` returns the order it used, and `Plist.Iter` returns a set.
- `SpruceV0.ConfigureJss` also covers a mapping whose `in` finds `JSS_REPOS` while `env[...]` does not; it raises KeyError there. A `Plist` never reaches this case.
- SpruceV0.LoadFile: its own contract bounds only the number of entries. Which entries it gives, and in what order, follows from `Versions.LoadersAgree` and the lemmas about `SpruceV1.LoadRemovalFile`.
- SpruceV0.Plist.SetItem: does not state the new `len(p)` as a clause of its own. The new `_xml` it states fixes the length, and `Plist.Len` is the size of `_xml`.
