/** `EssentialPackageInstaller`: the package tables of the setup menu and
    how each name is routed to an Asset Store import or a package-manager
    install. */
module EssentialPackageInstaller {
  import opened Wrappers
  import opened EditorHost
  import AssetImporter

  /** An Asset Store package: its file name in the cache and its folder. */
  datatype StorePackage = StorePackage(asset: string, folder: string)

  const AssetStorePackages: seq<(string, StorePackage)> := [
    ("vFolders2", StorePackage("vFolders 2.unitypackage", "kubacho lab/Editor ExtensionsUtilities")),
    ("vHierarchy2", StorePackage("vHierarchy 2.unitypackage", "kubacho lab/Editor ExtensionsUtilities")),
    ("vTabs2", StorePackage("vTabs 2.unitypackage", "kubacho lab/Editor ExtensionsUtilities")),
    ("Odin Inspector", StorePackage("Odin Inspector and Serializer.unitypackage", "Sirenix/Editor ExtensionsSystem")),
    ("Odin Validator", StorePackage("Odin Validator.unitypackage", "Sirenix/Editor ExtensionsUtilities")),
    ("Editor Console Pro", StorePackage("Editor Console Pro.unitypackage", "FlyingWorm/Editor ExtensionsSystem")),
    ("PrimeTween", StorePackage("PrimeTween High-Performance Animations and Sequences.unitypackage", "Kyrylo Kuzyk/Editor ExtensionsAnimation")),
    ("Build Uploader", StorePackage("Build Uploader.unitypackage", "JamesGamesNZ/Editor ExtensionsUtilities")),
    ("DOTween Pro", StorePackage("DOTween Pro.unitypackage", "Demigiant/Editor ExtensionsVisual Scripting"))
  ]

  const GitPackages: seq<(string, string)> := [
    ("Unity Utils", "git+https://github.com/adammyhre/Unity-Utils.git")
  ]

  const UnityPackages: seq<(string, string)> := [
    ("2D Animation", "com.unity.2d.animation@12.0.2"),
    ("Addressables", "com.unity.addressables@2.7.4"),
    ("Behavior", "com.unity.behavior@1.0.12"),
    ("Cinemachine", "com.unity.cinemachine@3.1.4"),
    ("Input System", "com.unity.inputsystem@1.15.0"),
    ("ProBuilder", "com.unity.probuilder@6.0.7"),
    ("Project Auditor", "com.unity.project-auditor@1.0.2"),
    ("Render Pipeline URP", "com.unity.render-pipelines.universal@17.2.0"),
    ("SharpZipLib", "com.unity.sharp-zip-lib@1.4.0"),
    ("Splines", "com.unity.splines@2.8.2"),
    ("Visual Effect Graph", "com.unity.visualeffectgraph@17.2.0")
  ]

  const Essentials: seq<string> := [
    "vFolders2", "vTabs2", "vHierarchy2", "Editor Console Pro",
    "Odin Inspector", "Odin Validator", "Cinemachine"
  ]

  predicate HasKey<V>(table: seq<(string, V)>, key: string) {
    exists i :: 0 <= i < |table| && table[i].0 == key
  }

  /** `TryGetValue`: the value of the first entry with that key. */
  function Lookup<V(==)>(table: seq<(string, V)>, key: string): (r: Option<V>)
    ensures r.None? <==> !HasKey(table, key)
    ensures r.Some? ==> exists i :: 0 <= i < |table| && table[i] == (key, r.value)
  {
    if table == [] then None
    else if table[0].0 == key then Some(table[0].1)
    else
      var r := Lookup(table[1..], key);
      if r.Some? then
        var i :| 0 <= i < |table[1..]| && table[1..][i] == (key, r.value);
        assert table[i + 1] == (key, r.value);
        r
      else
        assert forall i :: 1 <= i < |table| ==> table[i] == table[1..][i - 1];
        r
  }

  /** The entry found is the first one with the key. */
  lemma {:induction false} LookupFirst<V>(table: seq<(string, V)>, key: string, i: int)
    requires 0 <= i < |table| && table[i].0 == key
    requires forall j :: 0 <= j < i ==> table[j].0 != key
    ensures Lookup(table, key) == Some(table[i].1)
  {
    if i > 0 {
      LookupFirst(table[1..], key, i - 1);
    }
  }

  /** Every essential is known to the Asset Store or the Unity table. */
  lemma EssentialsAreKnown()
    ensures forall e :: e in Essentials ==> HasKey(AssetStorePackages, e) || HasKey(UnityPackages, e)
  {
    assert AssetStorePackages[0].0 == Essentials[0];
    assert AssetStorePackages[2].0 == Essentials[1];
    assert AssetStorePackages[1].0 == Essentials[2];
    assert AssetStorePackages[5].0 == Essentials[3];
    assert AssetStorePackages[3].0 == Essentials[4];
    assert AssetStorePackages[4].0 == Essentials[5];
    assert UnityPackages[3].0 == Essentials[6];
  }

  /** `InstallUnityPackage(name)`: one install request, of the mapped id;
      an unknown name is logged and requests nothing. */
  function InstallUnityPackage(name: string): (r: seq<Effect>)
    ensures HasKey(UnityPackages, name) ==>
      exists i :: 0 <= i < |UnityPackages| && UnityPackages[i].0 == name && r == [InstallPackages([UnityPackages[i].1])]
    ensures !HasKey(UnityPackages, name) ==> |r| == 1 && r[0].Error?
  {
    match Lookup(UnityPackages, name)
    case None => [Error("Unknown Unity package: " + name)]
    case Some(id) => [InstallPackages([id])]
  }

  /** `InstallGitPackage(name)`: the same for the git table. */
  function InstallGitPackage(name: string): (r: seq<Effect>)
    ensures HasKey(GitPackages, name) ==>
      exists i :: 0 <= i < |GitPackages| && GitPackages[i].0 == name && r == [InstallPackages([GitPackages[i].1])]
    ensures !HasKey(GitPackages, name) ==> |r| == 1 && r[0].Error?
  {
    match Lookup(GitPackages, name)
    case None => [Error("Unknown Git package: " + name)]
    case Some(url) => [InstallPackages([url])]
  }

  /** `DownloadAndImportAssetStorePackage(name)`: a cached package is
      imported, and an import failure becomes a dialog; an uncached one is
      not imported, and the download dialog and the Asset Store window
      open instead. */
  function DownloadAndImportAssetStorePackage(h: Host, name: string): (r: seq<Effect>)
    ensures !HasKey(AssetStorePackages, name) ==> r == [Error("Unknown Asset Store package: " + name)]
  {
    match Lookup(AssetStorePackages, name)
    case None => [Error("Unknown Asset Store package: " + name)]
    case Some(p) =>
      var (exists_, checkLog) := AssetImporter.CheckAssetExists(h, p.asset, p.folder);
      if exists_ then
        var attempt := AssetImporter.ImportAsset(h, p.asset, p.folder);
        checkLog + attempt.log + (if attempt.thrown.Some? then [Dialog(name + " Import Error")] else [])
      else
        checkLog + [Dialog(name + " Download Required"), ExecuteMenuItem("Window/Asset Store")]
  }

  /** The effects of a known Asset Store package: with the cache unchanged
      between the check and the import, a package found by the check is
      imported from the path the check found, and otherwise the store
      window opens. No import error dialog can arise. */
  lemma DownloadAndImportOutcome(h: Host, name: string)
    requires HasKey(AssetStorePackages, name)
    ensures var p := Lookup(AssetStorePackages, name).value;
      var found := AssetImporter.FindAsset(h, p.asset, p.folder);
      DownloadAndImportAssetStorePackage(h, name) ==
        if found.path.Some? then found.log + found.log + [ImportPackage(found.path.value)]
        else found.log + [Dialog(name + " Download Required"), ExecuteMenuItem("Window/Asset Store")]
  {
  }

  /** Which operation a name goes to: the Asset Store table first, then
      the Unity table; any other name, git ones included, goes nowhere. */
  function Route(h: Host, name: string): seq<Effect> {
    if HasKey(AssetStorePackages, name) then DownloadAndImportAssetStorePackage(h, name)
    else if HasKey(UnityPackages, name) then InstallUnityPackage(name)
    else []
  }

  function RouteAll(h: Host, names: seq<string>): seq<Effect> {
    if names == [] then [] else RouteAll(h, names[..|names| - 1]) + Route(h, names[|names| - 1])
  }

  /** An install request names an id of the Unity table. */
  predicate RequestsUnityId(e: Effect) {
    e.InstallPackages? ==> exists i :: 0 <= i < |UnityPackages| && e.ids == [UnityPackages[i].1]
  }

  /** Every install request a routed list makes names an id of the Unity
      table: git packages are never installed this way. */
  lemma {:induction false} RouteAllInstallsOnlyUnityIds(h: Host, names: seq<string>)
    ensures forall e :: e in RouteAll(h, names) ==> RequestsUnityId(e)
  {
    if names != [] {
      RouteAllInstallsOnlyUnityIds(h, names[..|names| - 1]);
      RouteInstallsOnlyUnityIds(h, names[|names| - 1]);
    }
  }

  lemma RouteInstallsOnlyUnityIds(h: Host, name: string)
    ensures forall e :: e in Route(h, name) ==> RequestsUnityId(e)
  {
    if HasKey(AssetStorePackages, name) {
      var p := Lookup(AssetStorePackages, name).value;
      var found := AssetImporter.FindAsset(h, p.asset, p.folder);
      FindAssetLogsOnlyMessages(h, p.asset, p.folder);
      DownloadAndImportOutcome(h, name);
      var tail := if found.path.Some? then [ImportPackage(found.path.value)]
        else [Dialog(name + " Download Required"), ExecuteMenuItem("Window/Asset Store")];
      var logs := if found.path.Some? then found.log + found.log else found.log;
      assert Route(h, name) == logs + tail;
      NoInstallRequests(logs, tail);
    }
  }

  /** Messages and a tail without install requests request nothing. */
  lemma NoInstallRequests(logs: seq<Effect>, tail: seq<Effect>)
    requires forall e :: e in logs ==> e.Warning? || e.Error?
    requires forall e :: e in tail ==> !e.InstallPackages?
    ensures forall e :: e in logs + tail ==> RequestsUnityId(e)
  {
  }

  /** `FindAsset` only logs. */
  lemma FindAssetLogsOnlyMessages(h: Host, asset: string, folder: string)
    ensures forall e :: e in AssetImporter.FindAsset(h, asset, folder).log ==> e.Warning? || e.Error?
  {
  }

  /** `InstallMultiplePackages(names)`. */
  method InstallMultiplePackages(h: Host, names: seq<string>) returns (effects: seq<Effect>)
    ensures effects == RouteAll(h, names)
  {
    effects := [];
    var i := 0;
    while i < |names|
      invariant 0 <= i <= |names|
      invariant effects == RouteAll(h, names[..i])
    {
      assert names[..i + 1][..i] == names[..i];
      var name := names[i];
      if HasKey(AssetStorePackages, name) {
        effects := effects + DownloadAndImportAssetStorePackage(h, name);
      } else if HasKey(UnityPackages, name) {
        effects := effects + InstallUnityPackage(name);
      }
      i := i + 1;
    }
    assert names[..i] == names;
  }

  /** `InstallEssentials`: the confirmation dialog, then, only when it is
      confirmed, the seven essentials routed in order. */
  method InstallEssentials(h: Host, confirmed: bool) returns (effects: seq<Effect>)
    ensures confirmed ==> effects == [Dialog("Install Essentials")] + RouteAll(h, Essentials)
    ensures !confirmed ==> effects == [Dialog("Install Essentials")]
  {
    effects := [Dialog("Install Essentials")];
    if confirmed {
      var installed := InstallMultiplePackages(h, Essentials);
      effects := effects + installed;
    }
  }

  /** `ImportBuildUploader`: its SharpZipLib dependency is requested first. */
  function ImportBuildUploader(h: Host): (r: seq<Effect>)
    ensures |r| > 0 && r[0] == InstallPackages(["com.unity.sharp-zip-lib@1.4.0"])
    ensures r[1..] == DownloadAndImportAssetStorePackage(h, "Build Uploader")
  {
    LookupFirst(UnityPackages, "SharpZipLib", 8);
    InstallUnityPackage("SharpZipLib") + DownloadAndImportAssetStorePackage(h, "Build Uploader")
  }

  /** Whether the check found an Asset Store entry in the cache. */
  predicate Cached(h: Host, p: StorePackage) {
    AssetImporter.CheckAssetExists(h, p.asset, p.folder).0
  }

  /** The outcome of checking one Asset Store entry. */
  datatype Check = Check(key: string, found: bool, log: seq<Effect>)

  function Checks(h: Host, table: seq<(string, StorePackage)>): (r: seq<Check>)
    ensures |r| == |table|
  {
    seq(|table|, i requires 0 <= i < |table| =>
      var c := AssetImporter.CheckAssetExists(h, table[i].1.asset, table[i].1.folder);
      Check(table[i].0, c.0, c.1))
  }

  /** Every check found its package. */
  predicate AllFound(checks: seq<Check>) {
    checks == [] || (AllFound(checks[..|checks| - 1]) && checks[|checks| - 1].found)
  }

  lemma {:induction false} AllFoundIff(checks: seq<Check>)
    ensures AllFound(checks) <==> forall i :: 0 <= i < |checks| ==> checks[i].found
  {
    if checks != [] {
      AllFoundIff(checks[..|checks| - 1]);
    }
  }

  /** `allValid` holds exactly when every Asset Store entry is cached. */
  lemma AllFoundIsAllCached(h: Host, table: seq<(string, StorePackage)>)
    ensures AllFound(Checks(h, table)) <==> forall i :: 0 <= i < |table| ==> Cached(h, table[i].1)
  {
    var checks := Checks(h, table);
    AllFoundIff(checks);
    forall i | 0 <= i < |table|
      ensures checks[i].found == Cached(h, table[i].1)
    {
    }
  }

  function StoreLines(checks: seq<Check>): string {
    if checks == [] then []
    else
      var c := checks[|checks| - 1];
      StoreLines(checks[..|checks| - 1]) + "  " + (if c.found then "✓ FOUND" else "✗ MISSING") + " - " + c.key + "\n"
  }

  function StoreLog(checks: seq<Check>): seq<Effect> {
    if checks == [] then [] else StoreLog(checks[..|checks| - 1]) + checks[|checks| - 1].log
  }

  function AvailableLines<V>(table: seq<(string, V)>): string {
    if table == [] then [] else AvailableLines(table[..|table| - 1]) + "  ✓ AVAILABLE - " + table[|table| - 1].0 + "\n"
  }

  /** The validation report: every Asset Store entry with its status, then
      the git and Unity entries as available, then the verdict. */
  function Report(h: Host, allValid: bool): string {
    "Package Validation Report:\n\n" + "Asset Store Packages:\n" + StoreLines(Checks(h, AssetStorePackages)) +
    "\nGit Packages:\n" + AvailableLines(GitPackages) +
    "\nUnity Packages:\n" + AvailableLines(UnityPackages) +
    (if allValid then "\nAll packages are available!" else "\nSome Asset Store packages are missing from cache.")
  }

  /** `ValidateAllPackages`: everything is reported valid exactly when every
      Asset Store entry is in the cache. */
  method ValidateAllPackages(h: Host) returns (report: string, allValid: bool, effects: seq<Effect>)
    ensures allValid <==> forall i :: 0 <= i < |AssetStorePackages| ==> Cached(h, AssetStorePackages[i].1)
    ensures report == Report(h, allValid)
    ensures effects == StoreLog(Checks(h, AssetStorePackages)) + [Dialog("Package Validation")]
  {
    report := "Package Validation Report:\n\n";
    report := report + "Asset Store Packages:\n";
    var storeLines, storeLog;
    storeLines, allValid, storeLog := StoreSection(h, AssetStorePackages);
    AllFoundIsAllCached(h, AssetStorePackages);
    report := report + storeLines;
    effects := storeLog;
    report := report + "\nGit Packages:\n";
    var gitLines := AvailableSection(GitPackages);
    report := report + gitLines;
    report := report + "\nUnity Packages:\n";
    var unityLines := AvailableSection(UnityPackages);
    report := report + unityLines;
    if allValid {
      report := report + "\nAll packages are available!";
    } else {
      report := report + "\nSome Asset Store packages are missing from cache.";
    }
    effects := effects + [Dialog("Package Validation")];
  }

  /** The loop over the Asset Store table. */
  method StoreSection(h: Host, table: seq<(string, StorePackage)>) returns (lines: string, allValid: bool, effects: seq<Effect>)
    ensures lines == StoreLines(Checks(h, table))
    ensures effects == StoreLog(Checks(h, table))
    ensures allValid <==> AllFound(Checks(h, table))
  {
    ghost var checks := Checks(h, table);
    lines, allValid, effects := [], true, [];
    var i := 0;
    while i < |table|
      invariant 0 <= i <= |table|
      invariant lines == StoreLines(checks[..i])
      invariant effects == StoreLog(checks[..i])
      invariant allValid <==> AllFound(checks[..i])
    {
      StoreStep(checks, i);
      var key := table[i].0;
      var exists_, log := CheckEntry(h, table, i);
      var status := if exists_ then "✓ FOUND" else "✗ MISSING";
      lines := lines + "  " + status + " - " + key + "\n";
      effects := effects + log;
      if !exists_ {
        allValid := false;
      }
      i := i + 1;
    }
    assert checks[..i] == checks;
  }

  /** One more check extends the lines, the log and the verdict by that
      check alone. */
  lemma StoreStep(checks: seq<Check>, i: int)
    requires 0 <= i < |checks|
    ensures StoreLines(checks[..i + 1]) ==
      StoreLines(checks[..i]) + "  " + (if checks[i].found then "✓ FOUND" else "✗ MISSING") + " - " + checks[i].key + "\n"
    ensures StoreLog(checks[..i + 1]) == StoreLog(checks[..i]) + checks[i].log
    ensures AllFound(checks[..i + 1]) <==> AllFound(checks[..i]) && checks[i].found
  {
    assert checks[..i + 1][..i] == checks[..i];
  }

  /** The body of the loop over the Asset Store table: one check. */
  method CheckEntry(h: Host, table: seq<(string, StorePackage)>, i: int) returns (found: bool, log: seq<Effect>)
    requires 0 <= i < |table|
    ensures Checks(h, table)[i] == Check(table[i].0, found, log)
  {
    var p := table[i].1;
    var c := AssetImporter.CheckAssetExists(h, p.asset, p.folder);
    found, log := c.0, c.1;
  }

  /** The loops over the git and Unity tables: every entry is available. */
  method AvailableSection(table: seq<(string, string)>) returns (lines: string)
    ensures lines == AvailableLines(table)
  {
    lines := [];
    var i := 0;
    while i < |table|
      invariant 0 <= i <= |table|
      invariant lines == AvailableLines(table[..i])
    {
      assert table[..i + 1][..i] == table[..i];
      lines := lines + "  ✓ AVAILABLE - " + table[i].0 + "\n";
      i := i + 1;
    }
    assert table[..i] == table;
  }
}
