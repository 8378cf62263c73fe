/** What the editor tooling sees of the editor and the machine it runs on,
    and the effects it asks of them. */
module EditorHost {
  import opened Wrappers

  /** `Application.platform`, as far as the importer distinguishes it. */
  datatype Platform = OSXEditor | LinuxEditor | OtherEditor

  /** The special folders, the `AssetStoreCacheRootPath` editor preference,
      and the file system: its files in enumeration order and its
      directories. */
  datatype Host = Host(platform: Platform, home: string, appData: string,
                       cacheRootPref: Option<string>, files: seq<string>, directories: set<string>)

  /** A log line, a dialog (by title), or a request to the editor. */
  datatype Effect =
    | Warning(message: string)
    | Error(message: string)
    | Dialog(title: string)
    | ImportPackage(path: string)
    | InstallPackages(ids: seq<string>)
    | ExecuteMenuItem(item: string)

  /** The effects of a call, and the message of the exception it threw, if any. */
  datatype Attempt = Attempt(log: seq<Effect>, thrown: Option<string>)
}

/** `AssetImporter` of the project-setup tools: finds a package in the
    Asset Store download cache and imports it. */
module AssetImporter {
  import opened Wrappers
  import opened Text
  import opened Paths
  import opened EditorHost

  const PackageSuffix := ".unitypackage"

  /** The package file name: `asset`, with the suffix appended when it is
      missing. */
  function PackageFileName(asset: string): (r: string)
    ensures EndsWith(r, PackageSuffix)
    ensures EndsWith(asset, PackageSuffix) ==> r == asset
    ensures !EndsWith(asset, PackageSuffix) ==> r == asset + PackageSuffix
  {
    if EndsWith(asset, PackageSuffix) then asset
    else
      var r := asset + PackageSuffix;
      assert r[|r| - |PackageSuffix|..] == PackageSuffix;
      r
  }

  lemma PackageFileNameIdempotent(asset: string)
    ensures PackageFileName(PackageFileName(asset)) == PackageFileName(asset)
  {
  }

  /** `GetAssetStorePath`'s choice of cache directory. */
  function AssetStorePath(h: Host): string
  {
    match h.platform
    case OSXEditor => CombineAll([h.home, "Library", "Unity", "Asset Store-5.x"])
    case LinuxEditor => CombineAll([h.home, ".local", "share", "unity3d", "Asset Store"])
    case OtherEditor =>
      var defaultPath := Combine(h.appData, "Unity");
      Combine(h.cacheRootPref.GetOr(defaultPath), "Asset Store-5.x")
  }

  /** With a plain home folder, the macOS cache is a fixed path below it. */
  lemma AssetStorePathOnMac(h: Host)
    requires h.platform == OSXEditor && HomeIsPlain(h)
    ensures AssetStorePath(h) == h.home + "/Library/Unity/Asset Store-5.x"
  {
    MacPath(h.home);
  }

  lemma MacPath(home: string)
    requires home != [] && home[|home| - 1] != Sep
    ensures CombineAll([home, "Library", "Unity", "Asset Store-5.x"]) == home + "/Library/Unity/Asset Store-5.x"
  {
    CombineAllFour(home, "Library", "Unity", "Asset Store-5.x");
    var p1 := Combine(home, "Library");
    assert p1 == home + "/Library" by {
      JoinFirst(home, "Library");
      assert [Sep] + "Library" == "/Library";
    }
    var p2 := Combine(p1, "Unity");
    assert p2 == home + "/Library/Unity" by {
      JoinAfter(home, "/Library", "Unity");
      assert "/Library" + [Sep] + "Unity" == "/Library/Unity";
    }
    assert Combine(p2, "Asset Store-5.x") == home + "/Library/Unity/Asset Store-5.x" by {
      JoinAfter(home, "/Library/Unity", "Asset Store-5.x");
      assert "/Library/Unity" + [Sep] + "Asset Store-5.x" == "/Library/Unity/Asset Store-5.x";
    }
  }

  /** With a plain home folder, the Linux cache is a fixed path below it. */
  lemma AssetStorePathOnLinux(h: Host)
    requires h.platform == LinuxEditor && HomeIsPlain(h)
    ensures AssetStorePath(h) == h.home + "/.local/share/unity3d/Asset Store"
  {
    LinuxPath(h.home);
  }

  lemma LinuxPath(home: string)
    requires home != [] && home[|home| - 1] != Sep
    ensures CombineAll([home, ".local", "share", "unity3d", "Asset Store"]) == home + "/.local/share/unity3d/Asset Store"
  {
    CombineAllFive(home, ".local", "share", "unity3d", "Asset Store");
    var p1 := Combine(home, ".local");
    assert p1 == home + "/.local" by {
      JoinFirst(home, ".local");
      assert [Sep] + ".local" == "/.local";
    }
    var p2 := Combine(p1, "share");
    assert p2 == home + "/.local/share" by {
      JoinAfter(home, "/.local", "share");
      assert "/.local" + [Sep] + "share" == "/.local/share";
    }
    var p3 := Combine(p2, "unity3d");
    assert p3 == home + "/.local/share/unity3d" by {
      JoinAfter(home, "/.local/share", "unity3d");
      assert "/.local/share" + [Sep] + "unity3d" == "/.local/share/unity3d";
    }
    assert Combine(p3, "Asset Store") == home + "/.local/share/unity3d/Asset Store" by {
      JoinAfter(home, "/.local/share/unity3d", "Asset Store");
      assert "/.local/share/unity3d" + [Sep] + "Asset Store" == "/.local/share/unity3d/Asset Store";
    }
  }

  /** Elsewhere, without a preferred root, the cache is below the
      application-data folder's Unity directory. */
  lemma AssetStorePathByDefault(h: Host)
    requires h.platform == OtherEditor && h.cacheRootPref.None?
    requires h.appData != [] && h.appData[|h.appData| - 1] != Sep
    ensures AssetStorePath(h) == h.appData + "/Unity/Asset Store-5.x"
  {
    JoinFirst(h.appData, "Unity");
    assert [Sep] + "Unity" == "/Unity";
    JoinAfter(h.appData, "/Unity", "Asset Store-5.x");
    assert "/Unity" + [Sep] + "Asset Store-5.x" == "/Unity/Asset Store-5.x";
  }

  /** Elsewhere, with a preferred root, the cache is directly below it. */
  lemma AssetStorePathPreferred(h: Host)
    requires h.platform == OtherEditor && h.cacheRootPref.Some?
    requires h.cacheRootPref.value != [] && h.cacheRootPref.value[|h.cacheRootPref.value| - 1] != Sep
    ensures AssetStorePath(h) == h.cacheRootPref.value + "/Asset Store-5.x"
  {
    JoinFirst(h.cacheRootPref.value, "Asset Store-5.x");
    assert [Sep] + "Asset Store-5.x" == "/Asset Store-5.x";
  }

  /** `Combine` of a folder without a trailing separator and a relative name. */
  lemma JoinFirst(a: string, b: string)
    requires a != [] && a[|a| - 1] != Sep && b != [] && b[0] != Sep
    ensures Combine(a, b) == a + ([Sep] + b)
  {
    assert a + [Sep] + b == a + ([Sep] + b);
  }

  /** The same with the folder written as a base and a literal tail. */
  lemma JoinAfter(a: string, m: string, b: string)
    requires m != [] && m[|m| - 1] != Sep && b != [] && b[0] != Sep
    ensures Combine(a + m, b) == a + (m + [Sep] + b)
  {
    assert (a + m)[|a + m| - 1] == m[|m| - 1];
    assert (a + m) + [Sep] + b == a + (m + [Sep] + b);
  }

  lemma CombineAllFour(a: string, b: string, c: string, d: string)
    ensures CombineAll([a, b, c, d]) == Combine(Combine(Combine(a, b), c), d)
  {
    CombineAllSnoc([], a);
    assert [] + [a] == [a];
    CombineAllSnoc([a], b);
    assert [a] + [b] == [a, b];
    CombineAllSnoc([a, b], c);
    assert [a, b] + [c] == [a, b, c];
    CombineAllSnoc([a, b, c], d);
    assert [a, b, c] + [d] == [a, b, c, d];
  }

  lemma CombineAllFive(a: string, b: string, c: string, d: string, e: string)
    ensures CombineAll([a, b, c, d, e]) == Combine(Combine(Combine(Combine(a, b), c), d), e)
  {
    CombineAllFour(a, b, c, d);
    CombineAllSnoc([a, b, c, d], e);
    assert [a, b, c, d] + [e] == [a, b, c, d, e];
  }

  lemma CombineAllSnoc(parts: seq<string>, p: string)
    ensures CombineAll(parts + [p]) == Combine(CombineAll(parts), p)
  {
    assert (parts + [p])[..|parts|] == parts;
  }

  /** A non-empty home folder without a trailing separator. */
  predicate HomeIsPlain(h: Host) {
    h.home != [] && h.home[|h.home| - 1] != Sep
  }

  /** `GetAssetStorePath`: the cache directory, with a warning, and no
      more, when it does not exist. */
  function GetAssetStorePath(h: Host): (r: (string, seq<Effect>))
    ensures r.0 == AssetStorePath(h)
    ensures r.1 == [] <==> AssetStorePath(h) in h.directories
  {
    var basePath := AssetStorePath(h);
    if basePath !in h.directories
    then (basePath, [Warning("Asset Store directory does not exist: " + basePath)])
    else (basePath, [])
  }

  /** The candidate tried first: the cache directory, each '/'-separated
      segment of the folder, and the file name, combined. */
  function ExactPath(basePath: string, folder: string, fileName: string): string {
    CombineAll([basePath] + Split(folder, '/') + [fileName])
  }

  /** The file lies somewhere below `dir`. */
  predicate IsBelow(f: string, dir: string) {
    |f| > |dir| + 1 && f[..|dir| + 1] == dir + [Sep]
  }

  /** The files below `dir` called `fileName`, in enumeration order. */
  function Matches(files: seq<string>, dir: string, fileName: string): (r: seq<string>)
    ensures forall f :: f in r <==> f in files && IsBelow(f, dir) && AfterLast(f, Sep) == fileName
  {
    if files == [] then []
    else
      var f := files[|files| - 1];
      var rest := Matches(files[..|files| - 1], dir, fileName);
      assert files == files[..|files| - 1] + [f];
      if IsBelow(f, dir) && AfterLast(f, Sep) == fileName then rest + [f] else rest
  }

  /** `Directory.GetFiles(dir, fileName, SearchOption.AllDirectories)`: the
      matches, or `None` for the exception a missing directory raises. */
  function SearchAllDirectories(h: Host, dir: string, fileName: string): Option<seq<string>> {
    if dir in h.directories then Some(Matches(h.files, dir, fileName)) else None
  }

  /** The result of `FindAsset`: the path it returns, and what it logged. */
  datatype Lookup = Lookup(path: Option<string>, log: seq<Effect>)

  /** `FindAsset(asset, folder)`: the exact candidate when that file exists,
      or else the first file of that name anywhere below the cache
      directory; a failed search is logged and yields `None`. */
  function FindAsset(h: Host, asset: string, folder: string): (r: Lookup)
    ensures var exact := ExactPath(AssetStorePath(h), folder, PackageFileName(asset));
      exact in h.files ==> r.path == Some(exact)
    ensures var exact := ExactPath(AssetStorePath(h), folder, PackageFileName(asset));
      exact !in h.files ==>
        var found := SearchAllDirectories(h, AssetStorePath(h), PackageFileName(asset));
        r.path == if found.Some? && found.value != [] then Some(found.value[0]) else None
    ensures r.path.Some? ==> r.path.value in h.files
    ensures r.path.Some? ==> EndsWith(r.path.value, PackageFileName(asset))
  {
    var (basePath, warned) := GetAssetStorePath(h);
    var fileName := PackageFileName(asset);
    var exact := ExactPath(basePath, folder, fileName);
    if exact in h.files then
      CombineAllEndsWith([basePath] + Split(folder, '/') + [fileName]);
      Lookup(Some(exact), warned)
    else
      match SearchAllDirectories(h, basePath, fileName)
      case None => Lookup(None, warned + [Error("Error searching for asset: " + basePath)])
      case Some(found) =>
        if found != [] then
          assert found[0] in found;
          AfterLastEndsWith(found[0], Sep);
          Lookup(Some(found[0]), warned)
        else Lookup(None, warned)
  }

  /** `FindAsset` finds nothing exactly when the exact candidate is missing
      and no file of that name lies below an existing cache directory. */
  lemma FindAssetNone(h: Host, asset: string, folder: string)
    ensures FindAsset(h, asset, folder).path.None? <==>
      ExactPath(AssetStorePath(h), folder, PackageFileName(asset)) !in h.files &&
      (AssetStorePath(h) !in h.directories ||
       forall f :: f in h.files ==> !(IsBelow(f, AssetStorePath(h)) && AfterLast(f, Sep) == PackageFileName(asset)))
  {
    var m := Matches(h.files, AssetStorePath(h), PackageFileName(asset));
    if m != [] {
      assert m[0] in m;
    }
  }

  /** `CheckAssetExists`: whether `FindAsset` found the package. */
  function CheckAssetExists(h: Host, asset: string, folder: string): (r: (bool, seq<Effect>))
    ensures r.0 <==> FindAsset(h, asset, folder).path.Some?
    ensures r.1 == FindAsset(h, asset, folder).log
  {
    var lookup := FindAsset(h, asset, folder);
    (lookup.path.Some?, lookup.log)
  }

  /** `ImportAsset`: imports the package `FindAsset` found, without the
      import dialog; throws `FileNotFoundException` when it found none. */
  function ImportAsset(h: Host, asset: string, folder: string): (r: Attempt)
    ensures r.thrown.Some? <==> FindAsset(h, asset, folder).path.None?
    ensures r.thrown.None? ==>
      r.log == FindAsset(h, asset, folder).log + [ImportPackage(FindAsset(h, asset, folder).path.value)]
    ensures r.thrown.Some? ==> r.log == FindAsset(h, asset, folder).log
  {
    var lookup := FindAsset(h, asset, folder);
    if lookup.path.None?
    then Attempt(lookup.log, Some("The asset package '" + asset + "' was not found in the Asset Store cache."))
    else Attempt(lookup.log + [ImportPackage(lookup.path.value)], None)
  }

  /** A combination ends with its last part, when that is not empty. */
  lemma {:induction false} CombineAllEndsWith(parts: seq<string>)
    requires parts != [] && parts[|parts| - 1] != []
    ensures EndsWith(CombineAll(parts), parts[|parts| - 1])
  {
    var a, b := CombineAll(parts[..|parts| - 1]), parts[|parts| - 1];
    var r := Combine(a, b);
    assert r[|r| - |b|..] == b;
  }

  /** The text after the last separator is a suffix. */
  lemma {:induction false} AfterLastEndsWith(s: string, c: char)
    ensures EndsWith(s, AfterLast(s, c))
  {
    if s != [] && s[|s| - 1] != c {
      var init := s[..|s| - 1];
      AfterLastEndsWith(init, c);
      var t := AfterLast(init, c);
      assert s == init + [s[|s| - 1]];
      assert s[|s| - |t| - 1..] == init[|init| - |t|..] + [s[|s| - 1]];
    }
  }
}

/** The earlier `AssetImporter` of the editor tools: imports a package from
    one exact path in the cache. */
module EditorAssetImporter {
  import opened Wrappers
  import opened Text
  import opened Paths
  import opened EditorHost
  import AssetImporter

  /** `Environment.OSVersion.Platform`. */
  datatype OsPlatform = MacOSX | Unix | OtherOs

  /** The cache directory: macOS and Unix share one under the home folder. */
  function BasePath(os: OsPlatform, h: Host): (r: string)
    ensures |r| >= |"Asset Store-5.x"| && r[|r| - |"Asset Store-5.x"|..] == "Asset Store-5.x"
  {
    if os == MacOSX || os == Unix then Combine(h.home, "Library/Unity/Asset Store-5.x")
    else
      var defaultPath := Combine(h.appData, "Unity");
      Combine(h.cacheRootPref.GetOr(defaultPath), "Asset Store-5.x")
  }

  /** With a plain home folder, macOS and Unix both use the cache the newer
      importer uses on macOS, so on Linux the two copies disagree. */
  lemma BasePathUnderHome(os: OsPlatform, h: Host)
    requires (os == MacOSX || os == Unix) && AssetImporter.HomeIsPlain(h)
    ensures BasePath(os, h) == h.home + "/Library/Unity/Asset Store-5.x"
    ensures BasePath(os, h) == AssetImporter.AssetStorePath(h.(platform := OSXEditor))
    ensures BasePath(os, h) != AssetImporter.AssetStorePath(h.(platform := LinuxEditor))
  {
    AssetImporter.JoinFirst(h.home, "Library/Unity/Asset Store-5.x");
    assert [Sep] + "Library/Unity/Asset Store-5.x" == "/Library/Unity/Asset Store-5.x";
    AssetImporter.MacPath(h.home);
    AssetImporter.LinuxPath(h.home);
    var n := |h.home|;
    assert (h.home + "/Library/Unity/Asset Store-5.x")[n + 1] == 'L';
    assert (h.home + "/.local/share/unity3d/Asset Store")[n + 1] == '.';
  }

  /** On every other platform the two copies choose the same cache. */
  lemma BasePathElsewhere(h: Host)
    ensures BasePath(OtherOs, h) == AssetImporter.AssetStorePath(h.(platform := OtherEditor))
  {
  }

  /** The one path tried: cache directory / folder / file name. */
  function FullPath(os: OsPlatform, h: Host, asset: string, folder: string): string {
    CombineAll([BasePath(os, h), folder, AssetImporter.PackageFileName(asset)])
  }

  /** `ImportAsset`: imports the package at the full path, and throws
      `FileNotFoundException` exactly when no file is there; there is no
      search. */
  function ImportAsset(os: OsPlatform, h: Host, asset: string, folder: string): (r: Attempt)
    ensures r.thrown.Some? <==> FullPath(os, h, asset, folder) !in h.files
    ensures r.thrown.None? ==> r.log == [ImportPackage(FullPath(os, h, asset, folder))]
    ensures r.thrown.Some? ==> r.log == []
    ensures r.thrown.None? ==> EndsWith(FullPath(os, h, asset, folder), AssetImporter.PackageFileName(asset))
  {
    var basePath := BasePath(os, h);
    var fileName := AssetImporter.PackageFileName(asset);
    var fullPath := CombineAll([basePath, folder, fileName]);
    if fullPath !in h.files
    then Attempt([], Some("The asset package was not found at the path: " + fullPath))
    else
      AssetImporter.CombineAllEndsWith([basePath, folder, fileName]);
      Attempt([ImportPackage(fullPath)], None)
  }
}
