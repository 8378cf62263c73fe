/** `FolderManager`: creates the project's folder hierarchies, and moves or
    deletes top-level asset folders. */
module FolderManager {
  import opened Text
  import opened Paths

  /** The proper ancestors of a path: its prefixes that end just before a
      separator. */
  function Ancestors(p: string): set<string> {
    set i | 0 < i < |p| && p[i] == Sep :: p[..i]
  }

  /** What `Directory.CreateDirectory(p)` leaves existing: `p` and every
      directory above it. */
  function Dir(p: string): set<string> {
    {p} + Ancestors(p)
  }

  /** A directory set in which every directory's ancestors exist too. */
  ghost predicate Closed(dirs: set<string>) {
    forall p :: p in dirs ==> Ancestors(p) <= dirs
  }

  lemma AncestorsOfAncestor(p: string, i: int)
    requires 0 < i < |p| && p[i] == Sep
    ensures Ancestors(p[..i]) <= Ancestors(p)
  {
    forall a | a in Ancestors(p[..i])
      ensures a in Ancestors(p)
    {
      var j :| 0 < j < i && p[..i][j] == Sep && a == p[..i][..j];
      assert a == p[..j];
    }
  }

  lemma DirClosed(p: string)
    ensures Closed(Dir(p))
  {
    forall a | a in Dir(p)
      ensures Ancestors(a) <= Dir(p)
    {
      if a != p {
        var i :| 0 < i < |p| && p[i] == Sep && a == p[..i];
        AncestorsOfAncestor(p, i);
      }
    }
  }

  lemma UnionClosed(a: set<string>, b: set<string>)
    requires Closed(a) && Closed(b)
    ensures Closed(a + b)
  {
  }

  /** The path the loop of `CreateSubFolders` reaches after the given
      segments. */
  function Walk(root: string, segs: seq<string>): string {
    if segs == [] then root else Combine(Walk(root, segs[..|segs| - 1]), segs[|segs| - 1])
  }

  /** Every path that loop visits, in order. */
  function Visited(root: string, segs: seq<string>): (r: seq<string>)
    ensures |r| == |segs|
  {
    if segs == [] then [] else Visited(root, segs[..|segs| - 1]) + [Walk(root, segs)]
  }

  /** One more segment: the walk combines it onto the path reached so far,
      and the directories gain those of the new path. */
  lemma WalkStep(root: string, segs: seq<string>, j: int)
    requires 0 <= j < |segs|
    ensures Walk(root, segs[..j + 1]) == Combine(Walk(root, segs[..j]), segs[j])
    ensures DirsOf(Visited(root, segs[..j + 1])) ==
            DirsOf(Visited(root, segs[..j])) + Dir(Combine(Walk(root, segs[..j]), segs[j]))
  {
    assert segs[..j + 1][..j] == segs[..j];
  }

  /** The directories that exist once each of the paths was created. */
  function DirsOf(ps: seq<string>): set<string> {
    if ps == [] then {} else DirsOf(ps[..|ps| - 1]) + Dir(ps[|ps| - 1])
  }

  lemma {:induction false} DirsOfClosed(ps: seq<string>)
    ensures Closed(DirsOf(ps))
  {
    if ps != [] {
      DirsOfClosed(ps[..|ps| - 1]);
      DirClosed(ps[|ps| - 1]);
      UnionClosed(DirsOf(ps[..|ps| - 1]), Dir(ps[|ps| - 1]));
    }
  }

  lemma {:induction false} DirsOfContains(ps: seq<string>, k: int)
    requires 0 <= k < |ps|
    ensures ps[k] in DirsOf(ps)
  {
    if k < |ps| - 1 {
      DirsOfContains(ps[..|ps| - 1], k);
    }
  }

  lemma {:induction false} VisitedIsWalk(root: string, segs: seq<string>, k: int)
    requires 0 <= k < |segs|
    ensures Visited(root, segs)[k] == Walk(root, segs[..k + 1])
  {
    if k < |segs| - 1 {
      VisitedIsWalk(root, segs[..|segs| - 1], k);
      assert segs[..|segs| - 1][..k + 1] == segs[..k + 1];
    } else {
      assert segs[..k + 1] == segs;
    }
  }

  /** What `CreateSubFolders(root, hierarchy)` makes. */
  function SubFolderDirs(root: string, hierarchy: string): set<string> {
    DirsOf(Visited(root, Split(hierarchy, '/')))
  }

  function HierarchyDirs(root: string, hierarchies: seq<string>): set<string> {
    if hierarchies == [] then {}
    else HierarchyDirs(root, hierarchies[..|hierarchies| - 1]) + SubFolderDirs(root, hierarchies[|hierarchies| - 1])
  }

  /** What `Create(root, folders)` makes: the root below the data path,
      and every folder of every hierarchy below that. */
  function Made(dataPath: string, root: string, hierarchies: seq<string>): set<string> {
    var fullPath := Combine(dataPath, root);
    Dir(fullPath) + HierarchyDirs(fullPath, hierarchies)
  }

  /** After `Create`, the root exists, and so does every '/'-prefix of
      every hierarchy below it. */
  lemma CreateReachesEveryPrefix(dataPath: string, root: string, hierarchies: seq<string>, i: int, k: int)
    requires 0 <= i < |hierarchies| && 1 <= k <= |Split(hierarchies[i], '/')|
    ensures Combine(dataPath, root) in Made(dataPath, root, hierarchies)
    ensures Walk(Combine(dataPath, root), Split(hierarchies[i], '/')[..k]) in Made(dataPath, root, hierarchies)
  {
    var fullPath := Combine(dataPath, root);
    var segs := Split(hierarchies[i], '/');
    VisitedIsWalk(fullPath, segs, k - 1);
    DirsOfContains(Visited(fullPath, segs), k - 1);
    HierarchyDirsContains(fullPath, hierarchies, i);
  }

  lemma {:induction false} HierarchyDirsContains(root: string, hierarchies: seq<string>, i: int)
    requires 0 <= i < |hierarchies|
    ensures SubFolderDirs(root, hierarchies[i]) <= HierarchyDirs(root, hierarchies)
  {
    if i < |hierarchies| - 1 {
      HierarchyDirsContains(root, hierarchies[..|hierarchies| - 1], i);
    }
  }

  lemma {:induction false} HierarchyDirsClosed(root: string, hierarchies: seq<string>)
    ensures Closed(HierarchyDirs(root, hierarchies))
  {
    if hierarchies != [] {
      HierarchyDirsClosed(root, hierarchies[..|hierarchies| - 1]);
      DirsOfClosed(Visited(root, Split(hierarchies[|hierarchies| - 1], '/')));
    }
  }

  /** `Create` only adds, and a second identical call adds nothing more. */
  lemma CreateIdempotent(dirs: set<string>, dataPath: string, root: string, hierarchies: seq<string>)
    ensures dirs <= dirs + Made(dataPath, root, hierarchies)
    ensures (dirs + Made(dataPath, root, hierarchies)) + Made(dataPath, root, hierarchies) == dirs + Made(dataPath, root, hierarchies)
  {
  }

  /** The path and everything below it. */
  predicate Within(f: string, p: string) {
    f == p || (|f| > |p| && f[..|p| + 1] == p + [Sep])
  }

  /** The asset folders after `AssetDatabase.MoveAsset(src, dst)` succeeded:
      `src` and everything below it re-rooted at `dst`. */
  function Moved(folders: set<string>, src: string, dst: string): (r: set<string>)
    ensures forall f :: f in folders && !Within(f, src) ==> f in r
    ensures forall f :: f in folders && Within(f, src) ==> dst + f[|src|..] in r
    ensures forall g :: g in r ==> g in folders || exists f :: f in folders && Within(f, src) && g == dst + f[|src|..]
  {
    (set f | f in folders && !Within(f, src)) + (set f | f in folders && Within(f, src) :: dst + f[|src|..])
  }

  /** What follows a folder's source path is empty or starts below it. */
  lemma TailBelow(f: string, src: string)
    requires Within(f, src)
    ensures f[|src|..] == [] || f[|src|..][0] == Sep
  {
    if f != src {
      assert f[|src|] == (src + [Sep])[|src|];
    }
  }

  /** Re-rooting below `dst` lands within `src` only when one of the two
      paths lies within the other. */
  lemma ReRootedWithin(dst: string, x: string, src: string)
    requires x == [] || x[0] == Sep
    ensures Within(dst + x, src) ==> Within(dst, src) || Within(src, dst)
  {
    var g := dst + x;
    if g == src {
      if x != [] {
        assert src[..|dst| + 1] == dst + [Sep] by {
          assert src[..|dst| + 1] == g[..|dst| + 1];
          assert g[..|dst| + 1] == dst + [x[0]];
        }
      }
    } else if |g| > |src| && g[..|src| + 1] == src + [Sep] {
      if |dst| >= |src| + 1 {
        assert dst[..|src| + 1] == g[..|src| + 1];
      } else if |dst| == |src| {
        assert dst == g[..|src|] == (src + [Sep])[..|src|];
      } else {
        assert dst == g[..|dst|] == (src + [Sep])[..|dst|] == src[..|dst|];
        assert src[|dst|] == (src + [Sep])[|dst|] == g[|dst|] == x[0];
        assert src[..|dst| + 1] == src[..|dst|] + [src[|dst|]];
      }
    }
  }

  /** After a successful move nothing is left within the source path,
      unless one of the two paths lies within the other. */
  lemma {:induction false} MovedClearsSource(folders: set<string>, src: string, dst: string)
    requires !Within(dst, src) && !Within(src, dst)
    ensures forall g :: g in Moved(folders, src, dst) ==> !Within(g, src)
  {
    forall g | g in Moved(folders, src, dst)
      ensures !Within(g, src)
    {
      if g !in folders || Within(g, src) {
        var f :| f in folders && Within(f, src) && g == dst + f[|src|..];
        TailBelow(f, src);
        ReRootedWithin(dst, f[|src|..], src);
      }
    }
  }

  /** The asset folders after `AssetDatabase.DeleteAsset(p)`. */
  function Deleted(folders: set<string>, p: string): (r: set<string>)
    ensures r <= folders && p !in r
    ensures forall f :: f in folders && !Within(f, p) ==> f in r
  {
    set f | f in folders && !Within(f, p)
  }

  /** The file system's directories below the project, and the asset
      database's folders ("Assets/..."). */
  class ProjectFolders {
    /** `Application.dataPath`. */
    const dataPath: string
    var directories: set<string>
    var assetFolders: set<string>
    var errors: seq<string>

    ghost predicate Valid()
      reads this
    {
      Closed(directories)
    }

    constructor(dataPath: string, directories: set<string>, assetFolders: set<string>)
      requires Closed(directories)
      ensures Valid()
      ensures this.dataPath == dataPath && this.directories == directories
      ensures this.assetFolders == assetFolders && errors == []
    {
      this.dataPath := dataPath;
      this.directories := directories;
      this.assetFolders := assetFolders;
      errors := [];
    }

    /** `if (!Directory.Exists(p)) Directory.CreateDirectory(p)`: in a
        closed directory set, creating is the same as adding `p` and its
        ancestors. */
    method CreateDirectoryIfMissing(p: string)
      requires Valid()
      modifies this`directories
      ensures Valid()
      ensures directories == old(directories) + Dir(p)
    {
      if p !in directories {
        DirClosed(p);
        UnionClosed(directories, Dir(p));
        directories := directories + Dir(p);
      }
    }

    /** `Create(root, folders)`. */
    method Create(root: string, folders: seq<string>)
      requires Valid()
      modifies this`directories
      ensures Valid()
      ensures directories == old(directories) + Made(dataPath, root, folders)
    {
      var fullPath := Combine(dataPath, root);
      CreateDirectoryIfMissing(fullPath);
      ghost var afterRoot := directories;
      var i := 0;
      while i < |folders|
        invariant 0 <= i <= |folders|
        invariant Valid()
        invariant directories == afterRoot + HierarchyDirs(fullPath, folders[..i])
      {
        assert folders[..i + 1][..i] == folders[..i];
        CreateSubFolders(fullPath, folders[i]);
        i := i + 1;
      }
      assert folders[..i] == folders;
    }

    /** `CreateSubFolders(rootPath, hierarchy)`: walks the '/'-separated
        segments below the root, creating each missing folder. */
    method CreateSubFolders(rootPath: string, hierarchy: string)
      requires Valid()
      modifies this`directories
      ensures Valid()
      ensures directories == old(directories) + SubFolderDirs(rootPath, hierarchy)
    {
      var segs := Split(hierarchy, '/');
      CreateAlong(rootPath, segs);
    }

    /** The loop of `CreateSubFolders` over the segments: each one is
        combined onto the path so far, which is then created. */
    method CreateAlong(rootPath: string, segs: seq<string>)
      requires Valid()
      modifies this`directories
      ensures Valid()
      ensures directories == old(directories) + DirsOf(Visited(rootPath, segs))
    {
      var currentPath := rootPath;
      var j := 0;
      while j < |segs|
        invariant 0 <= j <= |segs|
        invariant Valid()
        invariant currentPath == Walk(rootPath, segs[..j])
        invariant directories == old(directories) + DirsOf(Visited(rootPath, segs[..j]))
      {
        WalkStep(rootPath, segs, j);
        currentPath := Combine(currentPath, segs[j]);
        CreateDirectoryIfMissing(currentPath);
        j := j + 1;
      }
      assert segs[..j] == segs;
    }

    /** `Move(newParent, folderName)`: only a valid folder "Assets/{name}"
        is moved, to "Assets/{newParent}/{name}". `moveError` is what
        `AssetDatabase.MoveAsset` answers; a non-empty answer is logged and
        moves nothing. */
    method Move(newParent: string, folderName: string, moveError: string)
      modifies this`assetFolders, this`errors
      ensures var src := "Assets/" + folderName;
        src !in old(assetFolders) ==> assetFolders == old(assetFolders) && errors == old(errors)
      ensures var src := "Assets/" + folderName;
        src in old(assetFolders) && moveError == [] ==>
          assetFolders == Moved(old(assetFolders), src, "Assets/" + newParent + "/" + folderName) &&
          errors == old(errors)
      ensures var src := "Assets/" + folderName;
        src in old(assetFolders) && moveError != [] ==>
          assetFolders == old(assetFolders) &&
          errors == old(errors) + ["Failed to move " + folderName + ": " + moveError]
    {
      var sourcePath := "Assets/" + folderName;
      if sourcePath in assetFolders {
        var destinationPath := "Assets/" + newParent + "/" + folderName;
        if moveError == [] {
          assetFolders := Moved(assetFolders, sourcePath, destinationPath);
        } else {
          errors := errors + ["Failed to move " + folderName + ": " + moveError];
        }
      }
    }

    /** `Delete(folderName)`: removes "Assets/{name}" and what lies below
        it when it is a valid folder, and does nothing otherwise. */
    method Delete(folderName: string)
      modifies this`assetFolders
      ensures var p := "Assets/" + folderName;
        p in old(assetFolders) ==> assetFolders == Deleted(old(assetFolders), p)
      ensures "Assets/" + folderName !in old(assetFolders) ==> assetFolders == old(assetFolders)
      ensures "Assets/" + folderName !in assetFolders
    {
      var pathToDelete := "Assets/" + folderName;
      if pathToDelete in assetFolders {
        assetFolders := Deleted(assetFolders, pathToDelete);
      }
    }
  }
}
