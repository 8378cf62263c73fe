/** A `Transform` hierarchy as the editor's inspector helpers walk it:
    each node with its children and the mesh components on its GameObject. */
module SceneTree {
  import opened Wrappers

  /** The parts of a `Mesh` the helpers read; `indexCount` is
      `triangles.Length`. */
  datatype Mesh = Mesh(vertexCount: nat, indexCount: nat, subMeshCount: nat)

  datatype Texture = Texture2D(width: nat, height: nat) | OtherTexture

  /** A material: whether it has a shader, and its `_MainTex` texture
      (`None` when it has no such property or no texture in it). */
  datatype Material = Material(hasShader: bool, mainTexture: Option<Texture>)

  /** The GameObject's one `Renderer`. `skinnedMesh` is `Some` exactly when
      that renderer is a `SkinnedMeshRenderer`, holding its `sharedMesh`. */
  datatype Renderer = Renderer(enabled: bool, sharedMaterials: seq<Option<Material>>,
                               skinnedMesh: Option<Option<Mesh>>)

  /** A transform: its children in order, its `MeshFilter` (holding its
      `sharedMesh`) if any, and its `Renderer` if any. */
  datatype SceneNode = SceneNode(children: seq<SceneNode>, meshFilter: Option<Option<Mesh>>,
                                 renderer: Option<Renderer>)
  {
    /** The `MeshFilter`'s mesh, when there is one. */
    function FilterMesh(): Option<Mesh> {
      if meshFilter.Some? && meshFilter.value.Some? then meshFilter.value else None
    }

    /** The `SkinnedMeshRenderer`'s mesh, when there is one. */
    function SkinnedMesh(): Option<Mesh> {
      if renderer.Some? && renderer.value.skinnedMesh.Some? && renderer.value.skinnedMesh.value.Some?
      then renderer.value.skinnedMesh.value else None
    }
  }

  /** The number of transforms in a subtree, the root included. */
  function Size(n: SceneNode): nat
    decreases n, 1
  {
    1 + SizeOf(n.children)
  }

  function SizeOf(cs: seq<SceneNode>): nat
    decreases cs, 0
  {
    if cs == [] then 0 else SizeOf(cs[..|cs| - 1]) + Size(cs[|cs| - 1])
  }

  /** Every transform of a subtree in depth-first pre-order. */
  function Nodes(n: SceneNode): (r: seq<SceneNode>)
    ensures |r| == Size(n)
    decreases n, 1
  {
    [n] + NodesOf(n.children)
  }

  function NodesOf(cs: seq<SceneNode>): (r: seq<SceneNode>)
    ensures |r| == SizeOf(cs)
    decreases cs, 0
  {
    if cs == [] then [] else NodesOf(cs[..|cs| - 1]) + Nodes(cs[|cs| - 1])
  }

  lemma SizeOfSnoc(cs: seq<SceneNode>, i: int)
    requires 0 <= i < |cs|
    ensures SizeOf(cs[..i + 1]) == SizeOf(cs[..i]) + Size(cs[i])
  {
    assert cs[..i + 1][..i] == cs[..i];
  }

  lemma {:induction false} SizeOfAtLeast(cs: seq<SceneNode>, i: int)
    requires 0 <= i < |cs|
    ensures SizeOf(cs) >= Size(cs[i])
    decreases |cs|
  {
    if i < |cs| - 1 {
      SizeOfAtLeast(cs[..|cs| - 1], i);
    }
  }
}

/** `HierarchyInfoProvider`: descendant count and depth of a transform. */
module HierarchyInfoProvider {
  import opened SceneTree

  /** `GetTotalChildCount(t)`: the direct children plus, recursively, their
      own child counts, which is the number of descendants of `t`. */
  method GetTotalChildCount(t: SceneNode) returns (count: nat)
    ensures count == Size(t) - 1
    decreases t
  {
    count := |t.children|;
    var i := 0;
    while i < |t.children|
      invariant 0 <= i <= |t.children|
      invariant count == SizeOf(t.children[..i]) + (|t.children| - i)
    {
      var c := GetTotalChildCount(t.children[i]);
      SizeOfSnoc(t.children, i);
      count := count + c;
      i := i + 1;
    }
    assert t.children[..i] == t.children;
  }

  /** A leaf has no descendants, and a transform has more descendants than
      any of its children. */
  lemma ChildCountBounds(t: SceneNode, i: int)
    requires 0 <= i < |t.children|
    ensures Size(SceneNode([], t.meshFilter, t.renderer)) - 1 == 0
    ensures Size(t) - 1 >= (Size(t.children[i]) - 1) + 1
  {
    SizeOfAtLeast(t.children, i);
  }

  /** A transform linked to its parent, as `Transform.parent` is.
      `depth` is the number of ancestors and `Repr` the transform with all
      of them; both are ghost bookkeeping. */
  class TransformLink {
    var parent: TransformLink?
    ghost var depth: nat
    ghost var Repr: set<TransformLink>

    ghost predicate Valid()
      reads this, Repr
      decreases Repr
    {
      this in Repr &&
      (parent == null ==> depth == 0 && Repr == {this}) &&
      (parent != null ==>
        parent in Repr && parent.Repr <= Repr && this !in parent.Repr &&
        depth == parent.depth + 1 && parent.Valid())
    }

    /** A root transform. */
    constructor Root()
      ensures Valid() && parent == null && depth == 0
    {
      parent := null;
      depth := 0;
      Repr := {this};
    }

    /** A transform created under `p`. */
    constructor Child(p: TransformLink)
      requires p.Valid()
      ensures Valid() && parent == p && depth == p.depth + 1
    {
      parent := p;
      depth := p.depth + 1;
      Repr := {this} + p.Repr;
    }
  }

  /** `GetHierarchyDepth(t)`: follows the parent links to the root,
      counting them. */
  method GetHierarchyDepth(t: TransformLink) returns (depth: nat)
    requires t.Valid()
    ensures depth == t.depth
    ensures t.parent == null ==> depth == 0
    ensures t.parent != null ==> depth == t.parent.depth + 1
  {
    depth := 0;
    var p := t.parent;
    while p != null
      invariant p != null ==> p.Valid() && depth + p.depth + 1 == t.depth
      invariant p == null ==> depth == t.depth
      decreases if p == null then 0 else p.depth + 1
    {
      depth := depth + 1;
      p := p.parent;
    }
  }
}

/** `MeshInfoCalculator`: vertex, triangle, submesh and material totals
    over a transform and all its descendants. */
module MeshInfoCalculator {
  import opened Wrappers
  import opened SceneTree

  datatype MeshInfo = MeshInfo(totalVertices: int, totalTriangles: int, totalSubmeshes: int, totalMaterials: int)
  {
    function Plus(o: MeshInfo): MeshInfo {
      MeshInfo(totalVertices + o.totalVertices, totalTriangles + o.totalTriangles,
               totalSubmeshes + o.totalSubmeshes, totalMaterials + o.totalMaterials)
    }
  }

  const Zero := MeshInfo(0, 0, 0, 0)

  lemma PlusAssoc(a: MeshInfo, b: MeshInfo, c: MeshInfo)
    ensures a.Plus(b).Plus(c) == a.Plus(b.Plus(c))
  {
  }

  lemma PlusZero(a: MeshInfo)
    ensures a.Plus(Zero) == a && Zero.Plus(a) == a
  {
  }

  /** A transform's own contribution. The filter mesh counts the renderer's
      materials; the skinned mesh counts them again, on its own. */
  function Own(n: SceneNode): MeshInfo
  {
    FromFilter(n).Plus(FromSkinned(n))
  }

  /** The renderer's material slots, null ones included. */
  function MaterialSlots(n: SceneNode): nat {
    if n.renderer.Some? then |n.renderer.value.sharedMaterials| else 0
  }

  function FromFilter(n: SceneNode): MeshInfo {
    if n.FilterMesh().Some? then Share(n.FilterMesh().value, MaterialSlots(n)) else Zero
  }

  function FromSkinned(n: SceneNode): MeshInfo {
    if n.SkinnedMesh().Some? then Share(n.SkinnedMesh().value, MaterialSlots(n)) else Zero
  }

  /** One mesh with the renderer's materials counted beside it. */
  function Share(m: Mesh, materials: nat): MeshInfo {
    MeshInfo(m.vertexCount, m.indexCount / 3, m.subMeshCount, materials)
  }

  /** The totals over a subtree. */
  function Total(n: SceneNode): MeshInfo
    decreases n, 1
  {
    Own(n).Plus(TotalOf(n.children))
  }

  function TotalOf(cs: seq<SceneNode>): MeshInfo
    decreases cs, 0
  {
    if cs == [] then Zero else TotalOf(cs[..|cs| - 1]).Plus(Total(cs[|cs| - 1]))
  }

  lemma TotalOfSnoc(cs: seq<SceneNode>, i: int)
    requires 0 <= i < |cs|
    ensures TotalOf(cs[..i + 1]) == TotalOf(cs[..i]).Plus(Total(cs[i]))
  {
    assert cs[..i + 1][..i] == cs[..i];
  }

  /** The contributions `f` gives a list, summed. */
  function SumBy<T>(xs: seq<T>, f: T -> MeshInfo): MeshInfo
  {
    if xs == [] then Zero else SumBy(xs[..|xs| - 1], f).Plus(f(xs[|xs| - 1]))
  }

  lemma SumBySingle<T>(x: T, f: T -> MeshInfo)
    ensures SumBy([x], f) == f(x)
  {
    assert [x][..0] == [];
    PlusZero(f(x));
  }

  lemma {:induction false} SumByConcat<T>(xs: seq<T>, ys: seq<T>, f: T -> MeshInfo)
    ensures SumBy(xs + ys, f) == SumBy(xs, f).Plus(SumBy(ys, f))
    decreases |ys|
  {
    if ys == [] {
      assert xs + ys == xs;
      PlusZero(SumBy(xs, f));
    } else {
      var init, last := ys[..|ys| - 1], ys[|ys| - 1];
      SumByConcat(xs, init, f);
      assert (xs + ys)[..|xs + ys| - 1] == xs + init;
      assert (xs + ys)[|xs + ys| - 1] == last;
      PlusAssoc(SumBy(xs, f), SumBy(init, f), f(last));
    }
  }

  /** The totals are the own contributions of every transform in the
      subtree summed, each counted once. */
  lemma {:induction false} TotalIsSumOverNodes(n: SceneNode)
    ensures Total(n) == SumBy(Nodes(n), Own)
    decreases n, 1
  {
    TotalOfIsSumOverNodes(n.children);
    SumByConcat([n], NodesOf(n.children), Own);
    SumBySingle(n, Own);
  }

  lemma {:induction false} TotalOfIsSumOverNodes(cs: seq<SceneNode>)
    ensures TotalOf(cs) == SumBy(NodesOf(cs), Own)
    decreases cs, 0
  {
    if cs != [] {
      TotalOfIsSumOverNodes(cs[..|cs| - 1]);
      TotalIsSumOverNodes(cs[|cs| - 1]);
      SumByConcat(NodesOf(cs[..|cs| - 1]), Nodes(cs[|cs| - 1]), Own);
    }
  }

  /** The first half of `GetMeshInfo`: the transform's own components. */
  method OwnMeshInfo(t: SceneNode) returns (info: MeshInfo)
    ensures info == Own(t)
  {
    var vertices: nat, triangles: nat, submeshes: nat, materials: nat := 0, 0, 0, 0;
    var filterMesh := t.FilterMesh();
    if filterMesh.Some? {
      var mesh := filterMesh.value;
      vertices := vertices + mesh.vertexCount;
      triangles := triangles + mesh.indexCount / 3;
      submeshes := submeshes + mesh.subMeshCount;
      if t.renderer.Some? {
        materials := materials + |t.renderer.value.sharedMaterials|;
      }
    }
    ghost var fromFilter := MeshInfo(vertices, triangles, submeshes, materials);
    assert fromFilter == FromFilter(t);
    var skinned := t.SkinnedMesh();
    if skinned.Some? {
      var mesh := skinned.value;
      vertices := vertices + mesh.vertexCount;
      triangles := triangles + mesh.indexCount / 3;
      submeshes := submeshes + mesh.subMeshCount;
      materials := materials + |t.renderer.value.sharedMaterials|;
    } else {
      PlusZero(fromFilter);
    }
    info := MeshInfo(vertices, triangles, submeshes, materials);
  }

  /** The totals are never negative. */
  lemma {:induction false} TotalNonNegative(n: SceneNode)
    ensures var r := Total(n); r.totalVertices >= 0 && r.totalTriangles >= 0 && r.totalSubmeshes >= 0 && r.totalMaterials >= 0
    decreases n, 1
  {
    TotalOfNonNegative(n.children);
  }

  lemma {:induction false} TotalOfNonNegative(cs: seq<SceneNode>)
    ensures var r := TotalOf(cs); r.totalVertices >= 0 && r.totalTriangles >= 0 && r.totalSubmeshes >= 0 && r.totalMaterials >= 0
    decreases cs, 0
  {
    if cs != [] {
      TotalOfNonNegative(cs[..|cs| - 1]);
      TotalNonNegative(cs[|cs| - 1]);
    }
  }

  /** `GetMeshInfo(t)`: the transform's own components, then each child's
      totals added in. */
  method GetMeshInfo(t: SceneNode) returns (info: MeshInfo)
    ensures info == Total(t)
    decreases t, 1
  {
    var own := OwnMeshInfo(t);
    info := AddChildTotals(t, own);
  }

  /** The second half of `GetMeshInfo`: the loop over the children. */
  method AddChildTotals(t: SceneNode, own: MeshInfo) returns (info: MeshInfo)
    ensures info == own.Plus(TotalOf(t.children))
    decreases t, 0
  {
    info := own;
    assert t.children[..0] == [];
    PlusZero(info);
    var i := 0;
    while i < |t.children|
      invariant 0 <= i <= |t.children|
      invariant info == own.Plus(TotalOf(t.children[..i]))
    {
      var childInfo := GetMeshInfo(t.children[i]);
      TotalOfSnoc(t.children, i);
      PlusAssoc(own, TotalOf(t.children[..i]), childInfo);
      info := info.Plus(childInfo);
      i := i + 1;
    }
    assert t.children[..i] == t.children;
  }
}

/** `PerformanceMetricsCalculator`: draw-call and memory estimates. */
module PerformanceMetricsCalculator {
  import opened Wrappers
  import opened SceneTree
  import MeshInfoCalculator

  /** A transform's own draw calls: with an enabled renderer, the submeshes
      of the filter mesh, or else of the skinned mesh; 0 otherwise. */
  function OwnDrawCalls(n: SceneNode): (r: nat)
    ensures n.renderer.None? || !n.renderer.value.enabled ==> r == 0
    ensures n.renderer.Some? && n.renderer.value.enabled && n.FilterMesh().Some? ==>
      r == n.FilterMesh().value.subMeshCount
    ensures n.renderer.Some? && n.renderer.value.enabled && n.FilterMesh().None? && n.SkinnedMesh().Some? ==>
      r == n.SkinnedMesh().value.subMeshCount
  {
    if n.renderer.Some? && n.renderer.value.enabled then
      if n.FilterMesh().Some? then n.FilterMesh().value.subMeshCount
      else if n.SkinnedMesh().Some? then n.SkinnedMesh().value.subMeshCount
      else 0
    else 0
  }

  function DrawCalls(n: SceneNode): nat
    decreases n, 1
  {
    OwnDrawCalls(n) + DrawCallsOf(n.children)
  }

  function DrawCallsOf(cs: seq<SceneNode>): nat
    decreases cs, 0
  {
    if cs == [] then 0 else DrawCallsOf(cs[..|cs| - 1]) + DrawCalls(cs[|cs| - 1])
  }

  /** A transform's draw calls at most equal the submeshes the mesh totals
      count for it and its descendants. */
  lemma {:induction false} DrawCallsAtMostSubmeshes(n: SceneNode)
    ensures DrawCalls(n) <= MeshInfoCalculator.Total(n).totalSubmeshes
    decreases n, 1
  {
    DrawCallsOfAtMostSubmeshes(n.children);
  }

  lemma {:induction false} DrawCallsOfAtMostSubmeshes(cs: seq<SceneNode>)
    ensures DrawCallsOf(cs) <= MeshInfoCalculator.TotalOf(cs).totalSubmeshes
    decreases cs, 0
  {
    if cs != [] {
      DrawCallsOfAtMostSubmeshes(cs[..|cs| - 1]);
      DrawCallsAtMostSubmeshes(cs[|cs| - 1]);
    }
  }

  /** `EstimateDrawCalls(t)`. */
  method EstimateDrawCalls(t: SceneNode) returns (drawCalls: nat)
    ensures drawCalls == DrawCalls(t)
    decreases t
  {
    drawCalls := 0;
    if t.renderer.Some? && t.renderer.value.enabled {
      var filterMesh := t.FilterMesh();
      var skinned := t.SkinnedMesh();
      if filterMesh.Some? {
        drawCalls := drawCalls + filterMesh.value.subMeshCount;
      } else if skinned.Some? {
        drawCalls := drawCalls + skinned.value.subMeshCount;
      }
    }
    var i := 0;
    while i < |t.children|
      invariant 0 <= i <= |t.children|
      invariant drawCalls == OwnDrawCalls(t) + DrawCallsOf(t.children[..i])
    {
      var c := EstimateDrawCalls(t.children[i]);
      assert t.children[..i + 1][..i] == t.children[..i];
      drawCalls := drawCalls + c;
      i := i + 1;
    }
    assert t.children[..i] == t.children;
  }

  /** Bytes for one mesh: 12 per vertex and 4 per index. */
  function MeshBytes(m: Option<Mesh>): nat {
    if m.Some? then m.value.vertexCount * 12 + m.value.indexCount * 4 else 0
  }

  /** Bytes for one material slot: 4 per texel of a `Texture2D` main
      texture of a non-null material with a shader. */
  function TextureBytes(mat: Option<Material>): nat {
    if mat.Some? && mat.value.hasShader && mat.value.mainTexture.Some? && mat.value.mainTexture.value.Texture2D?
    then mat.value.mainTexture.value.width * mat.value.mainTexture.value.height * 4
    else 0
  }

  function TextureBytesOf(mats: seq<Option<Material>>): nat {
    if mats == [] then 0 else TextureBytesOf(mats[..|mats| - 1]) + TextureBytes(mats[|mats| - 1])
  }

  /** The memory estimate of a transform alone; its children are not visited. */
  function Memory(n: SceneNode): nat {
    MeshBytes(n.FilterMesh()) + MeshBytes(n.SkinnedMesh()) +
    (if n.renderer.Some? then TextureBytesOf(n.renderer.value.sharedMaterials) else 0)
  }

  /** Null or shader-less materials, and non-2D textures, add nothing:
      only the `Texture2D` slots count. */
  lemma {:induction false} TextureBytesOfOnly2D(mats: seq<Option<Material>>)
    requires forall i :: 0 <= i < |mats| ==> TextureBytes(mats[i]) == 0
    ensures TextureBytesOf(mats) == 0
  {
    if mats != [] {
      TextureBytesOfOnly2D(mats[..|mats| - 1]);
    }
  }

  /** `EstimateMemoryUsage(t, meshInfo)`: `meshInfo` is not used. */
  method EstimateMemoryUsage(t: SceneNode, meshInfo: MeshInfoCalculator.MeshInfo) returns (memory: nat)
    ensures memory == Memory(t)
  {
    memory := 0;
    var filterMesh := t.FilterMesh();
    if filterMesh.Some? {
      memory := memory + filterMesh.value.vertexCount * 12;
      memory := memory + filterMesh.value.indexCount * 4;
    }
    var skinned := t.SkinnedMesh();
    if skinned.Some? {
      memory := memory + skinned.value.vertexCount * 12;
      memory := memory + skinned.value.indexCount * 4;
    }
    if t.renderer.Some? {
      var mats := t.renderer.value.sharedMaterials;
      ghost var base := memory;
      var i := 0;
      while i < |mats|
        invariant 0 <= i <= |mats|
        invariant memory == base + TextureBytesOf(mats[..i])
      {
        assert mats[..i + 1][..i] == mats[..i];
        var mat := mats[i];
        if mat.Some? && mat.value.hasShader {
          if mat.value.mainTexture.Some? {
            var tex := mat.value.mainTexture.value;
            if tex.Texture2D? {
              memory := memory + tex.width * tex.height * 4;
            }
          }
        }
        i := i + 1;
      }
      assert mats[..i] == mats;
    }
  }
}
