/** `TextureSwapper`: cycles a material's UV scroll offset through the
    faces of a texture sheet. */
module TextureSwapper {
  import opened Wrappers
  import opened IndexCycling

  /** A material: an asset, or the per-object copy `new Material(m)` makes. */
  datatype Mat = Asset(name: string) | Copy(source: Mat)

  /** `Material.SetVector(property, (x, y))`. */
  datatype UvCall = SetVector(property: string, x: real, y: real)

  /** The vertical scroll offset of a face. */
  function FaceOffset(index: int, step: real): real {
    index as real * step
  }

  /** The guard `materials.Length > materialIndex` as written: it admits
      every negative index, which the indexing that follows rejects. */
  predicate GuardAsWritten(count: nat, index: int) {
    count > index
  }

  lemma GuardAsWrittenAdmitsNegative()
    ensures GuardAsWritten(1, -1) && !(0 <= -1 < 1)
  {
  }

  /** The guard the indexing needs: the index names a material slot. It is
      the as-written guard with the negative indices taken out. */
  predicate MaterialIndexInRange(count: nat, index: int) {
    0 <= index < count
  }

  lemma MaterialIndexInRangeAgrees(count: nat, index: int)
    ensures MaterialIndexInRange(count, index) <==> GuardAsWritten(count, index) && index >= 0
    ensures index >= 0 ==> (MaterialIndexInRange(count, index) <==> GuardAsWritten(count, index))
  {
  }

  /** The face index after one step of the cycle; a face count of 0 leaves
      it where it is. */
  function StepFace(index: int, faceCount: int): int {
    if faceCount == 0 then index else Next(index, faceCount)
  }

  /** The range the face index keeps: `[0, |faceCount|)`, or 0 when there
      are no faces. A negative count cycles through `[0, -faceCount)`, since
      C#'s `%` ignores the divisor's sign. */
  predicate FaceIndexInRange(index: int, faceCount: int) {
    if faceCount == 0 then index == 0 else 0 <= index < Abs(faceCount)
  }

  lemma StepFaceInRange(index: int, faceCount: int)
    requires FaceIndexInRange(index, faceCount)
    ensures FaceIndexInRange(StepFace(index, faceCount), faceCount)
    ensures faceCount != 0 ==> StepFace(index, faceCount) == if index + 1 < Abs(faceCount) then index + 1 else 0
  {
    if faceCount != 0 {
      NextStep(index, faceCount);
    }
  }

  /** `|faceCount|` steps bring the index back to the face it started on. */
  lemma StepFaceCycles(index: int, faceCount: int)
    requires faceCount != 0 && FaceIndexInRange(index, faceCount)
    ensures Advance(index, faceCount, Abs(faceCount)) == index
  {
    Periodic(index, faceCount);
  }

  class TextureSwapper {
    const textureDuration: real
    const autoStart: bool
    const faceCount: int
    const faceScrollStep: real
    const materialIndex: int
    const scrollUVPropertyName: string

    /** `targetRenderer.materials`, once `Start` found a renderer. */
    var materials: seq<Mat>
    var hasRenderer: bool
    var currentFaceIndex: int
    var materialInstance: Option<Mat>
    /** The `SetVector` calls made so far. */
    var applied: seq<UvCall>
    /** The running coroutine, by handle; handles are issued 0, 1, 2, ... */
    var loop: Option<nat>
    var issued: nat
    var stopped: seq<nat>
    var errorLogged: bool

    ghost predicate Valid()
      reads this
    {
      FaceIndexInRange(currentFaceIndex, faceCount) &&
      (materialInstance.Some? ==>
        hasRenderer && MaterialIndexInRange(|materials|, materialIndex) &&
        materials[materialIndex] == materialInstance.value) &&
      (loop.Some? ==> loop.value < issued)
    }

    /** The component with its inspector settings. */
    constructor(textureDuration: real, autoStart: bool, faceCount: int, faceScrollStep: real,
                materialIndex: int, scrollUVPropertyName: string)
      ensures Valid()
      ensures this.textureDuration == textureDuration && this.autoStart == autoStart
      ensures this.faceCount == faceCount && this.faceScrollStep == faceScrollStep
      ensures this.materialIndex == materialIndex && this.scrollUVPropertyName == scrollUVPropertyName
      ensures materials == [] && !hasRenderer && currentFaceIndex == 0 && materialInstance == None
      ensures applied == [] && loop == None && issued == 0 && stopped == [] && !errorLogged
    {
      this.textureDuration := textureDuration;
      this.autoStart := autoStart;
      this.faceCount := faceCount;
      this.faceScrollStep := faceScrollStep;
      this.materialIndex := materialIndex;
      this.scrollUVPropertyName := scrollUVPropertyName;
      materials, hasRenderer, currentFaceIndex, materialInstance := [], false, 0, None;
      applied, loop, issued, stopped, errorLogged := [], None, 0, [], false;
    }

    /** The component with its declared defaults. */
    constructor Default()
      ensures Valid()
      ensures textureDuration == 2.0 && autoStart && faceCount == 3 && faceScrollStep == -0.256
      ensures materialIndex == 0 && scrollUVPropertyName == "_ScrollUV"
      ensures materials == [] && !hasRenderer && currentFaceIndex == 0 && materialInstance == None
      ensures applied == [] && loop == None && issued == 0 && stopped == [] && !errorLogged
    {
      textureDuration, autoStart, faceCount, faceScrollStep := 2.0, true, 3, -0.256;
      materialIndex, scrollUVPropertyName := 0, "_ScrollUV";
      materials, hasRenderer, currentFaceIndex, materialInstance := [], false, 0, None;
      applied, loop, issued, stopped, errorLogged := [], None, 0, [], false;
    }

    /** What `ApplyCurrentFace` sends: the offset `(0, index * step)`, and
        nothing without a material instance. */
    function ApplyCalls(): seq<UvCall>
      reads this`materialInstance, this`currentFaceIndex
    {
      if materialInstance.Some?
      then [SetVector(scrollUVPropertyName, 0.0, FaceOffset(currentFaceIndex, faceScrollStep))]
      else []
    }

    method ApplyCurrentFace()
      modifies this`applied
      ensures applied == old(applied) + ApplyCalls()
    {
      if materialInstance.None? {
        return;
      }
      var y := currentFaceIndex as real * faceScrollStep;
      assert y == FaceOffset(currentFaceIndex, faceScrollStep);
      assert ApplyCalls() == [SetVector(scrollUVPropertyName, 0.0, y)];
      applied := applied + [SetVector(scrollUVPropertyName, 0.0, y)];
    }

    /** `Start`: the renderer is `targetRenderer`, or else the one on the
        GameObject; `renderer` is whichever was found, by its materials.
        Without one an error is logged and nothing else happens. The loop
        starts only when `autoStart` holds and `faceCount > 0`. */
    method Start(renderer: Option<seq<Mat>>)
      requires Valid() && !hasRenderer
      modifies this
      ensures Valid()
      ensures renderer.None? ==>
        errorLogged && materials == old(materials) && !hasRenderer &&
        materialInstance == old(materialInstance) && loop == old(loop) && applied == old(applied)
      ensures renderer.Some? ==> hasRenderer
      ensures renderer.Some? && MaterialIndexInRange(|renderer.value|, materialIndex) ==>
        materials == renderer.value[materialIndex := Copy(renderer.value[materialIndex])] &&
        materialInstance == Some(Copy(renderer.value[materialIndex])) &&
        errorLogged == old(errorLogged) &&
        applied == old(applied) + ApplyCalls() + (if autoStart && faceCount > 0 then ApplyCalls() else [])
      ensures renderer.Some? && !MaterialIndexInRange(|renderer.value|, materialIndex) ==>
        errorLogged && materials == renderer.value && materialInstance == old(materialInstance) &&
        applied == old(applied)
      ensures renderer.Some? && autoStart && faceCount > 0 ==>
        loop == Some(old(issued)) && issued == old(issued) + 1 &&
        stopped == old(stopped) + (if old(loop).Some? then [old(loop).value] else [])
      ensures !(renderer.Some? && autoStart && faceCount > 0) ==>
        loop == old(loop) && issued == old(issued) && stopped == old(stopped)
      ensures currentFaceIndex == old(currentFaceIndex)
    {
      if renderer.None? {
        errorLogged := true;
        return;
      }
      materials := renderer.value;
      hasRenderer := true;
      CreateMaterialInstance();
      if autoStart && faceCount > 0 {
        StartTextureLoop();
      }
    }

    /** `CreateMaterialInstance`, with the guard corrected to reject negative
        indices: the chosen slot is replaced by a copy of its material, which
        becomes the instance the offsets are applied to. */
    method CreateMaterialInstance()
      requires Valid() && hasRenderer
      modifies this`materials, this`materialInstance, this`applied, this`errorLogged
      ensures Valid()
      ensures MaterialIndexInRange(|old(materials)|, materialIndex) ==>
        materials == old(materials)[materialIndex := Copy(old(materials)[materialIndex])] &&
        materialInstance == Some(Copy(old(materials)[materialIndex])) &&
        applied == old(applied) + ApplyCalls() && errorLogged == old(errorLogged)
      ensures !MaterialIndexInRange(|old(materials)|, materialIndex) ==>
        errorLogged && materials == old(materials) && materialInstance == old(materialInstance) &&
        applied == old(applied)
    {
      if MaterialIndexInRange(|materials|, materialIndex) {
        var instance := Copy(materials[materialIndex]);
        materialInstance := Some(instance);
        materials := materials[materialIndex := instance];
        ApplyCurrentFace();
      } else {
        errorLogged := true;
      }
    }

    /** `StartTextureLoop`: stops the running loop, if any, and starts a
        new one, so at most one runs. `StartCoroutine` runs the new loop at
        once up to its first wait: with no faces it ends there, otherwise
        it applies the current face. */
    method StartTextureLoop()
      requires Valid()
      modifies this`loop, this`issued, this`stopped, this`applied
      ensures Valid()
      ensures loop == Some(old(issued)) && issued == old(issued) + 1
      ensures stopped == old(stopped) + (if old(loop).Some? then [old(loop).value] else [])
      ensures applied == old(applied) + (if faceCount != 0 then ApplyCalls() else [])
    {
      if loop.Some? {
        stopped := stopped + [loop.value];
      }
      loop := Some(issued);
      issued := issued + 1;
      if faceCount != 0 {
        ApplyCurrentFace();
      }
    }

    /** `StopTextureLoop`: stops the running loop, if any, and clears it. */
    method StopTextureLoop()
      requires Valid()
      modifies this`loop, this`stopped
      ensures Valid()
      ensures loop == None
      ensures stopped == old(stopped) + (if old(loop).Some? then [old(loop).value] else [])
    {
      if loop.Some? {
        stopped := stopped + [loop.value];
        loop := None;
      }
    }

    /** The `TextureLoop` resumed after a wait: the index steps on, then,
        as the loop comes round, the face is applied before the next wait.
        A loop only waits when there are faces, so with none this changes
        nothing and the loop is over. */
    method TextureLoopStep() returns (continues: bool)
      requires Valid()
      modifies this`currentFaceIndex, this`applied
      ensures Valid()
      ensures continues <==> faceCount != 0
      ensures faceCount == 0 ==> currentFaceIndex == old(currentFaceIndex) && applied == old(applied)
      ensures faceCount != 0 ==>
        currentFaceIndex == Next(old(currentFaceIndex), faceCount) &&
        applied == old(applied) + ApplyCalls()
    {
      if faceCount == 0 {
        return false;
      }
      StepFaceInRange(currentFaceIndex, faceCount);
      currentFaceIndex := CsRem(currentFaceIndex + 1, faceCount);
      ApplyCurrentFace();
      return true;
    }

    /** `SwitchToNextFace`: steps the index and applies it; with no faces it
        does nothing. */
    method SwitchToNextFace()
      requires Valid()
      modifies this`currentFaceIndex, this`applied
      ensures Valid()
      ensures currentFaceIndex == StepFace(old(currentFaceIndex), faceCount)
      ensures faceCount == 0 ==> applied == old(applied)
      ensures faceCount != 0 ==> applied == old(applied) + ApplyCalls()
    {
      if faceCount == 0 {
        return;
      }
      StepFaceInRange(currentFaceIndex, faceCount);
      currentFaceIndex := CsRem(currentFaceIndex + 1, faceCount);
      ApplyCurrentFace();
    }

    /** `SwitchToSpecificFace(index)`: only an index in `[0, faceCount)` is
        taken; any other leaves everything as it was. */
    method SwitchToSpecificFace(index: int)
      requires Valid()
      modifies this`currentFaceIndex, this`applied
      ensures Valid()
      ensures 0 <= index < faceCount ==> currentFaceIndex == index && applied == old(applied) + ApplyCalls()
      ensures !(0 <= index < faceCount) ==> currentFaceIndex == old(currentFaceIndex) && applied == old(applied)
    {
      if index >= 0 && index < faceCount {
        currentFaceIndex := index;
        ApplyCurrentFace();
      }
    }
  }
}
