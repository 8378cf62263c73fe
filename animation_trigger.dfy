/** `AnimationTrigger`: discovers every state name of the Animator
    Controller and cross-fades through them round-robin, one per
    `animationDuration`. */
module AnimationTrigger {
  import opened Wrappers
  import opened TransitionGate
  import opened StateGraph
  import opened IndexCycling

  /** The layers the editor-only discovery walks: the controller's layers
      when it is an editable `AnimatorController`, none otherwise. */
  function EditableLayers(controller: RuntimeController): seq<StateMachineNode>
  {
    if controller.Editable? then controller.layers else []
  }

  /** Discovery over all layers lists each state name once, in
      first-occurrence order of the depth-first walk. */
  function DiscoveredNames(layers: seq<StateMachineNode>): seq<string>
  {
    AppendUnique([], AllStatesOf(layers))
  }

  /** A name is discovered iff some layer's machine tree holds it, and none
      is discovered twice: duplicates are judged by name alone, across layers. */
  lemma DiscoveredNamesSpec(layers: seq<StateMachineNode>, n: string)
    ensures n in DiscoveredNames(layers) <==> exists l :: 0 <= l < |layers| && n in AllStates(layers[l])
    ensures NoDuplicates(DiscoveredNames(layers))
  {
    InAllStatesOf(layers, n);
  }

  /** Walking one more sub-machine extends the walk by its names. */
  lemma SubMachineStep(acc: seq<string>, m: StateMachineNode, j: int)
    requires 0 <= j < |m.subMachines|
    ensures AppendUnique(AppendUnique(acc, m.states + AllStatesOf(m.subMachines[..j])), AllStates(m.subMachines[j]))
         == AppendUnique(acc, m.states + AllStatesOf(m.subMachines[..j + 1]))
  {
    var s, y, z := m.states, AllStatesOf(m.subMachines[..j]), AllStates(m.subMachines[j]);
    AllStatesOfSnoc(m.subMachines, j);
    assert s + (y + z) == (s + y) + z;
    AppendUniqueConcat(acc, s + y, z);
  }

  class AnimationTrigger {
    /** Whether an Animator was assigned or found on the object. */
    const hasAnimator: bool
    const blendDuration: real
    const autoStart: bool

    var animationStates: seq<string>
    /** The serialised `discoveredStates` array shown in the inspector. */
    var discoveredStates: seq<string>
    var currentAnimationIndex: int
    /** The running loop coroutine, by handle; handles are issued 0, 1, 2, ... */
    var loop: Option<nat>
    var issued: nat
    var stopped: seq<nat>
    /** Every call made on the Animator, oldest first. */
    var calls: seq<PlayerCall>

    ghost predicate Valid()
      reads this
    {
      0 <= currentAnimationIndex &&
      (animationStates != [] ==> currentAnimationIndex < |animationStates|) &&
      (loop.Some? ==> loop.value < issued)
    }

    constructor (hasAnimator: bool, blendDuration: real := 0.3, autoStart: bool := true)
      ensures Valid()
      ensures this.hasAnimator == hasAnimator && this.blendDuration == blendDuration
      ensures this.autoStart == autoStart
      ensures animationStates == [] && discoveredStates == [] && currentAnimationIndex == 0
      ensures loop == None && issued == 0 && stopped == [] && calls == []
    {
      this.hasAnimator := hasAnimator;
      this.blendDuration := blendDuration;
      this.autoStart := autoStart;
      animationStates, discoveredStates, currentAnimationIndex := [], [], 0;
      loop, issued, stopped, calls := None, 0, [], [];
    }

    /** `Start`, which Unity calls once, before any loop step. Without an
        Animator nothing happens; otherwise the states are discovered and
        the loop starts when `autoStart` holds and some state was found,
        cross-fading to the first state before its first wait. */
    method Start(controller: Option<RuntimeController>)
      requires Valid() && currentAnimationIndex == 0
      modifies this
      ensures Valid()
      ensures !hasAnimator ==>
        animationStates == old(animationStates) && discoveredStates == old(discoveredStates) &&
        loop == old(loop) && issued == old(issued) && stopped == old(stopped) && calls == old(calls)
      ensures hasAnimator ==>
        animationStates == (if controller.Some? then DiscoveredNames(EditableLayers(controller.value)) else [])
      ensures hasAnimator && controller.Some? ==> discoveredStates == animationStates
      ensures controller.None? ==> discoveredStates == old(discoveredStates)
      ensures hasAnimator && autoStart && animationStates != [] ==>
        loop == Some(old(issued)) && issued == old(issued) + 1 &&
        stopped == old(stopped) + (if old(loop).Some? then [old(loop).value] else []) &&
        calls == old(calls) + [CrossFadeName(animationStates[0], blendDuration, -1)]
      ensures !(hasAnimator && autoStart && animationStates != []) ==>
        loop == old(loop) && issued == old(issued) && stopped == old(stopped) && calls == old(calls)
      ensures currentAnimationIndex == 0
    {
      if !hasAnimator { return; }
      DiscoverAnimationStates(controller);
      if autoStart && |animationStates| > 0 {
        StartAnimationLoop();
      }
    }

    /** `DiscoverAnimationStates`: clears the list; with no runtime
        controller it returns before `discoveredStates` is assigned. */
    method DiscoverAnimationStates(controller: Option<RuntimeController>)
      modifies this`animationStates, this`discoveredStates
      ensures animationStates == (if controller.Some? then DiscoveredNames(EditableLayers(controller.value)) else [])
      ensures controller.Some? ==> discoveredStates == animationStates
      ensures controller.None? ==> discoveredStates == old(discoveredStates)
    {
      animationStates := [];
      if controller.None? { return; }
      var layers := EditableLayers(controller.value);
      var i := 0;
      while i < |layers|
        invariant 0 <= i <= |layers|
        invariant animationStates == AppendUnique([], AllStatesOf(layers[..i]))
      {
        DiscoverStatesRecursive(layers[i]);
        AppendUniqueConcat([], AllStatesOf(layers[..i]), AllStates(layers[i]));
        AllStatesOfSnoc(layers, i);
        i := i + 1;
      }
      assert layers[..i] == layers;
      discoveredStates := animationStates;
    }

    /** `DiscoverStatesRecursive(m)`: the machine's own states, then its
        sub-machines, each name added only when not yet listed. */
    method DiscoverStatesRecursive(m: StateMachineNode)
      modifies this`animationStates
      ensures animationStates == AppendUnique(old(animationStates), AllStates(m))
      decreases m
    {
      AddStates(m.states);
      assert m.states == m.states + AllStatesOf(m.subMachines[..0]);
      var j := 0;
      while j < |m.subMachines|
        invariant 0 <= j <= |m.subMachines|
        invariant animationStates == AppendUnique(old(animationStates), m.states + AllStatesOf(m.subMachines[..j]))
      {
        DiscoverStatesRecursive(m.subMachines[j]);
        SubMachineStep(old(animationStates), m, j);
        j := j + 1;
      }
      assert m.subMachines[..j] == m.subMachines;
      assert AllStates(m) == m.states + AllStatesOf(m.subMachines);
    }

    /** The `foreach (var state in stateMachine.states)` loop. */
    method AddStates(names: seq<string>)
      modifies this`animationStates
      ensures animationStates == AppendUnique(old(animationStates), names)
    {
      var i := 0;
      while i < |names|
        invariant 0 <= i <= |names|
        invariant animationStates == AppendUnique(old(animationStates), names[..i])
      {
        assert names[..i + 1][..i] == names[..i];
        if names[i] !in animationStates {
          animationStates := animationStates + [names[i]];
        }
        i := i + 1;
      }
      assert names[..i] == names;
    }

    /** `StartAnimationLoop`: stops the running loop, if any, and starts a
        new one, so at most one loop runs. `StartCoroutine` runs the new
        loop at once up to its first wait: with no states it ends there,
        otherwise it cross-fades to the current state. */
    method StartAnimationLoop()
      requires Valid()
      modifies this`loop, this`issued, this`stopped, this`calls
      ensures Valid()
      ensures loop == Some(old(issued)) && issued == old(issued) + 1
      ensures stopped == old(stopped) + (if old(loop).Some? then [old(loop).value] else [])
      ensures calls == old(calls) +
        if animationStates != [] then [CrossFadeName(animationStates[currentAnimationIndex], blendDuration, -1)] else []
    {
      if loop.Some? {
        stopped := stopped + [loop.value];
      }
      loop := Some(issued);
      issued := issued + 1;
      if |animationStates| != 0 {
        calls := calls + [CrossFadeName(animationStates[currentAnimationIndex], blendDuration, -1)];
      }
    }

    /** The `AnimationLoop` resumed after a wait: the index moves on
        cyclically, then, as the loop comes round, the new current state is
        cross-faded to before the next wait. A loop only waits when the
        list is non-empty, so with none this changes nothing and the loop
        is over. */
    method LoopStep() returns (continues: bool)
      requires Valid()
      modifies this`calls, this`currentAnimationIndex
      ensures Valid()
      ensures continues == (animationStates != [])
      ensures !continues ==> calls == old(calls) && currentAnimationIndex == old(currentAnimationIndex)
      ensures continues ==>
        currentAnimationIndex == Next(old(currentAnimationIndex), |animationStates|) &&
        calls == old(calls) + [CrossFadeName(animationStates[currentAnimationIndex], blendDuration, -1)]
    {
      if |animationStates| == 0 { return false; }
      NextStep(currentAnimationIndex, |animationStates|);
      currentAnimationIndex := CsRem(currentAnimationIndex + 1, |animationStates|);
      var currentState := animationStates[currentAnimationIndex];
      calls := calls + [CrossFadeName(currentState, blendDuration, -1)];
      return true;
    }
  }
}
