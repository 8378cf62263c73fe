/** The list-building parts of `CharacterAnimatorEditor`: filling a
    `CharacterAnimator`'s animation list from the Animator Controller's
    states, and generating a C# class of key constants from that list. */
module CharacterAnimatorEditor {
  import opened Wrappers
  import opened Text
  import opened Paths
  import opened StateGraph
  import opened AnimationStateConfig

  /** A discovered state and the layer it was found on. */
  datatype StateInfo = StateInfo(Name: string, LayerIndex: int)

  function Tag(names: seq<string>, layer: int): (r: seq<StateInfo>)
    ensures |r| == |names|
    ensures forall i :: 0 <= i < |names| ==> r[i] == StateInfo(names[i], layer)
  {
    if names == [] then [] else Tag(names[..|names| - 1], layer) + [StateInfo(names[|names| - 1], layer)]
  }

  /** The pairs the layer loop offers, before de-duplication: layer by
      layer in index order, each in depth-first order. */
  function LayerInfos(layers: seq<StateMachineNode>): seq<StateInfo>
  {
    if layers == [] then []
    else LayerInfos(layers[..|layers| - 1]) + Tag(AllStates(layers[|layers| - 1]), |layers| - 1)
  }

  /** What the editor's discovery leaves in its list. */
  function DiscoveredStates(layers: seq<StateMachineNode>): seq<StateInfo>
  {
    AppendUnique([], LayerInfos(layers))
  }

  lemma {:induction false} InLayerInfos(layers: seq<StateMachineNode>, n: string, l: int)
    ensures StateInfo(n, l) in LayerInfos(layers) <==> 0 <= l < |layers| && n in AllStates(layers[l])
    decreases |layers|
  {
    if layers != [] {
      var init := layers[..|layers| - 1];
      InLayerInfos(init, n, l);
      var t := Tag(AllStates(layers[|layers| - 1]), |layers| - 1);
      if StateInfo(n, l) in t {
        var i :| 0 <= i < |t| && t[i] == StateInfo(n, l);
        assert n == AllStates(layers[|layers| - 1])[i];
      }
      if l == |layers| - 1 && n in AllStates(layers[l]) {
        var i :| 0 <= i < |AllStates(layers[l])| && AllStates(layers[l])[i] == n;
        assert t[i] == StateInfo(n, l);
      }
      if 0 <= l < |init| {
        assert init[l] == layers[l];
      }
    }
  }

  /** A (name, layer) pair is discovered iff that layer's machine tree holds
      the name, and no pair is discovered twice; so a name on two layers
      gives two entries. */
  lemma DiscoveredStatesSpec(layers: seq<StateMachineNode>, n: string, l: int)
    ensures StateInfo(n, l) in DiscoveredStates(layers) <==> 0 <= l < |layers| && n in AllStates(layers[l])
    ensures NoDuplicates(DiscoveredStates(layers))
  {
    InLayerInfos(layers, n, l);
  }

  /** `DiscoverStates(machine, layerIndex, states)`: adds the machine's own
      states, then recurses into its sub-machines, skipping pairs already listed. */
  method DiscoverStates(m: StateMachineNode, layerIndex: int, states: seq<StateInfo>) returns (result: seq<StateInfo>)
    ensures result == AppendUnique(states, Tag(AllStates(m), layerIndex))
    decreases m
  {
    result := AddStates(m.states, layerIndex, states);
    assert m.states == m.states + AllStatesOf(m.subMachines[..0]);
    var j := 0;
    while j < |m.subMachines|
      invariant 0 <= j <= |m.subMachines|
      invariant result == AppendUnique(states, Tag(m.states + AllStatesOf(m.subMachines[..j]), layerIndex))
    {
      result := DiscoverStates(m.subMachines[j], layerIndex, result);
      SubMachineStep(states, m, j, layerIndex);
      j := j + 1;
    }
    assert m.subMachines[..j] == m.subMachines;
    assert AllStates(m) == m.states + AllStatesOf(m.subMachines);
  }

  /** The `foreach (var childState in stateMachine.states)` loop. */
  method AddStates(names: seq<string>, layerIndex: int, states: seq<StateInfo>) returns (result: seq<StateInfo>)
    ensures result == AppendUnique(states, Tag(names, layerIndex))
  {
    result := states;
    var i := 0;
    while i < |names|
      invariant 0 <= i <= |names|
      invariant result == AppendUnique(states, Tag(names[..i], layerIndex))
    {
      assert names[..i + 1][..i] == names[..i];
      var info := StateInfo(names[i], layerIndex);
      if info !in result {
        result := result + [info];
      }
      i := i + 1;
    }
    assert names[..i] == names;
  }

  lemma TagConcat(xs: seq<string>, ys: seq<string>, layer: int)
    ensures Tag(xs + ys, layer) == Tag(xs, layer) + Tag(ys, layer)
  {
  }

  lemma SubMachineStep(acc: seq<StateInfo>, m: StateMachineNode, j: int, layer: int)
    requires 0 <= j < |m.subMachines|
    ensures AppendUnique(AppendUnique(acc, Tag(m.states + AllStatesOf(m.subMachines[..j]), layer)),
                         Tag(AllStates(m.subMachines[j]), layer))
         == AppendUnique(acc, Tag(m.states + AllStatesOf(m.subMachines[..j + 1]), layer))
  {
    var s, y, z := m.states, AllStatesOf(m.subMachines[..j]), AllStates(m.subMachines[j]);
    AllStatesOfSnoc(m.subMachines, j);
    assert s + (y + z) == (s + y) + z;
    TagConcat(s + y, z, layer);
    AppendUniqueConcat(acc, Tag(s + y, layer), Tag(z, layer));
  }

  /** The editor's loop over the controller's layers. */
  method DiscoverAll(layers: seq<StateMachineNode>) returns (states: seq<StateInfo>)
    ensures states == DiscoveredStates(layers)
  {
    states := [];
    var i := 0;
    while i < |layers|
      invariant 0 <= i <= |layers|
      invariant states == AppendUnique([], LayerInfos(layers[..i]))
    {
      assert layers[..i + 1][..i] == layers[..i];
      states := DiscoverStates(layers[i], i, states);
      AppendUniqueConcat([], LayerInfos(layers[..i]), Tag(AllStates(layers[i]), i));
      i := i + 1;
    }
    assert layers[..i] == layers;
  }

  /** The loop that turns the discovered pairs into list entries. */
  method BuildList(states: seq<StateInfo>, transitionDuration: real) returns (list: seq<AnimationStateConfig>)
    ensures |list| == |states|
    ensures forall j :: 0 <= j < |states| ==> list[j] == AutoFillEntry(states[j], transitionDuration)
  {
    list := [];
    var k := 0;
    while k < |states|
      invariant 0 <= k <= |states| && |list| == k
      invariant forall j :: 0 <= j < k ==> list[j] == AutoFillEntry(states[j], transitionDuration)
    {
      list := list + [AutoFillEntry(states[k], transitionDuration)];
      k := k + 1;
    }
  }

  /** The editable controller behind the Animator's runtime controller:
      itself, or the one an override controller wraps directly. */
  function ResolveController(c: RuntimeController): (r: Option<seq<StateMachineNode>>)
    ensures c.Editable? ==> r == Some(c.layers)
    ensures c.Override? && (c.inner.None? || c.inner.value.Override?) ==> r.None?
    ensures r.Some? && c.Override? ==> c.inner.Some? && r.value == c.inner.value.layers
  {
    match c
    case Editable(layers) => Some(layers)
    case Override(inner) =>
      if inner.Some? && inner.value.Editable? then Some(inner.value.layers) else None
  }

  /** The list entry auto-fill writes for a discovered state. */
  function AutoFillEntry(info: StateInfo, transitionDuration: real): (c: AnimationStateConfig)
    ensures c.Key == ReplaceChar(info.Name, '.', '_') && '.' !in c.Key
    ensures c.AnimatorStateName == info.Name && c.GetStateName() == info.Name
    ensures c.LayerIndex == info.LayerIndex && c.TransitionDuration == transitionDuration
    ensures c.CanBeInterrupted && c.IsLooping && c.SpeedMultiplier == 1.0 && !c.LocksOnEntry()
  {
    AnimationStateConfig(ReplaceChar(info.Name, '.', '_'), info.Name, info.LayerIndex,
                         transitionDuration, true, true, 1.0, 0.0)
  }

  /** The list auto-fill produces: one entry per discovered pair, in order. */
  function AutoFillList(layers: seq<StateMachineNode>, transitionDuration: real): (r: seq<AnimationStateConfig>)
    ensures |r| == |DiscoveredStates(layers)|
    ensures forall i :: 0 <= i < |r| ==> r[i] == AutoFillEntry(DiscoveredStates(layers)[i], transitionDuration)
  {
    var infos := DiscoveredStates(layers);
    seq(|infos|, i requires 0 <= i < |infos| => AutoFillEntry(infos[i], transitionDuration))
  }

  /** The identifier filter applied to key names: characters outside
      `[A-Za-z0-9_]` dropped, then `_` prefixed to a leading digit. */
  function SanitizeIdentifier(s: string): (r: string)
    ensures forall i :: 0 <= i < |r| ==> IsIdentChar(r[i])
    ensures r != [] ==> !IsAsciiDigit(r[0])
    ensures r == [] <==> KeepIdentChars(s) == []
  {
    var kept := KeepIdentChars(s);
    if kept != [] && IsAsciiDigit(kept[0]) then "_" + kept else kept
  }

  /** A valid C# identifier over `[A-Za-z0-9_]`. */
  predicate IsIdentifier(s: string) {
    s != [] && !IsAsciiDigit(s[0]) && forall i :: 0 <= i < |s| ==> IsIdentChar(s[i])
  }

  /** One key of the list: emitted under its identifier unless the key is
      empty, sanitises to nothing, or that identifier was emitted before. */
  function Emit(cs: seq<(string, string)>, key: string): seq<(string, string)> {
    var varName := SanitizeIdentifier(key);
    if key == [] || varName == [] || varName in Names(cs) then cs else cs + [(varName, key)]
  }

  /** The (identifier, key) constants of the generated class for the keys
      in list order. */
  function Constants(keys: seq<string>): seq<(string, string)> {
    if keys == [] then [] else Emit(Constants(keys[..|keys| - 1]), keys[|keys| - 1])
  }

  function Names(cs: seq<(string, string)>): (r: seq<string>)
    ensures |r| == |cs| && forall i :: 0 <= i < |cs| ==> r[i] == cs[i].0
  {
    if cs == [] then [] else Names(cs[..|cs| - 1]) + [cs[|cs| - 1].0]
  }

  lemma NamesSnoc(cs: seq<(string, string)>, c: (string, string))
    ensures Names(cs + [c]) == Names(cs) + [c.0]
  {
    assert (cs + [c])[..|cs|] == cs;
  }

  /** No identifier is emitted twice; each is a valid identifier, the
      sanitised form of a non-empty key of the list it is bound to. */
  lemma {:induction false} ConstantsWellFormed(keys: seq<string>)
    ensures NoDuplicates(Names(Constants(keys)))
    ensures WellBound(Constants(keys), keys)
  {
    if keys != [] {
      var init := keys[..|keys| - 1];
      ConstantsWellFormed(init);
      EmitWellFormed(Constants(init), init, keys[|keys| - 1]);
      assert init + [keys[|keys| - 1]] == keys;
    }
  }

  /** Every constant binds a valid identifier to a non-empty key of the
      list that sanitises to it. */
  predicate WellBound(cs: seq<(string, string)>, keys: seq<string>) {
    forall i :: 0 <= i < |cs| ==>
      cs[i].1 in keys && cs[i].1 != [] && cs[i].0 == SanitizeIdentifier(cs[i].1) && IsIdentifier(cs[i].0)
  }

  lemma EmitWellFormed(cs: seq<(string, string)>, keys: seq<string>, key: string)
    requires NoDuplicates(Names(cs)) && WellBound(cs, keys)
    ensures NoDuplicates(Names(Emit(cs, key))) && WellBound(Emit(cs, key), keys + [key])
  {
    var r := Emit(cs, key);
    forall i | 0 <= i < |cs|
      ensures cs[i].1 in keys + [key]
    {
    }
    if r != cs {
      var v := SanitizeIdentifier(key);
      NamesSnoc(cs, (v, key));
      assert Names(r) == Names(cs) + [v];
      assert r[|cs|] == (v, key);
    }
  }

  /** Every usable key is covered: its identifier is emitted. */
  lemma {:induction false} ConstantsCover(keys: seq<string>, i: int)
    requires 0 <= i < |keys| && keys[i] != [] && SanitizeIdentifier(keys[i]) != []
    ensures SanitizeIdentifier(keys[i]) in Names(Constants(keys))
  {
    var init := keys[..|keys| - 1];
    var key := keys[|keys| - 1];
    var cs := Constants(init);
    if i < |keys| - 1 {
      assert init[i] == keys[i];
      ConstantsCover(init, i);
    }
    if Emit(cs, key) != cs {
      NamesSnoc(cs, (SanitizeIdentifier(key), key));
    }
  }

  /** The first key with a given identifier is the one bound to it. */
  lemma {:induction false} ConstantsFirstWins(keys: seq<string>, i: int)
    requires 0 <= i < |keys| && keys[i] != [] && SanitizeIdentifier(keys[i]) != []
    requires forall k :: 0 <= k < i && keys[k] != [] ==> SanitizeIdentifier(keys[k]) != SanitizeIdentifier(keys[i])
    ensures (SanitizeIdentifier(keys[i]), keys[i]) in Constants(keys)
  {
    var init := keys[..|keys| - 1];
    var cs := Constants(init);
    if i < |keys| - 1 {
      assert forall k :: 0 <= k <= i ==> init[k] == keys[k];
      ConstantsFirstWins(init, i);
    } else {
      LastIsNew(keys);
    }
  }

  lemma LastIsNew(keys: seq<string>)
    requires keys != []
    requires var v := SanitizeIdentifier(keys[|keys| - 1]);
      forall k :: 0 <= k < |keys| - 1 && keys[k] != [] ==> SanitizeIdentifier(keys[k]) != v
    ensures SanitizeIdentifier(keys[|keys| - 1]) !in Names(Constants(keys[..|keys| - 1]))
  {
    var init := keys[..|keys| - 1];
    var v := SanitizeIdentifier(keys[|keys| - 1]);
    ConstantsWellFormed(init);
    forall k | k in init && k != []
      ensures SanitizeIdentifier(k) != v
    {
      var m :| 0 <= m < |init| && init[m] == k;
      assert keys[m] == k;
    }
    IdentifierIsNew(init, Constants(init), v);
  }

  /** An identifier no earlier key sanitises to was not emitted before. */
  lemma IdentifierIsNew(init: seq<string>, cs: seq<(string, string)>, v: string)
    requires forall k :: k in init && k != [] ==> SanitizeIdentifier(k) != v
    requires WellBound(cs, init)
    ensures v !in Names(cs)
  {
    forall j | 0 <= j < |cs|
      ensures Names(cs)[j] != v
    {
      assert cs[j].1 in init;
    }
  }

  /** Emitted constants keep list order: the constants of a prefix of the
      list are a prefix of the constants of the whole list. */
  lemma {:induction false} ConstantsPrefix(keys: seq<string>, n: int)
    requires 0 <= n <= |keys|
    ensures Constants(keys[..n]) <= Constants(keys)
    decreases |keys| - n
  {
    if n < |keys| {
      ConstantsPrefix(keys, n + 1);
      assert keys[..n + 1][..n] == keys[..n];
      assert Constants(keys[..n]) <= Constants(keys[..n + 1]);
    } else {
      assert keys[..n] == keys;
    }
  }

  /** The line `public const string {varName} = "{key}";`. */
  function ConstantLine(c: (string, string)): string {
    "        public const string " + c.0 + " = \"" + c.1 + "\";"
  }

  function ConstantLines(cs: seq<(string, string)>): (r: seq<string>)
    ensures |r| == |cs| && forall i :: 0 <= i < |cs| ==> r[i] == ConstantLine(cs[i])
  {
    seq(|cs|, i requires 0 <= i < |cs| => ConstantLine(cs[i]))
  }

  /** The generated file: the namespace and class header, the constants in
      list order, and two closing braces. */
  function KeysFile(className: string, keys: seq<string>): (lines: seq<string>)
    ensures |lines| == |Constants(keys)| + 4
    ensures lines[0] == "namespace AlfredWooden.Animation {"
    ensures lines[1] == "    public static class " + className + " {"
    ensures lines[2..|lines| - 2] == ConstantLines(Constants(keys))
    ensures lines[|lines| - 2..] == ["    }", "}"]
  {
    ["namespace AlfredWooden.Animation {", "    public static class " + className + " {"]
      + ConstantLines(Constants(keys)) + ["    }", "}"]
  }

  /** The identifiers emitted so far, as the `HashSet` holds them. */
  function NameSet(cs: seq<(string, string)>): set<string> {
    if cs == [] then {} else NameSet(cs[..|cs| - 1]) + {cs[|cs| - 1].0}
  }

  lemma {:induction false} NameSetIsNames(cs: seq<(string, string)>)
    ensures forall v :: v in NameSet(cs) <==> v in Names(cs)
  {
    if cs != [] {
      NameSetIsNames(cs[..|cs| - 1]);
    }
  }

  /** `Emit` decided on the set of emitted identifiers instead of the
      sequence, and the set after an identifier is added. */
  lemma EmitOnNameSet(cs: seq<(string, string)>, key: string)
    ensures var v := SanitizeIdentifier(key);
      Emit(cs, key) == if key == [] || v == [] || v in NameSet(cs) then cs else cs + [(v, key)]
    ensures NameSet(cs + [(SanitizeIdentifier(key), key)]) == NameSet(cs) + {SanitizeIdentifier(key)}
  {
    NameSetIsNames(cs);
    assert (cs + [(SanitizeIdentifier(key), key)])[..|cs|] == cs;
  }

  /** The body of that loop: one key against the set of emitted identifiers. */
  method EmitKey(cs: seq<(string, string)>, existingKeys: set<string>, key: string)
    returns (cs': seq<(string, string)>, existingKeys': set<string>)
    requires existingKeys == NameSet(cs)
    ensures cs' == Emit(cs, key) && existingKeys' == NameSet(cs')
  {
    EmitOnNameSet(cs, key);
    cs', existingKeys' := cs, existingKeys;
    if key != [] {
      var varName := KeepIdentChars(key);
      if varName != [] {
        if IsAsciiDigit(varName[0]) {
          varName := "_" + varName;
        }
        assert varName == SanitizeIdentifier(key);
        if varName !in existingKeys {
          existingKeys' := existingKeys + {varName};
          cs' := cs + [(varName, key)];
        }
      }
    }
  }

  /** The loop over the list with its `HashSet` of emitted identifiers. */
  method GenerateConstants(keys: seq<string>) returns (cs: seq<(string, string)>)
    ensures cs == Constants(keys)
  {
    cs := [];
    var existingKeys: set<string> := {};
    var i := 0;
    while i < |keys|
      invariant 0 <= i <= |keys|
      invariant cs == Constants(keys[..i])
      invariant existingKeys == NameSet(cs)
    {
      assert keys[..i + 1][..i] == keys[..i];
      cs, existingKeys := EmitKey(cs, existingKeys, keys[i]);
      i := i + 1;
    }
    assert keys[..i] == keys;
  }

  /** The class name as the source derives it from the chosen file: the
      file name without extension, filtered, then `className[0]` is read;
      `None` is the `IndexOutOfRangeException` that read throws when the
      filtered name is empty. */
  function ClassNameAsWritten(path: string): Option<string>
  {
    var filtered := KeepIdentChars(FileNameWithoutExtension(path));
    if filtered == [] then None
    else if IsAsciiDigit(filtered[0]) then Some("_" + filtered) else Some(filtered)
  }

  /** A file name with no identifier character, such as "-.cs", makes the
      class-name step throw. */
  lemma ClassNameAsWrittenThrows()
    ensures ClassNameAsWritten("Assets/-.cs") == None
  {
    assert AfterLast("Assets/-.cs", '/') == "-.cs" by {
      assert "Assets/-.cs"[..|"Assets/-.cs"| - 1] == "Assets/-.c";
      assert "Assets/-.c"[..|"Assets/-.c"| - 1] == "Assets/-.";
      assert "Assets/-."[..|"Assets/-."| - 1] == "Assets/-";
      assert "Assets/-"[..|"Assets/-"| - 1] == "Assets/";
    }
    assert FileNameWithoutExtension("Assets/-.cs") == "-" by {
      assert "-.cs"[..3] == "-.c";
      assert "-.c"[..2] == "-.";
    }
    assert KeepIdentChars("-") == [];
  }

  /** The class name with the crash guarded: `None` when no identifier
      character is left, in which case nothing is written. */
  function ClassName(path: string): (r: Option<string>)
    ensures r.Some? ==> IsIdentifier(r.value)
    ensures r.None? <==> KeepIdentChars(FileNameWithoutExtension(path)) == []
    ensures r.Some? ==> ClassNameAsWritten(path) == r
  {
    var n := SanitizeIdentifier(FileNameWithoutExtension(path));
    if n == [] then None else Some(n)
  }

  datatype AutoFillOutcome = NoAnimator | NoController | Cancelled | Filled

  datatype GenerateOutcome =
    | NoAnimations        // the list is empty: an error dialog, nothing asked
    | NoPath              // the save panel was cancelled
    | InvalidClassName    // the file name holds no identifier character
    | Written(path: string, lines: seq<string>)

  class CharacterAnimatorEditor {
    /** The serialised `_animations` list being edited. */
    var animations: seq<AnimationStateConfig>
    /** The serialised `_defaultTransitionDuration`. */
    const defaultTransitionDuration: real

    constructor (animations: seq<AnimationStateConfig>, defaultTransitionDuration: real)
      ensures this.animations == animations && this.defaultTransitionDuration == defaultTransitionDuration
    {
      this.animations := animations;
      this.defaultTransitionDuration := defaultTransitionDuration;
    }

    /** `AutoFillAnimations`. `animator` is the object's Animator (with its
        runtime controller, if any); `confirmed` is the answer to the
        "replace your list" dialog. */
    method AutoFillAnimations(animator: Option<Option<RuntimeController>>, confirmed: bool)
      returns (outcome: AutoFillOutcome)
      modifies this`animations
      ensures outcome == Filled <==>
        animator.Some? && animator.value.Some? && ResolveController(animator.value.value).Some? && confirmed
      ensures outcome != Filled ==> animations == old(animations)
      ensures outcome == Filled ==>
        animations == AutoFillList(ResolveController(animator.value.value).value, defaultTransitionDuration)
    {
      if animator.None? { return NoAnimator; }
      var controller := if animator.value.Some? then ResolveController(animator.value.value) else None;
      if controller.None? { return NoController; }
      if !confirmed { return Cancelled; }
      var states := DiscoverAll(controller.value);
      var list := BuildList(states, defaultTransitionDuration);
      animations := list;
      return Filled;
    }

    /** `GenerateKeysScript`, with `savePath` the path the save panel
        returned ("" when cancelled). Nothing in the list changes. */
    method GenerateKeysScript(savePath: string) returns (outcome: GenerateOutcome)
      ensures animations == [] <==> outcome == NoAnimations
      ensures outcome == NoPath <==> animations != [] && savePath == []
      ensures outcome.Written? <==> animations != [] && savePath != [] && ClassName(savePath).Some?
      ensures outcome.Written? ==>
        outcome.path == savePath && savePath != [] && ClassName(savePath).Some? &&
        outcome.lines == KeysFile(ClassName(savePath).value, KeysOf(animations))
      ensures outcome == InvalidClassName <==> animations != [] && savePath != [] && ClassName(savePath).None?
    {
      if |animations| == 0 { return NoAnimations; }
      if savePath == [] { return NoPath; }
      var className := ClassName(savePath);
      if className.None? { return InvalidClassName; }
      var cs := GenerateConstants(KeysOf(animations));
      var lines := ["namespace AlfredWooden.Animation {", "    public static class " + className.value + " {"]
                   + ConstantLines(cs) + ["    }", "}"];
      return Written(savePath, lines);
    }
  }

  /** The `Key` of each list entry, in order. */
  function KeysOf(cs: seq<AnimationStateConfig>): (r: seq<string>)
    ensures |r| == |cs| && forall i :: 0 <= i < |cs| ==> r[i] == cs[i].Key
  {
    seq(|cs|, i requires 0 <= i < |cs| => cs[i].Key)
  }
}
