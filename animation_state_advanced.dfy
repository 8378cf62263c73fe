/** `AnimationStateMachineAdvanced<TState>` and its lifecycle objects
    `AnimationState<TState>`. Each registered state is an object with a
    fixed key, per-state settings (the virtual properties a subclass
    overrides) and a clock `StateTime`; the machine exits the old object
    and enters the new one on every transition. */
module AnimationStateAdvanced {
  import opened Wrappers
  import opened TransitionGate

  /** One lifecycle call on a state object, tagged with its `StateKey`. */
  datatype Hook<S> = Enter(key: S) | Exit(key: S) | Tick(key: S)

  /** An animation clip of the runtime controller: its name and length. */
  datatype Clip = Clip(name: string, length: real)

  /** The checks of `RequestStateChange`, in order: same key as the current
      object, locked, current object not interruptible, target not
      registered. `currentKey` is `None` while no state is current. */
  function AdvancedVerdict<S(==)>(target: S, currentKey: Option<S>, currentInterruptible: bool,
                                  locked: bool, registered: bool): (v: Verdict)
    ensures v == Accepted <==>
      currentKey != Some(target) && !locked && (currentKey.None? || currentInterruptible) && registered
    ensures v == SameState <==> currentKey == Some(target)
    ensures v == Locked <==> currentKey != Some(target) && locked
    ensures v == NotInterruptible <==>
      currentKey != Some(target) && !locked && currentKey.Some? && !currentInterruptible
    ensures v == UnknownTarget <==>
      currentKey != Some(target) && !locked && (currentKey.None? || currentInterruptible) && !registered
  {
    if currentKey == Some(target) then SameState
    else if locked then Locked
    else if currentKey.Some? && !currentInterruptible then NotInterruptible
    else if !registered then UnknownTarget
    else Accepted
  }

  /** The clip length `GetAnimationLength(name)` returns: 1 second when
      there is no runtime controller (`clips == None`), otherwise the
      first clip of that name, see `FirstClipLength`. */
  function ClipLength(clips: Option<seq<Clip>>, name: string): real
  {
    if clips.None? then 1.0 else FirstClipLength(clips.value, name)
  }

  function FirstClipLength(cs: seq<Clip>, name: string): real
  {
    if cs == [] then 1.0
    else if cs[0].name == name then cs[0].length
    else FirstClipLength(cs[1..], name)
  }

  /** The length is that of the first clip with the name. */
  lemma {:induction false} FirstClipLengthIsFirstMatch(cs: seq<Clip>, name: string, i: int)
    requires 0 <= i < |cs| && cs[i].name == name
    requires forall j :: 0 <= j < i ==> cs[j].name != name
    ensures FirstClipLength(cs, name) == cs[i].length
  {
    if i > 0 {
      FirstClipLengthIsFirstMatch(cs[1..], name, i - 1);
    }
  }

  /** With no clip of that name the length defaults to 1 second. */
  lemma {:induction false} FirstClipLengthNoMatch(cs: seq<Clip>, name: string)
    requires forall j :: 0 <= j < |cs| ==> cs[j].name != name
    ensures FirstClipLength(cs, name) == 1.0
  {
    if cs != [] {
      FirstClipLengthNoMatch(cs[1..], name);
    }
  }

  /** The table and its enumeration order after `AddState` of each
      registration in turn: an existing key's object is overwritten in
      place, a new key is enumerated last. */
  function AddAll<S(==,!new), T>(table: map<S, T>, order: seq<S>, regs: seq<(S, T)>): (r: (map<S, T>, seq<S>))
    ensures order <= r.1
    decreases |regs|
  {
    if regs == [] then (table, order)
    else
      var k := regs[0].0;
      AddAll(table[k := regs[0].1], if k in table then order else order + [k], regs[1..])
  }

  /** The keys registered afterwards are the old ones and every
      registration's key. */
  lemma {:induction false} AddAllKeys<S(!new), T>(table: map<S, T>, order: seq<S>, regs: seq<(S, T)>)
    ensures AddAll(table, order, regs).0.Keys == table.Keys + set j | 0 <= j < |regs| :: regs[j].0
    decreases |regs|
  {
    if regs != [] {
      var k := regs[0].0;
      AddAllKeys(table[k := regs[0].1], if k in table then order else order + [k], regs[1..]);
      assert forall i :: 1 <= i < |regs| ==> regs[i] == regs[1..][i - 1];
      assert (set j | 0 <= j < |regs| :: regs[j].0) ==
             {k} + set j | 0 <= j < |regs[1..]| :: regs[1..][j].0;
    }
  }

  /** The object registered for a key is its last registration. */
  lemma {:induction false} AddAllLastWins<S(!new), T>(table: map<S, T>, order: seq<S>, regs: seq<(S, T)>, i: int)
    requires 0 <= i < |regs|
    requires forall j :: i < j < |regs| ==> regs[j].0 != regs[i].0
    ensures regs[i].0 in AddAll(table, order, regs).0 && AddAll(table, order, regs).0[regs[i].0] == regs[i].1
    decreases |regs|
  {
    AddAllKeys(table, order, regs);
    var k := regs[0].0;
    var order' := if k in table then order else order + [k];
    if i == 0 {
      AddAllKeepsUntouched(table[k := regs[0].1], order', regs[1..], k);
    } else {
      AddAllLastWins(table[k := regs[0].1], order', regs[1..], i - 1);
    }
  }

  /** A key no registration names keeps its object. */
  lemma {:induction false} AddAllKeepsUntouched<S(!new), T>(table: map<S, T>, order: seq<S>, regs: seq<(S, T)>, s: S)
    requires s in table
    requires forall j :: 0 <= j < |regs| ==> regs[j].0 != s
    ensures s in AddAll(table, order, regs).0 && AddAll(table, order, regs).0[s] == table[s]
    decreases |regs|
  {
    AddAllKeys(table, order, regs);
    if regs != [] {
      var k := regs[0].0;
      AddAllKeepsUntouched(table[k := regs[0].1], if k in table then order else order + [k], regs[1..], s);
    }
  }

  /** A first registration with a new key puts that key right after the
      keys enumerated before; on an empty table it is enumerated first. */
  lemma {:induction false} AddAllFirstNewKey<S(!new), T>(table: map<S, T>, order: seq<S>, regs: seq<(S, T)>)
    requires regs != [] && regs[0].0 !in table
    ensures |AddAll(table, order, regs).1| > |order| && AddAll(table, order, regs).1[|order|] == regs[0].0
  {
    var r := AddAll(table[regs[0].0 := regs[0].1], order + [regs[0].0], regs[1..]);
    assert AddAll(table, order, regs) == r;
    assert order + [regs[0].0] <= r.1;
    assert (order + [regs[0].0])[|order|] == regs[0].0;
  }

  /** A state object. The settings are the values of the virtual
      properties; `nextRule` is `GetNextState` as a function of `StateTime`. */
  class AnimationState<S(==,!new)> {
    const StateKey: S
    const AnimationName: string
    const TransitionDuration: real
    const CanBeInterrupted: bool
    const IsLooping: bool
    const nextRule: real -> S
    var StateTime: real
    var machine: AnimationStateMachineAdvanced?<S>

    /** A state with every property at its default: the animation is named
        like the key (`keyName` is the key's `ToString()`), a 0.15 s
        transition, interruptible, looping, and "stay" as the next state. */
    constructor (stateKey: S, keyName: string)
      ensures StateKey == stateKey && AnimationName == keyName
      ensures TransitionDuration == 0.15 && CanBeInterrupted && IsLooping
      ensures StateTime == 0.0 && machine == null
      ensures forall t :: nextRule(t) == stateKey
    {
      StateKey := stateKey;
      AnimationName := keyName;
      TransitionDuration := 0.15;
      CanBeInterrupted := true;
      IsLooping := true;
      nextRule := _ => stateKey;
      StateTime := 0.0;
      machine := null;
    }

    /** A state whose subclass overrides the virtual properties. */
    constructor Custom(stateKey: S, animationName: string, transitionDuration: real,
                       canBeInterrupted: bool, isLooping: bool, nextRule: real -> S)
      ensures StateKey == stateKey && AnimationName == animationName
      ensures TransitionDuration == transitionDuration && CanBeInterrupted == canBeInterrupted
      ensures IsLooping == isLooping && this.nextRule == nextRule
      ensures StateTime == 0.0 && machine == null
    {
      StateKey := stateKey;
      AnimationName := animationName;
      TransitionDuration := transitionDuration;
      CanBeInterrupted := canBeInterrupted;
      IsLooping := isLooping;
      this.nextRule := nextRule;
      StateTime := 0.0;
      machine := null;
    }

    /** The calls `PlayAnimation` makes: a crossfade to the animation by
        name on layer 0, when a machine with a controller is set. */
    function PlayCalls(): seq<PlayerCall>
      reads this
    {
      if machine != null && machine.hasController
      then [CrossFadeName(AnimationName, TransitionDuration, 0)]
      else []
    }

    method SetStateMachine(m: AnimationStateMachineAdvanced<S>)
      modifies this`machine
      ensures machine == m
    {
      machine := m;
    }

    /** `EnterState`: restarts the clock and plays the animation; `played`
        is the controller calls made. */
    method EnterState() returns (played: seq<PlayerCall>)
      modifies this`StateTime
      ensures StateTime == 0.0 && played == PlayCalls()
    {
      StateTime := 0.0;
      played := PlayAnimation();
    }

    method PlayAnimation() returns (played: seq<PlayerCall>)
      ensures played == PlayCalls()
    {
      if machine != null && machine.hasController {
        played := [CrossFadeName(AnimationName, TransitionDuration, 0)];
      } else {
        played := [];
      }
    }

    /** `ExitState`: the default hook does nothing. */
    method ExitState()
    {
    }

    /** `UpdateState` with the frame's `deltaTime`. */
    method UpdateState(deltaTime: real)
      modifies this`StateTime
      ensures StateTime == old(StateTime) + deltaTime
    {
      StateTime := StateTime + deltaTime;
    }

    /** `GetNextState`; the default rule returns `StateKey`. */
    function GetNextState(): S
      reads this
    {
      nextRule(StateTime)
    }

    /** `GetAnimationLength(animationName)`: a search of the runtime
        controller's clips for the first one with that name. */
    method GetAnimationLength(animationName: string, clips: Option<seq<Clip>>) returns (length: real)
      ensures length == ClipLength(clips, animationName)
    {
      if clips.None? { return 1.0; }
      var cs := clips.value;
      var i := 0;
      while i < |cs|
        invariant 0 <= i <= |cs|
        invariant FirstClipLength(cs[i..], animationName) == FirstClipLength(cs, animationName)
      {
        if cs[i].name == animationName {
          return cs[i].length;
        }
        assert cs[i..][1..] == cs[i + 1..];
        i := i + 1;
      }
      return 1.0;
    }

    /** `GetAnimationLength()`: the length of this state's own animation. */
    method GetOwnAnimationLength(clips: Option<seq<Clip>>) returns (length: real)
      ensures length == ClipLength(clips, AnimationName)
    {
      length := GetAnimationLength(AnimationName, clips);
    }

    /** `TransitionTo(newState)` at time `now`: a request to the owning
        machine, and nothing at all without one. */
    method TransitionTo(newState: S, now: real)
      modifies machine, if machine != null then machine.states.Values else {}
      ensures machine == old(machine)
      ensures machine != null ==> machine.RequestOutcome(newState, now)
    {
      if machine != null {
        var _ := machine.RequestStateChange(newState, now);
      }
    }
  }

  class AnimationStateMachineAdvanced<S(==,!new)> {
    /** Whether an `AnimationController` was found in `Awake`. */
    const hasController: bool
    const autoTransition: bool
    /** `default(TState)`. */
    const defaultKey: S

    var states: map<S, AnimationState<S>>
    /** The keys of `states` in first-insertion order, the order in which
        the dictionary enumerates them. */
    var keyOrder: seq<S>
    var current: AnimationState?<S>
    var previous: AnimationState?<S>
    var isLocked: bool
    var lockEndTime: real

    /** Every `OnStateChanged(previous, new)` notification, oldest first. */
    var changes: seq<(S, S)>
    /** Every lifecycle hook the machine called, oldest first. */
    var hooks: seq<Hook<S>>
    /** Every call made on the controller, oldest first. */
    var calls: seq<PlayerCall>

    ghost predicate Valid()
      reads this
    {
      (forall i, j :: 0 <= i < j < |keyOrder| ==> keyOrder[i] != keyOrder[j]) &&
      (forall k :: k in states <==> k in keyOrder)
    }

    /** Component creation and `Awake`: no states, nothing current. */
    constructor (hasController: bool, autoTransition: bool, defaultKey: S)
      ensures Valid()
      ensures this.hasController == hasController && this.autoTransition == autoTransition
      ensures this.defaultKey == defaultKey
      ensures states == map[] && keyOrder == [] && current == null && previous == null && !isLocked
      ensures changes == [] && hooks == [] && calls == []
    {
      this.hasController := hasController;
      this.autoTransition := autoTransition;
      this.defaultKey := defaultKey;
      states, keyOrder := map[], [];
      current, previous := null, null;
      isLocked, lockEndTime := false, 0.0;
      changes, hooks, calls := [], [], [];
    }

    predicate IsLocked(now: real)
      reads this
    {
      LockActive(isLocked, lockEndTime, now)
    }

    /** `CurrentStateKey`: the current object's key, or the default. */
    function CurrentStateKey(): S
      reads this
    {
      if current != null then current.StateKey else defaultKey
    }

    function CurrentKey(): Option<S>
      reads this
    {
      if current != null then Some(current.StateKey) else None
    }

    predicate WouldAccept(target: S, now: real)
      reads this
    {
      AdvancedVerdict(target, CurrentKey(), current != null && current.CanBeInterrupted,
                      IsLocked(now), target in states) == Accepted
    }

    /** The effect of `PerformTransition(next)`: the old object exits before
        `next` enters, previous takes the old current object, and one
        notification reports the old key (the default when nothing was
        current) and the new one. The table, the lock and every other
        state object's clock are left alone. */
    twostate predicate Transitioned(next: AnimationState<S>)
      reads this, next, states.Values
    {
      states == old(states) && previous == old(current) && current == next && next.StateTime == 0.0 &&
      hooks == old(hooks) + (if old(current) != null then [Exit(old(current).StateKey)] else [])
                          + [Enter(next.StateKey)] &&
      calls == old(calls) + old(next.PlayCalls()) &&
      changes == old(changes) + [(old(CurrentStateKey()), next.StateKey)] &&
      keyOrder == old(keyOrder) && lockEndTime == old(lockEndTime) &&
      (forall st | st in states.Values && st != next :: st.StateTime == old(st.StateTime)) &&
      (forall st | st in states.Values :: st.machine == old(st.machine))
    }

    /** Nothing observable changed. */
    twostate predicate Unchanged()
      reads this, states.Values
    {
      states == old(states) && previous == old(previous) && current == old(current) &&
      hooks == old(hooks) && calls == old(calls) && changes == old(changes) &&
      keyOrder == old(keyOrder) && isLocked == old(isLocked) && lockEndTime == old(lockEndTime) &&
      (forall st | st in states.Values :: st.StateTime == old(st.StateTime) && st.machine == old(st.machine))
    }

    /** What `RequestStateChange(target)` at `now` does to the machine. */
    twostate predicate RequestOutcome(target: S, now: real)
      reads this, states.Values
    {
      if old(WouldAccept(target, now))
      then states == old(states) && Transitioned(old(states)[target]) && isLocked == old(isLocked)
      else Unchanged()
    }

    /** `AddState(key, state)`: overwrites by key and points the object at this machine. */
    method AddState(key: S, state: AnimationState<S>)
      requires Valid()
      modifies this`states, this`keyOrder, state`machine
      ensures Valid()
      ensures states == old(states)[key := state] && state.machine == this
      ensures keyOrder == if key in old(states) then old(keyOrder) else old(keyOrder) + [key]
    {
      if key !in states {
        keyOrder := keyOrder + [key];
      }
      states := states[key := state];
      state.SetStateMachine(this);
    }

    /** `GetState(key)`: the registered object, or null. */
    function GetState(key: S): (st: AnimationState?<S>)
      reads this
      ensures st == null <==> key !in states
      ensures st != null ==> st == states[key]
    {
      if key in states then states[key] else null
    }

    /** `IsInState(key)`: false while nothing is current. */
    predicate IsInState(key: S)
      reads this
      ensures IsInState(key) <==> current != null && CurrentStateKey() == key
    {
      current != null && current.StateKey == key
    }

    method PerformTransition(next: AnimationState<S>)
      requires next in states.Values
      modifies this`previous, this`current, this`hooks, this`calls, this`changes, next`StateTime
      ensures Transitioned(next)
    {
      var prevKey := if current != null then current.StateKey else defaultKey;
      previous := current;
      if current != null {
        current.ExitState();
        hooks := hooks + [Exit(current.StateKey)];
      }
      current := next;
      var played := current.EnterState();
      hooks := hooks + [Enter(current.StateKey)];
      calls := calls + played;
      changes := changes + [(prevKey, current.StateKey)];
    }

    /** `RequestStateChange(target)` at time `now`. */
    method RequestStateChange(target: S, now: real) returns (ok: bool)
      modifies this, states.Values
      ensures ok == old(WouldAccept(target, now)) && RequestOutcome(target, now)
    {
      if current != null && current.StateKey == target { return false; }
      if IsLocked(now) { return false; }
      if current != null && !current.CanBeInterrupted { return false; }
      if target !in states { return false; }
      PerformTransition(states[target]);
      return true;
    }

    /** `ForceStateChange(target)`: an unregistered target changes nothing,
        lock included; a registered one clears the lock and transitions,
        re-entering the current object when it is already current. */
    method ForceStateChange(target: S)
      modifies this, states.Values
      ensures old(target !in states) ==> Unchanged()
      ensures old(target in states) ==> Transitioned(old(states)[target]) && !isLocked
    {
      if target !in states { return; }
      isLocked := false;
      PerformTransition(states[target]);
    }

    /** `Start`: `InitializeStates` adds `registrations` in order, every
        registered object is pointed at this machine; then, if nothing is
        current and states exist, the first enumerated one is entered,
        with no notification. */
    method Start(registrations: seq<(S, AnimationState<S>)>)
      requires Valid()
      modifies this, (set i | 0 <= i < |registrations| :: registrations[i].1)`machine
      modifies (set i | 0 <= i < |registrations| :: registrations[i].1)`StateTime
      modifies states.Values`machine, states.Values`StateTime
      ensures Valid()
      ensures (states, keyOrder) == AddAll(old(states), old(keyOrder), registrations)
      ensures old(keyOrder) <= keyOrder
      ensures forall i :: 0 <= i < |registrations| ==> registrations[i].0 in states
      ensures forall st | st in states.Values :: st.machine == this
      ensures states.Values <= old(states.Values) + set j | 0 <= j < |registrations| :: registrations[j].1
      ensures forall st | st in states.Values ::
        st.StateTime == old(st.StateTime) || (old(current) == null && st == current)
      ensures changes == old(changes) && previous == old(previous)
      ensures isLocked == old(isLocked) && lockEndTime == old(lockEndTime)
      ensures old(current) != null || keyOrder == [] ==>
        current == old(current) && hooks == old(hooks) && calls == old(calls)
      ensures old(current) == null && keyOrder != [] ==>
        current == states[keyOrder[0]] && current.StateTime == 0.0 &&
        hooks == old(hooks) + [Enter(current.StateKey)] && calls == old(calls) + current.PlayCalls()
    {
      InitializeStates(registrations);
      AttachAndEnter();
    }

    /** The rest of `Start`, once the states are registered: every state is
        pointed at this machine, then the first one is entered if nothing
        is current. */
    method AttachAndEnter()
      requires Valid()
      modifies this`current, this`hooks, this`calls, states.Values`machine, states.Values`StateTime
      ensures forall st | st in states.Values :: st.machine == this
      ensures forall st | st in states.Values ::
        st.StateTime == old(st.StateTime) || (old(current) == null && st == current)
      ensures old(current) != null || keyOrder == [] ==>
        current == old(current) && hooks == old(hooks) && calls == old(calls)
      ensures old(current) == null && keyOrder != [] ==>
        current == states[keyOrder[0]] && current.StateTime == 0.0 &&
        hooks == old(hooks) + [Enter(current.StateKey)] && calls == old(calls) + current.PlayCalls()
    {
      AttachAll();
      EnterFirst();
    }

    /** The end of `Start`: with nothing current, the first enumerated
        state, if any, is entered. */
    method EnterFirst()
      requires Valid()
      modifies this`current, this`hooks, this`calls, states.Values`StateTime
      ensures forall st | st in states.Values ::
        st.StateTime == old(st.StateTime) || (old(current) == null && st == current)
      ensures old(current) != null || keyOrder == [] ==>
        current == old(current) && hooks == old(hooks) && calls == old(calls)
      ensures old(current) == null && keyOrder != [] ==>
        current == states[keyOrder[0]] && current.StateTime == 0.0 &&
        hooks == old(hooks) + [Enter(current.StateKey)] && calls == old(calls) + current.PlayCalls()
    {
      if current == null && |keyOrder| > 0 {
        assert keyOrder[0] in states;
        assert states[keyOrder[0]] in states.Values;
        current := states[keyOrder[0]];
        var played := current.EnterState();
        hooks := hooks + [Enter(current.StateKey)];
        calls := calls + played;
      }
    }

    /** `InitializeStates`: the registrations added in order. */
    method InitializeStates(registrations: seq<(S, AnimationState<S>)>)
      requires Valid()
      modifies this`states, this`keyOrder, (set i | 0 <= i < |registrations| :: registrations[i].1)`machine
      ensures Valid()
      ensures (states, keyOrder) == AddAll(old(states), old(keyOrder), registrations)
      ensures old(keyOrder) <= keyOrder
      ensures forall i :: 0 <= i < |registrations| ==>
        registrations[i].0 in states && registrations[i].1.machine == this
      ensures states.Values <= old(states.Values) + set j | 0 <= j < |registrations| :: registrations[j].1
    {
      var i := 0;
      while i < |registrations|
        invariant 0 <= i <= |registrations| && Valid()
        invariant AddAll(states, keyOrder, registrations[i..]) == AddAll(old(states), old(keyOrder), registrations)
        invariant old(keyOrder) <= keyOrder
        invariant forall j :: 0 <= j < i ==> registrations[j].0 in states && registrations[j].1.machine == this
        invariant states.Values <= old(states.Values) + set j | 0 <= j < |registrations| :: registrations[j].1
      {
        assert registrations[i..][1..] == registrations[i + 1..];
        AddState(registrations[i].0, registrations[i].1);
        i := i + 1;
      }
    }

    /** The loop of `Start` that points every registered object at this
        machine, in enumeration order. */
    method AttachAll()
      requires Valid()
      modifies states.Values`machine
      ensures forall st | st in states.Values :: st.machine == this
    {
      var i := 0;
      while i < |keyOrder|
        invariant 0 <= i <= |keyOrder|
        invariant forall j :: 0 <= j < i ==> states[keyOrder[j]].machine == this
      {
        states[keyOrder[i]].SetStateMachine(this);
        i := i + 1;
      }
      forall st | st in states.Values
        ensures st.machine == this
      {
        var k :| k in states && states[k] == st;
        var j :| 0 <= j < |keyOrder| && keyOrder[j] == k;
      }
    }

    /** `Update` at time `now` with the frame's `deltaTime`: clears an
        expired lock, ticks the current object, then, with auto-transition
        on, requests the object's next state when it differs from its key. */
    method Update(now: real, deltaTime: real)
      modifies this, states.Values, current
      ensures isLocked == (old(isLocked) && now < old(lockEndTime))
      ensures old(current) == null ==>
        current == null && previous == old(previous) && hooks == old(hooks) && changes == old(changes) &&
        calls == old(calls) && states == old(states) && keyOrder == old(keyOrder) && lockEndTime == old(lockEndTime) &&
        forall st | st in old(states).Values :: st.StateTime == old(st.StateTime) && st.machine == old(st.machine)
      ensures old(current) != null ==>
        var c := old(current);
        var next := c.nextRule(old(c.StateTime) + deltaTime);
        var go := autoTransition && next != c.StateKey && old(WouldAccept(next, now));
        states == old(states) && keyOrder == old(keyOrder) && lockEndTime == old(lockEndTime) &&
        (forall st | st in states.Values :: st.machine == old(st.machine)) &&
        (forall st | st in states.Values && st != c && (!go || st != old(states)[next]) :: st.StateTime == old(st.StateTime)) &&
        if go then
          var n := old(states)[next];
          previous == c && current == n && n.StateTime == 0.0 &&
          (n != c ==> c.StateTime == old(c.StateTime) + deltaTime) &&
          hooks == old(hooks) + [Tick(c.StateKey), Exit(c.StateKey), Enter(n.StateKey)] &&
          calls == old(calls) + old(n.PlayCalls()) &&
          changes == old(changes) + [(c.StateKey, n.StateKey)]
        else
          previous == old(previous) && current == c && c.StateTime == old(c.StateTime) + deltaTime &&
          hooks == old(hooks) + [Tick(c.StateKey)] && calls == old(calls) && changes == old(changes)
    {
      if isLocked && now >= lockEndTime {
        isLocked := false;
      }
      if current == null { return; }
      current.UpdateState(deltaTime);
      hooks := hooks + [Tick(current.StateKey)];
      if autoTransition {
        var next := current.GetNextState();
        if next != current.StateKey {
          var _ := RequestStateChange(next, now);
        }
      }
    }

    /** `LockForDuration(duration)` at time `now`. */
    method LockForDuration(duration: real, now: real)
      modifies this`isLocked, this`lockEndTime
      ensures forall t :: IsLocked(t) <==> t < now + duration
    {
      isLocked := true;
      lockEndTime := now + duration;
    }

    /** `Unlock`. */
    method Unlock()
      modifies this`isLocked
      ensures forall t :: !IsLocked(t)
    {
      isLocked := false;
    }
  }
}
