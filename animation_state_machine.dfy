/** `AnimationStateMachine<TState>`: an enum-keyed state machine that plays
    a registered config through an `AnimationController` on every change of
    state. Unlike `CharacterAnimator`, the target of a request need not be
    registered, and no request ever arms the lock. */
module AnimationStateMachine {
  import opened Wrappers
  import opened TransitionGate

  /** `EnumStateConfig`, with the defaults of `RegisterState`'s optional parameters. */
  datatype EnumStateConfig = EnumStateConfig(
    StateName: string,
    TransitionDuration: real,
    CanBeInterrupted: bool,
    IsLooping: bool,
    SpeedMultiplier: real)

  /** The order of checks in `RequestStateChange`: same state, lock, and the
      current state's interrupt flag. An unregistered current state never
      blocks, and the target is not looked up at all. */
  function RequestVerdict<S(==)>(target: S, current: S, locked: bool,
                                 currentConfig: Option<EnumStateConfig>): (v: Verdict)
    ensures v == Accepted <==>
      target != current && !locked && (currentConfig.None? || currentConfig.value.CanBeInterrupted)
    ensures v == SameState <==> target == current
    ensures v == Locked <==> target != current && locked
    ensures v == NotInterruptible <==>
      target != current && !locked && currentConfig.Some? && !currentConfig.value.CanBeInterrupted
  {
    if target == current then SameState
    else if locked then Locked
    else if currentConfig.Some? && !currentConfig.value.CanBeInterrupted then NotInterruptible
    else Accepted
  }

  /** The table `InitializeStates` leaves behind: `RegisterState` overwrites,
      so the last registration of a state wins. */
  function RegisterAll<S(==)>(m: map<S, EnumStateConfig>, regs: seq<(S, EnumStateConfig)>): (r: map<S, EnumStateConfig>)
    ensures r.Keys == m.Keys + set j | 0 <= j < |regs| :: regs[j].0
    decreases |regs|
  {
    if regs == [] then m
    else
      var r := RegisterAll(m[regs[0].0 := regs[0].1], regs[1..]);
      assert forall i :: 1 <= i < |regs| ==> regs[i] == regs[1..][i - 1];
      assert (set j | 0 <= j < |regs| :: regs[j].0) ==
             {regs[0].0} + set j | 0 <= j < |regs[1..]| :: regs[1..][j].0;
      r
  }

  /** The registered config of a state is its last registration. */
  lemma {:induction false} RegisterAllLastWins<S>(m: map<S, EnumStateConfig>, regs: seq<(S, EnumStateConfig)>, i: int)
    requires 0 <= i < |regs|
    requires forall j :: i < j < |regs| ==> regs[j].0 != regs[i].0
    ensures RegisterAll(m, regs)[regs[i].0] == regs[i].1
    decreases |regs|
  {
    if i == 0 {
      RegisterAllKeepsUntouched(m[regs[0].0 := regs[0].1], regs[1..], regs[0].0);
    } else {
      RegisterAllLastWins(m[regs[0].0 := regs[0].1], regs[1..], i - 1);
    }
  }

  /** A state registered by no later call keeps its entry. */
  lemma {:induction false} RegisterAllKeepsUntouched<S>(m: map<S, EnumStateConfig>, regs: seq<(S, EnumStateConfig)>, s: S)
    requires s in m
    requires forall j :: 0 <= j < |regs| ==> regs[j].0 != s
    ensures RegisterAll(m, regs)[s] == m[s]
    decreases |regs|
  {
    if regs != [] {
      RegisterAllKeepsUntouched(m[regs[0].0 := regs[0].1], regs[1..], s);
    }
  }

  class AnimationStateMachine<TState(==)> {
    /** Whether an `AnimationController` was found in `Awake`. */
    const hasController: bool
    /** `Animator.StringToHash`, which the controller's `GetStateHash` returns. */
    const hash: string -> int

    var currentState: TState
    var previousState: TState
    var isLocked: bool
    var lockEndTime: real
    var stateConfigs: map<TState, EnumStateConfig>
    var stateHashes: map<TState, int>

    /** Every `OnStateChanged(previous, current)` notification, oldest first. */
    var changes: seq<(TState, TState)>
    /** Every call made on the controller, oldest first. */
    var calls: seq<PlayerCall>

    predicate IsLocked(now: real)
      reads this
    {
      LockActive(isLocked, lockEndTime, now)
    }

    /** The current state's registered config, if any. */
    function CurrentConfig(): Option<EnumStateConfig>
      reads this
    {
      if currentState in stateConfigs then Some(stateConfigs[currentState]) else None
    }

    /** Whether `RequestStateChange(target)` would be accepted at time `now`. */
    predicate WouldAccept(target: TState, now: real)
      reads this
    {
      RequestVerdict(target, currentState, IsLocked(now), CurrentConfig()) == Accepted
    }

    /** The controller calls `PlayCurrentState` makes while in state `s`:
        nothing without a controller or for an unregistered state; otherwise
        the speed, then a crossfade by the pre-cached hash, or by name when
        the state was registered after `Awake`. */
    function PlayCalls(s: TState): seq<PlayerCall>
      reads this
    {
      if !hasController || s !in stateConfigs then []
      else
        var c := stateConfigs[s];
        [SetSpeed(c.SpeedMultiplier),
         if s in stateHashes then CrossFadeHash(stateHashes[s], c.TransitionDuration, 0)
         else CrossFadeName(c.StateName, c.TransitionDuration, 0)]
    }

    /** Component creation and `Awake`: `InitializeStates` registers
        `registrations` in order, then every registered state's hash is
        cached (0 without a controller). The current and previous state
        start as `default(TState)`. */
    constructor (defaultState: TState, registrations: seq<(TState, EnumStateConfig)>,
                 hasController: bool, hash: string -> int)
      ensures this.hasController == hasController && this.hash == hash
      ensures currentState == defaultState && previousState == defaultState && !isLocked
      ensures stateConfigs == RegisterAll(map[], registrations)
      ensures stateHashes.Keys == stateConfigs.Keys
      ensures forall s :: s in stateHashes ==>
        stateHashes[s] == if hasController then hash(stateConfigs[s].StateName) else 0
      ensures changes == [] && calls == []
    {
      this.hasController := hasController;
      this.hash := hash;
      currentState, previousState := defaultState, defaultState;
      isLocked, lockEndTime := false, 0.0;
      stateConfigs, stateHashes := map[], map[];
      changes, calls := [], [];
      new;
      InitializeStates(registrations);
      CacheHashes();
    }

    /** `InitializeStates`: the registrations, in order. */
    method InitializeStates(registrations: seq<(TState, EnumStateConfig)>)
      modifies this`stateConfigs
      ensures stateConfigs == RegisterAll(old(stateConfigs), registrations)
    {
      var i := 0;
      while i < |registrations|
        invariant 0 <= i <= |registrations|
        invariant RegisterAll(stateConfigs, registrations[i..]) == RegisterAll(old(stateConfigs), registrations)
      {
        assert registrations[i..][1..] == registrations[i + 1..];
        RegisterState(registrations[i].0, registrations[i].1.StateName, registrations[i].1.TransitionDuration,
                      registrations[i].1.CanBeInterrupted, registrations[i].1.IsLooping,
                      registrations[i].1.SpeedMultiplier);
        i := i + 1;
      }
    }

    /** The hash caching of `Awake`: one hash per registered state, 0
        without a controller. */
    method CacheHashes()
      modifies this`stateHashes
      ensures stateHashes.Keys == stateConfigs.Keys
      ensures forall s :: s in stateHashes ==>
        stateHashes[s] == if hasController then hash(stateConfigs[s].StateName) else 0
    {
      stateHashes := map[];
      var pending := stateConfigs.Keys;
      while pending != {}
        invariant pending <= stateConfigs.Keys
        invariant stateHashes.Keys == stateConfigs.Keys - pending
        invariant forall s :: s in stateHashes ==>
          stateHashes[s] == if hasController then hash(stateConfigs[s].StateName) else 0
        decreases pending
      {
        var s :| s in pending;
        stateHashes := stateHashes[s := if hasController then hash(stateConfigs[s].StateName) else 0];
        pending := pending - {s};
      }
    }

    /** `RegisterState`: overwrites any earlier config of the same state. */
    method RegisterState(state: TState, animatorStateName: string,
                         transitionDuration: real := 0.1, canBeInterrupted: bool := true,
                         isLooping: bool := true, speedMultiplier: real := 1.0)
      modifies this`stateConfigs
      ensures stateConfigs == old(stateConfigs)[state := EnumStateConfig(
        animatorStateName, transitionDuration, canBeInterrupted, isLooping, speedMultiplier)]
    {
      stateConfigs := stateConfigs[state := EnumStateConfig(
        animatorStateName, transitionDuration, canBeInterrupted, isLooping, speedMultiplier)];
    }

    /** `Start`: the first value of the enumeration becomes current and is
        played, with no notification. */
    method Start(enumValues: seq<TState>)
      modifies this`currentState, this`calls
      ensures enumValues == [] ==> currentState == old(currentState) && calls == old(calls)
      ensures enumValues != [] ==>
        currentState == enumValues[0] && calls == old(calls) + PlayCalls(enumValues[0])
    {
      if |enumValues| > 0 {
        currentState := enumValues[0];
        PlayCurrentState();
      }
    }

    /** `Update` at time `now`: clears the flag once the lock has run out. */
    method Update(now: real)
      modifies this`isLocked
      ensures isLocked == (old(isLocked) && now < lockEndTime)
      ensures IsLocked(now) == old(IsLocked(now))
    {
      if isLocked && now >= lockEndTime {
        isLocked := false;
      }
    }

    /** `RequestStateChange(target)` at time `now`. */
    method RequestStateChange(target: TState, now: real) returns (ok: bool)
      modifies this`currentState, this`previousState, this`changes, this`calls
      ensures ok == old(WouldAccept(target, now))
      ensures !ok ==> currentState == old(currentState) && previousState == old(previousState) &&
                      changes == old(changes) && calls == old(calls)
      ensures ok ==> previousState == old(currentState) && currentState == target &&
                     changes == old(changes) + [(old(currentState), target)] &&
                     calls == old(calls) + PlayCalls(target)
    {
      if currentState == target { return false; }
      if IsLocked(now) { return false; }
      if currentState in stateConfigs {
        if !stateConfigs[currentState].CanBeInterrupted { return false; }
      }
      previousState := currentState;
      currentState := target;
      PlayCurrentState();
      changes := changes + [(previousState, currentState)];
      ok := true;
    }

    /** `ForceStateChange(target)`: clears the lock and changes state even
        when `target` is already current. */
    method ForceStateChange(target: TState)
      modifies this`currentState, this`previousState, this`isLocked, this`changes, this`calls
      ensures !isLocked && previousState == old(currentState) && currentState == target
      ensures changes == old(changes) + [(old(currentState), target)]
      ensures calls == old(calls) + PlayCalls(target)
    {
      isLocked := false;
      previousState := currentState;
      currentState := target;
      PlayCurrentState();
      changes := changes + [(previousState, currentState)];
    }

    /** `LockForDuration(duration)` at time `now`. */
    method LockForDuration(duration: real, now: real)
      modifies this`isLocked, this`lockEndTime
      ensures forall t :: IsLocked(t) <==> t < now + duration
    {
      isLocked := true;
      lockEndTime := now + duration;
    }

    /** `Unlock`. */
    method Unlock()
      modifies this`isLocked
      ensures forall t :: !IsLocked(t)
    {
      isLocked := false;
    }

    method PlayCurrentState()
      modifies this`calls
      ensures calls == old(calls) + PlayCalls(currentState)
    {
      if !hasController { return; }
      if currentState in stateConfigs {
        var config := stateConfigs[currentState];
        calls := calls + [SetSpeed(config.SpeedMultiplier)];
        if currentState in stateHashes {
          calls := calls + [CrossFadeHash(stateHashes[currentState], config.TransitionDuration, 0)];
        } else {
          calls := calls + [CrossFadeName(config.StateName, config.TransitionDuration, 0)];
        }
      }
    }

    /** `CanInterrupt(state)`: false for an unregistered state. */
    predicate CanInterrupt(state: TState)
      reads this
      ensures CanInterrupt(state) ==> state in stateConfigs
    {
      state in stateConfigs && stateConfigs[state].CanBeInterrupted
    }

    predicate IsInState(state: TState)
      reads this
    {
      currentState == state
    }

    predicate WasInState(state: TState)
      reads this
    {
      previousState == state
    }
  }

  /** An unregistered current state never blocks a request, although
      `CanInterrupt` reports it as not interruptible. */
  lemma UnregisteredNeverBlocks<S>(m: AnimationStateMachine<S>, target: S, now: real)
    requires m.currentState !in m.stateConfigs && target != m.currentState && !m.IsLocked(now)
    ensures m.WouldAccept(target, now) && !m.CanInterrupt(m.currentState)
  {
  }
}
