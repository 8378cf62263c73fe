/** `CharacterAnimator`: plays animations by string key through a lookup
    table built from its configs, gated by a timed lock and by the current
    config's interrupt flag. */
module CharacterAnimator {
  import opened Wrappers
  import opened TransitionGate
  import opened AnimationStateConfig

  /** The lookup `BuildLookup` builds from the config list: empty keys are
      skipped and the first config of a duplicated key is kept. */
  function KeepFirst(cs: seq<AnimationStateConfig>): (m: map<string, AnimationStateConfig>)
    ensures [] !in m
    ensures forall k :: k in m ==> m[k].Key == k
  {
    if cs == [] then map[]
    else
      var m := KeepFirst(cs[..|cs| - 1]);
      var c := cs[|cs| - 1];
      if c.Key == [] || c.Key in m then m else m[c.Key := c]
  }

  /** A key is in the lookup exactly when some config carries it. */
  lemma {:induction false} KeepFirstKeys(cs: seq<AnimationStateConfig>, k: string)
    ensures k in KeepFirst(cs) <==> k != [] && exists i :: 0 <= i < |cs| && cs[i].Key == k
  {
    if cs != [] {
      var init := cs[..|cs| - 1];
      KeepFirstKeys(init, k);
      if k != [] && (exists i :: 0 <= i < |init| && init[i].Key == k) {
        var i :| 0 <= i < |init| && init[i].Key == k;
        assert cs[i] == init[i];
      }
      if k != [] && (exists i :: 0 <= i < |cs| && cs[i].Key == k) {
        var i :| 0 <= i < |cs| && cs[i].Key == k;
        if i < |init| { assert init[i] == cs[i]; }
      }
    }
  }

  /** The config kept for a key is its first occurrence in the list. */
  lemma {:induction false} KeepFirstIsFirst(cs: seq<AnimationStateConfig>, i: int)
    requires 0 <= i < |cs| && cs[i].Key != []
    requires forall j :: 0 <= j < i ==> cs[j].Key != cs[i].Key
    ensures cs[i].Key in KeepFirst(cs) && KeepFirst(cs)[cs[i].Key] == cs[i]
  {
    var init := cs[..|cs| - 1];
    if i < |cs| - 1 {
      KeepFirstIsFirst(init, i);
    } else {
      KeepFirstKeys(init, cs[i].Key);
      forall j | 0 <= j < |init| ensures init[j].Key != cs[i].Key {
        assert init[j] == cs[j];
      }
    }
  }

  /** The hash cache matching a lookup: the hash of each kept config's state name. */
  function HashesOf(m: map<string, AnimationStateConfig>, hash: string -> int): map<string, int>
  {
    map k | k in m :: hash(m[k].GetStateName())
  }

  lemma HashesOfUpdate(m: map<string, AnimationStateConfig>, hash: string -> int, c: AnimationStateConfig)
    ensures HashesOf(m[c.Key := c], hash) == HashesOf(m, hash)[c.Key := hash(c.GetStateName())]
  {
  }

  lemma HashesOfRemove(m: map<string, AnimationStateConfig>, hash: string -> int, key: string)
    ensures HashesOf(m - {key}, hash) == HashesOf(m, hash) - {key}
  {
  }

  /** The order of checks in `Play` and `PlayImmediate`: empty key, same key,
      unknown key, lock, interrupt flag. A forced request skips the last three
      of these except "unknown key". */
  function PlayVerdict(key: string, force: bool, currentKey: string, known: bool,
                       locked: bool, current: Option<AnimationStateConfig>): (v: Verdict)
    ensures v == Accepted <==>
      key != [] && (force || key != currentKey) && known &&
      (force || (!locked && (current.None? || current.value.CanBeInterrupted)))
    ensures v == EmptyKey <==> key == []
    ensures v == SameState <==> key != [] && key == currentKey && !force
    ensures v == UnknownTarget <==> key != [] && (force || key != currentKey) && !known
    ensures v == Locked <==> key != [] && key != currentKey && known && !force && locked
    ensures v == NotInterruptible <==>
      key != [] && key != currentKey && known && !force && !locked && current.Some? && !current.value.CanBeInterrupted
  {
    if key == [] then EmptyKey
    else if key == currentKey && !force then SameState
    else if !known then UnknownTarget
    else if !force && locked then Locked
    else if !force && current.Some? && !current.value.CanBeInterrupted then NotInterruptible
    else Accepted
  }

  /** `SetLocomotion(speed, idle, walk, run, walkThreshold, runThreshold)`:
      the key it asks `Play` for. */
  function LocomotionKey(speed: real, idleKey: string, walkKey: string, runKey: string,
                         walkThreshold: real, runThreshold: real): (k: string)
    ensures speed < walkThreshold ==> k == idleKey
    ensures walkThreshold <= speed && runThreshold <= speed ==> k == runKey
    ensures walkThreshold <= speed < runThreshold ==> k == walkKey
  {
    if speed < walkThreshold then idleKey else if speed >= runThreshold then runKey else walkKey
  }

  /** The position of the first element equal to `x`. */
  function IndexOf(s: seq<AnimationStateConfig>, x: AnimationStateConfig): (i: nat)
    requires x in s
    ensures i < |s| && s[i] == x && x !in s[..i]
  {
    if s[0] == x then 0
    else
      var j := IndexOf(s[1..], x);
      assert s[..j + 1] == [s[0]] + s[1..][..j];
      j + 1
  }

  /** List.Remove: drops the first element equal to `x`, if any, keeping
      the order of the rest. */
  function RemoveFirst(s: seq<AnimationStateConfig>, x: AnimationStateConfig): (r: seq<AnimationStateConfig>)
    ensures x in s ==> |r| == |s| - 1
    ensures x !in s ==> r == s
    ensures x in s ==> exists i :: 0 <= i < |s| && s[i] == x && x !in s[..i] && r == s[..i] + s[i + 1..]
    ensures multiset(r) == multiset(s) - multiset{x}
  {
    if x in s then
      var i := IndexOf(s, x);
      assert s == s[..i] + [s[i]] + s[i + 1..];
      s[..i] + s[i + 1..]
    else
      s
  }

  class CharacterAnimator {
    /** `_animations`: the inspector list. */
    var animations: seq<AnimationStateConfig>
    const defaultTransitionDuration: real
    /** `Animator.StringToHash`, supplied by the host. */
    const hash: string -> int

    var configLookup: map<string, AnimationStateConfig>
    var hashCache: map<string, int>
    var currentKey: string
    var currentConfig: Option<AnimationStateConfig>
    var isLocked: bool
    var lockEndTime: real

    /** Every `OnAnimationChanged(previous, new)` notification, oldest first. */
    var changes: seq<(string, string)>
    /** Every call made on the Animator, oldest first. */
    var calls: seq<PlayerCall>

    ghost predicate Valid()
      reads this
    {
      && [] !in configLookup
      && (forall k :: k in configLookup ==> configLookup[k].Key == k)
      && hashCache == HashesOf(configLookup, hash)
    }

    /** `IsLocked` at time `now`. */
    predicate IsLocked(now: real)
      reads this
    {
      LockActive(isLocked, lockEndTime, now)
    }

    /** Component creation followed by `Awake`, which builds the lookup. */
    constructor (animations: seq<AnimationStateConfig>, defaultTransitionDuration: real, hash: string -> int)
      ensures Valid()
      ensures this.animations == animations && this.hash == hash
      ensures this.defaultTransitionDuration == defaultTransitionDuration
      ensures configLookup == KeepFirst(animations)
      ensures currentKey == [] && currentConfig == None && !isLocked
      ensures changes == [] && calls == []
    {
      this.animations := animations;
      this.defaultTransitionDuration := defaultTransitionDuration;
      this.hash := hash;
      configLookup, hashCache := map[], map[];
      currentKey, currentConfig := [], None;
      isLocked, lockEndTime := false, 0.0;
      changes, calls := [], [];
      new;
      BuildLookup();
    }

    /** `BuildLookup` / `RefreshLookup`: refills the lookup and the hash cache
        from the config list. */
    method BuildLookup()
      modifies this`configLookup, this`hashCache
      ensures Valid()
      ensures configLookup == KeepFirst(animations)
    {
      configLookup := map[];
      hashCache := map[];
      var list := animations;
      var i := 0;
      while i < |list|
        invariant 0 <= i <= |list|
        invariant configLookup == KeepFirst(list[..i])
        invariant hashCache == HashesOf(configLookup, hash)
      {
        var config := list[i];
        assert list[..i + 1][..i] == list[..i];
        assert list[..i + 1][i] == config;
        if config.Key == [] {
        } else if config.Key in configLookup {
          // duplicate key: warned about and skipped
        } else {
          HashesOfUpdate(configLookup, hash, config);
          configLookup := configLookup[config.Key := config];
          hashCache := hashCache[config.Key := hash(config.GetStateName())];
        }
        i := i + 1;
      }
      assert list[..i] == list;
    }

    /** Whether `Play` / `PlayImmediate` of `key` would be accepted at time `now`. */
    predicate WouldPlay(key: string, force: bool, now: real)
      reads this
    {
      PlayVerdict(key, force, currentKey, key in configLookup, IsLocked(now), currentConfig) == Accepted
    }

    /** The state change of a `Play` / `PlayImmediate` of `key`: nothing on a
        rejection; on acceptance the new key and config, the lock re-armed
        only by a config with a lock duration, one notification and the
        Animator calls. */
    twostate predicate Played(key: string, force: bool, now: real, immediate: bool)
      reads this
    {
      && animations == old(animations) && configLookup == old(configLookup) && hashCache == old(hashCache)
      && (!old(WouldPlay(key, force, now)) ==>
            currentKey == old(currentKey) && currentConfig == old(currentConfig) &&
            isLocked == old(isLocked) && lockEndTime == old(lockEndTime) &&
            changes == old(changes) && calls == old(calls))
      && (old(WouldPlay(key, force, now)) ==>
            var c := old(configLookup)[key];
            var layer := c.LayerIndex;
            && currentKey == key && currentConfig == Some(c)
            && changes == old(changes) + [(old(currentKey), key)]
            && calls == old(calls) + [SetSpeed(c.SpeedMultiplier),
                 if key in old(hashCache) then
                   (if immediate then PlayHash(old(hashCache)[key], layer)
                    else CrossFadeHash(old(hashCache)[key], c.TransitionDuration, layer))
                 else
                   (if immediate then PlayName(c.GetStateName(), layer)
                    else CrossFadeName(c.GetStateName(), c.TransitionDuration, layer))]
            && (c.LocksOnEntry() ==> isLocked && lockEndTime == now + c.LockDuration)
            && (!c.LocksOnEntry() ==> isLocked == old(isLocked) && lockEndTime == old(lockEndTime)))
    }

    /** `Play(key, forcePlay)` at time `now`: crossfades into the config's state. */
    method Play(key: string, force: bool, now: real) returns (ok: bool)
      requires Valid()
      modifies this
      ensures Valid()
      ensures ok == old(WouldPlay(key, force, now)) && Played(key, force, now, false)
    {
      ok := PlayGate(key, force, now, false);
    }

    /** `PlayImmediate(key, forcePlay)`: the same gate, without a crossfade. */
    method PlayImmediate(key: string, force: bool, now: real) returns (ok: bool)
      requires Valid()
      modifies this
      ensures Valid()
      ensures ok == old(WouldPlay(key, force, now)) && Played(key, force, now, true)
    {
      ok := PlayGate(key, force, now, true);
    }

    /** The body the two play methods share. */
    method PlayGate(key: string, force: bool, now: real, immediate: bool) returns (ok: bool)
      requires Valid()
      modifies this
      ensures Valid()
      ensures ok == old(WouldPlay(key, force, now)) && Played(key, force, now, immediate)
    {
      if key == [] { return false; }
      if key == currentKey && !force { return false; }
      if key !in configLookup { return false; }
      var config := configLookup[key];
      if !force && IsLocked(now) { return false; }
      if !force && currentConfig.Some? && !currentConfig.value.CanBeInterrupted { return false; }

      assert WouldPlay(key, force, now);
      Enter(key, now, immediate);
      ok := true;
    }

    /** What an accepted request does: the new key and config, the speed
        and play calls, the lock for a locking config, one notification. */
    method Enter(key: string, now: real, immediate: bool)
      requires key in configLookup
      modifies this`currentKey, this`currentConfig, this`calls, this`isLocked, this`lockEndTime, this`changes
      ensures var c := configLookup[key];
        && currentKey == key && currentConfig == Some(c)
        && changes == old(changes) + [(old(currentKey), key)]
        && calls == old(calls) + [SetSpeed(c.SpeedMultiplier),
             if key in hashCache then
               (if immediate then PlayHash(hashCache[key], c.LayerIndex)
                else CrossFadeHash(hashCache[key], c.TransitionDuration, c.LayerIndex))
             else
               (if immediate then PlayName(c.GetStateName(), c.LayerIndex)
                else CrossFadeName(c.GetStateName(), c.TransitionDuration, c.LayerIndex))]
        && (c.LocksOnEntry() ==> isLocked && lockEndTime == now + c.LockDuration)
        && (!c.LocksOnEntry() ==> isLocked == old(isLocked) && lockEndTime == old(lockEndTime))
    {
      var config := configLookup[key];
      var previousKey := currentKey;
      currentKey := key;
      currentConfig := Some(config);
      calls := calls + [SetSpeed(config.SpeedMultiplier)];
      if key in hashCache {
        var h := hashCache[key];
        calls := calls + [if immediate then PlayHash(h, config.LayerIndex)
                          else CrossFadeHash(h, config.TransitionDuration, config.LayerIndex)];
      } else {
        var name := config.GetStateName();
        calls := calls + [if immediate then PlayName(name, config.LayerIndex)
                          else CrossFadeName(name, config.TransitionDuration, config.LayerIndex)];
      }
      if config.LockDuration > 0.0 {
        LockForDuration(config.LockDuration, now);
      }
      changes := changes + [(previousKey, key)];
    }

    /** `SetLocomotion(speed, idle, walk, run, walkThreshold, runThreshold)`. */
    method SetLocomotion(speed: real, idleKey: string, walkKey: string, runKey: string,
                         now: real, walkThreshold: real := 0.1, runThreshold: real := 4.0)
      requires Valid()
      modifies this
      ensures Valid()
      ensures Played(LocomotionKey(speed, idleKey, walkKey, runKey, walkThreshold, runThreshold), false, now, false)
    {
      var ok := Play(LocomotionKey(speed, idleKey, walkKey, runKey, walkThreshold, runThreshold), false, now);
    }

    /** The two-key `SetLocomotion(speed, idle, walk, walkThreshold)`. */
    method SetLocomotionIdleWalk(speed: real, idleKey: string, walkKey: string, now: real,
                                 walkThreshold: real := 0.1)
      requires Valid()
      modifies this
      ensures Valid()
      ensures Played(if speed < walkThreshold then idleKey else walkKey, false, now, false)
    {
      var ok := Play(if speed < walkThreshold then idleKey else walkKey, false, now);
    }

    /** `LockForDuration(duration)` at time `now`. */
    method LockForDuration(duration: real, now: real)
      modifies this`isLocked, this`lockEndTime
      ensures isLocked && lockEndTime == now + duration
      ensures forall t :: IsLocked(t) <==> t < now + duration
    {
      isLocked := true;
      lockEndTime := now + duration;
    }

    /** `Unlock`. */
    method Unlock()
      modifies this`isLocked
      ensures !isLocked
      ensures forall t :: !IsLocked(t)
    {
      isLocked := false;
    }

    /** `Update` at time `now`: clears the flag once the lock has run out. */
    method Update(now: real)
      modifies this`isLocked
      ensures isLocked == (old(isLocked) && now < lockEndTime)
      ensures IsLocked(now) == old(IsLocked(now))
    {
      if isLocked && now >= lockEndTime {
        isLocked := false;
      }
    }

    /** `IsPlaying(key)`. */
    predicate IsPlaying(key: string)
      reads this
    {
      currentKey == key
    }

    /** `HasAnimation(key)`. */
    predicate HasAnimation(key: string)
      reads this
    {
      key in configLookup
    }

    /** `GetConfig(key)`: the registered config, or null. */
    function GetConfig(key: string): (r: Option<AnimationStateConfig>)
      reads this
      ensures r.Some? <==> HasAnimation(key)
      ensures r.Some? ==> r.value == configLookup[key]
    {
      if key in configLookup then Some(configLookup[key]) else None
    }

    /** `GetAllKeys`. */
    function GetAllKeys(): (r: set<string>)
      reads this
      ensures forall k :: k in r <==> HasAnimation(k)
    {
      configLookup.Keys
    }

    /** `AddAnimation(config)`: appends to the list and overwrites the lookup entry. */
    method AddAnimation(config: Option<AnimationStateConfig>)
      requires Valid()
      modifies this`animations, this`configLookup, this`hashCache
      ensures Valid()
      ensures config.None? || config.value.Key == [] ==>
        animations == old(animations) && configLookup == old(configLookup) && hashCache == old(hashCache)
      ensures config.Some? && config.value.Key != [] ==>
        animations == old(animations) + [config.value] &&
        configLookup == old(configLookup)[config.value.Key := config.value]
    {
      if config.None? || config.value.Key == [] { return; }
      var c := config.value;
      animations := animations + [c];
      configLookup := configLookup[c.Key := c];
      hashCache := hashCache[c.Key := hash(c.GetStateName())];
    }

    /** `AddAnimation(key, animatorStateName, transitionDuration)`: a default
        config whose state name falls back to the key when none is given. */
    method AddAnimationByKey(key: string, animatorStateName: Option<string>,
                             transitionDuration: real := DefaultTransitionDuration)
      requires Valid()
      modifies this`animations, this`configLookup, this`hashCache
      ensures Valid()
      ensures key == [] ==> configLookup == old(configLookup) && animations == old(animations)
      ensures key != [] ==>
        var c := Create(key, transitionDuration).(AnimatorStateName := animatorStateName.GetOr(key));
        animations == old(animations) + [c] && configLookup == old(configLookup)[key := c]
      ensures key != [] && animatorStateName.None? ==> configLookup[key] == Create(key, transitionDuration)
    {
      var c := Create(key, transitionDuration).(AnimatorStateName := animatorStateName.GetOr(key));
      AddAnimation(Some(c));
    }

    /** `RemoveAnimation(key)`: a no-op for an unknown key. */
    method RemoveAnimation(key: string)
      requires Valid()
      modifies this`animations, this`configLookup, this`hashCache
      ensures Valid()
      ensures !HasAnimation(key)
      ensures configLookup == old(configLookup) - {key}
      ensures key in old(configLookup) ==> animations == RemoveFirst(old(animations), old(configLookup)[key])
      ensures key !in old(configLookup) ==> animations == old(animations) && hashCache == old(hashCache)
    {
      if key in configLookup {
        HashesOfRemove(configLookup, hash, key);
        animations := RemoveFirst(animations, configLookup[key]);
        configLookup := configLookup - {key};
        hashCache := hashCache - {key};
      }
    }
  }
}
