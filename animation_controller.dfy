/** `AnimationController`: a wrapper over Unity's `Animator` that memoises
    name-to-hash lookups, remembers which state it last played, and each
    tick polls the Animator to notice state changes. */
module AnimationController {
  import opened Wrappers
  import opened TransitionGate

  /** `OnAnimationStarted` / `OnAnimationCompleted` notifications. */
  datatype ClipEvent = Started(name: string) | Completed(name: string)

  /** The first name, in dictionary enumeration order, whose cached hash is `h`. */
  function FirstWithHash(order: seq<string>, cache: map<string, int>, h: int): (r: Option<string>)
    ensures r.Some? ==> r.value in order && r.value in cache && cache[r.value] == h
    ensures r.None? ==> forall i :: 0 <= i < |order| && order[i] in cache ==> cache[order[i]] != h
  {
    if order == [] then None
    else if order[0] in cache && cache[order[0]] == h then Some(order[0])
    else
      var r := FirstWithHash(order[1..], cache, h);
      assert forall i :: 1 <= i < |order| ==> order[i] == order[1..][i - 1];
      r
  }

  class AnimationController {
    /** Whether `Awake` found an `Animator` on the object. */
    const hasAnimator: bool
    /** `Animator.StringToHash`. */
    const hash: string -> int
    /** The serialised `_defaultTransitionDuration`, 0.1 unless edited. */
    const defaultTransitionDuration: real

    var stateHashCache: map<string, int>
    /** The keys of `stateHashCache` in insertion order, the order in which
        the dictionary enumerates them. */
    var stateCacheOrder: seq<string>
    var paramHashCache: map<string, int>
    var currentStateName: string
    var previousStateName: string
    var currentStateHash: int
    var isTransitioning: bool

    /** Every call made on the Animator, oldest first. */
    var calls: seq<PlayerCall>
    /** Every started/completed notification, oldest first. */
    var events: seq<ClipEvent>

    /** Both caches hold `StringToHash` of their keys, and the enumeration
        order lists each cached state name once. */
    ghost predicate Valid()
      reads this
    {
      (forall n :: n in stateHashCache ==> stateHashCache[n] == hash(n)) &&
      (forall n :: n in paramHashCache ==> paramHashCache[n] == hash(n)) &&
      (forall i, j :: 0 <= i < j < |stateCacheOrder| ==> stateCacheOrder[i] != stateCacheOrder[j]) &&
      (forall n :: n in stateHashCache <==> n in stateCacheOrder)
    }

    /** Component creation and `Awake`. */
    constructor (hasAnimator: bool, hash: string -> int, defaultTransitionDuration: real := 0.1)
      ensures Valid()
      ensures this.hasAnimator == hasAnimator && this.hash == hash
      ensures this.defaultTransitionDuration == defaultTransitionDuration
      ensures stateHashCache == map[] && paramHashCache == map[] && stateCacheOrder == []
      ensures currentStateName == "" && previousStateName == "" && currentStateHash == 0
      ensures !isTransitioning && calls == [] && events == []
    {
      this.hasAnimator := hasAnimator;
      this.hash := hash;
      this.defaultTransitionDuration := defaultTransitionDuration;
      stateHashCache, stateCacheOrder, paramHashCache := map[], [], map[];
      currentStateName, previousStateName, currentStateHash := "", "", 0;
      isTransitioning := false;
      calls, events := [], [];
    }

    /** `IsPlaying`. */
    predicate IsPlaying()
      reads this
    {
      currentStateName != ""
    }

    /** `GetStateHash(name)`: computes and caches the hash on first use;
        afterwards the cache is left as it is. */
    method GetStateHash(stateName: string) returns (h: int)
      requires Valid()
      modifies this`stateHashCache, this`stateCacheOrder
      ensures Valid()
      ensures h == hash(stateName)
      ensures stateHashCache == old(stateHashCache)[stateName := h]
      ensures stateName in old(stateHashCache) ==>
        stateHashCache == old(stateHashCache) && stateCacheOrder == old(stateCacheOrder)
      ensures stateName !in old(stateHashCache) ==> stateCacheOrder == old(stateCacheOrder) + [stateName]
    {
      if stateName in stateHashCache {
        h := stateHashCache[stateName];
      } else {
        h := hash(stateName);
        stateHashCache := stateHashCache[stateName := h];
        stateCacheOrder := stateCacheOrder + [stateName];
      }
    }

    /** `GetParamHash(name)`: the same memoisation on the parameter cache. */
    method GetParamHash(paramName: string) returns (h: int)
      requires Valid()
      modifies this`paramHashCache
      ensures Valid()
      ensures h == hash(paramName)
      ensures paramHashCache == old(paramHashCache)[paramName := h]
      ensures paramName in old(paramHashCache) ==> paramHashCache == old(paramHashCache)
    {
      if paramName in paramHashCache {
        h := paramHashCache[paramName];
      } else {
        h := hash(paramName);
        paramHashCache := paramHashCache[paramName := h];
      }
    }

    /** `CacheStateHashes(names)`. */
    method CacheStateHashes(stateNames: seq<string>)
      requires Valid()
      modifies this`stateHashCache, this`stateCacheOrder
      ensures Valid()
      ensures old(stateHashCache).Keys <= stateHashCache.Keys
      ensures forall i :: 0 <= i < |stateNames| ==> stateNames[i] in stateHashCache
      ensures forall n :: n in stateHashCache ==> n in old(stateHashCache) || n in stateNames
    {
      var i := 0;
      while i < |stateNames|
        invariant 0 <= i <= |stateNames| && Valid()
        invariant old(stateHashCache).Keys <= stateHashCache.Keys
        invariant forall j :: 0 <= j < i ==> stateNames[j] in stateHashCache
        invariant forall n :: n in stateHashCache ==> n in old(stateHashCache) || n in stateNames[..i]
      {
        var _ := GetStateHash(stateNames[i]);
        i := i + 1;
      }
    }

    /** `CacheParamHashes(names)`. */
    method CacheParamHashes(paramNames: seq<string>)
      requires Valid()
      modifies this`paramHashCache
      ensures Valid()
      ensures old(paramHashCache).Keys <= paramHashCache.Keys
      ensures forall i :: 0 <= i < |paramNames| ==> paramNames[i] in paramHashCache
      ensures forall n :: n in paramHashCache ==> n in old(paramHashCache) || n in paramNames
    {
      var i := 0;
      while i < |paramNames|
        invariant 0 <= i <= |paramNames| && Valid()
        invariant old(paramHashCache).Keys <= paramHashCache.Keys
        invariant forall j :: 0 <= j < i ==> paramNames[j] in paramHashCache
        invariant forall n :: n in paramHashCache ==> n in old(paramHashCache) || n in paramNames[..i]
      {
        var _ := GetParamHash(paramNames[i]);
        i := i + 1;
      }
    }

    /** `FindStateNameByHash(h)`: a search of the state cache in enumeration order. */
    method FindStateNameByHash(h: int) returns (name: Option<string>)
      ensures name == FirstWithHash(stateCacheOrder, stateHashCache, h)
    {
      var i := 0;
      while i < |stateCacheOrder|
        invariant 0 <= i <= |stateCacheOrder|
        invariant FirstWithHash(stateCacheOrder[i..], stateHashCache, h) ==
                  FirstWithHash(stateCacheOrder, stateHashCache, h)
      {
        var n := stateCacheOrder[i];
        if n in stateHashCache && stateHashCache[n] == h {
          return Some(n);
        }
        assert stateCacheOrder[i..][1..] == stateCacheOrder[i + 1..];
        i := i + 1;
      }
      return None;
    }

    /** `Play(stateName, layer)`. */
    method PlayByName(stateName: string, layer: int := 0)
      requires Valid()
      modifies this
      ensures Valid()
      ensures !hasAnimator || stateName == "" ==>
        calls == old(calls) && currentStateName == old(currentStateName) &&
        currentStateHash == old(currentStateHash) && stateHashCache == old(stateHashCache)
      ensures hasAnimator && stateName != "" ==>
        calls == old(calls) + [PlayHash(hash(stateName), layer)] &&
        currentStateName == stateName && currentStateHash == hash(stateName) &&
        stateHashCache == old(stateHashCache)[stateName := hash(stateName)]
      ensures previousStateName == old(previousStateName) && events == old(events)
      ensures paramHashCache == old(paramHashCache) && isTransitioning == old(isTransitioning)
    {
      if !hasAnimator || stateName == "" { return; }
      var h := GetStateHash(stateName);
      calls := calls + [PlayHash(h, layer)];
      currentStateName := stateName;
      currentStateHash := h;
    }

    /** `Play(stateHash, layer)`: the name becomes the first cached name
        with that hash, or "" when none has it. */
    method PlayByHash(stateHash: int, layer: int := 0)
      modifies this`calls, this`currentStateName, this`currentStateHash
      ensures !hasAnimator ==> calls == old(calls) && currentStateName == old(currentStateName) &&
                               currentStateHash == old(currentStateHash)
      ensures hasAnimator ==>
        calls == old(calls) + [PlayHash(stateHash, layer)] && currentStateHash == stateHash &&
        currentStateName == FirstWithHash(stateCacheOrder, stateHashCache, stateHash).GetOr("")
    {
      if !hasAnimator { return; }
      calls := calls + [PlayHash(stateHash, layer)];
      currentStateHash := stateHash;
      var name := FindStateNameByHash(stateHash);
      currentStateName := name.GetOr("");
    }

    /** `CrossFade(stateName, transitionDuration, layer)`. */
    method CrossFadeByName(stateName: string, transitionDuration: real, layer: int := 0)
      requires Valid()
      modifies this
      ensures Valid()
      ensures !hasAnimator || stateName == "" ==>
        calls == old(calls) && currentStateName == old(currentStateName) &&
        currentStateHash == old(currentStateHash) && stateHashCache == old(stateHashCache)
      ensures hasAnimator && stateName != "" ==>
        calls == old(calls) + [CrossFadeHash(hash(stateName), transitionDuration, layer)] &&
        currentStateName == stateName && currentStateHash == hash(stateName) &&
        stateHashCache == old(stateHashCache)[stateName := hash(stateName)]
      ensures previousStateName == old(previousStateName) && events == old(events)
      ensures paramHashCache == old(paramHashCache) && isTransitioning == old(isTransitioning)
    {
      if !hasAnimator || stateName == "" { return; }
      var h := GetStateHash(stateName);
      calls := calls + [CrossFadeHash(h, transitionDuration, layer)];
      currentStateName := stateName;
      currentStateHash := h;
    }

    /** `CrossFade(stateHash, transitionDuration, layer)`. */
    method CrossFadeByHash(stateHash: int, transitionDuration: real, layer: int := 0)
      modifies this`calls, this`currentStateName, this`currentStateHash
      ensures !hasAnimator ==> calls == old(calls) && currentStateName == old(currentStateName) &&
                               currentStateHash == old(currentStateHash)
      ensures hasAnimator ==>
        calls == old(calls) + [CrossFadeHash(stateHash, transitionDuration, layer)] &&
        currentStateHash == stateHash &&
        currentStateName == FirstWithHash(stateCacheOrder, stateHashCache, stateHash).GetOr("")
    {
      if !hasAnimator { return; }
      calls := calls + [CrossFadeHash(stateHash, transitionDuration, layer)];
      currentStateHash := stateHash;
      var name := FindStateNameByHash(stateHash);
      currentStateName := name.GetOr("");
    }

    /** `CrossFade(stateName, layer)`: the default transition duration. */
    method CrossFadeDefault(stateName: string, layer: int := 0)
      requires Valid()
      modifies this
      ensures Valid()
      ensures !hasAnimator || stateName == "" ==>
        calls == old(calls) && currentStateName == old(currentStateName) &&
        currentStateHash == old(currentStateHash) && stateHashCache == old(stateHashCache)
      ensures hasAnimator && stateName != "" ==>
        calls == old(calls) + [CrossFadeHash(hash(stateName), defaultTransitionDuration, layer)] &&
        currentStateName == stateName && currentStateHash == hash(stateName) &&
        stateHashCache == old(stateHashCache)[stateName := hash(stateName)]
      ensures previousStateName == old(previousStateName) && events == old(events)
      ensures paramHashCache == old(paramHashCache) && isTransitioning == old(isTransitioning)
    {
      CrossFadeByName(stateName, defaultTransitionDuration, layer);
    }

    /** `Update`: with an Animator, `TrackAnimationState` with the
        full-path hash and transition flag the Animator reports on layer 0. */
    method Update(polledHash: int, inTransition: bool)
      modifies this`previousStateName, this`currentStateHash, this`currentStateName,
               this`events, this`isTransitioning
      ensures !hasAnimator ==>
        previousStateName == old(previousStateName) && currentStateHash == old(currentStateHash) &&
        currentStateName == old(currentStateName) && events == old(events) &&
        isTransitioning == old(isTransitioning)
      ensures hasAnimator ==> Tracked(polledHash, inTransition)
    {
      if !hasAnimator { return; }
      TrackAnimationState(polledHash, inTransition);
    }

    /** The effect of one `TrackAnimationState` poll. On a new hash the old
        name becomes the previous one; the current name changes only when
        the hash names a non-empty cached state, and then `Completed(previous)`
        (when previous is non-empty) is followed by `Started(current)`. */
    twostate predicate Tracked(polledHash: int, inTransition: bool)
      reads this
    {
      isTransitioning == inTransition &&
      if polledHash == old(currentStateHash) then
        previousStateName == old(previousStateName) && currentStateHash == old(currentStateHash) &&
        currentStateName == old(currentStateName) && events == old(events)
      else
        var found := FirstWithHash(stateCacheOrder, stateHashCache, polledHash);
        previousStateName == old(currentStateName) && currentStateHash == polledHash &&
        if found.Some? && found.value != "" then
          currentStateName == found.value &&
          events == old(events) + (if old(currentStateName) != "" then [Completed(old(currentStateName))] else [])
                                + [Started(found.value)]
        else
          currentStateName == old(currentStateName) && events == old(events)
    }

    method TrackAnimationState(polledHash: int, inTransition: bool)
      modifies this`previousStateName, this`currentStateHash, this`currentStateName,
               this`events, this`isTransitioning
      ensures Tracked(polledHash, inTransition)
    {
      if polledHash != currentStateHash {
        previousStateName := currentStateName;
        currentStateHash := polledHash;
        var newStateName := FindStateNameByHash(currentStateHash);
        if newStateName.Some? && newStateName.value != "" {
          currentStateName := newStateName.value;
          if previousStateName != "" {
            events := events + [Completed(previousStateName)];
          }
          events := events + [Started(currentStateName)];
        }
      }
      isTransitioning := inTransition;
    }
  }

  /** The name found is the FIRST one in enumeration order with that hash:
      no cached name before it carries the hash. */
  lemma {:induction false} FirstWithHashIsFirst(order: seq<string>, cache: map<string, int>, h: int)
    ensures var r := FirstWithHash(order, cache, h);
      r.Some? ==> (exists i :: 0 <= i < |order| && order[i] == r.value &&
                     forall j :: 0 <= j < i && order[j] in cache ==> cache[order[j]] != h)
  {
    var r := FirstWithHash(order, cache, h);
    if order != [] && r.Some? {
      if order[0] in cache && cache[order[0]] == h {
        assert order[0] == r.value;
      } else {
        FirstWithHashIsFirst(order[1..], cache, h);
        var k :| 0 <= k < |order[1..]| && order[1..][k] == r.value &&
          forall j :: 0 <= j < k && order[1..][j] in cache ==> cache[order[1..][j]] != h;
        assert order[k + 1] == r.value;
        assert forall j :: 0 <= j < k + 1 && order[j] in cache ==> cache[order[j]] != h by {
          forall j | 0 <= j < k + 1 && order[j] in cache
            ensures cache[order[j]] != h
          {
            if j > 0 { assert order[j] == order[1..][j - 1]; }
          }
        }
      }
    }
  }

  /** A name played by name is found again by its hash unless an earlier
      cached name has the same hash (a `StringToHash` collision). */
  lemma {:induction false} FindAfterCache(order: seq<string>, cache: map<string, int>, hash: string -> int, n: string)
    requires forall k :: k in cache ==> cache[k] == hash(k)
    requires n in order && n in cache
    requires forall i :: 0 <= i < |order| && order[i] != n && order[i] in cache ==> hash(order[i]) != hash(n)
    ensures FirstWithHash(order, cache, hash(n)) == Some(n)
  {
    if order[0] != n {
      assert n in order[1..] by {
        var i :| 0 <= i < |order| && order[i] == n;
        assert order[1..][i - 1] == n;
      }
      FindAfterCache(order[1..], cache, hash, n);
    }
  }
}
