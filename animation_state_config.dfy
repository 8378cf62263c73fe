/** `AnimationStateConfig`: the per-animation record a `CharacterAnimator`
    is configured with. */
module AnimationStateConfig {

  /** The inspector's default crossfade duration. */
  const DefaultTransitionDuration: real := 0.15

  datatype AnimationStateConfig = AnimationStateConfig(
    Key: string,                // lookup key; "" stands for null or empty
    AnimatorStateName: string,  // state in the Animator Controller; "" means "use Key"
    LayerIndex: int,
    TransitionDuration: real,
    CanBeInterrupted: bool,
    IsLooping: bool,
    SpeedMultiplier: real,
    LockDuration: real          // 0 means no lock after playing
  ) {

    /** `GetStateName`: the Animator state to play. */
    function GetStateName(): (name: string)
      ensures name == AnimatorStateName || name == Key
      ensures name == [] <==> AnimatorStateName == [] && Key == []
      ensures AnimatorStateName != [] ==> name == AnimatorStateName
    {
      if AnimatorStateName == [] then Key else AnimatorStateName
    }

    /** Entering this animation arms the lock. */
    predicate LocksOnEntry() {
      LockDuration > 0.0
    }
  }

  /** A config as `new AnimationStateConfig()` leaves it: the field initialisers. */
  function Fresh(): (c: AnimationStateConfig)
    ensures c.CanBeInterrupted && c.IsLooping
    ensures c.SpeedMultiplier == 1.0 && c.TransitionDuration == DefaultTransitionDuration
    ensures c.LayerIndex == 0 && !c.LocksOnEntry()
    ensures c.GetStateName() == []
  {
    AnimationStateConfig([], [], 0, DefaultTransitionDuration, true, true, 1.0, 0.0)
  }

  /** `AnimationStateConfig.Create(key, transitionDuration)`. */
  function Create(key: string, transitionDuration: real := DefaultTransitionDuration): (c: AnimationStateConfig)
    ensures c.Key == key && c.GetStateName() == key
    ensures c.TransitionDuration == transitionDuration
    ensures c.CanBeInterrupted && c.IsLooping && c.SpeedMultiplier == 1.0
    ensures c.LayerIndex == 0 && !c.LocksOnEntry()
  {
    Fresh().(Key := key, AnimatorStateName := key, TransitionDuration := transitionDuration)
  }
}
