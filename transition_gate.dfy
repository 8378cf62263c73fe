/** The vocabulary the three state machines share: why a transition request
    is accepted or rejected, the timed lock, and the calls a machine makes
    on the host's animation player. */
module TransitionGate {

  /** The outcome of one transition request, named after the check that decided it. */
  datatype Verdict =
    | Accepted
    | EmptyKey          // the requested key is null or empty
    | SameState         // the request names the state already current
    | UnknownTarget     // nothing is registered under the requested key
    | Locked            // the lock window is still open
    | NotInterruptible  // the current state forbids interruption

  /** `IsLocked`: the flag alone does not lock; the clock must also be
      before the end time, so an expired lock that no tick has cleared yet
      no longer blocks. */
  predicate LockActive(flag: bool, endTime: real, now: real) {
    flag && now < endTime
  }

  /** Calls made on Unity's `Animator` (or on the controller wrapping it),
      recorded in the order they are made. */
  datatype PlayerCall =
    | SetSpeed(speed: real)
    | CrossFadeHash(hash: int, duration: real, layer: int)
    | CrossFadeName(name: string, duration: real, layer: int)
    | PlayHash(hash: int, layer: int)
    | PlayName(name: string, layer: int)
}
