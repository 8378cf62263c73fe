# TheyCallMeAlfred: animation state machines and editor tooling, modelled in Dafny

TheyCallMeAlfred is a Unity package of runtime and editor scripts. This
project models the parts of it that are bookkeeping, not rendering, and
proves what each one promises.

- **The transition gate, in three variants.**
  - `CharacterAnimator` is keyed by strings and configured by an `AnimationStateConfig` list.
  - `AnimationStateMachine<TState>` is keyed by enum values.
  - `AnimationStateMachineAdvanced<TState>` drives `AnimationState<TState>` objects with enter, update and exit hooks.
  - Each keeps a current state, a previous state and one timed lock.
  - Each accepts or rejects a request through a fixed sequence of checks: same state, locked, not interruptible, unknown target.
  - Forced requests skip some of these checks. The variants differ in whether the lock is cleared.
  - `TransitionGate` names the verdicts. Each machine has a pure verdict function, and its methods are proved against it.
- **Hash caches.** `AnimationController` memoises name→hash maps and looks names up from hashes. It polls the player each tick and raises started and completed events.
- **State-graph discovery.**
  - The editor (`CharacterAnimatorEditor`) walks an Animator Controller's layers and sub-state machines. It de-duplicates per (name, layer).
  - The runtime `AnimationTrigger` de-duplicates by name only, and then plays the states round-robin.
- **Generated keys file.** The editor writes one C# constant per key. Each identifier is sanitised, and the first occurrence wins.
- **Inspector statistics.** These cover descendant count and depth (`HierarchyInfoProvider`), mesh totals (`MeshInfoCalculator`) and the draw-call and memory estimates (`PerformanceMetricsCalculator`).
- **`TextureSwapper`** cycles a material's UV offset through the faces of a texture sheet. The repository has two identical copies.
- **Project setup.**
  - `AssetImporter` finds and imports `.unitypackage` files from the Asset Store cache. The repository has two copies that differ, modelled as `AssetImporter` and `EditorAssetImporter`.
  - `EssentialPackageInstaller` routes package names to an Asset Store import or a package-manager install, and validates the cache.
  - `FolderManager` creates folder hierarchies, and moves and deletes asset folders. Its two copies are identical.

How the host is treated:

- **Time.** `Time.time` and `Time.deltaTime` are explicit parameters.
- **Hashing.** `Animator.StringToHash` is an arbitrary function given to each component, and every proof holds for any such function.
- **Player calls.** Calls on the Animator (`Play`, `CrossFade`, `speed`) are recorded in order as `PlayerCall` traces.
- **Editor calls.** Log lines, dialogs, package imports and installs are recorded in order as `Effect` traces.
- **Editor state.** The file system, the special folders, the platform and the `AssetStoreCacheRootPath` preference form a `Host` value.
- **Asset database.** The asset database's folder set and the file system's directory set are fields of `FolderManager.ProjectFolders`. The answer of `AssetDatabase.MoveAsset` is a parameter.
- **Classes.** Components whose fields the source updates are Dafny classes, with frames at field granularity.
- **Loops.** Each loop in the source is a method with its invariants, proved against a recursive specification function. The lemmas beside it state the properties that function has.
- **Null strings.** Null and empty strings are both "" wherever the source treats them alike.

## Model

| member | source | states |
|---|---|---|
| AnimationStateConfig.AnimationStateConfig.GetStateName | Assets/@TheyCallMeAlfred/TheyCallMeAlfred/Scripts/Runtime/Animation/Core/Systems/AnimationStateConfig.cs:43-45 | the Animator state name is the explicit state name when it is non-empty and the key otherwise; it is empty only when both are empty |
| AnimationStateConfig.Fresh | Assets/@TheyCallMeAlfred/TheyCallMeAlfred/Scripts/Runtime/Animation/Core/Systems/AnimationStateConfig.cs:19-38 | a newly constructed config is interruptible and looping, has speed 1, transition 0.15 and layer 0, and does not lock on entry |
| AnimationStateConfig.Create | Assets/@TheyCallMeAlfred/TheyCallMeAlfred/Scripts/Runtime/Animation/Core/Systems/AnimationStateConfig.cs:50-59 | `Create(k, d)` has key k and resolves to state name k, uses transition d, is interruptible, looping, speed 1, layer 0, and arms no lock |
| CharacterAnimator.KeepFirst | Assets/@TheyCallMeAlfred/TheyCallMeAlfred/Scripts/Runtime/Animation/Core/Systems/CharacterAnimator.cs:71-79 | the lookup never holds the empty key and every entry is filed under its own key |
| CharacterAnimator.KeepFirstKeys | Assets/@TheyCallMeAlfred/TheyCallMeAlfred/Scripts/Runtime/Animation/Core/Systems/CharacterAnimator.cs:71-79 | a key is in the lookup exactly when it is non-empty and some config in the list carries it |
| CharacterAnimator.KeepFirstIsFirst | Assets/@TheyCallMeAlfred/TheyCallMeAlfred/Scripts/Runtime/Animation/Core/Systems/CharacterAnimator.cs:74-77 | for a duplicated key the lookup keeps the first config in list order |
| CharacterAnimator.HashesOfUpdate | Assets/@TheyCallMeAlfred/TheyCallMeAlfred/Scripts/Runtime/Animation/Core/Systems/CharacterAnimator.cs:268-269 | overwriting one lookup entry changes the matching hash-cache entry and no other |
| CharacterAnimator.HashesOfRemove | Assets/@TheyCallMeAlfred/TheyCallMeAlfred/Scripts/Runtime/Animation/Core/Systems/CharacterAnimator.cs:293-294 | removing a key from the lookup removes exactly that key from the hash cache |
| CharacterAnimator.PlayVerdict | Assets/@TheyCallMeAlfred/TheyCallMeAlfred/Scripts/Runtime/Animation/Core/Systems/CharacterAnimator.cs:92-118 | a request is accepted iff the key is non-empty, differs from the current key or is forced, is known, and (when not forced) no lock is active and the current config allows interruption; each rejection is named after the first check that fails, in the order empty key, same key, unknown key, lock, interrupt flag, and each verdict holds exactly when its check is the first to fail |
| CharacterAnimator.LocomotionKey | Assets/@TheyCallMeAlfred/TheyCallMeAlfred/Scripts/Runtime/Animation/Core/Systems/CharacterAnimator.cs:194-203 | idle below the walk threshold, run at or above the run threshold (once walking), walk in between |
| CharacterAnimator.IndexOf | Assets/@TheyCallMeAlfred/TheyCallMeAlfred/Scripts/Runtime/Animation/Core/Systems/CharacterAnimator.cs:292 | the position `List.Remove` removes: an element equal to the config with no equal element before it |
| CharacterAnimator.RemoveFirst | Assets/@TheyCallMeAlfred/TheyCallMeAlfred/Scripts/Runtime/Animation/Core/Systems/CharacterAnimator.cs:292 | `List.Remove` drops the first element equal to the config, keeping the others in order (the multiset loses exactly one copy), and leaves a list without it alone |
| CharacterAnimator.CharacterAnimator.constructor | Assets/@TheyCallMeAlfred/TheyCallMeAlfred/Scripts/Runtime/Animation/Core/Systems/CharacterAnimator.cs:56-59 | after `Awake` the lookup is the keep-first table of the list, the hash cache matches it, nothing is current and nothing is locked |
| CharacterAnimator.CharacterAnimator.BuildLookup | Assets/@TheyCallMeAlfred/TheyCallMeAlfred/Scripts/Runtime/Animation/Core/Systems/CharacterAnimator.cs:67-82 | the loop rebuilds the lookup as the keep-first table of the list and the hash cache as the hash of each kept config's state name |
| CharacterAnimator.CharacterAnimator.Play | Assets/@TheyCallMeAlfred/TheyCallMeAlfred/Scripts/Runtime/Animation/Core/Systems/CharacterAnimator.cs:92-144 | returns true exactly when the verdict accepts; a rejection changes nothing; an acceptance sets the key and config, sets the speed and crossfades (by cached hash, else by name), re-arms the lock only for a locking config (a forced play leaves an existing lock in place), and records one (previous, new) notification |
| CharacterAnimator.CharacterAnimator.PlayImmediate | Assets/@TheyCallMeAlfred/TheyCallMeAlfred/Scripts/Runtime/Animation/Core/Systems/CharacterAnimator.cs:149-179 | the same gate and state change as `Play`, with an immediate play instead of a crossfade |
| CharacterAnimator.CharacterAnimator.PlayGate | Assets/@TheyCallMeAlfred/TheyCallMeAlfred/Scripts/Runtime/Animation/Core/Systems/CharacterAnimator.cs:93-118 | the checks run in the source's order, and the result is the verdict, with no change on rejection |
| CharacterAnimator.CharacterAnimator.Enter | Assets/@TheyCallMeAlfred/TheyCallMeAlfred/Scripts/Runtime/Animation/Core/Systems/CharacterAnimator.cs:121-143 | an accepted request makes the target current, makes the speed call and then one play call, locks until now + duration only for a locking config, and appends one notification |
| CharacterAnimator.CharacterAnimator.SetLocomotion | Assets/@TheyCallMeAlfred/TheyCallMeAlfred/Scripts/Runtime/Animation/Core/Systems/CharacterAnimator.cs:194-203 | it plays the key chosen by the speed thresholds, not forced |
| CharacterAnimator.CharacterAnimator.SetLocomotionIdleWalk | Assets/@TheyCallMeAlfred/TheyCallMeAlfred/Scripts/Runtime/Animation/Core/Systems/CharacterAnimator.cs:208-210 | it plays idle iff the speed is below the walk threshold and walk otherwise |
| CharacterAnimator.CharacterAnimator.LockForDuration | Assets/@TheyCallMeAlfred/TheyCallMeAlfred/Scripts/Runtime/Animation/Core/Systems/CharacterAnimator.cs:219-222 | after locking at time t for d, `IsLocked` holds exactly at times before t + d |
| CharacterAnimator.CharacterAnimator.Unlock | Assets/@TheyCallMeAlfred/TheyCallMeAlfred/Scripts/Runtime/Animation/Core/Systems/CharacterAnimator.cs:227-229 | after `Unlock`, `IsLocked` is false at every time |
| CharacterAnimator.CharacterAnimator.IsLocked | Assets/@TheyCallMeAlfred/TheyCallMeAlfred/Scripts/Runtime/Animation/Core/Systems/CharacterAnimator.cs:49 | locked at time `now` exactly when the lock flag is set and `now` is before the lock end; `LockForDuration` and `Unlock` state their effect through it |
| CharacterAnimator.CharacterAnimator.Update | Assets/@TheyCallMeAlfred/TheyCallMeAlfred/Scripts/Runtime/Animation/Core/Systems/CharacterAnimator.cs:61-65 | the tick clears the flag once the end time has passed, and never changes whether the animator counts as locked at that time |
| CharacterAnimator.CharacterAnimator.GetConfig | Assets/@TheyCallMeAlfred/TheyCallMeAlfred/Scripts/Runtime/Animation/Core/Systems/CharacterAnimator.cs:248-250 | a config is returned exactly when `HasAnimation` holds, and it is the registered one |
| CharacterAnimator.CharacterAnimator.IsPlaying | Assets/@TheyCallMeAlfred/TheyCallMeAlfred/Scripts/Runtime/Animation/Core/Systems/CharacterAnimator.cs:238 | true exactly when the key is the current animation key |
| CharacterAnimator.CharacterAnimator.HasAnimation | Assets/@TheyCallMeAlfred/TheyCallMeAlfred/Scripts/Runtime/Animation/Core/Systems/CharacterAnimator.cs:243 | true exactly when the key is registered in the lookup |
| CharacterAnimator.CharacterAnimator.GetAllKeys | Assets/@TheyCallMeAlfred/TheyCallMeAlfred/Scripts/Runtime/Animation/Core/Systems/CharacterAnimator.cs:255 | a key is returned exactly when `HasAnimation` holds for it; the keys are a set, without the dictionary's enumeration order |
| CharacterAnimator.CharacterAnimator.AddAnimation | Assets/@TheyCallMeAlfred/TheyCallMeAlfred/Scripts/Runtime/Animation/Core/Systems/CharacterAnimator.cs:264-270 | a null config or empty key changes nothing; otherwise the config is appended to the list and overwrites the lookup entry for its key, and the hash cache is kept in step |
| CharacterAnimator.CharacterAnimator.AddAnimationByKey | Assets/@TheyCallMeAlfred/TheyCallMeAlfred/Scripts/Runtime/Animation/Core/Systems/CharacterAnimator.cs:275-285 | it registers a default config whose state name falls back to the key; without a state name the entry equals `Create(key, duration)`; an empty key changes nothing |
| CharacterAnimator.CharacterAnimator.RemoveAnimation | Assets/@TheyCallMeAlfred/TheyCallMeAlfred/Scripts/Runtime/Animation/Core/Systems/CharacterAnimator.cs:290-296 | afterwards `HasAnimation(key)` is false and only that key left the lookup and the cache; the list loses the removed config's first occurrence; an unknown key changes nothing |
| AnimationStateMachine.RequestVerdict | Assets/@TheyCallMeAlfred/TheyCallMeAlfred/Scripts/Runtime/Animation/Core/Systems/AnimationStateMachine.cs:119-141 | a request is accepted iff the target differs from the current state, no lock is active, and the current state is unregistered or interruptible; each rejection holds exactly when its check is the first to fail |
| AnimationStateMachine.RegisterAll | Assets/@TheyCallMeAlfred/TheyCallMeAlfred/Scripts/Runtime/Animation/Core/Systems/AnimationStateMachine.cs:98-114 | the registered states are the earlier ones plus every state named by a registration |
| AnimationStateMachine.RegisterAllLastWins | Assets/@TheyCallMeAlfred/TheyCallMeAlfred/Scripts/Runtime/Animation/Core/Systems/AnimationStateMachine.cs:107-113 | because `RegisterState` overwrites, a state's config is its last registration |
| AnimationStateMachine.RegisterAllKeepsUntouched | Assets/@TheyCallMeAlfred/TheyCallMeAlfred/Scripts/Runtime/Animation/Core/Systems/AnimationStateMachine.cs:107-113 | a state that no later call registers keeps its earlier config |
| AnimationStateMachine.AnimationStateMachine.constructor | Assets/@TheyCallMeAlfred/TheyCallMeAlfred/Scripts/Runtime/Animation/Core/Systems/AnimationStateMachine.cs:60-76 | after `Awake` the table holds the registrations (last wins), every registered state has a cached hash (0 without a controller), both states are the default, and nothing is locked |
| AnimationStateMachine.AnimationStateMachine.InitializeStates | Assets/@TheyCallMeAlfred/TheyCallMeAlfred/Scripts/Runtime/Animation/Core/Systems/AnimationStateMachine.cs:70 | registering the states one by one yields the table `RegisterAll` describes |
| AnimationStateMachine.AnimationStateMachine.CacheHashes | Assets/@TheyCallMeAlfred/TheyCallMeAlfred/Scripts/Runtime/Animation/Core/Systems/AnimationStateMachine.cs:72-75 | the hash cache covers exactly the registered states, holding the controller's hash of each state name, or 0 without a controller |
| AnimationStateMachine.AnimationStateMachine.RegisterState | Assets/@TheyCallMeAlfred/TheyCallMeAlfred/Scripts/Runtime/Animation/Core/Systems/AnimationStateMachine.cs:103-114 | the state's entry is replaced by the given config with the source's defaults, and no other entry changes |
| AnimationStateMachine.AnimationStateMachine.Start | Assets/@TheyCallMeAlfred/TheyCallMeAlfred/Scripts/Runtime/Animation/Core/Systems/AnimationStateMachine.cs:78-85 | the first enumeration value becomes current and is played, with no notification; an empty enumeration changes nothing |
| AnimationStateMachine.AnimationStateMachine.Update | Assets/@TheyCallMeAlfred/TheyCallMeAlfred/Scripts/Runtime/Animation/Core/Systems/AnimationStateMachine.cs:87-92 | the tick clears the flag once the end time has passed, and never changes whether the machine counts as locked at that time |
| AnimationStateMachine.AnimationStateMachine.RequestStateChange | Assets/@TheyCallMeAlfred/TheyCallMeAlfred/Scripts/Runtime/Animation/Core/Systems/AnimationStateMachine.cs:119-155 | returns true exactly when the verdict accepts; a rejection changes nothing; an acceptance moves the old current state to previous, makes the target current (registered or not), plays it, and records one (previous, current) notification; it never touches the lock |
| AnimationStateMachine.AnimationStateMachine.ForceStateChange | Assets/@TheyCallMeAlfred/TheyCallMeAlfred/Scripts/Runtime/Animation/Core/Systems/AnimationStateMachine.cs:160-166 | clears the lock and always transitions, even to the current state, with one notification and the play calls |
| AnimationStateMachine.AnimationStateMachine.LockForDuration | Assets/@TheyCallMeAlfred/TheyCallMeAlfred/Scripts/Runtime/Animation/Core/Systems/AnimationStateMachine.cs:171-174 | after locking at time t for d, `IsLocked` holds exactly at times before t + d |
| AnimationStateMachine.AnimationStateMachine.Unlock | Assets/@TheyCallMeAlfred/TheyCallMeAlfred/Scripts/Runtime/Animation/Core/Systems/AnimationStateMachine.cs:179-181 | after `Unlock`, `IsLocked` is false at every time |
| AnimationStateMachine.AnimationStateMachine.CanInterrupt | Assets/@TheyCallMeAlfred/TheyCallMeAlfred/Scripts/Runtime/Animation/Core/Systems/AnimationStateMachine.cs:200-202 | an interruptible state is a registered one, and its config allows interruption; an unregistered state is not interruptible |
| AnimationStateMachine.AnimationStateMachine.IsInState | Assets/@TheyCallMeAlfred/TheyCallMeAlfred/Scripts/Runtime/Animation/Core/Systems/AnimationStateMachine.cs:207-209 | true exactly when the state is the current state |
| AnimationStateMachine.AnimationStateMachine.WasInState | Assets/@TheyCallMeAlfred/TheyCallMeAlfred/Scripts/Runtime/Animation/Core/Systems/AnimationStateMachine.cs:214-216 | true exactly when the state is the previous state |
| AnimationStateMachine.AnimationStateMachine.PlayCurrentState | Assets/@TheyCallMeAlfred/TheyCallMeAlfred/Scripts/Runtime/Animation/Core/Systems/AnimationStateMachine.cs:183-195 | an unregistered state or a missing controller makes no call; otherwise the speed is set, then a crossfade by the cached hash, or by name when no hash is cached |
| AnimationStateMachine.UnregisteredNeverBlocks | Assets/@TheyCallMeAlfred/TheyCallMeAlfred/Scripts/Runtime/Animation/Core/Systems/AnimationStateMachine.cs:134-141 | an unregistered current state does not block a request, even though `CanInterrupt` reports it as not interruptible |
| AnimationStateAdvanced.AdvancedVerdict | Assets/@TheyCallMeAlfred/TheyCallMeAlfred/Scripts/Runtime/Animation/Core/Systems/AnimationStateMachineAdvanced.cs:120-147 | the checks run in the order: same key as the current object, lock active, current object not interruptible, target not registered; a request is accepted iff none fails, and each rejection holds exactly when its check is the first to fail |
| AnimationStateAdvanced.FirstClipLengthIsFirstMatch | Assets/@TheyCallMeAlfred/TheyCallMeAlfred/Scripts/Runtime/Animation/Core/Systems/AnimationState.cs:115-118 | the clip length is that of the first clip with the requested name |
| AnimationStateAdvanced.FirstClipLengthNoMatch | Assets/@TheyCallMeAlfred/TheyCallMeAlfred/Scripts/Runtime/Animation/Core/Systems/AnimationState.cs:120-121 | with no clip of that name the length defaults to 1 second |
| AnimationStateAdvanced.AddAll | Assets/@TheyCallMeAlfred/TheyCallMeAlfred/Scripts/Runtime/Animation/Core/Systems/AnimationStateMachineAdvanced.cs:112-115 | registering in turn only extends the enumeration order: the keys enumerated before stay first, in their order |
| AnimationStateAdvanced.AddAllKeys | Assets/@TheyCallMeAlfred/TheyCallMeAlfred/Scripts/Runtime/Animation/Core/Systems/AnimationStateMachineAdvanced.cs:112-115 | the registered keys afterwards are the old ones plus every registration's key |
| AnimationStateAdvanced.AddAllLastWins | Assets/@TheyCallMeAlfred/TheyCallMeAlfred/Scripts/Runtime/Animation/Core/Systems/AnimationStateMachineAdvanced.cs:113 | a key maps to the object of its last registration, since `States[key] = state` overwrites |
| AnimationStateAdvanced.AddAllKeepsUntouched | Assets/@TheyCallMeAlfred/TheyCallMeAlfred/Scripts/Runtime/Animation/Core/Systems/AnimationStateMachineAdvanced.cs:113 | a key no registration names keeps its object |
| AnimationStateAdvanced.AddAllFirstNewKey | Assets/@TheyCallMeAlfred/TheyCallMeAlfred/Scripts/Runtime/Animation/Core/Systems/AnimationStateMachineAdvanced.cs:70-74 | a first registration with a new key is enumerated right after the keys already there, so on a fresh machine it is the state `Start` enters |
| AnimationStateAdvanced.AnimationState.constructor | Assets/@TheyCallMeAlfred/TheyCallMeAlfred/Scripts/Runtime/Animation/Core/Systems/AnimationState.cs:29-53 | with the default properties the animation is named after the key, the transition is 0.15 s, the state is interruptible and looping, `GetNextState` answers the state's own key ("stay"), and no machine is set |
| AnimationStateAdvanced.AnimationState.Custom | Assets/@TheyCallMeAlfred/TheyCallMeAlfred/Scripts/Runtime/Animation/Core/Systems/AnimationState.cs:14-53 | a subclass's overridden properties and next-state rule are taken as given; the key is fixed (a `const`) from construction on |
| AnimationStateAdvanced.AnimationState.SetStateMachine | Assets/@TheyCallMeAlfred/TheyCallMeAlfred/Scripts/Runtime/Animation/Core/Systems/AnimationState.cs:58-60 | the owning machine becomes the given one |
| AnimationStateAdvanced.AnimationState.EnterState | Assets/@TheyCallMeAlfred/TheyCallMeAlfred/Scripts/Runtime/Animation/Core/Systems/AnimationState.cs:65-68 | entering resets `StateTime` to 0 and plays the state's animation |
| AnimationStateAdvanced.AnimationState.PlayAnimation | Assets/@TheyCallMeAlfred/TheyCallMeAlfred/Scripts/Runtime/Animation/Core/Systems/AnimationState.cs:98-100 | one crossfade to the animation name with the state's transition when a machine with a controller is set, and nothing otherwise |
| AnimationStateAdvanced.AnimationState.UpdateState | Assets/@TheyCallMeAlfred/TheyCallMeAlfred/Scripts/Runtime/Animation/Core/Systems/AnimationState.cs:78-80 | each frame increases `StateTime` by exactly that frame's delta |
| AnimationStateAdvanced.AnimationState.ExitState | Assets/@TheyCallMeAlfred/TheyCallMeAlfred/Scripts/Runtime/Animation/Core/Systems/AnimationState.cs:73 | the default exit hook changes nothing (it modifies no state) |
| AnimationStateAdvanced.AnimationState.GetNextState | Assets/@TheyCallMeAlfred/TheyCallMeAlfred/Scripts/Runtime/Animation/Core/Systems/AnimationState.cs:91-93 | the next state is the object's rule applied to its `StateTime`; for an object built with the default rule that is its own key, as the constructor states |
| AnimationStateAdvanced.AnimationState.GetAnimationLength | Assets/@TheyCallMeAlfred/TheyCallMeAlfred/Scripts/Runtime/Animation/Core/Systems/AnimationState.cs:112-122 | the search loop returns 1 without a runtime controller, else the length of the first clip with that name, else 1 |
| AnimationStateAdvanced.AnimationState.GetOwnAnimationLength | Assets/@TheyCallMeAlfred/TheyCallMeAlfred/Scripts/Runtime/Animation/Core/Systems/AnimationState.cs:127 | the length of the state's own animation name |
| AnimationStateAdvanced.AnimationState.TransitionTo | Assets/@TheyCallMeAlfred/TheyCallMeAlfred/Scripts/Runtime/Animation/Core/Systems/AnimationState.cs:132-134 | the owning machine undergoes exactly the outcome of its `RequestStateChange`; without a machine nothing happens |
| AnimationStateAdvanced.AnimationStateMachineAdvanced.constructor | Assets/@TheyCallMeAlfred/TheyCallMeAlfred/Scripts/Runtime/Animation/Core/Systems/AnimationStateMachineAdvanced.cs:20-60 | a new machine has no states, nothing current or previous, and no lock |
| AnimationStateAdvanced.AnimationStateMachineAdvanced.AddState | Assets/@TheyCallMeAlfred/TheyCallMeAlfred/Scripts/Runtime/Animation/Core/Systems/AnimationStateMachineAdvanced.cs:112-115 | overwrites the entry for the key, points the object at this machine, and keeps the enumeration order (a new key goes last, an existing key keeps its place) |
| AnimationStateAdvanced.AnimationStateMachineAdvanced.GetState | Assets/@TheyCallMeAlfred/TheyCallMeAlfred/Scripts/Runtime/Animation/Core/Systems/AnimationStateMachineAdvanced.cs:204-206 | null exactly for an unregistered key, otherwise the registered object |
| AnimationStateAdvanced.AnimationStateMachineAdvanced.PerformTransition | Assets/@TheyCallMeAlfred/TheyCallMeAlfred/Scripts/Runtime/Animation/Core/Systems/AnimationStateMachineAdvanced.cs:162-176 | previous takes the old current object, the old object's exit comes before the new one's entry, the new object's clock restarts, and one notification reports (old key or default, new key); the table, the lock and every other object's clock stay as they were |
| AnimationStateAdvanced.AnimationStateMachineAdvanced.RequestStateChange | Assets/@TheyCallMeAlfred/TheyCallMeAlfred/Scripts/Runtime/Animation/Core/Systems/AnimationStateMachineAdvanced.cs:120-147 | returns true exactly when the verdict accepts; an acceptance is a transition to the registered object with the lock untouched, and a rejection changes nothing observable |
| AnimationStateAdvanced.AnimationStateMachineAdvanced.ForceStateChange | Assets/@TheyCallMeAlfred/TheyCallMeAlfred/Scripts/Runtime/Animation/Core/Systems/AnimationStateMachineAdvanced.cs:152-160 | an unregistered key changes nothing, so any lock stays in place; a registered key clears the lock and transitions, exiting and re-entering the object when it is already current |
| AnimationStateAdvanced.AnimationStateMachineAdvanced.Start | Assets/@TheyCallMeAlfred/TheyCallMeAlfred/Scripts/Runtime/Animation/Core/Systems/AnimationStateMachineAdvanced.cs:62-78 | the table and its enumeration order are exactly the registrations added in turn (`AddAll`), every registered object points at this machine, and every object left in the table was registered before or now; when nothing was current and states exist, exactly the first enumerated state is entered, its clock restarts, and it plays its animation, with no notification; otherwise the current state, hooks and calls are unchanged; no other object's `StateTime` changes; the lock, the previous state and the notifications are untouched |
| AnimationStateAdvanced.AnimationStateMachineAdvanced.InitializeStates | Assets/@TheyCallMeAlfred/TheyCallMeAlfred/Scripts/Runtime/Animation/Core/Systems/AnimationStateMachineAdvanced.cs:103-115 | the table and its enumeration order are exactly those of `AddState` applied to each registration in turn (`AddAll`), and every registration points at this machine; only the registered objects' machine links and the table are written |
| AnimationStateAdvanced.AnimationStateMachineAdvanced.AttachAndEnter | Assets/@TheyCallMeAlfred/TheyCallMeAlfred/Scripts/Runtime/Animation/Core/Systems/AnimationStateMachineAdvanced.cs:65-77 | every registered object points at this machine, and then the first enumerated state is entered exactly when nothing was current and the table is non-empty, its clock restarting and its animation playing on this machine's controller; no other object's `StateTime` changes |
| AnimationStateAdvanced.AnimationStateMachineAdvanced.AttachAll | Assets/@TheyCallMeAlfred/TheyCallMeAlfred/Scripts/Runtime/Animation/Core/Systems/AnimationStateMachineAdvanced.cs:65-68 | after the loop over the table every registered object points at this machine |
| AnimationStateAdvanced.AnimationStateMachineAdvanced.EnterFirst | Assets/@TheyCallMeAlfred/TheyCallMeAlfred/Scripts/Runtime/Animation/Core/Systems/AnimationStateMachineAdvanced.cs:70-77 | with nothing current and a non-empty table the first enumerated object becomes current, its clock restarts, its entry hook runs and its animation plays; otherwise nothing changes; no other object's `StateTime` changes |
| AnimationStateAdvanced.AnimationStateMachineAdvanced.Update | Assets/@TheyCallMeAlfred/TheyCallMeAlfred/Scripts/Runtime/Animation/Core/Systems/AnimationStateMachineAdvanced.cs:80-97 | an expired lock is cleared; with nothing current nothing else happens, and every object's `StateTime` and machine link stay as they were; otherwise the current object is ticked by the frame delta, and it moves to its next state exactly when auto-transition is on, the next state differs from its key, and the request gate accepts: then the hooks are tick, exit, enter, one crossfade and one notification are recorded and previous takes the old state; otherwise only the tick is recorded; the table, enumeration order, lock end and every other object are untouched |
| AnimationStateAdvanced.AnimationStateMachineAdvanced.LockForDuration | Assets/@TheyCallMeAlfred/TheyCallMeAlfred/Scripts/Runtime/Animation/Core/Systems/AnimationStateMachineAdvanced.cs:181-184 | after locking at time t for d, `IsLocked` holds exactly at times before t + d |
| AnimationStateAdvanced.AnimationStateMachineAdvanced.Unlock | Assets/@TheyCallMeAlfred/TheyCallMeAlfred/Scripts/Runtime/Animation/Core/Systems/AnimationStateMachineAdvanced.cs:189-191 | after `Unlock`, `IsLocked` is false at every time |
| AnimationStateAdvanced.AnimationStateMachineAdvanced.CurrentStateKey | Assets/@TheyCallMeAlfred/TheyCallMeAlfred/Scripts/Runtime/Animation/Core/Systems/AnimationStateMachineAdvanced.cs:40 | the current object's key, or the default key while nothing is current; partner of `IsInState` |
| AnimationStateAdvanced.AnimationStateMachineAdvanced.IsInState | Assets/@TheyCallMeAlfred/TheyCallMeAlfred/Scripts/Runtime/Animation/Core/Systems/AnimationStateMachineAdvanced.cs:196-199 | in a state exactly when some object is current and `CurrentStateKey` is that key; false while nothing is current |
| AnimationController.FirstWithHash | Assets/@TheyCallMeAlfred/TheyCallMeAlfred/Scripts/Runtime/Animation/Core/Base/AnimationController.cs:72-77 | a found name is in the enumeration order and cached with exactly that hash; when nothing is found, no cached name in the order has that hash; `FirstWithHashIsFirst` adds that the match is the first |
| AnimationController.FirstWithHashIsFirst | Assets/@TheyCallMeAlfred/TheyCallMeAlfred/Scripts/Runtime/Animation/Core/Base/AnimationController.cs:72-77 | a found name stands at some position of the enumeration order, and no cached name before that position has the hash: the match is the first one |
| AnimationController.FindAfterCache | Assets/@TheyCallMeAlfred/TheyCallMeAlfred/Scripts/Runtime/Animation/Core/Base/AnimationController.cs:72-77 | the reverse lookup finds a cached name from its own hash unless another cached name shares that hash |
| AnimationController.AnimationController.constructor | Assets/@TheyCallMeAlfred/TheyCallMeAlfred/Scripts/Runtime/Animation/Core/Base/AnimationController.cs:13-38 | a new controller has empty caches, empty current and previous names, hash 0, and the default transition duration (0.1 unless edited) |
| AnimationController.AnimationController.IsPlaying | Assets/@TheyCallMeAlfred/TheyCallMeAlfred/Scripts/Runtime/Animation/Core/Base/AnimationController.cs:26 | playing exactly when the current state name is non-empty |
| AnimationController.AnimationController.GetStateHash | Assets/@TheyCallMeAlfred/TheyCallMeAlfred/Scripts/Runtime/Animation/Core/Base/AnimationController.cs:181-187 | the result is `StringToHash(name)`; the first use adds that entry (the cache only grows), and later uses leave the cache unchanged |
| AnimationController.AnimationController.GetParamHash | Assets/@TheyCallMeAlfred/TheyCallMeAlfred/Scripts/Runtime/Animation/Core/Base/AnimationController.cs:192-198 | the same memoisation on the parameter cache; the state cache is not touched |
| AnimationController.AnimationController.CacheStateHashes | Assets/@TheyCallMeAlfred/TheyCallMeAlfred/Scripts/Runtime/Animation/Core/Base/AnimationController.cs:204-208 | afterwards every given name is cached, nothing was dropped, and only given names were added |
| AnimationController.AnimationController.CacheParamHashes | Assets/@TheyCallMeAlfred/TheyCallMeAlfred/Scripts/Runtime/Animation/Core/Base/AnimationController.cs:213-217 | afterwards every given parameter name is cached, nothing was dropped, and only given names were added |
| AnimationController.AnimationController.FindStateNameByHash | Assets/@TheyCallMeAlfred/TheyCallMeAlfred/Scripts/Runtime/Animation/Core/Base/AnimationController.cs:72-77 | the loop returns the first cached name, in enumeration order, whose hash matches, or null |
| AnimationController.AnimationController.PlayByName | Assets/@TheyCallMeAlfred/TheyCallMeAlfred/Scripts/Runtime/Animation/Core/Base/AnimationController.cs:81-88 | without an Animator or with an empty name nothing happens; otherwise one play call by hash, and the current name and hash become the name and `GetStateHash(name)` |
| AnimationController.AnimationController.PlayByHash | Assets/@TheyCallMeAlfred/TheyCallMeAlfred/Scripts/Runtime/Animation/Core/Base/AnimationController.cs:90-95 | with an Animator, one play call; the current hash becomes h and the current name becomes a cached name with hash h, or "" when there is none |
| AnimationController.AnimationController.CrossFadeByName | Assets/@TheyCallMeAlfred/TheyCallMeAlfred/Scripts/Runtime/Animation/Core/Base/AnimationController.cs:97-104 | the same as play by name, with a crossfade of the given duration |
| AnimationController.AnimationController.CrossFadeByHash | Assets/@TheyCallMeAlfred/TheyCallMeAlfred/Scripts/Runtime/Animation/Core/Base/AnimationController.cs:106-111 | the same as play by hash, with a crossfade of the given duration |
| AnimationController.AnimationController.CrossFadeDefault | Assets/@TheyCallMeAlfred/TheyCallMeAlfred/Scripts/Runtime/Animation/Core/Base/AnimationController.cs:116-118 | a crossfade by name that uses the default transition duration: without an Animator or with an empty name nothing is recorded; otherwise one crossfade by the name's hash is recorded, the name becomes current and the state cache gains the name; the previous name, notifications, parameter cache and transition flag are untouched |
| AnimationController.AnimationController.Update | Assets/@TheyCallMeAlfred/TheyCallMeAlfred/Scripts/Runtime/Animation/Core/Base/AnimationController.cs:40-43 | without an Animator the tick changes nothing; otherwise it performs one tracking poll |
| AnimationController.AnimationController.TrackAnimationState | Assets/@TheyCallMeAlfred/TheyCallMeAlfred/Scripts/Runtime/Animation/Core/Base/AnimationController.cs:45-70 | an unchanged hash changes nothing but the transition flag; a new hash moves the old name to previous and stores the hash; the current name changes only when the hash names a non-empty cached state, and then `Completed(previous)` (only for a non-empty previous) is followed by `Started(current)`; otherwise no event fires |
| StateGraph.AppendUnique | Assets/@TheyCallMeAlfred/TheyCallMeAlfred/Scripts/Runtime/Animation/AnimationTrigger.cs:72-76 | the "add unless already listed" loop keeps everything already there, lists exactly the old and new elements, and adds no duplicate |
| StateGraph.AppendUniqueConcat | Assets/@TheyCallMeAlfred/TheyCallMeAlfred/Scripts/Runtime/Animation/AnimationTrigger.cs:71-81 | adding one batch and then another is the same as adding their concatenation, which is what lets the recursive walk be read as one pass |
| StateGraph.AppendUniqueOfNew | Assets/@TheyCallMeAlfred/TheyCallMeAlfred/Scripts/Runtime/Animation/AnimationTrigger.cs:73-75 | a name not listed yet is appended at the end |
| StateGraph.AppendUniqueOfPresent | Assets/@TheyCallMeAlfred/TheyCallMeAlfred/Scripts/Runtime/Animation/AnimationTrigger.cs:73 | a name already listed adds nothing |
| StateGraph.AllStatesOfSnoc | Assets/@TheyCallMeAlfred/TheyCallMeAlfred/Scripts/Runtime/Animation/AnimationTrigger.cs:78-80 | walking one more sub-machine appends that sub-machine's full walk |
| StateGraph.InAllStatesOf | Assets/@TheyCallMeAlfred/TheyCallMeAlfred/Scripts/Runtime/Animation/AnimationTrigger.cs:48-54 | a name occurs in the walk of several machines iff it occurs in the walk of one of them |
| AnimationTrigger.DiscoveredNamesSpec | Assets/@TheyCallMeAlfred/TheyCallMeAlfred/Scripts/Runtime/Animation/AnimationTrigger.cs:71-82 | a name is discovered iff some layer's machine tree holds it, and no name is discovered twice, since duplicates are judged by name alone across layers |
| AnimationTrigger.SubMachineStep | Assets/@TheyCallMeAlfred/TheyCallMeAlfred/Scripts/Runtime/Animation/AnimationTrigger.cs:78-80 | discovering one more sub-machine extends the discovered list as the walk says |
| AnimationTrigger.AnimationTrigger.constructor | Assets/@TheyCallMeAlfred/TheyCallMeAlfred/Scripts/Runtime/Animation/AnimationTrigger.cs:9-20 | a new trigger has no states, index 0 and no loop running, with the given blend duration (0.3 unless edited) and auto-start flag |
| AnimationTrigger.AnimationTrigger.Start | Assets/@TheyCallMeAlfred/TheyCallMeAlfred/Scripts/Runtime/Animation/AnimationTrigger.cs:22-37 | without an Animator nothing at all changes; otherwise the states are discovered, and a loop starts exactly when `autoStart` holds and at least one state was found, replacing any running loop and cross-fading to the first state at once; otherwise no loop starts and no call is made |
| AnimationTrigger.AnimationTrigger.DiscoverAnimationStates | Assets/@TheyCallMeAlfred/TheyCallMeAlfred/Scripts/Runtime/Animation/AnimationTrigger.cs:39-68 | the list is cleared first; with no runtime controller it stays empty and `discoveredStates` keeps its old value; otherwise the list is the first-occurrence list of all layers' names (none for a non-editable controller) and `discoveredStates` equals it |
| AnimationTrigger.AnimationTrigger.DiscoverStatesRecursive | Assets/@TheyCallMeAlfred/TheyCallMeAlfred/Scripts/Runtime/Animation/AnimationTrigger.cs:71-81 | a machine's own states come before its sub-machines' states, depth-first, and each name is added only when not yet listed |
| AnimationTrigger.AnimationTrigger.AddStates | Assets/@TheyCallMeAlfred/TheyCallMeAlfred/Scripts/Runtime/Animation/AnimationTrigger.cs:72-76 | the loop over a machine's own states adds each name not yet listed, in order |
| AnimationTrigger.AnimationTrigger.StartAnimationLoop | Assets/@TheyCallMeAlfred/TheyCallMeAlfred/Scripts/Runtime/Animation/AnimationTrigger.cs:84-106 | a running loop is stopped before a new one starts, so at most one loop runs; the new loop's first pass, up to its wait, cross-fades to the current state when the list is non-empty, so a restart replays the current state |
| AnimationTrigger.AnimationTrigger.LoopStep | Assets/@TheyCallMeAlfred/TheyCallMeAlfred/Scripts/Runtime/Animation/AnimationTrigger.cs:93-106 | a loop resumed after its wait moves the index one step round the cycle, keeping it in range, and then cross-fades to the new current state; an empty list ends the loop with no call |
| IndexCycling.Abs | Assets/@TheyCallMeAlfred/TheyCallMeAlfred/Scripts/Runtime/Animation/AnimationTrigger.cs:104 | the magnitude of the divisor that C#'s `%` uses |
| IndexCycling.CsRem | Assets/@TheyCallMeAlfred/TheyCallMeAlfred/Scripts/Runtime/Animation/AnimationTrigger.cs:104 | C#'s truncating `%`: on a non-negative dividend it lies in [0, abs(divisor)) and agrees with the mathematical remainder; on a negative dividend it lies in (-abs(divisor), 0] |
| IndexCycling.NextStep | Assets/@TheyCallMeAlfred/TheyCallMeAlfred/Scripts/Runtime/Animation/AnimationTrigger.cs:104 | from an index in range, a step goes to the next index and wraps from the last to 0, so it stays in range |
| IndexCycling.ModBelow | Assets/@TheyCallMeAlfred/TheyCallMeAlfred/Scripts/Runtime/Animation/AnimationTrigger.cs:104 | a remainder below the modulus is the number itself |
| IndexCycling.ModSelf | Assets/@TheyCallMeAlfred/TheyCallMeAlfred/Scripts/Runtime/Animation/AnimationTrigger.cs:104 | the modulus wraps to 0 |
| IndexCycling.AdvanceAdd | Assets/@TheyCallMeAlfred/TheyCallMeAlfred/Scripts/Runtime/Animation/AnimationTrigger.cs:94-105 | a + b loop steps are a steps followed by b steps |
| IndexCycling.AdvanceCountsUp | Assets/@TheyCallMeAlfred/TheyCallMeAlfred/Scripts/Runtime/Animation/AnimationTrigger.cs:94-105 | before the wrap, k steps from i reach i + k |
| IndexCycling.AdvanceInRange | Assets/@TheyCallMeAlfred/TheyCallMeAlfred/Scripts/Runtime/Animation/AnimationTrigger.cs:94-105 | any number of steps from an index in range stays in range |
| IndexCycling.Periodic | Assets/@TheyCallMeAlfred/TheyCallMeAlfred/Scripts/Runtime/Animation/AnimationTrigger.cs:94-105 | after count steps the index is back where it started |
| IndexCycling.VisitsEveryIndex | Assets/@TheyCallMeAlfred/TheyCallMeAlfred/Scripts/Runtime/Animation/AnimationTrigger.cs:94-105 | every index is reached within count steps, whatever the start: the loop is round-robin |
| CharacterAnimatorEditor.Tag | Assets/@TheyCallMeAlfred/TheyCallMeAlfred/Scripts/Editor/Animation/CharacterAnimatorEditor.cs:157 | each discovered name is paired with the layer being walked, in order |
| CharacterAnimatorEditor.InLayerInfos | Assets/@TheyCallMeAlfred/TheyCallMeAlfred/Scripts/Editor/Animation/CharacterAnimatorEditor.cs:127-129 | a (name, layer) pair is offered iff the layer exists and its machine tree holds the name |
| CharacterAnimatorEditor.DiscoveredStatesSpec | Assets/@TheyCallMeAlfred/TheyCallMeAlfred/Scripts/Editor/Animation/CharacterAnimatorEditor.cs:153-158 | a (name, layer) pair is discovered iff that layer's machine tree holds the name, and no pair is discovered twice, so the same name on two layers gives two entries |
| CharacterAnimatorEditor.DiscoverStates | Assets/@TheyCallMeAlfred/TheyCallMeAlfred/Scripts/Editor/Animation/CharacterAnimatorEditor.cs:153-163 | the recursive walk adds a machine's own states, then its sub-machines depth-first, skipping pairs already listed |
| CharacterAnimatorEditor.AddStates | Assets/@TheyCallMeAlfred/TheyCallMeAlfred/Scripts/Editor/Animation/CharacterAnimatorEditor.cs:154-159 | the loop over a machine's own states adds each (name, layer) pair not yet listed, in order |
| CharacterAnimatorEditor.TagConcat | Assets/@TheyCallMeAlfred/TheyCallMeAlfred/Scripts/Editor/Animation/CharacterAnimatorEditor.cs:154-162 | pairing distributes over concatenation |
| CharacterAnimatorEditor.SubMachineStep | Assets/@TheyCallMeAlfred/TheyCallMeAlfred/Scripts/Editor/Animation/CharacterAnimatorEditor.cs:160-162 | discovering one more sub-machine extends the list as the depth-first walk says |
| CharacterAnimatorEditor.DiscoverAll | Assets/@TheyCallMeAlfred/TheyCallMeAlfred/Scripts/Editor/Animation/CharacterAnimatorEditor.cs:126-129 | the layer loop, in index order, yields exactly the discovered list |
| CharacterAnimatorEditor.BuildList | Assets/@TheyCallMeAlfred/TheyCallMeAlfred/Scripts/Editor/Animation/CharacterAnimatorEditor.cs:131-148 | one entry per discovered pair, in the same order |
| CharacterAnimatorEditor.AutoFillEntry | Assets/@TheyCallMeAlfred/TheyCallMeAlfred/Scripts/Editor/Animation/CharacterAnimatorEditor.cs:135-147 | the key is the name with every '.' replaced by '_' (so it holds no '.'), the state name is the original name, the layer is kept, and the entry takes the inspector's duration, is interruptible and looping, has speed 1 and no lock |
| CharacterAnimatorEditor.AutoFillList | Assets/@TheyCallMeAlfred/TheyCallMeAlfred/Scripts/Editor/Animation/CharacterAnimatorEditor.cs:124-148 | the filled list has one entry per discovered pair, entry i built from pair i |
| CharacterAnimatorEditor.ResolveController | Assets/@TheyCallMeAlfred/TheyCallMeAlfred/Scripts/Editor/Animation/CharacterAnimatorEditor.cs:104-111 | an editable controller is used as it is; an override controller yields the editable controller it wraps directly, and nothing when it wraps none or wraps another override |
| CharacterAnimatorEditor.SanitizeIdentifier | Assets/@TheyCallMeAlfred/TheyCallMeAlfred/Scripts/Editor/Animation/CharacterAnimatorEditor.cs:207-209 | the result holds only [A-Za-z0-9_] characters and never starts with a digit, and it is empty exactly when the key holds no such character |
| CharacterAnimatorEditor.NamesSnoc | Assets/@TheyCallMeAlfred/TheyCallMeAlfred/Scripts/Editor/Animation/CharacterAnimatorEditor.cs:211-214 | appending a constant appends its identifier |
| CharacterAnimatorEditor.ConstantsWellFormed | Assets/@TheyCallMeAlfred/TheyCallMeAlfred/Scripts/Editor/Animation/CharacterAnimatorEditor.cs:200-215 | no identifier is emitted twice, and each constant binds a valid identifier to a non-empty key of the list that sanitises to it |
| CharacterAnimatorEditor.EmitWellFormed | Assets/@TheyCallMeAlfred/TheyCallMeAlfred/Scripts/Editor/Animation/CharacterAnimatorEditor.cs:204-214 | one more key keeps the constants free of duplicates and well bound |
| CharacterAnimatorEditor.ConstantsCover | Assets/@TheyCallMeAlfred/TheyCallMeAlfred/Scripts/Editor/Animation/CharacterAnimatorEditor.cs:204-214 | every key that is non-empty and sanitises to something has its identifier emitted |
| CharacterAnimatorEditor.ConstantsFirstWins | Assets/@TheyCallMeAlfred/TheyCallMeAlfred/Scripts/Editor/Animation/CharacterAnimatorEditor.cs:211-214 | the first key with a given identifier is the one bound to it |
| CharacterAnimatorEditor.LastIsNew | Assets/@TheyCallMeAlfred/TheyCallMeAlfred/Scripts/Editor/Animation/CharacterAnimatorEditor.cs:211 | a key whose identifier no earlier key produced finds that identifier not yet emitted |
| CharacterAnimatorEditor.IdentifierIsNew | Assets/@TheyCallMeAlfred/TheyCallMeAlfred/Scripts/Editor/Animation/CharacterAnimatorEditor.cs:211 | an identifier no earlier key sanitises to is not among the emitted ones |
| CharacterAnimatorEditor.ConstantsPrefix | Assets/@TheyCallMeAlfred/TheyCallMeAlfred/Scripts/Editor/Animation/CharacterAnimatorEditor.cs:200-215 | constants keep list order: those of a prefix of the list are a prefix of those of the whole list |
| CharacterAnimatorEditor.ConstantLines | Assets/@TheyCallMeAlfred/TheyCallMeAlfred/Scripts/Editor/Animation/CharacterAnimatorEditor.cs:214 | one line per constant, in order |
| CharacterAnimatorEditor.KeysFile | Assets/@TheyCallMeAlfred/TheyCallMeAlfred/Scripts/Editor/Animation/CharacterAnimatorEditor.cs:194-219 | the file is the namespace line, the class header with the class name, the constant lines in list order, and two closing braces |
| CharacterAnimatorEditor.NameSetIsNames | Assets/@TheyCallMeAlfred/TheyCallMeAlfred/Scripts/Editor/Animation/CharacterAnimatorEditor.cs:198-212 | the HashSet of emitted identifiers holds exactly the identifiers of the constants so far |
| CharacterAnimatorEditor.EmitOnNameSet | Assets/@TheyCallMeAlfred/TheyCallMeAlfred/Scripts/Editor/Animation/CharacterAnimatorEditor.cs:201-214 | the duplicate check against the HashSet gives the same constants as the check against the emitted identifiers, and adding an identifier grows the set by exactly that one |
| CharacterAnimatorEditor.EmitKey | Assets/@TheyCallMeAlfred/TheyCallMeAlfred/Scripts/Editor/Animation/CharacterAnimatorEditor.cs:201-214 | one pass of the loop emits exactly what `Emit` says and keeps the HashSet equal to the emitted identifiers |
| CharacterAnimatorEditor.GenerateConstants | Assets/@TheyCallMeAlfred/TheyCallMeAlfred/Scripts/Editor/Animation/CharacterAnimatorEditor.cs:198-215 | the loop with its HashSet yields exactly the de-duplicated constants of the keys |
| CharacterAnimatorEditor.ClassNameAsWrittenThrows | Assets/@TheyCallMeAlfred/TheyCallMeAlfred/Scripts/Editor/Animation/CharacterAnimatorEditor.cs:189-192 | as written, a chosen file name with no identifier character (for example "-.cs") makes `className[0]` throw |
| CharacterAnimatorEditor.ClassName | Assets/@TheyCallMeAlfred/TheyCallMeAlfred/Scripts/Editor/Animation/CharacterAnimatorEditor.cs:189-192 | the guarded class name is a valid identifier whenever one exists, is absent exactly when the filtered name is empty, and agrees with the source wherever the source does not throw |
| CharacterAnimatorEditor.CharacterAnimatorEditor.constructor | Assets/@TheyCallMeAlfred/TheyCallMeAlfred/Scripts/Editor/Animation/CharacterAnimatorEditor.cs:166 | the editor edits the given list with the given default duration |
| CharacterAnimatorEditor.CharacterAnimatorEditor.AutoFillAnimations | Assets/@TheyCallMeAlfred/TheyCallMeAlfred/Scripts/Editor/Animation/CharacterAnimatorEditor.cs:97-151 | the list is replaced exactly when there is an Animator, an editable controller (directly or behind an override controller), and the user confirmed; it then holds one entry per discovered pair; otherwise it is unchanged |
| CharacterAnimatorEditor.CharacterAnimatorEditor.GenerateKeysScript | Assets/@TheyCallMeAlfred/TheyCallMeAlfred/Scripts/Editor/Animation/CharacterAnimatorEditor.cs:165-223 | an empty list is refused; otherwise an empty path writes nothing, a file name without identifier characters is refused, and exactly in the remaining case the file is written to the chosen path, holding the keys file of the list's keys under the guarded class name; each outcome holds exactly in its case |
| CharacterAnimatorEditor.KeysOf | Assets/@TheyCallMeAlfred/TheyCallMeAlfred/Scripts/Editor/Animation/CharacterAnimatorEditor.cs:202 | the keys of the list entries, in order |
| CharacterAnimatorEditor.Names | Assets/@TheyCallMeAlfred/TheyCallMeAlfred/Scripts/Editor/Animation/CharacterAnimatorEditor.cs:198-212 | the identifiers of the emitted constants, one per constant, in the order they are written |
| Text.Split | Assets/@TheyCallMeAlfred/TheyCallMeAlfred/Scripts/Editor/ProjectSetup/AssetImporter.cs:42 | `Split` always yields at least one part, and no part contains the separator |
| Text.JoinSplit | Assets/@TheyCallMeAlfred/TheyCallMeAlfred/Scripts/Editor/ProjectSetup/AssetImporter.cs:42 | joining the parts of a split on the same separator gives the original string back, so splitting loses nothing |
| Text.ReplaceChar | Assets/@TheyCallMeAlfred/TheyCallMeAlfred/Scripts/Editor/Animation/CharacterAnimatorEditor.cs:136 | the rewrite keeps the length and replaces exactly the occurrences of the character |
| Text.KeepIdentChars | Assets/@TheyCallMeAlfred/TheyCallMeAlfred/Scripts/Editor/Animation/CharacterAnimatorEditor.cs:191 | the regex filter keeps only [a-zA-Z0-9_] characters, never lengthens the string, and leaves an identifier-only string unchanged |
| Text.KeepIdentCharsCounts | Assets/@TheyCallMeAlfred/TheyCallMeAlfred/Scripts/Editor/Animation/CharacterAnimatorEditor.cs:191 | every identifier character of the name is kept as often as it occurs, and no other character is kept |
| Text.KeepIdentCharsAppend | Assets/@TheyCallMeAlfred/TheyCallMeAlfred/Scripts/Editor/Animation/CharacterAnimatorEditor.cs:191 | the filter keeps the order: the kept text of a concatenation is the kept text of each part in turn |
| Text.KeepIdentCharsOne | Assets/@TheyCallMeAlfred/TheyCallMeAlfred/Scripts/Editor/Animation/CharacterAnimatorEditor.cs:191 | a single character is kept exactly when it is in [a-zA-Z0-9_] |
| Paths.Combine | Assets/@TheyCallMeAlfred/TheyCallMeAlfred/Scripts/Editor/ProjectSetup/AssetImporter.cs:43 | `Path.Combine`: an empty second part is ignored, a rooted second part replaces the first, and a separator is inserted between two plain parts |
| Paths.FileNameWithoutExtension | Assets/@TheyCallMeAlfred/TheyCallMeAlfred/Scripts/Editor/Animation/CharacterAnimatorEditor.cs:189 | the file name without extension holds no directory separator |
| Paths.AfterLast | Assets/@TheyCallMeAlfred/TheyCallMeAlfred/Scripts/Editor/Animation/CharacterAnimatorEditor.cs:189 | the text after the last separator contains no separator and is no longer than the path |
| Paths.AfterLastFollowsSeparator | Assets/@TheyCallMeAlfred/TheyCallMeAlfred/Scripts/Editor/Animation/CharacterAnimatorEditor.cs:189 | when the path has a separator, the character just before the file name is a separator, so the name is everything after the last one |
| Paths.BeforeLast | Assets/@TheyCallMeAlfred/TheyCallMeAlfred/Scripts/Editor/Animation/CharacterAnimatorEditor.cs:189 | the text before the last dot is shorter than the name, and has no separator when the name has none; `BeforeLastPrecedesSeparator` adds that it is the prefix cut at the last dot |
| Paths.BeforeLastPrecedesSeparator | Assets/@TheyCallMeAlfred/TheyCallMeAlfred/Scripts/Editor/Animation/CharacterAnimatorEditor.cs:189 | the result is a prefix of the name followed by a dot, and no dot comes after that one, so the extension is cut at the last dot |
| AssetImporter.PackageFileName | Assets/@TheyCallMeAlfred/TheyCallMeAlfred/Scripts/Editor/ProjectSetup/AssetImporter.cs:39 | the result always ends with ".unitypackage"; the suffix is appended iff it is missing |
| AssetImporter.PackageFileNameIdempotent | Assets/@TheyCallMeAlfred/TheyCallMeAlfred/Scripts/Editor/ProjectSetup/AssetImporter.cs:39 | normalising the name twice is the same as normalising it once |
| AssetImporter.AssetStorePathOnMac | Assets/@TheyCallMeAlfred/TheyCallMeAlfred/Scripts/Editor/ProjectSetup/AssetImporter.cs:68-72 | on macOS the cache is home/Library/Unity/Asset Store-5.x |
| AssetImporter.MacPath | Assets/@TheyCallMeAlfred/TheyCallMeAlfred/Scripts/Editor/ProjectSetup/AssetImporter.cs:71 | the four-part combination on macOS is the literal path below the home folder |
| AssetImporter.AssetStorePathOnLinux | Assets/@TheyCallMeAlfred/TheyCallMeAlfred/Scripts/Editor/ProjectSetup/AssetImporter.cs:73-77 | on Linux the cache is home/.local/share/unity3d/Asset Store |
| AssetImporter.LinuxPath | Assets/@TheyCallMeAlfred/TheyCallMeAlfred/Scripts/Editor/ProjectSetup/AssetImporter.cs:76 | the five-part combination on Linux is the literal path below the home folder |
| AssetImporter.AssetStorePathByDefault | Assets/@TheyCallMeAlfred/TheyCallMeAlfred/Scripts/Editor/ProjectSetup/AssetImporter.cs:78-82 | elsewhere, without the editor preference, the cache is appData/Unity/Asset Store-5.x |
| AssetImporter.AssetStorePathPreferred | Assets/@TheyCallMeAlfred/TheyCallMeAlfred/Scripts/Editor/ProjectSetup/AssetImporter.cs:78-82 | elsewhere, with the editor preference set, the cache is that root /Asset Store-5.x |
| AssetImporter.JoinFirst | Assets/@TheyCallMeAlfred/TheyCallMeAlfred/Scripts/Editor/ProjectSetup/AssetImporter.cs:71 | combining a folder without a trailing separator and a relative name inserts exactly one separator |
| AssetImporter.JoinAfter | Assets/@TheyCallMeAlfred/TheyCallMeAlfred/Scripts/Editor/ProjectSetup/AssetImporter.cs:71 | the same, with the folder written as a prefix and a literal tail |
| AssetImporter.CombineAllFour | Assets/@TheyCallMeAlfred/TheyCallMeAlfred/Scripts/Editor/ProjectSetup/AssetImporter.cs:71 | the four-part `Path.Combine` is the left-to-right pairwise combination |
| AssetImporter.CombineAllFive | Assets/@TheyCallMeAlfred/TheyCallMeAlfred/Scripts/Editor/ProjectSetup/AssetImporter.cs:76 | the five-part `Path.Combine` is the left-to-right pairwise combination |
| AssetImporter.CombineAllSnoc | Assets/@TheyCallMeAlfred/TheyCallMeAlfred/Scripts/Editor/ProjectSetup/AssetImporter.cs:43 | one more part is combined onto the combination of the parts before it |
| AssetImporter.GetAssetStorePath | Assets/@TheyCallMeAlfred/TheyCallMeAlfred/Scripts/Editor/ProjectSetup/AssetImporter.cs:64-89 | the platform's cache path is returned either way; a warning is logged exactly when that directory does not exist |
| AssetImporter.Matches | Assets/@TheyCallMeAlfred/TheyCallMeAlfred/Scripts/Editor/ProjectSetup/AssetImporter.cs:51 | a file is a match iff it lies below the directory and carries exactly that name |
| AssetImporter.FindAsset | Assets/@TheyCallMeAlfred/TheyCallMeAlfred/Scripts/Editor/ProjectSetup/AssetImporter.cs:37-62 | the exact candidate (base / each folder segment / name) wins when it exists; otherwise the first recursive match under the cache, or null when there is none or the search fails; anything found is an existing file that ends with the package name |
| AssetImporter.FindAssetNone | Assets/@TheyCallMeAlfred/TheyCallMeAlfred/Scripts/Editor/ProjectSetup/AssetImporter.cs:37-62 | nothing is found exactly when the exact candidate is missing and the cache is either missing or holds no file of that name |
| AssetImporter.CheckAssetExists | Assets/@TheyCallMeAlfred/TheyCallMeAlfred/Scripts/Editor/ProjectSetup/AssetImporter.cs:21-35 | true iff `FindAsset` found the package, with the same log |
| AssetImporter.ImportAsset | Assets/@TheyCallMeAlfred/TheyCallMeAlfred/Scripts/Editor/ProjectSetup/AssetImporter.cs:11-19 | throws FileNotFound exactly when `FindAsset` returns null, and otherwise imports the found path and nothing else |
| AssetImporter.CombineAllEndsWith | Assets/@TheyCallMeAlfred/TheyCallMeAlfred/Scripts/Editor/ProjectSetup/AssetImporter.cs:43 | a combination of parts ends with its last, non-empty part |
| AssetImporter.AfterLastEndsWith | Assets/@TheyCallMeAlfred/TheyCallMeAlfred/Scripts/Editor/ProjectSetup/AssetImporter.cs:51 | the text after the last separator is a suffix of the path |
| EditorAssetImporter.BasePathUnderHome | TheyCallMeAlfred/Scripts/Editor/AssetImporter.cs:16-20 | with a plain home folder, macOS and Unix both use home/Library/Unity/Asset Store-5.x, which is the newer copy's macOS path and differs from its Linux path |
| EditorAssetImporter.BasePath | TheyCallMeAlfred/Scripts/Editor/AssetImporter.cs:15-25 | on every platform the cache directory ends in the folder "Asset Store-5.x"; `BasePathUnderHome` pins the macOS and Unix path |
| EditorAssetImporter.BasePathElsewhere | TheyCallMeAlfred/Scripts/Editor/AssetImporter.cs:21-25 | on other platforms the older copy chooses the same cache as the newer one: the preferred root, defaulting to appData/Unity, joined with Asset Store-5.x |
| EditorAssetImporter.ImportAsset | TheyCallMeAlfred/Scripts/Editor/AssetImporter.cs:13-37 | the only path tried is base/folder/name (no recursive search); it throws FileNotFound exactly when no file is there, and otherwise imports that path, which ends with the package name |
| SceneTree.Nodes | Assets/@TheyCallMeAlfred/TheyCallMeAlfred/Scripts/Editor/Helpers/HierarchyInfoProvider.cs:8-11 | the pre-order list of a subtree's transforms has exactly as many entries as the subtree counts |
| SceneTree.NodesOf | Assets/@TheyCallMeAlfred/TheyCallMeAlfred/Scripts/Editor/Helpers/HierarchyInfoProvider.cs:8-11 | the listing of a forest of children has as many entries as the forest counts |
| SceneTree.SizeOfSnoc | Assets/@TheyCallMeAlfred/TheyCallMeAlfred/Scripts/Editor/Helpers/HierarchyInfoProvider.cs:8-11 | counting one more child adds that child's subtree size |
| SceneTree.SizeOfAtLeast | Assets/@TheyCallMeAlfred/TheyCallMeAlfred/Scripts/Editor/Helpers/HierarchyInfoProvider.cs:8-11 | a forest has at least as many transforms as any one of its subtrees |
| HierarchyInfoProvider.GetTotalChildCount | Assets/@TheyCallMeAlfred/TheyCallMeAlfred/Scripts/Editor/Helpers/HierarchyInfoProvider.cs:5-13 | the direct child count plus the children's own totals is the number of descendants: the subtree size less the root |
| HierarchyInfoProvider.ChildCountBounds | Assets/@TheyCallMeAlfred/TheyCallMeAlfred/Scripts/Editor/Helpers/HierarchyInfoProvider.cs:5-13 | a leaf has no descendants, and a transform has more descendants than any of its children |
| HierarchyInfoProvider.TransformLink.Root | Assets/@TheyCallMeAlfred/TheyCallMeAlfred/Scripts/Editor/Helpers/HierarchyInfoProvider.cs:18 | a root transform has no parent and depth 0 |
| HierarchyInfoProvider.TransformLink.Child | Assets/@TheyCallMeAlfred/TheyCallMeAlfred/Scripts/Editor/Helpers/HierarchyInfoProvider.cs:22 | a transform under a parent is one level deeper than that parent, and its parent chain stays acyclic |
| HierarchyInfoProvider.GetHierarchyDepth | Assets/@TheyCallMeAlfred/TheyCallMeAlfred/Scripts/Editor/Helpers/HierarchyInfoProvider.cs:15-25 | following parent links to the root counts the ancestors: 0 for a root, one more than the parent's depth otherwise; the loop ends because the chain is acyclic |
| MeshInfoCalculator.PlusAssoc | Assets/@TheyCallMeAlfred/TheyCallMeAlfred/Scripts/Editor/Helpers/MeshInfoCalculator.cs:46-53 | adding the four totals field by field is associative, so the order in which children are folded in does not matter |
| MeshInfoCalculator.PlusZero | Assets/@TheyCallMeAlfred/TheyCallMeAlfred/Scripts/Editor/Helpers/MeshInfoCalculator.cs:15 | the freshly created `MeshInfo` (all zero) is neutral for the field-wise addition |
| MeshInfoCalculator.TotalOfSnoc | Assets/@TheyCallMeAlfred/TheyCallMeAlfred/Scripts/Editor/Helpers/MeshInfoCalculator.cs:46-53 | folding in one more child adds exactly that child's totals |
| MeshInfoCalculator.SumBySingle | Assets/@TheyCallMeAlfred/TheyCallMeAlfred/Scripts/Editor/Helpers/MeshInfoCalculator.cs:13-56 | the sum of the contributions of one transform is that transform's contribution |
| MeshInfoCalculator.SumByConcat | Assets/@TheyCallMeAlfred/TheyCallMeAlfred/Scripts/Editor/Helpers/MeshInfoCalculator.cs:13-56 | sums of contributions split over concatenated lists |
| MeshInfoCalculator.TotalIsSumOverNodes | Assets/@TheyCallMeAlfred/TheyCallMeAlfred/Scripts/Editor/Helpers/MeshInfoCalculator.cs:13-56 | the recursive totals equal the own contributions of every transform in the subtree, each one counted exactly once |
| MeshInfoCalculator.TotalOfIsSumOverNodes | Assets/@TheyCallMeAlfred/TheyCallMeAlfred/Scripts/Editor/Helpers/MeshInfoCalculator.cs:46-53 | the totals of a list of children equal the own contributions of every transform below them, each counted once |
| MeshInfoCalculator.OwnMeshInfo | Assets/@TheyCallMeAlfred/TheyCallMeAlfred/Scripts/Editor/Helpers/MeshInfoCalculator.cs:17-44 | a transform's own counts: the `MeshFilter` mesh's vertices, triangles (indices / 3), submeshes and the renderer's material slots, plus the same again for a `SkinnedMeshRenderer`'s mesh; missing components or meshes add nothing |
| MeshInfoCalculator.TotalNonNegative | Assets/@TheyCallMeAlfred/TheyCallMeAlfred/Scripts/Editor/Helpers/MeshInfoCalculator.cs:13-56 | none of the four totals of a subtree is negative |
| MeshInfoCalculator.TotalOfNonNegative | Assets/@TheyCallMeAlfred/TheyCallMeAlfred/Scripts/Editor/Helpers/MeshInfoCalculator.cs:46-53 | none of the four totals over a list of children is negative |
| MeshInfoCalculator.GetMeshInfo | Assets/@TheyCallMeAlfred/TheyCallMeAlfred/Scripts/Editor/Helpers/MeshInfoCalculator.cs:13-56 | the result is the subtree's totals (own counts, then every child's totals added) |
| MeshInfoCalculator.AddChildTotals | Assets/@TheyCallMeAlfred/TheyCallMeAlfred/Scripts/Editor/Helpers/MeshInfoCalculator.cs:46-53 | the loop adds to the own counts exactly the totals of all children |
| PerformanceMetricsCalculator.OwnDrawCalls | Assets/@TheyCallMeAlfred/TheyCallMeAlfred/Scripts/Editor/Helpers/PerformanceMetricsCalculator.cs:9-23 | no renderer, or a disabled one, gives 0; with an enabled renderer, the `MeshFilter` mesh's submeshes when it has one, else the skinned mesh's |
| PerformanceMetricsCalculator.DrawCallsAtMostSubmeshes | Assets/@TheyCallMeAlfred/TheyCallMeAlfred/Scripts/Editor/Helpers/PerformanceMetricsCalculator.cs:5-31 | the draw-call estimate of a subtree never exceeds the submesh total `GetMeshInfo` reports for it |
| PerformanceMetricsCalculator.DrawCallsOfAtMostSubmeshes | Assets/@TheyCallMeAlfred/TheyCallMeAlfred/Scripts/Editor/Helpers/PerformanceMetricsCalculator.cs:25-28 | the same bound over a list of children |
| PerformanceMetricsCalculator.EstimateDrawCalls | Assets/@TheyCallMeAlfred/TheyCallMeAlfred/Scripts/Editor/Helpers/PerformanceMetricsCalculator.cs:5-31 | the result is the own draw calls of every transform in the subtree, summed |
| PerformanceMetricsCalculator.TextureBytesOfOnly2D | Assets/@TheyCallMeAlfred/TheyCallMeAlfred/Scripts/Editor/Helpers/PerformanceMetricsCalculator.cs:55-79 | materials that are null, have no shader, or carry no `Texture2D` main texture add no bytes |
| PerformanceMetricsCalculator.EstimateMemoryUsage | Assets/@TheyCallMeAlfred/TheyCallMeAlfred/Scripts/Editor/Helpers/PerformanceMetricsCalculator.cs:33-83 | 12 bytes per vertex and 4 per index of the filter and skinned meshes, plus 4 bytes per texel of each 2D main texture of the renderer's shaded materials; children are not visited and the `meshInfo` argument is unused |
| TextureSwapper.GuardAsWrittenAdmitsNegative | Assets/@TheyCallMeAlfred/TheyCallMeAlfred/Scripts/Runtime/Rendering/TextureSwapper.cs:48 | the guard as written, `materials.Length > materialIndex`, lets a negative index such as -1 through to `materials[materialIndex]`, which then throws; the same code is at TheyCallMeAlfred/Scripts/Utils/TextureSwapper.cs:43 |
| TextureSwapper.MaterialIndexInRangeAgrees | Assets/@TheyCallMeAlfred/TheyCallMeAlfred/Scripts/Runtime/Rendering/TextureSwapper.cs:48-51 | the corrected guard is the written one with the negative indices removed, and agrees with it on every non-negative index; the same code is at TheyCallMeAlfred/Scripts/Utils/TextureSwapper.cs:43-46 |
| TextureSwapper.StepFaceInRange | Assets/@TheyCallMeAlfred/TheyCallMeAlfred/Scripts/Runtime/Rendering/TextureSwapper.cs:87 | stepping with C#'s truncating `%` keeps the face index in `[0, abs(faceCount))`: the index goes up by one and wraps to 0 after the last face; the same code is at TheyCallMeAlfred/Scripts/Utils/TextureSwapper.cs:80 |
| TextureSwapper.StepFaceCycles | Assets/@TheyCallMeAlfred/TheyCallMeAlfred/Scripts/Runtime/Rendering/TextureSwapper.cs:77-89 | `abs(faceCount)` steps bring the index back to the face it started on, so every face recurs; the same code is at TheyCallMeAlfred/Scripts/Utils/TextureSwapper.cs:70-82 |
| TextureSwapper.TextureSwapper.constructor | Assets/@TheyCallMeAlfred/TheyCallMeAlfred/Scripts/Runtime/Rendering/TextureSwapper.cs:7-22 | the component starts with its inspector settings, face 0, no renderer, no instance, no loop and nothing applied; the same code is at TheyCallMeAlfred/Scripts/Utils/TextureSwapper.cs:8-23 |
| TextureSwapper.TextureSwapper.Default | Assets/@TheyCallMeAlfred/TheyCallMeAlfred/Scripts/Runtime/Rendering/TextureSwapper.cs:9-18 | the declared defaults: 2 s per face, auto-start, 3 faces, step -0.256, material 0, property "_ScrollUV"; the same code is at TheyCallMeAlfred/Scripts/Utils/TextureSwapper.cs:10-21 |
| TextureSwapper.TextureSwapper.ApplyCurrentFace | Assets/@TheyCallMeAlfred/TheyCallMeAlfred/Scripts/Runtime/Rendering/TextureSwapper.cs:107-114 | without a material instance nothing is sent; with one, exactly one `SetVector(property, (0, index * step))` is sent to it; the same code is at TheyCallMeAlfred/Scripts/Utils/TextureSwapper.cs:98-103 |
| TextureSwapper.TextureSwapper.Start | Assets/@TheyCallMeAlfred/TheyCallMeAlfred/Scripts/Runtime/Rendering/TextureSwapper.cs:24-39 | no renderer: an error is logged and nothing else changes; otherwise the material instance is made and the current face applied (or the range error logged, with nothing applied), and the loop starts iff `autoStart` holds and `faceCount > 0`, replacing any running loop and applying the current face once more as its first pass; the face index is untouched; the same code is at TheyCallMeAlfred/Scripts/Utils/TextureSwapper.cs:25-40 |
| TextureSwapper.TextureSwapper.CreateMaterialInstance | Assets/@TheyCallMeAlfred/TheyCallMeAlfred/Scripts/Runtime/Rendering/TextureSwapper.cs:47-60 | with the corrected guard: an index naming a slot replaces that slot by a copy of its material, which becomes the instance and gets the current face; any other index logs an error and changes nothing else; the same code is at TheyCallMeAlfred/Scripts/Utils/TextureSwapper.cs:42-53 |
| TextureSwapper.TextureSwapper.StartTextureLoop | Assets/@TheyCallMeAlfred/TheyCallMeAlfred/Scripts/Runtime/Rendering/TextureSwapper.cs:62-89 | a running loop is stopped first and a new one started, so at most one runs; the new loop's first pass, up to its wait, applies the current face when there are faces; the same code is at TheyCallMeAlfred/Scripts/Utils/TextureSwapper.cs:55-82 |
| TextureSwapper.TextureSwapper.StopTextureLoop | Assets/@TheyCallMeAlfred/TheyCallMeAlfred/Scripts/Runtime/Rendering/TextureSwapper.cs:70-75 | the running loop, if any, is stopped and cleared; the same code is at TheyCallMeAlfred/Scripts/Utils/TextureSwapper.cs:63-68 |
| TextureSwapper.TextureSwapper.TextureLoopStep | Assets/@TheyCallMeAlfred/TheyCallMeAlfred/Scripts/Runtime/Rendering/TextureSwapper.cs:77-89 | a loop resumed after its wait steps the index on, staying in range, and then applies the new face; with no faces the loop ends and nothing changes; the same code is at TheyCallMeAlfred/Scripts/Utils/TextureSwapper.cs:70-82 |
| TextureSwapper.TextureSwapper.SwitchToNextFace | Assets/@TheyCallMeAlfred/TheyCallMeAlfred/Scripts/Runtime/Rendering/TextureSwapper.cs:91-98 | with no faces nothing happens; otherwise the index steps on, stays in range, and the new face is applied; the same code is at TheyCallMeAlfred/Scripts/Utils/TextureSwapper.cs:84-89 |
| TextureSwapper.TextureSwapper.SwitchToSpecificFace | Assets/@TheyCallMeAlfred/TheyCallMeAlfred/Scripts/Runtime/Rendering/TextureSwapper.cs:100-105 | an index in `[0, faceCount)` becomes current and is applied; any other index leaves everything as it was; the same code is at TheyCallMeAlfred/Scripts/Utils/TextureSwapper.cs:91-96 |
| FolderManager.AncestorsOfAncestor | Assets/@TheyCallMeAlfred/TheyCallMeAlfred/Scripts/Editor/ProjectSetup/FolderManager.cs:11 | the directories above a directory above `p` are all above `p` too, so `Directory.CreateDirectory` creates a chain without gaps; the same code is at TheyCallMeAlfred/Scripts/Editor/FolderManager.cs:16 |
| FolderManager.DirClosed | Assets/@TheyCallMeAlfred/TheyCallMeAlfred/Scripts/Editor/ProjectSetup/FolderManager.cs:11 | what `Directory.CreateDirectory(p)` leaves, `p` and every directory above it, contains the parents of each of its directories; the same code is at TheyCallMeAlfred/Scripts/Editor/FolderManager.cs:16 |
| FolderManager.UnionClosed | Assets/@TheyCallMeAlfred/TheyCallMeAlfred/Scripts/Editor/ProjectSetup/FolderManager.cs:10-12 | creating more directories keeps every directory's parents present; the same code is at TheyCallMeAlfred/Scripts/Editor/FolderManager.cs:14-17 |
| FolderManager.Visited | Assets/@TheyCallMeAlfred/TheyCallMeAlfred/Scripts/Editor/ProjectSetup/FolderManager.cs:23-28 | the loop visits one path per '/'-separated segment; the same code is at TheyCallMeAlfred/Scripts/Editor/FolderManager.cs:30-37 |
| FolderManager.VisitedIsWalk | Assets/@TheyCallMeAlfred/TheyCallMeAlfred/Scripts/Editor/ProjectSetup/FolderManager.cs:23-28 | the k-th visited path is the root combined with the first k+1 segments; the same code is at TheyCallMeAlfred/Scripts/Editor/FolderManager.cs:30-37 |
| FolderManager.WalkStep | Assets/@TheyCallMeAlfred/TheyCallMeAlfred/Scripts/Editor/ProjectSetup/FolderManager.cs:24-27 | one more segment is combined onto the path reached so far, and the directories gain exactly those of the new path; the same code is at TheyCallMeAlfred/Scripts/Editor/FolderManager.cs:33-37 |
| FolderManager.DirsOfClosed | Assets/@TheyCallMeAlfred/TheyCallMeAlfred/Scripts/Editor/ProjectSetup/FolderManager.cs:23-28 | the directories left by creating a sequence of paths have all their parents present; the same code is at TheyCallMeAlfred/Scripts/Editor/FolderManager.cs:30-37 |
| FolderManager.DirsOfContains | Assets/@TheyCallMeAlfred/TheyCallMeAlfred/Scripts/Editor/ProjectSetup/FolderManager.cs:25-27 | every path the loop visits exists once the loop is done; the same code is at TheyCallMeAlfred/Scripts/Editor/FolderManager.cs:33-36 |
| FolderManager.HierarchyDirsContains | Assets/@TheyCallMeAlfred/TheyCallMeAlfred/Scripts/Editor/ProjectSetup/FolderManager.cs:14-16 | every hierarchy passed to `Create` contributes all of its folders; the same code is at TheyCallMeAlfred/Scripts/Editor/FolderManager.cs:19-22 |
| FolderManager.HierarchyDirsClosed | Assets/@TheyCallMeAlfred/TheyCallMeAlfred/Scripts/Editor/ProjectSetup/FolderManager.cs:14-16 | the folders of all hierarchies together keep every parent present; the same code is at TheyCallMeAlfred/Scripts/Editor/FolderManager.cs:19-22 |
| FolderManager.CreateReachesEveryPrefix | Assets/@TheyCallMeAlfred/TheyCallMeAlfred/Scripts/Editor/ProjectSetup/FolderManager.cs:8-17 | after `Create(root, folders)` the root under `Application.dataPath` exists, and so does every '/'-prefix of every hierarchy below it; the same code is at TheyCallMeAlfred/Scripts/Editor/FolderManager.cs:11-23 |
| FolderManager.CreateIdempotent | Assets/@TheyCallMeAlfred/TheyCallMeAlfred/Scripts/Editor/ProjectSetup/FolderManager.cs:8-17 | `Create` only adds directories, and a second identical call adds nothing new; the same code is at TheyCallMeAlfred/Scripts/Editor/FolderManager.cs:11-23 |
| FolderManager.Deleted | Assets/@TheyCallMeAlfred/TheyCallMeAlfred/Scripts/Editor/ProjectSetup/FolderManager.cs:47 | the deleted folder and what lies below it are gone, every other folder stays, and nothing is added; the same code is at TheyCallMeAlfred/Scripts/Editor/FolderManager.cs:61 |
| FolderManager.Moved | Assets/@TheyCallMeAlfred/TheyCallMeAlfred/Scripts/Editor/ProjectSetup/FolderManager.cs:35 | after a successful `MoveAsset` every folder outside the source stays, every folder within it reappears re-rooted at the destination, and nothing else appears; the same code is at TheyCallMeAlfred/Scripts/Editor/FolderManager.cs:46 |
| FolderManager.MovedClearsSource | Assets/@TheyCallMeAlfred/TheyCallMeAlfred/Scripts/Editor/ProjectSetup/FolderManager.cs:35 | when neither path lies within the other, no folder within the source remains after the move; the same code is at TheyCallMeAlfred/Scripts/Editor/FolderManager.cs:46 |
| FolderManager.ProjectFolders.constructor | Assets/@TheyCallMeAlfred/TheyCallMeAlfred/Scripts/Editor/ProjectSetup/FolderManager.cs:7 | the manager over an existing, parent-closed directory set and the asset database's folders, with no errors logged; the same code is at TheyCallMeAlfred/Scripts/Editor/FolderManager.cs:9 |
| FolderManager.ProjectFolders.CreateDirectoryIfMissing | Assets/@TheyCallMeAlfred/TheyCallMeAlfred/Scripts/Editor/ProjectSetup/FolderManager.cs:10-12 | creating a path that exists changes nothing; otherwise the path and its missing parents are added; the result is the old set plus the path and its ancestors; the same code is at TheyCallMeAlfred/Scripts/Editor/FolderManager.cs:14-17 |
| FolderManager.ProjectFolders.Create | Assets/@TheyCallMeAlfred/TheyCallMeAlfred/Scripts/Editor/ProjectSetup/FolderManager.cs:8-17 | the directories become the old ones plus the root and every folder of every hierarchy, with all parents present; the same code is at TheyCallMeAlfred/Scripts/Editor/FolderManager.cs:11-23 |
| FolderManager.ProjectFolders.CreateSubFolders | Assets/@TheyCallMeAlfred/TheyCallMeAlfred/Scripts/Editor/ProjectSetup/FolderManager.cs:19-29 | walking the '/'-separated segments below the root adds exactly the visited paths and their ancestors; the same code is at TheyCallMeAlfred/Scripts/Editor/FolderManager.cs:25-38 |
| FolderManager.ProjectFolders.CreateAlong | Assets/@TheyCallMeAlfred/TheyCallMeAlfred/Scripts/Editor/ProjectSetup/FolderManager.cs:21-28 | the loop over the segments, creating each path it reaches, adds exactly the visited paths and their ancestors and keeps every parent present; the same code is at TheyCallMeAlfred/Scripts/Editor/FolderManager.cs:30-37 |
| FolderManager.ProjectFolders.Move | Assets/@TheyCallMeAlfred/TheyCallMeAlfred/Scripts/Editor/ProjectSetup/FolderManager.cs:31-41 | a folder "Assets/{name}" that is not valid: nothing happens; a valid one with an empty answer from the asset database is moved with all below it to "Assets/{newParent}/{name}"; a non-empty answer logs "Failed to move {name}: {error}" and moves nothing; the same code is at TheyCallMeAlfred/Scripts/Editor/FolderManager.cs:40-53 |
| FolderManager.ProjectFolders.Delete | Assets/@TheyCallMeAlfred/TheyCallMeAlfred/Scripts/Editor/ProjectSetup/FolderManager.cs:43-49 | a valid "Assets/{name}" is removed with everything below it; an invalid one leaves the folders unchanged; either way the folder no longer exists afterwards; the same code is at TheyCallMeAlfred/Scripts/Editor/FolderManager.cs:55-63 |
| EssentialPackageInstaller.Lookup | Assets/@TheyCallMeAlfred/TheyCallMeAlfred/Scripts/Editor/ProjectSetup/EssentialPackageInstaller.cs:126 | `TryGetValue`: no value exactly when the key is absent; any value found is paired with the key in the table |
| EssentialPackageInstaller.LookupFirst | Assets/@TheyCallMeAlfred/TheyCallMeAlfred/Scripts/Editor/ProjectSetup/EssentialPackageInstaller.cs:126 | the value found is the one of the first entry with the key |
| EssentialPackageInstaller.EssentialsAreKnown | Assets/@TheyCallMeAlfred/TheyCallMeAlfred/Scripts/Editor/ProjectSetup/EssentialPackageInstaller.cs:43-46 | each of the seven essentials is a key of the Asset Store table or of the Unity table, so none is silently skipped |
| EssentialPackageInstaller.InstallUnityPackage | Assets/@TheyCallMeAlfred/TheyCallMeAlfred/Scripts/Editor/ProjectSetup/EssentialPackageInstaller.cs:204-211 | a known name makes one install request, for the id its table entry maps it to; an unknown one logs an error and requests nothing |
| EssentialPackageInstaller.InstallGitPackage | Assets/@TheyCallMeAlfred/TheyCallMeAlfred/Scripts/Editor/ProjectSetup/EssentialPackageInstaller.cs:162-169 | a known name makes one install request, for its git URL; an unknown one logs an error and requests nothing |
| EssentialPackageInstaller.DownloadAndImportOutcome | Assets/@TheyCallMeAlfred/TheyCallMeAlfred/Scripts/Editor/ProjectSetup/EssentialPackageInstaller.cs:125-155 | for a known Asset Store package with an unchanged cache: when the check finds it, it is imported from the path the check found and no import-error dialog can arise; otherwise the "Download Required" dialog opens and then the Asset Store window |
| EssentialPackageInstaller.DownloadAndImportAssetStorePackage | Assets/@TheyCallMeAlfred/TheyCallMeAlfred/Scripts/Editor/ProjectSetup/EssentialPackageInstaller.cs:125-155 | an unknown name gives exactly the error "Unknown Asset Store package: {name}"; for a known one `DownloadAndImportOutcome` states the import or the store window |
| EssentialPackageInstaller.RouteInstallsOnlyUnityIds | Assets/@TheyCallMeAlfred/TheyCallMeAlfred/Scripts/Editor/ProjectSetup/EssentialPackageInstaller.cs:59-67 | routing one name never requests a git URL or any id outside the Unity table |
| EssentialPackageInstaller.RouteAllInstallsOnlyUnityIds | Assets/@TheyCallMeAlfred/TheyCallMeAlfred/Scripts/Editor/ProjectSetup/EssentialPackageInstaller.cs:59-67 | routing a list of names only ever requests ids of the Unity table: git packages cannot be installed through this route |
| EssentialPackageInstaller.NoInstallRequests | Assets/@TheyCallMeAlfred/TheyCallMeAlfred/Scripts/Editor/ProjectSetup/EssentialPackageInstaller.cs:125-155 | log messages followed by dialogs, imports and menu items contain no install request |
| EssentialPackageInstaller.FindAssetLogsOnlyMessages | Assets/@TheyCallMeAlfred/TheyCallMeAlfred/Scripts/Editor/ProjectSetup/EssentialPackageInstaller.cs:131 | the asset lookup adds only warnings and errors to the log |
| EssentialPackageInstaller.InstallMultiplePackages | Assets/@TheyCallMeAlfred/TheyCallMeAlfred/Scripts/Editor/ProjectSetup/EssentialPackageInstaller.cs:59-67 | the names are taken in order: an Asset Store key goes to the download-and-import path, then a Unity key to the install path, and any other name is skipped |
| EssentialPackageInstaller.InstallEssentials | Assets/@TheyCallMeAlfred/TheyCallMeAlfred/Scripts/Editor/ProjectSetup/EssentialPackageInstaller.cs:42-57 | the confirmation dialog opens; only if it is confirmed are the seven essentials routed, in order |
| EssentialPackageInstaller.ImportBuildUploader | Assets/@TheyCallMeAlfred/TheyCallMeAlfred/Scripts/Editor/ProjectSetup/EssentialPackageInstaller.cs:109-114 | the SharpZipLib dependency (com.unity.sharp-zip-lib@1.4.0) is requested first, then Build Uploader goes through the Asset Store path |
| EssentialPackageInstaller.Checks | Assets/@TheyCallMeAlfred/TheyCallMeAlfred/Scripts/Editor/ProjectSetup/EssentialPackageInstaller.cs:77-82 | one check per Asset Store entry |
| EssentialPackageInstaller.AllFoundIff | Assets/@TheyCallMeAlfred/TheyCallMeAlfred/Scripts/Editor/ProjectSetup/EssentialPackageInstaller.cs:81 | the loop's running verdict is true exactly when every check found its package |
| EssentialPackageInstaller.AllFoundIsAllCached | Assets/@TheyCallMeAlfred/TheyCallMeAlfred/Scripts/Editor/ProjectSetup/EssentialPackageInstaller.cs:74-82 | `allValid` holds exactly when every Asset Store entry is in the cache |
| EssentialPackageInstaller.ValidateAllPackages | Assets/@TheyCallMeAlfred/TheyCallMeAlfred/Scripts/Editor/ProjectSetup/EssentialPackageInstaller.cs:72-101 | `allValid` iff every Asset Store entry is cached; the report lists each store entry as FOUND or MISSING, then the git and Unity entries as AVAILABLE, then the verdict line; the checks' log is followed by the "Package Validation" dialog |
| EssentialPackageInstaller.StoreSection | Assets/@TheyCallMeAlfred/TheyCallMeAlfred/Scripts/Editor/ProjectSetup/EssentialPackageInstaller.cs:77-82 | the loop's lines, log and verdict are those of every entry's check, in table order |
| EssentialPackageInstaller.StoreStep | Assets/@TheyCallMeAlfred/TheyCallMeAlfred/Scripts/Editor/ProjectSetup/EssentialPackageInstaller.cs:78-81 | one more entry adds exactly its status line, its log, and its found flag to the verdict |
| EssentialPackageInstaller.CheckEntry | Assets/@TheyCallMeAlfred/TheyCallMeAlfred/Scripts/Editor/ProjectSetup/EssentialPackageInstaller.cs:78 | the loop body's check of one entry is that entry's check |
| EssentialPackageInstaller.AvailableSection | Assets/@TheyCallMeAlfred/TheyCallMeAlfred/Scripts/Editor/ProjectSetup/EssentialPackageInstaller.cs:85-92 | every git or Unity entry is reported AVAILABLE, in table order |

## Left out

- 32-bit arithmetic: counts, sums, face indices and texture sizes are unbounded integers, so C# `int` overflow (for example in `tex.width * tex.height * 4` or in the mesh totals) is not modelled.
- Floating point: durations, speeds, times and UV offsets are `real`, with no rounding.
- Coroutines and `WaitForSeconds`: `StartCoroutine` runs a loop at once up to its first wait, which the start methods do; each resumption after a wait, up to the next wait, is one step method. The clock between steps, and which loop the host resumes, are not modelled; a running loop is a handle that can be stopped.
- Animator internals: blending, `normalizedTime`, transitions and clip playback are the host's; only the calls made on it are recorded. `GetNormalizedTime`, `IsTransitioning` and the `IsInState(name/hash)` queries of `AnimationController` and `CharacterAnimator` only read the Animator, so they are not modelled.
- The parameter setters `SetFloat`, `SetBool` and `SetTrigger` forward to the Animator and keep no state, apart from the parameter-hash cache, which is modelled.
- `FixedUpdate`/`FixedUpdateState` and `PlayAnimationWithBlend` of the advanced machine are empty hooks or single forwarding calls with no state.
- `GetState<T>` returns the registered state; the C# downcast to `T` (null on a type mismatch) is not modelled.
- `CharacterAnimator.RemoveAnimation` removes from the list the first entry equal by value to the looked-up config; C# `List.Remove` compares these class instances by reference, which differs only when two entries are equal field by field.
- AnimationStateAdvanced.AnimationStateMachineAdvanced.InitializeStates: a subclass's `InitializeStates` is taken to register every state through `AddState`, given as the `registrations` sequence; a subclass that writes the protected `States` table directly, or registers conditionally, is not modelled (the loop of `Start` that points every state at the machine is modelled as `AttachAll`, and would attach such states too).
- AnimationStateAdvanced.AnimationState: the lifecycle hooks `EnterState`, `ExitState`, `UpdateState` and `PlayAnimation` are `virtual`; the model fixes them to the base bodies, and `Custom` covers only the overridden properties and `GetNextState`. A subclass overriding a hook is not modelled.
- `OnDestroy` destroying the material instance, and Unity's cloning of `renderer.materials` on each read, are not modelled: the instance is a value copy of the chosen material.
- The `#else` branch of `AnimationTrigger`, which outside the editor fills the list from the controller's clip names, is not modelled; the editor branch, which walks the state machines, is.
- Editor GUI: inspector layout, menu-item entry points that only call a modelled operation, and the text of dialogs and messages (dialogs are recorded by title) are not modelled.
- The save-file panel and the default folder of `GenerateKeysScript` are a parameter: the chosen path. The written file is a sequence of lines; `AssetDatabase.Refresh` and the final log line are not recorded.
- File search: `Directory.GetFiles(..., AllDirectories)` is the host's files below the directory, in enumeration order, matched by exact file name. Wildcard patterns, case-insensitive file systems and Windows '\' separators are not modelled.
- Exceptions inside `FindAsset`: only the missing search directory is modelled, so the `catch` in `CheckAssetExists` is never reached in the model.
- The host's `AssetDatabase.ImportPackage` is taken to succeed, so the import-error dialog of `DownloadAndImportAssetStorePackage` cannot arise in the model; that lemma says so.
- `AssetImporter.FindAsset`, `CheckAssetExists` and `GetAssetStorePath` only read the host and write a log, so they are functions over a `Host` value rather than step-by-step I/O.
- The package manager's asynchronous install, which `PackageManager.cs` polls, is not part of this model: an install is a recorded request.
- `Directory.CreateDirectory`: path normalisation (`..`, repeated separators) is not modelled; creating a path adds it and every '/'-prefix before a separator.
- `AssetDatabase.MoveAsset` and `DeleteAsset` are modelled on a set of folder paths, and the answer of `MoveAsset` is a parameter: the asset files inside the folders and the `.meta` files are not modelled.
- Inspector settings such as `textureDuration`, `faceCount` and `materialIndex` of `TextureSwapper`, and `blendDuration` and `autoStart` of `AnimationTrigger`, are constants fixed when the component starts. Editing them while the component runs is not modelled. That includes setting `faceCount` to 0 during a wait, where the `%` of `TextureSwapper.cs:87` would throw `DivideByZeroException`.
- Runtime logging: the `Debug.Log`, `LogWarning` and `LogError` calls of the runtime components are not recorded. Examples are the duplicate-key, missing-animation, blocked-request and transition messages of `CharacterAnimator`, and the missing-controller error of `AnimationStateMachineAdvanced.Awake`. Only the editor tools' log lines are modelled, as their effects.
- CharacterAnimator.CharacterAnimator.GetAllKeys: returns a set, so the enumeration order of the dictionary's keys is not part of its result.
- TextureSwapper.TextureSwapper.Start: requires that `Start` has not found a renderer yet, since Unity calls `Start` once per component.
- CharacterAnimatorEditor.CharacterAnimatorEditor.GenerateKeysScript: a file name with no identifier character ends in the `InvalidClassName` outcome rather than the crash the source has (see Findings).
- TextureSwapper.TextureSwapper.CreateMaterialInstance: uses the corrected guard `0 <= materialIndex < materials.Length` (see Findings); with the guard as written a negative index throws.

## Findings

| source | as written | input that shows it | evidently intended | confidence | as-written member | corrected member |
|---|---|---|---|---|---|---|
| Assets/@TheyCallMeAlfred/TheyCallMeAlfred/Scripts/Editor/Animation/CharacterAnimatorEditor.cs:189-192 | the sanitised class name is indexed with `className[0]` without checking that it is non-empty | a chosen save path "Assets/-.cs": the file name "-" filters to "", so `className[0]` throws IndexOutOfRangeException and no file is written | refuse a file name with no identifier character, as the key loop does for keys (line 208) | not executed | CharacterAnimatorEditor.ClassNameAsWrittenThrows | CharacterAnimatorEditor.ClassName |
| Assets/@TheyCallMeAlfred/TheyCallMeAlfred/Scripts/Runtime/Rendering/TextureSwapper.cs:48 | the guard `materials.Length > materialIndex` is the only check before `materials[materialIndex]`, here and in the identical copy TheyCallMeAlfred/Scripts/Utils/TextureSwapper.cs:43 | `materialIndex = -1` with one material: the guard holds and the indexing throws, where the else branch would log the out-of-range error | `0 <= materialIndex < materials.Length`, so a negative index takes the logged error path | not executed | TextureSwapper.GuardAsWrittenAdmitsNegative | TextureSwapper.MaterialIndexInRangeAgrees |
