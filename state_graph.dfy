/** The Animator Controller's state graph as the discovery code walks it:
    layers, each with a root state machine whose states come before its
    nested sub-state machines. */
module StateGraph {
  import opened Wrappers

  /** An `AnimatorStateMachine`: the names of its own states, in order, and
      its child state machines. */
  datatype StateMachineNode = StateMachineNode(states: seq<string>, subMachines: seq<StateMachineNode>)

  /** `Animator.runtimeAnimatorController`: an editable `AnimatorController`
      with its layers' root machines, or an `AnimatorOverrideController`
      wrapping another runtime controller (or none). */
  datatype RuntimeController =
    | Editable(layers: seq<StateMachineNode>)
    | Override(inner: Option<RuntimeController>)

  /** Every state name of a machine in discovery order: its own states,
      then each sub-machine depth-first. */
  function AllStates(m: StateMachineNode): seq<string>
    decreases m, 1
  {
    m.states + AllStatesOf(m.subMachines)
  }

  function AllStatesOf(ms: seq<StateMachineNode>): seq<string>
    decreases ms, 0
  {
    if ms == [] then [] else AllStatesOf(ms[..|ms| - 1]) + AllStates(ms[|ms| - 1])
  }

  predicate NoDuplicates<T(==)>(s: seq<T>) {
    forall i, j :: 0 <= i < j < |s| ==> s[i] != s[j]
  }

  /** Appends each element of `xs` in order unless the list already holds
      it: the `if (!list.Contains(x)) list.Add(x)` loop. */
  function AppendUnique<T(==,!new)>(acc: seq<T>, xs: seq<T>): (r: seq<T>)
    ensures acc <= r
    ensures forall x :: x in r <==> x in acc || x in xs
    ensures NoDuplicates(acc) ==> NoDuplicates(r)
    decreases |xs|
  {
    if xs == [] then acc
    else
      var last := xs[|xs| - 1];
      var init := AppendUnique(acc, xs[..|xs| - 1]);
      assert xs == xs[..|xs| - 1] + [last];
      if last in init then init else init + [last]
  }

  /** Appending two lists one after the other is appending their concatenation. */
  lemma {:induction false} AppendUniqueConcat<T(!new)>(acc: seq<T>, xs: seq<T>, ys: seq<T>)
    ensures AppendUnique(AppendUnique(acc, xs), ys) == AppendUnique(acc, xs + ys)
    decreases |ys|
  {
    if ys == [] {
      assert xs + ys == xs;
    } else {
      AppendUniqueConcat(acc, xs, ys[..|ys| - 1]);
      assert (xs + ys)[..|xs + ys| - 1] == xs + ys[..|ys| - 1];
      assert (xs + ys)[|xs + ys| - 1] == ys[|ys| - 1];
    }
  }

  /** The kept elements appear in first-occurrence order: an element of
      `xs` that is new lands after everything that came before it. */
  lemma {:induction false} AppendUniqueOfNew<T(!new)>(acc: seq<T>, x: T)
    requires x !in acc
    ensures AppendUnique(acc, [x]) == acc + [x]
  {
    assert [x][..0] == [];
  }

  /** An element already present adds nothing. */
  lemma {:induction false} AppendUniqueOfPresent<T(!new)>(acc: seq<T>, x: T)
    requires x in acc
    ensures AppendUnique(acc, [x]) == acc
  {
    assert [x][..0] == [];
  }

  /** Concatenating machines one more at a time. */
  lemma AllStatesOfSnoc(ms: seq<StateMachineNode>, j: int)
    requires 0 <= j < |ms|
    ensures AllStatesOf(ms[..j + 1]) == AllStatesOf(ms[..j]) + AllStates(ms[j])
  {
    assert ms[..j + 1][..j] == ms[..j];
  }

  /** A name is listed for a sequence of machines iff one of them lists it. */
  lemma {:induction false} InAllStatesOf(ms: seq<StateMachineNode>, n: string)
    ensures n in AllStatesOf(ms) <==> exists i :: 0 <= i < |ms| && n in AllStates(ms[i])
    decreases |ms|
  {
    if ms != [] {
      var init := ms[..|ms| - 1];
      InAllStatesOf(init, n);
      assert forall i :: 0 <= i < |init| ==> init[i] == ms[i];
    }
  }
}
