/** The per-component loading hook: on each run of its effect it compares the
    component's loading flag with the flag it saw last (kept in a mutable ref)
    and dispatches an increment or decrement of the global loading count; its
    cleanup dispatches a decrement when the ref says the component was loading.
    The effect re-runs whenever the flag changes, and the cleanup of the
    previous run comes first. */
module UseLoading {
  import AppSlice

  datatype LoadingAction = Increment | Decrement

  /** The dispatches of one effect body, given the ref and the current flag. */
  function EffectDispatches(wasLoading: bool, isLoading: bool): (d: seq<LoadingAction>)
    ensures d == [Increment] <==> isLoading && !wasLoading
    ensures d == [Decrement] <==> !isLoading && wasLoading
    ensures d == [] <==> isLoading == wasLoading
  {
    if isLoading && !wasLoading then [Increment]
    else if !isLoading && wasLoading then [Decrement]
    else []
  }

  /** The dispatches of the cleanup, given the ref at cleanup time. */
  function CleanupDispatches(wasLoading: bool): (d: seq<LoadingAction>)
    ensures wasLoading <==> d == [Decrement]
    ensures !wasLoading <==> d == []
  {
    if wasLoading then [Decrement] else []
  }

  /** The hook's mutable ref. */
  class LoadingTracker {
    var wasLoading: bool

    constructor ()
      ensures !wasLoading
    {
      wasLoading := false;
    }

    /** One run of the effect body: dispatch on a transition, then remember the flag. */
    method RunEffect(isLoading: bool) returns (d: seq<LoadingAction>)
      modifies this`wasLoading
      ensures d == EffectDispatches(old(wasLoading), isLoading)
      ensures wasLoading == isLoading
    {
      d := [];
      if isLoading && !wasLoading {
        d := [Increment];
      } else if !isLoading && wasLoading {
        d := [Decrement];
      }
      wasLoading := isLoading;
    }

    /** The cleanup as written: decrement when the ref says loading; the ref stays as it is. */
    method Cleanup() returns (d: seq<LoadingAction>)
      ensures wasLoading ==> d == [Decrement]
      ensures !wasLoading ==> d == []
    {
      d := if wasLoading then [Decrement] else [];
    }

    /** The cleanup as intended: the same decrement, and the ref is cleared so that
        the next body does not decrement a second time. */
    method CleanupResetting() returns (d: seq<LoadingAction>)
      modifies this`wasLoading
      ensures d == CleanupDispatches(old(wasLoading))
      ensures !wasLoading
    {
      d := if wasLoading then [Decrement] else [];
      wasLoading := false;
    }
  }

  // ---------------------------------------------------------------------------
  // What the dispatches do to the global count

  function Step(count: int, a: LoadingAction): int {
    match a
    case Increment => count + 1
    case Decrement => AppSlice.DecrementedCount(count)
  }

  /** The count after the reducers handle `ds` in order. */
  function ApplyAll(count: int, ds: seq<LoadingAction>): int
    decreases |ds|
  {
    if |ds| == 0 then count else ApplyAll(Step(count, ds[0]), ds[1..])
  }

  lemma {:induction false} ApplyAllAppend(count: int, a: seq<LoadingAction>, b: seq<LoadingAction>)
    ensures ApplyAll(count, a + b) == ApplyAll(ApplyAll(count, a), b)
    decreases |a|
  {
    if |a| > 0 {
      assert (a + b)[1..] == a[1..] + b;
      ApplyAllAppend(Step(count, a[0]), a[1..], b);
    } else {
      assert a + b == b;
    }
  }

  function Last(was: bool, xs: seq<bool>): bool {
    if |xs| == 0 then was else xs[|xs| - 1]
  }

  /** Each flag differs from the one before it: React re-runs the effect only
      when its dependency `isLoading` changes. */
  predicate Changes(was: bool, xs: seq<bool>) {
    forall i :: 0 <= i < |xs| ==> xs[i] != (if i == 0 then was else xs[i - 1])
  }

  /** Re-runs as written: for each new flag, the previous cleanup (which reads the
      unchanged ref) and then the body. */
  function Reruns(was: bool, xs: seq<bool>): seq<LoadingAction>
    requires Changes(was, xs)
    decreases |xs|
  {
    if |xs| == 0 then []
    else
      assert forall i :: 1 <= i < |xs| ==> xs[1..][i - 1] == xs[i];
      CleanupDispatches(was) + EffectDispatches(was, xs[0]) + Reruns(xs[0], xs[1..])
  }

  /** A component's life as written: mount with `xs[0]`, re-run for each later
      flag, unmount. */
  function Lifecycle(xs: seq<bool>): seq<LoadingAction>
    requires |xs| > 0 && Changes(xs[0], xs[1..])
  {
    EffectDispatches(false, xs[0]) + Reruns(xs[0], xs[1..]) + CleanupDispatches(Last(xs[0], xs[1..]))
  }

  /** As written, a component that starts loading and then stops dispatches one
      increment and two decrements, so the count of another component that is
      still loading is lost. */
  lemma LifecycleLosesOtherCount()
    ensures Lifecycle([true, false]) == [Increment, Decrement, Decrement]
    ensures ApplyAll(1, Lifecycle([true, false])) == 0
  {
    assert [true, false][1..] == [false];
    assert Reruns(true, [false]) == [Decrement, Decrement] by {
      assert [false][1..] == [];
    }
    var ds := [Increment, Decrement, Decrement];
    assert ApplyAll(1, ds) == 0 by {
      assert ds[1..] == [Decrement, Decrement];
      assert ds[1..][1..] == [Decrement];
      assert ds[1..][1..][1..] == [];
    }
  }

  /** Re-runs with the resetting cleanup: each body sees a cleared ref. The
      lemmas about it hold for any flag sequence, changes or not. */
  function CorrectedReruns(was: bool, xs: seq<bool>): seq<LoadingAction>
    decreases |xs|
  {
    if |xs| == 0 then []
    else CleanupDispatches(was) + EffectDispatches(false, xs[0]) + CorrectedReruns(xs[0], xs[1..])
  }

  function CorrectedLifecycle(xs: seq<bool>): seq<LoadingAction>
    requires |xs| > 0
  {
    EffectDispatches(false, xs[0]) + CorrectedReruns(xs[0], xs[1..]) + CleanupDispatches(Last(xs[0], xs[1..]))
  }

  function Own(loading: bool): nat {
    if loading then 1 else 0
  }

  /** With the resetting cleanup, after any series of re-runs the count holds
      exactly this component's contribution on top of everyone else's. */
  lemma {:induction false} CorrectedRerunsTrack(others: int, was: bool, xs: seq<bool>)
    requires others >= 0
    ensures ApplyAll(others + Own(was), CorrectedReruns(was, xs)) == others + Own(Last(was, xs))
    decreases |xs|
  {
    if |xs| > 0 {
      var step := CleanupDispatches(was) + EffectDispatches(false, xs[0]);
      assert CorrectedReruns(was, xs) == step + CorrectedReruns(xs[0], xs[1..]);
      ApplyAllAppend(others + Own(was), step, CorrectedReruns(xs[0], xs[1..]));
      ApplyAllAppend(others + Own(was), CleanupDispatches(was), EffectDispatches(false, xs[0]));
      assert ApplyAll(others + Own(was), CleanupDispatches(was)) == others;
      assert ApplyAll(others, EffectDispatches(false, xs[0])) == others + Own(xs[0]);
      CorrectedRerunsTrack(others, xs[0], xs[1..]);
      if |xs[1..]| == 0 {
        assert Last(xs[0], xs[1..]) == Last(was, xs);
      } else {
        assert xs[1..][|xs[1..]| - 1] == xs[|xs| - 1];
      }
    }
  }

  /** With the resetting cleanup, a component's whole life leaves the global
      count exactly where it found it: every increment is paired with one decrement. */
  lemma {:induction false} CorrectedLifecycleBalanced(others: int, xs: seq<bool>)
    requires others >= 0 && |xs| > 0
    ensures ApplyAll(others, CorrectedLifecycle(xs)) == others
  {
    var mount := EffectDispatches(false, xs[0]);
    var reruns := CorrectedReruns(xs[0], xs[1..]);
    var unmount := CleanupDispatches(Last(xs[0], xs[1..]));
    assert CorrectedLifecycle(xs) == mount + (reruns + unmount);
    ApplyAllAppend(others, mount, reruns + unmount);
    assert ApplyAll(others, mount) == others + Own(xs[0]);
    ApplyAllAppend(others + Own(xs[0]), reruns, unmount);
    CorrectedRerunsTrack(others, xs[0], xs[1..]);
  }
}
