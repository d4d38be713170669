/** Runs of a state machine given by a step function, and two facts about every run. */
module Runs {

  ghost function Fold<S, E>(step: (S, E) -> S, s: S, events: seq<E>): S {
    if events == [] then s else Fold(step, step(s, events[0]), events[1..])
  }

  lemma {:induction false} FoldSplits<S, E>(step: (S, E) -> S, s: S, a: seq<E>, b: seq<E>)
    ensures Fold(step, s, a + b) == Fold(step, Fold(step, s, a), b)
  {
    if a == [] {
      assert a + b == b;
    } else {
      assert (a + b)[1..] == a[1..] + b;
      FoldSplits(step, step(s, a[0]), a[1..], b);
    }
  }

  /** A run can be given by its states. */
  lemma {:induction false} FoldTrace<S, E>(step: (S, E) -> S, states: seq<S>, events: seq<E>)
    requires |states| == |events| + 1
    requires forall i :: 0 <= i < |events| ==> states[i + 1] == step(states[i], events[i])
    ensures Fold(step, states[0], events) == states[|events|]
  {
    if events != [] {
      FoldTrace(step, states[1..], events[1..]);
    }
  }

  /** What holds at the start and survives every step of the run holds at its end. */
  lemma {:induction false} FoldInvariant<S(!new), E>(step: (S, E) -> S, s: S, events: seq<E>, inv: S -> bool)
    requires inv(s)
    requires forall x, e :: e in events && inv(x) ==> inv(step(x, e))
    ensures inv(Fold(step, s, events))
  {
    if events != [] {
      assert events[0] in events;
      FoldInvariant(step, step(s, events[0]), events[1..], inv);
    }
  }

  /**
   * If, in the states of an invariant, firing needs a state that is not held and leaves it held, and
   * only a releasing event lets go, then a release lies between any two firings.
   */
  lemma NothingFiresTwice<S(!new), E(!new)>(step: (S, E) -> S, s: S, events: seq<E>, i: nat, j: nat,
                                            inv: S -> bool, fires: (S, E) -> bool, held: S -> bool, releases: E -> bool)
    requires i < j < |events|
    requires inv(s) && forall x, e :: inv(x) ==> inv(step(x, e))
    requires forall x, e :: inv(x) && fires(x, e) ==> !held(x) && held(step(x, e))
    requires forall x, e :: inv(x) && held(x) && !releases(e) ==> held(step(x, e))
    requires fires(Fold(step, s, events[..i]), events[i])
    requires fires(Fold(step, s, events[..j]), events[j])
    ensures exists k :: i < k < j && releases(events[k])
  {
    var before := Fold(step, s, events[..i]);
    var between := events[i + 1..j];
    FoldInvariant(step, s, events[..i], inv);
    FoldInvariant(step, s, events[..j], inv);
    assert events[..i + 1] == events[..i] + [events[i]];
    FoldSplits(step, s, events[..i], [events[i]]);
    assert Fold(step, s, events[..i + 1]) == step(before, events[i]);
    assert events[..j] == events[..i + 1] + between;
    FoldSplits(step, s, events[..i + 1], between);
    if forall k :: i < k < j ==> !releases(events[k]) {
      forall x, e | e in between && inv(x) && held(x)
        ensures inv(step(x, e)) && held(step(x, e))
      {
        var m :| 0 <= m < |between| && between[m] == e;
        assert e == events[i + 1 + m];
      }
      FoldInvariant(step, step(before, events[i]), between, x => inv(x) && held(x));
    }
  }

  ghost function Iterate<S>(step: S -> S, s: S, n: nat): S {
    if n == 0 then s else Iterate(step, step(s), n - 1)
  }

  /** A bound that every step lowers is 0 after as many steps. */
  lemma {:induction false} CountDown<S(!new)>(step: S -> S, s: S, n: nat, within: (S, nat) -> bool)
    requires within(s, n)
    requires forall x, k: nat :: k > 0 && within(x, k) ==> within(step(x), k - 1)
    ensures within(Iterate(step, s, n), 0)
    decreases n
  {
    if n > 0 {
      CountDown(step, step(s), n - 1, within);
    }
  }
}
