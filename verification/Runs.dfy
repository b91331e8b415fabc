/** Runs of a state machine whose steps may fail for good, and induction over them. */
module Runs {
  import opened Option

  /** The state after the first `n` steps, if the machine gets there. */
  function After<S, E>(next: (S, E) -> Option<S>, initial: S, steps: seq<E>, n: nat): Option<S>
    requires n <= |steps|
  {
    if n == 0 then Some(initial)
    else
      match After(next, initial, steps, n - 1)
      case None => None
      case Some(s) => next(s, steps[n - 1])
  }

  /** What holds initially and is kept by every step holds after every step of every run. */
  lemma {:induction false} InvariantHolds<S(!new), E(!new)>(next: (S, E) -> Option<S>, initial: S, inv: S -> bool,
                                                            steps: seq<E>, n: nat)
    requires n <= |steps| && inv(initial)
    requires forall s, e :: inv(s) && next(s, e).Some? ==> inv(next(s, e).value)
    ensures After(next, initial, steps, n).Some? ==> inv(After(next, initial, steps, n).value)
  {
    if n > 0 {
      InvariantHolds(next, initial, inv, steps, n - 1);
    }
  }

  /** The same for what is kept by the steps of one run. */
  lemma {:induction false} InvariantAlong<S(!new), E(!new)>(next: (S, E) -> Option<S>, initial: S, inv: S -> bool,
                                                            steps: seq<E>, n: nat)
    requires n <= |steps| && inv(initial)
    requires forall s, e :: inv(s) && e in steps && next(s, e).Some? ==> inv(next(s, e).value)
    ensures After(next, initial, steps, n).Some? ==> inv(After(next, initial, steps, n).value)
  {
    if n > 0 {
      InvariantAlong(next, initial, inv, steps, n - 1);
      assert steps[n - 1] in steps;
    }
  }

  /** A run that begins with one more step goes on from where that step leads. */
  lemma {:induction false} Prepended<S, E>(next: (S, E) -> Option<S>, initial: S, step: E, steps: seq<E>, n: nat)
    requires next(initial, step).Some? && n <= |steps|
    ensures After(next, initial, [step] + steps, n + 1) == After(next, next(initial, step).value, steps, n)
  {
    if n > 0 {
      Prepended(next, initial, step, steps, n - 1);
    } else {
      assert After(next, initial, [step] + steps, 0) == Some(initial);
    }
  }

  lemma OneStep<S, E>(next: (S, E) -> Option<S>, initial: S, step: E)
    ensures After(next, initial, [step], 1) == next(initial, step)
  {
    assert After(next, initial, [step], 0) == Some(initial);
  }

  lemma TwoSteps<S, E>(next: (S, E) -> Option<S>, initial: S, first: E, second: E)
    requires next(initial, first).Some?
    ensures After(next, initial, [first, second], 2) == next(next(initial, first).value, second)
  {
    assert After(next, initial, [first, second], 0) == Some(initial);
    assert After(next, initial, [first, second], 1) == next(initial, first);
  }

  predicate LeadsTo<S, E>(next: (S, E) -> Option<S>, initial: S, steps: seq<E>, goal: S -> bool) {
    var end := After(next, initial, steps, |steps|);
    end.Some? && goal(end.value)
  }

  /** Some steps lead to the goal. */
  ghost predicate CanReach<S, E(!new)>(next: (S, E) -> Option<S>, initial: S, goal: S -> bool) {
    exists steps: seq<E> :: LeadsTo(next, initial, steps, goal)
  }

  lemma Reached<S, E(!new)>(next: (S, E) -> Option<S>, initial: S, goal: S -> bool)
    requires goal(initial)
    ensures CanReach(next, initial, goal)
  {
    assert LeadsTo(next, initial, [], goal);
  }

  lemma OneStepNearer<S, E(!new)>(next: (S, E) -> Option<S>, initial: S, step: E, goal: S -> bool)
    requires next(initial, step).Some? && CanReach(next, next(initial, step).value, goal)
    ensures CanReach(next, initial, goal)
  {
    var rest: seq<E> :| LeadsTo(next, next(initial, step).value, rest, goal);
    Prepended(next, initial, step, rest, |rest|);
    assert LeadsTo(next, initial, [step] + rest, goal);
  }
}
