/** Weak fairness, and the rule for what must happen on a fair run. */
module Fairness {

  /** From n on, thread t takes a step at some point, or at some point cannot. */
  ghost predicate FairFrom<S(!new), A(!new), T(!new)>(does: (A, T) -> bool, can: (S, T) -> bool,
                                                      run: nat -> S, act: nat -> A, t: T, n: nat)
  {
    exists m: nat :: n <= m && (does(act(m), t) || !can(run(m), t))
  }

  /** Step m reaches the goal, or there is no more left than before, and less if the helpful thread took it. */
  ghost predicate Moves<S(!new), A(!new), T(!new)>(does: (A, T) -> bool, can: (S, T) -> bool,
                                                   pending: S -> bool, goal: S -> bool, left: S -> nat, help: S -> T,
                                                   s: S, a: A, t: S)
  {
    && can(s, help(s))
    && (goal(t)
        || (pending(t) && left(t) <= left(s)
            && (does(a, help(s)) ==> left(t) < left(s))
            && (left(t) == left(s) ==> help(t) == help(s))))
  }

  /** From n to m the goal is reached at some point, or less is left at some point, or the helper is still the same. */
  lemma {:induction false} HelpStays<S(!new), A(!new), T(!new)>(
    does: (A, T) -> bool, can: (S, T) -> bool, pending: S -> bool, goal: S -> bool, left: S -> nat, help: S -> T,
    run: nat -> S, act: nat -> A, n: nat, m: nat) returns (k: nat)
    requires n <= m && pending(run(n))
    requires forall i: nat :: n <= i && pending(run(i)) ==>
               Moves(does, can, pending, goal, left, help, run(i), act(i), run(i + 1))
    ensures n <= k <= m
    ensures
      || goal(run(k))
      || (pending(run(k)) && left(run(k)) < left(run(n)))
      || (k == m && pending(run(m)) && left(run(m)) == left(run(n)) && help(run(m)) == help(run(n)))
    decreases m - n
  {
    if n == m {
      k := n;
    } else {
      k := HelpStays(does, can, pending, goal, left, help, run, act, n, m - 1);
      if !goal(run(k)) && left(run(k)) == left(run(n)) {
        assert Moves(does, can, pending, goal, left, help, run(k), act(k), run(k + 1));
        k := m;
      }
    }
  }

  /** On a fair run, what is pending leads to the goal. */
  lemma {:induction false} LeadsTo<S(!new), A(!new), T(!new)>(
    does: (A, T) -> bool, can: (S, T) -> bool, pending: S -> bool, goal: S -> bool, left: S -> nat, help: S -> T,
    run: nat -> S, act: nat -> A, n: nat) returns (k: nat)
    requires pending(run(n))
    requires forall t, i: nat :: FairFrom(does, can, run, act, t, i)
    requires forall i: nat :: n <= i && pending(run(i)) ==>
               Moves(does, can, pending, goal, left, help, run(i), act(i), run(i + 1))
    ensures n <= k && goal(run(k))
    decreases left(run(n))
  {
    assert FairFrom(does, can, run, act, help(run(n)), n);
    var m: nat :| n <= m && (does(act(m), help(run(n))) || !can(run(m), help(run(n))));
    k := HelpStays(does, can, pending, goal, left, help, run, act, n, m);
    if !goal(run(k)) {
      if left(run(k)) == left(run(n)) {
        assert Moves(does, can, pending, goal, left, help, run(m), act(m), run(m + 1));
        k := m + 1;
      }
      if !goal(run(k)) {
        k := LeadsTo(does, can, pending, goal, left, help, run, act, k);
      }
    }
  }
}
