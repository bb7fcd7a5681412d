/** Runs of a transition system: the states a sequence of steps leads through. */
module Runs {

  /** Each step is possible when its turn comes. */
  ghost predicate Possible<S, A>(can: (S, A) -> bool, next: (S, A) -> S, s: S, run: seq<A>)
    decreases |run|
  {
    run == [] || (can(s, run[0]) && Possible(can, next, next(s, run[0]), run[1..]))
  }

  ghost function After<S, A>(next: (S, A) -> S, s: S, run: seq<A>): S
    decreases |run|
  {
    if run == [] then s else After(next, next(s, run[0]), run[1..])
  }

  /** What holds at the start and survives every possible step holds after every run. */
  lemma {:induction false} Invariant<S(!new), A(!new)>(
      can: (S, A) -> bool, next: (S, A) -> S, inv: S -> bool, s: S, run: seq<A>)
    requires inv(s) && Possible(can, next, s, run)
    requires forall x, a | inv(x) && can(x, a) :: inv(next(x, a))
    ensures inv(After(next, s, run))
    decreases |run|
  {
    if run != [] {
      Invariant(can, next, inv, next(s, run[0]), run[1..]);
    }
  }

  lemma {:induction false} Concat<S, A>(can: (S, A) -> bool, next: (S, A) -> S, s: S, a: seq<A>, b: seq<A>)
    requires Possible(can, next, s, a) && Possible(can, next, After(next, s, a), b)
    ensures Possible(can, next, s, a + b) && After(next, s, a + b) == After(next, After(next, s, a), b)
    decreases |a|
  {
    if a == [] {
      assert a + b == b;
    } else {
      Concat(can, next, next(s, a[0]), a[1..], b);
      assert (a + b)[0] == a[0] && (a + b)[1..] == a[1..] + b;
    }
  }

  lemma Single<S, A>(can: (S, A) -> bool, next: (S, A) -> S, s: S, a: A)
    requires can(s, a)
    ensures Possible(can, next, s, [a]) && After(next, s, [a]) == next(s, a)
  {
    assert [a][1..] == [];
  }

  /** A run of one system is a run of another that allows its steps. */
  lemma {:induction false} Allowed<S(!new), A(!new)>(
      can: (S, A) -> bool, more: (S, A) -> bool, next: (S, A) -> S, s: S, run: seq<A>)
    requires Possible(can, next, s, run) && forall x, a | a in run && can(x, a) :: more(x, a)
    ensures Possible(more, next, s, run)
    decreases |run|
  {
    if run != [] {
      Allowed(can, more, next, next(s, run[0]), run[1..]);
    }
  }
}
