/** Folds whose steps can be taken in any order. */
module Folding {

  function Fold<S, T>(f: (S, T) -> S, init: S, ts: seq<T>): S {
    if ts == [] then init else f(Fold(f, init, ts[..|ts| - 1]), ts[|ts| - 1])
  }

  lemma {:induction false} FoldNext<S, T>(f: (S, T) -> S, init: S, ts: seq<T>, t: T)
    ensures Fold(f, init, ts + [t]) == f(Fold(f, init, ts), t)
  {
    assert (ts + [t])[..|ts|] == ts;
  }

  lemma FoldEight<S, T>(f: (S, T) -> S, init: S, a: T, b: T, c: T, d: T, e: T, g: T, h: T, i: T)
    ensures Fold(f, init, [a, b, c, d, e, g, h, i]) == f(f(f(f(f(f(f(f(init, a), b), c), d), e), g), h), i)
  {
    var one, two, three, four: seq<T> := [a], [a] + [b], [a] + [b] + [c], [a] + [b] + [c] + [d];
    var five, six, seven := four + [e], four + [e] + [g], four + [e] + [g] + [h];
    FoldNext(f, init, [], a);
    FoldNext(f, init, one, b);
    FoldNext(f, init, two, c);
    FoldNext(f, init, three, d);
    FoldNext(f, init, four, e);
    FoldNext(f, init, five, g);
    FoldNext(f, init, six, h);
    FoldNext(f, init, seven, i);
    assert [] + [a] == one && seven + [i] == [a, b, c, d, e, g, h, i];
  }

  /** On good states and elements, two steps commute. */
  ghost predicate Commutes<S(!new), T(!new)>(f: (S, T) -> S, good: S -> bool, okay: T -> bool) {
    && (forall s: S, t: T {:trigger f(s, t)} | good(s) && okay(t) :: good(f(s, t)))
    && (forall s: S, t: T, u: T {:trigger f(f(s, t), u)} | good(s) && okay(t) && okay(u) ::
          f(f(s, t), u) == f(f(s, u), t))
  }

  ghost predicate All<T(!new)>(okay: T -> bool, ts: seq<T>) {
    forall i | 0 <= i < |ts| :: okay(ts[i])
  }

  lemma {:induction false} FoldGood<S(!new), T(!new)>(
      f: (S, T) -> S, good: S -> bool, okay: T -> bool, init: S, ts: seq<T>)
    requires Commutes(f, good, okay) && good(init) && All(okay, ts)
    ensures good(Fold(f, init, ts))
  {
    if ts != [] {
      FoldGood(f, good, okay, init, ts[..|ts| - 1]);
    }
  }

  /** Any element can be taken last. */
  lemma {:induction false} TakeOut<S(!new), T(!new)>(
      f: (S, T) -> S, good: S -> bool, okay: T -> bool, init: S, ts: seq<T>, i: nat)
    requires Commutes(f, good, okay) && good(init) && All(okay, ts) && i < |ts|
    ensures Fold(f, init, ts) == f(Fold(f, init, ts[..i] + ts[i + 1..]), ts[i])
  {
    var last := |ts| - 1;
    if i == last {
      assert ts[..i] + ts[i + 1..] == ts[..last];
    } else {
      var rest := ts[..last];
      var less := ts[..i] + ts[i + 1..];
      TakeOut(f, good, okay, init, rest, i);
      assert less[..|less| - 1] == rest[..i] + rest[i + 1..];
      FoldGood(f, good, okay, init, rest[..i] + rest[i + 1..]);
    }
  }

  function Without<T>(us: seq<T>, i: nat): seq<T>
    requires i < |us|
  {
    us[..i] + us[i + 1..]
  }

  lemma WithoutOne<T>(us: seq<T>, i: nat)
    requires i < |us|
    ensures multiset(Without(us, i)) == multiset(us) - multiset{us[i]}
  {
    assert us == us[..i] + [us[i]] + us[i + 1..];
  }

  lemma SameMembers<T(!new)>(okay: T -> bool, ts: seq<T>, us: seq<T>)
    requires All(okay, ts) && multiset(ts) == multiset(us)
    ensures All(okay, us)
  {
    forall j | 0 <= j < |us| ensures okay(us[j]) {
      assert us[j] in multiset(ts);
    }
  }

  /** Where the last of some elements is among the same elements in another order. */
  lemma PlaceOfLast<T>(ts: seq<T>, us: seq<T>) returns (i: nat)
    requires ts != [] && multiset(ts) == multiset(us)
    ensures i < |us| && us[i] == ts[|ts| - 1] && multiset(ts[..|ts| - 1]) == multiset(Without(us, i))
  {
    var last := |ts| - 1;
    assert ts[last] in multiset(us);
    i :| 0 <= i < |us| && us[i] == ts[last];
    WithoutOne(us, i);
    WithoutOne(ts, last);
    assert Without(ts, last) == ts[..last];
  }

  /** The order of the elements makes no difference. */
  lemma {:induction false} AnyOrder<S(!new), T(!new)>(
      f: (S, T) -> S, good: S -> bool, okay: T -> bool, init: S, ts: seq<T>, us: seq<T>)
    requires Commutes(f, good, okay) && good(init) && All(okay, ts) && multiset(ts) == multiset(us)
    ensures Fold(f, init, ts) == Fold(f, init, us)
  {
    SameMembers(okay, ts, us);
    if ts == [] {
      assert |multiset(us)| == 0;
    } else {
      var i := PlaceOfLast(ts, us);
      AnyOrder(f, good, okay, init, ts[..|ts| - 1], Without(us, i));
      TakeOut(f, good, okay, init, us, i);
    }
  }
}
