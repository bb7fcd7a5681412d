/** How many elements of a sequence satisfy a predicate. */
module Counting {

  ghost function Count<T(!new)>(s: seq<T>, p: T -> bool): (n: nat)
    ensures n <= |s|
  {
    if s == [] then 0 else Count(s[..|s| - 1], p) + if p(s[|s| - 1]) then 1 else 0
  }

  lemma {:induction false} CountConcat<T(!new)>(s: seq<T>, t: seq<T>, p: T -> bool)
    ensures Count(s + t, p) == Count(s, p) + Count(t, p)
    decreases t
  {
    if t == [] {
      assert s + t == s;
    } else {
      CountConcat(s, t[..|t| - 1], p);
      assert (s + t)[..|s + t| - 1] == s + t[..|t| - 1];
    }
  }

  lemma CountUpdate<T(!new)>(s: seq<T>, i: nat, x: T, p: T -> bool)
    requires i < |s|
    ensures Count(s[i := x], p) == Count(s, p) - (if p(s[i]) then 1 else 0) + (if p(x) then 1 else 0)
  {
    CountConcat(s[..i] + [s[i]], s[i + 1..], p);
    CountConcat(s[..i] + [x], s[i + 1..], p);
    assert (s[..i] + [s[i]]) + s[i + 1..] == s;
    assert (s[..i] + [x]) + s[i + 1..] == s[i := x];
    assert (s[..i] + [s[i]])[..i] == s[..i] == (s[..i] + [x])[..i];
  }

  lemma {:induction false} CountAppend<T(!new)>(s: seq<T>, x: T, p: T -> bool)
    ensures Count(s + [x], p) == Count(s, p) + if p(x) then 1 else 0
  {
    assert (s + [x])[..|s|] == s;
  }

  lemma {:induction false} CountSplice<T(!new)>(a: seq<T>, x: T, b: seq<T>, p: T -> bool)
    ensures Count(a + [x] + b, p) == Count(a + b, p) + if p(x) then 1 else 0
  {
    CountConcat(a, b, p);
    CountAppend(a, x, p);
    CountConcat(a + [x], b, p);
  }

  lemma {:induction false} CountTail<T(!new)>(s: seq<T>, p: T -> bool)
    requires s != []
    ensures Count(s, p) == Count(s[1..], p) + if p(s[0]) then 1 else 0
  {
    CountConcat([s[0]], s[1..], p);
    assert [s[0]] + s[1..] == s;
    assert [s[0]][..0] == [];
  }

  /** Predicates that agree on the elements, position by position, count the same. */
  lemma {:induction false} CountSame<T(!new)>(s: seq<T>, t: seq<T>, p: T -> bool)
    requires |s| == |t| && forall i | 0 <= i < |s| :: p(s[i]) == p(t[i])
    ensures Count(s, p) == Count(t, p)
  {
    if s != [] {
      CountSame(s[..|s| - 1], t[..|t| - 1], p);
    }
  }

  lemma {:induction false} CountLess<T(!new)>(s: seq<T>, p: T -> bool, q: T -> bool)
    requires forall x | p(x) :: q(x)
    ensures Count(s, p) <= Count(s, q)
  {
    if s != [] {
      CountLess(s[..|s| - 1], p, q);
    }
  }

  lemma {:induction false} CountNone<T(!new)>(s: seq<T>, p: T -> bool)
    ensures Count(s, p) == 0 <==> forall i | 0 <= i < |s| :: !p(s[i])
  {
    if s != [] {
      CountNone(s[..|s| - 1], p);
    }
  }

  /** Two different places count twice. */
  lemma {:induction false} CountTwo<T(!new)>(s: seq<T>, i: nat, j: nat, p: T -> bool)
    requires i < j < |s| && p(s[i]) && p(s[j])
    ensures Count(s, p) >= 2
  {
    CountConcat(s[..j], s[j..], p);
    assert s[..j] + s[j..] == s;
    CountNone(s[..j], p);
    CountNone(s[j..], p);
    assert s[..j][i] == s[i] && s[j..][0] == s[j];
  }

  /** A property split into two exclusive ones counts as their sum. */
  lemma {:induction false} CountSum<T(!new)>(s: seq<T>, p: T -> bool, q: T -> bool, r: T -> bool)
    requires forall x :: p(x) <==> q(x) || r(x)
    requires forall x :: !(q(x) && r(x))
    ensures Count(s, p) == Count(s, q) + Count(s, r)
  {
    if s != [] {
      CountSum(s[..|s| - 1], p, q, r);
    }
  }

  /** Exactly one place satisfies `p`. */
  lemma {:induction false} CountOne<T(!new)>(s: seq<T>, i: nat, p: T -> bool)
    requires i < |s|
    requires forall j | 0 <= j < |s| :: p(s[j]) <==> j == i
    ensures Count(s, p) == 1
  {
    CountConcat(s[..i], s[i..], p);
    assert s[..i] + s[i..] == s;
    CountTail(s[i..], p);
    CountNone(s[..i], p);
    CountNone(s[i..][1..], p);
  }
}
