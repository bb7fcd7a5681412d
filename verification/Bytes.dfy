/** Bytes, and searching for a byte string. */
module Bytes {

  type byte = b: int | 0 <= b < 256

  /** `pat` stands at `i` in `s`. */
  predicate At(s: seq<byte>, pat: seq<byte>, i: nat) {
    i + |pat| <= |s| && s[i..i + |pat|] == pat
  }

  ghost predicate Occurs(s: seq<byte>, pat: seq<byte>) {
    exists i: nat :: At(s, pat, i)
  }

  ghost predicate FirstAt(s: seq<byte>, pat: seq<byte>, i: nat) {
    At(s, pat, i) && forall j: nat | j < i :: !At(s, pat, j)
  }

  /** The first place from `from` on, or -1. */
  function FirstFrom(s: seq<byte>, pat: seq<byte>, from: nat): (p: int)
    ensures p == -1 || from <= p
    ensures p == -1 ==> forall i: nat | from <= i :: !At(s, pat, i)
    ensures p >= 0 ==> At(s, pat, p) && forall i: nat | from <= i < p :: !At(s, pat, i)
    decreases |s| - from
  {
    if from + |pat| > |s| then -1 else if At(s, pat, from) then from else FirstFrom(s, pat, from + 1)
  }

  lemma {:induction false} FirstFromIs(s: seq<byte>, pat: seq<byte>, from: nat, p: nat)
    requires from <= p && At(s, pat, p) && forall i: nat | from <= i < p :: !At(s, pat, i)
    ensures FirstFrom(s, pat, from) == p
  {
  }

  /** Searching from further on finds the same exactly if nothing is skipped. */
  lemma {:induction false} SkipsNothing(s: seq<byte>, pat: seq<byte>, from: nat, later: nat)
    requires from <= later
    ensures FirstFrom(s, pat, from) == FirstFrom(s, pat, later) <==> forall i: nat | from <= i < later :: !At(s, pat, i)
  {
    var p, q := FirstFrom(s, pat, from), FirstFrom(s, pat, later);
    if forall i: nat | from <= i < later :: !At(s, pat, i) {
      if p == -1 {
        assert q == -1;
      } else {
        FirstFromIs(s, pat, later, p);
      }
    }
  }

  lemma AtSlice(s: seq<byte>, pat: seq<byte>, k: nat, n: nat, i: nat)
    requires k + n <= |s| && i + |pat| <= n
    ensures At(s[k..k + n], pat, i) <==> At(s, pat, k + i)
  {
    var t, l := s[k..k + n], k + i;
    var u, v := t[i..i + |pat|], s[l..l + |pat|];
    forall j | 0 <= j < |pat| ensures u[j] == v[j] {
      assert t[i + j] == s[k + (i + j)];
    }
    assert u == v;
  }

  /** A search of the rest of a string, in terms of the string. */
  lemma FoundInTail(all: seq<byte>, pat: seq<byte>, k: nat, live: seq<byte>, from: nat, p: int)
    requires k <= |all| && live == all[k..] && (p == -1 || from <= p)
    requires p == -1 ==> forall i: nat | from <= i :: !At(live, pat, i)
    requires p >= 0 ==> At(live, pat, p) && forall i: nat | from <= i < p :: !At(live, pat, i)
    ensures FirstFrom(all, pat, k + from) == if p == -1 then -1 else k + p
  {
    assert live == all[k..k + |live|];
    forall i: nat | k <= i ensures At(all, pat, i) <==> At(live, pat, i - k) {
      if i + |pat| <= |all| {
        AtSlice(all, pat, k, |live|, i - k);
      }
    }
    if p >= 0 {
      FirstFromIs(all, pat, k + from, k + p);
    }
  }
}
