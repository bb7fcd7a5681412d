/** Login ranges of bench.c: cutting one into a part for every thread of every process, and
    stepping through a part. */
module Ranges {
  import opened Modular

  /** range_t: `sequential` is positive for ascending, negative for descending, 0 for random. */
  datatype Range = Range(first: nat, last: nat, span: nat, sequential: int)

  /** unsigned long */
  function Wrap(x: int): nat {
    x % 0x1_0000_0000_0000_0000
  }

  predicate Proper(r: Range) {
    r.last == r.first + r.span < 0x1_0000_0000_0000_0000
  }

  // ----- Splitting -----

  /** One of `d` shares of `n`: the first rounds up, all others down, but never to nothing. */
  function Share(n: nat, d: nat, i: nat): nat
    requires d > 0
  {
    var f := if i > 0 then n / d else (n + d - 1) / d;
    if f <= 0 then 1 else f
  }

  function PerProc(n: nat, procs: nat, p: nat): nat
    requires procs > 0
  {
    Share(n, procs, p)
  }

  /** The share of a thread in that of its process. */
  function PerThread(q: nat, threads: nat, t: nat): nat {
    if threads > 1 then Share(q, threads, t) else q
  }

  function Size(n: nat, procs: nat, threads: nat, p: nat, t: nat): nat
    requires procs > 0
  {
    PerThread(PerProc(n, procs, p), threads, t)
  }

  function Offset(n: nat, procs: nat, threads: nat, p: nat, t: nat): nat
    requires procs > 0
  {
    var q := PerProc(n, procs, p);
    q * p + if threads > 1 then PerThread(q, threads, t) * t else 0
  }

  /** Where the share of thread `t` of process `p` begins in a range of `n`. */
  function Start(n: nat, procs: nat, threads: nat, p: nat, t: nat): nat
    requires n > 0 && procs > 0
  {
    Offset(n, procs, threads, p, t) % n
  }

  function Split(whole: Range, procs: nat, threads: nat, p: nat, t: nat): Range
    requires procs > 0
  {
    if whole.sequential == 0 then
      whole
    else
      var n := whole.span + 1;
      var first := whole.first + Start(n, procs, threads, p, t);
      var count := Size(n, procs, threads, p, t);
      Range(first, first + count - 1, if count > 0 then count - 1 else 0, whole.sequential)
  }

  lemma DivUp(n: nat, d: nat)
    requires n > 0 && d > 0
    ensures (n + d - 1) / d == n / d + if n % d == 0 then 0 else 1
    ensures n / d * d <= n && (n / d == 0 <==> n < d)
  {
    var q, r := n / d, n % d;
    if r == 0 {
      DivModUnique(n + d - 1, d, q, d - 1);
    } else {
      assert n + d - 1 == (q + 1) * d + (r - 1);
      DivModUnique(n + d - 1, d, q + 1, r - 1);
    }
    if n < d {
      DivModUnique(n, d, 0, n);
    }
  }

  lemma DownFits(f: nat, d: nat, i: nat)
    requires i < d
    ensures f * i + f <= f * d && f <= f * d
  {
    MulNat(f, d - 1 - i);
    MulNat(f, i);
    assert f * d == f * i + f + f * (d - 1 - i);
  }

  lemma ShareFits(n: nat, d: nat, i: nat)
    requires n > 0 && i < d
    ensures var q := Share(n, d, i); 1 <= q <= n && (n < d ==> q == 1) && (n >= d ==> q * i + q <= n)
  {
    DivUp(n, d);
    var f := n / d;
    DownFits(f, d, i);
    if d > 1 && n >= d {
      DownFits(f, d, d - 1);
    }
  }

  lemma ExactShare(n: nat, d: nat, s: nat, i: nat)
    requires s > 0 && d > 0 && n == s * d
    ensures Share(n, d, i) == s
  {
    DivModUnique(n, d, s, 0);
    MulNat(s - 1, d);
    assert n > 0;
    DivUp(n, d);
  }

  lemma Mul1(i: nat)
    ensures 1 * i == i
  {
  }

  /** A share never crosses the end of the range, whether or not it has been wrapped. */
  lemma Fits(n: nat, procs: nat, threads: nat, p: nat, t: nat)
    requires n > 0 && p < procs && (threads > 1 ==> t < threads)
    ensures Size(n, procs, threads, p, t) >= 1
    ensures Start(n, procs, threads, p, t) + Size(n, procs, threads, p, t) <= n
    ensures Offset(n, procs, threads, p, t) <= n + procs + threads
  {
    var q := PerProc(n, procs, p);
    ShareFits(n, procs, p);
    if q == 1 {
      Mul1(p);
    }
    if threads > 1 {
      var f := PerThread(q, threads, t);
      ShareFits(q, threads, t);
      if f == 1 {
        Mul1(t);
      }
    }
    var offset := Offset(n, procs, threads, p, t);
    if offset < n {
      DivModUnique(offset, n, 0, offset);
    }
  }

  /** A sub-range of a sequential range is not empty and lies inside it. */
  lemma SplitInside(whole: Range, procs: nat, threads: nat, p: nat, t: nat)
    requires Proper(whole) && p < procs && (threads > 1 ==> t < threads)
    ensures var sub := Split(whole, procs, threads, p, t);
            && Proper(sub) && sub.sequential == whole.sequential
            && whole.first <= sub.first <= sub.last <= whole.last
  {
    Fits(whole.span + 1, procs, threads, p, t);
  }

  /** One of `d` shares of `n`: the first rounds up, all others down, but never to nothing. */
  predicate RoundedShare(n: nat, d: nat, i: nat, q: nat) {
    if n < d then q == 1
    else if i == 0 then q * d >= n && n > q * d - d
    else q * d <= n && n < q * d + d
  }

  lemma ShareRounded(n: nat, d: nat, i: nat)
    requires n > 0 && d > 0
    ensures RoundedShare(n, d, i, Share(n, d, i))
  {
    DivUp(n, d);
    var q, r := n / d, n % d;
    assert n == q * d + r;
    assert (q + 1) * d == q * d + d;
  }

  /** So the shares differ by one at most, the first is the largest, and they are equal if and
      only if `d` divides `n`, or there is at most one for each. */
  lemma SharesDiffer(n: nat, d: nat, i: nat, a: nat, b: nat)
    requires n > 0 && d > 0 && i > 0 && RoundedShare(n, d, 0, a) && RoundedShare(n, d, i, b)
    ensures b <= a <= b + 1
    ensures a == b <==> n % d == 0 || n < d
  {
    if n >= d {
      DivModUnique(n, d, b, n - b * d);
      if a > b + 1 { MulOrder(b + 1, a, d); } else if a < b { MulOrder(a, b, d); }
    }
  }

  lemma RoundsOf(x: nat, n: nat) returns (rounds: nat)
    requires n > 0
    ensures x == rounds * n + x % n
  {
    DivNat(x, n);
    rounds := x / n;
  }

  /** The size of a share and what lies before it: `q` logins for the process, of which the thread
      has a share, and the shares are laid one after the other. */
  lemma SizeIs(n: nat, procs: nat, threads: nat, p: nat, t: nat) returns (q: nat)
    requires n > 0 && p < procs && (threads > 1 ==> t < threads)
    ensures RoundedShare(n, procs, p, q)
    ensures var size := Size(n, procs, threads, p, t);
            && (if threads > 1 then RoundedShare(q, threads, t, size) else size == q)
            && Offset(n, procs, threads, p, t) == q * p + if threads > 1 then size * t else 0
  {
    q := PerProc(n, procs, p);
    ShareRounded(n, procs, p);
    ShareFits(n, procs, p);
    if threads > 1 {
      ShareRounded(q, threads, t);
    }
  }

  /** rangeSplit in the terms of its result. Past the end of the whole range the shares go on from
      its beginning. */
  lemma SplitIs(whole: Range, procs: nat, threads: nat, p: nat, t: nat) returns (rounds: nat)
    requires Proper(whole) && whole.sequential != 0 && p < procs && (threads > 1 ==> t < threads)
    ensures var n, sub := whole.span + 1, Split(whole, procs, threads, p, t);
            && sub.first + rounds * n == whole.first + Offset(n, procs, threads, p, t)
            && whole.first <= sub.first <= sub.last <= whole.last && sub.last == sub.first + sub.span
            && sub.span + 1 == Size(n, procs, threads, p, t) && sub.sequential == whole.sequential
  {
    var n := whole.span + 1;
    var offset := Offset(n, procs, threads, p, t);
    SplitInside(whole, procs, threads, p, t);
    Fits(n, procs, threads, p, t);
    rounds := RoundsOf(offset, n);
  }

  /** rangeSetFirstCount */
  method RangeSetFirstCount(first: nat, num: nat, dir: int) returns (r: Range)
    requires first < 0x1_0000_0000_0000_0000
    ensures r.first == first && r.sequential == dir
    ensures r.span == if num > 0 then num - 1 else 0
    ensures first + r.span < 0x1_0000_0000_0000_0000 ==> Proper(r)
  {
    var n := num;
    if n > 0 {
      n := n - 1;
    }
    r := Range(first, Wrap(first + n), n, dir);
  }

  /** The guard of the wrap loop of rangeSplit, and its body. */
  predicate Beyond(whole: Range, first: nat) {
    first >= Wrap(whole.first + whole.span + 1)
  }

  function Back(whole: Range, first: nat): nat {
    Wrap(first - (whole.span + 1))
  }

  function Iterated(whole: Range, at: nat, k: nat): nat {
    if k == 0 then at else Back(whole, Iterated(whole, at, k - 1))
  }

  lemma {:induction false} IteratedDown(whole: Range, at: nat, k: nat)
    requires Proper(whole) && whole.first + k * (whole.span + 1) <= at < 0x1_0000_0000_0000_0000
    ensures Iterated(whole, at, k) == at - k * (whole.span + 1)
  {
    if k > 0 {
      var n := whole.span + 1;
      assert k * n == (k - 1) * n + n;
      MulNat(k - 1, n);
      IteratedDown(whole, at, k - 1);
    }
  }

  /** The wrap loop ends if and only if the last login is not the largest machine word. */
  lemma WrapEndsIff(whole: Range, at: nat)
    requires Proper(whole) && whole.first <= at < 0x1_0000_0000_0000_0000
    ensures (exists k: nat :: !Beyond(whole, Iterated(whole, at, k))) <==> whole.last < 0xFFFF_FFFF_FFFF_FFFF
  {
    if whole.last < 0xFFFF_FFFF_FFFF_FFFF {
      var n, d := whole.span + 1, at - whole.first;
      DivNat(d, n);
      var k: nat := d / n;
      assert d == k * n + d % n;
      IteratedDown(whole, at, k);
      assert !Beyond(whole, Iterated(whole, at, k));
    }
  }

  lemma WrapOnce(x: nat)
    requires x < 0x2_0000_0000_0000_0000
    ensures Wrap(x) == if x < 0x1_0000_0000_0000_0000 then x else x - 0x1_0000_0000_0000_0000
  {
  }

  lemma BackOne(whole: Range, first: nat)
    requires Proper(whole) && whole.last < 0xFFFF_FFFF_FFFF_FFFF && first < 0x1_0000_0000_0000_0000
    ensures Beyond(whole, first) <==> first >= whole.first + (whole.span + 1)
    ensures Beyond(whole, first) ==> Back(whole, first) == first - (whole.span + 1)
  {
    WrapOnce(whole.first + whole.span + 1);
    if Beyond(whole, first) {
      WrapOnce(first - (whole.span + 1));
    }
  }

  /** The wrap loop. */
  method WrapInto(whole: Range, at: nat) returns (first: nat)
    requires Proper(whole) && whole.last < 0xFFFF_FFFF_FFFF_FFFF && whole.first <= at < 0x1_0000_0000_0000_0000
    ensures first == whole.first + (at - whole.first) % (whole.span + 1)
  {
    first := at;
    ghost var base, n := whole.first, whole.span + 1;
    BackOne(whole, first);
    while Beyond(whole, first)
      invariant base <= first <= at && (first - base) % n == (at - base) % n
      invariant Beyond(whole, first) <==> first >= base + n
      decreases first
    {
      BackOne(whole, first);
      ModShift(first - base, -1, n);
      first := Back(whole, first);
      BackOne(whole, first);
    }
    DivModUnique(first - base, n, 0, first - base);
  }

  /** No sum or product on the way to the first login of a share exceeds the machine word. */
  predicate SumsFit(whole: Range, procs: nat, threads: nat, p: nat, t: nat)
    requires procs > 0
  {
    var n := whole.span + 1;
    && (p == 0 ==> n + procs <= 0x1_0000_0000_0000_0000)
    && (threads > 1 && t == 0 ==> PerProc(n, procs, p) + threads <= 0x1_0000_0000_0000_0000)
    && Offset(n, procs, threads, p, t) < 0x1_0000_0000_0000_0000
  }

  /** The quotients of rangeSplit. */
  method RoundShare(n: nat, d: nat, i: nat) returns (q: nat)
    requires d > 0 && n < 0x1_0000_0000_0000_0000 && (i == 0 ==> n + d <= 0x1_0000_0000_0000_0000)
    ensures q == Share(n, d, i)
  {
    if i > 0 {
      q := n / d;
    } else {
      WrapOnce(n + d - 1);
      q := Wrap(n + d - 1) / d;
    }
    if q <= 0 {
      q := 1;
    }
  }

  /** Where the share begins, as far as it is not wrapped, and how large it is. */
  method FirstAndCount(whole: Range, procs: nat, threads: nat, p: nat, t: nat) returns (at: nat, count: nat)
    requires p < procs && whole.span < 0xFFFF_FFFF_FFFF_FFFF && SumsFit(whole, procs, threads, p, t)
    requires threads > 1 ==> t < threads
    ensures at == whole.first + Offset(whole.span + 1, procs, threads, p, t)
    ensures count == Size(whole.span + 1, procs, threads, p, t)
  {
    var n := whole.span + 1;
    ShareFits(n, procs, p);
    var perproc := RoundShare(n, procs, p);
    if threads > 1 {
      var perthread := RoundShare(perproc, threads, t);
      at, count := whole.first + perproc * p + perthread * t, perthread;
    } else {
      at, count := whole.first + perproc * p, perproc;
    }
  }

  /** rangeSplit: the share is the one described. False is a failed assertion, which means
      that the share would begin beyond the largest machine word. */
  method RangeSplit(whole: Range, procs: nat, threads: nat, p: nat, t: nat) returns (ok: bool, sub: Range)
    requires Proper(whole) && p < procs && (threads > 1 ==> t < threads)
    requires whole.sequential != 0 ==> whole.last < 0xFFFF_FFFF_FFFF_FFFF && SumsFit(whole, procs, threads, p, t)
    ensures whole.sequential == 0 ==> ok
    ensures whole.sequential != 0 ==>
              (ok <==> whole.first + Offset(whole.span + 1, procs, threads, p, t) < 0x1_0000_0000_0000_0000)
    ensures ok ==> sub == Split(whole, procs, threads, p, t)
  {
    if whole.sequential == 0 {
      return true, whole;
    }
    var n := whole.span + 1;
    Fits(n, procs, threads, p, t);
    var at, count := FirstAndCount(whole, procs, threads, p, t);
    WrapOnce(at);
    at := Wrap(at);
    if at < whole.first {
      BackOne(whole, at);
      return false, whole;
    }
    var first := WrapInto(whole, at);
    sub := RangeSetFirstCount(first, count, whole.sequential);
    ok := true;
  }

  // ----- The partition -----

  function Lanes(threads: nat): nat {
    if threads > 1 then threads else 1
  }

  predicate Worker(procs: nat, threads: nat, p: nat, t: nat) {
    p < procs && t < Lanes(threads)
  }

  /** The x-th member of a range of `n` is in the share of thread `t` of process `p`. */
  predicate Holds(n: nat, procs: nat, threads: nat, p: nat, t: nat, x: nat)
    requires n > 0 && procs > 0
  {
    var start := Start(n, procs, threads, p, t);
    start <= x < start + Size(n, procs, threads, p, t)
  }

  ghost predicate Disjoint(n: nat, procs: nat, threads: nat)
    requires n > 0 && procs > 0
  {
    forall p: nat, t: nat, p2: nat, t2: nat, x: nat
      {:trigger Holds(n, procs, threads, p, t, x), Holds(n, procs, threads, p2, t2, x)} ::
      Worker(procs, threads, p, t) && Worker(procs, threads, p2, t2)
      && Holds(n, procs, threads, p, t, x) && Holds(n, procs, threads, p2, t2, x)
      ==> p == p2 && t == t2
  }

  /** With equal shares of `s`, the shares lie one after the other. */
  lemma EqualShares(n: nat, procs: nat, threads: nat, s: nat, p: nat, t: nat)
    requires procs > 0 && n > 0 && n == procs * (Lanes(threads) * s) && Worker(procs, threads, p, t)
    ensures Size(n, procs, threads, p, t) == s && Start(n, procs, threads, p, t) == (p * Lanes(threads) + t) * s
    ensures (p * Lanes(threads) + t) * s + s <= n
  {
    var q := Lanes(threads) * s;
    if s == 0 {
      assert false;
    }
    MulNat(Lanes(threads) - 1, s);
    assert q > 0 && n == q * procs && q == s * Lanes(threads);
    ExactShare(n, procs, q, p);
    if threads > 1 {
      ExactShare(q, threads, s, t);
    }
    Places(procs, Lanes(threads), s, p, t);
    Mul1(s);
    var k := p * Lanes(threads) + t;
    assert Offset(n, procs, threads, p, t) == k * s;
    DivModUnique(k * s, n, 0, k * s);
  }

  /** Counting the workers process by process. */
  lemma Places(procs: nat, lanes: nat, s: nat, p: nat, t: nat)
    requires p < procs && t < lanes
    ensures (p * lanes + t) * s == (lanes * s) * p + s * t
    ensures (p * lanes + t) * s + s <= procs * (lanes * s)
  {
    var q := lanes * s;
    assert (p * lanes + t) * s == p * (lanes * s) + t * s;
    if s > 0 {
      MulNat(lanes - 1, s);
      MulOrder(t, lanes, s);
      MulOrder(p, procs, q);
    }
  }

  lemma ShareOfOwn(procs: nat, lanes: nat, s: nat, p: nat, t: nat, x: nat)
    requires t < lanes && s > 0 && (p * lanes + t) * s <= x < (p * lanes + t) * s + s
    ensures p == x / s / lanes && t == x / s % lanes
  {
    DivModUnique(x, s, p * lanes + t, x - (p * lanes + t) * s);
    DivModUnique(x / s, lanes, p, t);
  }

  lemma ZeroModulo(n: nat, a: nat, b: nat)
    requires a > 0 && b > 0
    ensures a * b > 0 && (n % (a * b) == 0 <==> n % a == 0 && n / a % b == 0)
  {
    MulNat(a - 1, b - 1);
    assert a * b == (a - 1) * (b - 1) + a + b - 1;
    if n % (a * b) == 0 {
      var s := n / (a * b);
      assert n == s * (a * b) == (s * b) * a;
      DivModUnique(n, a, s * b, 0);
      DivModUnique(s * b, b, s, 0);
    } else if n % a == 0 && n / a % b == 0 {
      var s := n / a / b;
      assert n == (n / a) * a == (s * b) * a == s * (a * b);
      DivModUnique(n, a * b, s, 0);
    }
  }

  /** The size of the shares if they are all equal. */
  function EqualSize(n: nat, procs: nat, threads: nat): nat
    requires procs > 0
  {
    n / procs / Lanes(threads)
  }

  lemma Equal(n: nat, procs: nat, threads: nat)
    requires n > 0 && procs > 0
    ensures procs * Lanes(threads) > 0
    ensures n % (procs * Lanes(threads)) == 0 ==>
      var s := EqualSize(n, procs, threads); s > 0 && n == procs * (Lanes(threads) * s)
  {
    var lanes := Lanes(threads);
    ZeroModulo(n, procs, lanes);
    if n % (procs * lanes) == 0 {
      var s := EqualSize(n, procs, threads);
      assert n / procs == s * lanes && n == (n / procs) * procs;
      assert s * lanes == lanes * s;
      assert s != 0;
    }
  }

  /** Thread `t` of process 0 of several threads, when there is not even one login for each. */
  lemma OneEach(n: nat, procs: nat, threads: nat, t: nat)
    requires n > 0 && procs > 0 && PerProc(n, procs, 0) < threads && t < threads
    ensures Size(n, procs, threads, 0, t) == 1 && Offset(n, procs, threads, 0, t) == t
  {
    var q := PerProc(n, procs, 0);
    ShareFits(n, procs, 0);
    ShareFits(q, threads, t);
    Mul1(t);
  }

  /** The first thread of process 0 takes one login too many. */
  lemma Uneven(n: nat, procs: nat, threads: nat)
    requires n > 0 && procs > 0 && threads > 1
    requires var q := PerProc(n, procs, 0); q >= threads && q % threads != 0
    ensures var x := PerProc(n, procs, 0) / threads;
            Holds(n, procs, threads, 0, 0, x) && Holds(n, procs, threads, 0, 1, x)
  {
    var q := PerProc(n, procs, 0);
    var f := q / threads;
    ShareFits(n, procs, 0);
    ShareFits(q, threads, 1);
    DivUp(q, threads);
    DivNat(q, threads);
    assert f > 0;
    Mul1(f);
    DivModUnique(0, n, 0, 0);
    DivModUnique(f, n, 0, f);
  }

  /** Process 0 takes one login too many, and process 1 begins with it. */
  lemma FirstOfSecond(n: nat, procs: nat, threads: nat, x: nat)
    requires n > 0 && procs > 1 && n >= procs && x == n / procs
    ensures x < n && Holds(n, procs, threads, 1, 0, x)
  {
    DivUp(n, procs);
    MulNat(x, procs - 2);
    assert x * procs == x * (procs - 2) + 2 * x;
    Fits(n, procs, threads, 1, 0);
    DivModUnique(x, n, 0, x);
  }

  lemma LastThread(n: nat, procs: nat, threads: nat)
    requires n > 0 && procs > 0 && threads > 1
    requires var q := PerProc(n, procs, 0); q <= n && q >= threads && q % threads == 0
    ensures Holds(n, procs, threads, 0, threads - 1, PerProc(n, procs, 0) - 1)
  {
    var q, t := PerProc(n, procs, 0), threads - 1;
    var s := q / threads;
    DivUp(q, threads);
    DivNat(q, threads);
    assert q == s * threads && s > 0;
    ExactShare(q, threads, s, t);
    assert s * t == q - s;
    DivModUnique(q - s, n, 0, q - s);
  }

  lemma LastOfFirst(n: nat, procs: nat, threads: nat) returns (t: nat)
    requires n >= procs > 1
    requires var q := PerProc(n, procs, 0); threads > 1 && q >= threads ==> q % threads == 0
    ensures t < Lanes(threads) && Holds(n, procs, threads, 0, t, PerProc(n, procs, 0) - 1)
  {
    var q := PerProc(n, procs, 0);
    ShareFits(n, procs, 0);
    if threads <= 1 {
      t := 0;
      DivModUnique(0, n, 0, 0);
    } else if q < threads {
      t := q - 1;
      OneEach(n, procs, threads, t);
      DivModUnique(t, n, 0, t);
    } else {
      t := threads - 1;
      LastThread(n, procs, threads);
    }
  }

  /** Unless the shares are equal, two of them have a login in common. */
  lemma Clash(n: nat, procs: nat, threads: nat) returns (p: nat, t: nat, p2: nat, t2: nat, x: nat)
    requires n > 0 && procs > 0 && !(n % procs == 0 && n / procs % Lanes(threads) == 0)
    ensures Worker(procs, threads, p, t) && Worker(procs, threads, p2, t2) && (p != p2 || t != t2)
    ensures Holds(n, procs, threads, p, t, x) && Holds(n, procs, threads, p2, t2, x)
  {
    var q := PerProc(n, procs, 0);
    DivUp(n, procs);
    if threads > 1 && q >= threads && q % threads != 0 {
      Uneven(n, procs, threads);
      return 0, 0, 0, 1, q / threads;
    }
    if n < procs {
      ShareFits(n, procs, n);
      Mul1(n);
      Fits(n, procs, threads, n, 0);
      Fits(n, procs, threads, 0, 0);
      DivModUnique(n, n, 1, 0);
      DivModUnique(0, n, 0, 0);
      return 0, 0, n, 0, 0;
    }
    x := n / procs;
    if n % procs != 0 {
      t := LastOfFirst(n, procs, threads);
      FirstOfSecond(n, procs, threads, x);
      return 0, t, 1, 0, x;
    }
    assert q == x && threads > 1 && x < threads;
    OneEach(n, procs, threads, x);
    if procs > 1 {
      FirstOfSecond(n, procs, threads, x);
      DivModUnique(x, n, 0, x);
      return 0, x, 1, 0, x;
    }
    assert x == n;
    OneEach(n, procs, threads, 0);
    DivModUnique(n, n, 1, 0);
    DivModUnique(0, n, 0, 0);
    return 0, n, 0, 0, 0;
  }

  /** No two threads share a login exactly if every thread can have the same number. */
  lemma DisjointIff(n: nat, procs: nat, threads: nat)
    requires n > 0 && procs > 0
    ensures procs * Lanes(threads) > 0
    ensures Disjoint(n, procs, threads) <==> n % (procs * Lanes(threads)) == 0
  {
    var lanes := Lanes(threads);
    Equal(n, procs, threads);
    ZeroModulo(n, procs, lanes);
    if n % (procs * lanes) == 0 {
      var s := EqualSize(n, procs, threads);
      forall p: nat, t: nat, x: nat {:trigger Holds(n, procs, threads, p, t, x)}
        | Worker(procs, threads, p, t) && Holds(n, procs, threads, p, t, x)
        ensures p == x / s / lanes && t == x / s % lanes
      {
        EqualShares(n, procs, threads, s, p, t);
        ShareOfOwn(procs, lanes, s, p, t, x);
      }
    } else {
      var p, t, p2, t2, x := Clash(n, procs, threads);
      assert Holds(n, procs, threads, p, t, x) && Holds(n, procs, threads, p2, t2, x);
    }
  }

  lemma Reassociate(a: nat, b: nat, c: nat)
    ensures a * b >= 0 && a * (b * c) == (a * b) * c
  {
  }

  lemma Quotient(x: nat, m: nat, n: nat) returns (q: nat)
    requires m > 0 && x < n * m
    ensures q == x / m < n && q * m <= x < q * m + m && x % m == x - q * m
  {
    assert n * m == m * n;
    DivNat(x, m);
    DivBound(x, m, n);
    q := x / m;
  }

  lemma OwnOf(procs: nat, lanes: nat, s: nat, x: nat)
    requires s > 0 && lanes > 0 && x < procs * (lanes * s)
    ensures 0 <= x / s / lanes < procs && 0 <= x / s % lanes
    ensures var k := (x / s / lanes) * lanes + x / s % lanes; k * s <= x < k * s + s
  {
    Reassociate(procs, lanes, s);
    var k := Quotient(x, s, procs * lanes);
    var q := Quotient(k, lanes, procs);
    assert (x / s / lanes) * lanes + x / s % lanes == k;
  }

  /** Then the shares cover the range. */
  lemma Covered(n: nat, procs: nat, threads: nat, x: nat) returns (p: nat, t: nat)
    requires x < n && procs > 0 && procs * Lanes(threads) > 0 && n % (procs * Lanes(threads)) == 0
    ensures Worker(procs, threads, p, t) && Holds(n, procs, threads, p, t, x)
  {
    var lanes := Lanes(threads);
    Equal(n, procs, threads);
    var s := EqualSize(n, procs, threads);
    OwnOf(procs, lanes, s, x);
    p, t := x / s / lanes, x / s % lanes;
    EqualShares(n, procs, threads, s, p, t);
  }

  // ----- Stepping -----

  /** rangeNext; `draw` is the random number of a random range. */
  function RangeNext(r: Range, last: nat, draw: nat): nat {
    if r.span == 0 then
      r.first
    else
      var n :=
        if r.sequential > 0 then Wrap(last + 1)
        else if r.sequential < 0 then Wrap(last - 1)
        else Wrap(r.first + draw % (r.span + 1));
      var m := if n > r.last then r.first else n;
      if m < r.first then r.last else m
  }

  lemma RandomIs(r: Range, last: nat, draw: nat, d: nat)
    requires Proper(r) && r.sequential == 0 && r.span > 0
    requires d == draw % (r.span + 1) && Wrap(r.first + d) == r.first + d
    ensures RangeNext(r, last, draw) == r.first + d
  {
  }

  /** A random range yields the login to which the draw leads, counted round and round. */
  lemma RandomStep(r: Range, last: nat, draw: nat) returns (rounds: nat)
    requires Proper(r) && r.sequential == 0
    ensures draw == rounds * (r.span + 1) + (RangeNext(r, last, draw) - r.first)
  {
    var n := r.span + 1;
    rounds := RoundsOf(draw, n);
    var d := draw % n;
    if r.span > 0 {
      WrapOnce(r.first + d);
      RandomIs(r, last, draw, d);
    }
  }

  /** A step from a value that is not in the range: beyond an end it leads to the other one,
      except where it reaches the range or the word wraps. */
  lemma StepFromOutside(r: Range, v: nat)
    requires Proper(r) && r.sequential != 0 && r.span > 0 && v <= 0xFFFF_FFFF_FFFF_FFFF
    ensures r.sequential > 0 && v > r.last ==>
              RangeNext(r, v, 0) == if v == 0xFFFF_FFFF_FFFF_FFFF && r.first > 0 then r.last else r.first
    ensures r.sequential > 0 && v < r.first ==> RangeNext(r, v, 0) == if v + 1 == r.first then r.first else r.last
    ensures r.sequential < 0 && v > r.last ==> RangeNext(r, v, 0) == if v - 1 == r.last then r.last else r.first
    ensures r.sequential < 0 && v < r.first ==>
              RangeNext(r, v, 0) == if v == 0 && r.last < 0xFFFF_FFFF_FFFF_FFFF then r.first else r.last
  {
    WrapStep(v);
  }

  /** Whatever was used last, and whatever is drawn, the next is in the range. */
  lemma NextInside(r: Range, last: nat, draw: nat)
    requires Proper(r)
    ensures r.first <= RangeNext(r, last, draw) <= r.last
  {
  }

  /** What pishStatsInit sets as the last value used. */
  function InitialLast(r: Range): nat {
    if r.sequential < 0 then Wrap(r.last + 1) else Wrap(r.first - 1)
  }

  /** Whether a round is followed by another: the machine word must not wrap at the end. */
  predicate Rounds(r: Range) {
    || r.span == 0
    || (r.first == 0 && r.last == 0xFFFF_FFFF_FFFF_FFFF)
    || (if r.sequential > 0 then r.last < 0xFFFF_FFFF_FFFF_FFFF else r.first > 0)
  }

  lemma WrapStep(v: nat)
    requires v < 0x1_0000_0000_0000_0000
    ensures Wrap(v + 1) == if v == 0xFFFF_FFFF_FFFF_FFFF then 0 else v + 1
    ensures Wrap(v - 1) == if v == 0 then 0xFFFF_FFFF_FFFF_FFFF else v - 1
    ensures Wrap(Wrap(v - 1) + 1) == v == Wrap(Wrap(v + 1) - 1)
  {
  }

  /** The first step gives the end of the range it starts from. */
  lemma FirstStep(r: Range)
    requires Proper(r) && r.sequential != 0
    ensures RangeNext(r, InitialLast(r), 0) == if r.sequential > 0 then r.first else r.last
  {
    WrapStep(r.first);
    WrapStep(r.last);
  }

  /** A step from inside. At the end where the word wraps, the last login comes again. */
  lemma Step(r: Range, v: nat)
    requires Proper(r) && r.sequential != 0 && r.first <= v <= r.last
    ensures RangeNext(r, v, 0) ==
      if r.sequential > 0 then (if v < r.last then v + 1 else if Rounds(r) then r.first else r.last)
      else (if v > r.first then v - 1 else if Rounds(r) then r.last else r.first)
  {
    WrapStep(v);
  }

  /** The k-th login a thread takes from a sequential range. */
  function Nth(r: Range, k: nat): nat {
    RangeNext(r, if k == 0 then InitialLast(r) else Nth(r, k - 1), 0)
  }

  /** The first round goes up, or down, from one end of the range to the other. */
  lemma {:induction false} FirstRound(r: Range, k: nat)
    requires Proper(r) && r.sequential != 0 && k <= r.span
    ensures Nth(r, k) == if r.sequential > 0 then r.first + k else r.last - k
  {
    if k == 0 {
      FirstStep(r);
    } else {
      FirstRound(r, k - 1);
      Step(r, Nth(r, k - 1));
    }
  }

  lemma {:induction false} EveryRound(r: Range, k: nat)
    requires Proper(r) && r.sequential != 0 && Rounds(r)
    ensures var i := k % (r.span + 1); Nth(r, k) == if r.sequential > 0 then r.first + i else r.last - i
  {
    var n := r.span + 1;
    if k == 0 {
      FirstRound(r, 0);
      DivModUnique(0, n, 0, 0);
    } else {
      EveryRound(r, k - 1);
      NextModulo(k - 1, n);
      Step(r, Nth(r, k - 1));
    }
  }

  lemma NextModulo(k: nat, n: nat)
    requires n > 0
    ensures (k + 1) % n == if k % n == n - 1 then 0 else k % n + 1
  {
    if k % n == n - 1 {
      assert k + 1 == (k / n + 1) * n;
      DivModUnique(k + 1, n, k / n + 1, 0);
    } else {
      DivModUnique(k + 1, n, k / n, k % n + 1);
    }
  }

  /** The k-th login is first + k modulo the number of logins, counted from the other end if
      descending, exactly if the word does not wrap. */
  lemma {:induction false} RoundsIff(r: Range)
    requires Proper(r) && r.sequential != 0
    ensures (forall k: nat ::
               Nth(r, k) == var i := k % (r.span + 1); if r.sequential > 0 then r.first + i else r.last - i)
            <==> Rounds(r)
  {
    var n := r.span + 1;
    if Rounds(r) {
      forall k: nat ensures Nth(r, k) == var i := k % n; if r.sequential > 0 then r.first + i else r.last - i {
        EveryRound(r, k);
      }
    } else {
      FirstRound(r, r.span);
      DivModUnique(n, n, 1, 0);
      Step(r, Nth(r, r.span));
      assert Nth(r, n) == Nth(r, r.span);
    }
  }

  // ----- Every login in one place -----

  /** In each round a thread takes a login of its share once, at a fixed place. */
  lemma {:induction false} OncePerRound(r: Range, k: nat, v: nat)
    requires Proper(r) && r.sequential != 0 && Rounds(r) && r.first <= v <= r.last
    ensures Nth(r, k) == v <==> k % (r.span + 1) == if r.sequential > 0 then v - r.first else r.last - v
  {
    EveryRound(r, k);
  }

  /** With equal shares, whatever two threads have taken, it was not the same login. */
  lemma {:induction false} NoLoginShared(whole: Range, procs: nat, threads: nat, p: nat, t: nat,
                                           p2: nat, t2: nat, k: nat, k2: nat)
    requires Proper(whole) && whole.sequential != 0 && procs * Lanes(threads) > 0
    requires (whole.span + 1) % (procs * Lanes(threads)) == 0
    requires Worker(procs, threads, p, t) && Worker(procs, threads, p2, t2)
    requires Nth(Split(whole, procs, threads, p, t), k) == Nth(Split(whole, procs, threads, p2, t2), k2)
    ensures p == p2 && t == t2
  {
    var n := whole.span + 1;
    TakesOwn(whole, procs, threads, p, t, k);
    TakesOwn(whole, procs, threads, p2, t2, k2);
    DisjointIff(n, procs, threads);
    var x := Nth(Split(whole, procs, threads, p, t), k) - whole.first;
    assert Holds(n, procs, threads, p, t, x) && Holds(n, procs, threads, p2, t2, x);
  }

  /** A thread never leaves its share. */
  lemma {:induction false} TakesOwn(whole: Range, procs: nat, threads: nat, p: nat, t: nat, k: nat)
    requires Proper(whole) && whole.sequential != 0 && procs > 0 && Worker(procs, threads, p, t)
    ensures var v := Nth(Split(whole, procs, threads, p, t), k);
            v >= whole.first && Holds(whole.span + 1, procs, threads, p, t, v - whole.first)
  {
    var sub := Split(whole, procs, threads, p, t);
    SplitInside(whole, procs, threads, p, t);
    NextInside(sub, if k == 0 then InitialLast(sub) else Nth(sub, k - 1), 0);
    Fits(whole.span + 1, procs, threads, p, t);
  }

  /** The k-th login that thread `t` of process `p` takes. */
  function Taken(whole: Range, procs: nat, threads: nat, p: nat, t: nat, k: nat): nat
    requires procs > 0
  {
    Nth(Split(whole, procs, threads, p, t), k)
  }

  /** In its first round a thread takes every login of its share. */
  lemma TakesAll(whole: Range, procs: nat, threads: nat, p: nat, t: nat, x: nat) returns (k: nat)
    requires Proper(whole) && whole.sequential != 0 && procs > 0 && Worker(procs, threads, p, t)
    requires Holds(whole.span + 1, procs, threads, p, t, x)
    ensures Taken(whole, procs, threads, p, t, k) == whole.first + x
  {
    var sub := Split(whole, procs, threads, p, t);
    SplitInside(whole, procs, threads, p, t);
    k := if sub.sequential > 0 then whole.first + x - sub.first else sub.last - (whole.first + x);
    FirstRound(sub, k);
  }

  ghost predicate NobodyShares(whole: Range, procs: nat, threads: nat)
    requires procs > 0
  {
    forall p: nat, t: nat, k: nat, p2: nat, t2: nat, k2: nat |
      && Worker(procs, threads, p, t) && Worker(procs, threads, p2, t2)
      && Taken(whole, procs, threads, p, t, k) == Taken(whole, procs, threads, p2, t2, k2) :: p == p2 && t == t2
  }

  /** No two threads ever take the same login if and only if every thread can have the same
      number. */
  lemma NoLoginSharedIff(whole: Range, procs: nat, threads: nat)
    requires Proper(whole) && whole.sequential != 0 && procs > 0
    ensures procs * Lanes(threads) > 0
    ensures NobodyShares(whole, procs, threads) <==> (whole.span + 1) % (procs * Lanes(threads)) == 0
  {
    var n := whole.span + 1;
    Equal(n, procs, threads);
    ZeroModulo(n, procs, Lanes(threads));
    if n % (procs * Lanes(threads)) == 0 {
      forall p: nat, t: nat, k: nat, p2: nat, t2: nat, k2: nat |
        && Worker(procs, threads, p, t) && Worker(procs, threads, p2, t2)
        && Taken(whole, procs, threads, p, t, k) == Taken(whole, procs, threads, p2, t2, k2)
        ensures p == p2 && t == t2
      {
        NoLoginShared(whole, procs, threads, p, t, p2, t2, k, k2);
      }
    } else {
      var p, t, p2, t2, x := Clash(n, procs, threads);
      var k := TakesAll(whole, procs, threads, p, t, x);
      var k2 := TakesAll(whole, procs, threads, p2, t2, x);
    }
  }

  lemma PlaceInRound(round: nat, n: nat, i: nat) returns (k: nat)
    requires i < n
    ensures round * n <= k < (round + 1) * n && k % n == i
  {
    MulNat(round, n);
    k := round * n + i;
    assert (round + 1) * n == round * n + n;
    DivModUnique(k, n, round, i);
  }

  /** And every login of the whole range is taken by one of them, in every round. */
  lemma EveryLoginTaken(whole: Range, procs: nat, threads: nat, v: nat, round: nat) returns (p: nat, t: nat, k: nat)
    requires Proper(whole) && whole.sequential != 0 && procs > 0 && procs * Lanes(threads) > 0
    requires if whole.sequential > 0 then whole.last < 0xFFFF_FFFF_FFFF_FFFF else whole.first > 0
    requires (whole.span + 1) % (procs * Lanes(threads)) == 0 && whole.first <= v <= whole.last
    ensures Worker(procs, threads, p, t)
    ensures var sub := Split(whole, procs, threads, p, t);
            round * (sub.span + 1) <= k < (round + 1) * (sub.span + 1) && Nth(sub, k) == v
  {
    p, t := Covered(whole.span + 1, procs, threads, v - whole.first);
    var sub := Split(whole, procs, threads, p, t);
    SplitInside(whole, procs, threads, p, t);
    k := PlaceInRound(round, sub.span + 1, if sub.sequential > 0 then v - sub.first else sub.last - v);
    OncePerRound(sub, k, v);
  }
}
