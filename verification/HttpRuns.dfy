/** How HttpReadResponse of http-util.c finds the end of a header, for each way in which the
    reads cut the stream. */
module HttpRuns {
  import opened Bytes
  import opened SocketBuffer

  // ----- What is looked for -----

  function Lower(s: seq<byte>): (l: seq<byte>)
    ensures |l| == |s|
  {
    seq(|s|, i requires 0 <= i < |s| => if 65 <= s[i] <= 90 then s[i] + 32 else s[i])
  }

  /** HTTP_CONTENT_LENGTH in lower case, then HTTP_HEADER_BREAK. */
  function Pattern(got: nat): (p: seq<byte>)
    ensures |p| == if got == 0 then 15 else 4
  {
    if got == 0 then [99, 111, 110, 116, 101, 110, 116, 45, 108, 101, 110, 103, 116, 104, 58] else [13, 10, 13, 10]
  }

  /** Only the first is looked for without regard to case. */
  function View(got: nat, s: seq<byte>): (v: seq<byte>)
    ensures |v| == |s|
  {
    if got == 0 then Lower(s) else s
  }

  /** The position just behind the first Content-length, or -1. */
  function LengthAt(p: seq<byte>): (k: int)
    ensures k == -1 || 15 <= k <= |p|
  {
    var k := FirstFrom(View(0, p), Pattern(0), 0);
    if k < 0 then -1 else k + 15
  }

  /** The end of its line, or -1. */
  function LineEnd(p: seq<byte>): (e: int)
    ensures e == -1 || 15 <= LengthAt(p) <= e < |p|
  {
    var k := LengthAt(p);
    if k < 0 then -1 else FirstFrom(p, [10], k)
  }

  /** The end of the header for a search that begins at `k`, or -1. */
  function HeaderEnd(p: seq<byte>, k: nat): (e: int)
    ensures e == -1 || e >= k + 4
  {
    var q := FirstFrom(p, Pattern(1), k);
    if q < 0 then -1 else q + 4
  }

  /** "Content-length:" at `i`, each letter in upper or in lower case. */
  ghost predicate Named(p: seq<byte>, i: nat) {
    && i + 15 <= |p|
    && forall j | 0 <= j < 15 ::
         p[i + j] as int == "CONTENT-LENGTH:"[j] as int || p[i + j] as int == "content-length:"[j] as int
  }

  /** CR LF CR LF at `i`. */
  ghost predicate Blank(p: seq<byte>, i: nat) {
    i + 4 <= |p| && p[i] == 13 && p[i + 1] == 10 && p[i + 2] == 13 && p[i + 3] == 10
  }

  lemma PatternIs(j: nat)
    requires j < 15
    ensures Pattern(0)[j] as int == "content-length:"[j] as int
    ensures "CONTENT-LENGTH:"[j] as int ==
            if j == 7 || j == 14 then Pattern(0)[j] as int else Pattern(0)[j] as int - 32
    ensures if j == 7 || j == 14 then Pattern(0)[j] < 65 else 97 <= Pattern(0)[j] <= 122
  {
  }

  lemma AtIsNamed(p: seq<byte>, i: nat)
    ensures At(View(0, p), Pattern(0), i) <==> Named(p, i)
  {
    if i + 15 <= |p| {
      var v := View(0, p)[i..i + 15];
      forall j | 0 <= j < 15
        ensures v[j] == Pattern(0)[j] <==>
          p[i + j] as int == "CONTENT-LENGTH:"[j] as int || p[i + j] as int == "content-length:"[j] as int
      {
        PatternIs(j);
        assert v[j] == Lower(p)[i + j];
      }
      assert v == Pattern(0) <==> forall j | 0 <= j < 15 :: v[j] == Pattern(0)[j];
    }
  }

  lemma AtIsBlank(p: seq<byte>, i: nat)
    ensures At(p, Pattern(1), i) <==> Blank(p, i)
  {
    if i + 4 <= |p| {
      assert p[i..i + 4] == [p[i], p[i + 1], p[i + 2], p[i + 3]];
    }
  }

  /** What the three places are, in the bytes of the response: the name of the header without
      regard to case, the next line feed, and the next blank line. */
  lemma PlacesAre(p: seq<byte>, k: nat)
    ensures LengthAt(p) == -1 <==> forall i: nat :: !Named(p, i)
    ensures LengthAt(p) != -1 ==> Named(p, LengthAt(p) - 15) && forall i: nat | i < LengthAt(p) - 15 :: !Named(p, i)
    ensures LineEnd(p) == -1 <==> LengthAt(p) == -1 || 10 !in p[LengthAt(p)..]
    ensures LineEnd(p) != -1 ==> p[LineEnd(p)] == 10 && 10 !in p[LengthAt(p)..LineEnd(p)]
    ensures HeaderEnd(p, k) == -1 <==> forall i: nat | k <= i :: !Blank(p, i)
    ensures HeaderEnd(p, k) != -1 ==>
              Blank(p, HeaderEnd(p, k) - 4) && forall i: nat | k <= i < HeaderEnd(p, k) - 4 :: !Blank(p, i)
  {
    forall i: nat ensures At(View(0, p), Pattern(0), i) <==> Named(p, i) { AtIsNamed(p, i); }
    forall i: nat ensures At(p, Pattern(1), i) <==> Blank(p, i) { AtIsBlank(p, i); }
    forall i: nat ensures At(p, [10], i) <==> i < |p| && p[i] == 10 {
      assert i < |p| ==> p[i..i + 1] == [p[i]];
    }
  }

  // ----- The run -----

  /** `got` is gotheader; the first `n` bytes have been read, the buffer begins at `off`, the
      next search at `done`; `upTo` is what had been read when the length was taken. */
  datatype Pos = Pos(got: nat, n: nat, off: nat, done: nat, upTo: nat)

  datatype Outcome = Found(pos: Pos) | Short(got: nat) | Stuck

  const START := Pos(0, 0, 0, 0, 0)

  predicate Fits(p: seq<byte>, h: nat, pos: Pos) {
    && pos.got <= 2 && pos.off <= pos.done <= pos.n <= |p| <= 2 * h
    && (pos.got == 0 && LengthAt(p) >= 0 ==> pos.done + 15 <= LengthAt(p))
  }

  /** Fewer bytes wait to be searched than the pattern has. */
  predicate Wants(pos: Pos) {
    pos.n - pos.done < |Pattern(pos.got)|
  }

  /** Where the buffer begins after the shift by half a buffer. */
  function Shifted(h: nat, pos: Pos): nat {
    if pos.done - pos.off > h then pos.off + h else pos.off
  }

  /** The reading part of an iteration. */
  function Filled(p: seq<byte>, h: nat, pos: Pos, sizes: seq<nat>): (q: Pos)
    requires pos.n <= |p|
  {
    if Wants(pos) then pos.(n := pos.n + ReadSize(|p| - pos.n, sizes, |p| - pos.n), off := Shifted(h, pos)) else pos
  }

  /** Nothing found: only the last |pattern| - 1 bytes need to be searched again. */
  function Missed(pos: Pos): Pos {
    if pos.n - pos.off < |Pattern(pos.got)| then pos else pos.(done := pos.n - |Pattern(pos.got)| + 1)
  }

  /** The searching part. */
  function Searched(p: seq<byte>, pos: Pos): Pos {
    if pos.got == 0 then
      if !(0 <= LengthAt(p) <= pos.n) then Missed(pos)
      else if !(0 <= LineEnd(p) < pos.n) then pos.(done := pos.off)
      else pos.(got := 1, done := LineEnd(p), upTo := pos.n)
    else
      if Hit(p, Pattern(1), pos.done, pos.n) then pos.(got := 2, done := FirstFrom(p, Pattern(1), pos.done) + 4)
      else Missed(pos)
  }

  function Next(p: seq<byte>, h: nat, pos: Pos, sizes: seq<nat>): Pos
    requires pos.n <= |p|
  {
    Searched(p, Filled(p, h, pos, sizes))
  }

  function Rest(pos: Pos, sizes: seq<nat>): seq<nat> {
    if Wants(pos) then Later(sizes) else sizes
  }

  /** The length is held, but not the end of its line. */
  predicate Held(p: seq<byte>, pos: Pos) {
    pos.got == 0 && 0 <= LengthAt(p) <= pos.n
  }

  /** The header phase on `p`, which is as much as may be read before the header ends, in
      pieces as `sizes` has it; `h` is half the buffer. */
  function RunOf(p: seq<byte>, h: nat, pos: Pos, sizes: seq<nat>): (r: Outcome)
    requires Fits(p, h, pos)
    ensures r.Found? ==> r.pos.got == 2 && Fits(p, h, r.pos)
    decreases 2 - pos.got, |p| - pos.n, pos.n - pos.done
  {
    if pos.got == 2 then Found(pos)
    else if Wants(pos) && pos.n == |p| then Short(pos.got)
    else
      var q := Next(p, h, pos, sizes);
      if Held(p, q) then Stuck else RunOf(p, h, q, Rest(pos, sizes))
  }

  // ----- Runs that get stuck -----

  /** One of the reads ends at `e`, when `n` of `len` bytes have been read. */
  predicate EndsAt(len: nat, n: nat, sizes: seq<nat>, e: nat)
    requires n <= len
    ensures EndsAt(len, n, sizes, e) ==> n < e <= len
    decreases len - n
  {
    var m := ReadSize(len - n, sizes, len - n);
    m > 0 && (n + m == e || EndsAt(len, n + m, Later(sizes), e))
  }

  /** The first `e` bytes have the length, but not the end of its line. */
  predicate Unended(p: seq<byte>, e: nat) {
    0 <= LengthAt(p) <= e && !(0 <= LineEnd(p) < e)
  }

  /** In the length phase each iteration reads. */
  lemma {:induction false} LengthStep(p: seq<byte>, h: nat, pos: Pos, sizes: seq<nat>)
    requires Fits(p, h, pos) && pos.got == 0 && Wants(pos) && !Held(p, pos) && pos.n < |p|
    ensures var q := Next(p, h, pos, sizes);
            && q.n == pos.n + ReadSize(|p| - pos.n, sizes, |p| - pos.n)
            && RunOf(p, h, pos, sizes) == (if Held(p, q) then Stuck else RunOf(p, h, q, Later(sizes)))
            && (Held(p, q) <==> Unended(p, q.n))
            && (q.got == 0 && !Held(p, q) ==> Wants(q) && q == Missed(Filled(p, h, pos, sizes)))
            && (q.got != 0 ==> q == Pos(1, q.n, Shifted(h, pos), LineEnd(p), q.n) && 0 <= LineEnd(p) < q.n)
  {
  }

  lemma {:induction false} NotStuck(p: seq<byte>, h: nat, pos: Pos, sizes: seq<nat>)
    requires Fits(p, h, pos) && pos.got > 0
    ensures RunOf(p, h, pos, sizes) != Stuck
    decreases 2 - pos.got, |p| - pos.n, pos.n - pos.done
  {
    if pos.got < 2 && !(Wants(pos) && pos.n == |p|) {
      NotStuck(p, h, Next(p, h, pos, sizes), Rest(pos, sizes));
    }
  }

  /** Some read ends between the length and the end of its line. */
  ghost predicate EndsBetween(p: seq<byte>, n: nat, sizes: seq<nat>)
    requires n <= |p|
  {
    exists e: nat :: EndsAt(|p|, n, sizes, e) && Unended(p, e)
  }

  lemma EndsBetweenStep(p: seq<byte>, n: nat, sizes: seq<nat>, m: nat)
    requires n < |p| && m == n + ReadSize(|p| - n, sizes, |p| - n)
    ensures EndsBetween(p, n, sizes) <==> Unended(p, m) || EndsBetween(p, m, Later(sizes))
    ensures 0 <= LineEnd(p) < m ==> !EndsBetween(p, m, Later(sizes))
  {
    assert EndsAt(|p|, n, sizes, m);
    forall e: nat ensures EndsAt(|p|, n, sizes, e) <==> e == m || EndsAt(|p|, m, Later(sizes), e) {
    }
  }

  lemma {:induction false} StuckFrom(p: seq<byte>, h: nat, pos: Pos, sizes: seq<nat>)
    requires Fits(p, h, pos) && pos.got == 0 && Wants(pos) && !Held(p, pos)
    ensures RunOf(p, h, pos, sizes) == Stuck <==> EndsBetween(p, pos.n, sizes)
    decreases |p| - pos.n
  {
    if pos.n < |p| {
      LengthStep(p, h, pos, sizes);
      var q := Next(p, h, pos, sizes);
      EndsBetweenStep(p, pos.n, sizes, q.n);
      if q.got != 0 {
        NotStuck(p, h, q, Later(sizes));
      } else if !Held(p, q) {
        StuckFrom(p, h, q, Later(sizes));
      }
    }
  }

  /** A run gets stuck if and only if one of its reads ends between the first Content-length
      and the end of its line. */
  lemma {:induction false} StuckIff(p: seq<byte>, h: nat, sizes: seq<nat>)
    requires |p| <= 2 * h
    ensures RunOf(p, h, START, sizes) == Stuck <==> EndsBetween(p, 0, sizes)
  {
    StuckFrom(p, h, START, sizes);
  }

  predicate GetsStuck(p: seq<byte>, h: nat, sizes: seq<nat>)
    requires |p| <= 2 * h
  {
    RunOf(p, h, START, sizes) == Stuck
  }

  /** Some way of cutting the stream has that effect if and only if the stream has the length
      at all: a first read that ends with it is such a way. */
  lemma SomeStuckIff(p: seq<byte>, h: nat)
    requires |p| <= 2 * h
    ensures (exists sizes: seq<nat> :: GetsStuck(p, h, sizes)) <==> LengthAt(p) >= 0
    ensures LengthAt(p) >= 0 ==> GetsStuck(p, h, [LengthAt(p)])
  {
    forall sizes | GetsStuck(p, h, sizes) ensures LengthAt(p) >= 0 {
      StuckIff(p, h, sizes);
    }
    if LengthAt(p) >= 0 {
      var sizes: seq<nat> := [LengthAt(p)];
      assert EndsAt(|p|, 0, sizes, sizes[0]) && Unended(p, sizes[0]);
      StuckIff(p, h, sizes);
      assert GetsStuck(p, h, sizes);
    }
  }

  // ----- Where the header ends -----

  /** The end of the header that a run has found, or -1. */
  function EndOf(r: Outcome): int {
    if r.Found? then r.pos.done else -1
  }

  /** A search of the first `n` bytes that finds no break has skipped none. */
  lemma NoneSkipped(p: seq<byte>, k: nat, n: nat, later: nat)
    requires k <= later <= n <= |p| && later + 3 <= n && !Hit(p, Pattern(1), k, n)
    ensures HeaderEnd(p, later) == HeaderEnd(p, k)
  {
    NoHit(p, Pattern(1), k, n);
    SkipsNothing(p, Pattern(1), k, later);
  }

  lemma {:induction false} BreakStep(p: seq<byte>, h: nat, pos: Pos, sizes: seq<nat>)
    requires Fits(p, h, pos) && pos.got == 1 && pos.n - pos.done >= 2 && !(Wants(pos) && pos.n == |p|)
    ensures var q := Next(p, h, pos, sizes);
            && RunOf(p, h, pos, sizes) == RunOf(p, h, q, Rest(pos, sizes))
            && (q.got == 2 ==> q.done == HeaderEnd(p, pos.done))
            && (q.got == 1 ==>
                  q.n - q.done >= 3 && pos.done <= q.done && HeaderEnd(p, q.done) == HeaderEnd(p, pos.done))
  {
    var f, q := Filled(p, h, pos, sizes), Next(p, h, pos, sizes);
    if q.got == 1 {
      NoneSkipped(p, pos.done, f.n, q.done);
    }
  }

  /** The search goes on without a gap, unless less than two bytes wait to be searched. */
  lemma {:induction false} BreakFrom(p: seq<byte>, h: nat, pos: Pos, sizes: seq<nat>)
    requires Fits(p, h, pos) && pos.got == 1 && pos.n - pos.done >= 2
    ensures EndOf(RunOf(p, h, pos, sizes)) == HeaderEnd(p, pos.done)
    decreases |p| - pos.n, pos.n - pos.done
  {
    if !(Wants(pos) && pos.n == |p|) {
      BreakStep(p, h, pos, sizes);
      var q := Next(p, h, pos, sizes);
      if q.got == 1 {
        BreakFrom(p, h, q, Rest(pos, sizes));
      }
    }
  }

  /** The buffer has been shifted at most once, and if so, some time ago. */
  predicate Early(h: nat, pos: Pos) {
    pos.off == 0 || (pos.off == h && pos.done > h)
  }

  /** The search for the break begins at the end of the line. It goes back one byte if just
      that byte has been read, and then just one more, unless the shift comes in between and
      leaves fewer than four bytes. */
  lemma {:induction false} BreakAfter(p: seq<byte>, h: nat, pos: Pos, sizes: seq<nat>)
    requires Fits(p, h, pos) && pos.got == 1 && pos.n > pos.done == LineEnd(p)
    requires pos.off == 0 || (pos.off == h && pos.done > h + 1)
    ensures var e: nat := LineEnd(p);
            EndOf(RunOf(p, h, pos, sizes)) ==
              HeaderEnd(p, if pos.n == e + 1 && EndsAt(|p|, e + 1, sizes, e + 2) && e != h + 1 then e - 1 else e)
  {
    var e: nat := LineEnd(p);
    if pos.n > e + 1 {
      BreakFrom(p, h, pos, sizes);
    } else if pos.n < |p| {
      var f, q := Filled(p, h, pos, sizes), Next(p, h, pos, sizes);
      if q.got == 1 {
        if f.n > e + 2 {
          NoneSkipped(p, e, f.n, q.done);
        }
        BreakFrom(p, h, q, Later(sizes));
      }
    }
  }

  lemma {:induction false} EndsAtStep(len: nat, n: nat, sizes: seq<nat>, m: nat, e: nat)
    requires n < len && m == n + ReadSize(len - n, sizes, len - n)
    ensures EndsAt(len, n, sizes, e) <==> e == m || EndsAt(len, m, Later(sizes), e)
  {
  }

  /** One read ends behind `e`, and one just a byte later. */
  predicate Pauses(len: nat, n: nat, sizes: seq<nat>, e: nat)
    requires n <= len
  {
    EndsAt(len, n, sizes, e + 1) && EndsAt(len, n, sizes, e + 2)
  }

  lemma {:induction false} PausesStep(len: nat, n: nat, sizes: seq<nat>, m: nat, e: nat)
    requires n < len && m == n + ReadSize(len - n, sizes, len - n)
    ensures m <= e ==> (Pauses(len, n, sizes, e) <==> Pauses(len, m, Later(sizes), e))
    ensures m > e ==> (Pauses(len, n, sizes, e) <==> m == e + 1 && EndsAt(len, m, Later(sizes), e + 2))
  {
    EndsAtStep(len, n, sizes, m, e + 1);
    EndsAtStep(len, n, sizes, m, e + 2);
  }

  /** Where the header ends for a schedule that does not get stuck. */
  function EndFor(p: seq<byte>, h: nat, n: nat, sizes: seq<nat>): int
    requires n <= |p| && 0 <= LineEnd(p)
  {
    var e: nat := LineEnd(p);
    HeaderEnd(p, if Pauses(|p|, n, sizes, e) && e != h + 1 then e - 1 else e)
  }

  lemma {:induction false} EndFrom(p: seq<byte>, h: nat, pos: Pos, sizes: seq<nat>)
    requires Fits(p, h, pos) && pos.got == 0 && Wants(pos) && pos.n < LengthAt(p) <= LineEnd(p) && Early(h, pos)
    requires RunOf(p, h, pos, sizes) != Stuck
    ensures EndOf(RunOf(p, h, pos, sizes)) == EndFor(p, h, pos.n, sizes)
    decreases |p| - pos.n
  {
    LengthStep(p, h, pos, sizes);
    var q := Next(p, h, pos, sizes);
    PausesStep(|p|, pos.n, sizes, q.n, LineEnd(p));
    if q.got == 0 {
      EndFrom(p, h, q, Later(sizes));
    } else {
      BreakAfter(p, h, q, Later(sizes));
    }
  }

  /** A run that does not get stuck finds the break from the end of the line of the length on,
      or from one byte before it: exactly if one read ends just behind that line, the next a
      byte later, and the line does not end just behind the first half of the buffer. */
  lemma {:induction false} EndIs(p: seq<byte>, h: nat, sizes: seq<nat>)
    requires |p| <= 2 * h && LineEnd(p) >= 0 && !GetsStuck(p, h, sizes)
    ensures EndOf(RunOf(p, h, START, sizes)) == EndFor(p, h, 0, sizes)
  {
    EndFrom(p, h, START, sizes);
  }

  lemma {:induction false} NoLength(p: seq<byte>, h: nat, pos: Pos, sizes: seq<nat>)
    requires Fits(p, h, pos) && pos.got == 0 && Wants(pos) && LengthAt(p) == -1
    ensures RunOf(p, h, pos, sizes) == Short(0)
    decreases |p| - pos.n
  {
    if pos.n < |p| {
      LengthStep(p, h, pos, sizes);
      NoLength(p, h, Next(p, h, pos, sizes), Later(sizes));
    }
  }

  /** All schedules that do not get stuck find the same end of the header. */
  ghost predicate SameEnd(p: seq<byte>, h: nat)
    requires |p| <= 2 * h
  {
    forall a: seq<nat>, b: seq<nat> | !GetsStuck(p, h, a) && !GetsStuck(p, h, b) ::
      EndOf(RunOf(p, h, START, a)) == EndOf(RunOf(p, h, START, b))
  }

  /** A blank line behind the length, which is therefore the last line of the header. */
  predicate LastLine(p: seq<byte>, h: nat) {
    LineEnd(p) >= 0 && At(p, Pattern(1), LineEnd(p) - 1) && LineEnd(p) != h + 1
  }

  /** The schedule that reads everything, and the one that stops at the end of the line. */
  lemma {:induction false} Differ(p: seq<byte>, h: nat, a: seq<nat>, b: seq<nat>)
    requires |p| <= 2 * h && LastLine(p, h) && a == [] && b == [LineEnd(p) + 1, 1]
    ensures !GetsStuck(p, h, a) && !GetsStuck(p, h, b)
    ensures EndOf(RunOf(p, h, START, a)) == HeaderEnd(p, LineEnd(p))
    ensures EndOf(RunOf(p, h, START, b)) == LineEnd(p) + 3
  {
    var e: nat := LineEnd(p);
    StuckIff(p, h, a);
    StuckIff(p, h, b);
    EndsBetweenStep(p, 0, a, |p|);
    EndsBetweenStep(p, 0, b, e + 1);
    EndIs(p, h, a);
    EndIs(p, h, b);
    PausesStep(|p|, 0, a, |p|, e);
    PausesStep(|p|, 0, b, e + 1, e);
    EndsAtStep(|p|, e + 1, Later(b), e + 2, e + 2);
    FirstFromIs(p, Pattern(1), e - 1, e - 1);
  }

  /** The end of the header that is found does not depend on how the reads cut the stream if
      and only if the length is not in the last line of the header. */
  lemma SameEndIff(p: seq<byte>, h: nat)
    requires |p| <= 2 * h
    ensures SameEnd(p, h) <==> !LastLine(p, h)
  {
    if LastLine(p, h) {
      Differ(p, h, [], [LineEnd(p) + 1, 1]);
    } else {
      forall a: seq<nat>, b: seq<nat> | !GetsStuck(p, h, a) && !GetsStuck(p, h, b)
        ensures EndOf(RunOf(p, h, START, a)) == EndOf(RunOf(p, h, START, b))
      {
        OneEnd(p, h, a);
        OneEnd(p, h, b);
      }
    }
  }

  lemma {:induction false} OneEnd(p: seq<byte>, h: nat, sizes: seq<nat>)
    requires |p| <= 2 * h && !LastLine(p, h) && !GetsStuck(p, h, sizes)
    ensures EndOf(RunOf(p, h, START, sizes)) == if LineEnd(p) < 0 then -1 else HeaderEnd(p, LineEnd(p))
  {
    if LengthAt(p) == -1 {
      NoLength(p, h, START, sizes);
    } else if LineEnd(p) == -1 {
      LengthReached(p, h, START, sizes);
    } else {
      EndIs(p, h, sizes);
      var e: nat := LineEnd(p);
      if e != h + 1 {
        assert forall i: nat | e - 1 <= i < e :: !At(p, Pattern(1), i);
        SkipsNothing(p, Pattern(1), e - 1, e);
      }
    }
  }

  /** Without the end of its line every schedule gets stuck at the length. */
  lemma {:induction false} LengthReached(p: seq<byte>, h: nat, pos: Pos, sizes: seq<nat>)
    requires Fits(p, h, pos) && pos.got == 0 && Wants(pos) && pos.n < LengthAt(p) && LineEnd(p) == -1
    ensures RunOf(p, h, pos, sizes) == Stuck
    decreases |p| - pos.n
  {
    LengthStep(p, h, pos, sizes);
    var q := Next(p, h, pos, sizes);
    if !Held(p, q) {
      LengthReached(p, h, q, Later(sizes));
    }
  }
}
