/** When cs_retrieve yields the verdict that checksum.h promises, over every way of cutting
    the stream into reads. */
module ChecksumRuns {
  import opened Bytes
  import opened Hiding
  import opened SocketBuffer
  import opened Checksum
  import Md5Rfc

  /** How much of the message is dropped before the end. */
  function GoneBy(s: seq<byte>, start: seq<byte>, term: seq<byte>, sizes: seq<nat>): nat {
    var (found, k, e, later) := DiscardRun(s, start, 0, 0, 4096, sizes);
    if found then Gone(s[k..], term, 0, e - k, later) else 0
  }

  /** Where the terminator is found in the message, or -1. */
  function TerminatorSeen(s: seq<byte>, start: seq<byte>, term: seq<byte>, i: nat, sizes: seq<nat>): int
    requires i + |start| <= |s|
  {
    FirstFrom(s[i + |start|..], term, GoneBy(s, start, term, sizes))
  }

  /** Where the marker is found in a body. */
  function MarkerSeen(body: seq<byte>, gone: nat): int {
    FirstFrom(body, Marker(), WindowStart(|body|, gone))
  }

  // ----- How much can be dropped -----

  /** How often a buffer of a message of `n` bytes can fill up. */
  function MostDrops(n: nat): (k: nat)
    ensures forall d: nat :: 4032 * d + 64 <= n ==> d <= k
    ensures k == 0 || 4032 * k + 64 <= n
  {
    if n < 64 then 0 else (n - 64) / 4032
  }

  /** The number of the buffer in which a place is dropped. */
  function BufferOf(b: nat): (d: nat)
    ensures 4032 * d <= b < 4032 * d + 4032
  {
    b / 4032
  }

  /** A terminator of `t` bytes lies wholly in the last 64 bytes of an earlier buffer. They are
      searched before anything more is read. */
  predicate Carried(n: nat, t: nat, b: nat) {
    var d := BufferOf(b);
    1 <= d <= MostDrops(n) && b + t <= 4032 * d + 64
  }

  /** No run drops the terminator at `b`. */
  predicate Safe(n: nat, t: nat, b: nat) {
    4032 * MostDrops(n) <= b || Carried(n, t, b)
  }

  /** Safe in other words. */
  lemma SafeIff(n: nat, t: nat, b: nat)
    requires t > 0
    ensures Safe(n, t, b) <==>
      4032 * MostDrops(n) <= b || exists d: nat | 1 <= d <= MostDrops(n) :: 4032 * d <= b && b + t <= 4032 * d + 64
    ensures n <= b + 64 ==> Safe(n, t, b)
  {
    if d: nat :| 1 <= d <= MostDrops(n) && 4032 * d <= b && b + t <= 4032 * d + 64 {
      assert d == BufferOf(b);
    }
  }

  /** The number of drops in the run that drops the most. */
  function TopDrops(n: nat, t: nat, b: nat): nat {
    if Carried(n, t, b) then BufferOf(b) else MostDrops(n)
  }

  /** What follows a drop, or the first read. */
  predicate AfterDrop(msg: seq<byte>, term: seq<byte>, d: nat, e: nat) {
    var k := 4032 * d;
    k <= e <= |msg| && e <= k + 4096 && (d > 0 ==> k + 64 <= e && (e == k + 64 || !Hit(msg, term, k, k + 64)))
  }

  /** When a buffer can fill up before the terminator at `b` is seen. */
  predicate CanFill(n: nat, t: nat, b: nat, d: nat) {
    4032 * d + 4096 <= n && (d > 0 ==> b + t > 4032 * d + 64)
  }

  lemma FillsUntilTop(n: nat, t: nat, b: nat, d: nat)
    requires t > 0 && 4032 * d <= b && d <= TopDrops(n, t, b)
    ensures CanFill(n, t, b, d) <==> d < TopDrops(n, t, b)
    ensures !Safe(n, t, b) ==> CanFill(n, t, b, d)
    ensures Safe(n, t, b) ==> 4032 * TopDrops(n, t, b) <= b
  {
    if b < 4032 * d + 4032 {
      assert d == BufferOf(b);
    }
  }

  lemma {:induction false} HitFirst(msg: seq<byte>, term: seq<byte>, b: nat, k: nat, e: nat)
    requires FirstAt(msg, term, b) && k <= b
    ensures FirstFrom(msg, term, k) == b && (Hit(msg, term, k, e) <==> b + |term| <= e)
  {
    FirstFromIs(msg, term, k, b);
  }

  /** Only a buffer that can fill up does. */
  lemma {:induction false} FilledUp(msg: seq<byte>, term: seq<byte>, b: nat, d: nat, e: nat, sizes: seq<nat>)
    requires FirstAt(msg, term, b) && 4032 * d <= b && AfterDrop(msg, term, d, e)
    requires GetRun(msg, term, 4032 * d, e, 4096, sizes).0 == 4032 * d + 4096
    ensures CanFill(|msg|, |term|, b, d) && AfterDrop(msg, term, d + 1, 4032 * d + 4096)
  {
    HitFirst(msg, term, b, 4032 * d, 4032 * d + 64);
  }

  /** And a buffer that can does, if as much as possible is read. */
  lemma {:induction false} FillsUp(msg: seq<byte>, term: seq<byte>, b: nat, d: nat)
    requires FirstAt(msg, term, b) && term != [] && 4032 * d <= b && CanFill(|msg|, |term|, b, d)
    ensures GetRun(msg, term, 4032 * d, if d == 0 then 0 else 4032 * d + 64, 4096, []) == (4032 * d + 4096, [])
  {
    var k, e := 4032 * d, if d == 0 then 0 else 4032 * d + 64;
    HitFirst(msg, term, b, k, e);
    assert !Hit(msg, term, k, e) && ReadSize(|msg| - e, [], k + 4096 - e) == k + 4096 - e;
    assert GetRun(msg, term, k, k + 4096, 4096, []) == (k + 4096, []);
  }

  lemma {:induction false} GoneStep(msg: seq<byte>, term: seq<byte>, d: nat, e: nat, sizes: seq<nat>)
    requires 4032 * d <= e <= |msg| && e <= 4032 * d + 4096
    ensures var r := GetRun(msg, term, 4032 * d, e, 4096, sizes);
            Gone(msg, term, 4032 * d, e, sizes) ==
            if r.0 == 4032 * d + 4096 then Gone(msg, term, 4032 * (d + 1), r.0, r.1) else 4032 * d
  {
    assert 4032 * (d + 1) == 4032 * d + 4032;
  }

  /** No run gets past a buffer that cannot fill up. */
  lemma {:induction false} GoneAtMost(msg: seq<byte>, term: seq<byte>, b: nat, top: nat, d: nat, e: nat,
                                      sizes: seq<nat>)
    requires FirstAt(msg, term, b) && !CanFill(|msg|, |term|, b, top) && d <= top && 4032 * top <= b
    requires AfterDrop(msg, term, d, e)
    ensures Gone(msg, term, 4032 * d, e, sizes) <= 4032 * top
    decreases top - d
  {
    var r := GetRun(msg, term, 4032 * d, e, 4096, sizes);
    GoneStep(msg, term, d, e, sizes);
    if r.0 == 4032 * d + 4096 {
      FilledUp(msg, term, b, d, e, sizes);
      GoneAtMost(msg, term, b, top, d + 1, r.0, r.1);
    }
  }

  lemma {:induction false} TopIsMost(msg: seq<byte>, term: seq<byte>, b: nat, e: nat, sizes: seq<nat>)
    requires FirstAt(msg, term, b) && term != [] && Safe(|msg|, |term|, b) && e <= |msg| && e <= 4096
    ensures Gone(msg, term, 0, e, sizes) <= 4032 * TopDrops(|msg|, |term|, b) <= b
  {
    var top := TopDrops(|msg|, |term|, b);
    FillsUntilTop(|msg|, |term|, b, 0);
    FillsUntilTop(|msg|, |term|, b, top);
    GoneAtMost(msg, term, b, top, 0, e, sizes);
  }

  /** As much as can be dropped: more than what comes before the terminator, if that is possible. */
  predicate DropsMost(n: nat, t: nat, b: nat, gone: nat) {
    if Safe(n, t, b) then gone == 4032 * TopDrops(n, t, b) else gone > b
  }

  function Begin(d: nat): nat {
    if d == 0 then 0 else 4032 * d + 64
  }

  lemma {:induction false} EndsThere(msg: seq<byte>, term: seq<byte>, b: nat, d: nat)
    requires FirstAt(msg, term, b) && term != [] && 4032 * d <= b && Begin(d) <= |msg| && !CanFill(|msg|, |term|, b, d)
    ensures Gone(msg, term, 4032 * d, Begin(d), []) == 4032 * d
  {
    GoneStep(msg, term, d, Begin(d), []);
    if GetRun(msg, term, 4032 * d, Begin(d), 4096, []).0 == 4032 * d + 4096 {
      FilledUp(msg, term, b, d, Begin(d), []);
    }
  }

  lemma GoesOn(msg: seq<byte>, term: seq<byte>, b: nat, d: nat)
    requires FirstAt(msg, term, b) && term != [] && 4032 * d <= b && CanFill(|msg|, |term|, b, d)
    ensures Begin(d + 1) <= |msg|
    ensures Gone(msg, term, 4032 * d, Begin(d), []) == Gone(msg, term, 4032 * (d + 1), Begin(d + 1), [])
  {
    GoneStep(msg, term, d, Begin(d), []);
    FillsUp(msg, term, b, d);
  }

  /** EndsThere and GoesOn, for what will be gone. */
  lemma NextBuffer(msg: seq<byte>, term: seq<byte>, b: nat, d: nat, gone: nat)
    requires FirstAt(msg, term, b) && term != [] && 4032 * d <= b && Begin(d) <= |msg|
    requires WillGo(gone, msg, term, 4032 * d, Begin(d), [])
    ensures if CanFill(|msg|, |term|, b, d) then Begin(d + 1) <= |msg| && gone >= 4032 * (d + 1)
              && WillGo(gone, msg, term, 4032 * (d + 1), Begin(d + 1), []) else gone == 4032 * d
  {
    assert Detail(0);
    if CanFill(|msg|, |term|, b, d) {
      GoesOn(msg, term, b, d);
    } else {
      EndsThere(msg, term, b, d);
    }
  }

  lemma PastIt(n: nat, t: nat, b: nat, d: nat, gone: nat)
    requires t > 0 && 4032 * d <= b < 4032 * (d + 1) <= gone && d < TopDrops(n, t, b)
    ensures DropsMost(n, t, b, gone)
  {
    FillsUntilTop(n, t, b, d);
  }

  /** Reading as much as possible drops most. */
  lemma {:induction false} GoneAtLeast(msg: seq<byte>, term: seq<byte>, b: nat, d: nat, gone: nat)
    requires FirstAt(msg, term, b) && term != [] && 4032 * d <= b && d <= TopDrops(|msg|, |term|, b)
    requires Begin(d) <= |msg| && WillGo(gone, msg, term, 4032 * d, Begin(d), [])
    ensures DropsMost(|msg|, |term|, b, gone)
    decreases |msg| - 4032 * d
  {
    FillsUntilTop(|msg|, |term|, b, d);
    NextBuffer(msg, term, b, d, gone);
    if CanFill(|msg|, |term|, b, d) {
      if 4032 * (d + 1) <= b {
        GoneAtLeast(msg, term, b, d + 1, gone);
      } else {
        PastIt(|msg|, |term|, b, d, gone);
      }
    }
  }

  // ----- The first message -----

  /** The end of the pattern is read byte by byte. */
  lemma {:induction false} DiscardReads(all: seq<byte>, pat: seq<byte>, k: nat, e: nat, len: nat, m: nat)
    requires k <= e <= k + |pat| <= |all| && |pat| <= len && m >= k + |pat| - e
    ensures DiscardRun(all, pat, k, e, len, Ones(m)) ==
            DiscardRun(all, pat, k, k + |pat|, len, Ones(m - (k + |pat| - e)))
    decreases |all| - e
  {
    if e < k + |pat| {
      OneByOne(|all| - e, m, k + len - e);
      DiscardReads(all, pat, k, e + 1, len, m - 1);
    }
  }

  lemma DiscardMisses(all: seq<byte>, pat: seq<byte>, k: nat, len: nat, m: nat)
    requires k + |pat| < |all| && |pat| <= len && m > 0 && !Hit(all, pat, k, k + |pat|)
    ensures DiscardRun(all, pat, k, k + |pat|, len, Ones(m)) ==
            DiscardRun(all, pat, k + 1, k + 1 + |pat|, len, Ones(m - 1))
  {
    NoHit(all, pat, k, k + |pat|);
    DiscardReads(all, pat, k + 1, k + |pat|, len, m);
  }

  /** So sb_discard ends with an empty buffer. */
  lemma {:induction false} DiscardByOnes(all: seq<byte>, pat: seq<byte>, i: nat, k: nat, len: nat)
    requires FirstAt(all, pat, i) && |pat| <= len && k <= i
    ensures DiscardRun(all, pat, k, k + |pat|, len, Ones(i - k)) == (true, i + |pat|, i + |pat|, [])
    decreases i - k
  {
    HitFirst(all, pat, i, k, k + |pat|);
    if k < i {
      DiscardMisses(all, pat, k, len, i - k);
      DiscardByOnes(all, pat, i, k + 1, len);
    } else {
      assert Ones(0) == [];
    }
  }

  lemma {:induction false} EmptyAfterStart(s: seq<byte>, start: seq<byte>, i: nat)
    requires FirstAt(s, start, i) && |start| <= 4096
    ensures DiscardRun(s, start, 0, 0, 4096, Ones(i + |start|)) == (true, i + |start|, i + |start|, [])
  {
    DiscardReads(s, start, 0, 0, 4096, i + |start|);
    DiscardByOnes(s, start, i, 0, 4096);
  }

  // ----- The theorems -----

  /** The message begins behind the first `start`, however the stream is cut. */
  lemma {:induction false} MessageOf(s: seq<byte>, start: seq<byte>, i: nat, sizes: seq<nat>)
    requires FirstAt(s, start, i) && |start| <= 4096
    ensures var r := DiscardRun(s, start, 0, 0, 4096, sizes);
            r.0 && r.1 == i + |start| && r.2 - r.1 < 4096
  {
    DiscardEnds(s, start, sizes);
    assert At(s, start, i);
  }

  lemma GoneByRun(s: seq<byte>, start: seq<byte>, term: seq<byte>, i: nat, sizes: seq<nat>)
      returns (e: nat, later: seq<nat>)
    requires FirstAt(s, start, i) && |start| <= 4096
    ensures e <= |s[i + |start|..]| && e < 4096
    ensures GoneBy(s, start, term, sizes) == Gone(s[i + |start|..], term, 0, e, later)
  {
    var r := DiscardRun(s, start, 0, 0, 4096, sizes);
    MessageOf(s, start, i, sizes);
    e, later := r.2 - r.1, r.3;
  }

  lemma GoneIs(s: seq<byte>, start: seq<byte>, term: seq<byte>, i: nat, b: nat, sizes: seq<nat>)
    requires FirstAt(s, start, i) && |start| <= 4096 && term != [] && FirstAt(s[i + |start|..], term, b)
    requires Safe(|s| - i - |start|, |term|, b)
    ensures GoneBy(s, start, term, sizes) <= 4032 * TopDrops(|s| - i - |start|, |term|, b) <= b
  {
    var e, later := GoneByRun(s, start, term, i, sizes);
    TopIsMost(s[i + |start|..], term, b, e, later);
  }

  /** The schedule that drops most: byte by byte to the end of the start, and then as much as
      possible. */
  lemma Greedy(s: seq<byte>, start: seq<byte>, term: seq<byte>, i: nat, b: nat)
    requires FirstAt(s, start, i) && |start| <= 4096 && term != [] && FirstAt(s[i + |start|..], term, b)
    ensures DropsMost(|s| - i - |start|, |term|, b, GoneBy(s, start, term, Ones(i + |start|)))
  {
    EmptyAfterStart(s, start, i);
    var gone := GoneBy(s, start, term, Ones(i + |start|));
    assert WillGo(gone, s[i + |start|..], term, 0, 0, []);
    GoneAtLeast(s[i + |start|..], term, b, 0, gone);
  }

  /** Every way of cutting the stream finds the first terminator if and only if it is not
      dropped by the greedy one: the buffers that can fill up end before it, or it lies in
      the 64 bytes one of them hands on. */
  lemma TerminatorFoundIff(s: seq<byte>, start: seq<byte>, term: seq<byte>, i: nat, b: nat)
    requires FirstAt(s, start, i) && |start| <= 4096 && term != [] && FirstAt(s[i + |start|..], term, b)
    ensures (forall sizes :: TerminatorSeen(s, start, term, i, sizes) == b) <==> Safe(|s| - i - |start|, |term|, b)
    ensures !Safe(|s| - i - |start|, |term|, b) ==> TerminatorSeen(s, start, term, i, Ones(i + |start|)) != b
  {
    var msg := s[i + |start|..];
    if Safe(|msg|, |term|, b) {
      forall sizes ensures TerminatorSeen(s, start, term, i, sizes) == b {
        GoneIs(s, start, term, i, b, sizes);
        FirstFromIs(msg, term, GoneBy(s, start, term, sizes), b);
      }
    } else {
      Greedy(s, start, term, i, b);
      assert TerminatorSeen(s, start, term, i, Ones(i + |start|)) != b;
    }
  }

  /** If so, every way of cutting it uses the first marker of the body if and only if none
      begins before the last 64 bytes of it, or in what the greedy way drops. */
  lemma MarkerFirstIff(s: seq<byte>, start: seq<byte>, term: seq<byte>, i: nat, b: nat)
    requires FirstAt(s, start, i) && |start| <= 4096 && term != [] && FirstAt(s[i + |start|..], term, b)
    requires Safe(|s| - i - |start|, |term|, b)
    ensures var n, body := |s| - i - |start|, s[i + |start|..][..b];
            (forall sizes :: MarkerSeen(body, GoneBy(s, start, term, sizes)) == FirstFrom(body, Marker(), 0))
            <==> forall j: nat | j < WindowStart(b, 4032 * TopDrops(n, |term|, b)) :: !At(body, Marker(), j)
  {
    var n, body := |s| - i - |start|, s[i + |start|..][..b];
    var top := 4032 * TopDrops(n, |term|, b);
    SkipsNothing(body, Marker(), 0, WindowStart(b, top));
    if forall j: nat | j < WindowStart(b, top) :: !At(body, Marker(), j) {
      forall sizes ensures MarkerSeen(body, GoneBy(s, start, term, sizes)) == FirstFrom(body, Marker(), 0) {
        GoneIs(s, start, term, i, b, sizes);
        SkipsNothing(body, Marker(), 0, WindowStart(b, GoneBy(s, start, term, sizes)));
      }
    } else {
      Greedy(s, start, term, i, b);
      assert MarkerSeen(body, GoneBy(s, start, term, Ones(i + |start|))) != FirstFrom(body, Marker(), 0);
    }
  }

  /** In both cases every way of cutting the stream yields the promised verdict. */
  lemma VerdictPromised(tagOf: Tagger, s: seq<byte>, start: seq<byte>, term: seq<byte>, i: nat, b: nat, sizes: seq<nat>)
    requires FirstAt(s, start, i) && |start| <= 4096 && term != [] && FirstAt(s[i + |start|..], term, b)
    requires Safe(|s| - i - |start|, |term|, b)
    requires var n, body := |s| - i - |start|, s[i + |start|..][..b];
             forall j: nat | j < WindowStart(b, 4032 * TopDrops(n, |term|, b)) :: !At(body, Marker(), j)
    ensures Result(tagOf, s, start, term, sizes) == Promised(tagOf, s[i + |start|..][..b])
  {
    MessageOf(s, start, i, sizes);
    TerminatorFoundIff(s, start, term, i, b);
    MarkerFirstIff(s, start, term, i, b);
    var body := s[i + |start|..][..b];
    assert TerminatorSeen(s, start, term, i, sizes) == b;
    assert MarkerSeen(body, GoneBy(s, start, term, sizes)) == FirstFrom(body, Marker(), 0);
  }

  /** A message that does not fill the buffer is judged by the first marker in the last 64 bytes of
      its body, under every schedule. */
  lemma ShortMessage(tagOf: Tagger, s: seq<byte>, start: seq<byte>, term: seq<byte>, i: nat, b: nat, sizes: seq<nat>)
    requires FirstAt(s, start, i) && |start| <= 4096 && term != [] && FirstAt(s[i + |start|..], term, b)
    requires |s| - i - |start| < 4096
    ensures Result(tagOf, s, start, term, sizes) ==
            VerdictFrom(tagOf, s[i + |start|..][..b], if b < 64 then 0 else b - 64)
  {
    var msg := s[i + |start|..];
    var e, later := GoneByRun(s, start, term, i, sizes);
    MessageOf(s, start, i, sizes);
    GoneAtMost(msg, term, b, 0, 0, e, later);
    FirstFromIs(msg, term, 0, b);
  }

  lemma NeverTerminated(tagOf: Tagger, s: seq<byte>, start: seq<byte>, term: seq<byte>, i: nat, sizes: seq<nat>)
    requires FirstAt(s, start, i) && |start| <= 4096 && !Occurs(s[i + |start|..], term)
    ensures Result(tagOf, s, start, term, sizes) == 2
  {
    MessageOf(s, start, i, sizes);
  }

  /** At most 64 bytes from the terminator on: the window always holds the last 64 bytes of
      body and terminator. */
  lemma NearTheEnd(n: nat, t: nat, b: nat)
    requires t > 0 && b + t <= n <= b + 64
    ensures Safe(n, t, b) && (n <= 64 || WindowStart(b, 4032 * TopDrops(n, t, b)) <= n - 64)
    ensures n <= 64 ==> WindowStart(b, 4032 * TopDrops(n, t, b)) == 0
  {
    SafeIff(n, t, b);
  }

  /** A message without a marker, and with a terminator that is not dropped, has no checksum. */
  lemma Untagged(tagOf: Tagger, s: seq<byte>, start: seq<byte>, term: seq<byte>, i: nat, b: nat, sizes: seq<nat>)
    requires FirstAt(s, start, i) && |start| <= 4096 && term != [] && FirstAt(s[i + |start|..], term, b)
    requires Safe(|s| - i - |start|, |term|, b) && !Occurs(s[i + |start|..][..b], Marker())
    ensures Result(tagOf, s, start, term, sizes) == 2
  {
    VerdictPromised(tagOf, s, start, term, i, b, sizes);
  }

  /** What follows the marker is "MD5=" and the digits of the digest, with anything behind them. */
  ghost predicate Carries(tail: seq<byte>, d: seq<byte>)
    requires |d| == 16
  {
    |tail| >= 36 && tail[..4] == [77, 68, 53, 61] && Spells(tail[4..36], d)
  }

  lemma CarriesIff(tail: seq<byte>, d: seq<byte>)
    requires |d| == 16
    ensures Carries(tail, d) <==> Tag(d) <= [13, 10, 61, 67, 83, 61] + tail
  {
    var mark: seq<byte> := [13, 10, 61, 67, 83, 61];
    if |tail| >= 36 {
      var head := mark + tail[..36];
      assert head == (mark + tail)[..42] && head[..6] == mark && head[6..10] == tail[..4] && head[10..] == tail[4..36];
      RightTagIff(head, d);
    }
  }

  /** A marked body without an earlier marker is valid exactly if it carries the digest of its text. */
  lemma ValidIff(text: seq<byte>, tail: seq<byte>)
    requires forall i: nat | i < |text| :: !At(text + [13, 10, 61, 67, 83, 61] + tail, [13, 10, 61, 67, 83, 61], i)
    ensures Promised(TagOf, text + [13, 10, 61, 67, 83, 61] + tail) ==
            if Carries(tail, Md5Rfc.Digest(text)) then 1 else 0
  {
    var mark: seq<byte> := [13, 10, 61, 67, 83, 61];
    var body := text + mark + tail;
    assert body[|text|..|text| + 6] == mark;
    FirstFromIs(body, Marker(), 0, |text|);
    assert body[..|text|] == text && body[|text|..] == mark + tail;
    CarriesIff(tail, Md5Rfc.Digest(text));
  }

  /** A tag and a terminator of at most 64 bytes are held back together. */
  lemma HeldBack(tagOf: Tagger, s: seq<byte>, start: seq<byte>, term: seq<byte>, i: nat,
                 text: seq<byte>, tag: seq<byte>, sizes: seq<nat>)
    requires |start| <= 4096 && FirstAt(s, start, i) && term != [] && |tag| + |term| <= 64
    requires s[i + |start|..] == text + tag + term && FirstAt(text + tag + term, term, |text| + |tag|)
    requires forall j: nat | j < |text| :: !At(text + tag, Marker(), j)
    ensures Result(tagOf, s, start, term, sizes) == Promised(tagOf, text + tag)
  {
    var b := |text| + |tag|;
    assert s[i + |start|..][..b] == text + tag;
    NearTheEnd(|s| - i - |start|, |term|, b);
    VerdictPromised(tagOf, s, start, term, i, b, sizes);
  }

  /** A stream that holds a marked message: every way of cutting it yields 1 if "MD5=" and the
      digits of the digest of the text follow the marker, and 0 if not. */
  lemma TaggedMessage(s: seq<byte>, start: seq<byte>, term: seq<byte>, i: nat,
                      text: seq<byte>, tail: seq<byte>, sizes: seq<nat>)
    requires |start| <= 4096 && FirstAt(s, start, i) && term != [] && |tail| + |term| <= 58
    requires var body := text + [13, 10, 61, 67, 83, 61] + tail;
             && s[i + |start|..] == body + term && FirstAt(body + term, term, |body|)
             && forall j: nat | j < |text| :: !At(body, [13, 10, 61, 67, 83, 61], j)
    ensures Result(TagOf, s, start, term, sizes) == if Carries(tail, Md5Rfc.Digest(text)) then 1 else 0
  {
    var tag := [13, 10, 61, 67, 83, 61] + tail;
    assert text + [13, 10, 61, 67, 83, 61] + tail == text + tag;
    HeldBack(TagOf, s, start, term, i, text, tag, sizes);
    ValidIff(text, tail);
  }
}
