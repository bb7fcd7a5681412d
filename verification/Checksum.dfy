/** The message checksum of checksum.c: a tag at the end of the body, looked for in the
    last bytes before the terminator while everything earlier is hashed as it streams by. */
module Checksum {
  import opened Bytes
  import opened Hiding
  import opened SocketBuffer
  import Md5
  import Md5Rfc

  // ----- The tag -----

  /** CS_MARKER */
  function Marker(): (m: seq<byte>)
    ensures |m| == 6
  {
    [13, 10, 61, 67, 83, 61]
  }

  function HexDigit(n: nat): byte
    requires n < 16
  {
    if n < 10 then 48 + n else 87 + n
  }

  /** The digest as four little-endian words of eight hexadecimal digits each. */
  function Hex(d: seq<byte>): (h: seq<byte>)
    requires |d| == 16
    ensures |h| == 32
  {
    seq(32, i requires 0 <= i < 32 =>
      var b: int := d[i / 8 * 4 + 3 - i % 8 / 2];
      HexDigit(if i % 2 == 0 then b / 16 else b % 16))
  }

  function Tag(d: seq<byte>): (t: seq<byte>)
    requires |d| == 16
    ensures |t| == 42 && t[..6] == Marker()
  {
    Marker() + [77, 68, 53, 61] + Hex(d)
  }

  lemma HexOfByte(d: seq<byte>, i: nat)
    requires |d| == 16 && i < 16
    ensures var k := i / 4 * 8 + (3 - i % 4) * 2;
            Hex(d)[k] == HexDigit(d[i] as int / 16) && Hex(d)[k + 1] == HexDigit(d[i] as int % 16)
  {
    var k := i / 4 * 8 + (3 - i % 4) * 2;
    assert k / 8 == i / 4 == (k + 1) / 8 && k % 8 == (3 - i % 4) * 2 == (k + 1) % 8 - 1;
  }

  /** Tags of different digests differ. */
  lemma TagInjective(d: seq<byte>, e: seq<byte>)
    requires |d| == 16 && |e| == 16 && Tag(d) == Tag(e)
    ensures d == e
  {
    assert Hex(d) == Tag(d)[10..] == Tag(e)[10..] == Hex(e);
    forall i | 0 <= i < 16 ensures d[i] == e[i] {
      HexOfByte(d, i);
      HexOfByte(e, i);
    }
  }

  // ----- What a right tag reads -----

  /** What a character counts as a lower-case hexadecimal digit, or -1. */
  function DigitValue(c: byte): int {
    if '0' as int <= c <= '9' as int then c - '0' as int
    else if 'a' as int <= c <= 'f' as int then 10 + (c - 'a' as int) else -1
  }

  ghost predicate Digits(h: seq<byte>) {
    forall i | 0 <= i < |h| :: DigitValue(h[i]) >= 0
  }

  /** A hexadecimal number, most significant digit first. */
  function Number(h: seq<byte>): int {
    if h == [] then 0 else 16 * Number(h[..|h| - 1]) + DigitValue(h[|h| - 1])
  }

  /** The j-th word of the digest, low-order byte first. */
  function DigestWord(d: seq<byte>, j: nat): int
    requires |d| == 16 && j < 4
  {
    d[4 * j] as int + 0x100 * d[4 * j + 1] as int + 0x1_0000 * d[4 * j + 2] as int + 0x100_0000 * d[4 * j + 3] as int
  }

  /** 32 digits that read, eight at a time, as the words of the digest. */
  ghost predicate Spells(h: seq<byte>, d: seq<byte>)
    requires |d| == 16
  {
    |h| == 32 && Digits(h) && forall j: nat | j < 4 :: Number(h[8 * j..8 * j + 8]) == DigestWord(d, j)
  }

  lemma {:induction false} TwoDigits(h: seq<byte>, b: byte)
    ensures Number(h + [HexDigit(b / 16), HexDigit(b % 16)]) == 256 * Number(h) + b
  {
    var one, two := h + [HexDigit(b / 16)], h + [HexDigit(b / 16), HexDigit(b % 16)];
    assert two[..|two| - 1] == one && one[..|one| - 1] == h;
  }

  lemma {:induction false} EightDigits(b3: byte, b2: byte, b1: byte, b0: byte, h: seq<byte>)
    requires h == [HexDigit(b3 / 16), HexDigit(b3 % 16)] + [HexDigit(b2 / 16), HexDigit(b2 % 16)]
                  + [HexDigit(b1 / 16), HexDigit(b1 % 16)] + [HexDigit(b0 / 16), HexDigit(b0 % 16)]
    ensures Number(h) == b0 as int + 0x100 * b1 as int + 0x1_0000 * b2 as int + 0x100_0000 * b3 as int
  {
    var h1 := [HexDigit(b3 / 16), HexDigit(b3 % 16)];
    var h2 := h1 + [HexDigit(b2 / 16), HexDigit(b2 % 16)];
    var h3 := h2 + [HexDigit(b1 / 16), HexDigit(b1 % 16)];
    assert [] + h1 == h1;
    TwoDigits([], b3);
    TwoDigits(h1, b2);
    TwoDigits(h2, b1);
    TwoDigits(h3, b0);
  }

  lemma PairSpelled(d: seq<byte>, j: nat, r: nat)
    requires |d| == 16 && j < 4 && r < 4
    ensures var b: int, k := d[4 * j + r], 8 * j + 6 - 2 * r;
            Hex(d)[k..k + 2] == [HexDigit(b / 16), HexDigit(b % 16)]
  {
    HexOfByte(d, 4 * j + r);
    assert (4 * j + r) / 4 == j && (4 * j + r) % 4 == r;
  }

  lemma FourPairs(h: seq<byte>, k: nat)
    requires k + 8 <= |h|
    ensures h[k..k + 8] == h[k..k + 2] + h[k + 2..k + 4] + h[k + 4..k + 6] + h[k + 6..k + 8]
  {
    assert h[k..k + 4] == h[k..k + 2] + h[k + 2..k + 4];
    assert h[k..k + 6] == h[k..k + 4] + h[k + 4..k + 6];
    assert h[k..k + 8] == h[k..k + 6] + h[k + 6..k + 8];
  }

  lemma WordSpelled(d: seq<byte>, j: nat)
    requires |d| == 16 && j < 4
    ensures Number(Hex(d)[8 * j..8 * j + 8]) == DigestWord(d, j)
  {
    PairSpelled(d, j, 0);
    PairSpelled(d, j, 1);
    PairSpelled(d, j, 2);
    PairSpelled(d, j, 3);
    FourPairs(Hex(d), 8 * j);
    EightDigits(d[4 * j + 3], d[4 * j + 2], d[4 * j + 1], d[4 * j], Hex(d)[8 * j..8 * j + 8]);
  }

  lemma SameLast(a: int, b: int, x: byte, y: byte)
    requires DigitValue(x) >= 0 && DigitValue(y) >= 0 && 16 * a + DigitValue(x) == 16 * b + DigitValue(y)
    ensures a == b && x == y
  {
  }

  lemma {:induction false} SameNumber(g: seq<byte>, h: seq<byte>)
    requires |g| == |h| && Digits(g) && Digits(h) && Number(g) == Number(h)
    ensures g == h
  {
    if g != [] {
      var n := |g| - 1;
      SameLast(Number(g[..n]), Number(h[..n]), g[n], h[n]);
      SameNumber(g[..n], h[..n]);
      assert g == g[..n] + [g[n]] && h == h[..n] + [h[n]];
    }
  }

  lemma HexIsDigits(d: seq<byte>)
    requires |d| == 16
    ensures Digits(Hex(d))
  {
  }

  lemma SameWord(h: seq<byte>, d: seq<byte>, j: nat)
    requires |d| == 16 && Spells(h, d) && j < 4
    ensures h[8 * j..8 * j + 8] == Hex(d)[8 * j..8 * j + 8]
  {
    HexIsDigits(d);
    WordSpelled(d, j);
    SameNumber(h[8 * j..8 * j + 8], Hex(d)[8 * j..8 * j + 8]);
  }

  lemma FourWords(h: seq<byte>)
    requires |h| == 32
    ensures h == h[0..8] + h[8..16] + h[16..24] + h[24..32]
  {
  }

  /** The digits of the tag are the only ones that read so. */
  lemma SpellsIff(h: seq<byte>, d: seq<byte>)
    requires |d| == 16
    ensures Spells(h, d) <==> h == Hex(d)
  {
    if Spells(h, d) {
      SameWord(h, d, 0);
      SameWord(h, d, 1);
      SameWord(h, d, 2);
      SameWord(h, d, 3);
      FourWords(h);
      FourWords(Hex(d));
    } else {
      HexIsDigits(d);
      forall j: nat | j < 4 ensures Number(Hex(d)[8 * j..8 * j + 8]) == DigestWord(d, j) {
        WordSpelled(d, j);
      }
    }
  }

  /** A line end, "=CS=", "MD5=" and the 32 digits of the digest. */
  ghost predicate RightTag(t: seq<byte>, d: seq<byte>)
    requires |d| == 16
  {
    |t| == 42 && t[..6] == [13, 10, 61, 67, 83, 61] && t[6..10] == [77, 68, 53, 61] && Spells(t[10..], d)
  }

  lemma RightTagIff(t: seq<byte>, d: seq<byte>)
    requires |d| == 16
    ensures RightTag(t, d) <==> t == Tag(d)
  {
    if |t| == 42 {
      SpellsIff(t[10..], d);
      assert t == t[..6] + t[6..10] + t[10..];
      assert Tag(d)[6..10] == [77, 68, 53, 61] && Tag(d)[10..] == Hex(d);
    }
  }

  type Tagger = seq<byte> -> seq<byte>

  /** The tag a body should carry. */
  function TagOf(body: seq<byte>): seq<byte> {
    Tag(Md5Rfc.Digest(body))
  }

  lemma TagsAgree(f: (Md5Rfc.State, seq<byte>) -> Md5Rfc.State)
    requires f == Md5Rfc.Compress
    ensures forall m: seq<byte> {:trigger TagOf(m)} :: TagOf(m) == Tag(Md5Rfc.DigestWith(f, m))
  {
  }

  // ----- What the verdict should be -----

  /** The body is checked against the tag at the first marker from `from` on: 1 for a valid
      one, 0 for an invalid one, 2 for none. */
  function VerdictFrom(tagOf: Tagger, body: seq<byte>, from: nat): int {
    var p := FirstFrom(body, Marker(), from);
    if p == -1 then 2 else if tagOf(body[..p]) <= body[p..] then 1 else 0
  }

  /** As checksum.h puts it: at the first marker. */
  function Promised(tagOf: Tagger, body: seq<byte>): int {
    VerdictFrom(tagOf, body, 0)
  }

  // ----- What the window leaves of it -----

  /** Where the search for the marker begins when `gone` bytes have been dropped. */
  function WindowStart(b: nat, gone: nat): nat {
    if gone + 64 <= b then b - 64 else gone
  }

  /** The outcome if the terminator is first looked for in vain until `gone` bytes are gone. */
  function Outcome(tagOf: Tagger, msg: seq<byte>, term: seq<byte>, gone: nat): int {
    var b := FirstFrom(msg, term, gone);
    if b == -1 then 2 else VerdictFrom(tagOf, msg[..b], WindowStart(b, gone))
  }

  /** How much is dropped when the buffer holds `msg[k..e]`: all but the last 64 bytes of each
      buffer that fills up before a terminator has been seen in it. */
  function Gone(msg: seq<byte>, term: seq<byte>, k: nat, e: nat, sizes: seq<nat>): (g: nat)
    requires k <= e <= |msg| && e <= k + 4096
    ensures k <= g <= |msg|
    decreases |msg| - k
  {
    var (e1, later) := GetRun(msg, term, k, e, 4096, sizes);
    if e1 == k + 4096 then Gone(msg, term, k + 4032, e1, later) else k
  }

  /** What cs_retrieve makes of a stream that is cut as `sizes` has it. */
  function Result(tagOf: Tagger, s: seq<byte>, start: seq<byte>, term: seq<byte>, sizes: seq<nat>): int {
    var (found, k, e, later) := DiscardRun(s, start, 0, 0, 4096, sizes);
    if !found then -1 else Outcome(tagOf, s[k..], term, Gone(s[k..], term, 0, e - k, later))
  }

  // ----- The code -----

  /** struct checksum_t, whose only type is MD5. */
  class State {
    const md5: Md5.Context
    ghost const tagOf: Tagger

    ghost predicate Represents()
      reads md5, md5.block
    {
      md5.Valid() && forall m: seq<byte> {:trigger tagOf(m)} :: tagOf(m) == Tag(Md5Rfc.DigestWith(md5.f, m))
    }

    /** Represents, spelled out only where Detail is mentioned. */
    ghost predicate Valid()
      reads md5, md5.block
    {
      forall k: nat {:trigger Detail(k)} | Detail(k) :: Represents()
    }

    /** What has been summed. */
    ghost function Seen(): seq<byte>
      reads md5`seen
    {
      md5.seen
    }

    /** cs_begin */
    constructor (width: nat)
      requires width >= 32
      ensures Valid() && Seen() == [] && tagOf == TagOf && fresh(md5) && fresh(md5.block)
    {
      md5 := new Md5.Context(width);
      tagOf := TagOf;
      new;
      TagsAgree(md5.f);
    }

    /** cs_data */
    method Data(piece: seq<byte>)
      requires Valid() && |piece| <= 4096
      modifies md5, md5.block
      ensures Valid() && Seen() == old(Seen()) + piece
    {
      assert Detail(0);
      md5.Update(piece);
    }

    /** cs_end */
    method End() returns (tag: seq<byte>)
      requires Valid()
      modifies md5, md5.block
      ensures tag == tagOf(old(Seen()))
      ensures tagOf == TagOf ==> RightTag(tag, Md5Rfc.Digest(old(Seen())))
    {
      RightTagIff(TagOf(Seen()), Md5Rfc.Digest(Seen()));
      assert Detail(0);
      var d := md5.Final();
      tag := Tag(d);
    }

    /** The last piece, and the tag. */
    method Finish(piece: seq<byte>) returns (tag: seq<byte>)
      requires Valid() && |piece| <= 4096
      modifies md5, md5.block
      ensures tag == tagOf(old(Seen()) + piece)
    {
      Data(piece);
      tag := End();
    }
  }

  /** The end of cs_retrieve: `live` is what the buffer holds of the body. */
  method Check(live: seq<byte>, c: State, ghost body: seq<byte>, ghost skipped: nat) returns (r: int)
    requires c.Valid()
    requires skipped <= |body| && live == body[skipped..] && c.Seen() == body[..skipped] && |live| <= 4096
    modifies c.md5, c.md5.block
    ensures r == VerdictFrom(c.tagOf, body, WindowStart(|body|, skipped))
  {
    var p := Find(live, Marker(), if |live| < 64 then 0 else |live| - 64);
    ghost var from := WindowStart(|body|, skipped);
    MarkerInTail(body, skipped, live, from - skipped, p);
    if p == -1 {
      return 2;
    }
    var tag := c.Finish(live[..p]);
    assert body[..skipped] + live[..p] == body[..skipped + p];
    assert live[p..] == body[skipped + p..];
    r := if tag <= live[p..] then 1 else 0;
  }

  /** Sums the first `n` bytes of the buffer and drops them. */
  method Skip(sb: Buffer, c: State, n: nat)
    requires sb.Valid() && sb.len == 4096 && n < sb.data && c.Valid() && c.md5.block != sb.buf
    modifies sb, sb.sock, sb.buf, c.md5, c.md5.block
    ensures sb.Valid() && c.Valid()
    ensures sb.Remaining() == old(sb.Remaining())[n..] && c.Seen() == old(c.Seen()) + old(sb.Remaining())[..n]
    ensures sb.data == old(sb.data) - n && sb.sock.sizes == old(sb.sock.sizes)
  {
    assert sb.buf[..n] == sb.Remaining()[..n];
    c.Data(sb.buf[..n]);
    sb.DiscardN(n);
  }

  lemma MarkerInTail(body: seq<byte>, k: nat, live: seq<byte>, from: nat, p: int)
    requires k <= |body| && live == body[k..] && (p == -1 || from <= p)
    requires p == -1 ==> forall i: nat | from <= i :: !At(live, Marker(), i)
    requires p >= 0 ==> At(live, Marker(), p) && forall i: nat | from <= i < p :: !At(live, Marker(), i)
    ensures FirstFrom(body, Marker(), k + from) == if p == -1 then -1 else k + p
  {
    FoundInTail(body, Marker(), k, live, from, p);
  }

  lemma NoTerminator(tagOf: Tagger, msg: seq<byte>, term: seq<byte>, k: nat)
    requires k <= |msg| && !Occurs(msg[k..], term)
    ensures Outcome(tagOf, msg, term, k) == 2
  {
    FoundInTail(msg, term, k, msg[k..], 0, -1);
  }

  lemma TerminatorAt(tagOf: Tagger, msg: seq<byte>, term: seq<byte>, k: nat, n: nat)
    requires k + n <= |msg| && FirstAt(msg[k..], term, n)
    ensures Outcome(tagOf, msg, term, k) == VerdictFrom(tagOf, msg[..k + n], WindowStart(k + n, k))
  {
    FoundInTail(msg, term, k, msg[k..], 0, n);
  }

  /** The run of a search does not depend on what is gone. */
  lemma {:induction false} GetShift(msg: seq<byte>, pat: seq<byte>, k: nat, e: nat, len: nat, sizes: seq<nat>)
    requires k <= e <= |msg| && e <= k + len
    ensures var r := GetRun(msg, pat, k, e, len, sizes);
            GetRun(msg[k..], pat, 0, e - k, len, sizes) == (r.0 - k, r.1)
    decreases |msg| - e
  {
    FoundInTail(msg, pat, k, msg[k..], 0, FirstFrom(msg[k..], pat, 0));
    assert Hit(msg[k..], pat, 0, e - k) <==> Hit(msg, pat, k, e);
    var n := ReadSize(|msg| - e, sizes, k + len - e);
    if !Hit(msg, pat, k, e) && n > 0 {
      GetShift(msg, pat, k, e + n, len, Later(sizes));
    }
  }

  /** The terminator has been found `nread` bytes into the buffer. */
  method Conclude(sb: Buffer, c: State, term: seq<byte>, nread: nat, ghost msg: seq<byte>, ghost k: nat)
    returns (r: int)
    requires sb.Valid() && sb.len == 4096 && c.Valid() && nread <= sb.data && c.md5.block != sb.buf
    requires k <= |msg| && sb.Remaining() == msg[k..] && c.Seen() == msg[..k] && FirstAt(sb.Remaining(), term, nread)
    modifies c.md5, c.md5.block
    ensures r == Outcome(c.tagOf, msg, term, k)
  {
    LiveIsNext(msg, k, sb.Remaining(), sb.buf[..sb.data], nread);
    ghost var body := msg[..k + nread];
    r := Check(sb.buf[..nread], c, body, k);
    TerminatorAt(c.tagOf, msg, term, k, nread);
  }

  /** An empty terminator is found without reading. */
  lemma {:induction false} EmptyRun(msg: seq<byte>, term: seq<byte>, k: nat, e: nat, len: nat, sizes: seq<nat>)
    requires term == [] && k <= e <= |msg| && e <= k + len
    ensures GetRun(msg, term, k, e, len, sizes) == (e, sizes)
  {
    FirstFromIs(msg, term, k, k);
  }

  /** sb_get when the buffer stands for `msg` from `k` on. */
  method Seek(sb: Buffer, term: seq<byte>, ghost msg: seq<byte>, ghost k: nat) returns (nread: int)
    requires sb.Valid() && sb.len == 4096 && k <= |msg| && sb.Remaining() == msg[k..]
    modifies sb, sb.sock, sb.buf
    ensures sb.Valid() && sb.Remaining() == msg[k..] && k + sb.data <= |msg|
    ensures nread == -1 ==> !Occurs(msg[k..], term) && sb.data < 4096
    ensures sb.data == 4096 ==> nread == 4096
    ensures nread != -1 && sb.data < 4096 ==> nread >= 0 && FirstAt(msg[k..], term, nread) && nread + |term| <= sb.data
    ensures (k + sb.data, sb.sock.sizes) == GetRun(msg, term, k, k + old(sb.data), 4096, old(sb.sock.sizes))
    ensures term == [] ==> sb.data == old(sb.data)
  {
    if term == [] {
      EmptyRun(msg, term, k, k + sb.data, 4096, sb.sock.sizes);
    }
    GetShift(msg, term, k, k + sb.data, 4096, sb.sock.sizes);
    nread := sb.Get(term);
  }

  /** What will be gone in the end, spelled out only where Detail is mentioned. */
  ghost predicate WillGo(gone: nat, msg: seq<byte>, term: seq<byte>, k: nat, e: nat, sizes: seq<nat>) {
    forall j: nat {:trigger Detail(j)} | Detail(j) ::
      k <= e <= |msg| && e <= k + 4096 && gone == Gone(msg, term, k, e, sizes)
  }

  lemma GoneTurn(gone: nat, msg: seq<byte>, term: seq<byte>, k: nat, e: nat, sizes: seq<nat>, r: (nat, seq<nat>))
    requires WillGo(gone, msg, term, k, e, sizes) && k <= e <= |msg| && e <= k + 4096
    requires r == GetRun(msg, term, k, e, 4096, sizes)
    ensures if r.0 == k + 4096 then WillGo(gone, msg, term, k + 4032, r.0, r.1) else gone == k
  {
    assert Detail(0);
  }

  /** The search of an iteration, and what it means for what will be gone. */
  method SeekOn(sb: Buffer, term: seq<byte>, ghost msg: seq<byte>, ghost k: nat, ghost gone: nat) returns (nread: int)
    requires sb.Valid() && sb.len == 4096 && k <= |msg| && sb.Remaining() == msg[k..] && k + sb.data <= |msg|
    requires WillGo(gone, msg, term, k, k + sb.data, sb.sock.sizes) && (term == [] ==> sb.data < 4096)
    modifies sb, sb.sock, sb.buf
    ensures sb.Valid() && sb.Remaining() == msg[k..] && k + sb.data <= |msg| && (term == [] ==> sb.data < 4096)
    ensures nread == -1 ==> !Occurs(msg[k..], term) && sb.data < 4096
    ensures sb.data == 4096 ==> nread == 4096 && WillGo(gone, msg, term, k + 4032, k + 4096, sb.sock.sizes)
    ensures sb.data < 4096 ==> gone == k
    ensures nread != -1 && sb.data < 4096 ==> nread >= 0 && FirstAt(msg[k..], term, nread) && nread + |term| <= sb.data
  {
    ghost var e, sizes := k + sb.data, sb.sock.sizes;
    nread := Seek(sb, term, msg, k);
    GoneTurn(gone, msg, term, k, e, sizes, (k + sb.data, sb.sock.sizes));
  }

  /** A full buffer is summed and dropped, but for its last 64 bytes. */
  method DropFull(sb: Buffer, c: State, n: nat, ghost msg: seq<byte>, ghost k: nat)
    requires n == 4032 && sb.Valid() && sb.len == 4096 == sb.data && c.Valid() && c.md5.block != sb.buf
    requires k + 4096 <= |msg| && sb.Remaining() == msg[k..] && c.Seen() == msg[..k]
    modifies sb, sb.sock, sb.buf, c.md5, c.md5.block
    ensures sb.Valid() && sb.data == 64 && c.Valid() && sb.sock.sizes == old(sb.sock.sizes)
    ensures sb.Remaining() == msg[k + 4032..] && c.Seen() == msg[..k + 4032]
  {
    Advance(msg, k, n);
    Skip(sb, c, n);
  }

  /** What is known while the loop of cs_retrieve goes on. */
  ghost predicate Summing(sb: Buffer, c: State, term: seq<byte>, msg: seq<byte>, k: nat, gone: nat)
    reads sb, sb.sock, sb.buf, c, c.md5, c.md5.block
  {
    && sb.Valid() && sb.len == 4096 && c.Valid() && c.md5.block != sb.buf && (term == [] ==> sb.data < 4096)
    && k <= |msg| && sb.Remaining() == msg[k..] && c.Seen() == msg[..k] && k + sb.data <= |msg|
    && WillGo(gone, msg, term, k, k + sb.data, sb.sock.sizes)
  }

  /** An iteration of the loop of cs_retrieve. */
  method Iterate(sb: Buffer, c: State, term: seq<byte>, ghost msg: seq<byte>, ghost k: nat, ghost gone: nat)
    returns (done: bool, r: int)
    requires Summing(sb, c, term, msg, k, gone)
    modifies sb, sb.sock, sb.buf, c.md5, c.md5.block
    ensures done ==> r == Outcome(c.tagOf, msg, term, gone)
    ensures !done ==> k + 4096 <= |msg| && sb.data == 64 && Summing(sb, c, term, msg, k + 4032, gone)
  {
    var nread := SeekOn(sb, term, msg, k, gone);
    if nread < 0 {
      NoTerminator(c.tagOf, msg, term, k);
      return true, 2;
    }
    if nread + |term| <= sb.data && sb.buf[nread..nread + |term|] == term {
      r := Conclude(sb, c, term, nread, msg, k);
      return true, r;
    }
    if nread > 64 {
      DropFull(sb, c, nread - 64, msg, k);
    }
    return false, 0;
  }

  /** The loop of cs_retrieve over the message, which is what the buffer has still to give. */
  method Sum(sb: Buffer, c: State, term: seq<byte>) returns (r: int)
    requires sb.Valid() && sb.len == 4096 && (term == [] ==> sb.data < 4096)
    requires c.Valid() && c.Seen() == [] && c.md5.block != sb.buf
    modifies sb, sb.sock, sb.buf, c.md5, c.md5.block
    ensures var msg := old(sb.Remaining());
            r == Outcome(c.tagOf, msg, term, Gone(msg, term, 0, old(sb.data), old(sb.sock.sizes)))
  {
    ghost var msg, k: nat := sb.Remaining(), 0;
    ghost var gone := Gone(msg, term, 0, sb.data, sb.sock.sizes);
    assert msg[0..] == msg && msg[..0] == [];
    while true
      invariant Summing(sb, c, term, msg, k, gone)
      decreases |msg| - k
    {
      var done;
      done, r := Iterate(sb, c, term, msg, k, gone);
      if done {
        return;
      }
      k := k + 4032;
    }
  }

  lemma Advance(msg: seq<byte>, k: nat, n: nat)
    requires k + n <= |msg|
    ensures msg[k..][n..] == msg[k + n..] && msg[..k] + msg[k..][..n] == msg[..k + n]
  {
  }

  lemma LiveIsNext(msg: seq<byte>, k: nat, rem: seq<byte>, live: seq<byte>, n: nat)
    requires k <= |msg| && rem == msg[k..] && live <= rem && n <= |live|
    ensures live[..n] == msg[..k + n][k..] && msg[..k + n][..k] == msg[..k]
  {
  }

  /** Where a successful sb_discard ends, whatever the schedule. */
  lemma {:induction false} DiscardFound(all: seq<byte>, pat: seq<byte>, k: nat, e: nat, len: nat, sizes: seq<nat>)
    requires k <= e <= |all| && e <= k + len && forall i: nat | i < k :: !At(all, pat, i)
    requires DiscardRun(all, pat, k, e, len, sizes).0
    ensures var r := DiscardRun(all, pat, k, e, len, sizes);
            r.1 >= |pat| && FirstAt(all, pat, r.1 - |pat|) && r.2 - r.1 <= len - |pat|
    decreases |all| - e, e - k
  {
    if e - k < |pat| {
      DiscardFound(all, pat, k, e + ReadSize(|all| - e, sizes, k + len - e), len, Later(sizes));
    } else if !Hit(all, pat, k, e) {
      NoHit(all, pat, k, e);
      DiscardFound(all, pat, e - (|pat| - 1), e, len, sizes);
    }
  }

  lemma {:induction false} DiscardFails(all: seq<byte>, pat: seq<byte>, k: nat, e: nat, len: nat, sizes: seq<nat>)
    requires k <= e <= |all| && e <= k + len && forall i: nat | i < k :: !At(all, pat, i)
    requires !DiscardRun(all, pat, k, e, len, sizes).0
    ensures len < |pat| || forall i: nat :: !At(all, pat, i)
    decreases |all| - e, e - k
  {
    if e - k < |pat| {
      var n := ReadSize(|all| - e, sizes, k + len - e);
      if n > 0 {
        DiscardFails(all, pat, k, e + n, len, Later(sizes));
      }
    } else {
      NoHit(all, pat, k, e);
      DiscardFails(all, pat, e - (|pat| - 1), e, len, sizes);
    }
  }

  lemma {:induction false} DiscardEnds(s: seq<byte>, start: seq<byte>, sizes: seq<nat>)
    ensures var r := DiscardRun(s, start, 0, 0, 4096, sizes);
            && (r.0 <==> |start| <= 4096 && Occurs(s, start))
            && (r.0 ==> r.1 >= |start| && FirstAt(s, start, r.1 - |start|) && r.2 - r.1 < 4096)
  {
    var r := DiscardRun(s, start, 0, 0, 4096, sizes);
    if r.0 {
      DiscardFound(s, start, 0, 0, 4096, sizes);
      assert At(s, start, r.1 - |start|);
    } else {
      DiscardFails(s, start, 0, 0, 4096, sizes);
    }
  }

  /** cs_retrieve */
  method Retrieve(sock: Socket, start: seq<byte>, term: seq<byte>, width: nat) returns (r: int)
    requires width >= 32
    modifies sock
    ensures r == Result(TagOf, old(sock.rest), start, term, old(sock.sizes))
    ensures r == -1 <==> |start| > 4096 || !Occurs(old(sock.rest), start)
  {
    ghost var s, sizes := sock.rest, sock.sizes;
    var sb := new Buffer(sock, 4096);
    DiscardEnds(s, start, sizes);
    var found := sb.Discard(start);
    if !found {
      return -1;
    }
    assert sb.Remaining() == s[DiscardRun(s, start, 0, 0, 4096, sizes).1..];
    var c := new State(width);
    r := Sum(sb, c, term);
  }
}
