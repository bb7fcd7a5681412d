/** The incremental MD5 of md5.c: a context whose words may be wider than 32 bits, fed
    in pieces of any size. */
module Md5 {
  import opened Hiding
  import opened Modular
  import opened Words
  import opened Bytes
  import opened Blocks
  import opened Md5Rounds
  import opened Md5Rfc
  import opened Md5Step

  // ----- Words from bytes -----

  function ShiftIn(x: nat, b: byte, w: nat): nat {
    Bitwise(Or, ShiftLeft(x, 8), b, w)
  }

  /** getu32 */
  function GetU32(m: seq<byte>, k: nat, w: nat): nat
    requires 4 * k + 4 <= |m|
  {
    ShiftIn(ShiftIn(ShiftIn(m[4 * k + 3], m[4 * k + 2], w), m[4 * k + 1], w), m[4 * k], w)
  }

  lemma {:induction false} ShiftInSum(x: nat, b: byte, w: nat)
    requires 256 * x + b < Pow2(w)
    ensures ShiftIn(x, b, w) == 256 * x + b
  {
    assert Pow2(8) == 256;
    OrIsSum(x, b, 8, w);
  }

  lemma GetU32IsWord(m: seq<byte>, k: nat, w: nat)
    requires w >= 32 && 4 * k + 4 <= |m|
    ensures GetU32(m, k, w) == Word(m, k) < 0x1_0000_0000
  {
    Pow2Of32();
    Pow2Mono(32, w);
    var b0: int, b1: int, b2: int, b3: int := m[4 * k], m[4 * k + 1], m[4 * k + 2], m[4 * k + 3];
    ShiftInSum(b3, b2, w);
    ShiftInSum(256 * b3 + b2, b1, w);
    ShiftInSum(256 * (256 * b3 + b2) + b1, b0, w);
  }

  /** putu32 writes only the low 32 bits: the excess of a wide word disappears. */
  lemma ExcessDisappears(x: nat, y: nat)
    requires x % 0x1_0000_0000 == y % 0x1_0000_0000
    ensures Bytes4(x) == Bytes4(y)
  {
    BytesOfLow(x);
    BytesOfLow(y);
  }

  lemma DigitOfLow(q: nat, r: nat, d: nat, k: nat)
    requires d > 0
    ensures (r + q * k * 0x100 * d) / d % 0x100 == r / d % 0x100
  {
    ModShift(r, q * k * 0x100, d);
    ModShift(r / d, q * k, 0x100);
  }

  lemma BytesOfLow(x: nat)
    ensures Bytes4(x) == Bytes4(x % 0x1_0000_0000)
  {
    var q, r := x / 0x1_0000_0000, x % 0x1_0000_0000;
    DigitOfLow(q, r, 1, 0x100_0000);
    DigitOfLow(q, r, 0x100, 0x1_0000);
    DigitOfLow(q, r, 0x1_0000, 0x100);
    DigitOfLow(q, r, 0x100_0000, 1);
  }

  // ----- The transform -----

  function WideData(words: seq<nat>, w: nat): DataOp<nat> {
    (k: nat, t: nat) => Add(if k < |words| then words[k] else 0, t, w)
  }

  function LowRegs(r: Regs<nat>): State {
    MapRegs(Low, r)
  }

  /** buf[0] += a; ... */
  function AddRegs(r: Regs<nat>, t: Regs<nat>, w: nat): Regs<nat> {
    Regs(Add(r.a, t.a, w), Add(r.b, t.b, w), Add(r.c, t.c, w), Add(r.d, t.d, w))
  }

  lemma AddRegsLow(r: Regs<nat>, t: Regs<nat>, w: nat)
    requires w >= 32
    ensures LowRegs(AddRegs(r, t, w)) == AddStates(LowRegs(r), LowRegs(t))
  {
    AddLow(r.a, t.a, w);
    AddLow(r.b, t.b, w);
    AddLow(r.c, t.c, w);
    AddLow(r.d, t.d, w);
  }

  function WideMachine(words: seq<nat>, w: nat): Machine<nat> {
    Machine(WideOp(w), WideData(words, w))
  }

  /** In the low 32 bits, MD5STEP on wide words is the operation of the RFC. */
  lemma WideSimulates(words: seq<nat>, m: seq<byte>, w: nat)
    requires w >= 32 && |m| == 64 && |words| == 16
    requires forall k | 0 <= k < 16 :: words[k] == Word(m, k)
    ensures Simulates(Low, WideMachine(words, w), Machine(Op, BlockData(m)))
  {
    forall f, a, x, y, z, data, s
      ensures Low(WideOp(w)(f, a, x, y, z, data, s)) == Op(f, Low(a), Low(x), Low(y), Low(z), Low(data), s)
    {
      WideStep(w, f, a, x, y, z, data, s);
    }
    forall k: nat, t: nat ensures Low(WideData(words, w)(k, t)) == BlockData(m)(k, t) {
      AddLow(if k < 16 then words[k] else 0, t, w);
    }
  }

  /** The transform on words of any width from 32 bits up stays congruent to the RFC's. */
  lemma TransformLow(r: Regs<nat>, words: seq<nat>, m: seq<byte>, w: nat)
    requires w >= 32 && |m| == 64 && |words| == 16
    requires forall k | 0 <= k < 16 :: words[k] == Word(m, k)
    ensures LowRegs(AddRegs(r, AllRounds(WideMachine(words, w), r), w)) == Compress(LowRegs(r), m)
  {
    WideSimulates(words, m, w);
    RoundsSimulate(Low, WideMachine(words, w), Machine(Op, BlockData(m)), r);
    AddRegsLow(r, AllRounds(WideMachine(words, w), r), w);
  }

  function WordsOf(m: seq<byte>, w: nat): seq<nat>
    requires |m| == 64
  {
    seq(16, k requires 0 <= k < 16 => GetU32(m, k, w))
  }

  function WideTransform(w: nat): (Regs<nat>, seq<byte>) -> Regs<nat> {
    (r: Regs<nat>, m: seq<byte>) =>
      if |m| == 64 then AddRegs(r, AllRounds(WideMachine(WordsOf(m, w), w), r), w) else r
  }

  /** lutil_MD5Transform */
  method Transform(r: Regs<nat>, m: seq<byte>, w: nat) returns (t: Regs<nat>)
    requires |m| == 64
    ensures t == WideTransform(w)(r, m)
  {
    var words: seq<nat> := [];
    for i := 0 to 16
      invariant |words| == i && forall k | 0 <= k < i :: words[k] == GetU32(m, k, w)
    {
      words := words + [GetU32(m, i, w)];
    }
    assert words == WordsOf(m, w);
    var s := Unrolled(WideMachine(words, w), r);
    t := AddRegs(r, s, w);
  }

  // ----- The message so far -----

  /** The length of the part of an n-byte message that has been compressed. */
  function Full(n: nat): (k: nat)
    ensures k <= n < k + 64 && k % 64 == 0 && n - k == n % 64
  {
    64 * (n / 64)
  }

  lemma FullIs(n: nat, blocks: nat)
    requires 64 * blocks <= n < 64 * blocks + 64
    ensures Full(n) == 64 * blocks && n % 64 == n - 64 * blocks
  {
  }

  /** The low and the high word of the length in bits. */
  predicate LengthIn(lo: nat, hi: nat, n: nat) {
    lo == 8 * n % 0x1_0000_0000 && hi % 0x1_0000_0000 == 8 * n / 0x1_0000_0000 % 0x1_0000_0000
  }

  /** LengthIn, spelled out only where Detail is mentioned. */
  ghost predicate CountsBits(lo: nat, hi: nat, n: nat) {
    forall k: nat {:trigger Detail(k)} | Detail(k) :: LengthIn(lo, hi, n)
  }

  lemma CarryOut(lo: nat, x: nat)
    requires lo < 0x1_0000_0000 && x < 0x1_0000_0000
    ensures var sum := (lo + x) % 0x1_0000_0000;
            lo + x == sum + if sum < lo then 0x1_0000_0000 else 0
  {
  }

  /** The count survives an addition with carry, the high word wrapping at its width. */
  lemma CountAdds(lo: nat, hi: nat, n: nat, len: nat, hi1: nat)
    requires LengthIn(lo, hi, n)
    requires var carry := if (lo + 8 * len) % 0x1_0000_0000 < lo then 1 else 0;
             hi1 % 0x1_0000_0000 == (hi + (carry + len / 0x2000_0000)) % 0x1_0000_0000
    ensures LengthIn((lo + 8 * len) % 0x1_0000_0000, hi1, n + len)
  {
    var q, k, x := 8 * n / 0x1_0000_0000, len / 0x2000_0000, 8 * (len % 0x2000_0000);
    assert 8 * n == 0x1_0000_0000 * q + lo;
    assert 8 * len == 0x1_0000_0000 * k + x;
    var sum := (lo + x) % 0x1_0000_0000;
    var carry := if sum < lo then 1 else 0;
    ModShift(lo + x, k, 0x1_0000_0000);
    CarryOut(lo, x);
    DivModUnique(8 * (n + len), 0x1_0000_0000, q + k + carry, sum);
    ModAdd(hi, carry + k, 0x1_0000_0000);
    ModAdd(q, carry + k, 0x1_0000_0000);
    assert q + (carry + k) == q + k + carry;
  }

  /** A piece of the last part of a message. */
  lemma PieceOf(data: seq<byte>, all: seq<byte>, a: nat, b: nat)
    requires |data| <= |all| && data == all[|all| - |data|..] && a <= b <= |data|
    ensures var k := |all| - |data|; data[a..b] == all[k + a..k + b]
  {
  }

  lemma FilledBlock(seen: seq<byte>, data: seq<byte>)
    requires |seen| % 64 + |data| >= 64
    ensures var k, t := |seen| / 64, |seen| % 64;
            |seen + data| >= 64 * (k + 1) && seen[64 * k..] + data[..64 - t] == (seen + data)[64 * k..64 * (k + 1)]
  {
  }

  lemma LongerTail(seen: seq<byte>, data: seq<byte>, k: nat)
    requires k <= |seen|
    ensures (seen + data)[k..] == seen[k..] + data
  {
  }

  lemma OffsetIsLength(lo: nat, n: nat)
    requires lo == 8 * n % 0x1_0000_0000
    ensures lo / 8 % 64 == n % 64
  {
    var q := 8 * n / 0x1_0000_0000;
    assert 8 * n == 0x1_0000_0000 * q + lo;
    assert n == 64 * (0x80_0000 * q) + lo / 8;
  }

  /** The last block or blocks of a padded message. */
  lemma PadShortBlock(m: seq<byte>)
    requires |m| % 64 < 56
    ensures var k := |m| / 64;
            && |Pad(m)| == 64 * (k + 1) && |Pad(m)| / 64 == k + 1 && Pad(m)[..|m|] == m
            && Pad(m)[64 * k..64 * (k + 1)] == m[64 * k..] + [0x80] + seq(55 - |m| % 64, _ => 0) + LengthBytes(|m|)
  {
    assert Zeros(|m|) == 55 - |m| % 64;
  }

  lemma PadLongBlocks(m: seq<byte>)
    requires |m| % 64 >= 56
    ensures var k := |m| / 64;
            && |Pad(m)| == 64 * (k + 2) && |Pad(m)| / 64 == k + 2 && Pad(m)[..|m|] == m
            && Pad(m)[64 * k..64 * (k + 1)] == m[64 * k..] + [0x80] + seq(63 - |m| % 64, _ => 0)
            && Pad(m)[64 * (k + 1)..64 * (k + 2)] == seq(56, _ => 0) + LengthBytes(|m|)
  {
    assert Zeros(|m|) == 119 - |m| % 64;
  }

  /** What an MD5 context relies on: its block function on wide words computes `f` on the
      values they stand for, and the bytes of a state depend on those values only. */
  ghost predicate Refines(transform: (Regs<nat>, seq<byte>) -> Regs<nat>, low: Regs<nat> -> State,
                          f: (State, seq<byte>) -> State) {
    && (forall r, m {:trigger transform(r, m)} | |m| == 64 :: low(transform(r, m)) == f(low(r), m))
    && (forall r {:trigger low(r)} :: Encode(low(r)) == Encode(r))
  }

  lemma TransformRefines(w: nat)
    requires w >= 32
    ensures Refines(WideTransform(w), LowRegs, Compress)
  {
    forall r: Regs<nat>, m: seq<byte> | |m| == 64 ensures LowRegs(WideTransform(w)(r, m)) == Compress(LowRegs(r), m) {
      var words := WordsOf(m, w);
      forall k | 0 <= k < 16 ensures words[k] == Word(m, k) {
        GetU32IsWord(m, k, w);
      }
      TransformLow(r, words, m, w);
    }
    forall r: Regs<nat> ensures Encode(LowRegs(r)) == Encode(r) {
      BytesOfLow(r.a);
      BytesOfLow(r.b);
      BytesOfLow(r.c);
      BytesOfLow(r.d);
    }
  }

  /** struct lutil_MD5Context. `transform` is what the block function computes; `seen` is the
      message fed so far, and `low` and `f` say what the words and the block function stand for. */
  class Context {
    const w: nat
    ghost const transform: (Regs<nat>, seq<byte>) -> Regs<nat>
    ghost const low: Regs<nat> -> State
    ghost const f: (State, seq<byte>) -> State
    var buf: Regs<nat>
    var lo: nat
    var hi: nat
    const block: array<byte>
    ghost var seen: seq<byte>

    /** The block function is lutil_MD5Transform, and computes `f`: spelled out only where
        Detail(1) and Detail(2) are mentioned. */
    ghost predicate Wired() {
      forall k: nat {:trigger Detail(k)} | Detail(k) ::
        (k == 1 ==> transform == WideTransform(w)) && (k == 2 ==> Refines(transform, low, f))
    }

    /** The state is that of the full blocks, and the block holds the tail. */
    ghost predicate Holds(m: seq<byte>)
      reads this`buf, block
    {
      && block.Length == 64
      && low(buf) == Fold(f, INITIAL, m, |m| / 64)
      && block[..|m| % 64] == m[Full(|m|)..]
    }

    ghost predicate Represents()
      reads this, block
    {
      && w >= 32
      && Wired()
      && CountsBits(lo, hi, |seen|)
      && Holds(seen)
    }

    /** Represents, spelled out only where Detail is mentioned. */
    ghost predicate Valid()
      reads this, block
    {
      forall k: nat {:trigger Detail(k)} | Detail(k) :: Represents()
    }

    /** lutil_MD5Init */
    constructor (width: nat)
      requires width >= 32
      ensures Valid() && seen == [] && fresh(block)
      ensures f == Compress
    {
      w := width;
      transform, low, f := WideTransform(width), LowRegs, Compress;
      buf := Regs(0x67452301, 0xefcdab89, 0x98badcfe, 0x10325476);
      lo, hi := 0, 0;
      block := new byte[64](_ => 0);
      seen := [];
      new;
      TransformRefines(width);
      LowInitial();
    }

    /** memcpy into the block. */
    method Copy(at: nat, src: seq<byte>)
      requires block.Length == 64 && at + |src| <= 64
      modifies block
      ensures block[..] == old(block[..at]) + src + old(block[at + |src|..])
    {
      forall i | 0 <= i < |src| {
        block[at + i] := src[i];
      }
    }

    /** The bit count, with the carry from the low to the high word. */
    method CountBits(len: nat, ghost n: nat)
      requires w >= 32 && CountsBits(lo, hi, n)
      modifies this`lo, this`hi
      ensures CountsBits(lo, hi, n + len)
    {
      var t, h := lo, hi;
      lo := (t + 8 * len) % 0x1_0000_0000;
      if lo < t {
        hi := Add(hi, 1, w);
      }
      AddLow(h, 1, w);
      AddLow(hi, len / 0x2000_0000, w);
      ModAdd(h + 1, len / 0x2000_0000, 0x1_0000_0000);
      hi := Add(hi, len / 0x2000_0000, w);
      assert Detail(0);
      CountAdds(t, h, n, len, hi);
    }

    /** The block holds the k-th block of `all`. */
    method CompressBlock(ghost all: seq<byte>, ghost k: nat)
      requires block.Length == 64 && Wired()
      requires 64 * (k + 1) <= |all| && block[..] == all[64 * k..64 * (k + 1)]
      requires low(buf) == Fold(f, INITIAL, all, k)
      modifies this`buf
      ensures low(buf) == Fold(f, INITIAL, all, k + 1)
    {
      ghost var t := transform(buf, block[..]);
      buf := Transform(buf, block[..], w);
      assert buf == t by {
        assert Detail(1);
      }
      assert Detail(2);
    }

    /** The k-th block of `all` begins at `pos` in its last part, `data`. */
    method FeedBlock(data: seq<byte>, pos: nat, ghost all: seq<byte>, ghost k: nat)
      requires block.Length == 64 && Wired()
      requires pos + 64 <= |data| <= |all| && data == all[|all| - |data|..] && |all| - |data| + pos == 64 * k
      requires low(buf) == Fold(f, INITIAL, all, k)
      modifies this`buf, block
      ensures low(buf) == Fold(f, INITIAL, all, k + 1)
    {
      PieceOf(data, all, pos, pos + 64);
      Copy(0, data[pos..pos + 64]);
      CompressBlock(all, k);
    }

    /** (bits[0] >> 3) & 0x3f, the length of the tail. */
    method Offset() returns (t: nat)
      requires CountsBits(lo, hi, |seen|)
      ensures t == |seen| % 64
    {
      assert Detail(0);
      OffsetIsLength(lo, |seen|);
      t := lo / 8 % 64;
    }

    /** Counts what is to come, and tells where in the block it goes. */
    method Reserve(len: nat) returns (t: nat)
      requires w >= 32 && CountsBits(lo, hi, |seen|)
      modifies this`lo, this`hi
      ensures t == |seen| % 64 && CountsBits(lo, hi, |seen| + len)
    {
      t := Offset();
      CountBits(len, |seen|);
    }

    /** Takes the full blocks of `all` from the k-th on, where block `k` begins at `start`
        in `data`, and keeps the rest. */
    method Feed(data: seq<byte>, start: nat, ghost all: seq<byte>, ghost k: nat)
      requires block.Length == 64 && Wired()
      requires start <= |data| <= |all| && data == all[|all| - |data|..]
      requires |all| - |data| + start == 64 * k <= |all| && low(buf) == Fold(f, INITIAL, all, k)
      modifies this`buf, block
      ensures Holds(all)
    {
      var pos := start;
      ghost var j := k;
      while |data| - pos >= 64
        invariant start <= pos <= |data| && |all| - |data| + pos == 64 * j <= |all|
        invariant low(buf) == Fold(f, INITIAL, all, j)
      {
        FeedBlock(data, pos, all, j);
        pos := pos + 64;
        j := j + 1;
      }
      Rest(data, pos, all, j);
    }

    /** What is left after the full blocks. */
    method Rest(data: seq<byte>, pos: nat, ghost all: seq<byte>, ghost k: nat)
      requires block.Length == 64 && |data| < pos + 64
      requires pos <= |data| <= |all| && data == all[|all| - |data|..] && |all| - |data| + pos == 64 * k
      requires low(buf) == Fold(f, INITIAL, all, k)
      modifies block
      ensures Holds(all)
    {
      PieceOf(data, all, pos, |data|);
      Copy(0, data[pos..]);
      FullIs(|all|, k);
    }

    /** Completes and compresses the block begun earlier. */
    method FillUp(t: nat, data: seq<byte>)
      requires Holds(seen) && Wired() && t == |seen| % 64 && t + |data| >= 64
      modifies this`buf, block
      ensures 64 * (|seen| / 64 + 1) <= |seen + data|
      ensures low(buf) == Fold(f, INITIAL, seen + data, |seen| / 64 + 1)
    {
      ghost var k, all := |seen| / 64, seen + data;
      Copy(t, data[..64 - t]);
      FilledBlock(seen, data);
      SameBlocks(f, INITIAL, all, seen, k);
      CompressBlock(all, k);
    }

    /** The block has room for all of `data`. */
    method Keep(t: nat, data: seq<byte>)
      requires Holds(seen) && t == |seen| % 64 && t + |data| < 64
      modifies block
      ensures Holds(seen + data)
    {
      ghost var all := seen + data;
      FullIs(|all|, |seen| / 64);
      Copy(t, data);
      SameBlocks(f, INITIAL, all, seen, |seen| / 64);
      LongerTail(seen, data, Full(|seen|));
    }

    method Take(t: nat, data: seq<byte>)
      requires Holds(seen) && Wired() && t == |seen| % 64
      modifies this`buf, this`seen, block
      ensures Holds(seen) && seen == old(seen) + data
    {
      ghost var k, all := |seen| / 64, seen + data;
      if t != 0 && |data| < 64 - t {
        Keep(t, data);
      } else if t != 0 {
        FillUp(t, data);
        Feed(data, 64 - t, all, k + 1);
      } else {
        SameBlocks(f, INITIAL, all, seen, k);
        Feed(data, 0, all, k);
      }
      seen := all;
    }

    method Absorb(data: seq<byte>)
      requires Represents() && |data| < 0x1_0000_0000
      modifies this, block
      ensures Represents() && seen == old(seen) + data
    {
      var t := Reserve(|data|);
      Take(t, data);
    }

    /** lutil_MD5Update: whatever the piece, the context stands for the message so far
        followed by it. */
    method Update(data: seq<byte>)
      requires Valid() && |data| < 0x1_0000_0000
      modifies this, block
      ensures Valid() && seen == old(seen) + data
    {
      assert Detail(0);
      Absorb(data);
    }

    /** The first byte of the padding, and zeros up to the length. */
    method PadBegin(count: nat, ghost tail: seq<byte>)
      requires block.Length == 64 && count < 56 && block[..count] == tail
      modifies block
      ensures block[..56] == tail + [0x80] + seq(55 - count, _ => 0)
    {
      Copy(count, [0x80]);
      assert block[..count + 1] == tail + [0x80];
      Copy(count + 1, seq(55 - count, _ => 0));
    }

    /** The end of the message and all of the padding fit into the current block. */
    method PadShort(count: nat)
      requires Holds(seen) && Wired() && CountsBits(lo, hi, |seen|)
      requires count == |seen| % 64 < 56
      modifies this`buf, block
      ensures low(buf) == Fold(f, INITIAL, Pad(seen), |Pad(seen)| / 64)
    {
      ghost var k, all := |seen| / 64, Pad(seen);
      SameBlocks(f, INITIAL, all, seen, k);
      PadShortBlock(seen);
      PadBegin(count, seen[64 * k..]);
      PutLength();
      assert block[..] == all[64 * k..64 * (k + 1)];
      CompressBlock(all, k);
    }

    /** The end of the message and the first of the padding. */
    method PadFirst(count: nat)
      requires Holds(seen) && Wired()
      requires count == |seen| % 64 >= 56
      modifies this`buf, block
      ensures low(buf) == Fold(f, INITIAL, Pad(seen), |seen| / 64 + 1)
    {
      ghost var k, all := |seen| / 64, Pad(seen);
      SameBlocks(f, INITIAL, all, seen, k);
      PadLongBlocks(seen);
      Copy(count, [0x80]);
      assert block[..count + 1] == seen[64 * k..] + [0x80];
      Copy(count + 1, seq(63 - count, _ => 0));
      assert block[..] == all[64 * k..64 * (k + 1)];
      CompressBlock(all, k);
    }

    /** The length goes into a block of its own. */
    method PadLong(count: nat)
      requires Holds(seen) && Wired() && CountsBits(lo, hi, |seen|)
      requires count == |seen| % 64 >= 56
      modifies this`buf, block
      ensures low(buf) == Fold(f, INITIAL, Pad(seen), |Pad(seen)| / 64)
    {
      PadLongBlocks(seen);
      PadFirst(count);
      PadLast(|seen| / 64 + 1);
    }

    /** A block of padding and the length. */
    method PadLast(ghost k: nat)
      requires block.Length == 64 && Wired() && CountsBits(lo, hi, |seen|)
      requires |Pad(seen)| == 64 * (k + 1) && Pad(seen)[64 * k..64 * (k + 1)] == seq(56, _ => 0) + LengthBytes(|seen|)
      requires low(buf) == Fold(f, INITIAL, Pad(seen), k)
      modifies this`buf, block
      ensures low(buf) == Fold(f, INITIAL, Pad(seen), k + 1)
    {
      Copy(0, seq(56, _ => 0));
      PutLength();
      CompressBlock(Pad(seen), k);
    }

    method PutLength()
      requires block.Length == 64 && CountsBits(lo, hi, |seen|)
      modifies block
      ensures block[..] == old(block[..56]) + LengthBytes(|seen|)
    {
      assert Detail(0);
      Copy(56, Bytes4(lo));
      Copy(60, Bytes4(hi));
      ExcessDisappears(lo, 8 * |seen|);
      ExcessDisappears(hi, 8 * |seen| / 0x1_0000_0000);
    }

    method Padding()
      requires Holds(seen) && Wired() && CountsBits(lo, hi, |seen|)
      modifies this`buf, block
      ensures low(buf) == Fold(f, INITIAL, Pad(seen), |Pad(seen)| / 64)
    {
      var count := Offset();
      if 63 - count < 8 {
        PadLong(count);
      } else {
        PadShort(count);
      }
    }

    /** lutil_MD5Final: the digest of everything fed, and a context that is spent. */
    method Final() returns (digest: seq<byte>)
      requires Valid()
      modifies this, block
      ensures digest == DigestWith(f, old(seen))
      ensures buf.a == 0 && seen == old(seen)
    {
      assert Detail(0);
      Padding();
      digest := Bytes4(buf.a) + Bytes4(buf.b) + Bytes4(buf.c) + Bytes4(buf.d);
      assert digest == Encode(buf) == Encode(low(buf)) by {
        assert Detail(2);
      }
      buf := buf.(a := 0);
    }
  }

  lemma LowInitial()
    ensures LowRegs(Regs(0x67452301, 0xefcdab89, 0x98badcfe, 0x10325476)) == INITIAL
  {
  }

  function Concat(pieces: seq<seq<byte>>): seq<byte> {
    if pieces == [] then [] else Concat(pieces[..|pieces| - 1]) + pieces[|pieces| - 1]
  }

  lemma ConcatNext(pieces: seq<seq<byte>>, i: nat)
    requires i < |pieces|
    ensures Concat(pieces[..i + 1]) == Concat(pieces[..i]) + pieces[i]
  {
    assert pieces[..i + 1][..i] == pieces[..i];
  }

  method UpdateAll(c: Context, pieces: seq<seq<byte>>)
    requires c.Valid() && c.seen == [] && forall i | 0 <= i < |pieces| :: |pieces[i]| < 0x1_0000_0000
    modifies c, c.block
    ensures c.Valid() && c.seen == Concat(pieces)
  {
    for i := 0 to |pieces|
      invariant c.Valid() && c.seen == Concat(pieces[..i])
    {
      c.Update(pieces[i]);
      ConcatNext(pieces, i);
    }
    assert pieces[..|pieces|] == pieces;
  }

  /** However a message is cut into pieces, and however wide the words are, Init, one
      Update a piece and Final yield its RFC 1321 digest. */
  method DigestOf(pieces: seq<seq<byte>>, width: nat) returns (digest: seq<byte>)
    requires width >= 32 && forall i | 0 <= i < |pieces| :: |pieces[i]| < 0x1_0000_0000
    ensures digest == Digest(Concat(pieces))
  {
    var c := new Context(width);
    UpdateAll(c, pieces);
    digest := c.Final();
  }
}
