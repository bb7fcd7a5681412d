/** The MD5 message-digest algorithm as RFC 1321 defines it, on 32-bit words. */
module Md5Rfc {
  import opened Words
  import opened Bytes
  import opened Md5Rounds
  import opened Blocks

  type State = Regs<nat>

  /** The auxiliary functions of section 3.4. */
  function Mix(f: Fn, x: nat, y: nat, z: nat): nat
  {
    match f
    case F => Bitwise(Or, Bitwise(And, x, y, 32), Bitwise(And, Not(x, 32), z, 32), 32)
    case G => Bitwise(Or, Bitwise(And, x, z, 32), Bitwise(And, y, Not(z, 32), 32), 32)
    case H => Bitwise(Xor, Bitwise(Xor, x, y, 32), z, 32)
    case I => Bitwise(Xor, y, Bitwise(Or, x, Not(z, 32), 32), 32)
  }

  /** X <<< s of section 2. */
  function RotateLeft(x: nat, s: Shift): nat {
    ShiftLeft(x, s) % 0x1_0000_0000 + ShiftRight(x, 32 - s)
  }

  /** a = b + ((a + f(b,c,d) + xt) <<< s), where xt stands for X[k] + T[i]. */
  function Op(f: Fn, a: nat, b: nat, c: nat, d: nat, xt: nat, s: Shift): nat {
    OpWith(Mix(f, b, c, d), a, b, xt, s)
  }

  /** The operation, with the value of its mixing function. */
  function OpWith(mix: nat, a: nat, b: nat, xt: nat, s: Shift): nat {
    (b + RotateLeft((a + mix + xt) % 0x1_0000_0000, s)) % 0x1_0000_0000
  }

  function AddStates(s: State, t: State): State {
    Regs((s.a + t.a) % 0x1_0000_0000, (s.b + t.b) % 0x1_0000_0000,
          (s.c + t.c) % 0x1_0000_0000, (s.d + t.d) % 0x1_0000_0000)
  }

  function Word(m: seq<byte>, k: nat): nat
    requires 4 * k + 4 <= |m|
  {
    var b0: int, b1: int, b2: int, b3: int := m[4 * k], m[4 * k + 1], m[4 * k + 2], m[4 * k + 3];
    b0 + 0x100 * b1 + 0x1_0000 * b2 + 0x100_0000 * b3
  }

  /** X[k] + T[i] */
  function BlockData(m: seq<byte>): DataOp<nat> {
    (k: nat, t: nat) => ((if 4 * k + 4 <= |m| then Word(m, k) else 0) + t) % 0x1_0000_0000
  }

  /** Section 3.4 for one 16-word block. */
  function Compress(st: State, m: seq<byte>): State {
    AddStates(st, AllRounds(Machine(Op, BlockData(m)), st))
  }

  /** Section 3.3. */
  const INITIAL: State := Regs(0x67452301, 0xefcdab89, 0x98badcfe, 0x10325476)

  /** A word as four bytes, low-order byte first. */
  function Bytes4(x: nat): seq<byte> {
    [x % 0x100, x / 0x100 % 0x100, x / 0x1_0000 % 0x100, x / 0x100_0000 % 0x100]
  }

  /** The number of zero bytes section 3.1 appends after the first byte of padding. */
  function Zeros(n: nat): nat {
    (119 - n % 64) % 64
  }

  /** The low-order 64 bits of the length in bits. */
  function LengthBytes(n: nat): (b: seq<byte>)
    ensures |b| == 8
  {
    Bytes4(8 * n) + Bytes4(8 * n / 0x1_0000_0000)
  }

  lemma PadLength(n: nat)
    ensures (n + 1 + Zeros(n) + 8) % 64 == 0
  {
  }

  /** Sections 3.1 and 3.2: a one bit, zero bits up to 448 modulo 512, and the length. */
  function Pad(m: seq<byte>): (p: seq<byte>)
    ensures |p| % 64 == 0
  {
    PadLength(|m|);
    m + ([0x80] + seq(Zeros(|m|), _ => 0) + LengthBytes(|m|))
  }

  function Encode(st: State): (d: seq<byte>)
    ensures |d| == 16
  {
    Bytes4(st.a) + Bytes4(st.b) + Bytes4(st.c) + Bytes4(st.d)
  }

  /** The message digest of section 3.5: the padded message, block by block. */
  function DigestWith(f: (State, seq<byte>) -> State, m: seq<byte>): (d: seq<byte>)
    ensures |d| == 16
  {
    Encode(Fold(f, INITIAL, Pad(m), |Pad(m)| / 64))
  }

  function Digest(m: seq<byte>): (d: seq<byte>)
    ensures |d| == 16
  {
    DigestWith(Compress, m)
  }
}
