/** The digest of the alphabet, one of the results that RFC 1321 lists in section A.5. The words of
    the 64 steps are given, byte by byte, and checked step by step. */
module Md5Vector {
  import opened Blocks
  import opened Bytes
  import opened Hiding
  import opened Md5Rfc
  import opened Md5Rounds
  import opened Modular
  import opened Words

  datatype Quad = Q(b3: bv8, b2: bv8, b1: bv8, b0: bv8) {
    function Value(): nat {
      0x100 * (0x100 * (0x100 * (b3 as int) + b2 as int) + b1 as int) + b0 as int
    }
  }

  // ----- Bitwise operators, a byte at a time -----

  function ByteOp(op: BitOp, x: bv8, y: bv8): bv8 {
    match op
    case And => x & y
    case Or => x | y
    case Xor => x ^ y
  }

  function QuadOp(op: BitOp, x: Quad, y: Quad): Quad {
    Q(ByteOp(op, x.b3, y.b3), ByteOp(op, x.b2, y.b2), ByteOp(op, x.b1, y.b1), ByteOp(op, x.b0, y.b0))
  }

  /** One bit to the right. */
  function HalfByte(above: bv8, b: bv8): bv8 {
    (above << 7) | (b >> 1)
  }

  function Half(x: Quad): Quad {
    Q(HalfByte(0, x.b3), HalfByte(x.b3, x.b2), HalfByte(x.b2, x.b1), HalfByte(x.b1, x.b0))
  }

  lemma HalfByteIs(above: bv8, b: bv8)
    ensures 2 * (HalfByte(above, b) as int) + (b & 1) as int == 0x100 * ((above & 1) as int) + b as int
    ensures (b & 1) as int <= 1
  {
  }

  lemma HalfIs(x: Quad)
    ensures x.Value() == 2 * Half(x).Value() + (x.b0 & 1) as int && (x.b0 & 1) as int <= 1
  {
    HalfByteIs(0, x.b3);
    HalfByteIs(x.b3, x.b2);
    HalfByteIs(x.b2, x.b1);
    HalfByteIs(x.b1, x.b0);
  }

  lemma HalfByteOp(op: BitOp, above: bv8, b: bv8, above1: bv8, b1: bv8)
    ensures HalfByte(ByteOp(op, above, above1), ByteOp(op, b, b1)) ==
            ByteOp(op, HalfByte(above, b), HalfByte(above1, b1))
  {
    match op
    case And =>
    case Or =>
    case Xor =>
  }

  lemma LowBitOp(op: BitOp, b: bv8, b1: bv8)
    ensures (ByteOp(op, b, b1) & 1) as int == Bit(op, (b & 1) as int, (b1 & 1) as int)
  {
    match op
    case And =>
    case Or =>
    case Xor =>
  }

  lemma HalfOp(op: BitOp, x: Quad, y: Quad)
    ensures Half(QuadOp(op, x, y)) == QuadOp(op, Half(x), Half(y))
    ensures (QuadOp(op, x, y).b0 & 1) as int == Bit(op, (x.b0 & 1) as int, (y.b0 & 1) as int)
  {
    HalfByteOp(op, 0, x.b3, 0, y.b3);
    HalfByteOp(op, x.b3, x.b2, y.b3, y.b2);
    HalfByteOp(op, x.b2, x.b1, y.b2, y.b1);
    HalfByteOp(op, x.b1, x.b0, y.b1, y.b0);
    LowBitOp(op, x.b0, y.b0);
  }

  lemma BitsAgree(op: BitOp, x: nat, y: nat, r: nat, x1: nat, y1: nat, r1: nat, x0: nat, y0: nat, r0: nat, n: nat)
    requires n > 0 && x == 2 * x1 + x0 && y == 2 * y1 + y0 && r == 2 * r1 + r0 && x0 <= 1 && y0 <= 1
    requires r0 == Bit(op, x0, y0) && Bitwise(op, x1, y1, n - 1) == r1
    ensures Bitwise(op, x, y, n) == r
  {
    assert x % 2 == x0 && x / 2 == x1 && y % 2 == y0 && y / 2 == y1;
  }

  lemma NoBits(op: BitOp, x: Quad, y: Quad)
    requires x.Value() == 0 && y.Value() == 0
    ensures QuadOp(op, x, y).Value() == 0
  {
    assert x == Q(0, 0, 0, 0) && y == Q(0, 0, 0, 0);
  }

  lemma {:induction false} QuadBits(op: BitOp, x: Quad, y: Quad, n: nat)
    requires x.Value() < Pow2(n) && y.Value() < Pow2(n)
    ensures Bitwise(op, x.Value(), y.Value(), n) == QuadOp(op, x, y).Value()
    decreases n
  {
    if n == 0 {
      NoBits(op, x, y);
    } else {
      HalfIs(x);
      HalfIs(y);
      HalfIs(QuadOp(op, x, y));
      HalfOp(op, x, y);
      QuadBits(op, Half(x), Half(y), n - 1);
      BitsAgree(op, x.Value(), y.Value(), QuadOp(op, x, y).Value(), Half(x).Value(), Half(y).Value(),
                Half(QuadOp(op, x, y)).Value(), (x.b0 & 1) as int, (y.b0 & 1) as int,
                (QuadOp(op, x, y).b0 & 1) as int, n);
    }
  }

  lemma {:induction false} WordBits(op: BitOp, x: Quad, y: Quad)
    ensures Bitwise(op, x.Value(), y.Value(), 32) == QuadOp(op, x, y).Value()
  {
    Pow2Of32();
    QuadBits(op, x, y, 32);
  }

  lemma {:induction false} NotIs(x: nat, n: nat)
    requires x < Pow2(n)
    ensures Not(x, n) == Pow2(n) - 1 - x
  {
    if n > 0 {
      NotIs(x / 2, n - 1);
    }
  }

  function NotQuad(x: Quad): Quad {
    Q(!x.b3, !x.b2, !x.b1, !x.b0)
  }

  lemma NotByte(x: bv8)
    ensures (!x) as int == 0xff - x as int
  {
  }

  lemma NotBits(x: Quad)
    ensures Not(x.Value(), 32) == NotQuad(x).Value()
  {
    Pow2Of32();
    NotIs(x.Value(), 32);
    NotByte(x.b3);
    NotByte(x.b2);
    NotByte(x.b1);
    NotByte(x.b0);
  }

  /** The auxiliary functions on bytes. */
  function MixQuads(f: Fn, x: Quad, y: Quad, z: Quad): Quad {
    match f
    case F => Q((x.b3 & y.b3) | (!x.b3 & z.b3), (x.b2 & y.b2) | (!x.b2 & z.b2),
                (x.b1 & y.b1) | (!x.b1 & z.b1), (x.b0 & y.b0) | (!x.b0 & z.b0))
    case G => Q((x.b3 & z.b3) | (y.b3 & !z.b3), (x.b2 & z.b2) | (y.b2 & !z.b2),
                (x.b1 & z.b1) | (y.b1 & !z.b1), (x.b0 & z.b0) | (y.b0 & !z.b0))
    case H => Q((x.b3 ^ y.b3) ^ z.b3, (x.b2 ^ y.b2) ^ z.b2, (x.b1 ^ y.b1) ^ z.b1, (x.b0 ^ y.b0) ^ z.b0)
    case I => Q(y.b3 ^ (x.b3 | !z.b3), y.b2 ^ (x.b2 | !z.b2), y.b1 ^ (x.b1 | !z.b1), y.b0 ^ (x.b0 | !z.b0))
  }

  lemma MixBytes(f: Fn, x: Quad, y: Quad, z: Quad)
    ensures MixQuads(f, x, y, z) ==
            match f
            case F => QuadOp(Or, QuadOp(And, x, y), QuadOp(And, NotQuad(x), z))
            case G => QuadOp(Or, QuadOp(And, x, z), QuadOp(And, y, NotQuad(z)))
            case H => QuadOp(Xor, QuadOp(Xor, x, y), z)
            case I => QuadOp(Xor, y, QuadOp(Or, x, NotQuad(z)))
  {
  }

  lemma MixIs(f: Fn, x: Quad, y: Quad, z: Quad)
    ensures Mix(f, x.Value(), y.Value(), z.Value()) == MixQuads(f, x, y, z).Value()
  {
    MixBytes(f, x, y, z);
    NotBits(x);
    NotBits(z);
    match f
    case F =>
      WordBits(And, x, y);
      WordBits(And, NotQuad(x), z);
      WordBits(Or, QuadOp(And, x, y), QuadOp(And, NotQuad(x), z));
    case G =>
      WordBits(And, x, z);
      WordBits(And, y, NotQuad(z));
      WordBits(Or, QuadOp(And, x, z), QuadOp(And, y, NotQuad(z)));
    case H =>
      WordBits(Xor, x, y);
      WordBits(Xor, QuadOp(Xor, x, y), z);
    case I =>
      WordBits(Or, x, NotQuad(z));
      WordBits(Xor, y, QuadOp(Or, x, NotQuad(z)));
  }

  // ----- A step -----

  /** 2^s and 2^(32 - s) for the rotations there are. */
  predicate Scales(s: nat, p: nat, q: nat) {
    match s
    case 4 => p == 0x10 && q == 0x10000000
    case 5 => p == 0x20 && q == 0x8000000
    case 6 => p == 0x40 && q == 0x4000000
    case 7 => p == 0x80 && q == 0x2000000
    case 9 => p == 0x200 && q == 0x800000
    case 10 => p == 0x400 && q == 0x400000
    case 11 => p == 0x800 && q == 0x200000
    case 12 => p == 0x1000 && q == 0x100000
    case 14 => p == 0x4000 && q == 0x40000
    case 15 => p == 0x8000 && q == 0x20000
    case 16 => p == 0x10000 && q == 0x10000
    case 17 => p == 0x20000 && q == 0x8000
    case 20 => p == 0x100000 && q == 0x1000
    case 21 => p == 0x200000 && q == 0x800
    case 22 => p == 0x400000 && q == 0x400
    case 23 => p == 0x800000 && q == 0x200
    case _ => false
  }

  lemma ScalesIs(s: nat, p: nat, q: nat)
    requires Scales(s, p, q)
    ensures s <= 32 && p == Pow2(s) && q == Pow2(32 - s)
  {
    assert Pow2(7) == 0x80 && Pow2(9) == 4 * Pow2(7) && Pow2(12) == 8 * Pow2(9) && Pow2(14) == 4 * Pow2(12);
    assert Pow2(17) == 8 * Pow2(14) && Pow2(20) == 8 * Pow2(17) && Pow2(23) == 8 * Pow2(20);
    assert Pow2(25) == 4 * Pow2(23) && Pow2(28) == 8 * Pow2(25);
  }

  lemma TurnedBits(x: nat, p: nat, q: nat, hi: nat, lo: nat)
    requires p > 0 && p * q == 0x1_0000_0000 && x == hi * q + lo && lo < q
    ensures x / q == hi && x * p % 0x1_0000_0000 == lo * p
  {
    DivModUnique(x, q, hi, lo);
    MulNat(lo, p);
    assert x * p == hi * (p * q) + lo * p;
    MulOrder(lo, q, p);
    DivModUnique(x * p, 0x1_0000_0000, hi, lo * p);
  }

  /** The upper bits of a word become the lower ones. */
  lemma RotateIs(x: nat, s: Shift, p: nat, q: nat, hi: nat, lo: nat)
    requires p == Pow2(s) && q == Pow2(32 - s) && x == hi * q + lo && lo < q
    ensures RotateLeft(x, s) == lo * p + hi
  {
    Pow2Of32();
    Pow2Add(s, 32 - s);
    TurnedBits(x, p, q, hi, lo);
  }

  /** How a step can be checked: the value of its function is `mix`, what is rotated consists of `hi`
      and `lo`, and `c` and `e` are carried out of the sums before and after. */
  datatype Hint = Hint(mix: Quad, p: nat, q: nat, hi: nat, lo: nat, c: nat, e: nat)

  /** A step on the alphabet makes `t` of `a`. */
  predicate Makes(row: Row, a: Quad, x: Quad, y: Quad, z: Quad, t: Quad, h: Hint) {
    && Scales(row.s, h.p, h.q) && MixQuads(row.f, x, y, z) == h.mix && h.lo < h.q
    && a.Value() + h.mix.Value() + DataWord(row.k) + row.t == h.hi * h.q + h.lo + 0x1_0000_0000 * h.c
    && h.hi * h.q + h.lo < 0x1_0000_0000 && x.Value() + (h.lo * h.p + h.hi) == t.Value() + 0x1_0000_0000 * h.e
  }

  lemma OpWithIs(mix: nat, a: nat, x: nat, d: nat, s: Shift, w: nat, p: nat, q: nat, hi: nat, lo: nat, t: nat,
                 c: nat, e: nat)
    requires Scales(s, p, q) && w == hi * q + lo < 0x1_0000_0000 && lo < q && t < 0x1_0000_0000
    requires a + mix + d == w + 0x1_0000_0000 * c && x + (lo * p + hi) == t + 0x1_0000_0000 * e
    ensures OpWith(mix, a, x, d % 0x1_0000_0000, s) == t
  {
    ScalesIs(s, p, q);
    RotateIs(w, s, p, q, hi, lo);
    ModAdd(a + mix, d, 0x1_0000_0000);
    DivModUnique(a + mix + d, 0x1_0000_0000, c, w);
    DivModUnique(x + (lo * p + hi), 0x1_0000_0000, e, t);
  }

  lemma OpIs(f: Fn, a: nat, x: nat, y: nat, z: nat, xt: nat, s: Shift, mix: nat)
    requires Mix(f, x, y, z) == mix
    ensures Op(f, a, x, y, z, xt, s) == OpWith(mix, a, x, xt, s)
  {
  }

  lemma OpByParts(f: Fn, a: nat, x: nat, y: nat, z: nat, d: nat, s: Shift,
                  mix: nat, p: nat, q: nat, w: nat, hi: nat, lo: nat, t: nat, c: nat, e: nat)
    requires Mix(f, x, y, z) == mix && Scales(s, p, q) && w == hi * q + lo < 0x1_0000_0000 && lo < q
    requires a + mix + d == w + 0x1_0000_0000 * c && x + (lo * p + hi) == t + 0x1_0000_0000 * e && t < 0x1_0000_0000
    ensures Op(f, a, x, y, z, d % 0x1_0000_0000, s) == t
  {
    OpIs(f, a, x, y, z, d % 0x1_0000_0000, s, mix);
    OpWithIs(mix, a, x, d, s, w, p, q, hi, lo, t, c, e);
  }

  lemma MakesOp(row: Row, a: Quad, x: Quad, y: Quad, z: Quad, t: Quad, h: Hint)
    requires Makes(row, a, x, y, z, t, h)
    ensures Op(row.f, a.Value(), x.Value(), y.Value(), z.Value(), (DataWord(row.k) + row.t) % 0x1_0000_0000, row.s)
            == t.Value()
  {
    MixIs(row.f, x, y, z);
    OpByParts(row.f, a.Value(), x.Value(), y.Value(), z.Value(), DataWord(row.k) + row.t, row.s,
              h.mix.Value(), h.p, h.q, h.hi * h.q + h.lo, h.hi, h.lo, t.Value(), h.c, h.e);
  }

  // ----- The alphabet -----

  /** "abcdefghijklmnopqrstuvwxyz" */
  const ALPHABET: seq<byte> := seq(26, i => 97 + i)

  /** The words of the padded alphabet. */
  function DataWord(k: nat): nat {
    match k
    case 0 => 0x64636261
    case 1 => 0x68676665
    case 2 => 0x6c6b6a69
    case 3 => 0x706f6e6d
    case 4 => 0x74737271
    case 5 => 0x78777675
    case 6 => 0x00807a79
    case 14 => 0xd0
    case _ => 0
  }

  /** Four steps from the i-th on make `t` of `r`. */
  predicate Makes4(rows: nat -> Row, i: nat, r: Regs<Quad>, t: Regs<Quad>, h: Regs<Hint>) {
    && Makes(rows(i), r.a, r.b, r.c, r.d, t.a, h.a)
    && Makes(rows(i + 1), r.d, t.a, r.b, r.c, t.d, h.d)
    && Makes(rows(i + 2), r.c, t.d, t.a, r.b, t.c, h.c)
    && Makes(rows(i + 3), r.b, t.c, t.d, t.a, t.b, h.b)
  }

  function Values(r: Regs<Quad>): State {
    Regs(r.a.Value(), r.b.Value(), r.c.Value(), r.d.Value())
  }

  /** The steps of the RFC on the alphabet, spelled out only where Detail is mentioned. */
  ghost predicate OnAlphabet(m: Machine<nat>) {
    forall k: nat {:trigger Detail(k)} | Detail(k) ::
      && (forall f, a, x, y, z, d, s :: m.op(f, a, x, y, z, d, s) == Op(f, a, x, y, z, d, s))
      && (forall k: nat, t: nat :: m.data(k, t) == (DataWord(k) + t) % 0x1_0000_0000)
  }

  lemma ApplyIs(m: Machine<nat>, row: Row, a: nat, x: nat, y: nat, z: nat)
    requires OnAlphabet(m)
    ensures Apply(m, row, a, x, y, z) == Op(row.f, a, x, y, z, (DataWord(row.k) + row.t) % 0x1_0000_0000, row.s)
  {
    assert Detail(0);
  }

  lemma MakesIs(m: Machine<nat>, row: Row, a: Quad, x: Quad, y: Quad, z: Quad, t: Quad, h: Hint)
    requires OnAlphabet(m) && Makes(row, a, x, y, z, t, h)
    ensures Apply(m, row, a.Value(), x.Value(), y.Value(), z.Value()) == t.Value()
  {
    ApplyIs(m, row, a.Value(), x.Value(), y.Value(), z.Value());
    MakesOp(row, a, x, y, z, t, h);
  }

  lemma {:induction false} TurnIs(m: Machine<nat>, rows: nat -> Row, i: nat, n: nat,
                                    r: Regs<Quad>, t: Regs<Quad>, h: Regs<Hint>)
    requires OnAlphabet(m) && i % 4 == 0 && n >= 4
    requires Makes4(rows, i, r, t, h) == true   // to be evaluated as a whole
    ensures Steps(m, rows, Values(r), i, n) == Steps(m, rows, Values(t), i + 4, n - 4)
  {
    MakesIs(m, rows(i), r.a, r.b, r.c, r.d, t.a, h.a);
    MakesIs(m, rows(i + 1), r.d, t.a, r.b, r.c, t.d, h.d);
    MakesIs(m, rows(i + 2), r.c, t.d, t.a, r.b, t.c, h.c);
    MakesIs(m, rows(i + 3), r.b, t.c, t.d, t.a, t.b, h.b);
    Turn(m, rows, Values(r), i, n);
  }

  // ----- What the registers hold after each four steps -----

  const S0 := Regs(Q(0x67, 0x45, 0x23, 0x01), Q(0xef, 0xcd, 0xab, 0x89),
         Q(0x98, 0xba, 0xdc, 0xfe), Q(0x10, 0x32, 0x54, 0x76))
  const S1 := Regs(Q(0xd6, 0xd1, 0x17, 0xa6), Q(0x45, 0x03, 0xb8, 0x12),
         Q(0x22, 0x7d, 0x8c, 0xf1), Q(0xaa, 0xb1, 0xaa, 0xaa))
  const S2 := Regs(Q(0xfe, 0x15, 0xf7, 0x87), Q(0xda, 0x9b, 0xbb, 0x0d),
         Q(0xb7, 0x11, 0x22, 0xfc), Q(0xa8, 0x11, 0xb2, 0x78))
  const S3 := Regs(Q(0xae, 0x75, 0x28, 0x99), Q(0x56, 0xcf, 0xa5, 0xcb),
         Q(0x7d, 0x4b, 0xd8, 0x0b), Q(0x2b, 0xbe, 0x75, 0x7f))
  const S4 := Regs(Q(0x17, 0x54, 0xa3, 0x16), Q(0x60, 0x8d, 0x6b, 0x7e),
         Q(0x00, 0xdf, 0x74, 0xd5), Q(0x85, 0x56, 0x7d, 0x90))
  const S5 := Regs(Q(0x2d, 0x80, 0x71, 0xcc), Q(0x4c, 0x21, 0x45, 0xb3),
         Q(0xed, 0xfe, 0x7e, 0x4b), Q(0x5d, 0xce, 0xe1, 0x19))
  const S6 := Regs(Q(0x57, 0x0c, 0x43, 0xe0), Q(0xc9, 0xf1, 0x62, 0xd4),
         Q(0xc2, 0x8a, 0xb4, 0x9d), Q(0x97, 0x7e, 0xfd, 0x2a))
  const S7 := Regs(Q(0x25, 0xbf, 0xae, 0x3b), Q(0xe6, 0xd3, 0xb3, 0x98),
         Q(0xf8, 0xc8, 0x36, 0x5f), Q(0x89, 0x98, 0x01, 0x04))
  const S8 := Regs(Q(0xf5, 0x4d, 0x87, 0x10), Q(0xae, 0xb3, 0x57, 0x66),
         Q(0x2e, 0x69, 0xaf, 0xc7), Q(0x92, 0x7b, 0x72, 0xe2))
  const S9 := Regs(Q(0xb4, 0xbf, 0x68, 0x0e), Q(0x06, 0xa5, 0xe2, 0x11),
         Q(0x23, 0x61, 0xed, 0x0a), Q(0x4c, 0x8f, 0xfa, 0x80))
  const S10 := Regs(Q(0xb9, 0xc0, 0xc7, 0x33), Q(0x8d, 0x41, 0xbf, 0x99),
         Q(0x23, 0xa9, 0x45, 0x1b), Q(0xf1, 0xe6, 0xdc, 0x7a))
  const S11 := Regs(Q(0xa3, 0xe8, 0x8e, 0xad), Q(0x90, 0xa3, 0x5a, 0xf5),
         Q(0x66, 0xf6, 0x46, 0x8d), Q(0x02, 0xc0, 0xb1, 0x1c))
  const S12 := Regs(Q(0xb5, 0xd4, 0x1f, 0x9c), Q(0x71, 0xd1, 0x03, 0x67),
         Q(0x70, 0x3d, 0x54, 0xd8), Q(0xa0, 0x4b, 0x49, 0x04))
  const S13 := Regs(Q(0xfc, 0x32, 0xdd, 0x6e), Q(0x33, 0xed, 0xb1, 0x97),
         Q(0xb3, 0x56, 0x02, 0xcb), Q(0x65, 0x45, 0x6b, 0x34))
  const S14 := Regs(Q(0xc1, 0xe9, 0x42, 0xf1), Q(0x83, 0x87, 0x7d, 0x1b),
         Q(0x23, 0xa6, 0x80, 0x48), Q(0xd9, 0xbb, 0x98, 0x7c))
  const S15 := Regs(Q(0x00, 0x77, 0xc2, 0x08), Q(0x5e, 0x6b, 0xc9, 0x30),
         Q(0xa3, 0xe2, 0x24, 0x7f), Q(0x84, 0x7f, 0xc2, 0xe7))
  const S16 := Regs(Q(0x70, 0x8e, 0xd9, 0xc2), Q(0x11, 0x16, 0xe6, 0xd8),
         Q(0xd3, 0x8f, 0x1e, 0x7f), Q(0x2b, 0xaf, 0x13, 0x54))

  lemma {:induction false} Turn1(m: Machine<nat>)
    requires OnAlphabet(m)
    ensures Steps(m, Rows1, Values(S0), 0, 16) == Steps(m, Rows1, Values(S1), 4, 12)
  {
    TurnIs(m, Rows1, 0, 16, S0, S1, Regs(
      Hint(Q(0x98, 0xba, 0xdc, 0xfe), 0x80, 0x2000000, 0x1d, 0x1ce06d8, 2, 1),
      Hint(Q(0xf6, 0xb1, 0x9b, 0xa6), 0x400000, 0x400, 0x62b21, 0x8a, 3, 0),
      Hint(Q(0xc7, 0xdd, 0x03, 0xa3), 0x20000, 0x8000, 0x1e247, 0x3be5, 1, 1),
      Hint(Q(0xce, 0xeb, 0xcb, 0xd8), 0x1000, 0x100000, 0x304, 0xd3e09, 2, 1)));
  }

  lemma {:induction false} Turn2(m: Machine<nat>)
    requires OnAlphabet(m)
    ensures Steps(m, Rows1, Values(S1), 4, 12) == Steps(m, Rows1, Values(S2), 8, 8)
  {
    TurnIs(m, Rows1, 4, 12, S1, S2, Regs(
      Hint(Q(0xaa, 0xb1, 0x8a, 0xb8), 0x80, 0x2000000, 0x75, 0x172247e, 2, 0),
      Hint(Q(0xe8, 0x15, 0xf7, 0x7b), 0x400000, 0x400, 0xa9811, 0x8e, 2, 0),
      Hint(Q(0xed, 0x13, 0xba, 0x02), 0x20000, 0x8000, 0x17084, 0x77f, 1, 0),
      Hint(Q(0x44, 0x69, 0xb8, 0x72), 0x1000, 0x100000, 0xaf1, 0xa9fbb, 1, 1)));
  }

  lemma {:induction false} Turn3(m: Machine<nat>)
    requires OnAlphabet(m)
    ensures Steps(m, Rows1, Values(S2), 8, 8) == Steps(m, Rows1, Values(S3), 12, 4)
  {
    TurnIs(m, Rows1, 8, 8, S2, S3, Regs(
      Hint(Q(0xb2, 0x11, 0x22, 0x7c), 0x80, 0x2000000, 0xc, 0x1a7b2db, 2, 1),
      Hint(Q(0xab, 0x3e, 0x70, 0x9b), 0x400000, 0x400, 0x3cdc0, 0x366, 2, 1),
      Hint(Q(0xfa, 0x35, 0xaa, 0x19), 0x20000, 0x8000, 0x1628c, 0x28c6, 2, 0),
      Hint(Q(0x9b, 0x11, 0x2a, 0x6d), 0x1000, 0x100000, 0xce6, 0x7d494, 1, 1)));
  }

  lemma {:induction false} Turn4(m: Machine<nat>)
    requires OnAlphabet(m)
    ensures Steps(m, Rows1, Values(S3), 12, 4) == Steps(m, Rows1, Values(S4), 16, 0)
  {
    TurnIs(m, Rows1, 12, 4, S3, S4, Regs(
      Hint(Q(0x7d, 0x7b, 0xd0, 0x3f), 0x80, 0x2000000, 0x4b, 0x18109fa, 1, 1),
      Hint(Q(0x17, 0x56, 0xf7, 0x92), 0x400000, 0x400, 0x2df6a9, 0x17e, 0, 0),
      Hint(Q(0x57, 0xdd, 0xa1, 0x5b), 0x20000, 0x8000, 0xf745, 0x3dc4, 1, 1),
      Hint(Q(0x7e, 0x4f, 0xf9, 0x0b), 0x1000, 0x100000, 0xa7a, 0x6e01d, 1, 0)));
  }

  lemma {:induction false} Turn5(m: Machine<nat>)
    requires OnAlphabet(m)
    ensures Steps(m, Rows2, Values(S4), 0, 16) == Steps(m, Rows2, Values(S5), 4, 12)
  {
    TurnIs(m, Rows2, 0, 16, S4, S5, Regs(
      Hint(Q(0x00, 0x8d, 0x69, 0x55), 0x20, 0x8000000, 0xe, 0x6679832, 1, 1),
      Hint(Q(0x7d, 0xce, 0xf0, 0x59), 0x100000, 0x1000, 0x2c768, 0x5e2, 2, 1),
      Hint(Q(0x4d, 0x8c, 0x71, 0x98), 0x4000, 0x40000, 0x1d32, 0x240be, 0, 0),
      Hint(Q(0x60, 0x80, 0x7b, 0xee), 0x200, 0x800000, 0x14d, 0x182737, 1, 0)));
  }

  lemma {:induction false} Turn6(m: Machine<nat>)
    requires OnAlphabet(m)
    ensures Steps(m, Rows2, Values(S5), 4, 12) == Steps(m, Rows2, Values(S6), 8, 8)
  {
    TurnIs(m, Rows2, 4, 12, S5, S6, Regs(
      Hint(Q(0xec, 0x30, 0x5f, 0x53), 0x20, 0x8000000, 0xd, 0x5757f1, 2, 0),
      Hint(Q(0xc2, 0x7a, 0xbc, 0x8a), 0x100000, 0x1000, 0x6ae37, 0x76, 2, 0),
      Hint(Q(0x17, 0x2c, 0x47, 0x62), 0x4000, 0x40000, 0x3773, 0xac2e, 1, 0),
      Hint(Q(0x45, 0x0d, 0x43, 0xf0), 0x200, 0x800000, 0x14a, 0x20395c, 0, 0)));
  }

  lemma {:induction false} Turn7(m: Machine<nat>)
    requires OnAlphabet(m)
    ensures Steps(m, Rows2, Values(S6), 8, 8) == Steps(m, Rows2, Values(S7), 12, 4)
  {
    TurnIs(m, Rows2, 8, 8, S6, S7, Regs(
      Hint(Q(0xc1, 0xf0, 0x60, 0x95), 0x20, 0x8000000, 0x7, 0x2de725b, 1, 1),
      Hint(Q(0xa8, 0x88, 0x27, 0x1f), 0x100000, 0x1000, 0xb7d39, 0xee0, 1, 1),
      Hint(Q(0xad, 0x9e, 0x8c, 0x2f), 0x4000, 0x40000, 0x355b, 0x1bcc0, 2, 0),
      Hint(Q(0x09, 0xfb, 0xe6, 0x59), 0x200, 0x800000, 0xc9, 0x31ec29, 1, 0)));
  }

  lemma {:induction false} Turn8(m: Machine<nat>)
    requires OnAlphabet(m)
    ensures Steps(m, Rows2, Values(S7), 12, 4) == Steps(m, Rows2, Values(S8), 16, 0)
  {
    TurnIs(m, Rows2, 12, 4, S7, S8, Regs(
      Hint(Q(0xf0, 0xd0, 0x37, 0x5b), 0x20, 0x8000000, 0x18, 0x73ce9b, 1, 0),
      Hint(Q(0x26, 0x7b, 0xf7, 0xe2), 0x100000, 0x1000, 0x9a79f, 0x804, 1, 0),
      Hint(Q(0x93, 0x5f, 0x36, 0x80), 0x4000, 0x40000, 0x3ce5, 0x26fb8, 1, 1),
      Hint(Q(0xf6, 0x5b, 0x87, 0x90), 0x200, 0x800000, 0x1d2, 0x4e96f5, 2, 1)));
  }

  lemma {:induction false} Turn9(m: Machine<nat>)
    requires OnAlphabet(m)
    ensures Steps(m, Rows3, Values(S8), 0, 16) == Steps(m, Rows3, Values(S9), 4, 12)
  {
    TurnIs(m, Rows3, 0, 16, S8, S9, Regs(
      Hint(Q(0x12, 0xa1, 0x8a, 0x43), 0x10, 0x10000000, 0x8, 0x60c10a, 2, 0),
      Hint(Q(0xdb, 0x51, 0x7f, 0x84), 0x800000, 0x200, 0x43f507, 0x1c6, 2, 1),
      Hint(Q(0x56, 0x83, 0xc5, 0xe8), 0x10000, 0x10000, 0xf28a, 0xd6d1, 0, 1),
      Hint(Q(0x34, 0x65, 0x90, 0xaf), 0x800, 0x200000, 0x272, 0x12fa12, 1, 1)));
  }

  lemma {:induction false} Turn10(m: Machine<nat>)
    requires OnAlphabet(m)
    ensures Steps(m, Rows3, Values(S9), 4, 12) == Steps(m, Rows3, Values(S10), 8, 8)
  {
    TurnIs(m, Rows3, 4, 12, S9, S10, Regs(
      Hint(Q(0x69, 0x4b, 0xf5, 0x9b), 0x10, 0x10000000, 0x2, 0xb31ae52, 2, 0),
      Hint(Q(0x6b, 0x8f, 0x5e, 0x52), 0x800000, 0x200, 0x187a7e, 0xd3, 1, 0),
      Hint(Q(0x4e, 0x83, 0xf9, 0x58), 0x10000, 0x10000, 0x68a1, 0x31c2, 1, 1),
      Hint(Q(0x9c, 0x04, 0xc8, 0x28), 0x800, 0x200000, 0x547, 0x704c2, 1, 0)));
  }

  lemma {:induction false} Turn11(m: Machine<nat>)
    requires OnAlphabet(m)
    ensures Steps(m, Rows3, Values(S10), 8, 8) == Steps(m, Rows3, Values(S11), 12, 4)
  {
    TurnIs(m, Rows3, 8, 8, S10, S11, Regs(
      Hint(Q(0x5f, 0x0e, 0x26, 0xf8), 0x10, 0x10000000, 0x4, 0x16a6cf1, 1, 0),
      Hint(Q(0xc7, 0xde, 0x79, 0x3c), 0x800000, 0x200, 0x2d1468, 0x53, 1, 0),
      Hint(Q(0x2c, 0x69, 0x80, 0x28), 0x10000, 0x10000, 0x9571, 0x6435, 1, 0),
      Hint(Q(0x0d, 0x00, 0x74, 0x2f), 0x800, 0x200000, 0x26f, 0xbdb04, 2, 1)));
  }

  lemma {:induction false} Turn12(m: Machine<nat>)
    requires OnAlphabet(m)
    ensures Steps(m, Rows3, Values(S11), 12, 4) == Steps(m, Rows3, Values(S12), 16, 0)
  {
    TurnIs(m, Rows3, 12, 4, S11, S12, Regs(
      Hint(Q(0xf4, 0x95, 0xad, 0x64), 0x10, 0x10000000, 0x7, 0x2530c4a, 2, 0),
      Hint(Q(0x65, 0xa2, 0x02, 0x40), 0x800000, 0x200, 0x13ae8f, 0x3, 2, 0),
      Hint(Q(0x85, 0x3c, 0x0c, 0x6d), 0x10000, 0x10000, 0xbd4, 0xcff2, 1, 1),
      Hint(Q(0x43, 0x81, 0x03, 0xe4), 0x800, 0x200000, 0x168, 0x1d4ee5, 1, 1)));
  }

  lemma {:induction false} Turn13(m: Machine<nat>)
    requires OnAlphabet(m)
    ensures Steps(m, Rows4, Values(S12), 0, 16) == Steps(m, Rows4, Values(S13), 4, 12)
  {
    TurnIs(m, Rows4, 0, 16, S12, S13, Regs(
      Hint(Q(0x0f, 0xc8, 0xe3, 0x27), 0x40, 0x4000000, 0x7, 0x2298768, 2, 0),
      Hint(Q(0xd6, 0x9a, 0x49, 0xef), 0x200000, 0x800, 0x17aecc, 0x404, 2, 1),
      Hint(Q(0x13, 0x5d, 0x22, 0xd2), 0x8000, 0x20000, 0x1797, 0x9c21, 1, 0),
      Hint(Q(0x8e, 0x23, 0xfc, 0x08), 0x400, 0x400000, 0x1c6, 0x1a44a3, 1, 1)));
  }

  lemma {:induction false} Turn14(m: Machine<nat>)
    requires OnAlphabet(m)
    ensures Steps(m, Rows4, Values(S13), 4, 12) == Steps(m, Rows4, Values(S14), 8, 8)
  {
    TurnIs(m, Rows4, 4, 12, S13, S14, Regs(
      Hint(Q(0x08, 0xa9, 0xb7, 0x14), 0x40, 0x4000000, 0x1a, 0x237ee45, 1, 0),
      Hint(Q(0xe6, 0x0d, 0x25, 0x32), 0x200000, 0x800, 0xfcd3, 0x2ff, 2, 0),
      Hint(Q(0x1c, 0x52, 0x9c, 0x8d), 0x8000, 0x20000, 0x67cc, 0x93d5, 1, 1),
      Hint(Q(0xfe, 0x04, 0x4e, 0x62), 0x400, 0x400000, 0x18b, 0x5f495, 2, 0)));
  }

  lemma {:induction false} Turn15(m: Machine<nat>)
    requires OnAlphabet(m)
    ensures Steps(m, Rows4, Values(S14), 8, 8) == Steps(m, Rows4, Values(S15), 12, 4)
  {
    TurnIs(m, Rows4, 8, 8, S14, S15, Regs(
      Hint(Q(0x84, 0x61, 0xff, 0xd3), 0x40, 0x4000000, 0x2d, 0x1f3c113, 1, 1),
      Hint(Q(0x7b, 0x95, 0xff, 0x18), 0x200000, 0x800, 0x9a4b1, 0x5d4, 1, 1),
      Hint(Q(0xfc, 0x08, 0x00, 0xef), 0x8000, 0x20000, 0x6198, 0x3ec4, 1, 0),
      Hint(Q(0x5f, 0xf8, 0x82, 0xa4), 0x400, 0x400000, 0xdf, 0x210200, 2, 0)));
  }

  lemma {:induction false} Turn16(m: Machine<nat>)
    requires OnAlphabet(m)
    ensures Steps(m, Rows4, Values(S15), 12, 4) == Steps(m, Rows4, Values(S16), 16, 0)
  {
    TurnIs(m, Rows4, 12, 4, S15, S16, Regs(
      Hint(Q(0xdc, 0x09, 0xd9, 0x47), 0x40, 0x4000000, 0x12, 0x488c42, 2, 0),
      Hint(Q(0xf4, 0x50, 0x2d, 0x2b), 0x200000, 0x800, 0x7c859, 0x1ec, 2, 1),
      Hint(Q(0xdb, 0x31, 0xee, 0x1d), 0x8000, 0x20000, 0xb2b, 0x14fc0, 2, 0),
      Hint(Q(0x22, 0xf4, 0x12, 0xf2), 0x400, 0x400000, 0x192, 0x2ec80e, 1, 1)));
  }

  // ----- The digest -----

  lemma AllSteps(m: Machine<nat>)
    requires OnAlphabet(m)
    ensures AllRounds(m, Values(S0)) == Values(S16)
  {
    Turn1(m); Turn2(m); Turn3(m); Turn4(m);
    Turn5(m); Turn6(m); Turn7(m); Turn8(m);
    Turn9(m); Turn10(m); Turn11(m); Turn12(m);
    Turn13(m); Turn14(m); Turn15(m); Turn16(m);
  }

  lemma PaddedAlphabet()
    ensures Pad(ALPHABET) == ALPHABET + [0x80] + seq(29, _ => 0) + [208, 0, 0, 0, 0, 0, 0, 0]
  {
    assert LengthBytes(26) == [208, 0, 0, 0, 0, 0, 0, 0];
  }

  lemma AlphabetWords(m: seq<byte>, k: nat)
    requires m == ALPHABET + [0x80] + seq(29, _ => 0) + [208, 0, 0, 0, 0, 0, 0, 0]
    ensures |m| == 64 && (4 * k + 4 <= 64 ==> Word(m, k) == DataWord(k)) && (4 * k + 4 > 64 ==> DataWord(k) == 0)
  {
  }

  lemma AlphabetMachine(m: seq<byte>)
    requires m == ALPHABET + [0x80] + seq(29, _ => 0) + [208, 0, 0, 0, 0, 0, 0, 0]
    ensures OnAlphabet(Machine(Op, BlockData(m)))
  {
    forall k: nat ensures |m| == 64 && (if 4 * k + 4 <= |m| then Word(m, k) else 0) == DataWord(k) {
      AlphabetWords(m, k);
    }
  }

  lemma AlphabetState(m: seq<byte>)
    requires m == ALPHABET + [0x80] + seq(29, _ => 0) + [208, 0, 0, 0, 0, 0, 0, 0]
    ensures Compress(INITIAL, m) == AddStates(INITIAL, Values(S16))
  {
    AlphabetMachine(m);
    AllSteps(Machine(Op, BlockData(m)));
    assert Values(S0) == INITIAL;
  }

  lemma AlphabetSums()
    ensures AddStates(INITIAL, Values(S16)) == Regs(0xd7d3fcc3, 0x00e49261, 0x6c49fb7d, 0x3be167ca)
  {
  }

  lemma BytesIs(x: nat, b0: nat, b1: nat, b2: nat, b3: nat)
    requires b0 < 0x100 && b1 < 0x100 && b2 < 0x100 && b3 < 0x100
    requires x == b0 + 0x100 * (b1 + 0x100 * (b2 + 0x100 * b3))
    ensures Bytes4(x) == [b0, b1, b2, b3]
  {
    var x2 := b2 + 0x100 * b3;
    DivModUnique(x, 0x100, b1 + 0x100 * x2, b0);
    DivModUnique(x, 0x1_0000, x2, b0 + 0x100 * b1);
    DivModUnique(x, 0x100_0000, b3, b0 + 0x100 * b1 + 0x1_0000 * b2);
    DivModUnique(b1 + 0x100 * x2, 0x100, x2, b1);
    DivModUnique(x2, 0x100, b3, b2);
  }

  lemma AlphabetBytes()
    ensures Encode(AddStates(INITIAL, Values(S16))) == [0xc3, 0xfc, 0xd3, 0xd7, 0x61, 0x92, 0xe4, 0x00,
            0x7d, 0xfb, 0x49, 0x6c, 0xca, 0x67, 0xe1, 0x3b]
  {
    AlphabetSums();
    BytesIs(0xd7d3fcc3, 0xc3, 0xfc, 0xd3, 0xd7);
    BytesIs(0x00e49261, 0x61, 0x92, 0xe4, 0x00);
    BytesIs(0x6c49fb7d, 0x7d, 0xfb, 0x49, 0x6c);
    BytesIs(0x3be167ca, 0xca, 0x67, 0xe1, 0x3b);
  }

  lemma {:induction false} OneBlock(f: (State, seq<byte>) -> State, m: seq<byte>)
    requires |m| == 64
    ensures Fold(f, INITIAL, m, 1) == f(INITIAL, m)
  {
    assert m[0..64] == m;
  }

  /** MD5 ("abcdefghijklmnopqrstuvwxyz") = c3fcd3d76192e4007dfb496cca67e13b */
  lemma AlphabetDigest()
    ensures Digest(ALPHABET) == [0xc3, 0xfc, 0xd3, 0xd7, 0x61, 0x92, 0xe4, 0x00,
            0x7d, 0xfb, 0x49, 0x6c, 0xca, 0x67, 0xe1, 0x3b]
  {
    PaddedAlphabet();
    AlphabetState(Pad(ALPHABET));
    OneBlock(Compress, Pad(ALPHABET));
    AlphabetBytes();
  }
}
