/** The central step of md5.c on words of any width from 32 bits up. */
module Md5Step {
  import opened Modular
  import opened Words
  import opened Md5Rounds
  import opened Md5Rfc

  /** The 32-bit value a wide word stands for. */
  function Low(x: nat): nat {
    x % 0x1_0000_0000
  }

  lemma {:induction false} LowIsTrunc(x: nat)
    ensures Low(x) == Trunc(x, 32) < Pow2(32)
  {
    Pow2Of32();
    TruncIsMod(x, 32);
    TruncBound(x, 32);
  }

  function F1(x: nat, y: nat, z: nat, w: nat): nat {
    Bitwise(Xor, z, Bitwise(And, x, Bitwise(Xor, y, z, w), w), w)
  }

  /** The core functions F1 to F4. */
  function Core(f: Fn, x: nat, y: nat, z: nat, w: nat): nat {
    match f
    case F => F1(x, y, z, w)
    case G => F1(z, x, y, w)
    case H => Bitwise(Xor, Bitwise(Xor, x, y, w), z, w)
    case I => Bitwise(Xor, y, Bitwise(Or, x, Not(z, w), w), w)
  }

  /** On wide words the core functions compute, in the low 32 bits, those of the RFC. */
  lemma CoreLow(f: Fn, x: nat, y: nat, z: nat, w: nat)
    requires w >= 32
    ensures Low(Core(f, x, y, z, w)) == Mix(f, Low(x), Low(y), Low(z))
  {
    LowIsTrunc(x);
    LowIsTrunc(y);
    LowIsTrunc(z);
    LowIsTrunc(Core(f, x, y, z, w));
    match f
    case F => F1Low(x, y, z, w);
    case G =>
      F1Low(z, x, y, w);
      AndCommutes(Low(z), Low(x), 32);
      AndCommutes(Not(Low(z), 32), Low(y), 32);
    case H =>
      BitwiseLow(Xor, Bitwise(Xor, x, y, w), z, w, 32);
      BitwiseLow(Xor, x, y, w, 32);
    case I =>
      BitwiseLow(Xor, y, Bitwise(Or, x, Not(z, w), w), w, 32);
      BitwiseLow(Or, x, Not(z, w), w, 32);
      NotLow(z, w, 32);
  }

  lemma F1Low(x: nat, y: nat, z: nat, w: nat)
    requires w >= 32
    ensures Low(F1(x, y, z, w)) == Mix(F, Low(x), Low(y), Low(z))
  {
    LowIsTrunc(x);
    LowIsTrunc(y);
    LowIsTrunc(z);
    LowIsTrunc(F1(x, y, z, w));
    BitwiseLow(Xor, z, Bitwise(And, x, Bitwise(Xor, y, z, w), w), w, 32);
    BitwiseLow(And, x, Bitwise(Xor, y, z, w), w, 32);
    BitwiseLow(Xor, y, z, w, 32);
    ChooseForms(Low(x), Low(y), Low(z), 32);
  }

  /** Sums wrap at the width of the word. */
  function Add(x: nat, y: nat, w: nat): nat {
    Trunc(x + y, w)
  }

  lemma {:induction false} LowOfTrunc(x: nat, w: nat)
    requires w >= 32
    ensures Low(Trunc(x, w)) == Low(x)
  {
    TruncTrunc(x, w, 32);
    LowIsTrunc(Trunc(x, w));
    LowIsTrunc(x);
  }

  lemma AddLow(x: nat, y: nat, w: nat)
    requires w >= 32
    ensures Low(Add(x, y, w)) == (Low(x) + Low(y)) % 0x1_0000_0000
    ensures Low(Add(x, y, w)) == (x + y) % 0x1_0000_0000
  {
    LowOfTrunc(x + y, w);
    ModAdd(x, y, 0x1_0000_0000);
  }

  /** w<<s | w>>(32-s) on a word whose value is below 2^32. */
  function Rotate(v: nat, s: Shift, w: nat): nat {
    Bitwise(Or, Trunc(ShiftLeft(v, s), w), ShiftRight(v, 32 - s), w)
  }

  /** The two shifted parts occupy different bits. */
  lemma {:induction false} RotateParts(v: nat, s: nat)
    requires s <= 32 && v < Pow2(32)
    ensures var high, low := Trunc(ShiftLeft(v, s), 32), ShiftRight(v, 32 - s);
            low < Pow2(s) && Bitwise(Or, high, low, 32) == high + low
  {
    var top := v % Pow2(32 - s);
    Pow2Add(32 - s, s);
    TruncIsMod(ShiftLeft(v, s), 32);
    ModScale(v, Pow2(32 - s), Pow2(s));
    DivBound(v, Pow2(32 - s), Pow2(s));
    MulOrder(top, Pow2(32 - s), Pow2(s));
    OrIsSum(top, ShiftRight(v, 32 - s), s, 32);
  }

  lemma {:induction false} Pow2Mono(a: nat, b: nat)
    requires a <= b
    ensures Pow2(a) <= Pow2(b)
  {
    if a < b {
      Pow2Mono(a, b - 1);
    }
  }

  /** The rotation by shifts, on wide words, is the rotation of the RFC in the low 32 bits. */
  lemma RotateLow(v: nat, s: nat, w: nat)
    requires w >= 32 && s <= 32 && v < Pow2(32)
    ensures Low(Rotate(v, s, w)) == RotateLeft(v, s)
  {
    LowIsTrunc(Rotate(v, s, w));
    RotateParts(v, s);
    Pow2Mono(s, 32);
    TruncSmall(ShiftRight(v, 32 - s), 32);
    TruncTrunc(ShiftLeft(v, s), w, 32);
    BitwiseLow(Or, Trunc(ShiftLeft(v, s), w), ShiftRight(v, 32 - s), w, 32);
    TruncIsMod(ShiftLeft(v, s), 32);
    Pow2Of32();
  }

  /** The arithmetic of MD5STEP on wide words. */
  lemma SumLow(a: nat, core: nat, data: nat, w: nat)
    requires w >= 32
    ensures Low(Add(a, Add(core, data, w), w)) == (Low(a) + Low(core) + Low(data)) % 0x1_0000_0000
  {
    AddLow(a, Add(core, data, w), w);
    AddLow(core, data, w);
    ModAdd(Low(a), Low(core) + Low(data), 0x1_0000_0000);
    assert Low(a) + (Low(core) + Low(data)) == Low(a) + Low(core) + Low(data);
  }

  /** MD5STEP on words of `w` bits. Only the sum before the rotation is masked; all else
      keeps whatever bits the word has above the 32nd. */
  function WideOp(w: nat): StepOp<nat> {
    (f, a, x, y, z, data, s) =>
      Add(Rotate(Low(Add(a, Add(Core(f, x, y, z, w), data, w), w)), s, w), x, w)
  }

  lemma RotateAddLow(sum: nat, s: Shift, x: nat, w: nat)
    requires w >= 32
    ensures Low(Add(Rotate(Low(sum), s, w), x, w)) == (Low(x) + RotateLeft(Low(sum), s)) % 0x1_0000_0000
  {
    LowIsTrunc(sum);
    RotateLow(Low(sum), s, w);
    AddLow(Rotate(Low(sum), s, w), x, w);
  }

  /** A step, with the value of its core function. */
  lemma StepLow(a: nat, core: nat, x: nat, data: nat, s: Shift, w: nat)
    requires w >= 32
    ensures Low(Add(Rotate(Low(Add(a, Add(core, data, w), w)), s, w), x, w)) ==
            OpWith(Low(core), Low(a), Low(x), Low(data), s)
  {
    RotateAddLow(Add(a, Add(core, data, w), w), s, x, w);
    SumLow(a, core, data, w);
  }

  lemma WideStep(w: nat, f: Fn, a: nat, x: nat, y: nat, z: nat, data: nat, s: Shift)
    requires w >= 32
    ensures Low(WideOp(w)(f, a, x, y, z, data, s)) == Op(f, Low(a), Low(x), Low(y), Low(z), Low(data), s)
  {
    var core := Core(f, x, y, z, w);
    CoreLow(f, x, y, z, w);
    StepLow(a, core, x, data, s, w);
  }
}
