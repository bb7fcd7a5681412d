/** Machine words of any width, and the bitwise operators on them. A word of width `n`
    is a natural number below 2^n. */
module Words {
  import opened Modular

  function Pow2(n: nat): (p: nat)
    ensures p > 0
  {
    if n == 0 then 1 else 2 * Pow2(n - 1)
  }

  lemma {:induction false} Pow2Add(a: nat, b: nat)
    ensures Pow2(a + b) == Pow2(a) * Pow2(b)
  {
    if a > 0 {
      Pow2Add(a - 1, b);
      assert Pow2(a + b) == 2 * Pow2(a - 1 + b);
    }
  }

  lemma Pow2Of32()
    ensures Pow2(32) == 0x1_0000_0000
  {
    assert Pow2(8) == 256;
    Pow2Add(8, 8);
    Pow2Add(16, 16);
  }

  function ShiftLeft(x: nat, s: nat): nat {
    MulNat(x, Pow2(s));
    x * Pow2(s)
  }

  function ShiftRight(x: nat, s: nat): nat {
    DivNat(x, Pow2(s));
    x / Pow2(s)
  }

  datatype BitOp = And | Or | Xor

  function Bit(op: BitOp, a: nat, b: nat): (r: nat)
    ensures r <= 1
  {
    match op
    case And => if a == 1 && b == 1 then 1 else 0
    case Or => if a == 1 || b == 1 then 1 else 0
    case Xor => if a != b then 1 else 0
  }

  /** The bitwise operators on the low `n` bits. */
  function Bitwise(op: BitOp, x: nat, y: nat, n: nat): nat {
    if n == 0 then 0 else Bit(op, x % 2, y % 2) + 2 * Bitwise(op, x / 2, y / 2, n - 1)
  }

  /** ~x on the low `n` bits. */
  function Not(x: nat, n: nat): nat {
    if n == 0 then 0 else (1 - x % 2) + 2 * Not(x / 2, n - 1)
  }

  lemma BitAndRest(b: nat, rest: nat)
    requires b <= 1
    ensures (b + 2 * rest) % 2 == b && (b + 2 * rest) / 2 == rest
  {
  }

  /** The lowest bit and the others. */
  lemma Halves(op: BitOp, x: nat, y: nat, n: nat)
    requires n > 0
    ensures Bitwise(op, x, y, n) % 2 == Bit(op, x % 2, y % 2)
    ensures Bitwise(op, x, y, n) / 2 == Bitwise(op, x / 2, y / 2, n - 1)
  {
    BitAndRest(Bit(op, x % 2, y % 2), Bitwise(op, x / 2, y / 2, n - 1));
  }

  lemma NotHalves(x: nat, n: nat)
    requires n > 0
    ensures Not(x, n) % 2 == 1 - x % 2 && Not(x, n) / 2 == Not(x / 2, n - 1)
  {
    BitAndRest(1 - x % 2, Not(x / 2, n - 1));
  }

  lemma SameHalves(a: nat, b: nat)
    requires a % 2 == b % 2 && a / 2 == b / 2
    ensures a == b
  {
  }

  /** The low `n` bits of a number, that is, its remainder modulo 2^n. */
  function Trunc(x: nat, n: nat): nat {
    if n == 0 then 0 else x % 2 + 2 * Trunc(x / 2, n - 1)
  }

  lemma TruncHalves(x: nat, n: nat)
    requires n > 0
    ensures Trunc(x, n) % 2 == x % 2 && Trunc(x, n) / 2 == Trunc(x / 2, n - 1)
  {
    BitAndRest(x % 2, Trunc(x / 2, n - 1));
  }

  lemma TwiceAndBit(x: nat, p: nat, t: nat)
    requires p > 0 && x / 2 % p == t
    ensures x % (2 * p) == x % 2 + 2 * t
  {
    var q := x / 2 / p;
    assert x / 2 == q * p + t;
    assert 2 * (q * p) == q * (2 * p);
    DivModUnique(x, 2 * p, q, x % 2 + 2 * t);
  }

  lemma {:induction false} TruncIsMod(x: nat, n: nat)
    ensures x % Pow2(n) == Trunc(x, n)
  {
    if n > 0 {
      TruncIsMod(x / 2, n - 1);
      TwiceAndBit(x, Pow2(n - 1), Trunc(x / 2, n - 1));
    }
  }

  lemma {:induction false} TruncSmall(x: nat, n: nat)
    requires x < Pow2(n)
    ensures Trunc(x, n) == x
  {
    if n > 0 {
      TruncSmall(x / 2, n - 1);
    }
  }

  lemma {:induction false} TruncTrunc(x: nat, n: nat, m: nat)
    requires m <= n
    ensures Trunc(Trunc(x, n), m) == Trunc(x, m)
  {
    if m > 0 {
      TruncTrunc(x / 2, n - 1, m - 1);
    }
  }

  lemma {:induction false} TruncBound(x: nat, n: nat)
    ensures Trunc(x, n) < Pow2(n)
  {
    if n > 0 {
      TruncBound(x / 2, n - 1);
    }
  }

  /** The low bits of a result depend on the low bits of the operands only. */
  lemma {:induction false} BitwiseLow(op: BitOp, x: nat, y: nat, n: nat, m: nat)
    requires m <= n
    ensures Trunc(Bitwise(op, x, y, n), m) == Bitwise(op, Trunc(x, m), Trunc(y, m), m)
  {
    if m > 0 {
      Halves(op, x, y, n);
      TruncHalves(x, m);
      TruncHalves(y, m);
      BitwiseLow(op, x / 2, y / 2, n - 1, m - 1);
    }
  }

  lemma {:induction false} NotLow(x: nat, n: nat, m: nat)
    requires m <= n
    ensures Trunc(Not(x, n), m) == Not(Trunc(x, m), m)
  {
    if m > 0 {
      NotHalves(x, n);
      TruncHalves(x, m);
      NotLow(x / 2, n - 1, m - 1);
    }
  }

  /** An `or` of numbers without common bits is their sum. */
  lemma {:induction false} OrIsSum(a: nat, b: nat, s: nat, n: nat)
    requires b < Pow2(s) && a * Pow2(s) + b < Pow2(n)
    ensures a * Pow2(s) >= 0 && Bitwise(Or, a * Pow2(s), b, n) == a * Pow2(s) + b
  {
    MulNat(a, Pow2(s));
    if s == 0 {
      OrZero(a, n);
    } else if n > 0 {
      var t := a * Pow2(s - 1);
      assert a * Pow2(s) == 2 * t;
      OrIsSum(a, b / 2, s - 1, n - 1);
    }
  }

  lemma {:induction false} OrZero(a: nat, n: nat)
    requires a < Pow2(n)
    ensures Bitwise(Or, a, 0, n) == a
  {
    if n > 0 {
      OrZero(a / 2, n - 1);
    }
  }

  /** Choosing bits of `y` or `z` by `x`: the form with one `and` equals the textbook form. */
  lemma {:induction false} ChooseForms(x: nat, y: nat, z: nat, n: nat)
    ensures Bitwise(Xor, z, Bitwise(And, x, Bitwise(Xor, y, z, n), n), n) ==
            Bitwise(Or, Bitwise(And, x, y, n), Bitwise(And, Not(x, n), z, n), n)
  {
    if n > 0 {
      var xor, and := Bitwise(Xor, y, z, n), Bitwise(And, x, Bitwise(Xor, y, z, n), n);
      var ones, zeros := Bitwise(And, x, y, n), Bitwise(And, Not(x, n), z, n);
      Halves(Xor, y, z, n);
      Halves(And, x, xor, n);
      Halves(Xor, z, and, n);
      Halves(And, x, y, n);
      NotHalves(x, n);
      Halves(And, Not(x, n), z, n);
      Halves(Or, ones, zeros, n);
      ChooseForms(x / 2, y / 2, z / 2, n - 1);
      SameHalves(Bitwise(Xor, z, and, n), Bitwise(Or, ones, zeros, n));
    }
  }

  lemma {:induction false} AndCommutes(x: nat, y: nat, n: nat)
    ensures Bitwise(And, x, y, n) == Bitwise(And, y, x, n)
  {
    if n > 0 {
      AndCommutes(x / 2, y / 2, n - 1);
    }
  }
}
