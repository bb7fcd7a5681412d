/** The 64 steps of MD5 for any kind of word: once as RFC 1321 numbers them, once as
    md5.c unrolls them. What a step computes is a parameter, as MD5STEP is in the C. */
module Md5Rounds {

  /** The auxiliary functions of section 3.4 of RFC 1321. */
  datatype Fn = F | G | H | I

  type Shift = s: nat | s <= 32

  /** An entry of the tables of section 3.4, one table a round: function, word of the block, T[i + 1] and
      rotation. */
  datatype Row = Row(f: Fn, k: nat, t: nat, s: Shift)

  function Rows1(i: nat): Row {
    match i
    case 0 => Row(F, 0, 0xd76aa478, 7)
    case 1 => Row(F, 1, 0xe8c7b756, 12)
    case 2 => Row(F, 2, 0x242070db, 17)
    case 3 => Row(F, 3, 0xc1bdceee, 22)
    case 4 => Row(F, 4, 0xf57c0faf, 7)
    case 5 => Row(F, 5, 0x4787c62a, 12)
    case 6 => Row(F, 6, 0xa8304613, 17)
    case 7 => Row(F, 7, 0xfd469501, 22)
    case 8 => Row(F, 8, 0x698098d8, 7)
    case 9 => Row(F, 9, 0x8b44f7af, 12)
    case 10 => Row(F, 10, 0xffff5bb1, 17)
    case 11 => Row(F, 11, 0x895cd7be, 22)
    case 12 => Row(F, 12, 0x6b901122, 7)
    case 13 => Row(F, 13, 0xfd987193, 12)
    case 14 => Row(F, 14, 0xa679438e, 17)
    case _ => Row(F, 15, 0x49b40821, 22)
  }

  function Rows2(i: nat): Row {
    match i
    case 0 => Row(G, 1, 0xf61e2562, 5)
    case 1 => Row(G, 6, 0xc040b340, 9)
    case 2 => Row(G, 11, 0x265e5a51, 14)
    case 3 => Row(G, 0, 0xe9b6c7aa, 20)
    case 4 => Row(G, 5, 0xd62f105d, 5)
    case 5 => Row(G, 10, 0x02441453, 9)
    case 6 => Row(G, 15, 0xd8a1e681, 14)
    case 7 => Row(G, 4, 0xe7d3fbc8, 20)
    case 8 => Row(G, 9, 0x21e1cde6, 5)
    case 9 => Row(G, 14, 0xc33707d6, 9)
    case 10 => Row(G, 3, 0xf4d50d87, 14)
    case 11 => Row(G, 8, 0x455a14ed, 20)
    case 12 => Row(G, 13, 0xa9e3e905, 5)
    case 13 => Row(G, 2, 0xfcefa3f8, 9)
    case 14 => Row(G, 7, 0x676f02d9, 14)
    case _ => Row(G, 12, 0x8d2a4c8a, 20)
  }

  function Rows3(i: nat): Row {
    match i
    case 0 => Row(H, 5, 0xfffa3942, 4)
    case 1 => Row(H, 8, 0x8771f681, 11)
    case 2 => Row(H, 11, 0x6d9d6122, 16)
    case 3 => Row(H, 14, 0xfde5380c, 23)
    case 4 => Row(H, 1, 0xa4beea44, 4)
    case 5 => Row(H, 4, 0x4bdecfa9, 11)
    case 6 => Row(H, 7, 0xf6bb4b60, 16)
    case 7 => Row(H, 10, 0xbebfbc70, 23)
    case 8 => Row(H, 13, 0x289b7ec6, 4)
    case 9 => Row(H, 0, 0xeaa127fa, 11)
    case 10 => Row(H, 3, 0xd4ef3085, 16)
    case 11 => Row(H, 6, 0x04881d05, 23)
    case 12 => Row(H, 9, 0xd9d4d039, 4)
    case 13 => Row(H, 12, 0xe6db99e5, 11)
    case 14 => Row(H, 15, 0x1fa27cf8, 16)
    case _ => Row(H, 2, 0xc4ac5665, 23)
  }

  function Rows4(i: nat): Row {
    match i
    case 0 => Row(I, 0, 0xf4292244, 6)
    case 1 => Row(I, 7, 0x432aff97, 10)
    case 2 => Row(I, 14, 0xab9423a7, 15)
    case 3 => Row(I, 5, 0xfc93a039, 21)
    case 4 => Row(I, 12, 0x655b59c3, 6)
    case 5 => Row(I, 3, 0x8f0ccc92, 10)
    case 6 => Row(I, 10, 0xffeff47d, 15)
    case 7 => Row(I, 1, 0x85845dd1, 21)
    case 8 => Row(I, 8, 0x6fa87e4f, 6)
    case 9 => Row(I, 15, 0xfe2ce6e0, 10)
    case 10 => Row(I, 6, 0xa3014314, 15)
    case 11 => Row(I, 13, 0x4e0811a1, 21)
    case 12 => Row(I, 4, 0xf7537e82, 6)
    case 13 => Row(I, 11, 0xbd3af235, 10)
    case 14 => Row(I, 2, 0x2ad7d2bb, 15)
    case _ => Row(I, 9, 0xeb86d391, 21)
  }

  /** The rounds walk through the words of the block with strides 1, 5, 3 and 7. */
  lemma Strides(i: nat)
    requires i < 16
    ensures Rows1(i).k == i && Rows2(i).k == (1 + 5 * i) % 16
    ensures Rows3(i).k == (5 + 3 * i) % 16 && Rows4(i).k == 7 * i % 16
  {
  }

  datatype Regs<W> = Regs(a: W, b: W, c: W, d: W)

  /** op(f, a, x, y, z, data, s) */
  type StepOp<!W> = (Fn, W, W, W, W, W, Shift) -> W

  /** data(k, t) is word `k` of the block plus the constant `t`. */
  type DataOp<!W> = (nat, nat) -> W

  datatype Machine<!W> = Machine(op: StepOp<W>, data: DataOp<W>)

  function Apply<W>(m: Machine<W>, row: Row, a: W, x: W, y: W, z: W): W {
    m.op(row.f, a, x, y, z, m.data(row.k, row.t), row.s)
  }

  /** Step `i`: the registers take turns in the order A, D, C, B. */
  function StepAt<W>(m: Machine<W>, rows: nat -> Row, r: Regs<W>, i: nat): Regs<W> {
    match i % 4
    case 0 => r.(a := Apply(m, rows(i), r.a, r.b, r.c, r.d))
    case 1 => r.(d := Apply(m, rows(i), r.d, r.a, r.b, r.c))
    case 2 => r.(c := Apply(m, rows(i), r.c, r.d, r.a, r.b))
    case _ => r.(b := Apply(m, rows(i), r.b, r.c, r.d, r.a))
  }

  /** Steps `i` to `i + n - 1`. */
  function Steps<W>(m: Machine<W>, rows: nat -> Row, r: Regs<W>, i: nat, n: nat): Regs<W>
    decreases m, n
  {
    if n == 0 then r else Steps(m, rows, StepAt(m, rows, r, i), i + 1, n - 1)
  }

  /** Four steps give each register its turn. */
  lemma Turn<W>(m: Machine<W>, rows: nat -> Row, r: Regs<W>, i: nat, n: nat)
    requires i % 4 == 0 && 4 <= n
    ensures var a := Apply(m, rows(i), r.a, r.b, r.c, r.d);
            var d := Apply(m, rows(i + 1), r.d, a, r.b, r.c);
            var c := Apply(m, rows(i + 2), r.c, d, a, r.b);
            var b := Apply(m, rows(i + 3), r.b, c, d, a);
            Steps(m, rows, r, i, n) == Steps(m, rows, Regs(a, b, c, d), i + 4, n - 4)
  {
    var r1 := StepAt(m, rows, r, i);
    var r2 := StepAt(m, rows, r1, i + 1);
    var r3 := StepAt(m, rows, r2, i + 2);
    assert Steps(m, rows, r1, i + 1, n - 1) == Steps(m, rows, r2, i + 2, n - 2);
    assert Steps(m, rows, r2, i + 2, n - 2) == Steps(m, rows, r3, i + 3, n - 3);
  }

  method Round1<W>(m: Machine<W>, r: Regs<W>) returns (t: Regs<W>)
    ensures t == Steps(m, Rows1, r, 0, 16)
  {
    var a, b, c, d := r.a, r.b, r.c, r.d;
    Turn(m, Rows1, Regs(a, b, c, d), 0, 16);
    a := m.op(F, a, b, c, d, m.data(0, 0xd76aa478), 7);
    d := m.op(F, d, a, b, c, m.data(1, 0xe8c7b756), 12);
    c := m.op(F, c, d, a, b, m.data(2, 0x242070db), 17);
    b := m.op(F, b, c, d, a, m.data(3, 0xc1bdceee), 22);
    Turn(m, Rows1, Regs(a, b, c, d), 4, 12);
    a := m.op(F, a, b, c, d, m.data(4, 0xf57c0faf), 7);
    d := m.op(F, d, a, b, c, m.data(5, 0x4787c62a), 12);
    c := m.op(F, c, d, a, b, m.data(6, 0xa8304613), 17);
    b := m.op(F, b, c, d, a, m.data(7, 0xfd469501), 22);
    Turn(m, Rows1, Regs(a, b, c, d), 8, 8);
    a := m.op(F, a, b, c, d, m.data(8, 0x698098d8), 7);
    d := m.op(F, d, a, b, c, m.data(9, 0x8b44f7af), 12);
    c := m.op(F, c, d, a, b, m.data(10, 0xffff5bb1), 17);
    b := m.op(F, b, c, d, a, m.data(11, 0x895cd7be), 22);
    Turn(m, Rows1, Regs(a, b, c, d), 12, 4);
    a := m.op(F, a, b, c, d, m.data(12, 0x6b901122), 7);
    d := m.op(F, d, a, b, c, m.data(13, 0xfd987193), 12);
    c := m.op(F, c, d, a, b, m.data(14, 0xa679438e), 17);
    b := m.op(F, b, c, d, a, m.data(15, 0x49b40821), 22);
    t := Regs(a, b, c, d);
  }

  method Round2<W>(m: Machine<W>, r: Regs<W>) returns (t: Regs<W>)
    ensures t == Steps(m, Rows2, r, 0, 16)
  {
    var a, b, c, d := r.a, r.b, r.c, r.d;
    Turn(m, Rows2, Regs(a, b, c, d), 0, 16);
    a := m.op(G, a, b, c, d, m.data(1, 0xf61e2562), 5);
    d := m.op(G, d, a, b, c, m.data(6, 0xc040b340), 9);
    c := m.op(G, c, d, a, b, m.data(11, 0x265e5a51), 14);
    b := m.op(G, b, c, d, a, m.data(0, 0xe9b6c7aa), 20);
    Turn(m, Rows2, Regs(a, b, c, d), 4, 12);
    a := m.op(G, a, b, c, d, m.data(5, 0xd62f105d), 5);
    d := m.op(G, d, a, b, c, m.data(10, 0x02441453), 9);
    c := m.op(G, c, d, a, b, m.data(15, 0xd8a1e681), 14);
    b := m.op(G, b, c, d, a, m.data(4, 0xe7d3fbc8), 20);
    Turn(m, Rows2, Regs(a, b, c, d), 8, 8);
    a := m.op(G, a, b, c, d, m.data(9, 0x21e1cde6), 5);
    d := m.op(G, d, a, b, c, m.data(14, 0xc33707d6), 9);
    c := m.op(G, c, d, a, b, m.data(3, 0xf4d50d87), 14);
    b := m.op(G, b, c, d, a, m.data(8, 0x455a14ed), 20);
    Turn(m, Rows2, Regs(a, b, c, d), 12, 4);
    a := m.op(G, a, b, c, d, m.data(13, 0xa9e3e905), 5);
    d := m.op(G, d, a, b, c, m.data(2, 0xfcefa3f8), 9);
    c := m.op(G, c, d, a, b, m.data(7, 0x676f02d9), 14);
    b := m.op(G, b, c, d, a, m.data(12, 0x8d2a4c8a), 20);
    t := Regs(a, b, c, d);
  }

  method Round3<W>(m: Machine<W>, r: Regs<W>) returns (t: Regs<W>)
    ensures t == Steps(m, Rows3, r, 0, 16)
  {
    var a, b, c, d := r.a, r.b, r.c, r.d;
    Turn(m, Rows3, Regs(a, b, c, d), 0, 16);
    a := m.op(H, a, b, c, d, m.data(5, 0xfffa3942), 4);
    d := m.op(H, d, a, b, c, m.data(8, 0x8771f681), 11);
    c := m.op(H, c, d, a, b, m.data(11, 0x6d9d6122), 16);
    b := m.op(H, b, c, d, a, m.data(14, 0xfde5380c), 23);
    Turn(m, Rows3, Regs(a, b, c, d), 4, 12);
    a := m.op(H, a, b, c, d, m.data(1, 0xa4beea44), 4);
    d := m.op(H, d, a, b, c, m.data(4, 0x4bdecfa9), 11);
    c := m.op(H, c, d, a, b, m.data(7, 0xf6bb4b60), 16);
    b := m.op(H, b, c, d, a, m.data(10, 0xbebfbc70), 23);
    Turn(m, Rows3, Regs(a, b, c, d), 8, 8);
    a := m.op(H, a, b, c, d, m.data(13, 0x289b7ec6), 4);
    d := m.op(H, d, a, b, c, m.data(0, 0xeaa127fa), 11);
    c := m.op(H, c, d, a, b, m.data(3, 0xd4ef3085), 16);
    b := m.op(H, b, c, d, a, m.data(6, 0x04881d05), 23);
    Turn(m, Rows3, Regs(a, b, c, d), 12, 4);
    a := m.op(H, a, b, c, d, m.data(9, 0xd9d4d039), 4);
    d := m.op(H, d, a, b, c, m.data(12, 0xe6db99e5), 11);
    c := m.op(H, c, d, a, b, m.data(15, 0x1fa27cf8), 16);
    b := m.op(H, b, c, d, a, m.data(2, 0xc4ac5665), 23);
    t := Regs(a, b, c, d);
  }

  method Round4<W>(m: Machine<W>, r: Regs<W>) returns (t: Regs<W>)
    ensures t == Steps(m, Rows4, r, 0, 16)
  {
    var a, b, c, d := r.a, r.b, r.c, r.d;
    Turn(m, Rows4, Regs(a, b, c, d), 0, 16);
    a := m.op(I, a, b, c, d, m.data(0, 0xf4292244), 6);
    d := m.op(I, d, a, b, c, m.data(7, 0x432aff97), 10);
    c := m.op(I, c, d, a, b, m.data(14, 0xab9423a7), 15);
    b := m.op(I, b, c, d, a, m.data(5, 0xfc93a039), 21);
    Turn(m, Rows4, Regs(a, b, c, d), 4, 12);
    a := m.op(I, a, b, c, d, m.data(12, 0x655b59c3), 6);
    d := m.op(I, d, a, b, c, m.data(3, 0x8f0ccc92), 10);
    c := m.op(I, c, d, a, b, m.data(10, 0xffeff47d), 15);
    b := m.op(I, b, c, d, a, m.data(1, 0x85845dd1), 21);
    Turn(m, Rows4, Regs(a, b, c, d), 8, 8);
    a := m.op(I, a, b, c, d, m.data(8, 0x6fa87e4f), 6);
    d := m.op(I, d, a, b, c, m.data(15, 0xfe2ce6e0), 10);
    c := m.op(I, c, d, a, b, m.data(6, 0xa3014314), 15);
    b := m.op(I, b, c, d, a, m.data(13, 0x4e0811a1), 21);
    Turn(m, Rows4, Regs(a, b, c, d), 12, 4);
    a := m.op(I, a, b, c, d, m.data(4, 0xf7537e82), 6);
    d := m.op(I, d, a, b, c, m.data(11, 0xbd3af235), 10);
    c := m.op(I, c, d, a, b, m.data(2, 0x2ad7d2bb), 15);
    b := m.op(I, b, c, d, a, m.data(9, 0xeb86d391), 21);
    t := Regs(a, b, c, d);
  }

  function AllRounds<W>(m: Machine<W>, r: Regs<W>): Regs<W> {
    var r1 := Steps(m, Rows1, r, 0, 16);
    var r2 := Steps(m, Rows2, r1, 0, 16);
    var r3 := Steps(m, Rows3, r2, 0, 16);
    Steps(m, Rows4, r3, 0, 16)
  }

  /** The unrolled body of lutil_MD5Transform. */
  method Unrolled<W>(m: Machine<W>, r: Regs<W>) returns (t: Regs<W>)
    ensures t == AllRounds(m, r)
  {
    t := Round1(m, r);
    t := Round2(m, t);
    t := Round3(m, t);
    t := Round4(m, t);
  }

  function MapRegs<V, W>(low: V -> W, r: Regs<V>): Regs<W> {
    Regs(low(r.a), low(r.b), low(r.c), low(r.d))
  }

  /** `low` carries every step on `V` to the same step on `W`. */
  ghost predicate Simulates<V(!new), W>(low: V -> W, m: Machine<V>, m': Machine<W>) {
    && (forall f, a, x, y, z, d, s ::
          low(m.op(f, a, x, y, z, d, s)) == m'.op(f, low(a), low(x), low(y), low(z), low(d), s))
    && (forall k, t :: low(m.data(k, t)) == m'.data(k, t))
  }

  lemma {:induction false} StepsSimulate<V(!new), W>(
      low: V -> W, m: Machine<V>, m': Machine<W>, rows: nat -> Row, r: Regs<V>, i: nat, n: nat)
    requires Simulates(low, m, m')
    ensures MapRegs(low, Steps(m, rows, r, i, n)) == Steps(m', rows, MapRegs(low, r), i, n)
    decreases n
  {
    if n > 0 {
      StepsSimulate(low, m, m', rows, StepAt(m, rows, r, i), i + 1, n - 1);
    }
  }

  /** A simulation of one step is a simulation of all 64. */
  lemma RoundsSimulate<V(!new), W>(low: V -> W, m: Machine<V>, m': Machine<W>, r: Regs<V>)
    requires Simulates(low, m, m')
    ensures MapRegs(low, AllRounds(m, r)) == AllRounds(m', MapRegs(low, r))
  {
    var r1 := Steps(m, Rows1, r, 0, 16);
    var r2 := Steps(m, Rows2, r1, 0, 16);
    var r3 := Steps(m, Rows3, r2, 0, 16);
    StepsSimulate(low, m, m', Rows1, r, 0, 16);
    StepsSimulate(low, m, m', Rows2, r1, 0, 16);
    StepsSimulate(low, m, m', Rows3, r2, 0, 16);
    StepsSimulate(low, m, m', Rows4, r3, 0, 16);
  }
}
