/** str_to_base64 of smtp.c, against sections 4 and 5 of RFC 4648. */
module Base64 {
  import opened Bytes
  import opened Modular

  /** basis_64 */
  function Basis(n: nat): byte
    requires n < 64
  {
    if n < 26 then 65 + n else if n < 52 then 71 + n else if n < 62 then n - 4 else if n == 62 then 43 else 47
  }

  /** The value of a character of the alphabet, or 64. */
  function Value(c: byte): (n: nat)
    ensures n <= 64
  {
    if 65 <= c <= 90 then c as int - 65
    else if 97 <= c <= 122 then c as int - 71
    else if 48 <= c <= 57 then c as int + 4
    else if c == 43 then 62
    else if c == 47 then 63
    else 64
  }

  /** Four characters for one, two or three bytes. */
  function Group(s: seq<byte>): (g: seq<byte>)
    requires 1 <= |s| <= 3
    ensures |g| == 4
  {
    var c1: int, c2: int, c3: int := s[0], if |s| > 1 then s[1] else 0, if |s| > 2 then s[2] else 0;
    [Basis(c1 / 4), Basis(c1 % 4 * 16 + c2 / 16),
     if |s| > 1 then Basis(c2 % 16 * 4 + c3 / 64) else 61, if |s| > 2 then Basis(c3 % 64) else 61]
  }

  function Encode(s: seq<byte>): (t: seq<byte>)
    ensures |t| == 4 * ((|s| + 2) / 3)
  {
    if s == [] then [] else if |s| <= 3 then Group(s) else Group(s[..3]) + Encode(s[3..])
  }

  datatype Option<T> = None | Some(value: T)

  /** One, two or three bytes from six-bit values; bits that are dropped must be zero. */
  function Combine(v0: nat, v1: nat, v2: nat, v3: nat, n: nat): Option<seq<byte>>
    requires v0 < 64 && v1 < 64 && v2 < 64 && v3 < 64 && 1 <= n <= 3
  {
    if n == 1 then
      if v1 % 16 == 0 then Some([v0 * 4 + v1 / 16]) else None
    else if n == 2 then
      if v2 % 4 == 0 then Some([v0 * 4 + v1 / 16, v1 % 16 * 16 + v2 / 4]) else None
    else
      Some([v0 * 4 + v1 / 16, v1 % 16 * 16 + v2 / 4, v2 % 4 * 64 + v3])
  }

  /** Four characters. Those outside the alphabet, padding before the end, and non-zero bits
      that padding drops are refused. */
  function DecodeGroup(t: seq<byte>, last: bool): Option<seq<byte>>
    requires |t| == 4
  {
    var v0, v1, v2, v3 := Value(t[0]), Value(t[1]), Value(t[2]), Value(t[3]);
    if v0 == 64 || v1 == 64 then None
    else if last && t[2] == 61 && t[3] == 61 then Combine(v0, v1, 0, 0, 1)
    else if v2 == 64 then None
    else if last && t[3] == 61 then Combine(v0, v1, v2, 0, 2)
    else if v3 == 64 then None
    else Combine(v0, v1, v2, v3, 3)
  }

  function Decode(t: seq<byte>): Option<seq<byte>> {
    if t == [] then
      Some([])
    else if |t| < 4 then
      None
    else
      match DecodeGroup(t[..4], |t| == 4)
      case None => None
      case Some(g) =>
        match Decode(t[4..])
        case None => None
        case Some(rest) => Some(g + rest)
  }

  /** The alphabet of RFC 4648, section 4. */
  function Letter(n: nat): char
    requires n < 64
  {
    ("ABCDEFGHIJKLMNOPQRSTUVWXYZ" + "abcdefghijklmnopqrstuvwxyz" + "0123456789" + "+/")[n]
  }

  /** The k-th group of three bytes as one number of 24 bits; missing bytes are zero. */
  function Bits24(s: seq<byte>, k: nat): nat
    requires 3 * k < |s|
  {
    var b0: nat, b1: nat, b2: nat :=
      s[3 * k], if 3 * k + 1 < |s| then s[3 * k + 1] else 0, if 3 * k + 2 < |s| then s[3 * k + 2] else 0;
    b0 * 65536 + b1 * 256 + b2
  }

  /** Bits 23 to 18, 17 to 12, 11 to 6 or 5 to 0 of such a number. */
  function SixOf(x: nat, j: nat): nat {
    (if j == 0 then x / 0x4_0000 else if j == 1 then x / 0x1000 else if j == 2 then x / 0x40 else x) % 64
  }

  lemma {:induction false} BasisIs(n: nat)
    requires n < 64
    ensures Basis(n) == Letter(n) as int
  {
  }

  /** The six bits between a higher and a lower part. */
  lemma Between(x: nat, d: nat, high: nat, six: nat, low: nat)
    requires d > 0 && low < d && six < 64 && x == (high * 64 + six) * d + low
    ensures x / d % 64 == six
  {
    DivModUnique(x, d, high * 64 + six, low);
    DivModUnique(high * 64 + six, 64, high, six);
  }

  lemma SixOfBytes(b0: nat, b1: nat, b2: nat)
    requires b0 < 256 && b1 < 256 && b2 < 256
    ensures var x := b0 * 65536 + b1 * 256 + b2;
            && SixOf(x, 0) == b0 / 4 && SixOf(x, 1) == b0 % 4 * 16 + b1 / 16
            && SixOf(x, 2) == b1 % 16 * 4 + b2 / 64 && SixOf(x, 3) == b2 % 64
  {
    var x := b0 * 65536 + b1 * 256 + b2;
    Between(x, 0x4_0000, 0, b0 / 4, b0 % 4 * 65536 + b1 * 256 + b2);
    Between(x, 0x1000, b0 / 4, b0 % 4 * 16 + b1 / 16, b1 % 16 * 256 + b2);
    Between(x, 0x40, b0 * 16 + b1 / 16, b1 % 16 * 4 + b2 / 64, b2 % 64);
    Between(x, 1, b0 * 1024 + b1 * 4 + b2 / 64, b2 % 64, 0);
  }

  lemma GroupIs(s: seq<byte>, j: nat)
    requires 1 <= |s| <= 3 && j < 4
    ensures Group(s)[j] == if j > |s| then 61 else Basis(SixOf(Bits24(s, 0), j))
  {
    SixOfBytes(s[0], if |s| > 1 then s[1] else 0, if |s| > 2 then s[2] else 0);
  }

  lemma Bits24Next(s: seq<byte>, k: nat)
    requires 3 * (k + 1) < |s|
    ensures Bits24(s, k + 1) == Bits24(s[3..], k)
  {
  }

  lemma {:induction false} EncodeAt(s: seq<byte>, k: nat, j: nat)
    requires 3 * k < |s| && j < 4
    ensures k == 0 ==> Encode(s)[j] == Group(if |s| <= 3 then s else s[..3])[j]
    ensures k > 0 ==> 3 * (k - 1) < |s[3..]| && Encode(s)[4 * k + j] == Encode(s[3..])[4 * (k - 1) + j]
  {
  }

  lemma {:induction false} CharacterOf(s: seq<byte>, k: nat, j: nat)
    requires 3 * k < |s| && j < 4
    ensures Encode(s)[4 * k + j] == if 3 * k + j > |s| then 61 else Basis(SixOf(Bits24(s, k), j))
  {
    EncodeAt(s, k, j);
    if k == 0 {
      GroupIs(if |s| <= 3 then s else s[..3], j);
    } else {
      CharacterOf(s[3..], k - 1, j);
      Bits24Next(s, k - 1);
    }
  }

  /** Each character of an encoding, four for a group of three bytes: six bits of the bytes, or
      padding behind them. */
  lemma {:induction false} CharacterIs(s: seq<byte>, k: nat, j: nat)
    requires 3 * k < |s| && j < 4
    ensures Encode(s)[4 * k + j] == if 3 * k + j > |s| then '=' as int else Letter(SixOf(Bits24(s, k), j)) as int
  {
    var n := SixOf(Bits24(s, k), j);
    CharacterOf(s, k, j);
    BasisIs(n);
  }

  lemma ValueOfBasis(n: nat)
    requires n < 64
    ensures Value(Basis(n)) == n && Basis(n) != 61
  {
  }

  lemma BasisOfValue(c: byte)
    requires Value(c) < 64
    ensures Basis(Value(c)) == c
  {
  }

  /** Four six-bit numbers hold three bytes. */
  lemma SixBits(c1: nat, c2: nat, c3: nat)
    requires c1 < 256 && c2 < 256 && c3 < 256
    ensures var v1, v2 := c1 % 4 * 16 + c2 / 16, c2 % 16 * 4 + c3 / 64;
            && v1 < 64 && v2 < 64 && c1 / 4 * 4 + v1 / 16 == c1 && v1 % 16 * 16 + v2 / 4 == c2
            && v2 % 4 * 64 + c3 % 64 == c3
            && (c2 == 0 ==> v1 % 16 == 0) && (c3 == 0 ==> v2 % 4 == 0)
  {
  }

  /** And three bytes hold four six-bit numbers. */
  lemma ThreeBytes(v0: nat, v1: nat, v2: nat, v3: nat)
    requires v0 < 64 && v1 < 64 && v2 < 64 && v3 < 64
    ensures var b0, b1, b2 := v0 * 4 + v1 / 16, v1 % 16 * 16 + v2 / 4, v2 % 4 * 64 + v3;
            && b0 < 256 && b1 < 256 && b2 < 256 && b0 / 4 == v0 && b2 % 64 == v3
            && b0 % 4 * 16 + b1 / 16 == v1 && b1 % 16 * 4 + b2 / 64 == v2
            && (v1 % 16 == 0 ==> b0 % 4 * 16 == v1) && (v2 % 4 == 0 ==> b1 % 16 * 4 == v2)
  {
  }

  lemma CombineBytes(s: seq<byte>)
    requires 1 <= |s| <= 3
    ensures var c1: int, c2: int, c3: int := s[0], if |s| > 1 then s[1] else 0, if |s| > 2 then s[2] else 0;
            Combine(c1 / 4, c1 % 4 * 16 + c2 / 16, c2 % 16 * 4 + c3 / 64, c3 % 64, |s|) == Some(s)
  {
    var c1: int, c2: int, c3: int := s[0], if |s| > 1 then s[1] else 0, if |s| > 2 then s[2] else 0;
    SixBits(c1, c2, c3);
    assert s == if |s| == 1 then [c1] else if |s| == 2 then [c1, c2] else [c1, c2, c3];
  }

  lemma GroupDecodes(s: seq<byte>, last: bool)
    requires 1 <= |s| <= 3 && (|s| == 3 || last)
    ensures DecodeGroup(Group(s), last) == Some(s)
  {
    var c1: int, c2: int, c3: int := s[0], if |s| > 1 then s[1] else 0, if |s| > 2 then s[2] else 0;
    ValueOfBasis(c1 / 4);
    ValueOfBasis(c1 % 4 * 16 + c2 / 16);
    ValueOfBasis(c2 % 16 * 4 + c3 / 64);
    ValueOfBasis(c3 % 64);
    CombineBytes(s);
  }

  lemma GroupOfParts(g: seq<byte>, v0: nat, v1: nat, v2: nat, v3: nat)
    requires 1 <= |g| <= 3 && g[0] / 4 == v0 && g[0] % 4 * 16 + (if |g| > 1 then g[1] / 16 else 0) == v1
    requires |g| > 1 ==> g[1] % 16 * 4 + (if |g| > 2 then g[2] / 64 else 0) == v2
    requires |g| > 2 ==> g[2] % 64 == v3
    ensures Group(g) == [Basis(v0), Basis(v1), if |g| > 1 then Basis(v2) else 61, if |g| > 2 then Basis(v3) else 61]
  {
  }

  /** The characters for the bytes of four values are those of the values. */
  lemma GroupOfBytes(v0: nat, v1: nat, v2: nat, v3: nat, n: nat)
    requires v0 < 64 && v1 < 64 && v2 < 64 && v3 < 64 && 1 <= n <= 3 && Combine(v0, v1, v2, v3, n).Some?
    ensures var g := Combine(v0, v1, v2, v3, n).value;
            && |g| == n
            && Group(g) == [Basis(v0), Basis(v1), if n > 1 then Basis(v2) else 61, if n > 2 then Basis(v3) else 61]
  {
    ThreeBytes(v0, v1, v2, v3);
    GroupOfParts(Combine(v0, v1, v2, v3, n).value, v0, v1, v2, v3);
  }

  lemma GroupEncodes(t: seq<byte>, last: bool)
    requires |t| == 4 && DecodeGroup(t, last).Some?
    ensures var g := DecodeGroup(t, last).value; 1 <= |g| <= 3 && (|g| == 3 || last) && Group(g) == t
  {
    var v0, v1, v2, v3 := Value(t[0]), Value(t[1]), Value(t[2]), Value(t[3]);
    var n := if last && t[2] == 61 && t[3] == 61 then 1 else if last && t[3] == 61 then 2 else 3;
    GroupOfBytes(v0, v1, if n > 1 then v2 else 0, if n > 2 then v3 else 0, n);
    BasisOfValue(t[0]);
    BasisOfValue(t[1]);
    if n > 1 {
      BasisOfValue(t[2]);
    }
    if n > 2 {
      BasisOfValue(t[3]);
    }
    assert t == [t[0], t[1], t[2], t[3]];
  }

  lemma {:induction false} RoundTrip(s: seq<byte>)
    ensures Decode(Encode(s)) == Some(s)
  {
    if s != [] {
      var n := if |s| <= 3 then |s| else 3;
      var t := Encode(s);
      assert t[..4] == Group(s[..n]) && t[4..] == Encode(s[n..]) by {
        assert s[..n] + s[n..] == s && (n == |s| ==> s[..n] == s && s[n..] == []);
      }
      GroupDecodes(s[..n], |t| == 4);
      RoundTrip(s[n..]);
      assert s[..n] + s[n..] == s;
    }
  }

  lemma {:induction false} EncodeStep(g: seq<byte>, rest: seq<byte>)
    requires 1 <= |g| <= 3 && (|g| == 3 || rest == [])
    ensures Encode(g + rest) == Group(g) + Encode(rest)
  {
    if rest == [] {
      assert g + rest == g && Group(g) + [] == Group(g);
    } else {
      assert (g + rest)[..3] == g && (g + rest)[3..] == rest;
    }
  }

  /** Nothing but an encoding can be decoded. */
  lemma {:induction false} OnlyEncodings(t: seq<byte>)
    requires Decode(t).Some?
    ensures Encode(Decode(t).value) == t
  {
    if t != [] {
      GroupEncodes(t[..4], |t| == 4);
      OnlyEncodings(t[4..]);
      EncodeStep(DecodeGroup(t[..4], |t| == 4).value, Decode(t[4..]).value);
      assert t[..4] + t[4..] == t;
    }
  }

  lemma NextThree(pos: nat, n: nat)
    requires pos % 3 == 0 && 1 <= n <= 3
    ensures (pos + n + 2) / 3 == (pos + 2) / 3 + 1 && (n == 3 ==> (pos + n) % 3 == 0)
  {
  }

  lemma GroupsNext(str: seq<byte>, pos: nat, n: nat)
    requires pos % 3 == 0 && pos < |str| && n == if |str| - pos < 3 then |str| - pos else 3
    ensures Encode(str[pos..]) == Group(str[pos..pos + n]) + Encode(str[pos + n..])
    ensures (pos + n + 2) / 3 == (pos + 2) / 3 + 1 && (pos + n < |str| ==> (pos + n) % 3 == 0)
  {
    NextThree(pos, n);
    var s := str[pos..];
    if |s| <= 3 {
      assert str[pos..pos + n] == s && str[pos + n..] == [];
    } else {
      assert s[..3] == str[pos..pos + n] && s[3..] == str[pos + n..];
    }
  }

  /** One iteration: the next group. */
  method PutGroup(str: seq<byte>, pos: nat, buf: array<byte>, used: nat) returns (n: nat)
    requires pos < |str| && used + 4 <= buf.Length
    modifies buf
    ensures n == if |str| - pos < 3 then |str| - pos else 3
    ensures buf[..] == old(buf[..used]) + Group(str[pos..pos + n]) + old(buf[used + 4..])
  {
    var c1: int, c2: int, c3: int := str[pos], 0, 0;
    n := 1;
    buf[used] := Basis(c1 / 4);
    if pos + 1 < |str| {
      n, c2 := 2, str[pos + 1];
    }
    buf[used + 1] := Basis(c1 % 4 * 16 + c2 / 16);
    if n == 1 {
      buf[used + 2], buf[used + 3] := 61, 61;
      return;
    }
    if pos + 2 < |str| {
      n, c3 := 3, str[pos + 2];
    }
    buf[used + 2] := Basis(c2 % 16 * 4 + c3 / 64);
    buf[used + 3] := if n == 2 then 61 else Basis(c3 % 64);
  }

  lemma Rejoin(old1: seq<byte>, now: seq<byte>, group: seq<byte>, used: nat, rest: seq<byte>, all: seq<byte>)
    requires |group| == 4 && used + 4 <= |old1| && now == old1[..used] + group + old1[used + 4..]
    requires old1[..used] + (group + rest) == all
    ensures now[..used + 4] + rest == all && now[used + 4..] == old1[used + 4..]
  {
  }

  /** A small difference as an unsigned int. */
  function Unsigned(x: int): int {
    if x < 0 then x + 0x1_0000_0000 else x
  }

  /** The loop of str_to_base64. */
  method PutAll(str: seq<byte>, buf: array<byte>, limit: int) returns (ok: bool, used: nat)
    requires str == [] || (buf.Length >= 4 && limit == buf.Length - 4)
    modifies buf
    ensures used <= buf.Length && (ok ==> used == 4 * ((|str| + 2) / 3))
    ensures ok ==> buf[..used] == Encode(str) && buf[used..] == old(buf[..])[used..]
    ensures !ok ==> 4 * ((|str| + 2) / 3) >= buf.Length
  {
    used := 0;
    var pos: nat := 0;
    while pos < |str|
      invariant pos <= |str| && used <= buf.Length && used == 4 * ((pos + 2) / 3) && (pos < |str| ==> pos % 3 == 0)
      invariant buf[..used] + Encode(str[pos..]) == Encode(str)
      invariant buf[used..] == old(buf[..])[used..]
    {
      if used >= limit {
        MoreToCome(|str|, pos);
        return false, used;
      }
      ghost var was := buf[..];
      var n := PutGroup(str, pos, buf, used);
      GroupsNext(str, pos, n);
      Rejoin(was, buf[..], Group(str[pos..pos + n]), used, Encode(str[pos + n..]), Encode(str));
      assert was[used..][4..] == was[used + 4..];
      used, pos := used + 4, pos + n;
    }
    ok := true;
  }

  /** str_to_base64: it succeeds exactly if the encoding leaves room for three bytes more, or
      if nothing is put into a buffer of one byte. */
  method StrToBase64(str: seq<byte>, buf: array<byte>) returns (r: int)
    requires buf.Length < 0x1_0000_0000 && (buf.Length >= 4 || (str == [] && buf.Length > 0))
    modifies buf
    ensures r == if 4 * ((|str| + 2) / 3) < buf.Length - 2 || buf.Length == 1 then |Encode(str)| else -1
    ensures r >= 0 ==> buf[..] == Encode(str) + [0] + old(buf[..])[r + 1..]
  {
    var ok, used := PutAll(str, buf, Unsigned(buf.Length - 4));
    if !ok || used >= Unsigned(buf.Length - 2) {
      return -1;
    }
    assert buf[..used] == Encode(str);
    buf[used] := 0;
    r := used;
  }

  lemma MoreToCome(n: nat, pos: nat)
    requires pos < n && pos % 3 == 0
    ensures (n + 2) / 3 >= (pos + 2) / 3 + 1
  {
  }
}
