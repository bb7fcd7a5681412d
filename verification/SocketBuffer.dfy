/** The buffered socket of sb.c. The peer's bytes come in pieces of any size. */
module SocketBuffer {
  import opened Bytes
  import opened Hiding

  /** How many bytes a read of at most `count` brings when `left` are still to arrive. The
      schedule `sizes` says how large the next pieces are; zero, a size that is too large and
      the end of the schedule stand for as much as possible. */
  function ReadSize(left: nat, sizes: seq<nat>, count: nat): (n: nat)
    ensures n <= left && n <= count && (n == 0 <==> left == 0 || count == 0)
  {
    var most := if left < count then left else count;
    if sizes == [] || sizes[0] == 0 || sizes[0] > most then most else sizes[0]
  }

  function Later(sizes: seq<nat>): seq<nat> {
    if sizes == [] then [] else sizes[1..]
  }

  /** The schedule that reads byte by byte. */
  function Ones(m: nat): seq<nat> {
    seq(m, _ => 1)
  }

  lemma OneByOne(left: nat, m: nat, count: nat)
    requires left > 0 && count > 0 && m > 0
    ensures ReadSize(left, Ones(m), count) == 1 && Later(Ones(m)) == Ones(m - 1)
  {
  }

  function Total(log: seq<nat>): nat {
    if log == [] then 0 else Total(log[..|log| - 1]) + log[|log| - 1]
  }

  lemma {:induction false} TotalNext(log: seq<nat>, n: nat)
    ensures Total(log + [n]) == Total(log) + n
  {
    assert (log + [n])[..|log|] == log;
  }

  /** A socket on which `rest` is still to arrive before end of file or an error, in pieces as
      `sizes` has it. `log` records what each read has brought. */
  class Socket {
    var rest: seq<byte>
    var sizes: seq<nat>
    ghost var log: seq<nat>

    constructor (stream: seq<byte>, schedule: seq<nat>)
      ensures rest == stream && sizes == schedule && log == []
    {
      rest, sizes, log := stream, schedule, [];
    }

    /** retryRead: at least one byte and at most `count`, unless nothing is left. */
    method Read(count: nat) returns (piece: seq<byte>)
      modifies this
      ensures old(rest) == piece + rest && |piece| == ReadSize(|old(rest)|, old(sizes), count)
      ensures piece == [] <==> count == 0 || old(rest) == []
      ensures sizes == if piece == [] then old(sizes) else Later(old(sizes))
      ensures log == old(log) + [|piece|]
    {
      var n := ReadSize(|rest|, sizes, count);
      piece, rest := rest[..n], rest[n..];
      if n > 0 {
        sizes := Later(sizes);
      }
      log := log + [n];
    }
  }

  // ----- What the schedule makes of a search -----

  ghost predicate NoneBefore(all: seq<byte>, pat: seq<byte>, k: nat) {
    forall i: nat | i < k :: !At(all, pat, i)
  }

  /** The first place of `pat` from `k` on, if it ends by `e`. */
  predicate Hit(all: seq<byte>, pat: seq<byte>, k: nat, e: nat) {
    var p := FirstFrom(all, pat, k);
    p >= 0 && p + |pat| <= e
  }

  lemma NoHit(all: seq<byte>, pat: seq<byte>, k: nat, e: nat)
    requires k <= e && !Hit(all, pat, k, e)
    ensures forall i: nat | k <= i && i + |pat| <= e :: !At(all, pat, i)
    ensures e <= |all| ==> |pat| > 0
  {
    if e <= |all| && |pat| == 0 {
      FirstFromIs(all, pat, k, k);
    }
  }

  /** sb_discard on a buffer of `len` that holds `all[k..e]`: whether it finds the pattern,
      what it then holds, and what is left of the schedule. */
  function DiscardRun(all: seq<byte>, pat: seq<byte>, k: nat, e: nat, len: nat, sizes: seq<nat>)
    : (r: (bool, nat, nat, seq<nat>))
    requires k <= e <= |all| && e <= k + len
    ensures r.1 <= r.2 <= |all| && r.2 <= r.1 + len
    decreases |all| - e, e - k
  {
    if e - k < |pat| then
      var n := ReadSize(|all| - e, sizes, k + len - e);
      if n == 0 then (false, e, e, sizes) else DiscardRun(all, pat, k, e + n, len, Later(sizes))
    else if Hit(all, pat, k, e) then
      (true, FirstFrom(all, pat, k) + |pat|, e, sizes)
    else
      DiscardRun(all, pat, e - (|pat| - 1), e, len, sizes)
  }

  /** The run goes on from here, spelled out only where Detail is mentioned. */
  ghost predicate Leads(run: (bool, nat, nat, seq<nat>), all: seq<byte>, pat: seq<byte>, k: nat, e: nat, len: nat,
                        sizes: seq<nat>)
  {
    forall j: nat {:trigger Detail(j)} | Detail(j) ::
      k <= e <= |all| && e <= k + len && run == DiscardRun(all, pat, k, e, len, sizes)
  }

  lemma LeadsRead(run: (bool, nat, nat, seq<nat>), all: seq<byte>, pat: seq<byte>, k: nat, e: nat, len: nat,
                  sizes: seq<nat>)
    requires Leads(run, all, pat, k, e, len, sizes) && k <= e <= |all| && e <= k + len && e - k < |pat|
    ensures var n := ReadSize(|all| - e, sizes, k + len - e);
            if n == 0 then run == (false, e, e, sizes) else Leads(run, all, pat, k, e + n, len, Later(sizes))
  {
    assert Detail(0);
  }

  lemma LeadsScan(run: (bool, nat, nat, seq<nat>), all: seq<byte>, pat: seq<byte>, k: nat, e: nat, len: nat,
                  sizes: seq<nat>)
    requires Leads(run, all, pat, k, e, len, sizes) && k <= e <= |all| && e <= k + len && e - k >= |pat|
    ensures Hit(all, pat, k, e) ==> run == (true, FirstFrom(all, pat, k) + |pat|, e, sizes)
    ensures !Hit(all, pat, k, e) ==> |pat| > 0 && Leads(run, all, pat, e - (|pat| - 1), e, len, sizes)
  {
    assert Detail(0);
    if !Hit(all, pat, k, e) {
      NoHit(all, pat, k, e);
    }
  }

  /** sb_get: what the buffer holds at its end, and what is left of the schedule. */
  function GetRun(all: seq<byte>, pat: seq<byte>, k: nat, e: nat, len: nat, sizes: seq<nat>): (r: (nat, seq<nat>))
    requires k <= e <= |all| && e <= k + len
    ensures e <= r.0 <= |all| && r.0 <= k + len
    decreases |all| - e
  {
    var n := ReadSize(|all| - e, sizes, k + len - e);
    if Hit(all, pat, k, e) || n == 0 then (e, sizes) else GetRun(all, pat, k, e + n, len, Later(sizes))
  }

  /** `live` is the next of a stream `all` that has no hit before `from`. The first hit in
      `live` from there on is the first in the stream; a miss leaves only starts in the
      last |pat| - 1 bytes. */
  lemma FoundLive(all: seq<byte>, pat: seq<byte>, k: nat, live: seq<byte>, from: nat, p: nat)
    requires k + |live| <= |all| && live == all[k..k + |live|]
    requires k <= from && NoneBefore(all, pat, from)
    requires At(live, pat, p) && forall i: nat | from - k <= i < p :: !At(live, pat, i)
    ensures FirstAt(all, pat, k + p)
  {
    forall i: nat | k <= i <= k + p ensures At(all, pat, i) <==> At(live, pat, i - k) {
      AtSlice(all, pat, k, |live|, i - k);
    }
  }

  lemma NotLive(all: seq<byte>, pat: seq<byte>, k: nat, live: seq<byte>, from: nat)
    requires k + |live| <= |all| && live == all[k..k + |live|]
    requires k <= from && NoneBefore(all, pat, from)
    requires forall i: nat | from - k <= i :: !At(live, pat, i)
    ensures forall i: nat | i + |pat| <= k + |live| :: !At(all, pat, i)
  {
    forall i: nat | from <= i && i + |pat| <= k + |live| ensures !At(all, pat, i) {
      AtSlice(all, pat, k, |live|, i - k);
    }
  }

  /** strstr from `from` on: the first place, or -1. */
  method Find(s: seq<byte>, pat: seq<byte>, from: nat) returns (p: int)
    requires from <= |s|
    ensures p == -1 || from <= p
    ensures p == -1 ==> forall i: nat | from <= i :: !At(s, pat, i)
    ensures p >= 0 ==> At(s, pat, p) && forall i: nat | from <= i < p :: !At(s, pat, i)
  {
    p := from;
    while p + |pat| <= |s|
      invariant from <= p <= |s| + 1
      invariant forall i: nat | from <= i < p :: !At(s, pat, i)
    {
      if s[p..p + |pat|] == pat {
        return;
      }
      p := p + 1;
    }
    p := -1;
  }

  method FindFirst(s: seq<byte>, pat: seq<byte>, from: nat) returns (p: int)
    requires from <= |s|
    ensures p == FirstFrom(s, pat, from)
  {
    p := Find(s, pat, from);
    FoundInTail(s, pat, 0, s, from, p);
  }

  class Buffer {
    const len: nat
    const sock: Socket
    const buf: array<byte>
    var data: nat
    var eof: bool

    ghost predicate Valid()
      reads this`data
    {
      0 < len && buf.Length == len + 1 && data <= len
    }

    /** What the buffer's reader has still to see. */
    ghost function Remaining(): seq<byte>
      requires Valid()
      reads this, sock, buf
    {
      buf[..data] + if eof then [] else sock.rest
    }

    /** sb_new */
    constructor (s: Socket, size: nat)
      requires size > 0
      ensures Valid() && Remaining() == s.rest && len == size && sock == s && fresh(buf) && !eof && data == 0
    {
      len, sock, data, eof := size, s, 0, false;
      buf := new byte[size + 1](_ => 0);
    }

    /** _sb_refill: nothing is lost, unless there is no room. */
    method Refill() returns (got: bool)
      requires Valid()
      modifies this`data, this`eof, sock, buf
      ensures Valid() && old(data) <= data && buf[..old(data)] == old(buf[..data])
      ensures got ==> Remaining() == old(Remaining()) && old(data) < data && |sock.rest| < |old(sock.rest)|
      ensures got ==> eof == old(eof)
      ensures !got ==> eof && data == old(data)
      ensures !got && data < len ==> Remaining() == old(Remaining())
      ensures var n := ReadSize(|old(Remaining())| - old(data), old(sock.sizes), len - old(data));
              && data == old(data) + n && (got <==> n > 0)
              && sock.sizes == if got then Later(old(sock.sizes)) else old(sock.sizes)
    {
      if eof {
        return false;
      }
      var piece := sock.Read(len - data);
      if piece == [] {
        eof := true;
        return false;
      }
      forall i | 0 <= i < |piece| {
        buf[data + i] := piece[i];
      }
      data := data + |piece|;
      assert buf[..data] == old(buf[..data]) + piece;
      return true;
    }

    /** _sb_consume, with memmove. */
    method Consume(n: nat)
      requires Valid() && n <= data
      modifies this`data, buf
      ensures Valid() && data == old(data) - n && buf[..data] == old(buf[n..data])
      ensures Remaining() == old(Remaining())[n..]
    {
      data := data - n;
      if data > 0 {
        forall i | 0 <= i < data {
          buf[i] := buf[n + i];
        }
      }
      assert buf[..data] == old(buf[n..data]);
    }

    /** The buffer holds `all[k..e]` and the rest of `all` is still to arrive. */
    ghost predicate Stands(all: seq<byte>, k: nat, e: nat)
      reads this, sock, buf
    {
      Valid() && k <= e <= |all| && e - k == data && Remaining() == all[k..]
    }

    /** One search of the live bytes, which begin at `k` in `all`. */
    method Scan(pat: seq<byte>, ghost all: seq<byte>, ghost k: nat, ghost e: nat) returns (found: bool, ghost j: nat)
      requires Stands(all, k, e) && |pat| <= data && NoneBefore(all, pat, k)
      modifies this`data, buf
      ensures Valid() && found == Hit(all, pat, k, e)
      ensures found ==> j == FirstFrom(all, pat, k) && FirstAt(all, pat, j) && Stands(all, j + |pat|, e)
      ensures !found ==> |pat| > 0 && j == e - (|pat| - 1) && Stands(all, j, e) && NoneBefore(all, pat, j)
    {
      ghost var live := buf[..data];
      assert live == all[k..k + data];
      buf[data] := 0;
      var p := Find(buf[..data], pat, 0);
      if p >= 0 {
        FoundLive(all, pat, k, live, k, p);
        FirstFromIs(all, pat, k, k + p);
        j := k + p;
        Consume(p + |pat|);
        return true, j;
      }
      assert At(live, [], 0);
      NotLive(all, pat, k, live, k);
      j := e - (|pat| - 1);
      Consume(data - (|pat| - 1));
      found := false;
    }

    /** What is known while sb_discard goes on. */
    ghost predicate Discarding(run: (bool, nat, nat, seq<nat>), all: seq<byte>, pat: seq<byte>, k: nat, e: nat)
      reads this, sock, buf
    {
      Stands(all, k, e) && NoneBefore(all, pat, k) && Leads(run, all, pat, k, e, len, sock.sizes)
    }

    /** And when it has ended. */
    ghost predicate Discarded(run: (bool, nat, nat, seq<nat>), all: seq<byte>, pat: seq<byte>, found: bool)
      reads this, sock, buf
    {
      && Valid() && (found <==> |pat| <= len && Occurs(all, pat))
      && (found ==> exists i: nat :: FirstAt(all, pat, i) && Remaining() == all[i + |pat|..])
      && (!found ==> Remaining() == [])
      && found == run.0 && data == run.2 - run.1 && sock.sizes == run.3
    }

    /** An iteration of sb_discard that reads. */
    method DiscardRead(pat: seq<byte>, ghost run: (bool, nat, nat, seq<nat>), ghost all: seq<byte>,
                       ghost k: nat, ghost e: nat)
      returns (got: bool, ghost e1: nat)
      requires Discarding(run, all, pat, k, e) && data < |pat|
      modifies this`data, this`eof, sock, buf
      ensures got ==> Discarding(run, all, pat, k, e1) && |sock.rest| < |old(sock.rest)|
      ensures !got ==> Discarded(run, all, pat, false)
    {
      ghost var sizes := sock.sizes;
      got := Refill();
      e1 := k + data;
      LeadsRead(run, all, pat, k, e, len, sizes);
      if !got {
        Consume(data);
      }
    }

    /** An iteration that searches. */
    method DiscardScan(pat: seq<byte>, ghost run: (bool, nat, nat, seq<nat>), ghost all: seq<byte>,
                       ghost k: nat, ghost e: nat)
      returns (found: bool, ghost k1: nat)
      requires Discarding(run, all, pat, k, e) && data >= |pat|
      modifies this`data, buf
      ensures found ==> Discarded(run, all, pat, true)
      ensures !found ==> Discarding(run, all, pat, k1, e) && data < old(data)
    {
      LeadsScan(run, all, pat, k, e, len, sock.sizes);
      found, k1 := Scan(pat, all, k, e);
    }

    /** sb_discard: drops everything up to and including the first `pat`, or, if there is
        none, everything. */
    method Discard(pat: seq<byte>) returns (found: bool)
      requires Valid()
      modifies this`data, this`eof, sock, buf
      ensures Valid()
      ensures found <==> |pat| <= len && Occurs(old(Remaining()), pat)
      ensures found ==> exists i: nat ::
                FirstAt(old(Remaining()), pat, i) && Remaining() == old(Remaining())[i + |pat|..]
      ensures !found ==> Remaining() == []
      ensures var r := DiscardRun(old(Remaining()), pat, 0, old(data), len, old(sock.sizes));
              found == r.0 && data == r.2 - r.1 && sock.sizes == r.3
    {
      ghost var all, k: nat, e: nat := Remaining(), 0, data;
      ghost var run := DiscardRun(all, pat, 0, e, len, sock.sizes);
      while true
        invariant Discarding(run, all, pat, k, e)
        decreases |sock.rest|, data
      {
        if data < |pat| {
          var got;
          got, e := DiscardRead(pat, run, all, k, e);
          if !got {
            return false;
          }
        } else {
          found, k := DiscardScan(pat, run, all, k, e);
          if found {
            return;
          }
        }
      }
    }

    /** sb_discardn */
    method DiscardN(n: nat)
      requires Valid()
      modifies this`data, this`eof, sock, buf
      ensures Valid()
      ensures n <= |old(Remaining())| ==> Remaining() == old(Remaining())[n..]
      ensures n > |old(Remaining())| ==> Remaining() == []
      ensures n < old(data) ==> data == old(data) - n && sock.sizes == old(sock.sizes)
    {
      ghost var all := Remaining();
      var m: nat := n;
      while true
        invariant Valid() && m <= n && n - m <= |all| && Remaining() == all[n - m..]
        invariant n < old(data) ==> m == n && data == old(data) && sock.sizes == old(sock.sizes)
        decreases |sock.rest|
      {
        if m < data {
          Consume(m);
          return;
        }
        m := m - data;
        Consume(data);
        var got := Refill();
        if !got {
          return;
        }
      }
    }

    /** The refills of sb_get before a search, which needs as many bytes as `pat` has. */
    method Await(pat: seq<byte>, ghost all: seq<byte>, offset: nat) returns (got: bool)
      requires Valid() && Remaining() == all && offset <= data && NoneBefore(all, pat, offset)
      modifies this`data, this`eof, sock, buf
      ensures Valid() && Remaining() == all && data >= old(data)
      ensures GetRun(all, pat, 0, data, len, sock.sizes) == GetRun(all, pat, 0, old(data), len, old(sock.sizes))
      ensures got ==> data == len || data - offset >= |pat|
      ensures !got ==> data < len && !Occurs(all, pat)
      ensures !got ==> GetRun(all, pat, 0, data, len, sock.sizes) == (data, sock.sizes)
      ensures got && data > old(data) ==> |sock.rest| < |old(sock.rest)|
      ensures got && data == old(data) ==> |sock.rest| == |old(sock.rest)|
    {
      while data < len && data - offset < |pat|
        invariant Valid() && Remaining() == all && data >= old(data)
        invariant data > old(data) ==> |sock.rest| < |old(sock.rest)|
        invariant data == old(data) ==> |sock.rest| == |old(sock.rest)|
        invariant GetRun(all, pat, 0, data, len, sock.sizes) == GetRun(all, pat, 0, old(data), len, old(sock.sizes))
        decreases |sock.rest|
      {
        assert !Hit(all, pat, 0, data);
        got := Refill();
        if !got {
          return;
        }
      }
      got := true;
    }

    /** sb_get: looks for `pat` without consuming anything. It finds the first place, or
        finds that the stream ends without one, or gives up as soon as the buffer is full. */
    method Get(pat: seq<byte>) returns (r: int)
      requires Valid()
      modifies this`data, this`eof, sock, buf
      ensures Valid() && Remaining() == old(Remaining())
      ensures r == -1 ==> !Occurs(Remaining(), pat) && data < len
      ensures data == len ==> r == len
      ensures r != -1 && data < len ==> r >= 0 && FirstAt(Remaining(), pat, r) && r + |pat| <= data
      ensures (data, sock.sizes) == GetRun(old(Remaining()), pat, 0, old(data), len, old(sock.sizes))
    {
      ghost var all := Remaining();
      var offset: nat := 0;
      while true
        invariant Valid() && Remaining() == all && offset <= data
        invariant NoneBefore(all, pat, offset)
        invariant GetRun(all, pat, 0, data, len, sock.sizes) == GetRun(all, pat, 0, old(data), len, old(sock.sizes))
        decreases |sock.rest|, data - offset
      {
        var got := Await(pat, all, offset);
        if !got {
          return -1;
        }
        if data == len {
          return len;
        }
        var p := FindHeld(pat, all, offset);
        if p >= 0 {
          return p;
        }
        offset := data - (|pat| - 1);
      }
    }

    /** The search of sb_get. */
    method FindHeld(pat: seq<byte>, ghost all: seq<byte>, offset: nat) returns (p: int)
      requires Valid() && Remaining() == all && offset + |pat| <= data && NoneBefore(all, pat, offset)
      ensures p >= 0 ==> FirstAt(all, pat, p) && p + |pat| <= data && Hit(all, pat, 0, data)
      ensures p < 0 ==> p == -1 && |pat| > 0 && forall i: nat | i + |pat| <= data :: !At(all, pat, i)
    {
      ghost var live := buf[..data];
      assert live == all[0..0 + data];
      p := Find(buf[..data], pat, offset);
      if p >= 0 {
        FoundLive(all, pat, 0, live, offset, p);
        FirstFromIs(all, pat, 0, p);
      } else {
        assert At(live, [], offset);
        NotLive(all, pat, 0, live, offset);
      }
    }
  }
}
