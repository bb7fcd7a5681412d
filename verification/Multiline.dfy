/** Waiting for the end of a multi-line reply: mpop_multiline_cmd of multipop.c, which looks at
    the last five bytes of each read. */
module Multiline {
  import opened Bytes
  import opened Hiding
  import opened SocketBuffer
  import opened Terminators

  datatype Outcome = Read(n: nat) | Failed | Spins

  /** The first `n` bytes end with a terminator. */
  predicate Ends(s: seq<byte>, n: nat) {
    5 <= n <= |s| && s[n - 5..n] == Eom()
  }

  /** mpop_multiline_cmd when `n` bytes have been read: the stream is cut as `sizes` has it. */
  function MultiRun(all: seq<byte>, n: nat, sizes: seq<nat>): Outcome
    requires n <= |all|
    decreases |all| - n
  {
    if Ends(all, n) then Read(n)
    else
      var m := ReadSize(|all| - n, sizes, 4091);
      if m == 0 then Spins else MultiRun(all, n + m, Later(sizes))
  }

  lemma MultiStep(all: seq<byte>, n: nat, sizes: seq<nat>, m: nat)
    requires n <= |all| && m == ReadSize(|all| - n, sizes, 4091) && !Ends(all, n)
    ensures MultiRun(all, n, sizes) == if m == 0 then Spins else MultiRun(all, n + m, Later(sizes))
  {
  }

  /** The run goes on from here, spelled out only where Detail is mentioned. */
  ghost predicate Leads(run: Outcome, all: seq<byte>, n: nat, sizes: seq<nat>) {
    forall k: nat {:trigger Detail(k)} | Detail(k) :: n <= |all| && run == MultiRun(all, n, sizes)
  }

  lemma LeadsOn(run: Outcome, all: seq<byte>, n: nat, sizes: seq<nat>, m: nat)
    requires Leads(run, all, n, sizes) && n <= |all| && m == ReadSize(|all| - n, sizes, 4091) && !Ends(all, n)
    ensures if m == 0 then run == Spins else Leads(run, all, n + m, Later(sizes))
  {
    assert Detail(0);
    MultiStep(all, n, sizes, m);
  }

  lemma LeadsOut(run: Outcome, all: seq<byte>, n: nat, sizes: seq<nat>)
    requires Leads(run, all, n, sizes) && Ends(all, n)
    ensures run == Read(n)
  {
    assert Detail(0);
  }

  lemma LastFive(live: seq<byte>, kept: seq<byte>, piece: seq<byte>, all: seq<byte>, nread: nat)
    requires 5 <= nread <= |all| && |kept| == 5 && kept == all[nread - 5..nread]
    requires live == kept + piece && piece <= all[nread..]
    ensures live[|piece|..] == all[nread + |piece| - 5..nread + |piece|]
  {
    assert live == all[nread - 5..nread + |piece|];
  }

  /** Moves the last five bytes to the beginning and reads behind them. */
  method Slide(buf: array<byte>, len: nat, sock: Socket, ghost all: seq<byte>, ghost nread: nat)
    returns (size: nat)
    requires buf.Length == 4096 && len + 5 <= 4096 && 5 <= nread <= |all|
    requires all[nread..] == sock.rest && buf[len..len + 5] == all[nread - 5..nread]
    modifies buf, sock
    ensures size <= 4091 && nread + size <= |all| && all[nread + size..] == sock.rest
    ensures sock.log == old(sock.log) + [size] && size == ReadSize(|all| - nread, old(sock.sizes), 4091)
    ensures size > 0 ==> sock.sizes == Later(old(sock.sizes))
    ensures buf[size..size + 5] == all[nread + size - 5..nread + size]
  {
    var kept := buf[len..len + 5];
    Store(buf, 0, kept);
    var piece := sock.Read(4091);
    Store(buf, 5, piece);
    LastFive(buf[..5 + |piece|], kept, piece, all, nread);
    assert buf[|piece|..|piece| + 5] == buf[..5 + |piece|][|piece|..];
    size := |piece|;
  }

  /** No read was made after one that ended with a terminator. */
  ghost predicate NoneEnded(all: seq<byte>, first: nat, log: seq<nat>) {
    forall j | 0 <= j < |log| :: !Ends(all, first + Total(log[..j]))
  }

  lemma {:induction false} NoneEndedNext(all: seq<byte>, first: nat, log: seq<nat>, n: nat)
    requires NoneEnded(all, first, log) && !Ends(all, first + Total(log))
    ensures NoneEnded(all, first, log + [n]) && Total(log + [n]) == Total(log) + n
  {
    TotalNext(log, n);
    forall j | 0 <= j < |log + [n]| ensures !Ends(all, first + Total((log + [n])[..j])) {
      assert (log + [n])[..j] == log[..j];
      assert log[..|log|] == log;
    }
  }

  /** How the loop ends after `log` further reads. */
  ghost predicate Concludes(all: seq<byte>, first: nat, log: seq<nat>, rest: seq<byte>, r: Outcome) {
    var n := first + Total(log);
    && n <= |all| && rest == all[n..] && NoneEnded(all, first, log)
    && (r.Read? ==> r.n == n && Ends(all, n))
    && (r == Spins ==> rest == [] && !Ends(all, |all|))
  }

  /** What is known while the loop of mpop_multiline_cmd goes on, with `last` at the end of what
      the buffer holds. */
  ghost predicate Going(run: Outcome, all: seq<byte>, first: nat, rest: seq<byte>, sizes: seq<nat>,
                        log: seq<nat>, n: nat, last: seq<byte>)
  {
    && 5 <= n <= |all| && n == first + Total(log) && all[n..] == rest && last == all[n - 5..n]
    && NoneEnded(all, first, log) && Leads(run, all, n, sizes)
  }

  lemma ReadToEnd(run: Outcome, all: seq<byte>, first: nat, rest: seq<byte>, sizes: seq<nat>,
                  log: seq<nat>, n: nat, last: seq<byte>)
    requires Going(run, all, first, rest, sizes, log, n, last) && last == Eom()
    ensures run == Read(n) && Concludes(all, first, log, rest, run)
  {
    LeadsOut(run, all, n, sizes);
  }

  /** An iteration. */
  method Turn(buf: array<byte>, len: nat, sock: Socket,
              ghost run: Outcome, ghost all: seq<byte>, ghost first: nat, ghost log: seq<nat>, ghost n: nat)
    returns (size: nat, ghost more: seq<nat>)
    requires buf.Length == 4096 && len + 5 <= 4096 && buf[len..len + 5] != Eom()
    requires Going(run, all, first, sock.rest, sock.sizes, log, n, buf[len..len + 5])
    modifies buf, sock
    ensures more == log + [size] && sock.log == old(sock.log) + [size] && size + 5 <= 4096 && n + size <= |all|
    ensures size > 0 ==> Going(run, all, first, sock.rest, sock.sizes, more, n + size, buf[size..size + 5])
    ensures size == 0 ==> run == Spins && Concludes(all, first, more, sock.rest, run)
  {
    ghost var sizes := sock.sizes;
    size := Slide(buf, len, sock, all, n);
    LeadsOn(run, all, n, sizes, size);
    NoneEndedNext(all, first, log, size);
    more := log + [size];
  }

  /** The loop of mpop_multiline_cmd. */
  method ReadOn(buf: array<byte>, size: nat, sock: Socket, ghost all: seq<byte>)
    returns (r: Outcome, ghost log: seq<nat>)
    requires buf.Length == 4096 && 5 <= size <= |all| && size <= 4096
    requires all[size..] == sock.rest && buf[size - 5..size] == all[size - 5..size]
    modifies buf, sock
    ensures r != Failed && sock.log == old(sock.log) + log && Concludes(all, size, log, sock.rest, r)
    ensures r == MultiRun(all, size, old(sock.sizes))
  {
    var nread: nat, len: nat := size, size - 5;
    ghost var run := MultiRun(all, size, sock.sizes);
    assert Leads(run, all, size, sock.sizes);
    log := [];
    while buf[len..len + 5] != Eom()
      invariant len + 5 <= 4096 && nread <= |all| && sock.log == old(sock.log) + log
      invariant Going(run, all, size, sock.rest, sock.sizes, log, nread, buf[len..len + 5])
      decreases |all| - nread
    {
      len, log := Turn(buf, len, sock, run, all, size, log, nread);
      if len == 0 {
        return Spins, log;
      }
      nread := nread + len;
    }
    ReadToEnd(run, all, size, sock.rest, sock.sizes, log, nread, buf[len..len + 5]);
    r := Read(nread);
  }

  /** mpop_multiline_cmd. `first` is what the first read brings. It stops with the first read
      that ends with a terminator, and reads nothing after it; at end of file the loop would
      repeat an empty read for ever. */
  method MultilineCmd(first: seq<byte>, sock: Socket) returns (r: Outcome)
    requires 5 <= |first| <= 4096
    modifies sock
    ensures r == Failed <==> first[0] != 43
    ensures r == Failed ==> sock.rest == old(sock.rest) && sock.log == old(sock.log)
    ensures old(sock.log) <= sock.log
    ensures r != Failed ==> r == MultiRun(first + old(sock.rest), |first|, old(sock.sizes))
    ensures r != Failed ==> Concludes(first + old(sock.rest), |first|, Since(sock.log, old(sock.log)), sock.rest, r)
  {
    var buf := new byte[4096](i requires 0 <= i < 4096 => if i < |first| then first[i] else 0);
    if first[0] != 43 {
      return Failed;
    }
    ghost var all, log := first + sock.rest, [];
    r, log := ReadOn(buf, |first|, sock, all);
    assert Since(sock.log, old(sock.log)) == log;
  }

  /** Two terminators do not end one byte apart. */
  lemma NotBoth(all: seq<byte>, n: nat)
    requires Ends(all, n)
    ensures !Ends(all, n + 1)
  {
    assert all[n - 5..n][1] == 10;
    assert n + 1 <= |all| ==> all[n - 4..n + 1][0] == all[n - 4];
  }

  /** The schedule that ends no read with a terminator. */
  function Evading(all: seq<byte>, n: nat): seq<nat>
    requires n <= |all|
    decreases |all| - n
  {
    if n == |all| then []
    else if Ends(all, n + 1) && n + 2 <= |all| then [2] + Evading(all, n + 2)
    else [1] + Evading(all, n + 1)
  }

  lemma EvadingStep(all: seq<byte>, n: nat, m: nat)
    requires n < |all| && !Ends(all, |all|) && m == if Ends(all, n + 1) then 2 else 1
    ensures n + m <= |all| && Later(Evading(all, n)) == Evading(all, n + m)
    ensures ReadSize(|all| - n, Evading(all, n), 4091) == m
  {
    assert ([m] + Evading(all, n + m))[1..] == Evading(all, n + m);
  }

  lemma {:induction false} Evades(all: seq<byte>, n: nat)
    requires n <= |all| && !Ends(all, n) && !Ends(all, |all|)
    ensures MultiRun(all, n, Evading(all, n)) == Spins
    decreases |all| - n
  {
    var sizes := Evading(all, n);
    if n < |all| {
      var m := if Ends(all, n + 1) then 2 else 1;
      if m == 2 {
        NotBoth(all, n + 1);
      }
      EvadingStep(all, n, m);
      MultiStep(all, n, sizes, m);
      Evades(all, n + m);
    }
  }

  lemma {:induction false} SpinsOnly(all: seq<byte>, n: nat, sizes: seq<nat>)
    requires n <= |all| && MultiRun(all, n, sizes) == Spins
    ensures !Ends(all, n) && !Ends(all, |all|)
    decreases |all| - n
  {
    var m := ReadSize(|all| - n, sizes, 4091);
    if m > 0 {
      SpinsOnly(all, n + m, Later(sizes));
    }
  }

  predicate CanSpin(all: seq<byte>, first: nat, sizes: seq<nat>)
    requires first <= |all|
  {
    MultiRun(all, first, sizes) == Spins
  }

  /** Some way of cutting a reply makes mpop_multiline_cmd spin for ever if and only if neither
      the first read nor the whole stream ends with a terminator. Reads of one or two bytes
      that step over the others are such a way. */
  lemma {:induction false} SpinsIff(all: seq<byte>, first: nat)
    requires first <= |all|
    ensures (exists sizes: seq<nat> :: CanSpin(all, first, sizes)) <==> !Ends(all, first) && !Ends(all, |all|)
    ensures !Ends(all, first) && !Ends(all, |all|) ==> CanSpin(all, first, Evading(all, first))
  {
    forall sizes: seq<nat> | CanSpin(all, first, sizes) ensures !Ends(all, first) && !Ends(all, |all|) {
      SpinsOnly(all, first, sizes);
    }
    if !Ends(all, first) && !Ends(all, |all|) {
      Evades(all, first);
      assert CanSpin(all, first, Evading(all, first));
    }
  }

  /** A reply with a terminator, and one byte behind it. */
  lemma {:induction false} PassedOver(all: seq<byte>)
    requires all == [43, 79, 75] + [13, 10, 46, 13, 10] + [88]
    ensures Ends(all, 8) && CanSpin(all, 5, Evading(all, 5))
  {
    assert all[3..8] == Eom();
    assert all[0..5][0] == 43 && all[4..9][4] == 88;
    SpinsIff(all, 5);
  }

  /** A positive reply whose only terminator is at its end is read to its last byte, and that
      byte comes with the last read. */
  method MultilineReply(first: seq<byte>, sock: Socket) returns (r: Outcome)
    requires 5 <= |first| <= 4096 && first[0] == 43
    requires var all := first + sock.rest; FirstAt(all, [13, 10, 46, 13, 10], |all| - 5)
    modifies sock
    ensures r == Read(|first + old(sock.rest)|) && sock.rest == []
  {
    ghost var all := first + sock.rest;
    r := MultilineCmd(first, sock);
    if r.Read? {
      assert At(all, Eom(), r.n - 5);
    }
  }
}
