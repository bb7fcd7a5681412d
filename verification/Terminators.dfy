/** Waiting for the end of a message: retrMsg of bench.c, which keeps five bytes from one read
    to the next. */
module Terminators {
  import opened Bytes
  import opened Hiding
  import opened SocketBuffer
  import Clients

  /** CRLF.CRLF */
  function Eom(): (m: seq<byte>)
    ensures |m| == 5
  {
    [13, 10, 46, 13, 10]
  }

  /** -ERR */
  function Err(): (m: seq<byte>)
    ensures |m| == 4
  {
    [45, 69, 82, 82]
  }

  /** A terminator is complete within the first `n` bytes. */
  predicate Complete(s: seq<byte>, n: nat) {
    Hit(s, Eom(), 0, n)
  }

  /** Where the kept bytes begin. */
  function Kept(n: nat): nat {
    if n < 5 then 0 else n - 5
  }

  // ----- retrMsg -----

  datatype Reply = Stopped(n: nat) | Refused(n: nat) | Ended | Late(n: nat)

  datatype Move = Stop | Refuse | End | TimeOut | More

  /** What becomes of the loop when a read has brought it from `n` bytes to `m`. */
  function MoveOf(s: seq<byte>, n: nat, m: nat): Move {
    if m == n then End
    else if Complete(s, m) then Stop
    else if Kept(n) + 4 <= m && At(s, Err(), Kept(n)) then Refuse
    else More
  }

  /** How the loop ends with a move, when `n` bytes have been read. */
  function ReplyOf(move: Move, n: nat): Reply
    requires move != More
  {
    match move
    case Stop => Stopped(n)
    case Refuse => Refused(n)
    case End => Ended
    case TimeOut => Late(n)
  }

  /** gf_timeexpired at the j-th time it is read. */
  predicate Expired(gf: nat -> int, j: nat) {
    gf(j) >= Clients.EXIT_FAST
  }

  ghost predicate Calm(gf: nat -> int) {
    forall j: nat :: gf(j) < 20
  }

  /** retrMsg on a stream that is cut as `sizes` has it, when `n` bytes have been read in `j`
      iterations. */
  function RetrRun(s: seq<byte>, n: nat, sizes: seq<nat>, gf: nat -> int, j: nat): Reply
    requires n <= |s|
    decreases |s| - n
  {
    if Expired(gf, j) then Late(n)
    else
      var m := n + ReadSize(|s| - n, sizes, 9999 - (n - Kept(n)));
      var move := MoveOf(s, n, m);
      if move == More then RetrRun(s, m, Later(sizes), gf, j + 1) else ReplyOf(move, m)
  }

  lemma RunStep(s: seq<byte>, n: nat, sizes: seq<nat>, gf: nat -> int, j: nat, m: nat)
    requires n <= |s| && m == n + ReadSize(|s| - n, sizes, 9999 - (n - Kept(n))) && !Expired(gf, j)
    ensures var move := MoveOf(s, n, m);
            RetrRun(s, n, sizes, gf, j) ==
            if move == More then RetrRun(s, m, Later(sizes), gf, j + 1) else ReplyOf(move, m)
  {
  }

  /** The run goes on from here, spelled out only where Detail is mentioned. */
  ghost predicate Leads(run: Reply, s: seq<byte>, n: nat, sizes: seq<nat>, gf: nat -> int, j: nat) {
    forall k: nat {:trigger Detail(k)} | Detail(k) :: n <= |s| && run == RetrRun(s, n, sizes, gf, j)
  }

  lemma LeadsOn(run: Reply, s: seq<byte>, n: nat, sizes: seq<nat>, gf: nat -> int, j: nat, m: nat, move: Move)
    requires Leads(run, s, n, sizes, gf, j) && n <= |s| && !Expired(gf, j)
    requires m == n + ReadSize(|s| - n, sizes, 9999 - (n - Kept(n))) && move == MoveOf(s, n, m)
    ensures move == More ==> Leads(run, s, m, Later(sizes), gf, j + 1)
    ensures move != More ==> run == ReplyOf(move, m)
    ensures move == Stop ==> Complete(s, m)
  {
    assert Detail(0);
    RunStep(s, n, sizes, gf, j, m);
  }

  lemma LeadsOut(run: Reply, s: seq<byte>, n: nat, sizes: seq<nat>, gf: nat -> int, j: nat)
    requires Leads(run, s, n, sizes, gf, j) && Expired(gf, j)
    ensures run == Late(n)
  {
    assert Detail(0);
  }

  /** A terminator that was not complete yet shows in what is kept, followed by what has come. */
  lemma KeptFive(s: seq<byte>, n: nat, m: nat)
    requires n <= m <= |s| && !Complete(s, n)
    ensures FirstFrom(s[Kept(n)..m], Eom(), 0) >= 0 <==> Complete(s, m)
  {
    if Complete(s, m) {
      KeptShows(s, n, m);
    } else if FirstFrom(s[Kept(n)..m], Eom(), 0) >= 0 {
      KeptOnly(s, n, m);
    }
  }

  lemma KeptShows(s: seq<byte>, n: nat, m: nat)
    requires n <= m <= |s| && !Complete(s, n) && Complete(s, m)
    ensures FirstFrom(s[Kept(n)..m], Eom(), 0) >= 0
  {
    var k, q := Kept(n), FirstFrom(s, Eom(), 0);
    AtSlice(s, Eom(), k, m - k, q - k);
    assert s[k..k + (m - k)] == s[k..m] && At(s[k..m], Eom(), q - k);
  }

  lemma KeptOnly(s: seq<byte>, n: nat, m: nat)
    requires n <= m <= |s| && FirstFrom(s[Kept(n)..m], Eom(), 0) >= 0
    ensures Complete(s, m)
  {
    var k, p := Kept(n), FirstFrom(s[Kept(n)..m], Eom(), 0);
    assert s[k..k + (m - k)] == s[k..m];
    AtSlice(s, Eom(), k, m - k, p);
    assert At(s, Eom(), k + p);
  }

  /** The last five of `total` bytes to the beginning, byte by byte. */
  method Shuffle(garbage: array<byte>, total: nat)
    requires 5 < total <= garbage.Length
    modifies garbage
    ensures garbage[..5] == old(garbage[..])[total - 5..total]
  {
    var i := 5;
    while i > 0
      invariant 0 <= i <= 5
      invariant forall k | 0 <= k < 5 - i :: garbage[k] == old(garbage[total - 5 + k])
      invariant forall k | 5 - i <= k < garbage.Length :: garbage[k] == old(garbage[k])
    {
      garbage[5 - i] := garbage[total - i];
      i := i - 1;
    }
  }

  method Store(garbage: array<byte>, at: nat, piece: seq<byte>)
    requires at + |piece| <= garbage.Length
    modifies garbage
    ensures garbage[..at + |piece|] == old(garbage[..at]) + piece
  {
    forall i | 0 <= i < |piece| {
      garbage[at + i] := piece[i];
    }
  }

  /** Reads behind what is kept of the first `n` bytes. */
  method Pull(garbage: array<byte>, total: nat, sock: Socket, ghost s: seq<byte>, ghost n: nat) returns (size: nat)
    requires garbage.Length == 10000 && n <= |s| && sock.rest == s[n..]
    requires total == n - Kept(n) && garbage[..total] == s[Kept(n)..n]
    modifies garbage, sock
    ensures size == ReadSize(|s| - n, old(sock.sizes), 9999 - total) && total + size <= 9999
    ensures sock.rest == s[n + size..] && garbage[..total + size] == s[Kept(n)..n + size]
    ensures sock.log == old(sock.log) + [size] && (size > 0 ==> sock.sizes == Later(old(sock.sizes)))
  {
    var piece := sock.Read(9999 - total);
    Store(garbage, total, piece);
    size := |piece|;
    PieceOf(s, n, piece, sock.rest);
  }

  lemma PieceOf(s: seq<byte>, n: nat, piece: seq<byte>, rest: seq<byte>)
    requires n <= |s| && s[n..] == piece + rest
    ensures rest == s[n + |piece|..] && s[Kept(n)..n] + piece == s[Kept(n)..n + |piece|]
  {
    assert piece == s[n..][..|piece|] == s[n..n + |piece|];
    assert rest == s[n..][|piece|..];
  }

  /** Keeps the last five bytes of the buffer. */
  method Keep(garbage: array<byte>, total: nat, ghost s: seq<byte>, ghost k: nat) returns (kept: nat)
    requires garbage.Length == 10000 && total <= 10000 && k + total <= |s| && garbage[..total] == s[k..k + total]
    requires k > 0 ==> total >= 5
    modifies garbage
    ensures kept == k + total - Kept(k + total) <= 5 && garbage[..kept] == s[Kept(k + total)..k + total]
  {
    kept := total;
    if total > 5 {
      assert garbage[..][total - 5..total] == garbage[..total][total - 5..];
      Shuffle(garbage, total);
      kept := 5;
    }
  }

  /** What the reads have brought since the log was `was`. */
  ghost function Since(log: seq<nat>, was: seq<nat>): seq<nat>
    requires was <= log
  {
    log[|was|..]
  }

  /** No read was made once a terminator was complete. */
  ghost predicate NoneTooMany(s: seq<byte>, log: seq<nat>) {
    forall j | 0 <= j < |log| :: !Complete(s, Total(log[..j]))
  }

  lemma {:induction false} NoneTooManyNext(s: seq<byte>, log: seq<nat>, n: nat)
    requires NoneTooMany(s, log) && !Complete(s, Total(log))
    ensures NoneTooMany(s, log + [n]) && Total(log + [n]) == Total(log) + n
  {
    TotalNext(log, n);
    forall j | 0 <= j < |log + [n]| ensures !Complete(s, Total((log + [n])[..j])) {
      assert (log + [n])[..j] == log[..j];
      assert log[..|log|] == log;
    }
  }

  lemma AtStart(s: seq<byte>, n: nat, m: nat)
    requires n <= m <= |s|
    ensures Kept(n) + 4 <= m ==> (s[Kept(n)..m][..4] == Err() <==> At(s, Err(), Kept(n)))
  {
    if Kept(n) + 4 <= m {
      assert s[Kept(n)..m][..4] == s[Kept(n)..Kept(n) + 4];
    }
  }

  /** What retrMsg looks for in its buffer. */
  method Examine(live: seq<byte>, ghost s: seq<byte>, ghost n: nat, ghost m: nat) returns (move: Move)
    requires n < m <= |s| && live == s[Kept(n)..m] && !Complete(s, n)
    ensures move == MoveOf(s, n, m) && move != End && move != TimeOut
  {
    KeptFive(s, n, m);
    AtStart(s, n, m);
    var found := FindFirst(live, Eom(), 0);
    move := if found >= 0 then Stop else if |live| >= 4 && live[..4] == Err() then Refuse else More;
  }

  /** An iteration of retrMsg. It keeps the last five bytes if the loop goes on. */
  method Iterate(garbage: array<byte>, total: nat, sock: Socket, ghost s: seq<byte>, ghost n: nat)
    returns (move: Move, kept: nat, ghost m: nat)
    requires garbage.Length == 10000 && n <= |s| && sock.rest == s[n..] && !Complete(s, n)
    requires total == n - Kept(n) && garbage[..total] == s[Kept(n)..n]
    modifies garbage, sock
    ensures n <= m <= |s| && sock.rest == s[m..] && sock.log == old(sock.log) + [m - n] && kept <= 10000
    ensures m == n + ReadSize(|s| - n, old(sock.sizes), 9999 - (n - Kept(n))) && move == MoveOf(s, n, m)
    ensures move == More ==> sock.sizes == Later(old(sock.sizes))
    ensures move == More ==> kept == m - Kept(m) && garbage[..kept] == s[Kept(m)..m]
    ensures move == Stop ==> kept == n - Kept(n) + (m - n)
  {
    var size := Pull(garbage, total, sock, s, n);
    m, kept := n + size, total + size;
    if size == 0 {
      return End, kept, m;
    }
    move := Examine(garbage[..kept], s, n, m);
    if move == More {
      kept := Keep(garbage, kept, s, Kept(n));
    }
  }

  /** What has been read, as the log of the reads has it. */
  ghost predicate Arrived(s: seq<byte>, rest: seq<byte>, log: seq<nat>, n: nat) {
    n <= |s| && rest == s[n..] && n == Total(log) && NoneTooMany(s, log)
  }

  /** The test for the time-out has let the first `turns` iterations read. */
  ghost predicate InTime(gf: nat -> int, turns: nat) {
    forall j: nat | j < turns :: gf(j) < 20
  }

  /** What is known while the loop of retrMsg goes on, with `live` in its buffer. */
  ghost predicate Going(run: Reply, s: seq<byte>, rest: seq<byte>, sizes: seq<nat>, gf: nat -> int, j: nat,
                        log: seq<nat>, n: nat, live: seq<byte>)
  {
    && Arrived(s, rest, log, n) && !Complete(s, n) && live == s[Kept(n)..n] && Leads(run, s, n, sizes, gf, j)
    && j == |log| && InTime(gf, j)
  }

  /** What the buffer holds after the last read: what that one has brought, behind the last five
      bytes, if there were so many, of what came before. */
  ghost predicate LastInBuffer(log: seq<nat>, total: nat) {
    && log != []
    && var before := Total(log[..|log| - 1]);
       total == (if before < 5 then before else 5) + log[|log| - 1]
  }

  /** And when it has ended with `move`. */
  ghost predicate Over(run: Reply, s: seq<byte>, rest: seq<byte>, gf: nat -> int, log: seq<nat>, n: nat,
                       total: nat, move: Move)
  {
    && Arrived(s, rest, log, n) && move != More && run == ReplyOf(move, n)
    && InTime(gf, |log|) && (move == TimeOut ==> gf(|log|) >= 20)
    && (move == Stop ==> Complete(s, n) && LastInBuffer(log, total))
    && (move == TimeOut ==> !Complete(s, n) && total == n - Kept(n))
  }

  /** The first lines of an iteration: the test for the time-out, and otherwise the rest of it. */
  method Turn(garbage: array<byte>, total: nat, sock: Socket, gf: nat -> int, j: nat,
              ghost run: Reply, ghost s: seq<byte>, ghost log: seq<nat>, ghost n: nat)
    returns (move: Move, kept: nat, ghost m: nat, ghost more: seq<nat>)
    requires garbage.Length == 10000 && total <= 10000
    requires Going(run, s, sock.rest, sock.sizes, gf, j, log, n, garbage[..total])
    modifies garbage, sock
    ensures sock.log == old(sock.log) + more && m >= n && kept <= 10000
    ensures move == More ==> m > n && Going(run, s, sock.rest, sock.sizes, gf, j + 1, log + more, m, garbage[..kept])
    ensures move != More ==> Over(run, s, sock.rest, gf, log + more, m, kept, move)
  {
    if Expired(gf, j) {
      LeadsOut(run, s, n, sock.sizes, gf, j);
      assert log + [] == log;
      return TimeOut, total, n, [];
    }
    ghost var sizes := sock.sizes;
    move, kept, m := Iterate(garbage, total, sock, s, n);
    more := [m - n];
    LeadsOn(run, s, n, sizes, gf, j, m, move);
    NoneTooManyNext(s, log, m - n);
    assert (log + more)[..|log|] == log;
  }

  /** The loop of retrMsg. */
  method Wait(garbage: array<byte>, sock: Socket, gf: nat -> int)
    returns (move: Move, total: nat, ghost log: seq<nat>, ghost n: nat)
    requires garbage.Length == 10000
    modifies garbage, sock
    ensures sock.log == old(sock.log) + log
    ensures Over(RetrRun(old(sock.rest), 0, old(sock.sizes), gf, 0), old(sock.rest), sock.rest, gf, log, n, total,
                 move)
  {
    ghost var s, run := sock.rest, RetrRun(sock.rest, 0, sock.sizes, gf, 0);
    assert Leads(run, s, 0, sock.sizes, gf, 0);
    var j: nat := 0;
    log, n, total, move := [], 0, 0, More;
    while move == More
      invariant sock.log == old(sock.log) + log && total <= 10000
      invariant move == More ==> n <= |s| && Going(run, s, sock.rest, sock.sizes, gf, j, log, n, garbage[..total])
      invariant move != More ==> Over(run, s, sock.rest, gf, log, n, total, move)
      decreases |s| - n, if move == More then 1 else 0
    {
      ghost var more;
      move, total, n, more := Turn(garbage, total, sock, gf, j, run, s, log, n);
      log, j := log + more, j + 1;
    }
  }

  /** retrMsg: the outcome for the given schedule. No read is made once a terminator is complete,
      or under EXIT_FAST, which makes it succeed without one. On success the result is what the
      buffer holds, which is not the length of the message. */
  method RetrMsg(sock: Socket, gf: nat -> int) returns (r: int)
    modifies sock
    ensures old(sock.log) <= sock.log
    ensures var run := RetrRun(old(sock.rest), 0, old(sock.sizes), gf, 0);
            && r >= -1 && (r >= 0 <==> run.Stopped? || run.Late?)
            && (run.Stopped? ==> Complete(old(sock.rest), run.n) && run.n == Total(Since(sock.log, old(sock.log))))
            && (run.Late? ==> !Complete(old(sock.rest), run.n) && run.n == Total(Since(sock.log, old(sock.log))))
            && (run.Stopped? ==> LastInBuffer(Since(sock.log, old(sock.log)), r))
            && (run.Late? ==> r == if run.n < 5 then run.n else 5)
    ensures var log := Since(sock.log, old(sock.log)); Arrived(old(sock.rest), sock.rest, log, Total(log))
    ensures var log := Since(sock.log, old(sock.log));
            && (forall j: nat | j < |log| :: gf(j) < 20)
            && (RetrRun(old(sock.rest), 0, old(sock.sizes), gf, 0).Late? ==> gf(|log|) >= 20)
  {
    var garbage := new byte[10000](_ => 0);
    var move, total;
    ghost var log, n;
    move, total, log, n := Wait(garbage, sock, gf);
    assert Since(sock.log, old(sock.log)) == log;
    r := if move == Stop || move == TimeOut then total else -1;
  }

  // ----- Replies taken for errors -----

  /** An -ERR at `p` can come to be at the beginning of the buffer before the end. */
  predicate Exposed(s: seq<byte>, p: nat) {
    At(s, [45, 69, 82, 82], p) && (p == 0 || (p + 6 <= |s| && !Complete(s, p + 6)))
  }

  lemma {:induction false} RefusedExposed(s: seq<byte>, n: nat, sizes: seq<nat>, gf: nat -> int, j: nat)
      returns (p: nat)
    requires n <= |s| && RetrRun(s, n, sizes, gf, j).Refused?
    ensures Exposed(s, p)
    decreases |s| - n
  {
    var m := n + ReadSize(|s| - n, sizes, 9999 - (n - Kept(n)));
    RunStep(s, n, sizes, gf, j, m);
    if MoveOf(s, n, m) == Refuse {
      p := Kept(n);
    } else {
      p := RefusedExposed(s, m, Later(sizes), gf, j + 1);
    }
  }

  lemma ExposedMove(s: seq<byte>, p: nat, n: nat)
    requires Exposed(s, p) && n <= (if p == 0 then 3 else p + 5)
    ensures n < |s| && (MoveOf(s, n, n + 1) == Refuse || MoveOf(s, n, n + 1) == More)
    ensures MoveOf(s, n, n + 1) == More ==> n < if p == 0 then 3 else p + 5
  {
    assert !Complete(s, n + 1);
  }

  lemma RunOne(s: seq<byte>, n: nat, gf: nat -> int, j: nat)
    requires n < |s| && !Expired(gf, j)
    ensures var move := MoveOf(s, n, n + 1);
            RetrRun(s, n, Ones(|s| - n), gf, j) ==
            if move == More then RetrRun(s, n + 1, Ones(|s| - (n + 1)), gf, j + 1) else ReplyOf(move, n + 1)
  {
    OneByOne(|s| - n, |s| - n, 9999 - (n - Kept(n)));
    RunStep(s, n, Ones(|s| - n), gf, j, n + 1);
  }

  /** Byte by byte, every exposed -ERR is seen, if none before it is. */
  lemma {:induction false} ExposedRefused(s: seq<byte>, p: nat, n: nat, gf: nat -> int, j: nat)
    requires Exposed(s, p) && n <= (if p == 0 then 3 else p + 5) && Calm(gf)
    ensures n < |s| && RetrRun(s, n, Ones(|s| - n), gf, j).Refused?
    decreases |s| - n
  {
    ExposedMove(s, p, n);
    RunOne(s, n, gf, j);
    if MoveOf(s, n, n + 1) == More {
      ExposedRefused(s, p, n + 1, gf, j + 1);
    }
  }

  predicate Refuses(s: seq<byte>, sizes: seq<nat>, gf: nat -> int) {
    RetrRun(s, 0, sizes, gf, 0).Refused?
  }

  /** Some way of cutting a stream makes retrMsg take it for an error if and only if an -ERR
      is at its beginning, or at a place from which no terminator is complete within six
      bytes. Reading byte by byte is such a way. */
  lemma RefusedIff(s: seq<byte>, gf: nat -> int)
    requires Calm(gf)
    ensures (exists sizes :: Refuses(s, sizes, gf)) <==> exists p: nat :: Exposed(s, p)
    ensures (exists p: nat :: Exposed(s, p)) ==> Refuses(s, Ones(|s|), gf)
  {
    forall sizes | Refuses(s, sizes, gf) ensures exists p: nat :: Exposed(s, p) {
      var p := RefusedExposed(s, 0, sizes, gf, 0);
    }
    forall p: nat | Exposed(s, p) ensures Refuses(s, Ones(|s|), gf) {
      ExposedRefused(s, p, 0, gf, 0);
    }
  }

  lemma {:induction false} EndedIncomplete(s: seq<byte>, n: nat, sizes: seq<nat>, gf: nat -> int, j: nat)
    requires n <= |s| && !Complete(s, n) && Calm(gf)
    ensures var run := RetrRun(s, n, sizes, gf, j);
            && !run.Late? && (run.Stopped? ==> Complete(s, |s|)) && (run == Ended ==> !Complete(s, |s|))
    decreases |s| - n
  {
    var m := n + ReadSize(|s| - n, sizes, 9999 - (n - Kept(n)));
    RunStep(s, n, sizes, gf, j, m);
    if MoveOf(s, n, m) == More {
      EndedIncomplete(s, m, Later(sizes), gf, j + 1);
    }
  }

  /** Without an exposed -ERR every way of cutting the stream ends alike. */
  lemma {:induction false} StoppedIff(s: seq<byte>, sizes: seq<nat>, gf: nat -> int)
    requires Calm(gf) && forall p: nat :: !Exposed(s, p)
    ensures RetrRun(s, 0, sizes, gf, 0).Stopped? <==> Occurs(s, [13, 10, 46, 13, 10])
    ensures !RetrRun(s, 0, sizes, gf, 0).Late?
  {
    EndedIncomplete(s, 0, sizes, gf, 0);
    assert Complete(s, |s|) <==> Occurs(s, Eom());
    if RetrRun(s, 0, sizes, gf, 0).Refused? {
      var p := RefusedExposed(s, 0, sizes, gf, 0);
    }
  }

  /** A reply whose only terminator is at its end is read to its last byte, and that byte
      comes with the last read. */
  method RetrReply(sock: Socket, gf: nat -> int) returns (r: int)
    requires |sock.rest| >= 5 && FirstAt(sock.rest, [13, 10, 46, 13, 10], |sock.rest| - 5)
    requires forall p: nat :: !Exposed(sock.rest, p)
    requires Calm(gf)
    modifies sock
    ensures r >= 0 && sock.rest == [] && old(sock.log) <= sock.log
    ensures forall j | 0 <= j < |sock.log| - |old(sock.log)| ::
              Total(Since(sock.log, old(sock.log))[..j]) < |old(sock.rest)|
  {
    ghost var s := sock.rest;
    FirstFromIs(s, Eom(), 0, |s| - 5);
    StoppedIff(s, sock.sizes, gf);
    r := RetrMsg(sock, gf);
    forall j | 0 <= j < |sock.log| - |old(sock.log)| ensures Total(Since(sock.log, old(sock.log))[..j]) < |s| {
      assert !Complete(s, Total(Since(sock.log, old(sock.log))[..j]));
    }
  }
}
