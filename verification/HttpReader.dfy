/** The sliding-window reader of HTTP responses in http-util.c, without a parse callback. */
module HttpReader {
  import opened Bytes
  import opened HttpRuns
  import opened SocketBuffer

  function Min(a: int, b: int): int {
    if a < b then a else b
  }

  /** What may be read before the end of the header is known. */
  function Prefix(all: seq<byte>, limit: nat): (p: seq<byte>)
    ensures p <= all && |p| == Min(|all|, limit)
  {
    all[..Min(|all|, limit)]
  }

  lemma SameSize(left: nat, sizes: seq<nat>, room: nat, count: nat)
    requires room == Min(left, count)
    ensures ReadSize(left, sizes, count) == ReadSize(room, sizes, room)
  {
  }

  lemma {:induction false} HitBefore(v: seq<byte>, pat: seq<byte>, k: nat, n: nat)
    requires n <= |v|
    ensures Hit(v, pat, k, n) <==> FirstFrom(v[..n], pat, k) >= 0
    ensures FirstFrom(v[..n], pat, k) >= 0 ==> FirstFrom(v[..n], pat, k) == FirstFrom(v, pat, k)
  {
    forall i: nat | i + |pat| <= n ensures At(v[..n], pat, i) <==> At(v, pat, i) {
      AtSlice(v, pat, 0, n, i);
      assert v[0..0 + n] == v[..n];
    }
    if Hit(v, pat, k, n) {
      FirstFromIs(v[..n], pat, k, FirstFrom(v, pat, k));
    } else if FirstFrom(v[..n], pat, k) >= 0 {
      FirstFromIs(v, pat, k, FirstFrom(v[..n], pat, k));
    }
  }

  /** A search of what the buffer holds is a search of the stream. */
  lemma {:induction false} SearchHeld(v: seq<byte>, pat: seq<byte>, off: nat, n: nat, from: nat, hit: int)
    requires off + from <= n <= |v| && hit == FirstFrom(v[off..n], pat, from)
    ensures hit >= 0 <==> Hit(v, pat, off + from, n)
    ensures hit >= 0 ==> FirstFrom(v, pat, off + from) == off + hit && off + hit + |pat| <= n
  {
    assert v[off..n] == v[..n][off..];
    FoundInTail(v[..n], pat, off, v[off..n], from, hit);
    HitBefore(v, pat, off + from, n);
  }

  lemma ViewSlice(got: nat, s: seq<byte>, a: nat, b: nat)
    requires a <= b <= |s|
    ensures View(got, s[a..b]) == View(got, s)[a..b]
  {
  }

  /** In the length phase the first hit behind `done` is the first. */
  lemma LengthHit(p: seq<byte>, h: nat, pos: Pos)
    requires Fits(p, h, pos) && pos.got == 0
    ensures Hit(View(0, p), Pattern(0), pos.done, pos.n) <==> 0 <= LengthAt(p) <= pos.n
    ensures LengthAt(p) >= 0 ==> FirstFrom(View(0, p), Pattern(0), pos.done) == LengthAt(p) - 15
  {
    var v := View(0, p);
    SkipsNothing(v, Pattern(0), 0, pos.done);
  }

  lemma SearchedFits(p: seq<byte>, h: nat, pos: Pos)
    requires Fits(p, h, pos) && pos.got < 2
    ensures Fits(p, h, Searched(p, pos))
  {
  }

  /** An iteration of a run. */
  lemma {:induction false} StepRun(p: seq<byte>, h: nat, pos: Pos, sizes: seq<nat>, q: Pos)
    requires Fits(p, h, pos) && pos.got < 2 && !(Wants(pos) && pos.n == |p|) && q == Next(p, h, pos, sizes)
    ensures Held(p, q) ==> RunOf(p, h, pos, sizes) == Stuck && Unended(p, q.n) && q.done == q.off
    ensures !Held(p, q) ==> Fits(p, h, q) && RunOf(p, h, pos, sizes) == RunOf(p, h, q, Rest(pos, sizes))
    ensures !Held(p, q) ==> q.got > pos.got || (q.got == pos.got && q.n > pos.n)
                            || (q.got == pos.got && q.n == pos.n && q.done > pos.done)
  {
  }

  lemma Extends(all: seq<byte>, a: nat, t: nat, live: seq<byte>, piece: seq<byte>, rest: seq<byte>)
    requires a <= t && t + |piece| <= |all| && live == all[a..t] && all[t..] == piece + rest
    ensures live + piece == all[a..t + |piece|] && rest == all[t + |piece|..]
  {
    assert piece == all[t..][..|piece|] == all[t..t + |piece|];
    assert rest == all[t..][|piece|..];
  }

  /** Looks for the pattern of a phase in what the buffer holds. */
  method FindHeld(live: seq<byte>, got: nat, from: nat, ghost head: seq<byte>, ghost off: nat) returns (hit: int)
    requires off + |live| <= |head| && live == head[off..off + |live|] && from <= |live|
    ensures hit == -1 || (from <= hit && hit + |Pattern(got)| <= |live|)
    ensures hit >= 0 <==> Hit(View(got, head), Pattern(got), off + from, off + |live|)
    ensures hit >= 0 ==> FirstFrom(View(got, head), Pattern(got), off + from) == off + hit
  {
    ViewSlice(got, head, off, off + |live|);
    hit := FindFirst(View(got, live), Pattern(got), from);
    SearchHeld(View(got, head), Pattern(got), off, off + |live|, from, hit);
  }

  /** The length at `hit` in the buffer, and the end of its line. */
  method Measure(live: seq<byte>, hit: nat, atoi: seq<byte> -> int, ghost head: seq<byte>, ghost off: nat)
    returns (n: int, e: int)
    requires off + |live| <= |head| && live == head[off..off + |live|]
    requires hit + 15 <= |live| && LengthAt(head) == off + hit + 15
    ensures n == atoi(head[LengthAt(head)..off + |live|]) && e >= -1
    ensures e >= 0 <==> 0 <= LineEnd(head) < off + |live|
    ensures e >= 0 ==> LineEnd(head) == off + e
  {
    assert live[hit + 15..] == head[off + hit + 15..off + |live|];
    n := atoi(live[hit + 15..]);
    e := FindFirst(live, [10], hit + 15);
    SearchHeld(head, [10], off, off + |live|, hit + 15, e);
  }

  datatype Progress = Go | Again | Stop

  class Reader {
    const buffer: array<byte>
    const sock: Socket
    const atoi: seq<byte> -> int
    ghost const all: seq<byte>    // what the peer sends
    ghost const head: seq<byte>   // as much of it as may be read before the end of the header is known
    ghost const half: nat
    var got: nat          // gotheader
    var total: nat        // totalbytesread
    var held: nat         // bytesInBuffer
    var start: nat        // searchStart - buffer
    var length: int       // contentlength
    var toRead: int       // bytestoread
    ghost var upTo: nat   // how much was read when the length was taken

    /** The buffer holds the last `held` bytes of what has been read: everything, if that is not
        more than half a buffer. */
    ghost predicate Window()
      reads this`total, this`held, this`start, buffer, sock
    {
      && held < buffer.Length && start <= held <= total <= |all|
      && buffer[..held] == all[total - held..total] && sock.rest == all[total..]
      && (total <= buffer.Length / 2 ==> held == total)
    }

    ghost function Now(): Pos
      requires Window()
      reads this, buffer, sock
    {
      Pos(got, total, total - held, total - held + start, upTo)
    }

    /** The length is what the line of the first Content-length says, as far as it was read
        when the end of the line was. */
    ghost predicate Measured()
      reads this`length, this`upTo
    {
      0 <= LineEnd(head) < upTo <= |head| && length == atoi(head[LengthAt(head)..upTo])
    }

    /** Before the end of the header is known. */
    ghost predicate Ready()
      reads this, buffer, sock
    {
      && buffer.Length > 0 && half == buffer.Length / 2 && head == Prefix(all, buffer.Length - 1)
      && Window() && Fits(head, half, Now())
      && (got < 2 ==> toRead == buffer.Length - 1)
      && (got > 0 ==> Measured())
      && (got == 2 ==> toRead == length + Now().done)
    }

    constructor (s: Socket, buflen: nat, parse: seq<byte> -> int)
      requires buflen > 0
      ensures Ready() && Now() == START && all == s.rest
      ensures buffer.Length == buflen && sock == s && atoi == parse && fresh(buffer)
    {
      buffer := new byte[buflen](_ => 0);
      sock, atoi, all, head, half := s, parse, s.rest, Prefix(s.rest, buflen - 1), buflen / 2;
      got, total, held, start, length, toRead, upTo := 0, 0, 0, 0, 0, buflen - 1, 0;
    }

    /** The shift by half a buffer. Source and destination do not overlap. */
    method Shift()
      requires Window() && start > buffer.Length / 2
      modifies this`held, this`start, buffer
      ensures Window() && held == old(held) - buffer.Length / 2 && start == old(start) - buffer.Length / 2
      ensures held <= buffer.Length / 2
    {
      var skip := buffer.Length / 2;
      forall i | 0 <= i < held - skip {
        buffer[i] := buffer[skip + i];
      }
      held, start := held - skip, start - skip;
      assert buffer[..held] == old(buffer[..held])[skip..];
    }

    /** The buffer is full and the search too near its beginning for a shift. */
    predicate NoRoom()
      reads this`held, this`start
    {
      held == buffer.Length - 1 && start <= buffer.Length / 2
    }

    method Append(piece: seq<byte>)
      requires held + |piece| < buffer.Length && start <= held <= total && total + |piece| <= |all|
      requires buffer[..held] == all[total - held..total] && all[total..] == piece + sock.rest
      requires total <= buffer.Length / 2 ==> held == total
      modifies this`held, this`total, buffer
      ensures Window() && total == old(total) + |piece| && held == old(held) + |piece|
    {
      forall i | 0 <= i < |piece| {
        buffer[held + i] := piece[i];
      }
      assert buffer[..held + |piece|] == old(buffer[..held]) + piece;
      Extends(all, total - held, total, old(buffer[..held]), piece, sock.rest);
      total, held := total + |piece|, held + |piece|;
    }

    method Receive(count: nat) returns (more: bool)
      requires Window() && held + count < buffer.Length
      modifies this`held, this`total, sock, buffer
      ensures Window() && total == old(total) + ReadSize(|all| - old(total), old(sock.sizes), count)
      ensures total - held == old(total - held) && (more <==> total > old(total))
      ensures sock.sizes == if more then Later(old(sock.sizes)) else old(sock.sizes)
    {
      var bytes := sock.Read(count);
      Append(bytes);
      return bytes != [];
    }

    /** Reads what may still be read and fits. */
    method Fill() returns (more: bool)
      requires Window() && half == buffer.Length / 2
      modifies this`held, this`start, this`total, sock, buffer
      ensures Window() && total - held + start == old(total - held + start)
      ensures more <==> old(total) < toRead && !old(NoRoom()) && old(sock.rest) != []
      ensures !more ==> total == old(total) && sock.sizes == old(sock.sizes)
      ensures !more && old(NoRoom()) ==> held == buffer.Length - 1
      ensures more ==> sock.sizes == Later(old(sock.sizes)) && old(total) < total <= toRead
      ensures more ==> total - held == Shifted(half, old(Now()))
      ensures more ==> total == old(total) + ReadSize(|all| - old(total), old(sock.sizes),
                Min(toRead - old(total), buffer.Length - 1 - (old(total) - (total - held))))
    {
      if total >= toRead {
        return false;
      }
      if start > buffer.Length / 2 {
        Shift();
      }
      var room := buffer.Length - held - 1;
      more := Receive(if toRead - total < room then toRead - total else room);
    }

    /** The reading part of an iteration before the end of the header is known. */
    method More() returns (more: bool)
      requires Ready() && got < 2 && Wants(Now())
      modifies this`held, this`start, this`total, sock, buffer
      ensures Ready() && (more <==> old(total) < |head|)
      ensures more ==> Now() == Filled(head, half, old(Now()), old(sock.sizes)) && sock.sizes == Later(old(sock.sizes))
      ensures !more ==> total == old(total)
    {
      ghost var n := total;
      more := Fill();
      if more {
        SameSize(|all| - n, old(sock.sizes), |head| - n,
          Min(buffer.Length - 1 - n, buffer.Length - 1 - (n - (total - held))));
      }
    }

    /** Looks for the pattern of the phase in what the buffer holds. */
    method Look() returns (hit: int)
      requires Ready() && got < 2
      ensures hit == -1 || (start <= hit && hit + |Pattern(got)| <= held)
      ensures hit == -1 ==> Searched(head, Now()) == Missed(Now()) && !Held(head, Now())
      ensures hit >= 0 && got == 0 ==> LengthAt(head) == Now().off + hit + 15
      ensures hit >= 0 && got == 1 ==> Searched(head, Now()) == Now().(got := 2, done := Now().off + hit + 4)
    {
      assert buffer[..held] == head[total - held..total];
      hit := FindHeld(buffer[..held], got, start, head, total - held);
      if got == 0 {
        LengthHit(head, half, Now());
      }
    }

    /** Nothing found. */
    method Skip()
      requires Ready() && got < 2 && Searched(head, Now()) == Missed(Now()) && !Held(head, Now())
      modifies this`start
      ensures Ready() && Now() == Searched(head, old(Now())) && !Held(head, Now())
    {
      SearchedFits(head, half, Now());
      if held >= |Pattern(got)| {
        start := held - |Pattern(got)| + 1;
      }
    }

    /** The length without the end of its line: the search starts over. */
    method StartOver()
      requires Ready() && got == 0 && Unended(head, total)
      modifies this`start
      ensures Ready() && Now() == Searched(head, old(Now())) && got == 0
    {
      SearchedFits(head, half, Now());
      start := 0;
    }

    /** With it, the search for the break begins there. */
    method NextPhase(e: nat)
      requires Ready() && got == 0 && LineEnd(head) == Now().off + e < total
      requires length == atoi(head[LengthAt(head)..total])
      modifies this`got, this`start, this`upTo
      ensures Ready() && Now() == Searched(head, old(Now())) && got == 1
    {
      SearchedFits(head, half, Now());
      start, got, upTo := e, 1, total;
    }

    /** The length is at `hit`. */
    method FoundLength(hit: nat) returns (again: bool)
      requires Ready() && got == 0 && hit + 15 <= held && LengthAt(head) == Now().off + hit + 15
      modifies this`got, this`start, this`length, this`upTo
      ensures Ready() && Now() == Searched(head, old(Now())) && (again <==> Held(head, Now()))
    {
      var e;
      assert buffer[..held] == head[total - held..total];
      length, e := Measure(buffer[..held], hit, atoi, head, total - held);
      again := e == -1;
      if again {
        StartOver();
      } else {
        NextPhase(e);
      }
    }

    /** The break is at `hit`. */
    method FoundBreak(hit: nat)
      requires Ready() && got == 1 && hit + 4 <= held
      requires Searched(head, Now()) == Now().(got := 2, done := Now().off + hit + 4)
      modifies this`got, this`start, this`toRead
      ensures Ready() && Now() == Searched(head, old(Now())) && !Held(head, Now())
    {
      SearchedFits(head, half, Now());
      start, got := hit + 4, 2;
      toRead := length + (start + (total - held));
    }

    /** The searching part of an iteration. */
    method Search() returns (again: bool)
      requires Ready() && got < 2
      modifies this`got, this`start, this`length, this`toRead, this`upTo
      ensures Ready() && Now() == Searched(head, old(Now())) && (again <==> Held(head, Now()))
    {
      var hit := Look();
      again := false;
      if hit == -1 {
        Skip();
      } else if got == 0 {
        again := FoundLength(hit);
      } else {
        FoundBreak(hit);
      }
    }

    /** One iteration before the end of the header is known. It stops if it needs bytes and
        none may be read, or none come; the next will do the same again if it has found the
        length without the end of its line. */
    method Step() returns (p: Progress)
      requires Ready() && got < 2
      modifies this, sock, buffer
      ensures Ready()
      ensures p == Stop <==> Wants(old(Now())) && old(total) == |head|
      ensures p == Stop ==> got == old(got) && total == old(total)
      ensures p != Stop ==> Now() == Next(head, half, old(Now()), old(sock.sizes))
      ensures p != Stop ==> sock.sizes == Rest(old(Now()), old(sock.sizes)) && (p == Again <==> Held(head, Now()))
      ensures !Wants(old(Now())) ==> sock.sizes == old(sock.sizes) && buffer[..] == old(buffer[..])
    {
      if held - start < |Pattern(got)| {
        var more := More();
        if !more {
          return Stop;
        }
      }
      var again := Search();
      p := if again then Again else Go;
    }

    /** Once the length is held without the end of its line, no iteration reads anything, or
        changes anything else. */
    method StuckForever(iterations: nat)
      requires Ready() && got == 0 && start == 0 && Unended(head, total)
      modifies this, sock, buffer
      ensures Ready() && Now() == old(Now()) && buffer[..] == old(buffer[..])
      ensures sock.rest == old(sock.rest) && sock.sizes == old(sock.sizes)
    {
      for i := 0 to iterations
        invariant Ready() && Now() == old(Now()) && buffer[..] == old(buffer[..])
        invariant sock.rest == old(sock.rest) && sock.sizes == old(sock.sizes)
      {
        var p := Step();
      }
    }

    /** After the header. */
    ghost predicate InBody()
      reads this, buffer, sock
    {
      buffer.Length >= 3 && half == buffer.Length / 2 && Window() && got == 2
    }

    /** An iteration in the body. */
    method BodyStep() returns (more: bool)
      requires InBody()
      modifies this`held, this`start, this`total, sock, buffer
      ensures InBody()
      ensures more <==> old(total) < toRead && !old(NoRoom()) && old(sock.rest) != []
      ensures more ==> old(total) < total <= toRead && !NoRoom()
      ensures !more ==> total == old(total)
    {
      more := Fill();
      if more {
        start := held;
      }
    }

    /** The body. Nothing beyond it is read, and it is read to its end, if the stream has it,
        unless the buffer was full and the break in its first half. */
    method Body()
      requires InBody()
      modifies this`held, this`start, this`total, sock, buffer
      ensures InBody()
      ensures total == if old(total) >= toRead || old(NoRoom()) then old(total) else Min(|all|, toRead)
    {
      var more := BodyStep();
      while more
        invariant InBody()
        invariant total == old(total) || (old(total) < total <= toRead && !old(NoRoom()))
        invariant more ==> !NoRoom()
        invariant !more ==> total >= toRead || old(NoRoom()) || total == |all|
        decreases |all| - total, more
      {
        more := BodyStep();
      }
    }

    /** The header phase, for any schedule. */
    method Header() returns (stuck: bool)
      requires Ready() && Now() == START
      modifies this, sock, buffer
      ensures Ready() && got <= 2 && stuck == (RunOf(head, half, START, old(sock.sizes)) == Stuck)
      ensures stuck ==> got == 0 && start == 0 && Unended(head, total)
      ensures !stuck && got < 2 ==> RunOf(head, half, START, old(sock.sizes)) == Short(got) && total == |head|
      ensures got == 2 ==> RunOf(head, half, START, old(sock.sizes)) == Found(Now())
    {
      ghost var run := RunOf(head, half, START, sock.sizes);
      while got < 2
        invariant Ready() && run == RunOf(head, half, Now(), sock.sizes)
        decreases 2 - got, |head| - total, held - start
      {
        ghost var pos, sizes := Now(), sock.sizes;
        var p := Step();
        if p == Stop {
          return false;
        }
        StepRun(head, half, pos, sizes, Now());
        if p == Again {
          return true;
        }
      }
      stuck := false;
    }

    /** HttpReadResponse, for any schedule. If the end of the header is found, the length is
        taken as what follows it, nothing behind that is read, and it is read to its end, if
        the stream has it, unless the buffer was full and the break in its first half. */
    method Response() returns (stuck: bool)
      requires Ready() && Now() == START && buffer.Length >= 3
      modifies this, sock, buffer
      ensures Window()
      ensures match RunOf(head, half, START, old(sock.sizes))
              case Stuck => stuck && got == 0
              case Short(g) => !stuck && got == g && total == |head|
              case Found(q) =>
                && !stuck && got == 2 && 0 <= LineEnd(head) < q.upTo <= |head|
                && toRead == atoi(head[LengthAt(head)..q.upTo]) + q.done
                && total == if q.n >= toRead || Full(q) then q.n else Min(|all|, toRead)
    {
      stuck := Header();
      if got == 2 {
        Body();
      }
    }

    /** NoRoom at `q`. */
    ghost predicate Full(q: Pos) {
      q.n - q.off == buffer.Length - 1 && q.done - q.off <= half
    }
  }

  // ----- A body that is cut short -----

  /** A header of 22 bytes with a length of 99, and that many bytes behind it. */
  function Reply(): seq<byte> {
    [67, 111, 110, 116, 101, 110, 116, 45, 76, 101, 110, 103, 116, 104, 58]   // Content-Length:
    + [57, 57, 10] + [13, 10, 13, 10] + seq(99, _ => 88)
  }

  lemma ReplyBytes(p: seq<byte>)
    requires p == Reply()[..49]
    ensures Named(p, 0) && p[15] == p[16] == 57 && p[17] == 10 && !Blank(p, 17) && Blank(p, 18)
  {
  }

  lemma ReplyParts(p: seq<byte>)
    requires Named(p, 0) && |p| >= 22 && p[15] == p[16] == 57 && p[17] == 10 && !Blank(p, 17) && Blank(p, 18)
    ensures LengthAt(p) == 15 && LineEnd(p) == 17 && HeaderEnd(p, 17) == 22
  {
    PlacesAre(p, 17);
    assert p[15..][2] == 10;
  }

  /** One read fills the buffer. */
  lemma {:induction false} FillsAtOnce(p: seq<byte>)
    requires p == Reply()[..49]
    ensures RunOf(p, 25, START, []) == Found(Pos(2, 49, 0, 22, 49)) && LengthAt(p) == 15
  {
    ReplyBytes(p);
    ReplyParts(p);
    var q := Pos(1, 49, 0, 17, 49);
    assert Filled(p, 25, START, []) == Pos(0, 49, 0, 0, 0) && Next(p, 25, START, []) == q;
    assert Searched(p, q) == Pos(2, 49, 0, 22, 49);
    assert RunOf(p, 25, q, []) == RunOf(p, 25, Searched(p, q), []);
  }

  /** What is left of a buffer that the header phase has filled. */
  method ReadFull(reader: Reader, ghost q: Pos) returns (total: nat, toRead: int)
    requires reader.Ready() && reader.Now() == START && reader.buffer.Length >= 3
    requires RunOf(reader.head, reader.half, START, reader.sock.sizes) == Found(q) && reader.Full(q)
    modifies reader, reader.sock, reader.buffer
    ensures total == q.n && 0 <= LengthAt(reader.head) <= q.upTo <= |reader.head|
    ensures toRead == reader.atoi(reader.head[LengthAt(reader.head)..q.upTo]) + q.done
  {
    var stuck := reader.Response();
    total, toRead := reader.total, reader.toRead;
  }

  /** With a buffer of 50 bytes the reader stops after 49 bytes of 121, although the peer sends
      them all. */
  method CutShort() returns (total: nat, toRead: int, sent: nat)
    ensures total == 49 && toRead == sent == 121
  {
    var s := Reply();
    sent := |s|;
    var sock := new Socket(s, []);
    var reader := new Reader(sock, 50, _ => 99);
    FillsAtOnce(reader.head);
    total, toRead := ReadFull(reader, Pos(2, 49, 0, 22, 49));
  }
}
