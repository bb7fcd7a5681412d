/** The timers of bench.c and their totals in smtp.c. */
module Stats {
  import opened Folding
  import opened Hiding

  /** event_timer_t, over the reals. A `mintime` of zero means none yet. */
  datatype Timer = Timer(trys: nat, errs: nat, bytesread: real, byteswritten: real,
                         elapsedtime: real, elapsedtimesq: real, maxtime: real, mintime: real)

  const ZERO := Timer(0, 0, 0.0, 0.0, 0.0, 0.0, 0.0, 0.0)

  predicate Proper(t: Timer) {
    t.maxtime >= 0.0 && t.mintime >= 0.0
  }

  function Max(a: real, b: real): real {
    if b > a then b else a
  }

  /** The smaller time, where zero is no time. */
  function Min(a: real, b: real): real {
    if a == 0.0 || (b > 0.0 && b < a) then b else a
  }

  function Add(s: Timer, t: Timer): Timer {
    Timer(s.trys + t.trys, s.errs + t.errs, s.bytesread + t.bytesread, s.byteswritten + t.byteswritten,
          s.elapsedtime + t.elapsedtime, s.elapsedtimesq + t.elapsedtimesq,
          Max(s.maxtime, t.maxtime), Min(s.mintime, t.mintime))
  }

  /** event_sum */
  method EventSum(sum: Timer, incr: Timer) returns (s: Timer)
    ensures s == Add(sum, incr)
  {
    s := sum.(trys := sum.trys + incr.trys, errs := sum.errs + incr.errs);
    s := s.(bytesread := s.bytesread + incr.bytesread, byteswritten := s.byteswritten + incr.byteswritten);
    s := s.(elapsedtime := s.elapsedtime + incr.elapsedtime, elapsedtimesq := s.elapsedtimesq + incr.elapsedtimesq);
    if incr.maxtime > s.maxtime {
      s := s.(maxtime := incr.maxtime);
    }
    if s.mintime == 0.0 || (incr.mintime > 0.0 && incr.mintime < s.mintime) {
      s := s.(mintime := incr.mintime);
    }
  }

  /** Proper timers are a commutative monoid. */
  lemma AddMonoid(a: Timer, b: Timer, c: Timer)
    requires Proper(a) && Proper(b) && Proper(c)
    ensures Proper(Add(a, b)) && Add(a, b) == Add(b, a) && Add(a, Add(b, c)) == Add(Add(a, b), c)
    ensures Add(ZERO, a) == a == Add(a, ZERO)
  {
  }

  lemma Exchange(a: Timer, b: Timer, c: Timer, d: Timer)
    requires Proper(a) && Proper(b) && Proper(c) && Proper(d)
    ensures Add(Add(a, b), Add(c, d)) == Add(Add(a, c), Add(b, d))
    ensures Proper(Add(a, c)) && Proper(Add(b, d))
  {
    AddMonoid(a, b, Add(c, d));
    AddMonoid(b, c, d);
    AddMonoid(c, b, d);
    AddMonoid(a, c, Add(b, d));
  }

  // ----- What a sum of timers says -----

  function Tally<T>(f: T -> real, s: seq<T>): real {
    if s == [] then 0.0 else Tally(f, s[..|s| - 1]) + f(s[|s| - 1])
  }

  lemma {:induction false} TallyNext<T>(f: T -> real, s: seq<T>, x: T)
    ensures Tally(f, s + [x]) == Tally(f, s) + f(x)
  {
    assert (s + [x])[..|s|] == s;
  }

  /** The counters and the sums of `t` add up to those of the others. */
  ghost predicate AddsUp(t: Timer, ts: seq<Timer>) {
    && t.trys as real == Tally((u: Timer) => u.trys as real, ts)
    && t.errs as real == Tally((u: Timer) => u.errs as real, ts)
    && t.bytesread == Tally((u: Timer) => u.bytesread, ts)
    && t.byteswritten == Tally((u: Timer) => u.byteswritten, ts)
    && t.elapsedtime == Tally((u: Timer) => u.elapsedtime, ts)
    && t.elapsedtimesq == Tally((u: Timer) => u.elapsedtimesq, ts)
  }

  /** And its times are the longest, and the shortest that is not zero. */
  ghost predicate Extremes(t: Timer, ts: seq<Timer>) {
    && (forall i | 0 <= i < |ts| :: ts[i].maxtime <= t.maxtime)
    && (t.maxtime == 0.0 || exists i | 0 <= i < |ts| :: ts[i].maxtime == t.maxtime)
    && (forall i | 0 <= i < |ts| && ts[i].mintime > 0.0 :: 0.0 < t.mintime <= ts[i].mintime)
    && (t.mintime == 0.0 || exists i | 0 <= i < |ts| :: ts[i].mintime == t.mintime)
  }

  ghost predicate Merges(t: Timer, ts: seq<Timer>) {
    Proper(t) && AddsUp(t, ts) && Extremes(t, ts)
  }

  lemma AddsUpNext(t: Timer, ts: seq<Timer>, u: Timer)
    requires AddsUp(t, ts)
    ensures AddsUp(Add(t, u), ts + [u])
  {
    TallyNext((u: Timer) => u.trys as real, ts, u);
    TallyNext((u: Timer) => u.errs as real, ts, u);
    TallyNext((u: Timer) => u.bytesread, ts, u);
    TallyNext((u: Timer) => u.byteswritten, ts, u);
    TallyNext((u: Timer) => u.elapsedtime, ts, u);
    TallyNext((u: Timer) => u.elapsedtimesq, ts, u);
  }

  lemma ExtremesNext(t: Timer, ts: seq<Timer>, u: Timer)
    requires Proper(t) && Proper(u) && Extremes(t, ts)
    ensures Extremes(Add(t, u), ts + [u])
  {
    var sum, us := Add(t, u), ts + [u];
    assert us[|ts|] == u && forall i | 0 <= i < |ts| :: us[i] == ts[i];
    if sum.maxtime == t.maxtime != 0.0 {
      var i :| 0 <= i < |ts| && ts[i].maxtime == t.maxtime;
      assert us[i].maxtime == sum.maxtime;
    }
    if sum.mintime == t.mintime != 0.0 {
      var i :| 0 <= i < |ts| && ts[i].mintime == t.mintime;
      assert us[i].mintime == sum.mintime;
    }
  }

  /** event_sum adds a timer to those that the sum stands for. */
  lemma MergesNext(t: Timer, ts: seq<Timer>, u: Timer)
    requires Merges(t, ts) && Proper(u)
    ensures Merges(Add(t, u), ts + [u])
  {
    AddsUpNext(t, ts, u);
    ExtremesNext(t, ts, u);
  }

  lemma MergesNone()
    ensures Merges(ZERO, [])
  {
  }

  // ----- One event -----

  datatype Event = Event(time: real, bytesread: real, byteswritten: real)

  function Single(e: Event): Timer {
    Timer(1, 0, e.bytesread, e.byteswritten, e.time, e.time * e.time, e.time, e.time)
  }

  /** event_stop, where `expired` is whether the run is being aborted. */
  method EventStop(timer: Timer, e: Event, expired: bool) returns (t: Timer)
    ensures t == if expired then timer else Add(timer, Single(e))
  {
    t := timer;
    if expired {
      return;
    }
    t := t.(trys := t.trys + 1);
    t := t.(bytesread := t.bytesread + e.bytesread, byteswritten := t.byteswritten + e.byteswritten);
    t := t.(elapsedtime := t.elapsedtime + e.time, elapsedtimesq := t.elapsedtimesq + e.time * e.time);
    if e.time > t.maxtime {
      t := t.(maxtime := e.time);
    }
    if t.mintime == 0.0 || (e.time > 0.0 && e.time < t.mintime) {
      t := t.(mintime := e.time);
    }
  }

  function Record(es: seq<Event>): Timer {
    if es == [] then ZERO else Add(Record(es[..|es| - 1]), Single(es[|es| - 1]))
  }

  function Singles(es: seq<Event>): seq<Timer> {
    seq(|es|, i requires 0 <= i < |es| => Single(es[i]))
  }

  lemma {:induction false} RecordMerges(es: seq<Event>)
    requires forall i | 0 <= i < |es| :: es[i].time >= 0.0
    ensures Merges(Record(es), Singles(es))
  {
    if es == [] {
      MergesNone();
      assert Singles(es) == [];
    } else {
      var rest, last := es[..|es| - 1], Single(es[|es| - 1]);
      RecordMerges(rest);
      MergesNext(Record(rest), Singles(rest), last);
      assert Singles(es) == Singles(rest) + [last];
    }
  }

  lemma {:induction false} TallySame<S, T>(f: S -> real, s: seq<S>, g: T -> real, t: seq<T>)
    requires |s| == |t| && forall i | 0 <= i < |s| :: f(s[i]) == g(t[i])
    ensures Tally(f, s) == Tally(g, t)
  {
    if s != [] {
      TallySame(f, s[..|s| - 1], g, t[..|t| - 1]);
    }
  }

  lemma {:induction false} TallyOnes<T>(f: T -> real, s: seq<T>, x: real)
    requires forall i | 0 <= i < |s| :: f(s[i]) == x
    ensures Tally(f, s) == |s| as real * x
  {
    if s != [] {
      TallyOnes(f, s[..|s| - 1], x);
    }
  }

  lemma {:induction false} RecordCounts(t: Timer, es: seq<Event>)
    requires AddsUp(t, Singles(es))
    ensures t.trys == |es| && t.errs == 0
  {
    TallyOnes((u: Timer) => u.trys as real, Singles(es), 1.0);
    TallyOnes((u: Timer) => u.errs as real, Singles(es), 0.0);
  }

  lemma {:induction false} RecordSums(t: Timer, es: seq<Event>)
    requires AddsUp(t, Singles(es))
    ensures t.bytesread == Tally((e: Event) => e.bytesread, es)
    ensures t.byteswritten == Tally((e: Event) => e.byteswritten, es)
    ensures t.elapsedtime == Tally((e: Event) => e.time, es)
    ensures t.elapsedtimesq == Tally((e: Event) => e.time * e.time, es)
  {
    TallySame((e: Event) => e.bytesread, es, (u: Timer) => u.bytesread, Singles(es));
    TallySame((e: Event) => e.byteswritten, es, (u: Timer) => u.byteswritten, Singles(es));
    TallySame((e: Event) => e.time, es, (u: Timer) => u.elapsedtime, Singles(es));
    TallySame((e: Event) => e.time * e.time, es, (u: Timer) => u.elapsedtimesq, Singles(es));
  }

  /** What a timer says about the events it has recorded. */
  lemma {:induction false} RecordMeaning(es: seq<Event>)
    requires forall i | 0 <= i < |es| :: es[i].time >= 0.0
    ensures var t := Record(es);
            && Proper(t) && t.trys == |es| && t.errs == 0
            && t.bytesread == Tally((e: Event) => e.bytesread, es)
            && t.byteswritten == Tally((e: Event) => e.byteswritten, es)
            && t.elapsedtime == Tally((e: Event) => e.time, es)
            && t.elapsedtimesq == Tally((e: Event) => e.time * e.time, es)
            && (forall i | 0 <= i < |es| :: es[i].time <= t.maxtime)
            && (t.maxtime == 0.0 || exists i | 0 <= i < |es| :: es[i].time == t.maxtime)
            && (forall i | 0 <= i < |es| && es[i].time > 0.0 :: 0.0 < t.mintime <= es[i].time)
            && (t.mintime == 0.0 || exists i | 0 <= i < |es| :: es[i].time == t.mintime)
  {
    RecordMerges(es);
    RecordCounts(Record(es), es);
    RecordSums(Record(es), es);
    RecordExtremes(Record(es), es);
  }

  lemma {:induction false} RecordExtremes(t: Timer, es: seq<Event>)
    requires Extremes(t, Singles(es))
    ensures forall i | 0 <= i < |es| :: es[i].time <= t.maxtime
    ensures t.maxtime == 0.0 || exists i | 0 <= i < |es| :: es[i].time == t.maxtime
    ensures forall i | 0 <= i < |es| && es[i].time > 0.0 :: 0.0 < t.mintime <= es[i].time
    ensures t.mintime == 0.0 || exists i | 0 <= i < |es| :: es[i].time == t.mintime
  {
    var ts := Singles(es);
    forall i | 0 <= i < |es| ensures ts[i].maxtime == es[i].time == ts[i].mintime {
    }
    if t.maxtime != 0.0 {
      var i :| 0 <= i < |ts| && ts[i].maxtime == t.maxtime;
      assert es[i].time == t.maxtime;
    }
    if t.mintime != 0.0 {
      var i :| 0 <= i < |ts| && ts[i].mintime == t.mintime;
      assert es[i].time == t.mintime;
    }
  }

  // ----- The timers of a protocol -----

  datatype Parts = Parts(idle: Timer, connect: Timer, banner: Timer, login: Timer,
                         cmd: Timer, msgread: Timer, msgwrite: Timer, logout: Timer)

  const NOTHING := Parts(ZERO, ZERO, ZERO, ZERO, ZERO, ZERO, ZERO, ZERO)

  predicate ProperParts(p: Parts) {
    && Proper(p.idle) && Proper(p.connect) && Proper(p.banner) && Proper(p.login)
    && Proper(p.cmd) && Proper(p.msgread) && Proper(p.msgwrite) && Proper(p.logout)
  }

  function AddParts(p: Parts, q: Parts): Parts {
    Parts(Add(p.idle, q.idle), Add(p.connect, q.connect), Add(p.banner, q.banner), Add(p.login, q.login),
          Add(p.cmd, q.cmd), Add(p.msgread, q.msgread), Add(p.msgwrite, q.msgwrite), Add(p.logout, q.logout))
  }

  /** All of them together. */
  function Total(p: Parts): Timer {
    Add(Add(Add(Add(Add(Add(Add(p.idle, p.connect), p.banner), p.login), p.cmd), p.msgread), p.msgwrite), p.logout)
  }

  lemma {:induction false} SumMergesAll(ts: seq<Timer>)
    requires All(Proper, ts)
    ensures Merges(Fold(Add, ZERO, ts), ts)
  {
    if ts == [] {
      MergesNone();
    } else {
      var rest, last := ts[..|ts| - 1], ts[|ts| - 1];
      SumMergesAll(rest);
      MergesNext(Fold(Add, ZERO, rest), rest, last);
      assert ts == rest + [last];
    }
  }

  /** The total of a protocol merges its eight timers. */
  lemma TotalMerges(p: Parts)
    requires ProperParts(p)
    ensures Merges(Total(p), [p.idle, p.connect, p.banner, p.login, p.cmd, p.msgread, p.msgwrite, p.logout])
  {
    FoldEight(Add, ZERO, p.idle, p.connect, p.banner, p.login, p.cmd, p.msgread, p.msgwrite, p.logout);
    AddMonoid(p.idle, ZERO, ZERO);
    SumMergesAll([p.idle, p.connect, p.banner, p.login, p.cmd, p.msgread, p.msgwrite, p.logout]);
  }

  /** The total of a sum is the sum of the totals. */
  lemma TotalAdds(p: Parts, q: Parts)
    requires ProperParts(p) && ProperParts(q)
    ensures Total(AddParts(p, q)) == Add(Total(p), Total(q)) && ProperParts(AddParts(p, q)) && Proper(Total(p))
  {
    var a, b := p.idle, q.idle;
    Exchange(a, b, p.connect, q.connect);
    a, b := Add(a, p.connect), Add(b, q.connect);
    Exchange(a, b, p.banner, q.banner);
    a, b := Add(a, p.banner), Add(b, q.banner);
    Exchange(a, b, p.login, q.login);
    a, b := Add(a, p.login), Add(b, q.login);
    Exchange(a, b, p.cmd, q.cmd);
    a, b := Add(a, p.cmd), Add(b, q.cmd);
    Exchange(a, b, p.msgread, q.msgread);
    a, b := Add(a, p.msgread), Add(b, q.msgread);
    Exchange(a, b, p.msgwrite, q.msgwrite);
    a, b := Add(a, p.msgwrite), Add(b, q.msgwrite);
    Exchange(a, b, p.logout, q.logout);
  }

  function SumParts(ps: seq<Parts>): Parts {
    Fold(AddParts, NOTHING, ps)
  }

  lemma PartsCommute()
    ensures Commutes(AddParts, ProperParts, ProperParts)
  {
    forall p: Parts, q: Parts, r: Parts | ProperParts(p) && ProperParts(q) && ProperParts(r)
      ensures AddParts(AddParts(p, q), r) == AddParts(AddParts(p, r), q)
    {
      SwapParts(p, q, r);
    }
  }

  lemma SwapParts(p: Parts, q: Parts, r: Parts)
    requires ProperParts(p) && ProperParts(q) && ProperParts(r)
    ensures AddParts(AddParts(p, q), r) == AddParts(AddParts(p, r), q)
  {
  }

  lemma SumProper(ps: seq<Parts>)
    requires All(ProperParts, ps)
    ensures ProperParts(SumParts(ps))
  {
    PartsCommute();
    FoldGood(AddParts, ProperParts, ProperParts, NOTHING, ps);
  }

  function Each(part: Parts -> Timer, ps: seq<Parts>): seq<Timer> {
    seq(|ps|, i requires 0 <= i < |ps| => part(ps[i]))
  }

  /** `part` is one of the eight timers. */
  ghost predicate IsPart(part: Parts -> Timer) {
    && part(NOTHING) == ZERO
    && (forall p, q :: part(AddParts(p, q)) == Add(part(p), part(q)))
    && (forall p | ProperParts(p) :: Proper(part(p)))
  }

  lemma {:induction false} EachMerges(part: Parts -> Timer, ps: seq<Parts>)
    requires All(ProperParts, ps) && IsPart(part)
    ensures Merges(part(SumParts(ps)), Each(part, ps))
  {
    if ps == [] {
      MergesNone();
      assert Each(part, ps) == [];
    } else {
      var rest, last := ps[..|ps| - 1], ps[|ps| - 1];
      EachMerges(part, rest);
      MergesNext(part(SumParts(rest)), Each(part, rest), part(last));
      assert Each(part, ps) == Each(part, rest) + [part(last)];
    }
  }

  /** Each timer of a sum merges those of the records. */
  lemma SumMerges(ps: seq<Parts>)
    requires All(ProperParts, ps)
    ensures Merges(SumParts(ps).idle, Each((p: Parts) => p.idle, ps))
    ensures Merges(SumParts(ps).connect, Each((p: Parts) => p.connect, ps))
    ensures Merges(SumParts(ps).banner, Each((p: Parts) => p.banner, ps))
    ensures Merges(SumParts(ps).login, Each((p: Parts) => p.login, ps))
    ensures Merges(SumParts(ps).cmd, Each((p: Parts) => p.cmd, ps))
    ensures Merges(SumParts(ps).msgread, Each((p: Parts) => p.msgread, ps))
    ensures Merges(SumParts(ps).msgwrite, Each((p: Parts) => p.msgwrite, ps))
    ensures Merges(SumParts(ps).logout, Each((p: Parts) => p.logout, ps))
  {
    EachMerges((p: Parts) => p.idle, ps);
    EachMerges((p: Parts) => p.connect, ps);
    EachMerges((p: Parts) => p.banner, ps);
    EachMerges((p: Parts) => p.login, ps);
    EachMerges((p: Parts) => p.cmd, ps);
    EachMerges((p: Parts) => p.msgread, ps);
    EachMerges((p: Parts) => p.msgwrite, ps);
    EachMerges((p: Parts) => p.logout, ps);
  }

  lemma TotalOfNothing()
    ensures Total(NOTHING) == ZERO
  {
    AddMonoid(ZERO, ZERO, ZERO);
  }

  lemma TotalNext(ps: seq<Parts>, i: nat)
    requires All(ProperParts, ps) && i < |ps|
    ensures SumParts(ps[..i + 1]) == AddParts(SumParts(ps[..i]), ps[i])
    ensures Total(SumParts(ps[..i + 1])) == Add(Total(SumParts(ps[..i])), Total(ps[i]))
  {
    assert ps[..i + 1][..i] == ps[..i];
    SumProper(ps[..i]);
    TotalAdds(SumParts(ps[..i]), ps[i]);
  }

  /** The sum does not depend on the order of threads and commands. */
  lemma AnyOrderOfParts(ps: seq<Parts>, qs: seq<Parts>)
    requires All(ProperParts, ps) && multiset(ps) == multiset(qs)
    ensures SumParts(ps) == SumParts(qs)
  {
    PartsCommute();
    AnyOrder(AddParts, ProperParts, ProperParts, NOTHING, ps, qs);
  }

  /** cmd_stats_t and its pish_stats_t. */
  datatype CmdStats = CmdStats(totalerrs: nat, totalcommands: nat, combined: Timer, parts: Parts)

  /** What pishStatsUpdate computes as the total of `incr`. */
  method Combine(p: Parts) returns (c: Timer)
    requires ProperParts(p)
    ensures c == Total(p)
  {
    c := EventSum(ZERO, p.idle);
    AddMonoid(p.idle, ZERO, ZERO);
    c := EventSum(c, p.connect);
    c := EventSum(c, p.banner);
    c := EventSum(c, p.login);
    c := EventSum(c, p.cmd);
    c := EventSum(c, p.msgread);
    c := EventSum(c, p.msgwrite);
    c := EventSum(c, p.logout);
  }

  /** The sum of a record and another. */
  function Updated(sum: CmdStats, incr: CmdStats): CmdStats {
    CmdStats(sum.totalerrs + incr.totalerrs, sum.totalcommands + incr.totalcommands,
             Add(sum.combined, Total(incr.parts)), AddParts(sum.parts, incr.parts))
  }

  /** pishStatsUpdate */
  method PishStatsUpdate(sum: CmdStats, incr: CmdStats) returns (s: CmdStats, i: CmdStats)
    requires ProperParts(incr.parts)
    ensures i == incr.(combined := Total(incr.parts))
    ensures s == Updated(sum, incr)
  {
    var idle := EventSum(sum.parts.idle, incr.parts.idle);
    var connect := EventSum(sum.parts.connect, incr.parts.connect);
    var banner := EventSum(sum.parts.banner, incr.parts.banner);
    var login := EventSum(sum.parts.login, incr.parts.login);
    var cmd := EventSum(sum.parts.cmd, incr.parts.cmd);
    var msgread := EventSum(sum.parts.msgread, incr.parts.msgread);
    var msgwrite := EventSum(sum.parts.msgwrite, incr.parts.msgwrite);
    var logout := EventSum(sum.parts.logout, incr.parts.logout);
    var c := Combine(incr.parts);
    i := incr.(combined := c);
    var combined := EventSum(sum.combined, i.combined);
    s := CmdStats(sum.totalerrs + incr.totalerrs, sum.totalcommands + incr.totalcommands, combined,
                  Parts(idle, connect, banner, login, cmd, msgread, msgwrite, logout));
  }

  function PartsOf(cs: seq<CmdStats>): seq<Parts> {
    seq(|cs|, i requires 0 <= i < |cs| => cs[i].parts)
  }

  const BLANK := CmdStats(0, 0, ZERO, NOTHING)

  lemma NextPart(cs: seq<CmdStats>, n: nat)
    requires All(ProperParts, PartsOf(cs)) && n + 1 == |cs|
    ensures All(ProperParts, PartsOf(cs[..n]))
    ensures SumParts(PartsOf(cs)) == AddParts(SumParts(PartsOf(cs[..n])), cs[n].parts)
    ensures Total(SumParts(PartsOf(cs))) == Add(Total(SumParts(PartsOf(cs[..n]))), Total(cs[n].parts))
  {
    var ps := PartsOf(cs);
    assert ps[..n] == PartsOf(cs[..n]) && ps[..n + 1] == ps;
    TotalNext(ps, n);
  }

  function Together(cs: seq<CmdStats>): CmdStats {
    Fold(Updated, BLANK, cs)
  }

  lemma TogetherNext(cs: seq<CmdStats>, n: nat)
    requires n + 1 == |cs|
    ensures Together(cs) == Updated(Together(cs[..n]), cs[n])
  {
  }

  /** In the sum of any records, each timer is the sum of theirs. */
  lemma {:induction false} PartsAddUp(cs: seq<CmdStats>)
    requires All(ProperParts, PartsOf(cs))
    ensures Together(cs).parts == SumParts(PartsOf(cs))
    ensures Together(cs).totalcommands as real == Tally((c: CmdStats) => c.totalcommands as real, cs)
    ensures Together(cs).totalerrs as real == Tally((c: CmdStats) => c.totalerrs as real, cs)
  {
    if cs == [] {
      assert PartsOf(cs) == [];
    } else {
      var n := |cs| - 1;
      NextPart(cs, n);
      TogetherNext(cs, n);
      PartsAddUp(cs[..n]);
    }
  }

  /** And the combined timer is the total of the others. */
  lemma {:induction false} CombinedIsTotal(cs: seq<CmdStats>)
    requires All(ProperParts, PartsOf(cs))
    ensures Together(cs).combined == Total(SumParts(PartsOf(cs)))
  {
    if cs == [] {
      assert PartsOf(cs) == [];
      TotalOfNothing();
    } else {
      var n := |cs| - 1;
      NextPart(cs, n);
      TogetherNext(cs, n);
      CombinedIsTotal(cs[..n]);
    }
  }

  // ----- The summing pass -----

  /** The first `k` records of a thread that belong to protocol `pr`; `proto` has the protocol
      of each command. */
  function OfThread(cs: seq<CmdStats>, proto: seq<nat>, pr: nat, k: nat): seq<CmdStats>
    requires k <= |cs| == |proto|
  {
    if k == 0 then [] else OfThread(cs, proto, pr, k - 1) + if proto[k - 1] == pr then [cs[k - 1]] else []
  }

  /** Those of the first `j` threads. */
  function OfThreads(stats: seq<seq<CmdStats>>, proto: seq<nat>, pr: nat, j: nat): seq<CmdStats>
    requires j <= |stats| && forall i | 0 <= i < |stats| :: |stats[i]| == |proto|
  {
    if j == 0 then [] else OfThreads(stats, proto, pr, j - 1) + OfThread(stats[j - 1], proto, pr, |proto|)
  }

  /** `at` lists, in order, the places of a protocol among the first `k` commands. */
  ghost predicate Places(at: seq<nat>, proto: seq<nat>, pr: nat, k: nat)
    requires k <= |proto|
  {
    && (forall m | 0 <= m < |at| :: at[m] < k && proto[at[m]] == pr)
    && (forall m, n | 0 <= m < n < |at| :: at[m] < at[n])
    && (forall i: nat | i < k && proto[i] == pr :: i in at)
  }

  lemma NextPlace(at: seq<nat>, proto: seq<nat>, pr: nat, k: nat)
    requires k < |proto| && Places(at, proto, pr, k)
    ensures Places(at + if proto[k] == pr then [k] else [], proto, pr, k + 1)
  {
    var more := at + if proto[k] == pr then [k] else [];
    forall i: nat | i < k + 1 && proto[i] == pr ensures i in more {
      assert i < k ==> i in at;
      assert i == k ==> more[|at|] == i;
    }
  }

  /** The records of a protocol are those at its places. */
  lemma OfThreadIs(cs: seq<CmdStats>, proto: seq<nat>, pr: nat, k: nat) returns (at: seq<nat>)
    requires k <= |cs| == |proto|
    ensures Places(at, proto, pr, k) && |at| == |OfThread(cs, proto, pr, k)|
    ensures forall m | 0 <= m < |at| :: OfThread(cs, proto, pr, k)[m] == cs[at[m]]
  {
    at := [];
    for i := 0 to k
      invariant Places(at, proto, pr, i) && |at| == |OfThread(cs, proto, pr, i)|
      invariant forall m | 0 <= m < |at| :: OfThread(cs, proto, pr, i)[m] == cs[at[m]]
    {
      NextPlace(at, proto, pr, i);
      at := at + if proto[i] == pr then [i] else [];
    }
  }

  /** `at` lists, in order, those of the first `j` threads. */
  ghost predicate AllPlaces(at: seq<(nat, nat)>, proto: seq<nat>, pr: nat, j: nat) {
    && (forall m | 0 <= m < |at| :: at[m].0 < j && at[m].1 < |proto| && proto[at[m].1] == pr)
    && (forall m, n | 0 <= m < n < |at| :: at[m].0 < at[n].0 || (at[m].0 == at[n].0 && at[m].1 < at[n].1))
    && (forall i: nat, k: nat | i < j && k < |proto| && proto[k] == pr :: (i, k) in at)
  }

  /** The places of thread `j`. */
  ghost predicate PlacesIn(at: seq<(nat, nat)>, inner: seq<nat>, j: nat) {
    |at| == |inner| && forall m | 0 <= m < |at| :: at[m] == (j, inner[m])
  }

  lemma MorePlaces(before: seq<(nat, nat)>, at: seq<(nat, nat)>, inner: seq<nat>, proto: seq<nat>, pr: nat, j: nat)
    requires AllPlaces(before, proto, pr, j) && PlacesIn(at, inner, j) && Places(inner, proto, pr, |proto|)
    ensures AllPlaces(before + at, proto, pr, j + 1)
  {
    var all := before + at;
    forall i: nat, k: nat | i < j + 1 && k < |proto| && proto[k] == pr ensures (i, k) in all {
      if i < j {
        var m :| 0 <= m < |before| && before[m] == (i, k);
        assert all[m] == (i, k);
      } else {
        var m :| 0 <= m < |inner| && inner[m] == k;
        assert all[|before| + m] == at[m] == (i, k);
      }
    }
  }

  ghost predicate ReadAt(stats: seq<seq<CmdStats>>, at: seq<(nat, nat)>, cs: seq<CmdStats>) {
    |at| == |cs| && forall m | 0 <= m < |at| ::
      at[m].0 < |stats| && at[m].1 < |stats[at[m].0]| && cs[m] == stats[at[m].0][at[m].1]
  }

  lemma ReadMore(stats: seq<seq<CmdStats>>, at: seq<(nat, nat)>, cs: seq<CmdStats>,
                 at1: seq<(nat, nat)>, cs1: seq<CmdStats>)
    requires ReadAt(stats, at, cs) && ReadAt(stats, at1, cs1)
    ensures ReadAt(stats, at + at1, cs + cs1)
  {
  }

  lemma ThreadIs(stats: seq<seq<CmdStats>>, proto: seq<nat>, pr: nat, j: nat)
      returns (at: seq<(nat, nat)>, inner: seq<nat>)
    requires j < |stats| && |stats[j]| == |proto|
    ensures Places(inner, proto, pr, |proto|) && PlacesIn(at, inner, j)
    ensures ReadAt(stats, at, OfThread(stats[j], proto, pr, |proto|))
  {
    inner := OfThreadIs(stats[j], proto, pr, |proto|);
    at := seq(|inner|, m requires 0 <= m < |inner| => (j, inner[m]));
  }

  lemma NextThread(stats: seq<seq<CmdStats>>, proto: seq<nat>, pr: nat, j: nat,
                   before: seq<(nat, nat)>, cs: seq<CmdStats>) returns (at: seq<(nat, nat)>)
    requires j < |stats| && |stats[j]| == |proto|
    requires AllPlaces(before, proto, pr, j) && ReadAt(stats, before, cs)
    ensures AllPlaces(at, proto, pr, j + 1) && ReadAt(stats, at, cs + OfThread(stats[j], proto, pr, |proto|))
  {
    var more, inner := ThreadIs(stats, proto, pr, j);
    MorePlaces(before, more, inner, proto, pr, j);
    ReadMore(stats, before, cs, more, OfThread(stats[j], proto, pr, |proto|));
    at := before + more;
  }

  /** The records of a protocol are those at its places, thread by thread. */
  lemma OfThreadsIs(stats: seq<seq<CmdStats>>, proto: seq<nat>, pr: nat, j: nat) returns (at: seq<(nat, nat)>)
    requires j <= |stats| && forall i | 0 <= i < |stats| :: |stats[i]| == |proto|
    ensures AllPlaces(at, proto, pr, j) && ReadAt(stats, at, OfThreads(stats, proto, pr, j))
  {
    at := [];
    for k := 0 to j
      invariant AllPlaces(at, proto, pr, k) && ReadAt(stats, at, OfThreads(stats, proto, pr, k))
    {
      at := NextThread(stats, proto, pr, k, at, OfThreads(stats, proto, pr, k));
    }
  }

  /** The records of a thread, one a command. */
  ghost predicate Records(cs: seq<CmdStats>, proto: seq<nat>, protocols: nat) {
    |cs| == |proto| && forall k | 0 <= k < |cs| :: ProperParts(cs[k].parts) && proto[k] < protocols
  }

  /** `f` is what pishStatsUpdate computes, spelled out only where Detail is mentioned. */
  ghost predicate Updates(f: (CmdStats, CmdStats) -> CmdStats) {
    forall k: nat {:trigger Detail(k)} | Detail(k) :: f == Updated
  }

  method Update(sum: CmdStats, incr: CmdStats, ghost f: (CmdStats, CmdStats) -> CmdStats) returns (s: CmdStats)
    requires ProperParts(incr.parts) && Updates(f)
    ensures s == f(sum, incr)
  {
    assert Detail(0);
    var i;
    s, i := PishStatsUpdate(sum, incr);
  }

  /** Each protocol has its sum. */
  ghost predicate AllSums(f: (CmdStats, CmdStats) -> CmdStats, blank: CmdStats,
                          sums: seq<CmdStats>, done: seq<seq<CmdStats>>)
  {
    |sums| == |done| && forall pr | 0 <= pr < |sums| :: sums[pr] == Fold(f, blank, done[pr])
  }

  /** The records of a thread, each to the sum of its protocol. */
  method SumThread(cs: seq<CmdStats>, proto: seq<nat>, start: seq<CmdStats>, ghost f: (CmdStats, CmdStats) -> CmdStats,
                   ghost blank: CmdStats, ghost before: seq<seq<CmdStats>>)
    returns (sums: seq<CmdStats>, ghost done: seq<seq<CmdStats>>)
    requires Updates(f) && AllSums(f, blank, start, before) && Records(cs, proto, |start|)
    ensures |sums| == |start| && AllSums(f, blank, sums, done)
    ensures forall pr | 0 <= pr < |start| :: done[pr] == before[pr] + OfThread(cs, proto, pr, |cs|)
  {
    sums, done := start, before;
    for k := 0 to |cs|
      invariant |sums| == |start| && AllSums(f, blank, sums, done)
      invariant forall pr | 0 <= pr < |start| :: done[pr] == before[pr] + OfThread(cs, proto, pr, k)
    {
      var pp := proto[k];
      var s := Update(sums[pp], cs[k], f);
      FoldNext(f, blank, done[pp], cs[k]);
      sums, done := sums[pp := s], done[pp := done[pp] + [cs[k]]];
    }
  }

  /** The records of every thread. */
  method SumThreads(stats: seq<seq<CmdStats>>, proto: seq<nat>, protocols: nat, blank: CmdStats,
                    ghost f: (CmdStats, CmdStats) -> CmdStats)
    returns (sums: seq<CmdStats>, ghost done: seq<seq<CmdStats>>)
    requires forall j | 0 <= j < |stats| :: |stats[j]| == |proto| && Records(stats[j], proto, protocols)
    requires Updates(f)
    ensures |sums| == protocols && AllSums(f, blank, sums, done)
    ensures forall pr | 0 <= pr < protocols :: done[pr] == OfThreads(stats, proto, pr, |stats|)
  {
    sums, done := seq(protocols, _ => blank), seq(protocols, _ => []);
    for j := 0 to |stats|
      invariant |sums| == protocols && AllSums(f, blank, sums, done)
      invariant forall pr | 0 <= pr < protocols :: done[pr] == OfThreads(stats, proto, pr, j)
    {
      sums, done := SumThread(stats[j], proto, sums, f, blank, done);
    }
  }

  /** The summing pass of clientTimeSummary: however many threads and commands there are, each
      protocol gets the sum of its own records, one at a time. */
  method TimeSummary(stats: seq<seq<CmdStats>>, proto: seq<nat>, protocols: nat) returns (sums: seq<CmdStats>)
    requires forall j | 0 <= j < |stats| :: |stats[j]| == |proto| && Records(stats[j], proto, protocols)
    ensures |sums| == protocols
    ensures forall pr | 0 <= pr < protocols :: sums[pr] == Together(OfThreads(stats, proto, pr, |stats|))
  {
    ghost var done;
    sums, done := SumThreads(stats, proto, protocols, BLANK, Updated);
  }
}
