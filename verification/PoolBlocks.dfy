/** The protocol calls of the clients, over every schedule: whole blocks, and the beginning of
    one more. */
module PoolBlocks {
  import opened Timeval
  import opened Clients
  import opened EventQueue
  import opened Lifecycle
  import opened WorkerPool
  import opened PoolOwnership
  import opened PoolRecords
  import opened PoolTheorems
  import Runs

  // ----- Blocks -----

  /** The Loop calls of a session of a command of `n` loops that has come to its End. */
  predicate LoopsOf(n: int, loops: seq<Call>) {
    && (forall i | 0 <= i < |loops| :: loops[i].Loop? && (i + 1 < |loops| ==> loops[i].rc == 0))
    && (n >= 0 ==> |loops| <= n) && (|loops| == n || (loops != [] && loops[|loops| - 1].rc != 0))
  }

  predicate BlockOf(n: int, b: seq<Call>) {
    b == [Start(false)] || (|b| >= 2 && b[0] == Start(true) && b[|b| - 1] == End && LoopsOf(n, b[1..|b| - 1]))
  }

  /** For the same results, the Loop calls are those of the event-driven engine. */
  lemma {:induction false} LoopsUntil(n: nat, rc: nat -> int, k: nat, loops: seq<Call>)
    requires k <= n && forall i | 0 <= i < |loops| :: loops[i].Loop? && rc(k + i) == loops[i].rc
    ensures LoopsOf(n - k, loops) <==> loops == LoopsUntilNonzero(n, rc, k)
    decreases n - k
  {
    if k < n && loops != [] {
      assert loops == [Loop(rc(k))] + loops[1..];
      if rc(k) == 0 {
        var rest := loops[1..];
        forall i | 0 <= i < |rest| ensures rest[i].Loop? && rc(k + 1 + i) == rest[i].rc {
          assert rest[i] == loops[i + 1] && k + (i + 1) == k + 1 + i;
        }
        LoopsUntil(n, rc, k + 1, rest);
        LoopsTail(n - k, loops);
        assert LoopsUntilNonzero(n, rc, k)[1..] == LoopsUntilNonzero(n, rc, k + 1);
      } else {
        assert loops[0].rc == rc(k) && LoopsUntilNonzero(n, rc, k) == [Loop(rc(k))];
        assert |loops| == 1 ==> loops[1..] == [];
      }
    }
  }

  lemma LoopsTail(n: int, loops: seq<Call>)
    requires n > 0 && loops != [] && loops[0] == Loop(0)
    ensures LoopsOf(n, loops) <==> LoopsOf(n - 1, loops[1..])
  {
    var rest := loops[1..];
    if LoopsOf(n, loops) {
      forall i | 0 <= i < |rest| ensures rest[i].Loop? && (i + 1 < |rest| ==> rest[i].rc == 0) {
        assert rest[i] == loops[i + 1];
      }
    }
    if LoopsOf(n - 1, rest) {
      forall i | 0 <= i < |loops| ensures loops[i].Loop? && (i + 1 < |loops| ==> loops[i].rc == 0) {
        assert i > 0 ==> loops[i] == rest[i - 1];
      }
    }
  }

  /** The results of the Loop calls, and zero behind them. */
  function ResultsOf(loops: seq<Call>): nat -> int {
    (k: nat) => if k < |loops| && loops[k].Loop? then loops[k].rc else 0
  }

  /** For counts that are not negative, the blocks are those of the event-driven engine for some
      results of Start and Loop. */
  lemma {:induction false} BlockOfIff(n: nat, b: seq<Call>)
    ensures BlockOf(n, b) <==> exists ok, rc: nat -> int :: b == Block(ok, LoopsUntilNonzero(n, rc, 0))
  {
    if BlockOf(n, b) {
      var ok, rc := BlockResults(n, b);
    }
    forall ok, rc: nat -> int | b == Block(ok, LoopsUntilNonzero(n, rc, 0)) ensures BlockOf(n, b) {
      BlockFor(n, ok, rc);
    }
  }

  lemma BlockResults(n: nat, b: seq<Call>) returns (ok: bool, rc: nat -> int)
    requires BlockOf(n, b)
    ensures b == Block(ok, LoopsUntilNonzero(n, rc, 0))
  {
    ok := b != [Start(false)];
    var loops := if ok then b[1..|b| - 1] else [];
    rc := ResultsOf(loops);
    if ok {
      LoopsUntil(n, rc, 0, loops);
      assert b == [Start(true)] + loops + [End];
    }
  }

  lemma {:induction false} BlockFor(n: nat, ok: bool, rc: nat -> int)
    ensures BlockOf(n, Block(ok, LoopsUntilNonzero(n, rc, 0)))
  {
    if ok {
      var loops := LoopsUntilNonzero(n, rc, 0);
      var b := [Start(true)] + loops + [End];
      assert b[1..|b| - 1] == loops;
      UntilIsLoops(n, rc, 0);
      LoopsUntil(n, rc, 0, loops);
    }
  }

  lemma {:induction false} UntilIsLoops(n: nat, rc: nat -> int, k: nat)
    ensures forall i | 0 <= i < |LoopsUntilNonzero(n, rc, k)| :: LoopsUntilNonzero(n, rc, k)[i] == Loop(rc(k + i))
    decreases n - k
  {
    if k < n {
      UntilIsLoops(n, rc, k + 1);
    }
  }

  /** Blocks one after the other, of commands whose loop counts `allowed` admits. */
  ghost predicate WholeBlocks(allowed: int -> bool, calls: seq<Call>)
    decreases |calls|
  {
    calls == [] ||
    exists k: nat, n: int | k < |calls| && allowed(n) :: BlockOf(n, calls[k..]) && WholeBlocks(allowed, calls[..k])
  }

  lemma {:induction false} OneMore(allowed: int -> bool, calls: seq<Call>, k: nat, n: int)
    requires k < |calls| && allowed(n) && BlockOf(n, calls[k..]) && WholeBlocks(allowed, calls[..k])
    ensures WholeBlocks(allowed, calls)
  {
  }

  /** A session of a command of `n` loops that has begun; `left` is ev_loop. */
  predicate InSession(n: int, b: seq<Call>, left: int) {
    && b != [] && b[0] == Start(true)
    && if left == 0 then LoopsOf(n, b[1..])
       else (forall i | 1 <= i < |b| :: b[i] == Loop(0)) && left == n - (|b| - 1) && (n >= 0 ==> left > 0)
  }

  ghost predicate Inside(allowed: int -> bool, c: Client, k: nat) {
    k < |c.calls| && WholeBlocks(allowed, c.calls[..k]) && InSession(c.numLoops, c.calls[k..], c.loop)
  }

  /** The calls of a client for which `f` is to run next. */
  ghost predicate Shape(allowed: int -> bool, f: Func, c: Client) {
    match f
    case ClientInit => WholeBlocks(allowed, c.calls)
    case ClientInit2 => WholeBlocks(allowed, c.calls) && allowed(c.numLoops)
    case ClientLoop => allowed(c.numLoops) && exists k: nat :: Inside(allowed, c, k)
  }

  // ----- One handler -----

  lemma StartShape(allowed: int -> bool, c: Client, env: Env)
    requires WholeBlocks(allowed, c.calls) && allowed(c.numLoops)
    ensures var (c1, exit) := Init2(c, env); exit.Schedule? && Shape(allowed, exit.func, c1)
  {
    var c1, k := Init2(c, env).0, |c.calls|;
    assert c1.calls[..k] == c.calls && c1.calls[k..] == [Start(env.startOk)];
    if env.startOk {
      assert InSession(c1.numLoops, c1.calls[k..], c1.loop);
      assert Inside(allowed, c1, k);
    } else {
      OneMore(allowed, c1.calls, k, c.numLoops);
    }
  }

  lemma EndShape(allowed: int -> bool, c: Client, k: nat)
    requires Inside(allowed, c, k) && allowed(c.numLoops) && c.loop == 0
    ensures WholeBlocks(allowed, c.calls + [End])
  {
    var calls, b := c.calls + [End], c.calls[k..];
    assert calls[k..] == b + [End] && calls[..k] == c.calls[..k];
    assert (b + [End])[1..|b|] == b[1..];
    OneMore(allowed, calls, k, c.numLoops);
  }

  lemma LoopShape(allowed: int -> bool, c: Client, k: nat, rc: int)
    requires Inside(allowed, c, k) && c.loop != 0
    ensures Inside(allowed, c.(calls := c.calls + [Loop(rc)], loop := if rc != 0 then 0 else c.loop - 1), k)
  {
    var calls, b := c.calls + [Loop(rc)], c.calls[k..];
    assert calls[k..] == b + [Loop(rc)] && calls[..k] == c.calls[..k];
    var loops := (b + [Loop(rc)])[1..];
    assert loops == b[1..] + [Loop(rc)];
  }

  lemma SessionShape(allowed: int -> bool, c: Client, env: Env)
    requires Shape(allowed, ClientLoop, c) && env.Valid() && env.x3 < EXIT_SOON
    ensures var (c1, exit) := LoopStep(c, env); exit.Schedule? && Shape(allowed, exit.func, c1)
  {
    var k: nat :| Inside(allowed, c, k);
    if c.loop == 0 {
      EndShape(allowed, c, k);
    } else {
      LoopShape(allowed, c, k, env.rc);
    }
  }

  /** Before the end of the test every handler keeps this, and hands the client on. */
  lemma HandleKeepsShape(allowed: int -> bool, f: Func, c: Client, env: Env)
    requires Shape(allowed, f, c) && env.Valid() && env.x3 < EXIT_SOON && allowed(env.numLoops)
    ensures var (c1, exit) := Handle(f, c, env); exit.Schedule? && Shape(allowed, exit.func, c1)
  {
    match f
    case ClientInit =>
      if c.hasStats {
        StartShape(allowed, c.(numLoops := env.numLoops, connects := c.connects + 1, blocks := c.blocks + 1), env);
      }
    case ClientInit2 => StartShape(allowed, c, env);
    case ClientLoop => SessionShape(allowed, c, env);
  }

  // ----- Over schedules -----

  ghost function ShapeOf(allowed: int -> bool): Await {
    (c: Client, rs: seq<Ran>, e: Event) => Shape(allowed, e.func, c)
  }

  ghost function Steady(allowed: int -> bool): Past {
    (c: Client, rs: seq<Ran>, finished: bool) => exists f :: Shape(allowed, f, c)
  }

  /** Until the end of the test, whoever is to be handled next has made whole blocks, and the
      beginning of one if it is in a session; and so has everybody else. */
  ghost predicate Shaped(allowed: int -> bool, s: System) {
    s.expired < EXIT_SOON ==> Recorded(ShapeOf(allowed), Steady(allowed), s)
  }

  predicate Chooses(allowed: int -> bool, step: Step) {
    step.RunHandler? ==> allowed(step.env.numLoops)
  }

  /** A handler leaves its client as whoever comes next wants it. */
  lemma ShapeHandedOn(allowed: int -> bool, c: Client, rs: seq<Ran>, e: Event, env: Env)
    requires Shape(allowed, e.func, c) && env.Valid() && env.x3 < EXIT_SOON && allowed(env.numLoops)
    ensures var (c1, exit) := Handle(e.func, c, env);
            && Steady(allowed)(c1, rs, exit.Done?)
            && (exit.Schedule? ==> ShapeOf(allowed)(c1, rs, Event(exit.func, e.arg, exit.time)))
  {
    HandleKeepsShape(allowed, e.func, c, env);
  }

  lemma ShapedHandler(allowed: int -> bool, s: System, i: nat, env: Env)
    requires Owned(s) && Fitting(s) && Can(s, RunHandler(i, env)) && allowed(env.numLoops)
    requires Shaped(allowed, s) && s.expired < EXIT_SOON
    ensures Shaped(allowed, Do(s, RunHandler(i, env)))
  {
    var e := s.agents[i].ph.e;
    assert AgentTold(ShapeOf(allowed), s.clients, s.journal, s.agents[i]);
    ShapeHandedOn(allowed, s.clients[e.arg], RunsOf(s.journal, e.arg) + [Ran(e, env)], e, env);
    RecordedHandler(ShapeOf(allowed), Steady(allowed), s, i, env);
  }

  lemma ShapedStep(allowed: int -> bool, s: System, step: Step)
    requires Owned(s) && Fitting(s) && Shaped(allowed, s) && Can(s, step) && Chooses(allowed, step)
    ensures Shaped(allowed, Do(s, step))
  {
    if s.expired < EXIT_SOON {
      match step
      case RunHandler(i, env) => ShapedHandler(allowed, s, i, env);
      case PutEvent(i, w) => RecordedPut(ShapeOf(allowed), Steady(allowed), s, i, w);
      case Section(i, now, spawn) => RecordedSection(ShapeOf(allowed), Steady(allowed), s, i, now, spawn);
      case TestFinish(i) => RecordedTest(ShapeOf(allowed), Steady(allowed), s, i);
      case _ =>
    }
  }

  lemma ShapedStart(allowed: int -> bool, p: Params, n: nat)
    ensures Shaped(allowed, Boot(p, n))
  {
    var s := Boot(p, n);
    assert Shape(allowed, ClientInit, NEW_CLIENT);
    forall i | 0 <= i < |s.agents| ensures AgentTold(ShapeOf(allowed), s.clients, s.journal, s.agents[i]) {
      if i >= |Workers(p.lowat)| {
        assert s.agents[i] == StarterOf(i - |Workers(p.lowat)|);
      }
    }
  }

  lemma ShapedRun(allowed: int -> bool, p: Params, n: nat, run: seq<Step>)
    requires Possible(Boot(p, n), run) && forall step | step in run :: Chooses(allowed, step)
    ensures Shaped(allowed, After(Boot(p, n), run))
  {
    SoundStart(p, n);
    ShapedStart(allowed, p, n);
    var can := (s: System, step: Step) => Can(s, step) && Chooses(allowed, step);
    var inv := (s: System) => Sound(s) && Shaped(allowed, s);
    forall s, step | inv(s) && can(s, step) ensures inv(Next(s, step)) {
      SoundStep(s, step);
      ShapedStep(allowed, s, step);
    }
    Runs.Allowed(Can, can, Next, Boot(p, n), run);
    Runs.Invariant(can, Next, inv, Boot(p, n), run);
  }

  /** The beginning of a block. */
  ghost predicate Begun(allowed: int -> bool, b: seq<Call>) {
    b == [] || exists n: int, rest: seq<Call> :: allowed(n) && BlockOf(n, b + rest)
  }

  lemma SessionBegun(allowed: int -> bool, n: int, b: seq<Call>, left: int)
    requires InSession(n, b, left) && allowed(n)
    ensures Begun(allowed, b)
  {
    var rest := if left == 0 then [End] else [Loop(1), End];
    var all := b + rest;
    assert all[1..|all| - 1] == b[1..] + if left == 0 then [] else [Loop(1)];
    assert BlockOf(n, b + rest);
  }

  /** Until the end of the test, under every schedule, the calls of a client are whole blocks of
      the commands chosen for it and the beginning of one more: Start, Loops for as long as they
      return zero and the count of the command has not been reached, and one End. */
  lemma BlocksOverSchedules(allowed: int -> bool, p: Params, n: nat, run: seq<Step>, c: nat) returns (k: nat)
    requires Possible(Boot(p, n), run) && forall step | step in run :: Chooses(allowed, step)
    requires c < n && After(Boot(p, n), run).expired < EXIT_SOON
    ensures var s := After(Boot(p, n), run);
            && c < |s.clients| && k <= |s.clients[c].calls|
            && WholeBlocks(allowed, s.clients[c].calls[..k]) && Begun(allowed, s.clients[c].calls[k..])
  {
    SoundRun(p, n, run);
    ShapedRun(allowed, p, n, run);
    var client := After(Boot(p, n), run).clients[c];
    assert Steady(allowed)(client, RunsOf(After(Boot(p, n), run).journal, c),
                           After(Boot(p, n), run).finished[c] > 0);
    var f :| Shape(allowed, f, client);
    if f.ClientLoop? {
      k :| Inside(allowed, client, k);
      SessionBegun(allowed, client.numLoops, client.calls[k..], client.loop);
    } else {
      k := |client.calls|;
      assert client.calls[..k] == client.calls && client.calls[k..] == [];
    }
  }
}
