/** What is called into the protocol for a client, and when, over every schedule: told from the
    record of its handler runs alone. */
module PoolHistory {
  import opened Timeval
  import opened Clients
  import opened EventQueue
  import opened Counting
  import opened WorkerPool
  import opened PoolOwnership
  import opened PoolRecords
  import opened PoolTheorems
  import Runs

  // ----- The story of a client -----

  /** The block that the calls up to the k-th belong to was started by the s-th. */
  ghost predicate StartedBy(calls: seq<Call>, k: nat, s: nat) {
    s < k <= |calls| && calls[s].Start? && forall j | s < j < k :: !calls[j].Start?
  }

  /** The loop count of the command chosen for the block that the s-th call starts. */
  function Chosen(rs: seq<Ran>, s: nat): int
    requires s + 1 < |rs|
  {
    if s == 0 then rs[0].env.numLoops else rs[s + 1].env.numLoops
  }

  /** All Loops of the block have been made. */
  ghost predicate AllMade(rs: seq<Ran>, calls: seq<Call>, k: nat)
    requires k <= |calls| && k < |rs|
  {
    exists s: nat :: StartedBy(calls, k, s) && k - 1 - s == Chosen(rs, s)
  }

  /** After `k` calls the session is to end: all Loops have been made, or the last one did not
      return zero or saw the end of the test. */
  ghost predicate ToEnd(rs: seq<Ran>, calls: seq<Call>, k: nat)
    requires 0 < k <= |calls| && k < |rs|
  {
    || AllMade(rs, calls, k)
    || (calls[k - 1].Loop? && (rs[k].env.rc != 0 || rs[k].env.x3 >= EXIT_SOON))
  }

  predicate DueAfter(e: Event, from: Timeval, ms: int) {
    e.time.Micros() == from.Micros() + 1000 * ms
  }

  /** The next block is due `blockDelay` after the start of the one before. */
  ghost predicate BlockDue(rs: seq<Ran>, calls: seq<Call>, k: nat, e: Event)
    requires k <= |calls| && k < |rs|
  {
    exists s: nat :: StartedBy(calls, k, s) && DueAfter(e, rs[s + 1].env.now, rs[s + 1].env.blockDelay)
  }

  /** Which handler follows the first `k` runs, and for which instant it is scheduled. */
  ghost predicate Follows(rs: seq<Ran>, calls: seq<Call>, k: nat, e: Event)
    requires k <= |rs| && k <= |calls| + 1
  {
    if k == 0 then e.func == ClientInit
    else
      var env := rs[k - 1].env;
      if k == 1 then e.func == ClientInit2 && DueAfter(e, env.now, if env.startDelay < 0 then 0 else env.startDelay)
      else match calls[k - 2]
        case Start(true) => e.func == ClientLoop && DueAfter(e, env.now, env.idleDelay)
        case Start(false) => e.func == ClientInit && DueAfter(e, env.now, env.blockDelay)
        case Loop(_) => e.func == ClientLoop && DueAfter(e, env.now, env.loopDelay)
        case End => e.func == ClientInit && BlockDue(rs, calls, k - 1, e)
  }

  /** The k-th call is the one that its handler run is to make. */
  ghost predicate CallRight(rs: seq<Ran>, calls: seq<Call>, k: nat)
    requires k < |calls| && k + 1 < |rs|
  {
    var func, env := rs[k + 1].e.func, rs[k + 1].env;
    match calls[k]
    case Start(ok) => ok == env.startOk && (func == ClientInit2 || (func == ClientInit && env.x1 < EXIT_SOON))
    case Loop(rc) => func == ClientLoop && k > 0 && env.x1 < EXIT_FAST && rc == env.rc && !ToEnd(rs, calls, k)
    case End => func == ClientLoop && k > 0 && env.x1 < EXIT_FAST && ToEnd(rs, calls, k)
  }

  /** The k-th run does not end the client after its call. */
  ghost predicate GoesOn(rs: seq<Ran>, calls: seq<Call>, k: nat)
    requires k < |rs| && k <= |calls|
  {
    if k == 0 then rs[0].env.x1 < EXIT_SOON
    else match calls[k - 1]
      case Start(_) => true
      case Loop(_) => rs[k].env.x2 < EXIT_FAST
      case End => rs[k].env.x2 < EXIT_SOON
  }

  ghost predicate RanInTurn(rs: seq<Ran>, calls: seq<Call>, k: nat)
    requires k < |rs| && k <= |calls| + 1
  {
    Follows(rs, calls, k, rs[k].e)
  }

  /** The past of a client. */
  ghost predicate Told(rs: seq<Ran>, calls: seq<Call>) {
    && |calls| <= |rs| <= |calls| + 2 && (rs == [] <==> |rs| == |calls|)
    && (forall k | 0 <= k < |calls| :: CallRight(rs, calls, k))
    && (forall k | 0 <= k < |rs| :: RanInTurn(rs, calls, k))
    && (forall k | 0 <= k < |rs| - 1 :: GoesOn(rs, calls, k))
  }

  /** A client for which `e` is to be handled next. */
  ghost predicate Awaits(rs: seq<Ran>, calls: seq<Call>, e: Event) {
    && Told(rs, calls) && |rs| <= |calls| + 1
    && Follows(rs, calls, |rs|, e)
    && (rs != [] ==> GoesOn(rs, calls, |rs| - 1))
  }

  /** How a client ends: with the end of the test before its next block, after End, or, when it
      is a forced one, before or after a Loop or before End. */
  ghost predicate Ends(rs: seq<Ran>, calls: seq<Call>) {
    && Told(rs, calls) && rs != []
    && var last := rs[|rs| - 1];
       if |rs| == |calls| + 1 then !GoesOn(rs, calls, |calls|)
       else last.env.x1 >= if last.e.func == ClientLoop then EXIT_FAST else EXIT_SOON
  }

  // ----- The past does not change -----

  lemma SameStart(calls: seq<Call>, more: seq<Call>, k: nat, s: nat)
    requires calls <= more && k <= |calls|
    ensures StartedBy(calls, k, s) <==> StartedBy(more, k, s)
  {
  }

  lemma SameMade(rs: seq<Ran>, calls: seq<Call>, rs1: seq<Ran>, calls1: seq<Call>, k: nat)
    requires rs <= rs1 && calls <= calls1 && k <= |calls| && k < |rs|
    ensures AllMade(rs, calls, k) <==> AllMade(rs1, calls1, k)
  {
    forall s: nat ensures StartedBy(calls, k, s) <==> StartedBy(calls1, k, s) {
      SameStart(calls, calls1, k, s);
    }
  }

  lemma SameBlockDue(rs: seq<Ran>, calls: seq<Call>, rs1: seq<Ran>, calls1: seq<Call>, k: nat, e: Event)
    requires rs <= rs1 && calls <= calls1 && k <= |calls| && k < |rs|
    ensures BlockDue(rs, calls, k, e) <==> BlockDue(rs1, calls1, k, e)
  {
    forall s: nat ensures StartedBy(calls, k, s) <==> StartedBy(calls1, k, s) {
      SameStart(calls, calls1, k, s);
    }
  }

  lemma SameFollows(rs: seq<Ran>, calls: seq<Call>, rs1: seq<Ran>, calls1: seq<Call>, k: nat, e: Event)
    requires rs <= rs1 && calls <= calls1 && k <= |rs| && k <= |calls| + 1
    ensures Follows(rs, calls, k, e) <==> Follows(rs1, calls1, k, e)
  {
    if k >= 2 {
      SameBlockDue(rs, calls, rs1, calls1, k - 1, e);
    }
  }

  lemma SameCall(rs: seq<Ran>, calls: seq<Call>, rs1: seq<Ran>, calls1: seq<Call>, k: nat)
    requires rs <= rs1 && calls <= calls1 && k < |calls| && k + 1 < |rs|
    ensures CallRight(rs, calls, k) <==> CallRight(rs1, calls1, k)
  {
    if k > 0 {
      SameMade(rs, calls, rs1, calls1, k);
    }
  }

  /** One more run, with the call it makes or without one. */
  ghost predicate OneMore(rs: seq<Ran>, calls: seq<Call>, ran: Ran, made: seq<Call>) {
    && Awaits(rs, calls, ran.e) && |made| <= 1 && (rs == [] ==> made == [])
    && (made != [] ==> CallRight(rs + [ran], calls + made, |calls|))
  }

  lemma MoreCall(rs: seq<Ran>, calls: seq<Call>, ran: Ran, made: seq<Call>, k: nat)
    requires OneMore(rs, calls, ran, made) && k < |calls + made|
    ensures CallRight(rs + [ran], calls + made, k)
  {
    if k < |calls| {
      SameCall(rs, calls, rs + [ran], calls + made, k);
    }
  }

  lemma MoreFollows(rs: seq<Ran>, calls: seq<Call>, ran: Ran, made: seq<Call>, k: nat)
    requires OneMore(rs, calls, ran, made) && k < |rs + [ran]|
    ensures RanInTurn(rs + [ran], calls + made, k)
  {
    var e := if k < |rs| then rs[k].e else ran.e;
    assert k < |rs| ==> RanInTurn(rs, calls, k);
    SameFollows(rs, calls, rs + [ran], calls + made, k, e);
  }

  lemma MoreGoesOn(rs: seq<Ran>, calls: seq<Call>, ran: Ran, made: seq<Call>, k: nat)
    requires OneMore(rs, calls, ran, made) && k < |rs|
    ensures GoesOn(rs + [ran], calls + made, k)
  {
    assert GoesOn(rs, calls, k);
  }

  lemma OneMoreRun(rs: seq<Ran>, calls: seq<Call>, ran: Ran, made: seq<Call>)
    requires OneMore(rs, calls, ran, made)
    ensures Told(rs + [ran], calls + made)
  {
    var rs1, calls1 := rs + [ran], calls + made;
    forall k | 0 <= k < |calls1| ensures CallRight(rs1, calls1, k) { MoreCall(rs, calls, ran, made, k); }
    forall k | 0 <= k < |rs1| ensures RanInTurn(rs1, calls1, k) { MoreFollows(rs, calls, ran, made, k); }
    forall k | 0 <= k < |rs1| - 1 ensures GoesOn(rs1, calls1, k) { MoreGoesOn(rs, calls, ran, made, k); }
  }

  // ----- One handler -----

  /** What the fields of a client remember of its past. */
  ghost predicate Remembers(c: Client, rs: seq<Ran>, func: Func)
    requires |rs| <= |c.calls| + 1
  {
    && c.next.Normal() && (c.hasStats <==> rs != [])
    && match func
       case ClientInit => true
       case ClientInit2 => rs != [] && c.numLoops == rs[0].env.numLoops
       case ClientLoop => exists s: nat :: Session(c, rs, s)
  }

  /** A session that the s-th call started. */
  ghost predicate Session(c: Client, rs: seq<Ran>, s: nat) {
    && |rs| == |c.calls| + 1 && StartedBy(c.calls, |c.calls|, s)
    && DueAfter(Event(ClientInit, 0, c.next), rs[s + 1].env.now, rs[s + 1].env.blockDelay)
    && (c.loop == 0 <==> ToEnd(rs, c.calls, |c.calls|))
    && (c.loop != 0 ==> c.loop == Chosen(rs, s) - (|c.calls| - 1 - s))
  }

  /** Between two handlers. */
  ghost predicate Between(c: Client, rs: seq<Ran>, e: Event) {
    Awaits(rs, c.calls, e) && Remembers(c, rs, e.func)
  }

  /** What a run of a handler does to the story. */
  ghost predicate Tells(c: Client, rs: seq<Ran>, exit: Exit, arg: nat) {
    && Told(rs, c.calls)
    && match exit
       case Schedule(t, f) => Between(c, rs, Event(f, arg, t))
       case Done => Ends(rs, c.calls)
  }

  lemma InitTells(c: Client, rs: seq<Ran>, e: Event, env: Env)
    requires Between(c, rs, e) && e.func == ClientInit && env.Valid() && (env.x1 >= EXIT_SOON || !c.hasStats)
    ensures var (c1, exit) := Init(c, env); Tells(c1, rs + [Ran(e, env)], exit, e.arg)
  {
    OneMoreRun(rs, c.calls, Ran(e, env), []);
    assert c.calls + [] == c.calls;
    AddMsecExact(env.now, if env.startDelay < 0 then 0 else env.startDelay);
  }

  lemma StartTells(c: Client, rs: seq<Ran>, e: Event, env: Env)
    requires Awaits(rs, c.calls, e) && c.next.Normal() && c.hasStats && rs != [] && env.Valid()
    requires e.func == ClientInit2 || (e.func == ClientInit && env.x1 < EXIT_SOON)
    requires c.numLoops == if |rs| == 1 then rs[0].env.numLoops else env.numLoops
    ensures var (c1, exit) := Init2(c, env); Tells(c1, rs + [Ran(e, env)], exit, e.arg)
  {
    var rs1, s := rs + [Ran(e, env)], |c.calls|;
    var (c1, exit) := Init2(c, env);
    OneMoreRun(rs, c.calls, Ran(e, env), [Start(env.startOk)]);
    AddMsecExact(env.now, env.blockDelay);
    AddMsecExact(env.now, env.idleDelay);
    assert StartedBy(c1.calls, |c1.calls|, s);
    assert Session(c1, rs1, s);
  }

  lemma OneStart(calls: seq<Call>, k: nat, s: nat, t: nat)
    requires StartedBy(calls, k, s) && StartedBy(calls, k, t)
    ensures s == t
  {
  }

  lemma MadeIff(rs: seq<Ran>, calls: seq<Call>, k: nat, s: nat)
    requires k <= |calls| && k < |rs| && StartedBy(calls, k, s)
    ensures AllMade(rs, calls, k) <==> k - 1 - s == Chosen(rs, s)
  {
    forall t: nat | StartedBy(calls, k, t) ensures s == t {
      OneStart(calls, k, s, t);
    }
  }

  lemma ForcedTells(c: Client, rs: seq<Ran>, e: Event, env: Env)
    requires Between(c, rs, e) && e.func == ClientLoop && env.x1 >= EXIT_FAST
    ensures Ends(rs + [Ran(e, env)], c.calls)
  {
    OneMoreRun(rs, c.calls, Ran(e, env), []);
    assert c.calls + [] == c.calls;
  }

  lemma EndTells(c: Client, rs: seq<Ran>, e: Event, env: Env)
    requires Between(c, rs, e) && e.func == ClientLoop && env.x1 < EXIT_FAST && c.loop == 0
    ensures var (c1, exit) := LoopStep(c, env); Tells(c1, rs + [Ran(e, env)], exit, e.arg)
  {
    var rs1, calls1 := rs + [Ran(e, env)], c.calls + [End];
    var s: nat :| Session(c, rs, s);
    SameMade(rs, c.calls, rs1, calls1, |c.calls|);
    OneMoreRun(rs, c.calls, Ran(e, env), [End]);
    assert StartedBy(calls1, |calls1|, s);
  }

  lemma LoopTells(c: Client, rs: seq<Ran>, e: Event, env: Env)
    requires Between(c, rs, e) && e.func == ClientLoop && env.Valid() && env.x1 < EXIT_FAST && c.loop != 0
    ensures var (c1, exit) := LoopStep(c, env); Tells(c1, rs + [Ran(e, env)], exit, e.arg)
  {
    var rs1, calls1 := rs + [Ran(e, env)], c.calls + [Loop(env.rc)];
    var c1 := LoopStep(c, env).0;
    var s: nat :| Session(c, rs, s);
    SameMade(rs, c.calls, rs1, calls1, |c.calls|);
    OneMoreRun(rs, c.calls, Ran(e, env), [Loop(env.rc)]);
    AddMsecExact(env.now, env.loopDelay);
    MadeIff(rs, c.calls, |c.calls|, s);
    assert StartedBy(calls1, |calls1|, s);
    MadeIff(rs1, calls1, |calls1|, s);
    assert env.x2 < EXIT_FAST ==> Session(c1, rs1, s);
  }

  /** Every handler continues the story of its client. */
  lemma HandleTells(c: Client, rs: seq<Ran>, e: Event, env: Env)
    requires Between(c, rs, e) && env.Valid()
    ensures var (c1, exit) := Handle(e.func, c, env); Tells(c1, rs + [Ran(e, env)], exit, e.arg)
  {
    match e.func
    case ClientInit =>
      if env.x1 >= EXIT_SOON || !c.hasStats {
        InitTells(c, rs, e, env);
      } else {
        StartTells(c.(numLoops := env.numLoops, connects := c.connects + 1, blocks := c.blocks + 1), rs, e, env);
      }
    case ClientInit2 => StartTells(c, rs, e, env);
    case ClientLoop =>
      if env.x1 >= EXIT_FAST {
        ForcedTells(c, rs, e, env);
      } else if c.loop == 0 {
        EndTells(c, rs, e, env);
      } else {
        LoopTells(c, rs, e, env);
      }
  }

  predicate IsStart(call: Call) {
    call.Start?
  }

  /** The counters of connects and blocks leave out the first block. */
  ghost predicate Tallied(c: Client) {
    c.connects == c.blocks == if c.calls == [] then 0 else Count(c.calls, IsStart) - 1
  }

  lemma HandleTallies(c: Client, rs: seq<Ran>, e: Event, env: Env)
    requires Between(c, rs, e) && Tallied(c)
    ensures Tallied(Handle(e.func, c, env).0)
  {
    CountAppend(c.calls, Start(env.startOk), IsStart);
    CountAppend(c.calls, Loop(env.rc), IsStart);
    CountAppend(c.calls, End, IsStart);
    CountNone(c.calls, IsStart);
  }

  ghost predicate PastTold(c: Client, rs: seq<Ran>, finished: bool) {
    Told(rs, c.calls) && Tallied(c) && (finished ==> Ends(rs, c.calls))
  }

  // ----- Over schedules -----

  lemma StoryHandler(s: System, i: nat, env: Env)
    requires Owned(s) && Fitting(s) && Recorded(Between, PastTold, s) && Can(s, RunHandler(i, env))
    ensures Recorded(Between, PastTold, Do(s, RunHandler(i, env)))
  {
    var e := s.agents[i].ph.e;
    assert AgentTold(Between, s.clients, s.journal, s.agents[i]);
    HandleTells(s.clients[e.arg], RunsOf(s.journal, e.arg), e, env);
    HandleTallies(s.clients[e.arg], RunsOf(s.journal, e.arg), e, env);
    RecordedHandler(Between, PastTold, s, i, env);
  }

  lemma StoryStep(s: System, step: Step)
    requires Owned(s) && Fitting(s) && Recorded(Between, PastTold, s) && Can(s, step)
    ensures Recorded(Between, PastTold, Do(s, step))
  {
    match step
    case RunHandler(i, env) => StoryHandler(s, i, env);
    case PutEvent(i, w) => RecordedPut(Between, PastTold, s, i, w);
    case Section(i, now, spawn) => RecordedSection(Between, PastTold, s, i, now, spawn);
    case TestFinish(i) => RecordedTest(Between, PastTold, s, i);
    case _ =>
  }

  lemma StoryStart(p: Params, n: nat)
    ensures Recorded(Between, PastTold, Boot(p, n))
  {
    var s := Boot(p, n);
    forall i | 0 <= i < |s.agents| ensures AgentTold(Between, s.clients, s.journal, s.agents[i]) {
      if i >= |Workers(p.lowat)| {
        assert s.agents[i] == StarterOf(i - |Workers(p.lowat)|);
      }
    }
  }

  lemma StoryRun(p: Params, n: nat, run: seq<Step>)
    requires Possible(Boot(p, n), run)
    ensures Recorded(Between, PastTold, After(Boot(p, n), run))
  {
    SoundStart(p, n);
    StoryStart(p, n);
    var inv := (s: System) => Sound(s) && Recorded(Between, PastTold, s);
    forall s, step | inv(s) && Can(s, step) ensures inv(Next(s, step)) {
      SoundStep(s, step);
      StoryStep(s, step);
    }
    Runs.Invariant(Can, Next, inv, Boot(p, n), run);
  }

  /** `e` is queued, or some thread is about to handle it or to queue it. */
  ghost predicate Pending(s: System, e: Event) {
    || (exists k :: 0 <= k < |s.m.queue| && s.m.queue[k] == e)
    || (exists i :: 0 <= i < |s.agents| && HasEvent(s.agents[i]) && s.agents[i].ph.e == e)
  }

  /** Under every schedule, the handler that is pending for a client is the one that follows its
      runs so far, and due at the instant that follows from them: client_loop `idleDelay` ms after
      the handler that made the Start read the clock, or `loopDelay` ms after the one that made
      the last Loop did, and the next client_init `blockDelay` ms after the handler that made the
      last Start did. */
  lemma DueInstants(p: Params, n: nat, run: seq<Step>, e: Event)
    requires Possible(Boot(p, n), run) && Pending(After(Boot(p, n), run), e)
    ensures var s := After(Boot(p, n), run);
            e.arg < |s.clients| == n && Awaits(RunsOf(s.journal, e.arg), s.clients[e.arg].calls, e)
  {
    StoryRun(p, n, run);
    SoundRun(p, n, run);
    var s := After(Boot(p, n), run);
    if k :| 0 <= k < |s.m.queue| && s.m.queue[k] == e {
      assert EventTold(Between, s.clients, s.journal, s.m.queue[k]);
    } else {
      var i :| 0 <= i < |s.agents| && HasEvent(s.agents[i]) && s.agents[i].ph.e == e;
      assert AgentTold(Between, s.clients, s.journal, s.agents[i]);
    }
  }

  /** So were all handlers that have run, each made the call that it was to make, and a client is
      counted as finished only as `Ends` says. A run is recorded with what it observes. */
  lemma {:induction false} StoryOverSchedules(p: Params, n: nat, run: seq<Step>, c: nat)
    requires Possible(Boot(p, n), run) && c < n
    ensures var s := After(Boot(p, n), run);
            && c < |s.clients| && Told(RunsOf(s.journal, c), s.clients[c].calls) && Tallied(s.clients[c])
            && (s.finished[c] > 0 ==> Ends(RunsOf(s.journal, c), s.clients[c].calls))
            && (forall i: nat, env | Can(s, RunHandler(i, env)) ::
                  Do(s, RunHandler(i, env)).journal == s.journal + [Ran(s.agents[i].ph.e, env)])
  {
    StoryRun(p, n, run);
    SoundRun(p, n, run);
    var s := After(Boot(p, n), run);
    assert PastTold(s.clients[c], RunsOf(s.journal, c), s.finished[c] > 0);
  }
}
