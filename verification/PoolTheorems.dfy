/** What holds of the pool in every state of every schedule. */
module PoolTheorems {
  import opened Timeval
  import opened Clients
  import opened EventQueue
  import opened Counting
  import opened WorkerPool
  import opened PoolWakeups
  import opened PoolOwnership
  import Runs

  /** The invariants that need nothing of the parameters. */
  ghost predicate Sound(s: System) {
    && Accounted(s.m, s.agents)
    && Timed(s.m.queue, s.agents)
    && Conserved(s)
    && Owned(s)
    && Fitting(s)
    && EndedWell(s)
  }

  lemma TimedStart(p: Params, n: nat)
    ensures Timed([], Workers(p.lowat) + Starters(n))
  {
  }

  lemma FittingStart(p: Params, n: nat)
    ensures Fitting(Boot(p, n)) && EndedWell(Boot(p, n))
  {
    var clients := seq(n, _ => NEW_CLIENT);
    forall i | 0 <= i < |Workers(p.lowat)| ensures AgentFits(clients, Workers(p.lowat)[i]) {
    }
    forall c | 0 <= c < n ensures AgentFits(clients, Starters(n)[c]) {
    }
  }

  lemma SoundStart(p: Params, n: nat)
    ensures Sound(Boot(p, n))
  {
    AccountedStart(p, n);
    TimedStart(p, n);
    OwnedStart(p, n);
    FittingStart(p, n);
  }

  lemma SoundStep(s: System, step: Step)
    requires Sound(s) && Can(s, step)
    ensures Sound(Do(s, step))
  {
    AccountedStep(s, step);
    TimedStep(s, step);
    ConservedStep(s, step);
    OwnedStep(s, step);
    FittingStep(s, step);
  }

  /** Every state of every schedule is sound. */
  lemma SoundRun(p: Params, n: nat, run: seq<Step>)
    requires Possible(Boot(p, n), run)
    ensures Sound(After(Boot(p, n), run)) && After(Boot(p, n), run).m.p == p && |After(Boot(p, n), run).clients| == n
  {
    SoundStart(p, n);
    var inv := (s: System) => Sound(s) && s.m.p == p && |s.clients| == n;
    forall s, step | inv(s) && Can(s, step) ensures inv(Next(s, step)) {
      SoundStep(s, step);
      StepKeeps(s, step);
    }
    Runs.Invariant(Can, Next, inv, Boot(p, n), run);
  }

  lemma StepKeeps(s: System, step: Step)
    requires Can(s, step)
    ensures Do(s, step).m.p == s.m.p && |Do(s, step).clients| == |s.clients|
  {
  }

  lemma WatchedRun(p: Params, n: nat, run: seq<Step>)
    requires p.lowat >= 1 && p.hiwat >= 1 && Possible(Boot(p, n), run)
    ensures Watched(After(Boot(p, n), run).m, After(Boot(p, n), run).agents)
  {
    SoundStart(p, n);
    AccountedStart(p, n);
    var inv := (s: System) => Sound(s) && s.m.p == p && Watched(s.m, s.agents);
    forall s, step | inv(s) && Can(s, step) ensures inv(Next(s, step)) {
      SoundStep(s, step);
      StepKeeps(s, step);
      WatchedStep(s, step);
    }
    Runs.Invariant(Can, Next, inv, Boot(p, n), run);
  }

  lemma SignalledRun(p: Params, n: nat, run: seq<Step>)
    requires p.hiwat >= 1 && Possible(Boot(p, n), run)
    ensures After(Boot(p, n), run).signalled ==> After(Boot(p, n), run).m.finish
  {
    SoundStart(p, n);
    var inv := (s: System) => Sound(s) && s.m.p == p && (s.signalled ==> s.m.finish);
    forall s, step | inv(s) && Can(s, step) ensures inv(Next(s, step)) {
      SoundStep(s, step);
      StepKeeps(s, step);
      SignalledStep(s, step);
    }
    Runs.Invariant(Can, Next, inv, Boot(p, n), run);
  }

  // ----- Schedules that break a badly configured pool -----

  /** The first `k` workers have come and gone. */
  function Drained(p: Params, n: nat, k: nat): System
    requires k <= |Workers(p.lowat)|
  {
    Boot(p, n).(agents := seq(k, _ => Worker(Exited)) + Workers(p.lowat)[k..] + Starters(n), signalled := k > 0)
  }

  lemma DrainOne(p: Params, n: nat, k: nat)
    requires p.hiwat < 1 && k < |Workers(p.lowat)|
    ensures var s, step := Drained(p, n, k), Section(k, Timeval(0, 0), false);
            Can(s, step) && Next(s, step) == Drained(p, n, k + 1)
  {
    var s, step := Drained(p, n, k), Section(k, Timeval(0, 0), false);
    assert s.agents[k] == Worker(Fresh);
    assert Enter(s.m, step.now) == (s.m, Leave(true));
    assert Do(s, step).agents == Drained(p, n, k + 1).agents;
  }

  /** With `hiwat` below one the initial workers all leave the empty queue. */
  lemma {:induction false} DrainRun(p: Params, n: nat, k: nat) returns (run: seq<Step>)
    requires p.hiwat < 1 && k <= |Workers(p.lowat)|
    ensures Possible(Boot(p, n), run) && After(Boot(p, n), run) == Drained(p, n, k)
  {
    if k == 0 {
      run := [];
      assert Drained(p, n, 0).agents == Boot(p, n).agents;
    } else {
      run := DrainRun(p, n, k - 1);
      var last := Section(k - 1, Timeval(0, 0), false);
      DrainOne(p, n, k - 1);
      Runs.Single(Can, Next, Drained(p, n, k - 1), last);
      Runs.Concat(Can, Next, Boot(p, n), run, [last]);
      run := run + [last];
    }
  }

  ghost predicate NobodyAlive(s: System) {
    forall j | 0 <= j < |s.agents| :: !Alive(s.agents[j])
  }

  const FIRST: Event := Event(ClientInit2, 0, AddMsec(CALM.now, 0))
  const CALM: Env := Env(Timeval(0, 0), 1, 0, 0, 0, 0, true, 0, 0, 0, 0)

  lemma StartClient(s: System, i: nat, env: Env, e: Event)
    requires i < |s.agents| && s.agents[i] == StarterOf(0) && s.clients != []
    requires env.Valid() && env.x3 <= s.expired
    requires Handle(ClientInit, s.clients[0], env).1 == Schedule(e.time, e.func) && e.arg == 0
    ensures Can(s, RunHandler(i, env))
    ensures var t := Next(s, RunHandler(i, env)); t.m == s.m && t.agents == At(s, i, Submitting(e))
  {
  }

  lemma StartClientTests(s: System, i: nat, e: Event)
    requires i < |s.agents| && s.agents[i] == Starter(Submitting(e)) && !s.m.finish
    ensures Can(s, TestFinish(i))
    ensures var t := Next(s, TestFinish(i)); t.m == s.m && t.agents == At(s, i, Inserting(e))
  {
  }

  lemma StartClientPuts(s: System, i: nat, e: Event)
    requires i < |s.agents| && s.agents[i] == Starter(Inserting(e))
    requires forall j | 0 <= j < |s.agents| :: !Unwoken(s.agents[j])
    ensures Can(s, PutEvent(i, i))
    ensures var t := Next(s, PutEvent(i, i)); t.m == Accept(s.m, e) && t.agents == At(s, i, Returning)
  {
    assert !Unwoken(At(s, i, Returning)[i]);
  }

  /** While nobody sleeps, the main thread starts a client. */
  lemma PutFirst(s: System, i: nat, env: Env, e: Event) returns (run: seq<Step>)
    requires i < |s.agents| && s.agents[i] == StarterOf(0) && s.clients != [] && !s.m.finish
    requires env.Valid() && env.x3 <= s.expired && forall j | 0 <= j < |s.agents| :: !Unwoken(s.agents[j])
    requires Handle(ClientInit, s.clients[0], env).1 == Schedule(e.time, e.func) && e.arg == 0
    ensures Possible(s, run) && After(s, run).m == Accept(s.m, e) && After(s, run).agents == At(s, i, Returning)
  {
    StartClient(s, i, env, e);
    var s1 := Next(s, RunHandler(i, env));
    StartClientTests(s1, i, e);
    var s2 := Next(s1, TestFinish(i));
    StartClientPuts(s2, i, e);
    Runs.Single(Can, Next, s, RunHandler(i, env));
    Runs.Single(Can, Next, s1, TestFinish(i));
    Runs.Single(Can, Next, s2, PutEvent(i, i));
    Runs.Concat(Can, Next, s1, [TestFinish(i)], [PutEvent(i, i)]);
    Runs.Concat(Can, Next, s, [RunHandler(i, env)], [TestFinish(i)] + [PutEvent(i, i)]);
    run := [RunHandler(i, env)] + ([TestFinish(i)] + [PutEvent(i, i)]);
    assert At(s2, i, Returning) == At(s, i, Returning);
  }

  /** With no worker left. */
  lemma FirstEvent(s: System, i: nat) returns (run: seq<Step>)
    requires i < |s.agents| && s.agents[i] == StarterOf(0) && s.clients != [] && s.clients[0] == NEW_CLIENT
    requires !s.m.finish && s.expired == 0 && NobodyAlive(s)
    ensures Possible(s, run) && !NoLostWakeup(After(s, run))
  {
    run := PutFirst(s, i, CALM, FIRST);
    var t := After(s, run);
    assert NobodyAlive(t);
    assert FIRST == t.m.queue[Place(s.m.queue, FIRST.time)];
  }

  lemma LostWakeup(p: Params, n: nat) returns (run: seq<Step>)
    requires n >= 1 && (p.lowat < 1 || p.hiwat < 1)
    ensures Possible(Boot(p, n), run) && !NoLostWakeup(After(Boot(p, n), run))
  {
    var k := |Workers(p.lowat)|;
    var drain: seq<Step>;
    if p.hiwat < 1 {
      drain := DrainRun(p, n, k);
    } else {
      drain := [];
      assert Drained(p, n, 0).agents == Boot(p, n).agents;
    }
    var s := Drained(p, n, k);
    assert forall j | 0 <= j < |s.agents| :: s.agents[j] == if j < k then Worker(Exited) else StarterOf(j - k);
    var tail := FirstEvent(s, k);
    Runs.Concat(Can, Next, Boot(p, n), drain, tail);
    run := drain + tail;
  }

  // ----- A schedule that dispatches early -----

  lemma FarAhead(now: Timeval, far: Timeval)
    requires now.Normal() && far == AddMsec(now, 3_000_000)
    ensures far.Micros() == now.Micros() + 3_000_000_000 && SleepTime(far, now) < 0
  {
    AddMsecExact(now, 3_000_000);
    SleepTimeIsDifference(far, now);
  }

  lemma TakenAtOnce(m: Monitor, e: Event, now: Timeval)
    requires !m.finish && m.queue == [e] && SleepTime(e.time, now) < m.p.minSleep
    ensures Enter(m, now).1 == Dispatch(e)
  {
  }

  lemma FirstSchedule(c: Client, env: Env)
    requires c == NEW_CLIENT && env.x1 == 0 && env.startDelay >= 0
    ensures Handle(ClientInit, c, env).1 == Schedule(AddMsec(env.now, env.startDelay), ClientInit2)
  {
  }

  lemma EarlyRun(p: Params, n: nat, env: Env, e: Event) returns (run: seq<Step>)
    requires n >= 1 && p.lowat >= 1 && p.minSleep >= 0
    requires env.Valid() && env.x1 == env.x3 == 0 && env.startDelay >= 0
    requires e == Event(ClientInit2, 0, AddMsec(env.now, env.startDelay)) && SleepTime(e.time, env.now) < 0
    ensures Possible(Boot(p, n), run)
    ensures var s := After(Boot(p, n), run);
            && s.m.queue == [e] && 0 < |s.agents| && s.agents[0] == Worker(Fresh)
            && Enter(s.m, env.now).1 == Dispatch(e)
  {
    var s, k := Boot(p, n), |Workers(p.lowat)|;
    assert s.agents[0] == Worker(Fresh) && s.agents[k] == StarterOf(0);
    FirstSchedule(s.clients[0], env);
    run := PutFirst(s, k, env, e);
    TakenAtOnce(After(s, run).m, e, env.now);
  }

  /** At any time, a client with a start delay of 3000 seconds is started by the next worker that
      takes the lock, at the same instant. */
  lemma EarlyDispatch(p: Params, n: nat, now: Timeval) returns (run: seq<Step>, e: Event)
    requires n >= 1 && p.lowat >= 1 && p.minSleep >= 0 && now.Normal()
    ensures Possible(Boot(p, n), run) && e.time.Micros() == now.Micros() + 3_000_000_000
    ensures var s := After(Boot(p, n), run);
            && s.m.queue == [e] && 0 < |s.agents| && s.agents[0] == Worker(Fresh)
            && Enter(s.m, now).1 == Dispatch(e)
  {
    var env := Env(now, 1, 3_000_000, 0, 0, 0, true, 0, 0, 0, 0);
    e := Event(ClientInit2, 0, AddMsec(now, 3_000_000));
    FarAhead(now, e.time);
    run := EarlyRun(p, n, env, e);
  }

  // ----- The theorems -----

  /** No wakeup is ever lost, under any schedule, exactly when the pool is configured to
      start a worker and to let one wait. */
  lemma NoLostWakeupIff(p: Params, n: nat)
    requires n >= 1
    ensures (forall run | Possible(Boot(p, n), run) :: NoLostWakeup(After(Boot(p, n), run)))
            <==> p.lowat >= 1 && p.hiwat >= 1
  {
    if p.lowat >= 1 && p.hiwat >= 1 {
      forall run | Possible(Boot(p, n), run) ensures NoLostWakeup(After(Boot(p, n), run)) {
        WatchedRun(p, n, run);
        CountNone(After(Boot(p, n), run).agents, Awake);
      }
    } else {
      var run := LostWakeup(p, n);
    }
  }

  /** With a worker to begin with, `finished` is signalled in a finishing queue only, under
      every schedule, exactly when `hiwat` is at least one. */
  lemma FinishedSignalIff(p: Params, n: nat)
    requires p.lowat >= 1
    ensures (forall run | Possible(Boot(p, n), run) ::
               After(Boot(p, n), run).signalled ==> After(Boot(p, n), run).m.finish)
            <==> p.hiwat >= 1
  {
    if p.hiwat >= 1 {
      forall run | Possible(Boot(p, n), run)
        ensures After(Boot(p, n), run).signalled ==> After(Boot(p, n), run).m.finish
      {
        SignalledRun(p, n, run);
      }
    } else {
      var run := DrainRun(p, n, 1);
      assert After(Boot(p, n), run).signalled && !After(Boot(p, n), run).m.finish;
    }
  }

  /** `waiting_threads` is the number of workers inside a wait and `threads` the number
      inside the loop; a worker whose wait returns can wait again, whatever it finds. */
  lemma PoolAccounting(p: Params, n: nat, run: seq<Step>, i: nat, now: Timeval)
    requires Possible(Boot(p, n), run)
    ensures var s := After(Boot(p, n), run);
            && s.m.waiting == Count(s.agents, InWait) <= (if p.hiwat < 0 then 0 else p.hiwat)
            && s.m.threads == Count(s.agents, Entered)
            && (i < |s.agents| && IsWoken(s.agents[i]) && !s.m.finish ==> !Resume(s.m, now).1.Leave?)
  {
    var s := After(Boot(p, n), run);
    SoundRun(p, n, run);
    if i < |s.agents| && IsWoken(s.agents[i]) {
      CountNone(s.agents, InWait);
      assert s.m.waiting >= 1;
    }
  }

  /** Under every schedule the pool may grow exactly when a worker comes back from a wait and at
      most `lowat` workers, with itself, are in one. */
  lemma GrowsIff(p: Params, n: nat, run: seq<Step>, i: nat, now: Timeval)
    requires Possible(Boot(p, n), run) && i < |After(Boot(p, n), run).agents|
    ensures var s := After(Boot(p, n), run);
            && (IsWoken(s.agents[i]) ==> (Can(s, Section(i, now, true)) <==> Count(s.agents, InWait) <= p.lowat))
            && (!IsWoken(s.agents[i]) ==> !Can(s, Section(i, now, true)))
            && (Can(s, Section(i, now, true)) ==>
                  |Do(s, Section(i, now, true)).agents| == |s.agents| + 1
                  && Do(s, Section(i, now, true)).agents[|s.agents|] == Worker(Fresh))
  {
    SoundRun(p, n, run);
  }

  /** Under every schedule, what a worker does that has the lock depends on how many others wait:
      it leaves a finishing queue, takes a head that reads as due within `minSleep`, and otherwise
      waits, if fewer than `hiwat` others do: for ever if the list is empty, and else until
      `minSleep` before the earliest event. The last to leave signals. */
  lemma SectionOutcome(p: Params, n: nat, run: seq<Step>, i: nat, now: Timeval)
    requires Possible(Boot(p, n), run)
    requires i < |After(Boot(p, n), run).agents| && CanEnter(After(Boot(p, n), run).agents[i])
    ensures var s := After(Boot(p, n), run);
            var act := Pass(Adjust(s.m, s.agents[i].ph), now).1;
            var others := Count(s.agents, InWait) - if s.agents[i].ph.Woken? then 1 else 0;
            var due := s.m.queue != [] && SleepTime(s.m.queue[0].time, now) < p.minSleep;
            && (act.Leave? <==> s.m.finish || (!due && others >= p.hiwat))
            && (act.Dispatch? <==> !s.m.finish && due)
            && (act.Sleep? <==> !s.m.finish && s.m.queue == [] && others < p.hiwat)
            && (act.SleepUntil? ==>
                  && (forall e | e in s.m.queue :: act.deadline <= e.time.Micros() - p.minSleep)
                  && (exists e | e in s.m.queue :: act.deadline == e.time.Micros() - p.minSleep))
            && (act.Leave? && act.signalFinished <==>
                  act.Leave? && Count(s.agents, Entered) == if s.agents[i].ph.Fresh? then 0 else 1)
  {
    SoundRun(p, n, run);
    SortedIsMicros(After(Boot(p, n), run).m.queue);
  }

  lemma {:induction false} PlaceIsThis(q: seq<Event>, e: Event, k: nat)
    requires Sorted(q) && AllNormal(q) && e.time.Normal() && k <= |q|
    requires forall j | 0 <= j < k :: q[j].time.Micros() < e.time.Micros()
    requires forall j | k <= j < |q| :: e.time.Micros() <= q[j].time.Micros()
    ensures Place(q, e.time) == k
  {
    var first := Place(q, e.time);
    if first < |q| {
      PlaceSplits(q, e.time, first);
    }
    if k < |q| {
      PlaceSplits(q, e.time, k);
    }
  }

  /** Under every schedule, inserting an event puts it before all that are due no earlier and behind
      the others, and wakes nobody, except if it is due no later than all of them and somebody
      sleeps: then the worker chosen wakes. */
  lemma PutOutcome(p: Params, n: nat, run: seq<Step>, i: nat, w: nat, k: nat)
    requires Possible(Boot(p, n), run)
    requires var s := After(Boot(p, n), run);
             && Can(s, PutEvent(i, w)) && k <= |s.m.queue|
             && (forall j | 0 <= j < k :: s.m.queue[j].time.Micros() < s.agents[i].ph.e.time.Micros())
             && (forall j | k <= j < |s.m.queue| :: s.agents[i].ph.e.time.Micros() <= s.m.queue[j].time.Micros())
    ensures var s, t := After(Boot(p, n), run), Do(After(Boot(p, n), run), PutEvent(i, w));
            && t.m == s.m.(queue := s.m.queue[..k] + [s.agents[i].ph.e] + s.m.queue[k..])
            && (k > 0 || Count(s.agents, Unwoken) == 0 ==> t.agents == s.agents[i := t.agents[i]])
            && (k == 0 && Count(s.agents, Unwoken) > 0 ==>
                  w < |s.agents| && Unwoken(s.agents[w])
                  && t.agents == s.agents[i := t.agents[i]][w := Worker(Woken)])
            && |t.agents| == |s.agents| && t.agents[i] == s.agents[i].(ph := Returning)
  {
    var s := After(Boot(p, n), run);
    SoundRun(p, n, run);
    PlaceIsThis(s.m.queue, s.agents[i].ph.e, k);
    CountNone(s.agents, Unwoken);
  }

  /** The list is in time order, and what was accepted is in it or was dispatched, once. */
  lemma ExactlyOnceInOrder(p: Params, n: nat, run: seq<Step>)
    requires Possible(Boot(p, n), run)
    ensures var s := After(Boot(p, n), run);
            && Sorted(s.m.queue)
            && s.accepted == multiset(s.m.queue) + s.dispatched
  {
    SoundRun(p, n, run);
  }

  /** Whatever a worker dispatches is due first of all the list holds, and is not early
      unless it was due 2^31 microseconds or more ahead. */
  lemma DispatchedFirstAndNotEarly(p: Params, n: nat, run: seq<Step>, i: nat, now: Timeval)
    requires Possible(Boot(p, n), run) && p.minSleep > -0x8000_0000
    requires var s := After(Boot(p, n), run); i < |s.agents| && CanEnter(s.agents[i])
    ensures var s := After(Boot(p, n), run);
            var act := Pass(Adjust(s.m, s.agents[i].ph), now).1;
            act.Dispatch? ==>
              && (forall e | e in s.m.queue :: act.e.time.Micros() <= e.time.Micros())
              && (act.e.time.Micros() - now.Micros() < 0x8000_0000 ==>
                    act.e.time.Micros() - now.Micros() < p.minSleep)
  {
    var s := After(Boot(p, n), run);
    SoundRun(p, n, run);
    DispatchedFirst(Adjust(s.m, s.agents[i].ph), now);
  }

  /** A client being handled belongs to that thread alone: no other thread handles it, no
      queued event leads to it, and it has not been counted as finished. Over a whole run
      it is counted at most once. */
  lemma ExclusiveOwnership(p: Params, n: nat, run: seq<Step>, i: nat)
    requires Possible(Boot(p, n), run)
    ensures var s := After(Boot(p, n), run);
            && (forall c | 0 <= c < n :: s.finished[c] <= 1)
            && (i < |s.agents| && HasEvent(s.agents[i]) ==>
                  var c := s.agents[i].ph.e.arg;
                  && (forall j | 0 <= j < |s.agents| && j != i :: HasEvent(s.agents[j]) ==> s.agents[j].ph.e.arg != c)
                  && (forall k | 0 <= k < |s.m.queue| :: s.m.queue[k].arg != c)
                  && s.finished[c] == 0)
  {
    var s := After(Boot(p, n), run);
    SoundRun(p, n, run);
    assert forall c | 0 <= c < n :: Tokens(s.m.queue, s.agents, c) + s.finished[c] + s.abandoned[c] == 1;
    if i < |s.agents| && HasEvent(s.agents[i]) {
      assert AgentFits(s.clients, s.agents[i]);
      SoleOwner(s, i);
    }
  }

  /** Under every schedule a client's protocol calls form whole sessions, and a client
      finishes inside one only in a forced exit. */
  lemma SessionsBracketed(p: Params, n: nat, run: seq<Step>, c: nat)
    requires Possible(Boot(p, n), run) && c < n
    ensures var s := After(Boot(p, n), run);
            && c < |s.clients|
            && Bracketed(s.clients[c].calls)
            && (s.finished[c] > 0 && Open(s.clients[c].calls) ==> s.expired >= EXIT_FAST)
  {
    SoundRun(p, n, run);
  }
}
