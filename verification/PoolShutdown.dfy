/** What the end of a test does to the pool, over every schedule. */
module PoolShutdown {
  import opened Timeval
  import opened Clients
  import opened EventQueue
  import opened Counting
  import opened WorkerPool
  import opened PoolTheorems
  import PoolWakeups
  import Runs

  /** The queue is finishing and nobody sleeps. */
  ghost predicate Ending(s: System) {
    s.m.finish && forall i | 0 <= i < |s.agents| :: !Unwoken(s.agents[i])
  }

  /** A step of a worker or of the main thread as a starter. */
  predicate IsMove(step: Step) {
    !step.SetFinish? && !step.Broadcast? && !step.Expire?
  }

  /** How many steps an agent can still make, if every section is a leave. A woken worker
      may start another one. */
  function Rank(a: Agent): nat {
    match a.ph
    case Exited => 0
    case Returning => if a.Worker? then 1 else 0
    case Fresh => 1
    case Woken => 2
    case Inserting(_) => 2
    case Submitting(_) => 3
    case Running(_) => 4
    case _ => 3
  }

  function Work(agents: seq<Agent>): nat {
    if agents == [] then 0 else Work(agents[..|agents| - 1]) + Rank(agents[|agents| - 1])
  }

  lemma {:induction false} WorkUpdate(agents: seq<Agent>, i: nat, a: Agent)
    requires i < |agents|
    ensures Work(agents[i := a]) == Work(agents) - Rank(agents[i]) + Rank(a)
  {
    var n := |agents| - 1;
    if i < n {
      WorkUpdate(agents[..n], i, a);
      assert agents[i := a][..n] == agents[..n][i := a];
    } else {
      assert agents[i := a][..n] == agents[..n];
    }
  }

  lemma {:induction false} WorkAppend(agents: seq<Agent>, a: Agent)
    ensures Work(agents + [a]) == Work(agents) + Rank(a)
  {
    assert (agents + [a])[..|agents|] == agents;
  }

  /** Every section is a leave, and wakes nobody up later. */
  lemma SectionLeaves(s: System, i: nat, now: Timeval, spawn: bool)
    requires Ending(s) && Can(s, Section(i, now, spawn))
    ensures Pass(Adjust(s.m, s.agents[i].ph), now).1.Leave?
    ensures var t := Do(s, Section(i, now, spawn)); Ending(t) && Work(t.agents) < Work(s.agents)
  {
    var left := At(s, i, Exited);
    WorkUpdate(s.agents, i, s.agents[i].(ph := Exited));
    if spawn {
      WorkAppend(left, Worker(Fresh));
    }
    assert left + [] == left;
  }

  lemma HandlerEnds(s: System, i: nat, env: Env)
    requires Ending(s) && Can(s, RunHandler(i, env))
    ensures var t := Do(s, RunHandler(i, env)); Ending(t) && Work(t.agents) < Work(s.agents)
  {
    var e := s.agents[i].ph.e;
    match Handle(e.func, s.clients[e.arg], env).1
    case Schedule(t, f) => WorkUpdate(s.agents, i, s.agents[i].(ph := Submitting(Event(f, e.arg, t))));
    case Done => WorkUpdate(s.agents, i, s.agents[i].(ph := Returning));
  }

  lemma Refused(s: System, i: nat)
    requires Ending(s) && Can(s, TestFinish(i))
    ensures var t := Do(s, TestFinish(i)); Ending(t) && Work(t.agents) < Work(s.agents)
  {
    WorkUpdate(s.agents, i, s.agents[i].(ph := Returning));
  }

  lemma PutEnds(s: System, i: nat, w: nat)
    requires Ending(s) && Can(s, PutEvent(i, w))
    ensures var t := Do(s, PutEvent(i, w)); Ending(t) && Work(t.agents) < Work(s.agents)
  {
    WorkUpdate(s.agents, i, s.agents[i].(ph := Returning));
    assert w < |s.agents| ==> !Unwoken(At(s, i, Returning)[w]);
  }

  lemma EndingStep(s: System, step: Step)
    requires Ending(s) && Can(s, step)
    ensures Ending(Do(s, step))
    ensures if IsMove(step) then Work(Do(s, step).agents) < Work(s.agents) else Do(s, step).agents == s.agents
  {
    match step
    case Section(i, now, spawn) => SectionLeaves(s, i, now, spawn);
    case RunHandler(i, env) => HandlerEnds(s, i, env);
    case TestFinish(i) => Refused(s, i);
    case PutEvent(i, w) => PutEnds(s, i, w);
    case _ =>
  }

  function Moves(run: seq<Step>): nat {
    if run == [] then 0 else (if IsMove(run[0]) then 1 else 0) + Moves(run[1..])
  }

  lemma {:induction false} EndingRun(s: System, run: seq<Step>)
    requires Ending(s) && Possible(s, run)
    ensures Ending(After(s, run)) && Moves(run) + Work(After(s, run).agents) <= Work(s.agents)
    decreases |run|
  {
    if run != [] {
      EndingStep(s, run[0]);
      EndingRun(Next(s, run[0]), run[1..]);
    }
  }

  /** The broadcast reaches everybody: in every schedule after it nobody sleeps, every section
      is a leave, and the number of steps left to the workers is bounded by the work there
      was at the broadcast. */
  lemma {:induction false} ShutdownReachesAll(s: System, run: seq<Step>)
    requires s.m.finish && Possible(Next(s, Broadcast), run)
    ensures var t := After(Next(s, Broadcast), run);
            && Ending(t) && Moves(run) + Work(t.agents) <= Work(Next(s, Broadcast).agents)
            && forall i: nat, now | i < |t.agents| && CanEnter(t.agents[i]) ::
                 Pass(Adjust(t.m, t.agents[i].ph), now).1.Leave?
  {
    EndingRun(Next(s, Broadcast), run);
  }

  // ----- The end of the shutdown -----

  ghost predicate SignalledOrAlive(s: System) {
    s.signalled || exists i | 0 <= i < |s.agents| :: Alive(s.agents[i])
  }

  /** The last worker to leave signals `finished`. */
  lemma LastSignals(s: System, i: nat, now: Timeval, spawn: bool)
    requires Accounted(s.m, s.agents) && SignalledOrAlive(s) && Can(s, Section(i, now, spawn))
    ensures SignalledOrAlive(Do(s, Section(i, now, spawn)))
  {
    var t := Do(s, Section(i, now, spawn));
    PoolWakeups.AccountedSection(s, i, now, spawn);
    if forall j | 0 <= j < |t.agents| :: !Alive(t.agents[j]) {
      CountNone(t.agents, Entered);
      assert t.agents[i] == Worker(Exited);
    }
  }

  lemma SignalledOrAliveStep(s: System, step: Step)
    requires Accounted(s.m, s.agents) && SignalledOrAlive(s) && Can(s, step)
    ensures SignalledOrAlive(Do(s, step))
  {
    match step
    case Section(i, now, spawn) => LastSignals(s, i, now, spawn);
    case _ =>
      if !s.signalled {
        var j :| 0 <= j < |s.agents| && Alive(s.agents[j]);
        assert Alive(Do(s, step).agents[j]);
      }
  }

  lemma SignalledOrAliveRun(p: Params, n: nat, run: seq<Step>)
    requires p.lowat >= 1 && Possible(Boot(p, n), run)
    ensures SignalledOrAlive(After(Boot(p, n), run))
  {
    SoundStart(p, n);
    assert Alive(Boot(p, n).agents[0]);
    var inv := (s: System) => Sound(s) && SignalledOrAlive(s);
    forall s, step | inv(s) && Can(s, step) ensures inv(Next(s, step)) {
      SoundStep(s, step);
      SignalledOrAliveStep(s, step);
    }
    Runs.Invariant(Can, Next, inv, Boot(p, n), run);
  }

  /** Nobody can make a step any more. */
  ghost predicate AtRest(s: System) {
    forall step | IsMove(step) :: !Can(s, step)
  }

  /** An agent that is neither out nor asleep can make a step. */
  lemma SomeoneMoves(s: System, i: nat) returns (step: Step)
    requires Ending(s) && Fitting(s) && i < |s.agents| && StarterOutside(s.agents[i]) && Rank(s.agents[i]) > 0
    ensures IsMove(step) && Can(s, step)
  {
    var a := s.agents[i];
    match a.ph
    case Running(e) =>
      step := RunHandler(i, Env(Timeval(0, 0), 1, 0, 0, 0, 0, true, 0, s.expired, s.expired, s.expired));
      assert AgentFits(s.clients, a);
    case Submitting(_) => step := TestFinish(i);
    case Inserting(_) => step := PutEvent(i, 0);
    case _ => step := Section(i, Timeval(0, 0), false);
  }

  lemma SoundShutdown(p: Params, n: nat, before: seq<Step>, run: seq<Step>)
    requires p.lowat >= 1 && Possible(Boot(p, n), before) && After(Boot(p, n), before).m.finish
    requires Possible(Next(After(Boot(p, n), before), Broadcast), run)
    ensures var t := After(Next(After(Boot(p, n), before), Broadcast), run); Sound(t) && SignalledOrAlive(t)
  {
    var s := After(Boot(p, n), before);
    Runs.Single(Can, Next, s, Broadcast);
    Runs.Concat(Can, Next, s, [Broadcast], run);
    Runs.Concat(Can, Next, Boot(p, n), before, [Broadcast] + run);
    SoundRun(p, n, before + ([Broadcast] + run));
    SignalledOrAliveRun(p, n, before + ([Broadcast] + run));
  }

  lemma RestIsOver(t: System)
    requires Ending(t) && Sound(t) && SignalledOrAlive(t) && AtRest(t)
    ensures forall i | 0 <= i < |t.agents| :: !Alive(t.agents[i]) && !HasEvent(t.agents[i])
    ensures t.m.threads == 0 && t.signalled
  {
    forall i | 0 <= i < |t.agents| ensures !Alive(t.agents[i]) && !HasEvent(t.agents[i]) {
      if Rank(t.agents[i]) > 0 {
        var step := SomeoneMoves(t, i);
      }
    }
    CountNone(t.agents, Entered);
  }

  /** A shutdown ends: when nobody can make a step after the broadcast, all workers have left,
      nobody handles a client, `threads` is zero and `finished` has been signalled. */
  lemma ShutdownCompletes(p: Params, n: nat, before: seq<Step>, run: seq<Step>)
    requires p.lowat >= 1 && Possible(Boot(p, n), before) && After(Boot(p, n), before).m.finish
    requires Possible(Next(After(Boot(p, n), before), Broadcast), run)
    requires AtRest(After(Next(After(Boot(p, n), before), Broadcast), run))
    ensures var t := After(Next(After(Boot(p, n), before), Broadcast), run);
            && (forall i | 0 <= i < |t.agents| :: !Alive(t.agents[i]) && !HasEvent(t.agents[i]))
            && t.m.threads == 0 && t.signalled
  {
    SoundShutdown(p, n, before, run);
    ShutdownReachesAll(After(Boot(p, n), before), run);
    RestIsOver(After(Next(After(Boot(p, n), before), Broadcast), run));
  }

  // ----- A signal that nobody waits for -----

  /** The queue is finishing, and the first `k` workers have come and gone. */
  function Deserted(p: Params, n: nat, k: nat): System
    requires k <= |Workers(p.lowat)|
  {
    Drained(p, n, k).(m := Boot(p, n).m.(finish := true))
  }

  lemma DesertOne(p: Params, n: nat, k: nat)
    requires k < |Workers(p.lowat)|
    ensures var s, step := Deserted(p, n, k), Section(k, Timeval(0, 0), false);
            Can(s, step) && Next(s, step) == Deserted(p, n, k + 1)
  {
    var s, step := Deserted(p, n, k), Section(k, Timeval(0, 0), false);
    assert s.agents[k] == Worker(Fresh);
    assert Enter(s.m, step.now) == (s.m, Leave(true));
    assert Do(s, step).agents == Deserted(p, n, k + 1).agents;
  }

  lemma {:induction false} DesertRun(p: Params, n: nat, k: nat) returns (run: seq<Step>)
    requires k <= |Workers(p.lowat)|
    ensures Possible(Boot(p, n), run) && After(Boot(p, n), run) == Deserted(p, n, k) && Broadcast !in run
  {
    if k == 0 {
      run := [SetFinish];
      Runs.Single(Can, Next, Boot(p, n), SetFinish);
      assert Drained(p, n, 0).agents == Boot(p, n).agents;
    } else {
      run := DesertRun(p, n, k - 1);
      var last := Section(k - 1, Timeval(0, 0), false);
      DesertOne(p, n, k - 1);
      Runs.Single(Can, Next, Deserted(p, n, k - 1), last);
      Runs.Concat(Can, Next, Boot(p, n), run, [last]);
      run := run + [last];
    }
  }

  /** Between setting `finish` and the broadcast, all workers may leave and the last of them
      may signal `finished`, for which nobody waits yet; no worker is left to do it again. */
  lemma SignalledTooSoon(p: Params, n: nat) returns (run: seq<Step>)
    requires p.lowat >= 1
    ensures Possible(Boot(p, n), run) && Broadcast !in run
    ensures var s := After(Boot(p, n), run); s.m.finish && s.signalled && NobodyAlive(s)
  {
    run := DesertRun(p, n, |Workers(p.lowat)|);
    var s := Deserted(p, n, |Workers(p.lowat)|);
    assert forall j | 0 <= j < |s.agents| ::
        s.agents[j] == if j < p.lowat then Worker(Exited) else StarterOf(j - p.lowat);
  }

  // ----- When the signal reaches the destroyer -----

  /** The state in which ev_queue_destroy goes to wait, with only later signals counted. */
  function Awaiting(s: System): System
    requires s.m.finish
  {
    Do(s.(signalled := false), Broadcast)
  }

  ghost predicate SomebodyAlive(s: System) {
    exists i | 0 <= i < |s.agents| :: Alive(s.agents[i])
  }

  lemma AwaitingIs(s: System)
    requires Sound(s) && s.m.finish
    ensures Sound(Awaiting(s)) && Ending(Awaiting(s)) && !Awaiting(s).signalled
    ensures SomebodyAlive(Awaiting(s)) <==> SomebodyAlive(s)
  {
    var c := s.(signalled := false);
    assert Can(c, Broadcast) && Sound(c);
    SoundStep(c, Broadcast);
    var t := Awaiting(s);
    assert forall i | 0 <= i < |s.agents| :: Alive(t.agents[i]) <==> Alive(s.agents[i]);
  }

  lemma SoundEnding(s: System, run: seq<Step>)
    requires Sound(s) && Ending(s) && Possible(s, run)
    ensures Sound(After(s, run)) && Ending(After(s, run))
    ensures SignalledOrAlive(s) ==> SignalledOrAlive(After(s, run))
  {
    var had := SignalledOrAlive(s);
    var inv := (x: System) => Sound(x) && (had ==> SignalledOrAlive(x));
    forall x, step | inv(x) && Can(x, step) ensures inv(Next(x, step)) {
      SoundStep(x, step);
      if had {
        SignalledOrAliveStep(x, step);
      }
    }
    Runs.Invariant(Can, Next, inv, s, run);
    EndingRun(s, run);
  }

  /** Without a worker there never is one again, and nobody signals. */
  ghost predicate Silent(s: System) {
    !s.signalled && NobodyAlive(s) && forall i | 0 <= i < |s.agents| :: StarterOutside(s.agents[i])
  }

  lemma SilentStep(s: System, step: Step)
    requires Silent(s) && Can(s, step)
    ensures Silent(Do(s, step))
  {
    assert forall i | 0 <= i < |s.agents| :: !Alive(s.agents[i]) && !CanEnter(s.agents[i]);
    match step
    case RunHandler(i, _) => SilentMove(s, step, i);
    case TestFinish(i) => SilentMove(s, step, i);
    case PutEvent(i, _) => SilentMove(s, step, i);
    case _ =>
  }

  lemma SilentMove(s: System, step: Step, i: nat)
    requires Silent(s) && Can(s, step) && i < |s.agents|
    requires !Alive(s.agents[i]) && Do(s, step).signalled == s.signalled
    requires exists ph :: Do(s, step).agents == At(s, i, ph) && StarterOutside(s.agents[i].(ph := ph))
    ensures Silent(Do(s, step))
  {
  }

  lemma SilentRun(s: System, run: seq<Step>)
    requires Silent(s) && Possible(s, run)
    ensures Silent(After(s, run))
  {
    forall x, step | Silent(x) && Can(x, step) ensures Silent(Next(x, step)) {
      SilentStep(x, step);
    }
    Runs.Invariant(Can, Next, Silent, s, run);
  }

  /** From an ending state the pool can come to rest. */
  lemma {:induction false} RunToRest(s: System) returns (run: seq<Step>)
    requires Sound(s) && Ending(s)
    ensures Possible(s, run) && AtRest(After(s, run))
    decreases Work(s.agents)
  {
    if AtRest(s) {
      return [];
    }
    var step :| IsMove(step) && Can(s, step);
    SoundStep(s, step);
    EndingStep(s, step);
    var rest := RunToRest(Next(s, step));
    Runs.Single(Can, Next, s, step);
    Runs.Concat(Can, Next, s, [step], rest);
    run := [step] + rest;
  }

  /** However the shutdown goes on, it ends with a signal to the destroyer. */
  ghost predicate AlwaysSignals(s: System)
    requires s.m.finish
  {
    forall run | Possible(Awaiting(s), run) && AtRest(After(Awaiting(s), run)) :: After(Awaiting(s), run).signalled
  }

  /** And in this case none ever comes. */
  ghost predicate NeverSignals(s: System)
    requires s.m.finish
  {
    forall run | Possible(Awaiting(s), run) :: !After(Awaiting(s), run).signalled
  }

  lemma LiveSignals(s: System)
    requires Sound(s) && s.m.finish && SomebodyAlive(s)
    ensures AlwaysSignals(s)
  {
    AwaitingIs(s);
    forall run | Possible(Awaiting(s), run) && AtRest(After(Awaiting(s), run))
      ensures After(Awaiting(s), run).signalled
    {
      SoundEnding(Awaiting(s), run);
      RestIsOver(After(Awaiting(s), run));
    }
  }

  lemma DeadSilent(s: System)
    requires Sound(s) && s.m.finish && !SomebodyAlive(s)
    ensures NeverSignals(s) && !AlwaysSignals(s)
  {
    AwaitingIs(s);
    forall run | Possible(Awaiting(s), run) ensures !After(Awaiting(s), run).signalled {
      SilentRun(Awaiting(s), run);
    }
    var run := RunToRest(Awaiting(s));
    assert !After(Awaiting(s), run).signalled;
  }

  /** The destroyer, who waits from the broadcast on, is signalled under every schedule if and
      only if a worker is left when it takes the lock; otherwise under none. */
  lemma DestroyerSignalledIff(p: Params, n: nat, before: seq<Step>)
    requires Possible(Boot(p, n), before) && After(Boot(p, n), before).m.finish
    ensures var s := After(Boot(p, n), before);
            && (AlwaysSignals(s) <==> SomebodyAlive(s)) && (NeverSignals(s) <==> !SomebodyAlive(s))
  {
    var s := After(Boot(p, n), before);
    SoundRun(p, n, before);
    if SomebodyAlive(s) {
      LiveSignals(s);
      AwaitingIs(s);
      var run := RunToRest(Awaiting(s));
      assert After(Awaiting(s), run).signalled;
    } else {
      DeadSilent(s);
    }
  }

  /** In every pool some schedule leaves the destroyer without a signal for ever. */
  lemma MayWaitForEver(p: Params, n: nat) returns (before: seq<Step>)
    ensures Possible(Boot(p, n), before) && Broadcast !in before && After(Boot(p, n), before).m.finish
    ensures NeverSignals(After(Boot(p, n), before))
  {
    before := DesertRun(p, n, |Workers(p.lowat)|);
    var s := After(Boot(p, n), before);
    assert forall j | 0 <= j < |s.agents| ::
        s.agents[j] == if j < |Workers(p.lowat)| then Worker(Exited) else StarterOf(j - |Workers(p.lowat)|);
    DestroyerSignalledIff(p, n, before);
  }
}
