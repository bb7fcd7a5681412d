/** Pool accounting, list order and the absence of lost wakeups, over every schedule. */
module PoolWakeups {
  import opened Timeval
  import opened Clients
  import opened EventQueue
  import opened Counting
  import opened WorkerPool

  // ----- Counting agents across one step -----

  /** How a count moves when agent `i` changes phase and perhaps a fresh worker appears. */
  lemma {:induction false} CountMoves(agents: seq<Agent>, i: nat, ph: Phase, more: seq<Agent>, p: Agent -> bool)
    requires i < |agents| && |more| <= 1
    ensures var a := agents[i].(ph := ph);
            Count(agents[i := a] + more, p) ==
            Count(agents, p) - (if p(agents[i]) then 1 else 0) + (if p(a) then 1 else 0)
            + (if more != [] && p(more[0]) then 1 else 0)
  {
    CountUpdate(agents, i, agents[i].(ph := ph), p);
    CountConcat(agents[i := agents[i].(ph := ph)], more, p);
  }

  lemma {:induction false} Partition(agents: seq<Agent>)
    ensures Count(agents, InWait) == Count(agents, Unwoken) + Count(agents, IsWoken)
    ensures Count(agents, Alive) == Count(agents, Unwoken) + Count(agents, Awake)
    ensures Count(agents, IsWoken) <= Count(agents, Awake)
    ensures Count(agents, InWait) <= Count(agents, Entered) <= Count(agents, Alive)
  {
    CountSum(agents, InWait, Unwoken, IsWoken);
    CountSum(agents, Alive, Unwoken, Awake);
    CountLess(agents, IsWoken, Awake);
    CountLess(agents, InWait, Entered);
    CountLess(agents, Entered, Alive);
  }

  // ----- Accounting -----

  lemma AccountedStart(p: Params, n: nat)
    ensures Accounted(Boot(p, n).m, Boot(p, n).agents)
    ensures Count(Boot(p, n).agents, Alive) == if p.lowat < 0 then 0 else p.lowat
  {
    var ws, starters := Workers(p.lowat), Starters(n);
    var agents := ws + starters;
    assert forall i | 0 <= i < |ws| :: ws[i] == Worker(Fresh);
    assert forall i | 0 <= i < |starters| :: starters[i] == StarterOf(i);
    assert forall i | 0 <= i < |agents| :: agents[i] == if i < |ws| then Worker(Fresh) else StarterOf(i - |ws|);
    CountNone(agents, InWait);
    CountNone(agents, Entered);
    CountConcat(ws, starters, Alive);
    CountNone(starters, Alive);
    AllFresh(ws);
  }

  lemma {:induction false} AllFresh(ws: seq<Agent>)
    requires forall i | 0 <= i < |ws| :: ws[i] == Worker(Fresh)
    ensures Count(ws, Alive) == |ws|
  {
    if ws != [] {
      AllFresh(ws[..|ws| - 1]);
    }
  }

  /** What one pass does to the counters, and when. */
  lemma PassCounts(m: Monitor, now: Timeval)
    ensures var (m1, act) := Pass(m, now);
            && m1.p == m.p && m1.finish == m.finish
            && m1.waiting == m.waiting + (if act.Sleep? || act.SleepUntil? then 1 else 0)
            && m1.threads == m.threads - (if act.Leave? then 1 else 0)
            && (act.Sleep? || act.SleepUntil? ==> m1.waiting <= m.p.hiwat)
            && (act.Leave? ==> m.finish || m.waiting >= m.p.hiwat)
            && (act.Leave? ==> act.signalFinished == (m1.threads == 0))
  {
  }

  lemma AccountedPass(m: Monitor, agents: seq<Agent>, i: nat, act: Action, m1: Monitor, more: seq<Agent>)
    requires Accounted(m, agents) && i < |agents| && CanEnter(agents[i])
    requires more == [] || more == [Worker(Fresh)]
    requires var m0 := Adjust(m, agents[i].ph);
             && m1.p == m.p
             && m1.waiting == m0.waiting + (if act.Sleep? || act.SleepUntil? then 1 else 0)
             && m1.threads == m0.threads - (if act.Leave? then 1 else 0)
             && (act.Sleep? || act.SleepUntil? ==> m1.waiting <= m.p.hiwat)
    ensures Accounted(m1, agents[i := Worker(PhaseAfter(act))] + more)
  {
    CountMoves(agents, i, PhaseAfter(act), more, InWait);
    CountMoves(agents, i, PhaseAfter(act), more, Entered);
    CountNone(agents, InWait);
  }

  lemma AccountedSection(s: System, i: nat, now: Timeval, spawn: bool)
    requires Accounted(s.m, s.agents) && Can(s, Section(i, now, spawn))
    ensures var t := Do(s, Section(i, now, spawn)); Accounted(t.m, t.agents)
  {
    var m0 := Adjust(s.m, s.agents[i].ph);
    PassCounts(m0, now);
    AccountedPass(s.m, s.agents, i, Pass(m0, now).1, Pass(m0, now).0, if spawn then [Worker(Fresh)] else []);
  }

  /** Moves outside the lock, and being woken, change neither counter. */
  lemma AccountedMove(m: Monitor, m1: Monitor, agents: seq<Agent>, i: nat, ph: Phase)
    requires Accounted(m, agents) && i < |agents|
    requires m1.p == m.p && m1.waiting == m.waiting && m1.threads == m.threads
    requires var a, b := agents[i], agents[i].(ph := ph);
             InWait(a) == InWait(b) && Entered(a) == Entered(b) && StarterOutside(b)
    ensures Accounted(m1, agents[i := agents[i].(ph := ph)])
  {
    CountUpdate(agents, i, agents[i].(ph := ph), InWait);
    CountUpdate(agents, i, agents[i].(ph := ph), Entered);
  }

  lemma AccountedPut(s: System, i: nat, w: nat)
    requires Accounted(s.m, s.agents) && Can(s, PutEvent(i, w))
    ensures var t := Do(s, PutEvent(i, w)); Accounted(t.m, t.agents)
  {
    var m, agents := Accept(s.m, s.agents[i].ph.e), At(s, i, Returning);
    AccountedMove(s.m, m, s.agents, i, Returning);
    if w < |agents| && Unwoken(agents[w]) {
      AccountedMove(m, m, agents, w, Woken);
    }
  }

  lemma {:induction false} RouseKeeps(agents: seq<Agent>, roused: seq<Agent>, p: Agent -> bool)
    requires |roused| == |agents| && forall i | 0 <= i < |agents| :: roused[i] == Rouse(agents[i])
    requires forall a :: p(Rouse(a)) == p(a)
    ensures Count(roused, p) == Count(agents, p)
  {
    CountSame(agents, roused, p);
  }

  lemma AccountedStep(s: System, step: Step)
    requires Accounted(s.m, s.agents) && Can(s, step)
    ensures var t := Do(s, step); Accounted(t.m, t.agents)
  {
    var t := Do(s, step);
    match step
    case Section(i, now, spawn) =>
      AccountedSection(s, i, now, spawn);
    case WaitReturns(i) =>
      AccountedMove(s.m, t.m, s.agents, i, Woken);
    case RunHandler(i, env) =>
      AccountedMove(s.m, t.m, s.agents, i, t.agents[i].ph);
    case TestFinish(i) =>
      AccountedMove(s.m, t.m, s.agents, i, t.agents[i].ph);
    case PutEvent(i, w) =>
      AccountedPut(s, i, w);
    case Broadcast =>
      RouseKeeps(s.agents, t.agents, InWait);
      RouseKeeps(s.agents, t.agents, Entered);
    case SetFinish =>
    case Expire(_) =>
  }

  // ----- Times and order -----

  lemma TimedMove(q: seq<Event>, agents: seq<Agent>, i: nat, ph: Phase, more: seq<Agent>)
    requires Timed(q, agents) && i < |agents|
    requires NormalAgent(agents[i].(ph := ph)) && forall a | a in more :: NormalAgent(a)
    ensures Timed(q, agents[i := agents[i].(ph := ph)] + more)
  {
  }

  lemma TimedPut(q: seq<Event>, agents: seq<Agent>, i: nat)
    requires Timed(q, agents) && i < |agents| && agents[i].ph.Inserting?
    ensures Timed(Insert(q, agents[i].ph.e), agents)
  {
    InsertSorted(q, agents[i].ph.e);
  }

  lemma TimedSection(s: System, i: nat, now: Timeval, spawn: bool)
    requires Timed(s.m.queue, s.agents) && Can(s, Section(i, now, spawn))
    ensures var t := Do(s, Section(i, now, spawn)); Timed(t.m.queue, t.agents)
  {
    var ph := PhaseAfter(Pass(Adjust(s.m, s.agents[i].ph), now).1);
    TimedMove(s.m.queue, s.agents, i, ph, if spawn then [Worker(Fresh)] else []);
  }

  lemma TimedPutStep(s: System, i: nat, w: nat)
    requires Timed(s.m.queue, s.agents) && Can(s, PutEvent(i, w))
    ensures var t := Do(s, PutEvent(i, w)); Timed(t.m.queue, t.agents)
  {
    var e := s.agents[i].ph.e;
    var agents := At(s, i, Returning);
    TimedPut(s.m.queue, s.agents, i);
    TimedMove(Insert(s.m.queue, e), s.agents, i, Returning, []);
    assert agents + [] == agents;
    if w < |agents| && Unwoken(agents[w]) {
      TimedMove(Insert(s.m.queue, e), agents, w, Woken, []);
    }
  }

  /** The time of an event scheduled by a handler is normalised. */
  lemma TimedHandler(s: System, i: nat, env: Env)
    requires Timed(s.m.queue, s.agents) && Fitting(s) && Can(s, RunHandler(i, env))
    ensures var t := Do(s, RunHandler(i, env)); Timed(t.m.queue, t.agents)
  {
    var e := s.agents[i].ph.e;
    HandleKeepsFit(e.func, s.clients[e.arg], env);
    match Handle(e.func, s.clients[e.arg], env).1
    case Schedule(t, f) => TimedMove(s.m.queue, s.agents, i, Submitting(Event(f, e.arg, t)), []);
    case Done => TimedMove(s.m.queue, s.agents, i, Returning, []);
  }

  lemma TimedStep(s: System, step: Step)
    requires Timed(s.m.queue, s.agents) && Fitting(s) && Can(s, step)
    ensures var t := Do(s, step); Timed(t.m.queue, t.agents)
  {
    match step
    case Section(i, now, spawn) => TimedSection(s, i, now, spawn);
    case PutEvent(i, w) => TimedPutStep(s, i, w);
    case RunHandler(i, env) => TimedHandler(s, i, env);
    case WaitReturns(i) => TimedMove(s.m.queue, s.agents, i, Woken, []);
    case TestFinish(i) => TimedMove(s.m.queue, s.agents, i, Do(s, step).agents[i].ph, []);
    case _ =>
  }

  // ----- No lost wakeup -----

  lemma CoveredElsewhere(m: Monitor, agents: seq<Agent>, i: nat, ph: Phase, more: seq<Agent>, m1: Monitor)
    requires m.queue != [] && m1.queue != [] && m1.p == m.p
    requires m.queue[0].time.Micros() <= m1.queue[0].time.Micros()
    requires i < |agents| && !Unwoken(agents[i]) && Covered(m, agents)
    ensures Covered(m1, agents[i := agents[i].(ph := ph)] + more)
  {
    var j :| 0 <= j < |agents| && Covers(agents[j], m);
    assert Covers((agents[i := agents[i].(ph := ph)] + more)[j], m1);
  }

  /** A pass keeps the head covered, or covers it itself. */
  lemma PassCovers(m: Monitor, agents: seq<Agent>, i: nat, now: Timeval, more: seq<Agent>)
    requires Sorted(m.queue) && AllNormal(m.queue)
    requires i < |agents| && CanEnter(agents[i])
    ensures var (m1, act) := Pass(Adjust(m, agents[i].ph), now);
            !m.finish && m1.queue != [] && (act.SleepUntil? || Covered(m, agents)) ==>
              Covered(m1, agents[i := Worker(PhaseAfter(act))] + more)
  {
    var (m1, act) := Pass(Adjust(m, agents[i].ph), now);
    var agents1 := agents[i := Worker(PhaseAfter(act))] + more;
    if !m.finish && m1.queue != [] {
      if act.SleepUntil? {
        assert Covers(agents1[i], m1);
      } else if Covered(m, agents) {
        SortedIsMicros(m.queue);
        CoveredElsewhere(m, agents, i, PhaseAfter(act), more, m1);
      }
    }
  }

  /** A worker passes through the lock. */
  lemma WatchedPass(m: Monitor, agents: seq<Agent>, i: nat, now: Timeval, more: seq<Agent>)
    requires m.p.hiwat >= 1 && Accounted(m, agents) && Timed(m.queue, agents) && Watched(m, agents)
    requires i < |agents| && CanEnter(agents[i]) && (more == [] || more == [Worker(Fresh)])
    ensures var (m1, act) := Pass(Adjust(m, agents[i].ph), now);
            Watched(m1, agents[i := Worker(PhaseAfter(act))] + more)
  {
    var (m1, act) := Pass(Adjust(m, agents[i].ph), now);
    var ph := PhaseAfter(act);
    PassCounts(Adjust(m, agents[i].ph), now);
    PassCovers(m, agents, i, now, more);
    AccountedPass(m, agents, i, act, m1, more);
    CountMoves(agents, i, ph, more, Alive);
    CountMoves(agents, i, ph, more, Unwoken);
    CountMoves(agents, i, ph, more, Awake);
    CountNone(agents, Awake);
    Partition(agents[i := Worker(ph)] + more);
  }

  /** A thread outside the lock moves on outside it. */
  lemma WatchedMove(m: Monitor, agents: seq<Agent>, i: nat, ph: Phase)
    requires Watched(m, agents) && i < |agents|
    requires var a, b := agents[i], agents[i].(ph := ph);
             !Unwoken(a) && !Unwoken(b) && Alive(a) == Alive(b)
    ensures Watched(m, agents[i := agents[i].(ph := ph)])
  {
    var b := agents[i].(ph := ph);
    CountUpdate(agents, i, b, Alive);
    CountUpdate(agents, i, b, Unwoken);
    CountUpdate(agents, i, b, Awake);
    if m.queue != [] && Covered(m, agents) {
      CoveredElsewhere(m, agents, i, ph, [], m);
      assert agents[i := b] + [] == agents[i := b];
    }
  }

  /** A waiter wakes, for whatever reason. */
  lemma WatchedWake(m: Monitor, agents: seq<Agent>, i: nat)
    requires Accounted(m, agents) && i < |agents| && Unwoken(agents[i])
    ensures Watched(m, agents[i := Worker(Woken)])
  {
    var b := Worker(Woken);
    CountUpdate(agents, i, b, Alive);
    CountUpdate(agents, i, b, Unwoken);
    CountUpdate(agents, i, b, Awake);
    CountNone(agents, Unwoken);
    Partition(agents);
    Partition(agents[i := b]);
  }

  /** An event enters the list behind the head. */
  lemma WatchedBehind(m: Monitor, agents: seq<Agent>, m1: Monitor)
    requires Watched(m, agents) && m1.p == m.p && m1.finish == m.finish
    requires m.queue != [] && m1.queue != [] && m1.queue[0] == m.queue[0]
    ensures Watched(m1, agents)
  {
    if Covered(m, agents) {
      var j :| 0 <= j < |agents| && Covers(agents[j], m);
      assert Covers(agents[j], m1);
    }
  }

  /** With nobody asleep, any list is watched. */
  lemma WatchedNobodyAsleep(m: Monitor, agents: seq<Agent>, m1: Monitor)
    requires m.p.hiwat >= 1 && Watched(m, agents) && m1.p == m.p && m1.finish == m.finish
    requires forall j | 0 <= j < |agents| :: !Unwoken(agents[j])
    ensures Watched(m1, agents)
  {
    CountNone(agents, Unwoken);
    Partition(agents);
  }

  /** An event enters the list, and the worker it signals, if any is asleep, wakes. */
  lemma WatchedPut(s: System, i: nat, w: nat)
    requires s.m.p.hiwat >= 1 && Accounted(s.m, s.agents) && Watched(s.m, s.agents)
    requires Can(s, PutEvent(i, w))
    ensures var t := Do(s, PutEvent(i, w)); Watched(t.m, t.agents)
  {
    var e := s.agents[i].ph.e;
    var m, agents := Accept(s.m, e), At(s, i, Returning);
    AccountedMove(s.m, m, s.agents, i, Returning);
    WatchedMove(s.m, s.agents, i, Returning);
    if !Signals(s.m, e) {
      WatchedBehind(s.m, agents, m);
    } else if w < |agents| && Unwoken(agents[w]) {
      WatchedWake(m, agents, w);
    } else {
      assert forall j | 0 <= j < |agents| :: Unwoken(agents[j]) ==> Unwoken(s.agents[j]);
      WatchedNobodyAsleep(s.m, agents, m);
    }
  }

  /** With `hiwat` at least one, the last worker only leaves a finishing queue. */
  lemma SignalledStep(s: System, step: Step)
    requires s.m.p.hiwat >= 1 && Accounted(s.m, s.agents)
    requires Can(s, step) && (s.signalled ==> s.m.finish)
    ensures Do(s, step).signalled ==> Do(s, step).m.finish
  {
    if step.Section? && !s.m.finish {
      AccountedSection(s, step.i, step.now, step.spawn);
      PassCounts(Adjust(s.m, s.agents[step.i].ph), step.now);
      Partition(Do(s, step).agents);
    }
  }

  lemma WatchedStep(s: System, step: Step)
    requires s.m.p.hiwat >= 1 && Accounted(s.m, s.agents) && Timed(s.m.queue, s.agents) && Watched(s.m, s.agents)
    requires Can(s, step)
    ensures var t := Do(s, step); Watched(t.m, t.agents)
  {
    match step
    case Section(i, now, spawn) =>
      WatchedPass(s.m, s.agents, i, now, if spawn then [Worker(Fresh)] else []);
    case WaitReturns(i) =>
      WatchedWake(s.m, s.agents, i);
    case RunHandler(i, env) =>
      WatchedMove(s.m, s.agents, i, Do(s, step).agents[i].ph);
    case TestFinish(i) =>
      WatchedMove(s.m, s.agents, i, Do(s, step).agents[i].ph);
    case PutEvent(i, w) =>
      WatchedPut(s, i, w);
    case _ =>
  }
}
