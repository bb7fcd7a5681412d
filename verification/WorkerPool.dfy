/** Every interleaving of the worker pool, the client handlers and the shutdown: the
    locked sections of EventQueue and the handlers of Clients, as atomic steps. */
module WorkerPool {
  import opened Timeval
  import opened Clients
  import opened EventQueue
  import opened Counting
  import Runs

  /** Where a thread is between two atomic steps. Waits return when signalled, when
      their deadline passes, or spuriously. */
  datatype Phase =
    | Fresh
    | Asleep
    | AsleepUntil(deadline: int)
    | Woken
    | Running(e: Event)
    | Submitting(e: Event)
    | Inserting(e: Event)
    | Returning
    | Exited

  /** A pool worker, or the main thread at work on starting one client. */
  datatype Agent = Worker(ph: Phase) | Starter(ph: Phase)

  /** A handler run: the event that led to it, and what it observed. */
  datatype Ran = Ran(e: Event, env: Env)

  /** `accepted`, `dispatched`, `finished`, `abandoned` and `journal` record the history: events
      put into the list and popped from it, clients counted in FinishedThreads, clients whose
      next event was refused because the queue was finishing, and the handler runs in order. */
  datatype System = System(
    m: Monitor, agents: seq<Agent>, clients: seq<Client>, expired: int, signalled: bool,
    accepted: multiset<Event>, dispatched: multiset<Event>, finished: multiset<nat>, abandoned: multiset<nat>,
    journal: seq<Ran>)

  const NEW_CLIENT := Client(false, 0, 0, Timeval(0, 0), 0, 0, [])

  function StarterOf(c: nat): Agent {
    Starter(Running(Event(ClientInit, c, Timeval(0, 0))))
  }

  function Workers(lowat: int): seq<Agent> {
    seq(if lowat < 0 then 0 else lowat, _ => Worker(Fresh))
  }

  function Starters(n: nat): seq<Agent> {
    seq(n, c requires 0 <= c => StarterOf(c))
  }

  /** The queue has just been created with its first workers; the main thread is about to
      start `n` clients. */
  function Boot(p: Params, n: nat): System {
    System(Monitor(p, [], 0, 0, false), Workers(p.lowat) + Starters(n), seq(n, _ => NEW_CLIENT),
           0, false, multiset{}, multiset{}, multiset{}, multiset{}, [])
  }

  datatype Step =
    | Section(i: nat, now: Timeval, spawn: bool)
    | WaitReturns(i: nat)
    | RunHandler(i: nat, env: Env)
    | TestFinish(i: nat)
    | PutEvent(i: nat, w: nat)
    | SetFinish
    | Broadcast
    | Expire(level: int)

  predicate Unwoken(a: Agent) {
    a.Worker? && (a.ph.Asleep? || a.ph.AsleepUntil?)
  }

  predicate IsWoken(a: Agent) {
    a.Worker? && a.ph.Woken?
  }

  predicate InWait(a: Agent) {
    Unwoken(a) || IsWoken(a)
  }

  predicate Entered(a: Agent) {
    a.Worker? && !a.ph.Fresh? && !a.ph.Exited?
  }

  predicate Alive(a: Agent) {
    a.Worker? && !a.ph.Exited?
  }

  predicate Awake(a: Agent) {
    Alive(a) && !Unwoken(a)
  }

  predicate HasEvent(a: Agent) {
    a.ph.Running? || a.ph.Submitting? || a.ph.Inserting?
  }

  /** The lock is about to be taken by a worker at the start, after a wait, or after a handler. */
  predicate CanEnter(a: Agent) {
    a.Worker? && (a.ph.Fresh? || a.ph.Woken? || a.ph.Returning?)
  }

  /** The counter update that precedes the loop test in each of these cases. */
  function Adjust(m: Monitor, ph: Phase): Monitor {
    if ph.Fresh? then m.(threads := m.threads + 1) else if ph.Woken? then m.(waiting := m.waiting - 1) else m
  }

  lemma SectionIsEnterOrResume(m: Monitor, now: Timeval)
    ensures Pass(Adjust(m, Fresh), now) == Enter(m, now)
    ensures Pass(Adjust(m, Woken), now) == Resume(m, now)
  {
  }

  /** `spawn`: a thread was created on the way. Creating one may fail, so it need not be. */
  predicate Can(s: System, step: Step) {
    match step
    case Section(i, now, spawn) =>
      i < |s.agents| && CanEnter(s.agents[i]) && (spawn ==> s.agents[i].ph.Woken? && WantsWorker(s.m))
    case WaitReturns(i) => i < |s.agents| && Unwoken(s.agents[i])
    case RunHandler(i, env) =>
      && i < |s.agents| && s.agents[i].ph.Running? && s.agents[i].ph.e.arg < |s.clients|
      && env.Valid() && env.x3 <= s.expired
    case TestFinish(i) => i < |s.agents| && s.agents[i].ph.Submitting?
    case PutEvent(i, w) =>
      && i < |s.agents| && s.agents[i].ph.Inserting?
      && (Signals(s.m, s.agents[i].ph.e) && (exists j | 0 <= j < |s.agents| :: Unwoken(s.agents[j])) ==>
            w < |s.agents| && Unwoken(s.agents[w]))
    case SetFinish => true
    case Broadcast => s.m.finish
    case Expire(level) => s.expired <= level
  }

  function PhaseAfter(act: Action): Phase {
    match act
    case Sleep => Asleep
    case SleepUntil(d) => AsleepUntil(d)
    case Dispatch(e) => Running(e)
    case Leave(_) => Exited
  }

  function At(s: System, i: nat, ph: Phase): seq<Agent>
    requires i < |s.agents|
  {
    s.agents[i := s.agents[i].(ph := ph)]
  }

  function Rouse(a: Agent): Agent {
    if Unwoken(a) then Worker(Woken) else a
  }

  function Do(s: System, step: Step): System
    requires Can(s, step)
  {
    match step
    case Section(i, now, spawn) =>
      var (m, act) := Pass(Adjust(s.m, s.agents[i].ph), now);
      s.(m := m,
         agents := At(s, i, PhaseAfter(act)) + (if spawn then [Worker(Fresh)] else []),
         dispatched := if act.Dispatch? then s.dispatched + multiset{act.e} else s.dispatched,
         signalled := s.signalled || (act.Leave? && act.signalFinished))
    case WaitReturns(i) =>
      s.(agents := At(s, i, Woken))
    case RunHandler(i, env) =>
      var e := s.agents[i].ph.e;
      var (c, exit) := Handle(e.func, s.clients[e.arg], env);
      var s1 := s.(clients := s.clients[e.arg := c], journal := s.journal + [Ran(e, env)]);
      (match exit
       case Schedule(t, f) => s1.(agents := At(s, i, Submitting(Event(f, e.arg, t))))
       case Done => s1.(agents := At(s, i, Returning), finished := s.finished + multiset{e.arg}))
    case TestFinish(i) =>
      var e := s.agents[i].ph.e;
      if s.m.finish then s.(agents := At(s, i, Returning), abandoned := s.abandoned + multiset{e.arg})
      else s.(agents := At(s, i, Inserting(e)))
    case PutEvent(i, w) =>
      var e := s.agents[i].ph.e;
      var s1 := s.(m := Accept(s.m, e), accepted := s.accepted + multiset{e}, agents := At(s, i, Returning));
      if Signals(s.m, e) && w < |s.agents| && Unwoken(s.agents[w]) then s1.(agents := At(s1, w, Woken)) else s1
    case SetFinish =>
      s.(m := s.m.(finish := true))
    case Broadcast =>
      s.(agents := seq(|s.agents|, i requires 0 <= i < |s.agents| => Rouse(s.agents[i])))
    case Expire(level) =>
      s.(expired := level)
  }

  function Next(s: System, step: Step): System {
    if Can(s, step) then Do(s, step) else s
  }

  /** A schedule is a sequence of steps, each possible when its turn comes. */
  ghost predicate Possible(s: System, run: seq<Step>) {
    Runs.Possible(Can, Next, s, run)
  }

  ghost function After(s: System, run: seq<Step>): System {
    Runs.After(Next, s, run)
  }

  // ----- The invariants -----

  /** The main thread is never in the pool. */
  predicate StarterOutside(a: Agent) {
    a.Starter? ==> HasEvent(a) || a.ph.Returning?
  }

  ghost predicate Accounted(m: Monitor, agents: seq<Agent>) {
    && m.waiting == Count(agents, InWait)
    && (m.waiting <= m.p.hiwat || m.waiting == 0)
    && m.threads == Count(agents, Entered)
    && forall i | 0 <= i < |agents| :: StarterOutside(agents[i])
  }

  predicate NormalAgent(a: Agent) {
    HasEvent(a) ==> a.ph.e.time.Normal()
  }

  ghost predicate Timed(q: seq<Event>, agents: seq<Agent>) {
    && Sorted(q) && AllNormal(q)
    && forall i | 0 <= i < |agents| :: NormalAgent(agents[i])
  }

  /** This wait ends in time for the head of the list. */
  predicate Covers(a: Agent, m: Monitor)
    requires m.queue != []
  {
    a.Worker? && a.ph.AsleepUntil? && a.ph.deadline <= m.queue[0].time.Micros() - m.p.minSleep
  }

  ghost predicate Covered(m: Monitor, agents: seq<Agent>)
    requires m.queue != []
  {
    exists i | 0 <= i < |agents| :: Covers(agents[i], m)
  }

  /** The inductive form of "no lost wakeup": the pool is never empty, and while no wait
      covers the head, there is room for one more waiter and a worker on its way to it. */
  ghost predicate Watched(m: Monitor, agents: seq<Agent>) {
    !m.finish ==>
      && Count(agents, Alive) >= 1
      && (m.queue != [] && !Covered(m, agents) ==> Count(agents, Unwoken) < m.p.hiwat && Count(agents, Awake) >= 1)
  }

  /** What the pool promises to the events in the list: some wait ends in time for the
      first of them, or some worker is awake. */
  ghost predicate NoLostWakeup(s: System) {
    !s.m.finish && s.m.queue != [] ==>
      Covered(s.m, s.agents) || exists i | 0 <= i < |s.agents| :: Awake(s.agents[i])
  }

  ghost predicate Conserved(s: System) {
    s.accepted == multiset(s.m.queue) + s.dispatched
  }

  function Holds(c: nat): Agent -> bool {
    (a: Agent) => HasEvent(a) && a.ph.e.arg == c
  }

  function Names(c: nat): Event -> bool {
    (e: Event) => e.arg == c
  }

  /** How many queued events and handler runs there are for a client. */
  ghost function Tokens(q: seq<Event>, agents: seq<Agent>, c: nat): nat {
    Count(agents, Holds(c)) + Count(q, Names(c))
  }

  /** Each client is queued or being handled once, or finished once, or abandoned once. */
  ghost predicate Owned(s: System) {
    forall c | 0 <= c < |s.clients| :: Tokens(s.m.queue, s.agents, c) + s.finished[c] + s.abandoned[c] == 1
  }

  predicate EventFits(clients: seq<Client>, e: Event) {
    e.arg < |clients| && Fits(e.func, clients[e.arg])
  }

  predicate AgentFits(clients: seq<Client>, a: Agent) {
    HasEvent(a) ==> EventFits(clients, a.ph.e)
  }

  /** Whoever is to be handled next is in the state its handler expects. */
  ghost predicate Fitting(s: System) {
    && (forall k | 0 <= k < |s.m.queue| :: EventFits(s.clients, s.m.queue[k]))
    && (forall i | 0 <= i < |s.agents| :: AgentFits(s.clients, s.agents[i]))
  }

  /** A client is only finished after the end of the test, and with its session still
      open only in a forced exit. Its calls are bracketed throughout. */
  predicate EndsWell(c: Client, finished: nat, expired: int) {
    && Bracketed(c.calls)
    && (finished > 0 ==> expired >= EXIT_SOON)
    && (finished > 0 && Open(c.calls) ==> expired >= EXIT_FAST)
  }

  ghost predicate EndedWell(s: System) {
    forall c | 0 <= c < |s.clients| :: EndsWell(s.clients[c], s.finished[c], s.expired)
  }
}
