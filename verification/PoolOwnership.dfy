/** Exactly-once dispatch and exclusive ownership of the clients, over every schedule. */
module PoolOwnership {
  import opened Timeval
  import opened Clients
  import opened EventQueue
  import opened Counting
  import opened WorkerPool

  // ----- Exactly once -----

  lemma ConservedPass(m: Monitor, now: Timeval)
    ensures var (m1, act) := Pass(m, now);
            multiset(m.queue) == multiset(m1.queue) + if act.Dispatch? then multiset{act.e} else multiset{}
  {
    if m.queue != [] {
      assert m.queue == [m.queue[0]] + m.queue[1..];
    }
  }

  lemma ConservedSection(s: System, i: nat, now: Timeval, spawn: bool)
    requires Conserved(s) && Can(s, Section(i, now, spawn))
    ensures Conserved(Do(s, Section(i, now, spawn)))
  {
    ConservedPass(Adjust(s.m, s.agents[i].ph), now);
  }

  lemma ConservedInsert(q: seq<Event>, e: Event, accepted: multiset<Event>, dispatched: multiset<Event>)
    requires accepted == multiset(q) + dispatched
    ensures accepted + multiset{e} == multiset(Insert(q, e)) + dispatched
  {
    InsertContents(q, e);
  }

  lemma ConservedPut(s: System, i: nat, w: nat)
    requires Conserved(s) && Can(s, PutEvent(i, w))
    ensures Conserved(Do(s, PutEvent(i, w)))
  {
    var e, t := s.agents[i].ph.e, Do(s, PutEvent(i, w));
    ConservedInsert(s.m.queue, e, s.accepted, s.dispatched);
    assert t.m.queue == Insert(s.m.queue, e) && t.accepted == s.accepted + multiset{e} && t.dispatched == s.dispatched;
  }

  lemma ConservedStep(s: System, step: Step)
    requires Conserved(s) && Can(s, step)
    ensures Conserved(Do(s, step))
  {
    match step
    case Section(i, now, spawn) => ConservedSection(s, i, now, spawn);
    case PutEvent(i, w) => ConservedPut(s, i, w);
    case _ =>
      var t := Do(s, step);
      assert t.m.queue == s.m.queue && t.accepted == s.accepted && t.dispatched == s.dispatched;
  }

  // ----- One owner -----

  lemma HoldsMoves(agents: seq<Agent>, i: nat, ph: Phase, more: seq<Agent>, c: nat)
    requires i < |agents| && (more == [] || more == [Worker(Fresh)])
    ensures Count(agents[i := agents[i].(ph := ph)] + more, Holds(c)) ==
            Count(agents, Holds(c)) - (if Holds(c)(agents[i]) then 1 else 0)
            + (if Holds(c)(agents[i].(ph := ph)) then 1 else 0)
  {
    CountUpdate(agents, i, agents[i].(ph := ph), Holds(c));
    CountConcat(agents[i := agents[i].(ph := ph)], more, Holds(c));
    CountNone(more, Holds(c));
  }

  lemma OwnedStart(p: Params, n: nat)
    ensures Owned(Boot(p, n))
  {
    var ws, starters := Workers(p.lowat), Starters(n);
    forall c | 0 <= c < n ensures Count(ws + starters, Holds(c)) == 1 {
      assert forall i | 0 <= i < |starters| :: Holds(c)(starters[i]) <==> i == c;
      CountConcat(ws, starters, Holds(c));
      CountNone(ws, Holds(c));
      CountOne(starters, c, Holds(c));
    }
  }

  lemma TokensPass(m: Monitor, agents: seq<Agent>, i: nat, now: Timeval, more: seq<Agent>, c: nat)
    requires i < |agents| && CanEnter(agents[i]) && (more == [] || more == [Worker(Fresh)])
    ensures var (m1, act) := Pass(Adjust(m, agents[i].ph), now);
            Tokens(m1.queue, agents[i := Worker(PhaseAfter(act))] + more, c) == Tokens(m.queue, agents, c)
  {
    HoldsMoves(agents, i, PhaseAfter(Pass(Adjust(m, agents[i].ph), now).1), more, c);
    if m.queue != [] {
      CountTail(m.queue, Names(c));
    }
  }

  lemma TokensPut(q: seq<Event>, agents: seq<Agent>, i: nat, c: nat)
    requires i < |agents| && agents[i].ph.Inserting?
    ensures Tokens(Insert(q, agents[i].ph.e), agents[i := agents[i].(ph := Returning)], c) == Tokens(q, agents, c)
  {
    var e := agents[i].ph.e;
    var k := Place(q, e.time);
    CountUpdate(agents, i, agents[i].(ph := Returning), Holds(c));
    CountSplice(q[..k], e, q[k..], Names(c));
    assert q[..k] + q[k..] == q;
  }

  lemma TokensWake(q: seq<Event>, agents: seq<Agent>, w: nat, c: nat)
    requires w < |agents| && Unwoken(agents[w])
    ensures Tokens(q, agents[w := Worker(Woken)], c) == Tokens(q, agents, c)
  {
    CountUpdate(agents, w, Worker(Woken), Holds(c));
  }

  lemma OwnedPut(s: System, i: nat, w: nat)
    requires Owned(s) && Can(s, PutEvent(i, w))
    ensures Owned(Do(s, PutEvent(i, w)))
  {
    var q, agents := Insert(s.m.queue, s.agents[i].ph.e), At(s, i, Returning);
    forall c | 0 <= c < |s.clients|
      ensures Tokens(Do(s, PutEvent(i, w)).m.queue, Do(s, PutEvent(i, w)).agents, c) == Tokens(s.m.queue, s.agents, c)
    {
      TokensPut(s.m.queue, s.agents, i, c);
      if w < |agents| && Unwoken(agents[w]) {
        TokensWake(q, agents, w, c);
      }
    }
  }

  lemma OwnedHandler(s: System, i: nat, env: Env)
    requires Owned(s) && Can(s, RunHandler(i, env))
    ensures Owned(Do(s, RunHandler(i, env)))
  {
    var t := Do(s, RunHandler(i, env));
    forall c | 0 <= c < |s.clients|
      ensures Tokens(t.m.queue, t.agents, c) + t.finished[c] == Tokens(s.m.queue, s.agents, c) + s.finished[c]
    {
      CountUpdate(s.agents, i, t.agents[i], Holds(c));
    }
  }

  lemma OwnedTest(s: System, i: nat)
    requires Owned(s) && Can(s, TestFinish(i))
    ensures Owned(Do(s, TestFinish(i)))
  {
    var t := Do(s, TestFinish(i));
    forall c | 0 <= c < |s.clients|
      ensures Tokens(t.m.queue, t.agents, c) + t.abandoned[c] == Tokens(s.m.queue, s.agents, c) + s.abandoned[c]
    {
      CountUpdate(s.agents, i, t.agents[i], Holds(c));
    }
  }

  lemma OwnedStep(s: System, step: Step)
    requires Owned(s) && Can(s, step)
    ensures Owned(Do(s, step))
  {
    match step
    case Section(i, now, spawn) =>
      forall c | 0 <= c < |s.clients|
        ensures Tokens(Do(s, step).m.queue, Do(s, step).agents, c) == Tokens(s.m.queue, s.agents, c)
      {
        TokensPass(s.m, s.agents, i, now, if spawn then [Worker(Fresh)] else [], c);
      }
    case RunHandler(i, env) => OwnedHandler(s, i, env);
    case TestFinish(i) => OwnedTest(s, i);
    case PutEvent(i, w) => OwnedPut(s, i, w);
    case WaitReturns(i) =>
      forall c | 0 <= c < |s.clients|
        ensures Tokens(s.m.queue, Do(s, step).agents, c) == Tokens(s.m.queue, s.agents, c)
      {
        TokensWake(s.m.queue, s.agents, i, c);
      }
    case Broadcast =>
      forall c | 0 <= c < |s.clients| ensures Count(Do(s, step).agents, Holds(c)) == Count(s.agents, Holds(c)) {
        CountSame(s.agents, Do(s, step).agents, Holds(c));
      }
    case _ =>
  }

  /** Whoever handles a client is the only one who may: no other agent has it, no event
      names it, and it has neither been finished nor abandoned. */
  lemma SoleOwner(s: System, i: nat)
    requires Owned(s) && i < |s.agents| && HasEvent(s.agents[i]) && s.agents[i].ph.e.arg < |s.clients|
    ensures var c := s.agents[i].ph.e.arg;
            && (forall j | 0 <= j < |s.agents| && j != i :: HasEvent(s.agents[j]) ==> s.agents[j].ph.e.arg != c)
            && (forall k | 0 <= k < |s.m.queue| :: s.m.queue[k].arg != c)
            && s.finished[c] == 0 && s.abandoned[c] == 0
  {
    var c := s.agents[i].ph.e.arg;
    CountNone(s.agents, Holds(c));
    CountNone(s.m.queue, Names(c));
    assert Holds(c)(s.agents[i]);
    assert Tokens(s.m.queue, s.agents, c) + s.finished[c] + s.abandoned[c] == 1;
    assert forall k | 0 <= k < |s.m.queue| :: !Names(c)(s.m.queue[k]);
    forall j | 0 <= j < |s.agents| && j != i && Holds(c)(s.agents[j]) ensures false {
      CountTwo(s.agents, if i < j then i else j, if i < j then j else i, Holds(c));
    }
    assert forall j | 0 <= j < |s.agents| && j != i :: !Holds(c)(s.agents[j]);
  }

  // ----- The state handlers find -----

  /** Changing one client leaves the events of the others fitting. */
  lemma FittingOthers(s: System, i: nat, c: Client)
    requires Owned(s) && Fitting(s) && i < |s.agents| && HasEvent(s.agents[i])
    ensures s.agents[i].ph.e.arg < |s.clients|
    ensures var clients := s.clients[s.agents[i].ph.e.arg := c];
            && (forall k | 0 <= k < |s.m.queue| :: EventFits(clients, s.m.queue[k]))
            && (forall j | 0 <= j < |s.agents| && j != i :: AgentFits(clients, s.agents[j]))
  {
    assert AgentFits(s.clients, s.agents[i]);
    SoleOwner(s, i);
    var clients := s.clients[s.agents[i].ph.e.arg := c];
    forall k | 0 <= k < |s.m.queue| ensures EventFits(clients, s.m.queue[k]) {
      assert EventFits(s.clients, s.m.queue[k]);
    }
    forall j | 0 <= j < |s.agents| && j != i ensures AgentFits(clients, s.agents[j]) {
      assert AgentFits(s.clients, s.agents[j]);
    }
  }

  lemma FittingHandler(s: System, i: nat, env: Env)
    requires Owned(s) && Fitting(s) && Can(s, RunHandler(i, env))
    ensures Fitting(Do(s, RunHandler(i, env)))
  {
    var e := s.agents[i].ph.e;
    var (c, exit) := Handle(e.func, s.clients[e.arg], env);
    assert AgentFits(s.clients, s.agents[i]);
    HandleKeepsFit(e.func, s.clients[e.arg], env);
    FittingOthers(s, i, c);
  }

  lemma EndedHandler(s: System, i: nat, env: Env)
    requires Owned(s) && Fitting(s) && EndedWell(s) && Can(s, RunHandler(i, env))
    ensures EndedWell(Do(s, RunHandler(i, env)))
  {
    var e, t := s.agents[i].ph.e, Do(s, RunHandler(i, env));
    SoleOwner(s, i);
    assert AgentFits(s.clients, s.agents[i]);
    HandleKeepsFit(e.func, s.clients[e.arg], env);
    forall c | 0 <= c < |t.clients| ensures EndsWell(t.clients[c], t.finished[c], t.expired) {
      assert EndsWell(s.clients[c], s.finished[c], s.expired);
      assert c != e.arg ==> t.clients[c] == s.clients[c] && t.finished[c] == s.finished[c];
    }
  }

  lemma FittingInsert(clients: seq<Client>, q: seq<Event>, e: Event)
    requires EventFits(clients, e) && forall k | 0 <= k < |q| :: EventFits(clients, q[k])
    ensures forall k | 0 <= k < |Insert(q, e)| :: EventFits(clients, Insert(q, e)[k])
  {
    forall k | 0 <= k < |Insert(q, e)| ensures EventFits(clients, Insert(q, e)[k]) {
      var p := Place(q, e.time);
      assert Insert(q, e)[k] == if k < p then q[k] else if k == p then e else q[k - 1];
    }
  }

  lemma FittingPut(s: System, i: nat, w: nat)
    requires Fitting(s) && Can(s, PutEvent(i, w))
    ensures Fitting(Do(s, PutEvent(i, w)))
  {
    var e, t := s.agents[i].ph.e, Do(s, PutEvent(i, w));
    assert AgentFits(s.clients, s.agents[i]);
    FittingInsert(s.clients, s.m.queue, e);
    assert t.m.queue == Insert(s.m.queue, e) && t.clients == s.clients && |t.agents| == |s.agents|;
    forall j | 0 <= j < |t.agents| ensures AgentFits(s.clients, t.agents[j]) {
      assert AgentFits(s.clients, s.agents[j]);
    }
  }

  lemma FittingSection(s: System, i: nat, now: Timeval, spawn: bool)
    requires Fitting(s) && Can(s, Section(i, now, spawn))
    ensures Fitting(Do(s, Section(i, now, spawn)))
  {
  }

  lemma FittingStep(s: System, step: Step)
    requires Owned(s) && Fitting(s) && EndedWell(s) && Can(s, step)
    ensures Fitting(Do(s, step)) && EndedWell(Do(s, step))
  {
    match step
    case RunHandler(i, env) =>
      FittingHandler(s, i, env);
      EndedHandler(s, i, env);
    case PutEvent(i, w) => FittingPut(s, i, w);
    case Section(i, now, spawn) => FittingSection(s, i, now, spawn);
    case TestFinish(i) => assert AgentFits(s.clients, s.agents[i]);
    case _ =>
  }
}
