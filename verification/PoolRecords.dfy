/** What handlers keep for every client and the event that is to be handled for it next, the
    pool keeps: events only move from hand to hand between two handlers of a client. */
module PoolRecords {
  import opened Timeval
  import opened Clients
  import opened EventQueue
  import opened WorkerPool
  import opened PoolOwnership

  /** The handler runs of a client, in order. The first of them chooses a command, and the
      k-th after it makes the k-th call of the client, unless it ends the client without one. */
  ghost function RunsOf(journal: seq<Ran>, c: nat): seq<Ran> {
    if journal == [] then []
    else
      var last := journal[|journal| - 1];
      RunsOf(journal[..|journal| - 1], c) + if last.e.arg == c then [last] else []
  }

  type Await = (Client, seq<Ran>, Event) -> bool
  type Past = (Client, seq<Ran>, bool) -> bool

  ghost predicate EventTold(await: Await, clients: seq<Client>, journal: seq<Ran>, e: Event) {
    e.arg < |clients| && await(clients[e.arg], RunsOf(journal, e.arg), e)
  }

  ghost predicate AgentTold(await: Await, clients: seq<Client>, journal: seq<Ran>, a: Agent) {
    HasEvent(a) ==> EventTold(await, clients, journal, a.ph.e)
  }

  /** `await` holds of every client and the event that is to be handled for it next, and `past` of
      every client and of whether it is finished. */
  ghost predicate Recorded(await: Await, past: Past, s: System) {
    && (forall k | 0 <= k < |s.m.queue| :: EventTold(await, s.clients, s.journal, s.m.queue[k]))
    && (forall i | 0 <= i < |s.agents| :: AgentTold(await, s.clients, s.journal, s.agents[i]))
    && (forall c | 0 <= c < |s.clients| :: past(s.clients[c], RunsOf(s.journal, c), s.finished[c] > 0))
  }

  lemma {:induction false} RunsOfMore(journal: seq<Ran>, ran: Ran, c: nat)
    ensures RunsOf(journal + [ran], c) == RunsOf(journal, c) + if ran.e.arg == c then [ran] else []
  {
    assert (journal + [ran])[..|journal|] == journal;
  }

  /** A run of a handler leaves the story of the other clients as it is. */
  lemma RecordedOthers(await: Await, past: Past, s: System, i: nat, c: Client, ran: Ran)
    requires Owned(s) && Fitting(s) && Recorded(await, past, s)
    requires i < |s.agents| && HasEvent(s.agents[i]) && ran.e == s.agents[i].ph.e
    ensures ran.e.arg < |s.clients|
    ensures var clients, journal := s.clients[ran.e.arg := c], s.journal + [ran];
            && (forall k | 0 <= k < |s.m.queue| :: EventTold(await, clients, journal, s.m.queue[k]))
            && (forall j | 0 <= j < |s.agents| && j != i :: AgentTold(await, clients, journal, s.agents[j]))
            && (forall d | 0 <= d < |s.clients| && d != ran.e.arg ::
                  past(clients[d], RunsOf(journal, d), s.finished[d] > 0))
  {
    assert AgentFits(s.clients, s.agents[i]);
    SoleOwner(s, i);
    forall d: nat ensures d != ran.e.arg ==> RunsOf(s.journal + [ran], d) == RunsOf(s.journal, d) {
      RunsOfMore(s.journal, ran, d);
    }
    var clients, journal := s.clients[ran.e.arg := c], s.journal + [ran];
    forall k | 0 <= k < |s.m.queue| ensures EventTold(await, clients, journal, s.m.queue[k]) {
      assert EventTold(await, s.clients, s.journal, s.m.queue[k]);
    }
    forall j | 0 <= j < |s.agents| && j != i ensures AgentTold(await, clients, journal, s.agents[j]) {
      assert AgentTold(await, s.clients, s.journal, s.agents[j]);
    }
  }

  lemma HandlerDoes(s: System, i: nat, env: Env)
    requires Can(s, RunHandler(i, env))
    ensures var e, t := s.agents[i].ph.e, Do(s, RunHandler(i, env));
            var (c, exit) := Handle(e.func, s.clients[e.arg], env);
            && t.m == s.m && t.clients == s.clients[e.arg := c] && t.journal == s.journal + [Ran(e, env)]
            && |t.agents| == |s.agents| && t.agents == s.agents[i := t.agents[i]]
            && t.finished == (if exit.Done? then s.finished + multiset{e.arg} else s.finished)
            && (exit.Schedule? ==> t.agents[i].ph == Submitting(Event(exit.func, e.arg, exit.time)))
            && (exit.Done? ==> t.agents[i].ph == Returning)
  {
  }

  lemma RecordedHandler(await: Await, past: Past, s: System, i: nat, env: Env)
    requires Owned(s) && Fitting(s) && Recorded(await, past, s) && Can(s, RunHandler(i, env))
    requires var e := s.agents[i].ph.e;
             var (c, exit) := Handle(e.func, s.clients[e.arg], env);
             var rs := RunsOf(s.journal, e.arg) + [Ran(e, env)];
             && past(c, rs, exit.Done?)
             && (exit.Schedule? ==> await(c, rs, Event(exit.func, e.arg, exit.time)))
    ensures Recorded(await, past, Do(s, RunHandler(i, env)))
  {
    var e := s.agents[i].ph.e;
    var t, ran := Do(s, RunHandler(i, env)), Ran(e, env);
    HandlerDoes(s, i, env);
    HandlerKeeps(await, past, s, i, ran, t);
  }

  lemma HandlerKeeps(await: Await, past: Past, s: System, i: nat, ran: Ran, t: System)
    requires Owned(s) && Fitting(s) && Recorded(await, past, s)
    requires i < |s.agents| && s.agents[i].ph == Running(ran.e) && ran.e.arg < |s.clients| == |t.clients|
    requires t.m == s.m && t.clients == s.clients[ran.e.arg := t.clients[ran.e.arg]] && t.journal == s.journal + [ran]
    requires |t.agents| == |s.agents| && t.agents == s.agents[i := t.agents[i]]
    requires t.finished == s.finished || t.finished == s.finished + multiset{ran.e.arg}
    requires var c, rs := t.clients[ran.e.arg], RunsOf(s.journal, ran.e.arg) + [ran];
             && past(c, rs, t.finished != s.finished)
             && (HasEvent(t.agents[i]) ==> t.agents[i].ph.e.arg == ran.e.arg && await(c, rs, t.agents[i].ph.e))
    ensures Recorded(await, past, t)
  {
    var c := t.clients[ran.e.arg];
    RecordedOthers(await, past, s, i, c, ran);
    RunsOfMore(s.journal, ran, ran.e.arg);
    SoleOwner(s, i);
    AgentsAfter(await, t.clients, t.journal, s.agents, i, t.agents);
    PastAfter(past, s.clients, s.journal, s.finished, ran, c, t.finished);
  }

  lemma AgentsAfter(await: Await, clients: seq<Client>, journal: seq<Ran>, agents: seq<Agent>, i: nat,
                    after: seq<Agent>)
    requires i < |agents| == |after| && after == agents[i := after[i]] && AgentTold(await, clients, journal, after[i])
    requires forall j | 0 <= j < |agents| && j != i :: AgentTold(await, clients, journal, agents[j])
    ensures forall j | 0 <= j < |agents| :: AgentTold(await, clients, journal, after[j])
  {
  }

  lemma {:induction false} PastAfter(past: Past, clients: seq<Client>, journal: seq<Ran>,
                                        finished: multiset<nat>, ran: Ran, c: Client, finished1: multiset<nat>)
    requires ran.e.arg < |clients| && finished[ran.e.arg] == 0
    requires finished1 == finished || finished1 == finished + multiset{ran.e.arg}
    requires forall d | 0 <= d < |clients| && d != ran.e.arg ::
               past(clients[d], RunsOf(journal + [ran], d), finished[d] > 0)
    requires past(c, RunsOf(journal + [ran], ran.e.arg), finished1 != finished)
    ensures forall d | 0 <= d < |clients| ::
              past(clients[ran.e.arg := c][d], RunsOf(journal + [ran], d), finished1[d] > 0)
  {
    assert finished1[ran.e.arg] > 0 <==> finished1 != finished;
  }

  lemma RecordedInsert(await: Await, clients: seq<Client>, journal: seq<Ran>, q: seq<Event>, e: Event)
    requires EventTold(await, clients, journal, e)
    requires forall k | 0 <= k < |q| :: EventTold(await, clients, journal, q[k])
    ensures forall k | 0 <= k < |Insert(q, e)| :: EventTold(await, clients, journal, Insert(q, e)[k])
  {
    forall k | 0 <= k < |Insert(q, e)| ensures EventTold(await, clients, journal, Insert(q, e)[k]) {
      var p := Place(q, e.time);
      assert Insert(q, e)[k] == if k < p then q[k] else if k == p then e else q[k - 1];
    }
  }

  lemma RecordedPut(await: Await, past: Past, s: System, i: nat, w: nat)
    requires Recorded(await, past, s) && Can(s, PutEvent(i, w))
    ensures Recorded(await, past, Do(s, PutEvent(i, w)))
  {
    var e, t := s.agents[i].ph.e, Do(s, PutEvent(i, w));
    assert AgentTold(await, s.clients, s.journal, s.agents[i]);
    RecordedInsert(await, s.clients, s.journal, s.m.queue, e);
    assert t.m.queue == Insert(s.m.queue, e) && t.clients == s.clients && |t.agents| == |s.agents|;
    forall j | 0 <= j < |t.agents| ensures AgentTold(await, s.clients, s.journal, t.agents[j]) {
      assert AgentTold(await, s.clients, s.journal, s.agents[j]);
    }
  }

  lemma RecordedSection(await: Await, past: Past, s: System, i: nat, now: Timeval, spawn: bool)
    requires Recorded(await, past, s) && Can(s, Section(i, now, spawn))
    ensures Recorded(await, past, Do(s, Section(i, now, spawn)))
  {
  }

  lemma RecordedTest(await: Await, past: Past, s: System, i: nat)
    requires Recorded(await, past, s) && Can(s, TestFinish(i))
    ensures Recorded(await, past, Do(s, TestFinish(i)))
  {
    assert AgentTold(await, s.clients, s.journal, s.agents[i]);
  }
}
