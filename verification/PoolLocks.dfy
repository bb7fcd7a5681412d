/** The linked list under its lock performs the steps of the pool: what EventQueue.Queue does in
    place is what a step of WorkerPool does to the monitor. */
module PoolLocks {
  import opened Timeval
  import opened Counting
  import opened EventQueue
  import opened WorkerPool

  /** The section of worker `i`, which is at the start, back from a wait or back from a handler. */
  method TakeSection(q: Queue, ghost s: System, ghost i: nat, ph: Phase, now: Timeval)
    returns (create: bool, act: Action)
    requires q.Valid() && q.View() == s.m
    requires i < |s.agents| && s.agents[i] == Worker(ph) && CanEnter(s.agents[i])
    modifies q
    ensures create <==> ph.Woken? && s.m.waiting <= s.m.p.lowat && !s.m.finish
    ensures Accounted(s.m, s.agents) ==>
              (create <==> ph.Woken? && Count(s.agents, InWait) <= s.m.p.lowat && !s.m.finish)
    ensures q.Valid() && Can(s, Section(i, now, create))
    ensures q.View() == Do(s, Section(i, now, create)).m
    ensures Do(s, Section(i, now, create)).agents == At(s, i, PhaseAfter(act)) + if create then [Worker(Fresh)] else []
  {
    SectionIsEnterOrResume(s.m, now);
    create := false;
    if ph.Fresh? {
      act := q.EnterLocked(now);
    } else if ph.Woken? {
      create, act := q.ResumeLocked(now);
    } else {
      act := q.PassLocked(now);
    }
  }

  /** The section in which agent `i` inserts the event it has made. */
  method TakePut(q: Queue, ghost s: System, ghost i: nat, e: Event, ghost w: nat) returns (signal: bool)
    requires q.Valid() && q.View() == s.m
    requires i < |s.agents| && s.agents[i].ph == Inserting(e) && Can(s, PutEvent(i, w))
    modifies q, q.spine
    ensures q.Valid() && q.View() == Do(s, PutEvent(i, w)).m && signal == Signals(s.m, e)
    ensures signal && w < |s.agents| && Unwoken(s.agents[w]) ==> IsWoken(Do(s, PutEvent(i, w)).agents[w])
    ensures !signal ==> Do(s, PutEvent(i, w)).agents == At(s, i, Returning)
    ensures Timed(s.m.queue, s.agents) ==>
              (signal <==> forall x | x in s.m.queue :: e.time.Micros() <= x.time.Micros())
  {
    signal := q.InsertLocked(e);
    if Timed(s.m.queue, s.agents) {
      FirstIsEarliest(s.m.queue, e);
    }
  }
}
