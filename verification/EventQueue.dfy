/** The event queue of event.c: a time-sorted linked list, the counters of the worker
    pool and the sections of code that run under the queue's lock.

    `Monitor` is the data the lock protects. Each locked section is a function on it,
    and `Queue` is the object that performs those sections in place. */
module EventQueue {
  import opened Timeval
  import opened Clients

  datatype Event = Event(func: Func, arg: nat, time: Timeval)

  datatype Params = Params(minSleep: int, lowat: int, hiwat: int)

  const UNSPEC := -1
  const DEFAULTS := Params(1000, 4, 8)

  datatype Monitor = Monitor(p: Params, queue: seq<Event>, waiting: int, threads: int, finish: bool)

  /** The first place whose event is not earlier than `t`. */
  function Place(q: seq<Event>, t: Timeval): (k: nat)
    ensures k <= |q|
    ensures forall i | 0 <= i < k :: Later(t, q[i].time)
    ensures k < |q| ==> !Later(t, q[k].time)
  {
    if q == [] || !Later(t, q[0].time) then 0 else 1 + Place(q[1..], t)
  }

  function Insert(q: seq<Event>, e: Event): seq<Event> {
    var k := Place(q, e.time);
    q[..k] + [e] + q[k..]
  }

  ghost predicate Sorted(q: seq<Event>) {
    forall i, j | 0 <= i < j < |q| :: !Later(q[i].time, q[j].time)
  }

  predicate AllNormal(q: seq<Event>) {
    forall i | 0 <= i < |q| :: q[i].time.Normal()
  }

  /** On normalised times, sorted under timercmp means sorted by instant. */
  lemma SortedIsMicros(q: seq<Event>)
    requires AllNormal(q)
    ensures Sorted(q) <==> ByInstant(q)
  {
    forall i, j | 0 <= i < j < |q|
      ensures Later(q[i].time, q[j].time) <==> q[i].time.Micros() > q[j].time.Micros()
    {
      LaterIsMicros(q[i].time, q[j].time);
    }
  }

  /** In a sorted list the events before the place are exactly the earlier ones. */
  lemma {:induction false} PlaceSplits(q: seq<Event>, t: Timeval, i: nat)
    requires Sorted(q) && AllNormal(q) && t.Normal() && i < |q|
    ensures i < Place(q, t) <==> q[i].time.Micros() < t.Micros()
  {
    var k := Place(q, t);
    LaterIsMicros(t, q[i].time);
    if k < i {
      LaterIsMicros(t, q[k].time);
      LaterIsMicros(q[k].time, q[i].time);
    }
  }

  lemma InsertContents(q: seq<Event>, e: Event)
    ensures multiset(Insert(q, e)) == multiset(q) + multiset{e}
  {
    var k := Place(q, e.time);
    assert q == q[..k] + q[k..];
  }

  ghost predicate ByInstant(q: seq<Event>) {
    forall i, j | 0 <= i < j < |q| :: q[i].time.Micros() <= q[j].time.Micros()
  }

  lemma SpliceByInstant(q: seq<Event>, e: Event, k: nat, r: seq<Event>)
    requires k <= |q| && ByInstant(q) && AllNormal(q) && e.time.Normal()
    requires forall i | 0 <= i < |q| :: i < k <==> q[i].time.Micros() < e.time.Micros()
    requires r == q[..k] + [e] + q[k..]
    ensures ByInstant(r) && AllNormal(r)
    ensures r[k] == e
    ensures forall i | 0 <= i < k :: r[i].time.Micros() < e.time.Micros()
    ensures forall i | k < i <= |q| :: e.time.Micros() <= r[i].time.Micros()
  {
  }

  /** Inserting keeps the list sorted. Among events due at the same instant the newest
      goes first. */
  lemma {:induction false} InsertSorted(q: seq<Event>, e: Event)
    requires Sorted(q) && AllNormal(q) && e.time.Normal()
    ensures Sorted(Insert(q, e)) && AllNormal(Insert(q, e))
    ensures var k := Place(q, e.time);
            && Insert(q, e)[k] == e
            && (forall i | 0 <= i < k :: Insert(q, e)[i].time.Micros() < e.time.Micros())
            && (forall i | k < i <= |q| :: e.time.Micros() <= Insert(q, e)[i].time.Micros())
  {
    var k, r := Place(q, e.time), Insert(q, e);
    assert ByInstant(q) by { SortedIsMicros(q); }
    assert forall i | 0 <= i < |q| :: i < k <==> q[i].time.Micros() < e.time.Micros() by {
      forall i | 0 <= i < |q| ensures i < k <==> q[i].time.Micros() < e.time.Micros() {
        PlaceSplits(q, e.time, i);
      }
    }
    SpliceByInstant(q, e, k, r);
    SortedIsMicros(r);
  }

  /** An event comes to be the first of the list exactly if none in it is due earlier. */
  lemma {:induction false} FirstIsEarliest(q: seq<Event>, e: Event)
    requires Sorted(q) && AllNormal(q) && e.time.Normal()
    ensures Place(q, e.time) == 0 <==> forall x | x in q :: e.time.Micros() <= x.time.Micros()
  {
    SortedIsMicros(q);
    if q != [] {
      LaterIsMicros(e.time, q[0].time);
      assert q[0] in q;
    }
  }

  /** What a worker does when it leaves the lock. */
  datatype Action =
    | Sleep
    | SleepUntil(deadline: int)
    | Dispatch(e: Event)
    | Leave(signalFinished: bool)

  /** Leaving the loop of ev_queue_worker. */
  function Retire(m: Monitor): (Monitor, Action) {
    (m.(threads := m.threads - 1), Leave(m.threads - 1 == 0))
  }

  /** One pass of the worker's loop, from testing `finish` to giving up the lock. */
  function Pass(m: Monitor, now: Timeval): (Monitor, Action) {
    if m.finish then
      Retire(m)
    else if m.queue == [] then
      if m.waiting + 1 > m.p.hiwat then Retire(m) else (m.(waiting := m.waiting + 1), Sleep)
    else if SleepTime(m.queue[0].time, now) < m.p.minSleep then
      (m.(queue := m.queue[1..]), Dispatch(m.queue[0]))
    else if m.waiting + 1 > m.p.hiwat then
      Retire(m)
    else
      (m.(waiting := m.waiting + 1), SleepUntil(m.queue[0].time.Micros() - m.p.minSleep))
  }

  /** A fresh worker's first section. */
  function Enter(m: Monitor, now: Timeval): (Monitor, Action) {
    Pass(m.(threads := m.threads + 1), now)
  }

  /** A wait has returned: whether a further worker is wanted, and the section itself. */
  predicate WantsWorker(m: Monitor) {
    m.waiting - 1 < m.p.lowat
  }

  function Resume(m: Monitor, now: Timeval): (Monitor, Action) {
    Pass(m.(waiting := m.waiting - 1), now)
  }

  /** The locked part of ev_at, and whether it signals `available`. */
  function Accept(m: Monitor, e: Event): Monitor {
    m.(queue := Insert(m.queue, e))
  }

  predicate Signals(m: Monitor, e: Event) {
    Place(m.queue, e.time) == 0
  }

  /** A worker pops an event early, although it is due at least `minSleep` ahead, exactly
      when the difference falls into the part of the 32-bit cycle that reads as small. */
  lemma PoppedEarlyIff(m: Monitor, now: Timeval)
    requires !m.finish && m.queue != [] && 0 <= m.p.minSleep < 0x8000_0000
    requires m.queue[0].time.Micros() - now.Micros() >= m.p.minSleep
    ensures var ahead := m.queue[0].time.Micros() - now.Micros();
            Pass(m, now).1.Dispatch? <==> (ahead % 0x1_0000_0000 < m.p.minSleep || ahead % 0x1_0000_0000 >= 0x8000_0000)
    ensures m.queue[0].time.Micros() - now.Micros() < 0x8000_0000 ==> !Pass(m, now).1.Dispatch?
  {
    SleepTimeIsDifference(m.queue[0].time, now);
    var ahead := m.queue[0].time.Micros() - now.Micros();
    var q, r := ahead / 0x1_0000_0000, ahead % 0x1_0000_0000;
    assert ahead == q * 0x1_0000_0000 + r;
    if r < 0x8000_0000 {
      assert (ahead + 0x8000_0000) / 0x1_0000_0000 == q;
    } else {
      assert (ahead + 0x8000_0000) / 0x1_0000_0000 == q + 1;
    }
  }

  /** Nothing is left behind: whichever section a worker runs, a head that is due within
      `minSleep` is taken at once. */
  lemma DueHeadIsTaken(m: Monitor, now: Timeval)
    requires !m.finish && m.queue != []
    requires -0x8000_0000 <= m.queue[0].time.Micros() - now.Micros() < m.p.minSleep && m.p.minSleep <= 0x8000_0000
    ensures Enter(m, now).1 == Resume(m, now).1 == Pass(m, now).1 == Dispatch(m.queue[0])
  {
    SleepTimeIsDifference(m.queue[0].time, now);
  }

  /** Whatever is dispatched is due first of all the list holds, and is not early unless
      it was due 2^31 microseconds or more ahead. */
  lemma DispatchedFirst(m: Monitor, now: Timeval)
    requires Sorted(m.queue) && AllNormal(m.queue) && m.p.minSleep > -0x8000_0000
    ensures var act := Pass(m, now).1;
            act.Dispatch? ==>
              && (forall e | e in m.queue :: act.e.time.Micros() <= e.time.Micros())
              && (act.e.time.Micros() - now.Micros() < 0x8000_0000 ==>
                    act.e.time.Micros() - now.Micros() < m.p.minSleep)
  {
    SortedIsMicros(m.queue);
    if m.queue != [] {
      SleepTimeIsDifference(m.queue[0].time, now);
    }
  }

  class Qelt {
    const e: Event
    var next: Qelt?

    constructor (e: Event)
      ensures this.e == e && next == null
    {
      this.e := e;
      next := null;
    }
  }

  class Queue {
    const p: Params
    var waiting: int
    var threads: int
    var finish: bool
    var head: Qelt?
    ghost var spine: seq<Qelt>
    ghost var contents: seq<Event>

    ghost predicate Valid()
      reads this, spine
    {
      && Distinct(spine)
      && head == Link(spine, 0)
      && (forall i | 0 <= i < |spine| :: spine[i].next == Link(spine, i + 1))
      && |contents| == |spine|
      && forall i | 0 <= i < |spine| :: contents[i] == spine[i].e
    }

    static ghost predicate Distinct(s: seq<Qelt>) {
      forall i, j | 0 <= i < j < |s| :: s[i] != s[j]
    }

    static lemma SpliceDistinct(s: seq<Qelt>, x: Qelt, k: nat)
      requires Distinct(s) && x !in s && k <= |s|
      ensures Distinct(s[..k] + [x] + s[k..])
    {
    }

    static ghost function Link(s: seq<Qelt>, i: nat): Qelt? {
      if i < |s| then s[i] else null
    }

    ghost function View(): Monitor
      reads this
    {
      Monitor(p, contents, waiting, threads, finish)
    }

    /** ev_queue_create: unspecified parameters take their defaults. Starting the first
        `lowat` workers is part of the pool's initial state. */
    constructor (params: Params)
      ensures Valid() && fresh(this) && spine == []
      ensures View() == Monitor(p, [], 0, 0, false)
      ensures p == Params(if params.minSleep == -1 then 1000 else params.minSleep,
                          if params.lowat == -1 then 4 else params.lowat,
                          if params.hiwat == -1 then 8 else params.hiwat)
    {
      p := Params(if params.minSleep == UNSPEC then DEFAULTS.minSleep else params.minSleep,
                  if params.lowat == UNSPEC then DEFAULTS.lowat else params.lowat,
                  if params.hiwat == UNSPEC then DEFAULTS.hiwat else params.hiwat);
      waiting, threads, finish, head, spine, contents := 0, 0, false, null, [], [];
    }

    /** The walk to an event's place. */
    method FindPlace(t: Timeval) returns (prev: Qelt?, cur: Qelt?, ghost k: nat)
      requires Valid()
      ensures k == Place(contents, t)
      ensures cur == Link(spine, k) && prev == if k == 0 then null else spine[k - 1]
    {
      prev, cur, k := null, head, 0;
      while cur != null && Later(t, cur.e.time)
        invariant 0 <= k <= |spine| && cur == Link(spine, k)
        invariant prev == if k == 0 then null else spine[k - 1]
        invariant forall j | 0 <= j < k :: Later(t, contents[j].time)
        decreases |spine| - k
      {
        prev, cur := cur, cur.next;
        k := k + 1;
      }
      PlaceIs(contents, t, k);
    }

    /** Splices a new element in between two neighbours. */
    method SpliceIn(elt: Qelt, prev: Qelt?, cur: Qelt?, ghost k: nat)
      requires Valid() && elt !in spine && k <= |spine|
      requires cur == Link(spine, k) && prev == if k == 0 then null else spine[k - 1]
      modifies this`head, this`spine, this`contents, elt, prev
      ensures Valid()
      ensures spine == old(spine)[..k] + [elt] + old(spine)[k..]
      ensures contents == old(contents)[..k] + [elt.e] + old(contents)[k..]
    {
      elt.next := cur;
      if prev == null {
        head := elt;
      } else {
        prev.next := elt;
      }
      ghost var was := spine;
      SpliceDistinct(was, elt, k);
      contents := contents[..k] + [elt.e] + contents[k..];
      spine := was[..k] + [elt] + was[k..];
      forall j | 0 <= j < |spine| ensures spine[j].next == Link(spine, j + 1) && contents[j] == spine[j].e {
        if j < k {
          assert spine[j] == was[j];
        } else if j > k {
          assert spine[j] == was[j - 1];
        }
      }
    }

    /** The locked part of ev_at: walk to the event's place and splice it in. */
    method InsertLocked(e: Event) returns (signal: bool)
      requires Valid()
      modifies this`head, this`spine, this`contents, spine
      ensures Valid() && forall x | x in spine :: x in old(spine) || fresh(x)
      ensures View() == Accept(old(View()), e)
      ensures signal == Signals(old(View()), e)
      ensures signal <==> old(contents) == [] || !Later(e.time, old(contents)[0].time)
    {
      var elt := new Qelt(e);
      var prev, cur;
      ghost var k;
      prev, cur, k := FindPlace(e.time);
      SpliceIn(elt, prev, cur, k);
      signal := head.next == null || head == elt;
    }

    /** ev_at as a caller sees it. The test of `finish` precedes the lock. */
    method EvAt(e: Event) returns (ret: int, signal: bool)
      requires Valid()
      modifies this`head, this`spine, this`contents, spine
      ensures Valid() && forall x | x in spine :: x in old(spine) || fresh(x)
      ensures old(finish) ==> ret == -1 && !signal && View() == old(View())
      ensures !old(finish) ==> ret == 0 && View() == Accept(old(View()), e) && signal == Signals(old(View()), e)
    {
      if finish {
        return -1, false;
      }
      signal := InsertLocked(e);
      ret := 0;
    }

    method RetireWorker() returns (act: Action)
      modifies this`threads
      ensures (View(), act) == Retire(old(View()))
    {
      threads := threads - 1;
      act := Leave(threads == 0);
    }

    method PassLocked(now: Timeval) returns (act: Action)
      requires Valid()
      modifies this
      ensures Valid() && (View(), act) == Pass(old(View()), now)
    {
      if finish {
        act := RetireWorker();
      } else if head == null {
        waiting := waiting + 1;
        if waiting > p.hiwat {
          waiting := waiting - 1;
          act := RetireWorker();
        } else {
          act := Sleep;
        }
      } else {
        var e := head.e;
        if SleepTime(e.time, now) < p.minSleep {
          head := head.next;
          spine, contents := spine[1..], contents[1..];
          act := Dispatch(e);
        } else {
          waiting := waiting + 1;
          if waiting > p.hiwat {
            waiting := waiting - 1;
            act := RetireWorker();
          } else {
            act := SleepUntil(e.time.Micros() - p.minSleep);
          }
        }
      }
    }

    method EnterLocked(now: Timeval) returns (act: Action)
      requires Valid()
      modifies this
      ensures Valid() && (View(), act) == Enter(old(View()), now)
    {
      threads := threads + 1;
      act := PassLocked(now);
    }

    /** `create` tells whether ev_queue_create_worker gets as far as a new thread: only
        when the pool wants one and the queue is not finishing. */
    method ResumeLocked(now: Timeval) returns (create: bool, act: Action)
      requires Valid()
      modifies this
      ensures Valid() && (View(), act) == Resume(old(View()), now)
      ensures create <==> old(waiting) <= p.lowat && !old(finish)
    {
      waiting := waiting - 1;
      create := waiting < p.lowat && !finish;
      act := PassLocked(now);
    }
  }

  lemma {:induction false} PlaceIs(q: seq<Event>, t: Timeval, k: nat)
    requires k <= |q|
    requires forall i | 0 <= i < k :: Later(t, q[i].time)
    requires k < |q| ==> !Later(t, q[k].time)
    ensures Place(q, t) == k
  {
  }
}
