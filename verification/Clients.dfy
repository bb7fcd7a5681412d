/** The event-driven client of client.c: the three handlers, written first as
    functions of the client's state and of what they observe, then as the methods
    that update a thread context in place. */
module Clients {
  import opened Timeval

  const EXIT_SOON := 1
  const EXIT_FAST := 20

  datatype Func = ClientInit | ClientInit2 | ClientLoop

  /** A call made into the protocol, with what it returned. */
  datatype Call = Start(ok: bool) | Loop(rc: int) | End

  /** A session is open from a successful Start until End. */
  predicate Open(calls: seq<Call>) {
    calls != [] && match calls[|calls| - 1] { case Start(ok) => ok case Loop(_) => true case End => false }
  }

  /** Start is only called without a session, Loop and End only inside one. */
  predicate Bracketed(calls: seq<Call>) {
    forall i | 0 <= i < |calls| :: Open(calls[..i]) <==> !calls[i].Start?
  }

  lemma BracketedAppend(calls: seq<Call>, c: Call)
    requires Bracketed(calls)
    requires Open(calls) <==> !c.Start?
    ensures Bracketed(calls + [c])
  {
    var more := calls + [c];
    forall i | 0 <= i < |more| ensures Open(more[..i]) <==> !more[i].Start? {
      if i < |calls| {
        assert more[..i] == calls[..i];
      } else {
        assert more[..i] == calls;
      }
    }
  }

  /** The fields of a thread context that belong to the event-driven client.
      `hasStats` is `ev_stats != NULL`. */
  datatype Client = Client(hasStats: bool, numLoops: int, loop: int, next: Timeval,
                           connects: nat, blocks: nat, calls: seq<Call>)

  /** What one run of a handler observes: the clock, the sampled delays, the chosen
      command's loop count, the protocol's results, and gf_timeexpired at each of the
      (at most three) places the handler reads it. */
  datatype Env = Env(now: Timeval, numLoops: int, startDelay: int, blockDelay: nat, idleDelay: nat,
                     loopDelay: nat, startOk: bool, rc: int, x1: int, x2: int, x3: int) {
    predicate Valid() {
      now.Normal() && x1 <= x2 <= x3
    }
  }

  /** How a handler ends: its last action schedules the next event, or the client is over. */
  datatype Exit = Schedule(time: Timeval, func: Func) | Done

  function Init(c: Client, env: Env): (Client, Exit) {
    if env.x1 >= EXIT_SOON then
      (c, Done)
    else if !c.hasStats then
      var delay := if env.startDelay < 0 then 0 else env.startDelay;
      (c.(hasStats := true, numLoops := env.numLoops), Schedule(AddMsec(env.now, delay), ClientInit2))
    else
      Init2(c.(numLoops := env.numLoops, connects := c.connects + 1, blocks := c.blocks + 1), env)
  }

  function Init2(c: Client, env: Env): (Client, Exit) {
    var c1 := c.(loop := c.numLoops, next := AddMsec(env.now, env.blockDelay), calls := c.calls + [Start(env.startOk)]);
    (c1, if env.startOk then Schedule(AddMsec(env.now, env.idleDelay), ClientLoop) else Schedule(c1.next, ClientInit))
  }

  function LoopStep(c: Client, env: Env): (Client, Exit) {
    if env.x1 >= EXIT_FAST then
      (c, Done)
    else if c.loop == 0 then
      var c1 := c.(calls := c.calls + [End]);
      (c1, if env.x2 >= EXIT_SOON then Done else Schedule(c.next, ClientInit))
    else
      var c1 := c.(calls := c.calls + [Loop(env.rc)]);
      if env.x2 >= EXIT_FAST then
        (c1, Done)
      else
        (c1.(loop := if env.x3 >= EXIT_SOON || env.rc != 0 then 0 else c.loop - 1),
         Schedule(AddMsec(env.now, env.loopDelay), ClientLoop))
  }

  function Handle(f: Func, c: Client, env: Env): (Client, Exit) {
    match f
    case ClientInit => Init(c, env)
    case ClientInit2 => Init2(c, env)
    case ClientLoop => LoopStep(c, env)
  }

  /** Which handler may run on a client: client_loop exactly when a session is open. */
  predicate Fits(f: Func, c: Client) {
    c.next.Normal() && Bracketed(c.calls) && (Open(c.calls) <==> f.ClientLoop?)
  }

  /** Every handler keeps sessions bracketed and hands the client to a handler that fits;
      a client ends with its session open only under EXIT_FAST, and times stay normalised. */
  lemma HandleKeepsFit(f: Func, c: Client, env: Env)
    requires Fits(f, c) && env.Valid()
    ensures var (c1, exit) := Handle(f, c, env);
            && Bracketed(c1.calls)
            && (exit.Schedule? ==> Fits(exit.func, c1) && exit.time.Normal())
            && (exit.Done? && Open(c1.calls) ==> env.x3 >= EXIT_FAST)
            && (exit.Done? ==> env.x3 >= EXIT_SOON)
  {
    AddMsecExact(env.now, if env.startDelay < 0 then 0 else env.startDelay);
    AddMsecExact(env.now, env.blockDelay);
    AddMsecExact(env.now, env.idleDelay);
    AddMsecExact(env.now, env.loopDelay);
    if !Open(c.calls) {
      BracketedAppend(c.calls, Start(env.startOk));
    } else {
      BracketedAppend(c.calls, End);
      BracketedAppend(c.calls, Loop(env.rc));
    }
  }

  /** The thread context itself. `owned` is true while the running handler may touch
      the client; scheduling the next event, or counting the client as finished, gives
      it up. The handlers write fields only through the setters, and each setter demands
      it, so no handler touches the client after its last action. */
  class ThreadContext {
    var hasStats: bool
    var numLoops: int
    var loop: int
    var next: Timeval
    var connects: nat
    var blocks: nat
    var calls: seq<Call>
    ghost var owned: bool

    ghost function View(): Client
      reads this
    {
      Client(hasStats, numLoops, loop, next, connects, blocks, calls)
    }

    method Submit(time: Timeval, func: Func) returns (exit: Exit)
      requires owned
      modifies this`owned
      ensures !owned && exit == Schedule(time, func)
    {
      owned := false;
      exit := Schedule(time, func);
    }

    method ClientDone() returns (exit: Exit)
      requires owned
      modifies this`owned
      ensures !owned && exit == Done
    {
      owned := false;
      exit := Done;
    }

    method CallProtocol(call: Call)
      requires owned
      modifies this`calls
      ensures calls == old(calls) + [call]
    {
      calls := calls + [call];
    }

    method SetLoop(n: int)
      requires owned
      modifies this`loop
      ensures loop == n
    {
      loop := n;
    }

    method SetNext(t: Timeval)
      requires owned
      modifies this`next
      ensures next == t
    {
      next := t;
    }

    method ChooseCommand(n: int)
      requires owned
      modifies this`numLoops, this`hasStats
      ensures numLoops == n && hasStats
    {
      numLoops := n;
      hasStats := true;
    }

    method CountBlock()
      requires owned
      modifies this`connects, this`blocks
      ensures connects == old(connects) + 1 && blocks == old(blocks) + 1
    {
      connects := connects + 1;
      blocks := blocks + 1;
    }

    method RunInit(env: Env) returns (exit: Exit)
      requires owned
      modifies this
      ensures !owned && (View(), exit) == Init(old(View()), env)
    {
      if env.x1 >= EXIT_SOON {
        exit := ClientDone();
        return;
      }
      var first := !hasStats;
      ChooseCommand(env.numLoops);
      if first {
        var delay := env.startDelay;
        if delay < 0 {
          delay := 0;
        }
        exit := Submit(AddMsec(env.now, delay), ClientInit2);
      } else {
        CountBlock();
        exit := RunInit2(env);
      }
    }

    method RunInit2(env: Env) returns (exit: Exit)
      requires owned
      modifies this
      ensures !owned && (View(), exit) == Init2(old(View()), env)
    {
      SetNext(env.now);
      SetLoop(numLoops);
      SetNext(AddMsec(next, env.blockDelay));
      var due := AddMsec(env.now, env.idleDelay);
      CallProtocol(Start(env.startOk));
      if !env.startOk {
        exit := Submit(next, ClientInit);
        return;
      }
      exit := Submit(due, ClientLoop);
    }

    method RunLoop(env: Env) returns (exit: Exit)
      requires owned
      modifies this
      ensures !owned && (View(), exit) == LoopStep(old(View()), env)
    {
      if env.x1 >= EXIT_FAST {
        exit := ClientDone();
        return;
      }
      if loop == 0 {
        CallProtocol(End);
        if env.x2 >= EXIT_SOON {
          exit := ClientDone();
          return;
        }
        exit := Submit(next, ClientInit);
      } else {
        var due := AddMsec(env.now, env.loopDelay);
        CallProtocol(Loop(env.rc));
        if env.x2 >= EXIT_FAST {
          exit := ClientDone();
          return;
        }
        if env.x3 >= EXIT_SOON || env.rc != 0 {
          SetLoop(0);
        } else {
          SetLoop(loop - 1);
        }
        exit := Submit(due, ClientLoop);
      }
    }
  }
}
