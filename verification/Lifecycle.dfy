/** The two engines that drive a block of protocol calls in client.c: the loop of
    do_command and the handlers of the event-driven client. */
module Lifecycle {
  import opened Timeval
  import opened Clients

  /** The Loop calls of do_command from the k-th on: it stops at a negative result. */
  function LoopsUntilNegative(n: int, rc: nat -> int, k: nat): seq<Call>
    decreases n - k
  {
    if k >= n then [] else [Loop(rc(k))] + if rc(k) < 0 then [] else LoopsUntilNegative(n, rc, k + 1)
  }

  /** The Loop calls of the event-driven client: it stops at any result but zero. */
  function LoopsUntilNonzero(n: int, rc: nat -> int, k: nat): seq<Call>
    decreases n - k
  {
    if k >= n then [] else [Loop(rc(k))] + if rc(k) != 0 then [] else LoopsUntilNonzero(n, rc, k + 1)
  }

  /** The results in order, none negative but the last, and all `n` unless the last one is. */
  ghost predicate UpToNegative(n: int, rc: nat -> int, k: nat, loops: seq<Call>) {
    && (forall i | 0 <= i < |loops| :: loops[i] == Loop(rc(k + i)) && (i + 1 < |loops| ==> rc(k + i) >= 0))
    && if n <= k then loops == []
       else 0 < |loops| <= n - k && (|loops| == n - k || rc(k + |loops| - 1) < 0)
  }

  lemma OneMoreLoop(n: int, rc: nat -> int, k: nat, rest: seq<Call>)
    requires k < n && UpToNegative(n, rc, k + 1, rest)
    ensures UpToNegative(n, rc, k, [Loop(rc(k))] + if rc(k) < 0 then [] else rest)
  {
    var all := [Loop(rc(k))] + if rc(k) < 0 then [] else rest;
    forall i | 0 <= i < |all| ensures all[i] == Loop(rc(k + i)) && (i + 1 < |all| ==> rc(k + i) >= 0) {
      if i > 0 {
        var j := i - 1;
        assert all[i] == rest[j] == Loop(rc(k + 1 + j)) && (j + 1 < |rest| ==> rc(k + 1 + j) >= 0);
      }
    }
    if rc(k) >= 0 && rest != [] {
      assert rc(k + |all| - 1) == rc(k + 1 + |rest| - 1);
    }
  }

  lemma {:induction false} LoopsReach(n: int, rc: nat -> int, k: nat)
    ensures UpToNegative(n, rc, k, LoopsUntilNegative(n, rc, k))
    decreases n - k
  {
    if k < n {
      LoopsReach(n, rc, k + 1);
      OneMoreLoop(n, rc, k, LoopsUntilNegative(n, rc, k + 1));
    }
  }

  lemma SameReach(n: int, rc: nat -> int, k: nat, shorter: seq<Call>, longer: seq<Call>)
    requires UpToNegative(n, rc, k, shorter) && UpToNegative(n, rc, k, longer) && |shorter| <= |longer|
    ensures shorter == longer
  {
    if shorter != [] {
      assert longer[|shorter| - 1] == Loop(rc(k + |shorter| - 1));
    }
  }

  lemma {:induction false} LoopsAre(n: int, rc: nat -> int, k: nat, loops: seq<Call>)
    ensures loops == LoopsUntilNegative(n, rc, k) <==> UpToNegative(n, rc, k, loops)
  {
    var all := LoopsUntilNegative(n, rc, k);
    LoopsReach(n, rc, k);
    if UpToNegative(n, rc, k, loops) {
      if |all| <= |loops| { SameReach(n, rc, k, all, loops); } else { SameReach(n, rc, k, loops, all); }
    }
  }

  function Block(startOk: bool, loops: seq<Call>): seq<Call> {
    if startOk then [Start(true)] + loops + [End] else [Start(false)]
  }

  /** The calls of a whole block, one for each turn of the loop of do_command. */
  function Plan(numLoops: int, startOk: bool, rc: nat -> int): seq<Call> {
    if numLoops < -1 then [] else if numLoops == -1 then [Start(startOk)]
    else Block(startOk, LoopsUntilNegative(numLoops, rc, 0))
  }

  /** `gf(j)` is gf_timeexpired at the j-th time it is read; each turn reads it twice, and compares
      it with EXIT_FAST, which is 20, and with EXIT_SOON, which is 1. */
  predicate CalmAt(gf: nat -> int, k: nat) {
    gf(2 * k) < 20 && gf(2 * k + 1) < 1
  }

  ghost predicate CalmBefore(gf: nat -> int, k: nat) {
    forall j: nat | j < k :: CalmAt(gf, j)
  }

  /** Where the loop of do_command stands before a turn. */
  ghost predicate Underway(numLoops: int, plan: seq<Call>, rc: nat -> int, cnt: int, state: bool, loops: nat,
                           calls: seq<Call>) {
    if cnt == 0 then calls == [] && !state && loops == 0
    else
      && state && 0 < cnt && calls != []
      && if numLoops < 0 then numLoops == -1 && cnt == 1 && calls == plan
         else
           && (cnt == numLoops + 1 || (cnt == |calls| == loops + 1 && cnt <= numLoops))
           && plan == calls + ((if cnt == numLoops + 1 then [] else LoopsUntilNegative(numLoops, rc, loops)) + [End])
  }

  lemma Regroup(calls: seq<Call>, last: Call, rest: seq<Call>)
    ensures calls + ([last] + rest + [End]) == (calls + [last]) + (rest + [End])
  {
  }

  lemma LoopUnderway(numLoops: int, plan: seq<Call>, rc: nat -> int, cnt: int, loops: nat, calls: seq<Call>)
    requires Underway(numLoops, plan, rc, cnt, true, loops, calls) && 0 < cnt < numLoops + 1
    ensures Underway(numLoops, plan, rc, if rc(loops) < 0 then numLoops + 1 else cnt + 1, true, loops + 1,
                     calls + [Loop(rc(loops))])
  {
    Regroup(calls, Loop(rc(loops)), if rc(loops) < 0 then [] else LoopsUntilNegative(numLoops, rc, loops + 1));
    assert loops + 1 == numLoops ==> LoopsUntilNegative(numLoops, rc, loops + 1) == [];
  }

  lemma StartUnderway(numLoops: int, startOk: bool, rc: nat -> int)
    requires numLoops >= -1
    ensures startOk ==> Underway(numLoops, Plan(numLoops, startOk, rc), rc, 1, true, 0, [Start(true)])
    ensures !startOk ==> Plan(numLoops, startOk, rc) == [Start(false)]
  {
    if startOk && numLoops >= 0 {
      var loops := LoopsUntilNegative(numLoops, rc, 0);
      assert [Start(true)] + loops + [End] == [Start(true)] + (loops + [End]);
    }
  }

  lemma Underways(numLoops: int, startOk: bool, rc: nat -> int, cnt: int, state: bool, loops: nat, calls: seq<Call>)
    requires Underway(numLoops, Plan(numLoops, startOk, rc), rc, cnt, state, loops, calls)
    ensures |calls| <= |Plan(numLoops, startOk, rc)| && Plan(numLoops, startOk, rc)[..|calls|] == calls
    ensures cnt <= numLoops + 1 ==> |calls| < |Plan(numLoops, startOk, rc)|
    ensures cnt > numLoops + 1 ==> calls == Plan(numLoops, startOk, rc)
    ensures cnt == numLoops + 1 && state ==> calls + [End] == Plan(numLoops, startOk, rc)
  {
  }

  /** The first turn that sees the end of the test ends the block: nothing more is called when it
      is a forced one or no session is open, and nothing but End otherwise. */
  ghost predicate CutShort(gf: nat -> int, plan: seq<Call>, calls: seq<Call>) {
    && (CalmBefore(gf, |plan|) ==> calls == plan)
    && (forall k: nat | k < |plan| && CalmBefore(gf, k) && !CalmAt(gf, k) ::
          calls == plan[..k] + if k == 0 || gf(2 * k) >= 20 then [] else [End])
  }

  lemma CutAt(gf: nat -> int, plan: seq<Call>, k: nat, calls: seq<Call>)
    requires k < |plan| && CalmBefore(gf, k) && !CalmAt(gf, k)
    requires calls == plan[..k] + if k == 0 || gf(2 * k) >= 20 then [] else [End]
    ensures CutShort(gf, plan, calls)
  {
  }

  lemma Uncut(gf: nat -> int, plan: seq<Call>, k: nat)
    requires CalmBefore(gf, k) && CalmAt(gf, k) && |plan| <= k + 1
    ensures CutShort(gf, plan, plan)
  {
  }

  /** do_command. `rc(k)` is what the k-th Loop call returns. */
  method DoCommand(numLoops: int, startOk: bool, rc: nat -> int, gf: nat -> int) returns (calls: seq<Call>)
    ensures CutShort(gf, Plan(numLoops, startOk, rc), calls)
  {
    calls := [];
    var cntEnd := numLoops + 1;
    var state := false;
    var cnt, looks: nat, loops: nat := 0, 0, 0;
    ghost var plan := Plan(numLoops, startOk, rc);
    while cnt <= cntEnd
      invariant Underway(numLoops, plan, rc, cnt, state, loops, calls)
      invariant looks == 2 * |calls|
      invariant CalmBefore(gf, |calls|)
      decreases cntEnd - cnt
    {
      ghost var turn, made := |calls|, calls;
      Underways(numLoops, startOk, rc, cnt, state, loops, calls);
      if gf(looks) >= EXIT_FAST {
        CutAt(gf, plan, turn, calls);
        return;
      }
      looks := looks + 1;
      if gf(looks) >= EXIT_SOON {
        if !state {
          CutAt(gf, plan, turn, calls);
          return;
        }
        cnt := cntEnd;
        CutAt(gf, plan, turn, calls + [End]);
      }
      looks := looks + 1;
      assert CalmAt(gf, turn) || (CutShort(gf, plan, calls + [End]) && cnt == cntEnd && turn > 0);
      if cnt == 0 {
        StartUnderway(numLoops, startOk, rc);
        calls := calls + [Start(startOk)];
        state := startOk;
        if !state {
          Uncut(gf, plan, turn);
          return;
        }
      } else if cnt == cntEnd {
        calls := calls + [End];
        if CalmAt(gf, turn) {
          Uncut(gf, plan, turn);
        }
        return;
      } else {
        var ret := rc(loops);
        LoopUnderway(numLoops, plan, rc, cnt, loops, calls);
        calls := calls + [Loop(ret)];
        loops := loops + 1;
        if ret < 0 {
          cnt := cntEnd - 1;
        }
      }
      cnt := cnt + 1;
    }
    Underways(numLoops, startOk, rc, cnt, state, loops, calls);
    assert CutShort(gf, plan, calls);
  }

  function Results(envs: nat -> Env): nat -> int {
    (j: nat) => envs(j).rc
  }

  /** The event-driven client from its first client_loop to the handler that ends the
      session: the queue runs the handlers one after the other. */
  function Session(c: Client, envs: nat -> Env, k: nat): Client
    requires c.loop >= 0
    decreases c.loop
  {
    var (c1, exit) := LoopStep(c, envs(k));
    if exit.Schedule? && exit.func.ClientLoop? then Session(c1, envs, k + 1) else c1
  }

  lemma {:induction false} SessionCalls(c: Client, envs: nat -> Env, k: nat)
    requires c.loop >= 0
    requires forall j: nat :: envs(j).x1 < EXIT_SOON && envs(j).x2 < EXIT_SOON && envs(j).x3 < EXIT_SOON
    ensures Session(c, envs, k).calls == c.calls + LoopsUntilNonzero(c.loop + k, Results(envs), k) + [End]
    decreases c.loop
  {
    var rc := Results(envs);
    var c1 := LoopStep(c, envs(k)).0;
    if c.loop > 0 {
      SessionCalls(c1, envs, k + 1);
      if rc(k) != 0 {
        assert LoopsUntilNonzero(c1.loop + k + 1, rc, k + 1) == [];
      }
      var last, rest := [Loop(rc(k))], LoopsUntilNonzero(c1.loop + k + 1, rc, k + 1);
      assert LoopsUntilNonzero(c.loop + k, rc, k) == last + rest;
      assert (c.calls + last) + rest + [End] == c.calls + (last + rest) + [End];
    }
  }

  /** One block of the event-driven client, from client_init2 on. */
  function EventBlock(c: Client, startEnv: Env, envs: nat -> Env): Client
    requires c.numLoops >= 0
  {
    var (c1, exit) := Init2(c, startEnv);
    if startEnv.startOk then Session(c1, envs, 0) else c1
  }

  lemma EventBlockCalls(c: Client, startEnv: Env, envs: nat -> Env)
    requires c.numLoops >= 0
    requires forall j: nat :: envs(j).x1 < EXIT_SOON && envs(j).x2 < EXIT_SOON && envs(j).x3 < EXIT_SOON
    ensures EventBlock(c, startEnv, envs).calls ==
            c.calls + Block(startEnv.startOk, LoopsUntilNonzero(c.numLoops, Results(envs), 0))
  {
    var (c1, exit) := Init2(c, startEnv);
    if startEnv.startOk {
      SessionCalls(c1, envs, 0);
    }
  }

  /** No Loop call but the last possible one returns a positive value, as long as all
      before it returned zero. */
  ghost predicate NoEarlyPositive(n: int, rc: nat -> int, k: nat) {
    forall i: nat | k <= i && i + 1 < n && (forall j: nat | k <= j < i :: rc(j) == 0) :: rc(i) <= 0
  }

  lemma {:induction false} LoopsAgreeIff(n: int, rc: nat -> int, k: nat)
    ensures LoopsUntilNegative(n, rc, k) == LoopsUntilNonzero(n, rc, k) <==> NoEarlyPositive(n, rc, k)
    decreases n - k
  {
    if k < n {
      var neg, non := LoopsUntilNegative(n, rc, k), LoopsUntilNonzero(n, rc, k);
      if rc(k) == 0 {
        LoopsAgreeIff(n, rc, k + 1);
        assert neg[1..] == LoopsUntilNegative(n, rc, k + 1) && non[1..] == LoopsUntilNonzero(n, rc, k + 1);
        assert NoEarlyPositive(n, rc, k) <==> NoEarlyPositive(n, rc, k + 1) by {
          if NoEarlyPositive(n, rc, k + 1) {
            forall i: nat | k <= i && i + 1 < n && (forall j: nat | k <= j < i :: rc(j) == 0) ensures rc(i) <= 0 {
              assert i > k ==> forall j: nat | k + 1 <= j < i :: rc(j) == 0;
            }
          }
        }
      } else if rc(k) > 0 {
        assert |non| == 1;
        assert k + 1 < n ==> LoopsUntilNegative(n, rc, k + 1) != [];
        assert neg == [Loop(rc(k))] + LoopsUntilNegative(n, rc, k + 1);
      }
    }
  }

  lemma EnginesAgreeIff(c: Client, startEnv: Env, envs: nat -> Env, doCalls: seq<Call>)
    requires c.numLoops >= 0 && c.calls == []
    requires forall j: nat :: envs(j).x1 < EXIT_SOON && envs(j).x2 < EXIT_SOON && envs(j).x3 < EXIT_SOON
    requires doCalls == Block(startEnv.startOk, LoopsUntilNegative(c.numLoops, Results(envs), 0))
    ensures EventBlock(c, startEnv, envs).calls == doCalls
            <==> (startEnv.startOk ==> NoEarlyPositive(c.numLoops, Results(envs), 0))
    ensures (forall j: nat :: envs(j).rc <= 0) ==> EventBlock(c, startEnv, envs).calls == doCalls
  {
    var rc := Results(envs);
    EventBlockCalls(c, startEnv, envs);
    LoopsAgreeIff(c.numLoops, rc, 0);
    var neg, non := LoopsUntilNegative(c.numLoops, rc, 0), LoopsUntilNonzero(c.numLoops, rc, 0);
    assert ([Start(true)] + neg + [End])[1..|neg| + 1] == neg;
    assert ([Start(true)] + non + [End])[1..|non| + 1] == non;
  }

  /** A block under both engines. Without shutdown they make the same calls, for every number
      of loops and whatever Start returns, exactly when no Loop call but the last returns a
      positive value; in particular whenever all results are at most zero. */
  method RunBoth(c: Client, startEnv: Env, envs: nat -> Env, gf: nat -> int)
    returns (doCalls: seq<Call>, eventCalls: seq<Call>)
    requires c.numLoops >= 0 && c.calls == [] && forall j: nat :: gf(j) < EXIT_SOON
    requires forall j: nat :: envs(j).x1 < EXIT_SOON && envs(j).x2 < EXIT_SOON && envs(j).x3 < EXIT_SOON
    ensures doCalls == eventCalls <==> (startEnv.startOk ==> NoEarlyPositive(c.numLoops, Results(envs), 0))
    ensures (forall j: nat :: envs(j).rc <= 0) ==> doCalls == eventCalls
    ensures eventCalls == EventBlock(c, startEnv, envs).calls
  {
    doCalls := DoCommand(c.numLoops, startEnv.startOk, Results(envs), gf);
    eventCalls := EventBlock(c, startEnv, envs).calls;
    EnginesAgreeIff(c, startEnv, envs, doCalls);
  }
}
