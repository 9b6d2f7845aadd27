/** The kernel calls over values, and the invariants that every run of them keeps. */
module KernelCalls {
  import opened Common
  import opened DeltaList
  import opened KernelModel
  import opened KernelMoves

  predicate BadPid(s: Kern, p: int)
    requires Shape(s)
  {
    !IsPid(p) || s.procs[p].state == FREE
  }

  predicate BadSem(s: Kern, k: int)
    requires Shape(s)
  {
    k < 0 || k >= NSEM || !s.sems[k].used
  }

  /** What holds also while rescheduling is put off and a semaphore is being changed. */
  ghost predicate Core(s: Kern) {
    Placed(s) && Running(s) && Scheduled(s)
  }

  lemma CoreShape(s: Kern)
    requires Core(s)
    ensures Placed(s) && Running(s) && Shape(s)
  {
  }

  // ------------------------------------------------------------ waking

  /** Take p off its list, make it ready and reschedule. */
  ghost function Wake(s: Kern, p: int): (t: Kern)
    requires Core(s) && Wakeable(s, p)
    ensures Shape(t)
  {
    AwakenedMove(s, p);
    Resched(Awakened(s, p))
  }

  predicate Wakeable(s: Kern, p: int)
    requires Shape(s)
  {
    IsPid(p) && p != NULLPROC && p != s.curr && s.procs[p].state != READY
  }

  lemma WakeCore(s: Kern, p: int)
    requires Core(s) && Wakeable(s, p)
    ensures var t := Wake(s, p);
            && Core(t) && SameProcs(s, t) && t.defers == s.defers
            && t.sems == Leave(s, p).sems && t.sleep == Leave(s, p).sleep && t.delays == Leave(s, p).delays
            && (s.defers > 0 ==> t.attempt && t.curr == s.curr)
  {
    hide Placed, InsertReady, Leave;
    AwakenedMove(s, p);
    LeaveFrame(s, p);
    ReschedKeeps(Awakened(s, p));
  }

  lemma LeaveFrame(s: Kern, p: int)
    requires Placed(s) && IsPid(p)
    ensures var t := Leave(s, p); t.procs == s.procs && t.curr == s.curr && t.defers == s.defers && t.attempt == s.attempt && t.preempt == s.preempt
  {
  }

  // ------------------------------------------------------------ deferral

  function DeferStart(s: Kern): (t: Kern) {
    s.(defers := s.defers + 1, attempt := if s.defers == 0 then false else s.attempt)
  }

  ghost function DeferStop(s: Kern): (t: Kern)
    requires Core(s)
  {
    if s.defers == 0 then s else
      var t := s.(defers := s.defers - 1);
      SameListsPlaced(s, t);
      if t.defers == 0 && t.attempt then Resched(t) else t
  }

  lemma SameListsPlaced(s: Kern, t: Kern)
    requires Placed(s) && Shape(t) && t.procs == s.procs && t.curr == s.curr && t.ready == s.ready && t.sleep == s.sleep
    requires forall k {:trigger t.sems[k]} {:trigger s.sems[k]} :: 0 <= k < NSEM ==> t.sems[k].queue == s.sems[k].queue
    ensures Placed(t) && (Running(t) <==> Running(s)) && (Top(t) <==> Top(s))
  {
  }

  lemma DeferStartCore(s: Kern)
    requires Core(s)
    ensures Core(DeferStart(s)) && DeferStart(s).defers > 0
  {
    hide Placed;
    CoreShape(s);
    ShapeSame(s, DeferStart(s));
    SameListsPlaced(s, DeferStart(s));
  }

  lemma ShapeSame(s: Kern, t: Kern)
    requires Placed(s)
    ensures t == DeferStart(s) ==> Shape(t)
  {
  }

  lemma DeferStopCore(s: Kern)
    requires Core(s)
    ensures Core(DeferStop(s)) && SameProcs(s, DeferStop(s))
    ensures DeferStop(s).sems == s.sems && DeferStop(s).sleep == s.sleep && DeferStop(s).delays == s.delays
    ensures DeferStop(s).defers == if s.defers == 0 then 0 else s.defers - 1
  {
    hide Top;
    if s.defers > 0 {
      var t := s.(defers := s.defers - 1);
      SameListsPlaced(s, t);
      if t.defers == 0 && t.attempt {
        ReschedKeeps(t);
      }
    }
  }

  // ------------------------------------------------------------ semaphores

  function WithCount(s: Kern, k: int, n: int): (t: Kern)
    requires Shape(s) && 0 <= k < NSEM
    ensures Shape(t)
  {
    s.(sems := s.sems[k := s.sems[k].(count := n)])
  }

  /** The queue is as long as the count is below zero. */
  predicate Owed(m: Sem) {
    |m.queue| == if m.count < 0 then -m.count else 0
  }

  lemma CountMove(s: Kern, k: int, n: int, u: bool)
    requires Core(s) && 0 <= k < NSEM
    ensures Core(WithCount(s, k, n)) && Core(WithCount(s, k, n).(sems := s.sems[k := Sem(u, n, s.sems[k].queue)]))
  {
    hide Top;
    SameListsPlaced(s, WithCount(s, k, n));
    SameListsPlaced(s, s.(sems := s.sems[k := Sem(u, n, s.sems[k].queue)]));
  }

  lemma FirstWaiter(s: Kern, k: int)
    requires Core(s) && 0 <= k < NSEM && |s.sems[k].queue| > 0
    ensures Wakeable(s, s.sems[k].queue[0]) && WaitsOn(s.procs, s.sems[k].queue[0], k)
    ensures Leave(s, s.sems[k].queue[0]) == s.(sems := s.sems[k := s.sems[k].(queue := s.sems[k].queue[1..])])
  {
    hide Remove, Descending, ReadyPlaced, SleepPlaced, Top;
    var q := s.sems[k].queue;
    assert q[0] in q && WaitsOn(s.procs, q[0], k);
    RemoveFirst(q);
  }

  /** One increment of the count: the first waiter, if any, goes on. */
  ghost function SignalOnce(s: Kern, k: int): (t: Kern)
    requires Core(s) && 0 <= k < NSEM && Owed(s.sems[k])
  {
    var t := WithCount(s, k, s.sems[k].count + 1);
    CountMove(s, k, s.sems[k].count + 1, true);
    if s.sems[k].count < 0 then
      FirstWaiter(t, k);
      Wake(t, t.sems[k].queue[0])
    else t
  }

  lemma SignalOnceCore(s: Kern, k: int)
    requires Core(s) && 0 <= k < NSEM && Owed(s.sems[k])
    ensures var t := SignalOnce(s, k);
            && Core(t) && SameProcs(s, t) && t.defers == s.defers && t.sleep == s.sleep && t.delays == s.delays
            && t.sems == s.sems[k := Sem(s.sems[k].used, s.sems[k].count + 1, if s.sems[k].count < 0 then s.sems[k].queue[1..] else s.sems[k].queue)]
            && Owed(t.sems[k])
  {
    hide Placed, Running, Scheduled, Leave;
    CoreShape(s);
    var t := WithCount(s, k, s.sems[k].count + 1);
    CountMove(s, k, s.sems[k].count + 1, true);
    if s.sems[k].count < 0 {
      FirstWaiter(t, k);
      WakeCore(t, t.sems[k].queue[0]);
    }
  }

  ghost function SignalLoop(s: Kern, k: int, n: nat): (t: Kern)
    requires Core(s) && 0 <= k < NSEM && Owed(s.sems[k])
    decreases n
  {
    if n == 0 then s else
      SignalOnceCore(s, k);
      SignalLoop(SignalOnce(s, k), k, n - 1)
  }

  /** After n signals the count is n higher and the first waiters, as many as it was below zero but
      at most n, have gone in order. */
  lemma {:induction false} SignalLoopCore(s: Kern, k: int, n: nat)
    requires Core(s) && 0 <= k < NSEM && Owed(s.sems[k])
    ensures var t, q := SignalLoop(s, k, n), s.sems[k].queue;
            && Core(t) && SameProcs(s, t) && t.defers == s.defers && t.sleep == s.sleep && t.delays == s.delays
            && t.sems == s.sems[k := Sem(s.sems[k].used, s.sems[k].count + n, q[if n <= |q| then n else |q|..])]
            && Owed(t.sems[k])
    decreases n
  {
    hide Core, SignalOnce;
    CoreShape(s);
    var q := s.sems[k].queue;
    SemsTwice(s.sems, k, Sem(s.sems[k].used, s.sems[k].count + 1, if s.sems[k].count < 0 then q[1..] else q), Sem(s.sems[k].used, s.sems[k].count + n, q[if n <= |q| then n else |q|..]));
    if n == 0 {
      assert q[0..] == q;
    } else {
      SignalOnceCore(s, k);
      if |q| > 0 { DropTwice(q, if n <= |q| then n else |q|); }
      SignalLoopCore(SignalOnce(s, k), k, n - 1);
      SameProcsTrans(s, SignalOnce(s, k), SignalLoop(s, k, n));
    }
  }

  lemma SemsTwice(sems: seq<Sem>, k: int, a: Sem, b: Sem)
    requires 0 <= k < |sems|
    ensures sems[k := a][k := b] == sems[k := b] && sems[k := sems[k]] == sems
  {
  }

  lemma DropTwice(q: seq<int>, n: nat)
    requires 0 < n <= |q|
    ensures q[1..][n - 1..] == q[n..]
  {
  }

  lemma SameProcsTrans(s: Kern, t: Kern, u: Kern)
    requires SameProcs(s, t) && SameProcs(t, u)
    ensures SameProcs(s, u)
  {
  }

  /** Release the first n waiters without touching the count. */
  ghost function DrainLoop(s: Kern, k: int, n: nat): (t: Kern)
    requires Core(s) && 0 <= k < NSEM && n <= |s.sems[k].queue|
    decreases n
  {
    if n == 0 then s else
      FirstWaiter(s, k);
      WakeCore(s, s.sems[k].queue[0]);
      DrainLoop(Wake(s, s.sems[k].queue[0]), k, n - 1)
  }

  lemma {:induction false} DrainLoopCore(s: Kern, k: int, n: nat)
    requires Core(s) && 0 <= k < NSEM && n <= |s.sems[k].queue|
    ensures var t := DrainLoop(s, k, n);
            && Core(t) && SameProcs(s, t) && t.defers == s.defers && t.sleep == s.sleep && t.delays == s.delays
            && t.sems == s.sems[k := s.sems[k].(queue := s.sems[k].queue[n..])]
    decreases n
  {
    hide Core, Leave, Wake;
    CoreShape(s);
    var q := s.sems[k].queue;
    if n == 0 {
      assert q[0..] == q;
      SemsTwice(s.sems, k, s.sems[k], s.sems[k]);
    } else {
      DropTwice(q, n);
      SemsTwice(s.sems, k, s.sems[k].(queue := q[1..]), s.sems[k].(queue := q[n..]));
      FirstWaiter(s, k);
      WakeCore(s, s.sems[k].queue[0]);
      DrainLoopCore(Wake(s, s.sems[k].queue[0]), k, n - 1);
      SameProcsTrans(s, Wake(s, s.sems[k].queue[0]), DrainLoop(s, k, n));
    }
  }

  /** The loop of semdelete: it counts up to zero, releasing a waiter each time, and once more. */
  ghost function DeleteLoop(s: Kern, k: int): (t: Kern)
    requires Core(s) && 0 <= k < NSEM && Owed(s.sems[k])
    decreases if s.sems[k].count < 0 then -s.sems[k].count else 0
  {
    SignalOnceCore(s, k);
    if s.sems[k].count < 0 then DeleteLoop(SignalOnce(s, k), k) else SignalOnce(s, k)
  }

  lemma {:induction false} DeleteLoopCore(s: Kern, k: int)
    requires Core(s) && 0 <= k < NSEM && Owed(s.sems[k])
    ensures var t := DeleteLoop(s, k);
            && Core(t) && SameProcs(s, t) && t.defers == s.defers && t.sleep == s.sleep && t.delays == s.delays
            && t.sems == s.sems[k := Sem(s.sems[k].used, if s.sems[k].count < 0 then 1 else s.sems[k].count + 1, [])]
    decreases if s.sems[k].count < 0 then -s.sems[k].count else 0
  {
    hide Core, SignalOnce;
    CoreShape(s);
    SignalOnceCore(s, k);
    var q := s.sems[k].queue;
    if s.sems[k].count < 0 {
      SemsTwice(s.sems, k, Sem(s.sems[k].used, s.sems[k].count + 1, q[1..]), Sem(s.sems[k].used, 1, []));
      DeleteLoopCore(SignalOnce(s, k), k);
      SameProcsTrans(s, SignalOnce(s, k), DeleteLoop(s, k));
    }
  }

  // ------------------------------------------------------------ the calls

  ghost function Wait(s: Kern, k: int): (t: Kern)
    requires Inv(s) && ((s.defers == 0 && s.curr != NULLPROC) || BadSem(s, k) || s.sems[k].count > 0)
  {
    if BadSem(s, k) then s else
      var t := WithCount(s, k, s.sems[k].count - 1);
      if t.sems[k].count < 0 then
        CountMove(s, k, s.sems[k].count - 1, true);
        WaitMove(t, t.curr, k);
        Resched(Enqueued(t, t.curr, k))
      else t
  }

  ghost function Signal(s: Kern, k: int): (t: Kern)
    requires Inv(s)
  {
    if BadSem(s, k) then s else
      SemOwed(s, k);
      SignalOnce(s, k)
  }

  ghost function SignalN(s: Kern, k: int, n: int): (t: Kern)
    requires Inv(s)
  {
    if BadSem(s, k) || n < 0 then s else
      SemOwed(s, k);
      DeferStartCore(s);
      SignalLoopCore(DeferStart(s), k, n);
      DeferStop(SignalLoop(DeferStart(s), k, n))
  }

  ghost function SemReset(s: Kern, k: int, count: int): (t: Kern)
    requires Inv(s)
  {
    if count < 0 || BadSem(s, k) then s else
      DeferStartCore(s);
      DrainLoopCore(DeferStart(s), k, |s.sems[k].queue|);
      var t := DrainLoop(DeferStart(s), k, |s.sems[k].queue|);
      CountMove(t, k, count, true);
      DeferStop(WithCount(t, k, count))
  }

  ghost function SemDelete(s: Kern, k: int): (t: Kern)
    requires Inv(s)
  {
    if BadSem(s, k) then s else
      SemOwed(s, k);
      CountMove(s, k, s.sems[k].count, false);
      var t := s.(sems := s.sems[k := s.sems[k].(used := false)]);
      DeferStartCore(t);
      DeleteLoopCore(DeferStart(t), k);
      DeferStop(DeleteLoop(DeferStart(t), k))
  }

  /** semcreate once newsem has found entry k free. */
  function SemCreate(s: Kern, k: int, count: int): (t: Kern)
    requires Shape(s) && 0 <= k < NSEM
  {
    s.(sems := s.sems[k := s.sems[k].(used := true, count := count)])
  }

  lemma SemOwed(s: Kern, k: int)
    requires Inv(s) && !BadSem(s, k)
    ensures Core(s) && Owed(s.sems[k])
  {
    assert Counted(s.sems[k]);
  }

  ghost function Suspend(s: Kern, p: int): (t: Kern)
    requires Inv(s) && (p == s.curr ==> s.defers == 0)
  {
    if BadPid(s, p) || p == NULLPROC then s
    else if s.procs[p].state == READY then WithState(Leave(s, p), p, SUSP)
    else if s.procs[p].state == CURR then
      assert InState(s.procs, p, CURR);
      IdleMove(s, p, SUSP);
      Resched(WithState(s, p, SUSP))
    else s
  }

  ghost function Resume(s: Kern, p: int): (t: Kern)
    requires Inv(s)
  {
    if BadPid(s, p) || s.procs[p].state != SUSP then s else
      NotCurrent(s, p);
      Wake(s, p)
  }

  lemma NotCurrent(s: Kern, p: int)
    requires Placed(s) && Running(s) && IsPid(p) && s.procs[p].state != CURR && s.procs[p].state != READY
    ensures Wakeable(s, p)
  {
  }

  ghost function Kill(s: Kern, p: int): (t: Kern)
    requires Inv(s) && (p == s.curr ==> s.defers == 0)
  {
    if BadPid(s, p) || p == NULLPROC then s
    else if s.procs[p].state == CURR then
      assert InState(s.procs, p, CURR);
      IdleMove(s, p, FREE);
      Resched(WithState(s, p, FREE))
    else if s.procs[p].state == WAIT then
      var k := s.procs[p].sem;
      assert InState(s.procs, p, WAIT);
      CountMove(s, k, s.sems[k].count + 1, true);
      WithState(Leave(WithCount(s, k, s.sems[k].count + 1), p), p, FREE)
    else WithState(Leave(s, p), p, FREE)
  }

  function WithMessage(s: Kern, p: int, msg: int, has: bool): (t: Kern)
    requires Shape(s) && IsPid(p)
    ensures Shape(t)
  {
    s.(procs := s.procs[p := s.procs[p].(msg := msg, hasMsg := has)])
  }

  ghost function Send(s: Kern, p: int, msg: int): (t: Kern)
    requires Inv(s)
  {
    if BadPid(s, p) || s.procs[p].hasMsg then s else
      var t := WithMessage(s, p, msg, true);
      MessageMove(s, p, msg, true);
      if s.procs[p].state == RECV || s.procs[p].state == RECTIM then
        NotCurrent(t, p);
        Wake(t, p)
      else t
  }

  /** receive up to the point where a message is there. */
  ghost function Receive(s: Kern): (t: Kern)
    requires Inv(s) && (s.procs[s.curr].hasMsg || (s.defers == 0 && s.curr != NULLPROC))
  {
    if s.procs[s.curr].hasMsg then s else
      IdleMove(s, s.curr, RECV);
      Resched(WithState(s, s.curr, RECV))
  }

  /** The rest of receive and recvtime, when the process runs again. */
  function TakeMessage(s: Kern): (t: Kern)
    requires Shape(s)
  {
    WithMessage(s, s.curr, s.procs[s.curr].msg, false)
  }

  ghost function RecvTime(s: Kern, maxWait: int): (t: Kern)
    requires Inv(s) && (maxWait < 0 || s.procs[s.curr].hasMsg || (s.defers == 0 && s.curr != NULLPROC))
  {
    if maxWait < 0 || s.procs[s.curr].hasMsg then s else
      SleepMove(s, s.curr, maxWait, RECTIM);
      Resched(PutToSleep(s, s.curr, maxWait, RECTIM))
  }

  ghost function SleepMs(s: Kern, delay: int): (t: Kern)
    requires Inv(s) && (delay <= 0 || (s.defers == 0 && s.curr != NULLPROC))
  {
    if delay < 0 then s
    else if delay == 0 then Resched(s)
    else
      SleepMove(s, s.curr, delay, SLEEP);
      Resched(PutToSleep(s, s.curr, delay, SLEEP))
  }

  /** The entry that create fills in for a new process. */
  function Create(s: Kern, p: int, prio: pri16): (t: Kern)
    requires Shape(s) && IsPid(p)
  {
    s.(procs := s.procs[p := Proc(SUSP, prio, -1, s.procs[p].msg, false)])
  }

  lemma MessageMove(s: Kern, p: int, msg: int, has: bool)
    requires Core(s) && IsPid(p)
    ensures Core(WithMessage(s, p, msg, has))
  {
    hide Prio, Distinct;
    ProcMove(s, p, s.procs[p].(msg := msg, hasMsg := has));
  }

  /** Changing what has no bearing on lists or priorities. */
  lemma ProcMove(s: Kern, p: int, r: Proc)
    requires Core(s) && IsPid(p) && r.state == s.procs[p].state && r.prio == s.procs[p].prio && r.sem == s.procs[p].sem
    ensures Core(s.(procs := s.procs[p := r]))
  {
    hide Distinct;
    var procs' := s.procs[p := r];
    assert forall q, st {:trigger InState(procs', q, st)} :: InState(procs', q, st) <==> InState(s.procs, q, st);
    assert forall q, k {:trigger WaitsOn(procs', q, k)} :: WaitsOn(procs', q, k) <==> WaitsOn(s.procs, q, k);
    assert forall q {:trigger Prio(procs', q)} :: Prio(procs', q) == Prio(s.procs, q);
  }

  // ------------------------------------------------------------ the clock

  /** The first sleeper leaves the list, and the delay behind it stays as it is. */
  ghost function PopSleeper(s: Kern): (t: Kern)
    requires Core(s) && |s.sleep| > 0
  {
    PopMove(s);
    Resched(MadeReady(Popped(s), s.sleep[0]))
  }

  function Popped(s: Kern): (t: Kern)
    requires Shape(s) && |s.sleep| > 0
    ensures Shape(t)
  {
    s.(sleep := s.sleep[1..], delays := s.delays[1..])
  }

  lemma PopMove(s: Kern)
    requires Core(s) && |s.sleep| > 0
    ensures IsPid(s.sleep[0]) && Asleep(s.procs, s.sleep[0])
    ensures Placed(MadeReady(Popped(s), s.sleep[0])) && Running(MadeReady(Popped(s), s.sleep[0]))
    ensures SameProcs(s, MadeReady(Popped(s), s.sleep[0]))
  {
    hide Distinct, Descending, Prio, InsertReady, Top;
    var p := s.sleep[0];
    assert p in s.sleep;
    DistinctTail(s.sleep);
    StateChanged(s.procs, p, READY);
    assert !InState(s.procs, p, READY) && !InState(s.procs, p, CURR);
    InsertReadyFacts(s.procs, s.ready, p);
  }

  lemma PopCore(s: Kern)
    requires Core(s) && |s.sleep| > 0
    ensures var t := PopSleeper(s);
            && Core(t) && SameProcs(s, t) && t.sems == s.sems && t.sleep == s.sleep[1..] && t.delays == s.delays[1..] && t.defers == s.defers
  {
    hide Placed, InsertReady;
    CoreShape(s);
    PopMove(s);
    ReschedKeeps(MadeReady(Popped(s), s.sleep[0]));
    SameProcsTrans(s, MadeReady(Popped(s), s.sleep[0]), PopSleeper(s));
  }

  /** The loop of wakeup. */
  ghost function WakeDue(s: Kern): (t: Kern)
    requires Core(s)
    decreases |s.sleep|
  {
    if |s.sleep| == 0 || s.delays[0] > 0 then s else
      PopCore(s);
      WakeDue(PopSleeper(s))
  }

  /** It wakes exactly the sleepers whose delay is used up. */
  lemma {:induction false} WakeDueCore(s: Kern)
    requires Core(s)
    ensures var t, k := WakeDue(s), Due(s.delays);
            && Core(t) && SameProcs(s, t) && t.sems == s.sems && t.defers == s.defers
            && k <= |s.sleep| && t.sleep == s.sleep[k..] && t.delays == s.delays[k..]
    decreases |s.sleep|
  {
    hide Core, PopSleeper;
    CoreShape(s);
    if |s.sleep| > 0 && s.delays[0] <= 0 {
      PopCore(s);
      WakeDueCore(PopSleeper(s));
      SameProcsTrans(s, PopSleeper(s), WakeDue(s));
      var k := Due(s.delays);
      assert s.sleep[1..][k - 1..] == s.sleep[k..] && s.delays[1..][k - 1..] == s.delays[k..];
    }
  }

  /** The part of the clock interrupt that serves sleepers. */
  ghost function ClockTick(s: Kern): (t: Kern)
    requires Inv(s)
  {
    if |s.sleep| == 0 then s else
      var t := s.(delays := Ticked(s.delays));
      DelayMove(s, t.delays);
      if t.delays[0] <= 0 then
        DeferStartCore(t);
        WakeDueCore(DeferStart(t));
        DeferStop(WakeDue(DeferStart(t)))
      else t
  }

  lemma DelayMove(s: Kern, d: seq<int>)
    requires Core(s) && |d| == |s.delays|
    ensures Core(s.(delays := d))
  {
    hide Top;
    SameListsPlaced(s, s.(delays := d));
  }

  /** The part of the clock interrupt that ends a time slice. */
  ghost function ClockPreempt(s: Kern): (t: Kern)
    requires Inv(s)
  {
    if s.preempt - 1 <= 0 then
      SameListsPlaced(s, s.(preempt := QUANTUM));
      Resched(s.(preempt := QUANTUM))
    else s.(preempt := s.preempt - 1)
  }
}
