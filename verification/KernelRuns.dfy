/** What every run of kernel calls and clock interrupts keeps. */
module KernelRuns {
  import opened Common
  import opened DeltaList
  import opened KernelModel
  import opened KernelMoves
  import opened KernelCalls

  datatype Op =
    | OpWait(k: int) | OpSignal(k: int) | OpSignalN(k: int, n: int)
    | OpSemCreate(k: int, count: int) | OpSemReset(k: int, count: int) | OpSemDelete(k: int)
    | OpSend(p: int, msg: int) | OpReceive | OpTakeMessage | OpRecvTime(maxWait: int) | OpSleepMs(delay: int)
    | OpSuspend(p: int) | OpResume(p: int) | OpKill(p: int) | OpCreate(p: int, prio: pri16) | OpYield
    | OpDeferStart | OpDeferStop | OpClockTick | OpClockPreempt

  /** The null process does not give up the processor for good, and nobody does while
      rescheduling is put off. */
  predicate MayBlock(s: Kern) { s.defers == 0 && s.curr != NULLPROC }

  predicate Enabled(s: Kern, op: Op)
    requires Shape(s)
  {
    match op
    case OpWait(k) => MayBlock(s) || BadSem(s, k) || s.sems[k].count > 0
    case OpSemCreate(k, count) => 0 <= k < NSEM && !s.sems[k].used && count >= 0
    case OpReceive => MayBlock(s) || s.procs[s.curr].hasMsg
    case OpRecvTime(d) => d <= MAXKEY && (d < 0 || s.procs[s.curr].hasMsg || MayBlock(s))
    case OpSleepMs(d) => d <= MAXKEY && (d <= 0 || MayBlock(s))
    case OpSuspend(p) => p == s.curr ==> s.defers == 0
    case OpKill(p) => p == s.curr ==> s.defers == 0
    case OpCreate(p, prio) => IsPid(p) && s.procs[p].state == FREE && prio >= 1
    case _ => true
  }

  ghost function Step(s: Kern, op: Op): (t: Kern)
    requires Inv(s) && Enabled(s, op)
  {
    match op
    case OpWait(k) => Wait(s, k)
    case OpSignal(k) => Signal(s, k)
    case OpSignalN(k, n) => SignalN(s, k, n)
    case OpSemCreate(k, count) => SemCreate(s, k, count)
    case OpSemReset(k, count) => SemReset(s, k, count)
    case OpSemDelete(k) => SemDelete(s, k)
    case OpSend(p, msg) => Send(s, p, msg)
    case OpReceive => Receive(s)
    case OpTakeMessage => TakeMessage(s)
    case OpRecvTime(d) => RecvTime(s, d)
    case OpSleepMs(d) => SleepMs(s, d)
    case OpSuspend(p) => Suspend(s, p)
    case OpResume(p) => Resume(s, p)
    case OpKill(p) => Kill(s, p)
    case OpCreate(p, prio) => Create(s, p, prio)
    case OpYield => Resched(s)
    case OpDeferStart => DeferStart(s)
    case OpDeferStop => DeferStop(s)
    case OpClockTick => ClockTick(s)
    case OpClockPreempt => ClockPreempt(s)
  }

  lemma CountedExcept(s: Kern, t: Kern, k: int, m: Sem)
    requires SemsCounted(s) && 0 <= k < |s.sems| && t.sems == s.sems[k := m] && Counted(m)
    ensures SemsCounted(t)
  {
  }

  lemma InvCore(s: Kern)
    requires Inv(s)
    ensures Core(s) && SemsCounted(s) && Deltas(s) && Shape(s)
  {
  }

  lemma WaitKeeps(s: Kern, k: int)
    requires Inv(s) && Enabled(s, OpWait(k))
    ensures Inv(Wait(s, k))
    ensures SleepKept(s, Wait(s, k))
  {
    hide ReadyPlaced, SleepPlaced, QueuesPlaced, OneCurrent, Descending, Natural, Total, Top;
    if !BadSem(s, k) {
      SemOwed(s, k);
      var t := WithCount(s, k, s.sems[k].count - 1);
      CountMove(s, k, s.sems[k].count - 1, true);
      if t.sems[k].count < 0 {
        WaitMove(t, t.curr, k);
        ReschedKeeps(Enqueued(t, t.curr, k));
        SemsTwice(s.sems, k, t.sems[k], Enqueued(t, t.curr, k).sems[k]);
        CountedExcept(s, Wait(s, k), k, Enqueued(t, t.curr, k).sems[k]);
      } else {
        CountedExcept(s, t, k, t.sems[k]);
      }
    }
  }

  /** The sleepers and their delays stay as they are. */
  predicate SleepKept(s: Kern, t: Kern) { t.sleep == s.sleep && t.delays == s.delays }

  lemma SignalKeeps(s: Kern, k: int)
    requires Inv(s)
    ensures Inv(Signal(s, k)) && SleepKept(s, Signal(s, k))
  {
    hide Placed, Running, Scheduled, Natural, Total;
    InvCore(s);
    if !BadSem(s, k) {
      SemOwed(s, k);
      SignalOnceCore(s, k);
      CountedExcept(s, Signal(s, k), k, Signal(s, k).sems[k]);
    }
  }

  lemma SignalNKeeps(s: Kern, k: int, n: int)
    requires Inv(s)
    ensures Inv(SignalN(s, k, n)) && SleepKept(s, SignalN(s, k, n))
  {
    hide Placed, Running, Scheduled, Natural, Total, SignalOnce, SignalLoop;
    InvCore(s);
    if !BadSem(s, k) && n >= 0 {
      SemOwed(s, k);
      DeferStartCore(s);
      SignalLoopCore(DeferStart(s), k, n);
      DeferStopCore(SignalLoop(DeferStart(s), k, n));
      CountedExcept(s, SignalN(s, k, n), k, SignalN(s, k, n).sems[k]);
    }
  }

  lemma SemResetKeeps(s: Kern, k: int, count: int)
    requires Inv(s)
    ensures Inv(SemReset(s, k, count)) && SleepKept(s, SemReset(s, k, count))
  {
    hide Placed, Running, Scheduled, Natural, Total, DrainLoop;
    InvCore(s);
    if !BadSem(s, k) && count >= 0 {
      var n := |s.sems[k].queue|;
      DeferStartCore(s);
      DrainLoopCore(DeferStart(s), k, n);
      var t := DrainLoop(DeferStart(s), k, n);
      CountMove(t, k, count, true);
      DeferStopCore(WithCount(t, k, count));
      var m := Sem(true, count, []);
      assert s.sems[k].queue[n..] == [];
      SemsTwice(s.sems, k, s.sems[k].(queue := []), m);
      CountedExcept(s, SemReset(s, k, count), k, m);
    }
  }

  lemma SemDeleteKeeps(s: Kern, k: int)
    requires Inv(s)
    ensures Inv(SemDelete(s, k)) && SleepKept(s, SemDelete(s, k))
  {
    hide Placed, Running, Scheduled, Natural, Total, DeleteLoop;
    InvCore(s);
    if !BadSem(s, k) {
      SemOwed(s, k);
      CountMove(s, k, s.sems[k].count, false);
      var t := s.(sems := s.sems[k := s.sems[k].(used := false)]);
      DeferStartCore(t);
      DeleteLoopCore(DeferStart(t), k);
      DeferStopCore(DeleteLoop(DeferStart(t), k));
      SemsTwice(s.sems, k, t.sems[k], SemDelete(s, k).sems[k]);
      CountedExcept(s, SemDelete(s, k), k, SemDelete(s, k).sems[k]);
    }
  }

  lemma SemCreateKeeps(s: Kern, k: int, count: int)
    requires Inv(s) && Enabled(s, OpSemCreate(k, count))
    ensures Inv(SemCreate(s, k, count)) && SleepKept(s, SemCreate(s, k, count))
  {
    hide Natural, Total;
    assert Counted(s.sems[k]);
    SameListsPlaced(s, SemCreate(s, k, count));
    CountedExcept(s, SemCreate(s, k, count), k, SemCreate(s, k, count).sems[k]);
  }

  /** Where p's own entry was, nobody else's deadline has changed. */
  ghost predicate SleepDropped(s: Kern, t: Kern, p: int) {
    && p in s.sleep && |s.sleep| == |s.delays|
    && t.sleep == Remove(s.sleep, p) && t.delays == DropDelay(s.delays, IndexOf(s.sleep, p))
  }

  lemma LeaveParts(s: Kern, p: int)
    requires Inv(s) && IsPid(p)
    ensures Deltas(Leave(s, p))
    ensures if Asleep(s.procs, p) then SleepDropped(s, Leave(s, p), p) else SleepKept(s, Leave(s, p))
    ensures s.procs[p].state != WAIT ==> Leave(s, p).sems == s.sems
  {
    hide Remove, Natural, Total, DropDelay, Descending, Distinct;
    if Asleep(s.procs, p) {
      assert p in s.sleep;
      DropDelayExact(s.delays, IndexOf(s.sleep, p));
    }
  }

  lemma WakeKeeps(s: Kern, p: int)
    requires Inv(s) && Wakeable(s, p) && s.procs[p].state != WAIT
    ensures Inv(Wake(s, p))
    ensures if Asleep(s.procs, p) then SleepDropped(s, Wake(s, p), p) else SleepKept(s, Wake(s, p))
  {
    hide Placed, Running, Scheduled, Natural, Total, Leave;
    InvCore(s);
    LeaveParts(s, p);
    WakeCore(s, p);
  }

  lemma ResumeKeeps(s: Kern, p: int)
    requires Inv(s)
    ensures Inv(Resume(s, p)) && SleepKept(s, Resume(s, p))
  {
    hide ReadyPlaced, SleepPlaced, QueuesPlaced, Natural, Total, Wake, Top;
    if !BadPid(s, p) && s.procs[p].state == SUSP {
      NotCurrent(s, p);
      WakeKeeps(s, p);
    }
  }

  lemma BlockKeeps(s: Kern, t: Kern)
    requires Inv(s) && s.defers == 0 && Placed(t) && t.defers == 0 && t.curr != NULLPROC
    requires SemsCounted(t) && Deltas(t)
    ensures Inv(Resched(t)) && Resched(t).sems == t.sems && SleepKept(t, Resched(t)) && SameProcs(t, Resched(t))
  {
    hide Placed, Running, Top, Natural, Total;
    ReschedKeeps(t);
  }

  lemma SuspendKeeps(s: Kern, p: int)
    requires Inv(s) && Enabled(s, OpSuspend(p))
    ensures Inv(Suspend(s, p)) && SleepKept(s, Suspend(s, p))
  {
    hide ReadyPlaced, SleepPlaced, QueuesPlaced, Natural, Total, Top, Descending, Remove, Prio;
    if !BadPid(s, p) && p != NULLPROC {
      if s.procs[p].state == READY {
        OffReady(s, p, SUSP);
      } else if s.procs[p].state == CURR {
        assert InState(s.procs, p, CURR);
        IdleMove(s, p, SUSP);
        BlockKeeps(s, WithState(s, p, SUSP));
      }
    }
  }

  /** Stopping a process that is not running: nothing ready is added. */
  lemma OffReady(s: Kern, p: int, st: PrState)
    requires Inv(s) && IsPid(p) && p != NULLPROC && p != s.curr && Idle(st)
    ensures Core(WithState(Leave(s, p), p, st)) && Deltas(Leave(s, p))
    ensures if Asleep(s.procs, p) then SleepDropped(s, Leave(s, p), p) else SleepKept(s, Leave(s, p))
    ensures s.procs[p].state != WAIT ==> Leave(s, p).sems == s.sems
  {
    hide Natural, Total, ReadyPlaced, SleepPlaced, QueuesPlaced, OneCurrent, Descending;
    LeaveMove(s, p, st);
    LeaveParts(s, p);
    LeaveFrame(s, p);
    if Top(s) { LeaveTop(s, p, st); }
  }

  lemma LeaveTop(s: Kern, p: int, st: PrState)
    requires Placed(s) && IsPid(p) && p != s.curr && Top(s)
    ensures Top(WithState(Leave(s, p), p, st))
  {
    hide Distinct, Descending, SleepPlaced, QueuesPlaced, Prio;
    StateChanged(s.procs, p, st);
    if s.procs[p].state == READY {
      assert InState(s.procs, p, READY);
      RemoveFacts(s.ready, p);
    }
  }

  lemma KillKeeps(s: Kern, p: int)
    requires Inv(s) && Enabled(s, OpKill(p))
    ensures Inv(Kill(s, p))
    ensures if p in s.sleep && p != NULLPROC then SleepDropped(s, Kill(s, p), p) else SleepKept(s, Kill(s, p))
  {
    hide QueuesPlaced, Natural, Total, Top, Descending, Remove, Prio, Distinct, DropDelay;
    assert IsPid(p) ==> (p in s.sleep <==> Asleep(s.procs, p));
    if !BadPid(s, p) && p != NULLPROC {
      if s.procs[p].state == CURR {
        assert InState(s.procs, p, CURR);
        IdleMove(s, p, FREE);
        BlockKeeps(s, WithState(s, p, FREE));
      } else if s.procs[p].state == WAIT {
        KillWaiter(s, p);
      } else {
        OffReady(s, p, FREE);
      }
    }
  }

  lemma KillWaiter(s: Kern, p: int)
    requires Inv(s) && InState(s.procs, p, WAIT) && p != NULLPROC && p != s.curr && Enabled(s, OpKill(p))
    ensures Inv(Kill(s, p)) && SleepKept(s, Kill(s, p))
  {
    hide Natural, Total, Top, Descending, Prio, Distinct, ReadyPlaced, SleepPlaced, Remove;
    var k := s.procs[p].sem;
    var q := s.sems[k].queue;
    assert WaitsOn(s.procs, p, k) && p in q && Counted(s.sems[k]);
    var t := WithCount(s, k, s.sems[k].count + 1);
    CountMove(s, k, s.sems[k].count + 1, true);
    RemoveFacts(q, p);
    LeaveMove(t, p, FREE);
    CoreTop(s, t, p);
    SemsTwice(s.sems, k, t.sems[k], Kill(s, p).sems[k]);
    CountedExcept(s, Kill(s, p), k, Kill(s, p).sems[k]);
  }

  lemma CoreTop(s: Kern, t: Kern, p: int)
    requires Inv(s) && Core(t) && IsPid(p) && p != s.curr && t.curr == s.curr && t.defers == s.defers && t.attempt == s.attempt
    ensures Scheduled(WithState(Leave(t, p), p, FREE))
  {
    hide ReadyPlaced, SleepPlaced, QueuesPlaced, OneCurrent, Descending, Natural, Total;
    LeaveFrame(t, p);
    if Top(t) { LeaveTop(t, p, FREE); }
  }

  lemma SendKeeps(s: Kern, p: int, msg: int)
    requires Inv(s)
    ensures Inv(Send(s, p, msg))
    ensures if p in s.sleep && Send(s, p, msg) != s && s.procs[p].state == RECTIM then SleepDropped(s, Send(s, p, msg), p) else SleepKept(s, Send(s, p, msg))
  {
    hide ReadyPlaced, QueuesPlaced, Natural, Total, Top, Wake, Distinct, Descending, DropDelay, Remove;
    if !BadPid(s, p) && !s.procs[p].hasMsg {
      var t := WithMessage(s, p, msg, true);
      MessageMove(s, p, msg, true);
      assert Inv(t);
      assert p in s.sleep <==> Asleep(s.procs, p);
      if s.procs[p].state == RECV || s.procs[p].state == RECTIM {
        NotCurrent(t, p);
        WakeKeeps(t, p);
      }
    }
  }

  lemma ReceiveKeeps(s: Kern)
    requires Inv(s) && Enabled(s, OpReceive)
    ensures Inv(Receive(s)) && SleepKept(s, Receive(s))
  {
    hide ReadyPlaced, SleepPlaced, QueuesPlaced, Natural, Total, Top, Descending;
    if !s.procs[s.curr].hasMsg {
      IdleMove(s, s.curr, RECV);
      BlockKeeps(s, WithState(s, s.curr, RECV));
    }
  }

  lemma TakeMessageKeeps(s: Kern)
    requires Inv(s)
    ensures Inv(TakeMessage(s)) && SleepKept(s, TakeMessage(s))
  {
    hide ReadyPlaced, SleepPlaced, QueuesPlaced, Natural, Total, Top, Descending;
    MessageMove(s, s.curr, s.procs[s.curr].msg, false);
  }

  /** p has entered the delta list with this delay. */
  ghost predicate SleepEntered(s: Kern, t: Kern, p: int, delay: int) {
    |s.sleep| == |s.delays| && t.sleep == Inserted(s.sleep, DelayPlace(s.delays, delay), p) && t.delays == InsertDelay(s.delays, delay)
  }

  lemma AsleepKeeps(s: Kern, delay: int, st: PrState)
    requires Inv(s) && MayBlock(s) && 0 <= delay <= MAXKEY && (st == SLEEP || st == RECTIM)
    ensures var u := PutToSleep(s, s.curr, delay, st); Placed(u) && u.defers == 0 && u.curr != NULLPROC
    ensures var t := Resched(PutToSleep(s, s.curr, delay, st)); Inv(t) && |s.sleep| == |s.delays| && SleepEntered(s, t, s.curr, delay)
  {
    hide ReadyPlaced, SleepPlaced, QueuesPlaced, Top, Descending, InsertDelay, DelayPlace, Inserted, Natural, Total;
    SleepMove(s, s.curr, delay, st);
    InsertDelayExact(s.delays, delay);
    BlockKeeps(s, PutToSleep(s, s.curr, delay, st));
  }

  lemma CreateKeeps(s: Kern, p: int, prio: pri16)
    requires Inv(s) && Enabled(s, OpCreate(p, prio))
    ensures Inv(Create(s, p, prio)) && SleepKept(s, Create(s, p, prio))
  {
    hide Distinct, Natural, Total;
    var t := Create(s, p, prio);
    assert forall q, st {:trigger InState(t.procs, q, st)} :: InState(t.procs, q, st) <==> if q == p then st == SUSP else InState(s.procs, q, st);
    assert forall q, k {:trigger WaitsOn(t.procs, q, k)} :: WaitsOn(t.procs, q, k) <==> q != p && WaitsOn(s.procs, q, k);
    assert forall q {:trigger Prio(t.procs, q)} :: q != p ==> Prio(t.procs, q) == Prio(s.procs, q);
    assert !InState(s.procs, p, READY);
    forall i | 0 <= i < |s.ready| ensures s.ready[i] != p { assert s.ready[i] in s.ready; }
  }

  lemma TickKeeps(s: Kern)
    requires Inv(s)
    ensures Inv(ClockTick(s))
    ensures |s.sleep| == |s.delays| && if |s.sleep| == 0 then SleepKept(s, ClockTick(s)) else
              var k := Due(Ticked(s.delays));
              ClockTick(s).sleep == s.sleep[k..] && ClockTick(s).delays == Ticked(s.delays)[k..]
    ensures ClockTick(s).sems == s.sems && ClockTick(s).defers == s.defers && SameProcs(s, ClockTick(s))
  {
    hide Placed, Running, Scheduled, WakeDue, Natural, Total, Due;
    InvCore(s);
    if |s.sleep| > 0 {
      var t := s.(delays := Ticked(s.delays));
      DelayMove(s, t.delays);
      TickDeltas(s.delays);
      if t.delays[0] <= 0 {
        DeferStartCore(t);
        WakeDueCore(DeferStart(t));
        DeferStopCore(WakeDue(DeferStart(t)));
        SameProcsTrans(s, WakeDue(DeferStart(t)), ClockTick(s));
      }
    }
  }

  lemma TickDeltas(d: seq<int>)
    requires Natural(d) && |d| > 0 && Total(d) <= MAXKEY
    ensures var r := Ticked(d)[Due(Ticked(d))..]; Natural(r) && Total(r) <= MAXKEY
    ensures Ticked(d)[0] > 0 ==> Due(Ticked(d)) == 0 && Ticked(d)[0..] == Ticked(d)
  {
    hide Total;
    var t := Ticked(d);
    var k := Due(t);
    if k == 0 {
      assert t[0..] == t == [d[0] - 1] + d[1..] && d == [d[0]] + d[1..];
      TotalConcat([d[0] - 1], d[1..]);
      TotalConcat([d[0]], d[1..]);
      TotalOne(d[0] - 1);
      TotalOne(d[0]);
    } else {
      assert t[k..] == d[k..];
      SuffixTotal(d, k);
    }
  }

  lemma SuffixTotal(d: seq<int>, k: nat)
    requires Natural(d) && k <= |d|
    ensures Natural(d[k..]) && Total(d[k..]) <= Total(d)
  {
    hide Total;
    assert d == d[..k] + d[k..];
    TotalConcat(d[..k], d[k..]);
    TotalNatural(d[..k]);
  }

  lemma PreemptKeeps(s: Kern)
    requires Inv(s)
    ensures Inv(ClockPreempt(s)) && SleepKept(s, ClockPreempt(s))
  {
    hide ReadyPlaced, SleepPlaced, QueuesPlaced, Descending, Natural, Total;
    if s.preempt - 1 <= 0 {
      SameListsPlaced(s, s.(preempt := QUANTUM));
      ReschedKeeps(s.(preempt := QUANTUM));
    } else {
      SameListsPlaced(s, ClockPreempt(s));
    }
  }

  lemma YieldKeeps(s: Kern)
    requires Inv(s)
    ensures Inv(Resched(s)) && SleepKept(s, Resched(s))
  {
    hide ReadyPlaced, SleepPlaced, QueuesPlaced, Descending, Natural, Total, OneCurrent;
    ReschedKeeps(s);
  }

  lemma DeferKeeps(s: Kern)
    requires Inv(s)
    ensures Inv(DeferStart(s)) && Inv(DeferStop(s)) && SleepKept(s, DeferStart(s)) && SleepKept(s, DeferStop(s))
  {
    hide Placed, Running, Scheduled, Natural, Total;
    DeferStartCore(s);
    DeferStopCore(s);
  }

  /** Every call and every clock interrupt keeps the invariant. */
  lemma StepKeeps(s: Kern, op: Op)
    requires Inv(s) && Enabled(s, op)
    ensures Inv(Step(s, op))
  {
    hide Inv;
    InvCore(s);
    match op
    case OpWait(k) => WaitKeeps(s, k);
    case OpSignal(k) => SignalKeeps(s, k);
    case OpSignalN(k, n) => SignalNKeeps(s, k, n);
    case OpSemCreate(k, count) => SemCreateKeeps(s, k, count);
    case OpSemReset(k, count) => SemResetKeeps(s, k, count);
    case OpSemDelete(k) => SemDeleteKeeps(s, k);
    case OpSend(p, msg) => SendKeeps(s, p, msg);
    case OpReceive => ReceiveKeeps(s);
    case OpTakeMessage => TakeMessageKeeps(s);
    case OpRecvTime(d) => if d >= 0 && !s.procs[s.curr].hasMsg { AsleepKeeps(s, d, RECTIM); }
    case OpSleepMs(d) => if d > 0 { AsleepKeeps(s, d, SLEEP); } else if d == 0 { YieldKeeps(s); }
    case OpSuspend(p) => SuspendKeeps(s, p);
    case OpResume(p) => ResumeKeeps(s, p);
    case OpKill(p) => KillKeeps(s, p);
    case OpCreate(p, prio) => CreateKeeps(s, p, prio);
    case OpYield => YieldKeeps(s);
    case OpDeferStart => DeferKeeps(s);
    case OpDeferStop => DeferKeeps(s);
    case OpClockTick => TickKeeps(s);
    case OpClockPreempt => PreemptKeeps(s);
  }
}
