/** First-in first-out service: nobody overtakes an equal on the ready list, and nobody overtakes
    anyone on a semaphore's queue. */
module KernelOrder {
  import opened Common
  import opened DeltaList
  import opened KernelModel
  import opened KernelMoves
  import opened KernelCalls
  import opened KernelRuns
  import opened KernelTime
  import opened KernelEffects

  /** x is ready, and y, of no higher priority, stands behind it or is not ready yet. */
  ghost predicate Ahead(s: Kern, x: int, y: int) {
    x in s.ready && Prio(s.procs, y) <= Prio(s.procs, x) && (y in s.ready ==> Before(s.ready, x, y))
  }

  ghost predicate SamePrio(s: Kern, t: Kern) {
    forall p {:trigger Prio(t.procs, p)} {:trigger Prio(s.procs, p)} :: Prio(t.procs, p) == Prio(s.procs, p)
  }

  /** The ready list has only gained processes. */
  ghost predicate Grown(s: Kern, t: Kern) {
    t.curr == s.curr && SamePrio(s, t) && forall x, y {:trigger Ahead(s, x, y)} :: Ahead(s, x, y) ==> Ahead(t, x, y)
  }

  /** As long as x stays ready, whoever it is ahead of stays behind it and does not get the processor. */
  ghost predicate Fair(s: Kern, t: Kern) {
    && SamePrio(s, t)
    && forall x, y {:trigger Ahead(s, x, y)} :: Ahead(s, x, y) && x in t.ready ==> (t.curr == y ==> s.curr == y) && Ahead(t, x, y)
  }

  lemma GrownFair(s: Kern, t: Kern, u: Kern)
    requires Grown(s, t) && Fair(t, u)
    ensures Fair(s, u)
  {
    hide Before;
  }

  lemma GrownTrans(s: Kern, t: Kern, u: Kern)
    requires Grown(s, t) && Grown(t, u)
    ensures Grown(s, u)
  {
    hide Before;
  }

  /** The running process is not on the ready list. */
  lemma CurrNotReady(s: Kern)
    requires Placed(s) && !InState(s.procs, s.curr, READY)
    ensures s.curr !in s.ready && forall x, y {:trigger Before(s.ready, x, y)} :: Before(s.ready, x, y) ==> x in s.ready && y in s.ready && y != s.curr
  {
  }

  lemma SameFair(s: Kern, t: Kern)
    requires t.ready == s.ready && t.curr == s.curr && SamePrio(s, t)
    ensures Fair(s, t) && Grown(s, t)
  {
    hide Before, Prio;
  }

  lemma TailAhead(s: Kern, x: int, y: int)
    requires Placed(s) && |s.ready| > 0 && IsPid(s.ready[0]) && Ahead(s, x, y) && x in Dispatch(s).ready
    ensures Dispatch(s).curr != y && Ahead(Dispatch(s), x, y)
  {
    hide Descending, SleepPlaced, QueuesPlaced, Prio;
    var t := Dispatch(s);
    DispatchPrio(s);
    var m :| 0 <= m < |t.ready| && t.ready[m] == x;
    assert s.ready[m + 1] == x;
    if y in s.ready {
      var i, j :| 0 <= i < j < |s.ready| && s.ready[i] == x && s.ready[j] == y;
      assert i == m + 1;
      assert t.ready[i - 1] == x && t.ready[j - 1] == y;
    } else {
      forall k | 0 <= k < |t.ready| ensures t.ready[k] != y { assert s.ready[k + 1] in s.ready; }
      assert s.ready[0] in s.ready;
    }
  }

  lemma DispatchPrio(s: Kern)
    requires Shape(s) && |s.ready| > 0 && IsPid(s.ready[0])
    ensures SamePrio(s, Dispatch(s))
  {
  }

  lemma TailFair(s: Kern)
    requires Placed(s) && |s.ready| > 0 && IsPid(s.ready[0])
    ensures Fair(s, Dispatch(s))
  {
    hide Descending, SleepPlaced, QueuesPlaced, Ahead;
    var t := Dispatch(s);
    forall x, y | Ahead(s, x, y) && x in t.ready
      ensures (t.curr == y ==> s.curr == y) && Ahead(t, x, y)
    {
      TailAhead(s, x, y);
    }
  }

  lemma ReadyGrown(s: Kern, p: int)
    requires Placed(s) && IsPid(p) && !InState(s.procs, p, READY)
    ensures Grown(s, MadeReady(s, p))
  {
    hide Before, Descending, Distinct, SleepPlaced, QueuesPlaced, InsertReady;
    assert p !in s.ready;
    InsertReadyFacts(s.procs, s.ready, p);
    InsertReadyOrder(s.procs, s.ready, p);
  }

  lemma ReschedFair(s: Kern)
    requires Placed(s) && (Running(s) || (s.defers == 0 && s.curr != NULLPROC)) && !InState(s.procs, s.curr, READY)
    ensures Fair(s, Resched(s)) && (s.defers > 0 ==> Grown(s, Resched(s)))
  {
    hide Descending, ReadyPlaced, SleepPlaced, QueuesPlaced, Dispatch, Fair, Grown, InsertReady, Prio;
    if s.defers > 0 {
      SameFair(s, Resched(s));
    } else if Running(s) {
      RequeuedPlaced(s);
      if |s.ready| > 0 && Prio(s.procs, s.curr) <= Prio(s.procs, s.ready[0]) {
        ReadyGrown(s, s.curr);
        TailFair(Requeued(s));
        GrownFair(s, Requeued(s), Dispatch(Requeued(s)));
      } else {
        SameFair(s, s);
      }
    } else {
      NullReady(s);
      TailFair(s);
    }
  }

  lemma LeaveReadySame(s: Kern, p: int)
    requires Placed(s) && IsPid(p) && !InState(s.procs, p, READY)
    ensures Leave(s, p).ready == s.ready && Leave(s, p).curr == s.curr
  {
    hide Descending, ReadyPlaced, OneCurrent, Distinct;
  }

  lemma WakeFair(s: Kern, p: int)
    requires Core(s) && Wakeable(s, p)
    ensures Fair(s, Wake(s, p)) && (s.defers > 0 ==> Grown(s, Wake(s, p)))
  {
    hide Descending, ReadyPlaced, SleepPlaced, QueuesPlaced, Fair, Grown, Leave, Top;
    AwakenedMove(s, p);
    AwakenedGrown(s, p);
    ReschedFair(Awakened(s, p));
    GrownFair(s, Awakened(s, p), Wake(s, p));
    if s.defers > 0 {
      LeaveFrame(s, p);
      GrownTrans(s, Awakened(s, p), Wake(s, p));
    }
  }

  lemma AwakenedGrown(s: Kern, p: int)
    requires Placed(s) && Running(s) && Wakeable(s, p)
    ensures Grown(s, Awakened(s, p)) && Placed(Awakened(s, p)) && Running(Awakened(s, p)) && Awakened(s, p).defers == s.defers
    ensures !InState(Awakened(s, p).procs, Awakened(s, p).curr, READY)
  {
    hide Descending, SleepPlaced, QueuesPlaced, Leave, Before, InsertReady, Distinct;
    AwakenedMove(s, p);
    LeaveReadySame(s, p);
    LeaveFrame(s, p);
    InsertReadyFacts(s.procs, s.ready, p);
    InsertReadyOrder(s.procs, s.ready, p);
  }

  lemma SignalOnceGrown(s: Kern, k: int)
    requires Core(s) && 0 <= k < NSEM && Owed(s.sems[k])
    ensures Fair(s, SignalOnce(s, k)) && (s.defers > 0 ==> Grown(s, SignalOnce(s, k)))
  {
    hide ReadyPlaced, SleepPlaced, QueuesPlaced, Descending, Top, Wake, Leave;
    var t := WithCount(s, k, s.sems[k].count + 1);
    CountMove(s, k, s.sems[k].count + 1, true);
    SameFair(s, t);
    if s.sems[k].count < 0 {
      FirstWaiter(t, k);
      WakeFair(t, t.sems[k].queue[0]);
    }
  }

  lemma {:induction false} SignalLoopGrown(s: Kern, k: int, n: nat)
    requires Core(s) && 0 <= k < NSEM && Owed(s.sems[k]) && s.defers > 0
    ensures Grown(s, SignalLoop(s, k, n))
    decreases n
  {
    hide Core, SignalOnce, Before;
    if n > 0 {
      SignalOnceCore(s, k);
      SignalOnceGrown(s, k);
      SignalLoopGrown(SignalOnce(s, k), k, n - 1);
      GrownTrans(s, SignalOnce(s, k), SignalLoop(s, k, n));
    }
  }

  lemma {:induction false} DrainLoopGrown(s: Kern, k: int, n: nat)
    requires Core(s) && 0 <= k < NSEM && n <= |s.sems[k].queue| && s.defers > 0
    ensures Grown(s, DrainLoop(s, k, n))
    decreases n
  {
    hide Core, Wake, Leave, Before;
    CoreShape(s);
    if n > 0 {
      var p := s.sems[k].queue[0];
      FirstWaiter(s, k);
      WakeCore(s, p);
      WakeFair(s, p);
      DrainLoopGrown(Wake(s, p), k, n - 1);
      GrownTrans(s, Wake(s, p), DrainLoop(s, k, n));
    }
  }

  lemma {:induction false} DeleteLoopGrown(s: Kern, k: int)
    requires Core(s) && 0 <= k < NSEM && Owed(s.sems[k]) && s.defers > 0
    ensures Grown(s, DeleteLoop(s, k))
    decreases if s.sems[k].count < 0 then -s.sems[k].count else 0
  {
    hide Core, SignalOnce, Before;
    SignalOnceCore(s, k);
    SignalOnceGrown(s, k);
    CoreShape(s);
    if s.sems[k].count < 0 {
      DeleteLoopGrown(SignalOnce(s, k), k);
      GrownTrans(s, SignalOnce(s, k), DeleteLoop(s, k));
    }
  }

  lemma PopGrown(s: Kern)
    requires Core(s) && |s.sleep| > 0 && s.defers > 0
    ensures Grown(s, PopSleeper(s))
  {
    hide Descending, QueuesPlaced, Before, InsertReady, Distinct, Top;
    var p := s.sleep[0];
    PopMove(s);
    assert p in s.sleep && p !in s.ready;
    InsertReadyFacts(s.procs, s.ready, p);
    InsertReadyOrder(s.procs, s.ready, p);
  }

  lemma {:induction false} WakeDueGrown(s: Kern)
    requires Core(s) && s.defers > 0
    ensures Grown(s, WakeDue(s))
    decreases |s.sleep|
  {
    hide Core, PopSleeper, Before;
    CoreShape(s);
    if |s.sleep| > 0 && s.delays[0] <= 0 {
      PopCore(s);
      PopGrown(s);
      WakeDueGrown(PopSleeper(s));
      GrownTrans(s, PopSleeper(s), WakeDue(s));
    }
  }

  lemma DeferStopFair(s: Kern)
    requires Core(s)
    ensures Fair(s, DeferStop(s))
  {
    hide ReadyPlaced, SleepPlaced, QueuesPlaced, Descending, Top, Before;
    SameFair(s, s);
    if s.defers > 0 {
      var t := s.(defers := s.defers - 1);
      SameListsPlaced(s, t);
      SameFair(s, t);
      if t.defers == 0 && t.attempt {
        ReschedFair(t);
      }
    }
  }

  lemma DeferStartSame(s: Kern)
    requires Core(s)
    ensures Grown(s, DeferStart(s))
  {
    hide ReadyPlaced, SleepPlaced, QueuesPlaced, Descending, Top, Before;
    SameFair(s, DeferStart(s));
  }

  /** A loop that runs between the start and the end of a deferral. */
  lemma BracketFair(s: Kern, t: Kern, u: Kern)
    requires Core(s) && Grown(s, t) && Core(t) && Grown(t, u) && Core(u)
    ensures Fair(s, DeferStop(u))
  {
    hide Core, Grown, Fair, DeferStop;
    DeferStopFair(u);
    GrownTrans(s, t, u);
    GrownFair(s, u, DeferStop(u));
  }

  lemma RemoveBefore(l: seq<int>, p: int, x: int, y: int)
    requires Distinct(l) && p in l && Before(l, x, y) && x != p
    ensures y != p ==> Before(Remove(l, p), x, y)
  {
    var i, j :| 0 <= i < j < |l| && l[i] == x && l[j] == y;
    var m, r := IndexOf(l, p), Remove(l, p);
    if y != p {
      assert r[if i < m then i else i - 1] == x && r[if j < m then j else j - 1] == y;
    }
  }

  /** A process leaves its list and stops; the rest keep their order. */
  lemma LeaveFair(s: Kern, p: int, st: PrState)
    requires Core(s) && IsPid(p) && p != s.curr
    ensures Fair(s, WithState(Leave(s, p), p, st))
  {
    hide SleepPlaced, QueuesPlaced, Descending, Before, Top, Distinct, Remove;
    CurrNotReady(s);
    LeaveFrame(s, p);
    var t := WithState(Leave(s, p), p, st);
    if InState(s.procs, p, READY) {
      assert p in s.ready;
      RemoveFacts(s.ready, p);
      forall x, y | Before(s.ready, x, y) && x in t.ready
        ensures t.curr != y && (y in t.ready ==> Before(t.ready, x, y))
      {
        RemoveBefore(s.ready, p, x, y);
      }
    } else {
      LeaveReadySame(s, p);
    }
  }

  lemma BlockFair(s: Kern, t: Kern)
    requires Core(s) && Placed(t) && t.ready == s.ready && t.curr == s.curr && t.defers == 0 && t.curr != NULLPROC
    requires !InState(t.procs, t.curr, READY) && SamePrio(s, t)
    ensures Fair(s, Resched(t))
  {
    hide ReadyPlaced, SleepPlaced, QueuesPlaced, Descending, Top, Before;
    SameFair(s, t);
    ReschedFair(t);
  }

  lemma WaitFair(s: Kern, k: int)
    requires Inv(s) && Enabled(s, OpWait(k))
    ensures Fair(s, Wait(s, k))
  {
    hide ReadyPlaced, SleepPlaced, QueuesPlaced, Descending, Natural, Total, Top, Fair;
    SameFair(s, s);
    if !BadSem(s, k) {
      SemOwed(s, k);
      var t := WithCount(s, k, s.sems[k].count - 1);
      CountMove(s, k, s.sems[k].count - 1, true);
      SameFair(s, t);
      if t.sems[k].count < 0 {
        WaitMove(t, t.curr, k);
        BlockFair(s, Enqueued(t, t.curr, k));
      }
    }
  }

  lemma SemaphoreFair(s: Kern, op: Op)
    requires Inv(s) && Enabled(s, op) && (op.OpSignal? || op.OpSignalN? || op.OpSemReset? || op.OpSemDelete?)
    ensures Fair(s, Step(s, op))
  {
    hide ReadyPlaced, SleepPlaced, QueuesPlaced, Descending, Natural, Total, Top, Fair, Grown, SignalOnce, SignalLoop, DrainLoop, DeleteLoop, DeferStop,
         Wake, Leave;
    SameFair(s, s);
    InvCore(s);
    if !BadSem(s, op.k) {
      SemOwed(s, op.k);
      DeferStartCore(s);
      DeferStartSame(s);
      var d := DeferStart(s);
      match op
      case OpSignal(k) => SignalOnceGrown(s, k);
      case OpSignalN(k, n) =>
        if n >= 0 {
          SignalLoopCore(d, k, n);
          SignalLoopGrown(d, k, n);
          BracketFair(s, d, SignalLoop(d, k, n));
        }
      case OpSemReset(k, count) =>
        if count >= 0 {
          var n := |s.sems[k].queue|;
          DrainLoopCore(d, k, n);
          DrainLoopGrown(d, k, n);
          var t := DrainLoop(d, k, n);
          CountMove(t, k, count, true);
          SameFair(t, WithCount(t, k, count));
          GrownTrans(d, t, WithCount(t, k, count));
          BracketFair(s, d, WithCount(t, k, count));
        }
      case OpSemDelete(k) => DeleteFair(s, k);
    }
  }

  lemma DeleteFair(s: Kern, k: int)
    requires Inv(s) && !BadSem(s, k)
    ensures Fair(s, SemDelete(s, k))
  {
    hide ReadyPlaced, SleepPlaced, QueuesPlaced, Descending, Natural, Total, Top, Fair, Grown, SignalOnce, DeleteLoop, DeferStop;
    SemOwed(s, k);
    CountMove(s, k, s.sems[k].count, false);
    var t := s.(sems := s.sems[k := s.sems[k].(used := false)]);
    DeferStartCore(t);
    DeferStartSame(t);
    DeleteLoopCore(DeferStart(t), k);
    DeleteLoopGrown(DeferStart(t), k);
    SameFair(s, t);
    GrownTrans(s, t, DeferStart(t));
    BracketFair(s, DeferStart(t), DeleteLoop(DeferStart(t), k));
  }

  lemma TickFair(s: Kern)
    requires Inv(s)
    ensures Fair(s, ClockTick(s))
  {
    hide ReadyPlaced, SleepPlaced, QueuesPlaced, Descending, Natural, Total, Top, Fair, Grown, WakeDue, DeferStop;
    SameFair(s, s);
    InvCore(s);
    if |s.sleep| > 0 {
      var t := s.(delays := Ticked(s.delays));
      DelayMove(s, t.delays);
      SameFair(s, t);
      if t.delays[0] <= 0 {
        DeferStartCore(t);
        DeferStartSame(t);
        WakeDueCore(DeferStart(t));
        WakeDueGrown(DeferStart(t));
        GrownTrans(s, t, DeferStart(t));
        BracketFair(s, DeferStart(t), WakeDue(DeferStart(t)));
      }
    }
  }

  lemma MessageFair(s: Kern, op: Op)
    requires Inv(s) && Enabled(s, op) && (op.OpSend? || op.OpReceive? || op.OpRecvTime? || op.OpSleepMs?)
    ensures Fair(s, Step(s, op))
  {
    hide ReadyPlaced, SleepPlaced, QueuesPlaced, Descending, Natural, Total, Top, Fair, Grown, Wake, PutToSleep;
    SameFair(s, s);
    InvCore(s);
    match op
    case OpSend(p, msg) =>
      if !BadPid(s, p) && !s.procs[p].hasMsg {
        var t := WithMessage(s, p, msg, true);
        MessageMove(s, p, msg, true);
        SameFair(s, t);
        if s.procs[p].state == RECV || s.procs[p].state == RECTIM {
          NotCurrent(t, p);
          WakeFair(t, p);
          GrownFair(s, t, Wake(t, p));
        }
      }
    case OpReceive =>
      if !s.procs[s.curr].hasMsg {
        IdleMove(s, s.curr, RECV);
        BlockFair(s, WithState(s, s.curr, RECV));
      }
    case OpRecvTime(d) => if d >= 0 && !s.procs[s.curr].hasMsg { SleepFair(s, d, RECTIM); }
    case OpSleepMs(d) => if d > 0 { SleepFair(s, d, SLEEP); } else if d == 0 { ReschedFair(s); }
  }

  lemma SleepFair(s: Kern, d: int, st: PrState)
    requires Inv(s) && MayBlock(s) && 0 <= d <= MAXKEY && (st == SLEEP || st == RECTIM)
    ensures var u := PutToSleep(s, s.curr, d, st); Placed(u) && u.defers == 0 && u.curr != NULLPROC && Fair(s, Resched(u))
  {
    hide ReadyPlaced, SleepPlaced, QueuesPlaced, Descending, Natural, Total, Top, Fair, InsertDelay, DelayPlace, Inserted;
    AsleepKeeps(s, d, st);
    BlockFair(s, PutToSleep(s, s.curr, d, st));
  }

  lemma StopFair(s: Kern, op: Op)
    requires Inv(s) && Enabled(s, op) && (op.OpSuspend? || op.OpKill? || op.OpResume?)
    ensures Fair(s, Step(s, op))
  {
    hide ReadyPlaced, SleepPlaced, QueuesPlaced, Descending, Natural, Total, Top, Fair, Grown, Wake, Leave;
    SameFair(s, s);
    InvCore(s);
    if !BadPid(s, op.p) {
      match op
      case OpSuspend(p) =>
        if p != NULLPROC && s.procs[p].state == READY {
          LeaveFair(s, p, SUSP);
        } else if p != NULLPROC && s.procs[p].state == CURR {
          assert InState(s.procs, p, CURR);
          IdleMove(s, p, SUSP);
          BlockFair(s, WithState(s, p, SUSP));
        }
      case OpResume(p) =>
        if s.procs[p].state == SUSP {
          NotCurrent(s, p);
          WakeFair(s, p);
        }
      case OpKill(p) =>
        if p != NULLPROC { KillFair(s, p); }
    }
  }

  lemma KillFair(s: Kern, p: int)
    requires Inv(s) && Enabled(s, OpKill(p)) && !BadPid(s, p) && p != NULLPROC
    ensures Fair(s, Kill(s, p))
  {
    hide ReadyPlaced, SleepPlaced, Descending, Natural, Total, Top, Fair, Distinct;
    if s.procs[p].state == CURR {
      assert InState(s.procs, p, CURR);
      IdleMove(s, p, FREE);
      BlockFair(s, WithState(s, p, FREE));
    } else if s.procs[p].state == WAIT {
      var k := s.procs[p].sem;
      assert InState(s.procs, p, WAIT);
      CountMove(s, k, s.sems[k].count + 1, true);
      var t := WithCount(s, k, s.sems[k].count + 1);
      SameFair(s, t);
      LeaveFair(t, p, FREE);
      GrownFair(s, t, Kill(s, p));
    } else {
      LeaveFair(s, p, FREE);
    }
  }

  /** In every step: while x stays ready, nobody of no higher priority that is behind it, or becomes ready
      now, is dispatched or gets ahead. A process being created has its priority from then on. */
  lemma StepFair(s: Kern, op: Op)
    requires Inv(s) && Enabled(s, op)
    ensures !op.OpCreate? ==> Fair(s, Step(s, op))
    ensures op.OpCreate? ==> forall x, y {:trigger Ahead(s, x, y)} :: Ahead(s, x, y) && (y == op.p ==> op.prio <= Prio(s.procs, x)) ==>
              Step(s, op).curr == s.curr && Ahead(Step(s, op), x, y)
    ensures op.OpCreate? ==> forall x {:trigger x in s.ready} :: x in s.ready ==> Prio(Step(s, op).procs, x) == Prio(s.procs, x)
  {
    hide ReadyPlaced, SleepPlaced, QueuesPlaced, Descending, Natural, Total, Top, Fair, SemsCounted, Wait, DeferStop, Resched;
    InvCore(s);
    SameFair(s, s);
    match op
    case OpWait(k) => WaitFair(s, k);
    case OpSignal(k) => SemaphoreFair(s, op);
    case OpSignalN(k, n) => SemaphoreFair(s, op);
    case OpSemReset(k, count) => SemaphoreFair(s, op);
    case OpSemDelete(k) => SemaphoreFair(s, op);
    case OpSend(p, msg) => MessageFair(s, op);
    case OpReceive => MessageFair(s, op);
    case OpRecvTime(d) => MessageFair(s, op);
    case OpSleepMs(d) => MessageFair(s, op);
    case OpSuspend(p) => StopFair(s, op);
    case OpResume(p) => StopFair(s, op);
    case OpKill(p) => StopFair(s, op);
    case OpYield => ReschedFair(s);
    case OpDeferStop => DeferStopFair(s);
    case OpClockTick => TickFair(s);
    case OpClockPreempt => PreemptFair(s);
    case OpSemCreate(k, count) => SameFair(s, SemCreate(s, k, count));
    case OpTakeMessage => SameFair(s, TakeMessage(s));
    case OpCreate(p, prio) => CreateAhead(s, p, prio);
    case OpDeferStart => SameFair(s, DeferStart(s));
  }

  lemma CreateAhead(s: Kern, p: int, prio: pri16)
    requires Inv(s) && Enabled(s, OpCreate(p, prio))
    ensures forall x, y {:trigger Ahead(s, x, y)} :: Ahead(s, x, y) && (y == p ==> prio <= Prio(s.procs, x)) ==>
              Create(s, p, prio).curr == s.curr && Ahead(Create(s, p, prio), x, y)
    ensures forall x {:trigger x in s.ready} :: x in s.ready ==> Prio(Create(s, p, prio).procs, x) == Prio(s.procs, x)
  {
    hide SleepPlaced, QueuesPlaced, Descending, Before, SemsCounted, Top, Distinct;
    assert !InState(s.procs, p, READY);
  }

  /** x is ready in every state of the run. */
  ghost predicate StaysReady(s: Kern, ops: seq<Op>, x: int)
    requires Inv(s) && Legal(s, ops)
    decreases |ops|
  {
    x in s.ready && (|ops| == 0 || (StepKeeps(s, ops[0]); StaysReady(Step(s, ops[0]), ops[1..], x)))
  }

  lemma StaysInReady(s: Kern, ops: seq<Op>, x: int)
    requires Inv(s) && Legal(s, ops) && StaysReady(s, ops, x)
    ensures x in s.ready
  {
  }

  lemma AheadParts(s: Kern, x: int, y: int)
    requires Ahead(s, x, y)
    ensures x in s.ready
  {
  }

  /** First-in first-out among equals over every run. x is ready; y has no higher priority, nor is it ever
      created again with a higher one, and is not ready or stands behind x. As long as x stays ready, y
      stays behind it, however often it becomes ready, and does not get the processor; it can only go on
      running if it was. */
  lemma {:induction false} FirstReadyFirst(s: Kern, ops: seq<Op>, x: int, y: int)
    requires Inv(s) && Legal(s, ops) && StaysReady(s, ops, x) && Ahead(s, x, y)
    requires forall op :: op in ops && op.OpCreate? && op.p == y ==> op.prio <= Prio(s.procs, x)
    ensures Ahead(Run(s, ops), x, y) && (Run(s, ops).curr == y ==> s.curr == y)
    decreases |ops|
  {
    hide Inv, Ahead, Enabled, Step, Prio;
    if |ops| > 0 {
      assert ops[0] in ops;
      InvCore(s);
      var t := Step(s, ops[0]);
      StepKeeps(s, ops[0]);
      StepFair(s, ops[0]);
      StaysInReady(t, ops[1..], x);
      AheadParts(s, x, y);
      FirstReadyFirst(t, ops[1..], x, y);
    }
  }

  function Slices(n: nat): (ops: seq<Op>)
    ensures |ops| == n && forall i {:trigger ops[i]} :: 0 <= i < n ==> ops[i] == OpClockPreempt
  {
    if n == 0 then [] else [OpClockPreempt] + Slices(n - 1)
  }

  /** Equals take turns: at the end of its time slice, as many interrupts as the count says, the running
      process gives way to the first of the ready list if that one is its equal. */
  lemma {:induction false} SliceEnds(s: Kern)
    requires Inv(s) && s.defers == 0 && |s.ready| > 0 && Prio(s.procs, s.ready[0]) == Prio(s.procs, s.curr)
    ensures 0 < s.preempt <= QUANTUM && Legal(s, Slices(s.preempt))
    ensures Run(s, Slices(s.preempt)).curr == s.ready[0]
    decreases s.preempt
  {
    hide Inv, Step, Prio, Freed;
    InvCore(s);
    PreemptEffect(s);
    StepKeeps(s, OpClockPreempt);
    var ops := Slices(s.preempt);
    assert ops[0] == OpClockPreempt && ops[1..] == Slices(s.preempt - 1);
    if s.preempt > 1 {
      SliceEnds(s.(preempt := s.preempt - 1));
    } else {
      assert ops[1..] == [];
    }
  }

  lemma PreemptFair(s: Kern)
    requires Inv(s)
    ensures Fair(s, ClockPreempt(s))
  {
    hide ReadyPlaced, SleepPlaced, QueuesPlaced, Descending, Natural, Total, Top, Fair;
    if s.preempt - 1 <= 0 {
      var t := s.(preempt := QUANTUM);
      SameListsPlaced(s, t);
      SameFair(s, t);
      ReschedFair(t);
      GrownFair(s, t, ClockPreempt(s));
    } else {
      SameFair(s, ClockPreempt(s));
    }
  }

  // ------------------------------------------------------------ semaphore queues

  /** Waiters leave in the order they came, except those that are killed: while x waits, whoever
      came after it waits too, and behind it. */
  ghost predicate InTurn(s: Kern, t: Kern, k: int, op: Op)
    requires 0 <= k < |s.sems| == |t.sems|
  {
    forall x, y {:trigger Before(s.sems[k].queue, x, y)} :: Before(s.sems[k].queue, x, y) && x in t.sems[k].queue ==>
      Before(t.sems[k].queue, x, y) || op == OpKill(y)
  }

  lemma SuffixTurn(q: seq<int>, n: nat, x: int, y: int)
    requires Distinct(q) && n <= |q| && Before(q, x, y) && x in q[n..]
    ensures Before(q[n..], x, y)
  {
    var i, j :| 0 <= i < j < |q| && q[i] == x && q[j] == y;
    var m :| 0 <= m < |q[n..]| && q[n..][m] == x;
    assert q[n + m] == x && i == n + m;
    assert q[n..][i - n] == x && q[n..][j - n] == y;
  }

  lemma AppendTurn(q: seq<int>, p: int, x: int, y: int)
    requires Before(q, x, y)
    ensures Before(q + [p], x, y)
  {
    var i, j :| 0 <= i < j < |q| && q[i] == x && q[j] == y;
    assert (q + [p])[i] == x && (q + [p])[j] == y;
  }

  /** What a step can do to a queue: nothing, let the first ones go, add one at the end, or lose
      one that is killed. */
  ghost predicate QueueStep(q: seq<int>, q': seq<int>, op: Op) {
    || (exists n: nat :: n <= |q| && q' == q[n..])
    || (exists p :: q' == q + [p])
    || (op.OpKill? && op.p in q && q' == Remove(q, op.p))
  }

  lemma QueueStepTurn(s: Kern, t: Kern, k: int, op: Op)
    requires 0 <= k < |s.sems| == |t.sems| && Distinct(s.sems[k].queue) && QueueStep(s.sems[k].queue, t.sems[k].queue, op)
    ensures InTurn(s, t, k, op)
  {
    hide Before, Distinct, Remove;
    var q, q' := s.sems[k].queue, t.sems[k].queue;
    forall x, y | Before(q, x, y) && x in q' ensures Before(q', x, y) || op == OpKill(y) {
      if n: nat :| n <= |q| && q' == q[n..] {
        SuffixTurn(q, n, x, y);
      } else if p :| q' == q + [p] {
        AppendTurn(q, p, x, y);
      } else {
        RemoveFacts(q, op.p);
        RemoveBefore(q, op.p, x, y);
      }
    }
  }

  lemma Unmoved(s: Kern, t: Kern, k: int, op: Op)
    requires 0 <= k < |s.sems| == |t.sems| && t.sems[k].queue == s.sems[k].queue
    ensures QueueStep(s.sems[k].queue, t.sems[k].queue, op)
  {
    var q := s.sems[k].queue;
    assert q[0..] == q;
  }

  lemma Suffix(q: seq<int>, n: nat, op: Op)
    requires n <= |q|
    ensures QueueStep(q, q[n..], op) && (n == |q| ==> q[n..] == [])
  {
  }

  lemma SignalQueues(s: Kern, k: int, j: int)
    requires Inv(s) && 0 <= j < NSEM
    ensures |Signal(s, k).sems| == NSEM && QueueStep(s.sems[j].queue, Signal(s, k).sems[j].queue, OpSignal(k))
  {
    hide Placed, Running, Scheduled, Natural, Total, QueueStep, SignalOnce, SemsCounted;
    InvCore(s);
    Unmoved(s, s, j, OpSignal(k));
    if !BadSem(s, k) {
      SemOwed(s, k);
      SignalOnceCore(s, k);
      if |s.sems[k].queue| > 0 { Suffix(s.sems[k].queue, 1, OpSignal(k)); }
    }
  }

  lemma SignalNQueues(s: Kern, k: int, n: int, j: int)
    requires Inv(s) && 0 <= j < NSEM
    ensures |SignalN(s, k, n).sems| == NSEM && QueueStep(s.sems[j].queue, SignalN(s, k, n).sems[j].queue, OpSignalN(k, n))
  {
    hide Placed, Running, Scheduled, Natural, Total, QueueStep, SignalLoop, DeferStop, SemsCounted;
    InvCore(s);
    Unmoved(s, s, j, OpSignalN(k, n));
    if !BadSem(s, k) && n >= 0 {
      SemOwed(s, k);
      DeferStartCore(s);
      var q, d := s.sems[k].queue, DeferStart(s);
      SignalLoopCore(d, k, n);
      DeferStopCore(SignalLoop(d, k, n));
      Suffix(q, if n <= |q| then n else |q|, OpSignalN(k, n));
    }
  }

  lemma SemResetQueues(s: Kern, k: int, count: int, j: int)
    requires Inv(s) && 0 <= j < NSEM
    ensures |SemReset(s, k, count).sems| == NSEM && QueueStep(s.sems[j].queue, SemReset(s, k, count).sems[j].queue, OpSemReset(k, count))
  {
    hide Placed, Running, Scheduled, Natural, Total, QueueStep, DrainLoop, DeferStop, SemsCounted;
    InvCore(s);
    Unmoved(s, s, j, OpSemReset(k, count));
    if !BadSem(s, k) && count >= 0 {
      DeferStartCore(s);
      var q, d := s.sems[k].queue, DeferStart(s);
      DrainLoopCore(d, k, |q|);
      CountMove(DrainLoop(d, k, |q|), k, count, true);
      DeferStopCore(WithCount(DrainLoop(d, k, |q|), k, count));
      Suffix(q, |q|, OpSemReset(k, count));
    }
  }

  lemma SemDeleteQueues(s: Kern, k: int, j: int)
    requires Inv(s) && 0 <= j < NSEM
    ensures |SemDelete(s, k).sems| == NSEM && QueueStep(s.sems[j].queue, SemDelete(s, k).sems[j].queue, OpSemDelete(k))
  {
    hide Placed, Running, Scheduled, Natural, Total, QueueStep, DeleteLoop, DeferStop, SemsCounted;
    InvCore(s);
    Unmoved(s, s, j, OpSemDelete(k));
    if !BadSem(s, k) {
      SemOwed(s, k);
      var q := s.sems[k].queue;
      CountMove(s, k, s.sems[k].count, false);
      var t := s.(sems := s.sems[k := s.sems[k].(used := false)]);
      DeferStartCore(t);
      DeleteLoopCore(DeferStart(t), k);
      DeferStopCore(DeleteLoop(DeferStart(t), k));
      Suffix(q, |q|, OpSemDelete(k));
    }
  }

  lemma SemaphoreQueues(s: Kern, op: Op, j: int)
    requires Inv(s) && Enabled(s, op) && 0 <= j < NSEM && (op.OpSignal? || op.OpSignalN? || op.OpSemReset? || op.OpSemDelete?)
    ensures |Step(s, op).sems| == NSEM && QueueStep(s.sems[j].queue, Step(s, op).sems[j].queue, op)
  {
    hide Inv, QueueStep, Signal, SignalN, SemReset, SemDelete;
    InvCore(s);
    match op
    case OpSignal(k) => SignalQueues(s, k, j);
    case OpSignalN(k, n) => SignalNQueues(s, k, n, j);
    case OpSemReset(k, count) => SemResetQueues(s, k, count, j);
    case OpSemDelete(k) => SemDeleteQueues(s, k, j);
  }

  lemma WaitQueues(s: Kern, k: int, j: int)
    requires Inv(s) && Enabled(s, OpWait(k)) && 0 <= j < NSEM
    ensures |Wait(s, k).sems| == NSEM && QueueStep(s.sems[j].queue, Wait(s, k).sems[j].queue, OpWait(k))
  {
    hide ReadyPlaced, SleepPlaced, QueuesPlaced, OneCurrent, Descending, Natural, Total, Top, SemsCounted;
    InvCore(s);
    Unmoved(s, s, j, OpWait(k));
    if !BadSem(s, k) {
      SemOwed(s, k);
      var t := WithCount(s, k, s.sems[k].count - 1);
      CountMove(s, k, s.sems[k].count - 1, true);
      if t.sems[k].count < 0 {
        WaitMove(t, t.curr, k);
        ReschedKeeps(Enqueued(t, t.curr, k));
      }
    }
  }

  lemma LeaveSems(s: Kern, p: int)
    requires Placed(s) && IsPid(p)
    ensures s.procs[p].state != WAIT ==> Leave(s, p).sems == s.sems
    ensures s.procs[p].state == WAIT ==>
              var k := s.procs[p].sem;
              0 <= k < NSEM && p in s.sems[k].queue && Leave(s, p).sems == s.sems[k := s.sems[k].(queue := Remove(s.sems[k].queue, p))]
  {
    hide ReadyPlaced, SleepPlaced, OneCurrent, Descending, Remove, DropDelay;
    if s.procs[p].state == WAIT {
      assert InState(s.procs, p, WAIT) && WaitsOn(s.procs, p, s.procs[p].sem);
    }
  }

  lemma KillQueues(s: Kern, p: int, j: int)
    requires Inv(s) && Enabled(s, OpKill(p)) && 0 <= j < NSEM
    ensures |Kill(s, p).sems| == NSEM && QueueStep(s.sems[j].queue, Kill(s, p).sems[j].queue, OpKill(p))
  {
    hide ReadyPlaced, SleepPlaced, QueuesPlaced, Descending, Natural, Total, Top, SemsCounted, Remove, Leave, QueueStep;
    InvCore(s);
    Unmoved(s, s, j, OpKill(p));
    if !BadPid(s, p) && p != NULLPROC {
      LeaveSems(s, p);
      if s.procs[p].state == CURR {
        assert InState(s.procs, p, CURR);
        IdleMove(s, p, FREE);
        ReschedKeeps(WithState(s, p, FREE));
      } else if s.procs[p].state == WAIT {
        var k := s.procs[p].sem;
        CountMove(s, k, s.sems[k].count + 1, true);
        var t := WithCount(s, k, s.sems[k].count + 1);
        LeaveSems(t, p);
        LostOne(s.sems[k].queue, p);
      }
    }
  }

  lemma LostOne(q: seq<int>, p: int)
    requires p in q
    ensures QueueStep(q, Remove(q, p), OpKill(p))
  {
  }

  lemma StepQueues(s: Kern, op: Op, k: int)
    requires Inv(s) && Enabled(s, op) && 0 <= k < NSEM
    ensures |Step(s, op).sems| == NSEM && QueueStep(s.sems[k].queue, Step(s, op).sems[k].queue, op)
  {
    hide Inv, QueueStep;
    InvCore(s);
    if op.OpWait? {
      WaitQueues(s, op.k, k);
    } else if op.OpSignal? || op.OpSignalN? || op.OpSemReset? || op.OpSemDelete? {
      SemaphoreQueues(s, op, k);
    } else if op.OpKill? {
      KillQueues(s, op.p, k);
    } else {
      SemsSame(s, op);
      Unmoved(s, Step(s, op), k, op);
    }
  }

  /** In every step each semaphore's waiters keep their turns. */
  lemma StepInTurn(s: Kern, op: Op, k: int)
    requires Inv(s) && Enabled(s, op) && 0 <= k < NSEM
    ensures |Step(s, op).sems| == NSEM && InTurn(s, Step(s, op), k, op)
  {
    hide Step, InTurn, QueueStep, ReadyPlaced, SleepPlaced, OneCurrent, Descending, Natural, Total, Top, SemsCounted, Distinct, Scheduled;
    assert Distinct(s.sems[k].queue);
    StepQueues(s, op, k);
    QueueStepTurn(s, Step(s, op), k, op);
  }

  lemma SendSems(s: Kern, p: int, msg: int)
    requires Inv(s)
    ensures Send(s, p, msg).sems == s.sems
  {
    hide ReadyPlaced, SleepPlaced, QueuesPlaced, OneCurrent, Descending, Natural, Total, Top, SemsCounted, Wake, Leave;
    InvCore(s);
    if !BadPid(s, p) && !s.procs[p].hasMsg {
      var t := WithMessage(s, p, msg, true);
      MessageMove(s, p, msg, true);
      if s.procs[p].state == RECV || s.procs[p].state == RECTIM { WokenSems(s, t, p); }
    }
  }

  lemma ReceiveSems(s: Kern)
    requires Inv(s) && Enabled(s, OpReceive)
    ensures Receive(s).sems == s.sems
  {
    hide ReadyPlaced, SleepPlaced, QueuesPlaced, OneCurrent, Descending, Natural, Total, Top, SemsCounted, Wake, Leave;
    InvCore(s);
    if !s.procs[s.curr].hasMsg {
      IdleMove(s, s.curr, RECV);
      ReschedKeeps(WithState(s, s.curr, RECV));
    }
  }

  lemma SuspendSems(s: Kern, p: int)
    requires Inv(s) && Enabled(s, OpSuspend(p))
    ensures Suspend(s, p).sems == s.sems
  {
    hide ReadyPlaced, SleepPlaced, QueuesPlaced, OneCurrent, Descending, Natural, Total, Top, SemsCounted, Wake, Leave;
    InvCore(s);
    if !BadPid(s, p) && p != NULLPROC {
      if s.procs[p].state == READY {
        LeaveParts(s, p);
      } else if s.procs[p].state == CURR {
        assert InState(s.procs, p, CURR);
        IdleMove(s, p, SUSP);
        ReschedKeeps(WithState(s, p, SUSP));
      }
    }
  }

  lemma ResumeSems(s: Kern, p: int)
    requires Inv(s)
    ensures Resume(s, p).sems == s.sems
  {
    hide ReadyPlaced, SleepPlaced, QueuesPlaced, OneCurrent, Descending, Natural, Total, Top, SemsCounted, Wake, Leave;
    InvCore(s);
    if !BadPid(s, p) && s.procs[p].state == SUSP { WokenSems(s, s, p); }
  }

  lemma PreemptSems(s: Kern)
    requires Inv(s)
    ensures ClockPreempt(s).sems == s.sems
  {
    hide ReadyPlaced, SleepPlaced, QueuesPlaced, OneCurrent, Descending, Natural, Total, Top, SemsCounted, Wake, Leave;
    InvCore(s);
    if s.preempt - 1 <= 0 {
      SameListsPlaced(s, s.(preempt := QUANTUM));
      ReschedKeeps(s.(preempt := QUANTUM));
    }
  }

  /** The other steps leave all queues alone. */
  lemma SemsSame(s: Kern, op: Op)
    requires Inv(s) && Enabled(s, op)
    requires !(op.OpWait? || op.OpSignal? || op.OpSignalN? || op.OpSemReset? || op.OpSemDelete? || op.OpKill?)
    ensures |Step(s, op).sems| == NSEM && forall k {:trigger s.sems[k]} :: 0 <= k < NSEM ==> Step(s, op).sems[k].queue == s.sems[k].queue
  {
    hide Inv, Placed, Running, Scheduled, SemsCounted, Deltas, Send, Receive, Suspend, Resume, ClockPreempt, ClockTick, DeferStop, Resched, PutToSleep;
    InvCore(s);
    match op {
      case OpSend(p, msg) => SendSems(s, p, msg);
      case OpReceive => ReceiveSems(s);
      case OpRecvTime(d) => if d >= 0 && !s.procs[s.curr].hasMsg { SleptSems(s, d, RECTIM); }
      case OpSleepMs(d) => if d > 0 { SleptSems(s, d, SLEEP); } else if d == 0 { ReschedKeeps(s); }
      case OpSuspend(p) => SuspendSems(s, p);
      case OpResume(p) => ResumeSems(s, p);
      case OpYield => ReschedKeeps(s);
      case OpDeferStop => DeferStopCore(s);
      case OpClockTick => TickKeeps(s);
      case OpClockPreempt => PreemptSems(s);
      case _ =>
    }
  }

  lemma WokenSems(s: Kern, t: Kern, p: int)
    requires Core(t) && IsPid(p) && t.sems == s.sems
    requires t.procs[p].state == RECV || t.procs[p].state == RECTIM || t.procs[p].state == SUSP
    ensures Wakeable(t, p) && Wake(t, p).sems == s.sems
  {
    hide ReadyPlaced, SleepPlaced, QueuesPlaced, Descending, Natural, Total, Top, SemsCounted, Wake, Leave;
    NotCurrent(t, p);
    WakeCore(t, p);
    LeaveSems(t, p);
  }

  lemma SleptSems(s: Kern, d: int, st: PrState)
    requires Inv(s) && MayBlock(s) && 0 <= d <= MAXKEY && (st == SLEEP || st == RECTIM)
    ensures var u := PutToSleep(s, s.curr, d, st); Placed(u) && u.defers == 0 && u.curr != NULLPROC && Resched(u).sems == s.sems
  {
    hide ReadyPlaced, SleepPlaced, QueuesPlaced, Descending, Natural, Total, Top, SemsCounted, InsertDelay, DelayPlace, Inserted;
    AsleepKeeps(s, d, st);
    ReschedKeeps(PutToSleep(s, s.curr, d, st));
  }
}
