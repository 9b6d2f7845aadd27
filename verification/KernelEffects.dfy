/** What each call and interrupt does, field by field: to the semaphore it names, to the process it names or
    that calls, to the sleepers, and to the processor. Everybody else at most changes between running and ready. */
module KernelEffects {
  import opened Common
  import opened DeltaList
  import opened KernelModel
  import opened KernelMoves
  import opened KernelCalls
  import opened KernelRuns

  predicate Runnable(st: PrState) { st == CURR || st == READY }

  predicate SameState(a: PrState, b: PrState) { a == b || (Runnable(a) && Runnable(b)) }

  /** The processes in q can run now; all others can if they could, and nothing else about anybody differs. */
  ghost predicate Freed(s: Kern, t: Kern, q: seq<int>) {
    |s.procs| == |t.procs| && forall p {:trigger t.procs[p]} {:trigger s.procs[p]} :: 0 <= p < |s.procs| ==>
      && t.procs[p] == s.procs[p].(state := t.procs[p].state)
      && if p in q then Runnable(t.procs[p].state) else SameState(s.procs[p].state, t.procs[p].state)
  }

  /** The table with another entry for p. */
  function WithProc(s: Kern, p: int, r: Proc): (t: Kern)
    requires 0 <= p < |s.procs|
  {
    s.(procs := s.procs[p := r])
  }

  /** The processor goes to the first of the ready list. */
  ghost predicate Handed(s: Kern, t: Kern) {
    |s.ready| > 0 && t.curr == s.ready[0] && t.ready == s.ready[1..] && t.preempt == QUANTUM
  }

  lemma FreedTrans(s: Kern, t: Kern, u: Kern, q: seq<int>, n: nat)
    requires n <= |q| && Freed(s, t, q[..n]) && Freed(t, u, q[n..])
    ensures Freed(s, u, q)
  {
    assert q == q[..n] + q[n..];
    forall p | 0 <= p < |s.procs|
      ensures u.procs[p] == s.procs[p].(state := u.procs[p].state)
      ensures if p in q then Runnable(u.procs[p].state) else SameState(s.procs[p].state, u.procs[p].state)
    {
      assert t.procs[p] == s.procs[p].(state := t.procs[p].state);
    }
  }

  lemma FreedSame(s: Kern, t: Kern, u: Kern, q: seq<int>)
    requires t.procs == s.procs && Freed(t, u, q)
    ensures Freed(s, u, q)
  {
  }

  lemma FreedNone(s: Kern, t: Kern)
    requires t.procs == s.procs
    ensures Freed(s, t, [])
  {
  }

  // ------------------------------------------------------------ the scheduler

  lemma DispatchEffect(s: Kern)
    requires Placed(s) && |s.ready| > 0 && IsPid(s.ready[0])
    ensures Freed(s, Dispatch(s), []) && Handed(s, Dispatch(s))
  {
    hide Distinct, SleepPlaced, QueuesPlaced, OneCurrent, Descending;
    assert s.ready[0] in s.ready && InState(s.procs, s.ready[0], READY);
  }

  /** A process that stops running hands the processor to the first of the ready list. */
  lemma BlockedEffect(s: Kern)
    requires Placed(s) && !Running(s) && s.defers == 0 && s.curr != NULLPROC
    ensures Freed(s, Resched(s), []) && Handed(s, Resched(s))
  {
    hide Placed, Dispatch, Freed, Handed;
    NullReady(s);
    DispatchEffect(s);
  }

  lemma ReschedEffect(s: Kern)
    requires Placed(s) && Running(s)
    ensures Freed(s, Resched(s), [])
    ensures s.defers > 0 ==> Resched(s) == s.(attempt := true)
    ensures s.defers == 0 ==>
              if |s.ready| > 0 && Prio(s.procs, s.curr) <= Prio(s.procs, s.ready[0]) then Resched(s).curr == s.ready[0] && Resched(s).preempt == QUANTUM
              else Resched(s) == s
  {
    hide SleepPlaced, QueuesPlaced, Descending, Distinct, InsertReady, Prio, Freed;
    FreedNone(s, s);
    FreedNone(s, s.(attempt := true));
    if s.defers == 0 && |s.ready| > 0 && Prio(s.procs, s.curr) <= Prio(s.procs, s.ready[0]) {
      RequeuedPlaced(s);
      RequeuedFreed(s);
      DispatchEffect(Requeued(s));
      FreedTrans(s, Requeued(s), Dispatch(Requeued(s)), [], 0);
      RequeuedHead(s);
    }
  }

  lemma RequeuedFreed(s: Kern)
    requires Placed(s) && Running(s)
    ensures Freed(s, Requeued(s), [])
  {
  }

  lemma RequeuedHead(s: Kern)
    requires Placed(s) && |s.ready| > 0 && Prio(s.procs, s.curr) <= Prio(s.procs, s.ready[0])
    ensures Requeued(s).ready[0] == s.ready[0]
  {
    hide Prio, SleepPlaced, QueuesPlaced, Descending, Distinct;
    var k := ReadyPlace(s.procs, s.ready, Prio(s.procs, s.curr));
  }

  lemma WakeEffect(s: Kern, p: int)
    requires Core(s) && Wakeable(s, p)
    ensures Freed(s, Wake(s, p), [p])
  {
    hide Placed, InsertReady, Leave, Freed;
    AwakenedMove(s, p);
    AwakenedFreed(s, p);
    ReschedEffect(Awakened(s, p));
    assert [p][1..] == [] && [p][..1] == [p];
    FreedTrans(s, Awakened(s, p), Wake(s, p), [p], 1);
  }

  lemma AwakenedFreed(s: Kern, p: int)
    requires Placed(s) && IsPid(p)
    ensures Freed(s, Awakened(s, p), [p])
  {
    hide Placed, InsertReady, Leave;
  }

  // ------------------------------------------------------------ semaphores

  function First(q: seq<int>, n: int): (r: seq<int>) { q[..if n < 0 then 0 else if n <= |q| then n else |q|] }

  function Behind(q: seq<int>, n: int): (r: seq<int>) { q[if n < 0 then 0 else if n <= |q| then n else |q|..] }

  lemma SignalOnceEffect(s: Kern, k: int)
    requires Core(s) && 0 <= k < NSEM && Owed(s.sems[k])
    ensures Freed(s, SignalOnce(s, k), First(s.sems[k].queue, 1))
    ensures s.sems[k].count >= 0 ==> SignalOnce(s, k).procs == s.procs
  {
    hide Placed, Running, Scheduled, Freed, Wake, Leave;
    CoreShape(s);
    var t := WithCount(s, k, s.sems[k].count + 1);
    CountMove(s, k, s.sems[k].count + 1, true);
    var q := s.sems[k].queue;
    if s.sems[k].count < 0 {
      FirstWaiter(t, k);
      WakeEffect(t, q[0]);
      assert q[..1] == [q[0]];
      FreedSame(s, t, SignalOnce(s, k), q[..1]);
    } else {
      assert q[..0] == [];
      FreedNone(s, t);
    }
  }

  lemma {:induction false} SignalLoopEffect(s: Kern, k: int, n: nat)
    requires Core(s) && 0 <= k < NSEM && Owed(s.sems[k])
    ensures Freed(s, SignalLoop(s, k, n), First(s.sems[k].queue, n))
    decreases n
  {
    hide Core, SignalOnce, Freed;
    CoreShape(s);
    var q := s.sems[k].queue;
    if n == 0 {
      assert q[..0] == [];
      FreedNone(s, s);
    } else {
      SignalOnceCore(s, k);
      SignalOnceEffect(s, k);
      SignalLoopEffect(SignalOnce(s, k), k, n - 1);
      var f := First(q, n);
      if |q| > 0 {
        assert f[..1] == q[..1] && f[1..] == First(q[1..], n - 1);
        FreedTrans(s, SignalOnce(s, k), SignalLoop(s, k, n), f, 1);
      } else {
        assert f[..0] == [] && f[0..] == First(q, n - 1) == [];
        FreedTrans(s, SignalOnce(s, k), SignalLoop(s, k, n), f, 0);
      }
    }
  }

  lemma {:induction false} DrainLoopEffect(s: Kern, k: int, n: nat)
    requires Core(s) && 0 <= k < NSEM && n <= |s.sems[k].queue|
    ensures Freed(s, DrainLoop(s, k, n), s.sems[k].queue[..n])
    decreases n
  {
    hide Core, Leave, Wake, Freed;
    CoreShape(s);
    var q := s.sems[k].queue;
    if n == 0 {
      assert q[..0] == [];
      FreedNone(s, s);
    } else {
      FirstWaiter(s, k);
      WakeCore(s, q[0]);
      WakeEffect(s, q[0]);
      DrainLoopEffect(Wake(s, q[0]), k, n - 1);
      assert q[..n][..1] == [q[0]] && q[..n][1..] == q[1..][..n - 1];
      FreedTrans(s, Wake(s, q[0]), DrainLoop(s, k, n), q[..n], 1);
    }
  }

  lemma {:induction false} DeleteLoopEffect(s: Kern, k: int)
    requires Core(s) && 0 <= k < NSEM && Owed(s.sems[k])
    ensures Freed(s, DeleteLoop(s, k), s.sems[k].queue)
    decreases if s.sems[k].count < 0 then -s.sems[k].count else 0
  {
    hide Core, SignalOnce, Freed;
    CoreShape(s);
    SignalOnceCore(s, k);
    SignalOnceEffect(s, k);
    var q := s.sems[k].queue;
    if s.sems[k].count < 0 {
      DeleteLoopEffect(SignalOnce(s, k), k);
      FreedTrans(s, SignalOnce(s, k), DeleteLoop(s, k), q, 1);
    } else {
      assert q[..0] == [] == q;
    }
  }

  lemma DeferStopEffect(s: Kern)
    requires Core(s)
    ensures Freed(s, DeferStop(s), [])
  {
    hide Placed, Running, Freed;
    CoreShape(s);
    FreedNone(s, s);
    if s.defers > 0 {
      var t := s.(defers := s.defers - 1);
      SameListsPlaced(s, t);
      FreedNone(s, t);
      if t.defers == 0 && t.attempt {
        ReschedEffect(t);
        FreedSame(s, t, DeferStop(s), []);
      }
    }
  }

  /** A loop between the start and the end of a deferral. */
  lemma BracketEffect(s: Kern, d: Kern, u: Kern, q: seq<int>)
    requires d.procs == s.procs && Freed(d, u, q) && Core(u)
    ensures Freed(s, DeferStop(u), q)
  {
    hide Freed, Core, DeferStop;
    DeferStopEffect(u);
    FreedSame(s, d, u, q);
    assert q[..|q|] == q && q[|q|..] == [];
    FreedTrans(s, u, DeferStop(u), q, |q|);
  }

  /** wait takes one unit. If there was none to be had the caller waits at the end of the queue, and the
      processor goes to the first of the ready list. */
  lemma WaitEffect(s: Kern, k: int)
    requires Inv(s) && Enabled(s, OpWait(k))
    ensures BadSem(s, k) ==> Step(s, OpWait(k)) == s
    ensures !BadSem(s, k) ==>
              var m, t := s.sems[k], Step(s, OpWait(k));
              && t.sems == s.sems[k := Sem(true, m.count - 1, if m.count > 0 then m.queue else m.queue + [s.curr])]
              && (m.count > 0 ==> t == s.(sems := t.sems))
              && (m.count <= 0 ==>
                    && Freed(WithProc(s, s.curr, s.procs[s.curr].(state := WAIT, sem := k)), t, [])
                    && Handed(s, t) && t.curr != s.curr && WaitsOn(t.procs, s.curr, k) && SleepKept(s, t))
  {
    hide ReadyPlaced, SleepPlaced, QueuesPlaced, OneCurrent, Descending, Natural, Total, Top, Freed, SemsCounted, Dispatch;
    InvCore(s);
    if !BadSem(s, k) {
      var t := WithCount(s, k, s.sems[k].count - 1);
      CountMove(s, k, s.sems[k].count - 1, true);
      if t.sems[k].count < 0 {
        WaitMove(t, t.curr, k);
        var u := Enqueued(t, t.curr, k);
        BlockedEffect(u);
        ReschedKeeps(u);
        FreedSame(WithProc(s, s.curr, s.procs[s.curr].(state := WAIT, sem := k)), u, Resched(u), []);
        StillBlocked(u, Resched(u));
      }
    }
  }

  /** Who is not runnable stays what it is, and does not run. */
  lemma StillBlocked(u: Kern, t: Kern)
    requires Freed(u, t, []) && 0 <= u.curr < |u.procs| && !Runnable(u.procs[u.curr].state) && Shape(t) && Running(t)
    ensures t.curr != u.curr && t.procs[u.curr] == u.procs[u.curr]
  {
  }

  /** signal gives back one unit: the first waiter, if any, goes on. */
  lemma SignalEffect(s: Kern, k: int)
    requires Inv(s)
    ensures BadSem(s, k) ==> Step(s, OpSignal(k)) == s
    ensures !BadSem(s, k) ==>
              var m, t := s.sems[k], Step(s, OpSignal(k));
              && t.sems == s.sems[k := Sem(true, m.count + 1, Behind(m.queue, 1))]
              && Freed(s, t, First(m.queue, 1)) && SleepKept(s, t) && t.defers == s.defers
              && (m.queue == [] ==> t == s.(sems := t.sems))
  {
    hide Placed, Running, Scheduled, Natural, Total, Freed, SignalOnce;
    InvCore(s);
    if !BadSem(s, k) {
      SemOwed(s, k);
      SignalOnceCore(s, k);
      SignalOnceEffect(s, k);
      NoWaiter(s, k);
    }
  }

  lemma NoWaiter(s: Kern, k: int)
    requires Core(s) && 0 <= k < NSEM && Owed(s.sems[k])
    ensures s.sems[k].queue == [] ==> SignalOnce(s, k) == WithCount(s, k, s.sems[k].count + 1)
    ensures Behind(s.sems[k].queue, 1) == if s.sems[k].count < 0 then s.sems[k].queue[1..] else s.sems[k].queue
  {
    hide Placed, Running, Scheduled, Wake;
  }

  /** signaln gives back n units at once: the first n waiters, or all, go on. */
  lemma SignalNEffect(s: Kern, k: int, n: int)
    requires Inv(s)
    ensures BadSem(s, k) || n < 0 ==> Step(s, OpSignalN(k, n)) == s
    ensures !BadSem(s, k) && n >= 0 ==>
              var m, t := s.sems[k], Step(s, OpSignalN(k, n));
              && t.sems == s.sems[k := Sem(true, m.count + n, Behind(m.queue, n))]
              && Freed(s, t, First(m.queue, n)) && SleepKept(s, t) && t.defers == s.defers
  {
    hide Placed, Running, Scheduled, Natural, Total, Freed, SignalLoop, DeferStop;
    InvCore(s);
    if !BadSem(s, k) && n >= 0 {
      SemOwed(s, k);
      DeferStartCore(s);
      var d := DeferStart(s);
      SignalLoopCore(d, k, n);
      SignalLoopEffect(d, k, n);
      DeferStopCore(SignalLoop(d, k, n));
      BracketEffect(s, d, SignalLoop(d, k, n), First(s.sems[k].queue, n));
    }
  }

  /** semcreate: the entry has the count it was asked for and nobody waits. */
  lemma SemCreateEffect(s: Kern, k: int, count: int)
    requires Inv(s) && Enabled(s, OpSemCreate(k, count))
    ensures Step(s, OpSemCreate(k, count)) == s.(sems := s.sems[k := Sem(true, count, [])])
  {
    hide Placed, Running, Scheduled, Natural, Total;
    InvCore(s);
    assert Counted(s.sems[k]);
  }

  /** semreset: everybody waiting goes on and the count is the new one. */
  lemma SemResetEffect(s: Kern, k: int, count: int)
    requires Inv(s)
    ensures BadSem(s, k) || count < 0 ==> Step(s, OpSemReset(k, count)) == s
    ensures !BadSem(s, k) && count >= 0 ==>
              var m, t := s.sems[k], Step(s, OpSemReset(k, count));
              && t.sems == s.sems[k := Sem(true, count, [])]
              && Freed(s, t, m.queue) && SleepKept(s, t) && t.defers == s.defers
  {
    hide Placed, Running, Scheduled, Natural, Total, DrainLoop, DeferStop, Freed;
    InvCore(s);
    if !BadSem(s, k) && count >= 0 {
      var q := s.sems[k].queue;
      var d := DeferStart(s);
      DeferStartCore(s);
      DrainLoopCore(d, k, |q|);
      DrainLoopEffect(d, k, |q|);
      var t := DrainLoop(d, k, |q|);
      CountMove(t, k, count, true);
      DeferStopCore(WithCount(t, k, count));
      assert q[|q|..] == [] && q[..|q|] == q;
      SemsTwice(s.sems, k, s.sems[k].(queue := []), Sem(true, count, []));
      FreedEnd(d, t, WithCount(t, k, count), q);
      BracketEffect(s, d, WithCount(t, k, count), q);
    }
  }

  lemma FreedEnd(s: Kern, t: Kern, u: Kern, q: seq<int>)
    requires Freed(s, t, q) && u.procs == t.procs
    ensures Freed(s, u, q)
  {
  }

  /** semdelete: everybody waiting goes on and the entry is free. */
  lemma SemDeleteEffect(s: Kern, k: int)
    requires Inv(s)
    ensures BadSem(s, k) ==> Step(s, OpSemDelete(k)) == s
    ensures !BadSem(s, k) ==>
              var m, t := s.sems[k], Step(s, OpSemDelete(k));
              && |t.sems| == NSEM && t.sems == s.sems[k := t.sems[k]] && !t.sems[k].used && t.sems[k].queue == []
              && Freed(s, t, m.queue) && SleepKept(s, t) && t.defers == s.defers
  {
    hide Placed, Running, Scheduled, Natural, Total, DeleteLoop, DeferStop, Freed;
    InvCore(s);
    if !BadSem(s, k) {
      SemOwed(s, k);
      CountMove(s, k, s.sems[k].count, false);
      var t := s.(sems := s.sems[k := s.sems[k].(used := false)]);
      var d := DeferStart(t);
      DeferStartCore(t);
      DeleteLoopCore(d, k);
      DeleteLoopEffect(d, k);
      DeferStopCore(DeleteLoop(d, k));
      SemsTwice(s.sems, k, t.sems[k], SemDelete(s, k).sems[k]);
      BracketEffect(s, d, DeleteLoop(d, k), s.sems[k].queue);
    }
  }

  // ------------------------------------------------------------ messages

  /** send: refused if there is a message not yet taken; otherwise the message is there, and a process that
      waits for one goes on. */
  lemma SendEffect(s: Kern, p: int, msg: int)
    requires Inv(s)
    ensures BadPid(s, p) || s.procs[p].hasMsg ==> Step(s, OpSend(p, msg)) == s
    ensures !BadPid(s, p) && !s.procs[p].hasMsg ==>
              var r, t := s.procs[p], Step(s, OpSend(p, msg));
              && Freed(WithProc(s, p, r.(msg := msg, hasMsg := true)), t, if r.state == RECV || r.state == RECTIM then [p] else [])
              && |t.procs| == NPROC && t.procs[p].msg == msg && t.procs[p].hasMsg && t.defers == s.defers && t.sems == s.sems
              && (r.state != RECV && r.state != RECTIM ==> t == s.(procs := t.procs))
              && (if r.state == RECTIM then SleepDropped(s, t, p) else SleepKept(s, t))
  {
    hide ReadyPlaced, SleepPlaced, QueuesPlaced, OneCurrent, Descending, Natural, Total, Top, SemsCounted, Wake, Leave, SleepDropped;
    InvCore(s);
    if !BadPid(s, p) && !s.procs[p].hasMsg {
      var t := WithMessage(s, p, msg, true);
      MessageMove(s, p, msg, true);
      SendKeeps(s, p, msg);
      SleeperListed(s, p);
      if s.procs[p].state == RECV || s.procs[p].state == RECTIM {
        NotCurrent(t, p);
        WakeEffect(t, p);
        WakeCore(t, p);
        LeaveElsewhere(t, p);
        assert p in [p];
        SendSleeper(s, p, msg);
      }
    }
  }

  lemma SleeperListed(s: Kern, p: int)
    requires Inv(s)
    ensures p in s.sleep <==> Asleep(s.procs, p)
  {
  }

  lemma LeaveElsewhere(s: Kern, p: int)
    requires Placed(s) && IsPid(p) && s.procs[p].state != WAIT
    ensures Leave(s, p).sems == s.sems
  {
    hide Remove, DropDelay, Descending, Distinct;
  }

  lemma SendSleeper(s: Kern, p: int, msg: int)
    requires Inv(s) && !BadPid(s, p) && !s.procs[p].hasMsg
    ensures Send(s, p, msg) != s
  {
    hide ReadyPlaced, SleepPlaced, QueuesPlaced, OneCurrent, Descending, Natural, Total, Top, SemsCounted, Leave, Wake;
    var t := WithMessage(s, p, msg, true);
    MessageMove(s, p, msg, true);
    if s.procs[p].state == RECV || s.procs[p].state == RECTIM {
      NotCurrent(t, p);
      WakeEffect(t, p);
    }
    assert Send(s, p, msg).procs[p].hasMsg;
  }

  /** receive and recvtime: nothing happens if there is a message; otherwise the caller waits for one. */
  lemma ReceiveEffect(s: Kern)
    requires Inv(s) && Enabled(s, OpReceive)
    ensures s.procs[s.curr].hasMsg ==> Step(s, OpReceive) == s
    ensures !s.procs[s.curr].hasMsg ==>
              var t := Step(s, OpReceive);
              && Freed(WithProc(s, s.curr, s.procs[s.curr].(state := RECV)), t, [])
              && Handed(s, t) && t.curr != s.curr && InState(t.procs, s.curr, RECV) && t.sems == s.sems && SleepKept(s, t)
  {
    hide ReadyPlaced, SleepPlaced, QueuesPlaced, OneCurrent, Descending, Natural, Total, Top, Freed, SemsCounted, Dispatch;
    InvCore(s);
    if !s.procs[s.curr].hasMsg {
      IdleMove(s, s.curr, RECV);
      StoppedEffect(s, WithState(s, s.curr, RECV));
    }
  }

  /** The running process stops. */
  lemma StoppedEffect(s: Kern, u: Kern)
    requires Inv(s) && s.defers == 0 && s.curr != NULLPROC && Placed(u) && !Runnable(u.procs[s.curr].state)
    requires u.curr == s.curr && u.ready == s.ready && u.defers == 0
    ensures var t := Resched(u);
            Freed(u, t, []) && Handed(s, t) && t.curr != s.curr && |t.procs| == NPROC && t.procs[s.curr] == u.procs[s.curr]
            && t.sems == u.sems && SleepKept(u, t) && t.defers == 0
  {
    hide ReadyPlaced, SleepPlaced, QueuesPlaced, OneCurrent, Descending, Natural, Total, Top, Freed, SemsCounted, Dispatch;
    BlockedEffect(u);
    ReschedKeeps(u);
    StillBlocked(u, Resched(u));
  }

  lemma TakeEffect(s: Kern)
    requires Inv(s)
    ensures Step(s, OpTakeMessage) == WithProc(s, s.curr, s.procs[s.curr].(hasMsg := false))
  {
    hide Placed, Running, Scheduled, SemsCounted, Deltas;
    InvCore(s);
  }

  lemma AsleepEffect(s: Kern, d: int, st: PrState)
    requires Inv(s) && MayBlock(s) && 0 <= d <= MAXKEY && (st == SLEEP || st == RECTIM)
    ensures var u := PutToSleep(s, s.curr, d, st);
            && Placed(u) && u.defers == 0 && u.curr != NULLPROC
            && var t := Resched(u);
               && Freed(WithProc(s, s.curr, s.procs[s.curr].(state := st)), t, [])
               && Handed(s, t) && t.curr != s.curr && InState(t.procs, s.curr, st) && t.sems == s.sems && SleepEntered(s, t, s.curr, d)
  {
    hide ReadyPlaced, SleepPlaced, QueuesPlaced, OneCurrent, Descending, Natural, Total, Top, Freed, SemsCounted, Dispatch, InsertDelay, DelayPlace, Inserted;
    InvCore(s);
    AsleepKeeps(s, d, st);
    var u := PutToSleep(s, s.curr, d, st);
    StoppedEffect(s, u);
    FreedSame(WithProc(s, s.curr, s.procs[s.curr].(state := st)), u, Resched(u), []);
  }

  lemma RecvTimeEffect(s: Kern, d: int)
    requires Inv(s) && Enabled(s, OpRecvTime(d))
    ensures d < 0 || s.procs[s.curr].hasMsg ==> Step(s, OpRecvTime(d)) == s
    ensures d >= 0 && !s.procs[s.curr].hasMsg ==>
              var t := Step(s, OpRecvTime(d));
              && Freed(WithProc(s, s.curr, s.procs[s.curr].(state := RECTIM)), t, [])
              && Handed(s, t) && t.curr != s.curr && InState(t.procs, s.curr, RECTIM) && t.sems == s.sems && SleepEntered(s, t, s.curr, d)
  {
    hide Placed, Running, Scheduled, SemsCounted, Deltas, Freed, Handed, SleepEntered, Resched, PutToSleep;
    InvCore(s);
    if d >= 0 && !s.procs[s.curr].hasMsg { AsleepEffect(s, d, RECTIM); }
  }

  /** The processor is offered to the others: it goes to the first of the ready list unless that one ranks
      lower, or rescheduling is put off. */
  ghost predicate Offered(s: Kern, t: Kern) {
    && Freed(s, t, []) && t.sems == s.sems && SleepKept(s, t) && t.defers == s.defers
    && if s.defers > 0 then t == s.(attempt := true)
       else if |s.ready| > 0 && Prio(s.procs, s.curr) == Prio(s.procs, s.ready[0]) then t.curr == s.ready[0] && t.preempt == QUANTUM
       else t == s
  }

  lemma OfferedEffect(s: Kern)
    requires Inv(s)
    ensures Offered(s, Resched(s))
  {
    hide ReadyPlaced, SleepPlaced, QueuesPlaced, OneCurrent, Descending, SemsCounted, Deltas, Freed, Prio;
    ReschedEffect(s);
    ReschedKeeps(s);
    if s.defers == 0 && |s.ready| > 0 { assert s.ready[0] in s.ready; }
  }

  lemma SleepMsEffect(s: Kern, d: int)
    requires Inv(s) && Enabled(s, OpSleepMs(d))
    ensures d < 0 ==> Step(s, OpSleepMs(d)) == s
    ensures d == 0 ==> Offered(s, Step(s, OpSleepMs(d)))
    ensures d > 0 ==>
              var t := Step(s, OpSleepMs(d));
              && Freed(WithProc(s, s.curr, s.procs[s.curr].(state := SLEEP)), t, [])
              && Handed(s, t) && t.curr != s.curr && InState(t.procs, s.curr, SLEEP) && t.sems == s.sems && SleepEntered(s, t, s.curr, d)
  {
    hide Placed, Running, Scheduled, SemsCounted, Deltas, Freed, Handed, SleepEntered, Resched, PutToSleep, Offered;
    InvCore(s);
    if d == 0 { OfferedEffect(s); }
    if d > 0 { AsleepEffect(s, d, SLEEP); }
  }

  // ------------------------------------------------------------ processes

  /** suspend: a process that runs or is ready is stopped and is on no list. */
  lemma SuspendEffect(s: Kern, p: int)
    requires Inv(s) && Enabled(s, OpSuspend(p))
    ensures BadPid(s, p) || p == NULLPROC || !Runnable(s.procs[p].state) ==> Step(s, OpSuspend(p)) == s
    ensures !BadPid(s, p) && p != NULLPROC && Runnable(s.procs[p].state) ==>
              var t := Step(s, OpSuspend(p));
              && Freed(WithProc(s, p, s.procs[p].(state := SUSP)), t, []) && InState(t.procs, p, SUSP)
              && t.sems == s.sems && SleepKept(s, t) && t.defers == s.defers
              && (if p == s.curr then Handed(s, t) && t.curr != p else t.curr == s.curr && p in s.ready && t.ready == Remove(s.ready, p))
  {
    hide SleepPlaced, QueuesPlaced, Descending, Natural, Total, Top, Freed, SemsCounted, Dispatch, Remove, Distinct;
    InvCore(s);
    if !BadPid(s, p) && p != NULLPROC {
      if s.procs[p].state == READY {
        assert InState(s.procs, p, READY);
        var u := WithProc(s, p, s.procs[p].(state := SUSP));
        FreedNone(u, Step(s, OpSuspend(p)));
      } else if s.procs[p].state == CURR {
        assert InState(s.procs, p, CURR);
        IdleMove(s, p, SUSP);
        StoppedEffect(s, WithState(s, p, SUSP));
        FreedSame(WithProc(s, p, s.procs[p].(state := SUSP)), WithState(s, p, SUSP), Step(s, OpSuspend(p)), []);
      }
    }
  }

  /** resume: a suspended process can run. */
  lemma ResumeEffect(s: Kern, p: int)
    requires Inv(s)
    ensures BadPid(s, p) || s.procs[p].state != SUSP ==> Step(s, OpResume(p)) == s
    ensures !BadPid(s, p) && s.procs[p].state == SUSP ==>
              var t := Step(s, OpResume(p));
              Freed(s, t, [p]) && t.sems == s.sems && SleepKept(s, t) && t.defers == s.defers
  {
    hide ReadyPlaced, SleepPlaced, QueuesPlaced, Descending, Natural, Total, Top, Freed, SemsCounted, Wake, Leave;
    InvCore(s);
    if !BadPid(s, p) && s.procs[p].state == SUSP {
      NotCurrent(s, p);
      WakeEffect(s, p);
      WakeCore(s, p);
      LeaveElsewhere(s, p);
      ResumeKeeps(s, p);
    }
  }

  /** kill: the process is free and on no list. A waiter gives back the unit it was promised. */
  lemma KillEffect(s: Kern, p: int)
    requires Inv(s) && Enabled(s, OpKill(p))
    ensures BadPid(s, p) || p == NULLPROC ==> Step(s, OpKill(p)) == s
    ensures !BadPid(s, p) && p != NULLPROC ==>
              var t, k := Step(s, OpKill(p)), s.procs[p].sem;
              && Freed(WithProc(s, p, s.procs[p].(state := FREE)), t, []) && InState(t.procs, p, FREE) && t.defers == s.defers
              && (if s.procs[p].state == WAIT then
                    0 <= k < NSEM && p in s.sems[k].queue && t.sems == s.sems[k := Sem(s.sems[k].used, s.sems[k].count + 1, Remove(s.sems[k].queue, p))]
                  else t.sems == s.sems)
              && (if Asleep(s.procs, p) then SleepDropped(s, t, p) else SleepKept(s, t))
              && (if p == s.curr then Handed(s, t) && t.curr != p else t.curr == s.curr)
  {
    hide ReadyPlaced, SleepPlaced, QueuesPlaced, Descending, Natural, Total, Top, Freed, SemsCounted, Dispatch, Remove, Distinct, Leave, SleepDropped;
    InvCore(s);
    if !BadPid(s, p) && p != NULLPROC {
      KillKeeps(s, p);
      SleeperListed(s, p);
      var u := WithProc(s, p, s.procs[p].(state := FREE));
      if s.procs[p].state == CURR {
        assert InState(s.procs, p, CURR);
        IdleMove(s, p, FREE);
        StoppedEffect(s, WithState(s, p, FREE));
        FreedSame(u, WithState(s, p, FREE), Step(s, OpKill(p)), []);
      } else {
        KillOther(s, p);
        FreedNone(u, Step(s, OpKill(p)));
      }
    }
  }

  lemma KillOther(s: Kern, p: int)
    requires Inv(s) && Enabled(s, OpKill(p)) && !BadPid(s, p) && p != NULLPROC && s.procs[p].state != CURR
    ensures var t, k := Kill(s, p), s.procs[p].sem;
            && t.procs == s.procs[p := s.procs[p].(state := FREE)] && t.curr == s.curr && t.defers == s.defers && p != s.curr
            && if s.procs[p].state == WAIT then
                 0 <= k < NSEM && p in s.sems[k].queue && t.sems == s.sems[k := Sem(s.sems[k].used, s.sems[k].count + 1, Remove(s.sems[k].queue, p))]
               else t.sems == s.sems
  {
    hide ReadyPlaced, SleepPlaced, OneCurrent, Descending, Natural, Total, Top, Freed, SemsCounted, Remove, Distinct, DropDelay;
    if s.procs[p].state == WAIT {
      var k := s.procs[p].sem;
      assert InState(s.procs, p, WAIT) && WaitsOn(s.procs, p, k);
      CountMove(s, k, s.sems[k].count + 1, true);
      var t := WithCount(s, k, s.sems[k].count + 1);
      LeaveFrame(t, p);
      SemsTwice(s.sems, k, t.sems[k], Kill(s, p).sems[k]);
    } else {
      LeaveFrame(s, p);
    }
  }

  /** create: a suspended process of that priority without a message. */
  lemma CreateEffect(s: Kern, p: int, prio: pri16)
    requires Inv(s) && Enabled(s, OpCreate(p, prio))
    ensures var t := Step(s, OpCreate(p, prio));
            && IsPid(p) && t == s.(procs := t.procs) && |t.procs| == NPROC && t.procs == s.procs[p := t.procs[p]]
            && t.procs[p].state == SUSP && t.procs[p].prio == prio && !t.procs[p].hasMsg
  {
    hide Placed, Running, Scheduled, SemsCounted, Deltas;
    InvCore(s);
  }

  // ------------------------------------------------------------ the clock

  lemma YieldEffect(s: Kern)
    requires Inv(s)
    ensures Offered(s, Step(s, OpYield))
  {
    hide Inv, Offered;
    OfferedEffect(s);
  }

  /** The last end of a deferral makes up for a reschedule that was put off: then the first of the ready
      list runs unless the running process outranks it. */
  lemma DeferEffect(s: Kern)
    requires Inv(s)
    ensures Step(s, OpDeferStart) == s.(defers := s.defers + 1, attempt := s.defers > 0 && s.attempt)
    ensures s.defers == 0 ==> Step(s, OpDeferStop) == s
    ensures s.defers > 1 || (s.defers == 1 && !s.attempt) ==> Step(s, OpDeferStop) == s.(defers := s.defers - 1)
    ensures s.defers == 1 && s.attempt ==>
              var t := Step(s, OpDeferStop);
              && Freed(s, t, []) && t.sems == s.sems && SleepKept(s, t) && t.defers == 0
              && t.curr == if |s.ready| > 0 && Prio(s.procs, s.curr) <= Prio(s.procs, s.ready[0]) then s.ready[0] else s.curr
  {
    hide ReadyPlaced, SleepPlaced, QueuesPlaced, OneCurrent, Descending, SemsCounted, Deltas, Freed, Prio, Top;
    InvCore(s);
    DeferStopEffect(s);
    DeferStopCore(s);
    if s.defers == 1 && s.attempt {
      var t := s.(defers := 0);
      SameListsPlaced(s, t);
      ReschedEffect(t);
    }
  }

  /** The end of a time slice: an equal gets its turn. */
  lemma PreemptEffect(s: Kern)
    requires Inv(s)
    ensures s.preempt > 1 ==> Step(s, OpClockPreempt) == s.(preempt := s.preempt - 1)
    ensures s.preempt <= 1 ==> Offered(s.(preempt := QUANTUM), Step(s, OpClockPreempt))
  {
    hide ReadyPlaced, SleepPlaced, QueuesPlaced, OneCurrent, Descending, Counted, Natural, Total, Offered, Prio;
    if s.preempt <= 1 {
      SameListsPlaced(s, s.(preempt := QUANTUM));
      assert Inv(s.(preempt := QUANTUM));
      OfferedEffect(s.(preempt := QUANTUM));
    }
  }

  lemma {:induction false} WakeDueEffect(s: Kern)
    requires Core(s)
    ensures Due(s.delays) <= |s.sleep| && Freed(s, WakeDue(s), s.sleep[..Due(s.delays)])
    decreases |s.sleep|
  {
    hide Core, PopSleeper, Freed;
    CoreShape(s);
    if |s.sleep| > 0 && s.delays[0] <= 0 {
      PopCore(s);
      PopEffect(s);
      WakeDueEffect(PopSleeper(s));
      var k := Due(s.delays);
      assert s.sleep[..k][..1] == [s.sleep[0]] && s.sleep[..k][1..] == s.sleep[1..][..k - 1];
      FreedTrans(s, PopSleeper(s), WakeDue(s), s.sleep[..k], 1);
    } else {
      assert s.sleep[..0] == [];
      FreedNone(s, s);
    }
  }

  lemma PopEffect(s: Kern)
    requires Core(s) && |s.sleep| > 0
    ensures Freed(s, PopSleeper(s), [s.sleep[0]])
  {
    hide Placed, InsertReady, Freed;
    CoreShape(s);
    PopMove(s);
    var u := MadeReady(Popped(s), s.sleep[0]);
    PopFreed(s);
    ReschedEffect(u);
    assert [s.sleep[0]][..1] == [s.sleep[0]] && [s.sleep[0]][1..] == [];
    FreedTrans(s, u, PopSleeper(s), [s.sleep[0]], 1);
  }

  lemma PopFreed(s: Kern)
    requires Shape(s) && |s.sleep| > 0 && IsPid(s.sleep[0])
    ensures Freed(s, MadeReady(Popped(s), s.sleep[0]), [s.sleep[0]])
  {
    hide InsertReady;
  }

  /** A tick: one off the first delay, and those at the front that have none left can run. */
  lemma TickEffect(s: Kern)
    requires Inv(s)
    ensures |s.sleep| == |s.delays| && (s.sleep == [] ==> Step(s, OpClockTick) == s)
    ensures s.sleep != [] ==>
              var t, d := Step(s, OpClockTick), [s.delays[0] - 1] + s.delays[1..];
              var k := Due(d);
              && k <= |s.sleep| && t.sleep == s.sleep[k..] && t.delays == d[k..] && t.sems == s.sems && t.defers == s.defers
              && Freed(s, t, s.sleep[..k])
  {
    hide Placed, Running, Scheduled, WakeDue, Natural, Total, Due, Freed, DeferStop;
    InvCore(s);
    TickKeeps(s);
    if |s.sleep| > 0 {
      var t := s.(delays := Ticked(s.delays));
      TickedIs(s.delays);
      DelayMove(s, t.delays);
      var k := Due(t.delays);
      if t.delays[0] <= 0 {
        DeferStartCore(t);
        WakeDueCore(DeferStart(t));
        WakeDueEffect(DeferStart(t));
        BracketEffect(s, DeferStart(t), WakeDue(DeferStart(t)), s.sleep[..k]);
      } else {
        NoneDue(t.delays);
        assert s.sleep[..0] == [];
        FreedNone(s, t);
      }
    }
  }

  lemma TickedIs(d: seq<int>)
    requires |d| > 0
    ensures Ticked(d) == [d[0] - 1] + d[1..]
  {
  }

  lemma NoneDue(d: seq<int>)
    requires |d| > 0 && d[0] > 0
    ensures Due(d) == 0
  {
  }
}
