/** The process kernel with its tables in memory. Each call takes the step of the model. */
module Kernel {
  import opened Common
  import opened DeltaList
  import opened KernelModel
  import opened KernelMoves
  import opened KernelCalls
  import opened KernelRuns
  import opened KernelTime
  import opened QueueTable
  import opened KernelQueues

  const TIMEOUT := -3
  const MAXSECONDS := 2147483

  datatype SEntry = SEntry(used: bool, scount: int, squeue: int)

  /** The index of the ready list and of the sleepers' list among all lists. */
  const READY_LIST := NSEM
  const SLEEP_LIST := NSEM + 1

  /** The lists in the queue table are those of the state. */
  ghost predicate SameLists(s: Kern, lists: seq<seq<int>>)
    requires Shape(s)
  {
    && |lists| == NSEM + 2 && lists[READY_LIST] == s.ready && lists[SLEEP_LIST] == s.sleep
    && forall k {:trigger lists[k]} {:trigger s.sems[k]} :: 0 <= k < NSEM ==> lists[k] == s.sems[k].queue
  }

  /** Ready processes are keyed by priority, sleepers by delay. */
  ghost predicate SameOrder(s: Kern, qt: seq<QEntry>)
    requires Shape(s) && |qt| == NQENT
  {
    && AllPids(s.ready) && (forall i {:trigger s.ready[i]} :: 0 <= i < |s.ready| ==> qt[s.ready[i]].qkey == Prio(s.procs, s.ready[i]))
    && AllPids(s.sleep) && Keys(qt, s.sleep) == s.delays
  }

  ghost predicate SameSems(sems: seq<Sem>, table: seq<SEntry>) {
    |sems| == |table| == NSEM && forall k {:trigger table[k]} {:trigger sems[k]} :: 0 <= k < NSEM ==> table[k] == SEntry(sems[k].used, sems[k].count, Head(k))
  }

  /** A process that its state puts on no list is on none. */
  lemma UnlistedNowhere(s: Kern, lists: seq<seq<int>>, p: int)
    requires Placed(s) && SameLists(s, lists) && Unlisted(s, p)
    ensures Nowhere(lists, p)
  {
    hide Distinct, Descending;
    forall j | 0 <= j < |lists| ensures p !in lists[j] {
      if j < NSEM { assert p in s.sems[j].queue <==> WaitsOn(s.procs, p, j); }
    }
  }

  /** The place that insert finds is where the model puts the process. */
  lemma {:induction false} PlaceUnique(procs: seq<Proc>, l: seq<int>, prio: int, k: nat)
    requires k <= |l| && (forall i {:trigger l[i]} :: 0 <= i < k ==> Prio(procs, l[i]) >= prio) && (k < |l| ==> Prio(procs, l[k]) < prio)
    ensures ReadyPlace(procs, l, prio) == k
  {
    hide ReadyPlace, Prio;
    var m := ReadyPlace(procs, l, prio);
  }

  class Kernel {
    const proctab: array<Proc>
    const semtab: array<SEntry>
    const qs: Queues
    var readylist: int
    var sleepq: int
    var currpid: int
    var preempt: int
    var ndefers: int
    var attempt: bool
    var nextsem: int
    var nextpid: int
    /** The state that the tables stand for. */
    ghost var s: Kern

    ghost predicate Rep()
      reads this, proctab, semtab, qs, qs.queuetab
    {
      && qs.Valid() && qs.proctab == proctab && proctab.Length == NPROC && semtab.Length == NSEM
      && readylist == Head(READY_LIST) && sleepq == Head(SLEEP_LIST) && 0 <= nextsem < NSEM && 0 <= nextpid
      && Shape(s) && proctab[..] == s.procs && SameSems(s.sems, semtab[..]) && SameLists(s, qs.lists) && SameOrder(s, qs.queuetab[..])
      && currpid == s.curr && ndefers == s.defers && attempt == s.attempt && preempt == s.preempt
    }

    ghost predicate Valid()
      reads this, proctab, semtab, qs, qs.queuetab
    {
      Rep() && Inv(s)
    }

    /** sysinit and clkinit: the tables before the first call. */
    constructor ()
      ensures Valid() && s == Boot() && fresh(proctab) && fresh(semtab) && fresh(qs) && fresh(qs.queuetab)
    {
      var procs := new Proc[NPROC](p => Proc(if p == NULLPROC then CURR else FREE, 0, 0, 0, false));
      var queues := new Queues(procs);
      var sems := new SEntry[NSEM];
      assert procs[..] == Boot().procs;
      for i := 0 to NSEM
        invariant queues.Valid() && fresh(queues) && fresh(queues.queuetab) && queues.proctab == procs
        invariant procs[..] == Boot().procs
        invariant |queues.lists| == i && forall k {:trigger queues.lists[k]} :: 0 <= k < i ==> queues.lists[k] == []
        invariant forall k {:trigger sems[k]} :: 0 <= k < i ==> sems[k] == SEntry(false, 0, Head(k))
      {
        var q := queues.NewQueue();
        sems[i] := SEntry(false, 0, q);
      }
      proctab, semtab, qs := procs, sems, queues;
      currpid, ndefers, attempt, nextsem, nextpid, preempt := NULLPROC, 0, false, 0, 1, QUANTUM;
      var r := queues.NewQueue();
      var d := queues.NewQueue();
      readylist, sleepq := r, d;
      s := Boot();
      new;
      BootInv();
      assert proctab[..] == s.procs;
    }

    // ------------------------------------------------------------ moves in the tables

    /** The state change and insertion at the start of ready. */
    method MakeReady(pid: int)
      requires Rep() && IsPid(pid) && proctab[pid].state != FREE && Nowhere(qs.lists, pid)
      modifies this`s, proctab, qs`lists, qs.queuetab
      ensures Rep() && s == MadeReady(old(s), pid)
    {
      hide Disjoint, AllLinked, Nowhere, SameSems;
      ghost var t := MadeReady(s, pid);
      proctab[pid] := proctab[pid].(state := READY);
      NowhereLists(s, qs.lists, pid);
      var r, place := qs.Insert(pid, readylist, proctab[pid].prio, READY_LIST);
      PlaceUnique(s.procs, s.ready, proctab[pid].prio, place);
      SameKeysOrder(s, old(qs.queuetab[..]), qs.queuetab[..], pid, place);
      s := t;
    }

    lemma NowhereLists(s: Kern, lists: seq<seq<int>>, pid: int)
      requires Shape(s) && SameLists(s, lists) && Nowhere(lists, pid)
      ensures pid !in s.ready && pid !in s.sleep
    {
      assert pid !in lists[READY_LIST] && pid !in lists[SLEEP_LIST];
    }

    lemma SameKeysOrder(s: Kern, qt: seq<QEntry>, qt': seq<QEntry>, pid: int, place: nat)
      requires Shape(s) && |qt| == |qt'| == NQENT && SameOrder(s, qt) && IsPid(pid) && pid !in s.sleep && pid !in s.ready
      requires place == ReadyPlace(s.procs, s.ready, Prio(s.procs, pid))
      requires forall e {:trigger qt'[e]} :: 0 <= e < NQENT ==> qt'[e].qkey == if e == pid then Prio(s.procs, pid) else qt[e].qkey
      ensures SameOrder(MadeReady(s, pid), qt')
    {
      hide ReadyPlace;
      var t := MadeReady(s, pid);
      StateChanged(s.procs, pid, READY);
      forall i | 0 <= i < |t.ready|
        ensures 0 <= t.ready[i] < NPROC && qt'[t.ready[i]].qkey == Prio(t.procs, t.ready[i])
      {
        assert t.ready[i] == if i < place then s.ready[i] else if i == place then pid else s.ready[i - 1];
      }
      assert Keys(qt', s.sleep) == Keys(qt, s.sleep);
    }

    /** Lists, priorities and delays that have not changed are still in order. */
    lemma OrderFrame(s: Kern, t: Kern, qt: seq<QEntry>, qt': seq<QEntry>)
      requires Shape(s) && Shape(t) && |qt| == NQENT && SameOrder(s, qt) && SameKeys(qt, qt')
      requires t.ready == s.ready && t.sleep == s.sleep && t.delays == s.delays
      requires forall p {:trigger Prio(t.procs, p)} {:trigger Prio(s.procs, p)} :: Prio(t.procs, p) == Prio(s.procs, p)
      ensures SameOrder(t, qt')
    {
      assert Keys(qt', s.sleep) == Keys(qt, s.sleep);
    }

    lemma TailOrder(s: Kern, qt: seq<QEntry>, qt': seq<QEntry>)
      requires Shape(s) && |qt| == NQENT && SameOrder(s, qt) && SameKeys(qt, qt') && |s.ready| > 0
      ensures IsPid(s.ready[0]) && SameOrder(Dispatch(s), qt')
    {
      hide Prio;
      StateChanged(s.procs, s.ready[0], CURR);
      assert Keys(qt', s.sleep) == Keys(qt, s.sleep);
      var t := Dispatch(s);
      forall i | 0 <= i < |t.ready| ensures 0 <= t.ready[i] < NPROC && qt'[t.ready[i]].qkey == Prio(t.procs, t.ready[i]) {
        assert t.ready[i] == s.ready[i + 1];
      }
    }

    /** The switch to the first ready process at the end of resched. */
    method SwitchToFirst()
      requires Rep() && |s.ready| > 0
      modifies this`s, this`currpid, this`preempt, proctab, qs`lists, qs.queuetab
      ensures IsPid(old(s).ready[0]) && Rep() && s == Dispatch(old(s))
    {
      hide Disjoint, AllLinked, Nowhere, SameSems, SameOrder;
      ghost var qt := qs.queuetab[..];
      currpid := qs.Dequeue(readylist, READY_LIST);
      TailOrder(s, qt, qs.queuetab[..]);
      proctab[currpid] := proctab[currpid].(state := CURR);
      preempt := QUANTUM;
      s := Dispatch(s);
    }

    /** resched */
    method Resched()
      requires Rep() && Placed(s) && (Running(s) || (s.defers == 0 && s.curr != NULLPROC))
      modifies this`s, this`currpid, this`preempt, this`attempt, proctab, qs`lists, qs.queuetab
      ensures Rep() && s == KernelModel.Resched(old(s))
    {
      hide Disjoint, AllLinked, Nowhere, SameSems, SleepPlaced, QueuesPlaced, Descending, Distinct, Dispatch;
      if ndefers > 0 {
        attempt := true;
        s := s.(attempt := true);
        return;
      }
      if proctab[currpid].state == CURR {
        var key := qs.FirstKey(readylist, READY_LIST);
        if proctab[currpid].prio > key {
          return;
        }
        RequeuedPlaced(s);
        UnlistedNowhere(s, qs.lists, currpid);
        MakeReady(currpid);
      } else {
        NullReady(s);
      }
      SwitchToFirst();
    }

    /** ready, for a process that is on no list. */
    method Ready(pid: int) returns (r: int)
      requires Rep() && (IsPid(pid) && proctab[pid].state != FREE ==>
                 Nowhere(qs.lists, pid) && Placed(MadeReady(s, pid)) && (Running(MadeReady(s, pid)) || (s.defers == 0 && s.curr != NULLPROC)))
      modifies this`s, this`currpid, this`preempt, this`attempt, proctab, qs`lists, qs.queuetab
      ensures Rep()
      ensures old(BadPid(s, pid)) ==> r == SYSERR && s == old(s)
      ensures !old(BadPid(s, pid)) ==>
                && old(Placed(MadeReady(s, pid)) && (Running(MadeReady(s, pid)) || (s.defers == 0 && s.curr != NULLPROC)))
                && r == OK && s == KernelModel.Resched(MadeReady(old(s), pid))
    {
      hide Disjoint, AllLinked, Nowhere, SameSems, SameLists, SameOrder, Placed, Distinct, MadeReady;
      if !IsPid(pid) || proctab[pid].state == FREE {
        return SYSERR;
      }
      MakeReady(pid);
      Resched();
      r := OK;
    }

    /** resched_cntl(DEFER_START) */
    method StartDeferral()
      requires Rep()
      modifies this`s, this`ndefers, this`attempt
      ensures Rep() && s == DeferStart(old(s))
    {
      hide AllLinked, Disjoint, SameSems;
      if ndefers == 0 {
        attempt := false;
      }
      ndefers := ndefers + 1;
      s := DeferStart(s);
    }

    /** resched_cntl(DEFER_STOP): a reschedule that was put off happens when the last deferral ends. */
    method StopDeferral() returns (r: int)
      requires Rep() && Core(s)
      modifies this`s, this`ndefers, this`currpid, this`preempt, this`attempt, proctab, qs`lists, qs.queuetab
      ensures Rep() && s == DeferStop(old(s)) && r == if old(s).defers == 0 then SYSERR else OK
    {
      hide AllLinked, Disjoint, SameSems, ReadyPlaced, SleepPlaced, QueuesPlaced, Descending, OneCurrent, Top;
      if ndefers <= 0 {
        return SYSERR;
      }
      ghost var t := s.(defers := s.defers - 1);
      SameListsPlaced(s, t);
      ndefers := ndefers - 1;
      s := t;
      if ndefers == 0 && attempt {
        Resched();
      }
      r := OK;
    }

    // ------------------------------------------------------------ semaphores

    /** isbadsem, or the entry is free. */
    method Unusable(sem: int) returns (bad: bool)
      requires Rep()
      ensures bad <==> BadSem(s, sem)
    {
      if sem < 0 || sem >= NSEM {
        return true;
      }
      bad := !semtab[sem].used;
    }

    method SetCount(sem: int, count: int)
      requires Rep() && 0 <= sem < NSEM
      modifies this`s, semtab
      ensures Rep() && s == WithCount(old(s), sem, count)
    {
      hide AllLinked, Disjoint, SameOrder;
      ghost var qt := qs.queuetab[..];
      CountOrder(s, sem, count, qt);
      semtab[sem] := semtab[sem].(scount := count);
      s := WithCount(s, sem, count);
    }

    lemma CountOrder(s: Kern, sem: int, count: int, qt: seq<QEntry>)
      requires Shape(s) && 0 <= sem < NSEM && |qt| == NQENT && SameOrder(s, qt)
      ensures SameOrder(WithCount(s, sem, count), qt)
    {
      OrderFrame(s, WithCount(s, sem, count), qt, qt);
    }

    /** The first waiter taken off a semaphore's queue with dequeue. */
    method DequeueWaiter(sem: int) returns (pid: int)
      requires Rep() && Core(s) && 0 <= sem < NSEM && |s.sems[sem].queue| > 0
      modifies this`s, qs`lists, qs.queuetab
      ensures Rep() && pid == old(s).sems[sem].queue[0] && Wakeable(old(s), pid) && s == Leave(old(s), pid)
      ensures Nowhere(qs.lists, pid) && proctab[pid].state == WAIT
    {
      hide AllLinked, Disjoint, SameOrder, Nowhere, Leave, Placed;
      ghost var qt := qs.queuetab[..];
      CoreShape(s);
      FirstWaiter(s, sem);
      pid := qs.Dequeue(semtab[sem].squeue, sem);
      OrderFrame(s, Leave(s, pid), qt, qs.queuetab[..]);
      s := Leave(s, pid);
    }

    /** The first waiter taken off a semaphore's queue with getfirst, or EMPTY. */
    method FirstWaiterOf(sem: int) returns (pid: int)
      requires Rep() && Core(s) && 0 <= sem < NSEM
      modifies this`s, qs`lists, qs.queuetab
      ensures Rep()
      ensures |old(s).sems[sem].queue| == 0 ==> pid == EMPTY && s == old(s)
      ensures |old(s).sems[sem].queue| > 0 ==>
                && pid == old(s).sems[sem].queue[0] && Wakeable(old(s), pid) && s == Leave(old(s), pid)
                && Nowhere(qs.lists, pid) && ReadyState(pid)
    {
      hide AllLinked, Disjoint, SameOrder, Nowhere, Leave, Placed;
      ghost var qt := qs.queuetab[..];
      CoreShape(s);
      pid := qs.GetFirst(semtab[sem].squeue, sem);
      if pid != EMPTY {
        FirstWaiter(s, sem);
        OrderFrame(s, Leave(s, pid), qt, qs.queuetab[..]);
        s := Leave(s, pid);
      } else if |s.sems[sem].queue| > 0 {
        FirstWaiter(s, sem);
      } else {
        OrderFrame(s, s, qt, qs.queuetab[..]);
      }
    }

    /** Ready a process just taken off its list. */
    method ReadyTaken(pid: int, ghost before: Kern)
      requires Rep() && Core(before) && Wakeable(before, pid) && s == Leave(before, pid)
      requires Nowhere(qs.lists, pid) && proctab[pid].state != FREE
      modifies this`s, this`currpid, this`preempt, this`attempt, proctab, qs`lists, qs.queuetab
      ensures Rep() && s == Wake(before, pid)
    {
      hide Placed, AllLinked, Disjoint, SameSems, SameLists, SameOrder, Nowhere, Leave, MadeReady;
      CoreShape(before);
      AwakenedMove(before, pid);
      LeaveFrame(before, pid);
      var r := Ready(pid);
    }

    /** The body of signal: count up, and if anyone waits let the first go. */
    method SignalStep(sem: int)
      requires Rep() && Core(s) && 0 <= sem < NSEM && Owed(s.sems[sem])
      modifies this`s, this`currpid, this`preempt, this`attempt, proctab, semtab, qs`lists, qs.queuetab
      ensures Rep() && s == SignalOnce(old(s), sem)
    {
      hide Core, Placed, AllLinked, Disjoint, SameOrder, SameLists, Nowhere, Leave;
      ghost var before := s;
      CoreShape(s);
      var count := semtab[sem].scount;
      SetCount(sem, count + 1);
      CountMove(before, sem, count + 1, true);
      if count < 0 {
        ghost var counted := s;
        FirstWaiter(counted, sem);
        var pid := DequeueWaiter(sem);
        ReadyTaken(pid, counted);
      }
    }

    /** wait */
    method Wait(sem: int) returns (r: int)
      requires Valid() && Enabled(s, OpWait(sem))
      modifies this`s, this`currpid, this`preempt, this`attempt, proctab, semtab, qs`lists, qs.queuetab
      ensures Valid() && s == KernelCalls.Wait(old(s), sem) && r == if BadSem(old(s), sem) then SYSERR else OK
    {
      hide Placed, AllLinked, Disjoint, SameOrder, SameLists, Nowhere, SemsCounted, Deltas, Top;
      WaitKeeps(s, sem);
      var bad := Unusable(sem);
      if bad {
        return SYSERR;
      }
      ghost var before := s;
      CountMove(s, sem, s.sems[sem].count - 1, true);
      SetCount(sem, semtab[sem].scount - 1);
      if semtab[sem].scount < 0 {
        WaitMove(s, currpid, sem);
        BlockOn(sem);
        Resched();
      }
      r := OK;
    }

    /** The current process put on a semaphore's queue. */
    method BlockOn(sem: int)
      requires Rep() && Core(s) && 0 <= sem < NSEM
      modifies this`s, proctab, qs`lists, qs.queuetab
      ensures Rep() && s == Enqueued(old(s), old(s).curr, sem)
    {
      hide AllLinked, Disjoint, SameOrder, Nowhere, Placed;
      ghost var qt := qs.queuetab[..];
      CurrentNowhere();
      proctab[currpid] := proctab[currpid].(state := WAIT);
      proctab[currpid] := proctab[currpid].(sem := sem);
      var r := qs.Enqueue(currpid, semtab[sem].squeue, sem);
      EnqueuedOrder(s, s.curr, sem, qt, qs.queuetab[..]);
      s := Enqueued(s, s.curr, sem);
    }

    lemma CurrentNowhere()
      requires Rep() && Core(s)
      ensures Nowhere(qs.lists, s.curr)
    {
      hide AllLinked, Disjoint, SameOrder, Nowhere, ReadyPlaced, SleepPlaced, QueuesPlaced;
      UnlistedNowhere(s, qs.lists, s.curr);
    }

    lemma EnqueuedOrder(s: Kern, p: int, k: int, qt: seq<QEntry>, qt': seq<QEntry>)
      requires Shape(s) && IsPid(p) && 0 <= k < NSEM && |qt| == NQENT && SameOrder(s, qt) && SameKeys(qt, qt')
      ensures SameOrder(Enqueued(s, p, k), qt')
    {
      hide SameOrder;
      assert forall q {:trigger Prio(s.procs, q)} :: Prio(Enqueued(s, p, k).procs, q) == Prio(s.procs, q);
      OrderFrame(s, Enqueued(s, p, k), qt, qt');
    }

    /** signal */
    method Signal(sem: int) returns (r: int)
      requires Valid()
      modifies this`s, this`currpid, this`preempt, this`attempt, proctab, semtab, qs`lists, qs.queuetab
      ensures Valid() && s == KernelCalls.Signal(old(s), sem) && r == if BadSem(old(s), sem) then SYSERR else OK
    {
      hide Placed, AllLinked, Disjoint, SameOrder, SameLists, SameSems, Nowhere, Running, Scheduled, SemsCounted, Deltas;
      SignalKeeps(s, sem);
      var bad := Unusable(sem);
      if bad {
        return SYSERR;
      }
      SemOwed(s, sem);
      SignalStep(sem);
      r := OK;
    }

    /** signaln */
    method SignalN(sem: int, n: int) returns (r: int)
      requires Valid()
      modifies this, proctab, semtab, qs`lists, qs.queuetab
      ensures Valid() && s == KernelCalls.SignalN(old(s), sem, n) && r == if BadSem(old(s), sem) || n < 0 then SYSERR else OK
    {
      hide Core, Inv, Rep, SignalOnce;
      RepShape();
      SignalNKeeps(s, sem, n);
      var bad := Unusable(sem);
      if bad || n < 0 {
        return SYSERR;
      }
      SemOwed(s, sem);
      DeferStartCore(s);
      StartDeferral();
      ghost var start := s;
      SignalLoopCore(start, sem, n);
      var count: nat := n;
      while count > 0
        invariant Rep() && Core(s) && Shape(s) && 0 <= sem < NSEM && Owed(s.sems[sem])
        invariant SignalLoop(start, sem, n) == SignalLoop(s, sem, count)
      {
        SignalOnceCore(s, sem);
        SignalStep(sem);
        RepShape();
        count := count - 1;
      }
      var ok := StopDeferral();
      r := OK;
    }

    lemma RepShape()
      requires Rep()
      ensures Shape(s)
    {
    }

    /** semreset */
    method SemReset(sem: int, count: int) returns (r: int)
      requires Valid()
      modifies this, proctab, semtab, qs`lists, qs.queuetab
      ensures Valid() && s == KernelCalls.SemReset(old(s), sem, count) && r == if count < 0 || BadSem(old(s), sem) then SYSERR else OK
    {
      hide Core, Inv, Rep, Wake, Leave, Nowhere;
      RepShape();
      SemResetKeeps(s, sem, count);
      var bad := Unusable(sem);
      if count < 0 || bad {
        return SYSERR;
      }
      InvCore(s);
      DeferStartCore(s);
      StartDeferral();
      CoreShape(s);
      ghost var start, n := s, |s.sems[sem].queue|;
      DrainLoopCore(start, sem, n);
      var pid := FirstWaiterOf(sem);
      ghost var before := start;
      while pid != EMPTY
        invariant Rep() && Core(before) && Placed(before) && 0 <= sem < NSEM
        invariant DrainLoop(before, sem, |before.sems[sem].queue|) == DrainLoop(start, sem, n)
        invariant if pid == EMPTY then |before.sems[sem].queue| == 0 && s == before else
                    |before.sems[sem].queue| > 0 && pid == before.sems[sem].queue[0] && Wakeable(before, pid) && s == Leave(before, pid)
                    && Nowhere(qs.lists, pid) && ReadyState(pid)
        decreases |before.sems[sem].queue|
      {
        FirstWaiter(before, sem);
        WakeCore(before, pid);
        ReadyTaken(pid, before);
        before := s;
        CoreShape(before);
        pid := FirstWaiterOf(sem);
      }
      CountMove(s, sem, count, true);
      SetCount(sem, count);
      var ok := StopDeferral();
      r := OK;
    }

    ghost predicate ReadyState(pid: int)
      reads proctab
    {
      proctab.Length == NPROC && IsPid(pid) && proctab[pid].state != FREE
    }

    /** semdelete */
    method SemDelete(sem: int) returns (r: int)
      requires Valid()
      modifies this, proctab, semtab, qs`lists, qs.queuetab
      ensures Valid() && s == KernelCalls.SemDelete(old(s), sem) && r == if BadSem(old(s), sem) then SYSERR else OK
    {
      hide Core, Inv, SignalOnce, SameOrder, AllLinked, Disjoint;
      SemDeleteKeeps(s, sem);
      var bad := Unusable(sem);
      if bad {
        return SYSERR;
      }
      SemOwed(s, sem);
      CountMove(s, sem, s.sems[sem].count, false);
      ghost var freed := s.(sems := s.sems[sem := s.sems[sem].(used := false)]);
      OrderFrame(s, freed, qs.queuetab[..], qs.queuetab[..]);
      semtab[sem] := semtab[sem].(used := false);
      s := freed;
      DeferStartCore(s);
      StartDeferral();
      DeleteLoopCore(s, sem);
      ReleaseAll(sem);
      var ok := StopDeferral();
      r := OK;
    }

    /** The loop of semdelete. */
    method ReleaseAll(sem: int)
      requires Rep() && Core(s) && 0 <= sem < NSEM && Owed(s.sems[sem])
      modifies this`s, this`currpid, this`preempt, this`attempt, proctab, semtab, qs`lists, qs.queuetab
      ensures Rep() && s == DeleteLoop(old(s), sem)
    {
      hide Core, SameOrder, AllLinked, Disjoint, SameLists, Placed, Nowhere, Leave, Wake;
      ghost var start := s;
      while semtab[sem].scount < 0
        invariant Rep() && Core(s) && 0 <= sem < NSEM && Owed(s.sems[sem])
        invariant DeleteLoop(start, sem) == DeleteLoop(s, sem)
        decreases if s.sems[sem].count < 0 then -s.sems[sem].count else 0
      {
        ghost var before := s;
        SignalOnceCore(s, sem);
        CountMove(s, sem, s.sems[sem].count + 1, true);
        SetCount(sem, semtab[sem].scount + 1);
        ghost var counted := s;
        FirstWaiter(counted, sem);
        var pid := FirstWaiterOf(sem);
        ReadyTaken(pid, counted);
      }
      SignalOnceCore(s, sem);
      SetCount(sem, semtab[sem].scount + 1);
    }

    /** newsem: the first free entry, searching around the table from nextsem. */
    method NewSem() returns (r: int)
      requires Rep()
      modifies this`s, this`nextsem, semtab
      ensures Rep()
      ensures r == SYSERR <==> forall k {:trigger old(s).sems[k]} :: 0 <= k < NSEM ==> old(s).sems[k].used
      ensures r == SYSERR ==> s == old(s)
      ensures r != SYSERR ==> 0 <= r < NSEM && !old(s).sems[r].used && s == old(s).(sems := old(s).sems[r := old(s).sems[r].(used := true)])
    {
      hide AllLinked, Disjoint, SameOrder;
      ghost var first := nextsem;
      for i := 0 to NSEM
        invariant Rep() && s == old(s) && semtab[..] == old(semtab[..])
        invariant nextsem == if first + i >= NSEM then first + i - NSEM else first + i
        invariant forall j {:trigger s.sems[j]} :: (first <= j < first + i || first <= j + NSEM < first + i) && 0 <= j < NSEM ==> s.sems[j].used
      {
        var sem := nextsem;
        nextsem := nextsem + 1;
        if nextsem >= NSEM {
          nextsem := 0;
        }
        if !semtab[sem].used {
          ghost var t := s.(sems := s.sems[sem := s.sems[sem].(used := true)]);
          OrderFrame(s, t, qs.queuetab[..], qs.queuetab[..]);
          semtab[sem] := semtab[sem].(used := true);
          s := t;
          return sem;
        }
      }
      return SYSERR;
    }

    /** semcreate */
    method SemCreate(count: int) returns (r: int)
      requires Valid()
      modifies this`s, this`nextsem, semtab
      ensures Valid()
      ensures r == SYSERR <==> count < 0 || forall k {:trigger old(s).sems[k]} :: 0 <= k < NSEM ==> old(s).sems[k].used
      ensures if r == SYSERR then s == old(s) else Enabled(old(s), OpSemCreate(r, count)) && s == KernelCalls.SemCreate(old(s), r, count)
    {
      hide AllLinked, Disjoint, SameOrder, SameLists, SameSems, Inv;
      if count < 0 {
        return SYSERR;
      }
      ghost var before := s;
      var sem := NewSem();
      if sem == SYSERR {
        return SYSERR;
      }
      SemCreateKeeps(before, sem, count);
      SetCount(sem, count);
      SemsTwice(before.sems, sem, before.sems[sem].(used := true), before.sems[sem].(used := true, count := count));
      r := sem;
    }

    // ------------------------------------------------------------ messages, sleep and suspension

    method SetState(pid: int, st: PrState)
      requires Rep() && IsPid(pid)
      modifies this`s, proctab
      ensures Rep() && s == WithState(old(s), pid, st)
    {
      hide AllLinked, Disjoint, SameOrder, SameSems;
      StateChanged(s.procs, pid, st);
      OrderFrame(s, WithState(s, pid, st), qs.queuetab[..], qs.queuetab[..]);
      proctab[pid] := proctab[pid].(state := st);
      s := WithState(s, pid, st);
    }

    method SetMessage(pid: int, msg: int, has: bool)
      requires Rep() && IsPid(pid)
      modifies this`s, proctab
      ensures Rep() && s == WithMessage(old(s), pid, msg, has)
    {
      hide AllLinked, Disjoint, SameOrder, SameSems;
      ghost var t := WithMessage(s, pid, msg, has);
      assert forall q {:trigger Prio(t.procs, q)} :: Prio(t.procs, q) == Prio(s.procs, q);
      OrderFrame(s, t, qs.queuetab[..], qs.queuetab[..]);
      proctab[pid] := proctab[pid].(msg := msg);
      proctab[pid] := proctab[pid].(hasMsg := has);
      s := t;
    }

    /** The process behind a sleeper takes over its delay. */
    method HandDelayOn(pid: int)
      requires Rep() && Placed(s) && pid in s.sleep
      modifies qs.queuetab
      ensures qs.Valid()
      ensures forall e {:trigger qs.queuetab[e]} :: 0 <= e < NQENT ==>
                qs.queuetab[e].qkey == old(qs.queuetab[e].qkey) + AddedTo(s, pid, e, old(qs.queuetab[..]))
    {
      hide AllLinked, Linked, Disjoint, SameSems, SameOrder, Placed, IndexOf;
      ghost var i, qt := IndexOf(s.sleep, pid), qs.queuetab[..];
      ListLinked(qt, qs.lists, SLEEP_LIST);
      LinkedAt(qt, sleepq, s.sleep, i);
      LinkedAt(qt, sleepq, s.sleep, i + 1);
      var pidNext := qs.queuetab[pid].qnext;
      if pidNext < NPROC {
        KeyKeeps(qt, qs.lists, pidNext, qt[pidNext].qkey + qt[pid].qkey);
        qs.queuetab[pidNext] := qs.queuetab[pidNext].(qkey := qs.queuetab[pidNext].qkey + qs.queuetab[pid].qkey);
        assert qs.queuetab[..] == qt[pidNext := qt[pidNext].(qkey := qt[pidNext].qkey + qt[pid].qkey)];
      }
    }

    ghost function AddedTo(s: Kern, pid: int, e: int, qt: seq<QEntry>): (n: int)
      requires pid in s.sleep && IsPid(pid) && |qt| == NQENT
    {
      var i := IndexOf(s.sleep, pid);
      if i + 1 < |s.sleep| && e == s.sleep[i + 1] then qt[pid].qkey else 0
    }

    /** unsleep: the process behind takes over the delay. */
    method Unsleep(pid: int) returns (r: int)
      requires Rep() && Placed(s)
      modifies this`s, qs`lists, qs.queuetab
      ensures Rep()
      ensures if Asleep(old(s).procs, pid) then r == OK && pid in old(s).sleep && s == Unslept(old(s), pid) && Nowhere(qs.lists, pid)
              else r == SYSERR && s == old(s)
    {
      hide AllLinked, Disjoint, SameSems, SameOrder, Nowhere, ReadyPlaced, QueuesPlaced, Descending, DropDelay, Remove;
      if !IsPid(pid) || proctab[pid].state == FREE {
        return SYSERR;
      }
      if proctab[pid].state != SLEEP && proctab[pid].state != RECTIM {
        return SYSERR;
      }
      assert Asleep(s.procs, pid) && pid in s.sleep;
      ghost var qt := qs.queuetab[..];
      HandDelayOn(pid);
      var item := qs.GetItem(pid, SLEEP_LIST);
      UnsleptOrder(s, pid, qt, qs.queuetab[..]);
      s := Unslept(s, pid);
      r := OK;
    }

    lemma UnsleptOrder(s: Kern, pid: int, qt: seq<QEntry>, qt': seq<QEntry>)
      requires Placed(s) && |qt| == |qt'| == NQENT && SameOrder(s, qt) && pid in s.sleep && IsPid(pid)
      requires forall e {:trigger qt'[e]} :: 0 <= e < NQENT ==> qt'[e].qkey == qt[e].qkey + AddedTo(s, pid, e, qt)
      ensures SameOrder(Unslept(s, pid), qt')
    {
      hide QueuesPlaced, Descending, SleepPlaced, ReadyPlaced, Prio;
      var t, i := Unslept(s, pid), IndexOf(s.sleep, pid);
      SleepIsDistinct(s);
      UnsleptKeys(s.sleep, s.delays, i, pid, qt, qt');
      forall j | 0 <= j < |s.ready| ensures qt'[s.ready[j]].qkey == Prio(s.procs, s.ready[j]) {
        ReadyNotAsleep(s, j);
        if i + 1 < |s.sleep| { assert s.sleep[i + 1] in s.sleep; }
      }
    }

    lemma SleepIsDistinct(s: Kern)
      requires Placed(s)
      ensures Distinct(s.sleep)
    {
    }

    lemma UnsleptKeys(l: seq<int>, d: seq<int>, i: nat, pid: int, qt: seq<QEntry>, qt': seq<QEntry>)
      requires |qt| == |qt'| == NQENT && AllPids(l) && Keys(qt, l) == d && Distinct(l) && i < |l| && l[i] == pid
      requires forall e {:trigger qt'[e]} :: 0 <= e < NQENT ==> qt'[e].qkey == qt[e].qkey + if i + 1 < |l| && e == l[i + 1] then qt[pid].qkey else 0
      ensures AllPids(WithoutAt(l, i)) && Keys(qt', WithoutAt(l, i)) == DropDelay(d, i)
    {
      var r, t := WithoutAt(l, i), DropDelay(d, i);
      forall j | 0 <= j < |r| ensures r[j] == l[if j < i then j else j + 1] {}
      assert |r| == |t|;
      forall j | 0 <= j < |r| ensures Keys(qt', r)[j] == t[j] {
        assert t[j] == if j < i then d[j] else if j == i then d[i] + d[i + 1] else d[j + 1];
      }
    }

    lemma ReadyNotAsleep(s: Kern, j: nat)
      requires Placed(s) && j < |s.ready|
      ensures s.ready[j] !in s.sleep
    {
      assert s.ready[j] in s.ready && InState(s.procs, s.ready[j], READY);
    }

    /** send */
    method Send(pid: int, msg: int) returns (r: int)
      requires Valid()
      modifies this`s, this`currpid, this`preempt, this`attempt, proctab, qs`lists, qs.queuetab
      ensures Valid() && s == KernelCalls.Send(old(s), pid, msg)
      ensures r == if BadPid(old(s), pid) || old(s).procs[pid].hasMsg then SYSERR else OK
    {
      hide AllLinked, Disjoint, SameOrder, SameSems, SameLists, Nowhere, ReadyPlaced, SleepPlaced, QueuesPlaced, Descending, Top,
           SemsCounted, Deltas, Wake;
      SendKeeps(s, pid, msg);
      if !IsPid(pid) || proctab[pid].state == FREE {
        return SYSERR;
      }
      if proctab[pid].hasMsg {
        return SYSERR;
      }
      MessageMove(s, pid, msg, true);
      SetMessage(pid, msg, true);
      ghost var before := s;
      if proctab[pid].state == RECV {
        NotCurrent(s, pid);
        UnlistedNowhere(s, qs.lists, pid);
        ReadyTaken(pid, before);
      } else if proctab[pid].state == RECTIM {
        NotCurrent(s, pid);
        var u := Unsleep(pid);
        ReadyTaken(pid, before);
      }
      r := OK;
    }

    /** receive, up to the point where the caller has a message or has blocked. */
    method Receive()
      requires Valid() && Enabled(s, OpReceive)
      modifies this`s, this`currpid, this`preempt, this`attempt, proctab, qs`lists, qs.queuetab
      ensures Valid() && s == KernelCalls.Receive(old(s))
    {
      hide AllLinked, Disjoint, SameOrder, SameSems, SameLists, ReadyPlaced, SleepPlaced, QueuesPlaced, Descending, Top, SemsCounted, Deltas;
      ReceiveKeeps(s);
      if !proctab[currpid].hasMsg {
        IdleMove(s, currpid, RECV);
        SetState(currpid, RECV);
        Resched();
      }
    }

    /** The end of receive: take the message. */
    method ReceiveResumed() returns (msg: int)
      requires Valid()
      modifies this`s, proctab
      ensures Valid() && s == TakeMessage(old(s)) && msg == old(s).procs[old(s).curr].msg
    {
      hide AllLinked, Disjoint, SameOrder, SameSems, SameLists, Inv;
      TakeMessageKeeps(s);
      msg := proctab[currpid].msg;
      SetMessage(currpid, msg, false);
    }

    /** The current process put on the list of sleepers. */
    method FallAsleep(delay: int, st: PrState) returns (r: int)
      requires Rep() && Core(s) && (st == SLEEP || st == RECTIM)
      modifies this`s, proctab, qs`lists, qs.queuetab
      ensures Rep() && r == OK && s == PutToSleep(old(s), old(s).curr, delay, st)
    {
      hide AllLinked, Disjoint, SameSems, Nowhere, ReadyPlaced, QueuesPlaced, Descending, InsertDelay, DelayPlace, Inserted, Distinct;
      ghost var qt := qs.queuetab[..];
      CurrentNowhere();
      r := qs.InsertD(currpid, sleepq, delay, SLEEP_LIST);
      AsleepOrder(s, delay, st, qt, qs.queuetab[..]);
      proctab[currpid] := proctab[currpid].(state := st);
      s := PutToSleep(s, s.curr, delay, st);
    }

    lemma AsleepOrder(s: Kern, delay: int, st: PrState, qt: seq<QEntry>, qt': seq<QEntry>)
      requires Placed(s) && Running(s) && |qt| == |qt'| == NQENT && SameOrder(s, qt)
      requires var l := Inserted(s.sleep, DelayPlace(s.delays, delay), s.curr);
               AllPids(l) && Keys(qt', l) == InsertDelay(s.delays, delay)
      requires forall e {:trigger qt'[e]} :: 0 <= e < NQENT && e != s.curr && e !in s.sleep ==> qt'[e].qkey == qt[e].qkey
      ensures SameOrder(PutToSleep(s, s.curr, delay, st), qt')
    {
      hide QueuesPlaced, Descending, InsertDelay, DelayPlace, Inserted, Distinct, Prio;
      StateChanged(s.procs, s.curr, st);
      forall j | 0 <= j < |s.ready| ensures qt'[s.ready[j]].qkey == Prio(s.procs, s.ready[j]) {
        ReadyNotAsleep(s, j);
        assert s.ready[j] in s.ready && InState(s.procs, s.ready[j], READY);
      }
    }

    /** recvtime, up to the point where the caller goes on or has blocked. */
    method RecvTime(maxWait: int) returns (r: int)
      requires Valid() && Enabled(s, OpRecvTime(maxWait))
      modifies this`s, this`currpid, this`preempt, this`attempt, proctab, qs`lists, qs.queuetab
      ensures Valid() && s == KernelCalls.RecvTime(old(s), maxWait) && r == if maxWait < 0 then SYSERR else OK
    {
      hide AllLinked, Disjoint, SameOrder, SameSems, SameLists, ReadyPlaced, SleepPlaced, QueuesPlaced, Descending, Top, SemsCounted, Deltas, PutToSleep;
      if maxWait < 0 {
        return SYSERR;
      }
      if !proctab[currpid].hasMsg {
        AsleepKeeps(s, maxWait, RECTIM);
        SleepMove(s, currpid, maxWait, RECTIM);
        var ok := FallAsleep(maxWait, RECTIM);
        Resched();
      }
      r := OK;
    }

    /** The end of recvtime: the message, or word that the time is up. */
    method RecvTimeResumed() returns (msg: int)
      requires Valid()
      modifies this`s, proctab
      ensures Valid()
      ensures if old(s).procs[old(s).curr].hasMsg then s == TakeMessage(old(s)) && msg == old(s).procs[old(s).curr].msg
              else s == old(s) && msg == TIMEOUT
    {
      hide AllLinked, Disjoint, SameOrder, SameSems, SameLists, Inv;
      if proctab[currpid].hasMsg {
        TakeMessageKeeps(s);
        msg := proctab[currpid].msg;
        SetMessage(currpid, msg, false);
      } else {
        msg := TIMEOUT;
      }
    }

    /** sleepms; a delay of zero only yields. */
    method SleepMs(delay: int) returns (r: int)
      requires Valid() && Enabled(s, OpSleepMs(delay))
      modifies this`s, this`currpid, this`preempt, this`attempt, proctab, qs`lists, qs.queuetab
      ensures Valid() && s == KernelCalls.SleepMs(old(s), delay) && r == if delay < 0 then SYSERR else OK
    {
      hide AllLinked, Disjoint, SameOrder, SameSems, SameLists, ReadyPlaced, SleepPlaced, QueuesPlaced, Descending, Top, SemsCounted, Deltas, PutToSleep;
      if delay < 0 {
        return SYSERR;
      }
      if delay == 0 {
        YieldKeeps(s);
        Resched();
        return OK;
      }
      AsleepKeeps(s, delay, SLEEP);
      SleepMove(s, currpid, delay, SLEEP);
      var ok := FallAsleep(delay, SLEEP);
      Resched();
      r := OK;
    }

    /** sleep, in seconds. */
    method Sleep(delay: int) returns (r: int)
      requires Valid() && (0 < delay <= MAXSECONDS ==> MayBlock(s))
      modifies this`s, this`currpid, this`preempt, this`attempt, proctab, qs`lists, qs.queuetab
      ensures Valid()
      ensures if delay < 0 || delay > MAXSECONDS then r == SYSERR && s == old(s)
              else r == OK && s == KernelCalls.SleepMs(old(s), 1000 * delay)
    {
      hide Inv, AllLinked, Disjoint, SameOrder, SameSems, SameLists;
      if delay < 0 || delay > MAXSECONDS {
        return SYSERR;
      }
      var ok := SleepMs(1000 * delay);
      r := OK;
    }

    /** Off the ready list. */
    method GetReady(pid: int)
      requires Rep() && Placed(s) && InState(s.procs, pid, READY)
      modifies this`s, qs`lists, qs.queuetab
      ensures Rep() && s == Leave(old(s), pid)
    {
      hide AllLinked, Disjoint, SameSems, Nowhere, SleepPlaced, QueuesPlaced, Descending, Remove;
      ghost var qt := qs.queuetab[..];
      assert pid in s.ready;
      var item := qs.GetItem(pid, READY_LIST);
      ReadyOrder(s, pid, qt, qs.queuetab[..]);
      s := Leave(s, pid);
    }

    lemma ReadyOrder(s: Kern, pid: int, qt: seq<QEntry>, qt': seq<QEntry>)
      requires Placed(s) && InState(s.procs, pid, READY) && |qt| == NQENT && SameOrder(s, qt) && SameKeys(qt, qt')
      ensures SameOrder(Leave(s, pid), qt')
    {
      hide SleepPlaced, QueuesPlaced, Descending, Prio;
      var t := Leave(s, pid);
      assert pid in s.ready;
      var i := IndexOf(s.ready, pid);
      assert Keys(qt', s.sleep) == Keys(qt, s.sleep);
      forall j | 0 <= j < |t.ready| ensures 0 <= t.ready[j] < NPROC && qt'[t.ready[j]].qkey == Prio(t.procs, t.ready[j]) {
        assert t.ready[j] == s.ready[if j < i then j else j + 1];
      }
    }

    /** suspend */
    method Suspend(pid: int) returns (r: int)
      requires Valid() && Enabled(s, OpSuspend(pid))
      modifies this`s, this`currpid, this`preempt, this`attempt, proctab, qs`lists, qs.queuetab
      ensures Valid() && s == KernelCalls.Suspend(old(s), pid)
      ensures r == if BadPid(old(s), pid) || pid == NULLPROC || (old(s).procs[pid].state != CURR && old(s).procs[pid].state != READY) then SYSERR
                   else old(s).procs[pid].prio
    {
      hide AllLinked, Disjoint, SameOrder, SameSems, SameLists, Nowhere, ReadyPlaced, SleepPlaced, QueuesPlaced, Descending, Top, SemsCounted, Deltas, Leave;
      SuspendKeeps(s, pid);
      if !IsPid(pid) || proctab[pid].state == FREE || pid == NULLPROC {
        return SYSERR;
      }
      if proctab[pid].state != CURR && proctab[pid].state != READY {
        return SYSERR;
      }
      ghost var before := s;
      if proctab[pid].state == READY {
        LeaveFrame(s, pid);
        GetReady(pid);
        SetState(pid, SUSP);
      } else {
        assert InState(s.procs, pid, CURR);
        IdleMove(s, pid, SUSP);
        ReschedKeeps(WithState(s, pid, SUSP));
        SetState(pid, SUSP);
        Resched();
      }
      r := proctab[pid].prio;
    }

    /** resume */
    method Resume(pid: int) returns (r: int)
      requires Valid()
      modifies this`s, this`currpid, this`preempt, this`attempt, proctab, qs`lists, qs.queuetab
      ensures Valid() && s == KernelCalls.Resume(old(s), pid)
      ensures r == if BadPid(old(s), pid) || old(s).procs[pid].state != SUSP then SYSERR else old(s).procs[pid].prio
    {
      hide AllLinked, Disjoint, SameOrder, SameSems, SameLists, Nowhere, ReadyPlaced, SleepPlaced, QueuesPlaced, Descending, Top, SemsCounted, Deltas, Wake;
      ResumeKeeps(s, pid);
      if !IsPid(pid) || proctab[pid].state == FREE {
        return SYSERR;
      }
      if proctab[pid].state != SUSP {
        return SYSERR;
      }
      var prio := proctab[pid].prio;
      NotCurrent(s, pid);
      UnlistedNowhere(s, qs.lists, pid);
      ReadyTaken(pid, s);
      r := prio;
    }

    /** A waiting process taken from the middle of its semaphore's queue. */
    method GetWaiter(pid: int)
      requires Rep() && Placed(s) && InState(s.procs, pid, WAIT)
      modifies this`s, qs`lists, qs.queuetab
      ensures Rep() && s == Leave(old(s), pid)
    {
      hide AllLinked, Disjoint, SameOrder, Nowhere, SleepPlaced, ReadyPlaced, Descending, Remove;
      ghost var qt, k := qs.queuetab[..], s.procs[pid].sem;
      assert WaitsOn(s.procs, pid, k);
      var item := qs.GetItem(pid, k);
      OrderFrame(s, Leave(s, pid), qt, qs.queuetab[..]);
      s := Leave(s, pid);
    }

    /** The effect of kill on queues, states and semaphore counts. */
    method Kill(pid: int) returns (r: int)
      requires Valid() && Enabled(s, OpKill(pid))
      modifies this`s, this`currpid, this`preempt, this`attempt, proctab, semtab, qs`lists, qs.queuetab
      ensures Valid() && s == KernelCalls.Kill(old(s), pid) && r == if BadPid(old(s), pid) || pid == NULLPROC then SYSERR else OK
    {
      hide AllLinked, Disjoint, SameOrder, SameLists, Nowhere, ReadyPlaced, SleepPlaced, Descending, Top, SemsCounted, Deltas, Leave, Distinct;
      KillKeeps(s, pid);
      if !IsPid(pid) || pid == NULLPROC || proctab[pid].state == FREE {
        return SYSERR;
      }
      LeaveFrame(s, pid);
      if proctab[pid].state == CURR {
        assert InState(s.procs, pid, CURR);
        IdleMove(s, pid, FREE);
        SetState(pid, FREE);
        Resched();
      } else if proctab[pid].state == SLEEP || proctab[pid].state == RECTIM {
        LeaveAsleep(s, pid);
        var u := Unsleep(pid);
        SetState(pid, FREE);
      } else {
        if proctab[pid].state == WAIT {
          var sem := proctab[pid].sem;
          assert InState(s.procs, pid, WAIT);
          CountMove(s, sem, s.sems[sem].count + 1, true);
          SetCount(sem, semtab[sem].scount + 1);
          LeaveFrame(s, pid);
          GetWaiter(pid);
        } else if proctab[pid].state == READY {
          GetReady(pid);
        } else {
          LeaveIdle(s, pid);
        }
        SetState(pid, FREE);
      }
      r := OK;
    }

    lemma LeaveAsleep(s: Kern, pid: int)
      requires Placed(s) && IsPid(pid) && Asleep(s.procs, pid)
      ensures pid in s.sleep && Leave(s, pid) == Unslept(s, pid)
    {
    }

    lemma LeaveIdle(s: Kern, pid: int)
      requires Placed(s) && Unlisted(s, pid)
      ensures Leave(s, pid) == s
    {
    }

    /** newpid: a free entry, searching around the table from nextpid. */
    method NewPid() returns (pid: int)
      requires Rep()
      modifies this`nextpid
      ensures Rep()
      ensures pid == SYSERR <==> forall p {:trigger s.procs[p]} :: 0 <= p < NPROC ==> s.procs[p].state != FREE
      ensures pid != SYSERR ==> IsPid(pid) && s.procs[pid].state == FREE
    {
      hide AllLinked, Disjoint, SameOrder, SameSems, SameLists;
      ghost var first := nextpid % NPROC;
      for i := 0 to NPROC
        invariant Rep() && nextpid % NPROC == (first + i) % NPROC
        invariant forall p {:trigger s.procs[p]} :: (first <= p < first + i || first <= p + NPROC < first + i) && 0 <= p < NPROC ==> s.procs[p].state != FREE
      {
        nextpid := nextpid % NPROC;
        if proctab[nextpid].state == FREE {
          nextpid := nextpid + 1;
          return nextpid - 1;
        }
        nextpid := nextpid + 1;
      }
      return SYSERR;
    }

    /** create, as far as the process table goes. */
    method Create(priority: pri16) returns (r: int)
      requires Valid()
      modifies this`s, this`nextpid, proctab
      ensures Valid()
      ensures r == SYSERR <==> priority < 1 || forall p {:trigger old(s).procs[p]} :: 0 <= p < NPROC ==> old(s).procs[p].state != FREE
      ensures if r == SYSERR then s == old(s) else Enabled(old(s), OpCreate(r, priority)) && s == KernelCalls.Create(old(s), r, priority)
    {
      hide AllLinked, Disjoint, SameOrder, SameSems, Inv;
      if priority < 1 {
        return SYSERR;
      }
      var pid := NewPid();
      if pid == SYSERR {
        return SYSERR;
      }
      ghost var t := KernelCalls.Create(s, pid, priority);
      CreateKeeps(s, pid, priority);
      CreatedOrder(s, pid, priority, qs.queuetab[..]);
      proctab[pid] := proctab[pid].(state := SUSP);
      proctab[pid] := proctab[pid].(prio := priority);
      proctab[pid] := proctab[pid].(sem := -1);
      proctab[pid] := proctab[pid].(hasMsg := false);
      s := t;
      r := pid;
    }

    lemma CreatedOrder(s: Kern, pid: int, priority: pri16, qt: seq<QEntry>)
      requires Inv(s) && IsPid(pid) && s.procs[pid].state == FREE && |qt| == NQENT && SameOrder(s, qt)
      ensures SameOrder(KernelCalls.Create(s, pid, priority), qt)
    {
      hide SleepPlaced, QueuesPlaced, Descending;
      var t := KernelCalls.Create(s, pid, priority);
      forall i | 0 <= i < |s.ready| ensures qt[s.ready[i]].qkey == Prio(t.procs, s.ready[i]) {
        assert s.ready[i] in s.ready && InState(s.procs, s.ready[i], READY);
      }
    }

    // ------------------------------------------------------------ the clock

    /** The first sleeper taken off with dequeue: nobody takes over its delay. */
    method DequeueSleeper() returns (pid: int)
      requires Rep() && Core(s) && |s.sleep| > 0
      modifies this`s, qs`lists, qs.queuetab
      ensures Rep() && pid == old(s).sleep[0] && s == Popped(old(s)) && Nowhere(qs.lists, pid)
      ensures IsPid(pid) && Asleep(s.procs, pid)
    {
      hide AllLinked, Disjoint, SameSems, Nowhere, Placed;
      ghost var qt := qs.queuetab[..];
      PopMove(s);
      pid := qs.Dequeue(sleepq, SLEEP_LIST);
      PoppedOrder(s, qt, qs.queuetab[..]);
      s := Popped(s);
    }

    lemma PoppedOrder(s: Kern, qt: seq<QEntry>, qt': seq<QEntry>)
      requires Shape(s) && |qt| == NQENT && SameOrder(s, qt) && SameKeys(qt, qt') && |s.sleep| > 0
      ensures SameOrder(Popped(s), qt')
    {
      hide Prio;
      var t := Popped(s);
      forall j | 0 <= j < |t.sleep| ensures t.sleep[j] == s.sleep[j + 1] {}
      assert Keys(qt', t.sleep) == t.delays;
    }

    /** wakeup */
    method Wakeup()
      requires Rep() && Core(s)
      modifies this, proctab, qs`lists, qs.queuetab
      ensures Rep() && old(Core(DeferStart(s))) && Core(WakeDue(DeferStart(old(s)))) && s == DeferStop(WakeDue(DeferStart(old(s))))
    {
      hide AllLinked, Disjoint, SameSems, Nowhere, Placed, Running, Scheduled, MadeReady, SameLists;
      DeferStartCore(s);
      StartDeferral();
      ghost var start := s;
      WakeDueCore(start);
      var due := SleeperDue();
      while due
        invariant Rep() && Core(s) && WakeDue(s) == WakeDue(start)
        invariant due <==> |s.sleep| > 0 && s.delays[0] <= 0
        decreases |s.sleep|
      {
        PopMove(s);
        PopCore(s);
        ghost var before := s;
        var pid := DequeueSleeper();
        var r := Ready(pid);
        assert s == PopSleeper(before);
        due := SleeperDue();
      }
      var ok := StopDeferral();
    }

    /** nonempty(sleepq) and firstkey(sleepq) not above zero */
    method SleeperDue() returns (due: bool)
      requires Rep()
      ensures due <==> |s.sleep| > 0 && s.delays[0] <= 0
    {
      hide AllLinked, Disjoint, SameSems;
      var empty := qs.IsEmpty(sleepq, SLEEP_LIST);
      if empty {
        return false;
      }
      var key := qs.FirstKey(sleepq, SLEEP_LIST);
      due := key <= 0;
    }

    /** One tick off the first sleeper's delay. */
    method TickFirst() returns (due: bool)
      requires Rep() && Core(s) && |s.sleep| > 0
      modifies this`s, qs.queuetab
      ensures Rep() && s == old(s).(delays := Ticked(old(s).delays)) && (due <==> s.delays[0] <= 0)
    {
      hide Disjoint, SameSems, ReadyPlaced, SleepPlaced, QueuesPlaced, Descending;
      ghost var qt := qs.queuetab[..];
      ListLinked(qt, qs.lists, SLEEP_LIST);
      LinkedAt(qt, sleepq, s.sleep, 0);
      var first := qs.queuetab[sleepq].qnext;
      KeyKeeps(qt, qs.lists, first, qt[first].qkey - 1);
      qs.queuetab[first] := qs.queuetab[first].(qkey := qs.queuetab[first].qkey - 1);
      assert qs.queuetab[..] == qt[first := qt[first].(qkey := qt[first].qkey - 1)];
      TickedOrder(s, qt, qs.queuetab[..]);
      s := s.(delays := Ticked(s.delays));
      due := qs.queuetab[first].qkey <= 0;
    }

    lemma TickedOrder(s: Kern, qt: seq<QEntry>, qt': seq<QEntry>)
      requires Placed(s) && |qt| == NQENT && SameOrder(s, qt) && |s.sleep| > 0
      requires qt' == qt[s.sleep[0] := qt[s.sleep[0]].(qkey := qt[s.sleep[0]].qkey - 1)]
      ensures SameOrder(s.(delays := Ticked(s.delays)), qt')
    {
      hide QueuesPlaced, Descending;
      assert Keys(qt', s.sleep) == Ticked(s.delays);
      forall j | 0 <= j < |s.ready| ensures qt'[s.ready[j]].qkey == Prio(s.procs, s.ready[j]) {
        ReadyNotAsleep(s, j);
        assert s.sleep[0] in s.sleep;
      }
    }

    /** clkhandler: what it does for sleepers. */
    method ClockTick()
      requires Valid()
      modifies this, proctab, qs`lists, qs.queuetab
      ensures Valid() && s == KernelCalls.ClockTick(old(s))
    {
      hide AllLinked, Disjoint, SameSems, SameOrder, Placed, Running, Scheduled, SemsCounted, Deltas;
      TickKeeps(s);
      var empty := qs.IsEmpty(sleepq, SLEEP_LIST);
      if !empty {
        DelayMove(s, Ticked(s.delays));
        var due := TickFirst();
        if due {
          Wakeup();
        }
      }
    }

    /** clkhandler: the end of a time slice. */
    method ClockPreempt()
      requires Valid()
      modifies this`s, this`currpid, this`preempt, this`attempt, proctab, qs`lists, qs.queuetab
      ensures Valid() && s == KernelCalls.ClockPreempt(old(s))
    {
      hide AllLinked, Disjoint, SameSems, SameOrder, ReadyPlaced, SleepPlaced, QueuesPlaced, Descending, SemsCounted, Deltas, OneCurrent;
      PreemptKeeps(s);
      OrderFrame(s, s.(preempt := QUANTUM), qs.queuetab[..], qs.queuetab[..]);
      preempt := preempt - 1;
      if preempt <= 0 {
        preempt := QUANTUM;
        SameListsPlaced(s, s.(preempt := QUANTUM));
        s := s.(preempt := QUANTUM);
        Resched();
      } else {
        OrderFrame(s, s.(preempt := s.preempt - 1), qs.queuetab[..], qs.queuetab[..]);
        s := s.(preempt := s.preempt - 1);
      }
    }
  }
}
