/** Whole runs of the kernel: the invariant from the first state on, and sleepers that wake on time. */
module KernelTime {
  import opened Common
  import opened DeltaList
  import opened KernelModel
  import opened KernelMoves
  import opened KernelCalls
  import opened KernelRuns

  ghost predicate Legal(s: Kern, ops: seq<Op>)
    requires Inv(s)
    decreases |ops|
  {
    |ops| == 0 || (InvCore(s); Enabled(s, ops[0]) && (StepKeeps(s, ops[0]); Legal(Step(s, ops[0]), ops[1..])))
  }

  ghost function Run(s: Kern, ops: seq<Op>): (t: Kern)
    requires Inv(s) && Legal(s, ops)
    ensures Inv(t)
    decreases |ops|
  {
    if |ops| == 0 then s else
      StepKeeps(s, ops[0]);
      Run(Step(s, ops[0]), ops[1..])
  }

  /** The state that sysinit sets up: only the null process, no semaphores, nobody waiting. */
  function Boot(): (s: Kern) {
    Kern(seq(NPROC, p => Proc(if p == NULLPROC then CURR else FREE, 0, 0, 0, false)), seq(NSEM, _ => Sem(false, 0, [])),
         [], [], [], NULLPROC, 0, false, QUANTUM)
  }

  lemma BootInv()
    ensures Inv(Boot())
  {
    assert forall k {:trigger Boot().sems[k]} :: 0 <= k < NSEM ==> Boot().sems[k].queue == [];
  }

  // ------------------------------------------------------------ deadlines of processes

  /** Ticks until process p wakes. */
  ghost function Remaining(s: Kern, p: int): (n: int)
    requires |s.sleep| == |s.delays| && p in s.sleep
  {
    Deadline(s.delays, IndexOf(s.sleep, p))
  }

  lemma SleepDistinct(s: Kern)
    requires Inv(s)
    ensures Distinct(s.sleep) && |s.sleep| == |s.delays| && Natural(s.delays)
  {
  }

  lemma IndexAt(l: seq<int>, p: int)
    requires p in l
    ensures IndexOf(l, p) < |l| && l[IndexOf(l, p)] == p
  {
  }

  lemma RemainingDropped(s: Kern, t: Kern, q: int, p: int)
    requires Inv(s) && Inv(t) && SleepDropped(s, t, q) && p in s.sleep
    ensures p in t.sleep <==> p != q
    ensures p != q ==> |s.sleep| == |s.delays| && |t.sleep| == |t.delays| && Remaining(t, p) == Remaining(s, p)
  {
    hide Inv, DropDelay, Deadline;
    SleepDistinct(s);
    SleepDistinct(t);
    RemoveFacts(s.sleep, q);
    var i, j := IndexOf(s.sleep, q), IndexOf(s.sleep, p);
    DropDelayExact(s.delays, i);
    if p != q {
      var j' := if j < i then j else j - 1;
      assert t.sleep[j'] == p;
      IndexUnique(t.sleep, j');
      assert Deadline(s.delays, j) == Deadline(s.delays, j);
    }
  }

  lemma InsertedMembers(l: seq<int>, k: nat, q: int, p: int)
    requires k <= |l|
    ensures |Inserted(l, k, q)| == |l| + 1 && Inserted(l, k, q)[k] == q
    ensures p in Inserted(l, k, q) <==> p in l || p == q
  {
    assert l == l[..k] + l[k..];
  }

  lemma InsertedAt(l: seq<int>, k: nat, q: int, j: nat)
    requires k <= |l| && j < |l|
    ensures |Inserted(l, k, q)| == |l| + 1 && Inserted(l, k, q)[if j < k then j else j + 1] == l[j]
  {
  }

  lemma RemainingEntered(s: Kern, t: Kern, q: int, delay: int, p: int)
    requires Inv(s) && Inv(t) && SleepEntered(s, t, q, delay) && delay >= 0
    ensures p in t.sleep <==> p in s.sleep || p == q
    ensures |s.sleep| == |s.delays| && |t.sleep| == |t.delays|
    ensures p in s.sleep ==> Remaining(t, p) == Remaining(s, p)
    ensures q in t.sleep && Remaining(t, q) == delay
  {
    hide Inv, InsertDelay, Deadline, DelayPlace, IndexOf, Inserted;
    SleepDistinct(s);
    SleepDistinct(t);
    var k := DelayPlace(s.delays, delay);
    InsertDelayExact(s.delays, delay);
    InsertedMembers(s.sleep, k, q, p);
    IndexUnique(t.sleep, k);
    if p in s.sleep {
      IndexAt(s.sleep, p);
      var j := IndexOf(s.sleep, p);
      InsertedAt(s.sleep, k, q, j);
      IndexUnique(t.sleep, if j < k then j else j + 1);
      assert Deadline(s.delays, j) == Deadline(s.delays, j);
    }
  }

  /** No sleeper is due already. */
  predicate HeadPositive(s: Kern) { |s.delays| > 0 ==> s.delays[0] > 0 }

  /** A tick lowers every deadline by exactly one and wakes exactly those that reach zero. */
  lemma RemainingTicked(s: Kern, p: int)
    requires Inv(s) && HeadPositive(s) && p in s.sleep
    ensures Inv(ClockTick(s)) && |s.sleep| == |s.delays| && HeadPositive(ClockTick(s))
    ensures p in ClockTick(s).sleep <==> Remaining(s, p) != 1
    ensures p in ClockTick(s).sleep ==> |ClockTick(s).sleep| == |ClockTick(s).delays| && Remaining(ClockTick(s), p) == Remaining(s, p) - 1
    ensures Remaining(s, p) >= 1
  {
    hide Inv, Deadline, ClockTick, Due, IndexOf, Total;
    var t := ClockTick(s);
    TickKeeps(s);
    SleepDistinct(s);
    SleepDistinct(t);
    TickExact(s.delays);
    IndexAt(s.sleep, p);
    var k := Due(Ticked(s.delays));
    var j := IndexOf(s.sleep, p);
    PositiveDeadline(s.delays, j);
    assert Deadline(s.delays, j) == 1 <==> j < k;
    if j >= k {
      assert t.sleep[j - k] == p;
      IndexUnique(t.sleep, j - k);
    } else {
      forall i | 0 <= i < |t.sleep| ensures t.sleep[i] != p { assert t.sleep[i] == s.sleep[k + i]; }
    }
  }

  lemma PositiveDeadline(d: seq<int>, i: nat)
    requires Natural(d) && i < |d| && d[0] > 0
    ensures Deadline(d, i) >= 1
  {
    assert d[..i + 1] == [d[0]] + d[1..i + 1];
    TotalConcat([d[0]], d[1..i + 1]);
    TotalOne(d[0]);
    TotalNatural(d[1..i + 1]);
  }

  // ------------------------------------------------------------ how a step changes the delta list

  /** The caller goes to sleep in this step. */
  predicate Enters(s: Kern, op: Op)
    requires Shape(s)
  {
    || (op.OpRecvTime? && op.maxWait >= 0 && !s.procs[s.curr].hasMsg)
    || (op.OpSleepMs? && op.delay > 0)
  }

  function DelayOf(op: Op): (d: int) {
    if op.OpRecvTime? then op.maxWait else if op.OpSleepMs? then op.delay else 0
  }

  /** The step takes the sleeper p off the list before its time: it is killed, or a message arrives
      for which it waits. */
  predicate Disturbs(s: Kern, op: Op, p: int)
    requires Shape(s) && IsPid(p)
  {
    op == OpKill(p) || (op.OpSend? && op.p == p && s.procs[p].state == RECTIM && !s.procs[p].hasMsg)
  }

  lemma SleepersIdle(s: Kern, p: int)
    requires Inv(s) && p in s.sleep
    ensures IsPid(p) && p != NULLPROC && s.procs[p].state != FREE && Asleep(s.procs, p)
  {
  }

  /** A step other than a tick enters the caller, removes the one that is disturbed, or leaves the
      delta list alone. */
  ghost predicate SleepMoved(s: Kern, op: Op, t: Kern)
    requires Shape(s)
  {
    if Enters(s, op) then SleepEntered(s, t, s.curr, DelayOf(op))
    else SleepKept(s, t) || ((op.OpKill? || op.OpSend?) && IsPid(op.p) && Disturbs(s, op, op.p) && SleepDropped(s, t, op.p))
  }

  lemma StepSleep(s: Kern, op: Op)
    requires Inv(s) && Enabled(s, op) && op != OpClockTick
    ensures Inv(Step(s, op)) && SleepMoved(s, op, Step(s, op))
  {
    hide Inv, Wait, Signal, SignalN, SemReset, SemDelete, Suspend, Resume, Kill, Send, Receive, RecvTime, SleepMs, Resched, DeferStart,
         DeferStop, ClockPreempt, Remove, DropDelay, InsertDelay, DelayPlace, Inserted, PutToSleep;
    InvCore(s);
    StepKeeps(s, op);
    match op
    case OpWait(k) => WaitKeeps(s, k);
    case OpSignal(k) => SignalKeeps(s, k);
    case OpSignalN(k, n) => SignalNKeeps(s, k, n);
    case OpSemCreate(k, count) => SemCreateKeeps(s, k, count);
    case OpSemReset(k, count) => SemResetKeeps(s, k, count);
    case OpSemDelete(k) => SemDeleteKeeps(s, k);
    case OpSend(q, msg) => SendSleep(s, q, msg);
    case OpReceive => ReceiveKeeps(s);
    case OpTakeMessage => TakeMessageKeeps(s);
    case OpRecvTime(d) => RecvTimeSleep(s, d);
    case OpSleepMs(d) => SleepMsSleep(s, d);
    case OpSuspend(q) => SuspendKeeps(s, q);
    case OpResume(q) => ResumeKeeps(s, q);
    case OpKill(q) => KillKeeps(s, q); if q in s.sleep { SleepersIdle(s, q); }
    case OpCreate(q, prio) => CreateKeeps(s, q, prio);
    case OpYield => YieldKeeps(s);
    case OpDeferStart => DeferKeeps(s);
    case OpDeferStop => DeferKeeps(s);
    case OpClockPreempt => PreemptKeeps(s);
  }

  lemma SendSleep(s: Kern, q: int, msg: int)
    requires Inv(s)
    ensures SleepMoved(s, OpSend(q, msg), Send(s, q, msg))
  {
    hide Placed, Running, Scheduled, SemsCounted, Deltas, Wake, WithMessage, Remove, DropDelay;
    InvCore(s);
    SendKeeps(s, q, msg);
    if q in s.sleep { SleepersIdle(s, q); }
  }

  lemma RecvTimeSleep(s: Kern, d: int)
    requires Inv(s) && Enabled(s, OpRecvTime(d))
    ensures SleepMoved(s, OpRecvTime(d), RecvTime(s, d))
  {
    hide Placed, Running, Scheduled, SemsCounted, Deltas, PutToSleep, Resched, DelayPlace, InsertDelay, Inserted;
    InvCore(s);
    if Enters(s, OpRecvTime(d)) { AsleepKeeps(s, d, RECTIM); }
  }

  lemma SleepMsSleep(s: Kern, d: int)
    requires Inv(s) && Enabled(s, OpSleepMs(d))
    ensures SleepMoved(s, OpSleepMs(d), SleepMs(s, d))
  {
    hide Placed, Running, Scheduled, SemsCounted, Deltas, PutToSleep, Resched, DelayPlace, InsertDelay, Inserted;
    InvCore(s);
    if d > 0 { AsleepKeeps(s, d, SLEEP); } else if d == 0 { YieldKeeps(s); }
  }

  /** No call of anybody else changes a sleeper's remaining time; the sleeper leaves exactly if it is
      disturbed. */
  lemma SleepStep(s: Kern, op: Op, p: int)
    requires Inv(s) && Enabled(s, op) && p in s.sleep && op != OpClockTick
    ensures Inv(Step(s, op)) && |s.sleep| == |s.delays| && IsPid(p)
    ensures p in Step(s, op).sleep <==> !Disturbs(s, op, p)
    ensures p in Step(s, op).sleep ==> |Step(s, op).sleep| == |Step(s, op).delays| && Remaining(Step(s, op), p) == Remaining(s, p)
  {
    hide Inv, Step, Enabled, SleepEntered, SleepDropped, Deadline, IndexOf;
    InvCore(s);
    SleepersIdle(s, p);
    SleepDistinct(s);
    StepSleep(s, op);
    var t := Step(s, op);
    SleepDistinct(t);
    if Enters(s, op) {
      RemainingEntered(s, t, s.curr, DelayOf(op), p);
    } else if !SleepKept(s, t) {
      RemainingDropped(s, t, op.p, p);
    } else {
      KeptUndisturbed(s, op, p);
    }
  }

  /** A disturbed sleeper does leave. */
  lemma KeptUndisturbed(s: Kern, op: Op, p: int)
    requires Inv(s) && Enabled(s, op) && p in s.sleep && IsPid(p) && SleepKept(s, Step(s, op))
    ensures !Disturbs(s, op, p)
  {
    hide Placed, Running, Scheduled, SemsCounted, Deltas, Wake, Remove, DropDelay;
    InvCore(s);
    SleepersIdle(s, p);
    SleepDistinct(s);
    if Disturbs(s, op, p) {
      RemoveFacts(s.sleep, p);
      if op.OpKill? {
        KillKeeps(s, p);
      } else {
        SendKeeps(s, p, op.msg);
        SendArrives(s, p, op.msg);
      }
    }
  }

  lemma SendArrives(s: Kern, p: int, msg: int)
    requires Inv(s) && InState(s.procs, p, RECTIM) && !s.procs[p].hasMsg
    ensures Send(s, p, msg) != s
  {
    hide Inv, Placed, Running, Scheduled, Wake;
    InvCore(s);
    var t := WithMessage(s, p, msg, true);
    MessageMove(s, p, msg, true);
    CoreShape(t);
    NotCurrent(t, p);
    WakeCore(t, p);
    assert Wake(t, p).procs[p].hasMsg;
  }

  // ------------------------------------------------------------ zero delays

  /** recvtime(0) puts the caller in front of everybody with a zero delay. */
  lemma ZeroEntered(s: Kern)
    requires Inv(s) && MayBlock(s) && !s.procs[s.curr].hasMsg
    ensures Enabled(s, OpRecvTime(0)) && Inv(RecvTime(s, 0)) && |RecvTime(s, 0).delays| > 0 && RecvTime(s, 0).delays[0] == 0
  {
    hide Placed, Running, Scheduled, SemsCounted, Deltas, PutToSleep, Resched, DelayPlace, Inserted;
    InvCore(s);
    AsleepKeeps(s, 0, RECTIM);
    SleepDistinct(s);
  }

  /** A tick that finds a zero delay in front wakes those that were due already, and is lost on
      everybody else. */
  lemma TickLostOn(s: Kern, p: int)
    requires Inv(s) && !HeadPositive(s) && p in s.sleep
    ensures Inv(ClockTick(s)) && HeadPositive(ClockTick(s)) && |s.sleep| == |s.delays|
    ensures p in ClockTick(s).sleep <==> Remaining(s, p) != 0
    ensures p in ClockTick(s).sleep ==> |ClockTick(s).sleep| == |ClockTick(s).delays| && Remaining(ClockTick(s), p) == Remaining(s, p)
    ensures Remaining(s, p) >= 0
  {
    hide Inv, Deadline, ClockTick, Due, Total, IndexOf;
    var t := ClockTick(s);
    TickKeeps(s);
    SleepDistinct(s);
    SleepDistinct(t);
    var k, j := Due(Ticked(s.delays)), IndexOf(s.sleep, p);
    TickLost(s.delays);
    DueStops(Ticked(s.delays));
    DueDeadlines(s.delays);
    IndexAt(s.sleep, p);
    assert Deadline(s.delays, j) == 0 <==> j < k;
    if j >= k {
      assert t.sleep[j - k] == p;
      IndexUnique(t.sleep, j - k);
    } else {
      forall i | 0 <= i < |t.sleep| ensures t.sleep[i] != p { assert t.sleep[i] == s.sleep[k + i]; }
    }
  }

  /** The failing case in full: whenever a process may call recvtime(0) without a message waiting, it
      steals the next tick from every sleeper p that is not due yet. */
  lemma TickStolen(s: Kern, p: int)
    requires Inv(s) && MayBlock(s) && !s.procs[s.curr].hasMsg && p in s.sleep && Remaining(s, p) > 0
    ensures |s.sleep| == |s.delays| && Legal(s, [OpRecvTime(0), OpClockTick])
    ensures var t := Run(s, [OpRecvTime(0), OpClockTick]);
            p in t.sleep && |t.sleep| == |t.delays| && Remaining(t, p) == Remaining(s, p)
  {
    hide Inv, Remaining, Enabled, Step, Run, Legal;
    InvCore(s);
    SleepDistinct(s);
    ZeroEntered(s);
    StepKeeps(s, OpRecvTime(0));
    SleepersIdle(s, p);
    SleepStep(s, OpRecvTime(0), p);
    var u := Step(s, OpRecvTime(0));
    RecvTimeIsStep(s, 0);
    TickIsStep(u);
    StepKeeps(u, OpClockTick);
    TickLostOn(u, p);
    InvCore(u);
    TwoSteps(s, OpRecvTime(0), OpClockTick);
  }

  lemma TwoSteps(s: Kern, a: Op, b: Op)
    requires Inv(s) && Shape(s) && Enabled(s, a) && Inv(Step(s, a)) && Shape(Step(s, a)) && Enabled(Step(s, a), b) && Inv(Step(Step(s, a), b))
    ensures Legal(s, [a, b]) && Run(s, [a, b]) == Step(Step(s, a), b)
  {
    hide Inv, Step, Enabled;
    var t := Step(s, a);
    assert [a, b][1..] == [b] && [b][1..] == [];
    assert Legal(Step(t, b), []);
    assert Legal(t, [b]) && Run(t, [b]) == Step(t, b);
  }

  lemma RecvTimeIsStep(s: Kern, d: int)
    requires Inv(s) && Enabled(s, OpRecvTime(d))
    ensures Step(s, OpRecvTime(d)) == RecvTime(s, d)
  {
  }

  // ------------------------------------------------------------ sleeping through a run

  function Ticks(ops: seq<Op>): (n: nat) {
    if |ops| == 0 then 0 else (if ops[0] == OpClockTick then 1 else 0) + Ticks(ops[1..])
  }

  /** The ticks of a run that are not lost: those that find no zero delay in front. */
  ghost function TicksCounted(s: Kern, ops: seq<Op>): (n: nat)
    requires Inv(s) && Legal(s, ops)
    decreases |ops|
  {
    if |ops| == 0 then 0 else
      StepKeeps(s, ops[0]);
      (if ops[0] == OpClockTick && HeadPositive(s) then 1 else 0) + TicksCounted(Step(s, ops[0]), ops[1..])
  }

  /** p is asleep in every state of the run. */
  ghost predicate StaysAsleep(s: Kern, ops: seq<Op>, p: int)
    requires Inv(s) && Legal(s, ops)
    decreases |ops|
  {
    p in s.sleep && (|ops| == 0 || (StepKeeps(s, ops[0]); StaysAsleep(Step(s, ops[0]), ops[1..], p)))
  }

  /** No step of the run disturbs p. */
  ghost predicate Undisturbed(s: Kern, ops: seq<Op>, p: int)
    requires Inv(s) && Legal(s, ops) && IsPid(p)
    decreases |ops|
  {
    |ops| == 0 || (StepKeeps(s, ops[0]); InvCore(s); !Disturbs(s, ops[0], p) && Undisturbed(Step(s, ops[0]), ops[1..], p))
  }

  /** Whatever happens, a sleeper sleeps on exactly as long as nobody kills it or sends it a message it
      waits for, and fewer ticks than it had left have passed that found no zero delay in front. One
      that entered with a zero delay itself wakes at the next tick. */
  lemma {:induction false} WakesOnTime(s: Kern, ops: seq<Op>, p: int)
    requires Inv(s) && Legal(s, ops) && p in s.sleep
    ensures |s.sleep| == |s.delays| && IsPid(p)
    ensures StaysAsleep(s, ops, p) <==>
              Undisturbed(s, ops, p) && if Remaining(s, p) == 0 then Ticks(ops) == 0 else TicksCounted(s, ops) < Remaining(s, p)
    decreases |ops|
  {
    hide Inv, Step, Remaining, Disturbs, Enabled;
    SleepDistinct(s);
    SleepersIdle(s, p);
    RemainingNatural(s, p);
    if |ops| > 0 {
      InvCore(s);
      var t := Step(s, ops[0]);
      StepKeeps(s, ops[0]);
      if ops[0] == OpClockTick {
        TickStep(s, p);
        NoDisturbance(s, p);
      } else {
        SleepStep(s, ops[0], p);
      }
      if p in t.sleep {
        WakesOnTime(t, ops[1..], p);
      } else {
        AwakeAtOnce(t, ops[1..], p);
      }
    }
  }

  lemma RemainingNatural(s: Kern, p: int)
    requires Inv(s) && p in s.sleep
    ensures |s.sleep| == |s.delays| && Remaining(s, p) >= 0
  {
    if HeadPositive(s) { RemainingTicked(s, p); } else { TickLostOn(s, p); }
  }

  /** What a tick does to a sleeper, in either case. */
  lemma TickStep(s: Kern, p: int)
    requires Inv(s) && p in s.sleep
    ensures Enabled(s, OpClockTick) && Inv(Step(s, OpClockTick)) && |s.sleep| == |s.delays|
    ensures var t, n := Step(s, OpClockTick), if HeadPositive(s) then 1 else 0;
            && (p in t.sleep <==> Remaining(s, p) != n)
            && (p in t.sleep ==> |t.sleep| == |t.delays| && Remaining(t, p) == Remaining(s, p) - n && Remaining(s, p) > n)
            && (Remaining(s, p) == 0 ==> !HeadPositive(s))
  {
    hide Inv, Remaining, ClockTick, Step, Enabled;
    TickIsStep(s);
    if HeadPositive(s) { RemainingTicked(s, p); } else { TickLostOn(s, p); }
  }

  lemma NoDisturbance(s: Kern, p: int)
    requires Shape(s) && IsPid(p)
    ensures !Disturbs(s, OpClockTick, p)
  {
  }

  /** With nobody due already and no recvtime(0) in the run, every tick counts. */
  lemma {:induction false} EveryTickCounts(s: Kern, ops: seq<Op>)
    requires Inv(s) && Legal(s, ops) && HeadPositive(s) && OpRecvTime(0) !in ops
    ensures TicksCounted(s, ops) == Ticks(ops)
    decreases |ops|
  {
    hide Inv, Step, Enabled, HeadPositive;
    if |ops| > 0 {
      assert ops[0] in ops;
      InvCore(s);
      StepKeeps(s, ops[0]);
      HeadKept(s, ops[0]);
      EveryTickCounts(Step(s, ops[0]), ops[1..]);
    }
  }

  lemma HeadKept(s: Kern, op: Op)
    requires Inv(s) && Enabled(s, op) && HeadPositive(s) && op != OpRecvTime(0)
    ensures Inv(Step(s, op)) && HeadPositive(Step(s, op))
  {
    hide Inv, Step, Enabled, ClockTick, HeadPositive, SleepDropped, SleepEntered;
    InvCore(s);
    StepKeeps(s, op);
    SleepDistinct(s);
    var t := Step(s, op);
    if op == OpClockTick {
      TickIsStep(s);
      TickHead(s);
    } else {
      StepSleep(s, op);
      if Enters(s, op) {
        EnteredHead(s, t, s.curr, DelayOf(op));
      } else if SleepKept(s, t) {
        KeptHead(s, t);
      } else {
        DroppedHead(s, t, op.p);
      }
    }
  }

  lemma TickHead(s: Kern)
    requires Inv(s) && HeadPositive(s)
    ensures HeadPositive(ClockTick(s))
  {
    hide Inv, ClockTick;
    SleepDistinct(s);
    if |s.sleep| > 0 {
      var p := s.sleep[0];
      RemainingTicked(s, p);
    } else {
      TickKeeps(s);
    }
  }

  lemma KeptHead(s: Kern, t: Kern)
    requires SleepKept(s, t) && HeadPositive(s)
    ensures HeadPositive(t)
  {
  }

  lemma DroppedHead(s: Kern, t: Kern, q: int)
    requires SleepDropped(s, t, q) && Natural(s.delays) && HeadPositive(s)
    ensures HeadPositive(t)
  {
    hide IndexOf, Remove;
  }

  lemma EnteredHead(s: Kern, t: Kern, q: int, delay: int)
    requires SleepEntered(s, t, q, delay) && Natural(s.delays) && HeadPositive(s) && delay > 0
    ensures HeadPositive(t)
  {
    hide DelayPlace, Inserted;
  }

  lemma TickIsStep(s: Kern)
    requires Inv(s)
    ensures Enabled(s, OpClockTick) && Step(s, OpClockTick) == ClockTick(s)
  {
  }

  lemma AwakeAtOnce(s: Kern, ops: seq<Op>, p: int)
    requires Inv(s) && Legal(s, ops) && p !in s.sleep
    ensures !StaysAsleep(s, ops, p)
  {
  }

  /** A call of sleepms puts the caller to sleep for exactly its delay. */
  lemma SleepsFor(s: Kern, delay: int)
    requires Inv(s) && Enabled(s, OpSleepMs(delay)) && delay > 0
    ensures var t := SleepMs(s, delay);
            Inv(t) && |t.sleep| == |t.delays| && s.curr in t.sleep && Remaining(t, s.curr) == delay
  {
    hide Inv, Resched, PutToSleep, Deadline;
    InvCore(s);
    SleepDistinct(s);
    AsleepKeeps(s, delay, SLEEP);
    var t := Resched(PutToSleep(s, s.curr, delay, SLEEP));
    RemainingEntered(s, t, s.curr, delay, s.curr);
  }

  // ------------------------------------------------------------ a run in which a tick is lost

  /** Nothing is ready but the null process, which runs. */
  predicate NullAlone(s: Kern) {
    Shape(s) && s.curr == NULLPROC && s.ready == [] && s.defers == 0 && s.procs[NULLPROC].prio == 0
  }

  /** Create a process and resume it. */
  ghost function Started(s: Kern, p: int): (t: Kern)
    requires Inv(s) && IsPid(p) && s.procs[p].state == FREE
  {
    CreateKeeps(s, p, 1);
    Resume(Create(s, p, 1), p)
  }

  lemma StartedRuns(s: Kern, p: int)
    requires Inv(s) && NullAlone(s) && IsPid(p) && s.procs[p].state == FREE
    ensures var t := Started(s, p);
            && Inv(t) && Shape(t) && t.curr == p && p != NULLPROC && t.ready == [NULLPROC] && t.defers == 0 && SleepKept(s, t)
            && !t.procs[p].hasMsg && t.procs[NULLPROC].prio == 0
            && (forall q {:trigger t.procs[q]} :: 0 < q < NPROC && q != p ==> t.procs[q] == s.procs[q])
  {
    hide Inv, Placed, Running, Scheduled, Resched, Awakened;
    InvCore(s);
    CreateKeeps(s, p, 1);
    var c := Create(s, p, 1);
    InvCore(c);
    ResumeKeeps(c, p);
    NullIsNotFree(s, p);
    NotCurrent(c, p);
    AwakenedMove(c, p);
    AloneReady(c, p);
    var a := Awakened(c, p);
    CoreRuns(c, a);
    AloneSwitch(a, p);
  }

  lemma AloneReady(c: Kern, p: int)
    requires Shape(c) && Placed(c) && c.ready == [] && InState(c.procs, p, SUSP) && IsPid(p)
    ensures Awakened(c, p) == WithState(c.(ready := [p]), p, READY)
  {
    hide Placed;
    assert MadeReady(c, p).ready == [p];
  }

  lemma AloneSwitch(a: Kern, p: int)
    requires Shape(a) && Placed(a) && Running(a) && a.curr == NULLPROC && a.ready == [p] && a.defers == 0 && IsPid(p) && p != NULLPROC
    requires Prio(a.procs, NULLPROC) == 0 && Prio(a.procs, p) == 1
    ensures var t := Resched(a);
            && t.curr == p && t.ready == [NULLPROC] && t.defers == 0 && t.sleep == a.sleep && t.delays == a.delays
            && t.procs == a.procs[NULLPROC := a.procs[NULLPROC].(state := READY)][p := a.procs[p].(state := CURR)]
  {
    hide Placed, Running;
    assert ReadyPlace(a.procs, [p], 0) == 1;
    assert Requeued(a).ready == [p, NULLPROC];
    assert [p, NULLPROC][1..] == [NULLPROC];
  }

  lemma NullIsNotFree(s: Kern, p: int)
    requires Inv(s) && IsPid(p) && s.procs[p].state == FREE
    ensures p != NULLPROC && p != s.curr
  {
  }

  lemma CoreRuns(c: Kern, a: Kern)
    requires Core(c) && a.curr == c.curr && Shape(a) && InState(a.procs, a.curr, c.procs[c.curr].state)
    ensures Running(a)
  {
  }

  lemma SleepsAlone(s: Kern, delay: int)
    requires Inv(s) && Shape(s) && s.curr != NULLPROC && s.ready == [NULLPROC] && s.defers == 0 && s.procs[NULLPROC].prio == 0
    requires 0 < delay <= MAXKEY
    ensures var t := SleepMs(s, delay);
            && Inv(t) && NullAlone(t) && s.curr in t.sleep && |t.sleep| == |t.delays| && Remaining(t, s.curr) == delay
            && (forall q {:trigger t.procs[q]} :: 0 < q < NPROC && q != s.curr ==> t.procs[q] == s.procs[q])
  {
    hide Placed, Running, Scheduled, SemsCounted, Deltas, Distinct, Inserted, DelayPlace, InsertDelay, Deadline, IndexOf;
    InvCore(s);
    SleepsFor(s, delay);
    AsleepKeeps(s, delay, SLEEP);
    var u := PutToSleep(s, s.curr, delay, SLEEP);
    assert !Running(u) by { NotRunning(s, u); }
    assert u.ready == [NULLPROC];
  }

  lemma NotRunning(s: Kern, u: Kern)
    requires Shape(s) && Shape(u) && u.curr == s.curr && InState(u.procs, s.curr, SLEEP)
    ensures !Running(u)
  {
  }

  lemma Prefixed(s: Kern, op: Op, ops: seq<Op>)
    requires Inv(s) && Shape(s) && Enabled(s, op) && Inv(Step(s, op)) && Legal(Step(s, op), ops)
    ensures Legal(s, [op] + ops) && Run(s, [op] + ops) == Run(Step(s, op), ops)
    ensures Ticks([op] + ops) == Ticks(ops) + if op == OpClockTick then 1 else 0
  {
    hide Inv, Step, Enabled;
    assert ([op] + ops)[1..] == ops;
  }

  /** Starting a process is two calls of a run. */
  lemma StartedRun(s: Kern, p: int, ops: seq<Op>)
    requires Inv(s) && Shape(s) && IsPid(p) && s.procs[p].state == FREE && Inv(Started(s, p)) && Legal(Started(s, p), ops)
    ensures var all := [OpCreate(p, 1)] + ([OpResume(p)] + ops);
            Legal(s, all) && Run(s, all) == Run(Started(s, p), ops) && Ticks(all) == Ticks(ops)
  {
    hide Inv, Create, Resume;
    CreateKeeps(s, p, 1);
    var c := Create(s, p, 1);
    InvCore(c);
    Prefixed(c, OpResume(p), ops);
    Prefixed(s, OpCreate(p, 1), [OpResume(p)] + ops);
  }

  /** Process 1 sleeps, process 2 calls recvtime(0), and one tick passes. */
  function LosingRun(delay: int): (ops: seq<Op>) {
    [OpCreate(1, 1)] + ([OpResume(1)] + ([OpSleepMs(delay)] + ([OpCreate(2, 1)] + ([OpResume(2)] + [OpRecvTime(0), OpClockTick]))))
  }

  /** From the first state on, that tick is lost on process 1. */
  lemma LostFromBoot(delay: int)
    requires 0 < delay <= MAXKEY
    ensures Inv(Boot()) && Legal(Boot(), LosingRun(delay)) && Ticks(LosingRun(delay)) == 1
    ensures var t := Run(Boot(), LosingRun(delay)); 1 in t.sleep && |t.sleep| == |t.delays| && Remaining(t, 1) == delay
  {
    hide Inv, Deadline, IndexOf, Started, SleepMs, Run, Legal, Ticks;
    BootInv();
    StartedRuns(Boot(), 1);
    var s1 := Started(Boot(), 1);
    SleepsAlone(s1, delay);
    var s2 := SleepMs(s1, delay);
    StartedRuns(s2, 2);
    TickStolen(Started(s2, 2), 1);
    OneTick();
    var last := [OpRecvTime(0), OpClockTick];
    StartedRun(s2, 2, last);
    Prefixed(s1, OpSleepMs(delay), [OpCreate(2, 1)] + ([OpResume(2)] + last));
    StartedRun(Boot(), 1, [OpSleepMs(delay)] + ([OpCreate(2, 1)] + ([OpResume(2)] + last)));
  }

  lemma OneTick()
    ensures Ticks([OpRecvTime(0), OpClockTick]) == 1
  {
  }
}
