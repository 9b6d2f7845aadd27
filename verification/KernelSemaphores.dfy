/** The units of a semaphore over whole runs. */
module KernelSemaphores {
  import opened Common
  import opened DeltaList
  import opened KernelModel
  import opened KernelMoves
  import opened KernelCalls
  import opened KernelRuns
  import opened KernelTime
  import opened KernelEffects

  /** Semaphore k is made anew. */
  predicate Remakes(op: Op, k: int) { op == OpSemDelete(k) || (op.OpSemReset? && op.k == k && op.count >= 0) }

  function Waits(ops: seq<Op>, k: int): (n: nat) {
    if |ops| == 0 then 0 else (if ops[0] == OpWait(k) then 1 else 0) + Waits(ops[1..], k)
  }

  /** The units that the calls of signal and signaln in ops give. */
  function Units(ops: seq<Op>, k: int): (n: nat) {
    if |ops| == 0 then 0 else
      (if ops[0] == OpSignal(k) then 1 else if ops[0].OpSignalN? && ops[0].k == k && ops[0].n >= 0 then ops[0].n else 0) + Units(ops[1..], k)
  }

  predicate KillsWaiter(s: Kern, op: Op, k: int) { op.OpKill? && op.p != NULLPROC && WaitsOn(s.procs, op.p, k) }

  /** How often a process is killed while it waits on k. */
  ghost function Killed(s: Kern, ops: seq<Op>, k: int): (n: nat)
    requires Inv(s) && Legal(s, ops)
    decreases |ops|
  {
    if |ops| == 0 then 0 else
      StepKeeps(s, ops[0]);
      (if KillsWaiter(s, ops[0], k) then 1 else 0) + Killed(Step(s, ops[0]), ops[1..], k)
  }

  /** One step: a wait takes a unit, signals give theirs, and a waiter that is killed gives its own back. */
  lemma CountStep(s: Kern, op: Op, k: int)
    requires Inv(s) && Enabled(s, op) && !BadSem(s, k) && !Remakes(op, k)
    ensures Shape(Step(s, op)) && !BadSem(Step(s, op), k)
    ensures Step(s, op).sems[k].count
         == s.sems[k].count + Units([op], k) - Waits([op], k) + if KillsWaiter(s, op, k) then 1 else 0
  {
    hide Inv, Freed, Handed, Offered, Step, SleepDropped, SleepEntered, Enabled, Units, Waits;
    InvCore(s);
    StepKeeps(s, op);
    InvCore(Step(s, op));
    OneOp(op, k);
    match op
    case OpWait(j) => WaitEffect(s, j);
    case OpSignal(j) => SignalEffect(s, j);
    case OpSignalN(j, n) => SignalNEffect(s, j, n);
    case OpSemCreate(j, count) => FreeEntry(s, op); SemCreateEffect(s, j, count);
    case OpSemReset(j, count) => SemResetEffect(s, j, count);
    case OpSemDelete(j) => SemDeleteEffect(s, j);
    case OpSend(p, msg) => SendEffect(s, p, msg);
    case OpReceive => ReceiveEffect(s);
    case OpTakeMessage => TakeEffect(s);
    case OpRecvTime(d) => RecvTimeEffect(s, d);
    case OpSleepMs(d) => SleepMsEffect(s, d); OfferedSems(s, Step(s, op));
    case OpSuspend(p) => SuspendEffect(s, p);
    case OpResume(p) => ResumeEffect(s, p);
    case OpKill(p) => KillEffect(s, p); WaiterState(s, p, k);
    case OpCreate(p, prio) => CreateEffect(s, p, prio);
    case OpYield => YieldEffect(s); OfferedSems(s, Step(s, op));
    case OpDeferStart => DeferEffect(s);
    case OpDeferStop => DeferEffect(s); DeferSems(s);
    case OpClockTick => TickEffect(s);
    case OpClockPreempt => PreemptEffect(s); OfferedSems(s.(preempt := QUANTUM), Step(s, op));
  }

  lemma OneOp(op: Op, k: int)
    ensures Waits([op], k) == if op == OpWait(k) then 1 else 0
    ensures Units([op], k) == if op == OpSignal(k) then 1 else if op.OpSignalN? && op.k == k && op.n >= 0 then op.n else 0
  {
    assert [op][1..] == [];
    assert Waits([], k) == 0 && Units([], k) == 0;
  }

  lemma FreeEntry(s: Kern, op: Op)
    requires Inv(s) && Enabled(s, op) && op.OpSemCreate?
    ensures BadSem(s, op.k) && 0 <= op.k < NSEM
  {
  }

  lemma OfferedSems(s: Kern, t: Kern)
    ensures Offered(s, t) ==> t.sems == s.sems
  {
  }

  lemma DeferSems(s: Kern)
    requires Inv(s)
    ensures Step(s, OpDeferStop).sems == s.sems
  {
    hide Inv, DeferStop;
    InvCore(s);
    DeferStopCore(s);
  }

  lemma WaiterState(s: Kern, p: int, k: int)
    requires Inv(s)
    ensures WaitsOn(s.procs, p, k) ==> !BadPid(s, p) && p != s.curr
  {
  }

  /** Conservation: as long as semaphore k is not reset or deleted, its count is the one at first, plus the
      units signalled, minus the calls of wait, plus the waiters killed. */
  lemma {:induction false} UnitsConserved(s: Kern, ops: seq<Op>, k: int)
    requires Inv(s) && Legal(s, ops) && !BadSem(s, k) && forall op :: op in ops ==> !Remakes(op, k)
    ensures Shape(Run(s, ops)) && !BadSem(Run(s, ops), k)
    ensures Run(s, ops).sems[k].count == s.sems[k].count + Units(ops, k) - Waits(ops, k) + Killed(s, ops, k)
    decreases |ops|
  {
    hide Inv, Step, Enabled, BadSem;
    InvCore(s);
    if |ops| > 0 {
      assert ops[0] in ops;
      CountStep(s, ops[0], k);
      OneOp(ops[0], k);
      StepKeeps(s, ops[0]);
      UnitsConserved(Step(s, ops[0]), ops[1..], k);
    }
  }

  /** Of the calls of wait on a semaphore on which nobody waited, those have gone through that the units allow:
      all of them, or as many as there were units to begin with and have been signalled. Every other one waits
      or was killed waiting. */
  lemma UnitsGranted(s: Kern, ops: seq<Op>, k: int)
    requires Inv(s) && Legal(s, ops) && !BadSem(s, k) && (forall op :: op in ops ==> !Remakes(op, k)) && s.sems[k].queue == []
    ensures Shape(Run(s, ops)) && !BadSem(Run(s, ops), k) && s.sems[k].count >= 0
    ensures var asked, units := Waits(ops, k) - Killed(s, ops, k), s.sems[k].count + Units(ops, k);
            asked - |Run(s, ops).sems[k].queue| == if asked <= units then asked else units
  {
    hide Inv, Killed, Waits, Units;
    UnitsConserved(s, ops, k);
    InvCore(s);
    Owing(s, k);
    Owing(Run(s, ops), k);
  }

  lemma Owing(s: Kern, k: int)
    requires Inv(s) && Shape(s) && !BadSem(s, k)
    ensures |s.sems[k].queue| == if s.sems[k].count < 0 then -s.sems[k].count else 0
  {
    hide Placed, Running, Scheduled, Deltas;
    assert Counted(s.sems[k]);
  }
}
