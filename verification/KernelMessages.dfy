/** Messages to a process over whole runs: one place, filled by the first send and emptied by a receive. */
module KernelMessages {
  import opened Common
  import opened DeltaList
  import opened KernelModel
  import opened KernelMoves
  import opened KernelCalls
  import opened KernelRuns
  import opened KernelTime
  import opened KernelEffects

  /** The message that process p has not yet taken. */
  function Box(s: Kern, p: int): (m: Option<int>)
    requires 0 <= p < |s.procs|
  {
    if s.procs[p].hasMsg then Some(s.procs[p].msg) else None
  }

  predicate Takes(s: Kern, op: Op, p: int) { op == OpTakeMessage && s.curr == p }

  /** What becomes of the message box of p: a send to an existing process fills it if it is empty, and only a
      receive by p, or that p is created anew, empties it. */
  function Posted(s: Kern, op: Op, p: int, box: Option<int>): (m: Option<int>)
    requires Shape(s)
  {
    if op.OpSend? && op.p == p && box == None && !BadPid(s, p) then Some(op.msg)
    else if Takes(s, op, p) || (op.OpCreate? && op.p == p) then None
    else box
  }

  /** The boxes of p over a run, and the messages it takes on the way, told by the sends and receives alone. */
  ghost function Post(s: Kern, ops: seq<Op>, p: int, box: Option<int>): (r: (Option<int>, seq<int>))
    requires Inv(s) && Legal(s, ops)
    decreases |ops|
  {
    if |ops| == 0 then (box, []) else
      InvCore(s);
      StepKeeps(s, ops[0]);
      var (last, taken) := Post(Step(s, ops[0]), ops[1..], p, Posted(s, ops[0], p, box));
      (last, (if Takes(s, ops[0], p) && box.Some? then [box.value] else []) + taken)
  }

  /** The messages that receive and recvtime return to p in a run: what the field holds when it is taken. */
  ghost function Taken(s: Kern, ops: seq<Op>, p: int): (ms: seq<int>)
    requires Inv(s) && Legal(s, ops) && IsPid(p)
    decreases |ops|
  {
    if |ops| == 0 then [] else
      InvCore(s);
      StepKeeps(s, ops[0]);
      (if Takes(s, ops[0], p) && s.procs[p].hasMsg then [s.procs[p].msg] else []) + Taken(Step(s, ops[0]), ops[1..], p)
  }

  lemma BoxKept(s: Kern, t: Kern, q: seq<int>, p: int)
    requires Freed(s, t, q) && 0 <= p < |s.procs|
    ensures |t.procs| == |s.procs| && Box(t, p) == Box(s, p)
  {
  }

  lemma OfferedBox(s: Kern, t: Kern, p: int)
    requires Offered(s, t) && 0 <= p < |s.procs|
    ensures |t.procs| == |s.procs| && Box(t, p) == Box(s, p)
  {
  }

  lemma TableKept(s: Kern, t: Kern, p: int)
    requires 0 <= p < |s.procs| && t.procs == s.procs
    ensures Box(t, p) == Box(s, p)
  {
  }

  lemma SemaphoreBox(s: Kern, op: Op, p: int)
    requires Inv(s) && Enabled(s, op) && IsPid(p) && (op.OpSignal? || op.OpSignalN? || op.OpSemCreate? || op.OpSemReset? || op.OpSemDelete?)
    ensures Shape(s) && Shape(Step(s, op)) && Box(Step(s, op), p) == Posted(s, op, p, Box(s, p))
  {
    hide Inv, Freed, Handed, Offered, Step, SleepDropped, SleepEntered, Enabled, Box;
    InvCore(s);
    StepKeeps(s, op);
    InvCore(Step(s, op));
    var t := Step(s, op);
    match op {
      case OpSignal(k) => SignalEffect(s, k); if BadSem(s, k) { TableKept(s, t, p); } else { BoxKept(s, t, First(s.sems[k].queue, 1), p); }
      case OpSignalN(k, n) => SignalNEffect(s, k, n); if BadSem(s, k) || n < 0 { TableKept(s, t, p); } else { BoxKept(s, t, First(s.sems[k].queue, n), p); }
      case OpSemCreate(k, count) => SemCreateEffect(s, k, count); TableKept(s, t, p);
      case OpSemReset(k, count) => SemResetEffect(s, k, count); if BadSem(s, k) || count < 0 { TableKept(s, t, p); } else { BoxKept(s, t, s.sems[k].queue, p); }
      case OpSemDelete(k) => SemDeleteEffect(s, k); if BadSem(s, k) { TableKept(s, t, p); } else { BoxKept(s, t, s.sems[k].queue, p); }
      case _ =>
    }
  }

  lemma WaitingBox(s: Kern, op: Op, p: int)
    requires Inv(s) && Enabled(s, op) && IsPid(p) && (op.OpReceive? || op.OpTakeMessage? || op.OpRecvTime? || op.OpSleepMs?)
    ensures Shape(s) && Shape(Step(s, op)) && Box(Step(s, op), p) == Posted(s, op, p, Box(s, p))
  {
    hide Inv, Freed, Handed, Offered, Step, SleepDropped, SleepEntered, Enabled, Box;
    InvCore(s);
    StepKeeps(s, op);
    InvCore(Step(s, op));
    var t := Step(s, op);
    match op {
      case OpReceive => ReceiveEffect(s); if s.procs[s.curr].hasMsg { TableKept(s, t, p); } else { StoppedBox(s, t, s.curr, RECV, p); }
      case OpTakeMessage => TakeEffect(s); TakeBox(s, t, p);
      case OpRecvTime(d) => RecvTimeEffect(s, d); if d < 0 || s.procs[s.curr].hasMsg { TableKept(s, t, p); } else { StoppedBox(s, t, s.curr, RECTIM, p); }
      case OpSleepMs(d) => SleepMsEffect(s, d); if d < 0 { TableKept(s, t, p); } else if d == 0 { OfferedBox(s, t, p); } else { StoppedBox(s, t, s.curr, SLEEP, p); }
      case _ =>
    }
  }

  lemma ProcessBox(s: Kern, op: Op, p: int)
    requires Inv(s) && Enabled(s, op) && IsPid(p) && (op.OpSuspend? || op.OpResume? || op.OpKill? || op.OpCreate?)
    ensures Shape(s) && Shape(Step(s, op)) && Box(Step(s, op), p) == Posted(s, op, p, Box(s, p))
  {
    hide Inv, Freed, Handed, Offered, Step, SleepDropped, SleepEntered, Enabled, Box;
    InvCore(s);
    StepKeeps(s, op);
    InvCore(Step(s, op));
    var t := Step(s, op);
    match op {
      case OpSuspend(q) =>
        SuspendEffect(s, q);
        if BadPid(s, q) || q == NULLPROC || !Runnable(s.procs[q].state) { TableKept(s, t, p); } else { StoppedBox(s, t, q, SUSP, p); }
      case OpResume(q) => ResumeEffect(s, q); if BadPid(s, q) || s.procs[q].state != SUSP { TableKept(s, t, p); } else { BoxKept(s, t, [q], p); }
      case OpKill(q) => KillEffect(s, q); if BadPid(s, q) || q == NULLPROC { TableKept(s, t, p); } else { StoppedBox(s, t, q, FREE, p); }
      case OpCreate(q, prio) => CreateEffect(s, q, prio); CreateBox(s, t, q, p);
      case _ =>
    }
  }

  lemma ClockBox(s: Kern, op: Op, p: int)
    requires Inv(s) && Enabled(s, op) && IsPid(p) && (op.OpYield? || op.OpDeferStart? || op.OpDeferStop? || op.OpClockTick? || op.OpClockPreempt?)
    ensures Shape(s) && Shape(Step(s, op)) && Box(Step(s, op), p) == Posted(s, op, p, Box(s, p))
  {
    hide Inv, Freed, Handed, Offered, Step, SleepDropped, SleepEntered, Enabled, Box;
    InvCore(s);
    StepKeeps(s, op);
    InvCore(Step(s, op));
    var t := Step(s, op);
    match op {
      case OpYield => YieldEffect(s); OfferedBox(s, t, p);
      case OpDeferStart => DeferEffect(s); TableKept(s, t, p);
      case OpDeferStop => DeferEffect(s); if s.defers == 1 && s.attempt { BoxKept(s, t, [], p); } else { TableKept(s, t, p); }
      case OpClockTick => TickEffect(s); if s.sleep == [] { TableKept(s, t, p); } else { BoxKept(s, t, s.sleep[..Due([s.delays[0] - 1] + s.delays[1..])], p); }
      case OpClockPreempt =>
        PreemptEffect(s);
        if s.preempt <= 1 { OfferedBox(s.(preempt := QUANTUM), t, p); TableKept(s, s.(preempt := QUANTUM), p); } else { TableKept(s, t, p); }
      case _ =>
    }
  }

  lemma TakeBox(s: Kern, t: Kern, p: int)
    requires Shape(s) && IsPid(p) && t == WithProc(s, s.curr, s.procs[s.curr].(hasMsg := false))
    ensures Box(t, p) == Posted(s, OpTakeMessage, p, Box(s, p))
  {
  }

  lemma CreateBox(s: Kern, t: Kern, q: int, p: int)
    requires Shape(s) && IsPid(p) && IsPid(q) && |t.procs| == NPROC && t.procs == s.procs[q := t.procs[q]] && !t.procs[q].hasMsg
    ensures Box(t, p) == if p == q then None else Box(s, p)
  {
  }

  /** One step. */
  lemma BoxStep(s: Kern, op: Op, p: int)
    requires Inv(s) && Enabled(s, op) && IsPid(p)
    ensures Shape(s) && Shape(Step(s, op)) && Box(Step(s, op), p) == Posted(s, op, p, Box(s, p))
  {
    hide Inv, Step, Enabled, Box, Posted;
    InvCore(s);
    if op.OpWait? {
      WaitBox(s, op.k, p);
      NotPosted(s, op, p, Box(s, p));
    } else if op.OpSend? {
      SendBox(s, op.p, op.msg, p);
    } else if op.OpReceive? || op.OpTakeMessage? || op.OpRecvTime? || op.OpSleepMs? {
      WaitingBox(s, op, p);
    } else if op.OpSuspend? || op.OpResume? || op.OpKill? || op.OpCreate? {
      ProcessBox(s, op, p);
    } else if op.OpYield? || op.OpDeferStart? || op.OpDeferStop? || op.OpClockTick? || op.OpClockPreempt? {
      ClockBox(s, op, p);
    } else {
      SemaphoreBox(s, op, p);
    }
  }

  lemma NotPosted(s: Kern, op: Op, p: int, box: Option<int>)
    requires Shape(s) && op.OpWait?
    ensures Posted(s, op, p, box) == box
  {
  }

  lemma StoppedBox(s: Kern, t: Kern, q: int, st: PrState, p: int)
    requires Shape(s) && IsPid(q) && IsPid(p)
    ensures Freed(WithProc(s, q, s.procs[q].(state := st)), t, []) ==> |t.procs| == NPROC && Box(t, p) == Box(s, p)
  {
  }

  lemma WaitBox(s: Kern, k: int, p: int)
    requires Inv(s) && Enabled(s, OpWait(k)) && IsPid(p)
    ensures Shape(s) && Shape(Step(s, OpWait(k))) && Box(Step(s, OpWait(k)), p) == Box(s, p)
  {
    hide Inv, Step, Handed;
    InvCore(s);
    StepKeeps(s, OpWait(k));
    InvCore(Step(s, OpWait(k)));
    WaitEffect(s, k);
  }

  lemma SendBox(s: Kern, q: int, msg: int, p: int)
    requires Inv(s) && IsPid(p)
    ensures Shape(s) && Shape(Step(s, OpSend(q, msg))) && Box(Step(s, OpSend(q, msg)), p) == Posted(s, OpSend(q, msg), p, Box(s, p))
  {
    hide Inv, Step, SleepDropped;
    InvCore(s);
    StepKeeps(s, OpSend(q, msg));
    InvCore(Step(s, OpSend(q, msg)));
    SendEffect(s, q, msg);
  }

  /** Over every run, what p has not yet taken and what it has taken are as the sends and receives say: each
      message taken is the first one sent to p since it last took one. */
  lemma {:induction false} PostExact(s: Kern, ops: seq<Op>, p: int)
    requires Inv(s) && Legal(s, ops) && IsPid(p)
    ensures Shape(s) && Shape(Run(s, ops))
    ensures Post(s, ops, p, Box(s, p)) == (Box(Run(s, ops), p), Taken(s, ops, p))
    decreases |ops|
  {
    hide Inv, Step, Enabled, Box, Posted;
    InvCore(s);
    if |ops| > 0 {
      StepKeeps(s, ops[0]);
      BoxStep(s, ops[0], p);
      BoxIs(s, p);
      PostExact(Step(s, ops[0]), ops[1..], p);
    }
  }

  lemma BoxIs(s: Kern, p: int)
    requires 0 <= p < |s.procs|
    ensures Box(s, p) == if s.procs[p].hasMsg then Some(s.procs[p].msg) else None
  {
  }

  /** Nowhere in the run does p take a message. */
  ghost predicate TakesNone(s: Kern, ops: seq<Op>, p: int)
    requires Inv(s) && Legal(s, ops)
    decreases |ops|
  {
    |ops| == 0 || (StepKeeps(s, ops[0]); !Takes(s, ops[0], p) && TakesNone(Step(s, ops[0]), ops[1..], p))
  }

  /** A message that is there stays, whatever else is sent to p, until p takes it or has been killed and is
      created anew. */
  lemma {:induction false} MessageStays(s: Kern, ops: seq<Op>, p: int)
    requires Inv(s) && Legal(s, ops) && IsPid(p) && Shape(s) && s.procs[p].hasMsg
    requires TakesNone(s, ops, p) && forall op :: op in ops ==> !(op.OpCreate? && op.p == p)
    ensures Shape(Run(s, ops)) && Run(s, ops).procs[p].hasMsg && Run(s, ops).procs[p].msg == s.procs[p].msg
    decreases |ops|
  {
    hide Inv, Step, Enabled;
    if |ops| > 0 {
      assert ops[0] in ops;
      StepKeeps(s, ops[0]);
      BoxStep(s, ops[0], p);
      MessageStays(Step(s, ops[0]), ops[1..], p);
    }
  }
}
