/** How processes move between states, and that each move leaves every process on exactly the
    list its state names. */
module KernelMoves {
  import opened Common
  import opened DeltaList
  import opened KernelModel

  /** States in which a process is on no list and does not run. */
  predicate Idle(st: PrState) {
    st == FREE || st == RECV || st == SUSP
  }

  ghost predicate Unlisted(s: Kern, p: int)
    requires Shape(s)
  {
    IsPid(p) && (Idle(s.procs[p].state) || s.procs[p].state == CURR)
  }

  /** Take a process off the list that its state names. */
  function Leave(s: Kern, p: int): (t: Kern)
    requires Placed(s) && IsPid(p)
    ensures Shape(t) && t.procs == s.procs
  {
    match s.procs[p].state
    case READY => (assert InState(s.procs, p, READY); s.(ready := Remove(s.ready, p)))
    case SLEEP => (assert Asleep(s.procs, p); Unslept(s, p))
    case RECTIM => (assert Asleep(s.procs, p); Unslept(s, p))
    case WAIT => (assert InState(s.procs, p, WAIT) && WaitsOn(s.procs, p, s.procs[p].sem); Unqueued(s, p, s.procs[p].sem))
    case _ => s
  }

  function Unslept(s: Kern, p: int): (t: Kern)
    requires Shape(s) && p in s.sleep
    ensures Shape(t)
  {
    DropLength(s.delays, IndexOf(s.sleep, p));
    s.(sleep := Remove(s.sleep, p), delays := DropDelay(s.delays, IndexOf(s.sleep, p)))
  }

  lemma DropLength(d: seq<int>, i: nat)
    requires i < |d|
    ensures |DropDelay(d, i)| == |d| - 1
  {
  }

  function Unqueued(s: Kern, p: int, k: int): (t: Kern)
    requires Shape(s) && 0 <= k < NSEM && p in s.sems[k].queue
    ensures Shape(t)
  {
    s.(sems := s.sems[k := s.sems[k].(queue := Remove(s.sems[k].queue, p))])
  }

  /** Where a state change shows. */
  lemma StateChanged(procs: seq<Proc>, p: int, st: PrState)
    requires 0 <= p < |procs|
    ensures forall q, u {:trigger InState(procs[p := procs[p].(state := st)], q, u)} ::
              InState(procs[p := procs[p].(state := st)], q, u) <==> if q == p then u == st else InState(procs, q, u)
    ensures forall q {:trigger Prio(procs[p := procs[p].(state := st)], q)} ::
              Prio(procs[p := procs[p].(state := st)], q) == Prio(procs, q)
    ensures forall l {:trigger Descending(procs[p := procs[p].(state := st)], l)} ::
              Descending(procs[p := procs[p].(state := st)], l) <==> Descending(procs, l)
    ensures forall q, k {:trigger WaitsOn(procs[p := procs[p].(state := st)], q, k)} ::
              WaitsOn(procs[p := procs[p].(state := st)], q, k) <==> if q == p then st == WAIT && procs[p].sem == k else WaitsOn(procs, q, k)
  {
    var procs' := procs[p := procs[p].(state := st)];
    assert forall q :: Prio(procs', q) == Prio(procs, q);
  }

  lemma IdleMove(s: Kern, p: int, st: PrState)
    requires Placed(s) && Unlisted(s, p) && p != NULLPROC && Idle(st)
    ensures Placed(WithState(s, p, st)) && SameRest(s, WithState(s, p, st))
    ensures p != s.curr && Running(s) ==> Running(WithState(s, p, st))
  {
    hide Distinct, Descending, Prio;
    StateChanged(s.procs, p, st);
  }

  function MadeReady(s: Kern, p: int): (t: Kern)
    requires Shape(s) && IsPid(p)
    ensures Shape(t)
  {
    WithState(s.(ready := InsertReady(s.procs, s.ready, p)), p, READY)
  }

  lemma ReadyMove(s: Kern, p: int)
    requires Placed(s) && IsPid(p) && Idle(s.procs[p].state)
    ensures Placed(MadeReady(s, p)) && SameRest(s, MadeReady(s, p))
    ensures Running(s) ==> Running(MadeReady(s, p))
  {
    hide Distinct, Descending, Prio, InsertReady;
    StateChanged(s.procs, p, READY);
    assert !InState(s.procs, p, READY);
    InsertReadyFacts(s.procs, s.ready, p);
  }

  lemma LeaveReady(s: Kern, p: int, st: PrState)
    requires Placed(s) && InState(s.procs, p, READY) && p != NULLPROC && Idle(st)
    ensures Placed(WithState(Leave(s, p), p, st)) && (Running(s) ==> Running(WithState(Leave(s, p), p, st)))
  {
    hide Distinct, Descending, Prio, Remove;
    StateChanged(s.procs, p, st);
    RemoveFacts(s.ready, p);
    RemoveDescending(s.procs, s.ready, p);
  }

  lemma LeaveSleep(s: Kern, p: int, st: PrState)
    requires Placed(s) && Asleep(s.procs, p) && p != NULLPROC && Idle(st)
    ensures Placed(WithState(Leave(s, p), p, st)) && (Running(s) ==> Running(WithState(Leave(s, p), p, st)))
  {
    hide Distinct, Descending, Prio, Remove, DropDelay;
    StateChanged(s.procs, p, st);
    RemoveFacts(s.sleep, p);
  }

  lemma LeaveQueue(s: Kern, p: int, st: PrState)
    requires Placed(s) && InState(s.procs, p, WAIT) && p != NULLPROC && Idle(st)
    ensures Placed(WithState(Leave(s, p), p, st)) && (Running(s) ==> Running(WithState(Leave(s, p), p, st)))
  {
    hide Distinct, Descending, Prio, Remove;
    StateChanged(s.procs, p, st);
    var k := s.procs[p].sem;
    assert WaitsOn(s.procs, p, k);
    RemoveFacts(s.sems[k].queue, p);
  }

  lemma LeaveMove(s: Kern, p: int, st: PrState)
    requires Placed(s) && IsPid(p) && p != NULLPROC && Idle(st)
    ensures Placed(WithState(Leave(s, p), p, st))
    ensures p != s.curr && Running(s) ==> Running(WithState(Leave(s, p), p, st))
  {
    hide ReadyPlaced, SleepPlaced, QueuesPlaced, OneCurrent, Descending;
    match s.procs[p].state
    case READY => LeaveReady(s, p, st);
    case SLEEP => LeaveSleep(s, p, st);
    case RECTIM => LeaveSleep(s, p, st);
    case WAIT => LeaveQueue(s, p, st);
    case _ => IdleMove(s, p, st);
  }

  /** Off its list and onto the ready list. */
  function Awakened(s: Kern, p: int): (t: Kern)
    requires Placed(s) && IsPid(p)
    ensures Shape(t)
  {
    MadeReady(Leave(s, p), p)
  }

  lemma AwakenedMove(s: Kern, p: int)
    requires Placed(s) && IsPid(p) && p != NULLPROC && p != s.curr && s.procs[p].state != READY
    ensures Placed(Awakened(s, p)) && SameProcs(s, Awakened(s, p))
    ensures Running(s) ==> Running(Awakened(s, p))
  {
    hide Placed, Leave, InsertReady, Prio;
    LeaveMove(s, p, SUSP);
    var t := WithState(Leave(s, p), p, SUSP);
    ReadyMove(t, p);
    assert t.ready == Leave(s, p).ready;
    StateChanged(s.procs, p, SUSP);
    PlaceSame(s.procs, t.procs, t.ready, p);
    assert MadeReady(t, p) == MadeReady(Leave(s, p), p);
  }

  lemma {:induction false} PlaceSame(procs: seq<Proc>, procs': seq<Proc>, l: seq<int>, p: int)
    requires forall q {:trigger Prio(procs, q)} {:trigger Prio(procs', q)} :: Prio(procs, q) == Prio(procs', q)
    ensures InsertReady(procs, l, p) == InsertReady(procs', l, p)
  {
    ReadyPlaceSame(procs, procs', l, Prio(procs, p));
  }

  lemma {:induction false} ReadyPlaceSame(procs: seq<Proc>, procs': seq<Proc>, l: seq<int>, prio: int)
    requires forall q {:trigger Prio(procs, q)} {:trigger Prio(procs', q)} :: Prio(procs, q) == Prio(procs', q)
    ensures ReadyPlace(procs, l, prio) == ReadyPlace(procs', l, prio)
    decreases |l|
  {
    if |l| > 0 {
      ReadyPlaceSame(procs, procs', l[1..], prio);
    }
  }

  /** Onto the end of a semaphore's queue. */
  function Enqueued(s: Kern, p: int, k: int): (t: Kern)
    requires Shape(s) && IsPid(p) && 0 <= k < NSEM
    ensures Shape(t)
  {
    s.(procs := s.procs[p := s.procs[p].(state := WAIT, sem := k)], sems := s.sems[k := s.sems[k].(queue := s.sems[k].queue + [p])])
  }

  lemma WaitMove(s: Kern, p: int, k: int)
    requires Placed(s) && Unlisted(s, p) && p != NULLPROC && 0 <= k < NSEM
    ensures Placed(Enqueued(s, p, k))
  {
    hide Distinct, Descending, Prio;
    var t := Enqueued(s, p, k);
    assert forall q, u {:trigger InState(t.procs, q, u)} :: InState(t.procs, q, u) <==> if q == p then u == WAIT else InState(s.procs, q, u);
    assert forall q, j {:trigger WaitsOn(t.procs, q, j)} :: WaitsOn(t.procs, q, j) <==> if q == p then j == k else WaitsOn(s.procs, q, j);
    assert !InState(s.procs, p, WAIT) && !WaitsOn(s.procs, p, k);
    DistinctAppend(s.sems[k].queue, p);
    DescendingSame(s, t);
  }

  lemma DescendingSame(s: Kern, t: Kern)
    requires |s.procs| == |t.procs| && forall p {:trigger t.procs[p]} :: 0 <= p < |s.procs| ==> t.procs[p].prio == s.procs[p].prio
    ensures Descending(s.procs, s.ready) <==> Descending(t.procs, s.ready)
  {
    assert forall p :: Prio(t.procs, p) == Prio(s.procs, p);
  }

  /** Into the delta list. */
  function PutToSleep(s: Kern, p: int, delay: int, st: PrState): (t: Kern)
    requires Shape(s) && IsPid(p)
    ensures Shape(t)
  {
    InsertLength(s.delays, delay);
    WithState(s.(sleep := Inserted(s.sleep, DelayPlace(s.delays, delay), p), delays := InsertDelay(s.delays, delay)), p, st)
  }

  lemma InsertLength(d: seq<int>, key: int)
    ensures |InsertDelay(d, key)| == |d| + 1
  {
  }

  lemma SleepMove(s: Kern, p: int, delay: int, st: PrState)
    requires Placed(s) && Unlisted(s, p) && p != NULLPROC && (st == SLEEP || st == RECTIM)
    ensures Placed(PutToSleep(s, p, delay, st))
  {
    hide Distinct, Descending, Prio, Inserted, DelayPlace, InsertDelay;
    StateChanged(s.procs, p, st);
    assert !InState(s.procs, p, SLEEP) && !InState(s.procs, p, RECTIM);
    InsertLength(s.delays, delay);
    InsertedFacts(s.sleep, DelayPlace(s.delays, delay), p);
  }
}
