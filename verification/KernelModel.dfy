/** The process kernel over values: processes, semaphores, the ready list, the delta list of
    sleepers and the scheduler. Interrupts are off during a call, so each call is one step up to
    the context switch, and a context switch is a change of the current process. */
module KernelModel {
  import opened Common
  import opened DeltaList

  const NPROC := 100
  const NSEM := 100
  const NULLPROC := 0
  const QUANTUM := 2
  const MINKEY := -0x8000_0000

  datatype PrState = FREE | CURR | READY | RECV | SLEEP | SUSP | WAIT | RECTIM

  type pri16 = x: int | -32768 <= x < 32768

  datatype Proc = Proc(state: PrState, prio: pri16, sem: int, msg: int, hasMsg: bool)

  datatype Sem = Sem(used: bool, count: int, queue: seq<int>)

  /** sleep and delays are the delta list: each delay counts from the sleeper before. */
  datatype Kern = Kern(
    procs: seq<Proc>, sems: seq<Sem>, ready: seq<int>, sleep: seq<int>, delays: seq<int>,
    curr: int, defers: nat, attempt: bool, preempt: int)

  // ------------------------------------------------------------ consistency

  predicate IsPid(p: int) { 0 <= p < NPROC }

  predicate Shape(s: Kern) {
    && |s.procs| == NPROC && |s.sems| == NSEM && |s.sleep| == |s.delays| && IsPid(s.curr)
    && 0 < s.preempt <= QUANTUM
  }

  predicate InState(procs: seq<Proc>, p: int, st: PrState) {
    0 <= p < |procs| && procs[p].state == st
  }

  predicate Asleep(procs: seq<Proc>, p: int) {
    InState(procs, p, SLEEP) || InState(procs, p, RECTIM)
  }

  predicate WaitsOn(procs: seq<Proc>, p: int, k: int) {
    InState(procs, p, WAIT) && procs[p].sem == k
  }

  ghost predicate ReadyPlaced(s: Kern)
    requires Shape(s)
  {
    Distinct(s.ready) && forall p :: p in s.ready <==> InState(s.procs, p, READY)
  }

  ghost predicate SleepPlaced(s: Kern)
    requires Shape(s)
  {
    Distinct(s.sleep) && forall p :: p in s.sleep <==> Asleep(s.procs, p)
  }

  ghost predicate QueuesPlaced(s: Kern)
    requires Shape(s)
  {
    && (forall k {:trigger s.sems[k]} :: 0 <= k < NSEM ==> Distinct(s.sems[k].queue))
    && (forall k, p {:trigger p in s.sems[k].queue} {:trigger WaitsOn(s.procs, p, k)} :: 0 <= k < NSEM ==> (p in s.sems[k].queue <==> WaitsOn(s.procs, p, k)))
    && (forall p {:trigger InState(s.procs, p, WAIT)} :: InState(s.procs, p, WAIT) ==> 0 <= s.procs[p].sem < NSEM)
  }

  ghost predicate OneCurrent(s: Kern)
    requires Shape(s)
  {
    && (forall p {:trigger InState(s.procs, p, CURR)} :: InState(s.procs, p, CURR) ==> p == s.curr)
    && (InState(s.procs, NULLPROC, CURR) || InState(s.procs, NULLPROC, READY))
  }

  /** The priority of a listed process. */
  function Prio(procs: seq<Proc>, p: int): (r: int) {
    if 0 <= p < |procs| then procs[p].prio else 0
  }

  ghost predicate Descending(procs: seq<Proc>, l: seq<int>) {
    forall i, j {:trigger l[i], l[j]} :: 0 <= i < j < |l| ==> Prio(procs, l[i]) >= Prio(procs, l[j])
  }

  /** Every process is on exactly the list its state names, and on no other. */
  ghost predicate Placed(s: Kern) {
    Shape(s) && ReadyPlaced(s) && SleepPlaced(s) && QueuesPlaced(s) && OneCurrent(s) && Descending(s.procs, s.ready)
  }

  predicate Running(s: Kern)
    requires Shape(s)
  {
    InState(s.procs, s.curr, CURR)
  }

  /** A used semaphore has as many waiters as its count is below zero; a free one has none. */
  predicate Counted(m: Sem) {
    if m.used then |m.queue| == (if m.count < 0 then -m.count else 0) else |m.queue| == 0
  }

  ghost predicate SemsCounted(s: Kern) {
    forall k {:trigger s.sems[k]} :: 0 <= k < |s.sems| ==> Counted(s.sems[k])
  }

  ghost predicate Deltas(s: Kern) {
    Natural(s.delays) && Total(s.delays) <= MAXKEY
  }

  ghost predicate Top(s: Kern) {
    forall p :: p in s.ready ==> Prio(s.procs, p) <= Prio(s.procs, s.curr)
  }

  /** The scheduling invariant: with no reschedule put off, nothing ready outranks the running process. */
  ghost predicate Scheduled(s: Kern) {
    s.defers == 0 || !s.attempt ==> Top(s)
  }

  ghost predicate Inv(s: Kern) {
    Placed(s) && Running(s) && SemsCounted(s) && Deltas(s) && Scheduled(s)
  }

  // ------------------------------------------------------------ lists

  function WithoutAt(l: seq<int>, i: nat): (r: seq<int>)
    requires i < |l|
  {
    l[..i] + l[i + 1..]
  }

  function IndexOf(l: seq<int>, p: int): (i: nat)
    requires p in l
    ensures i < |l| && l[i] == p
  {
    if l[0] == p then 0 else 1 + IndexOf(l[1..], p)
  }

  function Remove(l: seq<int>, p: int): (r: seq<int>)
    requires p in l
  {
    WithoutAt(l, IndexOf(l, p))
  }

  lemma DistinctTail(l: seq<int>)
    requires Distinct(l) && |l| > 0
    ensures Distinct(l[1..]) && l[0] !in l[1..]
    ensures forall x :: x in l <==> x == l[0] || x in l[1..]
  {
    assert l == [l[0]] + l[1..];
    assert forall i {:trigger l[1..][i]} :: 0 <= i < |l| - 1 ==> l[1..][i] == l[i + 1];
  }

  lemma {:induction false} IndexUnique(l: seq<int>, i: nat)
    requires Distinct(l) && i < |l|
    ensures IndexOf(l, l[i]) == i
  {
    if i > 0 {
      DistinctTail(l);
      assert l[1..][i - 1] == l[i];
      IndexUnique(l[1..], i - 1);
    }
  }

  lemma RemoveFacts(l: seq<int>, p: int)
    requires Distinct(l) && p in l
    ensures Distinct(Remove(l, p)) && (forall x :: x in Remove(l, p) <==> x in l && x != p) && |Remove(l, p)| == |l| - 1
  {
    var i, r := IndexOf(l, p), Remove(l, p);
    forall j | 0 <= j < |r| ensures r[j] == l[if j < i then j else j + 1] {}
    forall x | x in l && x != p ensures x in r {
      var j :| 0 <= j < |l| && l[j] == x;
      assert r[if j < i then j else j - 1] == x;
    }
  }

  lemma RemoveFirst(l: seq<int>)
    requires |l| > 0
    ensures Remove(l, l[0]) == l[1..]
  {
  }

  lemma RemoveDescending(procs: seq<Proc>, l: seq<int>, p: int)
    requires Descending(procs, l) && p in l
    ensures Descending(procs, Remove(l, p))
  {
    hide Prio;
    var i, r := IndexOf(l, p), Remove(l, p);
    forall j | 0 <= j < |r| ensures r[j] == l[if j < i then j else j + 1] {}
  }

  lemma DistinctAppend(l: seq<int>, x: int)
    requires Distinct(l) && x !in l
    ensures Distinct(l + [x]) && forall y :: y in l + [x] <==> y == x || y in l
  {
  }

  /** Where the ready list keeps a process of priority prio: after all of at least that priority. */
  function ReadyPlace(procs: seq<Proc>, l: seq<int>, prio: int): (k: nat)
    ensures k <= |l|
    ensures forall i {:trigger l[i]} :: 0 <= i < k ==> Prio(procs, l[i]) >= prio
    ensures k < |l| ==> Prio(procs, l[k]) < prio
  {
    if |l| == 0 || Prio(procs, l[0]) < prio then 0 else 1 + ReadyPlace(procs, l[1..], prio)
  }

  function InsertReady(procs: seq<Proc>, l: seq<int>, p: int): (r: seq<int>) {
    Inserted(l, ReadyPlace(procs, l, Prio(procs, p)), p)
  }

  lemma InsertedFacts(l: seq<int>, k: nat, p: int)
    requires Distinct(l) && p !in l && k <= |l|
    ensures Distinct(Inserted(l, k, p)) && forall x :: x in Inserted(l, k, p) <==> x in l || x == p
  {
    var r := Inserted(l, k, p);
    assert l == l[..k] + l[k..];
    forall i | 0 <= i < |r| ensures r[i] == if i < k then l[i] else if i == k then p else l[i - 1] {}
  }

  lemma InsertReadyFacts(procs: seq<Proc>, l: seq<int>, p: int)
    requires Distinct(l) && p !in l && Descending(procs, l)
    ensures Distinct(InsertReady(procs, l, p)) && Descending(procs, InsertReady(procs, l, p))
    ensures forall x :: x in InsertReady(procs, l, p) <==> x in l || x == p
  {
    hide ReadyPlace, Prio, Distinct;
    var k := ReadyPlace(procs, l, Prio(procs, p));
    InsertedFacts(l, k, p);
    var r := InsertReady(procs, l, p);
    forall i | 0 <= i < |r| ensures r[i] == if i < k then l[i] else if i == k then p else l[i - 1] {}
    forall i | k <= i < |l| ensures Prio(procs, l[i]) < Prio(procs, p) {
      if i > k { assert Prio(procs, l[k]) >= Prio(procs, l[i]); }
    }
  }

  /** First-in first-out among equals: the newcomer stands behind every process of at least its
      priority and ahead of all others, and nobody else changes places. */
  lemma InsertReadyOrder(procs: seq<Proc>, l: seq<int>, p: int)
    requires Distinct(l) && p !in l && Descending(procs, l)
    ensures forall x, y {:trigger Before(l, x, y)} :: Before(l, x, y) ==> Before(InsertReady(procs, l, p), x, y)
    ensures forall x {:trigger Prio(procs, x)} :: x in l ==>
              if Prio(procs, x) >= Prio(procs, p) then Before(InsertReady(procs, l, p), x, p) else Before(InsertReady(procs, l, p), p, x)
  {
    hide ReadyPlace, Prio;
    var k := ReadyPlace(procs, l, Prio(procs, p));
    var r := InsertReady(procs, l, p);
    assert r[k] == p;
    forall i | 0 <= i < |l| ensures l[i] == r[if i < k then i else i + 1] {}
    forall x, y | Before(l, x, y) ensures Before(r, x, y) {
      var i, j :| 0 <= i < j < |l| && l[i] == x && l[j] == y;
      assert r[if i < k then i else i + 1] == x && r[if j < k then j else j + 1] == y;
    }
    forall x | x in l
      ensures if Prio(procs, x) >= Prio(procs, p) then Before(r, x, p) else Before(r, p, x)
    {
      var i :| 0 <= i < |l| && l[i] == x;
      assert r[if i < k then i else i + 1] == x;
      if k < i { assert Prio(procs, l[k]) >= Prio(procs, l[i]); }
    }
  }

  // ------------------------------------------------------------ the scheduler

  function WithState(s: Kern, p: int, st: PrState): (t: Kern)
    requires Shape(s) && IsPid(p)
    ensures Shape(t)
  {
    s.(procs := s.procs[p := s.procs[p].(state := st)])
  }

  /** Switch to the first process of the ready list. */
  function Dispatch(s: Kern): (t: Kern)
    requires Shape(s) && |s.ready| > 0 && IsPid(s.ready[0])
    ensures Shape(t)
  {
    WithState(s.(ready := s.ready[1..], curr := s.ready[0], preempt := QUANTUM), s.ready[0], CURR)
  }

  /** Give up the processor but stay eligible. */
  function Requeued(s: Kern): (t: Kern)
    requires Shape(s)
    ensures Shape(t)
  {
    WithState(s.(ready := InsertReady(s.procs, s.ready, s.curr)), s.curr, READY)
  }

  ghost function Resched(s: Kern): (t: Kern)
    requires Placed(s) && (Running(s) || (s.defers == 0 && s.curr != NULLPROC))
    ensures Shape(t)
  {
    if s.defers > 0 then s.(attempt := true)
    else if Running(s) then
      if |s.ready| == 0 || Prio(s.procs, s.curr) > Prio(s.procs, s.ready[0]) then s
      else
        RequeuedPlaced(s);
        Dispatch(Requeued(s))
    else
      NullReady(s);
      Dispatch(s)
  }

  lemma NullReady(s: Kern)
    requires Placed(s) && s.curr != NULLPROC
    ensures NULLPROC in s.ready && |s.ready| > 0 && IsPid(s.ready[0])
  {
    assert InState(s.procs, NULLPROC, READY);
    assert s.ready[0] in s.ready;
  }

  /** What scheduling leaves alone. */
  ghost predicate SameProcs(s: Kern, t: Kern) {
    |s.procs| == |t.procs| && forall p {:trigger t.procs[p]} :: 0 <= p < |s.procs| ==> t.procs[p] == s.procs[p].(state := t.procs[p].state)
  }

  ghost predicate SameRest(s: Kern, t: Kern) {
    SameProcs(s, t) && s.sems == t.sems && s.sleep == t.sleep && s.delays == t.delays && s.defers == t.defers
  }

  lemma PrioSame(s: Kern, t: Kern)
    requires SameProcs(s, t)
    ensures forall p {:trigger Prio(t.procs, p)} :: Prio(t.procs, p) == Prio(s.procs, p)
    ensures forall l {:trigger Descending(t.procs, l)} :: Descending(t.procs, l) <==> Descending(s.procs, l)
  {
    forall p ensures Prio(t.procs, p) == Prio(s.procs, p) {}
  }

  lemma RequeuedPlaced(s: Kern)
    requires Placed(s) && Running(s)
    ensures Placed(Requeued(s)) && !Running(Requeued(s)) && SameRest(s, Requeued(s))
    ensures |Requeued(s).ready| > 0 && IsPid(Requeued(s).ready[0])
  {
    hide Distinct, ReadyPlace, Descending, InsertReady, Prio;
    var t := Requeued(s);
    InsertReadyFacts(s.procs, s.ready, s.curr);
    PrioSame(s, t);
    assert forall p, st {:trigger InState(t.procs, p, st)} :: InState(t.procs, p, st) <==> if p == s.curr then st == READY else InState(s.procs, p, st);
    assert s.curr in t.ready && t.ready[0] in t.ready;
  }

  lemma DispatchPlaced(s: Kern)
    requires Placed(s) && !Running(s) && |s.ready| > 0 && IsPid(s.ready[0])
    ensures Placed(Dispatch(s)) && Running(Dispatch(s)) && SameRest(s, Dispatch(s)) && Top(Dispatch(s))
  {
    hide Distinct, Descending, Prio;
    var t := Dispatch(s);
    DistinctTail(s.ready);
    PrioSame(s, t);
    DescendingTail(s.procs, s.ready);
    assert forall p, st {:trigger InState(t.procs, p, st)} :: InState(t.procs, p, st) <==> if p == s.ready[0] then st == CURR else InState(s.procs, p, st);
    assert InState(s.procs, s.ready[0], READY) by { assert s.ready[0] in s.ready; }
  }

  lemma DescendingTail(procs: seq<Proc>, l: seq<int>)
    requires Descending(procs, l) && |l| > 0
    ensures Descending(procs, l[1..]) && forall p :: p in l[1..] ==> Prio(procs, p) <= Prio(procs, l[0])
  {
    assert forall i {:trigger l[1..][i]} :: 0 <= i < |l| - 1 ==> l[1..][i] == l[i + 1];
  }

  /** Rescheduling keeps every process in its place, leaves one process running, and unless it is
      put off, one that nothing ready outranks. */
  lemma ReschedKeeps(s: Kern)
    requires Placed(s) && (Running(s) || (s.defers == 0 && s.curr != NULLPROC))
    ensures var t := Resched(s); Placed(t) && Running(t) && SameRest(s, t) && (if s.defers == 0 then Top(t) else t == s.(attempt := true))
  {
    hide Distinct, Descending, Prio, InsertReady, Requeued, Dispatch, ReadyPlaced, SleepPlaced, QueuesPlaced;
    if s.defers > 0 {
      AttemptPlaced(s);
    } else if Running(s) {
      RequeuedPlaced(s);
      if |s.ready| > 0 && Prio(s.procs, s.curr) <= Prio(s.procs, s.ready[0]) {
        DispatchPlaced(Requeued(s));
      } else {
        FirstIsHighest(s);
      }
    } else {
      NullReady(s);
      DispatchPlaced(s);
    }
  }

  lemma AttemptPlaced(s: Kern)
    requires Placed(s)
    ensures Placed(s.(attempt := true)) && Placed(s.(attempt := false))
  {
  }

  lemma FirstIsHighest(s: Kern)
    requires Descending(s.procs, s.ready) && (|s.ready| == 0 || Prio(s.procs, s.curr) > Prio(s.procs, s.ready[0]))
    ensures Top(s)
  {
    hide Prio;
    if |s.ready| > 0 { DescendingTail(s.procs, s.ready); }
    assert |s.ready| > 0 ==> s.ready == [s.ready[0]] + s.ready[1..];
  }
}
