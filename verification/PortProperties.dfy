/** What the port protocol promises in every run. */
module PortProperties {
  import opened Common
  import opened PortModel
  import opened PortSteps
  import opened PortRuns

  ghost predicate Legal(s: State, total: nat, steps: seq<Step>)
    requires Inv(s, total)
    decreases |steps|
  {
    |steps| == 0 || (Enabled(s, steps[0]) && (NextKeeps(s, total, steps[0]); Legal(Next(s, total, steps[0]), total, steps[1..])))
  }

  ghost function Run(s: State, total: nat, steps: seq<Step>): (t: State)
    requires Inv(s, total) && Legal(s, total, steps)
    ensures Inv(t, total)
    decreases |steps|
  {
    if |steps| == 0 then s else
      NextKeeps(s, total, steps[0]);
      Run(Next(s, total, steps[0]), total, steps[1..])
  }

  function FreePorts(n: nat): (ps: seq<Port>)
    ensures |ps| == n && forall i {:trigger ps[i]} :: 0 <= i < n ==> ps[i] == Port(PFree, None, None, 0, 0, [], 0, [], [])
  {
    if n == 0 then [] else FreePorts(n - 1) + [Port(PFree, None, None, 0, 0, [], 0, [], [])]
  }

  /** What ptinit sets up. */
  function Init(total: nat): (s: State) { State(FreePorts(NPORTS), total, map[]) }

  lemma {:induction false} NothingQueued(n: nat)
    ensures Queued(FreePorts(n)) == 0
  {
    if n > 0 {
      NothingQueued(n - 1);
      assert FreePorts(n)[..n - 1] == FreePorts(n - 1);
    }
  }

  lemma InitInv(total: nat)
    ensures Inv(Init(total), total)
  {
    NothingQueued(NPORTS);
    var s := Init(total);
    forall i | 0 <= i < NPORTS ensures PortOk(s, i) {
      assert s.ports[i] == Port(PFree, None, None, 0, 0, [], 0, [], []);
    }
  }

  /** In every run: a port never holds more than its room, its messages have come out in the order
      they went in, and no message node is lost. */
  lemma RunPromises(total: nat, steps: seq<Step>, i: int)
    requires Inv(Init(total), total) && Legal(Init(total), total, steps) && 0 <= i < NPORTS
    ensures var t := Run(Init(total), total, steps); var p := t.ports[i];
            && (p.state == Alloc ==> |p.queue| <= p.room && p.sent == p.received + p.queue)
            && t.free + Queued(t.ports) == total
  {
    hide QueueHolds, Within, Run, Legal;
    InvPort(Run(Init(total), total, steps), total, i);
  }

  /** Nobody waits for what is there: if senders wait and none has been released, the port is full;
      if receivers wait and none has been released, it is empty. */
  lemma NoLostWakeup(s: State, total: nat, i: int)
    requires Inv(s, total) && Usable(s, i)
    ensures |Waiters(s.ports[i].ssem)| > 0 && Within(s, i, true, true) == {} ==> |s.ports[i].queue| == s.ports[i].room
    ensures |Waiters(s.ports[i].rsem)| > 0 && Within(s, i, false, true) == {} ==> s.ports[i].queue == []
  {
    hide QueueHolds, Within;
    InvPort(s, total, i);
  }

  // ------------------------------------------------------------ calls overtaken by a reset or deletion

  /** The port has been reset or deleted since the call began. */
  ghost predicate Stale(s: State, q: int) {
    q in s.calls && 0 <= s.calls[q].port < |s.ports| && s.calls[q].seqno < s.ports[s.calls[q].port].seqno
  }

  /** Clearing a port makes every call on it stale. */
  lemma ClearMakesStale(s: State, total: nat, i: int, renew: bool, q: int)
    requires Inv(s, total) && Usable(s, i) && q in s.calls && s.calls[q].port == i
    ensures Stale(ClearStart(s, i, renew), q)
  {
    ReleasedCalls(s.calls, i, true);
    assert q in AllReleased(s.calls, i, true);
  }

  /** Sequence numbers only go up, and a call is what it was until the process goes on. */
  lemma StaleStep(s: State, total: nat, a: Step, q: int)
    requires Inv(s, total) && Enabled(s, a) && Stale(s, q) && a != Resume(q)
    ensures Stale(Next(s, total, a), q)
  {
    hide Inv, PortOk, AllReleased;
    match a
    case Start(p, port, role) => StartKeepsCall(s, total, p, port, role, q);
    case Resume(p) => ResumeKeepsCall(s, total, p, q);
    case New(port, count, b, c) =>
    case Clear(port, renew) => ReleasedCalls(s.calls, port, true); assert q in AllReleased(s.calls, port, true);
    case Middle(port) => ReleasedCalls(s.calls, port, false); assert q in AllReleased(s.calls, port, false);
    case End(port) =>
  }

  lemma SignalKeepsCall(s: State, i: int, sends: bool, q: int)
    requires 0 <= i < |s.ports| && q in s.calls
    ensures var t := Signal(s, i, sends);
            q in t.calls && t.calls[q].port == s.calls[q].port && t.calls[q].seqno == s.calls[q].seqno && |t.ports| == |s.ports|
            && t.ports[i].seqno == s.ports[i].seqno && (forall j {:trigger t.ports[j]} :: 0 <= j < |s.ports| && j != i ==> t.ports[j] == s.ports[j])
  {
  }

  /** Same calls and numbers for q. */
  ghost predicate SameCall(s: State, t: State, q: int) {
    && q in s.calls && q in t.calls && t.calls[q].port == s.calls[q].port && t.calls[q].seqno == s.calls[q].seqno && |t.ports| == |s.ports|
    && forall j {:trigger t.ports[j]} :: 0 <= j < |s.ports| ==> t.ports[j].seqno == s.ports[j].seqno
  }

  lemma PutKeepsCall(s: State, i: int, msg: int, q: int)
    requires 0 <= i < |s.ports| && q in s.calls
    ensures SameCall(s, Put(s, i, msg), q)
  {
    hide Signal, Put;
    PutIs(s, i, msg);
    var p := s.ports[i];
    SignalKeepsCall(WithPort(s, i, p.(queue := p.queue + [msg], sent := p.sent + [msg])), i, false, q);
  }

  lemma GetKeepsCall(s: State, i: int, q: int)
    requires 0 <= i < |s.ports| && q in s.calls && |s.ports[i].queue| > 0
    ensures SameCall(s, Get(s, i), q)
  {
    hide Signal, Get;
    GetIs(s, i);
    var p := s.ports[i];
    SignalKeepsCall(WithPort(s, i, p.(queue := p.queue[1..], received := p.received + [p.queue[0]])), i, true, q);
  }

  lemma StartKeepsCall(s: State, total: nat, p: int, i: int, role: Role, q: int)
    requires Inv(s, total) && Enabled(s, Start(p, i, role)) && q in s.calls
    ensures SameCall(s, Next(s, total, Start(p, i, role)), q)
  {
    hide Inv, PortOk, Put, Get;
    if Usable(s, i) {
      MessageThere(s, total, i);
      var u := TokenTaken(s, i, role.Sender?);
      if role.Sender? { PutKeepsCall(u, i, role.msg, q); } else if |u.ports[i].queue| > 0 { GetKeepsCall(u, i, q); }
    }
  }

  lemma ResumeKeepsCall(s: State, total: nat, p: int, q: int)
    requires Inv(s, total) && Enabled(s, Resume(p)) && q in s.calls && p != q
    ensures SameCall(s, Next(s, total, Resume(p)), q)
  {
    hide Inv, PortOk, Put, Get;
    var u := s.(calls := Without(s.calls, p));
    if Current(s, s.calls[p]) {
      var i := s.calls[p].port;
      MessageThere(s, total, i);
      if s.calls[p].role.Sender? { PutKeepsCall(u, i, s.calls[p].role.msg, q); } else { GetKeepsCall(u, i, q); }
    }
  }

  /** However long it takes until a process overtaken by a reset or deletion goes on, its call
      fails and touches neither the port nor the free nodes. */
  lemma {:induction false} StaleFails(s: State, total: nat, steps: seq<Step>, q: int)
    requires Inv(s, total) && Legal(s, total, steps) && Stale(s, q) && Resume(q) !in steps
    ensures var t := Run(s, total, steps);
            && Stale(t, q)
            && (t.calls[q].released ==> Enabled(t, Resume(q)) && Next(t, total, Resume(q)) == t.(calls := Without(t.calls, q)))
    decreases |steps|
  {
    hide Inv, Next;
    if |steps| > 0 {
      assert steps[0] in steps;
      NextKeeps(s, total, steps[0]);
      StaleStep(s, total, steps[0], q);
      StaleFails(Next(s, total, steps[0]), total, steps[1..], q);
    } else if s.calls[q].released {
      StaleResume(s, total, q);
    }
  }

  lemma StaleResume(s: State, total: nat, q: int)
    requires Inv(s, total) && Stale(s, q) && s.calls[q].released
    ensures Enabled(s, Resume(q)) && Next(s, total, Resume(q)) == s.(calls := Without(s.calls, q))
  {
  }

  /** A reset or deletion makes every call on the port fail, whatever happens until it goes on. */
  lemma OvertakenFails(s: State, total: nat, i: int, renew: bool, steps: seq<Step>, q: int)
    requires Inv(s, total) && Usable(s, i) && q in s.calls && s.calls[q].port == i
    requires Legal(s, total, [Clear(i, renew)] + steps) && Resume(q) !in steps
    ensures var t := Run(s, total, [Clear(i, renew)] + steps);
            q in t.calls && (t.calls[q].released ==> Enabled(t, Resume(q)) && Next(t, total, Resume(q)) == t.(calls := Without(t.calls, q)))
  {
    hide Inv, PortOk;
    var clear := Clear(i, renew);
    assert ([clear] + steps)[0] == clear && ([clear] + steps)[1..] == steps;
    NextKeeps(s, total, clear);
    ClearMakesStale(s, total, i, renew, q);
    StaleFails(Next(s, total, clear), total, steps, q);
  }

  // ------------------------------------------------------------ room

  /** Port p is not free, and if it is being cleared it will be allocated again. */
  predicate Held(p: Port) {
    p.state != PFree && (p.state.Limbo? ==> p.state.renew && p.room == p.maxcnt)
  }

  lemma RoomStep(s: State, total: nat, a: Step, i: int)
    requires Inv(s, total) && Enabled(s, a) && 0 <= i < NPORTS && Held(s.ports[i]) && a != Clear(i, false)
    ensures var p, q := s.ports[i], Next(s, total, a).ports[i];
            |Next(s, total, a).ports| == NPORTS && Held(q) && q.maxcnt == p.maxcnt && q.room == if a == Clear(i, true) then p.maxcnt else p.room
  {
    hide PortOk, CallsKnown, Queued;
    match a
    case Start(p, port, role) => if Usable(s, port) { MessageThere(s, total, port); }
    case Resume(p) => if Current(s, s.calls[p]) { MessageThere(s, total, s.calls[p].port); }
    case _ =>
  }

  lemma {:induction false} RoomRun(s: State, total: nat, steps: seq<Step>, i: int)
    requires Inv(s, total) && Legal(s, total, steps) && 0 <= i < NPORTS && Held(s.ports[i]) && Clear(i, false) !in steps
    ensures var p, q := s.ports[i], Run(s, total, steps).ports[i];
            Held(q) && q.maxcnt == p.maxcnt && q.room == if Clear(i, true) in steps then p.maxcnt else p.room
    decreases |steps|
  {
    hide Inv, Next, Held;
    if |steps| > 0 {
      assert steps[0] in steps && steps == [steps[0]] + steps[1..];
      NextKeeps(s, total, steps[0]);
      RoomStep(s, total, steps[0], i);
      RoomRun(Next(s, total, steps[0]), total, steps[1..], i);
    }
  }

  lemma PortsOf(s: State, total: nat)
    requires Inv(s, total)
    ensures |s.ports| == NPORTS
  {
  }

  /** As long as a port is not deleted it has the room it was created with, and after a reset exactly
      if that fits 16 bits. */
  lemma RoomAfterReset(s: State, total: nat, i: int, count: nat, b: bool, c: bool, steps: seq<Step>)
    requires Inv(s, total) && Enabled(s, New(i, count, b, c)) && Clear(i, false) !in steps
    requires Legal(s, total, [New(i, count, b, c)] + steps)
    ensures Run(s, total, [New(i, count, b, c)] + steps).ports[i].room == count <==> Clear(i, true) !in steps || count < 65536
  {
    hide Inv, PortOk;
    var made := New(i, count, b, c);
    assert ([made] + steps)[0] == made && ([made] + steps)[1..] == steps;
    NextKeeps(s, total, made);
    assert |s.ports| == NPORTS by { PortsOf(s, total); }
    RoomRun(Next(s, total, made), total, steps, i);
  }

  lemma RunFirst(s: State, total: nat, a: Step, steps: seq<Step>)
    requires Inv(s, total) && Enabled(s, a)
    ensures Inv(Next(s, total, a), total)
    ensures Legal(Next(s, total, a), total, steps) ==>
              Legal(s, total, [a] + steps) && Run(s, total, [a] + steps) == Run(Next(s, total, a), total, steps)
  {
    hide Inv, Enabled, Next;
    NextKeeps(s, total, a);
    assert ([a] + steps)[0] == a && ([a] + steps)[1..] == steps;
  }

  lemma RunNone(s: State, total: nat)
    requires Inv(s, total)
    ensures Legal(s, total, []) && Run(s, total, []) == s
  {
  }

  /** A port made for 65536 messages in the first state and then reset. */
  function ResetRun(): (steps: seq<Step>) {
    [New(0, 65536, true, true)] + ([Clear(0, true)] + ([Middle(0)] + ([End(0)] + [])))
  }

  function Fresh(total: nat, p: Port): (s: State) { State(FreePorts(NPORTS)[0 := p], total, map[]) }

  lemma ResetSteps(total: nat)
    requires Inv(Init(total), total)
    ensures var made := Port(Alloc, Some(Sem(65536, [])), Some(Sem(0, [])), 0, 1, [], 65536, [], []);
            var limbo := Port(Limbo(1, true), Some(Sem(0, [])), Some(Sem(0, [])), 0, 2, [], 0, [], []);
            && Enabled(Init(total), New(0, 65536, true, true)) && Next(Init(total), total, New(0, 65536, true, true)) == Fresh(total, made)
            && ClearStart(Fresh(total, made), 0, true) == Fresh(total, limbo)
            && ClearMiddle(Fresh(total, limbo), 0) == Fresh(total, limbo.(state := Limbo(2, true)))
            && ClearEnd(Fresh(total, limbo.(state := Limbo(2, true))), 0) == Fresh(total, limbo.(state := Alloc))
  {
  }

  /** That run is legal, and after it the port has no room: the next sender waits although no message is queued. */
  lemma RoomLost(total: nat, q: int, msg: int)
    ensures Inv(Init(total), total) && Legal(Init(total), total, ResetRun())
    ensures var t := Run(Init(total), total, ResetRun());
            && Usable(t, 0) && t.ports[0].room == 0 && t.ports[0].queue == []
            && Enabled(t, Start(q, 0, Sender(msg)))
            && var u := Next(t, total, Start(q, 0, Sender(msg)));
               u.ports[0].queue == [] && q in u.calls && !u.calls[q].released
  {
    hide Inv, FreePorts;
    InitInv(total);
    ResetSteps(total);
    var made := Port(Alloc, Some(Sem(65536, [])), Some(Sem(0, [])), 0, 1, [], 65536, [], []);
    var limbo := Port(Limbo(1, true), Some(Sem(0, [])), Some(Sem(0, [])), 0, 2, [], 0, [], []);
    var s1, s2, s3, s4 := Fresh(total, made), Fresh(total, limbo), Fresh(total, limbo.(state := Limbo(2, true))), Fresh(total, limbo.(state := Alloc));
    RunFirst(Init(total), total, New(0, 65536, true, true), [Clear(0, true)] + ([Middle(0)] + ([End(0)] + [])));
    RunFirst(s1, total, Clear(0, true), [Middle(0)] + ([End(0)] + []));
    RunFirst(s2, total, Middle(0), [End(0)] + []);
    RunFirst(s3, total, End(0), []);
    RunNone(s4, total);
  }

  function RoomOf(p: Port): (n: nat) { if p.state == Alloc then p.room else 0 }

  function Rooms(ports: seq<Port>): (n: nat) {
    if |ports| == 0 then 0 else Rooms(ports[..|ports| - 1]) + RoomOf(ports[|ports| - 1])
  }

  lemma {:induction false} QueuedWithin(ports: seq<Port>, i: int)
    requires forall j {:trigger ports[j]} :: 0 <= j < |ports| ==> |ports[j].queue| <= RoomOf(ports[j])
    ensures Queued(ports) <= Rooms(ports)
    ensures 0 <= i < |ports| && |ports[i].queue| < RoomOf(ports[i]) ==> Queued(ports) < Rooms(ports)
    decreases |ports|
  {
    if |ports| > 0 {
      var front := ports[..|ports| - 1];
      assert forall j {:trigger front[j]} :: 0 <= j < |front| ==> front[j] == ports[j];
      QueuedWithin(front, i);
    }
  }

  lemma PortsWithin(s: State, total: nat)
    requires Inv(s, total)
    ensures forall j {:trigger s.ports[j]} :: 0 <= j < NPORTS ==> |s.ports[j].queue| <= RoomOf(s.ports[j])
  {
    hide QueueHolds, Within;
    forall j | 0 <= j < NPORTS ensures |s.ports[j].queue| <= RoomOf(s.ports[j]) {
      InvPort(s, total, j);
    }
  }

  /** A sender that has its token always finds a message node, if the rooms of all ports together do
      not exceed the nodes: then ptsend does not panic. */
  lemma NodeThere(s: State, total: nat, i: int)
    requires Inv(s, total) && Usable(s, i) && Rooms(s.ports) <= total
    ensures Tokens(s.ports[i].ssem) > 0 ==> s.free > 0
    ensures forall q {:trigger s.calls[q]} ::
              q in s.calls && s.calls[q].released && s.calls[q].role.Sender? && s.calls[q].port == i && Current(s, s.calls[q]) ==> s.free > 0
  {
    hide QueueHolds, Queued, Rooms;
    InvPort(s, total, i);
    PortsWithin(s, total);
    QueuedWithin(s.ports, i);
    forall q | q in s.calls && s.calls[q].released && s.calls[q].role.Sender? && s.calls[q].port == i && Current(s, s.calls[q])
      ensures s.free > 0
    {
      assert q in Within(s, i, true, true);
    }
  }
}
