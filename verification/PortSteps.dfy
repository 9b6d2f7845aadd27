/** Every step of the port protocol keeps its invariant. */
module PortSteps {
  import opened Common
  import opened PortModel

  /** The balance of a port while d units of room are in the caller's hands and e queued messages
      have not been announced to the receivers. */
  ghost predicate BalancedBy(s: State, i: int, d: int, e: int)
    requires 0 <= i < |s.ports|
  {
    var p := s.ports[i];
    && |p.queue| + Tokens(p.ssem) + |Within(s, i, true, true)| + d == (if p.ssem.Some? then p.room else 0)
    && (p.rsem.Some? ==> |p.queue| == Tokens(p.rsem) + |Within(s, i, false, true)| + e)
    && (p.rsem.None? ==> Within(s, i, false, true) == {})
    && p.sent == p.received + p.queue
    && (forall q {:trigger s.calls[q]} :: q in s.calls && s.calls[q].port == i && !s.calls[q].released ==> s.calls[q].seqno == p.seqno)
  }

  ghost predicate MidCall(s: State, i: int, d: int, e: int) {
    0 <= i < |s.ports| && s.ports[i].state == Alloc && SemsHold(s, i) && BalancedBy(s, i, d, e)
  }

  lemma MidCallOk(s: State, i: int)
    requires 0 <= i < |s.ports| && s.ports[i].state == Alloc
    ensures MidCall(s, i, 0, 0) <==> PortOk(s, i)
  {
  }

  /** Nothing has changed on port j. */
  ghost predicate SamePort(s: State, t: State, j: int) {
    && 0 <= j < |s.ports| == |t.ports| && t.ports[j] == s.ports[j]
    && (forall q {:trigger q in s.calls} {:trigger q in t.calls} :: (q in s.calls && s.calls[q].port == j) <==> (q in t.calls && t.calls[q].port == j))
    && (forall q {:trigger s.calls[q]} {:trigger t.calls[q]} :: q in s.calls && q in t.calls && s.calls[q].port == j && t.calls[q].port == j ==> t.calls[q] == s.calls[q])
  }

  lemma SamePortOk(s: State, t: State, j: int)
    requires SamePort(s, t, j) && PortOk(s, j)
    ensures PortOk(t, j)
  {
    hide Distinct;
    SameWithin(s, t, j, true, true);
    SameWithin(s, t, j, true, false);
    SameWithin(s, t, j, false, true);
    SameWithin(s, t, j, false, false);
    SameQueue(s, t, j, true);
    SameQueue(s, t, j, false);
  }

  lemma SameQueue(s: State, t: State, j: int, b: bool)
    requires SamePort(s, t, j) && QueueHolds(s, j, b)
    ensures QueueHolds(t, j, b)
  {
    hide Distinct;
    var q := Waiters(SemOf(s.ports[j], b));
    forall p
      ensures p in q <==> p in t.calls && t.calls[p].port == j && Sends(t.calls[p]) == b && !t.calls[p].released
    {
      assert p in q <==> p in s.calls && s.calls[p].port == j && Sends(s.calls[p]) == b && !s.calls[p].released;
    }
  }

  lemma SameWithin(s: State, t: State, j: int, b: bool, r: bool)
    requires SamePort(s, t, j)
    ensures Within(t, j, b, r) == Within(s, j, b, r)
  {
    forall q ensures q in Within(t, j, b, r) <==> q in Within(s, j, b, r) {
      assert (q in s.calls && s.calls[q].port == j) <==> (q in t.calls && t.calls[q].port == j);
    }
  }

  // ------------------------------------------------------------ calls that come and go

  lemma DroppedWithin(s: State, q: int, i: int, b: bool, r: bool)
    requires q in s.calls && 0 <= i < |s.ports|
    ensures Within(s.(calls := Without(s.calls, q)), i, b, r) == Within(s, i, b, r) - {q}
  {
  }

  /** A released process leaves its call: what it holds is now in the hands of the step. */
  lemma CallDropped(s: State, q: int)
    requires q in s.calls && s.calls[q].released && Current(s, s.calls[q]) && PortOk(s, s.calls[q].port)
    ensures var c := s.calls[q];
            MidCall(s.(calls := Without(s.calls, q)), c.port, if Sends(c) then 1 else 0, if Sends(c) then 0 else 1)
  {
    hide Distinct, QueueHolds, Within;
    var c, t := s.calls[q], s.(calls := Without(s.calls, q));
    DroppedWithin(s, q, c.port, true, true);
    DroppedWithin(s, q, c.port, false, true);
    DroppedQueue(s, q, true);
    DroppedQueue(s, q, false);
    IsWithin(s, q);
  }

  lemma IsWithin(s: State, q: int)
    requires q in s.calls && s.calls[q].released && Current(s, s.calls[q])
    ensures var c := s.calls[q]; q in Within(s, c.port, Sends(c), true) && q !in Within(s, c.port, !Sends(c), true)
  {
  }

  lemma DroppedQueue(s: State, q: int, b: bool)
    requires q in s.calls && s.calls[q].released && 0 <= s.calls[q].port < |s.ports| && QueueHolds(s, s.calls[q].port, b)
    ensures QueueHolds(s.(calls := Without(s.calls, q)), s.calls[q].port, b)
  {
  }

  /** A process that finds its call out of date leaves without any effect. */
  lemma StaleDropped(s: State, q: int)
    requires q in s.calls && s.calls[q].released && 0 <= s.calls[q].port < |s.ports| && !Current(s, s.calls[q]) && PortOk(s, s.calls[q].port)
    ensures PortOk(s.(calls := Without(s.calls, q)), s.calls[q].port)
  {
    hide Distinct;
    var c := s.calls[q];
    DroppedWithin(s, q, c.port, true, true);
    DroppedWithin(s, q, c.port, false, true);
    DroppedWithin(s, q, c.port, true, false);
    DroppedWithin(s, q, c.port, false, false);
    DroppedQueue(s, q, true);
    DroppedQueue(s, q, false);
  }

  // ------------------------------------------------------------ tokens and messages

  lemma PortWithin(s: State, i: int, p: Port, b: bool, r: bool)
    requires 0 <= i < |s.ports| && p.seqno == s.ports[i].seqno
    ensures Within(WithPort(s, i, p), i, b, r) == Within(s, i, b, r)
  {
  }

  lemma TokenBy(s: State, i: int, sends: bool)
    requires Usable(s, i) && PortOk(s, i) && Tokens(SemOf(s.ports[i], sends)) > 0
    ensures MidCall(TokenTaken(s, i, sends), i, if sends then 1 else 0, if sends then 0 else 1)
    ensures !sends ==> |s.ports[i].queue| > 0
  {
    var t := TokenTaken(s, i, sends);
    PortWithin(s, i, t.ports[i], true, true);
    PortWithin(s, i, t.ports[i], false, true);
  }

  /** A message put into the queue and not yet announced. */
  lemma QueuedBy(s: State, i: int, msg: int)
    requires MidCall(s, i, 1, 0)
    ensures var p := s.ports[i]; MidCall(WithPort(s, i, p.(queue := p.queue + [msg], sent := p.sent + [msg])), i, 0, 1)
  {
    var p := s.ports[i];
    var p' := p.(queue := p.queue + [msg], sent := p.sent + [msg]);
    PortWithin(s, i, p', true, true);
    PortWithin(s, i, p', false, true);
    assert p.received + p.queue + [msg] == p.received + (p.queue + [msg]);
  }

  /** The first message taken out of the queue and its room not yet given back. */
  lemma TakenBy(s: State, i: int)
    requires MidCall(s, i, 0, 1) && s.ports[i].rsem.Some?
    ensures |s.ports[i].queue| > 0
    ensures var p := s.ports[i]; MidCall(WithPort(s, i, p.(queue := p.queue[1..], received := p.received + [p.queue[0]])), i, 1, 0)
  {
    var p := s.ports[i];
    var p' := p.(queue := p.queue[1..], received := p.received + [p.queue[0]]);
    PortWithin(s, i, p', true, true);
    PortWithin(s, i, p', false, true);
    assert p.queue == [p.queue[0]] + p.queue[1..];
    assert p.received + p.queue == p.received + [p.queue[0]] + p.queue[1..];
  }

  /** The state after a signal on one of the semaphores of port i. */
  function Signal(s: State, i: int, sends: bool): (t: State)
    requires 0 <= i < |s.ports|
  {
    var p := s.ports[i];
    if sends then
      var (calls, o) := Signalled(s.calls, p.ssem);
      State(s.ports[i := p.(ssem := o)], s.free, calls)
    else
      var (calls, o) := Signalled(s.calls, p.rsem);
      State(s.ports[i := p.(rsem := o)], s.free, calls)
  }

  lemma QueueMember(s: State, i: int, b: bool, p: int)
    requires 0 <= i < |s.ports| && SemsHold(s, i)
    ensures p in Waiters(SemOf(s.ports[i], b)) <==>
              p in s.calls && s.calls[p].port == i && Sends(s.calls[p]) == b && !s.calls[p].released
  {
    hide Distinct;
    assert QueueHolds(s, i, b) by { if b { } else { } }
  }

  lemma FirstWaits(s: State, i: int, sends: bool)
    requires 0 <= i < |s.ports| && SemsHold(s, i)
    ensures var o := SemOf(s.ports[i], sends);
            o.Some? && o.value.count < 0 ==>
              && |o.value.queue| > 0 && o.value.queue[0] in s.calls
              && var c := s.calls[o.value.queue[0]]; c.port == i && Sends(c) == sends && !c.released
  {
    var o := SemOf(s.ports[i], sends);
    if o.Some? && o.value.count < 0 {
      assert o.value.queue[0] in Waiters(o);
      QueueMember(s, i, sends, o.value.queue[0]);
    }
  }

  /** A signal gives one unit to a waiting process, which is thereby released, or else to the count. */
  lemma SignalBy(s: State, i: int, sends: bool, d: int, e: int)
    requires 0 <= i < |s.ports| && MidCall(s, i, d, e) && (if sends then d == 1 else e == 1)
    ensures MidCall(Signal(s, i, sends), i, if sends then 0 else d, if sends then e else 0)
    ensures CallsKnown(s) ==> CallsKnown(Signal(s, i, sends))
    ensures forall j {:trigger SamePort(s, Signal(s, i, sends), j)} :: 0 <= j < |s.ports| && j != i ==> SamePort(s, Signal(s, i, sends), j)
  {
    hide MidCall, Within, QueueHolds, CallsKnown, SamePort, Signal;
    var o := SemOf(s.ports[i], sends);
    if o.Some? && o.value.count < 0 {
      SignalWaiter(s, i, sends, d, e);
    } else {
      SignalCount(s, i, sends, d, e);
    }
  }

  lemma SignalCount(s: State, i: int, sends: bool, d: int, e: int)
    requires MidCall(s, i, d, e) && (if sends then d == 1 else e == 1)
    requires var o := SemOf(s.ports[i], sends); o.None? || o.value.count >= 0
    ensures MidCall(Signal(s, i, sends), i, if sends then 0 else d, if sends then e else 0)
    ensures CallsKnown(s) ==> CallsKnown(Signal(s, i, sends))
    ensures forall j {:trigger SamePort(s, Signal(s, i, sends), j)} :: 0 <= j < |s.ports| && j != i ==> SamePort(s, Signal(s, i, sends), j)
  {
    hide Within, QueueHolds;
    var p, t := s.ports[i], Signal(s, i, sends);
    PortWithin(s, i, t.ports[i], true, true);
    PortWithin(s, i, t.ports[i], false, true);
    CountedQueue(s, i, sends, true);
    CountedQueue(s, i, sends, false);
  }

  lemma SignalWaiter(s: State, i: int, sends: bool, d: int, e: int)
    requires MidCall(s, i, d, e) && (if sends then d == 1 else e == 1)
    requires var o := SemOf(s.ports[i], sends); o.Some? && o.value.count < 0
    ensures MidCall(Signal(s, i, sends), i, if sends then 0 else d, if sends then e else 0)
    ensures CallsKnown(s) ==> CallsKnown(Signal(s, i, sends))
    ensures forall j {:trigger SamePort(s, Signal(s, i, sends), j)} :: 0 <= j < |s.ports| && j != i ==> SamePort(s, Signal(s, i, sends), j)
  {
    hide MidCall, CallsKnown, SamePort, Signal;
    WaiterBalance(s, i, sends, d, e);
    WaiterFrame(s, i, sends, d, e);
  }

  /** The rest of the world when a waiter is released. */
  lemma WaiterFrame(s: State, i: int, sends: bool, d: int, e: int)
    requires MidCall(s, i, d, e)
    requires var o := SemOf(s.ports[i], sends); o.Some? && o.value.count < 0
    ensures CallsKnown(s) ==> CallsKnown(Signal(s, i, sends))
    ensures forall j {:trigger SamePort(s, Signal(s, i, sends), j)} :: 0 <= j < |s.ports| && j != i ==> SamePort(s, Signal(s, i, sends), j)
  {
    hide Within, QueueHolds, Signalled;
    FirstWaits(s, i, sends);
    SignalledIs(s.calls, SemOf(s.ports[i], sends));
  }

  lemma WaiterBalance(s: State, i: int, sends: bool, d: int, e: int)
    requires MidCall(s, i, d, e) && (if sends then d == 1 else e == 1)
    requires var o := SemOf(s.ports[i], sends); o.Some? && o.value.count < 0
    ensures MidCall(Signal(s, i, sends), i, if sends then 0 else d, if sends then e else 0)
  {
    hide Within, QueueHolds, Signalled;
    FirstWaits(s, i, sends);
    SignalledIs(s.calls, SemOf(s.ports[i], sends));
    ReleasedWithin(s, i, sends, true);
    ReleasedWithin(s, i, sends, false);
    ReleasedQueue(s, i, sends, true);
    ReleasedQueue(s, i, sends, false);
  }

  lemma SignalledIs(calls: map<int, Call>, o: Option<Sem>)
    requires o.Some? && o.value.count < 0 && |o.value.queue| > 0 && o.value.queue[0] in calls
    ensures var q := o.value.queue[0];
            Signalled(calls, o) == (calls[q := calls[q].(released := true)], Some(Sem(o.value.count + 1, o.value.queue[1..])))
  {
  }

  lemma CountedQueue(s: State, i: int, sends: bool, b: bool)
    requires 0 <= i < |s.ports| && QueueHolds(s, i, b)
    requires var o := SemOf(s.ports[i], sends); o.None? || o.value.count >= 0
    ensures QueueHolds(Signal(s, i, sends), i, b)
  {
  }

  lemma ReleasedWithin(s: State, i: int, sends: bool, b: bool)
    requires 0 <= i < |s.ports|
    requires var o := SemOf(s.ports[i], sends);
             && o.Some? && o.value.count < 0 && |o.value.queue| > 0 && o.value.queue[0] in s.calls
             && var c := s.calls[o.value.queue[0]]; c.port == i && Sends(c) == sends && !c.released && c.seqno == s.ports[i].seqno
    ensures var q := SemOf(s.ports[i], sends).value.queue[0];
            && q !in Within(s, i, b, true)
            && Within(Signal(s, i, sends), i, b, true) == Within(s, i, b, true) + if b == sends then {q} else {}
  {
  }

  lemma ReleasedQueue(s: State, i: int, sends: bool, b: bool)
    requires 0 <= i < |s.ports| && QueueHolds(s, i, b) && QueueHolds(s, i, sends)
    requires var o := SemOf(s.ports[i], sends);
             && o.Some? && o.value.count < 0 && |o.value.queue| > 0 && o.value.queue[0] in s.calls
             && var c := s.calls[o.value.queue[0]]; c.port == i && Sends(c) == sends && !c.released
    ensures QueueHolds(Signal(s, i, sends), i, b)
  {
    var t := Signal(s, i, sends);
    var q := SemOf(s.ports[i], sends).value.queue;
    var l := Waiters(SemOf(s.ports[i], b));
    var l' := Waiters(SemOf(t.ports[i], b));
    if b == sends {
      assert l == [q[0]] + l';
    }
    forall p
      ensures p in l' <==> p in t.calls && t.calls[p].port == i && Sends(t.calls[p]) == b && !t.calls[p].released
    {
      assert p in l <==> p in s.calls && s.calls[p].port == i && Sends(s.calls[p]) == b && !s.calls[p].released;
    }
  }

  lemma {:induction false} QueuedUpdate(ports: seq<Port>, i: nat, p: Port)
    requires i < |ports|
    ensures Queued(ports[i := p]) == Queued(ports) - |ports[i].queue| + |p.queue|
    decreases |ports|
  {
    var n := |ports| - 1;
    if i == n {
      assert ports[i := p][..n] == ports[..n];
    } else {
      assert ports[i := p][..n] == ports[..n][i := p];
      QueuedUpdate(ports[..n], i, p);
    }
  }

  lemma PutIs(s: State, i: int, msg: int)
    requires 0 <= i < |s.ports|
    ensures var p := s.ports[i];
            Put(s, i, msg) == Signal(WithPort(s, i, p.(queue := p.queue + [msg], sent := p.sent + [msg])), i, false).(free := s.free - 1)
  {
  }

  lemma GetIs(s: State, i: int)
    requires 0 <= i < |s.ports| && |s.ports[i].queue| > 0
    ensures var p := s.ports[i];
            Get(s, i) == Signal(WithPort(s, i, p.(queue := p.queue[1..], received := p.received + [p.queue[0]])), i, true).(free := s.free + 1)
  {
  }

  lemma FreeIrrelevant(s: State, n: int, i: int)
    requires 0 <= i < |s.ports|
    ensures PortOk(s.(free := n), i) <==> PortOk(s, i)
  {
    forall b, r ensures Within(s.(free := n), i, b, r) == Within(s, i, b, r) {}
  }

  /** A sender with room in hand completes its call. */
  lemma PutOk(s: State, i: int, msg: int)
    requires MidCall(s, i, 1, 0) && CallsKnown(s)
    ensures var t := Put(s, i, msg);
            && |t.ports| == |s.ports| && PortOk(t, i) && CallsKnown(t) && t.free + Queued(t.ports) == s.free + Queued(s.ports) && t.free == s.free - 1
            && (forall j {:trigger SamePort(s, t, j)} :: 0 <= j < |s.ports| && j != i ==> SamePort(s, t, j))
  {
    hide SemsHold, BalancedBy, Balanced, Signal, Signalled;
    var p := s.ports[i];
    var u := WithPort(s, i, p.(queue := p.queue + [msg], sent := p.sent + [msg]));
    QueuedBy(s, i, msg);
    SignalBy(u, i, false, 0, 1);
    var v := Signal(u, i, false);
    SignalFrame(u, i, false);
    MidCallOk(v, i);
    FreeIrrelevant(v, s.free - 1, i);
    PutIs(s, i, msg);
    QueuedUpdate(s.ports, i, v.ports[i]);
    assert u.ports[i := v.ports[i]] == s.ports[i := v.ports[i]];
    forall j | 0 <= j < |s.ports| && j != i ensures SamePort(s, Put(s, i, msg), j) { assert SamePort(u, v, j); }
  }

  lemma SignalFrame(s: State, i: int, sends: bool)
    requires 0 <= i < |s.ports|
    ensures var t := Signal(s, i, sends);
            && t.free == s.free && |t.ports| == |s.ports| && t.ports == s.ports[i := t.ports[i]] && t.ports[i].queue == s.ports[i].queue
            && t.ports[i].state == s.ports[i].state && t.ports[i].seqno == s.ports[i].seqno
  {
  }

  /** A receiver that was promised a message finds one and completes its call. */
  lemma GetOk(s: State, i: int)
    requires MidCall(s, i, 0, 1) && CallsKnown(s) && s.ports[i].rsem.Some?
    ensures |s.ports[i].queue| > 0
    ensures var t := Get(s, i);
            && |t.ports| == |s.ports| && PortOk(t, i) && CallsKnown(t) && t.free + Queued(t.ports) == s.free + Queued(s.ports) && t.free == s.free + 1
            && (forall j {:trigger SamePort(s, t, j)} :: 0 <= j < |s.ports| && j != i ==> SamePort(s, t, j))
  {
    hide SemsHold, BalancedBy, Balanced, Signal, Signalled;
    TakenBy(s, i);
    var p := s.ports[i];
    var u := WithPort(s, i, p.(queue := p.queue[1..], received := p.received + [p.queue[0]]));
    SignalBy(u, i, true, 1, 0);
    var v := Signal(u, i, true);
    SignalFrame(u, i, true);
    MidCallOk(v, i);
    FreeIrrelevant(v, s.free + 1, i);
    GetIs(s, i);
    QueuedUpdate(s.ports, i, v.ports[i]);
    assert u.ports[i := v.ports[i]] == s.ports[i := v.ports[i]];
    forall j | 0 <= j < |s.ports| && j != i ensures SamePort(s, Get(s, i), j) { assert SamePort(u, v, j); }
  }
}
