/** All interleavings of sends, receives, resets and deletions. */
module PortRuns {
  import opened Common
  import opened PortModel
  import opened PortSteps

  datatype Step =
    | Start(q: int, port: int, role: Role) | Resume(q: int)
    | New(port: int, count: nat, ssemOk: bool, rsemOk: bool)
    | Clear(port: int, renew: bool) | Middle(port: int) | End(port: int)

  /** A process is in one call at a time and goes on once released. The node list does not run out
      under a sender: the code panics then. */
  ghost predicate Enabled(s: State, a: Step) {
    match a
    case Start(q, port, role) => q !in s.calls && (role.Sender? && Usable(s, port) && Tokens(s.ports[port].ssem) > 0 ==> s.free > 0)
    case Resume(q) => q in s.calls && s.calls[q].released && (s.calls[q].role.Sender? && Current(s, s.calls[q]) ==> s.free > 0)
    case New(port, count, b, c) => 0 <= port < |s.ports| && s.ports[port].state == PFree
    case Clear(port, renew) => true
    case Middle(port) => 0 <= port < |s.ports| && s.ports[port].state.Limbo? && s.ports[port].state.step == 1
    case End(port) => 0 <= port < |s.ports| && s.ports[port].state.Limbo? && s.ports[port].state.step == 2
  }

  /** A released receiver whose call is current always finds a message, and so does one that takes
      a token. */
  lemma MessageThere(s: State, total: nat, i: int)
    requires Inv(s, total) && Usable(s, i)
    ensures Tokens(s.ports[i].rsem) > 0 ==> |s.ports[i].queue| > 0
    ensures forall q {:trigger s.calls[q]} ::
              q in s.calls && s.calls[q].released && s.calls[q].role.Receiver? && s.calls[q].port == i && Current(s, s.calls[q]) ==> |s.ports[i].queue| > 0
  {
    hide QueueHolds;
    assert PortOk(s, i);
    forall q | q in s.calls && s.calls[q].released && s.calls[q].role.Receiver? && s.calls[q].port == i && Current(s, s.calls[q])
      ensures |s.ports[i].queue| > 0
    {
      assert q in Within(s, i, false, true);
    }
  }

  ghost function Next(s: State, total: nat, a: Step): (t: State)
    requires Inv(s, total) && Enabled(s, a)
  {
    match a
    case Start(q, port, Sender(msg)) => SendStart(s, q, port, msg)
    case Start(q, port, Receiver) => (if Usable(s, port) then MessageThere(s, total, port); RecvStart(s, q, port) else RecvStart(s, q, port))
    case Resume(q) =>
      if s.calls[q].role.Sender? then SendResume(s, q)
      else if Current(s, s.calls[q]) then MessageThere(s, total, s.calls[q].port); RecvResume(s, q)
      else RecvResume(s, q)
    case New(port, count, b, c) => Create(s, port, count, b, c)
    case Clear(port, renew) => ClearStart(s, port, renew)
    case Middle(port) => ClearMiddle(s, port)
    case End(port) => ClearEnd(s, port)
  }

  lemma InvPort(s: State, total: nat, i: int)
    requires Inv(s, total) && 0 <= i < NPORTS
    ensures PortOk(s, i) && |s.ports| == NPORTS && CallsKnown(s) && s.free + Queued(s.ports) == total
  {
  }

  /** Only port i is concerned. */
  lemma OnePort(s: State, t: State, total: nat, i: int)
    requires Inv(s, total) && 0 <= i < NPORTS && |t.ports| == NPORTS && PortOk(t, i) && CallsKnown(t)
    requires forall j {:trigger SamePort(s, t, j)} :: 0 <= j < NPORTS && j != i ==> SamePort(s, t, j)
    requires t.free >= 0 && t.free + Queued(t.ports) == total
    ensures Inv(t, total)
  {
    hide PortOk, CallsKnown, SamePort, Queued;
    forall j | 0 <= j < NPORTS ensures PortOk(t, j) {
      if j != i {
        assert SamePort(s, t, j) && PortOk(s, j);
        SamePortOk(s, t, j);
      }
    }
  }

  /** Two steps, each of which leaves the other ports alone. */
  lemma SamePortTrans(s: State, t: State, u: State, j: int)
    requires SamePort(s, t, j) && SamePort(t, u, j)
    ensures SamePort(s, u, j)
  {
    forall q ensures (q in s.calls && s.calls[q].port == j) <==> (q in u.calls && u.calls[q].port == j) {
      assert (q in s.calls && s.calls[q].port == j) <==> (q in t.calls && t.calls[q].port == j);
      assert (q in t.calls && t.calls[q].port == j) <==> (q in u.calls && u.calls[q].port == j);
    }
    forall q | q in s.calls && q in u.calls && s.calls[q].port == j && u.calls[q].port == j ensures u.calls[q] == s.calls[q] {
      assert (q in s.calls && s.calls[q].port == j) <==> (q in t.calls && t.calls[q].port == j);
    }
  }

  lemma TokenFrame(s: State, i: int, sends: bool)
    requires 0 <= i < |s.ports|
    ensures var t := TokenTaken(s, i, sends);
            && |t.ports| == |s.ports| && t.free == s.free && t.calls == s.calls && (CallsKnown(s) ==> CallsKnown(t)) && Queued(t.ports) == Queued(s.ports)
            && t.ports[i].queue == s.ports[i].queue && (t.ports[i].rsem.Some? <==> s.ports[i].rsem.Some?)
            && (forall j {:trigger SamePort(s, t, j)} :: 0 <= j < |s.ports| && j != i ==> SamePort(s, t, j))
  {
    var t := TokenTaken(s, i, sends);
    QueuedUpdate(s.ports, i, t.ports[i]);
    assert s.ports[i := s.ports[i]] == s.ports;
  }

  lemma BlockedWithin(s: State, q: int, i: int, role: Role, b: bool, r: bool)
    requires 0 <= i < |s.ports| && q !in s.calls && SemOf(s.ports[i], role.Sender?).Some?
    ensures Within(Blocked(s, q, i, role), i, b, r) == Within(s, i, b, r) + if b == role.Sender? && !r then {q} else {}
  {
  }

  lemma BlockedQueue(s: State, q: int, i: int, role: Role, b: bool)
    requires 0 <= i < |s.ports| && q !in s.calls && SemsHold(s, i) && SemOf(s.ports[i], role.Sender?).Some?
    ensures QueueHolds(Blocked(s, q, i, role), i, b)
  {
    var t := Blocked(s, q, i, role);
    var l, l' := Waiters(SemOf(s.ports[i], b)), Waiters(SemOf(t.ports[i], b));
    QueueDistinct(s, i, b);
    QueueMember(s, i, b, q);
    assert l' == if b == role.Sender? then l + [q] else l;
    forall p
      ensures p in l' <==> p in t.calls && t.calls[p].port == i && Sends(t.calls[p]) == b && !t.calls[p].released
    {
      QueueMember(s, i, b, p);
    }
  }

  lemma QueueDistinct(s: State, i: int, b: bool)
    requires 0 <= i < |s.ports| && SemsHold(s, i)
    ensures Distinct(Waiters(SemOf(s.ports[i], b)))
  {
    assert QueueHolds(s, i, b) by { if b { } else { } }
  }

  lemma BlockedKeeps(s: State, total: nat, q: int, i: int, role: Role)
    requires Inv(s, total) && Usable(s, i) && q !in s.calls
    requires var o := SemOf(s.ports[i], role.Sender?); o.Some? && Tokens(o) == 0
    ensures Inv(Blocked(s, q, i, role), total)
  {
    hide QueueHolds, Within;
    InvPort(s, total, i);
    var t := Blocked(s, q, i, role);
    BlockedWithin(s, q, i, role, true, true);
    BlockedWithin(s, q, i, role, false, true);
    BlockedQueue(s, q, i, role, true);
    BlockedQueue(s, q, i, role, false);
    QueuedUpdate(s.ports, i, t.ports[i]);
    OnePort(s, t, total, i);
  }

  lemma SendStartKeeps(s: State, total: nat, q: int, i: int, msg: int)
    requires Inv(s, total) && Enabled(s, Start(q, i, Sender(msg)))
    ensures Inv(SendStart(s, q, i, msg), total)
  {
    hide PortOk, MidCall, Put, TokenTaken, Blocked, SamePort, Queued;
    if Usable(s, i) && s.ports[i].ssem.Some? {
      InvPort(s, total, i);
      if Tokens(s.ports[i].ssem) == 0 {
        BlockedKeeps(s, total, q, i, Sender(msg));
      } else {
        var u := TokenTaken(s, i, true);
        TokenBy(s, i, true);
        TokenFrame(s, i, true);
        PutOk(u, i, msg);
        TwoSteps(s, u, Put(u, i, msg), i);
        OnePort(s, Put(u, i, msg), total, i);
      }
    }
  }

  lemma TwoSteps(s: State, t: State, u: State, i: int)
    requires |s.ports| == |t.ports| == |u.ports|
    requires forall j {:trigger SamePort(s, t, j)} :: 0 <= j < |s.ports| && j != i ==> SamePort(s, t, j)
    requires forall j {:trigger SamePort(t, u, j)} :: 0 <= j < |s.ports| && j != i ==> SamePort(t, u, j)
    ensures forall j {:trigger SamePort(s, u, j)} :: 0 <= j < |s.ports| && j != i ==> SamePort(s, u, j)
  {
    hide SamePort;
    forall j | 0 <= j < |s.ports| && j != i ensures SamePort(s, u, j) {
      assert SamePort(s, t, j) && SamePort(t, u, j);
      SamePortTrans(s, t, u, j);
    }
  }

  lemma RecvStartKeeps(s: State, total: nat, q: int, i: int)
    requires Inv(s, total) && Enabled(s, Start(q, i, Receiver))
    ensures Usable(s, i) && Tokens(s.ports[i].rsem) > 0 ==> |s.ports[i].queue| > 0
    ensures Inv(RecvStart(s, q, i), total)
  {
    hide PortOk, MidCall, Get, TokenTaken, Blocked, SamePort, Queued;
    if Usable(s, i) && s.ports[i].rsem.Some? {
      InvPort(s, total, i);
      MessageThere(s, total, i);
      if Tokens(s.ports[i].rsem) == 0 {
        BlockedKeeps(s, total, q, i, Receiver);
      } else {
        var u := TokenTaken(s, i, false);
        TokenBy(s, i, false);
        TokenFrame(s, i, false);
        GetOk(u, i);
        TwoSteps(s, u, Get(u, i), i);
        OnePort(s, Get(u, i), total, i);
      }
    }
  }

  lemma DropFrame(s: State, q: int)
    requires q in s.calls && CallsKnown(s)
    ensures var t := s.(calls := Without(s.calls, q));
            CallsKnown(t) && forall j {:trigger SamePort(s, t, j)} :: 0 <= j < |s.ports| && j != s.calls[q].port ==> SamePort(s, t, j)
  {
  }

  lemma ReleasedReceiver(s: State, q: int)
    requires q in s.calls && s.calls[q].released && s.calls[q].role.Receiver? && Current(s, s.calls[q]) && PortOk(s, s.calls[q].port)
    ensures s.ports[s.calls[q].port].rsem.Some?
  {
    hide SemsHold;
    assert q in Within(s, s.calls[q].port, false, true);
  }

  lemma ResumeKeeps(s: State, total: nat, q: int)
    requires Inv(s, total) && Enabled(s, Resume(q))
    ensures s.calls[q].role.Receiver? && Current(s, s.calls[q]) ==> |s.ports[s.calls[q].port].queue| > 0
    ensures Inv(if s.calls[q].role.Sender? then SendResume(s, q) else RecvResume(s, q), total)
  {
    hide PortOk, MidCall, Get, Put, SamePort, Queued, Without;
    var c, u := s.calls[q], s.(calls := Without(s.calls, q));
    var i := c.port;
    assert 0 <= i < NPORTS;
    InvPort(s, total, i);
    DropFrame(s, q);
    if Current(s, c) {
      CallDropped(s, q);
      MessageThere(s, total, i);
      if c.role.Sender? {
        PutOk(u, i, c.role.msg);
        TwoSteps(s, u, Put(u, i, c.role.msg), i);
        OnePort(s, Put(u, i, c.role.msg), total, i);
      } else {
        ReleasedReceiver(s, q);
        GetOk(u, i);
        TwoSteps(s, u, Get(u, i), i);
        OnePort(s, Get(u, i), total, i);
      }
    } else {
      StaleDropped(s, q);
      OnePort(s, u, total, i);
    }
  }

  lemma CreateKeeps(s: State, total: nat, i: int, count: nat, b: bool, c: bool)
    requires Inv(s, total) && Enabled(s, New(i, count, b, c))
    ensures Inv(Create(s, i, count, b, c), total)
  {
    InvPort(s, total, i);
    var t := Create(s, i, count, b, c);
    NoneWithin(s, t, i);
    CreatedQueue(s, i, count, b, c, true);
    CreatedQueue(s, i, count, b, c, false);
    forall q | q in t.calls && t.calls[q].port == i ensures t.calls[q].released {
      QueueMember(s, i, Sends(s.calls[q]), q);
    }
    QueuedUpdate(s.ports, i, t.ports[i]);
    OnePort(s, t, total, i);
  }

  /** After the number has gone up nobody is in a current call. */
  lemma NoneWithin(s: State, t: State, i: int)
    requires 0 <= i < |s.ports| == |t.ports| && CallsKnown(s) && t.ports[i].seqno == s.ports[i].seqno + 1
    requires forall q {:trigger t.calls[q]} :: q in t.calls ==> q in s.calls && t.calls[q].port == s.calls[q].port && t.calls[q].seqno == s.calls[q].seqno
    ensures forall b, r {:trigger Within(t, i, b, r)} :: Within(t, i, b, r) == {}
  {
    forall b, r ensures Within(t, i, b, r) == {} {
      forall q ensures q !in Within(t, i, b, r) {
        assert q in t.calls ==> t.calls[q].seqno == s.calls[q].seqno;
      }
    }
  }

  lemma CreatedQueue(s: State, i: int, count: nat, b: bool, c: bool, sends: bool)
    requires 0 <= i < |s.ports| && PortOk(s, i) && s.ports[i].state == PFree
    ensures QueueHolds(Create(s, i, count, b, c), i, sends)
  {
    var t := Create(s, i, count, b, c);
    forall p ensures p in t.calls && t.calls[p].port == i && Sends(t.calls[p]) == sends ==> t.calls[p].released {
      QueueMember(s, i, sends, p);
    }
  }

  lemma ReleasedFrame(s: State, t: State, i: int, sends: bool)
    requires |t.ports| == |s.ports| && 0 <= i < |s.ports| && t.calls == AllReleased(s.calls, i, sends)
    requires forall j {:trigger t.ports[j]} :: 0 <= j < |s.ports| && j != i ==> t.ports[j] == s.ports[j]
    ensures forall j {:trigger SamePort(s, t, j)} :: 0 <= j < |s.ports| && j != i ==> SamePort(s, t, j)
    ensures CallsKnown(s) && t.ports[i].seqno >= s.ports[i].seqno ==> CallsKnown(t)
  {
  }

  lemma ReleasedQueues(s: State, t: State, i: int, sends: bool, b: bool)
    requires 0 <= i < |s.ports| == |t.ports| && SemsHold(s, i) && t.calls == AllReleased(s.calls, i, sends)
    requires if b == sends then Waiters(SemOf(t.ports[i], b)) == [] else SemOf(t.ports[i], b) == SemOf(s.ports[i], b)
    ensures QueueHolds(t, i, b)
  {
    var l := Waiters(SemOf(t.ports[i], b));
    QueueDistinct(s, i, b);
    forall p
      ensures p in l <==> p in t.calls && t.calls[p].port == i && Sends(t.calls[p]) == b && !t.calls[p].released
    {
      QueueMember(s, i, b, p);
    }
  }

  lemma ClearStartKeeps(s: State, total: nat, i: int, renew: bool)
    requires Inv(s, total)
    ensures Inv(ClearStart(s, i, renew), total)
  {
    hide QueueHolds, Within, Queued, AllReleased, SamePort, Distinct;
    if Usable(s, i) {
      InvPort(s, total, i);
      var t := ClearStart(s, i, renew);
      ReleasedFrame(s, t, i, true);
      ReleasedCalls(s.calls, i, true);
      NoneWithin(s, t, i);
      ReleasedQueues(s, t, i, true, true);
      ReleasedQueues(s, t, i, true, false);
      QueuedUpdate(s.ports, i, t.ports[i]);
      OnePort(s, t, total, i);
    }
  }

  lemma ReleasedCalls(calls: map<int, Call>, i: int, sends: bool)
    ensures var r := AllReleased(calls, i, sends);
            && r.Keys == calls.Keys
            && forall q {:trigger r[q]} :: q in r ==> q in calls && r[q].port == calls[q].port && r[q].seqno == calls[q].seqno && r[q].role == calls[q].role
  {
  }

  lemma LimboWithin(s: State, t: State, i: int)
    requires 0 <= i < |s.ports| == |t.ports| && t.ports[i].seqno == s.ports[i].seqno
    requires forall b, r {:trigger Within(s, i, b, r)} :: Within(s, i, b, r) == {}
    requires forall q {:trigger t.calls[q]} :: q in t.calls ==> q in s.calls && t.calls[q].port == s.calls[q].port && t.calls[q].seqno == s.calls[q].seqno
    ensures forall b, r {:trigger Within(t, i, b, r)} :: Within(t, i, b, r) == {}
  {
    forall b, r ensures Within(t, i, b, r) == {} {
      forall q ensures q !in Within(t, i, b, r) {
        assert q in s.calls ==> q !in Within(s, i, Sends(s.calls[q]), s.calls[q].released);
        assert q in t.calls ==> t.calls[q].seqno == s.calls[q].seqno;
      }
    }
  }

  lemma ClearMiddleKeeps(s: State, total: nat, i: int)
    requires Inv(s, total) && Enabled(s, Middle(i))
    ensures Inv(ClearMiddle(s, i), total)
  {
    hide QueueHolds, Within, Queued, AllReleased, SamePort, Distinct;
    InvPort(s, total, i);
    var t := ClearMiddle(s, i);
    ReleasedFrame(s, t, i, false);
    ReleasedCalls(s.calls, i, false);
    LimboWithin(s, t, i);
    ReleasedQueues(s, t, i, false, true);
    ReleasedQueues(s, t, i, false, false);
    QueuedUpdate(s.ports, i, t.ports[i]);
    OnePort(s, t, total, i);
  }

  lemma ClearEndKeeps(s: State, total: nat, i: int)
    requires Inv(s, total) && Enabled(s, End(i))
    ensures Inv(ClearEnd(s, i), total)
  {
    hide Queued, Distinct;
    InvPort(s, total, i);
    var t := ClearEnd(s, i);
    assert forall b, r {:trigger Within(t, i, b, r)} :: Within(t, i, b, r) == Within(s, i, b, r);
    EndQueue(s, i, true);
    EndQueue(s, i, false);
    WaitersGone(s, i);
    QueuedUpdate(s.ports, i, t.ports[i]);
    OnePort(s, t, total, i);
  }

  lemma EndQueue(s: State, i: int, b: bool)
    requires Enabled(s, End(i)) && SemsHold(s, i)
    ensures QueueHolds(ClearEnd(s, i), i, b)
  {
    QueueDistinct(s, i, b);
    forall p
      ensures p in Waiters(SemOf(s.ports[i], b)) <==>
                p in s.calls && s.calls[p].port == i && Sends(s.calls[p]) == b && !s.calls[p].released
    {
      QueueMember(s, i, b, p);
    }
  }

  lemma WaitersGone(s: State, i: int)
    requires Enabled(s, End(i)) && PortOk(s, i)
    ensures forall q {:trigger s.calls[q]} :: q in s.calls && s.calls[q].port == i ==> s.calls[q].released
  {
    forall q | q in s.calls && s.calls[q].port == i ensures s.calls[q].released {
      QueueMember(s, i, Sends(s.calls[q]), q);
    }
  }

  /** Every step of every process keeps the invariant. */
  lemma NextKeeps(s: State, total: nat, a: Step)
    requires Inv(s, total) && Enabled(s, a)
    ensures Inv(Next(s, total, a), total)
  {
    hide Inv, SendStart, RecvStart, SendResume, RecvResume, Create, ClearStart, ClearMiddle, ClearEnd;
    match a
    case Start(q, port, Sender(msg)) => SendStartKeeps(s, total, q, port, msg);
    case Start(q, port, Receiver) => RecvStartKeeps(s, total, q, port);
    case Resume(q) => ResumeKeeps(s, total, q);
    case New(port, count, b, c) => CreateKeeps(s, total, port, count, b, c);
    case Clear(port, renew) => ClearStartKeeps(s, total, port, renew);
    case Middle(port) => ClearMiddleKeeps(s, total, port);
    case End(port) => ClearEndKeeps(s, total, port);
  }
}
