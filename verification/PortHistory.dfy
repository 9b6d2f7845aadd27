/** What callers send and what callers get, told by the calls alone, over every interleaving; and the order in
    which those who wait go on. */
module PortHistory {
  import opened Common
  import opened PortModel
  import opened PortSteps
  import opened PortRuns
  import opened PortProperties

  // ------------------------------------------------------------ the messages

  /** What a process has called for: a port, and a message to send or the wish to get one. */
  datatype Ask = Ask(port: int, role: Role)

  /** The last call that each process has begun. */
  function Asked(asks: map<int, Ask>, a: Step): (r: map<int, Ask>) {
    if a.Start? then asks[a.q := Ask(a.port, a.role)] else asks
  }

  /** The call on port i that goes through in this step: one that finds a token, or one that had to wait and
      goes on while the port still has the number it had. */
  function Through(s: State, a: Step, asks: map<int, Ask>, i: int): (r: Option<Role>) {
    match a
    case Start(q, port, role) => if port == i && Usable(s, i) && Tokens(SemOf(s.ports[i], role.Sender?)) > 0 then Some(role) else None
    case Resume(q) => if q in asks && asks[q].port == i && q in s.calls && Current(s, s.calls[q]) then Some(asks[q].role) else None
    case _ => None
  }

  /** The number of port i changes. */
  predicate Renumbers(s: State, a: Step, i: int) {
    (a.New? && a.port == i) || (a.Clear? && a.port == i && Usable(s, i))
  }

  /** One more send on port i. */
  function MoreSent(s: State, a: Step, asks: map<int, Ask>, i: int, before: seq<int>): (ms: seq<int>) {
    if Renumbers(s, a, i) then []
    else match Through(s, a, asks, i)
      case Some(Sender(m)) => before + [m]
      case _ => before
  }

  /** One more message got on port i: ptrecv returns the first that is queued. */
  function MoreGot(s: State, a: Step, asks: map<int, Ask>, i: int, before: seq<int>): (ms: seq<int>) {
    if Renumbers(s, a, i) then []
    else if Through(s, a, asks, i) == Some(Receiver) && 0 <= i < |s.ports| && |s.ports[i].queue| > 0 then before + [s.ports[i].queue[0]]
    else before
  }

  /** The arguments of the sends on port i that have gone through since its number last changed, in order. */
  ghost function SentBy(s: State, total: nat, steps: seq<Step>, asks: map<int, Ask>, i: int, before: seq<int>): (ms: seq<int>)
    requires Inv(s, total) && Legal(s, total, steps)
    decreases |steps|
  {
    if |steps| == 0 then before else
      NextKeeps(s, total, steps[0]);
      SentBy(Next(s, total, steps[0]), total, steps[1..], Asked(asks, steps[0]), i, MoreSent(s, steps[0], asks, i, before))
  }

  /** The messages that receivers have got on port i since then, in order. */
  ghost function GotBy(s: State, total: nat, steps: seq<Step>, asks: map<int, Ask>, i: int, before: seq<int>): (ms: seq<int>)
    requires Inv(s, total) && Legal(s, total, steps)
    decreases |steps|
  {
    if |steps| == 0 then before else
      NextKeeps(s, total, steps[0]);
      GotBy(Next(s, total, steps[0]), total, steps[1..], Asked(asks, steps[0]), i, MoreGot(s, steps[0], asks, i, before))
  }

  /** Every process inside a call has asked for what its entry says. */
  ghost predicate AsksKnown(s: State, asks: map<int, Ask>) {
    forall q {:trigger s.calls[q]} :: q in s.calls ==> q in asks && asks[q] == Ask(s.calls[q].port, s.calls[q].role)
  }

  /** The calls of t are those of s, but for one that process p has just begun, if so. */
  ghost predicate CallsFrom(s: State, t: State, p: int, new': Option<Ask>) {
    forall q {:trigger t.calls[q]} :: q in t.calls ==>
      if new'.Some? && q == p then Ask(t.calls[q].port, t.calls[q].role) == new'.value
      else q in s.calls && Ask(t.calls[q].port, t.calls[q].role) == Ask(s.calls[q].port, s.calls[q].role)
  }

  lemma SignalledFrom(calls: map<int, Call>, o: Option<Sem>)
    ensures var r := Signalled(calls, o).0;
            forall q {:trigger r[q]} :: q in r ==> q in calls && r[q].port == calls[q].port && r[q].role == calls[q].role
  {
  }

  lemma PutFrom(s: State, t: State, i: int, msg: int)
    requires 0 <= i < |t.ports| && CallsFrom(s, t, 0, None)
    ensures CallsFrom(s, Put(t, i, msg), 0, None)
  {
    hide Signalled;
    SignalledFrom(t.calls, t.ports[i].rsem);
  }

  lemma GetFrom(s: State, t: State, i: int)
    requires 0 <= i < |t.ports| && |t.ports[i].queue| > 0 && CallsFrom(s, t, 0, None)
    ensures CallsFrom(s, Get(t, i), 0, None)
  {
    hide Signalled;
    SignalledFrom(t.calls, t.ports[i].ssem);
  }

  lemma CallsAfter(s: State, total: nat, a: Step)
    requires Inv(s, total) && Enabled(s, a)
    ensures CallsFrom(s, Next(s, total, a), if a.Start? then a.q else 0, if a.Start? then Some(Ask(a.port, a.role)) else None)
  {
    hide PortOk, CallsKnown, Queued, Put, Get, CallsFrom;
    match a
    case Start(p, port, role) => StartFrom(s, total, p, port, role);
    case Resume(p) =>
      var u := s.(calls := Without(s.calls, p));
      DroppedFrom(s, p);
      if Current(s, s.calls[p]) {
        MessageThere(s, total, s.calls[p].port);
        if s.calls[p].role.Sender? { PutFrom(s, u, s.calls[p].port, s.calls[p].role.msg); } else { GetFrom(s, u, s.calls[p].port); }
      }
    case _ => ClearedFrom(s, total, a);
  }

  lemma DroppedFrom(s: State, p: int)
    ensures CallsFrom(s, s.(calls := Without(s.calls, p)), 0, None)
  {
  }

  lemma ClearedFrom(s: State, total: nat, a: Step)
    requires Inv(s, total) && Enabled(s, a) && !a.Start? && !a.Resume?
    ensures CallsFrom(s, Next(s, total, a), 0, None)
  {
    hide PortOk, CallsKnown, Queued;
  }

  lemma NotBegun(s: State, t: State, p: int, ask: Ask)
    requires CallsFrom(s, t, 0, None) && p !in s.calls
    ensures CallsFrom(s, t, p, Some(ask))
  {
  }

  lemma BlockedFrom(s: State, p: int, i: int, role: Role)
    requires 0 <= i < |s.ports| && SemOf(s.ports[i], role.Sender?).Some?
    ensures CallsFrom(s, Blocked(s, p, i, role), p, Some(Ask(i, role)))
  {
  }

  lemma StartFrom(s: State, total: nat, p: int, port: int, role: Role)
    requires Inv(s, total) && Enabled(s, Start(p, port, role))
    ensures CallsFrom(s, Next(s, total, Start(p, port, role)), p, Some(Ask(port, role)))
  {
    hide PortOk, CallsKnown, Queued, Put, Get, CallsFrom, Blocked;
    var t := Next(s, total, Start(p, port, role));
    SameFrom(s, s);
    if Usable(s, port) && SemOf(s.ports[port], role.Sender?).Some? {
      if Tokens(SemOf(s.ports[port], role.Sender?)) == 0 {
        BlockedFrom(s, p, port, role);
      } else {
        MessageThere(s, total, port);
        var u := TokenTaken(s, port, role.Sender?);
        SameFrom(s, u);
        if role.Sender? { PutFrom(s, u, port, role.msg); } else { GetFrom(s, u, port); }
        NotBegun(s, t, p, Ask(port, role));
      }
    } else {
      NotBegun(s, s, p, Ask(port, role));
    }
  }

  lemma SameFrom(s: State, t: State)
    requires t.calls == s.calls
    ensures CallsFrom(s, t, 0, None)
  {
  }

  lemma AsksKept(s: State, total: nat, a: Step, asks: map<int, Ask>)
    requires Inv(s, total) && Enabled(s, a) && AsksKnown(s, asks)
    ensures AsksKnown(Next(s, total, a), Asked(asks, a))
  {
    hide Inv, Next, Enabled;
    CallsAfter(s, total, a);
    var t := Next(s, total, a);
    forall q | q in t.calls ensures q in Asked(asks, a) && Asked(asks, a)[q] == Ask(t.calls[q].port, t.calls[q].role) {
      var c := t.calls[q];
    }
  }

  /** The books that the port keeps agree with the calls. */
  lemma HistoryStep(s: State, total: nat, a: Step, asks: map<int, Ask>, i: int)
    requires Inv(s, total) && Enabled(s, a) && AsksKnown(s, asks) && 0 <= i < NPORTS
    ensures |s.ports| == |Next(s, total, a).ports| == NPORTS
    ensures Next(s, total, a).ports[i].sent == MoreSent(s, a, asks, i, s.ports[i].sent)
    ensures Next(s, total, a).ports[i].received == MoreGot(s, a, asks, i, s.ports[i].received)
  {
    hide PortOk, CallsKnown, Queued, AsksKnown;
    match a
    case Start(p, port, role) => StartHistory(s, total, p, port, role, asks, i);
    case Resume(p) => ResumeHistory(s, total, p, asks, i);
    case _ =>
  }

  lemma StartHistory(s: State, total: nat, p: int, port: int, role: Role, asks: map<int, Ask>, i: int)
    requires Inv(s, total) && Enabled(s, Start(p, port, role)) && 0 <= i < NPORTS
    ensures var a := Start(p, port, role); var t := Next(s, total, a);
            && |s.ports| == |t.ports| == NPORTS
            && t.ports[i].sent == MoreSent(s, a, asks, i, s.ports[i].sent) && t.ports[i].received == MoreGot(s, a, asks, i, s.ports[i].received)
  {
    hide PortOk, CallsKnown, Queued, Signalled;
    if Usable(s, port) { MessageThere(s, total, port); }
  }

  lemma ResumeHistory(s: State, total: nat, p: int, asks: map<int, Ask>, i: int)
    requires Inv(s, total) && Enabled(s, Resume(p)) && AsksKnown(s, asks) && 0 <= i < NPORTS
    ensures var a := Resume(p); var t := Next(s, total, a);
            && |s.ports| == |t.ports| == NPORTS
            && t.ports[i].sent == MoreSent(s, a, asks, i, s.ports[i].sent) && t.ports[i].received == MoreGot(s, a, asks, i, s.ports[i].received)
  {
    hide PortOk, CallsKnown, Queued, Signalled, Without;
    if Current(s, s.calls[p]) { MessageThere(s, total, s.calls[p].port); }
  }

  lemma {:induction false} HistoryRun(s: State, total: nat, steps: seq<Step>, asks: map<int, Ask>, i: int)
    requires Inv(s, total) && Legal(s, total, steps) && AsksKnown(s, asks) && 0 <= i < NPORTS && |s.ports| == NPORTS
    ensures Run(s, total, steps).ports[i].sent == SentBy(s, total, steps, asks, i, s.ports[i].sent)
    ensures Run(s, total, steps).ports[i].received == GotBy(s, total, steps, asks, i, s.ports[i].received)
    decreases |steps|
  {
    hide Inv, Next, Enabled, AsksKnown, MoreSent, MoreGot, Asked;
    if |steps| > 0 {
      NextKeeps(s, total, steps[0]);
      AsksKept(s, total, steps[0], asks);
      HistoryStep(s, total, steps[0], asks, i);
      HistoryRun(Next(s, total, steps[0]), total, steps[1..], Asked(asks, steps[0]), i);
    }
  }

  /** First in, first out, told by the calls alone: in every run from the first state, what has been got on an
      allocated port and then what is queued in it is what was sent to it, in order, since its number last
      changed. */
  lemma FirstInFirstOut(total: nat, steps: seq<Step>, i: int)
    requires Inv(Init(total), total) && Legal(Init(total), total, steps) && 0 <= i < NPORTS
    ensures var t := Run(Init(total), total, steps);
            |t.ports| == NPORTS && (t.ports[i].state == Alloc ==>
              SentBy(Init(total), total, steps, map[], i, []) == GotBy(Init(total), total, steps, map[], i, []) + t.ports[i].queue)
  {
    hide Inv, Run, Legal, PortOk, SentBy, GotBy;
    InitHistory(total, i);
    HistoryRun(Init(total), total, steps, map[], i);
    RunPromises(total, steps, i);
    PortsOf(Run(Init(total), total, steps), total);
  }

  lemma InitHistory(total: nat, i: int)
    requires 0 <= i < NPORTS
    ensures AsksKnown(Init(total), map[]) && |Init(total).ports| == NPORTS && Init(total).ports[i].sent == Init(total).ports[i].received == []
  {
  }

  // ------------------------------------------------------------ the turns of those who wait

  /** A process joins at the end, the first one goes, or all go. */
  lemma QueueStep(s: State, total: nat, a: Step, i: int, sends: bool)
    requires Inv(s, total) && Enabled(s, a) && 0 <= i < NPORTS
    ensures |s.ports| == |Next(s, total, a).ports| == NPORTS
    ensures var w, w' := Waiters(SemOf(s.ports[i], sends)), Waiters(SemOf(Next(s, total, a).ports[i], sends));
            w' == w || w' == [] || (|w| > 0 && w' == w[1..]) || (a.Start? && a.port == i && a.role.Sender? == sends && w' == w + [a.q])
  {
    hide PortOk, CallsKnown, Queued;
    match a
    case Start(p, port, role) => if Usable(s, port) { MessageThere(s, total, port); }
    case Resume(p) => if Current(s, s.calls[p]) { MessageThere(s, total, s.calls[p].port); }
    case _ =>
  }

  lemma TurnKept(w: seq<int>, w': seq<int>, p: int, x: int, y: int)
    requires Distinct(w) && Before(w, x, y) && x in w'
    requires w' == w || w' == [] || (|w| > 0 && w' == w[1..]) || w' == w + [p]
    ensures Before(w', x, y)
  {
    var i, j :| 0 <= i < j < |w| && w[i] == x && w[j] == y;
    if w' == w + [p] {
      assert w'[i] == x && w'[j] == y;
    } else if |w| > 0 && w' == w[1..] {
      var m :| 0 <= m < |w'| && w'[m] == x;
      assert w[m + 1] == x;
      assert w'[i - 1] == x && w'[j - 1] == y;
    }
  }

  /** x waits on that semaphore of port i in every state of the run. */
  ghost predicate StaysWaiting(s: State, total: nat, steps: seq<Step>, i: int, sends: bool, x: int)
    requires Inv(s, total) && Legal(s, total, steps)
    decreases |steps|
  {
    && 0 <= i < |s.ports| && x in Waiters(SemOf(s.ports[i], sends))
    && (|steps| == 0 || (NextKeeps(s, total, steps[0]); StaysWaiting(Next(s, total, steps[0]), total, steps[1..], i, sends, x)))
  }

  lemma WaitersDistinct(s: State, total: nat, i: int, sends: bool)
    requires Inv(s, total) && 0 <= i < NPORTS
    ensures |s.ports| == NPORTS && Distinct(Waiters(SemOf(s.ports[i], sends)))
  {
    hide Distinct, Queued, Within;
    InvPort(s, total, i);
    QueueDistinct(s, i, sends);
  }

  /** Senders, and receivers, go on in the order in which they began to wait: over every run, as long as x
      waits, whoever began to wait after it waits behind it. */
  lemma {:induction false} WaitersInTurn(s: State, total: nat, steps: seq<Step>, i: int, sends: bool, x: int, y: int)
    requires Inv(s, total) && Legal(s, total, steps) && 0 <= i < NPORTS && |s.ports| == NPORTS
    requires StaysWaiting(s, total, steps, i, sends, x) && Before(Waiters(SemOf(s.ports[i], sends)), x, y)
    ensures |Run(s, total, steps).ports| == NPORTS && Before(Waiters(SemOf(Run(s, total, steps).ports[i], sends)), x, y)
    decreases |steps|
  {
    hide Inv, Next, Enabled, Before, Waiters, Distinct;
    if |steps| > 0 {
      var t := Next(s, total, steps[0]);
      NextKeeps(s, total, steps[0]);
      QueueStep(s, total, steps[0], i, sends);
      WaitersDistinct(s, total, i, sends);
      WaitsNow(t, total, steps[1..], i, sends, x);
      TurnKept(Waiters(SemOf(s.ports[i], sends)), Waiters(SemOf(t.ports[i], sends)), if steps[0].Start? then steps[0].q else 0, x, y);
      WaitersInTurn(t, total, steps[1..], i, sends, x, y);
    }
  }

  lemma WaitsNow(s: State, total: nat, steps: seq<Step>, i: int, sends: bool, x: int)
    requires Inv(s, total) && Legal(s, total, steps) && StaysWaiting(s, total, steps, i, sends, x)
    ensures 0 <= i < |s.ports| && x in Waiters(SemOf(s.ports[i], sends))
  {
  }

  // ------------------------------------------------------------ the life of a port

  /** Where each step takes a port, and when its number goes up. A port made for count messages has that many
      tokens; one that has been cleared is allocated again after a reset and free after a deletion. */
  lemma LifeStep(s: State, total: nat, a: Step, i: int)
    requires Inv(s, total) && Enabled(s, a) && 0 <= i < NPORTS
    ensures |s.ports| == |Next(s, total, a).ports| == NPORTS
    ensures var p, q := s.ports[i], Next(s, total, a).ports[i];
            && q.state == (match a
                 case New(j, _, _, _) => if j == i then Alloc else p.state
                 case Clear(j, renew) => if j == i && p.state == Alloc then Limbo(1, renew) else p.state
                 case Middle(j) => if j == i then Limbo(2, p.state.renew) else p.state
                 case End(j) => if j == i then (if p.state.renew then Alloc else PFree) else p.state
                 case _ => p.state)
            && q.seqno == p.seqno + (if Renumbers(s, a, i) then 1 else 0)
            && (a.New? && a.port == i ==>
                  q.ssem == (if a.ssemOk then Some(Sem(a.count, [])) else None) && q.rsem == if a.rsemOk then Some(Sem(0, [])) else None)
  {
    hide PortOk, CallsKnown, Queued;
    match a
    case Start(p, port, role) => if Usable(s, port) { MessageThere(s, total, port); }
    case Resume(p) => if Current(s, s.calls[p]) { MessageThere(s, total, s.calls[p].port); }
    case _ =>
  }
}
