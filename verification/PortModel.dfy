/** Message ports over values. A process that has to wait inside ptsend or ptrecv goes on later, so
    a call is two steps: it starts, and if it had to wait it resumes after its semaphore has
    released it. Clearing a port is three steps, because both semaphore calls can switch to the
    processes they release. */
module PortModel {
  import opened Common

  const NPORTS := 30

  /** A semaphore of the kernel: waiters are released in order of arrival. */
  datatype Sem = Sem(count: int, queue: seq<int>)

  /** Which message a sender brings, or that the caller wants one. */
  datatype Role = Sender(msg: int) | Receiver

  /** A process inside a call: the sequence number it has noted, and whether it has been released. */
  datatype Call = Call(port: int, seqno: int, role: Role, released: bool)

  /** In limbo `step` counts the steps of clearing done so far. */
  datatype PState = PFree | Limbo(step: int, renew: bool) | Alloc

  /** sent and received are the history since the sequence number last changed; room is what the
      sender semaphore was last set to. A semaphore is None if there was none to be had. */
  datatype Port = Port(
    state: PState, ssem: Option<Sem>, rsem: Option<Sem>, maxcnt: nat, seqno: int, queue: seq<int>,
    room: nat, sent: seq<int>, received: seq<int>)

  datatype State = State(ports: seq<Port>, free: int, calls: map<int, Call>)

  // ------------------------------------------------------------ semaphores and calls

  predicate SemShape(m: Sem) {
    |m.queue| == if m.count < 0 then -m.count else 0
  }

  /** Tokens that a process can take without waiting. */
  function Tokens(o: Option<Sem>): (n: nat) {
    if o.Some? && o.value.count > 0 then o.value.count else 0
  }

  function Waiters(o: Option<Sem>): (q: seq<int>) {
    if o.Some? then o.value.queue else []
  }

  function SemOf(p: Port, sends: bool): (o: Option<Sem>) {
    if sends then p.ssem else p.rsem
  }

  predicate Sends(c: Call) { c.role.Sender? }

  /** The processes in a call on port i that has noted the current number, by role and release. */
  ghost function Within(s: State, i: int, sends: bool, released: bool): (r: set<int>)
    requires 0 <= i < |s.ports|
  {
    set p | p in s.calls && s.calls[p].port == i && s.calls[p].seqno == s.ports[i].seqno && Sends(s.calls[p]) == sends && s.calls[p].released == released
  }

  // ------------------------------------------------------------ invariants

  /** The processes on a semaphore's queue are those that wait in a call on its port. */
  ghost predicate QueueHolds(s: State, i: int, sends: bool)
    requires 0 <= i < |s.ports|
  {
    var q := Waiters(SemOf(s.ports[i], sends));
    && Distinct(q)
    && (forall p {:trigger p in q} :: p in q <==>
          p in s.calls && s.calls[p].port == i && Sends(s.calls[p]) == sends && !s.calls[p].released)
  }

  ghost predicate SemsHold(s: State, i: int)
    requires 0 <= i < |s.ports|
  {
    var p := s.ports[i];
    && (p.ssem.Some? ==> SemShape(p.ssem.value)) && (p.rsem.Some? ==> SemShape(p.rsem.value))
    && QueueHolds(s, i, true) && QueueHolds(s, i, false)
  }

  /** The protocol on an allocated port. Each unit of room is a token of the sender semaphore, is
      in the hands of a released sender, or is a queued message; and each queued message is a token
      of the receiver semaphore or is promised to a released receiver. */
  ghost predicate Balanced(s: State, i: int)
    requires 0 <= i < |s.ports|
  {
    var p := s.ports[i];
    p.state == Alloc ==>
      && |p.queue| + Tokens(p.ssem) + |Within(s, i, true, true)| == (if p.ssem.Some? then p.room else 0)
      && (p.rsem.Some? ==> |p.queue| == Tokens(p.rsem) + |Within(s, i, false, true)|)
      && (p.rsem.None? ==> Within(s, i, false, true) == {})
      && p.sent == p.received + p.queue
      && (forall q {:trigger s.calls[q]} :: q in s.calls && s.calls[q].port == i && !s.calls[q].released ==> s.calls[q].seqno == p.seqno)
  }

  /** A port being cleared holds no messages and the semaphores cleared so far release everyone. */
  ghost predicate Clearing(s: State, i: int)
    requires 0 <= i < |s.ports|
  {
    var p := s.ports[i];
    match p.state
    case Alloc => true
    case PFree => p.queue == [] && p.ssem == None && p.rsem == None
    case Limbo(step, renew) =>
      && 1 <= step <= 2 && p.queue == [] && p.sent == p.received == []
      && Within(s, i, true, true) == Within(s, i, true, false) == Within(s, i, false, true) == Within(s, i, false, false) == {}
      && (p.ssem.Some? ==> renew && p.ssem.value == Sem(p.maxcnt, [])) && p.room == p.maxcnt
      && (step == 2 && p.rsem.Some? ==> renew && p.rsem.value == Sem(0, []))
  }

  ghost predicate CallsKnown(s: State) {
    forall p {:trigger s.calls[p]} :: p in s.calls ==> 0 <= s.calls[p].port < |s.ports| && s.calls[p].seqno <= s.ports[s.calls[p].port].seqno
  }

  function Queued(ports: seq<Port>): (n: nat) {
    if |ports| == 0 then 0 else Queued(ports[..|ports| - 1]) + |ports[|ports| - 1].queue|
  }

  ghost predicate PortOk(s: State, i: int)
    requires 0 <= i < |s.ports|
  {
    SemsHold(s, i) && Balanced(s, i) && Clearing(s, i)
  }

  /** total is the number of message nodes. */
  ghost predicate Inv(s: State, total: nat) {
    && |s.ports| == NPORTS && CallsKnown(s)
    && (forall i {:trigger PortOk(s, i)} :: 0 <= i < NPORTS ==> PortOk(s, i))
    && s.free >= 0 && s.free + Queued(s.ports) == total
  }

  // ------------------------------------------------------------ steps

  function WithPort(s: State, i: int, p: Port): (t: State)
    requires 0 <= i < |s.ports|
  {
    s.(ports := s.ports[i := p])
  }

  predicate Usable(s: State, i: int) {
    0 <= i < |s.ports| && s.ports[i].state == Alloc
  }

  function Without(calls: map<int, Call>, p: int): (r: map<int, Call>) {
    map q | q in calls && q != p :: calls[q]
  }

  /** signal: the first waiter, if any, is released and will resume later. */
  function Signalled(calls: map<int, Call>, o: Option<Sem>): (r: (map<int, Call>, Option<Sem>)) {
    if o.None? then (calls, o)
    else if o.value.count < 0 && |o.value.queue| > 0 && o.value.queue[0] in calls then
      (calls[o.value.queue[0] := calls[o.value.queue[0]].(released := true)], Some(Sem(o.value.count + 1, o.value.queue[1..])))
    else (calls, Some(o.value.(count := o.value.count + 1)))
  }

  /** The part of ptsend after the token: take a node, queue the message, signal the receivers. */
  function Put(s: State, i: int, msg: int): (t: State)
    requires 0 <= i < |s.ports|
  {
    var p := s.ports[i];
    var (calls, rsem) := Signalled(s.calls, p.rsem);
    State(s.ports[i := p.(queue := p.queue + [msg], sent := p.sent + [msg], rsem := rsem)], s.free - 1, calls)
  }

  /** The part of ptrecv after the token: take the first message, free its node, signal the senders. */
  function Get(s: State, i: int): (t: State)
    requires 0 <= i < |s.ports| && |s.ports[i].queue| > 0
  {
    var p := s.ports[i];
    var (calls, ssem) := Signalled(s.calls, p.ssem);
    State(s.ports[i := p.(queue := p.queue[1..], received := p.received + [p.queue[0]], ssem := ssem)], s.free + 1, calls)
  }

  /** wait by process q inside a call, when the count leaves it no token. */
  function Blocked(s: State, q: int, i: int, role: Role): (t: State)
    requires 0 <= i < |s.ports|
  {
    var p := s.ports[i];
    var c := Call(i, p.seqno, role, false);
    if role.Sender? then
      if p.ssem.None? then s else State(s.ports[i := p.(ssem := Some(Sem(p.ssem.value.count - 1, p.ssem.value.queue + [q])))], s.free, s.calls[q := c])
    else
      if p.rsem.None? then s else State(s.ports[i := p.(rsem := Some(Sem(p.rsem.value.count - 1, p.rsem.value.queue + [q])))], s.free, s.calls[q := c])
  }

  /** wait that takes a token. */
  function TokenTaken(s: State, i: int, sends: bool): (t: State)
    requires 0 <= i < |s.ports|
  {
    var p := s.ports[i];
    if sends then
      if p.ssem.None? then s else WithPort(s, i, p.(ssem := Some(p.ssem.value.(count := p.ssem.value.count - 1))))
    else
      if p.rsem.None? then s else WithPort(s, i, p.(rsem := Some(p.rsem.value.(count := p.rsem.value.count - 1))))
  }

  /** ptsend by process q, until it returns or has to wait. */
  function SendStart(s: State, q: int, i: int, msg: int): (t: State) {
    if !Usable(s, i) || s.ports[i].ssem.None? then s
    else if Tokens(s.ports[i].ssem) == 0 then Blocked(s, q, i, Sender(msg))
    else Put(TokenTaken(s, i, true), i, msg)
  }

  /** The rest of ptsend: the port must still be allocated under the same number. */
  function SendResume(s: State, q: int): (t: State)
    requires q in s.calls && s.calls[q].role.Sender?
  {
    var c := s.calls[q];
    var t := s.(calls := Without(s.calls, q));
    if Current(s, c) then Put(t, c.port, c.role.msg) else t
  }

  /** What both calls verify when they go on. */
  predicate Current(s: State, c: Call) {
    Usable(s, c.port) && s.ports[c.port].seqno == c.seqno
  }

  ghost function RecvStart(s: State, q: int, i: int): (t: State)
    requires Usable(s, i) && Tokens(s.ports[i].rsem) > 0 ==> |s.ports[i].queue| > 0
  {
    if !Usable(s, i) || s.ports[i].rsem.None? then s
    else if Tokens(s.ports[i].rsem) == 0 then Blocked(s, q, i, Receiver)
    else Get(TokenTaken(s, i, false), i)
  }

  ghost function RecvResume(s: State, q: int): (t: State)
    requires q in s.calls && s.calls[q].role.Receiver?
    requires Current(s, s.calls[q]) ==> |s.ports[s.calls[q].port].queue| > 0
  {
    var c := s.calls[q];
    var t := s.(calls := Without(s.calls, q));
    if Current(s, c) then Get(t, c.port) else t
  }

  /** ptcreate once it has found port i free; the flags say whether semcreate found an entry. */
  function Create(s: State, i: int, count: nat, ssemOk: bool, rsemOk: bool): (t: State)
    requires 0 <= i < |s.ports|
  {
    WithPort(s, i, Port(Alloc, if ssemOk then Some(Sem(count, [])) else None, if rsemOk then Some(Sem(0, [])) else None,
                        count % 65536, s.ports[i].seqno + 1, [], count, [], []))
  }

  /** Everyone waiting in a call of this kind on port i is released. */
  function AllReleased(calls: map<int, Call>, i: int, sends: bool): (r: map<int, Call>) {
    map q | q in calls :: if calls[q].port == i && Sends(calls[q]) == sends then calls[q].(released := true) else calls[q]
  }

  /** ptreset (renew) or ptdelete up to the end of the first semaphore call. */
  function ClearStart(s: State, i: int, renew: bool): (t: State) {
    if !Usable(s, i) then s else
      var p := s.ports[i];
      var ssem := if renew && p.ssem.Some? then Some(Sem(p.maxcnt, [])) else None;
      State(s.ports[i := p.(state := Limbo(1, renew), seqno := p.seqno + 1, queue := [], sent := [], received := [], ssem := ssem, room := p.maxcnt)],
            s.free + |p.queue|, AllReleased(s.calls, i, true))
  }

  /** The second semaphore call. */
  function ClearMiddle(s: State, i: int): (t: State)
    requires 0 <= i < |s.ports| && s.ports[i].state.Limbo? && s.ports[i].state.step == 1
  {
    var p := s.ports[i];
    var rsem := if p.state.renew && p.rsem.Some? then Some(Sem(0, [])) else None;
    State(s.ports[i := p.(state := Limbo(2, p.state.renew), rsem := rsem)], s.free, AllReleased(s.calls, i, false))
  }

  /** The new state. */
  function ClearEnd(s: State, i: int): (t: State)
    requires 0 <= i < |s.ports| && s.ports[i].state.Limbo? && s.ports[i].state.step == 2
  {
    WithPort(s, i, s.ports[i].(state := if s.ports[i].state.renew then Alloc else PFree))
  }
}
