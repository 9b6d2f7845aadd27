/** Message ports with their table and node lists in memory. Each method takes the step of the model;
    a process that has to wait inside a call is represented by its ghost entry in the calls. */
module Ports {
  import opened Common
  import opened PortModel
  import opened PortSteps
  import opened PortRuns
  import opened PortProperties
  import opened PortNodes

  datatype PtState = PT_FREE | PT_LIMBO | PT_ALLOC

  datatype PtEntry = PtEntry(
    ptssem: Option<Sem>, ptrsem: Option<Sem>, ptstate: PtState, ptmaxcnt: nat, ptseq: int, pthead: int, pttail: int)

  function StateOf(st: PState): (r: PtState) {
    match st
    case PFree => PT_FREE
    case Limbo(step, renew) => PT_LIMBO
    case Alloc => PT_ALLOC
  }

  /** The list of a port is in use, or has been emptied for further use. */
  predicate Listed(p: Port) {
    p.state == Alloc || (p.state.Limbo? && p.state.renew)
  }

  /** A table entry, its list of nodes and the port they stand for. */
  ghost predicate EntryOk(e: PtEntry, p: Port, nodes: seq<PtNode>, l: seq<int>) {
    && e.ptssem == p.ssem && e.ptrsem == p.rsem && e.ptstate == StateOf(p.state) && e.ptmaxcnt == p.maxcnt && e.ptseq == p.seqno
    && Chain(nodes, l) && Carries(nodes, l, p.queue)
    && (Listed(p) ==> e.pthead == First(l) && e.pttail == Last(l))
  }

  /** The table and the node lists stand for these ports. */
  ghost predicate Stands(table: seq<PtEntry>, nodes: seq<PtNode>, free: seq<int>, chains: seq<seq<int>>, ports: seq<Port>) {
    && |table| == |ports| == |chains| == NPORTS && Chain(nodes, free) && Separate(free, chains)
    && (forall i {:trigger chains[i]} :: 0 <= i < NPORTS ==> EntryOk(table[i], ports[i], nodes, chains[i]))
  }

  lemma StandsAt(table: seq<PtEntry>, nodes: seq<PtNode>, free: seq<int>, chains: seq<seq<int>>, ports: seq<Port>, i: int)
    requires Stands(table, nodes, free, chains, ports) && 0 <= i < NPORTS
    ensures |table| == |ports| == |chains| == NPORTS && Chain(nodes, free) && Separate(free, chains)
    ensures EntryOk(table[i], ports[i], nodes, chains[i])
  {
  }

  /** Entry i, its list and the free list change; nodes of other lists do not. */
  lemma StandsChanged(table: seq<PtEntry>, nodes: seq<PtNode>, free: seq<int>, chains: seq<seq<int>>, ports: seq<Port>,
                      i: int, e: PtEntry, nodes': seq<PtNode>, free': seq<int>, l: seq<int>, p: Port)
    requires Stands(table, nodes, free, chains, ports) && 0 <= i < NPORTS && |nodes'| == |nodes|
    requires forall j, y {:trigger y in chains[j]} :: 0 <= j < NPORTS && j != i && y in chains[j] && 0 <= y < |nodes| ==> nodes'[y] == nodes[y]
    requires EntryOk(e, p, nodes', l) && Chain(nodes', free') && Separate(free', chains[i := l])
    ensures Stands(table[i := e], nodes', free', chains[i := l], ports[i := p])
  {
    hide Chain, Carries, Separate;
    forall j | 0 <= j < NPORTS && j != i ensures EntryOk(table[j], ports[j], nodes', chains[j]) {
      assert EntryOk(table[j], ports[j], nodes, chains[j]);
      ChainFrame(nodes, nodes', chains[j], ports[j].queue);
    }
  }

  /** The nodes after the first free one has been filled and linked in behind the last of l. */
  function NodesAfterPut(nodes: seq<PtNode>, l: seq<int>, x: int, msg: int): (r: seq<PtNode>)
    requires 0 <= x < |nodes| && (|l| > 0 ==> 0 <= Last(l) < |nodes|)
  {
    var filled := nodes[x := PtNode(msg, NULL)];
    if |l| == 0 then filled else filled[Last(l) := filled[Last(l)].(ptnext := x)]
  }

  lemma PutStands(table: seq<PtEntry>, nodes: seq<PtNode>, free: seq<int>, chains: seq<seq<int>>, ports: seq<Port>, i: int, msg: int, e: PtEntry, p: Port)
    requires Stands(table, nodes, free, chains, ports) && 0 <= i < NPORTS && |free| > 0 && Listed(ports[i])
    requires p.queue == ports[i].queue + [msg] && p.state == ports[i].state && p.maxcnt == ports[i].maxcnt && p.seqno == ports[i].seqno
    requires e == table[i].(ptssem := p.ssem, ptrsem := p.rsem, pthead := if |chains[i]| == 0 then free[0] else table[i].pthead, pttail := free[0])
    ensures 0 <= free[0] < |nodes| && (|chains[i]| > 0 ==> 0 <= Last(chains[i]) < |nodes|) && nodes[free[0]].ptnext == First(free[1..])
    ensures Stands(table[i := e], NodesAfterPut(nodes, chains[i], free[0], msg), free[1..], chains[i := chains[i] + [free[0]]], ports[i := p])
  {
    hide Distinct, Carries, Chain, InRange, Separate, Stands;
    StandsAt(table, nodes, free, chains, ports, i);
    var l, x := chains[i], free[0];
    EndsIn(nodes, free);
    EndsIn(nodes, l);
    TailChain(nodes, free);
    SeparateDeposit(free, chains, i);
    var filled := nodes[x := PtNode(msg, NULL)];
    ChainFrame(nodes, filled, l, ports[i].queue);
    AppendChain(filled, l, ports[i].queue, x, msg);
    var nodes' := NodesAfterPut(nodes, l, x, msg);
    FreeFrame(nodes, nodes', free[1..]);
    AppendEnds(l, x);
    StandsChanged(table, nodes, free, chains, ports, i, e, nodes', free[1..], l + [x], p);
  }

  lemma AppendEnds(l: seq<int>, x: int)
    ensures First(l + [x]) == (if |l| == 0 then x else First(l)) && Last(l + [x]) == x
  {
  }

  lemma GetStands(table: seq<PtEntry>, nodes: seq<PtNode>, free: seq<int>, chains: seq<seq<int>>, ports: seq<Port>, i: int, e: PtEntry, p: Port)
    requires Stands(table, nodes, free, chains, ports) && 0 <= i < NPORTS && |chains[i]| > 0 && Listed(ports[i]) && |ports[i].queue| > 0
    requires p.queue == ports[i].queue[1..] && p.state == ports[i].state && p.maxcnt == ports[i].maxcnt && p.seqno == ports[i].seqno
    requires 0 <= chains[i][0] < |nodes|
    requires e == table[i].(ptssem := p.ssem, ptrsem := p.rsem, pthead := First(chains[i][1..]), pttail := Last(chains[i][1..]))
    ensures Stands(table[i := e], nodes[chains[i][0] := nodes[chains[i][0]].(ptnext := First(free))], [chains[i][0]] + free,
                   chains[i := chains[i][1..]], ports[i := p])
  {
    hide Distinct, Carries, Chain, InRange, Separate, Stands;
    StandsAt(table, nodes, free, chains, ports, i);
    var l, x := chains[i], chains[i][0];
    TailChain(nodes, l);
    TailCarries(nodes, l, ports[i].queue);
    SeparateWithdraw(free, chains, i);
    var nodes' := nodes[x := nodes[x].(ptnext := First(free))];
    PushChain(nodes, free, x);
    ChainFrame(nodes, nodes', l[1..], p.queue);
    StandsChanged(table, nodes, free, chains, ports, i, e, nodes', [x] + free, l[1..], p);
  }

  /** The free list after a port's whole list has been linked in front of it. */
  function NodesAfterClear(nodes: seq<PtNode>, free: seq<int>, l: seq<int>): (r: seq<PtNode>)
    requires |l| > 0 ==> 0 <= Last(l) < |nodes|
  {
    if |l| == 0 then nodes else nodes[Last(l) := nodes[Last(l)].(ptnext := First(free))]
  }

  lemma ClearStands(table: seq<PtEntry>, nodes: seq<PtNode>, free: seq<int>, chains: seq<seq<int>>, ports: seq<Port>, i: int, e: PtEntry, p: Port)
    requires Stands(table, nodes, free, chains, ports) && 0 <= i < NPORTS && p.queue == []
    requires e.ptssem == p.ssem && e.ptrsem == p.rsem && e.ptstate == StateOf(p.state) && e.ptmaxcnt == p.maxcnt && e.ptseq == p.seqno
    requires Listed(p) ==> e.pthead == e.pttail == NULL
    requires |chains[i]| > 0 ==> 0 <= Last(chains[i]) < |nodes|
    ensures Stands(table[i := e], NodesAfterClear(nodes, free, chains[i]), chains[i] + free, chains[i := []], ports[i := p])
  {
    hide Distinct, InRange, Separate, Stands, Apart;
    StandsAt(table, nodes, free, chains, ports, i);
    var l := chains[i];
    EndsIn(nodes, l);
    SeparateClear(free, chains, i);
    var nodes' := NodesAfterClear(nodes, free, l);
    if |l| > 0 {
      JoinChain(nodes, l, free);
    } else {
      assert l + free == free;
    }
    EmptyChain(nodes');
    StandsChanged(table, nodes, free, chains, ports, i, e, nodes', l + free, [], p);
  }

  lemma EmptyChain(nodes: seq<PtNode>)
    ensures Chain(nodes, []) && Carries(nodes, [], [])
  {
  }

  /** Only what the entry says besides its list changes. */
  lemma EntryStands(table: seq<PtEntry>, nodes: seq<PtNode>, free: seq<int>, chains: seq<seq<int>>, ports: seq<Port>, i: int, e: PtEntry, p: Port)
    requires Stands(table, nodes, free, chains, ports) && 0 <= i < NPORTS && p.queue == ports[i].queue
    requires e.ptssem == p.ssem && e.ptrsem == p.rsem && e.ptstate == StateOf(p.state) && e.ptmaxcnt == p.maxcnt && e.ptseq == p.seqno
    requires Listed(p) ==> e.pthead == First(chains[i]) && e.pttail == Last(chains[i])
    ensures Stands(table[i := e], nodes, free, chains, ports[i := p])
  {
    hide Chain, Carries, Separate;
    StandsAt(table, nodes, free, chains, ports, i);
    assert chains[i := chains[i]] == chains;
    StandsChanged(table, nodes, free, chains, ports, i, e, nodes, free, chains[i], p);
  }

  class PortTable {
    const porttab: array<PtEntry>
    const ptnodes: array<PtNode>
    var ptfree: int
    var ptnextid: int
    ghost var s: State
    ghost var freeList: seq<int>
    ghost var chains: seq<seq<int>>

    ghost predicate Rep()
      reads this, porttab, ptnodes
    {
      && Stands(porttab[..], ptnodes[..], freeList, chains, s.ports) && porttab.Length == |s.ports| == |chains| == NPORTS
      && 0 <= ptnextid < NPORTS && ptfree == First(freeList) && |freeList| == s.free
    }

    ghost predicate Valid()
      reads this, porttab, ptnodes
    {
      Rep() && Inv(s, ptnodes.Length)
    }

    /** ptinit: all ports free, all nodes linked into the free list. */
    constructor (maxmsgs: nat)
      requires maxmsgs > 0
      ensures Valid() && s == Init(maxmsgs) && ptnodes.Length == maxmsgs
    {
      var table := new PtEntry[NPORTS](_ => PtEntry(None, None, PT_FREE, 0, 0, NULL, NULL));
      var nodes := new PtNode[maxmsgs](_ => PtNode(0, NULL));
      var curr, next := 0, 0;
      var left := maxmsgs - 1;
      while left > 0
        modifies nodes
        invariant 0 <= left && curr == next == maxmsgs - 1 - left
        invariant forall k {:trigger nodes[k]} :: 0 <= k < curr ==> nodes[k].ptnext == k + 1
      {
        next := next + 1;
        nodes[curr] := nodes[curr].(ptnext := next);
        curr := next;
        left := left - 1;
      }
      nodes[curr] := nodes[curr].(ptnext := NULL);
      porttab, ptnodes, ptfree, ptnextid := table, nodes, 0, 0;
      s := Init(maxmsgs);
      freeList := seq(maxmsgs, k => k);
      chains := seq(NPORTS, _ => []);
      new;
      InitInv(maxmsgs);
      InitStands(porttab[..], ptnodes[..], freeList, chains, s.ports);
    }

    lemma InitStands(table: seq<PtEntry>, nodes: seq<PtNode>, free: seq<int>, chains: seq<seq<int>>, ports: seq<Port>)
      requires |table| == |ports| == |chains| == NPORTS && ports == FreePorts(NPORTS) && |free| == |nodes|
      requires forall i {:trigger table[i]} :: 0 <= i < NPORTS ==> table[i] == PtEntry(None, None, PT_FREE, 0, 0, NULL, NULL)
      requires forall k {:trigger nodes[k]} :: 0 <= k < |nodes| ==> nodes[k].ptnext == if k + 1 < |nodes| then k + 1 else NULL
      requires (forall k {:trigger free[k]} :: 0 <= k < |free| ==> free[k] == k) && (forall i {:trigger chains[i]} :: 0 <= i < NPORTS ==> chains[i] == [])
      ensures Stands(table, nodes, free, chains, ports)
    {
      hide Carries;
      EmptyChain(nodes);
      forall i | 0 <= i < NPORTS ensures EntryOk(table[i], ports[i], nodes, chains[i]) {
        assert chains[i] == [] && ports[i] == Port(PFree, None, None, 0, 0, [], 0, [], []);
      }
    }

    /** signal: the first waiter goes, or the count goes up. */
    static method SignalSem(o: Option<Sem>) returns (r: Option<Sem>)
      requires o.Some? && o.value.count < 0 ==> |o.value.queue| > 0
      ensures if o.None? then r == None
              else r == Some(Sem(o.value.count + 1, if o.value.count < 0 then o.value.queue[1..] else o.value.queue))
    {
      if o.None? {
        return None;
      }
      if o.value.count < 0 {
        r := Some(Sem(o.value.count + 1, o.value.queue[1..]));
      } else {
        r := Some(o.value.(count := o.value.count + 1));
      }
    }

    /** The first free node, with the message, behind the last node of a port. */
    method LinkNode(i: int, msg: int, ghost l: seq<int>)
      requires 0 <= i < porttab.Length && 0 <= ptfree < ptnodes.Length && porttab[i].pttail == Last(l)
      requires if |l| == 0 then Last(l) == NULL else 0 <= Last(l) < ptnodes.Length
      modifies this`ptfree, porttab, ptnodes
      ensures ptfree == old(ptnodes[ptfree].ptnext)
      ensures ptnodes[..] == NodesAfterPut(old(ptnodes[..]), l, old(ptfree), msg)
      ensures porttab[..] == old(porttab[..])[i := old(porttab[i]).(pthead := if |l| == 0 then old(ptfree) else old(porttab[i].pthead), pttail := old(ptfree))]
    {
      var msgnode := ptfree;
      ptfree := ptnodes[msgnode].ptnext;
      ptnodes[msgnode] := ptnodes[msgnode].(ptnext := NULL);
      ptnodes[msgnode] := ptnodes[msgnode].(ptmsg := msg);
      var tailnode := porttab[i].pttail;
      if tailnode == NULL {
        porttab[i] := porttab[i].(pthead := msgnode, pttail := msgnode);
      } else {
        ptnodes[tailnode] := ptnodes[tailnode].(ptnext := msgnode);
        porttab[i] := porttab[i].(pttail := msgnode);
      }
    }

    /** ptsend after the token: a node from the free list, onto the end of the port's list. */
    method Deposit(i: int, msg: int)
      requires Rep() && MidCall(s, i, 1, 0) && CallsKnown(s) && s.free > 0
      modifies this`s, this`ptfree, this`freeList, this`chains, porttab, ptnodes
      ensures Rep() && s == Put(old(s), i, msg)
    {
      hide Stands, MidCall, Signalled, EntryOk, Chain, Carries, Separate, SemsHold, Put;
      MidCallParts(s, i, 1, 0);
      ghost var table, nodes, x := porttab[..], ptnodes[..], freeList[0];
      StandsAt(table, nodes, freeList, chains, s.ports, i);
      EntryAt(table[i], s.ports[i], nodes, chains[i]);
      FirstSignals(i, false);
      PutParts(s, i, msg);
      ghost var p := Put(s, i, msg).ports[i];
      PutStands(table, nodes, freeList, chains, s.ports, i, msg,
                table[i].(ptrsem := p.rsem, pthead := if |chains[i]| == 0 then x else table[i].pthead, pttail := x), p);
      LinkNode(i, msg, chains[i]);
      var rsem := SignalSem(porttab[i].ptrsem);
      porttab[i] := porttab[i].(ptrsem := rsem);
      assert porttab[..] == table[i := porttab[i]];
      s := Put(s, i, msg);
      freeList, chains := freeList[1..], chains[i := chains[i] + [x]];
    }

    lemma EntryAt(e: PtEntry, p: Port, nodes: seq<PtNode>, l: seq<int>)
      requires EntryOk(e, p, nodes, l)
      ensures e.ptssem == p.ssem && e.ptrsem == p.rsem && e.ptstate == StateOf(p.state) && e.ptmaxcnt == p.maxcnt && e.ptseq == p.seqno
      ensures Chain(nodes, l) && Carries(nodes, l, p.queue) && |l| == |p.queue|
      ensures Listed(p) ==> e.pthead == First(l) && e.pttail == Last(l)
      ensures if |l| == 0 then First(l) == Last(l) == NULL else 0 <= First(l) < |nodes| && 0 <= Last(l) < |nodes|
    {
      EndsIn(nodes, l);
    }

    lemma MidCallParts(s: State, i: int, d: int, e: int)
      requires MidCall(s, i, d, e)
      ensures 0 <= i < |s.ports| && s.ports[i].state == Alloc && SemsHold(s, i)
    {
    }

    lemma PutParts(s: State, i: int, msg: int)
      requires 0 <= i < |s.ports|
      ensures var p, t := s.ports[i], Put(s, i, msg);
              t.free == s.free - 1
              && t.ports == s.ports[i := p.(queue := p.queue + [msg], sent := p.sent + [msg], rsem := Signalled(s.calls, p.rsem).1)]
    {
    }

    lemma FirstSignals(i: int, sends: bool)
      requires |s.ports| == NPORTS && 0 <= i < NPORTS && SemsHold(s, i)
      ensures var o := SemOf(s.ports[i], sends);
              && (o.Some? && o.value.count < 0 ==> |o.value.queue| > 0)
              && Signalled(s.calls, o).1 == (if o.None? then None else Some(Sem(o.value.count + 1, if o.value.count < 0 then o.value.queue[1..] else o.value.queue)))
    {
      hide QueueHolds;
      FirstWaits(s, i, sends);
    }

    /** ptrecv after the token: the first node of the port's list, back to the free list. */
    method Withdraw(i: int) returns (msg: int)
      requires Rep() && MidCall(s, i, 0, 1) && |s.ports[i].queue| > 0
      modifies this`s, this`ptfree, this`freeList, this`chains, porttab, ptnodes
      ensures Rep() && s == Get(old(s), i) && msg == old(s).ports[i].queue[0]
    {
      hide Stands, MidCall, Signalled, EntryOk, Chain, Carries, Separate, SemsHold, Get;
      MidCallParts(s, i, 0, 1);
      ghost var table, nodes, l := porttab[..], ptnodes[..], chains[i];
      StandsAt(table, nodes, freeList, chains, s.ports, i);
      EntryAt(table[i], s.ports[i], nodes, l);
      TailChain(nodes, l);
      TailCarries(nodes, l, s.ports[i].queue);
      FirstSignals(i, true);
      GetParts(s, i);
      ghost var p := Get(s, i).ports[i];
      GetStands(table, nodes, freeList, chains, s.ports, i, table[i].(ptssem := p.ssem, pthead := First(l[1..]), pttail := Last(l[1..])), p);
      var msgnode := porttab[i].pthead;
      msg := ptnodes[msgnode].ptmsg;
      if porttab[i].pthead == porttab[i].pttail {
        porttab[i] := porttab[i].(pthead := NULL, pttail := NULL);
      } else {
        porttab[i] := porttab[i].(pthead := ptnodes[msgnode].ptnext);
      }
      ptnodes[msgnode] := ptnodes[msgnode].(ptnext := ptfree);
      ptfree := msgnode;
      assert ptnodes[..] == nodes[l[0] := nodes[l[0]].(ptnext := First(freeList))];
      var ssem := SignalSem(porttab[i].ptssem);
      porttab[i] := porttab[i].(ptssem := ssem);
      assert porttab[..] == table[i := porttab[i]];
      s := Get(s, i);
      freeList, chains := [l[0]] + freeList, chains[i := l[1..]];
    }

    lemma GetParts(s: State, i: int)
      requires 0 <= i < |s.ports| && |s.ports[i].queue| > 0
      ensures var p, t := s.ports[i], Get(s, i);
              t.free == s.free + 1
              && t.ports == s.ports[i := p.(queue := p.queue[1..], received := p.received + [p.queue[0]], ssem := Signalled(s.calls, p.ssem).1)]
    {
    }

    /** isbadport, or the port is not allocated. */
    method BadPort(portid: int) returns (bad: bool)
      requires Rep()
      ensures bad <==> !Usable(s, portid)
    {
      hide Stands;
      if portid < 0 || portid >= NPORTS {
        return true;
      }
      StandsAt(porttab[..], ptnodes[..], freeList, chains, s.ports, portid);
      bad := porttab[portid].ptstate != PT_ALLOC;
    }

    /** Write an entry whose list stays as it is. */
    method SetEntry(i: int, e: PtEntry, ghost p: Port)
      requires Rep() && 0 <= i < NPORTS && p.queue == s.ports[i].queue
      requires e.ptssem == p.ssem && e.ptrsem == p.rsem && e.ptstate == StateOf(p.state) && e.ptmaxcnt == p.maxcnt && e.ptseq == p.seqno
      requires Listed(p) ==> e.pthead == First(chains[i]) && e.pttail == Last(chains[i])
      modifies this`s, porttab
      ensures Rep() && s == WithPort(old(s), i, p)
    {
      hide Stands;
      EntryStands(porttab[..], ptnodes[..], freeList, chains, s.ports, i, e, p);
      ghost var table := porttab[..];
      porttab[i] := e;
      assert porttab[..] == table[i := e];
      s := WithPort(s, i, p);
    }

    /** wait on one of a port's semaphores, as the first step of a call: either it takes a token or
        the caller is put on the queue, or there is no such semaphore. */
    method WaitSem(pid: int, i: int, ghost role: Role, sends: bool) returns (ok: bool, blocked: bool)
      requires Rep() && Usable(s, i) && sends == role.Sender? && SemsHold(s, i)
      modifies this`s, porttab
      ensures Rep() && ok == SemOf(old(s).ports[i], sends).Some? && blocked == (ok && Tokens(SemOf(old(s).ports[i], sends)) == 0)
      ensures s == if !ok then old(s) else if blocked then Blocked(old(s), pid, i, role) else TokenTaken(old(s), i, sends)
    {
      hide Stands, Chain, Carries, QueueHolds;
      StandsAt(porttab[..], ptnodes[..], freeList, chains, s.ports, i);
      EntryAt(porttab[..][i], s.ports[i], ptnodes[..], chains[i]);
      var sem := if sends then porttab[i].ptssem else porttab[i].ptrsem;
      if sem.None? {
        return false, false;
      }
      var m := sem.value.(count := sem.value.count - 1);
      blocked := m.count < 0;
      if blocked {
        m := m.(queue := m.queue + [pid]);
      }
      if sends {
        SetEntry(i, porttab[i].(ptssem := Some(m)), s.ports[i].(ssem := Some(m)));
      } else {
        SetEntry(i, porttab[i].(ptrsem := Some(m)), s.ports[i].(rsem := Some(m)));
      }
      if blocked {
        ghost var c := Call(i, s.ports[i].seqno, role, false);
        s := s.(calls := s.calls[pid := c]);
      }
      ok := true;
    }

    /** ptsend by process pid, until it returns or is put to wait. */
    method PtSend(pid: int, portid: int, msg: int) returns (r: int, seqno: int, blocked: bool)
      requires Valid() && Enabled(s, Start(pid, portid, Sender(msg)))
      modifies this`s, this`ptfree, this`freeList, this`chains, porttab, ptnodes
      ensures Valid() && s == SendStart(old(s), pid, portid, msg)
      ensures blocked ==> Usable(old(s), portid) && seqno == old(s).ports[portid].seqno && pid in s.calls && s.calls[pid] == Call(portid, seqno, Sender(msg), false)
      ensures !blocked ==> r == if Usable(old(s), portid) && old(s).ports[portid].ssem.Some? then OK else SYSERR
    {
      hide Inv, Stands, Put, TokenTaken, PortOk, MidCall;
      SendStartKeeps(s, ptnodes.Length, pid, portid, msg);
      r, seqno := SYSERR, 0;
      var bad := BadPort(portid);
      if bad {
        return SYSERR, 0, false;
      }
      ghost var before := s;
      InvPort(s, ptnodes.Length, portid);
      PortSems(s, portid);
      TokenFrame(s, portid, true);
      StandsAt(porttab[..], ptnodes[..], freeList, chains, s.ports, portid);
      seqno := porttab[portid].ptseq;
      var ok;
      ok, blocked := WaitSem(pid, portid, Sender(msg), true);
      if !ok || blocked {
        return;
      }
      TokenBy(before, portid, true);
      Deposit(portid, msg);
      r := OK;
    }

    lemma PortSems(s: State, i: int)
      requires 0 <= i < |s.ports| && PortOk(s, i)
      ensures SemsHold(s, i)
    {
    }

    /** The rest of ptsend, once the process runs again. */
    method PtSendResume(pid: int, portid: int, msg: int, seqno: int) returns (r: int)
      requires Valid() && Enabled(s, Resume(pid)) && s.calls[pid] == Call(portid, seqno, Sender(msg), true)
      modifies this`s, this`ptfree, this`freeList, this`chains, porttab, ptnodes
      ensures Valid() && s == SendResume(old(s), pid) && r == if Current(old(s), old(s).calls[pid]) then OK else SYSERR
    {
      hide Inv, Stands, Put, PortOk, MidCall, Without;
      ResumeKeeps(s, ptnodes.Length, pid);
      KnownPort(s, ptnodes.Length, pid);
      StandsAt(porttab[..], ptnodes[..], freeList, chains, s.ports, portid);
      InvPort(s, ptnodes.Length, portid);
      DropFrame(s, pid);
      ghost var before := s;
      s := s.(calls := Without(s.calls, pid));
      if porttab[portid].ptstate != PT_ALLOC || porttab[portid].ptseq != seqno {
        return SYSERR;
      }
      CallDropped(before, pid);
      Deposit(portid, msg);
      r := OK;
    }

    lemma KnownPort(s: State, total: nat, pid: int)
      requires Inv(s, total) && pid in s.calls
      ensures 0 <= s.calls[pid].port < NPORTS == |s.ports|
    {
    }

    /** ptrecv by process pid, until it returns or is put to wait. */
    method PtRecv(pid: int, portid: int) returns (r: int, seqno: int, blocked: bool)
      requires Valid() && Enabled(s, Start(pid, portid, Receiver))
      modifies this`s, this`ptfree, this`freeList, this`chains, porttab, ptnodes
      ensures Usable(old(s), portid) && Tokens(old(s).ports[portid].rsem) > 0 ==> |old(s).ports[portid].queue| > 0
      ensures Valid() && s == RecvStart(old(s), pid, portid)
      ensures blocked ==> Usable(old(s), portid) && seqno == old(s).ports[portid].seqno && pid in s.calls && s.calls[pid] == Call(portid, seqno, Receiver, false)
      ensures !blocked ==> if Usable(old(s), portid) && old(s).ports[portid].rsem.Some? then |old(s).ports[portid].queue| > 0 && r == old(s).ports[portid].queue[0]
                           else r == SYSERR
    {
      hide Inv, Stands, Get, TokenTaken, PortOk, MidCall;
      RecvStartKeeps(s, ptnodes.Length, pid, portid);
      r, seqno := SYSERR, 0;
      var bad := BadPort(portid);
      if bad {
        return SYSERR, 0, false;
      }
      ghost var before := s;
      InvPort(s, ptnodes.Length, portid);
      PortSems(s, portid);
      TokenFrame(s, portid, false);
      StandsAt(porttab[..], ptnodes[..], freeList, chains, s.ports, portid);
      seqno := porttab[portid].ptseq;
      var ok;
      ok, blocked := WaitSem(pid, portid, Receiver, false);
      if !ok || blocked {
        return;
      }
      TokenBy(before, portid, false);
      r := Withdraw(portid);
    }

    /** The rest of ptrecv, once the process runs again: a message is there if the call is current. */
    method PtRecvResume(pid: int, portid: int, seqno: int) returns (r: int)
      requires Valid() && Enabled(s, Resume(pid)) && s.calls[pid] == Call(portid, seqno, Receiver, true)
      modifies this`s, this`ptfree, this`freeList, this`chains, porttab, ptnodes
      ensures Current(old(s), old(s).calls[pid]) ==> |old(s).ports[portid].queue| > 0
      ensures Valid() && s == RecvResume(old(s), pid)
      ensures r == if Current(old(s), old(s).calls[pid]) then old(s).ports[portid].queue[0] else SYSERR
    {
      hide Inv, Stands, Get, PortOk, MidCall, Without;
      ResumeKeeps(s, ptnodes.Length, pid);
      KnownPort(s, ptnodes.Length, pid);
      StandsAt(porttab[..], ptnodes[..], freeList, chains, s.ports, portid);
      InvPort(s, ptnodes.Length, portid);
      DropFrame(s, pid);
      ghost var before := s;
      s := s.(calls := Without(s.calls, pid));
      if porttab[portid].ptstate != PT_ALLOC || porttab[portid].ptseq != seqno {
        return SYSERR;
      }
      CallDropped(before, pid);
      r := Withdraw(portid);
    }

    /** ptreset (renew) and ptdelete up to the first semaphore call, which may switch to the
        processes it releases. */
    method ClearBegin(portid: int, renew: bool) returns (r: int)
      requires Valid()
      modifies this`s, this`ptfree, this`freeList, this`chains, porttab, ptnodes
      ensures Valid() && s == ClearStart(old(s), portid, renew) && r == if Usable(old(s), portid) then OK else SYSERR
    {
      hide Inv, Stands, Chain, Carries, AllReleased, EntryOk, Separate;
      ClearStartKeeps(s, ptnodes.Length, portid, renew);
      var bad := BadPort(portid);
      if bad {
        return SYSERR;
      }
      var i := portid;
      ghost var table, nodes, l := porttab[..], ptnodes[..], chains[i];
      StandsAt(table, nodes, freeList, chains, s.ports, i);
      EntryAt(table[i], s.ports[i], nodes, l);
      porttab[i] := porttab[i].(ptstate := PT_LIMBO);
      porttab[i] := porttab[i].(ptseq := porttab[i].ptseq + 1);
      if porttab[i].pthead != NULL {
        var last := porttab[i].pttail;
        ptnodes[last] := ptnodes[last].(ptnext := ptfree);
        ptfree := porttab[i].pthead;
      }
      assert ptnodes[..] == NodesAfterClear(nodes, freeList, l);
      if renew {
        porttab[i] := porttab[i].(pthead := NULL, pttail := NULL);
        var cleared := if porttab[i].ptssem.Some? then Some(Sem(porttab[i].ptmaxcnt, [])) else None;
        porttab[i] := porttab[i].(ptssem := cleared);
      } else {
        porttab[i] := porttab[i].(ptssem := None);
      }
      ghost var p := ClearStart(s, i, renew).ports[i];
      ClearStands(table, nodes, freeList, chains, s.ports, i, porttab[i], p);
      assert porttab[..] == table[i := porttab[i]];
      FirstOf(l, freeList);
      s := ClearStart(s, i, renew);
      freeList, chains := l + freeList, chains[i := []];
      r := OK;
    }

    lemma FirstOf(a: seq<int>, b: seq<int>)
      ensures First(a + b) == if |a| == 0 then First(b) else First(a)
    {
    }

    /** The second semaphore call; renew is the local of the interrupted call. */
    method ClearSecond(portid: int, renew: bool)
      requires Valid() && Enabled(s, Middle(portid)) && s.ports[portid].state.renew == renew
      modifies this`s, porttab
      ensures Valid() && s == ClearMiddle(old(s), portid)
    {
      hide Inv, Stands, Chain, Carries, AllReleased;
      ClearMiddleKeeps(s, ptnodes.Length, portid);
      StandsAt(porttab[..], ptnodes[..], freeList, chains, s.ports, portid);
      EntryAt(porttab[..][portid], s.ports[portid], ptnodes[..], chains[portid]);
      ghost var t := ClearMiddle(s, portid);
      var cleared := if renew && porttab[portid].ptrsem.Some? then Some(Sem(0, [])) else None;
      SetEntry(portid, porttab[portid].(ptrsem := cleared), t.ports[portid]);
      s := t;
    }

    /** The end of ptreset and ptdelete: the new state, and after a deletion the next port to try. */
    method ClearFinish(portid: int, renew: bool)
      requires Valid() && Enabled(s, End(portid)) && s.ports[portid].state.renew == renew
      modifies this`s, this`ptnextid, porttab
      ensures Valid() && s == ClearEnd(old(s), portid)
      ensures ptnextid == if renew then old(ptnextid) else portid
    {
      hide Inv, Stands, Chain, Carries;
      ClearEndKeeps(s, ptnodes.Length, portid);
      StandsAt(porttab[..], ptnodes[..], freeList, chains, s.ports, portid);
      InvPort(s, ptnodes.Length, portid);
      EntryAt(porttab[..][portid], s.ports[portid], ptnodes[..], chains[portid]);
      ghost var t := ClearEnd(s, portid);
      SetEntry(portid, porttab[portid].(ptstate := if renew then PT_ALLOC else PT_FREE), t.ports[portid]);
      if !renew {
        ptnextid := portid;
      }
    }

    /** Fill in the entry of a free port. */
    method AllocPort(i: int, count: nat, ssemOk: bool, rsemOk: bool)
      requires Valid() && 0 <= i < NPORTS && s.ports[i].state == PFree
      modifies this`s, porttab
      ensures Valid() && s == Create(old(s), i, count, ssemOk, rsemOk)
    {
      hide Inv, Stands, Chain, Carries, EntryOk, Separate;
      StandsAt(porttab[..], ptnodes[..], freeList, chains, s.ports, i);
      EntryAt(porttab[..][i], s.ports[i], ptnodes[..], chains[i]);
      InvPort(s, ptnodes.Length, i);
      FreeEmpty(s, i);
      CreateKeeps(s, ptnodes.Length, i, count, ssemOk, rsemOk);
      var ssem := if ssemOk then Some(Sem(count, [])) else None;
      var rsem := if rsemOk then Some(Sem(0, [])) else None;
      SetEntry(i, PtEntry(ssem, rsem, PT_ALLOC, count % 65536, porttab[i].ptseq + 1, NULL, NULL), Create(s, i, count, ssemOk, rsemOk).ports[i]);
    }

    /** ptcreate: the first free port around the table from ptnextid. Whether semcreate finds an
        entry for either semaphore is given; its failure goes unnoticed. */
    method PtCreate(count: int, ssemOk: bool, rsemOk: bool) returns (r: int)
      requires Valid()
      modifies this`s, this`ptnextid, porttab
      ensures Valid()
      ensures r == SYSERR <==> count < 0 || forall i {:trigger old(s).ports[i]} :: 0 <= i < NPORTS ==> old(s).ports[i].state != PFree
      ensures r == SYSERR ==> s == old(s)
      ensures r != SYSERR ==> 0 <= r < NPORTS && old(s).ports[r].state == PFree && s == Create(old(s), r, count, ssemOk, rsemOk)
      ensures r != SYSERR ==> ptnextid == if r + 1 == NPORTS then 0 else r + 1
      ensures r != SYSERR ==>
                forall j {:trigger old(s).ports[j]} :: 0 <= j < NPORTS && Skipped(old(ptnextid), j, r) ==> old(s).ports[j].state != PFree
    {
      hide Inv, Stands, Chain, Carries, EntryOk, Separate;
      if count < 0 {
        return SYSERR;
      }
      ghost var first := ptnextid;
      for i := 0 to NPORTS
        invariant Valid() && s == old(s)
        invariant ptnextid == if first + i >= NPORTS then first + i - NPORTS else first + i
        invariant forall j {:trigger s.ports[j]} :: (first <= j < first + i || first <= j + NPORTS < first + i) && 0 <= j < NPORTS ==> s.ports[j].state != PFree
      {
        var ptnum := ptnextid;
        ptnextid := ptnextid + 1;
        if ptnextid >= NPORTS {
          ptnextid := 0;
        }
        StandsAt(porttab[..], ptnodes[..], freeList, chains, s.ports, ptnum);
        EntryAt(porttab[..][ptnum], s.ports[ptnum], ptnodes[..], chains[ptnum]);
        if porttab[ptnum].ptstate == PT_FREE {
          AllocPort(ptnum, count, ssemOk, rsemOk);
          return ptnum;
        }
      }
      return SYSERR;
    }

    /** Going round from first, place j comes before place r. */
    static predicate Skipped(first: int, j: int, r: int) {
      if first <= r then first <= j < r else first <= j || j < r
    }

    lemma FreeEmpty(s: State, i: int)
      requires 0 <= i < |s.ports| && PortOk(s, i) && s.ports[i].state == PFree
      ensures s.ports[i].queue == []
    {
    }
  }
}
