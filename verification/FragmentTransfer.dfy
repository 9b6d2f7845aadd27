/** Fragments of one datagram from the sending loop through the reassembly table. */
module FragmentTransfer {
  import opened Common
  import opened Bytes
  import opened Fragments
  import opened FragmentOrder
  import opened FragmentList
  import opened ReassemblyModel

  function NoSlots(n: nat): (s: seq<Option<Slot>>)
    ensures |s| == n && forall i {:trigger s[i]} :: 0 <= i < n ==> s[i] == None
  {
    if n == 0 then [] else NoSlots(n - 1) + [None]
  }

  /** The table before any fragment has come in. */
  function Empty(): (s: State) { State(NoSlots(REASSEMBLY_TABLE_MAX_SIZE), 0) }

  /** The table that holds one queue. */
  function Holding(slot: Slot): (s: State) { State(NoSlots(REASSEMBLY_TABLE_MAX_SIZE)[0 := Some(slot)], 1) }

  lemma {:induction false} NoneCounted(n: nat)
    ensures Count(NoSlots(n)) == 0
  {
    if n > 0 {
      NoneCounted(n - 1);
      assert NoSlots(n)[..n - 1] == NoSlots(n - 1);
    }
  }

  lemma HoldingKept(slot: Slot)
    requires Bounded(slot.frags)
    ensures Kept(Empty()) && Kept(Holding(slot))
    ensures Lookup(Holding(slot).slots, 1, slot.key) == 0 && Holding(slot).slots[0 := None] == NoSlots(REASSEMBLY_TABLE_MAX_SIZE)
    ensures forall t: Slot :: Holding(slot).slots[0 := Some(t)] == Holding(t).slots
  {
    NoneCounted(REASSEMBLY_TABLE_MAX_SIZE);
    CountUpdate(NoSlots(REASSEMBLY_TABLE_MAX_SIZE), 0, Some(slot));
    assert HasKey(Holding(slot).slots, 0, slot.key);
  }

  /** A queued first fragment of datagram d. */
  function Entry(d: Datagram, identif: uint32, fs: seq<Frag>, first: uint16, now: uint32): (s: Slot) {
    Slot(Key(d.headers.src, d.headers.dest, identif),
         d.headers.(payloadLen := first, nextHeader := NEXT_HEADER_FRAGMENT), d.headers.nextHeader, fs, now)
  }

  /** An order in which n fragments, each once, arrive: the first first and the last last. */
  ghost predicate Order(o: seq<nat>, n: nat) {
    && |o| == n >= 2 && o[0] == 0 && o[n - 1] == n - 1
    && (forall i {:trigger o[i]} :: 0 <= i < n ==> o[i] < n)
    && (forall i, j {:trigger o[i], o[j]} :: 0 <= i < j < n ==> o[i] != o[j])
    && (forall k: nat :: k < n ==> k in o)
  }

  ghost predicate Transfer(d: Datagram, identif: uint32, cuts: seq<nat>, sent: seq<Packet>, o: seq<nat>) {
    && ValidDatagram(d) && |sent| == |cuts| - 1 && Order(o, |sent|) && CutPoints(cuts, |d.payload|)
    && (forall k {:trigger sent[k]} :: 0 <= k < |sent| ==>
          && cuts[k] <= cuts[k + 1] <= |d.payload| && cuts[k + 1] - cuts[k] <= NET_PAYLOAD && Octets(cuts[k])
          && sent[k] == FragmentOf(d, identif, cuts[k], cuts[k + 1]))
  }

  /** The fragments in order of arrival. */
  ghost function Arriving(sent: seq<Packet>, o: seq<nat>): (fs: seq<Frag>)
    requires forall i {:trigger o[i]} :: 0 <= i < |o| ==> o[i] < |sent|
    ensures |fs| == |o| && forall i {:trigger fs[i]} :: 0 <= i < |o| ==> fs[i] == FragOf(sent[o[i]])
  {
    if |o| == 0 then [] else Arriving(sent, o[..|o| - 1]) + [FragOf(sent[o[|o| - 1]])]
  }

  ghost function Events(sent: seq<Packet>, o: seq<nat>, times: seq<uint32>): (es: seq<Event>)
    requires |o| == |times| && forall i {:trigger o[i]} :: 0 <= i < |o| ==> o[i] < |sent|
    ensures |es| == |o| && forall i {:trigger es[i]} :: 0 <= i < |o| ==> es[i] == Arrival(sent[o[i]], times[i])
  {
    if |o| == 0 then [] else Events(sent, o[..|o| - 1], times[..|o| - 1]) + [Arrival(sent[o[|o| - 1]], times[|o| - 1])]
  }

  lemma FragmentParts(d: Datagram, identif: uint32, a: nat, b: nat)
    requires ValidDatagram(d) && a <= b <= |d.payload| && b - a <= NET_PAYLOAD && Octets(a)
    ensures var p := FragmentOf(d, identif, a, b);
            && FragOf(p) == Frag(a, d.payload[a..b]) && WellFormed(p) && KeyOf(p) == Key(d.headers.src, d.headers.dest, identif)
            && p.base == d.headers.(payloadLen := p.base.payloadLen, nextHeader := NEXT_HEADER_FRAGMENT)
            && p.frag.nextHeader == d.headers.nextHeader && (FieldMore(p.frag.offset) <==> b < |d.payload|)
  {
    hide OffsetField, FieldOffset, FieldMore;
    FieldRoundTrip(a, b < |d.payload|);
  }

  lemma TransferAt(d: Datagram, identif: uint32, cuts: seq<nat>, sent: seq<Packet>, o: seq<nat>, k: nat)
    requires Transfer(d, identif, cuts, sent, o) && k < |sent|
    ensures ValidDatagram(d) && CutPoints(cuts, |d.payload|) && |cuts| == |sent| + 1
    ensures cuts[k] <= cuts[k + 1] <= |d.payload| && cuts[k + 1] - cuts[k] <= NET_PAYLOAD && Octets(cuts[k])
    ensures sent[k] == FragmentOf(d, identif, cuts[k], cuts[k + 1])
    ensures cuts[k + 1] < |d.payload| <==> k < |sent| - 1
  {
    hide Order, FragmentOf, Octets, CutPoints;
    CutsAscend(cuts, |d.payload|);
    var p := sent[k];
  }

  lemma SentPart(d: Datagram, identif: uint32, cuts: seq<nat>, sent: seq<Packet>, o: seq<nat>, k: nat)
    requires Transfer(d, identif, cuts, sent, o) && k < |sent|
    ensures CutPoints(cuts, |d.payload|) && k < |Pieces(d.payload, cuts)| && FragOf(sent[k]) == Pieces(d.payload, cuts)[k]
    ensures WellFormed(sent[k]) && KeyOf(sent[k]) == Key(d.headers.src, d.headers.dest, identif)
    ensures sent[k].base == d.headers.(payloadLen := sent[k].base.payloadLen, nextHeader := NEXT_HEADER_FRAGMENT)
    ensures sent[k].frag.nextHeader == d.headers.nextHeader
    ensures FieldMore(sent[k].frag.offset) <==> k < |sent| - 1
  {
    hide FragmentOf, FragOf, WellFormed, KeyOf, FieldMore, Transfer, Octets;
    TransferAt(d, identif, cuts, sent, o, k);
    FragmentParts(d, identif, cuts[k], cuts[k + 1]);
  }

  lemma ArrivingPiece(d: Datagram, identif: uint32, cuts: seq<nat>, sent: seq<Packet>, o: seq<nat>, i: nat)
    requires Transfer(d, identif, cuts, sent, o) && i < |o|
    ensures o[i] < |sent| && Arriving(sent, o)[i] == Pieces(d.payload, cuts)[o[i]]
  {
    SentPart(d, identif, cuts, sent, o, o[i]);
  }

  /** Distinct pieces of one payload do not overlap. */
  lemma ArrivingDistinct(d: Datagram, identif: uint32, cuts: seq<nat>, sent: seq<Packet>, o: seq<nat>)
    requires Transfer(d, identif, cuts, sent, o)
    ensures NoOverlap(Arriving(sent, o)) && forall f :: f in Arriving(sent, o) <==> f in Pieces(d.payload, cuts)
  {
    hide FragOf, Arriving, Pieces, Sorted, Transfer, FragmentOf;
    TransferOrder(d, identif, cuts, sent, o);
    var fs, ps := Arriving(sent, o), Pieces(d.payload, cuts);
    PiecesSorted(d.payload, cuts);
    forall i | 0 <= i < |fs| ensures fs[i] == ps[o[i]] { ArrivingPiece(d, identif, cuts, sent, o, i); }
    PickedDistinct(ps, fs, o);
    forall f | f in ps ensures f in fs {
      var k :| 0 <= k < |ps| && ps[k] == f;
      assert k in o;
      var i :| 0 <= i < |o| && o[i] == k;
      assert fs[i] == f;
    }
  }

  lemma TransferOrder(d: Datagram, identif: uint32, cuts: seq<nat>, sent: seq<Packet>, o: seq<nat>)
    requires Transfer(d, identif, cuts, sent, o)
    ensures Order(o, |sent|) && CutPoints(cuts, |d.payload|) && |cuts| == |sent| + 1
  {
  }

  lemma PickedDistinct(ps: seq<Frag>, fs: seq<Frag>, o: seq<nat>)
    requires Sorted(ps) && |fs| == |o| && (forall i {:trigger o[i]} {:trigger fs[i]} :: 0 <= i < |o| ==> o[i] < |ps| && fs[i] == ps[o[i]])
    requires forall i, j {:trigger o[i], o[j]} :: 0 <= i < j < |o| ==> o[i] != o[j]
    ensures NoOverlap(fs)
  {
    forall i | 0 <= i < |fs| ensures Clear(fs[..i], fs[i]) {
      forall f | f in fs[..i]
        ensures (End(f) <= fs[i].offset && f.offset < fs[i].offset) || (End(fs[i]) <= f.offset && fs[i].offset < f.offset)
      {
        var j :| 0 <= j < i && fs[j] == f;
        assert o[j] != o[i];
      }
    }
  }

  /** The table after i fragments. */
  ghost function After(d: Datagram, identif: uint32, sent: seq<Packet>, o: seq<nat>, now: uint32, i: nat): (s: State)
    requires 1 <= i <= |o| && |sent| > 0 && forall i {:trigger o[i]} :: 0 <= i < |o| ==> o[i] < |sent|
  {
    Holding(Entry(d, identif, Queue(Arriving(sent, o)[..i]), sent[0].base.payloadLen, now))
  }

  lemma QueueBounded(d: Datagram, identif: uint32, cuts: seq<nat>, sent: seq<Packet>, o: seq<nat>, i: nat)
    requires Transfer(d, identif, cuts, sent, o) && 1 <= i <= |o|
    ensures Bounded(Queue(Arriving(sent, o)[..i]))
  {
    hide FragOf, Arriving, Queue;
    var fs := Arriving(sent, o)[..i];
    QueueMembers(fs);
    forall f | f in fs ensures End(f) <= PAYLOAD_MAX {
      var j :| 0 <= j < i && fs[j] == f;
      SentPart(d, identif, cuts, sent, o, o[j]);
    }
    assert fs[0] in fs;
  }

  lemma FirstArrival(d: Datagram, identif: uint32, cuts: seq<nat>, sent: seq<Packet>, o: seq<nat>, now: uint32)
    requires Transfer(d, identif, cuts, sent, o)
    ensures Kept(Empty()) && WellFormed(sent[o[0]])
    ensures Receive(Empty(), sent[o[0]], now) == (After(d, identif, sent, o, now, 1), None)
  {
    hide OffsetField, FieldOffset, FieldMore, Pieces, Queue, Hole, Lookup, NoSlots, Transfer, WellFormed;
    TransferIndexes(d, identif, cuts, sent, o);
    var p := sent[0];
    TransferOrder(d, identif, cuts, sent, o);
    SentPart(d, identif, cuts, sent, o, 0);
    PiecesStart(d.payload, cuts);
    var fs := Arriving(sent, o);
    assert fs[..1] == [FragOf(p)];
    QueueOne(FragOf(p));
    NoneCounted(REASSEMBLY_TABLE_MAX_SIZE);
    EmptyPlaces(KeyOf(p));
  }

  lemma EmptyPlaces(key: Key)
    ensures Hole(Empty().slots, |Empty().slots|) == 0 && Lookup(Empty().slots, 0, key) == -1
  {
    hide Hole, NoSlots;
    assert Empty().slots[0].None?;
  }

  lemma PiecesStart(p: seq<byte>, cuts: seq<nat>)
    requires CutPoints(cuts, |p|)
    ensures Pieces(p, cuts)[0].offset == 0
  {
  }

  lemma QueueOne(x: Frag)
    ensures Queue([x]) == [x]
  {
    assert [x][..0] == [];
    assert Queue([]) == [];
  }

  lemma LaterArrival(d: Datagram, identif: uint32, cuts: seq<nat>, sent: seq<Packet>, o: seq<nat>, t0: uint32, now: uint32, i: nat)
    requires Transfer(d, identif, cuts, sent, o) && 1 <= i < |o|
    ensures Kept(After(d, identif, sent, o, t0, i)) && WellFormed(sent[o[i]])
    ensures i < |o| - 1 ==> Receive(After(d, identif, sent, o, t0, i), sent[o[i]], now) == (After(d, identif, sent, o, t0, i + 1), None)
    ensures i == |o| - 1 ==>
              Receive(After(d, identif, sent, o, t0, i), sent[o[i]], now).1 == if MildlyReordered(Arriving(sent, o)) then Some(d) else None
  {
    hide FragOf, Arriving, Pieces, WellFormed, FieldMore, Insert, Bounded, Lookup, Kept, NoSlots, MildlyReordered, Contiguous;
    var fs, p := Arriving(sent, o), sent[o[i]];
    SentPart(d, identif, cuts, sent, o, o[i]);
    QueueBounded(d, identif, cuts, sent, o, i);
    QueueBounded(d, identif, cuts, sent, o, i + 1);
    var slot := Entry(d, identif, Queue(fs[..i]), sent[0].base.payloadLen, t0);
    var grown := Entry(d, identif, Queue(fs[..i + 1]), sent[0].base.payloadLen, t0);
    HoldingKept(slot);
    QueueNext(fs, i);
    assert o[i] == |sent| - 1 <==> i == |o| - 1;
    if i == |o| - 1 {
      LastArrival(d, identif, cuts, sent, o, t0);
    }
  }

  lemma QueueNext(fs: seq<Frag>, i: nat)
    requires i < |fs|
    ensures Queue(fs[..i + 1]) == Insert(Queue(fs[..i]), fs[i])
    ensures i + 1 == |fs| ==> fs[..i + 1] == fs
  {
    assert fs[..i + 1][..i] == fs[..i];
  }

  lemma LastArrival(d: Datagram, identif: uint32, cuts: seq<nat>, sent: seq<Packet>, o: seq<nat>, t0: uint32)
    requires Transfer(d, identif, cuts, sent, o) && Bounded(Queue(Arriving(sent, o)))
    ensures Complete(Entry(d, identif, Queue(Arriving(sent, o)), sent[0].base.payloadLen, t0))
         == if MildlyReordered(Arriving(sent, o)) then Some(d) else None
  {
    hide Arriving, Pieces, Queue, MildlyReordered, Contiguous, NoOverlap, Bounded;
    ArrivingDistinct(d, identif, cuts, sent, o);
    ReorderingExact(d.payload, cuts, Arriving(sent, o));
  }

  /** The end of a run of arrivals. */
  lemma {:induction false} DeliveredFrom(d: Datagram, identif: uint32, cuts: seq<nat>, sent: seq<Packet>, o: seq<nat>,
                                         times: seq<uint32>, i: nat)
    requires Transfer(d, identif, cuts, sent, o) && |times| == |o| && 1 <= i < |o|
    ensures Kept(After(d, identif, sent, o, times[0], i))
    ensures forall e :: e in Events(sent, o, times) && e.Arrival? ==> WellFormed(e.pkt)
    ensures Delivered(After(d, identif, sent, o, times[0], i), Events(sent, o, times)[i..])
         == if MildlyReordered(Arriving(sent, o)) then [d] else []
    decreases |o| - i
  {
    hide Transfer, After, Receive, WellFormed, Kept, MildlyReordered, Arriving, Events, Delivered;
    TransferIndexes(d, identif, cuts, sent, o);
    var es := Events(sent, o, times);
    EventsWellFormed(d, identif, cuts, sent, o, times);
    LaterArrival(d, identif, cuts, sent, o, times[0], times[i], i);
    assert es[i..] == [es[i]] + es[i + 1..];
    DeliveredNext(After(d, identif, sent, o, times[0], i), es[i], es[i + 1..]);
    if i + 1 < |o| {
      DeliveredFrom(d, identif, cuts, sent, o, times, i + 1);
    } else {
      DeliveredNone(Receive(After(d, identif, sent, o, times[0], i), sent[o[i]], times[i]).0, es[i + 1..]);
    }
  }

  lemma DeliveredNone(s: State, es: seq<Event>)
    requires es == [] && Kept(s)
    ensures Delivered(s, es) == []
  {
  }

  lemma TransferIndexes(d: Datagram, identif: uint32, cuts: seq<nat>, sent: seq<Packet>, o: seq<nat>)
    requires Transfer(d, identif, cuts, sent, o)
    ensures |sent| > 0 && |o| == |sent| && forall i {:trigger o[i]} :: 0 <= i < |o| ==> o[i] < |sent|
  {
  }

  lemma EventsWellFormed(d: Datagram, identif: uint32, cuts: seq<nat>, sent: seq<Packet>, o: seq<nat>, times: seq<uint32>)
    requires Transfer(d, identif, cuts, sent, o) && |times| == |o|
    ensures forall e :: e in Events(sent, o, times) && e.Arrival? ==> WellFormed(e.pkt)
  {
    hide Events, WellFormed, Pieces;
    forall e | e in Events(sent, o, times) ensures e.Arrival? ==> WellFormed(e.pkt) {
      var i :| 0 <= i < |o| && Events(sent, o, times)[i] == e;
      SentPart(d, identif, cuts, sent, o, o[i]);
    }
  }

  /** The round trip: fragments sent by the loop for an MTU of at least 56, delivered to an empty
      table with the first first and the last last, rebuild the datagram exactly if no fragment
      comes after more than three that belong behind it. */
  lemma RoundTrip(d: Datagram, identif: uint32, cuts: seq<nat>, sent: seq<Packet>, most: nat, o: seq<nat>, times: seq<uint32>)
    requires ValidDatagram(d) && most <= NET_PAYLOAD && Cuts(cuts, |d.payload|, most) && Sent(d, identif, cuts, sent, most)
    requires OffsetsRight(cuts, sent) && Order(o, |sent|) && |times| == |o|
    ensures Kept(Empty()) && forall e :: e in Events(sent, o, times) && e.Arrival? ==> WellFormed(e.pkt)
    ensures Delivered(Empty(), Events(sent, o, times)) == if MildlyReordered(Arriving(sent, o)) then [d] else []
  {
    hide After, Receive, WellFormed, Kept, MildlyReordered, Arriving, Transfer, Events;
    SentTransfer(d, identif, cuts, sent, most, o);
    FirstArrival(d, identif, cuts, sent, o, times[0]);
    DeliveredFrom(d, identif, cuts, sent, o, times, 1);
    var es := Events(sent, o, times);
    assert es[0] == Arrival(sent[o[0]], times[0]);
  }

  lemma SentTransfer(d: Datagram, identif: uint32, cuts: seq<nat>, sent: seq<Packet>, most: nat, o: seq<nat>)
    requires ValidDatagram(d) && most <= NET_PAYLOAD && Cuts(cuts, |d.payload|, most) && Sent(d, identif, cuts, sent, most)
    requires OffsetsRight(cuts, sent) && Order(o, |sent|)
    ensures Transfer(d, identif, cuts, sent, o)
  {
    hide Order, OffsetField, FieldOffset, FieldMore;
    forall k | 0 <= k < |sent| ensures Octets(cuts[k]) {
      FieldRoundTrip(cuts[k], cuts[k + 1] < |d.payload|);
      assert sent[k] == FragmentOf(d, identif, cuts[k], cuts[k + 1]);
    }
  }
}
