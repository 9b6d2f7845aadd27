/** The reassembly table as a state machine over values, and what holds of all its runs. */
module ReassemblyModel {
  import opened Common
  import opened Bytes
  import opened Fragments
  import opened FragmentOrder
  import opened FragmentList

  const REASSEMBLY_TABLE_MAX_SIZE := 16
  const REASSEMBLY_MAX_TIME := 15

  datatype Key = Key(src: seq<byte>, dest: seq<byte>, identif: uint32)

  /** An entry in use: the first fragment's headers and the queue. */
  datatype Slot = Slot(key: Key, headers: BaseHeader, nextHeader: byte, frags: seq<Frag>, timestamp: uint32)

  /** size is the program's own count of entries in use. */
  datatype State = State(slots: seq<Option<Slot>>, size: int)

  function KeyOf(pkt: Packet): (k: Key) { Key(pkt.base.src, pkt.base.dest, pkt.frag.identif) }

  function FragOf(pkt: Packet): (f: Frag) { Frag(FieldOffset(pkt.frag.offset), pkt.payload) }

  function NewSlot(pkt: Packet, now: uint32): (s: Slot) {
    Slot(KeyOf(pkt), pkt.base, pkt.frag.nextHeader, [FragOf(pkt)], now)
  }

  /** The headers of a rebuilt datagram: length and next header of the original. */
  function Rebuilt(s: Slot): (d: Datagram)
    requires |Joined(s.frags)| <= PAYLOAD_MAX
  {
    var h := s.headers.(payloadLen := |Joined(s.frags)|);
    Datagram(if h.nextHeader == NEXT_HEADER_FRAGMENT then h.(nextHeader := s.nextHeader) else h, Joined(s.frags))
  }

  predicate HasKey(slots: seq<Option<Slot>>, i: int, key: Key) {
    0 <= i < |slots| && slots[i].Some? && slots[i].value.key == key
  }

  /** The entry that the scan of the first n places finds, or -1. */
  function Lookup(slots: seq<Option<Slot>>, n: nat, key: Key): (r: int)
    requires n <= |slots|
    ensures r == -1 || (0 <= r < n && HasKey(slots, r, key))
    ensures forall i :: 0 <= i < (if r == -1 then n else r) ==> !HasKey(slots, i, key)
  {
    if n == 0 then -1 else
      var r := Lookup(slots, n - 1, key);
      if r != -1 then r else if HasKey(slots, n - 1, key) then n - 1 else -1
  }

  /** The first place not in use, or -1. */
  function Hole(slots: seq<Option<Slot>>, n: nat): (r: int)
    requires n <= |slots|
    ensures r == -1 || (0 <= r < n && slots[r].None?)
    ensures forall i {:trigger slots[i]} :: 0 <= i < (if r == -1 then n else r) ==> slots[i].Some?
  {
    if n == 0 then -1 else
      var r := Hole(slots, n - 1);
      if r != -1 then r else if slots[n - 1].None? then n - 1 else -1
  }

  function Count(slots: seq<Option<Slot>>): (n: nat)
    ensures n <= |slots|
  {
    if |slots| == 0 then 0 else Count(slots[..|slots| - 1]) + if slots[|slots| - 1].Some? then 1 else 0
  }

  lemma {:induction false} CountUpdate(slots: seq<Option<Slot>>, i: nat, s: Option<Slot>)
    requires i < |slots|
    ensures Count(slots[i := s]) == Count(slots) - (if slots[i].Some? then 1 else 0) + if s.Some? then 1 else 0
    decreases |slots|
  {
    var n := |slots| - 1;
    if i == n {
      assert slots[i := s][..n] == slots[..n];
    } else {
      assert slots[i := s][..n] == slots[..n][i := s];
      CountUpdate(slots[..n], i, s);
    }
  }

  /** What a table keeps: the program's count is right, queues are not empty, and offsets leave
      no room for a wrapped sum. */
  ghost predicate Kept(s: State) {
    && |s.slots| == REASSEMBLY_TABLE_MAX_SIZE && s.size == Count(s.slots)
    && (forall i {:trigger s.slots[i]} :: 0 <= i < |s.slots| && s.slots[i].Some? ==> Bounded(s.slots[i].value.frags))
  }

  ghost predicate Bounded(fs: seq<Frag>) {
    |fs| > 0 && forall f :: f in fs ==> End(f) <= PAYLOAD_MAX
  }

  /** The header tells the length of the payload, which ends within the largest datagram. */
  predicate WellFormed(pkt: Packet) {
    && pkt.base.payloadLen == FRAG_HDR_LEN + |pkt.payload| && End(FragOf(pkt)) <= PAYLOAD_MAX
    && |pkt.base.src| == |pkt.base.dest| == IPV6_ASIZE
  }

  ghost function Complete(s: Slot): (r: Option<Datagram>)
    requires Bounded(s.frags)
  {
    if Contiguous(s.frags) then
      EndsWithin(s.frags);
      JoinedBound(s.frags);
      Some(Rebuilt(s))
    else None
  }

  lemma {:induction false} JoinedBound(fs: seq<Frag>)
    requires Contiguous(fs) && forall f :: f in fs ==> End(f) <= PAYLOAD_MAX
    ensures |Joined(fs)| <= PAYLOAD_MAX
  {
    if |fs| > 0 {
      FrontMembers(fs);
      JoinedBound(fs[..|fs| - 1]);
      assert End(fs[|fs| - 1]) <= PAYLOAD_MAX;
    }
  }

  lemma BoundedInsert(fs: seq<Frag>, x: Frag)
    requires Bounded(fs) && End(x) <= PAYLOAD_MAX
    ensures Bounded(Insert(fs, x))
  {
    InsertMembers(fs, PlaceFrom(fs, x, |fs|, 0), x);
  }

  /** One packet: the new table and the datagram handed on, if one is complete. */
  ghost function Receive(s: State, pkt: Packet, now: uint32): (r: (State, Option<Datagram>))
    requires Kept(s) && WellFormed(pkt)
  {
    var i := Lookup(s.slots, s.size, KeyOf(pkt));
    if i == -1 then
      var h := Hole(s.slots, |s.slots|);
      if FieldOffset(pkt.frag.offset) != 0 || h == -1 then (s, None)
      else (State(s.slots[h := Some(NewSlot(pkt, now))], s.size + 1), None)
    else
      var slot := s.slots[i].value.(frags := Insert(s.slots[i].value.frags, FragOf(pkt)));
      BoundedInsert(s.slots[i].value.frags, FragOf(pkt));
      if FieldMore(pkt.frag.offset) || Complete(slot).None? then (State(s.slots[i := Some(slot)], s.size), None)
      else (State(s.slots[i := None], s.size - 1), Complete(slot))
  }

  /** Fifteen seconds have passed; a time stamp of 0 never runs out. */
  predicate Overdue(timestamp: uint32, now: uint32) {
    timestamp != 0 && (now - timestamp) % WORD_SPAN >= REASSEMBLY_MAX_TIME
  }

  predicate Late(slot: Slot, now: uint32) { Overdue(slot.timestamp, now) }

  /** The check for time-outs, up to place n. */
  function Expired(slots: seq<Option<Slot>>, now: uint32, n: nat): (r: seq<Option<Slot>>)
    requires n <= |slots|
    ensures |r| == |slots|
    ensures forall i {:trigger r[i]} {:trigger slots[i]} :: 0 <= i < |slots| ==>
              r[i] == if i < n && slots[i].Some? && Late(slots[i].value, now) then None else slots[i]
  {
    if n == 0 then slots else
      var r := Expired(slots, now, n - 1);
      if slots[n - 1].Some? && Late(slots[n - 1].value, now) then r[n - 1 := None] else r
  }

  function Tick(s: State, now: uint32): (t: State) {
    var r := Expired(s.slots, now, |s.slots|);
    State(r, Count(r))
  }

  lemma ReceiveKeeps(s: State, pkt: Packet, now: uint32)
    requires Kept(s) && WellFormed(pkt)
    ensures Kept(Receive(s, pkt, now).0)
  {
    hide Count, Lookup, Hole, Insert, Contiguous, Complete;
    var i := Lookup(s.slots, s.size, KeyOf(pkt));
    var h := Hole(s.slots, |s.slots|);
    if i == -1 {
      if h != -1 {
        CountUpdate(s.slots, h, Some(NewSlot(pkt, now)));
      }
    } else {
      BoundedInsert(s.slots[i].value.frags, FragOf(pkt));
      CountUpdate(s.slots, i, None);
      CountUpdate(s.slots, i, Some(s.slots[i].value.(frags := Insert(s.slots[i].value.frags, FragOf(pkt)))));
    }
  }

  ghost predicate UniqueKeys(slots: seq<Option<Slot>>) {
    forall i, j {:trigger slots[i], slots[j]} :: 0 <= i < j < |slots| && slots[i].Some? && slots[j].Some? ==> slots[i].value.key != slots[j].value.key
  }

  /** The scan stops at the count of entries, so it finds them all exactly if they fill the first
      places of the table: a hole hides the entries behind it. */
  lemma LookupExact(s: State)
    requires Kept(s) && UniqueKeys(s.slots)
    ensures (forall i {:trigger s.slots[i]} :: 0 <= i < |s.slots| && s.slots[i].Some? ==> Lookup(s.slots, s.size, s.slots[i].value.key) == i)
        <==> (forall i {:trigger s.slots[i]} :: 0 <= i < |s.slots| ==> (s.slots[i].Some? <==> i < s.size))
  {
    hide Lookup, Count;
    if forall i {:trigger s.slots[i]} :: 0 <= i < |s.slots| && s.slots[i].Some? ==> Lookup(s.slots, s.size, s.slots[i].value.key) == i {
      CountPrefix(s.slots, s.size);
    }
    forall i | 0 <= i < s.size && s.slots[i].Some? ensures Lookup(s.slots, s.size, s.slots[i].value.key) == i {
      assert HasKey(s.slots, i, s.slots[i].value.key);
    }
  }

  /** If all entries in use lie in the first Count places, they fill them. */
  lemma {:induction false} CountPrefix(slots: seq<Option<Slot>>, n: nat)
    requires n <= |slots| && Count(slots) >= n
    requires forall i {:trigger slots[i]} :: 0 <= i < |slots| && slots[i].Some? ==> i < n
    ensures Count(slots) == n && forall i {:trigger slots[i]} :: 0 <= i < n ==> slots[i].Some?
    decreases |slots|
  {
    if |slots| > 0 {
      var m := |slots| - 1;
      CountPrefix(slots[..m], if n <= m then n else m);
      assert forall i {:trigger slots[i]} :: 0 <= i < m ==> slots[..m][i] == slots[i];
    }
  }

  /** One entry behind one hole is not found. */
  lemma HiddenEntry(slots: seq<Option<Slot>>)
    requires |slots| == REASSEMBLY_TABLE_MAX_SIZE && slots[1].Some? && slots[0].None?
    requires forall i {:trigger slots[i]} :: 2 <= i < |slots| ==> slots[i].None?
    ensures Count(slots) == 1 && Lookup(slots, Count(slots), slots[1].value.key) == -1
  {
    CountOne(slots, |slots|);
    assert slots[..|slots|] == slots;
  }

  lemma {:induction false} CountOne(slots: seq<Option<Slot>>, n: nat)
    requires 2 <= n <= |slots| && slots[1].Some? && slots[0].None?
    requires forall i {:trigger slots[i]} :: 2 <= i < |slots| ==> slots[i].None?
    ensures Count(slots[..n]) == 1
  {
    assert slots[..n][..n - 1] == slots[..n - 1];
    if n > 2 {
      CountOne(slots, n - 1);
    } else {
      assert slots[..1][..0] == [];
    }
  }

  // ------------------------------------------------------------ safety of all runs

  /** A fragment of the datagram that origin records for its addresses and identification. */
  ghost predicate Genuine(origin: map<Key, Datagram>, pkt: Packet) {
    && KeyOf(pkt) in origin
    && var d := origin[KeyOf(pkt)];
    && ValidDatagram(d) && d.headers.src == pkt.base.src && d.headers.dest == pkt.base.dest
    && exists a: nat, b: nat {:trigger FragmentOf(d, pkt.frag.identif, a, b)} ::
         a <= b <= |d.payload| && b - a + FRAG_HDR_LEN <= PAYLOAD_MAX && Octets(a) && pkt == FragmentOf(d, pkt.frag.identif, a, b)
  }

  lemma GenuineParts(origin: map<Key, Datagram>, pkt: Packet)
    requires Genuine(origin, pkt)
    ensures WellFormed(pkt) && KeyOf(pkt) in origin
    ensures var d := origin[KeyOf(pkt)];
            && ValidDatagram(d)
            && pkt.base == d.headers.(payloadLen := pkt.base.payloadLen, nextHeader := NEXT_HEADER_FRAGMENT)
            && pkt.frag.nextHeader == d.headers.nextHeader
            && SliceOf(d.payload, FragOf(pkt))
            && (!FieldMore(pkt.frag.offset) ==> End(FragOf(pkt)) == |d.payload|)
  {
    hide OffsetField, FieldOffset, FieldMore;
    var d := origin[KeyOf(pkt)];
    var a: nat, b: nat :| a <= b <= |d.payload| && b - a + FRAG_HDR_LEN <= PAYLOAD_MAX && Octets(a)
                          && pkt == FragmentOf(d, pkt.frag.identif, a, b);
    FieldRoundTrip(a, b < |d.payload|);
  }

  /** Every entry holds parts of the datagram it belongs to, and that datagram's headers. */
  ghost predicate Faithful(origin: map<Key, Datagram>, slot: Slot) {
    && slot.key in origin
    && var d := origin[slot.key];
    && ValidDatagram(d) && AllSlices(d.payload, slot.frags)
    && slot.nextHeader == d.headers.nextHeader
    && slot.headers.(payloadLen := d.headers.payloadLen) == d.headers.(nextHeader := NEXT_HEADER_FRAGMENT)
  }

  ghost predicate AllFaithful(origin: map<Key, Datagram>, s: State) {
    Kept(s) && forall i {:trigger s.slots[i]} :: 0 <= i < |s.slots| && s.slots[i].Some? ==> Faithful(origin, s.slots[i].value)
  }

  lemma FaithfulInsert(origin: map<Key, Datagram>, slot: Slot, x: Frag)
    requires Faithful(origin, slot) && SliceOf(origin[slot.key].payload, x)
    ensures Faithful(origin, slot.(frags := Insert(slot.frags, x)))
  {
    InsertMembers(slot.frags, PlaceFrom(slot.frags, x, |slot.frags|, 0), x);
  }

  lemma CompleteRight(origin: map<Key, Datagram>, slot: Slot, last: Frag)
    requires Faithful(origin, slot) && Bounded(slot.frags) && last in slot.frags && End(last) == |origin[slot.key].payload|
    ensures Complete(slot).Some? ==> Complete(slot).value == origin[slot.key]
  {
    if Contiguous(slot.frags) {
      WholePayload(origin[slot.key].payload, slot.frags, last);
    }
  }

  /** Whatever is handed on is the datagram that was sent, header and payload in full. */
  lemma ReceiveSafe(origin: map<Key, Datagram>, s: State, pkt: Packet, now: uint32)
    requires AllFaithful(origin, s) && Genuine(origin, pkt)
    ensures WellFormed(pkt) && AllFaithful(origin, Receive(s, pkt, now).0)
    ensures Receive(s, pkt, now).1.Some? ==> Receive(s, pkt, now).1.value == origin[KeyOf(pkt)]
  {
    hide Kept, Lookup, Hole, Insert, Contiguous, Complete, Faithful, Genuine, FieldOffset, FieldMore, SliceOf, Bounded;
    GenuineParts(origin, pkt);
    ReceiveKeeps(s, pkt, now);
    KeptShape(s);
    var i := Lookup(s.slots, s.size, KeyOf(pkt));
    if i == -1 {
      NewFaithful(origin, pkt, now);
    } else {
      var slot := s.slots[i].value;
      FaithfulInsert(origin, slot, FragOf(pkt));
      BoundedInsert(slot.frags, FragOf(pkt));
      InsertMembers(slot.frags, PlaceFrom(slot.frags, FragOf(pkt), |slot.frags|, 0), FragOf(pkt));
      InsertIs(slot.frags, FragOf(pkt));
      if !FieldMore(pkt.frag.offset) {
        CompleteRight(origin, slot.(frags := Insert(slot.frags, FragOf(pkt))), FragOf(pkt));
      }
    }
  }

  lemma InsertIs(fs: seq<Frag>, x: Frag)
    ensures Insert(fs, x) == InsertAt(fs, PlaceFrom(fs, x, |fs|, 0), x)
  {
  }

  lemma KeptShape(s: State)
    requires Kept(s)
    ensures |s.slots| == REASSEMBLY_TABLE_MAX_SIZE && 0 <= s.size <= |s.slots|
    ensures forall i {:trigger s.slots[i]} :: 0 <= i < |s.slots| && s.slots[i].Some? ==> Bounded(s.slots[i].value.frags)
  {
  }

  lemma NewFaithful(origin: map<Key, Datagram>, pkt: Packet, now: uint32)
    requires Genuine(origin, pkt)
    ensures Faithful(origin, NewSlot(pkt, now))
  {
    GenuineParts(origin, pkt);
  }

  datatype Event = Arrival(pkt: Packet, now: uint32) | Clock(now: uint32)

  ghost function Step(s: State, e: Event): (r: (State, Option<Datagram>))
    requires Kept(s) && (e.Arrival? ==> WellFormed(e.pkt))
    ensures Kept(r.0)
  {
    match e
    case Arrival(pkt, now) => ReceiveKeeps(s, pkt, now); Receive(s, pkt, now)
    case Clock(now) => (Tick(s, now), None)
  }

  /** The datagrams handed on in a run. */
  ghost function Delivered(s: State, es: seq<Event>): (ds: seq<Datagram>)
    requires Kept(s) && forall e :: e in es && e.Arrival? ==> WellFormed(e.pkt)
    decreases |es|
  {
    if |es| == 0 then [] else
      var (t, r) := Step(s, es[0]);
      (if r.Some? then [r.value] else []) + Delivered(t, es[1..])
  }

  lemma DeliveredNext(s: State, e: Event, es: seq<Event>)
    requires Kept(s) && (e.Arrival? ==> WellFormed(e.pkt)) && forall e :: e in es && e.Arrival? ==> WellFormed(e.pkt)
    ensures forall x :: x in [e] + es && x.Arrival? ==> WellFormed(x.pkt)
    ensures var (t, r) := Step(s, e); Delivered(s, [e] + es) == (if r.Some? then [r.value] else []) + Delivered(t, es)
  {
    hide Kept, WellFormed, Receive, Tick;
    assert ([e] + es)[1..] == es;
  }

  /** For any loss, duplication, reordering and interleaving of fragments, and any time-outs, only
      datagrams that were sent are handed on. */
  lemma {:induction false} RunSafe(origin: map<Key, Datagram>, s: State, es: seq<Event>)
    requires AllFaithful(origin, s)
    requires forall e :: e in es && e.Arrival? ==> WellFormed(e.pkt) && Genuine(origin, e.pkt)
    ensures forall d :: d in Delivered(s, es) ==> d in origin.Values
    decreases |es|
  {
    hide Kept, Genuine, Receive, Tick, Faithful;
    if |es| > 0 {
      match es[0] {
        case Arrival(pkt, now) =>
          assert es[0] in es;
          ReceiveSafe(origin, s, pkt, now);
          GenuineParts(origin, pkt);
        case Clock(now) =>
          TickSafe(origin, s, now);
      }
      RunSafe(origin, Step(s, es[0]).0, es[1..]);
    }
  }

  lemma TickSafe(origin: map<Key, Datagram>, s: State, now: uint32)
    requires AllFaithful(origin, s)
    ensures AllFaithful(origin, Tick(s, now))
  {
    hide Faithful, Late, Bounded;
  }
}
