/** Fragments of several datagrams at the same time: each entry of the table works as if it were the only one,
    as long as it is found. */
module FragmentMixed {
  import opened Common
  import opened Bytes
  import opened Fragments
  import opened FragmentOrder
  import opened FragmentList
  import opened ReassemblyModel
  import opened FragmentTransfer
  import opened FragmentLoss
  import opened FragmentRuns

  // ------------------------------------------------------------ one arrival in any table

  /** An arrival for an entry, wherever it is: the datagram is handed on and the place freed exactly if M is
      clear and the queue with the fragment has no gap; otherwise the fragment is queued there. No other
      place changes. */
  lemma FoundArrival(s: State, pkt: Packet, now: uint32, i: nat)
    requires Kept(s) && WellFormed(pkt) && Lookup(s.slots, s.size, KeyOf(pkt)) == i
    ensures var (t, r), fs := Receive(s, pkt, now), Insert(s.slots[i].value.frags, FragOf(pkt));
            && |t.slots| == |s.slots| && (forall j {:trigger t.slots[j]} :: 0 <= j < |s.slots| && j != i ==> t.slots[j] == s.slots[j])
            && if !FieldMore(pkt.frag.offset) && Contiguous(fs) then
                 && t.slots[i] == None && t.size == s.size - 1
                 && r.Some? && r.value.payload == Joined(fs)
               else r == None && t.slots[i] == Some(s.slots[i].value.(frags := fs)) && t.size == s.size
  {
    hide Lookup, Insert, Contiguous, FieldMore, FieldOffset, WellFormed, Count;
    KeptShape(s);
  }

  /** An arrival for which no entry is found: a first fragment takes the first free place, if there is one;
      nothing else changes and nothing is handed on. */
  lemma NewArrival(s: State, pkt: Packet, now: uint32)
    requires Kept(s) && WellFormed(pkt) && Lookup(s.slots, s.size, KeyOf(pkt)) == -1
    ensures var (t, r), h := Receive(s, pkt, now), Hole(s.slots, |s.slots|);
            && r == None
            && if FieldOffset(pkt.frag.offset) == 0 && h != -1 then
                 t.slots == s.slots[h := Some(Slot(KeyOf(pkt), pkt.base, pkt.frag.nextHeader, [FragOf(pkt)], now))] && t.size == s.size + 1
               else t == s
  {
    hide Lookup, Hole, WellFormed, Count;
    KeptShape(s);
  }

  // ------------------------------------------------------------ one key in a run

  /** Every entry with the key is found, and if there is none there is a free place for one. */
  ghost predicate Served(s: State, key: Key)
    requires Kept(s)
  {
    KeptShape(s);
    var r := Lookup(s.slots, s.size, key);
    && (forall i {:trigger HasKey(s.slots, i, key)} :: HasKey(s.slots, i, key) ==> r == i)
    && (r == -1 ==> exists h {:trigger s.slots[h]} :: 0 <= h < |s.slots| && s.slots[h].None?)
  }

  /** The table with nothing but the entry for the key. */
  ghost function Alone(s: State, key: Key): (t: State)
    requires Kept(s)
  {
    KeptShape(s);
    var r := Lookup(s.slots, s.size, key);
    if r == -1 then Empty() else Holding(s.slots[r].value)
  }

  /** The arrivals for the key, and the checks for time-outs. */
  function Own(es: seq<Event>, key: Key): (r: seq<Event>) {
    if |es| == 0 then [] else (if es[0].Clock? || KeyOf(es[0].pkt) == key then [es[0]] else []) + Own(es[1..], key)
  }

  /** The datagrams handed on at arrivals for the key. */
  ghost function DeliveredFor(s: State, es: seq<Event>, key: Key): (ds: seq<Datagram>)
    requires Kept(s) && Formed(es)
    decreases |es|
  {
    if |es| == 0 then [] else
      assert es[0] in es;
      var (t, r) := Step(s, es[0]);
      (if r.Some? && es[0].Arrival? && KeyOf(es[0].pkt) == key then [r.value] else []) + DeliveredFor(t, es[1..], key)
  }

  /** The entry for the key is found in every state of the run. */
  ghost predicate ServedAlong(s: State, es: seq<Event>, key: Key)
    requires Kept(s) && Formed(es)
    decreases |es|
  {
    Served(s, key) && (|es| == 0 || (assert es[0] in es; ServedAlong(Step(s, es[0]).0, es[1..], key)))
  }

  lemma AloneKept(s: State, key: Key)
    requires Kept(s)
    ensures Kept(Alone(s, key)) && Kept(Empty())
  {
    hide Kept, Lookup, Bounded;
    KeptShape(s);
    EmptyKept();
    var r := Lookup(s.slots, s.size, key);
    if r != -1 { HoldingKept(s.slots[r].value); }
  }

  lemma AloneIs(s: State, key: Key, i: int)
    requires Kept(s) && Served(s, key)
    ensures |s.slots| == REASSEMBLY_TABLE_MAX_SIZE
    ensures HasKey(s.slots, i, key) ==> Alone(s, key) == Holding(s.slots[i].value)
    ensures (forall j :: !HasKey(s.slots, j, key)) ==> Alone(s, key) == Empty()
  {
    hide Count, Lookup, Holding, Empty;
    KeptShape(s);
  }

  lemma NoneElsewhere(s: State, key: Key)
    requires Kept(s) && Served(s, key)
    ensures var r := Lookup(s.slots, s.size, key);
            forall j :: HasKey(s.slots, j, key) <==> j == r && r != -1
  {
    hide Count, Lookup;
    KeptShape(s);
  }

  /** An arrival for the key. */
  lemma OwnArrival(s: State, pkt: Packet, now: uint32)
    requires Kept(s) && WellFormed(pkt) && Served(s, KeyOf(pkt))
    requires Kept(Receive(s, pkt, now).0) && Served(Receive(s, pkt, now).0, KeyOf(pkt))
    ensures Kept(Alone(s, KeyOf(pkt)))
    ensures Receive(Alone(s, KeyOf(pkt)), pkt, now) == (Alone(Receive(s, pkt, now).0, KeyOf(pkt)), Receive(s, pkt, now).1)
  {
    hide Kept, Lookup, Insert, Contiguous, FieldMore, FieldOffset, WellFormed, Served, Alone, Receive, Hole, Holding, Empty, KeyOf;
    var key := KeyOf(pkt);
    AloneKept(s, key);
    KeptShape(s);
    NoneElsewhere(s, key);
    if Lookup(s.slots, s.size, key) == -1 { OwnNew(s, pkt, now); } else { OwnFound(s, pkt, now); }
  }

  lemma OwnFound(s: State, pkt: Packet, now: uint32)
    requires Kept(s) && WellFormed(pkt) && Served(s, KeyOf(pkt)) && |s.slots| == REASSEMBLY_TABLE_MAX_SIZE && 0 <= s.size <= |s.slots|
    requires Lookup(s.slots, s.size, KeyOf(pkt)) != -1
    requires Kept(Receive(s, pkt, now).0) && Served(Receive(s, pkt, now).0, KeyOf(pkt))
    ensures Kept(Alone(s, KeyOf(pkt)))
    ensures Receive(Alone(s, KeyOf(pkt)), pkt, now) == (Alone(Receive(s, pkt, now).0, KeyOf(pkt)), Receive(s, pkt, now).1)
  {
    hide Kept, Lookup, Insert, Contiguous, FieldMore, FieldOffset, WellFormed, Served, Complete, NoSlots, KeyOf, Bounded;
    var key := KeyOf(pkt);
    var i := Lookup(s.slots, s.size, key);
    var slot, t := s.slots[i].value, Receive(s, pkt, now).0;
    KeptShape(s);
    HoldingKept(slot);
    BoundedInsertOf(slot, pkt);
    NoneElsewhere(s, key);
    AloneIs(s, key, i);
    var full := slot.(frags := Insert(slot.frags, FragOf(pkt)));
    if FieldMore(pkt.frag.offset) || Complete(full).None? {
      assert t.slots[i] == Some(full) && HasKey(t.slots, i, key);
    } else {
      forall j ensures !HasKey(t.slots, j, key) { assert HasKey(t.slots, j, key) ==> HasKey(s.slots, j, key); }
    }
    AloneIs(t, key, i);
  }

  lemma BoundedInsertOf(slot: Slot, pkt: Packet)
    requires Bounded(slot.frags) && WellFormed(pkt)
    ensures Bounded(Insert(slot.frags, FragOf(pkt)))
  {
    hide Insert;
    BoundedInsert(slot.frags, FragOf(pkt));
  }

  lemma OwnNew(s: State, pkt: Packet, now: uint32)
    requires Kept(s) && WellFormed(pkt) && Served(s, KeyOf(pkt)) && |s.slots| == REASSEMBLY_TABLE_MAX_SIZE && 0 <= s.size <= |s.slots|
    requires Lookup(s.slots, s.size, KeyOf(pkt)) == -1
    requires Kept(Receive(s, pkt, now).0) && Served(Receive(s, pkt, now).0, KeyOf(pkt))
    ensures Kept(Alone(s, KeyOf(pkt)))
    ensures Receive(Alone(s, KeyOf(pkt)), pkt, now) == (Alone(Receive(s, pkt, now).0, KeyOf(pkt)), Receive(s, pkt, now).1)
  {
    hide Kept, Lookup, Hole, FieldMore, FieldOffset, WellFormed, Served, NoSlots, KeyOf;
    var key := KeyOf(pkt);
    var t := Receive(s, pkt, now).0;
    EmptyKept();
    EmptyPlaces(key);
    HasRoom(s, key);
    NoneElsewhere(s, key);
    AloneIs(s, key, 0);
    var h := Hole(s.slots, |s.slots|);
    AloneIs(t, key, h);
  }

  lemma HasRoom(s: State, key: Key)
    requires Kept(s) && Served(s, key) && |s.slots| == REASSEMBLY_TABLE_MAX_SIZE && 0 <= s.size <= |s.slots|
    ensures Lookup(s.slots, s.size, key) == -1 ==> Hole(s.slots, |s.slots|) != -1
  {
    hide Lookup, Hole, Count;
  }

  /** An arrival for another key. */
  lemma OtherArrival(s: State, pkt: Packet, now: uint32, key: Key)
    requires Kept(s) && WellFormed(pkt) && Served(s, key) && KeyOf(pkt) != key
    requires Kept(Receive(s, pkt, now).0) && Served(Receive(s, pkt, now).0, key)
    ensures Alone(Receive(s, pkt, now).0, key) == Alone(s, key)
  {
    hide Kept, Lookup, Hole, Insert, Contiguous, FieldMore, FieldOffset, WellFormed, Served, Complete, KeyOf, Holding, Empty, Alone;
    KeptShape(s);
    NoneElsewhere(s, key);
    var t, r := Receive(s, pkt, now).0, Lookup(s.slots, s.size, key);
    forall j ensures HasKey(t.slots, j, key) <==> HasKey(s.slots, j, key) {}
    AloneIs(s, key, r);
    AloneIs(t, key, r);
    assert r != -1 ==> t.slots[r] == s.slots[r];
  }

  /** A check for time-outs. */
  lemma OwnTick(s: State, now: uint32, key: Key)
    requires Kept(s) && Served(s, key) && Kept(Tick(s, now)) && Served(Tick(s, now), key)
    ensures Tick(Alone(s, key), now) == Alone(Tick(s, now), key)
  {
    hide Kept, Lookup, Served, Holding, Empty, Alone, Late, Count;
    KeptShape(s);
    NoneElsewhere(s, key);
    var t, r := Tick(s, now), Lookup(s.slots, s.size, key);
    EmptyTick(now);
    AloneIs(s, key, r);
    forall j ensures HasKey(t.slots, j, key) <==> HasKey(s.slots, j, key) && !Late(s.slots[j].value, now) {}
    AloneIs(t, key, r);
    if r != -1 { TickHolding(s.slots[r].value, now); }
  }

  lemma OwnFormed(es: seq<Event>, key: Key)
    requires Formed(es)
    ensures Formed(Own(es, key))
  {
    hide WellFormed, KeyOf;
    if |es| > 0 {
      assert es[0] in es;
      OwnFormed(es[1..], key);
    }
  }

  /** Other datagrams do not matter: what is handed on for a key over any run is what would be handed on over
      its own arrivals and the checks for time-outs if its entry were alone in the table. */
  lemma {:induction false} KeysApart(s: State, es: seq<Event>, key: Key)
    requires Kept(s) && Formed(es) && ServedAlong(s, es, key)
    ensures Kept(Alone(s, key)) && Formed(Own(es, key))
    ensures DeliveredFor(s, es, key) == Delivered(Alone(s, key), Own(es, key))
    decreases |es|
  {
    hide Kept, WellFormed, Receive, Tick, Served, Alone, KeyOf, Delivered;
    AloneKept(s, key);
    OwnFormed(es, key);
    if |es| == 0 {
      DeliveredNone(Alone(s, key), Own(es, key));
    } else {
      assert es[0] in es;
      var t := Step(s, es[0]).0;
      ServedNow(t, es[1..], key);
      OwnFormed(es[1..], key);
      KeysApart(t, es[1..], key);
      match es[0] {
        case Arrival(pkt, now) =>
          if KeyOf(pkt) == key {
            OwnArrival(s, pkt, now);
            DeliveredNext(Alone(s, key), es[0], Own(es[1..], key));
          } else {
            OtherArrival(s, pkt, now, key);
            assert Own(es, key) == Own(es[1..], key);
          }
        case Clock(now) =>
          OwnTick(s, now, key);
          DeliveredNext(Alone(s, key), es[0], Own(es[1..], key));
      }
    }
  }

  lemma ServedNow(s: State, es: seq<Event>, key: Key)
    requires Kept(s) && Formed(es) && ServedAlong(s, es, key)
    ensures Served(s, key)
  {
  }

  /** Where entries fill the first places and one is left, every key is served. */
  lemma PackedServed(s: State, key: Key)
    requires Kept(s) && UniqueKeys(s.slots) && s.size < REASSEMBLY_TABLE_MAX_SIZE
    requires forall i {:trigger s.slots[i]} :: 0 <= i < |s.slots| ==> (s.slots[i].Some? <==> i < s.size)
    ensures Served(s, key)
  {
    hide Lookup, Count;
    LookupExact(s);
    assert s.slots[s.size].None?;
    forall i | HasKey(s.slots, i, key) ensures Lookup(s.slots, s.size, key) == i {
      assert s.slots[i].value.key == key;
    }
  }

  /** Fragments of a datagram among those of others: for fragments that the loop sent for an MTU of at least 56,
      from any table without an entry for them, over any run in which they come in among any other fragments and
      checks for time-outs, and their entry is found, the datagram is handed on exactly as often as the order
      of its own fragments says. */
  lemma EveryMix(d: Datagram, identif: uint32, cuts: seq<nat>, sent: seq<Packet>, most: nat, ms: seq<Move>, s: State, es: seq<Event>)
    requires ValidDatagram(d) && most <= NET_PAYLOAD && Cuts(cuts, |d.payload|, most) && Sent(d, identif, cuts, sent, most)
    requires OffsetsRight(cuts, sent) && |sent| >= 2 && Of(ms, |sent|)
    requires var key := Key(d.headers.src, d.headers.dest, identif);
             && Kept(s) && Formed(es) && ServedAlong(s, es, key) && (forall i :: !HasKey(s.slots, i, key))
             && Own(es, key) == EventsOf(sent, ms)
    ensures DeliveredFor(s, es, Key(d.headers.src, d.headers.dest, identif)) == HandedOn(d, sent, ms)
  {
    hide Transfer, Order, Cuts, Sent, OffsetsRight, Kept, WellFormed, Delivered, DeliveredFor, HandedOn, Of, Empty, Served, Alone, Own;
    var key := Key(d.headers.src, d.headers.dest, identif);
    ServedNow(s, es, key);
    AloneIs(s, key, 0);
    KeysApart(s, es, key);
    EveryRun(d, identif, cuts, sent, most, ms);
  }
}
