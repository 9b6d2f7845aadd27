/** How an entry of the reassembly table is lost: a fragment missing when the last one comes, a second copy
    of a queued fragment, or a hole in the table before it. */
module FragmentLoss {
  import opened Common
  import opened Bytes
  import opened Fragments
  import opened FragmentOrder
  import opened FragmentList
  import opened ReassemblyModel
  import opened FragmentTransfer

  // ------------------------------------------------------------ a piece is missing

  /** Every byte before the end of a contiguous queue is in one of its fragments. */
  lemma {:induction false} Covered(fs: seq<Frag>, b: nat) returns (f: Frag)
    requires Contiguous(fs) && b < |Joined(fs)|
    ensures f in fs && f.offset <= b < End(f)
  {
    var front, last := fs[..|fs| - 1], fs[|fs| - 1];
    FrontMembers(fs);
    if b < last.offset { f := Covered(front, b); } else { f := last; }
  }

  /** A contiguous queue that has the last piece has every piece. */
  lemma HasPiece(p: seq<byte>, cuts: seq<nat>, fs: seq<Frag>, k: nat)
    requires CutPoints(cuts, |p|) && (forall f :: f in fs ==> f in Pieces(p, cuts)) && k < |cuts| - 1
    requires Pieces(p, cuts)[|cuts| - 2] in fs && Contiguous(fs)
    ensures Pieces(p, cuts)[k] in fs
  {
    hide Contiguous, CutPoints, Pieces, Joined, End;
    ReachesEnd(p, cuts, fs, k);
    var f := Covered(fs, cuts[k]);
    var j :| 0 <= j < |cuts| - 1 && Pieces(p, cuts)[j] == f;
    PieceWith(p, cuts, j, k);
  }

  lemma ReachesEnd(p: seq<byte>, cuts: seq<nat>, fs: seq<Frag>, k: nat)
    requires CutPoints(cuts, |p|) && k < |cuts| - 1 && Pieces(p, cuts)[|cuts| - 2] in fs && Contiguous(fs)
    ensures cuts[k] < |Joined(fs)|
  {
    hide Contiguous, CutPoints, Joined;
    EndsWithin(fs);
    CutsAscend(cuts, |p|);
    var last := Pieces(p, cuts)[|cuts| - 2];
    assert End(last) <= |Joined(fs)|;
  }

  /** The piece that holds the first byte of piece k is piece k. */
  lemma PieceWith(p: seq<byte>, cuts: seq<nat>, j: nat, k: nat)
    requires CutPoints(cuts, |p|) && j < |cuts| - 1 && k < |cuts| - 1
    requires Pieces(p, cuts)[j].offset <= cuts[k] < End(Pieces(p, cuts)[j])
    ensures j == k
  {
    hide CutPoints;
    CutsAscend(cuts, |p|);
    CutsApart(cuts, |p|, j, k);
  }

  lemma CutsApart(cuts: seq<nat>, n: nat, j: nat, k: nat)
    requires CutPoints(cuts, n) && j < |cuts| && k < |cuts|
    ensures j < k ==> cuts[j + 1] <= cuts[k]
  {
    hide CutPoints;
    CutsAscend(cuts, n);
    if j + 1 < k { assert cuts[j + 1] < cuts[k]; }
  }

  /** A queue that has the last piece but not some other is not contiguous. */
  lemma NotWhole(p: seq<byte>, cuts: seq<nat>, fs: seq<Frag>, miss: nat)
    requires CutPoints(cuts, |p|) && (forall f :: f in fs ==> f in Pieces(p, cuts)) && miss < |cuts| - 1
    requires Pieces(p, cuts)[|cuts| - 2] in fs && Pieces(p, cuts)[miss] !in fs
    ensures !Contiguous(fs)
  {
    hide Contiguous, CutPoints;
    if Contiguous(fs) { HasPiece(p, cuts, fs, miss); }
  }

  lemma PiecesDiffer(p: seq<byte>, cuts: seq<nat>, i: nat, j: nat)
    requires CutPoints(cuts, |p|) && i < |cuts| - 1 && j < |cuts| - 1 && i != j
    ensures Pieces(p, cuts)[i] != Pieces(p, cuts)[j] && (i > 0 ==> Pieces(p, cuts)[i].offset > 0)
  {
    hide CutPoints;
    CutsAscend(cuts, |p|);
    CutsStart(cuts, |p|);
  }

  lemma CutsStart(cuts: seq<nat>, n: nat)
    requires CutPoints(cuts, n)
    ensures cuts[0] == 0
  {
  }

  lemma EmptyKept()
    ensures Kept(Empty()) && Lookup(Empty().slots, 0, Key([], [], 0)) == -1
  {
    NoneCounted(REASSEMBLY_TABLE_MAX_SIZE);
  }

  // ------------------------------------------------------------ one fragment twice

  ghost predicate Spoiled(fs: seq<Frag>) {
    exists i, j {:trigger fs[i], fs[j]} :: 0 <= i < j < |fs| && fs[i] == fs[j] && |fs[i].payload| > 0
  }

  lemma SpoiledInsert(fs: seq<Frag>, k: nat, x: Frag)
    requires k <= |fs| && (Spoiled(fs) || (x in fs && |x.payload| > 0))
    ensures Spoiled(InsertAt(fs, k, x))
  {
    var r := InsertAt(fs, k, x);
    forall i | 0 <= i < |fs| ensures fs[i] == r[if i < k then i else i + 1] {}
    assert r[k] == x;
    if Spoiled(fs) {
      var i, j :| 0 <= i < j < |fs| && fs[i] == fs[j] && |fs[i].payload| > 0;
      assert r[if i < k then i else i + 1] == r[if j < k then j else j + 1];
    } else {
      var i :| 0 <= i < |fs| && fs[i] == x;
      if i < k { assert r[i] == r[k]; } else { assert r[k] == r[i + 1]; }
    }
  }

  lemma StartsBehind(fs: seq<Frag>, i: nat, j: nat)
    requires Contiguous(fs) && i < j < |fs|
    ensures End(fs[i]) <= fs[j].offset
  {
    hide Contiguous, End;
    ContiguousPrefix(fs, j + 1);
    LastStart(fs[..j + 1], i);
  }

  lemma LastStart(fs: seq<Frag>, i: nat)
    requires Contiguous(fs) && i < |fs| - 1
    ensures End(fs[i]) <= fs[|fs| - 1].offset
  {
    hide End;
    var front := fs[..|fs| - 1];
    assert front[i] == fs[i] && front[i] in front;
    EndsWithin(front);
  }

  lemma SpoiledGap(fs: seq<Frag>)
    requires Spoiled(fs)
    ensures !Contiguous(fs)
  {
    hide Contiguous;
    var i, j :| 0 <= i < j < |fs| && fs[i] == fs[j] && |fs[i].payload| > 0;
    if Contiguous(fs) { StartsBehind(fs, i, j); }
  }

  function Arrivals(pkts: seq<Packet>, times: seq<uint32>): (es: seq<Event>)
    requires |pkts| == |times|
  {
    if |pkts| == 0 then [] else [Arrival(pkts[0], times[0])] + Arrivals(pkts[1..], times[1..])
  }

  lemma {:induction false} ArrivalsFormed(pkts: seq<Packet>, times: seq<uint32>)
    requires |pkts| == |times| && forall p :: p in pkts ==> WellFormed(p)
    ensures forall e :: e in Arrivals(pkts, times) && e.Arrival? ==> WellFormed(e.pkt)
    decreases |pkts|
  {
    hide WellFormed;
    if |pkts| > 0 {
      assert pkts[0] in pkts;
      ArrivalsFormed(pkts[1..], times[1..]);
    }
  }

  ghost predicate Formed(es: seq<Event>) {
    forall e :: e in es && e.Arrival? ==> WellFormed(e.pkt)
  }

  /** The table after a run. */
  ghost function Final(s: State, es: seq<Event>): (t: State)
    requires Kept(s) && Formed(es)
    ensures Kept(t)
    decreases |es|
  {
    if |es| == 0 then s else Final(Step(s, es[0]).0, es[1..])
  }

  /** The first check that finds an entry with this time stamp overdue. */
  function FirstLate(es: seq<Event>, timestamp: uint32): (c: nat)
    ensures c <= |es| && (c < |es| ==> es[c].Clock? && Overdue(timestamp, es[c].now))
    ensures forall j {:trigger es[j]} :: 0 <= j < c ==> es[j].Arrival? || !Overdue(timestamp, es[j].now)
  {
    if |es| == 0 || (es[0].Clock? && Overdue(timestamp, es[0].now)) then 0 else 1 + FirstLate(es[1..], timestamp)
  }

  /** Place i holds an entry with the same bytes twice. */
  ghost predicate SpoiledAt(s: State, i: nat, key: Key, timestamp: uint32) {
    && i < |s.slots| && s.slots[i].Some? && Spoiled(s.slots[i].value.frags)
    && s.slots[i].value.key == key && s.slots[i].value.timestamp == timestamp
  }

  /** Whatever event there is, such an entry stays unless it has timed out, and nothing is handed on from it. */
  lemma SpoiledStep(s: State, i: nat, key: Key, timestamp: uint32, e: Event)
    requires Kept(s) && SpoiledAt(s, i, key, timestamp) && (e.Arrival? ==> WellFormed(e.pkt))
    ensures var t := Step(s, e).0;
            if e.Clock? && Overdue(timestamp, e.now) then i < |t.slots| && t.slots[i].None? else SpoiledAt(t, i, key, timestamp)
    ensures e.Arrival? && Lookup(s.slots, s.size, KeyOf(e.pkt)) == i ==> Step(s, e).1 == None
  {
    hide Kept, Bounded, WellFormed, Spoiled, Overdue, Lookup, Hole, Count, Insert, Contiguous, KeyOf, FragOf, FieldMore, FieldOffset;
    match e {
      case Arrival(pkt, now) =>
        KeptShape(s);
        if Lookup(s.slots, s.size, KeyOf(pkt)) == i {
          var x, fs := FragOf(pkt), s.slots[i].value.frags;
          SpoiledInsert(fs, PlaceFrom(fs, x, |fs|, 0), x);
          InsertIs(fs, x);
          SpoiledGap(Insert(fs, x));
        }
      case Clock(now) =>
    }
  }

  /** Over every run, of this and other datagrams, an entry that holds the same bytes twice stays, and so is
      never handed on, exactly until the first check that finds it overdue. */
  lemma {:induction false} SpoiledRun(s: State, i: nat, key: Key, timestamp: uint32, es: seq<Event>, m: nat)
    requires Kept(s) && SpoiledAt(s, i, key, timestamp) && Formed(es) && m <= |es| && m <= FirstLate(es, timestamp) + 1
    ensures Formed(es[..m])
    ensures var t := Final(s, es[..m]);
            if m <= FirstLate(es, timestamp) then SpoiledAt(t, i, key, timestamp) else i < |t.slots| && t.slots[i].None?
    decreases m
  {
    hide Kept, WellFormed, SpoiledAt, Step, Overdue;
    if m > 0 {
      assert es[0] in es;
      SpoiledStep(s, i, key, timestamp, es[0]);
      assert es[..m][1..] == es[1..][..m - 1] && es[..m][0] == es[0];
      if !(es[0].Clock? && Overdue(timestamp, es[0].now)) {
        SpoiledRun(Step(s, es[0]).0, i, key, timestamp, es[1..], m - 1);
      }
    }
  }

  /** A second copy of a fragment that is already queued spoils the entry: over every run from there it is
      never handed on, and it goes with its time-out. */
  lemma SecondCopy(s: State, pkt: Packet, now: uint32, es: seq<Event>, m: nat)
    requires Kept(s) && WellFormed(pkt) && |pkt.payload| > 0 && Formed(es)
    requires var i := Lookup(s.slots, s.size, KeyOf(pkt));
             i != -1 && FragOf(pkt) in s.slots[i].value.frags && m <= |es| && m <= FirstLate(es, s.slots[i].value.timestamp) + 1
    ensures Kept(Receive(s, pkt, now).0) && Receive(s, pkt, now).1 == None && Formed(es[..m])
    ensures var i := Lookup(s.slots, s.size, KeyOf(pkt));
            var t, later := s.slots[i].value.timestamp, Final(Receive(s, pkt, now).0, es[..m]);
            if m <= FirstLate(es, t) then SpoiledAt(later, i, KeyOf(pkt), t) else i < |later.slots| && later.slots[i].None?
  {
    hide Kept, WellFormed, Receive, KeyOf, FragOf, SpoiledAt, Lookup;
    KeptShape(s);
    var i := Lookup(s.slots, s.size, KeyOf(pkt));
    CopySpoils(s, pkt, now);
    SpoiledRun(Receive(s, pkt, now).0, i, KeyOf(pkt), s.slots[i].value.timestamp, es, m);
  }

  lemma CopySpoils(s: State, pkt: Packet, now: uint32)
    requires Kept(s) && WellFormed(pkt) && |pkt.payload| > 0
    requires var i := Lookup(s.slots, s.size, KeyOf(pkt)); i != -1 && FragOf(pkt) in s.slots[i].value.frags
    ensures Kept(Receive(s, pkt, now).0) && Receive(s, pkt, now).1 == None
    ensures var i := Lookup(s.slots, s.size, KeyOf(pkt)); SpoiledAt(Receive(s, pkt, now).0, i, KeyOf(pkt), s.slots[i].value.timestamp)
  {
    hide Kept, Bounded, WellFormed, Spoiled, Lookup, Hole, Count, Insert, Contiguous, KeyOf, FieldMore, FieldOffset;
    KeptShape(s);
    ReceiveKeeps(s, pkt, now);
    var x, fs := FragOf(pkt), s.slots[Lookup(s.slots, s.size, KeyOf(pkt))].value.frags;
    SpoiledInsert(fs, PlaceFrom(fs, x, |fs|, 0), x);
    InsertIs(fs, x);
    SpoiledGap(Insert(fs, x));
  }

  // ------------------------------------------------------------ an entry behind a hole

  /** The table after datagrams a and b have begun and a has timed out. */
  function Hidden(b: Packet, tb: uint32): (s: State) {
    State(NoSlots(REASSEMBLY_TABLE_MAX_SIZE)[1 := Some(NewSlot(b, tb))], 1)
  }

  lemma HiddenNotFound(b: Packet, tb: uint32)
    requires WellFormed(b)
    ensures Kept(Hidden(b, tb)) && Lookup(Hidden(b, tb).slots, 1, KeyOf(b)) == -1
  {
    var slots := Hidden(b, tb).slots;
    HiddenEntry(slots);
    assert slots[1].value.frags == [FragOf(b)];
  }

  /** What is left of b is not handed on any more. */
  lemma {:induction false} HiddenRun(b: Packet, tb: uint32, pkts: seq<Packet>, times: seq<uint32>)
    requires WellFormed(b) && |pkts| == |times|
    requires forall p :: p in pkts ==> WellFormed(p) && KeyOf(p) == KeyOf(b) && FieldOffset(p.frag.offset) != 0
    ensures Kept(Hidden(b, tb)) && forall e :: e in Arrivals(pkts, times) && e.Arrival? ==> WellFormed(e.pkt)
    ensures Delivered(Hidden(b, tb), Arrivals(pkts, times)) == []
    decreases |pkts|
  {
    hide Kept, WellFormed, KeyOf, FieldOffset, Lookup, NoSlots;
    ArrivalsFormed(pkts, times);
    HiddenNotFound(b, tb);
    if |pkts| > 0 {
      assert pkts[0] in pkts;
      HiddenRun(b, tb, pkts[1..], times[1..]);
      var es := Arrivals(pkts, times);
      assert es[0] == Arrival(pkts[0], times[0]) && es[1..] == Arrivals(pkts[1..], times[1..]);
    }
  }

  /** A run that hides an entry: the first fragment of a comes in, then the first fragment of b, then a
      times out and b does not; whatever else comes in of b, b is not handed on. */
  lemma LostBehindHole(a: Packet, ta: uint32, b: Packet, tb: uint32, now: uint32, pkts: seq<Packet>, times: seq<uint32>)
    requires WellFormed(a) && WellFormed(b) && KeyOf(a) != KeyOf(b)
    requires FieldOffset(a.frag.offset) == FieldOffset(b.frag.offset) == 0
    requires Late(NewSlot(a, ta), now) && !Late(NewSlot(b, tb), now) && |pkts| == |times|
    requires forall p :: p in pkts ==> WellFormed(p) && KeyOf(p) == KeyOf(b) && FieldOffset(p.frag.offset) != 0
    ensures var es := [Arrival(a, ta)] + ([Arrival(b, tb)] + ([Clock(now)] + Arrivals(pkts, times)));
            && Kept(Empty()) && (forall e :: e in es && e.Arrival? ==> WellFormed(e.pkt))
            && Delivered(Empty(), es) == []
  {
    hide Kept, WellFormed, KeyOf, FieldOffset, Late, Receive, Tick, Hidden, NewSlot, Empty, Holding, Both, Delivered, Arrivals;
    var rest := Arrivals(pkts, times);
    EmptyKept();
    HiddenRun(b, tb, pkts, times);
    FirstOfBoth(a, ta, b, tb);
    TimedOut(a, ta, b, tb, now);
    DeliveredNext(Both(a, ta, b, tb), Clock(now), rest);
    DeliveredNext(Holding(NewSlot(a, ta)), Arrival(b, tb), [Clock(now)] + rest);
    DeliveredNext(Empty(), Arrival(a, ta), [Arrival(b, tb)] + ([Clock(now)] + rest));
  }

  function Both(a: Packet, ta: uint32, b: Packet, tb: uint32): (s: State) {
    State(NoSlots(REASSEMBLY_TABLE_MAX_SIZE)[0 := Some(NewSlot(a, ta))][1 := Some(NewSlot(b, tb))], 2)
  }

  lemma FirstOfBoth(a: Packet, ta: uint32, b: Packet, tb: uint32)
    requires WellFormed(a) && WellFormed(b) && KeyOf(a) != KeyOf(b)
    requires FieldOffset(a.frag.offset) == FieldOffset(b.frag.offset) == 0
    ensures Kept(Empty()) && Kept(Holding(NewSlot(a, ta)))
    ensures Receive(Empty(), a, ta) == (Holding(NewSlot(a, ta)), None)
    ensures Receive(Holding(NewSlot(a, ta)), b, tb) == (Both(a, ta, b, tb), None) && Kept(Both(a, ta, b, tb))
  {
    hide Kept, WellFormed, KeyOf, FieldOffset, Hole, Lookup, NoSlots, NewSlot;
    EmptyKept();
    NewBounded(a, ta);
    HoldingKept(NewSlot(a, ta));
    OneEntry(NewSlot(a, ta), KeyOf(b));
    LookupNone(Empty().slots, KeyOf(a));
    ReceiveKeeps(Holding(NewSlot(a, ta)), b, tb);
  }

  lemma LookupNone(slots: seq<Option<Slot>>, key: Key)
    ensures Lookup(slots, 0, key) == -1
  {
  }

  /** Where the next entry goes, and that one with another key is not found. */
  lemma OneEntry(slot: Slot, key: Key)
    requires slot.key != key
    ensures Hole(Empty().slots, REASSEMBLY_TABLE_MAX_SIZE) == 0
    ensures var one := Holding(slot).slots; Hole(one, REASSEMBLY_TABLE_MAX_SIZE) == 1 && Lookup(one, 1, key) == -1
  {
    hide Hole, Lookup, NoSlots;
    var one := Holding(slot).slots;
    assert Empty().slots[0].None?;
    assert one[0] == Some(slot) && one[1].None?;
    assert !HasKey(one, 0, key);
  }

  lemma NewBounded(pkt: Packet, now: uint32)
    requires WellFormed(pkt)
    ensures Bounded(NewSlot(pkt, now).frags) && NewSlot(pkt, now).key == KeyOf(pkt)
  {
  }

  lemma TimedOut(a: Packet, ta: uint32, b: Packet, tb: uint32, now: uint32)
    requires Late(NewSlot(a, ta), now) && !Late(NewSlot(b, tb), now)
    ensures Tick(Both(a, ta, b, tb), now) == Hidden(b, tb)
  {
    hide Late, NewSlot, Count;
    var s, t := Both(a, ta, b, tb), Hidden(b, tb);
    var r := Expired(s.slots, now, |s.slots|);
    forall i | 0 <= i < |s.slots| ensures r[i] == t.slots[i] {}
    assert r == t.slots;
    HiddenEntry(t.slots);
  }
}
