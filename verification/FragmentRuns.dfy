/** Every run over the fragments of one datagram: arrivals in any order, with repetitions and omissions,
    and checks for time-outs in between. The theorem says exactly what is handed on. */
module FragmentRuns {
  import opened Common
  import opened Bytes
  import opened Fragments
  import opened FragmentOrder
  import opened FragmentList
  import opened ReassemblyModel
  import opened FragmentTransfer
  import opened FragmentLoss

  /** Fragment k comes in, or the table is checked for time-outs. */
  datatype Move = Piece(k: nat, now: uint32) | Timer(now: uint32)

  ghost predicate Of(ms: seq<Move>, n: nat) {
    forall m :: m in ms && m.Piece? ==> m.k < n
  }

  function EventOf(sent: seq<Packet>, m: Move): (e: Event)
    requires m.Piece? ==> m.k < |sent|
  {
    match m
    case Piece(k, now) => Arrival(sent[k], now)
    case Timer(now) => Clock(now)
  }

  ghost function EventsOf(sent: seq<Packet>, ms: seq<Move>): (es: seq<Event>)
    requires Of(ms, |sent|)
    ensures |es| == |ms| && forall i {:trigger es[i]} :: 0 <= i < |ms| ==> (ms[i].Piece? ==> ms[i].k < |sent|) && es[i] == EventOf(sent, ms[i])
  {
    if |ms| == 0 then [] else [EventOf(sent, ms[0])] + EventsOf(sent, ms[1..])
  }

  // ------------------------------------------------------------ what is handed on

  /** Any order of n fragments, each once. */
  ghost predicate Permutation(o: seq<nat>, n: nat) {
    && |o| == n >= 2
    && (forall i {:trigger o[i]} :: 0 <= i < n ==> o[i] < n)
    && (forall i, j {:trigger o[i], o[j]} :: 0 <= i < j < n ==> o[i] != o[j])
    && (forall k: nat :: k < n ==> k in o)
  }

  /** The first arrival of the first fragment. */
  function Opening(ms: seq<Move>): (i: nat)
    ensures i <= |ms| && (i < |ms| ==> ms[i].Piece? && ms[i].k == 0)
    ensures forall j {:trigger ms[j]} :: 0 <= j < i ==> ms[j].Timer? || ms[j].k != 0
  {
    if |ms| == 0 || (ms[0].Piece? && ms[0].k == 0) then 0 else 1 + Opening(ms[1..])
  }

  /** The first time-out of an entry stamped with t. */
  function TimeOut(ms: seq<Move>, t: uint32): (i: nat)
    ensures i <= |ms| && (i < |ms| ==> ms[i].Timer? && Overdue(t, ms[i].now))
    ensures forall j {:trigger ms[j]} :: 0 <= j < i ==> ms[j].Piece? || !Overdue(t, ms[j].now)
  {
    if |ms| == 0 || (ms[0].Timer? && Overdue(t, ms[0].now)) then 0 else 1 + TimeOut(ms[1..], t)
  }

  /** The first arrival of the last of n fragments, or the time-out if that is earlier. */
  function Closing(ms: seq<Move>, n: nat, t: uint32): (i: nat)
    ensures i <= |ms| && (i < |ms| ==> if ms[i].Piece? then ms[i].k == n - 1 else Overdue(t, ms[i].now))
    ensures forall j {:trigger ms[j]} :: 0 <= j < i ==> if ms[j].Piece? then ms[j].k != n - 1 else !Overdue(t, ms[j].now)
  {
    if |ms| == 0 || (if ms[0].Piece? then ms[0].k == n - 1 else Overdue(t, ms[0].now)) then 0 else 1 + Closing(ms[1..], n, t)
  }

  /** The fragments that come in. */
  function Indexes(ms: seq<Move>): (o: seq<nat>) {
    if |ms| == 0 then [] else (if ms[0].Piece? then [ms[0].k] else []) + Indexes(ms[1..])
  }

  /** A stretch of arrivals from a first fragment to the next last one that rebuilds the datagram. */
  ghost predicate Rebuilds(sent: seq<Packet>, stretch: seq<nat>) {
    Permutation(stretch, |sent|) && MildlyReordered(Arriving(sent, stretch))
  }

  /** Nothing counts before the first fragment opens an entry. */
  ghost function HandedOn(d: Datagram, sent: seq<Packet>, ms: seq<Move>): (ds: seq<Datagram>)
    decreases |ms|, 1
  {
    var i := Opening(ms);
    if i == |ms| then [] else Stretch(d, sent, [0], ms[i].now, ms[i + 1..])
  }

  /** From an entry stamped with t that has the fragments pre: what follows the next arrival of the last
      fragment depends on the whole stretch; after a time-out, as after a datagram handed on, all starts again. */
  ghost function Stretch(d: Datagram, sent: seq<Packet>, pre: seq<nat>, t: uint32, ms: seq<Move>): (ds: seq<Datagram>)
    decreases |ms|, 2
  {
    var i := Closing(ms, |sent|, t);
    if i == |ms| then []
    else if ms[i].Timer? then HandedOn(d, sent, ms[i + 1..])
    else if Rebuilds(sent, pre + Indexes(ms[..i + 1])) then [d] + HandedOn(d, sent, ms[i + 1..])
    else Ruined(d, sent, t, ms[i + 1..])
  }

  /** An entry that did not rebuild the datagram takes in all that comes until its time-out. */
  ghost function Ruined(d: Datagram, sent: seq<Packet>, t: uint32, ms: seq<Move>): (ds: seq<Datagram>)
    decreases |ms|, 2
  {
    var i := TimeOut(ms, t);
    if i == |ms| then [] else HandedOn(d, sent, ms[i + 1..])
  }

  // ------------------------------------------------------------ which stretches rebuild

  /** The order in which they were sent. */
  function Straight(n: nat): (o: seq<nat>)
    ensures |o| == n && forall i {:trigger o[i]} :: 0 <= i < n ==> o[i] == i
  {
    seq(n, i => i)
  }

  lemma StraightOrder(n: nat)
    requires n >= 2
    ensures Order(Straight(n), n)
  {
    forall k: nat | k < n ensures k in Straight(n) { assert Straight(n)[k] == k; }
  }

  lemma PieceOf(d: Datagram, identif: uint32, cuts: seq<nat>, sent: seq<Packet>, k: nat)
    requires Transfer(d, identif, cuts, sent, Straight(|sent|)) && k < |sent|
    ensures CutPoints(cuts, |d.payload|) && |cuts| == |sent| + 1 && |sent| >= 2
    ensures FragOf(sent[k]) == Pieces(d.payload, cuts)[k] && WellFormed(sent[k])
    ensures KeyOf(sent[k]) == Key(d.headers.src, d.headers.dest, identif) && (FieldMore(sent[k].frag.offset) <==> k < |sent| - 1)
  {
    hide FragOf, WellFormed, KeyOf, FieldMore, Transfer, Order;
    SentPart(d, identif, cuts, sent, Straight(|sent|), k);
    TransferOrder(d, identif, cuts, sent, Straight(|sent|));
    StraightSize(d, identif, cuts, sent);
  }

  lemma StraightSize(d: Datagram, identif: uint32, cuts: seq<nat>, sent: seq<Packet>)
    requires Transfer(d, identif, cuts, sent, Straight(|sent|))
    ensures |sent| >= 2
  {
  }

  /** Some fragments, at least one, perhaps repeated. */
  ghost predicate Gathered(pre: seq<nat>, n: nat) {
    |pre| > 0 && forall i {:trigger pre[i]} :: 0 <= i < |pre| ==> pre[i] < n
  }

  lemma ArrivingMore(sent: seq<Packet>, pre: seq<nat>, k: nat)
    requires Gathered(pre, |sent|) && k < |sent|
    ensures Gathered(pre + [k], |sent|) && Arriving(sent, pre + [k]) == Arriving(sent, pre) + [FragOf(sent[k])]
    ensures Queue(Arriving(sent, pre + [k])) == Insert(Queue(Arriving(sent, pre)), FragOf(sent[k]))
  {
    hide FragOf, Queue, Insert;
    assert (pre + [k])[..|pre|] == pre;
    QueueGrows(Arriving(sent, pre), FragOf(sent[k]));
  }

  lemma QueueGrows(arr: seq<Frag>, x: Frag)
    ensures Queue(arr + [x]) == Insert(Queue(arr), x)
  {
    assert (arr + [x])[..|arr|] == arr;
  }

  /** What has come in are pieces of the payload. */
  lemma GatheredPieces(d: Datagram, identif: uint32, cuts: seq<nat>, sent: seq<Packet>, pre: seq<nat>)
    requires Transfer(d, identif, cuts, sent, Straight(|sent|)) && Gathered(pre, |sent|)
    ensures CutPoints(cuts, |d.payload|) && |cuts| == |sent| + 1
    ensures |Arriving(sent, pre)| == |pre|
    ensures forall i {:trigger Arriving(sent, pre)[i]} :: 0 <= i < |pre| ==> Arriving(sent, pre)[i] == Pieces(d.payload, cuts)[pre[i]]
    ensures forall f :: f in Arriving(sent, pre) ==> f in Pieces(d.payload, cuts)
    ensures forall k {:trigger Pieces(d.payload, cuts)[k]} :: 0 <= k < |sent| ==> (Pieces(d.payload, cuts)[k] in Arriving(sent, pre) <==> k in pre)
  {
    hide FragOf, Pieces, Transfer, WellFormed, KeyOf, FieldMore, CutPoints;
    PieceOf(d, identif, cuts, sent, pre[0]);
    var fs, ps := Arriving(sent, pre), Pieces(d.payload, cuts);
    forall i | 0 <= i < |pre| ensures fs[i] == ps[pre[i]] { PieceOf(d, identif, cuts, sent, pre[i]); }
    forall k | 0 <= k < |sent| ensures ps[k] in fs <==> k in pre {
      if ps[k] in fs {
        var i :| 0 <= i < |fs| && fs[i] == ps[k];
        if pre[i] != k { PiecesDiffer(d.payload, cuts, pre[i], k); }
      }
      if k in pre {
        var i :| 0 <= i < |pre| && pre[i] == k;
        assert fs[i] == ps[k];
      }
    }
  }

  lemma GatheredBounded(d: Datagram, identif: uint32, cuts: seq<nat>, sent: seq<Packet>, pre: seq<nat>)
    requires Transfer(d, identif, cuts, sent, Straight(|sent|)) && Gathered(pre, |sent|)
    ensures Bounded(Queue(Arriving(sent, pre)))
  {
    hide Queue, Transfer, FragOf, Arriving, Pieces, KeyOf, FieldMore;
    var fs := Arriving(sent, pre);
    QueueMembers(fs);
    forall f | f in fs ensures End(f) <= PAYLOAD_MAX {
      var i :| 0 <= i < |pre| && fs[i] == f;
      PieceOf(d, identif, cuts, sent, pre[i]);
    }
    assert fs[0] in fs;
  }

  /** With the last fragment in it, the queue joins exactly if each fragment came once and mildly reordered. */
  lemma StretchExact(d: Datagram, identif: uint32, cuts: seq<nat>, sent: seq<Packet>, pre: seq<nat>)
    requires Transfer(d, identif, cuts, sent, Straight(|sent|)) && Gathered(pre, |sent|) && |sent| - 1 in pre
    ensures CutPoints(cuts, |d.payload|)
    ensures Contiguous(Queue(Arriving(sent, pre))) <==> Rebuilds(sent, pre)
    ensures Contiguous(Queue(Arriving(sent, pre))) ==> Joined(Queue(Arriving(sent, pre))) == d.payload
  {
    hide Contiguous, Queue, MildlyReordered, Arriving, Permutation, Transfer, Joined, Pieces, CutPoints;
    GatheredPieces(d, identif, cuts, sent, pre);
    if Contiguous(Queue(Arriving(sent, pre))) { OnceEach(d, identif, cuts, sent, pre); }
    if Permutation(pre, |sent|) { PermutationExact(d, identif, cuts, sent, pre); }
  }

  lemma OnceEach(d: Datagram, identif: uint32, cuts: seq<nat>, sent: seq<Packet>, pre: seq<nat>)
    requires Transfer(d, identif, cuts, sent, Straight(|sent|)) && Gathered(pre, |sent|) && |sent| - 1 in pre
    requires Contiguous(Queue(Arriving(sent, pre)))
    ensures Permutation(pre, |sent|)
  {
    hide Contiguous, Queue, Arriving, Transfer, Pieces, CutPoints, FragOf;
    GatheredPieces(d, identif, cuts, sent, pre);
    StraightSize(d, identif, cuts, sent);
    var fs, ps := Queue(Arriving(sent, pre)), Pieces(d.payload, cuts);
    QueueMembers(Arriving(sent, pre));
    forall k: nat | k < |sent| ensures ps[k] in fs && k in pre { HasPiece(d.payload, cuts, fs, k); }
    AllPieces(d.payload, cuts, fs);
    CoveredOnce(pre);
  }

  /** A contiguous queue of all pieces holds each once. */
  lemma AllPieces(p: seq<byte>, cuts: seq<nat>, fs: seq<Frag>)
    requires CutPoints(cuts, |p|) && Contiguous(fs) && (forall f :: f in fs ==> f in Pieces(p, cuts))
    requires forall k: nat {:trigger Pieces(p, cuts)[k]} :: k < |cuts| - 1 ==> Pieces(p, cuts)[k] in fs
    ensures |fs| == |cuts| - 1
  {
    hide Contiguous, CutPoints, Sorted, AllSlices;
    PiecesNonempty(p, cuts);
    PiecesSorted(p, cuts);
    ContiguousSorted(fs);
    SortedUnique(fs, Pieces(p, cuts));
  }

  /** n numbers that cover all below n have no repetition. */
  lemma CoveredOnce(o: seq<nat>)
    requires forall k: nat :: k < |o| ==> k in o
    ensures forall i, j {:trigger o[i], o[j]} :: 0 <= i < j < |o| ==> o[i] != o[j]
  {
    forall i, j | 0 <= i < j < |o| ensures o[i] != o[j] {
      if o[i] == o[j] {
        var rest := o[..j] + o[j + 1..];
        forall k: nat | k < |o| ensures k in rest {
          assert k in o;
          var h :| 0 <= h < |o| && o[h] == k;
          assert rest[if h == j then i else if h < j then h else h - 1] == k;
        }
        CoverSize(rest, |o|);
      }
    }
  }

  /** A sequence that covers all below n has at least n elements. */
  lemma {:induction false} CoverSize(o: seq<nat>, n: nat)
    requires forall k: nat :: k < n ==> k in o
    ensures |o| >= n
    decreases n
  {
    if n > 0 {
      assert n - 1 in o;
      var h :| 0 <= h < |o| && o[h] == n - 1;
      var rest := o[..h] + o[h + 1..];
      forall k: nat | k < n - 1 ensures k in rest {
        assert k in o;
        var g :| 0 <= g < |o| && o[g] == k;
        assert rest[if g < h then g else g - 1] == k;
      }
      CoverSize(rest, n - 1);
    }
  }

  lemma PermutationExact(d: Datagram, identif: uint32, cuts: seq<nat>, sent: seq<Packet>, o: seq<nat>)
    requires Transfer(d, identif, cuts, sent, Straight(|sent|)) && Permutation(o, |sent|)
    ensures Contiguous(Queue(Arriving(sent, o))) <==> MildlyReordered(Arriving(sent, o))
    ensures Contiguous(Queue(Arriving(sent, o))) ==> Joined(Queue(Arriving(sent, o))) == d.payload
  {
    hide Contiguous, Queue, Arriving, Transfer, Pieces, CutPoints, FragOf, MildlyReordered, NoOverlap, Joined, Sorted, AllSlices;
    GatheredPieces(d, identif, cuts, sent, o);
    var fs, ps := Arriving(sent, o), Pieces(d.payload, cuts);
    PiecesSorted(d.payload, cuts);
    PickedDistinct(ps, fs, o);
    ReorderingExact(d.payload, cuts, fs);
  }

  // ------------------------------------------------------------ one move

  /** The table that holds the entry stamped with t into which the fragments pre have come. */
  ghost function At(d: Datagram, identif: uint32, sent: seq<Packet>, pre: seq<nat>, t: uint32): (s: State)
    requires |sent| > 0 && Gathered(pre, |sent|)
  {
    Holding(Entry(d, identif, Queue(Arriving(sent, pre)), sent[0].base.payloadLen, t))
  }

  lemma AtKept(d: Datagram, identif: uint32, cuts: seq<nat>, sent: seq<Packet>, pre: seq<nat>, t: uint32)
    requires Transfer(d, identif, cuts, sent, Straight(|sent|)) && Gathered(pre, |sent|)
    ensures Kept(Empty()) && Kept(At(d, identif, sent, pre, t))
  {
    hide Kept, Bounded, Queue, Transfer;
    GatheredBounded(d, identif, cuts, sent, pre);
    HoldingKept(Entry(d, identif, Queue(Arriving(sent, pre)), sent[0].base.payloadLen, t));
  }

  /** Without an entry a later fragment is dropped. */
  lemma DroppedBefore(d: Datagram, identif: uint32, cuts: seq<nat>, sent: seq<Packet>, k: nat, now: uint32)
    requires Transfer(d, identif, cuts, sent, Straight(|sent|)) && 0 < k < |sent|
    ensures Kept(Empty()) && WellFormed(sent[k]) && Receive(Empty(), sent[k], now) == (Empty(), None)
  {
    hide Transfer, Pieces, Kept, WellFormed, KeyOf, NoSlots;
    EmptyKept();
    PieceOf(d, identif, cuts, sent, k);
    PiecesDiffer(d.payload, cuts, k, 0);
  }

  /** The first fragment opens an entry. */
  lemma FirstQueued(d: Datagram, identif: uint32, cuts: seq<nat>, sent: seq<Packet>, now: uint32)
    requires Transfer(d, identif, cuts, sent, Straight(|sent|))
    ensures |sent| > 0 && Kept(Empty()) && WellFormed(sent[0])
    ensures Receive(Empty(), sent[0], now) == (At(d, identif, sent, [0], now), None)
  {
    hide Transfer, Receive, WellFormed, Kept, FragOf, Queue;
    var o := Straight(|sent|);
    TransferIndexes(d, identif, cuts, sent, o);
    FirstArrival(d, identif, cuts, sent, o, now);
    assert Arriving(sent, o)[..1] == Arriving(sent, [0]);
  }

  /** A fragment comes in for an entry: the datagram is handed on exactly if it is the last one and the
      queue joins, and otherwise the fragment is queued. */
  lemma OneMore(d: Datagram, identif: uint32, cuts: seq<nat>, sent: seq<Packet>, pre: seq<nat>, t: uint32, k: nat, now: uint32)
    requires Transfer(d, identif, cuts, sent, Straight(|sent|)) && Gathered(pre, |sent|) && k < |sent|
    ensures Gathered(pre + [k], |sent|) && Kept(At(d, identif, sent, pre, t)) && WellFormed(sent[k])
    ensures Receive(At(d, identif, sent, pre, t), sent[k], now)
         == if k == |sent| - 1 && Rebuilds(sent, pre + [k]) then (Empty(), Some(d)) else (At(d, identif, sent, pre + [k], t), None)
  {
    hide Transfer, FragOf, WellFormed, FieldMore, Insert, Bounded, Lookup, Kept, NoSlots, Contiguous, Queue, Rebuilds, Arriving, Joined, Complete;
    PieceOf(d, identif, cuts, sent, k);
    ArrivingMore(sent, pre, k);
    GatheredBounded(d, identif, cuts, sent, pre);
    GatheredBounded(d, identif, cuts, sent, pre + [k]);
    HoldingKept(Entry(d, identif, Queue(Arriving(sent, pre)), sent[0].base.payloadLen, t));
    if k == |sent| - 1 { LastTried(d, identif, cuts, sent, pre + [k], t); }
  }

  lemma LastTried(d: Datagram, identif: uint32, cuts: seq<nat>, sent: seq<Packet>, pre: seq<nat>, t: uint32)
    requires Transfer(d, identif, cuts, sent, Straight(|sent|)) && Gathered(pre, |sent|) && pre[|pre| - 1] == |sent| - 1
    ensures Bounded(Queue(Arriving(sent, pre)))
    ensures Complete(Entry(d, identif, Queue(Arriving(sent, pre)), sent[0].base.payloadLen, t)) == if Rebuilds(sent, pre) then Some(d) else None
  {
    hide Arriving, Queue, Contiguous, Bounded, Rebuilds, Joined, Order, CutPoints;
    GatheredBounded(d, identif, cuts, sent, pre);
    StretchExact(d, identif, cuts, sent, pre);
  }

  lemma TickHolding(slot: Slot, now: uint32)
    requires Bounded(slot.frags)
    ensures Kept(Holding(slot)) && Tick(Holding(slot), now) == if Late(slot, now) then Empty() else Holding(slot)
    ensures Tick(Empty(), now) == Empty()
  {
    hide Late, Bounded, Count, Kept;
    HoldingKept(slot);
    NoneCounted(REASSEMBLY_TABLE_MAX_SIZE);
    CountUpdate(NoSlots(REASSEMBLY_TABLE_MAX_SIZE), 0, Some(slot));
    assert Expired(Empty().slots, now, |Empty().slots|) == Empty().slots;
    var s := Holding(slot);
    assert Expired(s.slots, now, |s.slots|) == if Late(slot, now) then Empty().slots else s.slots;
  }

  lemma AtTick(d: Datagram, identif: uint32, cuts: seq<nat>, sent: seq<Packet>, pre: seq<nat>, t: uint32, now: uint32)
    requires Transfer(d, identif, cuts, sent, Straight(|sent|)) && Gathered(pre, |sent|)
    ensures Tick(At(d, identif, sent, pre, t), now) == if Overdue(t, now) then Empty() else At(d, identif, sent, pre, t)
  {
    hide Transfer, Bounded, Queue, Tick, Overdue, Kept;
    GatheredBounded(d, identif, cuts, sent, pre);
    TickHolding(Entry(d, identif, Queue(Arriving(sent, pre)), sent[0].base.payloadLen, t), now);
  }

  // ------------------------------------------------------------ all runs

  lemma {:induction false} EventsFormed(d: Datagram, identif: uint32, cuts: seq<nat>, sent: seq<Packet>, ms: seq<Move>)
    requires Transfer(d, identif, cuts, sent, Straight(|sent|)) && Of(ms, |sent|)
    ensures forall e :: e in EventsOf(sent, ms) && e.Arrival? ==> WellFormed(e.pkt)
  {
    hide EventsOf, WellFormed, Transfer, FragOf, Pieces;
    forall e | e in EventsOf(sent, ms) ensures e.Arrival? ==> WellFormed(e.pkt) {
      var i :| 0 <= i < |ms| && EventsOf(sent, ms)[i] == e;
      if ms[i].Piece? { PieceOf(d, identif, cuts, sent, ms[i].k); }
    }
  }

  lemma EventsNext(sent: seq<Packet>, ms: seq<Move>)
    requires Of(ms, |sent|) && |ms| > 0
    ensures (ms[0].Piece? ==> ms[0].k < |sent|) && Of(ms[1..], |sent|)
    ensures EventsOf(sent, ms) == [EventOf(sent, ms[0])] + EventsOf(sent, ms[1..])
  {
  }

  lemma HandedOnNext(d: Datagram, sent: seq<Packet>, ms: seq<Move>)
    requires |ms| > 0
    ensures HandedOn(d, sent, ms) == if ms[0].Piece? && ms[0].k == 0 then Stretch(d, sent, [0], ms[0].now, ms[1..]) else HandedOn(d, sent, ms[1..])
  {
    hide Stretch;
    var i := Opening(ms[1..]);
    if i < |ms| - 1 { assert ms[1..][i + 1..] == ms[i + 2..]; }
  }

  predicate Closes(m: Move, n: nat, t: uint32) {
    if m.Piece? then m.k == n - 1 else Overdue(t, m.now)
  }

  lemma StretchNext(d: Datagram, sent: seq<Packet>, pre: seq<nat>, t: uint32, ms: seq<Move>)
    requires |ms| > 0
    ensures Stretch(d, sent, pre, t, ms) ==
              if !Closes(ms[0], |sent|, t) then Stretch(d, sent, if ms[0].Piece? then pre + [ms[0].k] else pre, t, ms[1..])
              else if ms[0].Timer? then HandedOn(d, sent, ms[1..])
              else if Rebuilds(sent, pre + [ms[0].k]) then [d] + HandedOn(d, sent, ms[1..])
              else Ruined(d, sent, t, ms[1..])
  {
    hide HandedOn, Ruined, Rebuilds, Overdue, Indexes;
    IndexesNext(ms[..1]);
    if !Closes(ms[0], |sent|, t) {
      var i := Closing(ms[1..], |sent|, t);
      if i < |ms| - 1 {
        assert ms[1..][i + 1..] == ms[i + 2..];
        IndexesNext(ms[..i + 2]);
        assert ms[..i + 2][1..] == ms[1..][..i + 1];
        var last := if ms[0].Piece? then [ms[0].k] else [];
        assert pre + (last + Indexes(ms[1..][..i + 1])) == pre + last + Indexes(ms[1..][..i + 1]);
        assert pre + [] == pre;
      }
    } else {
      assert ms[..1][1..] == [];
      IndexesNone();
      if ms[0].Piece? { assert Indexes(ms[..1]) == [ms[0].k]; }
    }
  }

  lemma IndexesNext(ms: seq<Move>)
    requires |ms| > 0
    ensures Indexes(ms) == (if ms[0].Piece? then [ms[0].k] else []) + Indexes(ms[1..])
  {
  }

  lemma IndexesNone()
    ensures Indexes([]) == []
  {
  }

  lemma RuinedNext(d: Datagram, sent: seq<Packet>, t: uint32, ms: seq<Move>)
    requires |ms| > 0
    ensures Ruined(d, sent, t, ms) == if ms[0].Timer? && Overdue(t, ms[0].now) then HandedOn(d, sent, ms[1..]) else Ruined(d, sent, t, ms[1..])
  {
    hide HandedOn, Overdue;
    var i := TimeOut(ms[1..], t);
    if i < |ms| - 1 { assert ms[1..][i + 1..] == ms[i + 2..]; }
  }

  lemma EmptyTick(now: uint32)
    ensures Tick(Empty(), now) == Empty()
  {
    NoneCounted(REASSEMBLY_TABLE_MAX_SIZE);
    assert Expired(Empty().slots, now, |Empty().slots|) == Empty().slots;
  }

  lemma NothingMore(d: Datagram, sent: seq<Packet>, pre: seq<nat>, t: uint32)
    ensures HandedOn(d, sent, []) == [] && Stretch(d, sent, pre, t, []) == [] && Ruined(d, sent, t, []) == []
  {
  }

  /** A further copy of the last fragment does not rebuild anything. */
  lemma LastAgain(sent: seq<Packet>, pre: seq<nat>, k: nat)
    requires k in pre
    ensures !Rebuilds(sent, pre + [k])
  {
    hide MildlyReordered;
    var i :| 0 <= i < |pre| && pre[i] == k;
    assert (pre + [k])[i] == (pre + [k])[|pre|];
  }

  /** The step of the run is the first step and the rest. */
  lemma RunNext(d: Datagram, identif: uint32, cuts: seq<nat>, sent: seq<Packet>, s: State, ms: seq<Move>)
    requires Transfer(d, identif, cuts, sent, Straight(|sent|)) && Of(ms, |sent|) && Kept(s)
    ensures forall e :: e in EventsOf(sent, ms) && e.Arrival? ==> WellFormed(e.pkt)
    ensures |ms| == 0 ==> Delivered(s, EventsOf(sent, ms)) == []
    ensures |ms| > 0 ==> Of(ms[1..], |sent|) && (ms[0].Piece? ==> ms[0].k < |sent| && WellFormed(sent[ms[0].k]))
    ensures |ms| > 0 ==> forall e :: e in EventsOf(sent, ms[1..]) && e.Arrival? ==> WellFormed(e.pkt)
    ensures |ms| > 0 ==>
              var (t, r) := Step(s, EventOf(sent, ms[0]));
              Delivered(s, EventsOf(sent, ms)) == (if r.Some? then [r.value] else []) + Delivered(t, EventsOf(sent, ms[1..]))
  {
    hide Transfer, Receive, Tick, WellFormed, Kept, EventsOf, Delivered, FragOf, KeyOf, FieldMore, Pieces;
    EventsFormed(d, identif, cuts, sent, ms);
    if |ms| == 0 {
      DeliveredNone(s, EventsOf(sent, ms));
    } else {
      EventsNext(sent, ms);
      EventsFormed(d, identif, cuts, sent, ms[1..]);
      if ms[0].Piece? { PieceOf(d, identif, cuts, sent, ms[0].k); }
      DeliveredNext(s, EventOf(sent, ms[0]), EventsOf(sent, ms[1..]));
    }
  }

  /** From the empty table, exactly HandedOn is handed on. */
  lemma {:induction false} RunExact(d: Datagram, identif: uint32, cuts: seq<nat>, sent: seq<Packet>, ms: seq<Move>)
    requires Transfer(d, identif, cuts, sent, Straight(|sent|)) && Of(ms, |sent|)
    ensures Kept(Empty()) && forall e :: e in EventsOf(sent, ms) && e.Arrival? ==> WellFormed(e.pkt)
    ensures Delivered(Empty(), EventsOf(sent, ms)) == HandedOn(d, sent, ms)
    decreases |ms|
  {
    hide Transfer, Receive, Tick, WellFormed, Kept, Empty, At, Rebuilds, EventsOf, Delivered, HandedOn, Stretch, Of;
    EmptyKept();
    RunNext(d, identif, cuts, sent, Empty(), ms);
    if |ms| == 0 {
      NothingMore(d, sent, [0], 0);
    } else {
      HandedOnNext(d, sent, ms);
      if ms[0].Timer? {
        EmptyTick(ms[0].now);
        RunExact(d, identif, cuts, sent, ms[1..]);
      } else if ms[0].k > 0 {
        DroppedBefore(d, identif, cuts, sent, ms[0].k, ms[0].now);
        RunExact(d, identif, cuts, sent, ms[1..]);
      } else {
        FirstQueued(d, identif, cuts, sent, ms[0].now);
        StretchRun(d, identif, cuts, sent, [0], ms[0].now, ms[1..]);
      }
    }
  }

  lemma {:induction false} StretchRun(d: Datagram, identif: uint32, cuts: seq<nat>, sent: seq<Packet>, pre: seq<nat>, t: uint32, ms: seq<Move>)
    requires Transfer(d, identif, cuts, sent, Straight(|sent|)) && Of(ms, |sent|) && Gathered(pre, |sent|)
    ensures Kept(At(d, identif, sent, pre, t)) && forall e :: e in EventsOf(sent, ms) && e.Arrival? ==> WellFormed(e.pkt)
    ensures Delivered(At(d, identif, sent, pre, t), EventsOf(sent, ms)) == Stretch(d, sent, pre, t, ms)
    decreases |ms|
  {
    hide Transfer, Receive, Tick, WellFormed, Kept, Empty, At, Rebuilds, EventsOf, Delivered, HandedOn, Stretch, Ruined, Of, Gathered, Overdue;
    StraightSize(d, identif, cuts, sent);
    AtKept(d, identif, cuts, sent, pre, t);
    RunNext(d, identif, cuts, sent, At(d, identif, sent, pre, t), ms);
    if |ms| == 0 {
      NothingMore(d, sent, pre, t);
    } else {
      StretchNext(d, sent, pre, t, ms);
      if ms[0].Timer? {
        AtTick(d, identif, cuts, sent, pre, t, ms[0].now);
        if Overdue(t, ms[0].now) {
          RunExact(d, identif, cuts, sent, ms[1..]);
        } else {
          StretchRun(d, identif, cuts, sent, pre, t, ms[1..]);
        }
      } else {
        var k := ms[0].k;
        OneMore(d, identif, cuts, sent, pre, t, k, ms[0].now);
        if k < |sent| - 1 {
          StretchRun(d, identif, cuts, sent, pre + [k], t, ms[1..]);
        } else if Rebuilds(sent, pre + [k]) {
          RunExact(d, identif, cuts, sent, ms[1..]);
        } else {
          assert (pre + [k])[|pre|] == k;
          RuinedRun(d, identif, cuts, sent, pre + [k], t, ms[1..]);
        }
      }
    }
  }

  lemma {:induction false} RuinedRun(d: Datagram, identif: uint32, cuts: seq<nat>, sent: seq<Packet>, pre: seq<nat>, t: uint32, ms: seq<Move>)
    requires Transfer(d, identif, cuts, sent, Straight(|sent|)) && Of(ms, |sent|) && Gathered(pre, |sent|) && |sent| - 1 in pre
    ensures Kept(At(d, identif, sent, pre, t)) && forall e :: e in EventsOf(sent, ms) && e.Arrival? ==> WellFormed(e.pkt)
    ensures Delivered(At(d, identif, sent, pre, t), EventsOf(sent, ms)) == Ruined(d, sent, t, ms)
    decreases |ms|
  {
    hide Transfer, Receive, Tick, WellFormed, Kept, Empty, At, Rebuilds, EventsOf, Delivered, HandedOn, Stretch, Ruined, Of, Gathered, Overdue;
    StraightSize(d, identif, cuts, sent);
    AtKept(d, identif, cuts, sent, pre, t);
    RunNext(d, identif, cuts, sent, At(d, identif, sent, pre, t), ms);
    if |ms| == 0 {
      NothingMore(d, sent, pre, t);
    } else {
      RuinedNext(d, sent, t, ms);
      if ms[0].Timer? {
        AtTick(d, identif, cuts, sent, pre, t, ms[0].now);
        if Overdue(t, ms[0].now) {
          RunExact(d, identif, cuts, sent, ms[1..]);
        } else {
          RuinedRun(d, identif, cuts, sent, pre, t, ms[1..]);
        }
      } else {
        var k := ms[0].k;
        OneMore(d, identif, cuts, sent, pre, t, k, ms[0].now);
        if k == |sent| - 1 { LastAgain(sent, pre, k); }
        RuinedRun(d, identif, cuts, sent, pre + [k], t, ms[1..]);
      }
    }
  }

  /** Fragments that the loop sent for an MTU of at least 56 come in over any run, in any order, with any
      repetitions and omissions and any checks for time-outs between them. The datagram is handed on for
      each stretch from an opening first fragment to the next last one, if that stretch has every fragment
      once and mildly reordered; otherwise nothing more is, until the entry has timed out. */
  lemma EveryRun(d: Datagram, identif: uint32, cuts: seq<nat>, sent: seq<Packet>, most: nat, ms: seq<Move>)
    requires ValidDatagram(d) && most <= NET_PAYLOAD && Cuts(cuts, |d.payload|, most) && Sent(d, identif, cuts, sent, most)
    requires OffsetsRight(cuts, sent) && |sent| >= 2 && Of(ms, |sent|)
    ensures Kept(Empty()) && forall e :: e in EventsOf(sent, ms) && e.Arrival? ==> WellFormed(e.pkt)
    ensures Delivered(Empty(), EventsOf(sent, ms)) == HandedOn(d, sent, ms)
  {
    hide Transfer, Order, Cuts, Sent, OffsetsRight, Kept, WellFormed, Delivered, HandedOn, Of, Empty;
    StraightOrder(|sent|);
    SentTransfer(d, identif, cuts, sent, most, Straight(|sent|));
    RunExact(d, identif, cuts, sent, ms);
  }

  // ------------------------------------------------------------ each fragment once

  function MovesOf(o: seq<nat>, times: seq<uint32>): (ms: seq<Move>)
    requires |o| == |times|
    ensures |ms| == |o| && forall i {:trigger ms[i]} :: 0 <= i < |o| ==> ms[i] == Piece(o[i], times[i])
  {
    seq(|o|, i requires 0 <= i < |o| => Piece(o[i], times[i]))
  }

  lemma {:induction false} IndexesAll(ms: seq<Move>)
    requires forall i {:trigger ms[i]} :: 0 <= i < |ms| ==> ms[i].Piece?
    ensures |Indexes(ms)| == |ms| && forall i {:trigger ms[i]} :: 0 <= i < |ms| ==> Indexes(ms)[i] == ms[i].k
    decreases |ms|
  {
    if |ms| > 0 {
      IndexesAll(ms[1..]);
      forall i | 0 < i < |ms| ensures Indexes(ms)[i] == ms[i].k { assert ms[1..][i - 1] == ms[i]; }
    }
  }

  lemma SameEvents(sent: seq<Packet>, o: seq<nat>, times: seq<uint32>)
    requires Permutation(o, |sent|) && |times| == |o|
    ensures Of(MovesOf(o, times), |sent|) && EventsOf(sent, MovesOf(o, times)) == Events(sent, o, times)
  {
    hide EventsOf, Events;
    forall m | m in MovesOf(o, times) ensures m.k < |sent| {
      var i :| 0 <= i < |o| && MovesOf(o, times)[i] == m;
    }
    assert EventsOf(sent, MovesOf(o, times)) == Events(sent, o, times);
  }

  /** The stretch of moves a to b is the stretch of the order. */
  lemma IndexesSlice(o: seq<nat>, times: seq<uint32>, a: nat, b: nat)
    requires |times| == |o| && a <= b <= |o|
    ensures Indexes(MovesOf(o, times)[a..b]) == o[a..b]
  {
    hide Indexes;
    var ms := MovesOf(o, times)[a..b];
    forall i | 0 <= i < |ms| ensures ms[i].Piece? && ms[i].k == o[a..b][i] { assert ms[i] == MovesOf(o, times)[a + i]; }
    IndexesAll(ms);
    assert Indexes(ms) == o[a..b];
  }

  lemma FromOpening(d: Datagram, sent: seq<Packet>, o: seq<nat>, times: seq<uint32>, i: nat)
    requires Permutation(o, |sent|) && |times| == |o| && i < |o| && o[i] == 0
    ensures HandedOn(d, sent, MovesOf(o, times)) == Stretch(d, sent, [0], times[i], MovesOf(o, times)[i + 1..])
  {
    hide Stretch, Opening;
    var ms := MovesOf(o, times);
    assert ms[i] == Piece(0, times[i]);
    var h := Opening(ms);
    assert o[h] == 0;
  }

  lemma NoTimeOut(d: Datagram, sent: seq<Packet>, t: uint32, ms: seq<Move>)
    requires forall i {:trigger ms[i]} :: 0 <= i < |ms| ==> ms[i].Piece?
    ensures Ruined(d, sent, t, ms) == []
  {
    hide HandedOn, TimeOut;
  }

  /** Where the last fragment closes the stretch that the first one opens. */
  lemma ClosingAt(o: seq<nat>, times: seq<uint32>, n: nat, t: uint32, i: nat, q: nat)
    requires Permutation(o, n) && |times| == |o| && i < n && q < n && i != q && o[q] == n - 1
    ensures Closing(MovesOf(o, times)[i + 1..], n, t) == if q < i then n - i - 1 else q - i - 1
  {
    hide Closing;
    var after := MovesOf(o, times)[i + 1..];
    forall h | 0 <= h < |after| ensures after[h] == Piece(o[i + 1 + h], times[i + 1 + h]) {}
    var j := Closing(after, n, t);
    if j < |after| { assert o[i + 1 + j] == n - 1; }
    if q > i { assert after[q - i - 1].k == n - 1; }
  }

  lemma AfterOpening(d: Datagram, sent: seq<Packet>, o: seq<nat>, times: seq<uint32>, t: uint32, i: nat, q: nat)
    requires Permutation(o, |sent|) && |times| == |o| && i < |o| && q < |o| && o[i] == 0 && o[q] == |o| - 1
    ensures Stretch(d, sent, [0], t, MovesOf(o, times)[i + 1..]) ==
              if i < q && Rebuilds(sent, o[i..q + 1]) then [d] + HandedOn(d, sent, MovesOf(o, times)[q + 1..]) else []
  {
    hide Permutation, HandedOn, Closing, Rebuilds, Ruined, Indexes;
    SizeOf(o, |sent|);
    var ms := MovesOf(o, times);
    var after := ms[i + 1..];
    ClosingAt(o, times, |sent|, t, i, q);
    if i < q {
      var j := q - i - 1;
      assert after[j] == Piece(|sent| - 1, times[q]);
      assert after[..j + 1] == ms[i + 1..q + 1] && after[j + 1..] == ms[q + 1..];
      IndexesSlice(o, times, i + 1, q + 1);
      assert [0] + o[i + 1..q + 1] == o[i..q + 1];
      var rest := after[j + 1..];
      forall h | 0 <= h < |rest| ensures rest[h].Piece? { assert rest[h] == ms[q + 1 + h]; }
      NoTimeOut(d, sent, t, after[j + 1..]);
    }
  }

  lemma SizeOf(o: seq<nat>, n: nat)
    requires Permutation(o, n)
    ensures |o| == n >= 2
  {
  }

  lemma ShortStretch(sent: seq<Packet>, stretch: seq<nat>)
    requires |stretch| < |sent|
    ensures !Rebuilds(sent, stretch)
  {
  }

  lemma OnceHandedOn(d: Datagram, sent: seq<Packet>, o: seq<nat>, times: seq<uint32>)
    requires Permutation(o, |sent|) && |times| == |o|
    ensures HandedOn(d, sent, MovesOf(o, times)) == if o[0] == 0 && o[|o| - 1] == |o| - 1 && MildlyReordered(Arriving(sent, o)) then [d] else []
  {
    hide MildlyReordered, Arriving, HandedOn, Stretch;
    assert 0 in o && |sent| - 1 in o;
    var i :| 0 <= i < |o| && o[i] == 0;
    var q :| 0 <= q < |o| && o[q] == |o| - 1;
    FromOpening(d, sent, o, times, i);
    AfterOpening(d, sent, o, times, times[i], i, q);
    if i == 0 && q == |o| - 1 {
      assert o[i..q + 1] == o;
      assert MovesOf(o, times)[q + 1..] == [];
      NothingMore(d, sent, o, 0);
    } else if i < q {
      ShortStretch(sent, o[i..q + 1]);
    }
  }

  /** Each fragment delivered once to an empty table, in any order, rebuilds the datagram exactly if the first
      fragment comes first, the last one last, and none after more than three that belong behind it. Otherwise
      nothing is handed on. */
  lemma AnyOrder(d: Datagram, identif: uint32, cuts: seq<nat>, sent: seq<Packet>, most: nat, o: seq<nat>, times: seq<uint32>)
    requires ValidDatagram(d) && most <= NET_PAYLOAD && Cuts(cuts, |d.payload|, most) && Sent(d, identif, cuts, sent, most)
    requires OffsetsRight(cuts, sent) && Permutation(o, |sent|) && |times| == |o|
    ensures Kept(Empty()) && forall e :: e in Events(sent, o, times) && e.Arrival? ==> WellFormed(e.pkt)
    ensures Delivered(Empty(), Events(sent, o, times)) ==
              if o[0] == 0 && o[|o| - 1] == |o| - 1 && MildlyReordered(Arriving(sent, o)) then [d] else []
  {
    hide Cuts, Sent, OffsetsRight, Kept, WellFormed, MildlyReordered, Arriving, Delivered, HandedOn, Empty, Of;
    SameEvents(sent, o, times);
    EveryRun(d, identif, cuts, sent, most, MovesOf(o, times));
    OnceHandedOn(d, sent, o, times);
  }
}
