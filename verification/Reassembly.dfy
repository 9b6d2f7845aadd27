/** The reassembly table with its lists in memory. */
module Reassembly {
  import opened Common
  import opened Bytes
  import opened Fragments
  import opened FragmentOrder
  import opened FragmentList
  import opened ReassemblyModel

  datatype Entry = Entry(
    srcAddr: seq<byte>, destAddr: seq<byte>, identif: uint32,
    perfragHeaders: BaseHeader, nextHeader: byte, fragList: FragList?, timestamp: uint32)

  class Reassembler {
    const table: array<Entry>
    /** The program's count of entries in use. */
    var size: int
    ghost var slots: seq<Option<Slot>>
    ghost var Repr: set<object>

    ghost predicate Valid()
      reads this, Repr
    {
      && this !in Repr && table in Repr && table.Length == REASSEMBLY_TABLE_MAX_SIZE
      && Kept(State(slots, size))
      && (forall i {:trigger Stored(i)} :: 0 <= i < table.Length ==> Stored(i))
      && ListsApart()
    }

    ghost predicate ListsApart()
      requires table in Repr
      reads this, Repr
    {
      forall i, j {:trigger table[i], table[j]} :: 0 <= i < j < table.Length && table[i].fragList != null && table[j].fragList != null ==>
        table[i].fragList in Repr && table[j].fragList in Repr && table[i].fragList.Repr !! table[j].fragList.Repr
    }

    /** Entry i of the table is slot i. */
    ghost predicate Stored(i: int)
      requires table in Repr && 0 <= i < table.Length == |slots|
      reads this, Repr
    {
      match slots[i]
      case None => table[i].fragList == null && table[i].timestamp == 0
      case Some(s) =>
        && var e := table[i];
        && e.fragList != null && e.fragList in Repr && this !in e.fragList.Repr && table !in e.fragList.Repr && e.fragList.Repr <= Repr
        && e.fragList.sentinel in Repr && (forall n :: n in e.fragList.nodes ==> n in Repr)
        && e.fragList.Valid() && e.fragList.frags == s.frags
        && |e.srcAddr| == |e.destAddr| == IPV6_ASIZE && s.key == Key(e.srcAddr, e.destAddr, e.identif)
        && s.headers == e.perfragHeaders && s.nextHeader == e.nextHeader && s.timestamp == e.timestamp
    }

    ghost function Abstract(): (s: State)
      reads this
    {
      State(slots, size)
    }

    constructor ()
      ensures Valid() && fresh(Repr) && size == 0 && forall i {:trigger slots[i]} :: 0 <= i < |slots| ==> slots[i].None?
    {
      table := new Entry[REASSEMBLY_TABLE_MAX_SIZE](_ => Entry([], [], 0, BaseHeader([], 0, 0, 0, [], []), 0, null, 0));
      size := 0;
      slots := seq(REASSEMBLY_TABLE_MAX_SIZE, _ => None);
      Repr := {table};
      new;
      NoneLive(slots, |slots|);
      assert slots[..|slots|] == slots;
      forall i | 0 <= i < table.Length ensures Stored(i) {
        assert slots[i] == None && table[i].fragList == null;
      }
    }

    /** byteComp: compare len bytes. */
    static method ByteComp(first: seq<byte>, second: seq<byte>, len: nat) returns (same: bool)
      requires len <= |first| && len <= |second|
      ensures same <==> first[..len] == second[..len]
    {
      var i := 0;
      while i < len && first[i] == second[i]
        invariant 0 <= i <= len && first[..i] == second[..i]
      {
        i := i + 1;
      }
      if i < len { assert first[..len][i] != second[..len][i]; }
      same := i == len;
    }

    /** An entry whose list is new or has grown by new nodes shares nothing with the others. */
    twostate lemma StillApart(i: int)
      requires old(Valid()) && |slots| == old(|slots|) == table.Length && 0 <= i < table.Length && table in Repr && old(Repr) <= Repr
      requires forall k {:trigger Stored(k)} :: 0 <= k < table.Length ==> Stored(k)
      requires forall k {:trigger table[k]} :: 0 <= k < table.Length && k != i ==> table[k] == old(table[k])
      requires forall k {:trigger Stored(k)} :: 0 <= k < table.Length && k != i && table[k].fragList != null ==> unchanged(table[k].fragList)
      requires table[i].fragList != null && table[i].fragList in Repr
      requires forall o :: o in table[i].fragList.Repr && o in old(Repr) ==> old(table[i].fragList != null && o in table[i].fragList.Repr)
      ensures ListsApart()
    {
      hide FragList.Valid, Kept;
      forall k | 0 <= k < table.Length && k != i && table[k].fragList != null
        ensures table[k].fragList in Repr && table[k].fragList.Repr <= old(Repr) && unchanged(table[k].fragList)
      {
        assert old(Stored(k)) && Stored(k);
      }
      forall x, y | 0 <= x < y < table.Length && table[x].fragList != null && table[y].fragList != null
        ensures table[x].fragList.Repr !! table[y].fragList.Repr
      {
        assert old(table[x].fragList != null && table[y].fragList != null) ==> old(table[x].fragList.Repr !! table[y].fragList.Repr);
      }
      assert Stored(i);
    }

    method CheckReassemblyTable(srcAddr: seq<byte>, destAddr: seq<byte>, identif: uint32) returns (r: int)
      requires Valid() && |srcAddr| == |destAddr| == IPV6_ASIZE
      ensures 0 <= size <= |slots| && r == Lookup(slots, size, Key(srcAddr, destAddr, identif))
    {
      hide Kept, Lookup;
      KeptShape(State(slots, size));
      for i := 0 to size
        invariant forall k :: 0 <= k < i ==> !HasKey(slots, k, Key(srcAddr, destAddr, identif))
      {
        assert Stored(i);
        if table[i].fragList != null {
          var sameSrc := ByteComp(srcAddr, table[i].srcAddr, IPV6_ASIZE);
          var sameDest := ByteComp(destAddr, table[i].destAddr, IPV6_ASIZE);
          assert srcAddr[..IPV6_ASIZE] == srcAddr && destAddr[..IPV6_ASIZE] == destAddr;
          assert table[i].srcAddr[..IPV6_ASIZE] == table[i].srcAddr && table[i].destAddr[..IPV6_ASIZE] == table[i].destAddr;
          if sameSrc && sameDest && identif == table[i].identif {
            assert HasKey(slots, i, Key(srcAddr, destAddr, identif));
            return i;
          }
        }
      }
      return -1;
    }

    method FindHole() returns (r: int)
      requires Valid()
      ensures r == Hole(slots, |slots|)
    {
      hide Kept;
      KeptShape(State(slots, size));
      for i := 0 to REASSEMBLY_TABLE_MAX_SIZE
        invariant forall k {:trigger slots[k]} :: 0 <= k < i ==> slots[k].Some?
      {
        assert Stored(i);
        if table[i].fragList == null && table[i].timestamp == 0 {
          return i;
        }
      }
      return -1;
    }

    /** Make a node for the fragment and queue it. */
    static method InsertFragList(list: FragList, pkt: Packet)
      requires list.Valid() && WellFormed(pkt)
      modifies list, list.sentinel, list.nodes
      ensures list.Valid() && |list.nodes| > 0 && fresh(list.Repr - old(list.Repr)) && old(list.Repr) <= list.Repr
      ensures list.frags == Insert(old(list.frags), FragOf(pkt))
    {
      var offset := FieldOffset(pkt.frag.offset);
      var payloadLen := pkt.base.payloadLen - FRAG_HDR_LEN;
      var newNode := new FragDesc(offset, Some(pkt.payload[..payloadLen]));
      assert pkt.payload[..payloadLen] == pkt.payload;
      list.InsertNode(newNode);
    }

    /** The other entries are not touched by what happened to entry i. */
    twostate lemma OthersStored(i: int)
      requires old(Valid()) && table.Length == |slots| == old(|slots|) && 0 <= i < table.Length && table in Repr
      requires old(Repr) <= Repr
      requires forall k {:trigger table[k]} :: 0 <= k < table.Length && k != i ==> table[k] == old(table[k]) && slots[k] == old(slots[k])
      requires forall o {:trigger o in old(Repr)} :: o in old(Repr) && o != table && (old(table[i]).fragList == null || o !in old(table[i].fragList.Repr)) ==> unchanged(o)
      ensures forall k {:trigger Stored(k)} :: 0 <= k < table.Length && k != i ==> Stored(k)
      ensures forall k {:trigger Stored(k)} :: 0 <= k < table.Length && k != i && table[k].fragList != null ==> unchanged(table[k].fragList)
    {
      forall k | 0 <= k < table.Length && k != i
        ensures Stored(k) && (table[k].fragList != null ==> unchanged(table[k].fragList))
      {
        assert old(Stored(k));
        if slots[k].Some? {
          var list := table[k].fragList;
          assert old(table[i]).fragList != null ==> old(list.Repr) !! old(table[i].fragList.Repr);
          forall o | o in old(list.Repr) ensures unchanged(o) {}
          list.StaysValid();
        }
      }
    }

    static lemma AddressSizes(pkt: Packet)
      requires WellFormed(pkt)
      ensures |pkt.base.src| == |pkt.base.dest| == IPV6_ASIZE
    {
    }

    /** A list with its sentinel and the first fragment. */
    static method NewList(pkt: Packet) returns (list: FragList)
      requires WellFormed(pkt)
      ensures fresh(list) && fresh(list.Repr) && list.Valid() && list.frags == [FragOf(pkt)]
      ensures list.sentinel in list.Repr && forall n :: n in list.nodes ==> n in list.Repr
    {
      list := new FragList();
      InsertFragList(list, pkt);
      InsertFirst(FragOf(pkt));
    }

    /** Make an entry for a first fragment, unless the table is full. */
    method AppendReaTable(pkt: Packet, now: uint32)
      requires Valid() && WellFormed(pkt)
      modifies this, table
      ensures Valid() && fresh(Repr - old(Repr))
      ensures var h := Hole(old(slots), |old(slots)|);
              if h == -1 then Abstract() == old(Abstract())
              else Abstract() == State(old(slots)[h := Some(NewSlot(pkt, now))], old(size) + 1)
    {
      hide Kept, Hole, WellFormed, FragList.Valid;
      var hole := FindHole();
      if hole == -1 {
        return;
      }
      KeptShape(Abstract());
      AppendKeeps(Abstract(), hole, pkt, now);
      var list := NewList(pkt);
      AddressSizes(pkt);
      table[hole] := Entry(pkt.base.src, pkt.base.dest, pkt.frag.identif, pkt.base, pkt.frag.nextHeader, list, now);
      size := size + 1;
      slots := slots[hole := Some(NewSlot(pkt, now))];
      Repr := Repr + list.Repr;
      OthersStored(hole);
      StillApart(hole);
    }

    method QueueFragment(i: int, pkt: Packet)
      requires Valid() && WellFormed(pkt) && 0 <= i < table.Length && slots[i].Some?
      modifies this, Repr
      ensures Valid() && fresh(Repr - old(Repr)) && table[..] == old(table[..])
      ensures Abstract() == State(old(slots)[i := Some(old(slots)[i].value.(frags := Insert(old(slots)[i].value.frags, FragOf(pkt))))], old(size))
    {
      hide Kept, Insert, FragOf, WellFormed;
      KeptShape(Abstract());
      assert Stored(i);
      var list := table[i].fragList;
      ghost var slot := slots[i].value.(frags := Insert(slots[i].value.frags, FragOf(pkt)));
      QueueKeeps(Abstract(), i, pkt);
      InsertFragList(list, pkt);
      slots := slots[i := Some(slot)];
      Repr := Repr + list.Repr;
      OthersStored(i);
      StillApart(i);
    }

    /** removeReaEntry: free the list and clear the entry. */
    method RemoveReaEntry(i: int) returns (ghost freed: seq<FragDesc>)
      requires Valid() && 0 <= i < table.Length && slots[i].Some?
      modifies this, table
      ensures Valid() && Repr == old(Repr)
      ensures old(table[i].fragList) != null && freed == old(table[i].fragList.nodes + [table[i].fragList.sentinel])
      ensures Abstract() == State(old(slots)[i := None], old(size) - 1)
    {
      hide Kept;
      KeptShape(Abstract());
      RemoveKeeps(Abstract(), i);
      assert Stored(i);
      var entry := table[i];
      freed := entry.fragList.FreeNodes();
      table[i] := entry.(fragList := null, timestamp := 0);
      size := size - 1;
      slots := slots[i := None];
      OthersStored(i);
    }

    static method UpdateDatagramHeaders(headers: BaseHeader, payloadLen: uint16, nextHeader: byte) returns (r: BaseHeader)
      ensures r == headers.(payloadLen := payloadLen,
                            nextHeader := if headers.nextHeader == NEXT_HEADER_FRAGMENT then nextHeader else headers.nextHeader)
    {
      r := headers.(payloadLen := payloadLen);
      if r.nextHeader == NEXT_HEADER_FRAGMENT {
        r := r.(nextHeader := nextHeader);
      }
    }

    /** reassembly: the table in memory takes the steps of the model. */
    method Reassemble(pkt: Packet, now: uint32) returns (r: Option<Datagram>)
      requires Valid() && WellFormed(pkt)
      modifies this, Repr
      ensures Valid() && fresh(Repr - old(Repr))
      ensures old(Kept(Abstract())) && (Abstract(), r) == Receive(old(Abstract()), pkt, now)
    {
      hide Kept, Insert, FragOf, FieldOffset, FieldMore, Lookup, Hole, Contiguous, Joined, Bounded, NewSlot, Stored, ListsApart;
      KeptShape(Abstract());
      var entry := CheckReassemblyTable(pkt.base.src, pkt.base.dest, pkt.frag.identif);
      if entry == -1 {
        var offset := FieldOffset(pkt.frag.offset);
        if offset == 0 {
          AppendReaTable(pkt, now);
        }
        return None;
      }
      ghost var slot := slots[entry].value.(frags := Insert(slots[entry].value.frags, FragOf(pkt)));
      BoundedInsert(slots[entry].value.frags, FragOf(pkt));
      PacketEnds(pkt);
      QueueFragment(entry, pkt);
      if FieldMore(pkt.frag.offset) {
        return None;
      }
      r := CopyToDatagram(entry);
      if r.Some? {
        ghost var freed := RemoveReaEntry(entry);
        assert old(slots)[entry := Some(slot)][entry := None] == old(slots)[entry := None];
      }
    }

    /** copy_to_datagram and the header update that follows it. */
    method CopyToDatagram(i: int) returns (r: Option<Datagram>)
      requires Valid() && 0 <= i < |slots| && slots[i].Some?
      ensures Bounded(slots[i].value.frags) && r == Complete(slots[i].value)
    {
      hide Kept, Contiguous, Joined;
      KeptShape(Abstract());
      assert Stored(i);
      BoundedEnds(slots[i].value.frags);
      var ok, payload := table[i].fragList.CopyPayload();
      if !ok {
        return None;
      }
      var headers := UpdateDatagramHeaders(table[i].perfragHeaders, |payload|, table[i].nextHeader);
      return Some(Datagram(headers, payload));
    }

    /** check_reassembly_time_out. */
    method CheckReassemblyTimeOut(now: uint32)
      requires Valid()
      modifies this, table
      ensures Valid() && Abstract() == Tick(old(Abstract()), now)
    {
      hide Kept, Expired, Late;
      KeptShape(Abstract());
      ghost var before := slots;
      for i := 0 to REASSEMBLY_TABLE_MAX_SIZE
        invariant Valid() && Repr == old(Repr)
        invariant slots == Expired(before, now, i)
      {
        KeptShape(Abstract());
        assert Stored(i);
        ExpiredStep(before, now, i);
        if table[i].fragList != null && table[i].timestamp != 0 {
          if (now - table[i].timestamp) % WORD_SPAN >= REASSEMBLY_MAX_TIME {
            ghost var freed := RemoveReaEntry(i);
          }
        }
      }
      SizeCounts(Abstract());
    }
  }

  lemma {:induction false} NoneLive(slots: seq<Option<Slot>>, n: nat)
    requires n <= |slots| && forall i {:trigger slots[i]} :: 0 <= i < |slots| ==> slots[i].None?
    ensures Count(slots[..n]) == 0
  {
    if n > 0 {
      NoneLive(slots, n - 1);
      assert slots[..n][..n - 1] == slots[..n - 1];
    }
  }

  lemma AppendKeeps(s: State, h: int, pkt: Packet, now: uint32)
    requires Kept(s) && 0 <= h < |s.slots| && s.slots[h].None? && WellFormed(pkt)
    ensures Kept(State(s.slots[h := Some(NewSlot(pkt, now))], s.size + 1))
  {
    hide Count;
    CountUpdate(s.slots, h, Some(NewSlot(pkt, now)));
  }

  lemma QueueKeeps(s: State, i: int, pkt: Packet)
    requires Kept(s) && 0 <= i < |s.slots| && s.slots[i].Some? && WellFormed(pkt)
    ensures Kept(State(s.slots[i := Some(s.slots[i].value.(frags := Insert(s.slots[i].value.frags, FragOf(pkt))))], s.size))
  {
    hide Count, Bounded, Insert;
    BoundedInsert(s.slots[i].value.frags, FragOf(pkt));
    CountUpdate(s.slots, i, Some(s.slots[i].value.(frags := Insert(s.slots[i].value.frags, FragOf(pkt)))));
  }

  lemma BoundedEnds(fs: seq<Frag>)
    requires Bounded(fs)
    ensures forall f :: f in fs ==> End(f) <= PAYLOAD_MAX
  {
  }

  lemma PacketEnds(pkt: Packet)
    requires WellFormed(pkt)
    ensures End(FragOf(pkt)) <= PAYLOAD_MAX
  {
  }

  lemma SizeCounts(s: State)
    requires Kept(s)
    ensures s.size == Count(s.slots)
  {
  }

  lemma ExpiredStep(slots: seq<Option<Slot>>, now: uint32, n: nat)
    requires n < |slots|
    ensures Expired(slots, now, 0) == slots
    ensures Expired(slots, now, n)[n] == slots[n]
    ensures Expired(slots, now, n + 1) == if slots[n].Some? && Late(slots[n].value, now) then Expired(slots, now, n)[n := None] else Expired(slots, now, n)
    ensures slots[n].Some? ==> (Late(slots[n].value, now) <==>
              slots[n].value.timestamp != 0 && (now - slots[n].value.timestamp) % WORD_SPAN >= REASSEMBLY_MAX_TIME)
  {
  }

  lemma RemoveKeeps(s: State, i: int)
    requires Kept(s) && 0 <= i < |s.slots| && s.slots[i].Some?
    ensures Kept(State(s.slots[i := None], s.size - 1))
  {
    hide Count, Bounded;
    CountUpdate(s.slots, i, None);
  }

  lemma InsertFirst(x: Frag)
    ensures Insert([], x) == [x]
  {
  }
}
