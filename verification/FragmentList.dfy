/** The receiver's circular list of fragments, with its sentinel node. */
module FragmentList {
  import opened Common
  import opened Bytes
  import opened Fragments
  import opened FragmentOrder

  /** One node of the list; the sentinel has no payload. */
  class FragDesc {
    var offset: nat
    var payload: Option<seq<byte>>
    var prev: FragDesc?
    var next: FragDesc?

    constructor (offset: nat, payload: Option<seq<byte>>)
      ensures this.offset == offset && this.payload == payload && prev == null && next == null
    {
      this.offset := offset;
      this.payload := payload;
      prev := null;
      next := null;
    }
  }

  ghost function Around(sentinel: FragDesc, nodes: seq<FragDesc>, i: int): (n: FragDesc)
    requires 0 <= i <= |nodes| + 1
  {
    if i == 0 || i == |nodes| + 1 then sentinel else nodes[i - 1]
  }

  predicate Apart(sentinel: FragDesc, nodes: seq<FragDesc>) {
    && sentinel !in nodes
    && (forall i, j {:trigger nodes[i], nodes[j]} :: 0 <= i < j < |nodes| ==> nodes[i] != nodes[j])
  }

  ghost predicate Holds(nodes: seq<FragDesc>, frags: seq<Frag>)
    reads nodes`offset, nodes`payload
  {
    && |nodes| == |frags|
    && (forall i {:trigger nodes[i]} {:trigger frags[i]} :: 0 <= i < |nodes| ==>
          nodes[i].payload == Some(frags[i].payload) && nodes[i].offset == frags[i].offset)
  }

  lemma HoldsLength(nodes: seq<FragDesc>, frags: seq<Frag>)
    requires Holds(nodes, frags)
    ensures |nodes| == |frags|
  {
  }

  lemma InsertHolds(sentinel: FragDesc, nodes: seq<FragDesc>, frags: seq<Frag>, k: nat, n: FragDesc)
    requires Holds(nodes, frags) && Apart(sentinel, nodes) && k <= |nodes|
    requires n != sentinel && n !in nodes && n.payload.Some?
    ensures Holds(nodes[..k] + [n] + nodes[k..], InsertAt(frags, k, Frag(n.offset, n.payload.value)))
    ensures Apart(sentinel, nodes[..k] + [n] + nodes[k..])
  {
  }

  class FragList {
    const sentinel: FragDesc
    ghost var nodes: seq<FragDesc>
    /** What the nodes hold. */
    ghost var frags: seq<Frag>
    ghost var Repr: set<object>

    ghost predicate Valid()
      reads this, sentinel, nodes
    {
      this in Repr && sentinel in Repr && (forall n :: n in nodes ==> n in Repr) &&
      sentinel.payload == None && Apart(sentinel, nodes) && Ring() && Holds(nodes, frags)
    }

    /** An empty list has no links at all; otherwise the links go around in both directions. */
    ghost predicate Ring()
      reads this, sentinel, nodes
    {
      if |nodes| == 0 then sentinel.next == null && sentinel.prev == null
      else forall i {:trigger At(i)} :: 0 <= i <= |nodes| ==> At(i).next == At(i + 1) && At(i + 1).prev == At(i)
    }

    /** The nodes in order with the sentinel at both ends. */
    ghost function At(i: int): (n: FragDesc)
      requires 0 <= i <= |nodes| + 1
      reads this
    {
      Around(sentinel, nodes, i)
    }

    constructor ()
      ensures Valid() && frags == [] && nodes == [] && fresh(Repr)
    {
      sentinel := new FragDesc(0, None);
      nodes, frags, Repr := [], [], {this, sentinel};
    }

    twostate lemma StaysValid()
      requires old(Valid()) && forall o {:trigger o in old(Repr)} :: o in old(Repr) ==> unchanged(o)
      ensures Valid() && unchanged(this)
    {
      forall i | 0 <= i < |nodes|
        ensures nodes[i].next == old(nodes[i].next) && nodes[i].prev == old(nodes[i].prev)
        ensures nodes[i].payload == old(nodes[i].payload) && nodes[i].offset == old(nodes[i].offset)
      {
        assert nodes[i] in nodes && nodes[i] in old(Repr);
      }
    }

    lemma SingleRing()
      requires |nodes| == 1 && sentinel.next == sentinel.prev == nodes[0] && nodes[0].next == nodes[0].prev == sentinel
      ensures Ring()
    {
    }

    lemma NodesDiffer(i: nat, j: nat)
      requires Apart(sentinel, nodes) && i <= |nodes| && j <= |nodes| && i != j
      ensures At(i) != At(j) && At(i + 1) != At(j + 1)
    {
    }

    /** The ring of `before` opened between places k and k + 1 to take in newNode. */
    lemma SplicedRing(before: seq<FragDesc>, newNode: FragDesc, k: nat)
      requires k <= |before| && nodes == before[..k] + [newNode] + before[k..]
      requires forall i {:trigger Around(sentinel, before, i)} :: 0 <= i <= |before| && i != k ==>
                 && Around(sentinel, before, i).next == Around(sentinel, before, i + 1)
                 && Around(sentinel, before, i + 1).prev == Around(sentinel, before, i)
      requires newNode.prev == Around(sentinel, before, k) && newNode.next == Around(sentinel, before, k + 1)
      requires Around(sentinel, before, k).next == newNode && Around(sentinel, before, k + 1).prev == newNode
      ensures Ring()
    {
      forall i | 0 <= i <= |nodes| ensures At(i).next == At(i + 1) && At(i + 1).prev == At(i) {
        if i < k {
          assert At(i) == Around(sentinel, before, i);
        } else if i > k + 1 {
          assert At(i) == Around(sentinel, before, i - 1);
        }
      }
    }

    method LinkBetween(tail: FragDesc, newNode: FragDesc, ghost k: nat)
      requires Apart(sentinel, nodes) && Ring() && newNode != sentinel && newNode !in nodes && 0 < |nodes| && k <= |nodes| && tail == At(k)
      modifies sentinel`prev, sentinel`next, nodes`prev, nodes`next, newNode`prev, newNode`next
      ensures newNode.prev == At(k) && newNode.next == At(k + 1) && At(k).next == newNode && At(k + 1).prev == newNode
      ensures forall i {:trigger Around(sentinel, nodes, i)} :: 0 <= i <= |nodes| && i != k ==>
                && Around(sentinel, nodes, i).next == Around(sentinel, nodes, i + 1)
                && Around(sentinel, nodes, i + 1).prev == Around(sentinel, nodes, i)
    {
      assert At(k).next == At(k + 1);
      newNode.prev := tail;
      newNode.next := tail.next;
      tail.next.prev := newNode;
      tail.next := newNode;
      forall i | 0 <= i <= |nodes| && i != k
        ensures Around(sentinel, nodes, i).next == Around(sentinel, nodes, i + 1)
        ensures Around(sentinel, nodes, i + 1).prev == Around(sentinel, nodes, i)
      {
        NodesDiffer(i, k);
        assert old(At(i).next == At(i + 1) && At(i + 1).prev == At(i));
      }
    }

    /** The linking steps at the end of insert_node. */
    method LinkAfter(tail: FragDesc?, newNode: FragDesc, ghost k: nat)
      requires Valid() && newNode != sentinel && newNode !in nodes && newNode.payload.Some? && k <= |nodes|
      requires if |nodes| == 0 then tail == null else tail == At(k)
      modifies this, sentinel`prev, sentinel`next, nodes`prev, nodes`next, newNode`prev, newNode`next
      ensures Valid()
      ensures nodes == old(nodes[..k] + [newNode] + nodes[k..]) && Repr == old(Repr) + {newNode}
      ensures frags == InsertAt(old(frags), k, Frag(newNode.offset, newNode.payload.value))
    {
      hide Ring, Holds, Apart, InsertAt;
      ghost var before := nodes;
      HoldsLength(nodes, frags);
      if tail == null {
        newNode.prev := sentinel;
        newNode.next := sentinel;
        sentinel.prev := newNode;
        sentinel.next := newNode;
      } else {
        LinkBetween(tail, newNode, k);
      }
      InsertHolds(sentinel, nodes, frags, k, newNode);
      frags := InsertAt(frags, k, Frag(newNode.offset, newNode.payload.value));
      nodes, Repr := nodes[..k] + [newNode] + nodes[k..], Repr + {newNode};
      if tail == null {
        SingleRing();
      } else {
        SplicedRing(before, newNode, k);
      }
    }

    method InsertNode(newNode: FragDesc)
      requires Valid() && newNode != sentinel && newNode !in nodes && newNode.payload.Some?
      modifies this, sentinel`prev, sentinel`next, nodes`prev, nodes`next, newNode`prev, newNode`next
      ensures Valid()
      ensures Repr == old(Repr) + {newNode} && |nodes| > 0
      ensures frags == Insert(old(frags), Frag(newNode.offset, newNode.payload.value))
    {
      ghost var x := Frag(newNode.offset, newNode.payload.value);
      ghost var k: nat := |nodes|;
      var tail := sentinel.prev;
      var count := 0;
      assert |nodes| > 0 ==> At(k).next == At(k + 1);
      while tail != null && tail.payload.Some?
        invariant Valid() && nodes == old(nodes) && frags == old(frags) && Repr == old(Repr)
        invariant 0 <= k <= |nodes| && 0 <= count <= 3 && (if |nodes| == 0 then tail == null else tail == At(k))
        invariant PlaceFrom(frags, x, |frags|, 0) == PlaceFrom(frags, x, k, count)
        decreases k
      {
        if count == 3 {
          break;
        }
        if newNode.offset >= tail.offset + |tail.payload.value| {
          LinkAfter(tail, newNode, k);
          return;
        } else if newNode.offset < tail.offset {
          tail := tail.prev;
          k := k - 1;
        } else {
          break;
        }
        count := count + 1;
      }
      LinkAfter(tail, newNode, k);
    }

    /** The node after place k of the ring, and whether it is the sentinel. */
    lemma Onward(k: nat)
      requires Valid() && k <= |nodes|
      ensures |nodes| == 0 ==> sentinel.next == null
      ensures |nodes| > 0 ==> At(k).next == At(k + 1) && (At(k + 1).payload.Some? <==> k < |nodes|)
      ensures k < |nodes| == |frags| ==> At(k + 1) == nodes[k] && nodes[k].payload == Some(frags[k].payload) && nodes[k].offset == frags[k].offset
      ensures |nodes| == |frags|
    {
    }

    /** The walk of copy_to_datagram: it succeeds exactly if the fragments join without a gap. */
    method CopyPayload() returns (ok: bool, payload: seq<byte>)
      requires Valid() && forall f :: f in frags ==> End(f) <= PAYLOAD_MAX
      ensures ok <==> Contiguous(frags)
      ensures ok ==> payload == Joined(frags) && |payload| <= PAYLOAD_MAX
    {
      hide Apart, Ring, Holds, Contiguous, Joined;
      var temp := sentinel.next;
      var payloadLen: uint16 := 0;
      ghost var k: nat := 0;
      payload := [];
      Onward(0);
      PrefixEmpty(frags);
      while temp != null && temp.payload.Some?
        invariant k <= |nodes| && (if |nodes| == 0 then temp == null else temp == At(k + 1))
        invariant Contiguous(frags[..k]) && payload == Joined(frags[..k]) && payloadLen == |payload|
        decreases |nodes| - k
      {
        Onward(k);
        PrefixStep(frags, k);
        if payloadLen != temp.offset {
          return false, payload;
        }
        payload := payload + temp.payload.value;
        payloadLen := payloadLen + |temp.payload.value|;
        k := k + 1;
        Onward(k);
        temp := temp.next;
      }
      Onward(k);
      assert frags[..k] == frags;
      ok := true;
    }

    /** The walk of removeReaEntry frees every node once and the sentinel last; the links are read
        before the node goes. */
    method FreeNodes() returns (ghost freed: seq<FragDesc>)
      requires Valid() && |nodes| > 0
      ensures freed == nodes + [sentinel]
    {
      hide Apart, Ring, Holds;
      freed := [];
      var node := sentinel.next;
      ghost var k: nat := 0;
      Onward(0);
      while node != null && node.payload.Some?
        invariant k <= |nodes| && node == At(k + 1) && freed == nodes[..k]
        decreases |nodes| - k
      {
        Onward(k);
        Onward(k + 1);
        var next := node.next;
        freed := freed + [node];
        node := next;
        k := k + 1;
      }
      Onward(k);
      if node != null {
        freed := freed + [node];
      }
    }
  }

  lemma PrefixEmpty(fs: seq<Frag>)
    ensures Contiguous(fs[..0]) && Joined(fs[..0]) == []
  {
  }

  lemma PrefixStep(fs: seq<Frag>, k: nat)
    requires k < |fs| && Contiguous(fs[..k])
    ensures fs[k] in fs && Joined(fs[..k + 1]) == Joined(fs[..k]) + fs[k].payload
    ensures Contiguous(fs[..k + 1]) <==> fs[k].offset == |Joined(fs[..k])|
    ensures Contiguous(fs) ==> Contiguous(fs[..k + 1])
  {
    assert fs[..k + 1][..k] == fs[..k];
    if Contiguous(fs) { ContiguousPrefix(fs, k + 1); }
  }
}
