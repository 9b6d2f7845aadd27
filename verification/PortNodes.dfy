/** The message nodes: one linked list per port and one of free nodes, all in one array. */
module PortNodes {
  import opened Common

  const NULL := -1

  datatype PtNode = PtNode(ptmsg: int, ptnext: int)

  function First(l: seq<int>): (n: int) {
    if |l| == 0 then NULL else l[0]
  }

  function Last(l: seq<int>): (n: int) {
    if |l| == 0 then NULL else l[|l| - 1]
  }

  function After(l: seq<int>, k: nat): (n: int)
    requires k < |l|
  {
    if k + 1 < |l| then l[k + 1] else NULL
  }

  predicate InRange(nodes: seq<PtNode>, l: seq<int>) {
    forall k {:trigger l[k]} :: 0 <= k < |l| ==> 0 <= l[k] < |nodes|
  }

  /** The nodes link the list l. */
  ghost predicate Chain(nodes: seq<PtNode>, l: seq<int>) {
    && InRange(nodes, l) && Distinct(l)
    && forall k {:trigger After(l, k)} :: 0 <= k < |l| ==> nodes[l[k]].ptnext == After(l, k)
  }

  /** The nodes of l carry the messages q. */
  ghost predicate Carries(nodes: seq<PtNode>, l: seq<int>, q: seq<int>) {
    |l| == |q| && InRange(nodes, l) && forall k {:trigger l[k]} {:trigger q[k]} :: 0 <= k < |l| ==> nodes[l[k]].ptmsg == q[k]
  }

  ghost predicate Apart(a: seq<int>, b: seq<int>) {
    forall x :: x in a ==> x !in b
  }

  lemma ChainAt(nodes: seq<PtNode>, l: seq<int>, k: nat)
    requires Chain(nodes, l) && k < |l|
    ensures 0 <= l[k] < |nodes| && nodes[l[k]].ptnext == After(l, k) && l[k] in l
  {
    var next := After(l, k);
  }

  lemma DistinctAt(l: seq<int>, j: nat, k: nat)
    requires Distinct(l) && j < |l| && k < |l| && j != k
    ensures l[j] != l[k]
  {
  }

  /** Lists are not affected by what happens to other nodes. */
  lemma ChainFrame(nodes: seq<PtNode>, nodes': seq<PtNode>, l: seq<int>, q: seq<int>)
    requires Chain(nodes, l) && Carries(nodes, l, q) && |nodes'| == |nodes|
    requires forall x {:trigger nodes'[x]} :: 0 <= x < |nodes| && x in l ==> nodes'[x] == nodes[x]
    ensures Chain(nodes', l) && Carries(nodes', l, q)
  {
    forall k | 0 <= k < |l| ensures nodes'[l[k]] == nodes[l[k]] { assert l[k] in l; }
  }

  lemma FreeFrame(nodes: seq<PtNode>, nodes': seq<PtNode>, l: seq<int>)
    requires Chain(nodes, l) && |nodes'| == |nodes|
    requires forall x {:trigger nodes'[x]} :: 0 <= x < |nodes| && x in l ==> nodes'[x] == nodes[x]
    ensures Chain(nodes', l)
  {
    forall k | 0 <= k < |l| ensures nodes'[l[k]] == nodes[l[k]] { assert l[k] in l; }
  }

  lemma TailChain(nodes: seq<PtNode>, l: seq<int>)
    requires Chain(nodes, l) && |l| > 0
    ensures Chain(nodes, l[1..]) && First(l[1..]) == nodes[l[0]].ptnext && l[0] !in l[1..]
    ensures forall x :: x in l <==> x == l[0] || x in l[1..]
    ensures |l| > 1 ==> Last(l[1..]) == Last(l)
    ensures First(l) == Last(l) <==> |l| == 1
  {
    var t := l[1..];
    ChainAt(nodes, l, 0);
    assert l == [l[0]] + t;
    forall k | 0 <= k < |t| ensures t[k] == l[k + 1] && After(t, k) == After(l, k + 1) {}
  }

  lemma TailCarries(nodes: seq<PtNode>, l: seq<int>, q: seq<int>)
    requires Carries(nodes, l, q) && |l| > 0
    ensures Carries(nodes, l[1..], q[1..]) && nodes[l[0]].ptmsg == q[0]
  {
    forall k | 0 <= k < |l| - 1 ensures l[1..][k] == l[k + 1] && q[1..][k] == q[k + 1] {}
  }

  /** A node put in front. */
  lemma PushChain(nodes: seq<PtNode>, l: seq<int>, x: int)
    requires Chain(nodes, l) && 0 <= x < |nodes| && x !in l
    ensures Chain(nodes[x := nodes[x].(ptnext := First(l))], [x] + l)
  {
    hide Distinct, InRange;
    var nodes', r := nodes[x := nodes[x].(ptnext := First(l))], [x] + l;
    FreeFrame(nodes, nodes', l);
    ConsRange(nodes', l, x);
    forall k | 0 <= k < |r| ensures nodes'[r[k]].ptnext == After(r, k) {
      if k > 0 { assert r[k] == l[k - 1] && After(r, k) == After(l, k - 1); }
    }
  }

  lemma ConsRange(nodes: seq<PtNode>, l: seq<int>, x: int)
    requires InRange(nodes, l) && Distinct(l) && 0 <= x < |nodes| && x !in l
    ensures InRange(nodes, [x] + l) && Distinct([x] + l)
  {
    var r := [x] + l;
    forall k | 0 < k < |r| ensures r[k] == l[k - 1] && r[k] in l {}
  }

  /** A node linked in behind the last. */
  lemma AppendChain(nodes: seq<PtNode>, l: seq<int>, q: seq<int>, x: int, msg: int)
    requires Chain(nodes, l) && Carries(nodes, l, q) && 0 <= x < |nodes| && x !in l
    requires nodes[x] == PtNode(msg, NULL)
    ensures |l| > 0 ==> 0 <= Last(l) < |nodes|
    ensures var nodes' := if |l| == 0 then nodes else nodes[Last(l) := nodes[Last(l)].(ptnext := x)];
            Chain(nodes', l + [x]) && Carries(nodes', l + [x], q + [msg])
  {
    hide Chain;
    ChainParts(nodes, l);
    var r := l + [x];
    forall k | 0 <= k < |l| ensures r[k] == l[k] && r[k] in l {}
    if |l| > 0 {
      var nodes' := nodes[Last(l) := nodes[Last(l)].(ptnext := x)];
      forall k | 0 <= k < |r| ensures nodes'[r[k]].ptnext == After(r, k) {
        if k < |l| { ChainAt(nodes, l, k); }
        if k < |l| - 1 { DistinctAt(l, k, |l| - 1); }
      }
      ChainIs(nodes', r);
    } else {
      ChainIs(nodes, r);
    }
  }

  lemma ChainParts(nodes: seq<PtNode>, l: seq<int>)
    requires Chain(nodes, l)
    ensures InRange(nodes, l) && Distinct(l) && (|l| > 0 ==> 0 <= Last(l) < |nodes|)
  {
  }

  lemma ChainIs(nodes: seq<PtNode>, l: seq<int>)
    requires InRange(nodes, l) && Distinct(l) && forall k {:trigger After(l, k)} :: 0 <= k < |l| ==> nodes[l[k]].ptnext == After(l, k)
    ensures Chain(nodes, l)
  {
  }

  /** One list linked in front of another. */
  lemma JoinChain(nodes: seq<PtNode>, a: seq<int>, b: seq<int>)
    requires Chain(nodes, a) && Chain(nodes, b) && Apart(a, b) && |a| > 0
    ensures 0 <= Last(a) < |nodes| && Chain(nodes[Last(a) := nodes[Last(a)].(ptnext := First(b))], a + b)
  {
    hide Chain;
    ChainParts(nodes, a);
    ChainParts(nodes, b);
    var r, z := a + b, |a| - 1;
    var nodes' := nodes[Last(a) := nodes[Last(a)].(ptnext := First(b))];
    forall k | 0 <= k < |r| ensures r[k] == (if k < |a| then a[k] else b[k - |a|]) && (k < |a| ==> r[k] in a) && (k >= |a| ==> r[k] in b) {}
    forall k | 0 <= k < |r| ensures nodes'[r[k]].ptnext == After(r, k) {
      if k < |a| { ChainAt(nodes, a, k); } else { ChainAt(nodes, b, k - |a|); }
      ChainAt(nodes, a, z);
      if k < z { DistinctAt(a, k, z); }
    }
    ChainIs(nodes', r);
  }

  lemma ApartSym(a: seq<int>, b: seq<int>)
    requires Apart(a, b)
    ensures Apart(b, a)
  {
  }

  lemma EndsIn(nodes: seq<PtNode>, l: seq<int>)
    requires Chain(nodes, l)
    ensures if |l| == 0 then First(l) == Last(l) == NULL else 0 <= First(l) < |nodes| && 0 <= Last(l) < |nodes| && First(l) in l && Last(l) in l
  {
  }

  /** No node is in two lists. */
  ghost predicate Separate(free: seq<int>, chains: seq<seq<int>>) {
    && (forall i {:trigger chains[i]} :: 0 <= i < |chains| ==> Apart(free, chains[i]))
    && (forall i, j {:trigger chains[i], chains[j]} :: 0 <= i < |chains| && 0 <= j < |chains| && i != j ==> Apart(chains[i], chains[j]))
  }

  lemma SeparateAt(free: seq<int>, chains: seq<seq<int>>, i: int)
    requires Separate(free, chains) && 0 <= i < |chains|
    ensures Apart(free, chains[i]) && forall j {:trigger chains[j]} :: 0 <= j < |chains| && j != i ==> Apart(chains[i], chains[j]) && Apart(chains[j], chains[i])
  {
  }

  lemma ApartFirst(a: seq<int>, b: seq<int>)
    requires |a| > 0 && Apart(a, b)
    ensures a[0] !in b && a[0] in a
  {
    var x := a[0];
    assert x in a;
    assert x !in b;
  }

  /** The first free node moved to the end of list i. */
  lemma SeparateDeposit(free: seq<int>, chains: seq<seq<int>>, i: int)
    requires Separate(free, chains) && 0 <= i < |chains| && |free| > 0 && free[0] !in free[1..]
    ensures Separate(free[1..], chains[i := chains[i] + [free[0]]])
    ensures free[0] !in chains[i] && forall j, y {:trigger y in chains[j]} :: 0 <= j < |chains| && j != i && y in chains[j] ==> y !in chains[i] && y !in free
    ensures forall y :: y in free[1..] ==> y in free && y != free[0] && y !in chains[i]
  {
    assert free == [free[0]] + free[1..];
    SeparateAt(free, chains, i);
    ApartFirst(free, chains[i]);
    forall j | 0 <= j < |chains| ensures Apart(free, chains[j]) { SeparateAt(free, chains, j); }
    forall j, y | 0 <= j < |chains| && j != i && y in chains[j] ensures y !in chains[i] && y !in free {
      assert Apart(chains[j], chains[i]) && Apart(free, chains[j]);
    }
  }

  /** The first node of list i moved to the front of the free list. */
  lemma SeparateWithdraw(free: seq<int>, chains: seq<seq<int>>, i: int)
    requires Separate(free, chains) && 0 <= i < |chains| && |chains[i]| > 0 && chains[i][0] !in chains[i][1..]
    ensures Separate([chains[i][0]] + free, chains[i := chains[i][1..]])
    ensures chains[i][0] !in free && forall j, y {:trigger y in chains[j]} :: 0 <= j < |chains| && j != i && y in chains[j] ==> y !in chains[i]
  {
    var l := chains[i];
    assert l == [l[0]] + l[1..];
    SeparateAt(free, chains, i);
    ApartSym(free, l);
    ApartFirst(l, free);
    forall j | 0 <= j < |chains| ensures Apart(free, chains[j]) { SeparateAt(free, chains, j); }
    forall j, y | 0 <= j < |chains| && j != i && y in chains[j] ensures y !in chains[i] {
      assert Apart(chains[j], chains[i]);
    }
  }

  /** All of list i moved to the front of the free list. */
  lemma SeparateClear(free: seq<int>, chains: seq<seq<int>>, i: int)
    requires Separate(free, chains) && 0 <= i < |chains|
    ensures Separate(chains[i] + free, chains[i := []]) && Apart(chains[i], free)
    ensures forall j, y {:trigger y in chains[j]} :: 0 <= j < |chains| && j != i && y in chains[j] ==> y !in chains[i]
  {
    SeparateAt(free, chains, i);
    forall j | 0 <= j < |chains| ensures Apart(free, chains[j]) { SeparateAt(free, chains, j); }
  }
}
