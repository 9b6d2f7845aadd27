/** The forwarding table: a table of entries, a table of pointers to them that is kept sorted
    from longest to shortest prefix, and the scan that stops at the first match. */
module Forwarding {
  import opened Bytes

  const MAXFWDTABENTRIES := 30
  const FWDMAXTTL := 900
  const IPV6_ASIZE := 16

  type uint8 = x: int | 0 <= x < 256

  datatype FwdEntry = FwdEntry(ttl: nat, iface: uint8, prefixLen: uint8, ipAddr: seq<byte>, nextHop: seq<byte>)

  /** Whole bytes only: the low three bits of the prefix length are ignored. */
  predicate Matches(e: FwdEntry, dest: seq<byte>) {
    var n := e.prefixLen / 8;
    n <= |e.ipAddr| && n <= |dest| && e.ipAddr[..n] == dest[..n]
  }

  /** An entry that lookups can return for dest. */
  predicate Candidate(e: FwdEntry, dest: seq<byte>) {
    e.prefixLen > 0 && Matches(e, dest)
  }

  /** The route for dest among routes in order of insertion: the earliest candidate with the
      longest prefix, or -1. */
  function Best(routes: seq<FwdEntry>, dest: seq<byte>): (b: int)
    ensures -1 <= b < |routes|
    decreases |routes|
  {
    if |routes| == 0 then -1 else
      var last := |routes| - 1;
      var b := Best(routes[..last], dest);
      if Candidate(routes[last], dest) && (b == -1 || routes[last].prefixLen > routes[b].prefixLen) then last else b
  }

  lemma {:induction false} BestIsLongest(routes: seq<FwdEntry>, dest: seq<byte>)
    ensures var b := Best(routes, dest);
            && (b == -1 <==> forall k {:trigger routes[k]} :: 0 <= k < |routes| ==> !Candidate(routes[k], dest))
            && (b != -1 ==> Candidate(routes[b], dest))
            && (b != -1 ==> forall k {:trigger routes[k]} :: 0 <= k < |routes| && Candidate(routes[k], dest) ==>
                  routes[k].prefixLen < routes[b].prefixLen || (routes[k].prefixLen == routes[b].prefixLen && b <= k))
    decreases |routes|
  {
    hide Candidate;
    if |routes| > 0 {
      var front := routes[..|routes| - 1];
      BestIsLongest(front, dest);
      assert forall k {:trigger routes[k]} :: 0 <= k < |front| ==> front[k] == routes[k];
    }
  }

  /** Slot a comes before slot b in the sorted table. */
  predicate Precedes(tab: seq<FwdEntry>, a: int, b: int)
    requires 0 <= a < |tab| && 0 <= b < |tab|
  {
    tab[a].prefixLen > tab[b].prefixLen || (tab[a].prefixLen == tab[b].prefixLen && a < b)
  }

  predicate InTable(tab: seq<FwdEntry>, ptr: seq<int>) {
    forall i {:trigger ptr[i]} :: 0 <= i < |ptr| ==> 0 <= ptr[i] < |tab|
  }

  predicate Ordered(tab: seq<FwdEntry>, ptr: seq<int>)
    requires InTable(tab, ptr)
  {
    forall i, j {:trigger ptr[i], ptr[j]} :: 0 <= i < j < |ptr| ==> Precedes(tab, ptr[i], ptr[j])
  }

  /** The entries alone determine the sorted pointer table. */
  lemma {:induction false} OrderedUnique(tab: seq<FwdEntry>, p: seq<int>, q: seq<int>)
    requires InTable(tab, p) && InTable(tab, q) && Ordered(tab, p) && Ordered(tab, q)
    requires multiset(p) == multiset(q)
    ensures p == q
    decreases |p|
  {
    hide Precedes, Ordered;
    assert |p| == |multiset(p)| && |q| == |multiset(q)|;
    if |p| > 0 {
      HeadMember(p, q);
      HeadMember(q, p);
      FirstSame(tab, p, q);
      TailMultiset(p);
      TailMultiset(q);
      OrderedTail(tab, p);
      OrderedTail(tab, q);
      OrderedUnique(tab, p[1..], q[1..]);
    }
  }

  lemma HeadMember(p: seq<int>, q: seq<int>)
    requires |p| > 0 && multiset(p) == multiset(q)
    ensures p[0] in q
  {
    assert p[0] in multiset(q);
  }

  lemma TailMultiset(p: seq<int>)
    requires |p| > 0
    ensures p == [p[0]] + p[1..] && multiset(p[1..]) == multiset(p) - multiset{p[0]}
  {
    assert p == [p[0]] + p[1..];
  }

  lemma OrderedTail(tab: seq<FwdEntry>, p: seq<int>)
    requires InTable(tab, p) && Ordered(tab, p) && |p| > 0
    ensures InTable(tab, p[1..]) && Ordered(tab, p[1..])
  {
    hide Precedes;
    var t := p[1..];
    assert forall i {:trigger t[i]} :: 0 <= i < |t| ==> t[i] == p[i + 1];
  }

  lemma FirstSame(tab: seq<FwdEntry>, p: seq<int>, q: seq<int>)
    requires InTable(tab, p) && InTable(tab, q) && Ordered(tab, p) && Ordered(tab, q)
    requires |p| > 0 && |q| > 0 && p[0] in q && q[0] in p
    ensures p[0] == q[0]
  {
    var j :| 0 <= j < |q| && q[j] == p[0];
    var i :| 0 <= i < |p| && p[i] == q[0];
  }

  ghost predicate Before(s: seq<int>, a: int, b: int) {
    exists i, j :: 0 <= i < j < |s| && s[i] == a && s[j] == b
  }

  /** Pointers with equal prefix lengths stand in s as they stood in s0. */
  ghost predicate Stable(tab: seq<FwdEntry>, s0: seq<int>, s: seq<int>)
    requires InTable(tab, s)
  {
    forall i, j {:trigger s[i], s[j]} :: 0 <= i < j < |s| && tab[s[i]].prefixLen == tab[s[j]].prefixLen ==> Before(s0, s[i], s[j])
  }

  ghost predicate Rearranged(s: seq<int>, t: seq<int>) { multiset(s) == multiset(t) }

  ghost predicate Descending(tab: seq<FwdEntry>, s: seq<int>)
    requires InTable(tab, s)
  {
    forall i, j {:trigger s[i], s[j]} :: 0 <= i < j < |s| ==> tab[s[i]].prefixLen >= tab[s[j]].prefixLen
  }

  lemma StableItself(tab: seq<FwdEntry>, s: seq<int>)
    requires InTable(tab, s)
    ensures Stable(tab, s, s) && Rearranged(s, s)
  {
  }

  /** Exchanging neighbours with different prefix lengths. */
  lemma StableSwap(tab: seq<FwdEntry>, s0: seq<int>, s: seq<int>, j: nat)
    requires InTable(tab, s) && Stable(tab, s0, s) && Rearranged(s0, s) && j + 1 < |s|
    requires tab[s[j]].prefixLen != tab[s[j + 1]].prefixLen
    ensures var t := s[j := s[j + 1]][j + 1 := s[j]];
            InTable(tab, t) && Stable(tab, s0, t) && Rearranged(s0, t)
  {
    hide Before;
    var t := s[j := s[j + 1]][j + 1 := s[j]];
    forall x, y | 0 <= x < y < |t| && tab[t[x]].prefixLen == tab[t[y]].prefixLen
      ensures Before(s0, t[x], t[y])
    {
      var x' := if x == j then j + 1 else if x == j + 1 then j else x;
      var y' := if y == j then j + 1 else if y == j + 1 then j else y;
      assert t[x] == s[x'] && t[y] == s[y'] && x' < y';
    }
  }

  /** The last n pointers are in their places. */
  ghost predicate Settled(tab: seq<FwdEntry>, s: seq<int>, n: int)
    requires InTable(tab, s)
  {
    forall a, b {:trigger s[a], s[b]} :: 0 <= a < b < |s| && b >= |s| - n ==> tab[s[a]].prefixLen >= tab[s[b]].prefixLen
  }

  /** Nothing before place j has a shorter prefix than what is there. */
  ghost predicate Shortest(tab: seq<FwdEntry>, s: seq<int>, j: nat)
    requires InTable(tab, s) && j < |s|
  {
    forall k {:trigger s[k]} :: 0 <= k < j ==> tab[s[k]].prefixLen >= tab[s[j]].prefixLen
  }

  /** One comparison of the bubble sort. */
  lemma BubbleStep(tab: seq<FwdEntry>, s: seq<int>, t: seq<int>, n: nat, j: nat)
    requires InTable(tab, s) && Settled(tab, s, n) && j + 1 < |s| - n && Shortest(tab, s, j)
    requires t == if tab[s[j]].prefixLen < tab[s[j + 1]].prefixLen then s[j := s[j + 1]][j + 1 := s[j]] else s
    ensures InTable(tab, t) && Settled(tab, t, n) && Shortest(tab, t, j + 1)
  {
    var swapped := tab[s[j]].prefixLen < tab[s[j + 1]].prefixLen;
    forall a | 0 <= a < |s| ensures t[a] == s[if swapped && a == j then j + 1 else if swapped && a == j + 1 then j else a] {}
    forall a, b | 0 <= a < b < |t| && b >= |t| - n ensures tab[t[a]].prefixLen >= tab[t[b]].prefixLen {
      var a' := if swapped && a == j then j + 1 else if swapped && a == j + 1 then j else a;
      assert t[a] == s[a'] && t[b] == s[b] && a' < b;
    }
  }

  lemma PassDone(tab: seq<FwdEntry>, s: seq<int>, n: nat)
    requires InTable(tab, s) && n < |s| && Settled(tab, s, n) && Shortest(tab, s, |s| - n - 1)
    ensures Settled(tab, s, n + 1)
  {
  }

  lemma AllSettled(tab: seq<FwdEntry>, s: seq<int>)
    requires InTable(tab, s) && |s| > 0 && Settled(tab, s, |s| - 1)
    ensures Descending(tab, s)
  {
  }

  lemma NoneSettled(tab: seq<FwdEntry>, s: seq<int>)
    requires InTable(tab, s) && |s| > 0
    ensures Settled(tab, s, 0) && Shortest(tab, s, 0)
  {
  }

  /** What the table keeps between calls: entries go into the slots in order, every slot has one
      pointer, the used ones first and sorted, the free ones in their original places. */
  ghost predicate Kept(tab: seq<FwdEntry>, ptr: seq<int>, routes: seq<FwdEntry>) {
    && |tab| == |ptr| == MAXFWDTABENTRIES && InTable(tab, ptr)
    && |routes| <= MAXFWDTABENTRIES && tab[..|routes|] == routes
    && Slots(tab, |routes|) && Ordered(tab, ptr) && Pointers(ptr, |routes|)
  }

  ghost predicate Slots(tab: seq<FwdEntry>, used: nat) {
    forall k {:trigger tab[k]} :: 0 <= k < |tab| ==>
      && |tab[k].ipAddr| == |tab[k].nextHop| == IPV6_ASIZE && tab[k].prefixLen / 8 <= IPV6_ASIZE
      && (k < used <==> tab[k].ttl > 0) && (k >= used ==> tab[k].prefixLen == 0)
  }

  ghost predicate Pointers(ptr: seq<int>, used: nat) {
    && (forall k {:trigger ptr[k]} :: 0 <= k < |ptr| ==> if k < used then ptr[k] < used else ptr[k] == k)
    && (forall a :: 0 <= a < |ptr| ==> a in ptr)
  }

  lemma SlotsAt(tab: seq<FwdEntry>, ptr: seq<int>, routes: seq<FwdEntry>, e: FwdEntry)
    requires Kept(tab, ptr, routes)
    ensures InTable(tab, ptr) && |tab| == |ptr| == MAXFWDTABENTRIES && |routes| <= MAXFWDTABENTRIES
    ensures |routes| < |ptr| ==> ptr[|routes|] == |routes| && InTable(tab[|routes| := e], ptr)
  {
  }

  /** How many of the first m pointers stay ahead of a new entry with prefix length p. */
  function Ahead(tab: seq<FwdEntry>, ptr: seq<int>, m: nat, p: uint8): (n: nat)
    requires InTable(tab, ptr) && m <= |ptr|
    ensures n <= m && (n > 0 ==> tab[ptr[n - 1]].prefixLen >= p)
    ensures forall k {:trigger ptr[k]} :: n <= k < m ==> tab[ptr[k]].prefixLen < p
  {
    if m == 0 then 0 else if tab[ptr[m - 1]].prefixLen >= p then m else Ahead(tab, ptr, m - 1, p)
  }

  /** The pointer at place m moved up to place n. */
  function Raised(ptr: seq<int>, m: nat, n: nat): (q: seq<int>)
    requires n <= m < |ptr|
    ensures |q| == |ptr|
    ensures forall k {:trigger q[k]} :: 0 <= k < |q| ==> q[k] == ptr[if k < n || k > m then k else if k == n then m else k - 1]
  {
    ptr[..n] + [ptr[m]] + ptr[n..m] + ptr[m + 1..]
  }

  lemma RaisedRearranged(ptr: seq<int>, m: nat, n: nat)
    requires n <= m < |ptr|
    ensures Rearranged(ptr, Raised(ptr, m, n))
  {
    assert ptr == ptr[..n] + ptr[n..m] + [ptr[m]] + ptr[m + 1..];
  }

  lemma RaisedOrdered(tab: seq<FwdEntry>, ptr: seq<int>, m: nat, e: FwdEntry, n: nat)
    requires |tab| == |ptr| && InTable(tab, ptr) && Ordered(tab, ptr) && m < |ptr| && Pointers(ptr, m) && Slots(tab, m)
    requires n == Ahead(tab, ptr, m, e.prefixLen)
    ensures var q := Raised(ptr, m, n); InTable(tab[m := e], q) && Ordered(tab[m := e], q)
  {
    hide Ahead, Ordered, Pointers, Slots;
    var q, t := Raised(ptr, m, n), tab[m := e];
    forall i, j | 0 <= i < j < |q| ensures Precedes(t, q[i], q[j]) {
      var x := if i < n || i > m then i else if i == n then m else i - 1;
      var y := if j < n || j > m then j else if j == n then m else j - 1;
      assert q[i] == ptr[x] && q[j] == ptr[y];
      RaisedPair(tab, ptr, m, e, n, x, y);
    }
    assert Ordered(t, q) by { OrderedFrom(t, q); }
  }

  lemma OrderedFrom(tab: seq<FwdEntry>, ptr: seq<int>)
    requires InTable(tab, ptr) && forall i, j {:trigger ptr[i], ptr[j]} :: 0 <= i < j < |ptr| ==> Precedes(tab, ptr[i], ptr[j])
    ensures Ordered(tab, ptr)
  {
  }

  /** Two pointers, one of them perhaps the new one, in the order they have after the raise. */
  lemma RaisedPair(tab: seq<FwdEntry>, ptr: seq<int>, m: nat, e: FwdEntry, n: nat, x: nat, y: nat)
    requires |tab| == |ptr| && InTable(tab, ptr) && Ordered(tab, ptr) && m < |ptr| && Pointers(ptr, m) && Slots(tab, m)
    requires n == Ahead(tab, ptr, m, e.prefixLen) && x < |ptr| && y < |ptr| && x != y
    requires if x == m then y >= n else if y == m then x < n else x < y
    ensures Precedes(tab[m := e], ptr[x], ptr[y])
  {
    hide Ahead, Pointers, Slots;
    PlaceOf(ptr, m, x);
    PlaceOf(ptr, m, y);
    SlotsFree(tab, ptr, m, x);
    SlotsFree(tab, ptr, m, y);
    if x != m && y != m {
      assert Precedes(tab, ptr[x], ptr[y]);
    } else if y == m && n > 0 {
      assert x == n - 1 || Precedes(tab, ptr[x], ptr[n - 1]);
    }
  }

  lemma PlaceOf(ptr: seq<int>, m: nat, x: nat)
    requires Pointers(ptr, m) && m < |ptr| && x < |ptr|
    ensures if x < m then ptr[x] < m else ptr[x] == x
  {
  }

  lemma SlotsFree(tab: seq<FwdEntry>, ptr: seq<int>, m: nat, x: nat)
    requires InTable(tab, ptr) && Slots(tab, m) && x < |ptr|
    ensures ptr[x] >= m ==> tab[ptr[x]].prefixLen == 0
  {
  }

  /** The stable sort after writing a new entry into the first free slot raises its pointer past
      the shorter prefixes and moves nothing else. */
  lemma SortedAfterInsert(tab: seq<FwdEntry>, ptr: seq<int>, routes: seq<FwdEntry>, e: FwdEntry, ptr': seq<int>)
    requires Kept(tab, ptr, routes) && |routes| < MAXFWDTABENTRIES
    requires (var t := tab[|routes| := e];
              InTable(t, ptr') && Descending(t, ptr') && Rearranged(ptr, ptr') && Stable(t, ptr, ptr'))
    ensures ptr' == Raised(ptr, |routes|, Ahead(tab, ptr, |routes|, e.prefixLen))
  {
    hide Ahead, Raised, Slots;
    var m, t := |routes|, tab[|routes| := e];
    var n := Ahead(tab, ptr, m, e.prefixLen);
    RaisedRearranged(ptr, m, n);
    RaisedOrdered(tab, ptr, m, e, n);
    StableOrdered(tab, ptr, m, e, ptr');
    OrderedUnique(t, ptr', Raised(ptr, m, n));
  }

  lemma StableOrdered(tab: seq<FwdEntry>, ptr: seq<int>, m: nat, e: FwdEntry, ptr': seq<int>)
    requires |tab| == |ptr| && InTable(tab, ptr) && Ordered(tab, ptr) && m < |ptr| && Pointers(ptr, m)
    requires (var t := tab[m := e];
              InTable(t, ptr') && Descending(t, ptr') && Stable(t, ptr, ptr'))
    ensures Ordered(tab[m := e], ptr')
  {
    var t := tab[m := e];
    forall i, j | 0 <= i < j < |ptr'| ensures Precedes(t, ptr'[i], ptr'[j]) {
      if t[ptr'[i]].prefixLen == t[ptr'[j]].prefixLen {
        assert Before(ptr, ptr'[i], ptr'[j]);
        var x, y :| 0 <= x < y < |ptr| && ptr[x] == ptr'[i] && ptr[y] == ptr'[j];
        if x < m && y < m {
          assert Precedes(tab, ptr[x], ptr[y]);
        }
      }
    }
  }

  lemma KeptAfterInsert(tab: seq<FwdEntry>, ptr: seq<int>, routes: seq<FwdEntry>, e: FwdEntry)
    requires Kept(tab, ptr, routes) && |routes| < MAXFWDTABENTRIES
    requires |e.ipAddr| == |e.nextHop| == IPV6_ASIZE && e.prefixLen / 8 <= IPV6_ASIZE && e.ttl > 0
    ensures Kept(tab[|routes| := e], Raised(ptr, |routes|, Ahead(tab, ptr, |routes|, e.prefixLen)), routes + [e])
  {
    hide Ahead, Raised, Precedes;
    var m := |routes|;
    var n := Ahead(tab, ptr, m, e.prefixLen);
    RaisedOrdered(tab, ptr, m, e, n);
    var q := Raised(ptr, m, n);
    forall a | 0 <= a < |q| ensures a in q {
      assert a in ptr;
      var k :| 0 <= k < |ptr| && ptr[k] == a;
      assert q[if k < n || k > m then k else if k == m then n else k + 1] == a;
    }
  }

  class ForwardingTable {
    const fwdTab: array<FwdEntry>
    const fwdTabPTR: array<int>
    /** The entries in order of insertion. */
    ghost var routes: seq<FwdEntry>

    ghost predicate Shape()
      reads fwdTab, fwdTabPTR
    {
      && fwdTab.Length == MAXFWDTABENTRIES && fwdTabPTR.Length == MAXFWDTABENTRIES
      && InTable(fwdTab[..], fwdTabPTR[..])
    }

    ghost predicate Valid()
      reads this, fwdTab, fwdTabPTR
    {
      Shape() && Kept(fwdTab[..], fwdTabPTR[..], routes)
    }

    constructor ()
      ensures Valid() && routes == []
      ensures fresh(fwdTab) && fresh(fwdTabPTR)
    {
      fwdTab := new FwdEntry[MAXFWDTABENTRIES](_ => FwdEntry(0, 0, 0, seq(IPV6_ASIZE, _ => 0), seq(IPV6_ASIZE, _ => 0)));
      fwdTabPTR := new int[MAXFWDTABENTRIES];
      routes := [];
      new;
      for i := 0 to MAXFWDTABENTRIES
        modifies fwdTabPTR
        invariant fwdTabPTR.Length == MAXFWDTABENTRIES && fresh(fwdTabPTR)
        invariant forall k {:trigger fwdTabPTR[k]} :: 0 <= k < i ==> fwdTabPTR[k] == k
      {
        fwdTabPTR[i] := i;
      }
      forall k | 0 <= k < MAXFWDTABENTRIES ensures k in fwdTabPTR[..] {
        assert fwdTabPTR[..][k] == k;
      }
    }

    static method Match(a: seq<byte>, b: seq<byte>, len: nat) returns (r: uint8)
      requires len <= |a| && len <= |b|
      ensures r == 0 || r == 1
      ensures r == 1 <==> a[..len] == b[..len]
    {
      for i := 0 to len
        invariant a[..i] == b[..i]
      {
        if a[i] != b[i] {
          assert a[..len][i] != b[..len][i];
          return 0;
        }
      }
      return 1;
    }

    /** The scan of the sorted table, with its early exit, finds the best route of all. */
    method GetNextHop(ipdest: seq<byte>) returns (r: int)
      requires Valid() && |ipdest| == IPV6_ASIZE
      ensures -1 <= r < MAXFWDTABENTRIES
      ensures r == -1 <==> forall k {:trigger routes[k]} :: 0 <= k < |routes| ==> !Candidate(routes[k], ipdest)
      ensures r != -1 ==> fwdTabPTR[r] == Best(routes, ipdest)
    {
      BestIsLongest(routes, ipdest);
      for i := 0 to MAXFWDTABENTRIES
        invariant forall j {:trigger fwdTabPTR[j]} :: 0 <= j < i ==> !Candidate(fwdTab[fwdTabPTR[j]], ipdest)
      {
        if fwdTab[fwdTabPTR[i]].prefixLen == 0 {
          NoneLeft(i, ipdest);
          return -1;
        }
        var hit := Match(ipdest, fwdTab[fwdTabPTR[i]].ipAddr, fwdTab[fwdTabPTR[i]].prefixLen / 8);
        if hit == 1 {
          FirstIsBest(i, ipdest);
          return i;
        }
      }
      NoneLeft(MAXFWDTABENTRIES, ipdest);
      return -1;
    }

    lemma NoneLeft(i: nat, ipdest: seq<byte>)
      requires Valid() && i <= MAXFWDTABENTRIES
      requires forall j {:trigger fwdTabPTR[j]} :: 0 <= j < i ==> !Candidate(fwdTab[fwdTabPTR[j]], ipdest)
      requires i < MAXFWDTABENTRIES ==> fwdTab[fwdTabPTR[i]].prefixLen == 0
      ensures forall k {:trigger routes[k]} :: 0 <= k < |routes| ==> !Candidate(routes[k], ipdest)
    {
      hide Matches;
      forall k | 0 <= k < |routes| ensures !Candidate(routes[k], ipdest) {
        assert fwdTab[k] == routes[k] && k in fwdTabPTR[..];
        var j :| 0 <= j < MAXFWDTABENTRIES && fwdTabPTR[..][j] == k;
        if i < j { assert Precedes(fwdTab[..], fwdTabPTR[..][i], fwdTabPTR[..][j]); }
      }
    }

    lemma FirstIsBest(i: nat, ipdest: seq<byte>)
      requires Valid() && i < MAXFWDTABENTRIES
      requires forall j {:trigger fwdTabPTR[j]} :: 0 <= j < i ==> !Candidate(fwdTab[fwdTabPTR[j]], ipdest)
      requires Candidate(fwdTab[fwdTabPTR[i]], ipdest)
      ensures fwdTabPTR[i] == Best(routes, ipdest)
    {
      hide Matches, Best;
      BestIsLongest(routes, ipdest);
      var s := fwdTabPTR[i];
      assert s < |routes| && routes[s] == fwdTab[s];
      var b := Best(routes, ipdest);
      assert routes[b] == fwdTab[b] && b in fwdTabPTR[..];
      var j :| 0 <= j < MAXFWDTABENTRIES && fwdTabPTR[..][j] == b;
    }

    method GetNextAvailFwdIndex() returns (r: int)
      requires Valid()
      ensures r == if |routes| == MAXFWDTABENTRIES then -1 else |routes|
    {
      for i := 0 to MAXFWDTABENTRIES
        invariant i <= |routes|
      {
        if fwdTab[fwdTabPTR[i]].ttl == 0 {
          return i;
        }
      }
      return -1;
    }

    /** The bubble sort: a stable sort of the pointers by descending prefix length. */
    method SortFwdTab()
      requires Shape()
      modifies fwdTabPTR
      ensures Shape() && Descending(fwdTab[..], fwdTabPTR[..])
      ensures Rearranged(old(fwdTabPTR[..]), fwdTabPTR[..])
      ensures Stable(fwdTab[..], old(fwdTabPTR[..]), fwdTabPTR[..])
    {
      hide Stable, Settled, Shortest, Rearranged, Descending;
      ghost var tab, s0 := fwdTab[..], fwdTabPTR[..];
      StableItself(tab, s0);
      NoneSettled(tab, s0);
      for i := 0 to MAXFWDTABENTRIES - 1
        invariant Shape() && Stable(tab, s0, fwdTabPTR[..]) && Rearranged(s0, fwdTabPTR[..])
        invariant Settled(tab, fwdTabPTR[..], i)
      {
        NoneSettled(tab, fwdTabPTR[..]);
        for j := 0 to MAXFWDTABENTRIES - i - 1
          invariant Shape() && Stable(tab, s0, fwdTabPTR[..]) && Rearranged(s0, fwdTabPTR[..])
          invariant Settled(tab, fwdTabPTR[..], i) && Shortest(tab, fwdTabPTR[..], j)
        {
          ghost var before := fwdTabPTR[..];
          if fwdTab[fwdTabPTR[j]].prefixLen < fwdTab[fwdTabPTR[j + 1]].prefixLen {
            StableSwap(tab, s0, before, j);
            var temp := fwdTabPTR[j];
            fwdTabPTR[j] := fwdTabPTR[j + 1];
            fwdTabPTR[j + 1] := temp;
            assert fwdTabPTR[..] == before[j := before[j + 1]][j + 1 := before[j]];
          }
          BubbleStep(tab, before, fwdTabPTR[..], i, j);
        }
        PassDone(tab, fwdTabPTR[..], i);
      }
      AllSettled(tab, fwdTabPTR[..]);
    }

    /** An insertion adds one route, at the end of the order of insertion, unless the table is full. */
    method InsertNewFwdTabEntry(ipAddr: seq<byte>, prefixLen: uint8, nextHop: seq<byte>, iface: uint8) returns (r: int)
      requires Valid() && |ipAddr| == |nextHop| == IPV6_ASIZE && prefixLen / 8 <= IPV6_ASIZE
      modifies this, fwdTab, fwdTabPTR
      ensures Valid()
      ensures r == -1 <==> |old(routes)| == MAXFWDTABENTRIES
      ensures r == -1 ==> routes == old(routes) && fwdTab[..] == old(fwdTab[..]) && fwdTabPTR[..] == old(fwdTabPTR[..])
      ensures r != -1 ==>
                var m := |old(routes)|;
                fwdTabPTR[..] == Raised(old(fwdTabPTR[..]), m, Ahead(old(fwdTab[..]), old(fwdTabPTR[..]), m, prefixLen))
      ensures r != -1 ==> r == 1 && routes == old(routes) + [FwdEntry(FWDMAXTTL, iface, prefixLen, ipAddr, nextHop)]
    {
      hide Kept, Descending, Rearranged, Stable, Ahead, Raised, InTable;
      ghost var tab, ptr := fwdTab[..], fwdTabPTR[..];
      var index := GetNextAvailFwdIndex();
      if index == -1 {
        return -1;
      }
      ghost var e := FwdEntry(FWDMAXTTL, iface, prefixLen, ipAddr, nextHop);
      SlotsAt(tab, ptr, routes, e);
      fwdTab[fwdTabPTR[index]] := FwdEntry(FWDMAXTTL, iface, prefixLen, ipAddr, nextHop);
      assert fwdTab[..] == tab[|routes| := e];
      SortFwdTab();
      SortedAfterInsert(tab, ptr, routes, e, fwdTabPTR[..]);
      KeptAfterInsert(tab, ptr, routes, e);
      routes := routes + [e];
      return 1;
    }
  }
}
