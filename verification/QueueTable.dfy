/** The global queue table: every list of processes is threaded through one array, with a head and
    a tail entry per list and one entry per process. */
module QueueTable {
  import opened Common
  import opened DeltaList
  import opened KernelModel

  const NQENT := NPROC + 4 + NSEM + NSEM
  const EMPTY := -1

  datatype QEntry = QEntry(qkey: int, qnext: int, qprev: int)

  /** The index of the head entry of list k; the tail follows it. */
  function Head(k: int): (h: int) { NPROC + 2 * k }

  /** The entries of a list in order, with its head and tail. */
  function At(h: int, l: seq<int>, i: int): (e: int)
    requires 0 <= i <= |l| + 1
  {
    if i == 0 then h else if i == |l| + 1 then h + 1 else l[i - 1]
  }

  /** Every entry is a table index. */
  predicate Indexed(h: int, l: seq<int>) {
    NPROC <= h && h + 1 < NQENT && AllPids(l)
  }

  predicate AllPids(l: seq<int>) {
    forall i {:trigger l[i]} :: 0 <= i < |l| ==> 0 <= l[i] < NPROC
  }

  /** The table links the list l, in both directions, from its head at h to its tail. */
  ghost predicate Linked(qt: seq<QEntry>, h: int, l: seq<int>)
    requires |qt| == NQENT
  {
    && Indexed(h, l)
    && qt[h].qkey == MAXKEY && qt[h + 1].qkey == MINKEY
    && (forall i {:trigger At(h, l, i)} :: 0 <= i <= |l| ==> qt[At(h, l, i)].qnext == At(h, l, i + 1) && qt[At(h, l, i + 1)].qprev == At(h, l, i))
  }

  /** The keys along a list. */
  function Keys(qt: seq<QEntry>, l: seq<int>): (d: seq<int>)
    requires |qt| == NQENT && AllPids(l)
    ensures |d| == |l| && forall i {:trigger d[i]} :: 0 <= i < |l| ==> d[i] == qt[l[i]].qkey
  {
    seq(|l|, i requires 0 <= i < |l| => qt[l[i]].qkey)
  }

  lemma LinkedAt(qt: seq<QEntry>, h: int, l: seq<int>, i: nat)
    requires |qt| == NQENT && Linked(qt, h, l) && i <= |l|
    ensures 0 <= At(h, l, i) < NQENT && 0 <= At(h, l, i + 1) < NQENT
    ensures qt[At(h, l, i)].qnext == At(h, l, i + 1) && qt[At(h, l, i + 1)].qprev == At(h, l, i)
    ensures i < |l| ==> IsPid(l[i]) && At(h, l, i + 1) == l[i]
    ensures i == |l| ==> At(h, l, i + 1) == h + 1
    ensures NPROC <= h && h + 1 < NQENT && qt[h].qkey == MAXKEY && qt[h + 1].qkey == MINKEY
    ensures Indexed(h, l)
  {
  }

  /** A list is not affected by what happens to other entries. */
  lemma LinkedFrame(qt: seq<QEntry>, qt': seq<QEntry>, h: int, l: seq<int>)
    requires |qt| == |qt'| == NQENT && Linked(qt, h, l)
    requires qt'[h] == qt[h] && qt'[h + 1] == qt[h + 1] && forall i {:trigger l[i]} :: 0 <= i < |l| ==> qt'[l[i]] == qt[l[i]]
    ensures Linked(qt', h, l)
  {
    forall i | 0 <= i <= |l| ensures qt'[At(h, l, i)].qnext == At(h, l, i + 1) && qt'[At(h, l, i + 1)].qprev == At(h, l, i) {
      LinkedAt(qt, h, l, i);
    }
  }

  /** An entry written with new links but its old key. */
  function Relinked(qt: seq<QEntry>, e: int, next: int, prev: int): (r: seq<QEntry>)
    requires 0 <= e < |qt|
    ensures |r| == |qt|
  {
    qt[e := qt[e].(qnext := next, qprev := prev)]
  }

  /** Process p linked in between entries k and k + 1 of the list. */
  function LinkedIn(qt: seq<QEntry>, h: int, l: seq<int>, k: nat, p: int): (r: seq<QEntry>)
    requires |qt| == NQENT && Linked(qt, h, l) && k <= |l| && IsPid(p)
    ensures |r| == NQENT
  {
    LinkedAt(qt, h, l, k);
    var a, b := At(h, l, k), At(h, l, k + 1);
    var q1 := Relinked(qt, p, b, a);
    var q2 := q1[a := q1[a].(qnext := p)];
    q2[b := q2[b].(qprev := p)]
  }

  /** The table changed only in links at p and the entries around it. */
  ghost predicate SameKeys(qt: seq<QEntry>, qt': seq<QEntry>) {
    |qt| == |qt'| && forall e {:trigger qt'[e]} :: 0 <= e < |qt| ==> qt'[e].qkey == qt[e].qkey
  }

  lemma LinkedInAt(qt: seq<QEntry>, h: int, l: seq<int>, k: nat, p: int, i: nat)
    requires |qt| == NQENT && Linked(qt, h, l) && k <= |l| && IsPid(p) && Distinct(l) && p !in l && i <= |l| + 1
    ensures var r, t := Inserted(l, k, p), LinkedIn(qt, h, l, k, p);
            && |r| == |l| + 1 && 0 <= At(h, r, i) < NQENT && 0 <= At(h, r, i + 1) < NQENT
            && t[At(h, r, i)].qnext == At(h, r, i + 1) && t[At(h, r, i + 1)].qprev == At(h, r, i)
  {
    hide Linked, Distinct;
    var r, t := Inserted(l, k, p), LinkedIn(qt, h, l, k, p);
    InsertedAt(h, l, k, p, i);
    InsertedAt(h, l, k, p, i + 1);
    LinkedAt(qt, h, l, k);
    if i < k {
      LinkedAt(qt, h, l, i);
      AtDiffer(h, l, i, k);
      NotAt(h, l, p, i);
      NotAt(h, l, p, i + 1);
    } else if i > k + 1 {
      LinkedAt(qt, h, l, i - 1);
      AtDiffer(h, l, i - 1, k);
      NotAt(h, l, p, i - 1);
      NotAt(h, l, p, i);
    } else {
      NotAt(h, l, p, k);
      NotAt(h, l, p, k + 1);
      EndsDiffer(h, l, k);
    }
  }

  lemma EndsDiffer(h: int, l: seq<int>, k: nat)
    requires Indexed(h, l) && Distinct(l) && k <= |l|
    ensures At(h, l, k) != At(h, l, k + 1)
  {
  }

  lemma NotAt(h: int, l: seq<int>, p: int, i: nat)
    requires Indexed(h, l) && IsPid(p) && p !in l && i <= |l| + 1
    ensures At(h, l, i) != p && 0 <= At(h, l, i) < NQENT
  {
    if 0 < i <= |l| { assert l[i - 1] in l; }
  }

  lemma InsertedAt(h: int, l: seq<int>, k: nat, p: int, i: nat)
    requires k <= |l| && i <= |l| + 2
    ensures |Inserted(l, k, p)| == |l| + 1
    ensures At(h, Inserted(l, k, p), i) == if i <= k then At(h, l, i) else if i == k + 1 then p else At(h, l, i - 1)
  {
  }

  lemma LinkedInLinks(qt: seq<QEntry>, h: int, l: seq<int>, k: nat, p: int)
    requires |qt| == NQENT && Linked(qt, h, l) && k <= |l| && IsPid(p) && Distinct(l) && p !in l
    ensures Linked(LinkedIn(qt, h, l, k, p), h, Inserted(l, k, p)) && SameKeys(qt, LinkedIn(qt, h, l, k, p))
    ensures forall e {:trigger LinkedIn(qt, h, l, k, p)[e]} :: 0 <= e < NQENT && e != p && e != h && e != h + 1 && e !in l ==>
              LinkedIn(qt, h, l, k, p)[e] == qt[e]
  {
    hide Distinct;
    var r, t := Inserted(l, k, p), LinkedIn(qt, h, l, k, p);
    LinkedAt(qt, h, l, k);
    LinkedInElsewhere(qt, h, l, k, p);
    forall i | 0 <= i < |r| ensures 0 <= r[i] < NPROC { assert r[i] == if i < k then l[i] else if i == k then p else l[i - 1]; }
    forall i | 0 <= i <= |r| ensures t[At(h, r, i)].qnext == At(h, r, i + 1) && t[At(h, r, i + 1)].qprev == At(h, r, i) {
      LinkedInAt(qt, h, l, k, p, i);
    }
  }

  lemma LinkedInElsewhere(qt: seq<QEntry>, h: int, l: seq<int>, k: nat, p: int)
    requires |qt| == NQENT && Linked(qt, h, l) && k <= |l| && IsPid(p)
    ensures SameKeys(qt, LinkedIn(qt, h, l, k, p))
    ensures forall e {:trigger LinkedIn(qt, h, l, k, p)[e]} :: 0 <= e < NQENT && e != p && e != h && e != h + 1 && e !in l ==>
              LinkedIn(qt, h, l, k, p)[e] == qt[e]
  {
    hide Linked;
    LinkedAt(qt, h, l, k);
    AtMember(h, l, k);
    AtMember(h, l, k + 1);
  }

  lemma AtMember(h: int, l: seq<int>, i: nat)
    requires i <= |l| + 1
    ensures At(h, l, i) == h || At(h, l, i) == h + 1 || At(h, l, i) in l
  {
  }

  lemma AtDiffer(h: int, l: seq<int>, i: nat, k: nat)
    requires Indexed(h, l) && Distinct(l) && i <= |l| && k <= |l| && i != k
    ensures At(h, l, i) != At(h, l, k) && At(h, l, i + 1) != At(h, l, k + 1)
  {
  }

  /** Process l[k] bypassed: the entries on both sides are linked to each other. */
  function LinkedOut(qt: seq<QEntry>, h: int, l: seq<int>, k: nat): (r: seq<QEntry>)
    requires |qt| == NQENT && Linked(qt, h, l) && k < |l|
    ensures |r| == NQENT
  {
    LinkedAt(qt, h, l, k);
    LinkedAt(qt, h, l, k + 1);
    var a, b := At(h, l, k), At(h, l, k + 2);
    var q1 := qt[a := qt[a].(qnext := b)];
    q1[b := q1[b].(qprev := a)]
  }

  lemma LinkedOutAt(qt: seq<QEntry>, h: int, l: seq<int>, k: nat, i: nat)
    requires |qt| == NQENT && Linked(qt, h, l) && k < |l| && Distinct(l) && i < |l|
    ensures var r, t := WithoutAt(l, k), LinkedOut(qt, h, l, k);
            && |r| == |l| - 1 && 0 <= At(h, r, i) < NQENT && 0 <= At(h, r, i + 1) < NQENT
            && t[At(h, r, i)].qnext == At(h, r, i + 1) && t[At(h, r, i + 1)].qprev == At(h, r, i)
  {
    hide Linked, Distinct;
    WithoutAtAt(h, l, k, i);
    WithoutAtAt(h, l, k, i + 1);
    LinkedAt(qt, h, l, k);
    LinkedAt(qt, h, l, k + 1);
    if i < k {
      LinkedAt(qt, h, l, i);
      AtDiffer(h, l, i, k);
      AtDiffer(h, l, i, k + 1);
    } else if i > k {
      LinkedAt(qt, h, l, i + 1);
      AtDiffer(h, l, i + 1, k);
      AtDiffer(h, l, i + 1, k + 1);
    }
  }

  lemma WithoutAtAt(h: int, l: seq<int>, k: nat, i: nat)
    requires k < |l| && i <= |l|
    ensures |WithoutAt(l, k)| == |l| - 1
    ensures At(h, WithoutAt(l, k), i) == if i <= k then At(h, l, i) else At(h, l, i + 1)
  {
  }

  lemma LinkedOutLinks(qt: seq<QEntry>, h: int, l: seq<int>, k: nat)
    requires |qt| == NQENT && Linked(qt, h, l) && k < |l| && Distinct(l)
    ensures Linked(LinkedOut(qt, h, l, k), h, WithoutAt(l, k)) && SameKeys(qt, LinkedOut(qt, h, l, k))
    ensures forall e {:trigger LinkedOut(qt, h, l, k)[e]} :: 0 <= e < NQENT && e != h && e != h + 1 && e !in l ==>
              LinkedOut(qt, h, l, k)[e] == qt[e]
  {
    hide Distinct;
    var r, t := WithoutAt(l, k), LinkedOut(qt, h, l, k);
    LinkedAt(qt, h, l, k);
    LinkedOutElsewhere(qt, h, l, k);
    forall i | 0 <= i < |r| ensures 0 <= r[i] < NPROC { assert r[i] == if i < k then l[i] else l[i + 1]; }
    forall i | 0 <= i <= |r| ensures t[At(h, r, i)].qnext == At(h, r, i + 1) && t[At(h, r, i + 1)].qprev == At(h, r, i) {
      LinkedOutAt(qt, h, l, k, i);
    }
  }

  lemma LinkedOutElsewhere(qt: seq<QEntry>, h: int, l: seq<int>, k: nat)
    requires |qt| == NQENT && Linked(qt, h, l) && k < |l|
    ensures SameKeys(qt, LinkedOut(qt, h, l, k))
    ensures forall e {:trigger LinkedOut(qt, h, l, k)[e]} :: 0 <= e < NQENT && e != h && e != h + 1 && e !in l ==>
              LinkedOut(qt, h, l, k)[e] == qt[e]
  {
    hide Linked;
    LinkedAt(qt, h, l, k);
    LinkedAt(qt, h, l, k + 1);
    AtMember(h, l, k);
    AtMember(h, l, k + 2);
  }

  // ------------------------------------------------------------ all lists together

  ghost predicate Disjoint(lists: seq<seq<int>>) {
    && (forall k {:trigger lists[k]} :: 0 <= k < |lists| ==> Distinct(lists[k]))
    && (forall j, k, p {:trigger p in lists[j], p in lists[k]} :: 0 <= j < |lists| && 0 <= k < |lists| && p in lists[j] && p in lists[k] ==> j == k)
  }

  ghost predicate AllLinked(qt: seq<QEntry>, lists: seq<seq<int>>) {
    |qt| == NQENT && forall k {:trigger lists[k]} :: 0 <= k < |lists| ==> Linked(qt, Head(k), lists[k])
  }

  /** One list changes, the others stay linked. */
  lemma OneChanged(qt: seq<QEntry>, qt': seq<QEntry>, lists: seq<seq<int>>, k: nat, l: seq<int>)
    requires AllLinked(qt, lists) && |qt'| == NQENT && k < |lists| && Linked(qt', Head(k), l)
    requires forall j, e {:trigger At(Head(j), lists[j], e)} :: 0 <= j < |lists| && j != k && 0 <= e <= |lists[j]| + 1 ==>
               0 <= At(Head(j), lists[j], e) < NQENT && qt'[At(Head(j), lists[j], e)] == qt[At(Head(j), lists[j], e)]
    ensures AllLinked(qt', lists[k := l])
  {
    forall j | 0 <= j < |lists| && j != k ensures Linked(qt', Head(j), lists[j]) {
      var m := lists[j];
      assert At(Head(j), m, 0) == Head(j) && At(Head(j), m, |m| + 1) == Head(j) + 1;
      forall i | 0 <= i < |m| ensures qt'[m[i]] == qt[m[i]] { assert At(Head(j), m, i + 1) == m[i]; }
      LinkedFrame(qt, qt', Head(j), m);
    }
  }

  /** Entries of other lists are not among those of list k. */
  lemma Elsewhere(qt: seq<QEntry>, lists: seq<seq<int>>, k: nat, j: nat, e: nat)
    requires AllLinked(qt, lists) && Disjoint(lists) && k < |lists| && j < |lists| && j != k && e <= |lists[j]| + 1
    ensures var x := At(Head(j), lists[j], e);
            0 <= x < NQENT && x != Head(k) && x != Head(k) + 1 && x !in lists[k] && (x < NPROC ==> x in lists[j])
  {
    var l := lists[k];
    assert Linked(qt, Head(j), lists[j]) && Linked(qt, Head(k), l);
    if 0 < e <= |lists[j]| {
      assert lists[j][e - 1] in lists[j];
    } else {
      forall i | 0 <= i < |l| ensures l[i] != At(Head(j), lists[j], e) {}
    }
  }

  /** Linking a process into list k keeps all lists linked and disjoint. */
  lemma InsertKeeps(qt: seq<QEntry>, lists: seq<seq<int>>, k: nat, i: nat, p: int)
    requires AllLinked(qt, lists) && Disjoint(lists) && k < |lists| && i <= |lists[k]| && IsPid(p)
    requires forall j {:trigger lists[j]} :: 0 <= j < |lists| ==> p !in lists[j]
    ensures Linked(qt, Head(k), lists[k])
    ensures AllLinked(LinkedIn(qt, Head(k), lists[k], i, p), lists[k := Inserted(lists[k], i, p)])
    ensures Disjoint(lists[k := Inserted(lists[k], i, p)])
    ensures SameKeys(qt, LinkedIn(qt, Head(k), lists[k], i, p))
  {
    hide Linked, Distinct, LinkedIn, Inserted;
    var t := LinkedIn(qt, Head(k), lists[k], i, p);
    LinkedInLinks(qt, Head(k), lists[k], i, p);
    forall j, e | 0 <= j < |lists| && j != k && 0 <= e <= |lists[j]| + 1
      ensures 0 <= At(Head(j), lists[j], e) < NQENT && t[At(Head(j), lists[j], e)] == qt[At(Head(j), lists[j], e)]
    {
      Elsewhere(qt, lists, k, j, e);
    }
    OneChanged(qt, t, lists, k, Inserted(lists[k], i, p));
    InsertedFacts(lists[k], i, p);
  }

  lemma RemoveKeeps(qt: seq<QEntry>, lists: seq<seq<int>>, k: nat, i: nat)
    requires AllLinked(qt, lists) && Disjoint(lists) && k < |lists| && i < |lists[k]|
    ensures Linked(qt, Head(k), lists[k])
    ensures AllLinked(LinkedOut(qt, Head(k), lists[k], i), lists[k := WithoutAt(lists[k], i)])
    ensures Disjoint(lists[k := WithoutAt(lists[k], i)])
    ensures SameKeys(qt, LinkedOut(qt, Head(k), lists[k], i))
  {
    hide Linked, Distinct, LinkedOut, WithoutAt;
    var t := LinkedOut(qt, Head(k), lists[k], i);
    LinkedOutLinks(qt, Head(k), lists[k], i);
    forall j, e | 0 <= j < |lists| && j != k && 0 <= e <= |lists[j]| + 1
      ensures 0 <= At(Head(j), lists[j], e) < NQENT && t[At(Head(j), lists[j], e)] == qt[At(Head(j), lists[j], e)]
    {
      Elsewhere(qt, lists, k, j, e);
    }
    OneChanged(qt, t, lists, k, WithoutAt(lists[k], i));
    WithoutAtFacts(lists[k], i);
  }

  lemma WithoutAtFacts(l: seq<int>, i: nat)
    requires Distinct(l) && i < |l|
    ensures Distinct(WithoutAt(l, i)) && forall x :: x in WithoutAt(l, i) <==> x in l && x != l[i]
  {
    var r := WithoutAt(l, i);
    forall j | 0 <= j < |r| ensures r[j] == l[if j < i then j else j + 1] {}
    forall x | x in l && x != l[i] ensures x in r {
      var j :| 0 <= j < |l| && l[j] == x;
      assert r[if j < i then j else j - 1] == x;
    }
  }

  /** Writing the key of a process leaves all links alone. */
  lemma KeyKeeps(qt: seq<QEntry>, lists: seq<seq<int>>, p: int, key: int)
    requires AllLinked(qt, lists) && IsPid(p)
    ensures AllLinked(qt[p := qt[p].(qkey := key)], lists)
  {
    var t := qt[p := qt[p].(qkey := key)];
    forall k | 0 <= k < |lists| ensures Linked(t, Head(k), lists[k]) {
      var l := lists[k];
      forall i | 0 <= i <= |l| ensures t[At(Head(k), l, i)].qnext == At(Head(k), l, i + 1) && t[At(Head(k), l, i + 1)].qprev == At(Head(k), l, i) {
        LinkedAt(qt, Head(k), l, i);
      }
    }
  }
}
