/** The queue functions over the global queue table. */
module KernelQueues {
  import opened Common
  import opened DeltaList
  import opened KernelModel
  import opened QueueTable

  /** No list holds p. */
  ghost predicate Nowhere(lists: seq<seq<int>>, p: int) {
    forall j {:trigger lists[j]} :: 0 <= j < |lists| ==> p !in lists[j]
  }

  lemma UnlistedKeeps(qt: seq<QEntry>, lists: seq<seq<int>>, p: int, e: QEntry)
    requires AllLinked(qt, lists) && IsPid(p) && Nowhere(lists, p)
    ensures AllLinked(qt[p := e], lists)
  {
    hide Linked;
    forall k | 0 <= k < |lists| ensures Linked(qt[p := e], Head(k), lists[k]) {
      LinkedAt(qt, Head(k), lists[k], 0);
      assert p !in lists[k];
      LinkedFrame(qt, qt[p := e], Head(k), lists[k]);
    }
  }

  lemma RemovedNowhere(lists: seq<seq<int>>, k: nat, i: nat)
    requires Disjoint(lists) && k < |lists| && i < |lists[k]|
    ensures Nowhere(lists[k := WithoutAt(lists[k], i)], lists[k][i])
  {
    hide Distinct;
    var p := lists[k][i];
    assert p in lists[k];
    WithoutAtFacts(lists[k], i);
    var ls := lists[k := WithoutAt(lists[k], i)];
    forall j | 0 <= j < |ls| ensures p !in ls[j] {}
  }

  lemma ListLinked(qt: seq<QEntry>, lists: seq<seq<int>>, k: int)
    requires AllLinked(qt, lists) && 0 <= k < |lists|
    ensures |qt| == NQENT && Linked(qt, Head(k), lists[k])
  {
  }

  lemma ListDistinct(lists: seq<seq<int>>, k: int, i: nat)
    requires Disjoint(lists) && 0 <= k < |lists| && i < |lists[k]|
    ensures IndexOf(lists[k], lists[k][i]) == i && lists[k][i] in lists[k]
  {
    IndexUnique(lists[k], i);
  }

  /** Entry i of a list, and what follows it. */
  lemma OnList(qt: seq<QEntry>, h: int, l: seq<int>, i: nat)
    requires |qt| == NQENT && Linked(qt, h, l) && i < |l|
    ensures At(h, l, i + 1) == l[i] && IsPid(l[i]) && qt[l[i]].qnext == At(h, l, i + 2) && 0 <= At(h, l, i + 2) < NQENT && l[i] != h + 1
  {
    hide Linked, At;
    LinkedAt(qt, h, l, i);
    LinkedAt(qt, h, l, i + 1);
  }

  /** The entry behind the last is the tail, which has the least key. */
  lemma NotTail(qt: seq<QEntry>, h: int, l: seq<int>, i: nat)
    requires |qt| == NQENT && Linked(qt, h, l) && i <= |l|
    ensures 0 <= At(h, l, i + 1) < NQENT
    ensures i == |l| ==> At(h, l, i + 1) == h + 1 && qt[h + 1].qkey == MINKEY
  {
    hide Linked, At;
    LinkedAt(qt, h, l, i);
    TailKey(qt, h, l);
  }

  lemma FirstOn(qt: seq<QEntry>, h: int, l: seq<int>)
    requires |qt| == NQENT && Linked(qt, h, l)
    ensures AllPids(l) && 0 <= h < NQENT && qt[h].qnext == At(h, l, 1) && 0 <= At(h, l, 1) < NQENT
  {
    hide Linked;
    LinkedAt(qt, h, l, 0);
  }

  lemma TailKey(qt: seq<QEntry>, h: int, l: seq<int>)
    requires |qt| == NQENT && Linked(qt, h, l)
    ensures NPROC <= h && h + 1 < NQENT && qt[h + 1].qkey == MINKEY
  {
  }

  class Queues {
    const proctab: array<Proc>
    const queuetab: array<QEntry>
    /** The next list that newqueue hands out. */
    var nextqid: int
    /** What each list holds. */
    ghost var lists: seq<seq<int>>

    ghost predicate Valid()
      reads this, queuetab
    {
      && proctab.Length == NPROC && queuetab.Length == NQENT
      && AllLinked(queuetab[..], lists) && Disjoint(lists) && nextqid == Head(|lists|)
    }

    constructor (proctab: array<Proc>)
      requires proctab.Length == NPROC
      ensures Valid() && lists == [] && this.proctab == proctab && fresh(queuetab)
    {
      this.proctab := proctab;
      queuetab := new QEntry[NQENT](_ => QEntry(0, 0, 0));
      nextqid := NPROC;
      lists := [];
    }

    method NewQueue() returns (q: int)
      requires Valid()
      modifies this, queuetab
      ensures Valid()
      ensures q == SYSERR <==> |old(lists)| == 2 + NSEM
      ensures if q == SYSERR then lists == old(lists) else q == Head(|old(lists)|) && lists == old(lists) + [[]]
    {
      hide Linked;
      ListsFit();
      q := nextqid;
      if q >= NQENT {
        return SYSERR;
      }
      nextqid := nextqid + 2;
      ghost var before := queuetab[..];
      queuetab[q] := QEntry(MAXKEY, q + 1, EMPTY);
      queuetab[q + 1] := QEntry(MINKEY, EMPTY, q);
      ghost var k := |lists|;
      forall j | 0 <= j < k ensures Linked(queuetab[..], Head(j), lists[j]) {
        LinkedAt(before, Head(j), lists[j], 0);
        LinkedFrame(before, queuetab[..], Head(j), lists[j]);
      }
      EmptyLinked(queuetab[..], q);
      lists := lists + [[]];
    }

    lemma ListsFit()
      requires Valid()
      ensures |lists| <= 2 + NSEM
    {
      if |lists| > 2 + NSEM {
        LinkedAt(queuetab[..], Head(|lists| - 1), lists[|lists| - 1], 0);
      }
    }

    lemma EmptyLinked(qt: seq<QEntry>, h: int)
      requires |qt| == NQENT && NPROC <= h && h + 1 < NQENT
      requires qt[h].qkey == MAXKEY && qt[h].qnext == h + 1 && qt[h + 1].qkey == MINKEY && qt[h + 1].qprev == h
      ensures Linked(qt, h, [])
    {
    }

    predicate BadQid(q: int) { q < NPROC || q >= NQENT - 1 }

    predicate BadId(pid: int)
      requires proctab.Length == NPROC
      reads proctab
    {
      !IsPid(pid) || proctab[pid].state == FREE
    }

    /** isempty(q) */
    method IsEmpty(q: int, ghost k: nat) returns (r: bool)
      requires Valid() && k < |lists| && q == Head(k)
      ensures r <==> |lists[k]| == 0
    {
      hide Linked;
      ListLinked(queuetab[..], lists, k);
      LinkedAt(queuetab[..], q, lists[k], 0);
      r := queuetab[q].qnext >= NPROC;
    }

    method FirstKey(q: int, ghost k: nat) returns (key: int)
      requires Valid() && k < |lists| && q == Head(k)
      ensures if |lists[k]| == 0 then key == MINKEY else IsPid(lists[k][0]) && key == queuetab[lists[k][0]].qkey
    {
      hide Linked;
      ListLinked(queuetab[..], lists, k);
      LinkedAt(queuetab[..], q, lists[k], 0);
      key := queuetab[queuetab[q].qnext].qkey;
    }

    /** Link pid in before entry `next`, which is entry i + 1 of list k. */
    method LinkBefore(pid: int, next: int, key: int, ghost k: nat, ghost i: nat)
      requires Valid() && k < |lists| && i <= |lists[k]| && IsPid(pid) && Nowhere(lists, pid)
      requires next == At(Head(k), lists[k], i + 1)
      modifies this`lists, queuetab
      ensures Valid() && lists == old(lists)[k := Inserted(old(lists)[k], i, pid)]
      ensures forall e {:trigger queuetab[e]} :: 0 <= e < NQENT ==> queuetab[e].qkey == if e == pid then key else old(queuetab[e].qkey)
    {
      hide Linked, Disjoint, Nowhere, Inserted, At;
      ghost var qt := queuetab[..];
      ListLinked(qt, lists, k);
      LinkedAt(qt, Head(k), lists[k], i);
      var prev := queuetab[next].qprev;
      ghost var keyed := qt[pid := qt[pid].(qkey := key)];
      UnlistedKeeps(qt, lists, pid, keyed[pid]);
      ListLinked(keyed, lists, k);
      NowhereIs(lists, pid);
      InsertKeeps(keyed, lists, k, i, pid);
      NotAtPid(Head(k), lists[k], pid, i);
      queuetab[pid] := QEntry(key, next, prev);
      queuetab[prev] := queuetab[prev].(qnext := pid);
      queuetab[next] := queuetab[next].(qprev := pid);
      assert queuetab[..] == LinkedIn(keyed, Head(k), lists[k], i, pid);
      lists := lists[k := Inserted(lists[k], i, pid)];
    }

    lemma NowhereIs(lists: seq<seq<int>>, p: int)
      requires Nowhere(lists, p)
      ensures forall j {:trigger lists[j]} :: 0 <= j < |lists| ==> p !in lists[j]
    {
    }

    lemma NotAtPid(h: int, l: seq<int>, p: int, i: nat)
      requires Indexed(h, l) && IsPid(p) && p !in l && i <= |l|
      ensures At(h, l, i) != p && At(h, l, i + 1) != p
    {
      NotAt(h, l, p, i);
      NotAt(h, l, p, i + 1);
    }

    /** enqueue: at the tail. */
    method Enqueue(pid: int, q: int, ghost k: nat) returns (r: int)
      requires Valid() && (!BadQid(q) && !BadId(pid) ==> k < |lists| && q == Head(k) && Nowhere(lists, pid))
      modifies this`lists, queuetab
      ensures Valid()
      ensures BadQid(q) || BadId(pid) ==> r == SYSERR && lists == old(lists) && queuetab[..] == old(queuetab[..])
      ensures !BadQid(q) && !BadId(pid) ==> r == pid && lists == old(lists)[k := old(lists)[k] + [pid]] && SameKeys(old(queuetab[..]), queuetab[..])
    {
      hide Linked, Disjoint, Nowhere;
      if BadQid(q) || BadId(pid) {
        return SYSERR;
      }
      ghost var n := |lists[k]|;
      ListLinked(queuetab[..], lists, k);
      LinkedAt(queuetab[..], q, lists[k], n);
      var tail := q + 1;
      LinkBefore(pid, tail, queuetab[pid].qkey, k, n);
      assert Inserted(old(lists)[k], n, pid) == old(lists)[k] + [pid];
      return pid;
    }

    /** getitem: unlink a process wherever it is. */
    method GetItem(pid: int, ghost k: nat) returns (r: int)
      requires Valid() && k < |lists| && pid in lists[k]
      modifies this`lists, queuetab
      ensures Valid() && r == pid && lists == old(lists)[k := Remove(old(lists)[k], pid)] && SameKeys(old(queuetab[..]), queuetab[..])
      ensures Nowhere(lists, pid) && IsPid(pid)
    {
      hide Linked, Disjoint, Nowhere, WithoutAt, At;
      ghost var qt, i := queuetab[..], IndexOf(lists[k], pid);
      ListLinked(qt, lists, k);
      LinkedAt(qt, Head(k), lists[k], i);
      LinkedAt(qt, Head(k), lists[k], i + 1);
      RemoveKeeps(qt, lists, k, i);
      RemovedNowhere(lists, k, i);
      var next := queuetab[pid].qnext;
      var prev := queuetab[pid].qprev;
      queuetab[prev] := queuetab[prev].(qnext := next);
      queuetab[next] := queuetab[next].(qprev := prev);
      assert queuetab[..] == LinkedOut(qt, Head(k), lists[k], i);
      lists := lists[k := WithoutAt(lists[k], i)];
      return pid;
    }

    method GetFirst(q: int, ghost k: nat) returns (r: int)
      requires Valid() && k < |lists| && q == Head(k)
      modifies this`lists, queuetab
      ensures Valid() && SameKeys(old(queuetab[..]), queuetab[..])
      ensures |old(lists)[k]| == 0 ==> r == EMPTY && lists == old(lists)
      ensures |old(lists)[k]| > 0 ==> r == old(lists)[k][0] && lists == old(lists)[k := old(lists)[k][1..]] && Nowhere(lists, r) && IsPid(r)
    {
      hide Linked, Disjoint, Nowhere, AllLinked;
      var empty := IsEmpty(q, k);
      if empty {
        return EMPTY;
      }
      ListLinked(queuetab[..], lists, k);
      LinkedAt(queuetab[..], q, lists[k], 0);
      ListDistinct(lists, k, 0);
      RemoveFirst(lists[k]);
      r := GetItem(queuetab[q].qnext, k);
    }

    method GetLast(q: int, ghost k: nat) returns (r: int)
      requires Valid() && k < |lists| && q == Head(k)
      modifies this`lists, queuetab
      ensures Valid() && SameKeys(old(queuetab[..]), queuetab[..])
      ensures |old(lists)[k]| == 0 ==> r == EMPTY && lists == old(lists)
      ensures |old(lists)[k]| > 0 ==>
                var n := |old(lists)[k]| - 1;
                r == old(lists)[k][n] && lists == old(lists)[k := old(lists)[k][..n]] && Nowhere(lists, r)
    {
      hide Linked, Disjoint, Nowhere, AllLinked;
      var empty := IsEmpty(q, k);
      if empty {
        return EMPTY;
      }
      ghost var n := |lists[k]| - 1;
      ListLinked(queuetab[..], lists, k);
      LinkedAt(queuetab[..], q, lists[k], n + 1);
      LinkedAt(queuetab[..], q, lists[k], n);
      ListDistinct(lists, k, n);
      assert WithoutAt(lists[k], n) == lists[k][..n];
      r := GetItem(queuetab[q + 1].qprev, k);
    }

    /** dequeue: the process loses its own links too. */
    method Dequeue(q: int, ghost k: nat) returns (r: int)
      requires Valid() && (!BadQid(q) ==> k < |lists| && q == Head(k))
      modifies this`lists, queuetab
      ensures Valid() && SameKeys(old(queuetab[..]), queuetab[..])
      ensures BadQid(q) ==> r == SYSERR && lists == old(lists)
      ensures !BadQid(q) && |old(lists)[k]| == 0 ==> r == EMPTY && lists == old(lists)
      ensures !BadQid(q) && |old(lists)[k]| > 0 ==>
                && r == old(lists)[k][0] && lists == old(lists)[k := old(lists)[k][1..]] && Nowhere(lists, r) && IsPid(r)
                && queuetab[r].qprev == EMPTY && queuetab[r].qnext == EMPTY
    {
      hide Linked, Disjoint, Nowhere;
      if BadQid(q) {
        return SYSERR;
      }
      var empty := IsEmpty(q, k);
      if empty {
        return EMPTY;
      }
      r := GetFirst(q, k);
      ghost var qt := queuetab[..];
      UnlistedKeeps(qt, lists, r, QEntry(qt[r].qkey, EMPTY, EMPTY));
      queuetab[r] := queuetab[r].(qprev := EMPTY);
      queuetab[r] := queuetab[r].(qnext := EMPTY);
      assert queuetab[..] == qt[r := QEntry(qt[r].qkey, EMPTY, EMPTY)];
    }

    /** insert: before the first entry with a smaller key; the tail's key ends the search. */
    method Insert(pid: int, q: int, key: int, ghost k: nat) returns (r: int, ghost place: nat)
      requires Valid() && MINKEY < key <= MAXKEY
      requires !BadQid(q) && !BadId(pid) ==> k < |lists| && q == Head(k) && Nowhere(lists, pid)
      modifies this`lists, queuetab
      ensures Valid()
      ensures BadQid(q) || BadId(pid) ==> r == SYSERR && lists == old(lists) && queuetab[..] == old(queuetab[..])
      ensures !BadQid(q) && !BadId(pid) ==>
                && r == OK && place <= |old(lists)[k]| && lists == old(lists)[k := Inserted(old(lists)[k], place, pid)]
                && AllPids(old(lists)[k])
                && (forall i {:trigger old(lists)[k][i]} :: 0 <= i < place ==> old(queuetab[..])[old(lists)[k][i]].qkey >= key)
                && (place < |old(lists)[k]| ==> old(queuetab[..])[old(lists)[k][place]].qkey < key)
      ensures !BadQid(q) && !BadId(pid) ==>
                forall e {:trigger queuetab[e]} :: 0 <= e < NQENT ==> queuetab[e].qkey == if e == pid then key else old(queuetab[e].qkey)
    {
      hide Linked, Disjoint, Nowhere, At, Inserted, AllLinked;
      place := 0;
      if BadQid(q) || BadId(pid) {
        return SYSERR, 0;
      }
      ghost var l := lists[k];
      ListLinked(queuetab[..], lists, k);
      FirstOn(queuetab[..], q, l);
      var curr := queuetab[q].qnext;
      while queuetab[curr].qkey >= key
        invariant Valid() && lists == old(lists) && queuetab[..] == old(queuetab[..]) && Linked(queuetab[..], q, l)
        invariant place <= |l| && 0 <= curr < NQENT && curr == At(q, l, place + 1)
        invariant forall i {:trigger l[i]} :: 0 <= i < place ==> queuetab[..][l[i]].qkey >= key
        decreases |l| - place
      {
        NotTail(queuetab[..], q, l, place);
        OnList(queuetab[..], q, l, place);
        curr := queuetab[curr].qnext;
        place := place + 1;
      }
      if place < |l| { OnList(queuetab[..], q, l, place); }
      LinkBefore(pid, curr, key, k, place);
      r := OK;
    }

    /** insertd: behind every sleeper due no later, each of whose delays is taken off the new one. */
    method InsertD(pid: int, q: int, delay: int, ghost k: nat) returns (r: int)
      requires Valid() && (!BadQid(q) && !BadId(pid) ==> k < |lists| && q == Head(k) && Nowhere(lists, pid))
      modifies this`lists, queuetab
      ensures Valid()
      ensures BadQid(q) || BadId(pid) ==> r == SYSERR && lists == old(lists) && queuetab[..] == old(queuetab[..])
      ensures !BadQid(q) && !BadId(pid) ==>
                && r == OK && k < |lists| && AllPids(old(lists)[k]) && AllPids(lists[k])
                && DelayPlace(Keys(old(queuetab[..]), old(lists)[k]), delay) <= |old(lists)[k]|
                && lists == old(lists)[k := Inserted(old(lists)[k], DelayPlace(Keys(old(queuetab[..]), old(lists)[k]), delay), pid)]
                && Keys(queuetab[..], lists[k]) == InsertDelay(Keys(old(queuetab[..]), old(lists)[k]), delay)
      ensures !BadQid(q) && !BadId(pid) ==>
                forall e {:trigger queuetab[e]} :: 0 <= e < NQENT && e != pid && e !in old(lists)[k] ==> queuetab[e].qkey == old(queuetab[e].qkey)
    {
      hide Linked, Disjoint, Nowhere, InsertDelay, DelayPlace, Inserted, At, AllLinked;
      if BadQid(q) || BadId(pid) {
        return SYSERR;
      }
      ghost var l := lists[k];
      ListLinked(queuetab[..], lists, k);
      LinkedAt(queuetab[..], q, l, 0);
      ghost var before := queuetab[..];
      var next, key, i := SkipEarlier(q, delay, k);
      LinkedAt(before, q, l, i);
      NowhereIs(lists, pid);
      NotAtPid(q, l, pid, i);
      LinkBefore(pid, next, key, k, i);
      ghost var linked := queuetab[..];
      if next != q + 1 {
        KeyKeeps(linked, lists, next, linked[next].qkey - key);
        queuetab[next] := queuetab[next].(qkey := queuetab[next].qkey - key);
        assert queuetab[..] == linked[next := linked[next].(qkey := linked[next].qkey - key)];
      }
      ListLinked(queuetab[..], lists, k);
      LinkedAt(queuetab[..], q, lists[k], 0);
      NotAmong(old(lists), k, pid);
      InsertedKeys(l, before, queuetab[..], i, pid, key);
      r := OK;
    }

    /** The walk of insertd: past i sleepers, with `key` left of the delay. */
    method SkipEarlier(q: int, delay: int, ghost k: nat) returns (next: int, key: int, ghost i: nat)
      requires Valid() && k < |lists| && q == Head(k) && AllPids(lists[k])
      ensures i <= |lists[k]| && next == At(q, lists[k], i + 1) && 0 <= next < NQENT
      ensures i < |lists[k]| <==> next != q + 1
      ensures var d := Keys(queuetab[..], lists[k]);
              && i == DelayPlace(d, delay) && InsertDelay(d, delay) == d[..i] + InsertDelay(d[i..], key)
              && (i < |d| ==> d[i] > key)
    {
      hide Linked, Disjoint, AllLinked, DelayPlace, InsertDelay, At;
      ghost var l, d := lists[k], Keys(queuetab[..], lists[k]);
      ListLinked(queuetab[..], lists, k);
      FirstOn(queuetab[..], q, l);
      next, key, i := queuetab[q].qnext, delay, 0;
      assert d[..0] == [] && d[0..] == d;
      while next != q + 1 && queuetab[next].qkey <= key
        invariant i <= |l| && next == At(q, l, i + 1) && 0 <= next < NQENT
        invariant DelayPlace(d, delay) == i + DelayPlace(d[i..], key)
        invariant InsertDelay(d, delay) == d[..i] + InsertDelay(d[i..], key)
        decreases |l| - i
      {
        NotTail(queuetab[..], q, l, i);
        OnList(queuetab[..], q, l, i);
        SkipStep(d, delay, i, key);
        key := key - queuetab[next].qkey;
        next := queuetab[next].qnext;
        i := i + 1;
      }
      if i < |l| { OnList(queuetab[..], q, l, i); }
      NotTail(queuetab[..], q, l, i);
      SkipDone(d[i..], key);
    }

    lemma SkipStep(d: seq<int>, delay: int, i: nat, key: int)
      requires i < |d| && d[i] <= key
      requires DelayPlace(d, delay) == i + DelayPlace(d[i..], key) && InsertDelay(d, delay) == d[..i] + InsertDelay(d[i..], key)
      ensures DelayPlace(d, delay) == i + 1 + DelayPlace(d[i + 1..], key - d[i])
      ensures InsertDelay(d, delay) == d[..i + 1] + InsertDelay(d[i + 1..], key - d[i])
    {
      assert d[i..][1..] == d[i + 1..] && d[..i + 1] == d[..i] + [d[i]];
    }

    lemma SkipDone(d: seq<int>, key: int)
      requires |d| > 0 ==> d[0] > key
      ensures DelayPlace(d, key) == 0
    {
    }

    lemma NotAmong(lists: seq<seq<int>>, k: nat, p: int)
      requires k < |lists| && Disjoint(lists)
      ensures Distinct(lists[k])
    {
    }

    /** The keys along the list after the insertion. */
    lemma InsertedKeys(l: seq<int>, qt: seq<QEntry>, qt': seq<QEntry>, i: nat, pid: int, key: int)
      requires |qt| == |qt'| == NQENT && i <= |l| && AllPids(l) && AllPids(Inserted(l, i, pid)) && IsPid(pid)
      requires Distinct(l) && pid !in l && (i < |l| ==> qt[l[i]].qkey > key)
      requires forall e {:trigger qt'[e]} :: 0 <= e < NQENT ==>
                 qt'[e].qkey == if e == pid then key else if i < |l| && e == l[i] then qt[e].qkey - key else qt[e].qkey
      ensures Keys(qt', Inserted(l, i, pid)) == Keys(qt, l)[..i] + InsertDelay(Keys(qt, l)[i..], key)
    {
      var d := Keys(qt, l);
      var r, e := Keys(qt', Inserted(l, i, pid)), d[..i] + InsertDelay(d[i..], key);
      assert |r| == |e|;
      forall j | 0 <= j < |r| ensures r[j] == e[j] {
        assert Inserted(l, i, pid)[j] == if j < i then l[j] else if j == i then pid else l[j - 1];
      }
    }
  }
}
