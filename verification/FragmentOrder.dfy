/** The receiver's queue of fragments as a sequence: where a fragment is put, when the queue
    holds a whole payload, and which orders of arrival it can cope with. */
module FragmentOrder {
  import opened Bytes

  datatype Frag = Frag(offset: nat, payload: seq<byte>)

  function End(f: Frag): (e: nat) { f.offset + |f.payload| }

  /** The search for a place goes back from the end and gives up after three fragments, or at
      one that overlaps. */
  function PlaceFrom(fs: seq<Frag>, x: Frag, k: nat, count: nat): (p: nat)
    requires k <= |fs|
    ensures p <= k
    decreases k
  {
    if k == 0 || count == 3 || x.offset >= fs[k - 1].offset then k else PlaceFrom(fs, x, k - 1, count + 1)
  }

  function InsertAt(fs: seq<Frag>, k: nat, x: Frag): (r: seq<Frag>)
    requires k <= |fs|
  {
    fs[..k] + [x] + fs[k..]
  }

  function Insert(fs: seq<Frag>, x: Frag): (r: seq<Frag>) {
    InsertAt(fs, PlaceFrom(fs, x, |fs|, 0), x)
  }

  lemma InsertMembers(fs: seq<Frag>, k: nat, x: Frag)
    requires k <= |fs|
    ensures forall f :: f in InsertAt(fs, k, x) <==> f in fs || f == x
  {
    var r := InsertAt(fs, k, x);
    forall f | f in fs ensures f in r {
      var i :| 0 <= i < |fs| && fs[i] == f;
      assert r[if i < k then i else i + 1] == f;
    }
    assert r[k] == x;
  }

  // ------------------------------------------------------------ contents

  function Joined(fs: seq<Frag>): (s: seq<byte>) {
    if |fs| == 0 then [] else Joined(fs[..|fs| - 1]) + fs[|fs| - 1].payload
  }

  /** Each fragment starts where those before it end. */
  ghost predicate Contiguous(fs: seq<Frag>) {
    |fs| == 0 || (Contiguous(fs[..|fs| - 1]) && fs[|fs| - 1].offset == |Joined(fs[..|fs| - 1])|)
  }

  lemma {:induction false} ContiguousPrefix(fs: seq<Frag>, n: nat)
    requires Contiguous(fs) && n <= |fs|
    ensures Contiguous(fs[..n])
  {
    if n < |fs| {
      assert fs[..|fs| - 1][..n] == fs[..n];
      ContiguousPrefix(fs[..|fs| - 1], n);
    } else {
      assert fs[..n] == fs;
    }
  }

  /** f carries its part of payload p. */
  predicate SliceOf(p: seq<byte>, f: Frag) {
    End(f) <= |p| && f.payload == p[f.offset..End(f)]
  }

  ghost predicate AllSlices(p: seq<byte>, fs: seq<Frag>) {
    forall f :: f in fs ==> SliceOf(p, f)
  }

  lemma FrontMembers(fs: seq<Frag>)
    requires |fs| > 0
    ensures forall f :: f in fs <==> f in fs[..|fs| - 1] || f == fs[|fs| - 1]
  {
    assert fs == fs[..|fs| - 1] + [fs[|fs| - 1]];
  }

  /** The fragments of a contiguous queue end within its contents. */
  lemma {:induction false} EndsWithin(fs: seq<Frag>)
    requires Contiguous(fs)
    ensures forall f :: f in fs ==> End(f) <= |Joined(fs)|
  {
    if |fs| > 0 {
      EndsWithin(fs[..|fs| - 1]);
      FrontMembers(fs);
    }
  }

  /** A contiguous queue of slices holds a beginning of the payload. */
  lemma {:induction false} JoinedSlices(p: seq<byte>, fs: seq<Frag>)
    requires Contiguous(fs) && AllSlices(p, fs)
    ensures |Joined(fs)| <= |p| && Joined(fs) == p[..|Joined(fs)|]
  {
    if |fs| > 0 {
      var front, last := fs[..|fs| - 1], fs[|fs| - 1];
      FrontMembers(fs);
      JoinedSlices(p, front);
      assert SliceOf(p, last);
      SliceAppend(p, Joined(front), last);
    }
  }

  lemma SliceAppend(p: seq<byte>, s: seq<byte>, f: Frag)
    requires SliceOf(p, f) && |s| == f.offset && s == p[..|s|]
    ensures s + f.payload == p[..End(f)] && |s + f.payload| == End(f)
  {
  }

  /** A contiguous queue that has the end of the payload has all of it. */
  lemma WholePayload(p: seq<byte>, fs: seq<Frag>, last: Frag)
    requires Contiguous(fs) && AllSlices(p, fs) && last in fs && End(last) == |p|
    ensures Joined(fs) == p
  {
    JoinedSlices(p, fs);
    EndsWithin(fs);
  }

  // ------------------------------------------------------------ order of arrival

  ghost predicate Sorted(fs: seq<Frag>) {
    forall i, j {:trigger fs[i], fs[j]} :: 0 <= i < j < |fs| ==> End(fs[i]) <= fs[j].offset && fs[i].offset < fs[j].offset
  }

  /** x overlaps no fragment of fs. */
  ghost predicate Clear(fs: seq<Frag>, x: Frag) {
    forall f :: f in fs ==> (End(f) <= x.offset && f.offset < x.offset) || (End(x) <= f.offset && x.offset < f.offset)
  }

  /** How many fragments of fs start after x. */
  function Later(fs: seq<Frag>, x: Frag): (n: nat)
    ensures n <= |fs|
  {
    if |fs| == 0 then 0 else Later(fs[..|fs| - 1], x) + if fs[|fs| - 1].offset > x.offset then 1 else 0
  }

  lemma SortedFront(fs: seq<Frag>, x: Frag)
    requires Sorted(fs) && Clear(fs, x) && |fs| > 0
    ensures Sorted(fs[..|fs| - 1]) && Clear(fs[..|fs| - 1], x)
    ensures |fs| > 1 ==> fs[|fs| - 2].offset < fs[|fs| - 1].offset
    ensures fs[|fs| - 1].offset != x.offset
  {
    var front := fs[..|fs| - 1];
    assert forall i {:trigger front[i]} :: 0 <= i < |front| ==> front[i] == fs[i] && fs[i] in fs;
    assert fs[|fs| - 1] in fs;
  }

  lemma {:induction false} LaterInSorted(fs: seq<Frag>, x: Frag)
    requires Sorted(fs) && Clear(fs, x)
    ensures forall i {:trigger fs[i]} :: 0 <= i < |fs| ==> (fs[i].offset > x.offset <==> i >= |fs| - Later(fs, x))
  {
    hide Sorted, Clear;
    if |fs| > 0 {
      var front := fs[..|fs| - 1];
      SortedFront(fs, x);
      LaterInSorted(front, x);
      assert forall i {:trigger fs[i]} :: 0 <= i < |front| ==> front[i] == fs[i];
    }
  }

  lemma {:induction false} PlaceBack(fs: seq<Frag>, x: Frag, k: nat, count: nat)
    requires Sorted(fs) && Clear(fs, x) && count <= 3
    requires var g := |fs| - Later(fs, x); g <= k <= |fs|
    ensures var g := |fs| - Later(fs, x);
            PlaceFrom(fs, x, k, count) == if k - g <= 3 - count then g else k - (3 - count)
    decreases k
  {
    LaterInSorted(fs, x);
    if k > 0 && count < 3 && x.offset < fs[k - 1].offset {
      PlaceBack(fs, x, k - 1, count + 1);
    }
  }

  /** A fragment that overlaps nothing goes to its place exactly if at most three queued
      fragments belong after it. */
  lemma InsertSorted(fs: seq<Frag>, x: Frag)
    requires Sorted(fs) && Clear(fs, x)
    ensures Sorted(Insert(fs, x)) <==> Later(fs, x) <= 3
  {
    hide PlaceFrom, Later, Sorted, Clear, InsertAt;
    var g := |fs| - Later(fs, x);
    LaterInSorted(fs, x);
    PlaceBack(fs, x, |fs|, 0);
    if Later(fs, x) <= 3 {
      SortedAt(fs, g, x);
    } else {
      UnsortedAt(fs, |fs| - 3, x);
    }
  }

  lemma SortedAt(fs: seq<Frag>, g: nat, x: Frag)
    requires Sorted(fs) && Clear(fs, x) && g <= |fs|
    requires forall i {:trigger fs[i]} :: 0 <= i < |fs| ==> (fs[i].offset > x.offset <==> i >= g)
    ensures Sorted(InsertAt(fs, g, x))
  {
    hide End;
    var r := InsertAt(fs, g, x);
    forall i | 0 <= i < |fs|
      ensures if i >= g then End(x) <= fs[i].offset && x.offset < fs[i].offset else End(fs[i]) <= x.offset && fs[i].offset < x.offset
    {
      assert fs[i] in fs;
    }
    forall i | 0 <= i < |r| ensures r[i] == if i < g then fs[i] else if i == g then x else fs[i - 1] {}
    forall i, j | 0 <= i < j < |r| ensures End(r[i]) <= r[j].offset && r[i].offset < r[j].offset {
      if i != g && j != g {
        assert End(fs[if i < g then i else i - 1]) <= fs[if j < g then j else j - 1].offset;
      }
    }
  }

  lemma UnsortedAt(fs: seq<Frag>, k: nat, x: Frag)
    requires 0 < k <= |fs| && fs[k - 1].offset > x.offset
    ensures !Sorted(InsertAt(fs, k, x))
  {
    var r := InsertAt(fs, k, x);
    assert r[k] == x && r[k - 1] == fs[k - 1];
  }

  /** The queue after the fragments in arr have come in, in this order. */
  function Queue(arr: seq<Frag>): (fs: seq<Frag>) {
    if |arr| == 0 then [] else Insert(Queue(arr[..|arr| - 1]), arr[|arr| - 1])
  }

  lemma {:induction false} QueueMembers(arr: seq<Frag>)
    ensures |Queue(arr)| == |arr| && forall f :: f in Queue(arr) <==> f in arr
  {
    if |arr| > 0 {
      var front, x := arr[..|arr| - 1], arr[|arr| - 1];
      QueueMembers(front);
      assert arr == front + [x];
      InsertMembers(Queue(front), PlaceFrom(Queue(front), x, |Queue(front)|, 0), x);
    }
  }

  /** No fragment overlaps one that came before it. */
  ghost predicate NoOverlap(arr: seq<Frag>) {
    forall i {:trigger arr[i]} :: 0 <= i < |arr| ==> Clear(arr[..i], arr[i])
  }

  /** No fragment comes after more than three that belong behind it. */
  ghost predicate MildlyReordered(arr: seq<Frag>) {
    forall i {:trigger arr[i]} :: 0 <= i < |arr| ==> Later(arr[..i], arr[i]) <= 3
  }

  lemma {:induction false} LaterWithout(gs: seq<Frag>, i: nat, x: Frag)
    requires i < |gs|
    ensures Later(gs, x) == Later(gs[..i] + gs[i + 1..], x) + if gs[i].offset > x.offset then 1 else 0
    decreases |gs|
  {
    if i == |gs| - 1 {
      assert gs[..i] + gs[i + 1..] == gs[..|gs| - 1];
    } else {
      var rest := gs[..i] + gs[i + 1..];
      assert rest[..|rest| - 1] == gs[..|gs| - 1][..i] + gs[..|gs| - 1][i + 1..];
      LaterWithout(gs[..|gs| - 1], i, x);
    }
  }

  lemma {:induction false} QueueLater(arr: seq<Frag>, x: Frag)
    ensures Later(Queue(arr), x) == Later(arr, x)
  {
    hide PlaceFrom, InsertAt;
    if |arr| > 0 {
      var q, y := Queue(arr[..|arr| - 1]), arr[|arr| - 1];
      QueueLater(arr[..|arr| - 1], x);
      LaterInserted(q, PlaceFrom(q, y, |q|, 0), y, x);
    }
  }

  lemma LaterInserted(q: seq<Frag>, p: nat, y: Frag, x: Frag)
    requires p <= |q|
    ensures Later(InsertAt(q, p, y), x) == Later(q, x) + if y.offset > x.offset then 1 else 0
  {
    hide Later;
    var r := InsertAt(q, p, y);
    LaterWithout(r, p, x);
    assert r[..p] == q[..p] && r[p + 1..] == q[p..];
    assert r[..p] + r[p + 1..] == q;
  }

  lemma ArrivalFront(arr: seq<Frag>)
    requires |arr| > 0
    ensures var n := |arr| - 1;
            && (NoOverlap(arr) <==> NoOverlap(arr[..n]) && Clear(arr[..n], arr[n]))
            && (MildlyReordered(arr) <==> MildlyReordered(arr[..n]) && Later(arr[..n], arr[n]) <= 3)
  {
    hide Clear, Later;
    var n := |arr| - 1;
    assert forall i {:trigger arr[i]} :: 0 <= i < n ==> arr[..n][..i] == arr[..i] && arr[..n][i] == arr[i];
  }

  lemma SortedBefore(fs: seq<Frag>, k: nat, x: Frag)
    requires k <= |fs| && Sorted(InsertAt(fs, k, x))
    ensures Sorted(fs)
  {
    var r := InsertAt(fs, k, x);
    assert forall i {:trigger fs[i]} :: 0 <= i < |fs| ==> fs[i] == r[if i < k then i else i + 1];
  }

  /** The queue ends up sorted exactly if the reordering was mild. */
  lemma {:induction false} QueueSorted(arr: seq<Frag>)
    requires NoOverlap(arr)
    ensures Sorted(Queue(arr)) <==> MildlyReordered(arr)
    decreases |arr|
  {
    hide Sorted, Clear, NoOverlap, Later, PlaceFrom;
    if |arr| == 0 {
      SortedEmpty();
    } else {
      var n := |arr| - 1;
      ArrivalFront(arr);
      QueueSorted(arr[..n]);
      var q, x := Queue(arr[..n]), arr[n];
      QueueMembers(arr[..n]);
      ClearMembers(arr[..n], q, x);
      QueueLater(arr[..n], x);
      if Sorted(q) {
        InsertSorted(q, x);
      } else if Sorted(Insert(q, x)) {
        SortedBefore(q, PlaceFrom(q, x, |q|, 0), x);
      }
    }
  }

  lemma SortedEmpty()
    ensures Sorted([])
  {
  }

  lemma ClearMembers(fs: seq<Frag>, gs: seq<Frag>, x: Frag)
    requires Clear(fs, x) && (forall f :: f in fs <==> f in gs)
    ensures Clear(gs, x)
  {
  }

  ghost predicate CutPoints(cuts: seq<nat>, n: nat) {
    && |cuts| >= 2 && cuts[0] == 0 && cuts[|cuts| - 1] == n
    && (forall k {:trigger cuts[k]} :: 0 <= k < |cuts| - 1 ==> cuts[k] < cuts[k + 1] <= n)
  }

  /** The fragments of a payload cut at the given places, in order. */
  ghost function Pieces(p: seq<byte>, cuts: seq<nat>): (fs: seq<Frag>)
    requires CutPoints(cuts, |p|)
    ensures |fs| == |cuts| - 1
    ensures forall k {:trigger fs[k]} :: 0 <= k < |fs| ==> fs[k] == Frag(cuts[k], p[cuts[k]..cuts[k + 1]])
  {
    seq(|cuts| - 1, k requires 0 <= k < |cuts| - 1 => Frag(cuts[k], p[cuts[k]..cuts[k + 1]]))
  }

  /** Two sorted queues with the same fragments are the same. */
  lemma {:induction false} SortedUnique(fs: seq<Frag>, gs: seq<Frag>)
    requires Sorted(fs) && Sorted(gs) && (forall f :: f in fs <==> f in gs)
    ensures fs == gs
    decreases |fs|
  {
    if |fs| > 0 { assert fs[0] in gs; }
    if |gs| > 0 { assert gs[0] in fs; }
    if |fs| > 0 {
      assert fs[0] == gs[0];
      TailMembers(fs);
      TailMembers(gs);
      SortedUnique(fs[1..], gs[1..]);
    }
  }

  lemma TailMembers(fs: seq<Frag>)
    requires Sorted(fs) && |fs| > 0
    ensures Sorted(fs[1..]) && forall f :: f in fs[1..] <==> f in fs && f != fs[0]
  {
    assert forall i {:trigger fs[1..][i]} :: 0 <= i < |fs| - 1 ==> fs[1..][i] == fs[i + 1];
    forall f | f in fs && f != fs[0] ensures f in fs[1..] {
      var i :| 0 <= i < |fs| && fs[i] == f;
      assert fs[1..][i - 1] == f;
    }
  }

  lemma PiecesSorted(p: seq<byte>, cuts: seq<nat>)
    requires CutPoints(cuts, |p|)
    ensures Sorted(Pieces(p, cuts)) && Contiguous(Pieces(p, cuts)) && AllSlices(p, Pieces(p, cuts))
  {
    hide Sorted, Contiguous;
    var fs := Pieces(p, cuts);
    forall k | 0 <= k < |fs| ensures fs[k].offset == cuts[k] && End(fs[k]) == cuts[k + 1] {}
    CutsSorted(cuts, |p|, fs);
    CutsContiguous(cuts, |p|, fs, |fs|);
    assert fs[..|fs|] == fs;
  }

  lemma CutsSorted(cuts: seq<nat>, n: nat, fs: seq<Frag>)
    requires CutPoints(cuts, n) && |fs| == |cuts| - 1
    requires forall k {:trigger fs[k]} :: 0 <= k < |fs| ==> fs[k].offset == cuts[k] && End(fs[k]) == cuts[k + 1]
    ensures Sorted(fs)
  {
    hide End;
    CutsAscend(cuts, n);
    forall i, j | 0 <= i < j < |fs| ensures End(fs[i]) <= fs[j].offset && fs[i].offset < fs[j].offset {
      assert i + 1 == j || cuts[i + 1] < cuts[j];
    }
  }

  lemma {:induction false} CutsContiguous(cuts: seq<nat>, n: nat, fs: seq<Frag>, m: nat)
    requires CutPoints(cuts, n) && |fs| == |cuts| - 1 && m <= |fs|
    requires forall k {:trigger fs[k]} :: 0 <= k < |fs| ==> fs[k].offset == cuts[k] && End(fs[k]) == cuts[k + 1]
    ensures Contiguous(fs[..m]) && |Joined(fs[..m])| == cuts[m]
  {
    if m > 0 {
      CutsContiguous(cuts, n, fs, m - 1);
      assert fs[..m][..m - 1] == fs[..m - 1];
    }
  }

  lemma CutsAscend(cuts: seq<nat>, n: nat)
    requires CutPoints(cuts, n)
    ensures forall i, j {:trigger cuts[i], cuts[j]} :: 0 <= i < j < |cuts| ==> cuts[i] < cuts[j] <= n
    ensures |cuts| >= 2 && cuts[|cuts| - 1] == n
  {
    forall i, j | 0 <= i < j < |cuts| ensures cuts[i] < cuts[j] <= n { AscendTo(cuts, n, i, j); }
  }

  lemma {:induction false} AscendTo(cuts: seq<nat>, n: nat, i: nat, j: nat)
    requires CutPoints(cuts, n) && i < j < |cuts|
    ensures cuts[i] < cuts[j] <= n
    decreases j
  {
    hide CutPoints;
    CutStep(cuts, n, j - 1);
    if i < j - 1 { AscendTo(cuts, n, i, j - 1); }
  }

  lemma CutStep(cuts: seq<nat>, n: nat, k: nat)
    requires CutPoints(cuts, n) && k + 1 < |cuts|
    ensures cuts[k] < cuts[k + 1] <= n
  {
  }

  lemma {:induction false} ContiguousSorted(fs: seq<Frag>)
    requires Contiguous(fs) && forall f :: f in fs ==> |f.payload| > 0
    ensures Sorted(fs)
    decreases |fs|
  {
    if |fs| > 0 {
      var front, last := fs[..|fs| - 1], fs[|fs| - 1];
      FrontMembers(fs);
      ContiguousSorted(front);
      EndsWithin(front);
      SortedAppend(front, last);
      assert fs == front + [last];
    }
  }

  lemma SortedAppend(fs: seq<Frag>, x: Frag)
    requires Sorted(fs) && forall f :: f in fs ==> |f.payload| > 0 && End(f) <= x.offset
    ensures Sorted(fs + [x])
  {
    assert forall i {:trigger fs[i]} :: 0 <= i < |fs| ==> fs[i] in fs;
  }

  /** The fragments of a payload, each once and in any order, come to a contiguous queue
      exactly if the reordering was mild, and then the queue holds the whole payload. */
  lemma ReorderingExact(p: seq<byte>, cuts: seq<nat>, arr: seq<Frag>)
    requires CutPoints(cuts, |p|) && NoOverlap(arr) && (forall f :: f in arr <==> f in Pieces(p, cuts))
    ensures Contiguous(Queue(arr)) <==> MildlyReordered(arr)
    ensures Contiguous(Queue(arr)) ==> Queue(arr) == Pieces(p, cuts) && Joined(Queue(arr)) == p
  {
    hide Sorted, Contiguous, NoOverlap, MildlyReordered, Queue, AllSlices, Joined;
    QueueMembers(arr);
    QueueSorted(arr);
    PiecesSorted(p, cuts);
    PiecesNonempty(p, cuts);
    if Contiguous(Queue(arr)) { ContiguousSorted(Queue(arr)); }
    if Sorted(Queue(arr)) {
      SortedUnique(Queue(arr), Pieces(p, cuts));
      PiecesWhole(p, cuts);
    }
  }

  lemma PiecesNonempty(p: seq<byte>, cuts: seq<nat>)
    requires CutPoints(cuts, |p|)
    ensures forall f :: f in Pieces(p, cuts) ==> |f.payload| > 0
  {
  }

  lemma PiecesWhole(p: seq<byte>, cuts: seq<nat>)
    requires CutPoints(cuts, |p|)
    ensures Joined(Pieces(p, cuts)) == p
  {
    hide Sorted, Contiguous, AllSlices, Joined;
    PiecesSorted(p, cuts);
    var fs := Pieces(p, cuts);
    var last := fs[|fs| - 1];
    assert last in fs && End(last) == cuts[|cuts| - 1];
    WholePayload(p, fs, last);
  }
}
