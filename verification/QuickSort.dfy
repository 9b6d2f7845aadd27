/** The in-place quicksort of the C library: elements of any size in an array of bytes, a
    three-way partition around a pivot block that grows and moves, and recursion on the
    smaller side. Pointers are element numbers. */
module QuickSort {
  import opened Bytes

  type Comparator = (seq<byte>, seq<byte>) -> int

  /** What the caller's comparison function must be on elements of es bytes. */
  ghost predicate TotalPreorder(cmp: Comparator, es: nat) {
    && (forall x, y {:trigger cmp(x, y)} :: |x| == |y| == es ==>
          (cmp(x, y) < 0 <==> cmp(y, x) > 0) && (cmp(x, y) == 0 <==> cmp(y, x) == 0))
    && (forall x, y, z {:trigger cmp(x, y), cmp(y, z)} ::
          |x| == |y| == |z| == es && cmp(x, y) <= 0 && cmp(y, z) <= 0 ==> cmp(x, z) <= 0)
  }

  /** Elements that compare equal compare alike with every other element. */
  lemma Alike(cmp: Comparator, es: nat, x: seq<byte>, q: seq<byte>, p: seq<byte>)
    requires TotalPreorder(cmp, es) && |x| == |q| == |p| == es && cmp(q, p) == 0
    ensures cmp(x, q) < 0 <==> cmp(x, p) < 0
    ensures cmp(x, q) > 0 <==> cmp(x, p) > 0
    ensures cmp(x, q) == 0 <==> cmp(x, p) == 0
    ensures cmp(q, x) < 0 <==> cmp(p, x) < 0
    ensures cmp(q, x) > 0 <==> cmp(p, x) > 0
  {
    assert cmp(p, q) == 0;
    if cmp(x, q) <= 0 { assert cmp(x, p) <= 0; }
    if cmp(x, p) <= 0 { assert cmp(x, q) <= 0; }
    if cmp(q, x) <= 0 { assert cmp(p, x) <= 0; }
    if cmp(p, x) <= 0 { assert cmp(q, x) <= 0; }
  }

  // ------------------------------------------------------------ elements of a byte array

  /** The byte offset of element k. */
  function Off(es: nat, k: nat): (o: nat) { k * es }

  lemma InBlock(es: nat, n: nat, k: nat)
    requires k < n
    ensures Off(es, k) + es <= Off(es, n)
  {
    assert (k + 1) * es <= n * es;
  }

  lemma Apart(es: nat, i: nat, j: nat)
    requires i != j
    ensures Off(es, i) + es <= Off(es, j) || Off(es, j) + es <= Off(es, i)
  {
    if i < j { InBlock(es, j, i); } else { InBlock(es, i, j); }
  }

  function Elem(s: seq<byte>, es: nat, n: nat, k: nat): (e: seq<byte>)
    requires Off(es, n) <= |s| && k < n
    ensures |e| == es
  {
    InBlock(es, n, k);
    s[Off(es, k)..Off(es, k) + es]
  }

  /** The first n elements of es bytes. */
  function Elems(s: seq<byte>, es: nat, n: nat): (v: seq<seq<byte>>)
    requires Off(es, n) <= |s|
    ensures |v| == n
    ensures forall k {:trigger v[k]} :: 0 <= k < n ==> |v[k]| == es
  {
    seq(n, k requires 0 <= k < n => Elem(s, es, n, k))
  }

  /** The bytes after the blocks of es bytes at x, y, z have received those at z, x, y: what
      qstexc(x, y, z) leaves when its blocks are apart, or when y and z are the same block. */
  ghost predicate Rotated(s: seq<byte>, t: seq<byte>, es: nat, x: nat, y: nat, z: nat)
    requires x + es <= |s| && y + es <= |s| && z + es <= |s|
  {
    && |t| == |s|
    && t[x..x + es] == s[z..z + es]
    && t[y..y + es] == s[x..x + es]
    && (z != y ==> t[z..z + es] == s[y..y + es])
    && (forall r {:trigger t[r]} :: 0 <= r < |s| && !(x <= r < x + es) && !(y <= r < y + es) && !(z <= r < z + es) ==> t[r] == s[r])
  }

  /** The same on elements. */
  function Exchanged<T>(v: seq<T>, i: nat, j: nat, k: nat): (w: seq<T>)
    requires i < |v| && j < |v| && k < |v|
    ensures |w| == |v|
  {
    v[i := v[k]][k := v[j]][j := v[i]]
  }

  lemma RotatedElems(s: seq<byte>, t: seq<byte>, es: nat, n: nat, i: nat, j: nat, k: nat)
    requires Off(es, n) <= |s| && |t| == |s| && i < n && j < n && k < n && i != j && i != k
    requires Off(es, i) + es <= |s| && Off(es, j) + es <= |s| && Off(es, k) + es <= |s|
    requires Off(es, j) == Off(es, k) ==> j == k || es == 0
    requires Rotated(s, t, es, Off(es, i), Off(es, j), Off(es, k))
    ensures Elems(t, es, n) == Exchanged(Elems(s, es, n), i, j, k)
    ensures t[Off(es, n)..] == s[Off(es, n)..]
  {
    hide Off;
    var v, w := Elems(s, es, n), Elems(t, es, n);
    InBlock(es, n, i); InBlock(es, n, j); InBlock(es, n, k);
    forall m | 0 <= m < n
      ensures w[m] == Exchanged(v, i, j, k)[m]
    {
      InBlock(es, n, m);
      if m != i && m != j && m != k {
        Apart(es, m, i); Apart(es, m, j); Apart(es, m, k);
        assert w[m] == v[m];
      }
    }
  }

  /** qstexc: a three-way exchange, byte by byte. */
  method TripleExchange(a: array<byte>, es: nat, n: nat, i: nat, j: nat, k: nat)
    requires es > 0 && Off(es, n) <= a.Length && i < n && j < n && k < n && i != j && i != k
    modifies a
    ensures Elems(a[..], es, n) == Exchanged(old(Elems(a[..], es, n)), i, j, k)
    ensures a[Off(es, n)..] == old(a[Off(es, n)..])
  {
    hide Off, Elems;
    InBlock(es, n, i); InBlock(es, n, j); InBlock(es, n, k);
    Apart(es, i, j); Apart(es, i, k);
    if j != k { Apart(es, j, k); }
    RotateBytes(a, es, Off(es, i), Off(es, j), Off(es, k));
    RotatedElems(old(a[..]), a[..], es, n, i, j, k);
  }

  /** The bytes once d bytes of each block have been exchanged. */
  ghost predicate RotatedTo(s: seq<byte>, t: seq<byte>, d: nat, x: nat, y: nat, z: nat)
    requires x + d <= |s| && y + d <= |s| && z + d <= |s|
  {
    && |t| == |s|
    && (forall r {:trigger t[r]} :: x <= r < x + d ==> t[r] == s[z + (r - x)])
    && (forall r {:trigger t[r]} :: y <= r < y + d ==> t[r] == s[x + (r - y)])
    && (z != y ==> forall r {:trigger t[r]} :: z <= r < z + d ==> t[r] == s[y + (r - z)])
    && (forall r {:trigger t[r]} :: 0 <= r < |s| && !(x <= r < x + d) && !(y <= r < y + d) && !(z <= r < z + d) ==> t[r] == s[r])
  }

  lemma RotateStep(s: seq<byte>, t: seq<byte>, es: nat, d: nat, x: nat, y: nat, z: nat, t': seq<byte>)
    requires d < es && x + es <= |s| && y + es <= |s| && z + es <= |s|
    requires x + es <= y || y + es <= x
    requires x + es <= z || z + es <= x
    requires y == z || y + es <= z || z + es <= y
    requires RotatedTo(s, t, d, x, y, z) && t' == Exchanged(t, x + d, y + d, z + d)
    ensures RotatedTo(s, t', d + 1, x, y, z)
  {
    assert t[x + d] == s[x + d] && t[y + d] == s[y + d] && t[z + d] == s[z + d];
  }

  lemma RotatedAll(s: seq<byte>, t: seq<byte>, es: nat, x: nat, y: nat, z: nat)
    requires x + es <= |s| && y + es <= |s| && z + es <= |s|
    requires RotatedTo(s, t, es, x, y, z)
    ensures Rotated(s, t, es, x, y, z)
  {
  }

  method RotateBytes(a: array<byte>, es: nat, x: nat, y: nat, z: nat)
    requires es > 0 && x + es <= a.Length && y + es <= a.Length && z + es <= a.Length
    requires x + es <= y || y + es <= x
    requires x + es <= z || z + es <= x
    requires y == z || y + es <= z || z + es <= y
    modifies a
    ensures Rotated(old(a[..]), a[..], es, x, y, z)
  {
    hide RotatedTo, Rotated;
    ghost var s := a[..];
    var ri, rj, rk := x, y, z;
    var left := es;
    assert RotatedTo(s, s, 0, x, y, z) by { RotatedNone(s, x, y, z); }
    while left > 0
      invariant 0 <= left <= es && ri == x + (es - left) && rj == y + (es - left) && rk == z + (es - left)
      invariant RotatedTo(s, a[..], es - left, x, y, z)
    {
      ghost var t := a[..];
      var c := a[ri];
      a[ri] := a[rk];
      a[rk] := a[rj];
      a[rj] := c;
      assert a[..] == Exchanged(t, ri, rj, rk);
      RotateStep(s, t, es, es - left, x, y, z, a[..]);
      ri, rj, rk, left := ri + 1, rj + 1, rk + 1, left - 1;
    }
    RotatedAll(s, a[..], es, x, y, z);
  }

  lemma RotatedNone(s: seq<byte>, x: nat, y: nat, z: nat)
    requires x <= |s| && y <= |s| && z <= |s|
    ensures RotatedTo(s, s, 0, x, y, z)
  {
  }

  /** qsexc: a two-way exchange, byte by byte; an element may be exchanged with itself. */
  method Exchange(a: array<byte>, es: nat, n: nat, i: nat, j: nat)
    requires es > 0 && Off(es, n) <= a.Length && i < n && j < n
    modifies a
    ensures Elems(a[..], es, n) == Swapped(old(Elems(a[..], es, n)), i, j)
    ensures a[Off(es, n)..] == old(a[Off(es, n)..])
  {
    hide Off, Elems;
    InBlock(es, n, i); InBlock(es, n, j);
    if i != j { Apart(es, i, j); }
    SwapBytes(a, es, Off(es, i), Off(es, j));
    if i != j {
      RotatedElems(old(a[..]), a[..], es, n, i, j, j);
    }
  }

  function Swapped<T>(v: seq<T>, i: nat, j: nat): (w: seq<T>)
    requires i < |v| && j < |v|
    ensures |w| == |v|
  {
    v[i := v[j]][j := v[i]]
  }

  method SwapBytes(a: array<byte>, es: nat, x: nat, y: nat)
    requires es > 0 && x + es <= a.Length && y + es <= a.Length
    requires x == y || x + es <= y || y + es <= x
    modifies a
    ensures x != y ==> Rotated(old(a[..]), a[..], es, x, y, y)
    ensures x == y ==> a[..] == old(a[..])
  {
    hide RotatedTo, Rotated;
    ghost var s := a[..];
    var ri, rj := x, y;
    var left := es;
    RotatedNone(s, x, y, y);
    while left > 0
      invariant 0 <= left <= es && ri == x + (es - left) && rj == y + (es - left)
      invariant if x == y then a[..] == s else RotatedTo(s, a[..], es - left, x, y, y)
    {
      ghost var t := a[..];
      var c := a[ri];
      a[ri] := a[rj];
      a[rj] := c;
      if x == y {
        assert a[..] == t;
      } else {
        assert a[..] == Exchanged(t, ri, rj, rj);
        RotateStep(s, t, es, es - left, x, y, y, a[..]);
      }
      ri, rj, left := ri + 1, rj + 1, left - 1;
    }
    if x != y {
      RotatedAll(s, a[..], es, x, y, y);
    }
  }

  // ------------------------------------------------------------ rearranging a range

  /** w is v with the elements of [a, l) rearranged. */
  ghost predicate Rearranged<T>(v: seq<T>, w: seq<T>, a: nat, l: nat) {
    && a <= l <= |v| == |w|
    && v[..a] == w[..a] && v[l..] == w[l..]
    && multiset(v[a..l]) == multiset(w[a..l])
  }

  lemma RearrangedTrans<T>(u: seq<T>, v: seq<T>, w: seq<T>, a: nat, l: nat)
    requires Rearranged(u, v, a, l) && Rearranged(v, w, a, l)
    ensures Rearranged(u, w, a, l)
  {
  }

  /** Rearranging a part of a range rearranges the range. */
  lemma Widen<T>(v: seq<T>, w: seq<T>, x: nat, y: nat, a: nat, l: nat)
    requires Rearranged(v, w, x, y) && a <= x <= y <= l <= |v|
    ensures Rearranged(v, w, a, l)
  {
    assert v[a..l] == v[a..x] + v[x..y] + v[y..l];
    assert w[a..l] == w[a..x] + w[x..y] + w[y..l];
    assert v[a..x] == v[..x][a..] == w[..x][a..] == w[a..x];
    assert v[y..l] == v[y..][..l - y] == w[y..][..l - y] == w[y..l];
    assert v[..a] == v[..x][..a] == w[..x][..a] == w[..a];
    assert v[l..] == v[y..][l - y..] == w[y..][l - y..] == w[l..];
  }

  /** Every element of the rearranged range was there before. */
  lemma Origin<T>(v: seq<T>, w: seq<T>, a: nat, l: nat, k: nat) returns (k': nat)
    requires Rearranged(v, w, a, l) && a <= k < l
    ensures a <= k' < l && v[k'] == w[k]
  {
    assert w[k] == w[a..l][k - a];
    assert w[k] in multiset(v[a..l]);
    var i :| 0 <= i < l - a && v[a..l][i] == w[k];
    k' := a + i;
  }

  lemma Outside<T>(v: seq<T>, w: seq<T>, a: nat, l: nat, k: nat)
    requires Rearranged(v, w, a, l) && k < |v| && (k < a || k >= l)
    ensures w[k] == v[k]
  {
    if k < a {
      assert w[..a][k] == v[..a][k];
    } else {
      assert w[l..][k - l] == v[l..][k - l];
    }
  }

  lemma SwapRearranges<T>(v: seq<T>, a: nat, l: nat, i: nat, j: nat)
    requires a <= i < l <= |v| && a <= j < l
    ensures Rearranged(v, Swapped(v, i, j), a, l)
  {
    var w := Swapped(v, i, j);
    assert w[a..l] == v[a..l][i - a := v[a..l][j - a]][j - a := v[a..l][i - a]];
  }

  lemma ExchangeRearranges<T>(v: seq<T>, a: nat, l: nat, i: nat, j: nat, k: nat)
    requires a <= i < l <= |v| && a <= j < l && a <= k < l && i != j && i != k
    ensures Rearranged(v, Exchanged(v, i, j, k), a, l)
  {
    hide Exchanged;
    var w := Exchanged(v, i, j, k);
    forall m | 0 <= m < |v| && !(a <= m < l) ensures w[m] == v[m] { ExchangedAt(v, i, j, k, m); }
    assert v[..a] == w[..a] && v[l..] == w[l..];
    ExchangedSlice(v, a, l, i, j, k);
    ThreeUpdates(v[a..l], i - a, j - a, k - a);
  }

  lemma ExchangedAt<T>(v: seq<T>, i: nat, j: nat, k: nat, m: nat)
    requires i < |v| && j < |v| && k < |v| && i != j && i != k && m < |v|
    ensures Exchanged(v, i, j, k)[m] == if m == j then v[i] else if m == k then v[j] else if m == i then v[k] else v[m]
  {
  }

  lemma ExchangedSlice<T>(v: seq<T>, a: nat, l: nat, i: nat, j: nat, k: nat)
    requires a <= i < l <= |v| && a <= j < l && a <= k < l && i != j && i != k
    ensures Exchanged(v, i, j, k)[a..l] == Exchanged(v[a..l], i - a, j - a, k - a)
  {
    hide Exchanged;
    var w, s := Exchanged(v, i, j, k), v[a..l];
    var t := Exchanged(s, i - a, j - a, k - a);
    forall m | 0 <= m < l - a ensures w[a + m] == t[m] {
      ExchangedAt(v, i, j, k, a + m);
      ExchangedAt(s, i - a, j - a, k - a, m);
    }
    assert w[a..l] == t;
  }

  lemma ThreeUpdates<T>(s: seq<T>, i: nat, j: nat, k: nat)
    requires i < |s| && j < |s| && k < |s| && i != j && i != k
    ensures multiset(Exchanged(s, i, j, k)) == multiset(s)
  {
  }

  // ------------------------------------------------------------ partition

  /** Elements before i are less than the pivot value p, those from lp to hp equal to it, those
      after j greater. */
  ghost predicate Parted(cmp: Comparator, v: seq<seq<byte>>, p: seq<byte>,
                         a: int, i: int, lp: int, hp: int, j: int, l: int)
  {
    && 0 <= a <= i <= lp <= hp <= j < l <= |v|
    && (forall k {:trigger v[k]} :: a <= k < i ==> cmp(v[k], p) < 0)
    && (forall k {:trigger v[k]} :: lp <= k <= hp ==> cmp(v[k], p) == 0)
    && (forall k {:trigger v[k]} :: j < k < l ==> cmp(v[k], p) > 0)
  }

  lemma PartedBounds(cmp: Comparator, v: seq<seq<byte>>, p: seq<byte>, a: int, i: int, lp: int, hp: int, j: int, l: int)
    requires Parted(cmp, v, p, a, i, lp, hp, j, l)
    ensures 0 <= a <= i <= lp <= hp <= j < l <= |v|
    ensures cmp(v[lp], p) == 0 && cmp(v[hp], p) == 0
  {
  }

  /** An element equal to the pivot, found on the left, joins the pivot block from below. */
  lemma EqualOnLeft(cmp: Comparator, v: seq<seq<byte>>, p: seq<byte>, a: int, i: int, lp: int, hp: int, j: int, l: int)
    requires Parted(cmp, v, p, a, i, lp, hp, j, l) && i < lp && cmp(v[i], p) == 0
    ensures Parted(cmp, Swapped(v, i, lp - 1), p, a, i, lp - 1, hp, j, l)
  {
  }

  lemma LessOnLeft(cmp: Comparator, v: seq<seq<byte>>, p: seq<byte>, a: int, i: int, lp: int, hp: int, j: int, l: int)
    requires Parted(cmp, v, p, a, i, lp, hp, j, l) && i < lp && cmp(v[i], p) < 0
    ensures Parted(cmp, v, p, a, i + 1, lp, hp, j, l)
  {
  }

  lemma EqualOnRight(cmp: Comparator, v: seq<seq<byte>>, p: seq<byte>, a: int, i: int, lp: int, hp: int, j: int, l: int)
    requires Parted(cmp, v, p, a, i, lp, hp, j, l) && hp < j && cmp(v[j], p) == 0
    ensures Parted(cmp, Swapped(v, hp + 1, j), p, a, i, lp, hp + 1, j, l)
    ensures i < lp ==> Swapped(v, hp + 1, j)[i] == v[i]
  {
  }

  lemma GreaterOnRight(cmp: Comparator, v: seq<seq<byte>>, p: seq<byte>, a: int, i: int, lp: int, hp: int, j: int, l: int)
    requires Parted(cmp, v, p, a, i, lp, hp, j, l) && hp < j && cmp(v[j], p) > 0
    ensures Parted(cmp, v, p, a, i, lp, hp, j - 1, l)
  {
  }

  /** The left side is done: a lesser element on the right moves the pivot block up by one. */
  lemma BlockUp(cmp: Comparator, v: seq<seq<byte>>, p: seq<byte>, a: int, lp: int, hp: int, j: int, l: int)
    requires Parted(cmp, v, p, a, lp, lp, hp, j, l) && hp < j && cmp(v[j], p) < 0
    ensures Parted(cmp, Exchanged(v, lp, hp + 1, j), p, a, lp + 1, lp + 1, hp + 1, j, l)
  {
  }

  /** A greater element on the left and a lesser one on the right change places. */
  lemma ChangePlaces(cmp: Comparator, v: seq<seq<byte>>, p: seq<byte>, a: int, i: int, lp: int, hp: int, j: int, l: int)
    requires Parted(cmp, v, p, a, i, lp, hp, j, l) && i < lp && hp < j && cmp(v[i], p) > 0 && cmp(v[j], p) < 0
    ensures Parted(cmp, Swapped(v, i, j), p, a, i + 1, lp, hp, j - 1, l)
  {
  }

  /** The right side is done: a greater element on the left moves the pivot block down by one. */
  lemma BlockDown(cmp: Comparator, v: seq<seq<byte>>, p: seq<byte>, a: int, i: int, lp: int, hp: int, l: int)
    requires Parted(cmp, v, p, a, i, lp, hp, hp, l) && i < lp && cmp(v[i], p) > 0
    ensures Parted(cmp, Exchanged(v, hp, lp - 1, i), p, a, i, lp - 1, hp - 1, hp - 1, l)
  {
  }

  ghost predicate AllSized(v: seq<seq<byte>>, es: nat) {
    forall k {:trigger v[k]} :: 0 <= k < |v| ==> |v[k]| == es
  }

  class Sorter {
    const arr: array<byte>
    const es: nat
    const n: nat
    const cmp: Comparator

    constructor (arr: array<byte>, es: nat, n: nat, cmp: Comparator)
      requires es > 0 && Off(es, n) <= arr.Length
      ensures this.arr == arr && this.es == es && this.n == n && this.cmp == cmp
    {
      this.arr, this.es, this.n, this.cmp := arr, es, n, cmp;
    }

    ghost predicate Valid() {
      es > 0 && Off(es, n) <= arr.Length && TotalPreorder(cmp, es)
    }

    ghost function V(): (v: seq<seq<byte>>)
      requires Valid()
      reads arr
      ensures |v| == n && AllSized(v, es)
    {
      Elems(arr[..], es, n)
    }

    /** (*qscmp)(i, j) */
    method Compare(i: nat, j: nat) returns (c: int)
      requires Valid() && i < n && j < n
      ensures c == cmp(V()[i], V()[j])
    {
      InBlock(es, n, i); InBlock(es, n, j);
      c := cmp(arr[Off(es, i)..Off(es, i) + es], arr[Off(es, j)..Off(es, j) + es]);
      assert V()[i] == Elem(arr[..], es, n, i) == arr[Off(es, i)..Off(es, i) + es];
      assert V()[j] == Elem(arr[..], es, n, j) == arr[Off(es, j)..Off(es, j) + es];
    }

    /** The elements of [a, l) have been rearranged since they were v0, and the bytes behind the
        elements are still `tail`. */
    ghost predicate Kept(v0: seq<seq<byte>>, tail: seq<byte>, a: nat, l: nat)
      requires Valid()
      reads arr
    {
      Rearranged(v0, V(), a, l) && arr[Off(es, n)..] == tail
    }

    lemma StartKept(a: nat, l: nat)
      requires Valid() && a <= l <= n
      ensures Kept(V(), arr[Off(es, n)..], a, l)
    {
    }

    /** Lines 47 to 92 and 107 to 109 of qs1: one pass of the three-way partition. */
    method Partition(a: nat, l: nat) returns (lp: nat, hp: nat, ghost p: seq<byte>)
      requires Valid() && a + 1 < l <= n
      modifies arr
      ensures Kept(old(V()), old(arr[Off(es, n)..]), a, l)
      ensures |p| == es && Parted(cmp, V(), p, a, lp, lp, hp, hp, l)
    {
      hide TotalPreorder, Elems, Off, Rearranged, Swapped, Exchanged, Parted, AllSized, Kept;
      lp := a + (l - a) / 2;
      hp := lp;
      var i := a;
      var j := l - 1;
      ghost var v0 := V();
      ghost var tail := arr[Off(es, n)..];
      p := V()[lp];
      StartParted(cmp, es, v0, lp, a, l);
      StartKept(a, l);
      while true
        invariant Parted(cmp, V(), p, a, i, lp, hp, j, l) && a <= i <= lp <= hp <= j < l
        invariant Kept(v0, tail, a, l)
        decreases (lp - i) + (j - hp)
      {
        PartedBounds(cmp, V(), p, a, i, lp, hp, j, l);
        if i < lp {
          var c := Compare(i, lp);
          CompareWithPivot(cmp, es, V(), p, i, lp);
          if c == 0 {
            EqualOnLeft(cmp, V(), p, a, i, lp, hp, j, l);
            lp := lp - 1;
            StepSwap(i, lp, a, l, v0, tail);
            continue;
          }
          if c < 0 {
            LessOnLeft(cmp, V(), p, a, i, lp, hp, j, l);
            i := i + 1;
            continue;
          }
        }
        var again;
        i, lp, hp, j, again := ScanRight(i, lp, hp, j, a, l, p, v0, tail);
        if again {
          continue;
        }
        if i == lp {
          return;
        }
        BlockDown(cmp, V(), p, a, i, lp, hp, l);
        lp := lp - 1;
        StepTriple(j, lp, i, a, l, v0, tail);
        hp := hp - 1;
        j := hp;
      }
    }

    /** Lines 67 to 90 of qs1, the part behind the label: scan from the right. The result
        `again` says that control goes back to the scan from the left. */
    method ScanRight(i0: nat, lp0: nat, hp0: nat, j0: nat, ghost a: nat, ghost l: nat, ghost p: seq<byte>, ghost v0: seq<seq<byte>>, ghost tail: seq<byte>)
      returns (i: nat, lp: nat, hp: nat, j: nat, again: bool)
      requires Valid() && l <= n && |p| == es && Parted(cmp, V(), p, a, i0, lp0, hp0, j0, l)
      requires i0 < lp0 ==> cmp(V()[i0], p) > 0
      requires Kept(v0, tail, a, l)
      modifies arr
      ensures Parted(cmp, V(), p, a, i, lp, hp, j, l) && a <= i <= lp <= hp <= j < l
      ensures Kept(v0, tail, a, l)
      ensures (lp - i) + (j - hp) <= (lp0 - i0) + (j0 - hp0)
      ensures again ==> (lp - i) + (j - hp) < (lp0 - i0) + (j0 - hp0)
      ensures !again ==> j == hp && (i < lp ==> cmp(V()[i], p) > 0)
    {
      hide TotalPreorder, Elems, Off, Rearranged, Swapped, Exchanged, Parted, AllSized, Kept;
      i, lp, hp, j, again := i0, lp0, hp0, j0, false;
      PartedBounds(cmp, V(), p, a, i, lp, hp, j, l);
      while j > hp
        invariant Parted(cmp, V(), p, a, i, lp, hp, j, l) && a <= i <= lp <= hp <= j < l
        invariant i < lp ==> cmp(V()[i], p) > 0
        invariant Kept(v0, tail, a, l)
        invariant (lp - i) + (j - hp) <= (lp0 - i0) + (j0 - hp0)
        decreases j - hp
      {
        PartedBounds(cmp, V(), p, a, i, lp, hp, j, l);
        var c := Compare(hp, j);
        CompareWithPivot(cmp, es, V(), p, j, hp);
        if c == 0 {
          EqualOnRight(cmp, V(), p, a, i, lp, hp, j, l);
          hp := hp + 1;
          StepSwap(hp, j, a, l, v0, tail);
        } else if c > 0 {
          if i == lp {
            BlockUp(cmp, V(), p, a, lp, hp, j, l);
            hp := hp + 1;
            StepTriple(i, hp, j, a, l, v0, tail);
            lp := lp + 1;
            i := lp;
          } else {
            ChangePlaces(cmp, V(), p, a, i, lp, hp, j, l);
            StepSwap(i, j, a, l, v0, tail);
            j := j - 1;
            i := i + 1;
            again := true;
            return;
          }
        } else {
          GreaterOnRight(cmp, V(), p, a, i, lp, hp, j, l);
          j := j - 1;
        }
      }
    }

    /** qs1: `depth` counts how deep the calls nest. */
    method Qs1(a0: nat, l0: nat) returns (ghost depth: nat)
      requires Valid() && a0 <= l0 <= n
      modifies arr
      ensures Sorted(cmp, V(), a0, l0)
      ensures Kept(old(V()), old(arr[Off(es, n)..]), a0, l0)
      ensures Pow2(depth) <= l0 - a0 + 1
      decreases l0 - a0, 1
    {
      hide TotalPreorder, Elems, Off, Rearranged, Parted, AllSized, Kept;
      var a, l := a0, l0;
      depth := 0;
      StartKept(a0, l0);
      while l - a > 1
        invariant a0 <= a && 0 <= l <= l0
        invariant Settled(cmp, V(), a0, l0, a, l)
        invariant Kept(old(V()), old(arr[Off(es, n)..]), a0, l0)
        invariant Pow2(depth) <= l0 - a0 + 1
        decreases l - a
      {
        ghost var d;
        ghost var v0, from, to := V(), a, l;
        KeptRearranged(old(V()), old(arr[Off(es, n)..]), a0, l0);
        a, l, d := PartitionAndNest(a, l, a0, l0);
        WidenKept(old(V()), v0, old(arr[Off(es, n)..]), from, to, a0, l0);
        if d + 1 > depth {
          depth := d + 1;
        }
      }
    }

    /** One round of qs1: partition, sort the side that is not larger, keep the other. */
    method PartitionAndNest(a: nat, l: nat, ghost a0: nat, ghost l0: nat) returns (a': nat, l': nat, ghost d: nat)
      requires Valid() && a0 <= a && a + 1 < l <= l0 <= n && Settled(cmp, V(), a0, l0, a, l)
      modifies arr
      ensures a <= a' <= l' <= l && l' - a' < l - a
      ensures Settled(cmp, V(), a0, l0, a', l')
      ensures Kept(old(V()), old(arr[Off(es, n)..]), a, l)
      ensures 2 * Pow2(d) <= l - a + 1
      decreases l - a, 0
    {
      hide TotalPreorder, Elems, Off, Rearranged, Parted, AllSized, Kept, Settled;
      ghost var v0 := V();
      var lp, hp, p := Partition(a, l);
      ghost var v1 := V();
      PartedBounds(cmp, v1, p, a, lp, lp, hp, hp, l);
      KeptRearranged(v0, old(arr[Off(es, n)..]), a, l);
      SettledRearranged(cmp, v0, v1, a0, l0, a, l);
      if lp - a >= l - hp {
        d := Qs1(hp + 1, l);
        KeptRearranged(v1, old(arr[Off(es, n)..]), hp + 1, l);
        SignsRearranged(cmp, v1, V(), p, a, lp, hp, l, hp + 1, l);
        Widen(v1, V(), hp + 1, l, a, l);
        SettledRearranged(cmp, v1, V(), a0, l0, a, l);
        SettleRight(cmp, es, V(), p, a0, l0, a, lp, hp, l);
        a', l' := a, lp;
      } else {
        d := Qs1(a, lp);
        KeptRearranged(v1, old(arr[Off(es, n)..]), a, lp);
        SignsRearranged(cmp, v1, V(), p, a, lp, hp, l, a, lp);
        Widen(v1, V(), a, lp, a, l);
        SettledRearranged(cmp, v1, V(), a0, l0, a, l);
        SettleLeft(cmp, es, V(), p, a0, l0, a, lp, hp, l);
        a', l' := hp + 1, l;
      }
      RearrangedTrans(v0, v1, V(), a, l);
      RearrangedKept(v0, old(arr[Off(es, n)..]), a, l);
    }

    lemma KeptRearranged(v0: seq<seq<byte>>, tail: seq<byte>, a: nat, l: nat)
      requires Valid() && Kept(v0, tail, a, l)
      ensures Rearranged(v0, V(), a, l) && arr[Off(es, n)..] == tail
    {
    }

    lemma RearrangedKept(v0: seq<seq<byte>>, tail: seq<byte>, a: nat, l: nat)
      requires Valid() && Rearranged(v0, V(), a, l) && arr[Off(es, n)..] == tail
      ensures Kept(v0, tail, a, l)
    {
    }

    lemma WidenKept(u: seq<seq<byte>>, v0: seq<seq<byte>>, tail: seq<byte>, x: nat, y: nat, a: nat, l: nat)
      requires Valid() && Rearranged(u, v0, a, l) && Kept(v0, tail, x, y) && a <= x <= y <= l <= n
      ensures Kept(u, tail, a, l)
    {
      hide Rearranged;
      RearrangedSize(u, v0, a, l);
      Widen(v0, V(), x, y, a, l);
      RearrangedTrans(u, v0, V(), a, l);
    }

    method StepSwap(i: nat, j: nat, ghost a: nat, ghost l: nat, ghost v0: seq<seq<byte>>, ghost tail: seq<byte>)
      requires Valid() && a <= i < l <= n && a <= j < l && Kept(v0, tail, a, l)
      modifies arr
      ensures V() == Swapped(old(V()), i, j) && Kept(v0, tail, a, l)
    {
      SwapRearranges(V(), a, l, i, j);
      RearrangedTrans(v0, V(), Swapped(V(), i, j), a, l);
      Exchange(arr, es, n, i, j);
    }

    method StepTriple(i: nat, j: nat, k: nat, ghost a: nat, ghost l: nat, ghost v0: seq<seq<byte>>, ghost tail: seq<byte>)
      requires Valid() && a <= i < l <= n && a <= j < l && a <= k < l && i != j && i != k && Kept(v0, tail, a, l)
      modifies arr
      ensures V() == Exchanged(old(V()), i, j, k) && Kept(v0, tail, a, l)
    {
      ExchangeRearranges(V(), a, l, i, j, k);
      RearrangedTrans(v0, V(), Exchanged(V(), i, j, k), a, l);
      TripleExchange(arr, es, n, i, j, k);
    }
  }

  /** Comparing with an element of the pivot block is comparing with the pivot value. */
  lemma CompareWithPivot(cmp: Comparator, es: nat, v: seq<seq<byte>>, p: seq<byte>, k: nat, b: nat)
    requires TotalPreorder(cmp, es) && AllSized(v, es) && |p| == es && k < |v| && b < |v| && cmp(v[b], p) == 0
    ensures cmp(v[k], v[b]) < 0 <==> cmp(v[k], p) < 0
    ensures cmp(v[k], v[b]) == 0 <==> cmp(v[k], p) == 0
    ensures cmp(v[b], v[k]) < 0 <==> cmp(v[k], p) > 0
    ensures cmp(v[b], v[k]) == 0 <==> cmp(v[k], p) == 0
  {
    Alike(cmp, es, v[k], v[b], p);
    Antisymmetric(cmp, es, v[b], v[k]);
  }

  lemma StartParted(cmp: Comparator, es: nat, v: seq<seq<byte>>, m: int, a: int, l: int)
    requires TotalPreorder(cmp, es) && AllSized(v, es) && 0 <= a <= m < l <= |v|
    ensures |v[m]| == es && Parted(cmp, v, v[m], a, a, m, m, l - 1, l)
  {
    PivotSelf(cmp, es, v[m]);
  }

  lemma PivotSelf(cmp: Comparator, es: nat, p: seq<byte>)
    requires TotalPreorder(cmp, es) && |p| == es
    ensures cmp(p, p) == 0
  {
  }

  lemma Antisymmetric(cmp: Comparator, es: nat, x: seq<byte>, y: seq<byte>)
    requires TotalPreorder(cmp, es) && |x| == |y| == es
    ensures cmp(x, y) < 0 <==> cmp(y, x) > 0
    ensures cmp(x, y) > 0 <==> cmp(y, x) < 0
    ensures cmp(x, y) == 0 <==> cmp(y, x) == 0
  {
    assert cmp(y, x) < 0 <==> cmp(x, y) > 0;
  }

  // ------------------------------------------------------------ sorting

  ghost predicate Sorted(cmp: Comparator, v: seq<seq<byte>>, a: nat, l: nat) {
    forall x, y {:trigger v[x], v[y]} :: a <= x < y < l <= |v| ==> cmp(v[x], v[y]) <= 0
  }

  /** Of [a0, l0), everything outside [a, l) is in its place. */
  ghost predicate Settled(cmp: Comparator, v: seq<seq<byte>>, a0: nat, l0: nat, a: nat, l: nat) {
    && a0 <= a <= l <= l0 <= |v|
    && forall x, y {:trigger v[x], v[y]} :: a0 <= x < y < l0 && (x < a || y >= l) ==> cmp(v[x], v[y]) <= 0
  }

  /** Rearranging the unsettled part leaves the rest settled. */
  lemma SettledRearranged(cmp: Comparator, v: seq<seq<byte>>, w: seq<seq<byte>>, a0: nat, l0: nat, a: nat, l: nat)
    requires Settled(cmp, v, a0, l0, a, l) && Rearranged(v, w, a, l)
    ensures Settled(cmp, w, a0, l0, a, l)
  {
    hide Rearranged;
    RearrangedSize(v, w, a, l);
    forall x, y | a0 <= x < y < l0 && (x < a || y >= l)
      ensures cmp(w[x], w[y]) <= 0
    {
      var x', y' := x, y;
      if a <= x < l { x' := Origin(v, w, a, l, x); } else { Outside(v, w, a, l, x); }
      if a <= y < l { y' := Origin(v, w, a, l, y); } else { Outside(v, w, a, l, y); }
      assert v[x'] == w[x] && v[y'] == w[y];
    }
  }

  lemma RearrangedSize<T>(v: seq<T>, w: seq<T>, a: nat, l: nat)
    requires Rearranged(v, w, a, l)
    ensures |v| == |w| && a <= l <= |v|
  {
  }

  /** The signs with which a range compares to p survive rearranging within it. */
  lemma SignsRearranged(cmp: Comparator, v: seq<seq<byte>>, w: seq<seq<byte>>, p: seq<byte>, a: nat, lp: nat, hp: nat, l: nat, x: nat, y: nat)
    requires Parted(cmp, v, p, a, lp, lp, hp, hp, l) && Rearranged(v, w, x, y)
    requires (x == hp + 1 && y == l) || (x == a && y == lp)
    ensures Parted(cmp, w, p, a, lp, lp, hp, hp, l)
  {
    hide Rearranged;
    RearrangedSize(v, w, x, y);
    forall k | 0 <= k < |v| && (k < x || k >= y) ensures w[k] == v[k] { Outside(v, w, x, y, k); }
    forall k | x <= k < y ensures if x == a && y == lp then cmp(w[k], p) < 0 else cmp(w[k], p) > 0 {
      var k' := Origin(v, w, x, y, k);
      assert v[k'] == w[k];
    }
  }

  lemma AcrossPivot(cmp: Comparator, es: nat, v: seq<seq<byte>>, p: seq<byte>, a: nat, lp: nat, hp: nat, l: nat, x: nat, y: nat)
    requires TotalPreorder(cmp, es) && AllSized(v, es) && |p| == es && Parted(cmp, v, p, a, lp, lp, hp, hp, l)
    requires a <= x < y < l && (x <= hp && y >= lp)
    ensures cmp(v[x], v[y]) <= 0
  {
    assert cmp(v[x], p) <= 0;
    assert cmp(p, v[y]) <= 0;
  }

  /** After the right side has been sorted, only the left side is unsettled. */
  lemma SettleRight(cmp: Comparator, es: nat, v: seq<seq<byte>>, p: seq<byte>, a0: nat, l0: nat, a: nat, lp: nat, hp: nat, l: nat)
    requires TotalPreorder(cmp, es) && AllSized(v, es) && |p| == es && Parted(cmp, v, p, a, lp, lp, hp, hp, l)
    requires Settled(cmp, v, a0, l0, a, l) && Sorted(cmp, v, hp + 1, l)
    ensures Settled(cmp, v, a0, l0, a, lp)
  {
    hide TotalPreorder, AllSized;
    forall x, y | a0 <= x < y < l0 && (x < a || y >= lp)
      ensures cmp(v[x], v[y]) <= 0
    {
      if a <= x && y < l && x <= hp { AcrossPivot(cmp, es, v, p, a, lp, hp, l, x, y); }
    }
  }

  lemma SettleLeft(cmp: Comparator, es: nat, v: seq<seq<byte>>, p: seq<byte>, a0: nat, l0: nat, a: nat, lp: nat, hp: nat, l: nat)
    requires TotalPreorder(cmp, es) && AllSized(v, es) && |p| == es && Parted(cmp, v, p, a, lp, lp, hp, hp, l)
    requires Settled(cmp, v, a0, l0, a, l) && Sorted(cmp, v, a, lp)
    ensures Settled(cmp, v, a0, l0, hp + 1, l)
  {
    hide TotalPreorder, AllSized;
    forall x, y | a0 <= x < y < l0 && (x < hp + 1 || y >= l)
      ensures cmp(v[x], v[y]) <= 0
    {
      if a <= x && y < l && y >= lp { AcrossPivot(cmp, es, v, p, a, lp, hp, l, x, y); }
    }
  }

  function Pow2(d: nat): (r: nat)
    ensures r >= 1
  {
    if d == 0 then 1 else 2 * Pow2(d - 1)
  }

  /** qsort: the n elements of es bytes end up sorted, a permutation of what they were, and the
      nesting of calls is logarithmic in n. Bytes behind the elements stay. */
  method Qsort(a: array<byte>, n: nat, es: nat, fc: Comparator) returns (ghost depth: nat)
    requires es > 0 && Off(es, n) <= a.Length && TotalPreorder(fc, es)
    modifies a
    ensures Sorted(fc, Elems(a[..], es, n), 0, n)
    ensures multiset(Elems(a[..], es, n)) == multiset(old(Elems(a[..], es, n)))
    ensures a[Off(es, n)..] == old(a[Off(es, n)..])
    ensures Pow2(depth) <= n + 1
  {
    var sorter := new Sorter(a, es, n, fc);
    ghost var v := sorter.V();
    depth := sorter.Qs1(0, n);
    assert sorter.V()[0..n] == sorter.V() && v[0..n] == v;
  }
}
