/** The free memory list as a sequence of blocks, and what its operations mean in terms of
    the set of free bytes. */
module HeapModel {
  import opened Bytes

  datatype Block = Block(addr: nat, len: nat)

  /** Blocks start and end at multiples of 8, the size of a block header. */
  predicate Aligned(x: int) { x % 8 == 0 }

  lemma AlignedSum(x: int, y: int)
    requires Aligned(x) && Aligned(y)
    ensures Aligned(x + y) && Aligned(x - y)
  {
  }

  /** Rounding to a multiple of 8 in 32-bit arithmetic. */
  function RoundMb(x: uint32): (r: uint32)
    ensures Aligned(r)
  {
    (x + 7) % WORD_SPAN / 8 * 8
  }

  /** Rounding loses nothing exactly if it does not wrap around. */
  lemma RoundMbExact(x: uint32)
    ensures x <= RoundMb(x) <==> x <= WORD_SPAN - 8
    ensures x <= WORD_SPAN - 8 ==> RoundMb(x) < x + 8 && (x > 0 ==> RoundMb(x) >= 8)
    ensures x > WORD_SPAN - 8 ==> RoundMb(x) == 0
  {
  }

  /** Blocks in address order, disjoint, and never adjacent. */
  predicate Canonical(bs: seq<Block>) {
    && (forall k {:trigger bs[k]} :: 0 <= k < |bs| ==>
          bs[k].addr > 0 && bs[k].len > 0 && Aligned(bs[k].addr) && Aligned(bs[k].len)
          && bs[k].addr + bs[k].len < WORD_SPAN)
    && (forall i, k {:trigger bs[i], bs[k]} :: 0 <= i < k < |bs| ==> bs[i].addr + bs[i].len < bs[k].addr)
  }

  predicate InBlock(b: Block, x: int) { b.addr <= x < b.addr + b.len }

  /** Byte x is free. */
  predicate Free(bs: seq<Block>, x: int) {
    exists k {:trigger bs[k]} :: 0 <= k < |bs| && InBlock(bs[k], x)
  }

  function Sum(bs: seq<Block>): (n: nat) {
    if |bs| == 0 then 0 else Sum(bs[..|bs| - 1]) + bs[|bs| - 1].len
  }

  ghost predicate SameBytes(bs: seq<Block>, cs: seq<Block>) {
    forall x {:trigger Free(bs, x)} {:trigger Free(cs, x)} :: Free(bs, x) <==> Free(cs, x)
  }

  /** A canonical list is determined by its set of free bytes. */
  lemma {:induction false} CanonicalUnique(bs: seq<Block>, cs: seq<Block>)
    requires Canonical(bs) && Canonical(cs) && SameBytes(bs, cs)
    ensures bs == cs
  {
    if |bs| == 0 || |cs| == 0 {
      if |bs| > 0 {
        OnlyBlock(bs, 0, bs[0].addr);
        assert false;
      }
      if |cs| > 0 {
        OnlyBlock(cs, 0, cs[0].addr);
        assert false;
      }
    } else {
      SameFirst(bs, cs);
      SameFirst(cs, bs);
      TailBytes(bs);
      TailBytes(cs);
      forall x ensures Free(bs[1..], x) <==> Free(cs[1..], x) {
        assert Free(bs, x) <==> Free(cs, x);
      }
      CanonicalUnique(bs[1..], cs[1..]);
    }
  }

  /** The first block of cs starts no later, and if it starts at the same place ends no earlier,
      than that of bs. */
  lemma SameFirst(bs: seq<Block>, cs: seq<Block>)
    requires Canonical(bs) && Canonical(cs) && SameBytes(bs, cs) && |bs| > 0 && |cs| > 0
    ensures cs[0].addr <= bs[0].addr
    ensures cs[0].addr == bs[0].addr ==> bs[0].len <= cs[0].len
  {
    var b, c := bs[0], cs[0];
    OnlyBlock(bs, 0, b.addr);
    OnlyBlock(bs, 0, c.addr + c.len);
    assert Free(bs, b.addr) <==> Free(cs, b.addr);
    assert Free(bs, c.addr + c.len) <==> Free(cs, c.addr + c.len);
  }

  lemma TailBytes(bs: seq<Block>)
    requires Canonical(bs) && |bs| > 0
    ensures Canonical(bs[1..])
    ensures forall x {:trigger Free(bs[1..], x)} :: Free(bs[1..], x) <==> Free(bs, x) && !InBlock(bs[0], x)
  {
    forall x ensures Free(bs[1..], x) <==> Free(bs, x) && !InBlock(bs[0], x) {
      if Free(bs[1..], x) {
        var k :| 0 <= k < |bs[1..]| && InBlock(bs[1..][k], x);
        assert bs[1..][k] == bs[k + 1];
      }
      if Free(bs, x) && !InBlock(bs[0], x) {
        var k :| 0 <= k < |bs| && InBlock(bs[k], x);
        assert bs[1..][k - 1] == bs[k];
      }
    }
  }

  // ------------------------------------------------------------ allocation

  /** The first block of at least n bytes, or |bs|. */
  function FirstFit(bs: seq<Block>, n: nat): (k: nat)
    ensures k <= |bs|
    ensures k < |bs| ==> bs[k].len >= n
    ensures forall i {:trigger bs[i]} :: 0 <= i < k ==> bs[i].len < n
  {
    if |bs| == 0 then 0
    else var k := FirstFit(bs[..|bs| - 1], n);
         if k < |bs| - 1 || bs[|bs| - 1].len >= n then k else |bs|
  }

  /** The last block of at least n bytes, or |bs|. */
  function LastFit(bs: seq<Block>, n: nat): (k: nat)
    ensures k <= |bs|
    ensures k < |bs| ==> bs[k].len >= n
    ensures forall i {:trigger bs[i]} :: 0 <= i < |bs| && (i > k || k == |bs|) ==> bs[i].len < n
  {
    if |bs| == 0 then 0
    else if bs[|bs| - 1].len >= n then |bs| - 1
    else var k := LastFit(bs[..|bs| - 1], n);
         if k < |bs| - 1 then k else |bs|
  }

  /** bs with block k replaced by the blocks in `mid`. */
  function Splice(bs: seq<Block>, k: nat, mid: seq<Block>): (r: seq<Block>)
    requires k < |bs|
  {
    bs[..k] + mid + bs[k + 1..]
  }

  /** Taking n bytes from the bottom of block k. */
  function CarveLow(bs: seq<Block>, k: nat, n: nat): (r: seq<Block>)
    requires k < |bs| && bs[k].len >= n
  {
    Splice(bs, k, Remnant(bs[k].addr + n, bs[k].len - n))
  }

  /** Taking n bytes from the top of block k. */
  function CarveHigh(bs: seq<Block>, k: nat, n: nat): (r: seq<Block>)
    requires k < |bs| && bs[k].len >= n
  {
    Splice(bs, k, Remnant(bs[k].addr, bs[k].len - n))
  }

  lemma PrefixCanonical(bs: seq<Block>, k: nat)
    requires Canonical(bs) && k <= |bs|
    ensures Canonical(bs[..k]) && (k > 0 ==> bs[..k][k - 1] == bs[k - 1])
  {
    var r := bs[..k];
    forall i | 0 <= i < |r| ensures r[i] == bs[i] {}
  }

  lemma SuffixCanonical(bs: seq<Block>, k: nat)
    requires Canonical(bs) && k <= |bs|
    ensures Canonical(bs[k..]) && (k < |bs| ==> bs[k..][0] == bs[k])
  {
    var r := bs[k..];
    forall i | 0 <= i < |r| ensures r[i] == bs[k + i] {}
  }

  /** Two canonical lists, the second one further up. */
  lemma ConcatCanonical(l: seq<Block>, r: seq<Block>)
    requires Canonical(l) && Canonical(r)
    requires |l| > 0 && |r| > 0 ==> l[|l| - 1].addr + l[|l| - 1].len < r[0].addr
    ensures Canonical(l + r)
  {
    hide Aligned;
    var bs := l + r;
    forall i | 0 <= i < |bs| ensures bs[i] == if i < |l| then l[i] else r[i - |l|] {}
    forall i, k | 0 <= i < k < |bs| ensures bs[i].addr + bs[i].len < bs[k].addr {
      if i < |l| <= k { Across(l, r, i, k - |l|); }
    }
  }

  lemma Across(l: seq<Block>, r: seq<Block>, i: nat, k: nat)
    requires Canonical(l) && Canonical(r) && i < |l| && k < |r|
    requires l[|l| - 1].addr + l[|l| - 1].len < r[0].addr
    ensures l[i].addr + l[i].len < r[k].addr
  {
    hide Aligned;
    var z := |l| - 1;
    assert i < z ==> l[i].addr + l[i].len < l[z].addr;
    assert 0 < k ==> r[0].addr + r[0].len < r[k].addr;
  }

  lemma SpliceCanonical(bs: seq<Block>, k: nat, mid: seq<Block>)
    requires Canonical(bs) && k < |bs| && Canonical(mid) && |mid| <= 1
    requires |mid| == 1 ==> bs[k].addr <= mid[0].addr && mid[0].addr + mid[0].len <= bs[k].addr + bs[k].len
    ensures Canonical(Splice(bs, k, mid))
  {
    hide Canonical;
    var l, r := bs[..k], bs[k + 1..];
    PrefixCanonical(bs, k);
    SuffixCanonical(bs, k + 1);
    NeighboursApart(bs, k);
    NeighboursApart(bs, k + 1);
    ConcatCanonical(l, mid);
    if |mid| == 0 { assert l + mid == l; } else { assert (l + mid)[k] == mid[0]; }
    ConcatCanonical(l + mid, r);
  }

  lemma FreeConcat(bs: seq<Block>, cs: seq<Block>, x: int)
    ensures Free(bs + cs, x) <==> Free(bs, x) || Free(cs, x)
  {
    if Free(bs, x) {
      var i :| 0 <= i < |bs| && InBlock(bs[i], x);
      assert (bs + cs)[i] == bs[i];
    }
    if Free(cs, x) {
      var i :| 0 <= i < |cs| && InBlock(cs[i], x);
      assert (bs + cs)[|bs| + i] == cs[i];
    }
  }

  lemma FreeOne(b: Block, x: int)
    ensures Free([b], x) <==> InBlock(b, x)
  {
    assert [b][0] == b;
  }

  lemma SpliceBytes(bs: seq<Block>, k: nat, mid: seq<Block>, x: int)
    requires Canonical(bs) && k < |bs|
    ensures Free(Splice(bs, k, mid), x) <==> (Free(bs, x) && !InBlock(bs[k], x)) || Free(mid, x)
    ensures InBlock(bs[k], x) ==> Free(bs, x)
  {
    var a, c := bs[..k], bs[k + 1..];
    FreeConcat(a + mid, c, x);
    FreeConcat(a, mid, x);
    assert bs == a + [bs[k]] + c;
    FreeConcat(a + [bs[k]], c, x);
    FreeConcat(a, [bs[k]], x);
    FreeOne(bs[k], x);
    assert Free(a, x) || Free(c, x) ==> !InBlock(bs[k], x);
  }

  /** Allocation takes exactly its range out of the free bytes, keeps the list canonical, and
      takes exactly n from the sum of lengths. */
  lemma CarveMeaning(bs: seq<Block>, k: nat, n: nat)
    requires Canonical(bs) && k < |bs| && bs[k].len >= n && Aligned(n)
    ensures Canonical(CarveLow(bs, k, n)) && Canonical(CarveHigh(bs, k, n))
    ensures forall x {:trigger Free(CarveLow(bs, k, n), x)} ::
              Free(CarveLow(bs, k, n), x) <==> Free(bs, x) && !InBlock(Block(bs[k].addr, n), x)
    ensures forall x {:trigger Free(CarveHigh(bs, k, n), x)} ::
              Free(CarveHigh(bs, k, n), x) <==> Free(bs, x) && !InBlock(Block(bs[k].addr + bs[k].len - n, n), x)
    ensures Sum(CarveLow(bs, k, n)) == Sum(bs) - n && Sum(CarveHigh(bs, k, n)) == Sum(bs) - n
    ensures forall x {:trigger Free(bs, x)} :: InBlock(bs[k], x) ==> Free(bs, x)
  {
    hide Free, Splice, Sum, Canonical, Remnant;
    var b := bs[k];
    var low := Remnant(b.addr + n, b.len - n);
    var high := Remnant(b.addr, b.len - n);
    RemnantParts(bs, k, n, b.addr);
    RemnantParts(bs, k, n, b.addr + n);
    SpliceCanonical(bs, k, low);
    SpliceCanonical(bs, k, high);
    SumSplice(bs, k, low);
    SumSplice(bs, k, high);
    forall x ensures Free(CarveLow(bs, k, n), x) <==> Free(bs, x) && !InBlock(Block(b.addr, n), x) {
      SpliceBytes(bs, k, low, x);
      RemnantBytes(b.addr + n, b.len - n, x);
    }
    forall x ensures Free(CarveHigh(bs, k, n), x) <==> Free(bs, x) && !InBlock(Block(b.addr + b.len - n, n), x) {
      SpliceBytes(bs, k, high, x);
      RemnantBytes(b.addr, b.len - n, x);
    }
    forall x | InBlock(bs[k], x) ensures Free(bs, x) { SpliceBytes(bs, k, [], x); }
  }

  lemma RemnantParts(bs: seq<Block>, k: nat, n: nat, a: nat)
    requires Canonical(bs) && k < |bs| && bs[k].len >= n && Aligned(n)
    requires a == bs[k].addr || a == bs[k].addr + n
    ensures var r := Remnant(a, bs[k].len - n);
            && Canonical(r) && |r| <= 1 && Sum(r) == bs[k].len - n
            && (|r| == 1 ==> r[0] == Block(a, bs[k].len - n))
  {
    hide Aligned;
    AlignedSum(bs[k].addr, n);
    AlignedSum(bs[k].len, n);
    var r := Remnant(a, bs[k].len - n);
    if |r| > 0 { assert r[..|r| - 1] == []; }
  }

  /** What is left of a block, if anything. */
  function Remnant(addr: nat, len: nat): (r: seq<Block>) {
    if len == 0 then [] else [Block(addr, len)]
  }

  lemma RemnantBytes(addr: nat, len: nat, x: int)
    ensures Free(Remnant(addr, len), x) <==> InBlock(Block(addr, len), x)
  {
    if len > 0 { FreeOne(Block(addr, len), x); }
  }

  lemma OnlyBlock(bs: seq<Block>, k: nat, x: int)
    requires k < |bs|
    ensures InBlock(bs[k], x) ==> Free(bs, x)
  {
  }

  lemma {:induction false} SumConcat(bs: seq<Block>, cs: seq<Block>)
    ensures Sum(bs + cs) == Sum(bs) + Sum(cs)
  {
    if |cs| == 0 {
      assert bs + cs == bs;
    } else {
      assert (bs + cs)[..|bs + cs| - 1] == bs + cs[..|cs| - 1];
      SumConcat(bs, cs[..|cs| - 1]);
    }
  }

  lemma SumSplice(bs: seq<Block>, k: nat, mid: seq<Block>)
    requires k < |bs|
    ensures Sum(Splice(bs, k, mid)) == Sum(bs) - bs[k].len + Sum(mid)
    ensures |mid| == 1 ==> Sum(mid) == mid[0].len
  {
    assert bs == bs[..k] + [bs[k]] + bs[k + 1..];
    SumConcat(bs[..k] + [bs[k]], bs[k + 1..]);
    SumConcat(bs[..k], [bs[k]]);
    SumConcat(bs[..k] + mid, bs[k + 1..]);
    SumConcat(bs[..k], mid);
    assert [bs[k]][..0] == [];
    if |mid| == 1 { assert mid[..0] == []; }
  }

  // ------------------------------------------------------------ release

  /** How many blocks start below address a. */
  function Place(bs: seq<Block>, a: nat): (k: nat)
    ensures k <= |bs|
    ensures k > 0 ==> bs[k - 1].addr < a
    ensures k < |bs| ==> bs[k].addr >= a
  {
    if |bs| == 0 || bs[0].addr >= a then 0 else 1 + Place(bs[1..], a)
  }

  predicate JoinsLeft(bs: seq<Block>, k: nat, a: nat)
    requires k <= |bs|
  {
    k > 0 && bs[k - 1].addr + bs[k - 1].len == a
  }

  predicate JoinsRight(bs: seq<Block>, k: nat, a: nat, n: nat)
    requires k <= |bs|
  {
    k < |bs| && a + n == bs[k].addr
  }

  /** The list with the range of n bytes at a linked in at place k and joined with its
      neighbours. */
  function Joined(bs: seq<Block>, k: nat, a: nat, n: nat): (r: seq<Block>)
    requires k <= |bs|
  {
    var left, right := JoinsLeft(bs, k, a), JoinsRight(bs, k, a, n);
    var start := if left then bs[k - 1].addr else a;
    var end := if right then bs[k].addr + bs[k].len else a + n;
    bs[..if left then k - 1 else k] + [Block(start, if end >= start then end - start else 0)] + bs[if right then k + 1 else k..]
  }

  function Release(bs: seq<Block>, a: nat, n: nat): (r: seq<Block>) {
    Joined(bs, Place(bs, a), a, n)
  }

  /** The test of lines 43 and 44 of freemem. */
  predicate Touches(bs: seq<Block>, k: nat, a: nat, n: nat)
    requires k <= |bs|
  {
    (k > 0 && a < bs[k - 1].addr + bs[k - 1].len) || (k < |bs| && a + n > bs[k].addr)
  }

  ghost predicate Overlaps(bs: seq<Block>, a: nat, n: nat) {
    exists x {:trigger Free(bs, x)} :: a <= x < a + n && Free(bs, x)
  }

  /** Looking at the two neighbours finds any overlap with free memory. */
  lemma TouchesExact(bs: seq<Block>, a: nat, n: nat)
    requires Canonical(bs) && n > 0
    ensures Touches(bs, Place(bs, a), a, n) <==> Overlaps(bs, a, n)
  {
    var k := Place(bs, a);
    if k > 0 && a < bs[k - 1].addr + bs[k - 1].len {
      OnlyBlock(bs, k - 1, a);
    } else if k < |bs| && a + n > bs[k].addr {
      OnlyBlock(bs, k, bs[k].addr);
    } else {
      forall x | a <= x < a + n ensures !Free(bs, x) { GapFree(bs, k, a, n, x); }
    }
  }

  /** No block reaches into the gap at place k. */
  lemma GapFree(bs: seq<Block>, k: nat, a: nat, n: nat, x: int)
    requires Canonical(bs) && k <= |bs| && a <= x < a + n
    requires k > 0 ==> bs[k - 1].addr + bs[k - 1].len <= a
    requires k < |bs| ==> a + n <= bs[k].addr
    ensures !Free(bs, x)
  {
    hide Aligned;
    forall i | 0 <= i < |bs| ensures !InBlock(bs[i], x) {
      if i < k - 1 {
        assert bs[i].addr + bs[i].len < bs[k - 1].addr;
      } else if i > k {
        assert bs[k].addr + bs[k].len < bs[i].addr;
      }
    }
  }

  predicate Range(a: nat, n: nat) {
    a > 0 && n > 0 && Aligned(a) && Aligned(n) && a + n < WORD_SPAN
  }

  /** Releasing a range that is not free adds exactly its bytes, keeps the list canonical, and
      adds exactly n to the sum of lengths. */
  lemma ReleaseMeaning(bs: seq<Block>, a: nat, n: nat)
    requires Canonical(bs) && Range(a, n) && !Overlaps(bs, a, n)
    ensures Canonical(Release(bs, a, n))
    ensures forall x {:trigger Free(Release(bs, a, n), x)} ::
              Free(Release(bs, a, n), x) <==> Free(bs, x) || InBlock(Block(a, n), x)
    ensures Sum(Release(bs, a, n)) == Sum(bs) + n
  {
    hide Free, Sum, Canonical, Overlaps, Release, Joined;
    TouchesExact(bs, a, n);
    var k := Place(bs, a);
    ReleaseIs(bs, a, n);
    ReleaseCanonical(bs, k, a, n);
    forall x ensures Free(Release(bs, a, n), x) <==> Free(bs, x) || InBlock(Block(a, n), x) {
      ReleaseBytes(bs, k, a, n, x);
    }
    ReleaseSum(bs, k, a, n);
  }

  lemma ReleaseIs(bs: seq<Block>, a: nat, n: nat)
    ensures Release(bs, a, n) == Joined(bs, Place(bs, a), a, n)
  {
  }

  lemma GluedCanonical(l: seq<Block>, mid: Block, r: seq<Block>)
    requires Canonical(l) && Canonical(r) && Range(mid.addr, mid.len)
    requires |l| > 0 ==> l[|l| - 1].addr + l[|l| - 1].len < mid.addr
    requires |r| > 0 ==> mid.addr + mid.len < r[0].addr
    ensures Canonical(l + [mid] + r)
  {
    var m := [mid];
    assert Canonical(m);
    hide Canonical;
    ConcatCanonical(l, m);
    assert (l + m)[|l|] == mid;
    ConcatCanonical(l + m, r);
  }

  lemma ReleaseCanonical(bs: seq<Block>, k: nat, a: nat, n: nat)
    requires Canonical(bs) && Range(a, n) && k == Place(bs, a) && !Touches(bs, k, a, n)
    ensures Canonical(Joined(bs, k, a, n))
  {
    hide Place, Canonical, Joined;
    var i, j, mid := Around(bs, k, a, n);
    PrefixCanonical(bs, i);
    SuffixCanonical(bs, j);
    NeighboursApart(bs, k);
    SumRange(a, n, mid.addr, if i < k then bs[k - 1].len else 0, if j > k then bs[k].len else 0);
    GluedCanonical(bs[..i], mid, bs[j..]);
  }

  lemma SumRange(a: nat, n: nat, start: nat, ml: nat, mr: nat)
    requires Range(a, n) && start > 0 && Aligned(start) && Aligned(ml) && Aligned(mr)
    requires start + ml == a && a + n + mr < WORD_SPAN
    ensures Range(start, n + ml + mr)
  {
    hide Aligned;
    AlignedSum(n, ml);
    AlignedSum(n + ml, mr);
  }

  lemma NeighboursApart(bs: seq<Block>, k: nat)
    requires Canonical(bs) && k <= |bs|
    ensures k > 1 ==> bs[k - 2].addr + bs[k - 2].len < bs[k - 1].addr
    ensures 0 < k < |bs| ==> bs[k - 1].addr + bs[k - 1].len < bs[k].addr
    ensures k + 1 < |bs| ==> bs[k].addr + bs[k].len < bs[k + 1].addr
    ensures k > 0 ==> bs[k - 1].addr > 0 && Aligned(bs[k - 1].addr) && Aligned(bs[k - 1].len)
    ensures k < |bs| ==> bs[k].len > 0 && Aligned(bs[k].len) && bs[k].addr + bs[k].len < WORD_SPAN
  {
  }

  /** The list around place k: what stays on the left ends at i, what stays on the right starts at j. */
  lemma Around(bs: seq<Block>, k: nat, a: nat, n: nat) returns (i: nat, j: nat, mid: Block)
    requires k == Place(bs, a) && n > 0
    ensures i == (if JoinsLeft(bs, k, a) then k - 1 else k) && j == (if JoinsRight(bs, k, a, n) then k + 1 else k) && j <= |bs|
    ensures mid.addr == if i < k then bs[k - 1].addr else a
    ensures mid.len == n + (if i < k then bs[k - 1].len else 0) + (if j > k then bs[k].len else 0)
    ensures Joined(bs, k, a, n) == bs[..i] + [mid] + bs[j..]
  {
    hide Place;
    var left, right := JoinsLeft(bs, k, a), JoinsRight(bs, k, a, n);
    i, j := if left then k - 1 else k, if right then k + 1 else k;
    var start := if left then bs[k - 1].addr else a;
    var end := if right then bs[k].addr + bs[k].len else a + n;
    mid := Block(start, end - start);
  }

  lemma FreeLast(bs: seq<Block>, k: nat, x: int)
    requires 0 < k <= |bs|
    ensures Free(bs[..k], x) <==> Free(bs[..k - 1], x) || InBlock(bs[k - 1], x)
  {
    hide Free;
    assert bs[..k] == bs[..k - 1] + [bs[k - 1]];
    FreeConcat(bs[..k - 1], [bs[k - 1]], x);
    FreeOne(bs[k - 1], x);
  }

  lemma FreeHead(bs: seq<Block>, k: nat, x: int)
    requires k < |bs|
    ensures Free(bs[k..], x) <==> InBlock(bs[k], x) || Free(bs[k + 1..], x)
  {
    hide Free;
    assert bs[k..] == [bs[k]] + bs[k + 1..];
    FreeConcat([bs[k]], bs[k + 1..], x);
    FreeOne(bs[k], x);
  }

  lemma ReleaseBytes(bs: seq<Block>, k: nat, a: nat, n: nat, x: int)
    requires Canonical(bs) && Range(a, n) && k == Place(bs, a) && !Touches(bs, k, a, n)
    ensures Free(Joined(bs, k, a, n), x) <==> Free(bs, x) || InBlock(Block(a, n), x)
  {
    hide Free, Joined, Place, Canonical;
    var i, j, mid := Around(bs, k, a, n);
    FreeConcat(bs[..i] + [mid], bs[j..], x);
    FreeConcat(bs[..i], [mid], x);
    FreeOne(mid, x);
    assert bs == bs[..k] + bs[k..];
    FreeConcat(bs[..k], bs[k..], x);
    if i < k { FreeLast(bs, k, x); }
    if j > k { FreeHead(bs, k, x); }
  }

  lemma ReleaseSum(bs: seq<Block>, k: nat, a: nat, n: nat)
    requires Canonical(bs) && Range(a, n) && k == Place(bs, a) && !Touches(bs, k, a, n)
    ensures Sum(Joined(bs, k, a, n)) == Sum(bs) + n
  {
    hide Joined, Place, Canonical, Sum;
    var i, j, mid := Around(bs, k, a, n);
    SumConcat(bs[..i] + [mid], bs[j..]);
    SumConcat(bs[..i], [mid]);
    SumOne(mid);
    assert bs == bs[..k] + bs[k..];
    SumConcat(bs[..k], bs[k..]);
    if i < k { SumLast(bs, k); }
    if j > k { SumHead(bs, k); }
  }

  lemma SumLast(bs: seq<Block>, k: nat)
    requires 0 < k <= |bs|
    ensures Sum(bs[..k]) == Sum(bs[..k - 1]) + bs[k - 1].len
  {
    assert bs[..k][..k - 1] == bs[..k - 1];
  }

  lemma SumHead(bs: seq<Block>, k: nat)
    requires k < |bs|
    ensures Sum(bs[k..]) == bs[k].len + Sum(bs[k + 1..])
  {
    hide Sum;
    assert bs[k..] == [bs[k]] + bs[k + 1..];
    SumConcat([bs[k]], bs[k + 1..]);
    SumOne(bs[k]);
  }

  lemma SumOne(b: Block)
    ensures Sum([b]) == b.len
  {
    var s := [b];
    assert s[..|s| - 1] == [];
  }

  lemma SumNone()
    ensures Sum([]) == 0
  {
  }

  // ------------------------------------------------------------ laws

  /** Freeing what getmem returned restores the list exactly. */
  lemma FreeUndoesGet(bs: seq<Block>, n: nat)
    requires Canonical(bs) && n > 0 && Aligned(n) && FirstFit(bs, n) < |bs|
    ensures var k := FirstFit(bs, n); Release(CarveLow(bs, k, n), bs[k].addr, n) == bs
  {
    hide Free, Canonical, Release, CarveLow, CarveHigh, Range, FirstFit;
    var k := FirstFit(bs, n);
    CarveMeaning(bs, k, n);
    PartOfBlock(bs, k, n);
    Undo(bs, CarveLow(bs, k, n), bs[k].addr, n);
  }

  /** What getmem hands out is free no more exactly if rounding the size did not wrap around; if it did,
      nothing is taken from the list and all of the memory handed out stays free. */
  lemma GetMemTakes(bs: seq<Block>, x: uint32)
    requires Canonical(bs) && x > 0 && FirstFit(bs, RoundMb(x)) < |bs|
    ensures var k := FirstFit(bs, RoundMb(x));
            && ((forall y {:trigger Free(CarveLow(bs, k, RoundMb(x)), y)} :: bs[k].addr <= y < bs[k].addr + x ==> !Free(CarveLow(bs, k, RoundMb(x)), y)) <==> x <= WORD_SPAN - 8)
            && (x > WORD_SPAN - 8 ==> CarveLow(bs, k, RoundMb(x)) == bs)
  {
    hide Free, Canonical, CarveLow, CarveHigh, RoundMb, FirstFit;
    var n := RoundMb(x);
    var k := FirstFit(bs, n);
    RoundMbExact(x);
    CarveMeaning(bs, k, n);
    NeighboursApart(bs, k);
    if x > WORD_SPAN - 8 {
      CarveNothing(bs, k);
      assert Free(CarveLow(bs, k, n), bs[k].addr);
    }
  }

  /** The same for getstk, which hands out the top of a block. */
  lemma GetStkTakes(bs: seq<Block>, x: uint32)
    requires Canonical(bs) && x > 0 && LastFit(bs, RoundMb(x)) < |bs|
    ensures var k := LastFit(bs, RoundMb(x)); var top := bs[k].addr + bs[k].len;
            && ((forall y {:trigger Free(CarveHigh(bs, k, RoundMb(x)), y)} :: top - x <= y < top ==> !Free(CarveHigh(bs, k, RoundMb(x)), y)) <==> x <= WORD_SPAN - 8)
            && (x > WORD_SPAN - 8 ==> CarveHigh(bs, k, RoundMb(x)) == bs)
  {
    hide Free, Canonical, CarveLow, CarveHigh, RoundMb, LastFit;
    var n := RoundMb(x);
    var k := LastFit(bs, n);
    RoundMbExact(x);
    CarveMeaning(bs, k, n);
    NeighboursApart(bs, k);
    if x > WORD_SPAN - 8 {
      CarveNothing(bs, k);
      assert Free(CarveHigh(bs, k, n), bs[k].addr + bs[k].len - 1);
    }
  }

  lemma CarveNothing(bs: seq<Block>, k: nat)
    requires k < |bs| && bs[k].len > 0
    ensures CarveLow(bs, k, 0) == bs && CarveHigh(bs, k, 0) == bs
  {
    assert Remnant(bs[k].addr, bs[k].len) == [bs[k]];
    assert bs == bs[..k] + [bs[k]] + bs[k + 1..];
  }

  /** Freeing the range that getstk returned restores the list exactly. */
  lemma FreeUndoesGetStk(bs: seq<Block>, n: nat)
    requires Canonical(bs) && n > 0 && Aligned(n) && LastFit(bs, n) < |bs|
    ensures var k := LastFit(bs, n); Release(CarveHigh(bs, k, n), bs[k].addr + bs[k].len - n, n) == bs
  {
    hide Free, Canonical, Release, CarveLow, CarveHigh, Range, LastFit;
    var k := LastFit(bs, n);
    CarveMeaning(bs, k, n);
    PartOfBlock(bs, k, n);
    Undo(bs, CarveHigh(bs, k, n), bs[k].addr + bs[k].len - n, n);
  }

  /** The bottom and the top of a block are ranges. */
  lemma PartOfBlock(bs: seq<Block>, k: nat, n: nat)
    requires Canonical(bs) && k < |bs| && 0 < n <= bs[k].len && Aligned(n)
    ensures Range(bs[k].addr, n) && Range(bs[k].addr + bs[k].len - n, n)
  {
    hide Aligned;
    NeighboursApart(bs, k);
    NeighboursApart(bs, k + 1);
    AlignedSum(bs[k].addr, bs[k].len);
    AlignedSum(bs[k].addr + bs[k].len, n);
  }

  lemma Undo(bs: seq<Block>, cs: seq<Block>, a: nat, n: nat)
    requires Canonical(bs) && Canonical(cs) && Range(a, n)
    requires forall x {:trigger Free(cs, x)} :: Free(cs, x) <==> Free(bs, x) && !InBlock(Block(a, n), x)
    requires forall x {:trigger Free(bs, x)} :: InBlock(Block(a, n), x) ==> Free(bs, x)
    ensures Release(cs, a, n) == bs
  {
    hide Free, Canonical, Release;
    assert !Overlaps(cs, a, n);
    ReleaseMeaning(cs, a, n);
    CanonicalUnique(Release(cs, a, n), bs);
  }

  /** The order of two frees does not matter. */
  lemma ReleasesCommute(bs: seq<Block>, a: nat, n: nat, b: nat, m: nat)
    requires Canonical(bs) && Range(a, n) && Range(b, m)
    requires !Overlaps(bs, a, n) && !Overlaps(bs, b, m) && (a + n <= b || b + m <= a)
    ensures Release(Release(bs, a, n), b, m) == Release(Release(bs, b, m), a, n)
  {
    hide Free, Canonical, Release;
    ReleaseMeaning(bs, a, n);
    ReleaseMeaning(bs, b, m);
    assert !Overlaps(Release(bs, a, n), b, m);
    assert !Overlaps(Release(bs, b, m), a, n);
    ReleaseMeaning(Release(bs, a, n), b, m);
    ReleaseMeaning(Release(bs, b, m), a, n);
    CanonicalUnique(Release(Release(bs, a, n), b, m), Release(Release(bs, b, m), a, n));
  }
}
