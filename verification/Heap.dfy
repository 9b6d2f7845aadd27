/** The heap allocator: getmem, getstk and freemem over one linked list of free blocks whose
    headers lie in the free memory itself. */
module Heap {
  import opened Common
  import opened Bytes
  import opened HeapModel

  const NULL := 0

  /** Where the list head `memlist` is stored: outside the heap. */
  const MEMLIST := -8

  /** The header of a free block; in `memlist` the length is that of all free memory. */
  datatype MemBlk = MemBlk(mnext: int, mlength: int)

  type Memory = map<int, MemBlk>

  function Node(bs: seq<Block>, k: nat): (a: int)
    requires k <= |bs|
  {
    if k == 0 then MEMLIST else bs[k - 1].addr
  }

  function Next(bs: seq<Block>, k: nat): (a: int)
    requires k <= |bs|
  {
    if k < |bs| then bs[k].addr else NULL
  }

  /** The headers in memory link the blocks bs, in this order. */
  ghost predicate Links(mem: Memory, bs: seq<Block>) {
    && (forall k {:trigger Node(bs, k)} :: 0 <= k <= |bs| ==> Node(bs, k) in mem && mem[Node(bs, k)].mnext == Next(bs, k))
    && (forall k {:trigger bs[k]} :: 0 <= k < |bs| ==> bs[k].addr in mem && mem[bs[k].addr].mlength == bs[k].len)
  }

  ghost predicate Ascending(bs: seq<Block>) {
    && (forall k {:trigger bs[k]} :: 0 <= k < |bs| ==> bs[k].addr > 0)
    && (forall i, k {:trigger bs[i], bs[k]} :: 0 <= i < k < |bs| ==> bs[i].addr < bs[k].addr)
  }

  lemma CanonicalAscending(bs: seq<Block>)
    requires Canonical(bs)
    ensures Ascending(bs)
  {
  }

  lemma LinkAt(mem: Memory, bs: seq<Block>, k: nat)
    requires Links(mem, bs) && k <= |bs|
    ensures Node(bs, k) in mem && mem[Node(bs, k)].mnext == Next(bs, k)
    ensures k < |bs| ==> bs[k].addr in mem && mem[bs[k].addr] == MemBlk(Next(bs, k + 1), bs[k].len)
  {
    if k < |bs| { assert Node(bs, k + 1) == bs[k].addr; }
  }

  lemma Unlinked(mem: Memory, bs: seq<Block>, k: nat, mem': Memory)
    requires Links(mem, bs) && Ascending(bs) && k < |bs| && Node(bs, k) in mem
    requires mem' == mem[Node(bs, k) := mem[Node(bs, k)].(mnext := Next(bs, k + 1))]
    ensures Links(mem', Splice(bs, k, []))
    ensures MEMLIST in mem && MEMLIST in mem' && mem'[MEMLIST].mlength == mem[MEMLIST].mlength
  {
    var r := Splice(bs, k, []);
    LinkAt(mem, bs, 0);
    forall i | 0 <= i <= |r| ensures Node(r, i) in mem' && mem'[Node(r, i)].mnext == Next(r, i) {
      if i <= k {
        assert Node(r, i) == Node(bs, i);
        LinkAt(mem, bs, i);
      } else {
        assert Node(r, i) == Node(bs, i + 1);
        LinkAt(mem, bs, i + 1);
      }
    }
    forall i | 0 <= i < |r| ensures r[i].addr in mem' && mem'[r[i].addr].mlength == r[i].len {
      assert r[i] == if i < k then bs[i] else bs[i + 1];
    }
  }

  /** A block replaced by one that starts elsewhere within the same gap. */
  lemma Replaced(mem: Memory, bs: seq<Block>, k: nat, b: Block, mem': Memory)
    requires Links(mem, bs) && Ascending(bs) && k < |bs| && Ascending(Splice(bs, k, [b]))
    requires Node(bs, k) in mem
    requires mem' == mem[Node(bs, k) := mem[Node(bs, k)].(mnext := b.addr)][b.addr := MemBlk(Next(bs, k + 1), b.len)]
    ensures Links(mem', Splice(bs, k, [b]))
    ensures MEMLIST in mem && MEMLIST in mem' && mem'[MEMLIST].mlength == mem[MEMLIST].mlength
  {
    var r := Splice(bs, k, [b]);
    assert r[k] == b;
    LinkAt(mem, bs, 0);
    forall i | 0 <= i <= |r| ensures Node(r, i) in mem' && mem'[Node(r, i)].mnext == Next(r, i) {
      LinkAt(mem, bs, i);
      if i != k + 1 { assert Node(r, i) == Node(bs, i); }
      if i > 0 { assert r[i - 1] == if i - 1 == k then b else bs[i - 1]; }
    }
    forall i | 0 <= i < |r| ensures r[i].addr in mem' && mem'[r[i].addr].mlength == r[i].len {
      assert r[i] == if i == k then b else bs[i];
    }
  }

  /** A block with another length. */
  lemma Resized(mem: Memory, bs: seq<Block>, k: nat, len: nat, mem': Memory)
    requires Links(mem, bs) && Ascending(bs) && k < |bs| && bs[k].addr in mem
    requires mem' == mem[bs[k].addr := mem[bs[k].addr].(mlength := len)]
    ensures Links(mem', Splice(bs, k, [Block(bs[k].addr, len)]))
    ensures MEMLIST in mem && MEMLIST in mem' && mem'[MEMLIST].mlength == mem[MEMLIST].mlength
  {
    var r := Splice(bs, k, [Block(bs[k].addr, len)]);
    assert r[k].addr == bs[k].addr;
    LinkAt(mem, bs, 0);
    forall i | 0 <= i <= |r| ensures Node(r, i) in mem' && mem'[Node(r, i)].mnext == Next(r, i) {
      LinkAt(mem, bs, i);
      if i > 0 { assert r[i - 1].addr == bs[i - 1].addr; }
      if i < |r| { assert r[i].addr == bs[i].addr; }
    }
    forall i | 0 <= i < |r| ensures r[i].addr in mem' && mem'[r[i].addr].mlength == r[i].len {
      if i != k { assert r[i] == bs[i]; }
    }
  }

  lemma InsertedNew(bs: seq<Block>, k: nat, b: Block)
    requires k <= |bs| && Ascending(Inserted(bs, k, b))
    ensures forall i {:trigger bs[i]} :: 0 <= i < |bs| ==> bs[i].addr != b.addr
    ensures b.addr > 0
  {
    var r := Inserted(bs, k, b);
    assert r[k] == b;
    forall i | 0 <= i < |bs| ensures bs[i].addr != b.addr {
      if i < k { assert r[i] == bs[i]; } else { assert r[i + 1] == bs[i]; }
    }
  }

  lemma NodesDiffer(bs: seq<Block>, i: nat, k: nat)
    requires Ascending(bs) && i <= |bs| && k <= |bs| && i != k
    ensures Node(bs, i) != Node(bs, k)
  {
  }

  lemma InsertedLinks(mem: Memory, bs: seq<Block>, k: nat, b: Block, mem': Memory)
    requires Links(mem, bs) && Ascending(bs) && k <= |bs| && Ascending(Inserted(bs, k, b)) && Node(bs, k) in mem
    requires mem' == mem[b.addr := MemBlk(Next(bs, k), b.len)][Node(bs, k) := mem[Node(bs, k)].(mnext := b.addr)]
    ensures Links(mem', Inserted(bs, k, b))
    ensures MEMLIST in mem && MEMLIST in mem' && mem'[MEMLIST].mlength == mem[MEMLIST].mlength
  {
    hide Ascending;
    var r := Inserted(bs, k, b);
    LinkAt(mem, bs, 0);
    InsertedNew(bs, k, b);
    forall i | 0 <= i <= |r| ensures Node(r, i) in mem' && mem'[Node(r, i)].mnext == Next(r, i) {
      if i <= k {
        LinkAt(mem, bs, i);
        if i < k { NodesDiffer(bs, i, k); }
        assert Node(r, i) == Node(bs, i);
      } else if i > k + 1 {
        LinkAt(mem, bs, i - 1);
        NodesDiffer(bs, i - 1, k);
        assert Node(r, i) == Node(bs, i - 1);
      }
    }
    forall i | 0 <= i < |r| ensures r[i].addr in mem' && mem'[r[i].addr].mlength == r[i].len {
      assert r[i] == if i < k then bs[i] else if i == k then b else bs[i - 1];
    }
  }

  /** Blocks j and j + 1 made one. */
  function Merged(bs: seq<Block>, j: nat): (r: seq<Block>)
    requires j + 1 < |bs|
  {
    bs[..j] + [Block(bs[j].addr, bs[j].len + bs[j + 1].len)] + bs[j + 2..]
  }

  lemma MergedLinks(mem: Memory, bs: seq<Block>, j: nat, mem': Memory)
    requires Links(mem, bs) && Ascending(bs) && j + 1 < |bs| && bs[j].addr in mem
    requires mem' == mem[bs[j].addr := MemBlk(Next(bs, j + 2), bs[j].len + bs[j + 1].len)]
    ensures Links(mem', Merged(bs, j))
    ensures MEMLIST in mem && MEMLIST in mem' && mem'[MEMLIST].mlength == mem[MEMLIST].mlength
  {
    var r := Merged(bs, j);
    assert r[j].addr == bs[j].addr;
    LinkAt(mem, bs, 0);
    forall i | 0 <= i <= |r| ensures Node(r, i) in mem' && mem'[Node(r, i)].mnext == Next(r, i) {
      if i <= j {
        LinkAt(mem, bs, i);
        if i > 0 { assert r[i - 1] == bs[i - 1]; }
        if i < j { assert r[i] == bs[i]; }
      } else {
        LinkAt(mem, bs, i + 1);
        if i > j + 1 { assert r[i - 1] == bs[i]; }
        if i < |r| { assert r[i] == bs[i + 1]; }
      }
    }
    forall i | 0 <= i < |r| ensures r[i].addr in mem' && mem'[r[i].addr].mlength == r[i].len {
      if i < j { assert r[i] == bs[i]; } else if i > j { assert r[i] == bs[i + 1]; }
    }
  }

  /** The length in the list head is not part of any block. */
  lemma HeadLength(mem: Memory, bs: seq<Block>, total: int)
    requires Links(mem, bs) && Ascending(bs) && MEMLIST in mem
    ensures Links(mem[MEMLIST := mem[MEMLIST].(mlength := total)], bs)
  {
    var mem' := mem[MEMLIST := mem[MEMLIST].(mlength := total)];
    forall i | 0 <= i <= |bs| ensures Node(bs, i) in mem' && mem'[Node(bs, i)].mnext == Next(bs, i) {
      LinkAt(mem, bs, i);
    }
  }

  lemma RoundMbAligned(x: uint32)
    ensures Aligned(RoundMb(x))
  {
  }

  lemma RoundMbTwice(x: uint32)
    requires x <= WORD_SPAN - 8
    ensures RoundMb(RoundMb(x)) == RoundMb(x) <= WORD_SPAN - 8 && (RoundMb(x) == 0 <==> x == 0)
  {
  }

  lemma InsertedAscending(bs: seq<Block>, k: nat, b: Block)
    requires Ascending(bs) && k <= |bs| && b.addr > 0
    requires (k > 0 ==> bs[k - 1].addr < b.addr) && (k < |bs| ==> b.addr < bs[k].addr)
    ensures Ascending(Inserted(bs, k, b))
  {
    var r := Inserted(bs, k, b);
    forall i | 0 <= i < |r| ensures r[i] == if i < k then bs[i] else if i == k then b else bs[i - 1] {}
  }

  /** The list after the first half of freemem's linking, and the place of the block that grows. */
  function Midway(bs: seq<Block>, k: nat, a: nat, n: nat): (r: seq<Block>)
    requires k <= |bs|
  {
    if JoinsLeft(bs, k, a) then Splice(bs, k - 1, [Block(bs[k - 1].addr, bs[k - 1].len + n)]) else Inserted(bs, k, Block(a, n))
  }

  function Grown(bs: seq<Block>, k: nat, a: nat): (j: nat)
    requires k <= |bs|
  {
    if JoinsLeft(bs, k, a) then k - 1 else k
  }

  lemma MidwayAscending(bs: seq<Block>, k: nat, a: nat, n: nat)
    requires Canonical(bs) && Range(a, n) && k == Place(bs, a) && !Touches(bs, k, a, n)
    ensures Ascending(Midway(bs, k, a, n))
  {
    hide Place, Range, Inserted;
    if JoinsLeft(bs, k, a) {
      var mid := Midway(bs, k, a, n);
      forall i | 0 <= i < |bs| ensures mid[i].addr == bs[i].addr {}
    } else {
      RangePositive(a, n);
      CanonicalAscending(bs);
      InsertedAscending(bs, k, Block(a, n));
    }
  }

  lemma RangePositive(a: nat, n: nat)
    requires Range(a, n)
    ensures a > 0 && n > 0
  {
  }

  lemma MidwayAt(bs: seq<Block>, k: nat, a: nat, n: nat)
    requires k <= |bs|
    ensures var mid, j := Midway(bs, k, a, n), Grown(bs, k, a);
            j < |mid| && mid[j] == if JoinsLeft(bs, k, a) then Block(bs[k - 1].addr, bs[k - 1].len + n) else Block(a, n)
  {
  }

  /** The second half of the linking leads to the joined list. */
  lemma JoinedSteps(bs: seq<Block>, k: nat, a: nat, n: nat)
    requires k <= |bs| && a > 0 && n > 0 && (k < |bs| ==> bs[k].addr > 0)
    ensures var mid, j := Midway(bs, k, a, n), Grown(bs, k, a);
            && j < |mid| && Next(mid, j + 1) == Next(bs, k)
            && (JoinsRight(bs, k, a, n) <==> mid[j].addr + mid[j].len == Next(bs, k))
            && (if JoinsRight(bs, k, a, n) then j + 1 < |mid| && Joined(bs, k, a, n) == Merged(mid, j) else Joined(bs, k, a, n) == mid)
  {
    if JoinsLeft(bs, k, a) {
      JoinedLeftCase(bs, k, a, n);
    } else {
      JoinedInsertCase(bs, k, a, n);
    }
  }

  lemma JoinedLeftCase(bs: seq<Block>, k: nat, a: nat, n: nat)
    requires k <= |bs| && JoinsLeft(bs, k, a)
    ensures var mid := Splice(bs, k - 1, [Block(bs[k - 1].addr, bs[k - 1].len + n)]);
            if JoinsRight(bs, k, a, n) then |mid| == |bs| && k < |mid| && Joined(bs, k, a, n) == Merged(mid, k - 1) else Joined(bs, k, a, n) == mid
  {
    var mid := Splice(bs, k - 1, [Block(bs[k - 1].addr, bs[k - 1].len + n)]);
    if JoinsRight(bs, k, a, n) {
      assert mid[k] == bs[k];
      assert mid[..k - 1] == bs[..k - 1] && mid[k + 1..] == bs[k + 1..];
    }
  }

  lemma JoinedInsertCase(bs: seq<Block>, k: nat, a: nat, n: nat)
    requires k <= |bs| && !JoinsLeft(bs, k, a)
    ensures var mid := Inserted(bs, k, Block(a, n));
            if JoinsRight(bs, k, a, n) then k + 1 < |mid| && Joined(bs, k, a, n) == Merged(mid, k) else Joined(bs, k, a, n) == mid
  {
    var mid := Inserted(bs, k, Block(a, n));
    if JoinsRight(bs, k, a, n) {
      assert mid[k + 1] == bs[k];
      assert mid[..k] == bs[..k] && mid[k + 2..] == bs[k + 1..];
    }
  }

  lemma AddressesPositive(bs: seq<Block>, k: nat)
    requires Canonical(bs) && k <= |bs|
    ensures Next(bs, k) == NULL <==> k == |bs|
  {
  }

  lemma BlockSizes(bs: seq<Block>, k: nat)
    requires Canonical(bs) && k < |bs|
    ensures bs[k].addr >= 8 && bs[k].len >= 8
  {
  }

  lemma FirstFitIs(bs: seq<Block>, n: nat, k: nat)
    requires k <= |bs| && (forall i {:trigger bs[i]} :: 0 <= i < k ==> bs[i].len < n) && (k < |bs| ==> bs[k].len >= n)
    ensures FirstFit(bs, n) == k
  {
    hide FirstFit;
    var f := FirstFit(bs, n);
  }

  lemma LastFitIs(bs: seq<Block>, n: nat, k: nat)
    requires k <= |bs| && (k < |bs| ==> bs[k].len >= n)
    requires forall i {:trigger bs[i]} :: 0 <= i < |bs| && (i > k || k == |bs|) ==> bs[i].len < n
    ensures LastFit(bs, n) == k
  {
    hide LastFit;
    var f := LastFit(bs, n);
  }

  lemma PlaceIs(bs: seq<Block>, a: nat, k: nat)
    requires Ascending(bs) && k <= |bs| && (k > 0 ==> bs[k - 1].addr < a) && (k < |bs| ==> bs[k].addr >= a)
    ensures Place(bs, a) == k
  {
    hide Place;
    var p := Place(bs, a);
  }

  class FreeList {
    const minheap: int
    const maxheap: int
    var mem: Memory
    ghost var blocks: seq<Block>

    ghost predicate Valid()
      reads this
    {
      && 0 < minheap <= maxheap < WORD_SPAN
      && Canonical(blocks)
      && Links(mem, blocks)
      && MEMLIST in mem && mem[MEMLIST].mlength == Sum(blocks)
    }

    /** Take n bytes away from the length in the list head. */
    method Deduct(n: int, ghost bs: seq<Block>)
      requires 0 < minheap <= maxheap < WORD_SPAN
      requires Links(mem, bs) && Canonical(bs) && MEMLIST in mem && mem[MEMLIST].mlength - n == Sum(bs)
      modifies this
      ensures Valid() && blocks == bs
    {
      hide Links, Canonical, Sum;
      CanonicalAscending(bs);
      HeadLength(mem, bs, mem[MEMLIST].mlength - n);
      mem := mem[MEMLIST := mem[MEMLIST].(mlength := mem[MEMLIST].mlength - n)];
      blocks := bs;
    }

    /** getmem: first fit. A request that wraps around in rounding counts as one for 0 bytes. */
    method GetMem(nbytes: uint32) returns (r: int)
      requires Valid()
      modifies this
      ensures Valid()
      ensures r == SYSERR <==> nbytes == 0 || FirstFit(old(blocks), RoundMb(nbytes)) == |old(blocks)|
      ensures r == SYSERR ==> blocks == old(blocks) && mem == old(mem)
      ensures r != SYSERR ==>
                var k := FirstFit(old(blocks), RoundMb(nbytes));
                r == old(blocks)[k].addr && blocks == CarveLow(old(blocks), k, RoundMb(nbytes))
    {
      hide Links, Canonical, Free, Sum, RoundMb, Aligned, Splice, FirstFit;
      if nbytes == 0 {
        return SYSERR;
      }
      var n := RoundMb(nbytes);
      RoundMbAligned(nbytes);
      LinkAt(mem, blocks, 0);
      CanonicalAscending(blocks);
      var prev := MEMLIST;
      var curr := mem[MEMLIST].mnext;
      ghost var k := 0;
      while curr != NULL
        invariant blocks == old(blocks) && mem == old(mem)
        invariant k <= |blocks| && prev == Node(blocks, k) && curr == Next(blocks, k)
        invariant forall i {:trigger blocks[i]} :: 0 <= i < k ==> blocks[i].len < n
        decreases |blocks| - k
      {
        LinkAt(mem, blocks, k);
        if mem[curr].mlength >= n {
          FirstFitIs(blocks, n, k);
          CarveMeaning(blocks, k, n);
          CanonicalAscending(CarveLow(blocks, k, n));
        }
        ghost var before := mem;
        if mem[curr].mlength == n {
          mem := mem[prev := mem[prev].(mnext := mem[curr].mnext)];
          Unlinked(before, blocks, k, mem);
          Deduct(n, CarveLow(blocks, k, n));
          return curr;
        } else if mem[curr].mlength > n {
          var leftover := curr + n;
          mem := mem[prev := mem[prev].(mnext := leftover)];
          mem := mem[leftover := MemBlk(mem[curr].mnext, mem[curr].mlength - n)];
          Replaced(before, blocks, k, Block(leftover, blocks[k].len - n), mem);
          Deduct(n, CarveLow(blocks, k, n));
          return curr;
        } else {
          prev := curr;
          curr := mem[curr].mnext;
          k := k + 1;
        }
      }
      AddressesPositive(blocks, k);
      FirstFitIs(blocks, n, k);
      return SYSERR;
    }

    /** The scan of getstk, which remembers the last block that is large enough. */
    method FindLast(n: nat) returns (fits: int, fitsprev: int, ghost fit: nat)
      requires Valid()
      ensures fit == LastFit(blocks, n) <= |blocks|
      ensures if fits == NULL then fit == |blocks| else fit < |blocks| && fits == blocks[fit].addr && fitsprev == Node(blocks, fit)
    {
      hide Links, Canonical, Sum, LastFit;
      LinkAt(mem, blocks, 0);
      CanonicalAscending(blocks);
      var prev := MEMLIST;
      var curr := mem[MEMLIST].mnext;
      fits, fitsprev, fit := NULL, NULL, |blocks|;
      ghost var k: nat := 0;
      while curr != NULL
        invariant k <= |blocks| && prev == Node(blocks, k) && curr == Next(blocks, k)
        invariant if fits == NULL then fit == |blocks| else 0 <= fit < k && fits == blocks[fit].addr && fitsprev == Node(blocks, fit) && blocks[fit].len >= n
        invariant forall i {:trigger blocks[i]} :: 0 <= i < k && (i > fit || fits == NULL) ==> blocks[i].len < n
        decreases |blocks| - k
      {
        LinkAt(mem, blocks, k);
        if mem[curr].mlength >= n {
          fits := curr;
          fitsprev := prev;
          fit := k;
        }
        prev := curr;
        curr := mem[curr].mnext;
        k := k + 1;
      }
      AddressesPositive(blocks, k);
      LastFitIs(blocks, n, fit);
    }

    /** getstk: last fit, from the top of the block; the result is the highest word. */
    method GetStk(nbytes: uint32) returns (r: int)
      requires Valid()
      modifies this
      ensures Valid()
      ensures r == SYSERR <==> nbytes == 0 || LastFit(old(blocks), RoundMb(nbytes)) == |old(blocks)|
      ensures r == SYSERR ==> blocks == old(blocks) && mem == old(mem)
      ensures r != SYSERR ==>
                var k := LastFit(old(blocks), RoundMb(nbytes));
                r == old(blocks)[k].addr + old(blocks)[k].len - 4 && blocks == CarveHigh(old(blocks), k, RoundMb(nbytes))
    {
      hide Links, Canonical, Free, Sum, RoundMb, Aligned, Splice, LastFit;
      if nbytes == 0 {
        return SYSERR;
      }
      var n := RoundMb(nbytes);
      RoundMbAligned(nbytes);
      CanonicalAscending(blocks);
      var fits, fitsprev, fit := FindLast(n);
      if fits == NULL {
        return SYSERR;
      }
      LinkAt(mem, blocks, fit);
      CarveMeaning(blocks, fit, n);
      BlockSizes(blocks, fit);
      ghost var before := mem;
      if n == mem[fits].mlength {
        mem := mem[fitsprev := mem[fitsprev].(mnext := mem[fits].mnext)];
        Unlinked(before, blocks, fit, mem);
      } else {
        mem := mem[fits := mem[fits].(mlength := mem[fits].mlength - n)];
        Resized(before, blocks, fit, blocks[fit].len - n, mem);
        fits := fits + mem[fits].mlength;
      }
      Deduct(n, CarveHigh(blocks, fit, n));
      return fits + n - 4;
    }

    /** The first half of the linking: grow the left neighbour or insert a new block. */
    method LinkLeft(blkaddr: nat, n: nat, ghost k: nat, prev: int, next: int, top: int) returns (block: int)
      requires Valid() && Range(blkaddr, n) && k == Place(blocks, blkaddr) && !Touches(blocks, k, blkaddr, n)
      requires prev == Node(blocks, k) && next == Next(blocks, k)
      requires top == if k == 0 then NULL else blocks[k - 1].addr + blocks[k - 1].len
      modifies this`mem
      ensures Links(mem, Midway(blocks, k, blkaddr, n))
      ensures Grown(blocks, k, blkaddr) < |Midway(blocks, k, blkaddr, n)|
      ensures block == Midway(blocks, k, blkaddr, n)[Grown(blocks, k, blkaddr)].addr
      ensures MEMLIST in mem && MEMLIST in old(mem) && mem[MEMLIST].mlength == old(mem[MEMLIST].mlength)
    {
      hide Links, Canonical, Free, Sum, Range, Touches, Place, Ascending, Splice, Inserted;
      CanonicalAscending(blocks);
      LinkAt(mem, blocks, k);
      RangePositive(blkaddr, n);
      MidwayAscending(blocks, k, blkaddr, n);
      MidwayAt(blocks, k, blkaddr, n);
      ghost var before := mem;
      block := blkaddr;
      if top == block {
        LinkAt(mem, blocks, k - 1);
        mem := mem[prev := mem[prev].(mlength := mem[prev].mlength + n)];
        Resized(before, blocks, k - 1, blocks[k - 1].len + n, mem);
        block := prev;
      } else {
        mem := mem[block := MemBlk(next, n)];
        mem := mem[prev := mem[prev].(mnext := block)];
        InsertedLinks(before, blocks, k, Block(blkaddr, n), mem);
      }
    }

    /** freemem once the range is known not to touch free memory: link it in and join it with
        its neighbours. */
    method LinkRange(blkaddr: nat, n: nat, ghost k: nat, prev: int, next: int, top: int)
      requires Valid() && Range(blkaddr, n) && k == Place(blocks, blkaddr) && !Touches(blocks, k, blkaddr, n)
      requires prev == Node(blocks, k) && next == Next(blocks, k)
      requires top == if k == 0 then NULL else blocks[k - 1].addr + blocks[k - 1].len
      modifies this
      ensures Valid() && blocks == Release(old(blocks), blkaddr, n)
    {
      hide Links, Canonical, Free, Sum, Overlaps, Place, Joined, Ascending, Midway, Grown, Merged, Range, Touches, Aligned;
      ghost var mid, j := Midway(blocks, k, blkaddr, n), Grown(blocks, k, blkaddr);
      RangePositive(blkaddr, n);
      AddressesPositive(blocks, k);
      TouchesExact(blocks, blkaddr, n);
      ReleaseMeaning(blocks, blkaddr, n);
      ReleaseIs(blocks, blkaddr, n);
      MidwayAscending(blocks, k, blkaddr, n);
      JoinedSteps(blocks, k, blkaddr, n);
      var block := LinkLeft(blkaddr, n, k, prev, next, top);
      LinkAt(mem, mid, j);
      ghost var between := mem;
      if block + mem[block].mlength == next {
        LinkAt(mem, mid, j + 1);
        mem := mem[block := mem[block].(mlength := mem[block].mlength + mem[next].mlength)];
        mem := mem[block := mem[block].(mnext := mem[next].mnext)];
        MergedLinks(between, mid, j, mem);
      }
      Deduct(0 - n, Joined(blocks, k, blkaddr, n));
    }

    /** The walk of freemem to where the block belongs. */
    method FindPlace(block: nat) returns (prev: int, next: int, ghost k: nat)
      requires Valid()
      ensures k == Place(blocks, block) && k <= |blocks| && prev == Node(blocks, k) && next == Next(blocks, k)
    {
      hide Links, Canonical, Sum, Place;
      LinkAt(mem, blocks, 0);
      CanonicalAscending(blocks);
      prev := MEMLIST;
      next := mem[MEMLIST].mnext;
      k := 0;
      while next != NULL && next < block
        invariant k <= |blocks| && prev == Node(blocks, k) && next == Next(blocks, k)
        invariant k > 0 ==> blocks[k - 1].addr < block
        decreases |blocks| - k
      {
        LinkAt(mem, blocks, k);
        prev := next;
        next := mem[next].mnext;
        k := k + 1;
      }
      AddressesPositive(blocks, k);
      PlaceIs(blocks, block, k);
    }

    /** freemem: refuse exactly what is empty, lies outside the heap or touches free memory;
        otherwise link the range in and join it with its neighbours. */
    method FreeMem(blkaddr: nat, nbytes: uint32) returns (r: int)
      requires Valid() && Aligned(blkaddr)
      requires nbytes <= WORD_SPAN - 8 && blkaddr + RoundMb(nbytes) < WORD_SPAN
      modifies this
      ensures Valid()
      ensures r == SYSERR <==>
                nbytes == 0 || blkaddr < minheap || blkaddr > maxheap || Overlaps(old(blocks), blkaddr, RoundMb(nbytes))
      ensures r == SYSERR ==> blocks == old(blocks) && mem == old(mem)
      ensures r != SYSERR ==> blocks == Release(old(blocks), blkaddr, RoundMb(nbytes))
    {
      hide Links, Canonical, Free, Sum, RoundMb, Aligned, Overlaps, Place;
      if nbytes == 0 || blkaddr < minheap || blkaddr > maxheap {
        return SYSERR;
      }
      var n := RoundMb(nbytes);
      RoundMbAligned(nbytes);
      RoundMbExact(nbytes);
      var block := blkaddr;
      var prev, next, k := FindPlace(block);
      AddressesPositive(blocks, k);
      TouchesExact(blocks, block, n);
      LinkAt(mem, blocks, k);
      if k > 0 { LinkAt(mem, blocks, k - 1); }
      var top := if prev == MEMLIST then NULL else prev + mem[prev].mlength;
      if (prev != MEMLIST && block < top) || (next != NULL && block + n > next) {
        return SYSERR;
      }
      LinkRange(block, n, k, prev, next, top);
      return OK;
    }

    /** freestk: p is what getstk returned for len bytes, the highest word of the range. */
    method FreeStk(p: int, len: uint32) returns (r: int)
      requires Valid() && len <= WORD_SPAN - 8
      requires p - RoundMb(len) + 4 >= 0 && Aligned(p - RoundMb(len) + 4) && p + 4 < WORD_SPAN
      modifies this
      ensures Valid()
      ensures var base := p - RoundMb(len) + 4;
              r == SYSERR <==> len == 0 || base < minheap || base > maxheap || Overlaps(old(blocks), base, RoundMb(len))
      ensures r == SYSERR ==> blocks == old(blocks) && mem == old(mem)
      ensures r != SYSERR ==> blocks == Release(old(blocks), p - RoundMb(len) + 4, RoundMb(len))
    {
      RoundMbTwice(len);
      r := FreeMem(p - RoundMb(len) + 4, RoundMb(len));
    }
  }
}
