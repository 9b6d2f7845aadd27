/** Runs of allocations and releases by callers that free exactly what they were given. */
module HeapRuns {
  import opened Bytes
  import opened HeapModel

  /** The free list, and the ranges handed out and not yet freed. */
  datatype State = State(free: seq<Block>, live: seq<Block>)

  /** Free(i) gives back live range i. */
  datatype Op = Get(nbytes: uint32) | GetStk(nbytes: uint32) | Free(i: nat)

  /** A size that rounds without wrapping around, or the index of a live range. */
  predicate Fits(s: State, op: Op) {
    match op
    case Get(n) => 0 < n <= WORD_SPAN - 8
    case GetStk(n) => 0 < n <= WORD_SPAN - 8
    case Free(i) => i < |s.live|
  }

  function Without(live: seq<Block>, i: nat): (r: seq<Block>)
    requires i < |live|
  {
    live[..i] + live[i + 1..]
  }

  function Step(s: State, op: Op): (t: State)
    requires Fits(s, op)
  {
    match op
    case Get(nbytes) =>
      var n := RoundMb(nbytes);
      var k := FirstFit(s.free, n);
      if k == |s.free| then s else State(CarveLow(s.free, k, n), s.live + [Block(s.free[k].addr, n)])
    case GetStk(nbytes) =>
      var n := RoundMb(nbytes);
      var k := LastFit(s.free, n);
      if k == |s.free| then s else State(CarveHigh(s.free, k, n), s.live + [Block(s.free[k].addr + s.free[k].len - n, n)])
    case Free(i) =>
      State(Release(s.free, s.live[i].addr, s.live[i].len), Without(s.live, i))
  }

  ghost predicate Legal(s: State, ops: seq<Op>)
    decreases |ops|
  {
    |ops| == 0 || (Fits(s, ops[0]) && Legal(Step(s, ops[0]), ops[1..]))
  }

  ghost function Run(s: State, ops: seq<Op>): (t: State)
    requires Legal(s, ops)
    decreases |ops|
  {
    if |ops| == 0 then s else Run(Step(s, ops[0]), ops[1..])
  }

  ghost predicate Apart(live: seq<Block>) {
    forall i, j {:trigger live[i], live[j]} :: 0 <= i < j < |live| ==>
      live[i].addr + live[i].len <= live[j].addr || live[j].addr + live[j].len <= live[i].addr
  }

  ghost predicate Ranges(live: seq<Block>) {
    forall i {:trigger live[i]} :: 0 <= i < |live| ==> Range(live[i].addr, live[i].len)
  }

  /** Every byte that was free at first is now either free or in exactly one live range. */
  ghost predicate Split(init: seq<Block>, s: State) {
    && (forall x {:trigger HeapModel.Free(init, x)} {:trigger HeapModel.Free(s.free, x)} {:trigger HeapModel.Free(s.live, x)} ::
          HeapModel.Free(init, x) <==> HeapModel.Free(s.free, x) || HeapModel.Free(s.live, x))
    && (forall x {:trigger HeapModel.Free(s.free, x)} {:trigger HeapModel.Free(s.live, x)} ::
          !(HeapModel.Free(s.free, x) && HeapModel.Free(s.live, x)))
  }

  ghost predicate Consistent(init: seq<Block>, s: State) {
    && Canonical(init) && Canonical(s.free)
    && Ranges(s.live) && Apart(s.live)
    && Split(init, s)
    && Sum(s.free) + Sum(s.live) == Sum(init)
  }

  lemma WithoutBytes(live: seq<Block>, i: nat, x: int)
    requires i < |live| && Apart(live)
    ensures HeapModel.Free(Without(live, i), x) <==> HeapModel.Free(live, x) && !InBlock(live[i], x)
    ensures InBlock(live[i], x) ==> HeapModel.Free(live, x)
  {
    var a, c := live[..i], live[i + 1..];
    FreeConcat(a, c, x);
    assert live == a + [live[i]] + c;
    FreeConcat(a + [live[i]], c, x);
    FreeConcat(a, [live[i]], x);
    FreeOne(live[i], x);
    assert HeapModel.Free(a, x) || HeapModel.Free(c, x) ==> !InBlock(live[i], x);
  }

  lemma WithoutSum(live: seq<Block>, i: nat)
    requires i < |live|
    ensures Sum(Without(live, i)) == Sum(live) - live[i].len
  {
    hide Sum;
    SumNone();
    SumSplice(live, i, []);
    assert Splice(live, i, []) == Without(live, i);
  }

  lemma WithoutParts(live: seq<Block>, i: nat)
    requires i < |live| && Apart(live) && Ranges(live)
    ensures Apart(Without(live, i)) && Ranges(Without(live, i))
    ensures Sum(Without(live, i)) == Sum(live) - live[i].len
  {
    hide Sum, Range;
    var r := Without(live, i);
    WithoutSum(live, i);
    forall j | 0 <= j < |r| ensures r[j] == live[if j < i then j else j + 1] {}
  }

  /** A range taken from free memory meets no live range. */
  lemma TakenApart(init: seq<Block>, s: State, b: Block)
    requires Split(init, s) && Ranges(s.live) && Apart(s.live) && b.len > 0 && Range(b.addr, b.len)
    requires forall x :: InBlock(b, x) ==> HeapModel.Free(s.free, x)
    ensures Apart(s.live + [b]) && Ranges(s.live + [b])
  {
    hide HeapModel.Free;
    var r := s.live + [b];
    forall i | 0 <= i < |s.live|
      ensures s.live[i].addr + s.live[i].len <= b.addr || b.addr + b.len <= s.live[i].addr
    {
      var c := s.live[i];
      OnlyBlock(s.live, i, c.addr);
      OnlyBlock(s.live, i, b.addr);
      assert !HeapModel.Free(s.free, c.addr) || !HeapModel.Free(s.live, c.addr);
      assert !HeapModel.Free(s.free, b.addr) || !HeapModel.Free(s.live, b.addr);
    }
  }

  /** Taking range b out of the free list. */
  lemma TakeStep(init: seq<Block>, s: State, free: seq<Block>, b: Block)
    requires Consistent(init, s) && Canonical(free) && b.len > 0 && Range(b.addr, b.len)
    requires forall x {:trigger HeapModel.Free(free, x)} :: HeapModel.Free(free, x) <==> HeapModel.Free(s.free, x) && !InBlock(b, x)
    requires forall x :: InBlock(b, x) ==> HeapModel.Free(s.free, x)
    requires Sum(free) == Sum(s.free) - b.len
    ensures Consistent(init, State(free, s.live + [b]))
  {
    hide HeapModel.Free, Sum, Canonical, Apart, Ranges, Range;
    TakenApart(init, s, b);
    SumConcat(s.live, [b]);
    SumOne(b);
    forall x
      ensures HeapModel.Free(s.live + [b], x) <==> HeapModel.Free(s.live, x) || InBlock(b, x)
    {
      FreeConcat(s.live, [b], x);
      FreeOne(b, x);
    }
  }

  lemma RangeOf(bs: seq<Block>, k: nat, n: nat)
    requires Canonical(bs) && k < |bs| && Aligned(n) && 0 < n <= bs[k].len
    ensures Range(bs[k].addr, n) && Range(bs[k].addr + bs[k].len - n, n)
  {
  }

  lemma GetStep(init: seq<Block>, s: State, nbytes: uint32)
    requires Consistent(init, s) && Fits(s, Get(nbytes))
    ensures Consistent(init, Step(s, Get(nbytes)))
  {
    hide Consistent, HeapModel.Free, Sum, Range, RoundMb, CarveLow, CarveHigh, FirstFit, Aligned, Canonical;
    FreeCanonical(init, s);
    var n := RoundMb(nbytes);
    RoundMbExact(nbytes);
    var k := FirstFit(s.free, n);
    if k < |s.free| {
      CarveMeaning(s.free, k, n);
      RangeOf(s.free, k, n);
      BlockBytes(s.free, k);
      TakeStep(init, s, CarveLow(s.free, k, n), Block(s.free[k].addr, n));
    }
  }

  lemma GetStkStep(init: seq<Block>, s: State, nbytes: uint32)
    requires Consistent(init, s) && Fits(s, GetStk(nbytes))
    ensures Consistent(init, Step(s, GetStk(nbytes)))
  {
    hide Consistent, HeapModel.Free, Sum, Range, RoundMb, CarveLow, CarveHigh, LastFit, Aligned, Canonical;
    FreeCanonical(init, s);
    var n := RoundMb(nbytes);
    RoundMbExact(nbytes);
    var k := LastFit(s.free, n);
    if k < |s.free| {
      CarveMeaning(s.free, k, n);
      RangeOf(s.free, k, n);
      BlockBytes(s.free, k);
      TakeStep(init, s, CarveHigh(s.free, k, n), Block(s.free[k].addr + s.free[k].len - n, n));
    }
  }

  lemma BlockBytes(bs: seq<Block>, k: nat)
    requires k < |bs|
    ensures forall x :: InBlock(bs[k], x) ==> HeapModel.Free(bs, x)
  {
  }

  lemma FreeCanonical(init: seq<Block>, s: State)
    requires Consistent(init, s)
    ensures Canonical(s.free) && Canonical(init)
  {
  }

  /** No byte of a live range is free. */
  lemma LiveNotFree(init: seq<Block>, s: State, i: nat)
    requires Consistent(init, s) && i < |s.live|
    ensures Range(s.live[i].addr, s.live[i].len) && !Overlaps(s.free, s.live[i].addr, s.live[i].len)
    ensures HeapModel.Free(init, s.live[i].addr)
  {
    hide HeapModel.Free, Sum, Canonical;
    BlockBytes(s.live, i);
  }

  /** freemem never refuses a live range: it is not empty, lies in the heap and touches no free memory. */
  lemma NeverRefused(init: seq<Block>, s: State, i: nat, minheap: int, maxheap: int)
    requires Consistent(init, s) && i < |s.live|
    requires forall x {:trigger HeapModel.Free(init, x)} :: HeapModel.Free(init, x) ==> minheap <= x <= maxheap
    ensures var b := s.live[i];
            !(b.len == 0 || b.addr < minheap || b.addr > maxheap || Overlaps(s.free, b.addr, b.len))
  {
    hide HeapModel.Free, Consistent, Overlaps;
    LiveNotFree(init, s, i);
  }

  lemma FreeStep(init: seq<Block>, s: State, i: nat)
    requires Consistent(init, s) && i < |s.live|
    ensures Consistent(init, Step(s, Op.Free(i)))
  {
    hide HeapModel.Free, Sum, Canonical, Apart, Ranges, Range, Release, Without, Overlaps;
    var b := s.live[i];
    LiveNotFree(init, s, i);
    ReleaseMeaning(s.free, b.addr, b.len);
    WithoutParts(s.live, i);
    var t := Step(s, Op.Free(i));
    assert t.free == Release(s.free, b.addr, b.len) && t.live == Without(s.live, i);
    forall x
      ensures HeapModel.Free(t.live, x) <==> HeapModel.Free(s.live, x) && !InBlock(b, x)
      ensures InBlock(b, x) ==> HeapModel.Free(s.live, x)
    {
      WithoutBytes(s.live, i, x);
    }
  }

  /** In every run no byte is lost, handed out twice, or both free and live, and the lengths add up. */
  lemma {:induction false} RunConsistent(init: seq<Block>, s: State, ops: seq<Op>)
    requires Consistent(init, s) && Legal(s, ops)
    ensures Consistent(init, Run(s, ops))
    decreases |ops|
  {
    hide Consistent, Step;
    if |ops| > 0 {
      match ops[0] {
        case Get(n) => GetStep(init, s, n);
        case GetStk(n) => GetStkStep(init, s, n);
        case Free(i) => FreeStep(init, s, i);
      }
      RunConsistent(init, Step(s, ops[0]), ops[1..]);
    }
  }

  lemma StartConsistent(init: seq<Block>)
    requires Canonical(init)
    ensures Consistent(init, State(init, []))
  {
    forall x ensures !HeapModel.Free([], x) {}
  }

  /** The free list depends only on which bytes are live, not on the order of the calls. */
  lemma HistoryIrrelevant(init: seq<Block>, ops: seq<Op>, ops': seq<Op>)
    requires Canonical(init) && Legal(State(init, []), ops) && Legal(State(init, []), ops')
    requires SameBytes(Run(State(init, []), ops).live, Run(State(init, []), ops').live)
    ensures Run(State(init, []), ops).free == Run(State(init, []), ops').free
  {
    hide HeapModel.Free, Sum, Canonical, Apart, Ranges, Run, Legal;
    StartConsistent(init);
    RunConsistent(init, State(init, []), ops);
    RunConsistent(init, State(init, []), ops');
    var s, t := Run(State(init, []), ops), Run(State(init, []), ops');
    assert SameBytes(s.free, t.free);
    CanonicalUnique(s.free, t.free);
  }

  /** When everything has been given back the free list is what it was at first. */
  lemma AllFreed(init: seq<Block>, ops: seq<Op>)
    requires Canonical(init) && Legal(State(init, []), ops) && Run(State(init, []), ops).live == []
    ensures Run(State(init, []), ops).free == init
  {
    assert Legal(State(init, []), []) && Run(State(init, []), []).live == [];
    HistoryIrrelevant(init, ops, []);
  }
}
