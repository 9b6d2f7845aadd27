/** How elementary steps act on the rest of the file system: the free lists, the ownership
    of blocks, and the files other than the one concerned. */
module LfsSystem {
  import opened Common
  import opened Bytes
  import opened LfsDisk
  import opened LfsState
  import opened LfsFile

  /** Control block m is in use, for file f. */
  ghost predicate Opened(s: State, l: Layout, m: nat, f: nat) {
    && m < |s.lfltab| && s.lfltab[m].lfused && s.lfltab[m].lfdirptr == f
    && f < |l.files| && f < |l.opener| && l.opener[f] == m
  }

  /** The blocks that do not belong to file f show the same contents in both images. */
  ghost predicate KeepsOthers(disk: seq<Sector>, disk': seq<Sector>, l: Layout, f: nat)
    requires |l.iown| == IB_PER_SECTOR * l.ibs && |l.down| == |disk|
    requires Formatted(disk, l.ibs)
  {
    && Formatted(disk', l.ibs)
    && |disk'| == |disk|
    && (forall b {:trigger l.iown[b]} :: 0 <= b < |l.iown| && l.iown[b].file != f ==> GetIb(disk', b) == GetIb(disk, b))
    && (forall b {:trigger l.down[b]} :: l.ibs < b < |l.down| && l.down[b].file != f ==> disk'[b] == disk[b])
  }

  lemma OthersKept(s: State, l: Layout, s': State, l': Layout, f: nat, g: nat)
    requires Shape(s, l) && Shape(s', l') && l'.ibs == l.ibs && |l'.files| == |l.files|
    requires IndexOwnership(l) && DataOwnership(l, |s.disk|)
    requires f < |l.files| && g < |l.files| && g != f && l'.files[g] == l.files[g]
    requires KeepsOthers(s.disk, s'.disk, l, f)
    requires FileOk(s, l, g) && Settled(s, l, g)
    requires s'.dir.lfdFiles[g] == s.dir.lfdFiles[g] && CacheOf(s'.lfltab, l', g) == CacheOf(s.lfltab, l, g)
    ensures FileOk(s', l', g) && Settled(s', l', g)
  {
    hide IndexMatches, DataMatches, CacheOk;
    var p := l.files[g];
    forall k | 0 <= k < |p.chain| ensures GetIb(s'.disk, p.chain[k]) == GetIb(s.disk, p.chain[k]) {
      assert l.iown[p.chain[k]] == Slot(g, k);
    }
    forall k | 0 <= k < |p.dblks| ensures s'.disk[p.dblks[k]] == s.disk[p.dblks[k]] {
      assert l.down[p.dblks[k]] == Slot(g, k);
    }
    FileRepFrame(s.disk, s'.disk, l.ibs, CacheOf(s.lfltab, l, g), s.dir.lfdFiles[g], p);
  }

  lemma FreeIndexAt(disk: seq<Sector>, l: Layout, head: int, k: nat)
    requires Formatted(disk, l.ibs) && FreeIndexList(disk, l, head) && k < |l.freeI|
    ensures IsIb(l.freeI[k], l.ibs) && GetIb(disk, l.freeI[k]).ibNext == Link(l.freeI, k)
  {
    hide GetIb;
    var next := Link(l.freeI, k);
  }

  lemma FreeDataAt(disk: seq<Sector>, l: Layout, head: int, k: nat)
    requires Formatted(disk, l.ibs) && FreeDataList(disk, l, head) && k < |l.freeD|
    ensures l.ibs < l.freeD[k] < |disk| && NextFree(disk[l.freeD[k]]) == Link(l.freeD, k)
  {
    hide NextFree;
    var next := Link(l.freeD, k);
  }

  /** Two layouts with the same free lists. */
  lemma SameFreeIndex(disk: seq<Sector>, l: Layout, l': Layout, head: int)
    requires Formatted(disk, l.ibs) && l'.ibs == l.ibs && l'.freeI == l.freeI && FreeIndexList(disk, l, head)
    ensures FreeIndexList(disk, l', head)
  {
    hide GetIb;
    forall k | 0 <= k < |l'.freeI| ensures IsIb(l'.freeI[k], l.ibs) && GetIb(disk, l'.freeI[k]).ibNext == Link(l'.freeI, k) {
      FreeIndexAt(disk, l, head, k);
    }
  }

  lemma SameFreeData(disk: seq<Sector>, l: Layout, l': Layout, head: int)
    requires Formatted(disk, l.ibs) && l'.ibs == l.ibs && l'.freeD == l.freeD && FreeDataList(disk, l, head)
    ensures FreeDataList(disk, l', head)
  {
    hide NextFree;
    forall k | 0 <= k < |l'.freeD| ensures l.ibs < l'.freeD[k] < |disk| && NextFree(disk[l'.freeD[k]]) == Link(l'.freeD, k) {
      FreeDataAt(disk, l, head, k);
    }
  }

  lemma FreeListsKept(disk: seq<Sector>, disk': seq<Sector>, l: Layout, l': Layout, f: nat, hi: int, hd: int)
    requires IndexOwnership(l) && DataOwnership(l, |disk|) && l'.ibs == l.ibs
    requires Formatted(disk, l.ibs) && KeepsOthers(disk, disk', l, f)
    requires FreeIndexList(disk, l, hi) && FreeDataList(disk, l, hd)
    requires |l'.freeI| <= |l.freeI| && l'.freeI == l.freeI[|l.freeI| - |l'.freeI|..]
    requires |l'.freeD| <= |l.freeD| && l'.freeD == l.freeD[|l.freeD| - |l'.freeD|..]
    ensures FreeIndexList(disk', l', Head(l'.freeI)) && FreeDataList(disk', l', Head(l'.freeD))
  {
    FreeIndexKept(disk, disk', l, l', f, hi);
    FreeDataSuffix(disk, disk', l, l', f, hd);
  }

  lemma FreeIndexKept(disk: seq<Sector>, disk': seq<Sector>, l: Layout, l': Layout, f: nat, hi: int)
    requires IndexOwnership(l) && |l.down| == |disk| && l'.ibs == l.ibs
    requires Formatted(disk, l.ibs) && KeepsOthers(disk, disk', l, f) && FreeIndexList(disk, l, hi)
    requires |l'.freeI| <= |l.freeI| && l'.freeI == l.freeI[|l.freeI| - |l'.freeI|..]
    ensures FreeIndexList(disk', l', Head(l'.freeI))
  {
    hide GetIb;
    var di := |l.freeI| - |l'.freeI|;
    forall k | 0 <= k < |l'.freeI|
      ensures IsIb(l'.freeI[k], l.ibs) && GetIb(disk', l'.freeI[k]).ibNext == Link(l'.freeI, k)
    {
      assert l'.freeI[k] == l.freeI[di + k];
      FreeIndexAt(disk, l, hi, di + k);
      assert l.iown[l.freeI[di + k]].file == FREE;
    }
  }

  lemma FreeDataSuffix(disk: seq<Sector>, disk': seq<Sector>, l: Layout, l': Layout, f: nat, hd: int)
    requires DataOwnership(l, |disk|) && |l.iown| == IB_PER_SECTOR * l.ibs && l'.ibs == l.ibs
    requires Formatted(disk, l.ibs) && KeepsOthers(disk, disk', l, f) && FreeDataList(disk, l, hd)
    requires |l'.freeD| <= |l.freeD| && l'.freeD == l.freeD[|l.freeD| - |l'.freeD|..]
    ensures FreeDataList(disk', l', Head(l'.freeD))
  {
    hide GetIb, NextFree, DataOwnership, KeepsOthers, FreeDataList;
    var dd := |l.freeD| - |l'.freeD|;
    forall k | 0 <= k < |l'.freeD|
      ensures l.ibs < l'.freeD[k] < |disk| && |disk'| == |disk| && IsRaw(disk'[l'.freeD[k]]) && NextFree(disk'[l'.freeD[k]]) == Link(l'.freeD, k)
    {
      assert l'.freeD[k] == l.freeD[dd + k];
      FreeDataAt(disk, l, hd, dd + k);
      FreeBlockKept(disk, disk', l, f, dd + k);
    }
    DownSize(l, |disk|);
    FreeDataIntro(disk, disk', l, l', f);
  }

  lemma DownSize(l: Layout, n: nat)
    requires DataOwnership(l, n)
    ensures |l.down| == n
  {
  }

  /** A free data block is not written. */
  lemma FreeBlockKept(disk: seq<Sector>, disk': seq<Sector>, l: Layout, f: nat, k: nat)
    requires DataOwnership(l, |disk|) && |l.iown| == IB_PER_SECTOR * l.ibs && Formatted(disk, l.ibs)
    requires KeepsOthers(disk, disk', l, f) && k < |l.freeD|
    ensures l.ibs < l.freeD[k] < |disk| == |disk'| && disk'[l.freeD[k]] == disk[l.freeD[k]]
  {
    hide GetIb, Placed, FileOwns;
    assert l.down[l.freeD[k]].file == FREE;
  }

  lemma FreeDataIntro(disk: seq<Sector>, disk': seq<Sector>, l: Layout, l': Layout, f: nat)
    requires |l.iown| == IB_PER_SECTOR * l.ibs && |l.down| == |disk| && l'.ibs == l.ibs
    requires Formatted(disk, l.ibs) && KeepsOthers(disk, disk', l, f)
    requires forall k {:trigger Link(l'.freeD, k)} :: 0 <= k < |l'.freeD| ==>
               l.ibs < l'.freeD[k] < |disk| && |disk'| == |disk| && IsRaw(disk'[l'.freeD[k]]) && NextFree(disk'[l'.freeD[k]]) == Link(l'.freeD, k)
    ensures FreeDataList(disk', l', Head(l'.freeD))
  {
    hide NextFree, GetIb;
    forall k | 0 <= k < |l'.freeD| ensures l.ibs < l'.freeD[k] < |disk'| && NextFree(disk'[l'.freeD[k]]) == Link(l'.freeD, k) {
      var next := Link(l'.freeD, k);
    }
  }

  /** The directory and the open table differ at most in file f and its control block m, and the disk is
      still recognised as it was. */
  ghost predicate TablesKept(s: State, s': State, m: nat, f: nat) {
    && m < |s.lfltab| && |s'.lfltab| == |s.lfltab|
    && s'.lfltab == s.lfltab[m := s'.lfltab[m]]
    && s'.lfltab[m].lfused == s.lfltab[m].lfused
    && s'.lfltab[m].lfdirptr == s.lfltab[m].lfdirptr
    && s'.lfltab[m].lfname == s.lfltab[m].lfname
    && f < |s.dir.lfdFiles| && |s'.dir.lfdFiles| == |s.dir.lfdFiles|
    && s'.dir.lfdFiles == s.dir.lfdFiles[f := s'.dir.lfdFiles[f]]
    && s'.dir.lfdFiles[f].ldName == s.dir.lfdFiles[f].ldName
    && s'.dir.lfdNfiles == s.dir.lfdNfiles
    && s'.dir.ids == s.dir.ids
    && |s'.disk| > 0 && s'.disk[0].DirSector? && s'.disk[0].dir.ids == s.dir.ids
  }

  /** A step on open file f that writes only to blocks of f keeps the invariant for everything
      but f, if the free lists come out right. */
  lemma SystemCore(s: State, l: Layout, s': State, l': Layout, m: nat, f: nat)
    requires InvBut(s, l, f) && Opened(s, l, m, f)
    requires Formatted(s'.disk, l.ibs) && KeepsOthers(s.disk, s'.disk, l, f)
    requires TablesKept(s, s', m, f)
    requires l'.ibs == l.ibs && l'.opener == l.opener && |l'.files| == |l.files|
    requires l'.files == l.files[f := l'.files[f]]
    requires IndexOwnership(l') && DataOwnership(l', |s'.disk|)
    requires FreeIndexList(s'.disk, l', s'.dir.lfdIfree) && FreeDataList(s'.disk, l', s'.dir.lfdDfree)
    ensures InvBut(s', l', f)
  {
    hide FileRep, Settled, IndexOwnership, DataOwnership, FreeIndexList, FreeDataList, GetIb;
    forall g | 0 <= g < |l'.files| && g != f
      ensures FileOk(s', l', g) && Settled(s', l', g)
    {
      assert FileOk(s, l, g) && Settled(s, l, g);
      OthersKept(s, l, s', l', f, g);
    }
  }

  /** The same for a step that pops blocks from the free lists, or none. */
  lemma SystemStep(s: State, l: Layout, s': State, l': Layout, m: nat, f: nat)
    requires InvBut(s, l, f) && Opened(s, l, m, f)
    requires Formatted(s'.disk, l.ibs) && KeepsOthers(s.disk, s'.disk, l, f)
    requires TablesKept(s, s', m, f)
    requires l'.ibs == l.ibs && l'.opener == l.opener && |l'.files| == |l.files|
    requires l'.files == l.files[f := l'.files[f]]
    requires IndexOwnership(l') && DataOwnership(l', |s'.disk|)
    requires |l'.freeI| <= |l.freeI| && l'.freeI == l.freeI[|l.freeI| - |l'.freeI|..]
    requires |l'.freeD| <= |l.freeD| && l'.freeD == l.freeD[|l.freeD| - |l'.freeD|..]
    requires s'.dir.lfdIfree == Head(l'.freeI) && s'.dir.lfdDfree == Head(l'.freeD)
    ensures InvBut(s', l', f)
  {
    hide FileRep, Settled, IndexOwnership, DataOwnership, FreeIndexList, FreeDataList, GetIb, KeepsOthers;
    FreeListsKept(s.disk, s'.disk, l, l', f, s.dir.lfdIfree, s.dir.lfdDfree);
    SystemCore(s, l, s', l', m, f);
  }

  // ------------------------------------------------------------ ownership

  lemma DistinctParts(l: Layout, n: nat, f: nat)
    requires IndexOwnership(l) && DataOwnership(l, n) && f < |l.files|
    ensures Distinct(l.files[f].chain) && Distinct(l.files[f].dblks)
  {
    var p := l.files[f];
    forall i, j | 0 <= i < j < |p.chain| ensures p.chain[i] != p.chain[j] {
      assert l.iown[p.chain[i]] == Slot(f, i) && l.iown[p.chain[j]] == Slot(f, j);
    }
    forall i, j | 0 <= i < j < |p.dblks| ensures p.dblks[i] != p.dblks[j] {
      assert l.down[p.dblks[i]] == Slot(f, i) && l.down[p.dblks[j]] == Slot(f, j);
    }
  }

  /** The head of the free index list, moved to the end of the chain of file f. */
  ghost function TakeIndex(l: Layout, f: nat): Layout
    requires f < |l.files| && |l.freeI| > 0 && 0 <= l.freeI[0] < |l.iown|
  {
    var p := l.files[f];
    l.(freeI := l.freeI[1..],
       files := l.files[f := p.(chain := p.chain + [l.freeI[0]])],
       iown := l.iown[l.freeI[0] := Slot(f, |p.chain|)])
  }

  lemma SameIndexOwnership(l: Layout, l': Layout)
    requires IndexOwnership(l) && l'.ibs == l.ibs && l'.freeI == l.freeI && l'.iown == l.iown
    requires |l'.files| == |l.files|
    requires forall g {:trigger l'.files[g]} :: 0 <= g < |l.files| ==> l'.files[g].chain == l.files[g].chain
    ensures IndexOwnership(l')
  {
    forall g | 0 <= g < |l'.files| ensures FileOwns(l'.iown, l'.files[g].chain, g) {
      assert FileOwns(l.iown, l.files[g].chain, g);
    }
    forall b | 0 <= b < |l.iown| ensures Placed(l'.iown[b], b, l'.freeI, ChainOf(l', l'.iown[b].file)) {
      assert ChainOf(l', l.iown[b].file) == ChainOf(l, l.iown[b].file);
    }
  }

  lemma SameDataOwnership(l: Layout, l': Layout, n: nat)
    requires DataOwnership(l, n) && l'.ibs == l.ibs && l'.freeD == l.freeD && l'.down == l.down
    requires |l'.files| == |l.files|
    requires forall g {:trigger l'.files[g]} :: 0 <= g < |l.files| ==> l'.files[g].dblks == l.files[g].dblks
    ensures DataOwnership(l', n)
  {
    forall g | 0 <= g < |l'.files| ensures FileOwns(l'.down, l'.files[g].dblks, g) {
      assert FileOwns(l.down, l.files[g].dblks, g);
    }
    forall b | l.ibs < b < n ensures Placed(l'.down[b], b, l'.freeD, BlocksOf(l', l'.down[b].file)) {
      assert BlocksOf(l', l.down[b].file) == BlocksOf(l, l.down[b].file);
    }
  }

  /** Popping the head b of a free list and appending it to the ids of file f: the slots of
      the rest of the list and of every other file stand. */
  lemma PopFree(own: seq<Slot>, free: seq<int>, own': seq<Slot>, f: nat, n: nat)
    requires FreeOwns(own, free) && |free| > 0 && own' == own[free[0] := Slot(f, n)]
    ensures FreeOwns(own', free[1..])
  {
    forall k | 0 <= k < |free| - 1
      ensures 0 <= free[1..][k] < |own'| && own'[free[1..][k]] == Slot(FREE, |free| - 2 - k)
    {
      assert free[1..][k] == free[k + 1];
      assert own[free[k + 1]] == Slot(FREE, |free| - 2 - k) && own[free[0]] == Slot(FREE, |free| - 1);
    }
  }

  lemma PopOwned(own: seq<Slot>, ids: seq<int>, g: nat, b: int, own': seq<Slot>, ids': seq<int>, f: nat, n: nat)
    requires FileOwns(own, ids, g) && 0 <= b < |own| && own[b].file == FREE && own' == own[b := Slot(f, n)]
    requires ids' == if g == f then ids + [b] else ids
    requires g == f ==> n == |ids|
    ensures FileOwns(own', ids', g) && b !in ids
  {
    forall k | 0 <= k < |ids'| ensures 0 <= ids'[k] < |own'| && own'[ids'[k]] == Slot(g, k) {
      if k < |ids| {
        assert ids'[k] == ids[k];
        assert own[ids[k]] == Slot(g, k);
      }
    }
  }

  lemma PopPlaced(slot: Slot, slot': Slot, b: int, free: seq<int>, ids: seq<int>, ids': seq<int>)
    requires Placed(slot, b, free, ids) && |free| > 0
    requires if b == free[0] then slot'.file != FREE && slot'.idx < |ids'| && ids'[slot'.idx] == b else slot' == slot
    requires slot'.file != FREE && b != free[0] ==> ids <= ids'
    ensures Placed(slot', b, free[1..], ids')
  {
  }

  lemma TakeIndexOwnership(l: Layout, n: nat, f: nat)
    requires IndexOwnership(l) && DataOwnership(l, n) && f < |l.files| && |l.freeI| > 0
    ensures IsIb(l.freeI[0], l.ibs)
    ensures IndexOwnership(TakeIndex(l, f)) && DataOwnership(TakeIndex(l, f), n)
    ensures forall g {:trigger l.files[g]} :: 0 <= g < |l.files| ==> l.freeI[0] !in l.files[g].chain
  {
    hide DataOwnership, FileOwns, FreeOwns, Placed;
    var ib := l.freeI[0];
    FreeHead(l.iown, l.freeI);
    var l', p := TakeIndex(l, f), l.files[f];
    PopFree(l.iown, l.freeI, l'.iown, f, |p.chain|);
    forall g | 0 <= g < |l'.files| ensures FileOwns(l'.iown, l'.files[g].chain, g) && ib !in l.files[g].chain {
      PopOwned(l.iown, l.files[g].chain, g, ib, l'.iown, l'.files[g].chain, f, |p.chain|);
    }
    forall b | 0 <= b < |l'.iown|
      ensures FREE <= l'.iown[b].file < |l'.files| && Placed(l'.iown[b], b, l'.freeI, ChainOf(l', l'.iown[b].file))
    {
      PopPlaced(l.iown[b], l'.iown[b], b, l.freeI, ChainOf(l, l.iown[b].file), ChainOf(l', l'.iown[b].file));
    }
    SameDataOwnership(l, l', n);
  }

  lemma FreeHead(own: seq<Slot>, free: seq<int>)
    requires FreeOwns(own, free) && |free| > 0
    ensures 0 <= free[0] < |own| && own[free[0]].file == FREE
  {
  }

  ghost function TakeData(l: Layout, f: nat): Layout
    requires f < |l.files| && |l.freeD| > 0 && 0 <= l.freeD[0] < |l.down|
  {
    var p := l.files[f];
    l.(freeD := l.freeD[1..],
       files := l.files[f := p.(dblks := p.dblks + [l.freeD[0]])],
       down := l.down[l.freeD[0] := Slot(f, |p.dblks|)])
  }

  lemma TakeDataOwnership(l: Layout, n: nat, f: nat)
    requires IndexOwnership(l) && DataOwnership(l, n) && f < |l.files| && |l.freeD| > 0
    ensures l.ibs < l.freeD[0] < n
    ensures IndexOwnership(TakeData(l, f)) && DataOwnership(TakeData(l, f), n)
    ensures forall g {:trigger l.files[g]} :: 0 <= g < |l.files| ==> l.freeD[0] !in l.files[g].dblks
  {
    hide IndexOwnership, FileOwns, FreeOwns, Placed;
    var d := l.freeD[0];
    FreeHead(l.down, l.freeD);
    var l', p := TakeData(l, f), l.files[f];
    PopFree(l.down, l.freeD, l'.down, f, |p.dblks|);
    forall g | 0 <= g < |l'.files| ensures FileOwns(l'.down, l'.files[g].dblks, g) && d !in l.files[g].dblks {
      PopOwned(l.down, l.files[g].dblks, g, d, l'.down, l'.files[g].dblks, f, |p.dblks|);
    }
    forall b | l.ibs < b < n
      ensures FREE <= l'.down[b].file < |l'.files| && Placed(l'.down[b], b, l'.freeD, BlocksOf(l', l'.down[b].file))
    {
      PopPlaced(l.down[b], l'.down[b], b, l.freeD, BlocksOf(l, l.down[b].file), BlocksOf(l', l'.down[b].file));
    }
    SameIndexOwnership(l, l');
  }
}
