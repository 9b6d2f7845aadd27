/** Truncation: all blocks of a file move to the free lists. */
module LfsTruncate {
  import opened Bytes
  import opened LfsDisk
  import opened LfsState
  import opened LfsFile
  import opened LfsSystem
  import opened LfsSteps

  /** The free data list after the first n data blocks of p have been pushed on it. */
  ghost function Pushed(p: FileParts, free: seq<int>, n: nat): (r: seq<int>)
    requires n <= |p.dblks|
    ensures |r| == n + |free|
  {
    seq(n, i requires 0 <= i < n => p.dblks[n - 1 - i]) + free
  }

  /** The layout after file f has been emptied. */
  ghost function Emptied(l: Layout, f: nat): Layout
    requires f < |l.files|
  {
    var p := l.files[f];
    l.(freeI := p.chain + l.freeI,
       freeD := Pushed(p, l.freeD, |p.dblks|),
       files := l.files[f := FileParts([], [], [])],
       iown := seq(|l.iown|, b requires 0 <= b < |l.iown| =>
         if l.iown[b].file == f && l.iown[b].idx < |p.chain|
         then Slot(FREE, |l.freeI| + |p.chain| - 1 - l.iown[b].idx) else l.iown[b]),
       down := seq(|l.down|, b requires 0 <= b < |l.down| =>
         if l.down[b].file == f then Slot(FREE, |l.freeD| + l.down[b].idx) else l.down[b]))
  }

  lemma EmptiedIndexOwnership(l: Layout, f: nat)
    requires IndexOwnership(l) && f < |l.files|
    ensures IndexOwnership(Emptied(l, f))
  {
    hide FileOwns, FreeOwns, Placed;
    var l' := Emptied(l, f);
    EmptiedFreeIndex(l, f);
    forall g | 0 <= g < |l'.files| ensures FileOwns(l'.iown, l'.files[g].chain, g) {
      EmptiedChain(l, f, g);
    }
    forall b | 0 <= b < |l'.iown|
      ensures FREE <= l'.iown[b].file < |l'.files| && Placed(l'.iown[b], b, l'.freeI, ChainOf(l', l'.iown[b].file))
    {
      EmptiedIndexPlaced(l, f, b);
    }
  }

  lemma EmptiedFreeIndex(l: Layout, f: nat)
    requires IndexOwnership(l) && f < |l.files|
    ensures FreeOwns(Emptied(l, f).iown, Emptied(l, f).freeI)
  {
    hide Placed;
    var l', p := Emptied(l, f), l.files[f];
    forall k | 0 <= k < |l'.freeI|
      ensures 0 <= l'.freeI[k] < |l'.iown| && l'.iown[l'.freeI[k]] == Slot(FREE, |l'.freeI| - 1 - k)
    {
      if k < |p.chain| {
        assert l'.freeI[k] == p.chain[k] && l.iown[p.chain[k]] == Slot(f, k);
      } else {
        assert l'.freeI[k] == l.freeI[k - |p.chain|];
        assert l.iown[l.freeI[k - |p.chain|]] == Slot(FREE, |l.freeI| - 1 - (k - |p.chain|));
      }
    }
  }

  lemma EmptiedChain(l: Layout, f: nat, g: nat)
    requires IndexOwnership(l) && f < |l.files| && g < |l.files|
    ensures FileOwns(Emptied(l, f).iown, Emptied(l, f).files[g].chain, g)
  {
    hide Placed, FreeOwns;
    var l' := Emptied(l, f);
    if g != f {
      forall k | 0 <= k < |l'.files[g].chain| ensures l'.iown[l'.files[g].chain[k]] == Slot(g, k) {
        assert l.iown[l.files[g].chain[k]] == Slot(g, k);
      }
    }
  }

  lemma EmptiedIndexPlaced(l: Layout, f: nat, b: int)
    requires IndexOwnership(l) && f < |l.files| && 0 <= b < |l.iown|
    ensures var l' := Emptied(l, f);
            FREE <= l'.iown[b].file < |l'.files| && Placed(l'.iown[b], b, l'.freeI, ChainOf(l', l'.iown[b].file))
  {
    hide FileOwns, FreeOwns;
    var l' := Emptied(l, f);
    assert Placed(l.iown[b], b, l.freeI, ChainOf(l, l.iown[b].file));
    if l.iown[b].file == FREE {
      assert l'.freeI[|l'.freeI| - 1 - l.iown[b].idx] == l.freeI[|l.freeI| - 1 - l.iown[b].idx];
    }
  }

  lemma EmptiedDataOwnership(l: Layout, n: nat, f: nat)
    requires DataOwnership(l, n) && f < |l.files|
    ensures DataOwnership(Emptied(l, f), n)
  {
    var l', p := Emptied(l, f), l.files[f];
    EmptiedFreeData(l, n, f);
    forall g | 0 <= g < |l'.files|
      ensures FileOwns(l'.down, l'.files[g].dblks, g)
      ensures forall k {:trigger l'.files[g].dblks[k]} :: 0 <= k < |l'.files[g].dblks| ==> l.ibs < l'.files[g].dblks[k]
    {
      if g != f {
        forall k | 0 <= k < |l'.files[g].dblks| ensures l'.down[l'.files[g].dblks[k]] == Slot(g, k) {
          assert l.down[l.files[g].dblks[k]] == Slot(g, k);
        }
      }
    }
    forall b | l.ibs < b < n
      ensures FREE <= l'.down[b].file < |l'.files| && Placed(l'.down[b], b, l'.freeD, BlocksOf(l', l'.down[b].file))
    {
      EmptiedPlaced(l, n, f, b);
    }
  }

  lemma EmptiedFreeData(l: Layout, n: nat, f: nat)
    requires DataOwnership(l, n) && f < |l.files|
    ensures FreeOwns(Emptied(l, f).down, Emptied(l, f).freeD)
    ensures forall k {:trigger Emptied(l, f).freeD[k]} :: 0 <= k < |Emptied(l, f).freeD| ==> l.ibs < Emptied(l, f).freeD[k]
  {
    hide Placed;
    var l', p := Emptied(l, f), l.files[f];
    var q := |p.dblks|;
    forall k | 0 <= k < |l'.freeD|
      ensures 0 <= l'.freeD[k] < |l'.down| && l'.down[l'.freeD[k]] == Slot(FREE, |l'.freeD| - 1 - k)
      ensures l.ibs < l'.freeD[k]
    {
      if k < q {
        assert l'.freeD[k] == p.dblks[q - 1 - k] && l.down[p.dblks[q - 1 - k]] == Slot(f, q - 1 - k);
      } else {
        assert l'.freeD[k] == l.freeD[k - q];
        assert l.down[l.freeD[k - q]] == Slot(FREE, |l.freeD| - 1 - (k - q));
      }
    }
  }

  lemma EmptiedPlaced(l: Layout, n: nat, f: nat, b: int)
    requires DataOwnership(l, n) && f < |l.files| && l.ibs < b < n
    ensures var l' := Emptied(l, f);
            FREE <= l'.down[b].file < |l'.files| && Placed(l'.down[b], b, l'.freeD, BlocksOf(l', l'.down[b].file))
  {
    hide FileOwns, FreeOwns;
    var l', p := Emptied(l, f), l.files[f];
    assert Placed(l.down[b], b, l.freeD, BlocksOf(l, l.down[b].file));
    if l.down[b].file == FREE {
      assert l'.freeD[|l'.freeD| - 1 - l.down[b].idx] == l.freeD[|l.freeD| - 1 - l.down[b].idx];
    } else if l.down[b].file == f {
      assert l'.freeD[|p.dblks| - 1 - l.down[b].idx] == b;
    }
  }

  /** The free data list while lftruncate is at work: n data blocks of f have been pushed. */
  ghost predicate DataPushed(disk: seq<Sector>, l: Layout, f: nat, n: nat, dfree: int)
    requires f < |l.files| && n <= |l.files[f].dblks| && Formatted(disk, l.ibs)
  {
    FreeDataList(disk, l.(freeD := Pushed(l.files[f], l.freeD, n)), dfree)
  }

  /** The index blocks of f while lftruncate is at work: the first k have been cleared, and
      the last one is to point at `ifree`. */
  ghost predicate IndexCleared(disk1: seq<Sector>, disk: seq<Sector>, l: Layout, f: nat, k: nat, ifree: int)
    requires f < |l.files| && k <= |l.files[f].chain|
    requires InAreas(disk1, l.ibs, l.files[f]) && Formatted(disk, l.ibs)
  {
    && (forall j {:trigger l.files[f].chain[j]} :: k <= j < |l.files[f].chain| ==>
          GetIb(disk, l.files[f].chain[j]) == GetIb(disk1, l.files[f].chain[j]))
    && (forall j {:trigger GetIb(disk, l.files[f].chain[j])} :: 0 <= j < k ==>
          GetIb(disk, l.files[f].chain[j]).ibNext == (if j + 1 < |l.files[f].chain| then l.files[f].chain[j + 1] else ifree))
  }

  /** Both images are recognised by the same words. */
  ghost predicate SameIds(disk1: seq<Sector>, disk: seq<Sector>) {
    |disk1| > 0 && |disk| > 0 && disk1[0].DirSector? && disk[0].DirSector? && disk[0].dir.ids == disk1[0].dir.ids
  }

  ghost predicate Clearing(disk1: seq<Sector>, disk: seq<Sector>, l: Layout, f: nat, n: nat, k: nat, dfree: int, ifree: int) {
    && f < |l.files| && n <= |l.files[f].dblks| && k <= |l.files[f].chain|
    && InAreas(disk1, l.ibs, l.files[f])
    && IndexOwnership(l) && DataOwnership(l, |disk1|)
    && KeepsOthers(disk1, disk, l, f) && SameIds(disk1, disk)
    && DataPushed(disk, l, f, n, dfree)
    && IndexCleared(disk1, disk, l, f, k, ifree)
  }

  lemma KeepsTrans(d1: seq<Sector>, d2: seq<Sector>, d3: seq<Sector>, l: Layout, f: nat)
    requires |l.iown| == IB_PER_SECTOR * l.ibs && |l.down| == |d1| && Formatted(d1, l.ibs)
    requires KeepsOthers(d1, d2, l, f) && KeepsOthers(d2, d3, l, f)
    ensures KeepsOthers(d1, d3, l, f)
  {
    hide GetIb;
  }

  lemma FreeDataKept(disk: seq<Sector>, disk': seq<Sector>, l: Layout, head: int)
    requires Formatted(disk, l.ibs) && Formatted(disk', l.ibs) && |disk'| == |disk|
    requires FreeDataList(disk, l, head)
    requires forall k {:trigger l.freeD[k]} :: 0 <= k < |l.freeD| ==> 0 <= l.freeD[k] < |disk| && disk'[l.freeD[k]] == disk[l.freeD[k]]
    ensures FreeDataList(disk', l, head)
  {
    hide NextFree;
    forall k | 0 <= k < |l.freeD|
      ensures l.ibs < l.freeD[k] < |disk'| && NextFree(disk'[l.freeD[k]]) == Link(l.freeD, k)
    {
      assert NextFree(disk[l.freeD[k]]) == Link(l.freeD, k);
    }
  }

  /** Pushing block d whose first word holds the old head. */
  lemma FreeDataPush(disk: seq<Sector>, disk': seq<Sector>, l: Layout, head: int, d: int)
    requires Formatted(disk, l.ibs) && Formatted(disk', l.ibs) && |disk'| == |disk|
    requires FreeDataList(disk, l, head)
    requires forall k {:trigger l.freeD[k]} :: 0 <= k < |l.freeD| ==> 0 <= l.freeD[k] < |disk| && disk'[l.freeD[k]] == disk[l.freeD[k]]
    requires l.ibs < d < |disk| && NextFree(disk'[d]) == head
    ensures FreeDataList(disk', l.(freeD := [d] + l.freeD), d)
  {
    hide NextFree;
    var b := [d] + l.freeD;
    forall i | 0 <= i < |b|
      ensures l.ibs < b[i] < |disk'| && NextFree(disk'[b[i]]) == Link(b, i)
    {
      if i > 0 {
        assert b[i] == l.freeD[i - 1];
        assert Link(b, i) == Link(l.freeD, i - 1);
      }
    }
  }

  lemma PushList(disk: seq<Sector>, l: Layout, f: nat, n: nat, dfree: int, sector: Sector, disk': seq<Sector>)
    requires f < |l.files| && n < |l.files[f].dblks| && Formatted(disk, l.ibs) && Formatted(disk', l.ibs)
    requires DataOwnership(l, |disk|) && DataPushed(disk, l, f, n, dfree)
    requires IsRaw(sector) && NextFree(sector) == dfree && l.ibs < l.files[f].dblks[n] < |disk|
    requires |disk'| == |disk| && disk'[l.files[f].dblks[n]] == sector
    requires forall d {:trigger disk'[d]} :: l.ibs < d < |disk| && d != l.files[f].dblks[n] ==> disk'[d] == disk[d]
    ensures DataPushed(disk', l, f, n + 1, l.files[f].dblks[n])
  {
    hide NextFree, Formatted, DataOwnership, Pushed;
    var d, a := l.files[f].dblks[n], Pushed(l.files[f], l.freeD, n);
    forall k | 0 <= k < |a| ensures l.ibs < a[k] < |disk| && disk'[a[k]] == disk[a[k]] {
      PushedInArea(disk, l, f, n, dfree, k);
      NotPushed(l, |disk|, f, n, k);
    }
    FreeDataPush(disk, disk', l.(freeD := a), dfree, d);
    PushedNext(l.files[f], l.freeD, n);
  }

  lemma PushedNext(p: FileParts, free: seq<int>, n: nat)
    requires n < |p.dblks|
    ensures Pushed(p, free, n + 1) == [p.dblks[n]] + Pushed(p, free, n)
  {
  }

  lemma PushedInArea(disk: seq<Sector>, l: Layout, f: nat, n: nat, dfree: int, k: nat)
    requires f < |l.files| && n <= |l.files[f].dblks| && Formatted(disk, l.ibs)
    requires DataPushed(disk, l, f, n, dfree) && k < |Pushed(l.files[f], l.freeD, n)|
    ensures l.ibs < Pushed(l.files[f], l.freeD, n)[k] < |disk|
  {
    hide NextFree, Pushed;
    FreeDataAt(disk, l.(freeD := Pushed(l.files[f], l.freeD, n)), dfree, k);
  }

  lemma NotPushed(l: Layout, size: nat, f: nat, n: nat, i: nat)
    requires f < |l.files| && n < |l.files[f].dblks| && DataOwnership(l, size)
    requires i < |Pushed(l.files[f], l.freeD, n)|
    ensures Pushed(l.files[f], l.freeD, n)[i] != l.files[f].dblks[n]
  {
    var p := l.files[f];
    assert l.down[p.dblks[n]] == Slot(f, n);
    if i < n {
      assert l.down[p.dblks[n - 1 - i]] == Slot(f, n - 1 - i);
    } else {
      assert l.down[l.freeD[i - n]].file == FREE;
    }
  }

  lemma PushStep(disk1: seq<Sector>, disk: seq<Sector>, l: Layout, f: nat, n: nat, k: nat, dfree: int, ifree: int,
                 sector: Sector, dir: Directory, disk': seq<Sector>)
    requires Clearing(disk1, disk, l, f, n, k, dfree, ifree) && n < |l.files[f].dblks|
    requires IsRaw(sector) && NextFree(sector) == dfree && 0 <= l.files[f].dblks[n] < |disk|
    requires disk' == disk[l.files[f].dblks[n] := sector][LF_AREA_DIR := DirSector(dir)] && SameIds(disk1, [DirSector(dir)])
    ensures Clearing(disk1, disk', l, f, n + 1, k, l.files[f].dblks[n], ifree)
  {
    hide GetIb, IndexOwnership, DataPushed, NextFree;
    OwnershipSizes(l, |disk1|);
    var d := l.files[f].dblks[n];
    assert l.down[d] == Slot(f, n);
    var disk0 := disk[d := sector];
    assert sector == RawSector(sector.data);
    DataWriteKeeps(disk, l, f, d, sector.data);
    DirWriteKeeps(disk0, l, f, dir);
    KeepsTrans(disk1, disk, disk0, l, f);
    KeepsTrans(disk1, disk0, disk', l, f);
    PushList(disk, l, f, n, dfree, sector, disk');
    forall i: nat | IsIb(i, l.ibs) ensures GetIb(disk', i) == GetIb(disk, i) {
      IbSectorInArea(i, l.ibs);
      SameSectorSameIb(disk, disk', i);
    }
  }

  lemma SameSectorSameIb(disk: seq<Sector>, disk': seq<Sector>, i: nat)
    requires Ib2Sect(i) < |disk| && Ib2Sect(i) < |disk'| && IsRaw(disk[Ib2Sect(i)])
    requires disk'[Ib2Sect(i)] == disk[Ib2Sect(i)]
    ensures GetIb(disk', i) == GetIb(disk, i)
  {
  }

  lemma ClearStep(disk1: seq<Sector>, disk: seq<Sector>, l: Layout, f: nat, n: nat, k: nat, dfree: int, ifree: int,
                  ib: iblock, disk': seq<Sector>)
    requires Clearing(disk1, disk, l, f, n, k, dfree, ifree) && k < |l.files[f].chain|
    requires IsIb(l.files[f].chain[k], l.ibs)
    requires ib.ibNext == (if k + 1 < |l.files[f].chain| then l.files[f].chain[k + 1] else ifree)
    requires disk' == PutIb(disk, l.files[f].chain[k], ib)
    ensures Clearing(disk1, disk', l, f, n, k + 1, dfree, ifree)
  {
    hide GetIb, PutIb, DataOwnership, KeepsOthers, DataPushed, Formatted;
    var p := l.files[f];
    ClearingFormat(disk1, disk, l, f, n, k, dfree, ifree);
    OwnershipSizes(l, |disk1|);
    PutIbFrame(disk, l.ibs, p.chain[k], ib);
    assert l.iown[p.chain[k]] == Slot(f, k);
    IndexWriteKeeps(disk, l, f, p.chain[k], ib);
    KeepsTrans(disk1, disk, disk', l, f);
    PushedKept(disk, disk', l, f, n, dfree);
    forall j | 0 <= j < |p.chain| && j != k ensures GetIb(disk', p.chain[j]) == GetIb(disk, p.chain[j]) {
      assert l.iown[p.chain[j]] == Slot(f, j);
    }
  }

  lemma ClearingFormat(disk1: seq<Sector>, disk: seq<Sector>, l: Layout, f: nat, n: nat, k: nat, dfree: int, ifree: int)
    requires Clearing(disk1, disk, l, f, n, k, dfree, ifree)
    ensures Formatted(disk1, l.ibs) && Formatted(disk, l.ibs) && |disk| == |disk1| && SameIds(disk1, disk)
  {
  }

  /** How many data blocks are free once i entries of index block k have been dealt with. */
  ghost function FreedBlocks(p: FileParts, k: nat, i: nat): (n: nat)
    ensures n <= |p.dblks|
  {
    if LF_IBLEN * k + i < |p.dblks| then LF_IBLEN * k + i else |p.dblks|
  }

  lemma ClearingSector(disk1: seq<Sector>, disk: seq<Sector>, l: Layout, f: nat, n: nat, k: nat, dfree: int, ifree: int)
    requires Clearing(disk1, disk, l, f, n, k, dfree, ifree) && k < |l.files[f].chain|
    ensures IsIb(l.files[f].chain[k], l.ibs) && 1 <= Ib2Sect(l.files[f].chain[k]) < |disk|
    ensures IsRaw(disk[Ib2Sect(l.files[f].chain[k])])
    ensures GetIb(disk, l.files[f].chain[k]) == GetIb(disk1, l.files[f].chain[k])
  {
    hide DataOwnership, IndexOwnership, GetIb, DataPushed;
    IbSectorInArea(l.files[f].chain[k], l.ibs);
  }

  lemma ClearingHead(disk1: seq<Sector>, disk: seq<Sector>, l: Layout, f: nat, n: nat, k: nat, dfree: int, ifree: int)
    requires Clearing(disk1, disk, l, f, n, k, dfree, ifree)
    ensures -1 <= dfree < 0x8000_0000
    ensures forall i {:trigger l.files[f].dblks[i]} :: 0 <= i < |l.files[f].dblks| ==> 0 < l.files[f].dblks[i] < |disk|
  {
    hide DataOwnership, IndexOwnership, GetIb, Pushed, NextFree;
    var a := Pushed(l.files[f], l.freeD, n);
    if |a| > 0 { FreeDataAt(disk, l.(freeD := a), dfree, 0); }
  }

  lemma PushedKept(disk: seq<Sector>, disk': seq<Sector>, l: Layout, f: nat, n: nat, dfree: int)
    requires f < |l.files| && n <= |l.files[f].dblks| && Formatted(disk, l.ibs) && Formatted(disk', l.ibs)
    requires DataPushed(disk, l, f, n, dfree) && |disk'| == |disk|
    requires forall d {:trigger disk'[d]} :: l.ibs < d < |disk| ==> disk'[d] == disk[d]
    ensures DataPushed(disk', l, f, n, dfree)
  {
    hide NextFree, Formatted, Pushed;
    var a := Pushed(l.files[f], l.freeD, n);
    forall k | 0 <= k < |a| ensures l.ibs < a[k] < |disk| { FreeDataAt(disk, l.(freeD := a), dfree, k); }
    FreeDataKept(disk, disk', l.(freeD := a), dfree);
  }

  /** When every block has been dealt with, the free lists are those of the emptied layout. */
  lemma ClearedFreeLists(disk1: seq<Sector>, disk: seq<Sector>, l: Layout, f: nat, dfree: int)
    requires f < |l.files| && |l.files[f].chain| > 0
    requires Clearing(disk1, disk, l, f, |l.files[f].dblks|, |l.files[f].chain|, dfree, Head(l.freeI))
    requires Formatted(disk1, l.ibs) && FreeIndexList(disk1, l, Head(l.freeI))
    ensures Formatted(disk, l.ibs)
    ensures FreeIndexList(disk, Emptied(l, f), l.files[f].chain[0])
    ensures FreeDataList(disk, Emptied(l, f), dfree)
  {
    hide GetIb, DataOwnership, NextFree, Pushed, InAreas;
    ClearingFormat(disk1, disk, l, f, |l.files[f].dblks|, |l.files[f].chain|, dfree, Head(l.freeI));
    OwnershipSizes(l, |disk1|);
    ClearedIndexList(disk1, disk, l, f);
    var pushed := l.(freeD := Pushed(l.files[f], l.freeD, |l.files[f].dblks|));
    assert FreeDataList(disk, pushed, dfree);
    SameFreeData(disk, pushed, Emptied(l, f), dfree);
  }

  lemma ClearedIndexList(disk1: seq<Sector>, disk: seq<Sector>, l: Layout, f: nat)
    requires f < |l.files| && |l.files[f].chain| > 0
    requires InAreas(disk1, l.ibs, l.files[f]) && Formatted(disk, l.ibs)
    requires IndexOwnership(l) && |l.down| == |disk1| == |disk|
    requires KeepsOthers(disk1, disk, l, f)
    requires IndexCleared(disk1, disk, l, f, |l.files[f].chain|, Head(l.freeI))
    requires FreeIndexList(disk1, l, Head(l.freeI))
    ensures FreeIndexList(disk, Emptied(l, f), l.files[f].chain[0])
  {
    hide GetIb, Pushed;
    var l', p := Emptied(l, f), l.files[f];
    forall j | 0 <= j < |l'.freeI|
      ensures IsIb(l'.freeI[j], l.ibs) && GetIb(disk, l'.freeI[j]).ibNext == Link(l'.freeI, j)
    {
      if j < |p.chain| {
        assert l'.freeI[j] == p.chain[j];
      } else {
        var i := j - |p.chain|;
        assert l'.freeI[j] == l.freeI[i];
        assert l.iown[l.freeI[i]].file == FREE;
        assert GetIb(disk1, l.freeI[i]).ibNext == Link(l.freeI, i);
      }
    }
  }

  // ------------------------------------------------------------ the whole state

  /** Resetting a clean control block; afterwards the disk alone shows the index of the file. */
  lemma ResetStep(s: State, l: Layout, m: nat, f: nat, s': State)
    requires Working(s, l, m, f) && DataSynced(s.disk, l.ibs, s.lfltab[m])
    requires !s.lfltab[m].lfibdirty && !s.lfltab[m].lfdbdirty
    requires s' == s.(lfltab := s.lfltab[m := s.lfltab[m].(
                        lfpos := 0, lfinum := LF_INULL, lfdnum := LF_DNULL, lfbyte := LF_BLKSIZ)])
    ensures Working(s', l, m, f)
    ensures InAreas(s.disk, l.ibs, l.files[f])
    ensures forall k {:trigger l.files[f].chain[k]} :: 0 <= k < |l.files[f].chain| ==>
              IbMatches(GetIb(s.disk, l.files[f].chain[k]), l.files[f], k)
  {
    hide IndexOwnership, DataOwnership, FreeIndexList, FreeDataList, GetIb, Settled;
    ResetFile(s.disk, l.ibs, s.lfltab[m], s.dir.lfdFiles[f], l.files[f], s'.lfltab[m]);
    CacheStep(s, l, m, f, s'.lfltab[m], s');
  }

  lemma ResetFile(disk: seq<Sector>, ibs: nat, c: Lflcblk, e: DirEntry, p: FileParts, c': Lflcblk)
    requires FileRep(disk, ibs, c, e, p) && DataSynced(disk, ibs, c) && !c.lfibdirty && !c.lfdbdirty
    requires c' == c.(lfpos := 0, lfinum := LF_INULL, lfdnum := LF_DNULL, lfbyte := LF_BLKSIZ)
    ensures FileRep(disk, ibs, c', e, p)
    ensures forall k {:trigger p.chain[k]} :: 0 <= k < |p.chain| ==> IbMatches(GetIb(disk, p.chain[k]), p, k)
  {
    hide GetIb;
    forall k | 0 <= k < |p.chain| ensures EffIb(disk, ibs, c', p.chain[k]) == EffIb(disk, ibs, c, p.chain[k]) {
      assert IsIb(p.chain[k], ibs);
    }
    ViewsKept(disk, ibs, c, disk, c', p);
    forall k | 0 <= k < |p.chain| ensures IbMatches(GetIb(disk, p.chain[k]), p, k) {
      assert IbMatches(EffIb(disk, ibs, c', p.chain[k]), p, k);
    }
  }

  lemma SizeBound(disk: seq<Sector>, ibs: nat)
    requires Formatted(disk, ibs)
    ensures ibs < |disk| < 0x80_0000
  {
  }

  lemma StartClearing(s: State, l: Layout, m: nat, f: nat)
    requires Working(s, l, m, f)
    ensures InAreas(s.disk, l.ibs, l.files[f])
    ensures Clearing(s.disk, s.disk, l, f, 0, 0, s.dir.lfdDfree, Head(l.freeI))
    ensures s.dir.lfdIfree == Head(l.freeI) && -1 <= Head(l.freeI) < 0x8000_0000
    ensures forall k {:trigger l.files[f].chain[k]} :: 0 <= k < |l.files[f].chain| ==>
              l.files[f].chain[k] >= 0 && l.files[f].chain[k] != Head(l.freeI)
  {
    hide Settled, GetIb, NextFree, IndexMatches, DataMatches, CacheOk, DataOwnership, Formatted;
    OwnershipSizes(l, |s.disk|);
    WorkingFrame(s, l, m, f);
    SizeBound(s.disk, l.ibs);
    NoWriteKeeps(s.disk, l, f);
    assert Pushed(l.files[f], l.freeD, 0) == l.freeD;
    forall k | 0 <= k < |l.files[f].chain| ensures l.files[f].chain[k] != Head(l.freeI) {
      assert l.iown[l.files[f].chain[k]] == Slot(f, k);
      if |l.freeI| > 0 { assert l.iown[l.freeI[0]].file == FREE; }
    }
  }

  /** A file emptied of all its blocks. */
  lemma TruncateStep(s: State, l: Layout, m: nat, f: nat, s': State)
    requires Working(s, l, m, f) && |l.files[f].chain| > 0
    requires s.lfltab[m].lfinum == LF_INULL && s.lfltab[m].lfdnum == LF_DNULL && s.lfltab[m].lfbyte == LF_BLKSIZ
    requires !s.lfltab[m].lfibdirty && !s.lfltab[m].lfdbdirty
    requires Clearing(s.disk, s'.disk, l, f, |l.files[f].dblks|, |l.files[f].chain|, s'.dir.lfdDfree, Head(l.freeI))
    requires s' == State(s'.disk,
                         s.dir.(lfdIfree := l.files[f].chain[0], lfdDfree := s'.dir.lfdDfree,
                                lfdFiles := s.dir.lfdFiles[f := s.dir.lfdFiles[f].(ldSize := 0, ldIlist := LF_INULL)]),
                         true, s.lfltab)
    ensures Inv(s', Emptied(l, f))
  {
    hide FileRep, Settled, GetIb, IndexOwnership, DataOwnership, FreeDataList, KeepsOthers, DataPushed, IndexCleared, InAreas, Formatted;
    var l' := Emptied(l, f);
    WorkingFrame(s, l, m, f);
    ClearingFormat(s.disk, s'.disk, l, f, |l.files[f].dblks|, |l.files[f].chain|, s'.dir.lfdDfree, Head(l.freeI));
    assert s.dir.lfdIfree == Head(l.freeI);
    ClearedFreeLists(s.disk, s'.disk, l, f, s'.dir.lfdDfree);
    EmptiedIndexOwnership(l, f);
    EmptiedDataOwnership(l, |s.disk|, f);
    EmptyFile(s'.disk, l.ibs, s.lfltab[m], s'.dir.lfdFiles[f]);
    OwnershipSizes(l, |s.disk|);
    SystemCore(s, l, s', l', m, f);
    assert Working(s', l', m, f);
    Leave(s', l', m, f);
  }
}
