/** Reading a file from the disk image alone, closing files, and mounting an image. */
module LfsPersist {
  import opened Bytes
  import opened LfsDisk
  import opened LfsState
  import opened LfsFile
  import opened LfsSystem
  import opened LfsSteps

  /** The k-th index block of the chain that starts at `ib`, found by following the links on
      the disk; -1 if the chain ends or leaves the disk. */
  function ChainAt(disk: seq<Sector>, ib: int, k: nat): int {
    if k == 0 then ib else
    var p := ChainAt(disk, ib, k - 1);
    if 0 <= p && Ib2Sect(p) < |disk| && IsRaw(disk[Ib2Sect(p)]) then GetIb(disk, p).ibNext else LF_INULL
  }

  /** The k-th block of the free data list that starts at d, found by following the links on the disk;
      -1 if the list ends or leaves the disk. */
  function FreeDataChainAt(disk: seq<Sector>, d: int, k: nat): int {
    if k == 0 then d else
    var p := FreeDataChainAt(disk, d, k - 1);
    if 0 <= p < |disk| && IsRaw(disk[p]) then NextFree(disk[p]) else LF_DNULL
  }

  /** Byte i of the file whose first index block is `ib`; -1 if the disk shows none. */
  function DiskByte(disk: seq<Sector>, ib: int, i: nat): int {
    var b := ChainAt(disk, ib, i / LF_IDATA);
    if 0 <= b && Ib2Sect(b) < |disk| && IsRaw(disk[Ib2Sect(b)]) then
      var d := GetIb(disk, b).ibDba[i % LF_IDATA / LF_BLKSIZ];
      if 0 <= d < |disk| && IsRaw(disk[d]) then disk[d].data[i % LF_BLKSIZ] else -1
    else -1
  }

  /** The bytes of directory slot f, from the directory sector, the index chain and the data
      blocks that the image holds. */
  function ReadImage(disk: seq<Sector>, f: nat): (r: seq<int>) {
    if |disk| > 0 && disk[0].DirSector? && f < disk[0].dir.lfdNfiles && f < |disk[0].dir.lfdFiles| then
      var e := disk[0].dir.lfdFiles[f];
      seq(e.ldSize, i requires 0 <= i => DiskByte(disk, e.ldIlist, i))
    else []
  }

  function AsInts(bs: seq<byte>): (r: seq<int>) { seq(|bs|, i requires 0 <= i < |bs| => bs[i] as int) }

  lemma {:induction false} ChainOnDisk(disk: seq<Sector>, ibs: nat, p: FileParts, k: nat)
    requires InAreas(disk, ibs, p) && k < |p.chain|
    requires forall j {:trigger p.chain[j]} :: 0 <= j < |p.chain| ==> IbMatches(GetIb(disk, p.chain[j]), p, j)
    ensures ChainAt(disk, p.chain[0], k) == p.chain[k]
  {
    hide GetIb;
    if k > 0 {
      ChainOnDisk(disk, ibs, p, k - 1);
      assert IbMatches(GetIb(disk, p.chain[k - 1]), p, k - 1);
      IbSectorInArea(p.chain[k - 1], ibs);
    }
  }

  /** With a clean cache, the image alone shows every byte of the file. */
  lemma CleanFileOnDisk(disk: seq<Sector>, ibs: nat, c: Lflcblk, e: DirEntry, p: FileParts, i: nat)
    requires FileRep(disk, ibs, c, e, p) && DataSynced(disk, ibs, c) && !c.lfibdirty && !c.lfdbdirty
    requires i < |p.content|
    ensures DiskByte(disk, e.ldIlist, i) == p.content[i]
  {
    hide GetIb;
    forall j | 0 <= j < |p.chain| ensures IbMatches(GetIb(disk, p.chain[j]), p, j) {
      assert IbMatches(EffIb(disk, ibs, c, p.chain[j]), p, j);
    }
    var k, j, b := i / LF_IDATA, i % LF_IDATA / LF_BLKSIZ, i / LF_BLKSIZ;
    assert b == LF_IBLEN * k + j && b < |p.dblks| && k < |p.chain|;
    ChainOnDisk(disk, ibs, p, k);
    IbSectorInArea(p.chain[k], ibs);
    assert GetIb(disk, p.chain[k]).ibDba[j] == DbaAt(p, k, j) == p.dblks[b];
    assert p.content[i] == EffDb(disk, ibs, c, p.dblks[b])[i % LF_BLKSIZ];
  }

  /** A clean open file that is not empty can be read back from the image alone. */
  lemma CleanPersists(s: State, l: Layout, m: nat, f: nat)
    requires Working(s, l, m, f) && DataSynced(s.disk, l.ibs, s.lfltab[m]) && DirSynced(s) && !s.dirdirty
    requires !s.lfltab[m].lfibdirty && !s.lfltab[m].lfdbdirty && |l.files[f].content| > 0
    ensures ReadImage(s.disk, f) == AsInts(l.files[f].content)
  {
    hide FileRep, Settled, IndexOwnership, DataOwnership, GetIb, DiskByte, FreeIndexList, FreeDataList;
    CursorBasics(s, l, m, f);
    var e := s.dir.lfdFiles[f];
    forall i | 0 <= i < |l.files[f].content| ensures DiskByte(s.disk, e.ldIlist, i) == l.files[f].content[i] {
      CleanFileOnDisk(s.disk, l.ibs, s.lfltab[m], e, l.files[f], i);
    }
  }

  // ------------------------------------------------------------ closing

  lemma CloseFile(disk: seq<Sector>, ibs: nat, c: Lflcblk, e: DirEntry, p: FileParts, c': Lflcblk)
    requires FileRep(disk, ibs, c, e, p) && DataSynced(disk, ibs, c) && !c.lfibdirty && !c.lfdbdirty
    requires c'.lfinum == LF_INULL && c'.lfdnum == LF_DNULL && c'.lfbyte == LF_BLKSIZ && !c'.lfibdirty && !c'.lfdbdirty
    ensures FileRep(disk, ibs, c', e, p) && DataSynced(disk, ibs, c')
  {
    hide GetIb;
    forall k | 0 <= k < |p.chain| ensures EffIb(disk, ibs, c', p.chain[k]) == EffIb(disk, ibs, c, p.chain[k]) {
      assert IsIb(p.chain[k], ibs);
    }
    ViewsKept(disk, ibs, c, disk, c', p);
  }

  lemma CloseStep(s: State, l: Layout, m: nat, f: nat, s': State, l': Layout)
    requires Working(s, l, m, f) && Tight(l.files[f]) && DataSynced(s.disk, l.ibs, s.lfltab[m]) && DirSynced(s)
    requires !s.lfltab[m].lfibdirty && !s.lfltab[m].lfdbdirty
    requires s' == s.(lfltab := s.lfltab[m := s.lfltab[m].(lfused := false)])
    requires l' == l.(opener := l.opener[f := -1])
    ensures Inv(s', l')
  {
    hide FileRep, IndexOwnership, DataOwnership, GetIb, Tight, DataSynced;
    SameIndexOwnership(l, l');
    SameDataOwnership(l, l', |s.disk|);
    SameFreeIndex(s.disk, l, l', s.dir.lfdIfree);
    SameFreeData(s.disk, l, l', s.dir.lfdDfree);
    CloseFile(s.disk, l.ibs, s.lfltab[m], s.dir.lfdFiles[f], l.files[f], Closed());
    forall g | 0 <= g < |l.files| ensures FileOk(s', l', g) && Settled(s', l', g) {
      if g != f {
        assert FileOk(s, l, g) && Settled(s, l, g);
        assert CacheOf(s'.lfltab, l', g) == CacheOf(s.lfltab, l, g);
      }
    }
  }

  // ------------------------------------------------------------ opening

  /** Opening directory slot f, which no control block has open, in the free block m. */
  lemma OpenStep(s: State, l: Layout, m: nat, f: nat, c': Lflcblk, s': State, l': Layout)
    requires Inv(s, l) && m < |s.lfltab| && !s.lfltab[m].lfused
    requires f < |l.files| && f < |l.opener| && l.opener[f] == -1 && f < |s.dir.lfdFiles|
    requires c'.lfused && c'.lfdirptr == f && c'.lfname == s.dir.lfdFiles[f].ldName && c'.lfpos == 0
    requires c'.lfinum == LF_INULL && c'.lfdnum == LF_DNULL && c'.lfbyte == LF_BLKSIZ && !c'.lfibdirty && !c'.lfdbdirty
    requires s' == s.(lfltab := s.lfltab[m := c']) && l' == l.(opener := l.opener[f := m])
    ensures Inv(s', l')
  {
    hide FileRep, IndexOwnership, DataOwnership, GetIb, Tight, DataSynced, DirAgrees;
    SameIndexOwnership(l, l');
    SameDataOwnership(l, l', |s.disk|);
    SameFreeIndex(s.disk, l, l', s.dir.lfdIfree);
    SameFreeData(s.disk, l, l', s.dir.lfdDfree);
    assert FileOk(s, l, f) && Settled(s, l, f);
    ClosedSynced(s.disk, l.ibs);
    CloseFile(s.disk, l.ibs, Closed(), s.dir.lfdFiles[f], l.files[f], c');
    forall g | 0 <= g < |l.files| ensures FileOk(s', l', g) && Settled(s', l', g) {
      if g != f {
        assert FileOk(s, l, g) && Settled(s, l, g);
        assert CacheOf(s'.lfltab, l', g) == CacheOf(s.lfltab, l, g);
      }
    }
  }

  lemma ClosedSynced(disk: seq<Sector>, ibs: nat)
    ensures DataSynced(disk, ibs, Closed())
  {
  }

  /** Adding an empty file to the directory. */
  lemma CreateStep(s: State, l: Layout, name: string, s': State, l': Layout)
    requires Inv(s, l) && s.dir.lfdNfiles < LF_NUM_DIR_ENT == |s.dir.lfdFiles|
    requires forall f {:trigger s.dir.lfdFiles[f]} :: 0 <= f < s.dir.lfdNfiles ==> s.dir.lfdFiles[f].ldName != name
    requires s' == s.(dir := s.dir.(lfdNfiles := s.dir.lfdNfiles + 1,
                                    lfdFiles := s.dir.lfdFiles[s.dir.lfdNfiles := DirEntry(0, LF_INULL, name)]))
    requires l' == l.(files := l.files + [FileParts([], [], [])], opener := l.opener + [-1])
    ensures Inv(s', l')
  {
    hide FileRep, IndexOwnership, DataOwnership, GetIb, Tight, DataSynced;
    GrownTableOwnership(l, |s.disk|, l');
    SameFreeIndex(s.disk, l, l', s.dir.lfdIfree);
    SameFreeData(s.disk, l, l', s.dir.lfdDfree);
    var n := |l.files|;
    EmptyFile(s.disk, l.ibs, Closed(), s'.dir.lfdFiles[n]);
    forall g | 0 <= g < |l'.files| ensures FileOk(s', l', g) && Settled(s', l', g) {
      if g < n {
        assert FileOk(s, l, g) && Settled(s, l, g);
        assert CacheOf(s'.lfltab, l', g) == CacheOf(s.lfltab, l, g);
      }
    }
  }

  lemma GrownTableOwnership(l: Layout, n: nat, l': Layout)
    requires IndexOwnership(l) && DataOwnership(l, n)
    requires l' == l.(files := l.files + [FileParts([], [], [])], opener := l.opener + [-1])
    ensures IndexOwnership(l') && DataOwnership(l', n)
  {
    forall g | 0 <= g < |l'.files|
      ensures FileOwns(l'.iown, l'.files[g].chain, g) && FileOwns(l'.down, l'.files[g].dblks, g)
    {
      if g < |l.files| {
        assert l'.files[g] == l.files[g];
      }
    }
    forall b | 0 <= b < |l.iown| ensures Placed(l'.iown[b], b, l'.freeI, ChainOf(l', l'.iown[b].file)) {
      assert ChainOf(l', l.iown[b].file) == ChainOf(l, l.iown[b].file);
    }
    forall b | l.ibs < b < n ensures Placed(l'.down[b], b, l'.freeD, BlocksOf(l', l'.down[b].file)) {
      assert BlocksOf(l', l.down[b].file) == BlocksOf(l, l.down[b].file);
    }
  }

  // ------------------------------------------------------------ images

  /** The image holds the files of layout l, none of them open. */
  ghost predicate Image(disk: seq<Sector>, l: Layout) {
    |disk| > 0 && disk[0].DirSector? && Inv(State(disk, disk[0].dir, false, []), l)
  }

  /** When no file is open, the image is all there is. */
  lemma AllClosedImage(s: State, l: Layout)
    requires Inv(s, l) && forall m {:trigger s.lfltab[m]} :: 0 <= m < |s.lfltab| ==> !s.lfltab[m].lfused
    requires |s.disk| > 0 && s.disk[0] == DirSector(s.dir)
    ensures Image(s.disk, l)
  {
    hide FileRep, IndexOwnership, DataOwnership, GetIb, Tight, DataSynced;
    var s' := State(s.disk, s.dir, false, []);
    forall g | 0 <= g < |l.files| ensures FileOk(s', l, g) && Settled(s', l, g) {
      assert FileOk(s, l, g) && Settled(s, l, g);
      assert l.opener[g] == -1;
    }
  }

  /** Mounting an image: the same files, all closed. */
  lemma MountStep(disk: seq<Sector>, l: Layout, s: State)
    requires Image(disk, l) && s.disk == disk && s.dir == disk[0].dir && !s.dirdirty
    requires forall m {:trigger s.lfltab[m]} :: 0 <= m < |s.lfltab| ==> !s.lfltab[m].lfused
    ensures Inv(s, l)
  {
    hide FileRep, IndexOwnership, DataOwnership, GetIb, Tight, DataSynced;
    var s0 := State(disk, disk[0].dir, false, []);
    forall g | 0 <= g < |l.files| ensures FileOk(s, l, g) && Settled(s, l, g) {
      assert FileOk(s0, l, g) && Settled(s0, l, g);
      assert l.opener[g] == -1;
    }
  }

  /** The layout without the files from k on. */
  ghost function Trimmed(l: Layout, k: nat): Layout
    requires k <= |l.files| && k <= |l.opener|
  {
    l.(files := l.files[..k], opener := l.opener[..k])
  }

  lemma NoBlocks(p: FileParts)
    requires Tight(p) && |p.content| == 0
    ensures p.chain == [] && p.dblks == []
  {
  }

  lemma TrimmedOwnership(l: Layout, n: nat, k: nat)
    requires IndexOwnership(l) && DataOwnership(l, n) && k <= |l.files| && k <= |l.opener|
    requires forall f {:trigger l.files[f]} :: k <= f < |l.files| ==> l.files[f].chain == [] && l.files[f].dblks == []
    ensures IndexOwnership(Trimmed(l, k)) && DataOwnership(Trimmed(l, k), n)
  {
    var l' := Trimmed(l, k);
    forall f | 0 <= f < k ensures FileOwns(l'.iown, l'.files[f].chain, f) && FileOwns(l'.down, l'.files[f].dblks, f) {
      assert l'.files[f] == l.files[f];
    }
    forall b | 0 <= b < |l.iown|
      ensures FREE <= l'.iown[b].file < k && Placed(l'.iown[b], b, l'.freeI, ChainOf(l', l'.iown[b].file))
    {
      var f := l.iown[b].file;
      assert Placed(l.iown[b], b, l.freeI, ChainOf(l, f));
      if f != FREE { assert l.files[f].chain != []; }
    }
    forall b | l.ibs < b < n
      ensures FREE <= l'.down[b].file < k && Placed(l'.down[b], b, l'.freeD, BlocksOf(l', l'.down[b].file))
    {
      var f := l.down[b].file;
      assert Placed(l.down[b], b, l.freeD, BlocksOf(l, f));
      if f != FREE { assert l.files[f].dblks != []; }
    }
  }

  /** With all files closed and the directory not dirty, the disk alone shows the files of its directory,
      whole; the files it does not have are empty. */
  lemma RestartStep(s: State, l: Layout)
    requires Inv(s, l) && !s.dirdirty && forall m {:trigger s.lfltab[m]} :: 0 <= m < |s.lfltab| ==> !s.lfltab[m].lfused
    ensures |s.disk| > 0 && s.disk[0].DirSector? && s.disk[0].dir.ids == s.dir.ids
    ensures |l.opener| == |l.files| <= |s.dir.lfdFiles| == |s.disk[0].dir.lfdFiles|
    ensures var d := s.disk[0].dir;
            && d.lfdNfiles <= |l.files| && Image(s.disk, Trimmed(l, d.lfdNfiles))
            && (forall f {:trigger l.files[f]} :: d.lfdNfiles <= f < |l.files| ==> l.files[f].content == [])
            && (forall f {:trigger s.dir.lfdFiles[f]} :: 0 <= f < d.lfdNfiles ==> d.lfdFiles[f] == s.dir.lfdFiles[f])
  {
    hide FileRep, IndexOwnership, DataOwnership, GetIb, Tight, DataSynced;
    var d := s.disk[0].dir;
    var l' := Trimmed(l, d.lfdNfiles);
    forall f | 0 <= f < |l.files| ensures d.lfdNfiles <= f ==> l.files[f].content == [] && l.files[f].chain == [] && l.files[f].dblks == [] {
      assert FileOk(s, l, f) && Settled(s, l, f);
      if d.lfdNfiles <= f {
        EntrySize(s, l, f);
        NoBlocks(l.files[f]);
      }
    }
    TrimmedOwnership(l, |s.disk|, d.lfdNfiles);
    var s' := State(s.disk, d, false, []);
    forall g | 0 <= g < |l'.files| ensures FileOk(s', l', g) && Settled(s', l', g) {
      assert FileOk(s, l, g) && Settled(s, l, g);
      assert l.opener[g] == -1;
    }
    SameFreeIndex(s.disk, l, l', d.lfdIfree);
    SameFreeData(s.disk, l, l', d.lfdDfree);
    forall f, g | 0 <= f < g < d.lfdNfiles ensures d.lfdFiles[f].ldName != d.lfdFiles[g].ldName {
      assert s.dir.lfdFiles[f].ldName != s.dir.lfdFiles[g].ldName;
    }
  }

  lemma EntrySize(s: State, l: Layout, f: nat)
    requires Shape(s, l) && f < |l.files| && FileOk(s, l, f)
    ensures s.dir.lfdFiles[f].ldSize == |l.files[f].content|
  {
  }

  /** The layout lfscreate leaves: everything free, in order. */
  ghost function BlankLayout(ibs: nat, n: nat): Layout
    requires ibs < n
  {
    Layout(ibs,
           seq(IB_PER_SECTOR * ibs, k => k),
           seq(n - ibs - 1, k => ibs + 1 + k),
           [],
           seq(IB_PER_SECTOR * ibs, b requires 0 <= b < IB_PER_SECTOR * ibs => Slot(FREE, IB_PER_SECTOR * ibs - 1 - b)),
           seq(n, b requires 0 <= b < n => if b <= ibs then Slot(FREE, 0) else Slot(FREE, n - 1 - b)),
           [])
  }

  lemma BlankOwnership(ibs: nat, n: nat)
    requires ibs + 1 < n
    ensures IndexOwnership(BlankLayout(ibs, n)) && DataOwnership(BlankLayout(ibs, n), n)
  {
  }

  lemma BlankImage(disk: seq<Sector>, ibs: nat, dir: Directory)
    requires Formatted(disk, ibs) && ibs + 1 < |disk| && disk[0] == DirSector(dir)
    requires dir.lfdIfree == 0 && dir.lfdDfree == ibs + 1 && dir.lfdNfiles == 0 && |dir.lfdFiles| == LF_NUM_DIR_ENT
    requires forall b: nat {:trigger GetIb(disk, b)} :: IsIb(b, ibs) ==>
               GetIb(disk, b).ibNext == (if b + 1 < IB_PER_SECTOR * ibs then b + 1 else LF_INULL)
    requires forall d {:trigger disk[d]} :: ibs < d < |disk| ==>
               NextFree(disk[d]) == (if d + 1 < |disk| then d + 1 else LF_DNULL)
    ensures Image(disk, BlankLayout(ibs, |disk|))
  {
    hide GetIb, NextFree, IndexOwnership, DataOwnership;
    var l := BlankLayout(ibs, |disk|);
    BlankOwnership(ibs, |disk|);
    forall k | 0 <= k < |l.freeI|
      ensures IsIb(l.freeI[k], ibs) && GetIb(disk, l.freeI[k]).ibNext == Link(l.freeI, k)
    {
      assert IsIb(k, ibs);
    }
  }

  // ------------------------------------------------------------ ownership

  /** Every number from lo below hi occurs in exactly one of the lists, at one place. */
  ghost predicate Partition(lists: seq<seq<int>>, lo: int, hi: int) {
    && (forall i, k {:trigger lists[i][k]} :: 0 <= i < |lists| && 0 <= k < |lists[i]| ==> lo <= lists[i][k] < hi)
    && (forall i, k, j, n {:trigger lists[i][k], lists[j][n]} ::
          && 0 <= i < |lists| && 0 <= k < |lists[i]| && 0 <= j < |lists| && 0 <= n < |lists[j]|
          && lists[i][k] == lists[j][n]
          ==> i == j && k == n)
    && (forall b :: lo <= b < hi ==> Occurs(lists, b))
  }

  ghost predicate Occurs(lists: seq<seq<int>>, b: int) {
    exists i, k {:trigger lists[i][k]} :: 0 <= i < |lists| && 0 <= k < |lists[i]| && lists[i][k] == b
  }

  /** The free index list and the index chains of all files. */
  ghost function IndexLists(l: Layout): seq<seq<int>> {
    [l.freeI] + seq(|l.files|, f requires 0 <= f < |l.files| => l.files[f].chain)
  }

  ghost function DataLists(l: Layout): seq<seq<int>> {
    [l.freeD] + seq(|l.files|, f requires 0 <= f < |l.files| => l.files[f].dblks)
  }

  /** In every state that satisfies the invariant, the free index list and the chains of all
      files partition the index blocks that lfscreate laid out; so do the free data list and
      the data blocks of all files. The links on the disk form exactly those free lists. */
  lemma BlockOwnership(s: State, l: Layout)
    requires Inv(s, l)
    ensures Partition(IndexLists(l), 0, IB_PER_SECTOR * l.ibs)
    ensures Partition(DataLists(l), l.ibs + 1, |s.disk|)
    ensures forall k {:trigger l.freeI[k]} :: 0 <= k < |l.freeI| ==> ChainAt(s.disk, s.dir.lfdIfree, k) == l.freeI[k]
    ensures ChainAt(s.disk, s.dir.lfdIfree, |l.freeI|) == LF_INULL
    ensures forall k {:trigger l.freeD[k]} :: 0 <= k < |l.freeD| ==> FreeDataChainAt(s.disk, s.dir.lfdDfree, k) == l.freeD[k]
    ensures FreeDataChainAt(s.disk, s.dir.lfdDfree, |l.freeD|) == LF_DNULL
  {
    hide Inv, InvBut, Partition, ChainAt, FreeDataChainAt, GetIb, IndexOwnership, DataOwnership, FreeIndexList, FreeDataList;
    OwnershipOf(s, l);
    IndexPartition(l);
    DataPartition(l, |s.disk|);
    forall k | 0 <= k < |l.freeI| ensures ChainAt(s.disk, s.dir.lfdIfree, k) == l.freeI[k] {
      FreeChainAt(s.disk, l, s.dir.lfdIfree, k);
    }
    FreeChainAt(s.disk, l, s.dir.lfdIfree, |l.freeI|);
    forall k | 0 <= k < |l.freeD| ensures FreeDataChainAt(s.disk, s.dir.lfdDfree, k) == l.freeD[k] {
      FreeDataIs(s.disk, l, s.dir.lfdDfree, k);
    }
    FreeDataIs(s.disk, l, s.dir.lfdDfree, |l.freeD|);
  }

  lemma OwnershipOf(s: State, l: Layout)
    requires Inv(s, l)
    ensures Formatted(s.disk, l.ibs) && IndexOwnership(l) && DataOwnership(l, |s.disk|)
    ensures FreeIndexList(s.disk, l, s.dir.lfdIfree) && FreeDataList(s.disk, l, s.dir.lfdDfree)
  {
  }

  lemma {:induction false} FreeDataIs(disk: seq<Sector>, l: Layout, head: int, k: nat)
    requires Formatted(disk, l.ibs) && FreeDataList(disk, l, head) && k <= |l.freeD|
    ensures FreeDataChainAt(disk, head, k) == if k < |l.freeD| then l.freeD[k] else LF_DNULL
  {
    hide NextFree;
    if k > 0 {
      FreeDataIs(disk, l, head, k - 1);
      FreeDataAt(disk, l, head, k - 1);
    }
  }

  lemma {:induction false} FreeChainAt(disk: seq<Sector>, l: Layout, head: int, k: nat)
    requires Formatted(disk, l.ibs) && FreeIndexList(disk, l, head) && k <= |l.freeI|
    ensures ChainAt(disk, head, k) == if k < |l.freeI| then l.freeI[k] else LF_INULL
  {
    hide GetIb;
    if k > 0 {
      FreeChainAt(disk, l, head, k - 1);
      FreeIndexAt(disk, l, head, k - 1);
      IbSectorInArea(l.freeI[k - 1], l.ibs);
    }
  }

  lemma IndexPartition(l: Layout)
    requires IndexOwnership(l)
    ensures Partition(IndexLists(l), 0, IB_PER_SECTOR * l.ibs)
  {
    var lists := IndexLists(l);
    forall i, k | 0 <= i < |lists| && 0 <= k < |lists[i]|
      ensures 0 <= lists[i][k] < |l.iown|
      ensures l.iown[lists[i][k]] == if i == 0 then Slot(FREE, |l.freeI| - 1 - k) else Slot(i - 1, k)
    {
      if i > 0 { assert FileOwns(l.iown, l.files[i - 1].chain, i - 1); }
    }
    forall b | 0 <= b < |l.iown| ensures Occurs(lists, b) {
      var slot := l.iown[b];
      assert Placed(slot, b, l.freeI, ChainOf(l, slot.file));
      if slot.file == FREE {
        assert lists[0][|l.freeI| - 1 - slot.idx] == b;
      } else {
        assert lists[slot.file + 1][slot.idx] == b;
      }
    }
  }

  lemma DataPartition(l: Layout, size: nat)
    requires DataOwnership(l, size)
    ensures Partition(DataLists(l), l.ibs + 1, size)
  {
    var lists := DataLists(l);
    forall i, k | 0 <= i < |lists| && 0 <= k < |lists[i]|
      ensures l.ibs < lists[i][k] < size
      ensures l.down[lists[i][k]] == if i == 0 then Slot(FREE, |l.freeD| - 1 - k) else Slot(i - 1, k)
    {
      if i > 0 { assert FileOwns(l.down, l.files[i - 1].dblks, i - 1); }
    }
    forall b | l.ibs + 1 <= b < size ensures Occurs(lists, b) {
      var slot := l.down[b];
      assert Placed(slot, b, l.freeD, BlocksOf(l, slot.file));
      if slot.file == FREE {
        assert lists[0][|l.freeD| - 1 - slot.idx] == b;
      } else {
        assert lists[slot.file + 1][slot.idx] == b;
      }
    }
  }
}
