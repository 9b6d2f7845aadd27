/** The elementary steps of lfsetup, lfflush, lflputc and lflgetc on the whole state:
    each keeps everything the invariant says about the other files and about the free
    lists, and keeps file f represented. */
module LfsSteps {
  import opened Bytes
  import opened LfsDisk
  import opened LfsState
  import opened LfsFile
  import opened LfsSystem
  import opened Counting

  /** File f is open in control block m and represented; it need not be settled. */
  ghost predicate Working(s: State, l: Layout, m: nat, f: nat) {
    Opened(s, l, m, f) && InvBut(s, l, f) && FileOk(s, l, f)
  }

  /** As Working, with a clean and unpositioned data buffer. */
  ghost predicate Idle(s: State, l: Layout, m: nat, f: nat) {
    && Working(s, l, m, f)
    && DataSynced(s.disk, l.ibs, s.lfltab[m])
    && !s.lfltab[m].lfdbdirty && s.lfltab[m].lfbyte == LF_BLKSIZ
  }

  lemma Enter(s: State, l: Layout, m: nat)
    requires Inv(s, l) && m < |s.lfltab| && s.lfltab[m].lfused
    ensures var f := s.lfltab[m].lfdirptr; Working(s, l, m, f) && Tight(l.files[f])
    ensures DirSynced(s)
    ensures DataSynced(s.disk, l.ibs, s.lfltab[m])
  {
    hide IndexOwnership, DataOwnership, FreeIndexList, FreeDataList, NamesDistinct, FileRep, DataSynced, DirAgrees;
    var f := s.lfltab[m].lfdirptr;
    assert FileOk(s, l, f) && Settled(s, l, f);
    assert CacheOf(s.lfltab, l, f) == s.lfltab[m];
    forall g | 0 <= g < |l.files| && g != f ensures FileOk(s, l, g) && Settled(s, l, g) {
      assert FileOk(s, l, g);
    }
  }

  lemma WorkingFrame(s: State, l: Layout, m: nat, f: nat)
    requires Working(s, l, m, f)
    ensures Opened(s, l, m, f) && Formatted(s.disk, l.ibs) && f < |s.dir.lfdFiles|
    ensures |s.disk| > 0 && s.disk[0].DirSector? && s.disk[0].dir.ids == s.dir.ids
  {
  }

  lemma Leave(s: State, l: Layout, m: nat, f: nat)
    requires Working(s, l, m, f) && Tight(l.files[f]) && DataSynced(s.disk, l.ibs, s.lfltab[m]) && DirSynced(s)
    ensures Inv(s, l)
  {
    hide IndexOwnership, DataOwnership, FreeIndexList, FreeDataList, NamesDistinct, FileRep, DataSynced, Tight, DirAgrees;
    assert CacheOf(s.lfltab, l, f) == s.lfltab[m];
    forall g | 0 <= g < |l.files|
      ensures FileOk(s, l, g) && Settled(s, l, g)
    {
      if g != f { assert FileOk(s, l, g); }
    }
  }

  /** A step that changes nothing but the contents of control block m. */
  lemma CacheStep(s: State, l: Layout, m: nat, f: nat, c': Lflcblk, s': State)
    requires Working(s, l, m, f)
    requires c'.lfused && c'.lfdirptr == f && c'.lfname == s.lfltab[m].lfname
    requires s' == s.(lfltab := s.lfltab[m := c'])
    requires FileRep(s.disk, l.ibs, c', s.dir.lfdFiles[f], l.files[f])
    ensures Working(s', l, m, f)
  {
    hide FileRep, Settled, IndexOwnership, DataOwnership, GetIb;
    assert l.files == l.files[f := l.files[f]];
    assert Head(l.freeI) == s.dir.lfdIfree && Head(l.freeD) == s.dir.lfdDfree;
    OwnershipSizes(l, |s.disk|);
    SystemStep(s, l, s', l, m, f);
  }

  lemma OwnershipSizes(l: Layout, n: nat)
    requires IndexOwnership(l) && DataOwnership(l, n)
    ensures |l.iown| == IB_PER_SECTOR * l.ibs && |l.down| == n
  {
  }

  lemma DirStep(s: State, l: Layout, m: nat, f: nat, s': State)
    requires Working(s, l, m, f)
    requires s' == s.(disk := s.disk[LF_AREA_DIR := DirSector(s.dir)], dirdirty := false)
    ensures Working(s', l, m, f) && DirSynced(s')
    ensures DataSynced(s.disk, l.ibs, s.lfltab[m]) ==> DataSynced(s'.disk, l.ibs, s'.lfltab[m])
  {
    hide IndexMatches, DataMatches, CacheOk, Settled, IndexOwnership, DataOwnership;
    OwnershipSizes(l, |s.disk|);
    forall b: nat | IsIb(b, l.ibs) ensures GetIb(s'.disk, b) == GetIb(s.disk, b) { IbSectorInArea(b, l.ibs); }
    FileRepFrame(s.disk, s'.disk, l.ibs, s.lfltab[m], s.dir.lfdFiles[f], l.files[f]);
    assert l.files == l.files[f := l.files[f]];
    SystemStep(s, l, s', l, m, f);
  }

  /** What the cached block numbers of an open file refer to. */
  lemma CachedBlocks(s: State, l: Layout, m: nat, f: nat)
    requires Working(s, l, m, f)
    ensures s.lfltab[m].lfdnum != LF_DNULL ==>
              l.ibs < s.lfltab[m].lfdnum < |s.disk| && l.down[s.lfltab[m].lfdnum].file == f
    ensures s.lfltab[m].lfinum != LF_INULL ==>
              IsIb(s.lfltab[m].lfinum, l.ibs) && l.iown[s.lfltab[m].lfinum].file == f
    ensures s.lfltab[m].lfdbdirty ==> s.lfltab[m].lfdnum != LF_DNULL
    ensures s.lfltab[m].lfibdirty ==> s.lfltab[m].lfinum != LF_INULL
  {
    hide IndexMatches, DataMatches, Settled, FreeIndexList, FreeDataList, OpenTable, GetIb;
    var c, p := s.lfltab[m], l.files[f];
    if c.lfdnum != LF_DNULL {
      var j :| 0 <= j < |p.dblks| && p.dblks[j] == c.lfdnum;
      assert l.down[c.lfdnum] == Slot(f, j);
    }
    if c.lfinum != LF_INULL {
      var j :| 0 <= j < |p.chain| && p.chain[j] == c.lfinum;
      assert l.iown[c.lfinum] == Slot(f, j);
    }
  }

  lemma DataWriteKeeps(disk: seq<Sector>, l: Layout, f: nat, d: int, v: dblock)
    requires Formatted(disk, l.ibs) && |l.iown| == IB_PER_SECTOR * l.ibs && |l.down| == |disk|
    requires l.ibs < d < |disk| && l.down[d].file == f
    ensures KeepsOthers(disk, disk[d := RawSector(v)], l, f)
  {
    var disk' := disk[d := RawSector(v)];
    forall b: nat | IsIb(b, l.ibs) ensures GetIb(disk', b) == GetIb(disk, b) { IbSectorInArea(b, l.ibs); }
  }

  lemma IndexWriteKeeps(disk: seq<Sector>, l: Layout, f: nat, ib: int, v: iblock)
    requires Formatted(disk, l.ibs) && |l.iown| == IB_PER_SECTOR * l.ibs && |l.down| == |disk|
    requires IsIb(ib, l.ibs) && l.iown[ib].file == f
    ensures KeepsOthers(disk, PutIb(disk, ib, v), l, f)
  {
    PutIbFrame(disk, l.ibs, ib, v);
  }

  lemma DataStep(s: State, l: Layout, m: nat, f: nat, s': State)
    requires Working(s, l, m, f) && s.lfltab[m].lfdbdirty
    requires l.ibs < s.lfltab[m].lfdnum < |s.disk|
    requires s' == s.(disk := s.disk[s.lfltab[m].lfdnum := RawSector(s.lfltab[m].lfdblock)],
                      lfltab := s.lfltab[m := s.lfltab[m].(lfdbdirty := false)])
    ensures Working(s', l, m, f) && DataSynced(s'.disk, l.ibs, s'.lfltab[m])
    ensures DirSynced(s) ==> DirSynced(s')
  {
    hide FileRep, Settled, IndexOwnership, DataOwnership, GetIb, KeepsOthers, DirAgrees;
    OwnershipSizes(l, |s.disk|);
    CachedBlocks(s, l, m, f);
    DataWriteKeeps(s.disk, l, f, s.lfltab[m].lfdnum, s.lfltab[m].lfdblock);
    WriteData(s.disk, l.ibs, s.lfltab[m], s.dir.lfdFiles[f], l.files[f], s'.disk, s'.lfltab[m]);
    assert l.files == l.files[f := l.files[f]];
    SystemStep(s, l, s', l, m, f);
  }

  lemma IndexStep(s: State, l: Layout, m: nat, f: nat, s': State)
    requires Working(s, l, m, f) && s.lfltab[m].lfibdirty
    requires IsIb(s.lfltab[m].lfinum, l.ibs)
    requires s' == s.(disk := PutIb(s.disk, s.lfltab[m].lfinum, s.lfltab[m].lfiblock),
                      lfltab := s.lfltab[m := s.lfltab[m].(lfibdirty := false)])
    ensures Working(s', l, m, f)
    ensures DataSynced(s.disk, l.ibs, s.lfltab[m]) ==> DataSynced(s'.disk, l.ibs, s'.lfltab[m])
    ensures DirSynced(s) ==> DirSynced(s')
    ensures s'.disk[LF_AREA_DIR] == s.disk[LF_AREA_DIR]
  {
    hide FileRep, Settled, IndexOwnership, DataOwnership, GetIb, KeepsOthers, DirAgrees;
    OwnershipSizes(l, |s.disk|);
    CachedBlocks(s, l, m, f);
    PutIbFrame(s.disk, l.ibs, s.lfltab[m].lfinum, s.lfltab[m].lfiblock);
    IndexWriteKeeps(s.disk, l, f, s.lfltab[m].lfinum, s.lfltab[m].lfiblock);
    WriteIndex(s.disk, l.ibs, s.lfltab[m], s.dir.lfdFiles[f], l.files[f], s'.disk, s'.lfltab[m]);
    assert l.files == l.files[f := l.files[f]];
    SystemStep(s, l, s', l, m, f);
  }

  // ------------------------------------------------------------ loading

  lemma LoadIndexStep(s: State, l: Layout, m: nat, f: nat, k: nat, s': State)
    requires Idle(s, l, m, f) && !s.lfltab[m].lfibdirty && k < |l.files[f].chain|
    requires IsIb(l.files[f].chain[k], l.ibs)
    requires s' == s.(lfltab := s.lfltab[m := s.lfltab[m].(
                        lfinum := l.files[f].chain[k], lfiblock := GetIb(s.disk, l.files[f].chain[k]))])
    ensures Idle(s', l, m, f) && IbMatches(s'.lfltab[m].lfiblock, l.files[f], k)
  {
    hide FileRep, Settled, IndexOwnership, DataOwnership, GetIb, IbMatches;
    LoadIndex(s.disk, l.ibs, s.lfltab[m], s.dir.lfdFiles[f], l.files[f], k, s'.lfltab[m]);
    CacheStep(s, l, m, f, s'.lfltab[m], s');
  }

  lemma DropDataStep(s: State, l: Layout, m: nat, f: nat, s': State)
    requires Idle(s, l, m, f)
    requires s' == s.(lfltab := s.lfltab[m := s.lfltab[m].(lfdnum := LF_DNULL)])
    ensures Idle(s', l, m, f)
  {
    hide FileRep, Settled, IndexOwnership, DataOwnership, GetIb;
    DropData(s.disk, l.ibs, s.lfltab[m], s.dir.lfdFiles[f], l.files[f], s'.lfltab[m]);
    CacheStep(s, l, m, f, s'.lfltab[m], s');
  }

  lemma LoadDataStep(s: State, l: Layout, m: nat, f: nat, b: nat, s': State)
    requires Idle(s, l, m, f) && b < |l.files[f].dblks|
    requires l.ibs < l.files[f].dblks[b] < |s.disk| && IsRaw(s.disk[l.files[f].dblks[b]])
    requires s' == s.(lfltab := s.lfltab[m := s.lfltab[m].(
                        lfdnum := l.files[f].dblks[b], lfdblock := s.disk[l.files[f].dblks[b]].data)])
    ensures Idle(s', l, m, f)
    ensures DirSynced(s) ==> DirSynced(s')
  {
    hide DirAgrees, FileRep, Settled, IndexOwnership, DataOwnership, GetIb;
    LoadData(s.disk, l.ibs, s.lfltab[m], s.dir.lfdFiles[f], l.files[f], b, s'.lfltab[m]);
    CacheStep(s, l, m, f, s'.lfltab[m], s');
  }

  // ------------------------------------------------------------ extending

  lemma DirWriteKeeps(disk: seq<Sector>, l: Layout, f: nat, d: Directory)
    requires Formatted(disk, l.ibs) && |l.iown| == IB_PER_SECTOR * l.ibs && |l.down| == |disk|
    ensures KeepsOthers(disk, disk[LF_AREA_DIR := DirSector(d)], l, f)
    ensures forall b: nat {:trigger GetIb(disk[LF_AREA_DIR := DirSector(d)], b)} :: IsIb(b, l.ibs) ==>
              GetIb(disk[LF_AREA_DIR := DirSector(d)], b) == GetIb(disk, b)
  {
    var disk' := disk[LF_AREA_DIR := DirSector(d)];
    forall b: nat | IsIb(b, l.ibs) ensures GetIb(disk', b) == GetIb(disk, b) { IbSectorInArea(b, l.ibs); }
  }

  /** The directory after lfiballoc. */
  ghost function AfterIbAlloc(s: State, l: Layout): Directory
    requires Formatted(s.disk, l.ibs) && |l.freeI| > 0 && IsIb(l.freeI[0], l.ibs)
  {
    s.dir.(lfdIfree := GetIb(s.disk, l.freeI[0]).ibNext)
  }

  lemma FreeIndexHead(s: State, l: Layout, m: nat, f: nat)
    requires Working(s, l, m, f) && |l.freeI| > 0
    ensures s.dir.lfdIfree == l.freeI[0] && IsIb(l.freeI[0], l.ibs)
    ensures GetIb(s.disk, l.freeI[0]).ibNext == Head(l.freeI[1..])
    ensures 0 <= l.freeI[0] < |l.iown|
    ensures |l.iown| == IB_PER_SECTOR * l.ibs && |l.down| == |s.disk|
  {
    hide FileRep, Settled, DataOwnership, GetIb;
    OwnershipSizes(l, |s.disk|);
    FreeIndexAt(s.disk, l, s.dir.lfdIfree, 0);
  }

  lemma FirstIndexStep(s: State, l: Layout, m: nat, f: nat, s': State)
    requires Idle(s, l, m, f) && |l.files[f].chain| == 0
    requires |l.freeI| > 0 && IsIb(l.freeI[0], l.ibs) && 0 <= l.freeI[0] < |l.iown|
    requires s' == State(s.disk[LF_AREA_DIR := DirSector(AfterIbAlloc(s, l))],
                         AfterIbAlloc(s, l).(lfdFiles := s.dir.lfdFiles[f := s.dir.lfdFiles[f].(ldIlist := l.freeI[0])]),
                         false,
                         s.lfltab[m := s.lfltab[m].(lfinum := l.freeI[0], lfiblock := ClearedIb(0), lfibdirty := true)])
    ensures Idle(s', TakeIndex(l, f), m, f)
    ensures IbMatches(s'.lfltab[m].lfiblock, TakeIndex(l, f).files[f], 0)
  {
    hide FileRep, Settled, IndexOwnership, DataOwnership, GetIb, KeepsOthers;
    var l', p := TakeIndex(l, f), l.files[f];
    OwnershipSizes(l, |s.disk|);
    FreeIndexHead(s, l, m, f);
    TakeIndexOwnership(l, |s.disk|, f);
    DirWriteKeeps(s.disk, l, f, AfterIbAlloc(s, l));
    FileBasics(s.disk, l.ibs, s.lfltab[m], s.dir.lfdFiles[f], p);
    assert p.chain + [l.freeI[0]] == [l.freeI[0]];
    FirstIndex(s.disk, l.ibs, s.lfltab[m], s.dir.lfdFiles[f], p, l.freeI[0],
               s'.disk, s'.lfltab[m], s'.dir.lfdFiles[f], l'.files[f]);
    SystemStep(s, l, s', l', m, f);
  }

  /** Size facts of a represented file. */
  lemma FileBasics(disk: seq<Sector>, ibs: nat, c: Lflcblk, e: DirEntry, p: FileParts)
    requires FileRep(disk, ibs, c, e, p)
    ensures InAreas(disk, ibs, p)
    ensures e.ldSize == |p.content| <= LF_BLKSIZ * |p.dblks|
    ensures |p.dblks| <= LF_IBLEN * |p.chain|
    ensures |p.chain| > 0 ==> LF_IBLEN * (|p.chain| - 1) <= |p.dblks|
    ensures e.ldIlist == Head(p.chain)
  {
    hide IndexMatches, DataMatches, CacheOk;
  }

  lemma NextIndexStep(s: State, l: Layout, m: nat, f: nat, s': State)
    requires Idle(s, l, m, f) && !s.lfltab[m].lfibdirty
    requires |l.files[f].chain| > 0 && |l.files[f].dblks| == LF_IBLEN * |l.files[f].chain|
    requires LF_IDATA * |l.files[f].chain| < WORD_SPAN
    requires s.lfltab[m].lfinum == l.files[f].chain[|l.files[f].chain| - 1]
    requires IbMatches(s.lfltab[m].lfiblock, l.files[f], |l.files[f].chain| - 1)
    requires |l.freeI| > 0 && IsIb(l.freeI[0], l.ibs) && 0 <= l.freeI[0] < |l.iown| && l.freeI[0] < 0x8000_0000
    requires IsIb(s.lfltab[m].lfinum, l.ibs)
    requires s' == State(PutIb(s.disk[LF_AREA_DIR := DirSector(AfterIbAlloc(s, l))], s.lfltab[m].lfinum,
                               s.lfltab[m].lfiblock.(ibNext := l.freeI[0])),
                         AfterIbAlloc(s, l),
                         false,
                         s.lfltab[m := s.lfltab[m].(
                           lfinum := l.freeI[0], lfiblock := ClearedIb(LF_IDATA * |l.files[f].chain|),
                           lfibdirty := true, lfdnum := LF_DNULL)])
    ensures Idle(s', TakeIndex(l, f), m, f)
    ensures IbMatches(s'.lfltab[m].lfiblock, TakeIndex(l, f).files[f], |l.files[f].chain|)
  {
    hide FileRep, Settled, IndexOwnership, DataOwnership, GetIb, IbMatches;
    var l', p, c := TakeIndex(l, f), l.files[f], s.lfltab[m];
    var disk1 := s.disk[LF_AREA_DIR := DirSector(AfterIbAlloc(s, l))];
    OwnershipSizes(l, |s.disk|);
    FreeIndexHead(s, l, m, f);
    TakeIndexOwnership(l, |s.disk|, f);
    DistinctParts(l, |s.disk|, f);
    CachedBlocks(s, l, m, f);
    DirWriteKeeps(s.disk, l, f, AfterIbAlloc(s, l));
    FileBasics(s.disk, l.ibs, c, s.dir.lfdFiles[f], p);
    PutIbFrame(disk1, l.ibs, c.lfinum, c.lfiblock.(ibNext := l.freeI[0]));
    IndexWriteKeeps(disk1, l, f, c.lfinum, c.lfiblock.(ibNext := l.freeI[0]));
    NextIndex(s.disk, l.ibs, c, s.dir.lfdFiles[f], p, l.freeI[0], s'.disk, s'.lfltab[m], l'.files[f]);
    assert s.dir.lfdFiles == s.dir.lfdFiles[f := s.dir.lfdFiles[f]];
    SystemStep(s, l, s', l', m, f);
  }

  /** The directory after lfdballoc. */
  ghost function AfterDbAlloc(s: State, l: Layout): Directory
    requires |l.freeD| > 0 && 0 <= l.freeD[0] < |s.disk| && IsRaw(s.disk[l.freeD[0]])
  {
    s.dir.(lfdDfree := NextFree(s.disk[l.freeD[0]]))
  }

  lemma FreeDataHead(s: State, l: Layout, m: nat, f: nat)
    requires Working(s, l, m, f) && |l.freeD| > 0
    ensures s.dir.lfdDfree == l.freeD[0] && l.ibs < l.freeD[0] < |s.disk| && IsRaw(s.disk[l.freeD[0]])
    ensures NextFree(s.disk[l.freeD[0]]) == Head(l.freeD[1..])
    ensures 0 <= l.freeD[0] < |l.down|
    ensures |l.iown| == IB_PER_SECTOR * l.ibs && |l.down| == |s.disk|
  {
    hide FileRep, Settled, IndexOwnership, GetIb;
    OwnershipSizes(l, |s.disk|);
    FreeDataAt(s.disk, l, s.dir.lfdDfree, 0);
  }

  lemma AllocDataStep(s: State, l: Layout, m: nat, f: nat, k: nat, j: nat, fill: dblock, s': State)
    requires Idle(s, l, m, f)
    requires |l.files[f].chain| == k + 1 && j < LF_IBLEN && |l.files[f].dblks| == LF_IBLEN * k + j
    requires s.lfltab[m].lfinum == l.files[f].chain[k]
    requires |l.freeD| > 0 && 0 <= l.freeD[0] < |s.disk| && l.freeD[0] < |l.down| && l.freeD[0] < 0x8000_0000
    requires IsRaw(s.disk[l.freeD[0]])
    requires s' == State(s.disk[LF_AREA_DIR := DirSector(AfterDbAlloc(s, l))],
                         AfterDbAlloc(s, l),
                         false,
                         s.lfltab[m := s.lfltab[m].(
                           lfiblock := s.lfltab[m].lfiblock.(ibDba := s.lfltab[m].lfiblock.ibDba[j := l.freeD[0]]),
                           lfibdirty := true, lfdnum := l.freeD[0], lfdblock := fill)])
    ensures Working(s', TakeData(l, f), m, f) && DirSynced(s')
  {
    hide FileRep, Settled, IndexOwnership, DataOwnership, GetIb, IbMatches;
    var l', p := TakeData(l, f), l.files[f];
    OwnershipSizes(l, |s.disk|);
    FreeDataHead(s, l, m, f);
    TakeDataOwnership(l, |s.disk|, f);
    DistinctParts(l, |s.disk|, f);
    DirWriteKeeps(s.disk, l, f, AfterDbAlloc(s, l));
    FileBasics(s.disk, l.ibs, s.lfltab[m], s.dir.lfdFiles[f], p);
    AllocData(s.disk, l.ibs, s.lfltab[m], s.dir.lfdFiles[f], p, k, j, l.freeD[0], fill, s'.disk, s'.lfltab[m], l'.files[f]);
    assert s.dir.lfdFiles == s.dir.lfdFiles[f := s.dir.lfdFiles[f]];
    SystemStep(s, l, s', l', m, f);
  }

  // ------------------------------------------------------------ bytes

  lemma TakeByteStep(s: State, l: Layout, m: nat, f: nat, s': State)
    requires Working(s, l, m, f) && s.lfltab[m].lfbyte < LF_BLKSIZ && s.lfltab[m].lfpos < |l.files[f].content|
    requires s' == s.(lfltab := s.lfltab[m := s.lfltab[m].(lfpos := s.lfltab[m].lfpos + 1, lfbyte := s.lfltab[m].lfbyte + 1)])
    ensures s.lfltab[m].lfdblock[s.lfltab[m].lfbyte] == l.files[f].content[s.lfltab[m].lfpos]
    ensures Working(s', l, m, f)
    ensures DataSynced(s.disk, l.ibs, s.lfltab[m]) ==> DataSynced(s'.disk, l.ibs, s'.lfltab[m])
  {
    hide FileRep, Settled, IndexOwnership, DataOwnership, GetIb;
    TakeByte(s.disk, l.ibs, s.lfltab[m], s.dir.lfdFiles[f], l.files[f], s'.lfltab[m]);
    CacheStep(s, l, m, f, s'.lfltab[m], s');
  }

  /** The layout after one byte of file f has been written. */
  ghost function WrittenLayout(l: Layout, f: nat, pos: nat, ch: byte): Layout
    requires f < |l.files| && pos <= |l.files[f].content|
  {
    l.(files := l.files[f := l.files[f].(content := Written(l.files[f].content, pos, ch))])
  }

  lemma WrittenOwnership(l: Layout, n: nat, f: nat, pos: nat, ch: byte)
    requires IndexOwnership(l) && DataOwnership(l, n) && f < |l.files| && pos <= |l.files[f].content|
    ensures IndexOwnership(WrittenLayout(l, f, pos, ch)) && DataOwnership(WrittenLayout(l, f, pos, ch), n)
  {
    hide IndexOwnership, DataOwnership;
    SameIndexOwnership(l, WrittenLayout(l, f, pos, ch));
    SameDataOwnership(l, WrittenLayout(l, f, pos, ch), n);
  }

  lemma PlaceByteStep(s: State, l: Layout, m: nat, f: nat, ch: byte, e': DirEntry, s': State)
    requires Working(s, l, m, f) && s.lfltab[m].lfbyte < LF_BLKSIZ && s.lfltab[m].lfpos <= |l.files[f].content|
    requires e' == s.dir.lfdFiles[f].(ldSize := |Written(l.files[f].content, s.lfltab[m].lfpos, ch)|)
    requires s' == State(s.disk, s.dir.(lfdFiles := s.dir.lfdFiles[f := e']), s'.dirdirty,
                         s.lfltab[m := s.lfltab[m].(
                           lfpos := s.lfltab[m].lfpos + 1, lfbyte := s.lfltab[m].lfbyte + 1, lfdbdirty := true,
                           lfdblock := s.lfltab[m].lfdblock[s.lfltab[m].lfbyte := ch])])
    ensures Working(s', WrittenLayout(l, f, s.lfltab[m].lfpos, ch), m, f)
    ensures DataSynced(s'.disk, l.ibs, s'.lfltab[m])
  {
    hide FileRep, Settled, IndexOwnership, DataOwnership, GetIb, KeepsOthers;
    var l' := WrittenLayout(l, f, s.lfltab[m].lfpos, ch);
    OwnershipSizes(l, |s.disk|);
    DistinctParts(l, |s.disk|, f);
    WrittenOwnership(l, |s.disk|, f, s.lfltab[m].lfpos, ch);
    PlaceByte(s.disk, l.ibs, s.lfltab[m], s.dir.lfdFiles[f], l.files[f], ch, s'.lfltab[m], e', l'.files[f]);
    NoWriteKeeps(s.disk, l, f);
    SystemStep(s, l, s', l', m, f);
  }

  lemma NoWriteKeeps(disk: seq<Sector>, l: Layout, f: nat)
    requires Formatted(disk, l.ibs) && |l.iown| == IB_PER_SECTOR * l.ibs && |l.down| == |disk|
    ensures KeepsOthers(disk, disk, l, f)
  {
  }

  /** A file position inside an open block, and the block count it implies. */
  lemma CursorBasics(s: State, l: Layout, m: nat, f: nat)
    requires Working(s, l, m, f)
    ensures s.lfltab[m].lfbyte <= LF_BLKSIZ
    ensures s.lfltab[m].lfbyte < LF_BLKSIZ ==> s.lfltab[m].lfpos < LF_BLKSIZ * |l.files[f].dblks|
    ensures s.lfltab[m].lfbyte < LF_BLKSIZ ==> s.lfltab[m].lfdnum != LF_DNULL
    ensures s.dir.lfdFiles[f].ldSize == |l.files[f].content| <= LF_BLKSIZ * |l.files[f].dblks|
    ensures f < |s.dir.lfdFiles|
  {
    hide IndexMatches, DataMatches, Settled, IndexOwnership, DataOwnership, GetIb, FreeIndexList, FreeDataList;
    CachedBlocks(s, l, m, f);
  }

  /** The last index block of an idle file has room for the block at `pos`, or there is none. */
  lemma ChainBounds(s: State, l: Layout, m: nat, f: nat)
    requires Working(s, l, m, f)
    ensures s.dir.lfdFiles[f].ldIlist == Head(l.files[f].chain)
    ensures |l.files[f].dblks| <= LF_IBLEN * |l.files[f].chain|
    ensures |l.files[f].chain| > 0 ==> LF_IBLEN * (|l.files[f].chain| - 1) <= |l.files[f].dblks|
    ensures forall k {:trigger l.files[f].chain[k]} :: 0 <= k < |l.files[f].chain| ==>
              IsIb(l.files[f].chain[k], l.ibs) && l.files[f].chain[k] < 0x8000_0000
    ensures forall k {:trigger l.files[f].dblks[k]} :: 0 <= k < |l.files[f].dblks| ==>
              l.ibs < l.files[f].dblks[k] < |s.disk| && IsRaw(s.disk[l.files[f].dblks[k]])
    ensures LF_BLKSIZ * |l.files[f].dblks| < WORD_SPAN
  {
    hide IndexMatches, DataMatches, CacheOk, Settled, IndexOwnership, DataOwnership, FreeIndexList, FreeDataList, OpenTable, NamesDistinct;
    DistinctParts(l, |s.disk|, f);
    DistinctBound(l.files[f].dblks, |s.disk|);
  }
}
