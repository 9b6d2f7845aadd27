/** The local file system: its disk, its directory and its table of open files. */
module Lfs {
  import opened Common
  import opened Bytes
  import opened LfsDisk
  import opened LfsState
  import opened LfsFile
  import opened LfsSystem
  import opened LfsSteps
  import opened LfsTruncate
  import opened LfsPersist
  import opened LfsSpec

  /** The character '+' that lfdballoc fills new blocks with. */
  const DFILL: byte := 43

  function Filled(): dblock { seq(LF_BLKSIZ, _ => DFILL) }

  /** Whether the byte at `pos` of a file lies beyond its last index block. */
  ghost predicate NeedsIndex(p: FileParts, pos: nat) {
    |p.dblks| == LF_IBLEN * |p.chain| && pos == LF_BLKSIZ * |p.dblks|
  }

  /** The layout after file f has been given one more index block. */
  ghost function Chained(l: Layout, f: nat): Layout
    requires f < |l.files|
  {
    if |l.freeI| > 0 && 0 <= l.freeI[0] < |l.iown| then TakeIndex(l, f) else l
  }

  /** The layout once the index chain of file f reaches `pos`. */
  ghost function IndexLayout(l: Layout, f: nat, pos: nat): Layout
    requires f < |l.files|
  {
    if NeedsIndex(l.files[f], pos) then Chained(l, f) else l
  }

  /** Whether the byte at `pos` of a file lies beyond its last data block. */
  ghost predicate NeedsData(p: FileParts, pos: nat) {
    pos == LF_BLKSIZ * |p.dblks|
  }

  ghost function Blocked(l: Layout, f: nat): Layout
    requires f < |l.files|
  {
    if |l.freeD| > 0 && 0 <= l.freeD[0] < |l.down| then TakeData(l, f) else l
  }

  /** The layout once file f has a data block for the byte at `pos`. */
  ghost function GrownLayout(l: Layout, f: nat, pos: nat): Layout
    requires f < |l.files|
  {
    if NeedsData(l.files[f], pos) then Blocked(IndexLayout(l, f, pos), f) else l
  }

  /** File f and the free lists together hold blocks for a file of n bytes: the condition
      under which lfdballoc and lfiballoc do not panic. */
  ghost predicate HasRoom(l: Layout, f: nat, n: nat)
    requires f < |l.files|
  {
    && n <= LF_BLKSIZ * (|l.files[f].dblks| + |l.freeD|)
    && n <= LF_IDATA * (|l.files[f].chain| + |l.freeI|)
  }

  lemma IndexLayoutParts(l: Layout, f: nat, pos: nat)
    requires f < |l.files|
    ensures IndexLayout(l, f, pos).freeD == l.freeD && IndexLayout(l, f, pos).down == l.down
    ensures |IndexLayout(l, f, pos).files| == |l.files| && IndexLayout(l, f, pos).ibs == l.ibs
    ensures IndexLayout(l, f, pos).files[f].dblks == l.files[f].dblks
    ensures IndexLayout(l, f, pos).files[f].content == l.files[f].content
    ensures |IndexLayout(l, f, pos).files[f].chain| <= |l.files[f].chain| + 1
  {
  }

  /** The entry of the cached index block for the file position names the data block that
      the layout gives, or none if the file must grow. */
  lemma DataSlot(s: State, l: Layout, m: nat, f: nat, pos: nat)
    requires AtIndex(s, l, m, f, pos / LF_IDATA)
    requires pos <= LF_BLKSIZ * |l.files[f].dblks|
    ensures pos % LF_IDATA / LF_BLKSIZ < LF_IBLEN
    ensures var dnum := s.lfltab[m].lfiblock.ibDba[pos % LF_IDATA / LF_BLKSIZ];
            if NeedsData(l.files[f], pos) then
              dnum == LF_DNULL && |l.files[f].chain| == pos / LF_IDATA + 1
              && |l.files[f].dblks| == LF_IBLEN * (pos / LF_IDATA) + pos % LF_IDATA / LF_BLKSIZ
            else pos / LF_BLKSIZ < |l.files[f].dblks| && dnum == l.files[f].dblks[pos / LF_BLKSIZ]
  {
    hide InvBut, FileOk, GetIb, DataSynced;
    ChainBounds(s, l, m, f);
    var k, j := pos / LF_IDATA, pos % LF_IDATA / LF_BLKSIZ;
    assert LF_IBLEN * k + j == pos / LF_BLKSIZ;
    assert s.lfltab[m].lfiblock.ibDba[j] == DbaAt(l.files[f], k, j);
  }

  lemma SetByteStep(s: State, l: Layout, m: nat, f: nat, s': State)
    requires Working(s, l, m, f)
    requires s.lfltab[m].lfpos / LF_BLKSIZ < |l.files[f].dblks|
    requires s.lfltab[m].lfdnum == l.files[f].dblks[s.lfltab[m].lfpos / LF_BLKSIZ]
    requires s' == s.(lfltab := s.lfltab[m := s.lfltab[m].(lfbyte := s.lfltab[m].lfpos % LF_BLKSIZ)])
    ensures Working(s', l, m, f)
    ensures DataSynced(s.disk, l.ibs, s.lfltab[m]) ==> DataSynced(s'.disk, l.ibs, s'.lfltab[m])
    ensures DirSynced(s) ==> DirSynced(s')
  {
    hide FileRep, Settled, IndexOwnership, DataOwnership, GetIb;
    SetByte(s.disk, l.ibs, s.lfltab[m], s.dir.lfdFiles[f], l.files[f], s'.lfltab[m]);
    CacheStep(s, l, m, f, s'.lfltab[m], s');
  }

  lemma StartTables(s: State, l: Layout, m: nat)
    requires Inv(s, l) && m < |s.lfltab| && s.lfltab[m].lfused
    ensures s.lfltab[m].lfdirptr < |l.files| && TablesKept(s, s, m, s.lfltab[m].lfdirptr)
    ensures FilesKept(l, l, s.lfltab[m].lfdirptr)
  {
    hide InvBut, Working, DirSynced, Tight, DataSynced;
    Enter(s, l, m);
    WorkingFrame(s, l, m, s.lfltab[m].lfdirptr);
  }

  lemma TablesTrans(s0: State, s1: State, s2: State, m: nat, f: nat)
    requires TablesKept(s0, s1, m, f) && TablesKept(s1, s2, m, f)
    ensures TablesKept(s0, s2, m, f)
  {
  }

  lemma EntryInTable(s: State, l: Layout, m: nat, f: nat)
    requires Working(s, l, m, f)
    ensures |s.disk| > 0 && f < s.dir.lfdNfiles <= |s.dir.lfdFiles| && f < |l.opener|
  {
  }

  lemma TablesOf(s: State, s': State, m: nat, f: nat)
    requires TablesKept(s, s', m, f)
    ensures m < |s.lfltab| == |s'.lfltab|
    ensures s'.lfltab[m].lfused == s.lfltab[m].lfused && s'.lfltab[m].lfdirptr == s.lfltab[m].lfdirptr
  {
  }

  /** If control block m is in use, the file system has room for a file of n bytes in it. */
  ghost predicate RoomIn(s: State, l: Layout, m: nat, n: nat)
    requires m < |s.lfltab|
  {
    s.lfltab[m].lfused && s.lfltab[m].lfdirptr < |l.files| ==> HasRoom(l, s.lfltab[m].lfdirptr, n)
  }

  /** No file but f changes, and blocks only move between f and the free lists. */
  ghost predicate FilesKept(l: Layout, l': Layout, f: nat) {
    && f < |l.files| && |l'.files| == |l.files| && l'.ibs == l.ibs
    && l'.files == l.files[f := l'.files[f]]
    && SameRoom(l, l', f)
  }

  /** Room is judged by what file and free lists hold between them. */
  lemma RoomKept(s: State, l0: Layout, s': State, l: Layout, m: nat, f: nat, n0: nat, n: nat)
    requires m < |s.lfltab| && m < |s'.lfltab| && s.lfltab[m].lfused && s.lfltab[m].lfdirptr == f == s'.lfltab[m].lfdirptr
    requires RoomIn(s, l0, m, n0) && FilesKept(l0, l, f) && n <= n0
    ensures RoomIn(s', l, m, n)
  {
  }

  lemma FilesTrans(l0: Layout, l1: Layout, l2: Layout, f: nat)
    requires FilesKept(l0, l1, f) && FilesKept(l1, l2, f)
    ensures FilesKept(l0, l2, f)
  {
  }

  lemma SeekStep(s: State, l: Layout, m: nat, f: nat, pos: nat, s': State)
    requires Working(s, l, m, f)
    requires s' == s.(lfltab := s.lfltab[m := s.lfltab[m].(lfpos := pos, lfbyte := LF_BLKSIZ)])
    ensures Working(s', l, m, f)
    ensures DataSynced(s.disk, l.ibs, s.lfltab[m]) ==> DataSynced(s'.disk, l.ibs, s'.lfltab[m])
  {
    hide FileRep, Settled, IndexOwnership, DataOwnership, GetIb;
    SeekTo(s.disk, l.ibs, s.lfltab[m], s.dir.lfdFiles[f], l.files[f], pos, s'.lfltab[m]);
    CacheStep(s, l, m, f, s'.lfltab[m], s');
  }

  /** The blocks the free lists and file f hold between them. */
  ghost predicate SameRoom(l: Layout, l': Layout, f: nat)
    requires f < |l.files| && f < |l'.files|
  {
    && |l'.files[f].dblks| + |l'.freeD| == |l.files[f].dblks| + |l.freeD|
    && |l'.files[f].chain| + |l'.freeI| == |l.files[f].chain| + |l.freeI|
  }

  /** What growing does, and does not do, to the layout. */
  lemma GrownParts(s: State, l: Layout, m: nat, f: nat, pos: nat)
    requires Working(s, l, m, f) && HasRoom(l, f, pos + 1) && Tight(l.files[f]) && pos <= |l.files[f].content|
    ensures var g := GrownLayout(l, f, pos);
            && |g.files| == |l.files| && g.ibs == l.ibs && g.opener == l.opener && SameRoom(l, g, f)
            && g.files == l.files[f := g.files[f]] && g.files[f].content == l.files[f].content
            && pos < LF_BLKSIZ * |g.files[f].dblks|
            && (|g.files[f].dblks| > |l.files[f].dblks| ==>
                  pos == |l.files[f].content| && LF_BLKSIZ * (|g.files[f].dblks| - 1) == pos)
            && (|g.files[f].dblks| == |l.files[f].dblks| ==> g == l)
            && LF_IBLEN * (|g.files[f].chain| - 1) < |g.files[f].dblks|
  {
    hide FileRep, Settled, IndexOwnership, DataOwnership, GetIb;
    CursorBasics(s, l, m, f);
    ChainBounds(s, l, m, f);
    if |l.freeI| > 0 { FreeIndexHead(s, l, m, f); }
    if |l.freeD| > 0 { FreeDataHead(s, l, m, f); }
  }

  /** Index block k of file f is cached, and the data buffer is idle. */
  ghost predicate AtIndex(s: State, l: Layout, m: nat, f: nat, k: nat) {
    && Idle(s, l, m, f)
    && k < |l.files[f].chain|
    && s.lfltab[m].lfinum == l.files[f].chain[k]
    && IbMatches(s.lfltab[m].lfiblock, l.files[f], k)
  }

  /** What the cached index block says about the file position. */
  lemma IndexFacts(s: State, l: Layout, m: nat, f: nat, k: nat)
    requires AtIndex(s, l, m, f, k)
    ensures s.lfltab[m].lfiblock.ibOffset == LF_IDATA * k
    ensures s.lfltab[m].lfiblock.ibNext == Link(l.files[f].chain, k)
    ensures |l.files[f].dblks| <= LF_IBLEN * |l.files[f].chain|
    ensures LF_IBLEN * (|l.files[f].chain| - 1) <= |l.files[f].dblks|
    ensures forall i {:trigger l.files[f].chain[i]} :: 0 <= i < |l.files[f].chain| ==> IsIb(l.files[f].chain[i], l.ibs)
    ensures s.dir.lfdFiles[f].ldIlist == l.files[f].chain[0]
  {
    ChainBounds(s, l, m, f);
  }

  lemma SameTableStep(s: State, s': State, m: nat, f: nat)
    requires m < |s.lfltab| && f < |s.dir.lfdFiles| && s'.dir == s.dir.(lfdDfree := s'.dir.lfdDfree)
    requires m < |s'.lfltab| && s'.lfltab == s.lfltab[m := s'.lfltab[m]]
    requires |s'.disk| > 0 && s'.disk[0].DirSector? && s'.disk[0].dir.ids == s.dir.ids
    requires var c, c' := s.lfltab[m], s'.lfltab[m];
             c'.lfused == c.lfused && c'.lfdirptr == c.lfdirptr && c'.lfname == c.lfname && c'.lfpos == c.lfpos
    ensures SameFileTable(s, s', m, f)
  {
  }

  lemma SameTableTrans(s0: State, s1: State, s2: State, m: nat, f: nat)
    requires SameFileTable(s0, s1, m, f) && SameFileTable(s1, s2, m, f)
    ensures SameFileTable(s0, s2, m, f)
  {
  }

  /** The position of the cached index block in its chain. */
  lemma CachedIndex(s: State, l: Layout, m: nat, f: nat) returns (k: nat)
    requires Idle(s, l, m, f) && s.lfltab[m].lfinum != LF_INULL
    ensures AtIndex(s, l, m, f, k)
  {
    hide DataMatches, Settled, IndexOwnership, DataOwnership, GetIb, FreeIndexList, FreeDataList, OpenTable, NamesDistinct;
    var c, p := s.lfltab[m], l.files[f];
    k :| 0 <= k < |p.chain| && p.chain[k] == c.lfinum;
    assert IbMatches(EffIb(s.disk, l.ibs, c, p.chain[k]), p, k);
  }

  /** Nothing in the tables changes but the caches of block m and the chain head of file f. */
  ghost predicate SameFileTable(s: State, s': State, m: nat, f: nat) {
    && TablesKept(s, s', m, f)
    && s'.dir.lfdFiles[f].ldSize == s.dir.lfdFiles[f].ldSize
    && s'.lfltab[m].lfpos == s.lfltab[m].lfpos
  }

  /** The bits of a mode string that lfsopen tests. */
  datatype Mode = Mode(mustExist: bool, mustBeNew: bool)

  ghost predicate Named(dir: Directory, name: string) {
    exists f {:trigger dir.lfdFiles[f]} :: 0 <= f < dir.lfdNfiles && f < |dir.lfdFiles| && dir.lfdFiles[f].ldName == name
  }

  lemma OpenFacts(s: State, l: Layout)
    requires Inv(s, l)
    ensures s.dir.lfdNfiles == |l.files| == |l.opener| <= LF_NUM_DIR_ENT == |s.dir.lfdFiles|
  {
  }

  /** A file whose name no control block in use holds is not open. */
  lemma NotOpened(s: State, l: Layout, f: nat, name: string)
    requires Inv(s, l) && f < |l.files| && f < |l.opener| && f < |s.dir.lfdFiles| && s.dir.lfdFiles[f].ldName == name
    requires forall m {:trigger s.lfltab[m]} :: 0 <= m < |s.lfltab| ==> !(s.lfltab[m].lfused && s.lfltab[m].lfname == name)
    ensures l.opener[f] == -1
  {
    hide FileOk, Settled, IndexOwnership, DataOwnership, FreeIndexList, FreeDataList;
  }

  class LocalFileSystem {
    const disk: array<Sector>
    const lfltab: array<Lflcblk>
    var dir: Directory
    var dirdirty: bool
    ghost var l: Layout

    constructor (disk: array<Sector>, lfltab: array<Lflcblk>, dir: Directory, ghost l: Layout)
      ensures this.disk == disk && this.lfltab == lfltab && this.dir == dir && this.l == l && !dirdirty
    {
      this.disk, this.lfltab, this.dir, this.l, dirdirty := disk, lfltab, dir, l, false;
    }

    ghost function Snap(): State
      reads this, disk, lfltab
    {
      State(disk[..], dir, dirdirty, lfltab[..])
    }

    ghost predicate Valid()
      reads this, disk, lfltab
    {
      Inv(Snap(), l)
    }

    // -------------------------------------------------------- blocks on disk

    /** lfibget: copy one index block out of its sector. */
    method IbGet(inum: nat) returns (ibuff: iblock)
      requires Ib2Sect(inum) < disk.Length && IsRaw(disk[Ib2Sect(inum)])
      ensures ibuff == GetIb(disk[..], inum)
    {
      var dbuff := disk[Ib2Sect(inum)].data;
      var disp := Ib2Disp(inum);
      var to := new byte[IBLK_SIZE];
      for i := 0 to IBLK_SIZE
        invariant to[..i] == dbuff[disp..disp + i]
      {
        to[i] := dbuff[disp + i];
      }
      assert to[..] == dbuff[disp..disp + IBLK_SIZE];
      ibuff := DecodeIblock(to[..]);
    }

    /** lfibput: read a sector, replace one index block in it, write the sector back. */
    method IbPut(inum: nat, ibuff: iblock)
      requires Ib2Sect(inum) < disk.Length && IsRaw(disk[Ib2Sect(inum)])
      modifies disk
      ensures disk[..] == PutIb(old(disk[..]), inum, ibuff)
    {
      hide EncodeIblock;
      var sect, disp := Ib2Sect(inum), Ib2Disp(inum);
      var data := disk[sect].data;
      var dbuff := new byte[LF_BLKSIZ](i requires 0 <= i < LF_BLKSIZ => data[i]);
      assert dbuff[..] == data;
      var from := EncodeIblock(ibuff);
      CopyInto(dbuff, disp, from);
      disk[sect] := RawSector(dbuff[..]);
    }

    /** The copying loop of lfibput. */
    static method CopyInto(to: array<byte>, d: nat, from: seq<byte>)
      requires d + |from| <= to.Length
      modifies to
      ensures to[..] == Patch(old(to[..]), d, from)
    {
      for i := 0 to |from|
        invariant to[..d] == old(to[..d])
        invariant to[d..d + i] == from[..i]
        invariant to[d + i..] == old(to[d + i..])
      {
        to[d + i] := from[i];
      }
      assert to[..] == to[..d] + to[d..d + |from|] + to[d + |from|..];
    }

    /** lfibclear: an index block with no successor and no data blocks. */
    method IbClear(offset: uint32) returns (ib: iblock)
      ensures ib == ClearedIb(offset)
    {
      var dba := new int32[LF_IBLEN];
      for i := 0 to LF_IBLEN
        invariant forall k :: 0 <= k < i ==> dba[k] == LF_DNULL
      {
        dba[i] := LF_DNULL;
      }
      assert dba[..] == seq(LF_IBLEN, _ => LF_DNULL);
      ib := IndexBlock(LF_INULL, offset, dba[..]);
    }

    method WriteDir()
      requires disk.Length > 0
      modifies disk, this`dirdirty
      ensures disk[..] == old(disk[..])[LF_AREA_DIR := DirSector(dir)] && !dirdirty
    {
      disk[LF_AREA_DIR] := DirSector(dir);
      dirdirty := false;
    }

    /** lfiballoc: unlink the first free index block and write the directory. */
    method IbAlloc() returns (ibnum: int)
      requires disk.Length > 0 && 0 <= dir.lfdIfree
      requires Ib2Sect(dir.lfdIfree) < disk.Length && IsRaw(disk[Ib2Sect(dir.lfdIfree)])
      modifies this`dir, this`dirdirty, disk
      ensures ibnum == old(dir.lfdIfree)
      ensures dir == old(dir).(lfdIfree := GetIb(old(disk[..]), ibnum).ibNext)
      ensures disk[..] == old(disk[..])[LF_AREA_DIR := DirSector(dir)] && !dirdirty
    {
      ibnum := dir.lfdIfree;
      var ib := IbGet(ibnum);
      dir := dir.(lfdIfree := ib.ibNext);
      WriteDir();
    }

    /** lfdballoc: unlink the first free data block, write the directory, hand out a filled buffer. */
    method DbAlloc() returns (dnum: int, dbuff: dblock)
      requires 0 <= dir.lfdDfree < disk.Length && IsRaw(disk[dir.lfdDfree])
      modifies this`dir, this`dirdirty, disk
      ensures dnum == old(dir.lfdDfree) && dbuff == Filled()
      ensures dir == old(dir).(lfdDfree := NextFree(old(disk[..])[dnum]))
      ensures disk[..] == old(disk[..])[LF_AREA_DIR := DirSector(dir)] && !dirdirty
    {
      dnum := dir.lfdDfree;
      dir := dir.(lfdDfree := NextFree(disk[dnum]));
      WriteDir();
      dbuff := Filled();
    }

    /** lfdbfree: push a data block; all but the first word of the block is whatever the
        stack buffer held. The directory is written, but its dirty flag stays. */
    method DbFree(dnum: int)
      requires 0 < dnum < disk.Length && -0x8000_0000 <= dir.lfdDfree < 0x8000_0000
      modifies this`dir, disk
      ensures dir == old(dir).(lfdDfree := dnum)
      ensures IsRaw(disk[dnum]) && NextFree(disk[dnum]) == old(dir.lfdDfree)
      ensures disk[..] == old(disk[..])[dnum := disk[dnum]][LF_AREA_DIR := DirSector(dir)]
    {
      var buf := new byte[LF_BLKSIZ];
      var next := EncodeId(dir.lfdDfree);
      for i := 0 to 4
        modifies buf
        invariant buf[..i] == next[..i]
      {
        buf[i] := next[i];
      }
      assert buf[..][0..4] == buf[..4] == next[..4] == next;
      IdRoundTrip(dir.lfdDfree);
      dir := dir.(lfdDfree := dnum);
      disk[dnum] := RawSector(buf[..]);
      disk[LF_AREA_DIR] := DirSector(dir);
    }

    // -------------------------------------------------------- one open file

    /** The second half of lfflush: the dirty data block and the dirty index block are written. */
    method FlushBlocks(m: nat, ghost f: nat)
      requires m < lfltab.Length && Working(Snap(), l, m, f) && DataSynced(disk[..], l.ibs, lfltab[m])
      modifies disk, lfltab
      ensures Working(Snap(), l, m, f) && DataSynced(disk[..], l.ibs, lfltab[m])
      ensures old(DirSynced(Snap())) ==> DirSynced(Snap())
      ensures lfltab[..] == old(lfltab[..])[m := old(lfltab[m]).(lfibdirty := false, lfdbdirty := false)]
      ensures disk.Length > 0 && disk[LF_AREA_DIR] == old(disk[LF_AREA_DIR])
    {
      hide Working, DirSynced, GetIb, DataSynced;
      ghost var s1 := Snap();
      WorkingFrame(s1, l, m, f);
      if lfltab[m].lfdbdirty {
        CachedBlocks(s1, l, m, f);
        disk[lfltab[m].lfdnum] := RawSector(lfltab[m].lfdblock);
        lfltab[m] := lfltab[m].(lfdbdirty := false);
        DataStep(s1, l, m, f, Snap());
      }
      ghost var s2 := Snap();
      if lfltab[m].lfibdirty {
        CachedBlocks(s2, l, m, f);
        WorkingFrame(s2, l, m, f);
        IbSectorInArea(lfltab[m].lfinum, l.ibs);
        IbPut(lfltab[m].lfinum, lfltab[m].lfiblock);
        lfltab[m] := lfltab[m].(lfibdirty := false);
        IndexStep(s2, l, m, f, Snap());
      }
    }

    /** lfflush: write back the directory, the data block and the index block. */
    method Flush(m: nat) returns (r: int)
      requires Valid() && m < lfltab.Length
      modifies this, disk, lfltab
      ensures Valid() && l == old(l) && dir == old(dir)
      ensures !old(lfltab[m]).lfused ==> r == SYSERR && Snap() == old(Snap())
      ensures old(lfltab[m]).lfused ==>
                r == OK && !dirdirty
                && lfltab[..] == old(lfltab[..])[m := old(lfltab[m]).(lfibdirty := false, lfdbdirty := false)]
                && |disk[..]| > 0
                && disk[LF_AREA_DIR] == (if old(dirdirty) then DirSector(dir) else old(disk[LF_AREA_DIR]))
                && lfltab[m].lfdirptr < |l.files|
                && (|l.files[lfltab[m].lfdirptr].content| > 0 ==>
                      ReadImage(disk[..], lfltab[m].lfdirptr) == AsInts(l.files[lfltab[m].lfdirptr].content))
    {
      hide Working, DirSynced, GetIb, DataSynced, Settled, Tight, InvBut;
      if !lfltab[m].lfused {
        return SYSERR;
      }
      ghost var f := lfltab[m].lfdirptr;
      ghost var s0 := Snap();
      Enter(s0, l, m);
      WorkingFrame(s0, l, m, f);
      EntryInTable(s0, l, m, f);
      if dirdirty {
        WriteDir();
        DirStep(s0, l, m, f, Snap());
      }
      FlushBlocks(m, f);
      Leave(Snap(), l, m, f);
      if |l.files[f].content| > 0 {
        CleanPersists(Snap(), l, m, f);
      }
      return OK;
    }

    /** The part of lfsetup that brings the index block for the file position into memory
        (lines 36 to 94): write back, restart from the head if the position lies before the
        cached block, walk, extend the chain by one block if the position lies beyond it. */
    method SetupIndex(m: nat)
      requires Valid() && m < lfltab.Length && lfltab[m].lfused
      requires lfltab[m].lfbyte == LF_BLKSIZ
      requires lfltab[m].lfdirptr < |l.files| && lfltab[m].lfpos <= |l.files[lfltab[m].lfdirptr].content|
      requires NeedsIndex(l.files[lfltab[m].lfdirptr], lfltab[m].lfpos) ==> |l.freeI| > 0
      modifies this, disk, lfltab
      ensures SameFileTable(old(Snap()), Snap(), m, old(lfltab[m].lfdirptr))
      ensures l == IndexLayout(old(l), old(lfltab[m].lfdirptr), old(lfltab[m].lfpos))
      ensures AtIndex(Snap(), l, m, old(lfltab[m].lfdirptr), old(lfltab[m].lfpos) / LF_IDATA)
      ensures !NeedsIndex(old(l.files[lfltab[m].lfdirptr]), old(lfltab[m].lfpos)) ==> DirSynced(Snap())
    {
      hide InvBut, Working, DirSynced, GetIb, DataSynced, Tight, TakeIndex, Formatted, IbMatches, TablesKept;
      var f := lfltab[m].lfdirptr;
      var pos := lfltab[m].lfpos;
      Enter(Snap(), l, m);
      WorkingFrame(Snap(), l, m, f);
      if lfltab[m].lfibdirty || lfltab[m].lfdbdirty {
        var _ := Flush(m);
        Enter(Snap(), l, m);
      }
      ghost var s1 := Snap();
      SameTableStep(old(Snap()), s1, m, f);
      ghost var k := StartIndex(m, f);
      ghost var s2 := Snap();
      WorkingFrame(s2, l, m, f);
      SeekIndex(m, f, k);
      SameTableTrans(old(Snap()), s1, s2, m, f);
      SameTableTrans(old(Snap()), s2, Snap(), m, f);
    }

    /** Lines 39 to 72 of lfsetup: a first index block in memory that does not lie beyond the
        file position. */
    method StartIndex(m: nat, f: nat) returns (ghost k: nat)
      requires Idle(Snap(), l, m, f) && !lfltab[m].lfibdirty && DirSynced(Snap())
      requires lfltab[m].lfpos <= |l.files[f].content|
      requires NeedsIndex(l.files[f], lfltab[m].lfpos) ==> |l.freeI| > 0
      modifies this, disk, lfltab
      ensures SameFileTable(old(Snap()), Snap(), m, f)
      ensures AtIndex(Snap(), l, m, f, k)
      ensures LF_IDATA * k <= old(lfltab[m].lfpos)
      ensures if |old(l).files[f].chain| > 0 then
                l == old(l) && !lfltab[m].lfibdirty && DirSynced(Snap())
              else l == Chained(old(l), f) && NeedsIndex(old(l).files[f], old(lfltab[m].lfpos))
                   && old(lfltab[m].lfpos) == 0 && |l.files[f].chain| == 1 && |l.files[f].dblks| == 0
    {
      hide InvBut, Working, DirAgrees, GetIb, DataSynced, Tight, Formatted, IbMatches;
      WorkingFrame(Snap(), l, m, f);
      var pos := lfltab[m].lfpos;
      k := 0;
      var ibnum := lfltab[m].lfinum;
      ChainBounds(Snap(), l, m, f);
      CursorBasics(Snap(), l, m, f);
      CachedBlocks(Snap(), l, m, f);
      if ibnum == LF_INULL {
        ibnum := dir.lfdFiles[f].ldIlist;
        if ibnum == LF_INULL {
          FirstIndexBlock(m, f);
        } else {
          LoadIndexBlock(m, f, 0, ibnum);
        }
      } else if pos < lfltab[m].lfiblock.ibOffset {
        k := CachedIndex(Snap(), l, m, f);
        k := 0;
        ibnum := dir.lfdFiles[f].ldIlist;
        LoadIndexBlock(m, f, 0, ibnum);
      } else {
        k := CachedIndex(Snap(), l, m, f);
        IndexFacts(Snap(), l, m, f, k);
      }
    }

    /** Lines 78 to 94 of lfsetup: walk, or extend, until the cached index block covers the
        file position. */
    method SeekIndex(m: nat, f: nat, ghost k0: nat)
      requires AtIndex(Snap(), l, m, f, k0) && LF_IDATA * k0 <= lfltab[m].lfpos
      requires lfltab[m].lfpos <= |l.files[f].content|
      requires lfltab[m].lfibdirty ==> |l.files[f].chain| == 1 && lfltab[m].lfpos == 0
      requires NeedsIndex(l.files[f], lfltab[m].lfpos) ==> |l.freeI| > 0
      modifies this, disk, lfltab
      ensures SameFileTable(old(Snap()), Snap(), m, f)
      ensures l == IndexLayout(old(l), f, old(lfltab[m].lfpos))
      ensures AtIndex(Snap(), l, m, f, old(lfltab[m].lfpos) / LF_IDATA)
      ensures !NeedsIndex(old(l).files[f], old(lfltab[m].lfpos)) && old(DirSynced(Snap())) ==> DirSynced(Snap())
    {
      hide InvBut, Working, DirAgrees, GetIb, DataSynced, Tight, TakeIndex, Formatted, IbMatches, TablesKept;
      WorkingFrame(Snap(), l, m, f);
      ghost var k := k0;
      ghost var first := Snap();
      ghost var pos := lfltab[m].lfpos;
      SameTableStep(first, first, m, f);
      while lfltab[m].lfpos - lfltab[m].lfpos % LF_IDATA > lfltab[m].lfiblock.ibOffset
        invariant SameFileTable(first, Snap(), m, f) && lfltab[m].lfpos == pos
        invariant AtIndex(Snap(), l, m, f, k)
        invariant LF_IDATA * k <= pos
        invariant if k == pos / LF_IDATA then l == IndexLayout(old(l), f, pos) else l == old(l)
        invariant lfltab[m].lfibdirty ==> k == pos / LF_IDATA
        invariant !NeedsIndex(old(l).files[f], pos) && old(DirSynced(Snap())) ==> DirSynced(Snap())
        decreases pos - LF_IDATA * k
      {
        ghost var s0 := Snap();
        IndexFacts(s0, l, m, f, k);
        CursorBasics(s0, l, m, f);
        var ibnum := lfltab[m].lfiblock.ibNext;
        if ibnum == LF_INULL {
          NextIndexBlock(m, f);
          SameTableTrans(first, s0, Snap(), m, f);
        } else {
          LoadIndexBlock(m, f, k + 1, ibnum);
          SameTableTrans(first, s0, Snap(), m, f);
          ghost var s1 := Snap();
          lfltab[m] := lfltab[m].(lfdnum := LF_DNULL);
          WorkingFrame(s1, l, m, f);
          DropDataStep(s1, l, m, f, Snap());
          SameTableStep(s1, Snap(), m, f);
          SameTableTrans(first, s1, Snap(), m, f);
        }
        k := k + 1;
        IndexFacts(Snap(), l, m, f, k);
      }
      IndexFacts(Snap(), l, m, f, k);
    }

    /** Lines 51 to 54 and 58 of lfsetup: an empty file gets its first index block. */
    method FirstIndexBlock(m: nat, f: nat)
      requires Idle(Snap(), l, m, f) && |l.files[f].chain| == 0 && |l.freeI| > 0
      modifies this, disk, lfltab
      ensures SameFileTable(old(Snap()), Snap(), m, f)
      ensures l == Chained(old(l), f) && AtIndex(Snap(), l, m, f, 0)
      ensures lfltab[m].lfibdirty
    {
      hide InvBut, Working, GetIb, DataSynced, IbMatches, DirAgrees;
      ghost var s0 := Snap();
      WorkingFrame(s0, l, m, f);
      FreeIndexHead(s0, l, m, f);
      IbSectorInArea(l.freeI[0], l.ibs);
      var ibnum := IbAlloc();
      var ib := IbClear(0);
      lfltab[m] := lfltab[m].(lfiblock := ib);
      dir := dir.(lfdFiles := dir.lfdFiles[f := dir.lfdFiles[f].(ldIlist := ibnum)]);
      lfltab[m] := lfltab[m].(lfibdirty := true);
      lfltab[m] := lfltab[m].(lfinum := ibnum);
      FirstIndexStep(s0, l, m, f, Snap());
      l := TakeIndex(l, f);
    }

    /** Lines 56 and 58, 70 and 71, or 90 and 91 of lfsetup: cache index block k of the file. */
    method LoadIndexBlock(m: nat, f: nat, ghost k: nat, ibnum: int)
      requires Idle(Snap(), l, m, f) && !lfltab[m].lfibdirty && k < |l.files[f].chain|
      requires ibnum == l.files[f].chain[k] && IsIb(ibnum, l.ibs)
      modifies lfltab
      ensures SameFileTable(old(Snap()), Snap(), m, f)
      ensures AtIndex(Snap(), l, m, f, k)
      ensures !lfltab[m].lfibdirty
      ensures old(DirSynced(Snap())) ==> DirSynced(Snap())
    {
      hide InvBut, Working, GetIb, DataSynced, IbMatches, DirAgrees;
      ghost var s0 := Snap();
      WorkingFrame(s0, l, m, f);
      IbSectorInArea(ibnum, l.ibs);
      var ib := IbGet(ibnum);
      lfltab[m] := lfltab[m].(lfiblock := ib);
      lfltab[m] := lfltab[m].(lfinum := ibnum);
      LoadIndexStep(s0, l, m, f, k, Snap());
    }

    /** Lines 82 to 88 and 93 of lfsetup: link a new index block behind the last one. */
    method NextIndexBlock(m: nat, f: nat)
      requires Idle(Snap(), l, m, f) && !lfltab[m].lfibdirty && |l.freeI| > 0
      requires |l.files[f].chain| > 0 && |l.files[f].dblks| == LF_IBLEN * |l.files[f].chain|
      requires AtIndex(Snap(), l, m, f, |l.files[f].chain| - 1)
      modifies this, disk, lfltab
      ensures SameFileTable(old(Snap()), Snap(), m, f)
      ensures l == Chained(old(l), f) && AtIndex(Snap(), l, m, f, old(|l.files[f].chain|))
      ensures lfltab[m].lfibdirty
    {
      hide InvBut, Working, GetIb, DataSynced, Formatted, IbMatches, DirAgrees;
      ghost var s0 := Snap();
      WorkingFrame(s0, l, m, f);
      IndexFacts(s0, l, m, f, |l.files[f].chain| - 1);
      FreeIndexHead(s0, l, m, f);
      ChainBounds(s0, l, m, f);
      IbSectorInArea(l.freeI[0], l.ibs);
      IbSectorInArea(lfltab[m].lfinum, l.ibs);
      var ibnum := IbAlloc();
      var old_inum := lfltab[m].lfinum;
      lfltab[m] := lfltab[m].(lfiblock := lfltab[m].lfiblock.(ibNext := ibnum));
      IbPut(old_inum, lfltab[m].lfiblock);
      lfltab[m] := lfltab[m].(lfinum := ibnum);
      var newoffset := lfltab[m].lfiblock.ibOffset + LF_IDATA;
      var ib := IbClear(newoffset);
      lfltab[m] := lfltab[m].(lfiblock := ib);
      lfltab[m] := lfltab[m].(lfibdirty := true);
      lfltab[m] := lfltab[m].(lfdnum := LF_DNULL);
      NextIndexStep(s0, l, m, f, Snap());
      l := TakeIndex(l, f);
    }

    /** lfsetup: bring the index block and the data block for the file position into memory,
        allocating at most one of each, and point at the byte. */
    method Setup(m: nat)
      requires Valid() && m < lfltab.Length && lfltab[m].lfused
      requires lfltab[m].lfbyte == LF_BLKSIZ
      requires lfltab[m].lfdirptr < |l.files| && lfltab[m].lfpos <= |l.files[lfltab[m].lfdirptr].content|
      requires HasRoom(l, lfltab[m].lfdirptr, lfltab[m].lfpos + 1)
      modifies this, disk, lfltab
      ensures SameFileTable(old(Snap()), Snap(), m, old(lfltab[m].lfdirptr))
      ensures l == GrownLayout(old(l), old(lfltab[m].lfdirptr), old(lfltab[m].lfpos))
      ensures Working(Snap(), l, m, old(lfltab[m].lfdirptr)) && DirSynced(Snap())
      ensures !lfltab[m].lfdbdirty && lfltab[m].lfbyte == old(lfltab[m].lfpos) % LF_BLKSIZ
      ensures !NeedsData(old(l.files[lfltab[m].lfdirptr]), old(lfltab[m].lfpos)) ==>
                DataSynced(disk[..], l.ibs, lfltab[m])
    {
      hide InvBut, Working, DirAgrees, GetIb, DataSynced, Tight, TakeIndex, TakeData, Formatted, IbMatches, TablesKept;
      ghost var f, pos, l0 := lfltab[m].lfdirptr, lfltab[m].lfpos, l;
      Enter(Snap(), l, m);
      CursorBasics(Snap(), l, m, f);
      ChainBounds(Snap(), l, m, f);
      SetupIndex(m);
      ghost var s1 := Snap();
      WorkingFrame(s1, l, m, f);
      IndexLayoutParts(l0, f, pos);
      SetupData(m);
      SameTableTrans(old(Snap()), s1, Snap(), m, f);
    }

    /** The part of lfsetup that brings the data block into memory (lines 100 to 119). */
    method SetupData(m: nat)
      requires m < lfltab.Length
      requires AtIndex(Snap(), l, m, lfltab[m].lfdirptr, lfltab[m].lfpos / LF_IDATA)
      requires lfltab[m].lfpos <= LF_BLKSIZ * |l.files[lfltab[m].lfdirptr].dblks|
      requires if NeedsData(l.files[lfltab[m].lfdirptr], lfltab[m].lfpos) then |l.freeD| > 0 else DirSynced(Snap())
      modifies this, disk, lfltab
      ensures SameFileTable(old(Snap()), Snap(), m, old(lfltab[m].lfdirptr))
      ensures l == if NeedsData(old(l.files[lfltab[m].lfdirptr]), old(lfltab[m].lfpos))
                   then Blocked(old(l), old(lfltab[m].lfdirptr)) else old(l)
      ensures Working(Snap(), l, m, old(lfltab[m].lfdirptr)) && DirSynced(Snap())
      ensures !lfltab[m].lfdbdirty && lfltab[m].lfbyte == old(lfltab[m].lfpos) % LF_BLKSIZ
      ensures !NeedsData(old(l.files[lfltab[m].lfdirptr]), old(lfltab[m].lfpos)) ==>
                DataSynced(disk[..], l.ibs, lfltab[m])
    {
      hide InvBut, Working, GetIb, Tight, Formatted, IbMatches, TablesKept, HasRoom, DirAgrees;
      ghost var f, pos, s1, l1 := lfltab[m].lfdirptr, lfltab[m].lfpos, Snap(), l;
      WorkingFrame(s1, l1, m, f);
      ChainBounds(s1, l1, m, f);
      DataSlot(s1, l1, m, f, pos);
      var dindex := lfltab[m].lfpos % LF_IDATA / LF_BLKSIZ;
      var dnum := lfltab[m].lfiblock.ibDba[dindex];
      if dnum == LF_DNULL {
        FreeDataHead(s1, l1, m, f);
        var buf: dblock;
        dnum, buf := DbAlloc();
        lfltab[m] := lfltab[m].(lfdblock := buf);
        lfltab[m] := lfltab[m].(lfiblock := lfltab[m].lfiblock.(ibDba := lfltab[m].lfiblock.ibDba[dindex := dnum]));
        lfltab[m] := lfltab[m].(lfibdirty := true);
      } else if dnum != lfltab[m].lfdnum {
        lfltab[m] := lfltab[m].(lfdblock := disk[dnum].data);
        lfltab[m] := lfltab[m].(lfdbdirty := false);
      }
      lfltab[m] := lfltab[m].(lfdnum := dnum);
      ghost var s2 := Snap();
      if NeedsData(l1.files[f], pos) {
        AllocDataStep(s1, l1, m, f, pos / LF_IDATA, dindex, Filled(), s2);
        l := TakeData(l1, f);
      } else {
        LoadDataStep(s1, l1, m, f, pos / LF_BLKSIZ, s2);
      }
      lfltab[m] := lfltab[m].(lfbyte := lfltab[m].lfpos % LF_BLKSIZ);
      SetByteStep(s2, l, m, f, Snap());
      SameTableStep(s1, Snap(), m, f);
    }

    // -------------------------------------------------------- bytes

    /** The abstract file that control block m shows. */
    ghost function View(m: nat): OpenFile
      requires m < lfltab.Length && lfltab[m].lfdirptr < |l.files|
      reads this, lfltab
    {
      OpenFile(l.files[lfltab[m].lfdirptr].content, lfltab[m].lfpos)
    }

    /** lflgetc: the next byte, or EOF. */
    method GetC(m: nat) returns (r: int)
      requires Valid() && m < lfltab.Length
      modifies this, disk, lfltab
      ensures Valid() && l == old(l)
      ensures !old(lfltab[m].lfused) ==> r == SYSERR && Snap() == old(Snap())
      ensures old(lfltab[m].lfused) ==>
                && old(lfltab[m].lfdirptr < |l.files|)
                && TablesKept(old(Snap()), Snap(), m, old(lfltab[m].lfdirptr))
                && (View(m), r) == Step(old(View(m)), Get)
                && var a := old(View(m));
                && View(m).content == a.content
                && if a.pos >= |a.content| then r == EOF && Snap() == old(Snap()) else r == a.content[a.pos] && View(m).pos == a.pos + 1
    {
      hide InvBut, Working, DirAgrees, GetIb, DataSynced, Tight, Formatted;
      if !lfltab[m].lfused {
        return SYSERR;
      }
      ghost var f := lfltab[m].lfdirptr;
      ghost var l0 := l;
      Enter(Snap(), l, m);
      WorkingFrame(Snap(), l, m, f);
      CursorBasics(Snap(), l, m, f);
      if lfltab[m].lfpos >= dir.lfdFiles[lfltab[m].lfdirptr].ldSize {
        SameTableStep(Snap(), Snap(), m, f);
        return EOF;
      }
      if lfltab[m].lfbyte >= LF_BLKSIZ {
        ChainBounds(Snap(), l, m, f);
        Setup(m);
      }
      ghost var s1 := Snap();
      r := lfltab[m].lfdblock[lfltab[m].lfbyte];
      lfltab[m] := lfltab[m].(lfbyte := lfltab[m].lfbyte + 1);
      lfltab[m] := lfltab[m].(lfpos := lfltab[m].lfpos + 1);
      TakeByteStep(s1, l, m, f, Snap());
      Leave(Snap(), l, m, f);
    }

    /** lflputc: write one byte. The precondition on room is where the code would panic. */
    method PutC(m: nat, ch: byte) returns (r: int)
      requires Valid() && m < lfltab.Length
      requires RoomIn(Snap(), l, m, lfltab[m].lfpos + 1)
      modifies this, disk, lfltab
      ensures Valid()
      ensures !old(lfltab[m].lfused) ==> r == SYSERR && Snap() == old(Snap()) && l == old(l)
      ensures old(lfltab[m].lfused) ==>
                && old(lfltab[m].lfdirptr < |l.files|)
                && TablesKept(old(Snap()), Snap(), m, old(lfltab[m].lfdirptr))
                && FilesKept(old(l), l, old(lfltab[m].lfdirptr))
                && (View(m), r) == Step(old(View(m)), Put(ch))
                && var a := old(View(m));
                && if a.pos > |a.content| then r == SYSERR && Snap() == old(Snap()) && l == old(l)
                   else
                     && r == OK && View(m).pos == a.pos + 1
                     && View(m).content == a.content[..a.pos] + [ch] + (if a.pos < |a.content| then a.content[a.pos + 1..] else [])
    {
      hide InvBut, Working, DirAgrees, GetIb, DataSynced, Formatted, FileOk;
      if !lfltab[m].lfused {
        return SYSERR;
      }
      ghost var f, pos, s0, l0 := lfltab[m].lfdirptr, lfltab[m].lfpos, Snap(), l;
      Enter(s0, l, m);
      WorkingFrame(s0, l, m, f);
      CursorBasics(s0, l, m, f);
      if lfltab[m].lfpos > dir.lfdFiles[lfltab[m].lfdirptr].ldSize {
        SameTableStep(s0, s0, m, f);
        return SYSERR;
      }
      GrownParts(s0, l, m, f, pos);
      SameTableStep(s0, s0, m, f);
      if lfltab[m].lfbyte >= LF_BLKSIZ {
        Setup(m);
      }
      StoreByte(m, ch);
      Leave(Snap(), l, m, f);
      return OK;
    }

    /** Lines 51 to 60 of lflputc: the size, then the byte in the buffer. */
    method StoreByte(m: nat, ch: byte)
      requires m < lfltab.Length && Working(Snap(), l, m, lfltab[m].lfdirptr)
      requires lfltab[m].lfbyte < LF_BLKSIZ && lfltab[m].lfpos <= |l.files[lfltab[m].lfdirptr].content|
      requires DirSynced(Snap())
      modifies this, lfltab
      ensures TablesKept(old(Snap()), Snap(), m, old(lfltab[m].lfdirptr))
      ensures l == WrittenLayout(old(l), old(lfltab[m].lfdirptr), old(lfltab[m].lfpos), ch)
      ensures lfltab[m].lfpos == old(lfltab[m].lfpos) + 1
      ensures Working(Snap(), l, m, old(lfltab[m].lfdirptr)) && DataSynced(disk[..], l.ibs, lfltab[m])
      ensures DirSynced(Snap())
    {
      hide InvBut, Working, DirAgrees, GetIb, DataSynced, Formatted, FileOk;
      var ldptr := lfltab[m].lfdirptr;
      ghost var pos, s0, l0 := lfltab[m].lfpos, Snap(), l;
      WorkingFrame(s0, l0, m, ldptr);
      CursorBasics(s0, l0, m, ldptr);
      if lfltab[m].lfpos >= dir.lfdFiles[ldptr].ldSize {
        dir := dir.(lfdFiles := dir.lfdFiles[ldptr := dir.lfdFiles[ldptr].(ldSize := dir.lfdFiles[ldptr].ldSize + 1)]);
        dirdirty := true;
      }
      lfltab[m] := lfltab[m].(lfdblock := lfltab[m].lfdblock[lfltab[m].lfbyte := ch]);
      lfltab[m] := lfltab[m].(lfbyte := lfltab[m].lfbyte + 1);
      lfltab[m] := lfltab[m].(lfpos := lfltab[m].lfpos + 1);
      lfltab[m] := lfltab[m].(lfdbdirty := true);
      l := WrittenLayout(l, ldptr, pos, ch);
      assert dir.lfdFiles == s0.dir.lfdFiles[ldptr := dir.lfdFiles[ldptr]];
      PlaceByteStep(s0, l0, m, ldptr, ch, dir.lfdFiles[ldptr], Snap());
    }

    /** lflseek: reposition, and force the next access to set up its blocks. */
    method Seek(m: nat, offset: nat) returns (r: int)
      requires Valid() && m < lfltab.Length
      modifies this, disk, lfltab
      ensures Valid() && l == old(l)
      ensures !old(lfltab[m].lfused) ==> r == SYSERR && Snap() == old(Snap())
      ensures old(lfltab[m].lfused) ==>
                && old(lfltab[m].lfdirptr < |l.files|)
                && TablesKept(old(Snap()), Snap(), m, old(lfltab[m].lfdirptr))
                && (View(m), r) == Step(old(View(m)), Op.Seek(offset))
                && (r == SYSERR <==> offset > |old(View(m)).content|)
                && (r == SYSERR ==> Snap() == old(Snap()))
                && (r != SYSERR ==> r == OK && View(m).content == old(View(m)).content && View(m).pos == offset)
    {
      hide InvBut, Working, DirAgrees, GetIb, DataSynced, Formatted, FileOk;
      if !lfltab[m].lfused {
        return SYSERR;
      }
      ghost var f, s0 := lfltab[m].lfdirptr, Snap();
      Enter(s0, l, m);
      WorkingFrame(s0, l, m, f);
      CursorBasics(s0, l, m, f);
      if offset > dir.lfdFiles[lfltab[m].lfdirptr].ldSize {
        SameTableStep(s0, s0, m, f);
        return SYSERR;
      }
      lfltab[m] := lfltab[m].(lfpos := offset);
      lfltab[m] := lfltab[m].(lfbyte := LF_BLKSIZ);
      SeekStep(s0, l, m, f, offset, Snap());
      Leave(Snap(), l, m, f);
      return OK;
    }

    /** lflread: read up to `count` bytes, one by one. */
    method Read(m: nat, buff: array<byte>, count: int) returns (r: int)
      requires Valid() && m < lfltab.Length && count <= buff.Length
      modifies this, disk, lfltab, buff
      ensures Valid() && l == old(l)
      ensures count < 0 || (count > 0 && !old(lfltab[m].lfused)) ==> r == SYSERR && Snap() == old(Snap()) && buff[..] == old(buff[..])
      ensures count == 0 ==> r == 0 && Snap() == old(Snap()) && buff[..] == old(buff[..])
      ensures count > 0 && old(lfltab[m].lfused) ==>
                && old(lfltab[m].lfdirptr < |l.files|)
                && TablesKept(old(Snap()), Snap(), m, old(lfltab[m].lfdirptr))
                && var a, n := old(View(m)), ReadLength(old(View(m)), count);
                && View(m) == a.(pos := a.pos + n)
                && r == (if n == 0 then EOF else n)
                && (n > 0 ==> buff[..n] == a.content[a.pos..a.pos + n])
                && buff[n..] == old(buff[n..])
    {
      hide Inv, TablesKept, ReadLength;
      if count < 0 {
        return SYSERR;
      }
      ghost var f := lfltab[m].lfdirptr;
      if lfltab[m].lfused {
        StartTables(Snap(), l, m);
      }
      var numread := 0;
      while numread < count
        invariant 0 <= numread <= count
        invariant Valid() && l == old(l)
        invariant numread == 0 ==> Snap() == old(Snap())
        invariant numread > 0 ==> old(lfltab[m].lfused)
        invariant forall k :: numread <= k < buff.Length ==> buff[k] == old(buff[k])
        invariant lfltab[m].lfused == old(lfltab[m].lfused) && lfltab[m].lfdirptr == f
        invariant old(lfltab[m].lfused) ==>
                    && f < |l.files|
                    && TablesKept(old(Snap()), Snap(), m, f)
                    && View(m) == old(View(m)).(pos := old(View(m)).pos + numread)
                    && (numread > 0 ==> old(View(m)).pos + numread <= |View(m).content|)
                    && (numread > 0 ==> forall k :: 0 <= k < numread ==> buff[k] == old(View(m)).content[old(View(m)).pos + k])
      {
        ghost var s0 := Snap();
        var nxtbyte := GetC(m);
        if nxtbyte == SYSERR {
          return SYSERR;
        } else if nxtbyte == EOF {
          TablesTrans(old(Snap()), s0, Snap(), m, f);
          ReadAll(old(View(m)), count, numread);
          if numread == 0 {
            return EOF;
          } else {
            return numread;
          }
        }
        TablesTrans(old(Snap()), s0, Snap(), m, f);
        buff[numread] := nxtbyte;
        numread := numread + 1;
      }
      if count > 0 { ReadAll(old(View(m)), count, numread); }
      return numread;
    }

    /** lflwrite: write bytes, one by one. */
    method Write(m: nat, buff: seq<byte>) returns (r: int)
      requires Valid() && m < lfltab.Length
      requires RoomIn(Snap(), l, m, lfltab[m].lfpos + |buff|)
      modifies this, disk, lfltab
      ensures Valid()
      ensures |buff| == 0 ==> r == 0
      ensures |buff| > 0 && !old(lfltab[m].lfused) ==> r == SYSERR
      ensures |buff| == 0 || !old(lfltab[m].lfused) ==> Snap() == old(Snap()) && l == old(l)
      ensures |buff| > 0 && old(lfltab[m].lfused) ==>
                && old(lfltab[m].lfdirptr < |l.files|)
                && TablesKept(old(Snap()), Snap(), m, old(lfltab[m].lfdirptr))
                && FilesKept(old(l), l, old(lfltab[m].lfdirptr))
                && var a := old(View(m));
                if a.pos > |a.content| then r == SYSERR && View(m) == a
                else r == |buff| && View(m) == Run(a, PutAll(buff)).0 == OpenFile(Overwritten(a.content, a.pos, buff), a.pos + |buff|)
    {
      hide Inv, Run, PutAll, Overwritten, SameRoom, HasRoom, TablesKept;
      ghost var f := lfltab[m].lfdirptr;
      if lfltab[m].lfused {
        StartTables(Snap(), l, m);
      }
      RunNone(if lfltab[m].lfused then View(m) else OpenFile([], 0));
      assert buff[..0] == [];
      for i := 0 to |buff|
        invariant Valid()
        invariant i == 0 ==> Snap() == old(Snap()) && l == old(l)
        invariant i > 0 ==> old(lfltab[m].lfused)
        invariant lfltab[m].lfused == old(lfltab[m].lfused) && lfltab[m].lfdirptr == f
        invariant old(lfltab[m].lfused) ==>
                    && f < |l.files|
                    && TablesKept(old(Snap()), Snap(), m, f)
                    && FilesKept(old(l), l, f)
                    && (i > 0 ==> old(View(m)).pos <= |old(View(m)).content|)
                    && View(m) == Run(old(View(m)), PutAll(buff[..i])).0
                    && lfltab[m].lfpos == old(lfltab[m].lfpos) + i
      {
        ghost var s0, l0 := Snap(), l;
        if lfltab[m].lfused {
          RoomKept(old(Snap()), old(l), s0, l, m, f, old(lfltab[m].lfpos) + |buff|, lfltab[m].lfpos + 1);
        }
        if i > 0 { RunBounds(old(View(m)), PutAll(buff[..i])); }
        r := PutC(m, buff[i]);
        if old(lfltab[m].lfused) {
          TablesTrans(old(Snap()), s0, Snap(), m, f);
          TablesOf(s0, Snap(), m, f);
          FilesTrans(old(l), l0, l, f);
        }
        if r == SYSERR {
          return SYSERR;
        }
        PutAllSnoc(buff, i);
        RunSnoc(old(View(m)), PutAll(buff[..i]), Put(buff[i]));
      }
      if old(lfltab[m].lfused) && old(View(m)).pos <= |old(View(m)).content| { AllPut(old(View(m)), buff); }
      assert buff[..|buff|] == buff;
      return |buff|;
    }

    /** Every run of lflputc, lflgetc and lflseek on an open file gives the results of the abstract
        file, and leaves every other file alone, if there is room for the file that results. */
    method RunOps(m: nat, ops: seq<Op>) returns (rs: seq<int>)
      requires Valid() && m < lfltab.Length && lfltab[m].lfused
      requires lfltab[m].lfdirptr < |l.files| && lfltab[m].lfpos <= |l.files[lfltab[m].lfdirptr].content|
      requires RoomIn(Snap(), l, m, |Run(View(m), ops).0.content|)
      modifies this, disk, lfltab
      ensures Valid() && lfltab[m].lfused && lfltab[m].lfdirptr == old(lfltab[m].lfdirptr) < |l.files|
      ensures (View(m), rs) == Run(old(View(m)), ops)
      ensures TablesKept(old(Snap()), Snap(), m, lfltab[m].lfdirptr)
      ensures FilesKept(old(l), l, lfltab[m].lfdirptr)
    {
      hide Inv;
      ghost var f, a := lfltab[m].lfdirptr, View(m);
      StartTables(Snap(), l, m);
      rs := [];
      for i := 0 to |ops|
        invariant Valid() && lfltab[m].lfused && lfltab[m].lfdirptr == f < |l.files|
        invariant TablesKept(old(Snap()), Snap(), m, f) && FilesKept(old(l), l, f)
        invariant (View(m), rs) == Run(a, ops[..i])
      {
        RunBounds(a, ops[..i]);
        PutWithin(a, ops, i);
        assert ops[..i + 1] == ops[..i] + [ops[i]];
        RunSnoc(a, ops[..i], ops[i]);
        ghost var s0 := Snap();
        var r;
        match ops[i] {
          case Put(ch) => r := PutC(m, ch);
          case Get => r := GetC(m);
          case Seek(offset) => r := Seek(m, offset);
        }
        TablesTrans(old(Snap()), s0, Snap(), m, f);
        rs := rs + [r];
      }
      assert ops[..|ops|] == ops;
    }

    // -------------------------------------------------------- truncation

    /** lftruncate, as lflcontrol calls it: every index block and every data block of the
        file joins its free list, once. */
    method Truncate(m: nat) returns (r: int)
      requires Valid() && m < lfltab.Length
      modifies this, disk, lfltab
      ensures Valid()
      ensures !old(lfltab[m].lfused) ==> r == SYSERR && Snap() == old(Snap()) && l == old(l)
      ensures old(lfltab[m].lfused) ==>
                && r == OK
                && old(lfltab[m].lfdirptr < |l.files|)
                && TablesKept(old(Snap()), Snap(), m, old(lfltab[m].lfdirptr))
                && l == (if |old(View(m)).content| == 0 then old(l) else Emptied(old(l), old(lfltab[m].lfdirptr)))
                && View(m).content == []
                && (if |old(View(m)).content| > 0 then View(m).pos == 0 else Snap() == old(Snap()))
    {
      hide InvBut, Working, DirAgrees, GetIb, DataSynced, Tight, Formatted, FileOk, Clearing, InAreas;
      if !lfltab[m].lfused {
        return SYSERR;
      }
      var f := lfltab[m].lfdirptr;
      Enter(Snap(), l, m);
      WorkingFrame(Snap(), l, m, f);
      CursorBasics(Snap(), l, m, f);
      ChainBounds(Snap(), l, m, f);
      if dir.lfdFiles[f].ldSize == 0 {
        return OK;
      }
      if lfltab[m].lfibdirty || lfltab[m].lfdbdirty {
        var _ := Flush(m);
        Enter(Snap(), l, m);
      }
      FreeAll(m, f);
      return OK;
    }

    /** Lines 34 to 101 of lftruncate, on a clean control block. */
    method FreeAll(m: nat, f: nat)
      requires Working(Snap(), l, m, f) && DataSynced(disk[..], l.ibs, lfltab[m])
      requires !lfltab[m].lfibdirty && !lfltab[m].lfdbdirty && |l.files[f].content| > 0
      modifies this, disk, lfltab
      ensures Valid() && l == Emptied(old(l), f)
      ensures TablesKept(old(Snap()), Snap(), m, f) && lfltab[m].lfpos == 0
    {
      hide InvBut, Working, GetIb, DataSynced, Formatted, FileOk, Clearing, InAreas, Inv;
      ghost var s0 := Snap();
      WorkingFrame(s0, l, m, f);
      CursorBasics(s0, l, m, f);
      ChainBounds(s0, l, m, f);
      lfltab[m] := lfltab[m].(lfpos := 0);
      lfltab[m] := lfltab[m].(lfinum := LF_INULL);
      lfltab[m] := lfltab[m].(lfdnum := LF_DNULL);
      lfltab[m] := lfltab[m].(lfbyte := LF_BLKSIZ);
      ghost var s1 := Snap();
      ResetStep(s0, l, m, f, s1);
      StartClearing(s1, l, m, f);

      var ifree := dir.lfdIfree;
      var firstib := dir.lfdFiles[f].ldIlist;
      dir := dir.(lfdFiles := dir.lfdFiles[f := dir.lfdFiles[f].(ldIlist := LF_INULL, ldSize := 0)]);
      dirdirty := true;
      FreeChain(f, firstib, ifree, s1.disk);
      ClearingFormat(s1.disk, disk[..], l, f, |l.files[f].dblks|, |l.files[f].chain|, dir.lfdDfree, ifree);
      dir := dir.(lfdIfree := firstib);
      dirdirty := true;
      TruncateStep(s1, l, m, f, Snap());
      l := Emptied(l, f);
    }

    /** Lines 54 to 90 of lftruncate: the walk ends because the last index block is relinked to
        the head of the free list, which is no block of the file. */
    method FreeChain(f: nat, firstib: int, ifree: int, ghost disk1: seq<Sector>)
      requires f < |l.files| && |l.files[f].chain| > 0 && firstib == l.files[f].chain[0] && ifree == Head(l.freeI)
      requires InAreas(disk1, l.ibs, l.files[f]) && Clearing(disk1, disk[..], l, f, 0, 0, dir.lfdDfree, ifree)
      requires SameIds(disk1, [DirSector(dir)])
      requires forall k {:trigger l.files[f].chain[k]} :: 0 <= k < |l.files[f].chain| ==>
                 && l.files[f].chain[k] >= 0 && l.files[f].chain[k] != ifree
                 && IbMatches(GetIb(disk1, l.files[f].chain[k]), l.files[f], k)
      requires |l.files[f].dblks| <= LF_IBLEN * |l.files[f].chain|
      requires -1 <= ifree < 0x8000_0000
      modifies this`dir, disk
      ensures Clearing(disk1, disk[..], l, f, |l.files[f].dblks|, |l.files[f].chain|, dir.lfdDfree, ifree)
      ensures dir == old(dir).(lfdDfree := dir.lfdDfree)
    {
      hide GetIb, Formatted, Clearing, InAreas;
      ghost var p := l.files[f];
      ghost var k := 0;
      var nextib := firstib;
      while nextib != ifree
        invariant k <= |p.chain| && nextib == (if k < |p.chain| then p.chain[k] else ifree)
        invariant Clearing(disk1, disk[..], l, f, FreedBlocks(p, k, 0), k, dir.lfdDfree, ifree)
        invariant dir == old(dir).(lfdDfree := dir.lfdDfree)
        decreases |p.chain| - k
      {
        ClearingFormat(disk1, disk[..], l, f, FreedBlocks(p, k, 0), k, dir.lfdDfree, ifree);
        ClearingSector(disk1, disk[..], l, f, FreedBlocks(p, k, 0), k, dir.lfdDfree, ifree);
        var iblock := IbGet(nextib);
        var cleared := FreeDataBlocks(f, k, iblock, ifree, disk1);
        cleared := cleared.(ibOffset := 0);
        if cleared.ibNext == LF_INULL {
          cleared := cleared.(ibNext := ifree);
        }
        ghost var disk2 := disk[..];
        ClearingSector(disk1, disk[..], l, f, FreedBlocks(p, k, LF_IBLEN), k, dir.lfdDfree, ifree);
        IbPut(nextib, cleared);
        ClearStep(disk1, disk2, l, f, FreedBlocks(p, k, LF_IBLEN), k, dir.lfdDfree, ifree, cleared, disk[..]);
        nextib := cleared.ibNext;
        k := k + 1;
      }
    }

    /** Lines 62 to 74 of lftruncate: free every data block that one index block names. */
    method FreeDataBlocks(f: nat, ghost k: nat, ib: iblock, ghost ifree: int, ghost disk1: seq<Sector>) returns (cleared: iblock)
      requires f < |l.files| && k < |l.files[f].chain| && IbMatches(ib, l.files[f], k)
      requires InAreas(disk1, l.ibs, l.files[f]) && SameIds(disk1, [DirSector(dir)])
      requires Clearing(disk1, disk[..], l, f, FreedBlocks(l.files[f], k, 0), k, dir.lfdDfree, ifree)
      modifies this`dir, disk
      ensures Clearing(disk1, disk[..], l, f, FreedBlocks(l.files[f], k, LF_IBLEN), k, dir.lfdDfree, ifree)
      ensures dir == old(dir).(lfdDfree := dir.lfdDfree)
      ensures cleared.ibNext == ib.ibNext
    {
      hide GetIb, NextFree, Formatted, Clearing, InAreas;
      ghost var p := l.files[f];
      cleared := ib;
      for i := 0 to LF_IBLEN
        invariant Clearing(disk1, disk[..], l, f, FreedBlocks(p, k, i), k, dir.lfdDfree, ifree)
        invariant dir == old(dir).(lfdDfree := dir.lfdDfree)
        invariant cleared.ibNext == ib.ibNext
        invariant forall j :: i <= j < LF_IBLEN ==> cleared.ibDba[j] == ib.ibDba[j]
      {
        var nextdb := cleared.ibDba[i];
        assert nextdb == ib.ibDba[i] == DbaAt(p, k, i);
        ClearingHead(disk1, disk[..], l, f, FreedBlocks(p, k, i), k, dir.lfdDfree, ifree);
        if nextdb != LF_DNULL {
          ClearingFormat(disk1, disk[..], l, f, FreedBlocks(p, k, i), k, dir.lfdDfree, ifree);
          ghost var disk2, dfree := disk[..], dir.lfdDfree;
          assert nextdb == p.dblks[FreedBlocks(p, k, i)];
          DbFree(nextdb);
          PushStep(disk1, disk2, l, f, FreedBlocks(p, k, i), k, dfree, ifree, disk[..][nextdb], dir, disk[..]);
        }
        cleared := cleared.(ibDba := cleared.ibDba[i := LF_DNULL]);
      }
    }

    // -------------------------------------------------------- opening and closing

    /** The disk copy of the directory holds the entry of slot f. */
    ghost predicate EntryOnDisk(f: nat)
      reads this, disk
    {
      && disk.Length > 0 && disk[LF_AREA_DIR].DirSector?
      && f < |dir.lfdFiles| && f < disk[LF_AREA_DIR].dir.lfdNfiles && f < |disk[LF_AREA_DIR].dir.lfdFiles|
      && disk[LF_AREA_DIR].dir.lfdFiles[f] == dir.lfdFiles[f]
    }

    /** lflclose: write back and release. A file that is not empty can then be read from the
        disk alone. The directory entry of an empty file is on the disk exactly if it was there
        before or the directory was dirty. */
    method Close(m: nat) returns (r: int)
      requires Valid() && m < lfltab.Length
      modifies this, disk, lfltab
      ensures Valid()
      ensures !old(lfltab[m].lfused) ==> r == SYSERR && Snap() == old(Snap()) && l == old(l)
      ensures old(lfltab[m].lfused) ==>
                var f := old(lfltab[m].lfdirptr);
                && r == OK && dir == old(dir) && !dirdirty
                && old(f < |l.files| && f < |l.opener|)
                && l == old(l).(opener := old(l.opener)[f := -1])
                && |lfltab[..]| == |old(lfltab[..])|
                && lfltab[..] == old(lfltab[..])[m := lfltab[m]] && !lfltab[m].lfused
                && (|l.files[f].content| > 0 ==> ReadImage(disk[..], f) == AsInts(l.files[f].content))
                && (EntryOnDisk(f) <==> old(dirdirty) || old(EntryOnDisk(f)))
      ensures !old(dirdirty || lfltab[m].lfdbdirty || lfltab[m].lfibdirty) ==> disk[..] == old(disk[..])
    {
      hide InvBut, Working, DirAgrees, GetIb, DataSynced, Tight, Formatted, ReadImage;
      if !lfltab[m].lfused {
        return SYSERR;
      }
      ghost var f := lfltab[m].lfdirptr;
      Enter(Snap(), l, m);
      WorkingFrame(Snap(), l, m, f);
      EntryInTable(Snap(), l, m, f);
      if dirdirty || lfltab[m].lfdbdirty || lfltab[m].lfibdirty {
        var _ := Flush(m);
        Enter(Snap(), l, m);
      } else if |l.files[f].content| > 0 {
        CleanPersists(Snap(), l, m, f);
      }
      ghost var s1, l1 := Snap(), l;
      lfltab[m] := lfltab[m].(lfused := false);
      l := l.(opener := l.opener[f := -1]);
      CloseStep(s1, l1, m, f, Snap(), l);
      return OK;
    }

    /** Names a control block in use that holds `name`, or -1. */
    ghost predicate IsOpen(name: string)
      reads this, lfltab
    {
      exists m {:trigger lfltab[m]} :: 0 <= m < lfltab.Length && lfltab[m].lfused && lfltab[m].lfname == name
    }

    ghost predicate IsFree(m: int)
      reads this, lfltab
    {
      0 <= m < lfltab.Length && !lfltab[m].lfused
    }

    ghost predicate NoneFree()
      reads this, lfltab
    {
      forall m {:trigger lfltab[m]} :: 0 <= m < lfltab.Length ==> lfltab[m].lfused
    }

    /** Lines 46 to 78 of lfsopen: the name must not be open, and the first free block is taken. */
    method FindBlock(name: string) returns (lfnext: int)
      ensures lfnext == SYSERR <==> IsOpen(name) || NoneFree()
      ensures lfnext != SYSERR ==> IsFree(lfnext) && forall m {:trigger lfltab[m]} :: 0 <= m < lfnext ==> lfltab[m].lfused
    {
      lfnext := SYSERR;
      for i := 0 to lfltab.Length
        invariant forall m {:trigger lfltab[m]} :: 0 <= m < i ==> !(lfltab[m].lfused && lfltab[m].lfname == name)
        invariant lfnext == SYSERR ==> forall m {:trigger lfltab[m]} :: 0 <= m < i ==> lfltab[m].lfused
        invariant lfnext != SYSERR ==> IsFree(lfnext) && forall m {:trigger lfltab[m]} :: 0 <= m < lfnext ==> lfltab[m].lfused
      {
        if !lfltab[i].lfused {
          if lfnext == SYSERR {
            lfnext := i;
          }
          continue;
        }
        if lfltab[i].lfname == name {
          return SYSERR;
        }
      }
    }

    /** Lines 100 to 116 of lfsopen: the first directory entry with the name, or the end. */
    method FindName(name: string) returns (i: nat)
      requires dir.lfdNfiles <= |dir.lfdFiles|
      ensures i <= dir.lfdNfiles
      ensures i < dir.lfdNfiles ==> dir.lfdFiles[i].ldName == name
      ensures forall f {:trigger dir.lfdFiles[f]} :: 0 <= f < i ==> dir.lfdFiles[f].ldName != name
    {
      i := 0;
      while i < dir.lfdNfiles
        invariant i <= dir.lfdNfiles
        invariant forall f {:trigger dir.lfdFiles[f]} :: 0 <= f < i ==> dir.lfdFiles[f].ldName != name
      {
        if dir.lfdFiles[i].ldName == name {
          break;
        }
        i := i + 1;
      }
    }

    /** When lfsopen refuses a name and a mode (None stands for a mode string with an error). */
    ghost predicate Refuses(name: string, mode: Option<Mode>)
      reads this, lfltab
    {
      || |name| >= LF_NAME_LEN || mode.None? || IsOpen(name) || NoneFree()
      || (if Named(dir, name) then mode.value.mustBeNew else mode.value.mustExist || dir.lfdNfiles >= LF_NUM_DIR_ENT)
    }

    /** lfsopen with the directory present. A file that did not exist is created empty, without marking
        the directory dirty. */
    method Open(name: string, mode: Option<Mode>) returns (r: int)
      requires Valid()
      modifies this, lfltab
      ensures Valid() && dirdirty == old(dirdirty)
      ensures r == SYSERR <==> old(Refuses(name, mode))
      ensures r == SYSERR ==> Snap() == old(Snap()) && l == old(l)
      ensures r != SYSERR ==>
                && old(IsFree(r)) && lfltab[r].lfused && lfltab[r].lfpos == 0 && !lfltab[r].lfibdirty && !lfltab[r].lfdbdirty
                && lfltab[..] == old(lfltab[..])[r := lfltab[r]]
                && lfltab[r].lfdirptr < |l.files| && lfltab[r].lfdirptr < |dir.lfdFiles|
                && dir.lfdFiles[lfltab[r].lfdirptr].ldName == name && Named(dir, name)
                && l.ibs == old(l).ibs && (forall m {:trigger lfltab[m]} :: 0 <= m < r ==> old(lfltab[m].lfused))
                && (if old(Named(dir, name)) then dir == old(dir) && l.files == old(l).files
                    else
                      && old(dir.lfdNfiles < |dir.lfdFiles|) && lfltab[r].lfdirptr == |old(l).files| && l.files == old(l).files + [FileParts([], [], [])]
                      && dir == old(dir).(lfdNfiles := old(dir.lfdNfiles) + 1,
                                          lfdFiles := old(dir.lfdFiles)[old(dir.lfdNfiles) := DirEntry(0, LF_INULL, name)]))
    {
      hide InvBut, DirSynced;
      OpenFacts(Snap(), l);
      if |name| >= LF_NAME_LEN {
        return SYSERR;
      }
      if mode.None? {
        return SYSERR;
      }
      var lfnext := FindBlock(name);
      if lfnext == SYSERR {
        return SYSERR;
      }
      var i := FindName(name);
      ghost var s0, l0 := Snap(), l;
      if i == dir.lfdNfiles {
        if mode.value.mustExist {
          return SYSERR;
        }
        if dir.lfdNfiles >= LF_NUM_DIR_ENT {
          return SYSERR;
        }
        dir := dir.(lfdNfiles := i + 1, lfdFiles := dir.lfdFiles[i := DirEntry(0, LF_INULL, name)]);
        l := l.(files := l.files + [FileParts([], [], [])], opener := l.opener + [-1]);
        CreateStep(s0, l0, name, Snap(), l);
      } else if mode.value.mustBeNew {
        return SYSERR;
      } else {
        NotOpened(s0, l0, i, name);
      }
      ghost var s1, l1 := Snap(), l;
      lfltab[lfnext] := lfltab[lfnext].(
        lfused := true, lfdirptr := i, lfpos := 0, lfname := name, lfinum := LF_INULL, lfdnum := LF_DNULL,
        lfbyte := LF_BLKSIZ, lfibdirty := false, lfdbdirty := false);
      l := l.(opener := l.opener[i := lfnext]);
      OpenStep(s1, l1, lfnext, i, lfltab[lfnext], Snap(), l);
      return lfnext;
    }
  }

  /** Lines 84 to 95 of lfsopen: the directory is read, and taken over exactly if it passes the check. On
      an image that holds the files of layout l0, none of them is open then. */
  method Mount(image: array<Sector>, nlfl: nat, ghost l0: Layout) returns (fs: LocalFileSystem?)
    requires Mountable(image[..], l0)
    ensures fs != null <==> LfsCheck(image[LF_AREA_DIR].dir)
    ensures fs != null ==>
              && fresh(fs) && fs.disk == image && fs.l == l0 && fs.Valid()
              && fs.dir == image[LF_AREA_DIR].dir && fs.lfltab.Length == nlfl
              && fresh(fs.lfltab) && !fs.dirdirty && forall m :: 0 <= m < nlfl ==> !fs.lfltab[m].lfused
  {
    if !LfsCheck(image[LF_AREA_DIR].dir) {
      return null;
    }
    var closed := Closed();
    var tab := new Lflcblk[nlfl](_ => closed);
    fs := new LocalFileSystem(image, tab, image[LF_AREA_DIR].dir, l0);
    MountStep(image[..], l0, fs.Snap());
  }

  /** A disk of any contents, except that one that passes the check holds the files of layout l0. */
  ghost predicate Mountable(disk: seq<Sector>, l0: Layout) {
    |disk| > 0 && disk[LF_AREA_DIR].DirSector? && (LfsCheck(disk[LF_AREA_DIR].dir) ==> Image(disk, l0))
  }

  /** The master device. Its directory is not present before the first open that gets as far as the disk. */
  class Master {
    const disk: array<Sector>
    const nlfl: nat
    var fs: LocalFileSystem?
    ghost const l0: Layout

    ghost predicate Valid()
      reads this, disk, fs, if fs == null then {} else {fs.disk, fs.lfltab}
    {
      if fs == null then Mountable(disk[..], l0)
      else fs.disk == disk && fs.lfltab.Length == nlfl && fs.Valid() && LfsCheck(fs.dir)
    }

    /** lfsinit. */
    constructor (disk: array<Sector>, nlfl: nat, ghost l0: Layout)
      requires Mountable(disk[..], l0)
      ensures Valid() && this.disk == disk && this.nlfl == nlfl && this.l0 == l0 && fs == null
    {
      this.disk, this.nlfl, this.l0, fs := disk, nlfl, l0, null;
    }

    /** The whole of lfsopen. A directory that does not pass the check is refused at every open. */
    method Open(name: string, mode: Option<Mode>) returns (r: int)
      requires Valid()
      modifies this, if fs == null then {} else {fs, fs.lfltab}
      ensures Valid()
      ensures old(fs) != null ==> fs == old(fs) && (r == SYSERR <==> old(fs.Refuses(name, mode)))
      ensures old(fs) == null ==>
                var d := old(disk[LF_AREA_DIR].dir);
                && (fs != null <==> |name| < LF_NAME_LEN && mode.Some? && nlfl > 0 && LfsCheck(d))
                && (fs != null ==>
                      && fresh(fs) && fresh(fs.lfltab) && !fs.dirdirty
                      && fs.l.files == (if r == SYSERR || Named(d, name) then l0.files else l0.files + [FileParts([], [], [])]))
                && (r == SYSERR <==> (fs == null
                      || if Named(d, name) then mode.value.mustBeNew else mode.value.mustExist || d.lfdNfiles >= LF_NUM_DIR_ENT))
      ensures old(fs) != null ==>
                fs.l.files == (if r == SYSERR || old(Named(fs.dir, name)) then old(fs.l.files) else old(fs.l.files) + [FileParts([], [], [])])
      ensures r != SYSERR ==>
                && fs != null && 0 <= r < fs.lfltab.Length && fs.lfltab[r].lfused && fs.lfltab[r].lfpos == 0
                && !fs.lfltab[r].lfibdirty && !fs.lfltab[r].lfdbdirty
                && fs.lfltab[r].lfdirptr < |fs.dir.lfdFiles| && fs.dir.lfdFiles[fs.lfltab[r].lfdirptr].ldName == name
                && Named(fs.dir, name)
    {
      hide Inv, Image;
      if fs == null {
        if |name| >= LF_NAME_LEN || mode.None? || nlfl == 0 {
          return SYSERR;
        }
        fs := Mount(disk, nlfl, l0);
        if fs == null {
          return SYSERR;
        }
        assert !fs.lfltab[0].lfused && !fs.IsOpen(name);
      }
      r := fs.Open(name, mode);
    }
  }
}
