/** The state of the local file system, and the invariant that ties it to abstract files.

    The invariant names, for every directory entry, the chain of index blocks, the data
    blocks in file order and the bytes of the file. A block that an open file has cached
    counts with its cached contents; every other block counts with what the disk holds. */
module LfsState {
  import opened Bytes
  import opened LfsDisk

  type dblock = b: seq<byte> | |b| == LF_BLKSIZ witness seq(LF_BLKSIZ, _ => 0)

  /** Control block of one file pseudo-device. `lfbyte` is an offset into `lfdblock`;
      LF_BLKSIZ stands for the address one beyond the buffer. */
  datatype Lflcblk = Lflcblk(
    lfused: bool, lfdirptr: nat, lfname: string, lfpos: nat,
    lfinum: int, lfiblock: iblock, lfdnum: int, lfdblock: dblock, lfbyte: nat,
    lfibdirty: bool, lfdbdirty: bool)

  datatype State = State(disk: seq<Sector>, dir: Directory, dirdirty: bool, lfltab: seq<Lflcblk>)

  /** What a file is made of: its index blocks, its data blocks, its bytes. */
  datatype FileParts = FileParts(chain: seq<int>, dblks: seq<int>, content: seq<byte>)

  /** Where a block belongs: position `idx` of file `file`, or the free list (`FREE`),
      whose positions are counted from the end of the list. */
  datatype Slot = Slot(file: int, idx: nat)

  const FREE := -1

  /** The logical layout of the disk. `opener[f]` is the control block that has f open. */
  datatype Layout = Layout(
    ibs: nat, freeI: seq<int>, freeD: seq<int>, files: seq<FileParts>,
    iown: seq<Slot>, down: seq<Slot>, opener: seq<int>)

  function Head(ids: seq<int>): int { if |ids| == 0 then -1 else ids[0] }

  function Link(ids: seq<int>, k: nat): int { if k + 1 < |ids| then ids[k + 1] else -1 }

  // ---------------------------------------------------------------- ownership

  ghost predicate FileOwns(own: seq<Slot>, ids: seq<int>, f: int) {
    forall k {:trigger ids[k]} :: 0 <= k < |ids| ==> 0 <= ids[k] < |own| && own[ids[k]] == Slot(f, k)
  }

  ghost predicate FreeOwns(own: seq<Slot>, ids: seq<int>) {
    forall k {:trigger ids[k]} :: 0 <= k < |ids| ==>
      0 <= ids[k] < |own| && own[ids[k]] == Slot(FREE, |ids| - 1 - k)
  }

  /** The slot of block `b` points back at `b`. */
  ghost predicate Placed(slot: Slot, b: int, free: seq<int>, ids: seq<int>) {
    if slot.file == FREE then slot.idx < |free| && free[|free| - 1 - slot.idx] == b
    else slot.idx < |ids| && ids[slot.idx] == b
  }

  function ChainOf(l: Layout, f: int): seq<int> { if 0 <= f < |l.files| then l.files[f].chain else [] }

  function BlocksOf(l: Layout, f: int): seq<int> { if 0 <= f < |l.files| then l.files[f].dblks else [] }

  ghost predicate IndexOwnership(l: Layout) {
    && |l.iown| == IB_PER_SECTOR * l.ibs
    && FreeOwns(l.iown, l.freeI)
    && (forall f {:trigger l.files[f]} :: 0 <= f < |l.files| ==> FileOwns(l.iown, l.files[f].chain, f))
    && (forall b {:trigger l.iown[b]} :: 0 <= b < |l.iown| ==>
          && FREE <= l.iown[b].file < |l.files|
          && Placed(l.iown[b], b, l.freeI, ChainOf(l, l.iown[b].file)))
  }

  ghost predicate DataOwnership(l: Layout, n: nat) {
    && |l.down| == n
    && FreeOwns(l.down, l.freeD)
    && (forall k {:trigger l.freeD[k]} :: 0 <= k < |l.freeD| ==> l.ibs < l.freeD[k])
    && (forall f {:trigger l.files[f]} :: 0 <= f < |l.files| ==>
          && FileOwns(l.down, l.files[f].dblks, f)
          && forall k {:trigger l.files[f].dblks[k]} :: 0 <= k < |l.files[f].dblks| ==> l.ibs < l.files[f].dblks[k])
    && (forall b {:trigger l.down[b]} :: l.ibs < b < n ==>
          && FREE <= l.down[b].file < |l.files|
          && Placed(l.down[b], b, l.freeD, BlocksOf(l, l.down[b].file)))
  }

  // ---------------------------------------------------------------- one file

  /** The control block of a file that is not open: nothing cached. */
  function Closed(): (c: Lflcblk)
    ensures !c.lfused && c.lfinum == LF_INULL && c.lfdnum == LF_DNULL && c.lfbyte == LF_BLKSIZ
    ensures !c.lfibdirty && !c.lfdbdirty
  {
    Lflcblk(false, 0, "", 0, LF_INULL, IndexBlock(0, 0, seq(LF_IBLEN, _ => 0)),
            LF_DNULL, seq(LF_BLKSIZ, _ => 0), LF_BLKSIZ, false, false)
  }

  ghost function CacheOf(tab: seq<Lflcblk>, l: Layout, f: nat): Lflcblk
    requires f < |l.opener|
  {
    if 0 <= l.opener[f] < |tab| then tab[l.opener[f]] else Closed()
  }

  ghost predicate InAreas(disk: seq<Sector>, ibs: nat, p: FileParts) {
    && Formatted(disk, ibs)
    && (forall k {:trigger p.chain[k]} :: 0 <= k < |p.chain| ==> IsIb(p.chain[k], ibs))
    && (forall k {:trigger p.dblks[k]} :: 0 <= k < |p.dblks| ==> ibs < p.dblks[k] < |disk|)
  }

  ghost function EffIb(disk: seq<Sector>, ibs: nat, c: Lflcblk, ib: int): iblock
    requires Formatted(disk, ibs) && IsIb(ib, ibs)
  {
    if c.lfinum == ib then c.lfiblock else GetIb(disk, ib)
  }

  ghost function EffDb(disk: seq<Sector>, ibs: nat, c: Lflcblk, d: int): dblock
    requires Formatted(disk, ibs) && ibs < d < |disk|
  {
    if c.lfdnum == d then c.lfdblock else disk[d].data
  }

  /** The entry of index block k for data block j, as the layout p dictates. */
  function DbaAt(p: FileParts, k: nat, j: nat): int {
    if LF_IBLEN * k + j < |p.dblks| then p.dblks[LF_IBLEN * k + j] else LF_DNULL
  }

  ghost predicate IbMatches(ib: iblock, p: FileParts, k: nat) {
    && ib.ibOffset == LF_IDATA * k
    && ib.ibNext == Link(p.chain, k)
    && forall j {:trigger ib.ibDba[j]} :: 0 <= j < LF_IBLEN ==> ib.ibDba[j] == DbaAt(p, k, j)
  }

  ghost predicate IndexMatches(disk: seq<Sector>, ibs: nat, c: Lflcblk, p: FileParts)
    requires InAreas(disk, ibs, p)
  {
    forall k {:trigger EffIb(disk, ibs, c, p.chain[k])} :: 0 <= k < |p.chain| ==> IbMatches(EffIb(disk, ibs, c, p.chain[k]), p, k)
  }

  /** Every byte of the file is the byte its data block shows at that offset. */
  ghost predicate DataMatches(disk: seq<Sector>, ibs: nat, c: Lflcblk, p: FileParts)
    requires InAreas(disk, ibs, p)
    requires |p.content| <= LF_BLKSIZ * |p.dblks|
  {
    forall i {:trigger p.content[i]} :: 0 <= i < |p.content| ==>
      p.content[i] == EffDb(disk, ibs, c, p.dblks[i / LF_BLKSIZ])[i % LF_BLKSIZ]
  }

  ghost predicate CacheOk(disk: seq<Sector>, ibs: nat, c: Lflcblk, p: FileParts)
    requires InAreas(disk, ibs, p)
  {
    && (if c.lfinum == LF_INULL then !c.lfibdirty
        else c.lfinum in p.chain && (!c.lfibdirty ==> c.lfiblock == GetIb(disk, c.lfinum)))
    && (if c.lfdnum == LF_DNULL then !c.lfdbdirty else c.lfdnum in p.dblks)
    && c.lfbyte <= LF_BLKSIZ
    && (c.lfbyte < LF_BLKSIZ ==>
          && c.lfpos % LF_BLKSIZ == c.lfbyte
          && c.lfpos / LF_BLKSIZ < |p.dblks|
          && c.lfdnum == p.dblks[c.lfpos / LF_BLKSIZ])
  }

  /** A clean cached data block equals its disk copy. */
  ghost predicate DataSynced(disk: seq<Sector>, ibs: nat, c: Lflcblk) {
    c.lfdnum != LF_DNULL && !c.lfdbdirty ==>
      ibs < c.lfdnum < |disk| && disk[c.lfdnum] == RawSector(c.lfdblock)
  }

  /** No block more than the bytes need. */
  ghost predicate Tight(p: FileParts) {
    && (|p.dblks| > 0 ==> LF_BLKSIZ * (|p.dblks| - 1) < |p.content|)
    && (|p.chain| > 0 ==> LF_IBLEN * (|p.chain| - 1) < |p.dblks|)
  }

  ghost predicate FileRep(disk: seq<Sector>, ibs: nat, c: Lflcblk, e: DirEntry, p: FileParts) {
    && InAreas(disk, ibs, p)
    && e.ldSize == |p.content| <= LF_BLKSIZ * |p.dblks|
    && |p.dblks| <= LF_IBLEN * |p.chain|
    && (|p.chain| > 0 ==> LF_IBLEN * (|p.chain| - 1) <= |p.dblks|)
    && e.ldIlist == Head(p.chain)
    && IndexMatches(disk, ibs, c, p)
    && DataMatches(disk, ibs, c, p)
    && CacheOk(disk, ibs, c, p)
  }

  // ---------------------------------------------------------------- the whole file system

  ghost predicate Shape(s: State, l: Layout) {
    && Formatted(s.disk, l.ibs)
    && s.disk[0].dir.ids == s.dir.ids
    && |s.dir.lfdFiles| == LF_NUM_DIR_ENT
    && s.dir.lfdNfiles == |l.files| == |l.opener| <= LF_NUM_DIR_ENT
  }

  ghost predicate FreeIndexList(disk: seq<Sector>, l: Layout, head: int)
    requires Formatted(disk, l.ibs)
  {
    && head == Head(l.freeI)
    && forall k {:trigger Link(l.freeI, k)} :: 0 <= k < |l.freeI| ==>
         IsIb(l.freeI[k], l.ibs) && GetIb(disk, l.freeI[k]).ibNext == Link(l.freeI, k)
  }

  ghost predicate FreeDataList(disk: seq<Sector>, l: Layout, head: int)
    requires Formatted(disk, l.ibs)
  {
    && head == Head(l.freeD)
    && forall k {:trigger Link(l.freeD, k)} :: 0 <= k < |l.freeD| ==>
         l.ibs < l.freeD[k] < |disk| && NextFree(disk[l.freeD[k]]) == Link(l.freeD, k)
  }

  /** Each file is open at most once, and control blocks carry the names of their files. */
  ghost predicate OpenTable(s: State, l: Layout)
    requires Shape(s, l)
  {
    && (forall m {:trigger s.lfltab[m]} :: 0 <= m < |s.lfltab| && s.lfltab[m].lfused ==>
          && s.lfltab[m].lfdirptr < |l.files|
          && l.opener[s.lfltab[m].lfdirptr] == m
          && s.lfltab[m].lfname == s.dir.lfdFiles[s.lfltab[m].lfdirptr].ldName)
    && (forall f {:trigger l.opener[f]} :: 0 <= f < |l.opener| && l.opener[f] != -1 ==>
          0 <= l.opener[f] < |s.lfltab| && s.lfltab[l.opener[f]].lfused && s.lfltab[l.opener[f]].lfdirptr == f)
  }

  ghost predicate NamesDistinct(s: State)
    requires |s.dir.lfdFiles| == LF_NUM_DIR_ENT && s.dir.lfdNfiles <= LF_NUM_DIR_ENT
  {
    forall f, g {:trigger s.dir.lfdFiles[f], s.dir.lfdFiles[g]} :: 0 <= f < g < s.dir.lfdNfiles ==>
      s.dir.lfdFiles[f].ldName != s.dir.lfdFiles[g].ldName
  }

  /** The disk directory `d` is the one in memory, except that the files at its end may be missing if they
      are empty. */
  ghost predicate DirAgrees(d: Directory, dir: Directory) {
    && d.lfdDfree == dir.lfdDfree && d.lfdIfree == dir.lfdIfree
    && |d.lfdFiles| == |dir.lfdFiles| && d.lfdNfiles <= dir.lfdNfiles <= |dir.lfdFiles|
    && (forall f {:trigger dir.lfdFiles[f]} :: 0 <= f < d.lfdNfiles ==> d.lfdFiles[f] == dir.lfdFiles[f])
    && (forall f {:trigger dir.lfdFiles[f]} :: d.lfdNfiles <= f < dir.lfdNfiles ==> dir.lfdFiles[f].ldSize == 0)
  }

  /** A directory not marked dirty agrees with its disk copy. */
  ghost predicate DirSynced(s: State) {
    !s.dirdirty ==> |s.disk| > 0 && s.disk[0].DirSector? && DirAgrees(s.disk[0].dir, s.dir)
  }

  ghost predicate FileOk(s: State, l: Layout, f: nat)
    requires Shape(s, l) && f < |l.files|
  {
    FileRep(s.disk, l.ibs, CacheOf(s.lfltab, l, f), s.dir.lfdFiles[f], l.files[f])
  }

  ghost predicate Settled(s: State, l: Layout, f: nat)
    requires Shape(s, l) && f < |l.files|
  {
    Tight(l.files[f]) && DataSynced(s.disk, l.ibs, CacheOf(s.lfltab, l, f))
  }

  /** Everything the invariant says, except about file `x` (x == -1 leaves out no file). */
  ghost predicate InvBut(s: State, l: Layout, x: int) {
    && Shape(s, l)
    && IndexOwnership(l)
    && DataOwnership(l, |s.disk|)
    && FreeIndexList(s.disk, l, s.dir.lfdIfree)
    && FreeDataList(s.disk, l, s.dir.lfdDfree)
    && OpenTable(s, l)
    && NamesDistinct(s)
    && forall f {:trigger FileOk(s, l, f)} :: 0 <= f < |l.files| && f != x ==> FileOk(s, l, f) && Settled(s, l, f)
  }

  ghost predicate Inv(s: State, l: Layout) {
    InvBut(s, l, -1) && DirSynced(s)
  }
}
