/** Building an empty file system on a disk. */
module LfsCreate {
  import opened Common
  import opened Bytes
  import opened LfsDisk
  import opened LfsState
  import opened LfsPersist
  import opened LfsSpec
  import opened LfsTruncate
  import Lfs

  /** The sectors that hold at least `lfiblks` index blocks. */
  function IbSectors(lfiblks: int): (k: int)
    ensures lfiblks <= IB_PER_SECTOR * k < lfiblks + IB_PER_SECTOR
  {
    (lfiblks + (IB_PER_SECTOR - 1)) / IB_PER_SECTOR
  }

  /** A zeroed data block with a link in its first word. */
  function FreeBlock(next: int32): (s: Sector)
    ensures IsRaw(s) && NextFree(s) == next
  {
    var data := EncodeId(next) + seq(LF_BLKSIZ - 4, _ => 0 as byte);
    assert data[0..4] == EncodeId(next);
    IdRoundTrip(next);
    RawSector(data)
  }

  /** The first n index blocks of the image are linked in order. */
  ghost predicate Linked(disk: seq<Sector>, ibs: nat, n: nat)
    requires Formatted(disk, ibs)
  {
    forall b: nat {:trigger GetIb(disk, b)} :: b < n && IsIb(b, ibs) ==>
      GetIb(disk, b).ibNext == (if b + 1 < IB_PER_SECTOR * ibs then b + 1 else LF_INULL)
  }

  lemma LinkedNext(disk: seq<Sector>, ibs: nat, n: nat, v: iblock)
    requires Formatted(disk, ibs) && Linked(disk, ibs, n) && IsIb(n, ibs) && IsRaw(disk[Ib2Sect(n)])
    requires v.ibNext == (if n + 1 < IB_PER_SECTOR * ibs then n + 1 else LF_INULL)
    ensures Formatted(PutIb(disk, n, v), ibs) && Linked(PutIb(disk, n, v), ibs, n + 1)
    ensures PutIb(disk, n, v)[0] == disk[0]
  {
    hide GetIb, PutIb;
    PutIbFrame(disk, ibs, n, v);
  }

  /** Lines 54 to 60 of lfscreate. */
  method LinkIndexBlocks(fs: Lfs.LocalFileSystem, ibs: nat)
    requires Formatted(fs.disk[..], ibs)
    modifies fs.disk
    ensures Formatted(fs.disk[..], ibs) && Linked(fs.disk[..], ibs, IB_PER_SECTOR * ibs)
    ensures fs.disk[0] == old(fs.disk[0])
  {
    hide GetIb, PutIb, Formatted, Linked;
    var n := ibs * IB_PER_SECTOR;
    FormattedSize(fs.disk[..], ibs);
    var ib: iblock := fs.IbClear(0);
    assert Linked(fs.disk[..], ibs, 0) by { LinkedNone(fs.disk[..], ibs); }
    for i := 0 to n - 1
      invariant Formatted(fs.disk[..], ibs) && Linked(fs.disk[..], ibs, i)
      invariant fs.disk[0] == old(fs.disk[0])
    {
      ib := ib.(ibNext := i + 1);
      FormattedSector(fs.disk[..], ibs, i);
      LinkedNext(fs.disk[..], ibs, i, ib);
      fs.IbPut(i, ib);
    }
    ib := ib.(ibNext := LF_INULL);
    FormattedSector(fs.disk[..], ibs, n - 1);
    LinkedNext(fs.disk[..], ibs, n - 1, ib);
    fs.IbPut(n - 1, ib);
  }

  lemma LinkedNone(disk: seq<Sector>, ibs: nat)
    requires Formatted(disk, ibs)
    ensures Linked(disk, ibs, 0)
  {
  }

  lemma FormattedSize(disk: seq<Sector>, ibs: nat)
    requires Formatted(disk, ibs)
    ensures 1 <= ibs && ibs < |disk| < 0x80_0000
  {
  }

  lemma FormattedSector(disk: seq<Sector>, ibs: nat, b: nat)
    requires Formatted(disk, ibs) && IsIb(b, ibs)
    ensures 1 <= Ib2Sect(b) <= ibs < |disk| && IsRaw(disk[Ib2Sect(b)])
  {
    IbSectorInArea(b, ibs);
  }

  /** Lines 64 to 71 of lfscreate. */
  method LinkDataBlocks(disk: array<Sector>, ibs: nat)
    requires Formatted(disk[..], ibs) && ibs + 1 < disk.Length
    modifies disk
    ensures Formatted(disk[..], ibs)
    ensures disk[..ibs + 1] == old(disk[..ibs + 1])
    ensures forall d {:trigger disk[..][d]} :: ibs < d < disk.Length ==>
              NextFree(disk[..][d]) == (if d + 1 < disk.Length then d + 1 else LF_DNULL)
  {
    hide NextFree;
    var dbindex := ibs + 1;
    while dbindex < disk.Length - 1
      invariant ibs < dbindex <= disk.Length - 1
      invariant Formatted(disk[..], ibs) && disk[..ibs + 1] == old(disk[..ibs + 1])
      invariant forall d {:trigger disk[d]} :: ibs < d < dbindex ==> NextFree(disk[d]) == d + 1
    {
      disk[dbindex] := FreeBlock(dbindex + 1);
      dbindex := dbindex + 1;
    }
    disk[dbindex] := FreeBlock(LF_DNULL);
  }

  /** lfscreate: an empty file system on a disk of `dsiz` bytes. The preconditions are where
      the source goes wrong: with no index blocks it links index block 0 into the data area,
      and with exactly two sectors its unsigned loop bound for data blocks wraps. */
  method Create(disk: array<Sector>, lfiblks: int, dsiz: uint32) returns (r: int)
    requires disk.Length == dsiz / LF_BLKSIZ && disk.Length != 2 && 1 <= lfiblks <= 0x7FFF_FFF0
    requires forall s {:trigger disk[s]} :: 1 <= s < disk.Length ==> IsRaw(disk[s])
    modifies disk
    ensures r == SYSERR <==> IbSectors(lfiblks) > disk.Length / 2
    ensures r == SYSERR ==> disk[..] == old(disk[..])
    ensures r != SYSERR ==> r == OK && Image(disk[..], BlankLayout(IbSectors(lfiblks), disk.Length))
    ensures r != SYSERR ==> disk[LF_AREA_DIR].DirSector? && !LfsCheck(disk[LF_AREA_DIR].dir)
  {
    hide GetIb, NextFree, Image;
    var ibsectors := IbSectors(lfiblks);
    if ibsectors > disk.Length / 2 {
      return SYSERR;
    }
    var dir := Directory(FsysIds(0, 0, 0, 0), ibsectors + 1, 0, 0, seq(LF_NUM_DIR_ENT, _ => DirEntry(0, 0, "")));
    disk[LF_AREA_DIR] := DirSector(dir);
    var none := new Lflcblk[0](_ => Closed());
    var fs := new Lfs.LocalFileSystem(disk, none, dir, BlankLayout(ibsectors, disk.Length));
    LinkIndexBlocks(fs, ibsectors);
    ghost var linked := disk[..];
    LinkDataBlocks(disk, ibsectors);
    forall b: nat | IsIb(b, ibsectors)
      ensures GetIb(disk[..], b) == GetIb(linked, b)
    {
      FormattedSector(linked, ibsectors, b);
      assert disk[Ib2Sect(b)] == disk[..ibsectors + 1][Ib2Sect(b)];
      SameSectorSameIb(linked, disk[..], b);
    }
    BlankImage(disk[..], ibsectors, dir);
    return OK;
  }

  /** A disk that lfscreate has formatted is never opened: lfscreate does not write the words that the
      check looks for. */
  method OpenBlank(disk: array<Sector>, lfiblks: int, dsiz: uint32, nlfl: nat, name: string, mode: Option<Lfs.Mode>)
    returns (r: int, dev: Lfs.Master?, m: int)
    requires disk.Length == dsiz / LF_BLKSIZ && disk.Length != 2 && 1 <= lfiblks <= 0x7FFF_FFF0
    requires forall s {:trigger disk[s]} :: 1 <= s < disk.Length ==> IsRaw(disk[s])
    modifies disk
    ensures r == SYSERR <==> IbSectors(lfiblks) > disk.Length / 2
    ensures r != SYSERR ==> dev != null && dev.disk == disk && dev.Valid() && m == SYSERR && dev.fs == null
  {
    hide Image, Inv;
    dev, m := null, SYSERR;
    r := Create(disk, lfiblks, dsiz);
    if r != SYSERR {
      dev := new Lfs.Master(disk, nlfl, BlankLayout(IbSectors(lfiblks), disk.Length));
      m := dev.Open(name, mode);
    }
  }

  /** A run in which a file is lost: a new file is opened and closed again, and no sector is written. The
      directory in memory has it; after a restart it does not exist. */
  method LoseEmptyFile(disk: array<Sector>, nlfl: nat, ghost l0: Layout, name: string) returns (m: int, dev: Lfs.Master, found: int)
    requires disk.Length > 0 && Image(disk[..], l0) && LfsCheck(disk[LF_AREA_DIR].dir) && nlfl > 0 && |name| < LF_NAME_LEN
    requires !Lfs.Named(disk[LF_AREA_DIR].dir, name) && disk[LF_AREA_DIR].dir.lfdNfiles < LF_NUM_DIR_ENT
    modifies disk
    ensures m != SYSERR && dev.fs != null && dev.fs.Valid() && Lfs.Named(dev.fs.dir, name)
    ensures disk[..] == old(disk[..])
    ensures found == SYSERR
  {
    hide Image, Inv;
    ImageDirectory(disk[..], l0);
    dev := new Lfs.Master(disk, nlfl, l0);
    m := dev.Open(name, Some(Lfs.Mode(false, false)));
    var _ := dev.fs.Close(m);
    var again := new Lfs.Master(disk, nlfl, l0);
    found := again.Open(name, Some(Lfs.Mode(true, false)));
  }

  lemma ImageDirectory(disk: seq<Sector>, l: Layout)
    requires Image(disk, l)
    ensures |disk| > 0 && disk[LF_AREA_DIR].DirSector?
  {
  }
}
