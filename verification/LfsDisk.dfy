/** The disk layout of the local file system: index blocks packed seven to a sector,
    one directory sector, and data blocks. */
module LfsDisk {
  import opened Bytes

  const LF_BLKSIZ := 512
  const LF_IBLEN := 16
  const LF_IDATA := 8192
  const IBLK_SIZE := 72
  const IB_PER_SECTOR := 7
  const LF_AREA_DIR := 0
  const LF_AREA_IB := 1
  const LF_INULL := -1
  const LF_DNULL := -1
  const LF_NUM_DIR_ENT := 20
  const LF_NAME_LEN := 16

  /** An index block: next index block, first file byte it covers, sixteen data blocks. */
  datatype IndexBlock = IndexBlock(ibNext: int32, ibOffset: uint32, ibDba: seq<int32>)

  type iblock = ib: IndexBlock | |ib.ibDba| == LF_IBLEN witness IndexBlock(0, 0, seq(LF_IBLEN, _ => 0))

  datatype DirEntry = DirEntry(ldSize: nat, ldIlist: int, ldName: string)

  const LFS_ID: uint32 := 0x58696E75
  const ALL_ONES: uint32 := 0xFFFF_FFFF

  /** The words by which a directory is recognised. */
  datatype FsysIds = FsysIds(lfdFsysid: uint32, lfdAllzeros: uint32, lfdAllones: uint32, lfdRevid: uint32)

  datatype Directory = Directory(ids: FsysIds, lfdDfree: int, lfdIfree: int, lfdNfiles: nat, lfdFiles: seq<DirEntry>)

  /** A word with its four bytes in reverse order. */
  function ByteReversed(w: uint32): (r: uint32) {
    w / 0x100_0000 + w / 0x1_0000 % 0x100 * 0x100 + w / 0x100 % 0x100 * 0x1_0000 + w % 0x100 * 0x100_0000
  }

  lemma ReversedBytes(w: uint32)
    ensures var a, b := EncodeWord(w), EncodeWord(ByteReversed(w)); b == [a[3], a[2], a[1], a[0]]
  {
    var a := EncodeWord(w);
    assert ByteReversed(w) == DecodeWord([a[3], a[2], a[1], a[0]]);
    WordBytes([a[3], a[2], a[1], a[0]]);
  }

  /** lfscheck: whether the directory is that of a local file system. */
  predicate LfsCheck(dir: Directory) {
    dir.ids.lfdFsysid == LFS_ID && dir.ids.lfdAllzeros == 0 && dir.ids.lfdAllones == ALL_ONES && dir.ids.lfdRevid == ByteReversed(LFS_ID)
  }

  /** Sector 0 holds the directory; every other sector is 512 uninterpreted bytes. */
  datatype Sector = DirSector(dir: Directory) | RawSector(data: seq<byte>)

  predicate IsRaw(s: Sector) { s.RawSector? && |s.data| == LF_BLKSIZ }

  /** A formatted disk image with `ibs` sectors of index blocks. */
  ghost predicate Formatted(disk: seq<Sector>, ibs: nat) {
    && 1 <= ibs
    && ibs + 1 <= |disk| < 0x80_0000
    && disk[0].DirSector?
    && forall s {:trigger disk[s]} :: 1 <= s < |disk| ==> IsRaw(disk[s])
  }

  function EncodeIds(ids: seq<int32>): (b: seq<byte>)
    ensures |b| == 4 * |ids|
    ensures forall k {:trigger ids[k]} :: 0 <= k < |ids| ==> b[4 * k..4 * k + 4] == EncodeId(ids[k])
  {
    if |ids| == 0 then [] else
    var init := EncodeIds(ids[..|ids| - 1]);
    var last := EncodeId(ids[|ids| - 1]);
    assert forall k {:trigger ids[k]} :: 0 <= k < |ids| - 1 ==>
      (init + last)[4 * k..4 * k + 4] == init[4 * k..4 * k + 4] && ids[k] == ids[..|ids| - 1][k];
    assert (init + last)[4 * (|ids| - 1)..4 * (|ids| - 1) + 4] == last;
    init + last
  }

  function EncodeIblock(ib: iblock): (b: seq<byte>)
    ensures |b| == IBLK_SIZE
  {
    EncodeId(ib.ibNext) + EncodeWord(ib.ibOffset) + EncodeIds(ib.ibDba)
  }

  function DecodeIblock(b: seq<byte>): (ib: iblock)
    requires |b| == IBLK_SIZE
  {
    IndexBlock(DecodeId(b[0..4]), DecodeWord(b[4..8]),
               seq(LF_IBLEN, k requires 0 <= k < LF_IBLEN => DecodeId(b[8 + 4 * k..12 + 4 * k])))
  }

  /** An index block survives its 72-byte disk form. */
  lemma IblockRoundTrip(ib: iblock)
    ensures DecodeIblock(EncodeIblock(ib)) == ib
  {
    var b := EncodeIblock(ib);
    assert b[0..4] == EncodeId(ib.ibNext);
    assert b[4..8] == EncodeWord(ib.ibOffset);
    IdRoundTrip(ib.ibNext);
    WordRoundTrip(ib.ibOffset);
    var d := DecodeIblock(b).ibDba;
    forall k | 0 <= k < LF_IBLEN
      ensures d[k] == ib.ibDba[k]
    {
      assert b[8 + 4 * k..12 + 4 * k] == EncodeIds(ib.ibDba)[4 * k..4 * k + 4];
      IdRoundTrip(ib.ibDba[k]);
    }
  }

  /** Any 72 bytes are an index block: decoding loses nothing. */
  lemma IblockBytes(b: seq<byte>)
    requires |b| == IBLK_SIZE
    ensures EncodeIblock(DecodeIblock(b)) == b
  {
    hide EncodeIds, EncodeId, DecodeId, EncodeWord, DecodeWord;
    var d := DecodeIblock(b);
    IdBytes(b[0..4]);
    WordBytes(b[4..8]);
    var ids := EncodeIds(d.ibDba);
    forall i | 0 <= i < 4 * LF_IBLEN ensures ids[i] == b[8 + i] {
      var k := i / 4;
      IdBytes(b[8 + 4 * k..12 + 4 * k]);
      assert ids[4 * k..4 * k + 4] == EncodeId(d.ibDba[k]);
      assert ids[i] == ids[4 * k..4 * k + 4][i % 4] && b[8 + i] == b[8 + 4 * k..12 + 4 * k][i % 4];
    }
    assert b == b[0..4] + b[4..8] + b[8..];
    assert ids == b[8..];
  }

  function Ib2Sect(ib: nat): (s: nat) { ib / IB_PER_SECTOR + LF_AREA_IB }

  function Ib2Disp(ib: nat): (d: nat)
    ensures d + IBLK_SIZE <= LF_BLKSIZ
  {
    (ib % IB_PER_SECTOR) * IBLK_SIZE
  }

  predicate IsIb(ib: int, ibs: nat) { 0 <= ib < IB_PER_SECTOR * ibs }

  lemma IbSectorInArea(ib: int, ibs: nat)
    requires IsIb(ib, ibs)
    ensures 1 <= Ib2Sect(ib) <= ibs
  {
  }

  /** The index block that the disk image holds at number `ib`. */
  function GetIb(disk: seq<Sector>, ib: nat): (r: iblock)
    requires Ib2Sect(ib) < |disk| && IsRaw(disk[Ib2Sect(ib)])
  {
    DecodeIblock(disk[Ib2Sect(ib)].data[Ib2Disp(ib)..Ib2Disp(ib) + IBLK_SIZE])
  }

  /** `buf` with the 72 bytes at `d` replaced. */
  function Patch(buf: seq<byte>, d: nat, b: seq<byte>): (r: seq<byte>)
    requires d + |b| <= |buf|
    ensures |r| == |buf|
  {
    buf[..d] + b + buf[d + |b|..]
  }

  function PutIb(disk: seq<Sector>, ib: nat, v: iblock): (r: seq<Sector>)
    requires Ib2Sect(ib) < |disk| && IsRaw(disk[Ib2Sect(ib)])
  {
    disk[Ib2Sect(ib) := RawSector(Patch(disk[Ib2Sect(ib)].data, Ib2Disp(ib), EncodeIblock(v)))]
  }

  /** Writing one index block reads back as written and leaves every other index block,
      including its six sector neighbours, and every sector outside the index area alone. */
  lemma PutIbFrame(disk: seq<Sector>, ibs: nat, ib: nat, v: iblock)
    requires Formatted(disk, ibs) && IsIb(ib, ibs)
    ensures Formatted(PutIb(disk, ib, v), ibs)
    ensures |PutIb(disk, ib, v)| == |disk|
    ensures GetIb(PutIb(disk, ib, v), ib) == v
    ensures forall o: nat {:trigger GetIb(PutIb(disk, ib, v), o)} :: IsIb(o, ibs) && o != ib ==>
              GetIb(PutIb(disk, ib, v), o) == GetIb(disk, o)
    ensures forall s {:trigger PutIb(disk, ib, v)[s]} :: 0 <= s < |disk| && (s == 0 || s > ibs) ==>
              PutIb(disk, ib, v)[s] == disk[s]
  {
    var d := PutIb(disk, ib, v);
    var n := Ib2Sect(ib);
    assert d[n].data[Ib2Disp(ib)..Ib2Disp(ib) + IBLK_SIZE] == EncodeIblock(v);
    IblockRoundTrip(v);
    forall o: nat | IsIb(o, ibs) && o != ib
      ensures GetIb(d, o) == GetIb(disk, o)
    {
      if Ib2Sect(o) == n {
        assert o % IB_PER_SECTOR != ib % IB_PER_SECTOR;
        assert Ib2Disp(o) + IBLK_SIZE <= Ib2Disp(ib) || Ib2Disp(ib) + IBLK_SIZE <= Ib2Disp(o);
        assert d[n].data[Ib2Disp(o)..Ib2Disp(o) + IBLK_SIZE]
            == disk[n].data[Ib2Disp(o)..Ib2Disp(o) + IBLK_SIZE];
      }
    }
  }

  /** The link stored in the first word of a free data block. */
  function NextFree(s: Sector): (d: int)
    requires IsRaw(s)
  {
    DecodeId(s.data[0..4])
  }
}
