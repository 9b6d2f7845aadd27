/** How each elementary step acts on the representation of the one file it concerns. */
module LfsFile {
  import opened Common
  import opened Bytes
  import opened LfsDisk
  import opened LfsState

  /** Two disk images show the same contents of the blocks of file parts `p`. */
  ghost predicate SameBlocks(disk: seq<Sector>, disk': seq<Sector>, ibs: nat, p: FileParts)
    requires InAreas(disk, ibs, p)
  {
    && Formatted(disk', ibs)
    && |disk'| == |disk|
    && (forall k {:trigger p.chain[k]} :: 0 <= k < |p.chain| ==> GetIb(disk', p.chain[k]) == GetIb(disk, p.chain[k]))
    && (forall k {:trigger p.dblks[k]} :: 0 <= k < |p.dblks| ==> disk'[p.dblks[k]] == disk[p.dblks[k]])
  }

  lemma FileRepFrame(disk: seq<Sector>, disk': seq<Sector>, ibs: nat, c: Lflcblk, e: DirEntry, p: FileParts)
    requires FileRep(disk, ibs, c, e, p)
    requires SameBlocks(disk, disk', ibs, p)
    ensures FileRep(disk', ibs, c, e, p)
    ensures DataSynced(disk, ibs, c) ==> DataSynced(disk', ibs, c)
  {
    assert InAreas(disk', ibs, p);
    ViewsKept(disk, ibs, c, disk', c, p);
  }

  /** The views of a file stand when all its blocks show the same contents. */
  lemma ViewsKept(disk: seq<Sector>, ibs: nat, c: Lflcblk, disk': seq<Sector>, c': Lflcblk, p: FileParts)
    requires InAreas(disk, ibs, p) && InAreas(disk', ibs, p) && |p.content| <= LF_BLKSIZ * |p.dblks|
    requires IndexMatches(disk, ibs, c, p) && DataMatches(disk, ibs, c, p)
    requires forall k {:trigger p.chain[k]} :: 0 <= k < |p.chain| ==>
               EffIb(disk', ibs, c', p.chain[k]) == EffIb(disk, ibs, c, p.chain[k])
    requires forall k {:trigger p.dblks[k]} :: 0 <= k < |p.dblks| ==>
               EffDb(disk', ibs, c', p.dblks[k]) == EffDb(disk, ibs, c, p.dblks[k])
    ensures IndexMatches(disk', ibs, c', p) && DataMatches(disk', ibs, c', p)
  {
    hide IbMatches;
  }

  lemma WriteData(disk: seq<Sector>, ibs: nat, c: Lflcblk, e: DirEntry, p: FileParts,
                  disk': seq<Sector>, c': Lflcblk)
    requires FileRep(disk, ibs, c, e, p) && c.lfdbdirty
    requires ibs < c.lfdnum < |disk|
    requires disk' == disk[c.lfdnum := RawSector(c.lfdblock)] && c' == c.(lfdbdirty := false)
    ensures FileRep(disk', ibs, c', e, p) && DataSynced(disk', ibs, c')
  {
    forall b: nat | IsIb(b, ibs) ensures GetIb(disk', b) == GetIb(disk, b) { IbSectorInArea(b, ibs); }
    assert InAreas(disk', ibs, p);
    ViewsKept(disk, ibs, c, disk', c', p);
  }

  lemma WriteIndex(disk: seq<Sector>, ibs: nat, c: Lflcblk, e: DirEntry, p: FileParts,
                   disk': seq<Sector>, c': Lflcblk)
    requires FileRep(disk, ibs, c, e, p) && c.lfibdirty && IsIb(c.lfinum, ibs)
    requires disk' == PutIb(disk, c.lfinum, c.lfiblock) && c' == c.(lfibdirty := false)
    ensures FileRep(disk', ibs, c', e, p)
    ensures DataSynced(disk, ibs, c) ==> DataSynced(disk', ibs, c')
  {
    PutIbFrame(disk, ibs, c.lfinum, c.lfiblock);
    assert InAreas(disk', ibs, p);
    ViewsKept(disk, ibs, c, disk', c', p);
  }

  lemma LoadIndex(disk: seq<Sector>, ibs: nat, c: Lflcblk, e: DirEntry, p: FileParts, k: nat, c': Lflcblk)
    requires FileRep(disk, ibs, c, e, p) && !c.lfibdirty
    requires k < |p.chain| && c' == c.(lfinum := p.chain[k], lfiblock := GetIb(disk, p.chain[k]))
    ensures FileRep(disk, ibs, c', e, p)
    ensures DataSynced(disk, ibs, c) ==> DataSynced(disk, ibs, c')
    ensures IbMatches(c'.lfiblock, p, k)
  {
    ViewsKept(disk, ibs, c, disk, c', p);
    assert IbMatches(EffIb(disk, ibs, c, p.chain[k]), p, k);
  }

  lemma DropData(disk: seq<Sector>, ibs: nat, c: Lflcblk, e: DirEntry, p: FileParts, c': Lflcblk)
    requires FileRep(disk, ibs, c, e, p) && !c.lfdbdirty && DataSynced(disk, ibs, c) && c.lfbyte == LF_BLKSIZ
    requires c' == c.(lfdnum := LF_DNULL)
    ensures FileRep(disk, ibs, c', e, p) && DataSynced(disk, ibs, c')
  {
    ViewsKept(disk, ibs, c, disk, c', p);
  }

  lemma LoadData(disk: seq<Sector>, ibs: nat, c: Lflcblk, e: DirEntry, p: FileParts, b: nat, c': Lflcblk)
    requires FileRep(disk, ibs, c, e, p) && !c.lfdbdirty && DataSynced(disk, ibs, c) && c.lfbyte == LF_BLKSIZ
    requires b < |p.dblks|
    requires c' == c.(lfdnum := p.dblks[b], lfdblock := disk[p.dblks[b]].data)
    ensures FileRep(disk, ibs, c', e, p) && DataSynced(disk, ibs, c')
  {
    ViewsKept(disk, ibs, c, disk, c', p);
  }

  // ------------------------------------------------------------ growing a file

  /** An index block with no data blocks, as lfibclear leaves it. */
  function ClearedIb(offset: uint32): iblock {
    IndexBlock(LF_INULL, offset, seq(LF_IBLEN, _ => LF_DNULL))
  }

  lemma FirstIndex(disk: seq<Sector>, ibs: nat, c: Lflcblk, e: DirEntry, p: FileParts, ib: int,
                   disk': seq<Sector>, c': Lflcblk, e': DirEntry, p': FileParts)
    requires FileRep(disk, ibs, c, e, p) && p.chain == [] && IsIb(ib, ibs) && ib <= 0x7FFF_FFFF
    requires SameBlocks(disk, disk', ibs, p)
    requires p' == p.(chain := [ib]) && e' == e.(ldIlist := ib)
    requires c' == c.(lfinum := ib, lfiblock := ClearedIb(0), lfibdirty := true)
    ensures FileRep(disk', ibs, c', e', p') && DataSynced(disk', ibs, c')
  {
    assert InAreas(disk', ibs, p');
  }

  /** The last index block on the disk has been linked to the new one `ib`, which is cached. */
  ghost predicate BlockChained(disk: seq<Sector>, ibs: nat, c: Lflcblk, e: DirEntry, p: FileParts, ib: int32,
                          disk': seq<Sector>, c': Lflcblk, p': FileParts)
  {
    && FileRep(disk, ibs, c, e, p) && DataSynced(disk, ibs, c)
    && !c.lfibdirty && !c.lfdbdirty && c.lfbyte == LF_BLKSIZ
    && |p.chain| > 0 && |p.dblks| == LF_IBLEN * |p.chain| && LF_IDATA * |p.chain| < WORD_SPAN
    && c.lfinum == p.chain[|p.chain| - 1] && IbMatches(c.lfiblock, p, |p.chain| - 1)
    && Distinct(p.chain) && IsIb(ib, ibs) && ib !in p.chain
    && Formatted(disk', ibs) && |disk'| == |disk|
    && (forall k {:trigger p.chain[k]} :: 0 <= k < |p.chain| - 1 ==> GetIb(disk', p.chain[k]) == GetIb(disk, p.chain[k]))
    && GetIb(disk', p.chain[|p.chain| - 1]) == c.lfiblock.(ibNext := ib)
    && (forall k {:trigger p.dblks[k]} :: 0 <= k < |p.dblks| ==> disk'[p.dblks[k]] == disk[p.dblks[k]])
    && p' == p.(chain := p.chain + [ib])
    && c' == c.(lfinum := ib, lfiblock := ClearedIb(LF_IDATA * |p.chain|), lfibdirty := true, lfdnum := LF_DNULL)
  }

  lemma NextIndex(disk: seq<Sector>, ibs: nat, c: Lflcblk, e: DirEntry, p: FileParts, ib: int32,
                  disk': seq<Sector>, c': Lflcblk, p': FileParts)
    requires BlockChained(disk, ibs, c, e, p, ib, disk', c', p')
    ensures FileRep(disk', ibs, c', e, p') && DataSynced(disk', ibs, c')
    ensures IbMatches(c'.lfiblock, p', |p.chain|)
  {
    hide IndexMatches, DataMatches, EffIb, EffDb, GetIb, IbMatches;
    assert InAreas(disk', ibs, p');
    ChainedIndex(disk, ibs, c, e, p, ib, disk', c', p');
    ChainedData(disk, ibs, c, e, p, ib, disk', c', p');
    assert p'.chain[|p.chain|] == ib;
  }

  lemma ChainedIndex(disk: seq<Sector>, ibs: nat, c: Lflcblk, e: DirEntry, p: FileParts, ib: int32,
                     disk': seq<Sector>, c': Lflcblk, p': FileParts)
    requires BlockChained(disk, ibs, c, e, p, ib, disk', c', p') && InAreas(disk', ibs, p')
    ensures IndexMatches(disk', ibs, c', p') && IbMatches(c'.lfiblock, p', |p.chain|)
  {
    hide DataMatches, CacheOk, GetIb;
    var n := |p.chain|;
    assert p'.chain[n] == ib;
    forall k | 0 <= k < n + 1
      ensures IbMatches(EffIb(disk', ibs, c', p'.chain[k]), p', k)
    {
      if k < n - 1 {
        assert p'.chain[k] == p.chain[k] && p.chain[n - 1] != p.chain[k];
        assert EffIb(disk, ibs, c, p.chain[k]) == GetIb(disk, p.chain[k]);
        assert IbMatches(GetIb(disk, p.chain[k]), p, k);
      } else if k == n - 1 {
        assert p'.chain[k] == p.chain[k];
      }
    }
  }

  lemma ChainedData(disk: seq<Sector>, ibs: nat, c: Lflcblk, e: DirEntry, p: FileParts, ib: int32,
                    disk': seq<Sector>, c': Lflcblk, p': FileParts)
    requires BlockChained(disk, ibs, c, e, p, ib, disk', c', p') && InAreas(disk', ibs, p')
    ensures DataMatches(disk', ibs, c', p')
  {
    hide IndexMatches, GetIb, IbMatches;
    forall k | 0 <= k < |p.dblks|
      ensures EffDb(disk', ibs, c', p.dblks[k]) == EffDb(disk, ibs, c, p.dblks[k])
    {
    }
  }

  /** Data block d has been entered in the cached last index block and is cached itself. */
  ghost predicate BlockEntered(disk: seq<Sector>, ibs: nat, c: Lflcblk, e: DirEntry, p: FileParts, k: nat, j: nat, d: int32, fill: dblock,
                          disk': seq<Sector>, c': Lflcblk, p': FileParts)
  {
    && FileRep(disk, ibs, c, e, p) && DataSynced(disk, ibs, c)
    && !c.lfdbdirty && c.lfbyte == LF_BLKSIZ && Distinct(p.chain)
    && |p.chain| == k + 1 && j < LF_IBLEN && |p.dblks| == LF_IBLEN * k + j
    && c.lfinum == p.chain[k]
    && ibs < d < |disk| && d !in p.dblks
    && SameBlocks(disk, disk', ibs, p)
    && p' == p.(dblks := p.dblks + [d])
    && c' == c.(lfiblock := c.lfiblock.(ibDba := c.lfiblock.ibDba[j := d]), lfibdirty := true, lfdnum := d, lfdblock := fill)
  }

  lemma AllocData(disk: seq<Sector>, ibs: nat, c: Lflcblk, e: DirEntry, p: FileParts, k: nat, j: nat, d: int32, fill: dblock,
                  disk': seq<Sector>, c': Lflcblk, p': FileParts)
    requires BlockEntered(disk, ibs, c, e, p, k, j, d, fill, disk', c', p')
    ensures FileRep(disk', ibs, c', e, p')
  {
    hide IndexMatches, DataMatches, EffIb, EffDb, GetIb, IbMatches;
    forall i | 0 <= i < |p'.dblks| ensures ibs < p'.dblks[i] < |disk'| {
      if i < |p.dblks| { assert p'.dblks[i] == p.dblks[i]; }
    }
    assert InAreas(disk', ibs, p');
    EnteredIndex(disk, ibs, c, e, p, k, j, d, fill, disk', c', p');
    EnteredData(disk, ibs, c, e, p, k, j, d, fill, disk', c', p');
    assert p'.dblks[|p.dblks|] == d;
  }

  lemma EnteredIndex(disk: seq<Sector>, ibs: nat, c: Lflcblk, e: DirEntry, p: FileParts, k: nat, j: nat, d: int32, fill: dblock,
                     disk': seq<Sector>, c': Lflcblk, p': FileParts)
    requires BlockEntered(disk, ibs, c, e, p, k, j, d, fill, disk', c', p') && InAreas(disk', ibs, p')
    ensures IndexMatches(disk', ibs, c', p')
  {
    hide DataMatches, CacheOk, GetIb;
    forall i | 0 <= i < |p.chain|
      ensures IbMatches(EffIb(disk', ibs, c', p.chain[i]), p', i)
    {
      assert IbMatches(EffIb(disk, ibs, c, p.chain[i]), p, i);
      if i < k { assert p.chain[i] != p.chain[k]; }
    }
  }

  lemma EnteredData(disk: seq<Sector>, ibs: nat, c: Lflcblk, e: DirEntry, p: FileParts, k: nat, j: nat, d: int32, fill: dblock,
                    disk': seq<Sector>, c': Lflcblk, p': FileParts)
    requires BlockEntered(disk, ibs, c, e, p, k, j, d, fill, disk', c', p') && InAreas(disk', ibs, p')
    ensures DataMatches(disk', ibs, c', p')
  {
    hide IndexMatches, GetIb, IbMatches;
    forall i | 0 <= i < |p.content|
      ensures p.content[i] == EffDb(disk', ibs, c', p'.dblks[i / LF_BLKSIZ])[i % LF_BLKSIZ]
    {
      assert p'.dblks[i / LF_BLKSIZ] == p.dblks[i / LF_BLKSIZ];
    }
  }

  // ------------------------------------------------------------ bytes

  lemma SetByte(disk: seq<Sector>, ibs: nat, c: Lflcblk, e: DirEntry, p: FileParts, c': Lflcblk)
    requires FileRep(disk, ibs, c, e, p)
    requires c.lfpos / LF_BLKSIZ < |p.dblks| && c.lfdnum == p.dblks[c.lfpos / LF_BLKSIZ]
    requires c' == c.(lfbyte := c.lfpos % LF_BLKSIZ)
    ensures FileRep(disk, ibs, c', e, p)
    ensures DataSynced(disk, ibs, c) ==> DataSynced(disk, ibs, c')
  {
    ViewsKept(disk, ibs, c, disk, c', p);
  }

  lemma SeekTo(disk: seq<Sector>, ibs: nat, c: Lflcblk, e: DirEntry, p: FileParts, pos: nat, c': Lflcblk)
    requires FileRep(disk, ibs, c, e, p)
    requires c' == c.(lfpos := pos, lfbyte := LF_BLKSIZ)
    ensures FileRep(disk, ibs, c', e, p)
    ensures DataSynced(disk, ibs, c) ==> DataSynced(disk, ibs, c')
  {
    ViewsKept(disk, ibs, c, disk, c', p);
  }

  /** Reading one byte: the buffer shows the byte at the file position. */
  lemma TakeByte(disk: seq<Sector>, ibs: nat, c: Lflcblk, e: DirEntry, p: FileParts, c': Lflcblk)
    requires FileRep(disk, ibs, c, e, p) && c.lfbyte < LF_BLKSIZ && c.lfpos < |p.content|
    requires c' == c.(lfpos := c.lfpos + 1, lfbyte := c.lfbyte + 1)
    ensures c.lfdblock[c.lfbyte] == p.content[c.lfpos]
    ensures FileRep(disk, ibs, c', e, p)
    ensures DataSynced(disk, ibs, c) ==> DataSynced(disk, ibs, c')
  {
    ViewsKept(disk, ibs, c, disk, c', p);
    assert EffDb(disk, ibs, c, p.dblks[c.lfpos / LF_BLKSIZ]) == c.lfdblock;
    assert c.lfbyte + 1 < LF_BLKSIZ ==> c'.lfpos / LF_BLKSIZ == c.lfpos / LF_BLKSIZ;
  }

  /** Overwrite below the end, append at the end. */
  function Written(content: seq<byte>, pos: nat, ch: byte): (r: seq<byte>)
    requires pos <= |content|
  {
    if pos < |content| then content[pos := ch] else content + [ch]
  }

  lemma PlaceByte(disk: seq<Sector>, ibs: nat, c: Lflcblk, e: DirEntry, p: FileParts, ch: byte,
                  c': Lflcblk, e': DirEntry, p': FileParts)
    requires FileRep(disk, ibs, c, e, p) && c.lfbyte < LF_BLKSIZ && c.lfpos <= |p.content|
    requires Distinct(p.dblks)
    requires c' == c.(lfpos := c.lfpos + 1, lfbyte := c.lfbyte + 1, lfdbdirty := true,
                      lfdblock := c.lfdblock[c.lfbyte := ch])
    requires p' == p.(content := Written(p.content, c.lfpos, ch))
    requires e' == e.(ldSize := |p'.content|)
    ensures FileRep(disk, ibs, c', e', p') && DataSynced(disk, ibs, c')
  {
    hide GetIb;
    assert InAreas(disk, ibs, p');
    assert c.lfbyte + 1 < LF_BLKSIZ ==> c'.lfpos / LF_BLKSIZ == c.lfpos / LF_BLKSIZ;
    PlacedContent(disk, ibs, c, p, ch, c', p');
    SameIndex(disk, ibs, c, p, c', p');
  }

  lemma SameIndex(disk: seq<Sector>, ibs: nat, c: Lflcblk, p: FileParts, c': Lflcblk, p': FileParts)
    requires InAreas(disk, ibs, p) && InAreas(disk, ibs, p')
    requires IndexMatches(disk, ibs, c, p)
    requires p'.chain == p.chain && p'.dblks == p.dblks && c'.lfinum == c.lfinum && c'.lfiblock == c.lfiblock
    ensures IndexMatches(disk, ibs, c', p')
  {
    hide GetIb;
    forall k | 0 <= k < |p.chain| ensures IbMatches(EffIb(disk, ibs, c', p.chain[k]), p', k) {
      assert IbMatches(EffIb(disk, ibs, c, p.chain[k]), p, k);
    }
  }

  lemma PlacedContent(disk: seq<Sector>, ibs: nat, c: Lflcblk, p: FileParts, ch: byte, c': Lflcblk, p': FileParts)
    requires InAreas(disk, ibs, p) && InAreas(disk, ibs, p') && |p.content| <= LF_BLKSIZ * |p.dblks|
    requires DataMatches(disk, ibs, c, p) && Distinct(p.dblks)
    requires c.lfbyte < LF_BLKSIZ && c.lfpos <= |p.content|
    requires c.lfpos % LF_BLKSIZ == c.lfbyte && c.lfpos / LF_BLKSIZ < |p.dblks| && c.lfdnum == p.dblks[c.lfpos / LF_BLKSIZ]
    requires c'.lfdnum == c.lfdnum && c'.lfdblock == c.lfdblock[c.lfbyte := ch]
    requires p' == p.(content := Written(p.content, c.lfpos, ch))
    ensures |p'.content| <= LF_BLKSIZ * |p'.dblks| && DataMatches(disk, ibs, c', p')
  {
    var q := c.lfpos / LF_BLKSIZ;
    forall i | 0 <= i < |p'.content|
      ensures p'.content[i] == EffDb(disk, ibs, c', p.dblks[i / LF_BLKSIZ])[i % LF_BLKSIZ]
    {
      var b := i / LF_BLKSIZ;
      if b != q {
        assert p.dblks[b] != p.dblks[q];
        assert p'.content[i] == p.content[i];
      } else if i != c.lfpos {
        assert i % LF_BLKSIZ != c.lfbyte;
        assert p'.content[i] == p.content[i];
      }
    }
  }

  /** An empty file with nothing cached. */
  lemma EmptyFile(disk: seq<Sector>, ibs: nat, c: Lflcblk, e: DirEntry)
    requires Formatted(disk, ibs) && c.lfinum == LF_INULL && c.lfdnum == LF_DNULL && c.lfbyte == LF_BLKSIZ
    requires !c.lfibdirty && !c.lfdbdirty && e.ldSize == 0 && e.ldIlist == LF_INULL
    ensures FileRep(disk, ibs, c, e, FileParts([], [], [])) && DataSynced(disk, ibs, c) && Tight(FileParts([], [], []))
  {
  }
}
