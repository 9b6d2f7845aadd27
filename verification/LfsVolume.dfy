/** The file system without disk, blocks or caches: a list of named byte sequences and a table of control
    blocks, and what each call does to them. */
module LfsVolume {
  import opened Common
  import opened Bytes
  import opened LfsDisk
  import opened LfsState
  import opened LfsPersist
  import opened LfsSpec
  import opened LfsCapacity
  import Lfs

  datatype NamedFile = NamedFile(name: string, content: seq<byte>)

  /** A control block: not in use, or at a position of a file. */
  datatype Handle = Shut | At(file: nat, pos: nat)

  datatype Volume = Volume(files: seq<NamedFile>, handles: seq<Handle>)

  datatype Command =
    | Open(name: string, mode: Option<Lfs.Mode>) | Close(m: nat) | Truncate(m: nat) | Access(m: nat, op: Op)

  /** The first file with the name, or the number of files. */
  function FileNamed(files: seq<NamedFile>, name: string): (f: nat)
    ensures f <= |files| && (f < |files| ==> files[f].name == name)
    ensures forall g {:trigger files[g]} :: 0 <= g < f ==> files[g].name != name
  {
    if |files| == 0 || files[0].name == name then 0 else 1 + FileNamed(files[1..], name)
  }

  /** The first control block not in use, or the number of control blocks. */
  function FirstShut(hs: seq<Handle>): (m: nat)
    ensures m <= |hs| && (m < |hs| ==> hs[m].Shut?)
    ensures forall i {:trigger hs[i]} :: 0 <= i < m ==> hs[i].At?
  {
    if |hs| == 0 || hs[0].Shut? then 0 else 1 + FirstShut(hs[1..])
  }

  ghost predicate InUse(v: Volume, name: string) {
    exists m {:trigger v.handles[m]} :: 0 <= m < |v.handles| && v.handles[m].At? && v.handles[m].file < |v.files| && v.files[v.handles[m].file].name == name
  }

  /** What an open does: the first free control block stands at the start of the file, which is added empty
      if there was none with the name. A name that is in use is refused. */
  ghost function Opening(v: Volume, name: string, mode: Option<Lfs.Mode>): (r: (Volume, int)) {
    var f, m := FileNamed(v.files, name), FirstShut(v.handles);
    if |name| >= LF_NAME_LEN || mode.None? || InUse(v, name) || m == |v.handles| then (v, SYSERR)
    else if f < |v.files| then
      if mode.value.mustBeNew then (v, SYSERR) else (v.(handles := v.handles[m := At(f, 0)]), m)
    else if mode.value.mustExist || |v.files| >= LF_NUM_DIR_ENT then (v, SYSERR)
    else (Volume(v.files + [NamedFile(name, [])], v.handles[m := At(f, 0)]), m)
  }

  function FileAt(v: Volume, m: nat): (a: OpenFile)
    requires m < |v.handles| && v.handles[m].At? && v.handles[m].file < |v.files|
  {
    OpenFile(v.files[v.handles[m].file].content, v.handles[m].pos)
  }

  function WithFile(v: Volume, m: nat, a: OpenFile): (w: Volume)
    requires m < |v.handles| && v.handles[m].At? && v.handles[m].file < |v.files|
  {
    var f := v.handles[m].file;
    Volume(v.files[f := v.files[f].(content := a.content)], v.handles[m := At(f, a.pos)])
  }

  /** Every control block in use stands within a file. */
  ghost predicate Standing(v: Volume) {
    forall m {:trigger v.handles[m]} :: 0 <= m < |v.handles| && v.handles[m].At? ==>
      v.handles[m].file < |v.files| && v.handles[m].pos <= |v.files[v.handles[m].file].content|
  }

  predicate Aimed(n: nat, c: Command) { c.Open? || c.m < n }

  ghost function Exec(v: Volume, c: Command): (r: (Volume, int))
    requires Standing(v) && Aimed(|v.handles|, c)
  {
    match c
    case Open(name, mode) => Opening(v, name, mode)
    case Close(m) => if v.handles[m].Shut? then (v, SYSERR) else (v.(handles := v.handles[m := Shut]), OK)
    case Truncate(m) =>
      if v.handles[m].Shut? then (v, SYSERR)
      else if FileAt(v, m).content == [] then (v, OK)
      else (WithFile(v, m, OpenFile([], 0)), OK)
    case Access(m, op) =>
      if v.handles[m].Shut? then (v, SYSERR)
      else var (a, r) := Step(FileAt(v, m), op); (WithFile(v, m, a), r)
  }

  /** No two control blocks are at the same file. */
  ghost predicate Single(v: Volume) {
    forall i, j {:trigger v.handles[i], v.handles[j]} ::
      0 <= i < j < |v.handles| && v.handles[i].At? && v.handles[j].At? ==> v.handles[i].file != v.handles[j].file
  }

  lemma OpeningKeeps(v: Volume, name: string, mode: Option<Lfs.Mode>)
    requires Standing(v) && Single(v)
    ensures var w := Opening(v, name, mode).0; Standing(w) && Single(w) && |w.handles| == |v.handles|
  {
    var f, m, w := FileNamed(v.files, name), FirstShut(v.handles), Opening(v, name, mode).0;
    if w != v {
      forall i | 0 <= i < |v.handles| && v.handles[i].At? ensures v.handles[i].file != f && i != m {
        assert f < |v.files| && v.handles[i].file == f ==> InUse(v, name);
      }
    }
  }

  lemma WithFileKeeps(v: Volume, m: nat, a: OpenFile)
    requires Standing(v) && Single(v) && m < |v.handles| && v.handles[m].At? && a.pos <= |a.content|
    ensures var w := WithFile(v, m, a); Standing(w) && Single(w) && |w.handles| == |v.handles|
  {
    var w := WithFile(v, m, a);
    forall i | 0 <= i < |v.handles| && v.handles[i].At?
      ensures w.handles[i].At? && w.handles[i].file == v.handles[i].file
      ensures i != m ==> w.files[v.handles[i].file] == v.files[v.handles[i].file]
    {
      if i < m { assert v.handles[i].file != v.handles[m].file; }
      if m < i { assert v.handles[m].file != v.handles[i].file; }
    }
  }

  /** Every command keeps each control block within its file, and no two at the same. */
  lemma ExecKeeps(v: Volume, c: Command)
    requires Standing(v) && Single(v) && Aimed(|v.handles|, c)
    ensures var w := Exec(v, c).0; Standing(w) && Single(w) && |w.handles| == |v.handles|
  {
    hide Opening, WithFile, Step, Single;
    match c
    case Open(name, mode) => OpeningKeeps(v, name, mode);
    case Close(m) => ShutKeeps(v, m);
    case Truncate(m) => if v.handles[m].At? { WithFileKeeps(v, m, OpenFile([], 0)); }
    case Access(m, op) =>
      if v.handles[m].At? {
        StepBounds(FileAt(v, m), op);
        WithFileKeeps(v, m, Step(FileAt(v, m), op).0);
      }
  }

  lemma ShutKeeps(v: Volume, m: nat)
    requires Standing(v) && Single(v) && m < |v.handles|
    ensures var w := v.(handles := v.handles[m := Shut]); Standing(w) && Single(w)
  {
  }

  lemma StepBounds(a: OpenFile, op: Op)
    requires a.pos <= |a.content|
    ensures Step(a, op).0.pos <= |Step(a, op).0.content|
  {
  }

  ghost function Play(v: Volume, cs: seq<Command>): (r: (Volume, seq<int>))
    requires Standing(v) && Single(v) && forall c :: c in cs ==> Aimed(|v.handles|, c)
    ensures Standing(r.0) && Single(r.0) && |r.0.handles| == |v.handles| && |r.1| == |cs|
  {
    if |cs| == 0 then (v, []) else
      assert forall c :: c in cs[..|cs| - 1] ==> c in cs;
      var (w, rs) := Play(v, cs[..|cs| - 1]);
      ExecKeeps(w, cs[|cs| - 1]);
      var (u, r) := Exec(w, cs[|cs| - 1]);
      (u, rs + [r])
  }

  // ------------------------------------------------------------ what fits

  function DataNeed(n: nat): (b: nat) { (n + LF_BLKSIZ - 1) / LF_BLKSIZ }

  function IndexNeed(n: nat): (b: nat) { (n + LF_IDATA - 1) / LF_IDATA }

  function Need(files: seq<NamedFile>, data: bool): (n: nat) {
    if |files| == 0 then 0
    else var k := |files[|files| - 1].content|; Need(files[..|files| - 1], data) + (if data then DataNeed(k) else IndexNeed(k))
  }

  /** The files need no more blocks than a disk of n sectors with ibs sectors of index blocks has. */
  predicate Fits(files: seq<NamedFile>, ibs: nat, n: nat) {
    Need(files, true) <= n - ibs - 1 && Need(files, false) <= IB_PER_SECTOR * ibs
  }

  lemma {:induction false} NeedUpdate(files: seq<NamedFile>, f: nat, g: NamedFile, data: bool)
    requires f < |files|
    ensures var a, b := |files[f].content|, |g.content|;
            Need(files[f := g], data) == Need(files, data) - (if data then DataNeed(a) else IndexNeed(a)) + (if data then DataNeed(b) else IndexNeed(b))
    decreases |files|
  {
    hide DataNeed, IndexNeed;
    var n := |files| - 1;
    if f == n {
      assert files[f := g][..n] == files[..n];
    } else {
      assert files[f := g][..n] == files[..n][f := g];
      NeedUpdate(files[..n], f, g, data);
    }
  }

  // ------------------------------------------------------------ what the file system shows

  function NameOf(dir: Directory, f: nat): (name: string) { if f < |dir.lfdFiles| then dir.lfdFiles[f].ldName else "" }

  ghost function VolumeOf(s: State, l: Layout): (v: Volume) {
    Volume(seq(|l.files|, f requires 0 <= f < |l.files| => NamedFile(NameOf(s.dir, f), l.files[f].content)),
           seq(|s.lfltab|, m requires 0 <= m < |s.lfltab| => if s.lfltab[m].lfused then At(s.lfltab[m].lfdirptr, s.lfltab[m].lfpos) else Shut))
  }

  /** Files have no block more than their bytes need. */
  lemma TightNeed(s: State, l: Layout, f: nat)
    requires Inv(s, l) && f < |l.files|
    ensures |l.files[f].dblks| == DataNeed(|l.files[f].content|) && |l.files[f].chain| == IndexNeed(|l.files[f].content|)
  {
    hide IndexOwnership, DataOwnership, FreeIndexList, FreeDataList, OpenTable, NamesDistinct, InAreas, IndexMatches, DataMatches, CacheOk;
    assert FileOk(s, l, f) && Settled(s, l, f);
  }

  lemma {:induction false} UsedIsNeed(s: State, l: Layout, files: seq<NamedFile>, n: nat, data: bool)
    requires Inv(s, l) && n <= |l.files| == |files|
    requires forall f {:trigger files[f]} :: 0 <= f < |files| ==> files[f].content == l.files[f].content
    ensures Used(l.files[..n], data) == Need(files[..n], data)
  {
    hide Inv, DataNeed, IndexNeed;
    if n > 0 {
      UsedIsNeed(s, l, files, n - 1, data);
      TightNeed(s, l, n - 1);
      assert l.files[..n][..n - 1] == l.files[..n - 1] && files[..n][..n - 1] == files[..n - 1];
    }
  }

  /** If the files fit on the disk once file f has n bytes, there is room for them. */
  lemma RoomFor(s: State, l: Layout, f: nat, g: NamedFile)
    requires Inv(s, l) && f < |l.files| && Fits(VolumeOf(s, l).files[f := g], l.ibs, |s.disk|)
    ensures Lfs.HasRoom(l, f, |g.content|)
  {
    hide Inv, Need, Used;
    var files := VolumeOf(s, l).files;
    BlocksConserved(s, l);
    TightNeed(s, l, f);
    UsedIsNeed(s, l, files, |files|, true);
    UsedIsNeed(s, l, files, |files|, false);
    assert l.files[..|files|] == l.files && files[..|files|] == files;
    NeedUpdate(files, f, g, true);
    NeedUpdate(files, f, g, false);
  }
}
