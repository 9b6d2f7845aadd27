/** Every run of calls on several files and control blocks is a run on named byte sequences. */
module LfsRuns {
  import opened Common
  import opened Bytes
  import opened LfsDisk
  import opened LfsState
  import opened LfsSystem
  import opened LfsTruncate
  import opened LfsPersist
  import opened LfsSpec
  import opened LfsVolume
  import Lfs

  lemma ShapeOf(s: State, l: Layout)
    requires Inv(s, l)
    ensures |l.files| <= |s.dir.lfdFiles| == LF_NUM_DIR_ENT && s.dir.lfdNfiles == |l.files| && |s.disk| > 0
    ensures Single(VolumeOf(s, l))
    ensures forall m {:trigger s.lfltab[m]} :: 0 <= m < |s.lfltab| && s.lfltab[m].lfused ==>
              s.lfltab[m].lfdirptr < |l.files| && s.lfltab[m].lfname == s.dir.lfdFiles[s.lfltab[m].lfdirptr].ldName
    ensures forall f, g {:trigger s.dir.lfdFiles[f], s.dir.lfdFiles[g]} :: 0 <= f < g < |l.files| ==> s.dir.lfdFiles[f].ldName != s.dir.lfdFiles[g].ldName
  {
    hide IndexOwnership, DataOwnership, FreeIndexList, FreeDataList, FileOk, Settled, DirSynced;
  }

  /** The call refuses what the volume refuses. */
  lemma SameRefusal(fs: Lfs.LocalFileSystem, name: string, mode: Option<Lfs.Mode>)
    requires fs.Valid()
    ensures Opening(VolumeOf(fs.Snap(), fs.l), name, mode).1 == SYSERR <==> fs.Refuses(name, mode)
  {
    hide Inv, InUse;
    var s, l := fs.Snap(), fs.l;
    var v := VolumeOf(s, l);
    ShapeOf(s, l);
    SameUse(s, l, name);
    assert forall m {:trigger s.lfltab[m]} :: 0 <= m < fs.lfltab.Length ==> s.lfltab[m] == fs.lfltab[m];
    assert InUse(v, name) <==> fs.IsOpen(name);
    SameName(s, l, name);
    SameFree(s, l);
  }

  lemma SameFree(s: State, l: Layout)
    ensures var hs := VolumeOf(s, l).handles;
            FirstShut(hs) == |hs| <==> forall m {:trigger s.lfltab[m]} :: 0 <= m < |s.lfltab| ==> s.lfltab[m].lfused
  {
    var hs := VolumeOf(s, l).handles;
    forall m | 0 <= m < |hs| ensures hs[m].At? <==> s.lfltab[m].lfused {}
    var i := FirstShut(hs);
    if i < |hs| { assert !s.lfltab[i].lfused; }
  }

  lemma SameName(s: State, l: Layout, name: string)
    requires Inv(s, l)
    ensures FileNamed(VolumeOf(s, l).files, name) < |l.files| <==> Lfs.Named(s.dir, name)
    ensures FileNamed(VolumeOf(s, l).files, name) < |l.files| ==> NameOf(s.dir, FileNamed(VolumeOf(s, l).files, name)) == name
  {
    hide Inv, Single;
    ShapeOf(s, l);
    var files := VolumeOf(s, l).files;
    var g := FileNamed(files, name);
    if g < |files| { assert files[g].name == s.dir.lfdFiles[g].ldName; }
    if Lfs.Named(s.dir, name) {
      var f :| 0 <= f < s.dir.lfdNfiles && f < |s.dir.lfdFiles| && s.dir.lfdFiles[f].ldName == name;
      assert files[f].name == name;
    }
  }

  lemma SameUse(s: State, l: Layout, name: string)
    requires Inv(s, l)
    ensures InUse(VolumeOf(s, l), name) <==> exists m {:trigger s.lfltab[m]} :: 0 <= m < |s.lfltab| && s.lfltab[m].lfused && s.lfltab[m].lfname == name
  {
    hide Inv, Single;
    ShapeOf(s, l);
    var v := VolumeOf(s, l);
    if InUse(v, name) {
      var m :| 0 <= m < |v.handles| && v.handles[m].At? && v.handles[m].file < |v.files| && v.files[v.handles[m].file].name == name;
      assert s.lfltab[m].lfused && s.lfltab[m].lfname == name;
    }
    forall m | 0 <= m < |s.lfltab| && s.lfltab[m].lfused && s.lfltab[m].lfname == name ensures InUse(v, name) {
      assert v.handles[m] == At(s.lfltab[m].lfdirptr, s.lfltab[m].lfpos);
    }
  }

  /** What an open shows afterwards. */
  lemma OpenedVolume(s: State, l: Layout, s': State, l': Layout, name: string, mode: Option<Lfs.Mode>, r: int)
    requires Inv(s, l) && |l.files| <= |s.dir.lfdFiles| && |l'.files| <= |s'.dir.lfdFiles|
    requires Opening(VolumeOf(s, l), name, mode).1 != SYSERR
    requires 0 <= r < |s.lfltab| && |s'.lfltab| == |s.lfltab| && s'.lfltab == s.lfltab[r := s'.lfltab[r]]
    requires !s.lfltab[r].lfused && s'.lfltab[r].lfused && s'.lfltab[r].lfpos == 0
    requires forall m {:trigger s.lfltab[m]} :: 0 <= m < r ==> s.lfltab[m].lfused
    requires s'.lfltab[r].lfdirptr < |l'.files| && s'.dir.lfdFiles[s'.lfltab[r].lfdirptr].ldName == name
    requires if Lfs.Named(s.dir, name) then s'.dir == s.dir && l'.files == l.files
             else
               && |l.files| < |s.dir.lfdFiles| && s'.lfltab[r].lfdirptr == |l.files| && l'.files == l.files + [FileParts([], [], [])]
               && s'.dir == s.dir.(lfdNfiles := |l.files| + 1, lfdFiles := s.dir.lfdFiles[|l.files| := DirEntry(0, LF_INULL, name)])
    ensures Opening(VolumeOf(s, l), name, mode) == (VolumeOf(s', l'), r)
  {
    hide Inv, InUse, Single;
    ShapeOf(s, l);
    var v, v' := VolumeOf(s, l), VolumeOf(s', l');
    var f, m := FileNamed(v.files, name), FirstShut(v.handles);
    assert v.handles[r].Shut?;
    assert m == r;
    SameName(s, l, name);
    if f < |v.files| {
      assert s'.lfltab[r].lfdirptr == f;
      assert v'.files == v.files;
    } else {
      assert v'.files == v.files + [NamedFile(name, [])];
    }
    assert v'.handles == v.handles[r := At(f, 0)];
  }

  /** What a call on an open file shows afterwards. */
  lemma AccessedVolume(s: State, l: Layout, s': State, l': Layout, m: nat, f: nat, a: OpenFile)
    requires m < |s.lfltab| && s.lfltab[m].lfused && s.lfltab[m].lfdirptr == f && f < |l.files| <= |s.dir.lfdFiles|
    requires TablesKept(s, s', m, f) && |l'.files| == |l.files| && l'.files == l.files[f := l'.files[f]]
    requires s'.lfltab[m].lfpos == a.pos && l'.files[f].content == a.content
    ensures |l'.files| <= |s'.dir.lfdFiles| && VolumeOf(s', l') == WithFile(VolumeOf(s, l), m, a)
  {
    var v, v', w := VolumeOf(s, l), VolumeOf(s', l'), WithFile(VolumeOf(s, l), m, a);
    forall g | 0 <= g < |l.files| ensures v'.files[g] == w.files[g] {
      assert s'.dir.lfdFiles[g].ldName == s.dir.lfdFiles[g].ldName;
    }
    assert v'.files == w.files;
    assert v'.handles == w.handles;
  }

  lemma ClosedVolume(s: State, l: Layout, s': State, l': Layout, m: nat)
    requires m < |s.lfltab| && s'.dir == s.dir && l'.files == l.files
    requires |s'.lfltab| == |s.lfltab| && s'.lfltab == s.lfltab[m := s'.lfltab[m]] && !s'.lfltab[m].lfused
    ensures VolumeOf(s', l') == VolumeOf(s, l).(handles := VolumeOf(s, l).handles[m := Shut])
  {
    var v, v' := VolumeOf(s, l), VolumeOf(s', l');
    assert v'.files == v.files;
    assert v'.handles == v.handles[m := Shut];
  }

  // ------------------------------------------------------------ runs

  ghost function Shown(fs: Lfs.LocalFileSystem): (v: Volume)
    reads fs, fs.disk, fs.lfltab
  {
    VolumeOf(fs.Snap(), fs.l)
  }

  ghost predicate AllShut(v: Volume) {
    forall m {:trigger v.handles[m]} :: 0 <= m < |v.handles| ==> v.handles[m].Shut?
  }

  /** The directory has been written back whenever all control blocks are free. */
  ghost predicate Saved(fs: Lfs.LocalFileSystem)
    reads fs, fs.disk, fs.lfltab
  {
    AllShut(Shown(fs)) ==> !fs.dirdirty
  }

  method RunOpen(fs: Lfs.LocalFileSystem, name: string, mode: Option<Lfs.Mode>) returns (r: int)
    requires fs.Valid() && Standing(Shown(fs)) && Saved(fs)
    modifies fs, fs.lfltab
    ensures fs.Valid() && Saved(fs) && fs.l.ibs == old(fs.l.ibs) && fs.dir.ids == old(fs.dir.ids)
    ensures (Shown(fs), r) == Exec(old(Shown(fs)), Open(name, mode))
  {
    hide Inv, Opening, VolumeOf, Standing;
    ghost var s, l := fs.Snap(), fs.l;
    SameRefusal(fs, name, mode);
    ShapeOf(s, l);
    r := fs.Open(name, mode);
    ShapeOf(fs.Snap(), fs.l);
    if r == SYSERR {
      OpeningRefused(VolumeOf(s, l), name, mode);
    } else {
      forall m | 0 <= m < r ensures s.lfltab[m].lfused {
        ghost var c := fs.lfltab[m];
        assert s.lfltab[m] == old(fs.lfltab[m]);
      }
      OpenedVolume(s, l, fs.Snap(), fs.l, name, mode, r);
      HandleOf(fs, r);
    }
  }

  lemma OpeningRefused(v: Volume, name: string, mode: Option<Lfs.Mode>)
    requires Opening(v, name, mode).1 == SYSERR
    ensures Opening(v, name, mode) == (v, SYSERR)
  {
  }

  lemma HandleOf(fs: Lfs.LocalFileSystem, m: nat)
    requires m < fs.lfltab.Length
    ensures var hs := Shown(fs).handles; |hs| == fs.lfltab.Length && (hs[m].At? <==> fs.lfltab[m].lfused)
    ensures AllShut(Shown(fs)) ==> !fs.lfltab[m].lfused
  {
    assert Shown(fs).handles[m].At? <==> fs.lfltab[m].lfused;
  }

  method RunClose(fs: Lfs.LocalFileSystem, m: nat) returns (r: int)
    requires fs.Valid() && m < fs.lfltab.Length && Standing(Shown(fs)) && Saved(fs)
    modifies fs, fs.disk, fs.lfltab
    ensures fs.Valid() && Saved(fs) && fs.l.ibs == old(fs.l.ibs) && fs.dir.ids == old(fs.dir.ids)
    ensures (Shown(fs), r) == Exec(old(Shown(fs)), Close(m))
  {
    hide Inv, Standing, AllShut;
    ghost var s, l := fs.Snap(), fs.l;
    r := fs.Close(m);
    if s.lfltab[m].lfused { ClosedVolume(s, l, fs.Snap(), fs.l, m); }
  }

  method RunTruncate(fs: Lfs.LocalFileSystem, m: nat) returns (r: int)
    requires fs.Valid() && m < fs.lfltab.Length && Standing(Shown(fs)) && Saved(fs)
    modifies fs, fs.disk, fs.lfltab
    ensures fs.Valid() && Saved(fs) && fs.l.ibs == old(fs.l.ibs) && fs.dir.ids == old(fs.dir.ids)
    ensures (Shown(fs), r) == Exec(old(Shown(fs)), Truncate(m))
  {
    hide Inv, Standing, AllShut;
    ghost var s, l := fs.Snap(), fs.l;
    ShapeOf(s, l);
    r := fs.Truncate(m);
    if s.lfltab[m].lfused {
      var f := s.lfltab[m].lfdirptr;
      AccessedVolume(s, l, fs.Snap(), fs.l, m, f, fs.View(m));
      HandleOf(fs, m);
    }
  }

  method RunAccess(fs: Lfs.LocalFileSystem, m: nat, op: Op) returns (r: int)
    requires fs.Valid() && m < fs.lfltab.Length && Standing(Shown(fs)) && Saved(fs)
    requires Fits(Exec(Shown(fs), Access(m, op)).0.files, fs.l.ibs, fs.disk.Length)
    modifies fs, fs.disk, fs.lfltab
    ensures fs.Valid() && Saved(fs) && fs.l.ibs == old(fs.l.ibs) && fs.dir.ids == old(fs.dir.ids)
    ensures (Shown(fs), r) == Exec(old(Shown(fs)), Access(m, op))
  {
    hide Inv, Standing, Fits, AllShut;
    ghost var s, l := fs.Snap(), fs.l;
    ShapeOf(s, l);
    match op {
      case Put(ch) =>
        if s.lfltab[m].lfused { RoomToPut(s, l, m, ch); }
        r := fs.PutC(m, ch);
      case Get => r := fs.GetC(m);
      case Seek(offset) => r := fs.Seek(m, offset);
    }
    if s.lfltab[m].lfused {
      var f := s.lfltab[m].lfdirptr;
      AccessedVolume(s, l, fs.Snap(), fs.l, m, f, fs.View(m));
      HandleOf(fs, m);
    }
  }

  lemma RoomToPut(s: State, l: Layout, m: nat, ch: byte)
    requires Inv(s, l) && m < |s.lfltab| && s.lfltab[m].lfused && Standing(VolumeOf(s, l))
    requires Fits(Exec(VolumeOf(s, l), Access(m, Put(ch))).0.files, l.ibs, |s.disk|)
    ensures Lfs.RoomIn(s, l, m, s.lfltab[m].lfpos + 1)
  {
    hide Inv, Fits;
    ShapeOf(s, l);
    var v, f := VolumeOf(s, l), s.lfltab[m].lfdirptr;
    assert v.handles[m] == At(f, s.lfltab[m].lfpos);
    var g := Exec(v, Access(m, Put(ch))).0.files[f];
    RoomFor(s, l, f, g);
  }

  /** A file system whose control blocks stand within their files, and with its directory written back if
      none is in use. It is so when it has just been mounted. */
  ghost predicate Ready(fs: Lfs.LocalFileSystem)
    reads fs, fs.disk, fs.lfltab
  {
    fs.Valid() && Standing(Shown(fs)) && Single(Shown(fs)) && Saved(fs)
  }

  /** The commands name control blocks that exist, and all files fit on the disk all the way. */
  ghost predicate Feasible(v: Volume, cs: seq<Command>, ibs: nat, n: nat)
    requires Standing(v) && Single(v)
  {
    && (forall c :: c in cs ==> Aimed(|v.handles|, c))
    && forall i: nat {:trigger Part(cs, i)} :: i <= |cs| ==> Fits(Play(v, Part(cs, i)).0.files, ibs, n)
  }

  function Part(cs: seq<Command>, i: nat): (r: seq<Command>)
    requires i <= |cs|
    ensures |r| == i && forall c :: c in r ==> c in cs
  {
    cs[..i]
  }

  /** Every run of opens, closes, truncations, puts, gets and seeks, on any files and control blocks, gives the
      results and leaves the files and positions of the same run on named byte sequences. */
  method RunCommands(fs: Lfs.LocalFileSystem, cs: seq<Command>) returns (rs: seq<int>)
    requires Ready(fs) && Feasible(Shown(fs), cs, fs.l.ibs, fs.disk.Length)
    modifies fs, fs.disk, fs.lfltab
    ensures Ready(fs) && fs.dir.ids == old(fs.dir.ids)
    ensures (Shown(fs), rs) == Play(old(Shown(fs)), cs)
  {
    hide Inv, Standing, Single, Fits, Exec, Opening, Saved;
    ghost var v, ibs, ids := Shown(fs), fs.l.ibs, fs.dir.ids;
    rs := [];
    for i := 0 to |cs|
      invariant fs.Valid() && Saved(fs) && fs.l.ibs == ibs && fs.dir.ids == ids
      invariant (Shown(fs), rs) == Play(v, Part(cs, i))
    {
      PlayNext(v, cs, i);
      var r;
      match cs[i] {
        case Open(name, mode) => r := RunOpen(fs, name, mode);
        case Close(m) => r := RunClose(fs, m);
        case Truncate(m) => r := RunTruncate(fs, m);
        case Access(m, op) => r := RunAccess(fs, m, op);
      }
      rs := rs + [r];
    }
    assert Part(cs, |cs|) == cs;
  }

  lemma PlayNext(v: Volume, cs: seq<Command>, i: nat)
    requires Standing(v) && Single(v) && (forall c :: c in cs ==> Aimed(|v.handles|, c)) && i < |cs|
    ensures var (w, rs) := Play(v, Part(cs, i));
            && Standing(w) && |w.handles| == |v.handles| && Aimed(|w.handles|, cs[i])
            && Play(v, Part(cs, i + 1)) == (Exec(w, cs[i]).0, rs + [Exec(w, cs[i]).1])
  {
    hide Standing, Single, Exec, Aimed;
    assert cs[..i + 1][..i] == cs[..i] && cs[..i + 1][i] == cs[i];
    assert cs[i] in cs;
  }

  /** The files from the first on that a restart finds; those that it does not find are empty. */
  ghost predicate Survive(files: seq<NamedFile>, found: seq<NamedFile>) {
    found <= files && forall f {:trigger files[f]} :: |found| <= f < |files| ==> files[f].content == []
  }

  /** Over every run that ends with all files closed, a restart finds all that is not empty: the files in the
      order in which they were created, each with its name and its bytes, except some empty ones at the end. */
  method RunAndRestart(fs: Lfs.LocalFileSystem, cs: seq<Command>) returns (rs: seq<int>, again: Lfs.LocalFileSystem)
    requires Ready(fs) && LfsCheck(fs.dir) && Feasible(Shown(fs), cs, fs.l.ibs, fs.disk.Length)
    requires AllShut(Play(Shown(fs), cs).0)
    modifies fs, fs.disk, fs.lfltab
    ensures rs == Play(old(Shown(fs)), cs).1
    ensures Ready(again) && LfsCheck(again.dir) && again.disk == fs.disk && AllShut(Shown(again))
    ensures Survive(Play(old(Shown(fs)), cs).0.files, Shown(again).files)
  {
    hide Inv, Standing, Single, Fits, Exec, Image, AllShut, Play, Feasible, Lfs.Mountable;
    rs := RunCommands(fs, cs);
    ghost var s, l := fs.Snap(), fs.l;
    ShutBlocks(s, l);
    RestartStep(s, l);
    ghost var l' := Trimmed(l, fs.disk[LF_AREA_DIR].dir.lfdNfiles);
    MountableImage(fs.disk[..], l');
    again := Lfs.Mount(fs.disk, fs.lfltab.Length, l');
    assert forall m {:trigger again.Snap().lfltab[m]} :: 0 <= m < fs.lfltab.Length ==> again.Snap().lfltab[m] == again.lfltab[m];
    NewlyMounted(again.Snap(), l');
    ShapeOf(again.Snap(), l');
    FoundFiles(s, l, again.Snap());
  }

  lemma MountableImage(disk: seq<Sector>, l: Layout)
    requires Image(disk, l)
    ensures Lfs.Mountable(disk, l)
  {
  }

  lemma ShutBlocks(s: State, l: Layout)
    requires AllShut(VolumeOf(s, l))
    ensures forall m {:trigger s.lfltab[m]} :: 0 <= m < |s.lfltab| ==> !s.lfltab[m].lfused
  {
    var v := VolumeOf(s, l);
    forall m | 0 <= m < |s.lfltab| ensures !s.lfltab[m].lfused { assert v.handles[m].Shut?; }
  }

  lemma NewlyMounted(s: State, l: Layout)
    requires forall m {:trigger s.lfltab[m]} :: 0 <= m < |s.lfltab| ==> !s.lfltab[m].lfused
    ensures AllShut(VolumeOf(s, l)) && Standing(VolumeOf(s, l))
  {
  }

  lemma FoundFiles(s: State, l: Layout, s': State)
    requires |s.disk| > 0 && s.disk[0].DirSector? && s'.dir == s.disk[0].dir && |l.opener| == |l.files| <= |s.dir.lfdFiles| == |s'.dir.lfdFiles|
    requires s'.dir.lfdNfiles <= |l.files|
    requires forall f {:trigger l.files[f]} :: s'.dir.lfdNfiles <= f < |l.files| ==> l.files[f].content == []
    requires forall f {:trigger s.dir.lfdFiles[f]} :: 0 <= f < s'.dir.lfdNfiles ==> s'.dir.lfdFiles[f] == s.dir.lfdFiles[f]
    ensures Survive(VolumeOf(s, l).files, VolumeOf(s', Trimmed(l, s'.dir.lfdNfiles)).files)
  {
    var files, found := VolumeOf(s, l).files, VolumeOf(s', Trimmed(l, s'.dir.lfdNfiles)).files;
    forall f | 0 <= f < |found| ensures found[f] == files[f] {
      assert s'.dir.lfdFiles[f] == s.dir.lfdFiles[f];
    }
  }
}
