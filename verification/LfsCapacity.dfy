/** How many blocks the free lists and the files have between them, and how many a file needs. */
module LfsCapacity {
  import opened Common
  import opened Bytes
  import opened Counting
  import opened LfsDisk
  import opened LfsState
  import opened LfsPersist
  import opened LfsSpec
  import Lfs

  // ------------------------------------------------------------ counting blocks

  function Flat(lists: seq<seq<int>>): (r: seq<int>) {
    if |lists| == 0 then [] else Flat(lists[..|lists| - 1]) + lists[|lists| - 1]
  }

  lemma {:induction false} FlatMembers(lists: seq<seq<int>>)
    ensures forall b :: b in Flat(lists) <==> Occurs(lists, b)
    decreases |lists|
  {
    if |lists| > 0 {
      var front, last := lists[..|lists| - 1], lists[|lists| - 1];
      FlatMembers(front);
      forall b ensures b in Flat(lists) <==> Occurs(lists, b) {
        if b in Flat(front) {
          var i, k :| 0 <= i < |front| && 0 <= k < |front[i]| && front[i][k] == b;
          assert lists[i][k] == b;
        }
        if b in last {
          var k :| 0 <= k < |last| && last[k] == b;
          assert lists[|lists| - 1][k] == b;
        }
        if Occurs(lists, b) && b !in last {
          var i, k :| 0 <= i < |lists| && 0 <= k < |lists[i]| && lists[i][k] == b;
          assert front[i][k] == b;
        }
      }
    }
  }

  ghost predicate Apart(lists: seq<seq<int>>) {
    forall i, k, j, n {:trigger lists[i][k], lists[j][n]} ::
      && 0 <= i < |lists| && 0 <= k < |lists[i]| && 0 <= j < |lists| && 0 <= n < |lists[j]|
      && lists[i][k] == lists[j][n]
      ==> i == j && k == n
  }

  lemma {:induction false} FlatDistinct(lists: seq<seq<int>>)
    requires Apart(lists)
    ensures Distinct(Flat(lists))
    decreases |lists|
  {
    if |lists| > 0 {
      var front, last := lists[..|lists| - 1], lists[|lists| - 1];
      assert forall i, k {:trigger front[i][k]} :: 0 <= i < |front| && 0 <= k < |front[i]| ==> front[i][k] == lists[i][k];
      FlatDistinct(front);
      FlatMembers(front);
      var fs := Flat(front);
      forall k | 0 <= k < |last| ensures last[k] !in fs {
        assert lists[|lists| - 1][k] == last[k];
      }
      forall i, j | 0 <= i < j < |last| ensures last[i] != last[j] {
        assert lists[|lists| - 1][i] == last[i] && lists[|lists| - 1][j] == last[j];
      }
    }
  }

  function Lengths(lists: seq<seq<int>>): (n: nat) {
    if |lists| == 0 then 0 else Lengths(lists[..|lists| - 1]) + |lists[|lists| - 1]|
  }

  lemma {:induction false} FlatLength(lists: seq<seq<int>>)
    ensures |Flat(lists)| == Lengths(lists)
    decreases |lists|
  {
    if |lists| > 0 { FlatLength(lists[..|lists| - 1]); }
  }

  function Range(lo: int, hi: int): (r: set<int>)
    ensures forall i {:trigger i in r} :: i in r <==> lo <= i < hi
    ensures |r| == if lo < hi then hi - lo else 0
    decreases hi - lo
  {
    if lo >= hi then {} else Range(lo, hi - 1) + {hi - 1}
  }

  /** The lists of a partition hold as many numbers as there are. */
  lemma PartitionSize(lists: seq<seq<int>>, lo: int, hi: int)
    requires Partition(lists, lo, hi) && lo <= hi
    ensures Lengths(lists) == hi - lo
  {
    FlatLength(lists);
    FlatMembers(lists);
    FlatDistinct(lists);
    DistinctSize(Flat(lists));
    assert Elements(Flat(lists)) == Range(lo, hi);
  }

  /** The data blocks, or the index blocks, of all files. */
  function Used(files: seq<FileParts>, data: bool): (n: nat) {
    if |files| == 0 then 0 else Used(files[..|files| - 1], data) + (if data then |files[|files| - 1].dblks| else |files[|files| - 1].chain|)
  }

  lemma {:induction false} UsedLengths(free: seq<int>, files: seq<FileParts>, data: bool, lists: seq<seq<int>>)
    requires |lists| == |files| + 1 && lists[0] == free
    requires forall f {:trigger files[f]} :: 0 <= f < |files| ==> lists[f + 1] == if data then files[f].dblks else files[f].chain
    ensures Lengths(lists) == |free| + Used(files, data)
    decreases |files|
  {
    if |files| == 0 {
      assert lists[..0] == [];
    } else {
      UsedLengths(free, files[..|files| - 1], data, lists[..|files|]);
    }
  }

  /** Conservation: in every state that satisfies the invariant the free lists and the files together have
      all data blocks and all index blocks of the disk. */
  lemma BlocksConserved(s: State, l: Layout)
    requires Inv(s, l)
    ensures |l.freeD| + Used(l.files, true) == |s.disk| - l.ibs - 1
    ensures |l.freeI| + Used(l.files, false) == IB_PER_SECTOR * l.ibs
  {
    hide Inv, Partition, Lengths, Used;
    BlockOwnership(s, l);
    DiskSize(s, l);
    PartitionSize(IndexLists(l), 0, IB_PER_SECTOR * l.ibs);
    PartitionSize(DataLists(l), l.ibs + 1, |s.disk|);
    UsedLengths(l.freeI, l.files, false, IndexLists(l));
    UsedLengths(l.freeD, l.files, true, DataLists(l));
  }

  lemma DiskSize(s: State, l: Layout)
    requires Inv(s, l)
    ensures l.ibs + 1 <= |s.disk|
  {
  }
}
