/** What several of the components use. */
module Common {

  const OK := 1
  const SYSERR := -1

  datatype Option<T> = None | Some(value: T)

  ghost predicate Distinct(ids: seq<int>) {
    forall i, j {:trigger ids[i], ids[j]} :: 0 <= i < j < |ids| ==> ids[i] != ids[j]
  }

  function Inserted<T>(l: seq<T>, k: nat, x: T): (r: seq<T>)
    requires k <= |l|
  {
    l[..k] + [x] + l[k..]
  }

  /** x stands somewhere ahead of y. */
  ghost predicate Before(l: seq<int>, x: int, y: int) {
    exists i, j :: 0 <= i < j < |l| && l[i] == x && l[j] == y
  }
}
