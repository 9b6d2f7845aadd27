/** The delta list of sleepers: each entry's delay counts from the entry before it, and the
    deadline of an entry is the sum of the delays up to it. */
module DeltaList {

  const MAXKEY := 0x7FFF_FFFF

  function Total(d: seq<int>): (n: int) {
    if |d| == 0 then 0 else d[0] + Total(d[1..])
  }

  /** Ticks until entry i is due. */
  function Deadline(d: seq<int>, i: nat): (n: int)
    requires i < |d|
  {
    Total(d[..i + 1])
  }

  predicate Natural(d: seq<int>) {
    forall i {:trigger d[i]} :: 0 <= i < |d| ==> d[i] >= 0
  }

  lemma {:induction false} TotalConcat(a: seq<int>, b: seq<int>)
    ensures Total(a + b) == Total(a) + Total(b)
  {
    if |a| == 0 {
      assert a + b == b;
    } else {
      assert (a + b)[1..] == a[1..] + b;
      TotalConcat(a[1..], b);
    }
  }

  lemma TotalOne(x: int)
    ensures Total([x]) == x
  {
    assert [x][1..] == [];
    assert Total([]) == 0;
  }

  lemma {:induction false} TotalNatural(d: seq<int>)
    requires Natural(d)
    ensures Total(d) >= 0
  {
    if |d| > 0 {
      TotalNatural(d[1..]);
    }
  }

  /** A deadline reached from a split of the list. */
  lemma DeadlineSplit(a: seq<int>, b: seq<int>, i: nat)
    requires i < |a| + |b|
    ensures Deadline(a + b, i) == if i < |a| then Deadline(a, i) else Total(a) + Deadline(b, i - |a|)
  {
    hide Total;
    if i < |a| {
      assert (a + b)[..i + 1] == a[..i + 1];
    } else {
      assert (a + b)[..i + 1] == a + b[..i + 1 - |a|];
      TotalConcat(a, b[..i + 1 - |a|]);
    }
  }

  lemma DeadlineFirst(x: int, d: seq<int>, i: nat)
    requires i <= |d|
    ensures Deadline([x] + d, i) == if i == 0 then x else x + Deadline(d, i - 1)
  {
    TotalOne(x);
    DeadlineSplit([x], d, i);
    if i == 0 { assert [x][..1] == [x]; }
  }

  // ------------------------------------------------------------ insertion

  /** How many entries a new delay passes: those due no later. */
  function DelayPlace(d: seq<int>, key: int): (k: nat)
    ensures k <= |d|
  {
    if |d| == 0 || d[0] > key then 0 else 1 + DelayPlace(d[1..], key - d[0])
  }

  /** insertd: what is left of the delay after those it passes is taken off the entry behind it. */
  function InsertDelay(d: seq<int>, key: int): (r: seq<int>) {
    if |d| == 0 then [key]
    else if d[0] > key then [key, d[0] - key] + d[1..]
    else [d[0]] + InsertDelay(d[1..], key - d[0])
  }

  /** The newcomer is due after its delay, behind everyone due no later, and nobody else's
      deadline changes. */
  lemma {:induction false} InsertDelayExact(d: seq<int>, key: int)
    requires Natural(d) && key >= 0
    ensures var r, k := InsertDelay(d, key), DelayPlace(d, key);
            && |r| == |d| + 1 && Natural(r) && Deadline(r, k) == key
            && (forall i {:trigger Deadline(d, i)} :: 0 <= i < k ==> Deadline(r, i) == Deadline(d, i) <= key)
            && (forall i {:trigger Deadline(d, i)} :: k <= i < |d| ==> Deadline(r, i + 1) == Deadline(d, i) > key)
            && Total(r) == if Total(d) >= key then Total(d) else key
    decreases |d|
  {
    var r, k := InsertDelay(d, key), DelayPlace(d, key);
    if |d| == 0 {
      TotalOne(key);
      assert r[..1] == r;
    } else if d[0] > key {
      InsertFirst(d, key);
    } else {
      InsertDelayExact(d[1..], key - d[0]);
      assert d == [d[0]] + d[1..];
      DeadlineFirst(d[0], InsertDelay(d[1..], key - d[0]), k);
      forall i | 0 <= i < |d| ensures Deadline(r, if i < k then i else i + 1) == Deadline(d, i) && (Deadline(d, i) <= key <==> i < k) {
        DeadlineFirst(d[0], d[1..], i);
        DeadlineFirst(d[0], InsertDelay(d[1..], key - d[0]), if i < k then i else i + 1);
        if i > 0 { assert Deadline(d[1..], i - 1) == Deadline(d[1..], i - 1); }
      }
      TotalConcat([d[0]], InsertDelay(d[1..], key - d[0]));
    }
  }

  lemma InsertFirst(d: seq<int>, key: int)
    requires Natural(d) && key >= 0 && |d| > 0 && d[0] > key
    ensures var r := [key, d[0] - key] + d[1..];
            && Natural(r) && Deadline(r, 0) == key && Total(r) == Total(d) > key
            && (forall i {:trigger Deadline(d, i)} :: 0 <= i < |d| ==> Deadline(r, i + 1) == Deadline(d, i) > key)
  {
    var r := [key, d[0] - key] + d[1..];
    assert Natural(r) && Natural(d[1..]);
    hide Deadline, Total, Natural;
    assert r == [key] + ([d[0] - key] + d[1..]) && d == [d[0]] + d[1..];
    MergeTotal(key, d[0] - key, d[1..]);
    TotalNatural(d[1..]);
    DeadlineFirst(key, [d[0] - key] + d[1..], 0);
    forall i | 0 <= i < |d| ensures Deadline(r, i + 1) == Deadline(d, i) > key {
      DeadlineFirst(key, [d[0] - key] + d[1..], i + 1);
      DeadlineFirst(d[0] - key, d[1..], i);
      DeadlineFirst(d[0], d[1..], i);
      if i > 0 { DeadlineNatural(d[1..], i - 1); }
    }
  }

  lemma MergeTotal(x: int, y: int, d: seq<int>)
    ensures Total([x] + ([y] + d)) == Total([x + y] + d) == x + y + Total(d)
  {
    hide Total;
    TotalConcat([x], [y] + d);
    TotalConcat([y], d);
    TotalConcat([x + y], d);
    TotalOne(x);
    TotalOne(y);
    TotalOne(x + y);
  }

  lemma DeadlineNatural(d: seq<int>, i: nat)
    requires Natural(d) && i < |d|
    ensures Deadline(d, i) >= 0
  {
    TotalNatural(d[..i + 1]);
  }

  // ------------------------------------------------------------ removal

  /** unsleep: the entry behind takes over the delay of the one removed. */
  function DropDelay(d: seq<int>, i: nat): (r: seq<int>)
    requires i < |d|
  {
    if i + 1 < |d| then d[..i] + [d[i] + d[i + 1]] + d[i + 2..] else d[..i]
  }

  /** Nobody else's deadline changes. */
  lemma DropDelayExact(d: seq<int>, i: nat)
    requires Natural(d) && i < |d|
    ensures var r := DropDelay(d, i);
            && |r| == |d| - 1 && Natural(r) && Total(r) <= Total(d)
            && (forall j {:trigger Deadline(d, j)} :: 0 <= j < i ==> Deadline(r, j) == Deadline(d, j))
            && (forall j {:trigger Deadline(d, j)} :: i < j < |d| ==> Deadline(r, j - 1) == Deadline(d, j))
  {
    var r, a := DropDelay(d, i), d[..i];
    assert Natural(r);
    hide Deadline, Total, Natural;
    if i + 1 == |d| {
      DropLast(d, i);
      forall j | 0 <= j < i ensures Deadline(r, j) == Deadline(d, j) { DeadlineSplit(a, [d[i]], j); }
    } else {
      var x, y, c := d[i], d[i + 1], d[i + 2..];
      assert d == a + ([x] + ([y] + c)) && r == a + ([x + y] + c);
      DropTotal(a, x, y, c);
      forall j | 0 <= j < |d| && j != i ensures Deadline(r, if j < i then j else j - 1) == Deadline(d, j) {
        if j < i { MergeBefore(a, x, y, c, j); } else { MergeBehind(a, x, y, c, j); }
      }
    }
  }

  lemma DropLast(d: seq<int>, i: nat)
    requires Natural(d) && i + 1 == |d|
    ensures d == d[..i] + [d[i]] && Total(d[..i]) <= Total(d)
  {
    hide Total;
    assert d == d[..i] + [d[i]];
    TotalConcat(d[..i], [d[i]]);
    TotalOne(d[i]);
  }

  lemma DropTotal(a: seq<int>, x: int, y: int, c: seq<int>)
    ensures Total(a + ([x] + ([y] + c))) == Total(a + ([x + y] + c))
  {
    hide Total;
    TotalConcat(a, [x] + ([y] + c));
    TotalConcat(a, [x + y] + c);
    MergeTotal(x, y, c);
  }

  lemma MergeBefore(a: seq<int>, x: int, y: int, c: seq<int>, j: nat)
    requires j < |a|
    ensures Deadline(a + ([x + y] + c), j) == Deadline(a + ([x] + ([y] + c)), j)
  {
    hide Deadline;
    DeadlineSplit(a, [x + y] + c, j);
    DeadlineSplit(a, [x] + ([y] + c), j);
  }

  lemma MergeBehind(a: seq<int>, x: int, y: int, c: seq<int>, j: nat)
    requires |a| < j < |a| + |c| + 2
    ensures Deadline(a + ([x + y] + c), j - 1) == Deadline(a + ([x] + ([y] + c)), j)
  {
    hide Deadline;
    var k := j - |a|;
    DeadlineSplit(a, [x + y] + c, j - 1);
    DeadlineSplit(a, [x] + ([y] + c), j);
    DeadlineFirst(x, [y] + c, k);
    DeadlineFirst(y, c, k - 1);
    DeadlineFirst(x + y, c, k - 1);
  }

  // ------------------------------------------------------------ ticks

  /** One tick off the first delay. */
  function Ticked(d: seq<int>): (r: seq<int>)
    requires |d| > 0
  {
    d[0 := d[0] - 1]
  }

  /** How many entries at the front are due. */
  function Due(d: seq<int>): (k: nat)
    ensures k <= |d|
  {
    if |d| == 0 || d[0] > 0 then 0 else 1 + Due(d[1..])
  }

  lemma {:induction false} DueDeadlines(d: seq<int>)
    requires Natural(d)
    ensures forall i {:trigger Deadline(d, i)} :: 0 <= i < |d| ==> (Deadline(d, i) == 0 <==> i < Due(d)) && Deadline(d, i) >= 0
    ensures Total(d[..Due(d)]) == 0
    decreases |d|
  {
    if |d| > 0 {
      assert d == [d[0]] + d[1..];
      DueDeadlines(d[1..]);
      forall i | 0 <= i < |d| ensures (Deadline(d, i) == 0 <==> i < Due(d)) && Deadline(d, i) >= 0 {
        DeadlineFirst(d[0], d[1..], i);
        if i > 0 { assert Deadline(d[1..], i - 1) >= 0; }
      }
      if d[0] == 0 {
        assert d[..Due(d)] == [d[0]] + d[1..][..Due(d[1..])];
        TotalConcat([d[0]], d[1..][..Due(d[1..])]);
        TotalOne(d[0]);
      }
    }
  }

  lemma TickedDeadline(d: seq<int>, i: nat)
    requires i < |d|
    ensures Deadline(Ticked(d), i) == Deadline(d, i) - 1
  {
    hide Deadline;
    assert Ticked(d) == [d[0] - 1] + d[1..] && d == [d[0]] + d[1..];
    DeadlineFirst(d[0] - 1, d[1..], i);
    DeadlineFirst(d[0], d[1..], i);
  }

  /** Entries without delay may be taken off the front. */
  lemma SuffixDeadline(d: seq<int>, k: nat, i: nat)
    requires k <= i < |d| && Total(d[..k]) == 0
    ensures Deadline(d[k..], i - k) == Deadline(d, i)
  {
    hide Deadline, Total;
    assert d == d[..k] + d[k..];
    DeadlineSplit(d[..k], d[k..], i);
  }

  lemma SuffixNatural(d: seq<int>, k: nat)
    requires Natural(d) && k <= |d|
    ensures Natural(d[k..]) && (k < |d| ==> d[k..][0] == d[k])
  {
  }

  /** After a tick whose first delay was positive, the entries dropped are exactly those that were
      due in one tick, and every other deadline is exactly one lower. */
  lemma TickExact(d: seq<int>)
    requires Natural(d) && |d| > 0 && d[0] > 0
    ensures var k := Due(Ticked(d)); var r := Ticked(d)[k..];
            && Natural(r) && (|r| > 0 ==> r[0] > 0)
            && (forall i {:trigger Deadline(d, i)} :: 0 <= i < |d| ==> (i < k <==> Deadline(d, i) == 1))
            && (forall i {:trigger Deadline(d, i)} :: k <= i < |d| ==> Deadline(r, i - k) == Deadline(d, i) - 1)
  {
    TickedNatural(d);
    hide Deadline, Total, Natural, Due, Ticked;
    var t := Ticked(d);
    var k := Due(t);
    DueStops(t);
    SuffixNatural(t, k);
    forall i {:trigger Deadline(d, i)} | 0 <= i < |d|
      ensures i < k <==> Deadline(d, i) == 1
      ensures i >= k ==> Deadline(t[k..], i - k) == Deadline(d, i) - 1
    {
      TickedEntry(d, i);
    }
  }

  lemma TickedNatural(d: seq<int>)
    requires Natural(d) && |d| > 0 && d[0] > 0
    ensures |Ticked(d)| == |d| && Natural(Ticked(d))
  {
  }

  lemma TickedEntry(d: seq<int>, i: nat)
    requires Natural(d) && i < |d| && d[0] > 0
    ensures var t := Ticked(d); var k := Due(t);
            && |t| == |d| && (i < k <==> Deadline(d, i) == 1) && (i >= k ==> Deadline(t[k..], i - k) == Deadline(d, i) - 1)
  {
    TickedNatural(d);
    hide Deadline, Total, Natural, Due, Ticked;
    TickedDeadline(d, i);
    DueDeadlines(Ticked(d));
    if i >= Due(Ticked(d)) { SuffixDeadline(Ticked(d), Due(Ticked(d)), i); }
  }

  lemma {:induction false} DueStops(d: seq<int>)
    ensures Due(d) < |d| ==> d[Due(d)] > 0
    decreases |d|
  {
    if |d| > 0 && d[0] <= 0 {
      DueStops(d[1..]);
    }
  }

  /** A tick that finds the first delay already zero is lost on everyone else: nobody left asleep
      comes closer to waking. Only recvtime(0) enters such a delay. */
  lemma TickLost(d: seq<int>)
    requires Natural(d) && |d| > 0 && d[0] == 0
    ensures var k := Due(Ticked(d));
            && k == Due(d)
            && (forall i {:trigger Deadline(d, i)} :: k <= i < |d| ==> Deadline(Ticked(d)[k..], i - k) == Deadline(d, i))
  {
    hide Deadline, Total, Natural, Due, Ticked;
    DueTicked(d);
    var k := Due(d);
    var r := Ticked(d)[k..];
    forall i {:trigger Deadline(d, i)} | k <= i < |d| ensures Deadline(r, i - k) == Deadline(d, i) {
      DueSuffix(d, i);
    }
  }

  lemma DueSuffix(d: seq<int>, i: nat)
    requires Natural(d) && Due(d) <= i < |d|
    ensures Deadline(d[Due(d)..], i - Due(d)) == Deadline(d, i)
  {
    hide Deadline, Total, Natural, Due;
    DueDeadlines(d);
    SuffixDeadline(d, Due(d), i);
  }

  lemma DueTicked(d: seq<int>)
    requires |d| > 0 && d[0] == 0
    ensures Due(Ticked(d)) == Due(d) >= 1 && Ticked(d)[Due(d)..] == d[Due(d)..]
  {
    assert Ticked(d)[1..] == d[1..];
    TickedSuffix(d, Due(d));
  }

  lemma TickedSuffix(d: seq<int>, k: nat)
    requires 1 <= k <= |d|
    ensures Ticked(d)[k..] == d[k..]
  {
    forall i | 0 <= i < |d| - k ensures Ticked(d)[k..][i] == d[k..][i] {}
  }
}
