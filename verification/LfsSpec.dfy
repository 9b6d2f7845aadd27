/** What an open file is, without disk, blocks or caches: its bytes and a position. */
module LfsSpec {
  import opened Common
  import opened Bytes
  import opened LfsFile

  const EOF := -2

  datatype OpenFile = OpenFile(content: seq<byte>, pos: nat)

  datatype Op = Put(ch: byte) | Get | Seek(offset: nat)

  /** Overwrite below the size, append at the size, refuse beyond it; end of file at the size;
      reposition anywhere up to the size. */
  function Step(a: OpenFile, op: Op): (r: (OpenFile, int)) {
    match op
    case Put(ch) =>
      if a.pos > |a.content| then (a, SYSERR)
      else (OpenFile(Written(a.content, a.pos, ch), a.pos + 1), OK)
    case Get =>
      if a.pos >= |a.content| then (a, EOF)
      else (a.(pos := a.pos + 1), a.content[a.pos])
    case Seek(offset) =>
      if offset > |a.content| then (a, SYSERR)
      else (a.(pos := offset), OK)
  }

  function Run(a: OpenFile, ops: seq<Op>): (r: (OpenFile, seq<int>)) {
    if |ops| == 0 then (a, []) else
    var (b, rs) := Run(a, ops[..|ops| - 1]);
    var (c, x) := Step(b, ops[|ops| - 1]);
    (c, rs + [x])
  }

  function Puts(ops: seq<Op>): nat {
    if |ops| == 0 then 0 else Puts(ops[..|ops| - 1]) + (if ops[|ops| - 1].Put? then 1 else 0)
  }

  /** On every run the position stays within the file, the file never shrinks, and it grows
      by no more than the bytes put. */
  lemma {:induction false} RunBounds(a: OpenFile, ops: seq<Op>)
    requires a.pos <= |a.content|
    ensures Run(a, ops).0.pos <= |Run(a, ops).0.content|
    ensures |a.content| <= |Run(a, ops).0.content| <= |a.content| + Puts(ops)
    ensures |Run(a, ops).1| == |ops|
  {
    if |ops| > 0 {
      RunBounds(a, ops[..|ops| - 1]);
    }
  }

  function PutAll(bs: seq<byte>): (ops: seq<Op>)
    ensures |ops| == |bs|
    ensures forall k :: 0 <= k < |bs| ==> ops[k] == Put(bs[k])
  {
    seq(|bs|, k requires 0 <= k < |bs| => Put(bs[k]))
  }

  function GetAll(n: nat): (ops: seq<Op>)
    ensures |ops| == n
  {
    seq(n, k => Get)
  }

  /** Putting bytes one after the other replaces or appends exactly those bytes. */
  lemma {:induction false} PutAllEffect(a: OpenFile, bs: seq<byte>)
    requires a.pos <= |a.content|
    ensures Run(a, PutAll(bs)).0.pos == a.pos + |bs|
    ensures Run(a, PutAll(bs)).0.content ==
              a.content[..a.pos] + bs + (if a.pos + |bs| < |a.content| then a.content[a.pos + |bs|..] else [])
  {
    if |bs| > 0 {
      var n := |bs| - 1;
      assert PutAll(bs)[..n] == PutAll(bs[..n]);
      PutAllEffect(a, bs[..n]);
      assert bs == bs[..n] + [bs[n]];
    }
  }

  lemma {:induction false} GetAllEffect(a: OpenFile, n: nat)
    requires a.pos + n <= |a.content|
    ensures Run(a, GetAll(n)).0 == a.(pos := a.pos + n)
    ensures |Run(a, GetAll(n)).1| == n
    ensures forall k :: 0 <= k < n ==> Run(a, GetAll(n)).1[k] == a.content[a.pos + k]
  {
    if n > 0 {
      assert GetAll(n)[..n - 1] == GetAll(n - 1);
      GetAllEffect(a, n - 1);
    }
  }

  lemma {:induction false} RunAppend(a: OpenFile, xs: seq<Op>, ys: seq<Op>)
    ensures Run(a, xs + ys).0 == Run(Run(a, xs).0, ys).0
    ensures Run(a, xs + ys).1 == Run(a, xs).1 + Run(Run(a, xs).0, ys).1
  {
    if |ys| == 0 {
      assert xs + ys == xs;
    } else {
      var n := |xs + ys| - 1;
      assert (xs + ys)[..n] == xs + ys[..|ys| - 1];
      RunAppend(a, xs, ys[..|ys| - 1]);
    }
  }

  lemma RunOne(a: OpenFile, op: Op)
    ensures Run(a, [op]) == (Step(a, op).0, [Step(a, op).1])
  {
    var ops := [op];
    assert ops[..|ops| - 1] == [] && ops[|ops| - 1] == op;
    var (b, rs) := Run(a, ops[..|ops| - 1]);
    assert b == a && rs == [];
    assert rs + [Step(b, op).1] == [Step(a, op).1];
  }

  /** The contents with the bytes from p on replaced by bs. */
  function Overwritten(content: seq<byte>, p: nat, bs: seq<byte>): (c: seq<byte>)
    requires p <= |content|
    ensures |c| >= p + |bs| && c[p..p + |bs|] == bs
  {
    content[..p] + bs + (if p + |bs| < |content| then content[p + |bs|..] else [])
  }

  lemma AllPut(a: OpenFile, bs: seq<byte>)
    requires a.pos <= |a.content|
    ensures Run(a, PutAll(bs)).0 == OpenFile(Overwritten(a.content, a.pos, bs), a.pos + |bs|)
  {
    hide Run, PutAll;
    PutAllEffect(a, bs);
  }

  lemma AfterSeek(a: OpenFile, p: nat)
    requires p <= |a.content|
    ensures Run(a, [Seek(p)]).0 == OpenFile(a.content, p)
  {
    hide Run;
    RunOne(a, Seek(p));
  }

  lemma SeekWrite(a: OpenFile, p: nat, bs: seq<byte>)
    requires p <= |a.content|
    ensures Run(a, [Seek(p)] + PutAll(bs)).0 == OpenFile(Overwritten(a.content, p, bs), p + |bs|)
  {
    hide Run, PutAll;
    AfterSeek(a, p);
    RunAppend(a, [Seek(p)], PutAll(bs));
    AllPut(OpenFile(a.content, p), bs);
  }

  lemma SeekWriteSeek(a: OpenFile, p: nat, bs: seq<byte>)
    requires p <= |a.content|
    ensures Run(a, [Seek(p)] + PutAll(bs) + [Seek(p)]).0 == OpenFile(Overwritten(a.content, p, bs), p)
  {
    hide Run, PutAll, Overwritten;
    SeekWrite(a, p, bs);
    RunAppend(a, [Seek(p)] + PutAll(bs), [Seek(p)]);
    AfterSeek(OpenFile(Overwritten(a.content, p, bs), p + |bs|), p);
  }

  /** Reading a stretch that holds bs delivers bs. */
  lemma ReadThere(a: OpenFile, bs: seq<byte>)
    requires a.pos + |bs| <= |a.content| && a.content[a.pos..a.pos + |bs|] == bs
    ensures Run(a, GetAll(|bs|)).1 == seq(|bs|, k requires 0 <= k < |bs| => bs[k] as int)
  {
    hide Run, GetAll;
    GetAllEffect(a, |bs|);
    forall k | 0 <= k < |bs| ensures a.content[a.pos + k] == bs[k] {
      assert a.content[a.pos..a.pos + |bs|][k] == bs[k];
    }
  }

  /** Seek, write, seek back, read: the bytes written come back. */
  lemma WriteReadBack(a: OpenFile, p: nat, bs: seq<byte>)
    requires p <= |a.content|
    ensures Run(a, [Seek(p)] + PutAll(bs) + [Seek(p)] + GetAll(|bs|)).1
         == Run(a, [Seek(p)] + PutAll(bs) + [Seek(p)]).1 + seq(|bs|, k requires 0 <= k < |bs| => bs[k] as int)
  {
    hide Run, PutAll, GetAll, Overwritten;
    var write := [Seek(p)] + PutAll(bs) + [Seek(p)];
    RunAppend(a, write, GetAll(|bs|));
    SeekWriteSeek(a, p, bs);
    ReadThere(OpenFile(Overwritten(a.content, p, bs), p), bs);
  }

  /** A seek past the end of the file is refused, and everything that follows is as if it had not been made. */
  lemma RefusedSeek(a: OpenFile, xs: seq<Op>, offset: nat, ys: seq<Op>)
    requires offset > |Run(a, xs).0.content|
    ensures Run(a, xs + [Seek(offset)] + ys).0 == Run(a, xs + ys).0
    ensures Run(a, xs + [Seek(offset)] + ys).1 == Run(a, xs).1 + [SYSERR] + Run(Run(a, xs).0, ys).1
    ensures Run(a, xs + ys).1 == Run(a, xs).1 + Run(Run(a, xs).0, ys).1
  {
    hide Run;
    var b := Run(a, xs).0;
    RunAppend(a, xs, [Seek(offset)]);
    RunOne(b, Seek(offset));
    RunAppend(a, xs + [Seek(offset)], ys);
    RunAppend(a, xs, ys);
  }

  /** How many bytes a read of `count` delivers. */
  function ReadLength(a: OpenFile, count: nat): (n: nat)
    ensures n <= count
    ensures a.pos <= |a.content| ==> a.pos + n <= |a.content|
    ensures a.pos > |a.content| ==> n == 0
    ensures n < count ==> a.pos + n >= |a.content|
  {
    if a.pos >= |a.content| then 0
    else if count <= |a.content| - a.pos then count
    else |a.content| - a.pos
  }

  lemma ReadAll(a: OpenFile, count: nat, n: nat)
    requires n <= count && (n > 0 ==> a.pos + n <= |a.content|) && (n < count ==> a.pos + n >= |a.content|)
    ensures n == ReadLength(a, count)
  {
  }

  lemma PutAllSnoc(bs: seq<byte>, i: nat)
    requires i < |bs|
    ensures PutAll(bs[..i + 1]) == PutAll(bs[..i]) + [Put(bs[i])]
  {
  }

  lemma RunNone(a: OpenFile)
    ensures Run(a, PutAll([])) == (a, [])
  {
  }

  lemma RunSnoc(a: OpenFile, ops: seq<Op>, op: Op)
    ensures Run(a, ops + [op]) == (Step(Run(a, ops).0, op).0, Run(a, ops).1 + [Step(Run(a, ops).0, op).1])
    ensures Puts(ops + [op]) == Puts(ops) + (if op.Put? then 1 else 0)
  {
    assert (ops + [op])[..|ops + [op]| - 1] == ops;
  }

  /** A byte put in the course of a run lies within the file that results. */
  lemma PutWithin(a: OpenFile, ops: seq<Op>, i: nat)
    requires a.pos <= |a.content| && i < |ops|
    ensures ops[i].Put? ==> Run(a, ops[..i]).0.pos + 1 <= |Run(a, ops).0.content|
  {
    hide Run, Puts;
    var b := Run(a, ops[..i]).0;
    RunBounds(a, ops[..i]);
    assert ops == ops[..i] + ([ops[i]] + ops[i + 1..]);
    RunAppend(a, ops[..i], [ops[i]] + ops[i + 1..]);
    RunAppend(b, [ops[i]], ops[i + 1..]);
    RunOne(b, ops[i]);
    RunBounds(b, [ops[i]]);
    RunBounds(Run(b, [ops[i]]).0, ops[i + 1..]);
  }
}
