/**
 The submission queue as values: what the kernel may still consume, what is
 handed out but not flushed, and how far the flush point lies behind the
 published tail. `Ring` is proved against these functions.
 */
module SubmissionQueue {
  import Bits

  /**
   `published`: flushed, not yet consumed by the kernel, oldest first.
   `staged`: handed out since the last flush, oldest first.
   `back`: distance from the flush point (sqeLocalHead) back from the published
   tail; zero until a full ring makes the code reload the kernel's head.
   */
  datatype Sq<T> = Sq(published: seq<T>, staged: seq<T>, back: nat)

  function Empty<T>(): Sq<T> { Sq([], [], 0) }

  /** An entry is refused: full against the flush point and against the kernel head. */
  predicate Full<T>(q: Sq<T>, entries: nat) {
    |q.staged| + q.back >= entries && |q.staged| + |q.published| >= entries
  }

  /** Handing out one entry `e`, as nextSQE does, refusal and slot reuse included. */
  function Stage<T>(q: Sq<T>, entries: nat, e: T): Sq<T>
    requires entries > 0
  {
    var r := if |q.staged| + q.back >= entries then q.(back := |q.published|) else q;
    if Full(q, entries) then r
    else
      r.(published := Clobber(q.published, |q.published| + |q.staged|, entries, e),
         staged := q.staged + [e])
  }

  /** Published entries whose slot is the one at `pos` now read as `e`. */
  function Clobber<T>(p: seq<T>, pos: nat, entries: nat, e: T): (r: seq<T>)
    requires entries > 0
    ensures |r| == |p|
  {
    seq(|p|, i requires 0 <= i < |p| => if i % entries == pos % entries then e else p[i])
  }

  /** The flush point lies between the kernel's head and the published tail. */
  predicate Coherent<T>(q: Sq<T>) { q.back <= |q.published| }

  function FlushCount<T>(q: Sq<T>): nat { |q.staged| + q.back }

  /** How many entries one Submit hands over, of which the kernel accepts at most `accept`. */
  function Accepted<T>(q: Sq<T>, accept: nat): (n: nat)
    requires Coherent(q)
    ensures n <= |Flush(q).published|
  {
    if accept <= FlushCount(q) then accept else FlushCount(q)
  }

  function Flush<T>(q: Sq<T>): Sq<T> { Sq(q.published + q.staged, [], 0) }

  function Consume<T>(q: Sq<T>, n: nat): Sq<T>
    requires n <= |q.published|
  {
    q.(published := q.published[n..])
  }

  /** The slot handed out holds an entry the kernel has not consumed... */
  predicate Aliases<T>(q: Sq<T>, entries: nat)
    requires entries > 0
  {
    var pos := |q.published| + |q.staged|;
    exists i: nat :: i < |q.published| && SameSlot(i, pos, entries)
  }

  predicate SameSlot(i: nat, j: nat, entries: nat)
    requires entries > 0
  {
    i % entries == j % entries
  }

  /** ...exactly when unconsumed plus staged entries already fill the ring. */
  lemma AliasesIff<T>(q: Sq<T>, entries: nat)
    requires entries > 0 && Coherent(q) && !Full(q, entries)
    ensures Aliases(q, entries) <==> |q.published| + |q.staged| >= entries
  {
    var u, n := |q.published|, |q.published| + |q.staged|;
    if n < entries {
      forall i | 0 <= i < u
        ensures !SameSlot(i, n, entries)
      {
        Small(i, entries);
        Small(n, entries);
      }
    } else {
      var i: nat := n - entries;
      OneRoundLater(i, entries);
      Shares(q, entries, i);
    }
  }

  lemma OneRoundLater(i: nat, entries: nat)
    requires entries > 0
    ensures SameSlot(i, i + entries, entries)
  {
    AddModulus(i, entries);
  }

  lemma Shares<T>(q: Sq<T>, entries: nat, i: nat)
    requires entries > 0 && i < |q.published| && SameSlot(i, |q.published| + |q.staged|, entries)
    ensures Aliases(q, entries)
  {
  }

  lemma Small(i: nat, m: nat)
    requires i < m
    ensures i % m == i
  {
  }

  lemma AddModulus(i: nat, m: nat)
    requires m > 0
    ensures (i + m) % m == i % m
  {
    assert i == i / m * m + i % m;
    assert i + m == (i / m + 1) * m + i % m;
    Bits.ModUnique(i + m, m, i / m + 1, i % m);
  }

  /** With room for one more, handing out appends and disturbs nothing. */
  lemma StageWithRoom<T>(q: Sq<T>, entries: nat, e: T)
    requires entries > 0 && Coherent(q)
    requires |q.published| + |q.staged| < entries
    ensures !Full(q, entries)
    ensures Stage(q, entries, e) == q.(staged := q.staged + [e])
  {
    var n := |q.published| + |q.staged|;
    Small(n, entries);
    forall i | 0 <= i < |q.published|
      ensures Clobber(q.published, n, entries, e)[i] == q.published[i]
    {
      Small(i, entries);
    }
    assert Clobber(q.published, n, entries, e) == q.published;
  }

  /** A refusal rewinds the flush point, changing the next flush count iff the kernel lags behind it. */
  lemma ReloadChangesFlushCountIff<T>(q: Sq<T>, entries: nat, e: T)
    requires entries > 0 && Full(q, entries)
    ensures FlushCount(Stage(q, entries, e)) == FlushCount(q) <==> q.back == |q.published|
  {
  }

  /** One step of a caller of the ring. */
  datatype Act<T> = Get(e: T) | Submit(accept: nat)

  /** A queue with everything handed out and everything the kernel read so far. */
  datatype Trace<T> = Trace(q: Sq<T>, handed: seq<T>, consumed: seq<T>)

  function Do<T>(t: Trace<T>, entries: nat, op: Act<T>): (r: Trace<T>)
    requires entries > 0 && Coherent(t.q)
    ensures Coherent(r.q)
  {
    match op
    case Get(e) =>
      Trace(Stage(t.q, entries, e),
            if Full(t.q, entries) then t.handed else t.handed + [e],
            t.consumed)
    case Submit(accept) =>
      var f, n := Flush(t.q), Accepted(t.q, accept);
      Trace(Consume(f, n), t.handed, t.consumed + f.published[..n])
  }

  function Run<T>(t: Trace<T>, entries: nat, ops: seq<Act<T>>): Trace<T>
    requires entries > 0 && Coherent(t.q)
    decreases |ops|
  {
    if ops == [] then t else Run(Do(t, entries, ops[0]), entries, ops[1..])
  }

  /** Each entry handed out found unconsumed plus staged entries below the ring size. */
  predicate NeverOverfull<T>(t: Trace<T>, entries: nat, ops: seq<Act<T>>)
    requires entries > 0 && Coherent(t.q)
    decreases |ops|
  {
    ops == [] ||
    (&& (ops[0].Get? && !Full(t.q, entries) ==> |t.q.published| + |t.q.staged| < entries)
     && NeverOverfull(Do(t, entries, ops[0]), entries, ops[1..]))
  }

  predicate InOrder<T(==)>(t: Trace<T>) {
    && Coherent(t.q)
    && t.handed == t.consumed + t.q.published + t.q.staged
  }

  /**
   FIFO: over any calls and any partial acceptance by the kernel, what was
   handed out is what the kernel read, then what it may still read, in order.
   */
  lemma {:induction false} FifoOverRuns<T>(t: Trace<T>, entries: nat, ops: seq<Act<T>>)
    requires entries > 0 && InOrder(t) && NeverOverfull(t, entries, ops)
    ensures InOrder(Run(t, entries, ops))
    decreases |ops|
  {
    if ops != [] {
      StepInOrder(t, entries, ops[0]);
      FifoOverRuns(Do(t, entries, ops[0]), entries, ops[1..]);
    }
  }

  lemma StepInOrder<T>(t: Trace<T>, entries: nat, op: Act<T>)
    requires entries > 0 && InOrder(t)
    requires op.Get? && !Full(t.q, entries) ==> |t.q.published| + |t.q.staged| < entries
    ensures InOrder(Do(t, entries, op))
  {
    match op
    case Get(e) =>
      if !Full(t.q, entries) {
        StageWithRoom(t.q, entries, e);
        assert t.handed + [e] == t.consumed + t.q.published + (t.q.staged + [e]);
      }
    case Submit(accept) =>
      var f, n := Flush(t.q), Accepted(t.q, accept);
      assert f.published == f.published[..n] + f.published[n..];
      assert t.handed == t.consumed + f.published;
      assert t.handed == (t.consumed + f.published[..n]) + f.published[n..] + [];
  }

  /** Nothing the kernel has yet to take, and no more staged than the ring holds. */
  predicate CaughtUp<T>(q: Sq<T>, entries: nat) {
    q.published == [] && q.back == 0 && |q.staged| <= entries
  }

  /**
   If every enter takes its whole batch, then after any calls an entry is
   refused exactly when all slots are staged and unflushed, and the refusal,
   with its reload of the kernel head, changes nothing.
   */
  lemma {:induction false} FullnessIsExact<T>(t: Trace<T>, entries: nat, ops: seq<Act<T>>, e: T)
    requires entries > 0 && CaughtUp(t.q, entries)
    requires forall i :: 0 <= i < |ops| && ops[i].Submit? ==> ops[i].accept >= entries
    ensures var q := Run(t, entries, ops).q;
            && CaughtUp(q, entries)
            && (Full(q, entries) <==> |q.staged| == entries)
            && (Full(q, entries) ==> Stage(q, entries, e) == q)
    decreases |ops|
  {
    if ops != [] {
      var t' := Do(t, entries, ops[0]);
      if ops[0].Get? && !Full(t.q, entries) {
        StageWithRoom(t.q, entries, ops[0].e);
      }
      assert forall i :: 0 <= i < |ops[1..]| ==> ops[1..][i] == ops[i + 1];
      FullnessIsExact(t', entries, ops[1..], e);
    }
  }

  /**
   A short enter breaks this without the room: two slots, two published entries
   the kernel did not take, and a third entry handed out lands on the oldest.
   */
  lemma ShortEnterCanLoseAnEntry()
    ensures var lag := Trace(Sq([1, 2], [], 0), [1, 2], []);
            && Run(Trace(Empty<nat>(), [], []), 2, [Get(1), Get(2), Submit(0)]) == lag
            && Run(lag, 2, [Get(3), Submit(1)]).handed == [1, 2, 3]
            && Run(lag, 2, [Get(3), Submit(1)]).consumed == [3]
  {
    FillTwoTakeNone();
    OverwriteOldest();
  }

  lemma FillTwoTakeNone()
    ensures Run(Trace(Empty<nat>(), [], []), 2, [Get(1), Get(2), Submit(0)])
            == Trace(Sq([1, 2], [], 0), [1, 2], [])
  {
    Three(Trace(Empty<nat>(), [], []), Get(1), Get(2), Submit(0));
    var t1 := Trace(Sq([], [1], 0), [1], []);
    assert Do(Trace(Empty<nat>(), [], []), 2, Get(1)) == t1 by { assert Clobber([], 0, 2, 1) == []; }
    var t2 := Trace(Sq([], [1, 2], 0), [1, 2], []);
    assert Do(t1, 2, Get(2)) == t2 by { assert Clobber([], 1, 2, 2) == []; }
  }

  lemma OverwriteOldest()
    ensures var t := Run(Trace(Sq([1, 2], [], 0), [1, 2], []), 2, [Get(3), Submit(1)]);
            t.handed == [1, 2, 3] && t.consumed == [3]
  {
    var lag := Trace(Sq([1, 2], [], 0), [1, 2], []);
    Two(lag, Get(3), Submit(1));
    var t4 := Trace(Sq([3, 2], [3], 0), [1, 2, 3], []);
    assert Do(lag, 2, Get(3)) == t4 by { assert Clobber([1, 2], 2, 2, 3) == [3, 2]; }
    assert Do(t4, 2, Submit(1)).consumed == [3] by { assert [3, 2, 3][..1] == [3]; }
  }

  lemma Two(t: Trace<nat>, a: Act<nat>, b: Act<nat>)
    requires Coherent(t.q)
    ensures Run(t, 2, [a, b]) == Do(Do(t, 2, a), 2, b)
  {
    assert [a, b][1..] == [b] && [b][1..] == [];
    var t1 := Do(t, 2, a);
    assert Run(t1, 2, [b]) == Run(Do(t1, 2, b), 2, []);
  }

  lemma Three(t: Trace<nat>, a: Act<nat>, b: Act<nat>, c: Act<nat>)
    requires Coherent(t.q)
    ensures Run(t, 2, [a, b, c]) == Do(Do(Do(t, 2, a), 2, b), 2, c)
  {
    assert [a, b, c][1..] == [b, c];
    Two(Do(t, 2, a), b, c);
  }
}
