/**
 The ring driven through any sequence of calls: its arrays and wrapping
 counters behave, act by act, as the queues of `SubmissionQueue` and
 `CompletionQueue` do over whole runs.
 */
module Drive {
  import opened Bits
  import Ring
  import SubmissionQueue
  import CompletionQueue

  /** The kernel posts and the caller reads, in any order. */
  method Completions<E>(r: Ring.Ring<E>, acts: seq<CompletionQueue.Act<Ring.Cqe>>)
    returns (seen: seq<Ring.Cqe>, dropped: seq<Ring.Cqe>)
    requires r.Valid()
    modifies r`cqTail, r`ct, r`cqHead, r`ch, r.cqes
    ensures r.Valid() && r.Sq() == old(r.Sq())
    ensures var t := CompletionQueue.Run(CompletionQueue.Trace(old(r.Cq()), [], [], []), r.cqEntries, acts);
            r.Cq() == t.unread && seen == t.seen && dropped == t.dropped
  {
    seen, dropped := [], [];
    ghost var t := CompletionQueue.Trace(r.Cq(), [], [], []);
    ghost var end := CompletionQueue.Run(t, r.cqEntries, acts);
    var i := 0;
    assert acts[0..] == acts;
    while i < |acts|
      invariant i <= |acts| && r.Valid() && r.Sq() == old(r.Sq())
      invariant r.Cq() == t.unread && seen == t.seen && dropped == t.dropped
      invariant CompletionQueue.Run(t, r.cqEntries, acts[i..]) == end
    {
      assert acts[i..][0] == acts[i] && acts[i..][1..] == acts[i + 1..];
      t := CompletionQueue.Do(t, r.cqEntries, acts[i]);
      match acts[i] {
        case Post(x) =>
          var ok := r.KernelPost(x);
          if !ok { dropped := dropped + [x]; }
        case See =>
          var slot := r.PeekCQE();
          if slot >= 0 {
            seen := seen + [r.cqes[slot]];
            r.SeenCQE();
          }
      }
      i := i + 1;
    }
  }

  /** Entries handed out stay within the counters' range: few calls, or a ring that is never overfull. */
  ghost predicate InBounds<T>(t: SubmissionQueue.Trace<T>, entries: nat, ops: seq<SubmissionQueue.Act<T>>)
    requires entries > 0 && SubmissionQueue.Coherent(t.q)
  {
    || |t.q.published| + |t.q.staged| + |ops| < WORD
    || (&& entries + 1 < WORD && |t.q.published| + |t.q.staged| <= entries
        && SubmissionQueue.NeverOverfull(t, entries, ops))
  }

  lemma InBoundsStep<T>(t: SubmissionQueue.Trace<T>, entries: nat, ops: seq<SubmissionQueue.Act<T>>)
    requires entries > 0 && SubmissionQueue.Coherent(t.q) && ops != [] && InBounds(t, entries, ops)
    ensures |t.q.published| + |t.q.staged| + 1 < WORD
    ensures InBounds(SubmissionQueue.Do(t, entries, ops[0]), entries, ops[1..])
  {
  }

  /** The caller gets entries and submits them, the kernel accepting what it likes of each batch. */
  method Submissions<E>(r: Ring.Ring<E>, ops: seq<SubmissionQueue.Act<E>>)
    returns (handed: seq<E>, consumed: seq<E>)
    requires r.Valid() && SubmissionQueue.Coherent(r.Sq())
    requires InBounds(SubmissionQueue.Trace(r.Sq(), [], []), r.sqEntries, ops)
    modifies r, r.sqArray, r.sqes
    ensures r.Valid() && r.Cq() == old(r.Cq())
    ensures SubmissionQueue.Trace(r.Sq(), handed, consumed)
         == SubmissionQueue.Run(SubmissionQueue.Trace(old(r.Sq()), [], []), r.sqEntries, ops)
  {
    handed, consumed := [], [];
    ghost var t := SubmissionQueue.Trace(r.Sq(), [], []);
    ghost var end := SubmissionQueue.Run(t, r.sqEntries, ops);
    var i := 0;
    assert ops[0..] == ops;
    while i < |ops|
      invariant i <= |ops| && r.Valid() && r.Cq() == old(r.Cq())
      invariant SubmissionQueue.Coherent(t.q) && t == SubmissionQueue.Trace(r.Sq(), handed, consumed)
      invariant InBounds(t, r.sqEntries, ops[i..])
      invariant SubmissionQueue.Run(t, r.sqEntries, ops[i..]) == end
    {
      assert ops[i..][0] == ops[i] && ops[i..][1..] == ops[i + 1..];
      InBoundsStep(t, r.sqEntries, ops[i..]);
      ghost var q := t.q;
      t := SubmissionQueue.Do(t, r.sqEntries, ops[i]);
      match ops[i] {
        case Get(e) =>
          var ok := r.Enqueue(e);
          if ok { handed := handed + [e]; }
          assert r.Sq() == SubmissionQueue.Stage(q, r.sqEntries, e);
        case Submit(accept) =>
          var _, _, taken := r.Submit(accept, false);
          consumed := consumed + taken;
          assert taken == SubmissionQueue.Flush(q).published[..SubmissionQueue.Accepted(q, accept)];
      }
      i := i + 1;
    }
  }
}
