/**
 What becomes of a result. A served request is replied to when the kernel takes
 its commit, which it does only inside io_uring_enter. The worker ignores how
 many entries an enter took, so what a short enter leaves behind stays behind:
 the last results are never delivered, and with every tag left behind the
 worker waits for nothing. Stopping in mid-batch loses results too.
 */
module LostResults {
  import opened SubmissionQueue
  import opened Disk
  import opened Requests
  import opened Protocol
  import Bits
  import Tokens
  import Shutdown
  import Ring
  import DataPlane

  // ---------------------------------------------------------------------
  // What short enters leave behind

  /** Entries that io_uring_enter was asked to take and did not, over a run. */
  function Shortfall(c: Config, s: State, ls: seq<Label>): nat
    requires IsRun(c, s, ls)
    decreases |ls|
  {
    if ls == [] then 0
    else (if ls[0].EnterReturn? then s.pc.left else 0) + Shortfall(c, Step(c, s, ls[0]), ls[1..])
  }

  /** Published entries that the enter under way is not going to take. */
  function Behind(s: State): int {
    |s.sq.published| - if s.pc.Enter? then s.pc.left else 0
  }

  lemma StepFallsBehind(c: Config, s: State, l: Label)
    requires ValidConfig(c) && Tokens.Inv(c, s) && Enabled(c, s, l)
    ensures Behind(Step(c, s, l)) == Behind(s) + if l.EnterReturn? then s.pc.left else 0
  {
    match l
    case HandleIO(out) => Tokens.HandleMovesNothing(c, s, out);
    case PrepareCommit =>
      Tokens.Count(c, s);
      StageWithRoom(s.sq, c.sqEntries, CommitSqe(c, s.pc.tag, s.pc.result));
    case Flush =>
    case Consume =>
    case Take =>
    case _ => DataPlane.QuietOrKernel(c, s, l);
  }

  lemma {:induction false} RunFallsBehind(c: Config, s: State, ls: seq<Label>)
    requires ValidConfig(c) && Tokens.Inv(c, s) && IsRun(c, s, ls)
    ensures Behind(Exec(c, s, ls)) == Behind(s) + Shortfall(c, s, ls)
    decreases |ls|
  {
    if ls != [] {
      StepFallsBehind(c, s, ls[0]);
      Tokens.StepKeeps(c, s, ls[0]);
      RunFallsBehind(c, Step(c, s, ls[0]), ls[1..]);
    }
  }

  /** The worker never catches up: what enters left behind, in all, is what lies unconsumed between them. */
  lemma NeverCatchesUp(c: Config, disk: seq<byte>, ls: seq<Label>)
    requires ValidConfig(c) && IsRun(c, Init(c, disk), ls)
    ensures var s := Exec(c, Init(c, disk), ls);
            |s.sq.published| == Shortfall(c, Init(c, disk), ls) + if s.pc.Enter? then s.pc.left else 0
  {
    Tokens.InitHolds(c, disk);
    Tokens.FetchQueueIs(c, c.depth);
    RunFallsBehind(c, Init(c, disk), ls);
  }

  // ---------------------------------------------------------------------
  // The newest entries are commits

  predicate AllCommits(es: seq<IoSqe>) {
    forall i :: 0 <= i < |es| ==> es[i].op == CommitAndFetchReq
  }

  /** Results that have not been flushed. */
  function Unflushed(s: State): nat {
    |s.sq.staged| + if s.pc.Commit? then 1 else 0
  }

  /** Past the first flush only commits are staged, and once one is flushed the newest published entry is one. */
  predicate CommitsLast(s: State) {
    if s.pc.SubmitFetch? then s.served == []
    else
      && AllCommits(s.sq.staged) && Unflushed(s) <= |s.served|
      && (Unflushed(s) < |s.served| && s.sq.published != [] ==> AllCommits(s.sq.published[|s.sq.published| - 1..]))
  }

  lemma HandleKeepsCommitsLast(c: Config, s: State, out: Outcome)
    requires CommitsLast(s) && Enabled(c, s, Label.HandleIO(out)) && s.pc.tag in s.inflight
    ensures CommitsLast(StepHandleIO(c, s, out))
  {
    Tokens.HandleMovesNothing(c, s, out);
    assert |StepHandleIO(c, s, out).served| == |s.served| + 1;
  }

  lemma CommitKeepsCommitsLast(c: Config, s: State)
    requires ValidConfig(c) && Tokens.Inv(c, s) && CommitsLast(s) && s.pc.Commit?
    ensures CommitsLast(StepPrepareCommit(c, s))
  {
    Tokens.Count(c, s);
    StageWithRoom(s.sq, c.sqEntries, CommitSqe(c, s.pc.tag, s.pc.result));
  }

  lemma FlushKeepsCommitsLast(s: State)
    requires CommitsLast(s) && Shutdown.FlushInv(s) && (s.pc.SubmitFetch? || s.pc.SubmitLoop?)
    ensures CommitsLast(StepFlush(s))
  {
    if s.pc.SubmitLoop? {
      var all := s.sq.published + s.sq.staged;
      assert all[|all| - 1..] == [s.sq.staged[|s.sq.staged| - 1]];
    }
  }

  lemma LastOfRest(p: seq<IoSqe>)
    requires |p| > 1
    ensures |p[1..]| == |p| - 1 && p[1..][|p[1..]| - 1..] == p[|p| - 1..]
  {
  }

  lemma ConsumeKeepsCommitsLast(s: State)
    requires CommitsLast(s) && s.pc.Enter? && s.pc.left > 0 && s.sq.published != []
    ensures CommitsLast(StepConsume(s))
  {
    var s', p := StepConsume(s), s.sq.published;
    assert s'.sq.published == p[1..] && s'.sq.staged == s.sq.staged && s'.served == s.served && s'.pc.Enter?;
    if |p| > 1 { LastOfRest(p); }
  }

  lemma OthersKeepCommitsLast(c: Config, s: State, l: Label)
    requires CommitsLast(s) && Enabled(c, s, l)
    requires !l.HandleIO? && !l.PrepareCommit? && !l.Flush? && !l.Consume?
    ensures CommitsLast(Step(c, s, l))
  {
    if l.Take? {
      assert StepTake(s).sq == s.sq && StepTake(s).served == s.served;
    } else {
      DataPlane.QuietOrKernel(c, s, l);
    }
  }

  lemma StepKeepsCommitsLast(c: Config, s: State, l: Label, d0: seq<byte>)
    requires ValidConfig(c) && DataPlane.Inv(c, s, d0) && Shutdown.FlushInv(s) && CommitsLast(s) && Enabled(c, s, l)
    ensures CommitsLast(Step(c, s, l))
  {
    match l
    case HandleIO(out) =>
      assert DataPlane.Pending(c, DataPlane.Mem(s), s.pc.tag);
      HandleKeepsCommitsLast(c, s, out);
    case PrepareCommit => CommitKeepsCommitsLast(c, s);
    case Flush => FlushKeepsCommitsLast(s);
    case Consume => ConsumeKeepsCommitsLast(s);
    case _ => OthersKeepCommitsLast(c, s, l);
  }

  lemma {:induction false} RunKeepsCommitsLast(c: Config, s: State, ls: seq<Label>, d0: seq<byte>)
    requires ValidConfig(c) && DataPlane.Inv(c, s, d0) && Shutdown.FlushInv(s) && CommitsLast(s) && IsRun(c, s, ls)
    ensures CommitsLast(Exec(c, s, ls)) && Shutdown.FlushInv(Exec(c, s, ls))
    decreases |ls|
  {
    if ls != [] {
      StepKeepsCommitsLast(c, s, ls[0], d0);
      Shutdown.StepKeepsFlushInv(c, s, ls[0]);
      DataPlane.StepKeeps(c, s, ls[0], d0);
      RunKeepsCommitsLast(c, Step(c, s, ls[0]), ls[1..], d0);
    }
  }

  // ---------------------------------------------------------------------
  // Delivery

  /** Every request that took effect has its reply. */
  ghost predicate AllReplied(s: State) {
    forall k :: 0 <= k < |s.served| ==> DataPlane.HasReply(s, s.served[k].id)
  }

  /**
   When `run` has returned, every request that took effect has its reply
   exactly if `run` did not stop in mid-batch and no enter fell short, or
   nothing was served at all.
   */
  lemma AllRepliedIff(c: Config, d0: seq<byte>, ls: seq<Label>)
    requires ValidConfig(c) && |d0| == c.limits.size && IsRun(c, Init(c, d0), ls)
    requires Exec(c, Init(c, d0), ls).pc.Done?
    ensures var s := Exec(c, Init(c, d0), ls);
            AllReplied(s) <==>
              s.pc.reason != Aborted(false) && (Shortfall(c, Init(c, d0), ls) == 0 || s.served == [])
  {
    var s := Exec(c, Init(c, d0), ls);
    DataPlane.InitHolds(c, d0);
    DataPlane.RunKeeps(c, Init(c, d0), ls, d0);
    DataPlane.RunTracks(c, Init(c, d0), ls, d0);
    RunKeepsCommitsLast(c, Init(c, d0), ls, d0);
    NeverCatchesUp(c, d0, ls);
    if s.sq.staged != [] {
      var k := DataPlane.CommitMeansNoReply(c, s, s.sq.staged[0]);
    } else if s.sq.published != [] && s.served != [] {
      var k := DataPlane.CommitMeansNoReply(c, s, s.sq.published[|s.sq.published| - 1]);
    } else if s.sq.published == [] {
      forall k | 0 <= k < |s.served|
        ensures DataPlane.HasReply(s, s.served[k].id)
      {
        DataPlane.EmptyQueueMeansReplied(c, s, k);
      }
    }
  }

  /** What is not replied to when `run` has returned never is. */
  lemma {:induction false} NoReplyAfterReturn(c: Config, s: State, ls: seq<Label>)
    requires s.pc.Done? && IsRun(c, s, ls)
    ensures Exec(c, s, ls).pc == s.pc && Exec(c, s, ls).served == s.served && Exec(c, s, ls).sq == s.sq
    ensures forall id :: DataPlane.HasReply(Exec(c, s, ls), id) <==> DataPlane.HasReply(s, id)
    decreases |ls|
  {
    if ls != [] {
      ReturnedStep(c, s, ls[0]);
      NoReplyAfterReturn(c, Step(c, s, ls[0]), ls[1..]);
    }
  }

  lemma ReturnedStep(c: Config, s: State, l: Label)
    requires s.pc.Done? && Enabled(c, s, l)
    ensures var s' := Step(c, s, l);
            && s'.pc == s.pc && s'.served == s.served && s'.sq == s.sq
            && forall id :: DataPlane.HasReply(s', id) <==> DataPlane.HasReply(s, id)
  {
    var s' := Step(c, s, l);
    assert s'.hist == s.hist || (s'.hist == s.hist + [s'.hist[|s.hist|]] && s'.hist[|s.hist|].Invoked?);
    forall id
      ensures DataPlane.HasReply(s', id) <==> DataPlane.HasReply(s, id)
    {
      if DataPlane.HasReply(s, id) {
        var i :| 0 <= i < |s.hist| && s.hist[i].Replied? && s.hist[i].id == id;
        assert s'.hist[i] == s.hist[i];
      }
    }
  }

  // ---------------------------------------------------------------------
  // A worker that waits for nothing

  /** Waiting, with no tag in the kernel and no completion to come. */
  predicate Stranded(s: State) {
    && s.kern == map[] && s.cq == []
    && (s.pc.EpollWait? || s.pc.WaitCheck? || s.pc.WaitLoad? || s.pc.Done?)
  }

  lemma StrandedStep(c: Config, s: State, l: Label)
    requires Stranded(s) && Enabled(c, s, l)
    ensures !l.Take? && !l.HandleIO?
    ensures var s' := Step(c, s, l);
            Stranded(s') && s'.hist == s.hist && s'.served == s.served && s'.sq == s.sq
  {
    match l
    case Epoll(w) =>
    case _ =>
  }

  lemma {:induction false} StrandedForever(c: Config, s: State, ls: seq<Label>)
    requires Stranded(s) && IsRun(c, s, ls)
    ensures Shutdown.TakesNothing(ls)
    ensures var s' := Exec(c, s, ls);
            Stranded(s') && s'.hist == s.hist && s'.served == s.served && s'.sq == s.sq
    decreases |ls|
  {
    if ls != [] {
      StrandedStep(c, s, ls[0]);
      StrandedForever(c, Step(c, s, ls[0]), ls[1..]);
      forall i | 0 <= i < |ls|
        ensures !ls[i].Take? && !ls[i].HandleIO?
      {
        if i > 0 { assert ls[i] == ls[1..][i - 1]; }
      }
    }
  }

  /** Another completion can still be taken. */
  ghost predicate CanTake(c: Config, s: State) {
    exists more: seq<Label> :: IsRun(c, s, more) && !Shutdown.TakesNothing(more)
  }

  lemma CanTakeBefore(c: Config, s: State, l: Label)
    requires Enabled(c, s, l) && CanTake(c, Step(c, s, l))
    ensures CanTake(c, s)
  {
    var more: seq<Label> :| IsRun(c, Step(c, s, l), more) && !Shutdown.TakesNothing(more);
    var i :| 0 <= i < |more| && (more[i].Take? || more[i].HandleIO?);
    var all := [l] + more;
    assert all[1..] == more && all[i + 1] == more[i];
    assert IsRun(c, s, all);
  }

  lemma ReadyCanTake(c: Config, s: State)
    requires s.pc.EpollWait? && !s.cancelled && s.cq != []
    ensures CanTake(c, s)
  {
    var s1 := Step(c, s, Epoll(RingReady));
    var s2 := Step(c, s1, Check);
    var s3 := Step(c, s2, Load);
    assert IsRun(c, s3, [Take]) && [Take][0].Take? by { assert IsRun(c, Step(c, s3, Take), [Take][1..]); }
    CanTakeBefore(c, s2, Load);
    CanTakeBefore(c, s1, Check);
    CanTakeBefore(c, s, Epoll(RingReady));
  }

  lemma KernelCanWake(c: Config, s: State, t: nat)
    requires ValidConfig(c) && Tokens.Inv(c, s) && s.pc.EpollWait? && !s.cancelled && t in s.kern
    ensures CanTake(c, s)
  {
    Tokens.Count(c, s);
    assert |s.kern| > 0;
    ReadyCanTake(c, Step(c, s, Abort(t, -1)));
    CanTakeBefore(c, s, Abort(t, -1));
  }

  /**
   A waiting worker takes no further completion, whatever happens, exactly when
   it is cancelled or short enters have left every tag behind.
   */
  lemma StrandedIff(c: Config, disk: seq<byte>, ls: seq<Label>)
    requires ValidConfig(c) && IsRun(c, Init(c, disk), ls)
    requires Exec(c, Init(c, disk), ls).pc.EpollWait?
    ensures var s := Exec(c, Init(c, disk), ls);
            !CanTake(c, s) <==> s.cancelled || Shortfall(c, Init(c, disk), ls) == c.depth
  {
    var s := Exec(c, Init(c, disk), ls);
    Tokens.InitHolds(c, disk);
    Tokens.RunKeeps(c, Init(c, disk), ls);
    Shutdown.RunKeepsFlushInv(c, Init(c, disk), ls);
    NeverCatchesUp(c, disk, ls);
    Tokens.Count(c, s);
    if s.cancelled {
      forall more | IsRun(c, s, more)
        ensures Shutdown.TakesNothing(more)
      {
        Shutdown.NoCompletionAfterCancel(c, s, more);
      }
    } else if |s.sq.published| == c.depth {
      assert |s.kern.Keys| == 0;
      assert s.kern == map[];
      forall more | IsRun(c, s, more)
        ensures Shutdown.TakesNothing(more)
      {
        StrandedForever(c, s, more);
      }
    } else if s.cq != [] {
      ReadyCanTake(c, s);
    } else {
      assert s.kern != map[];
      var t :| t in s.kern;
      KernelCanWake(c, s, t);
    }
  }

  // ---------------------------------------------------------------------
  // Both losses happen

  lemma AllPublished(c: Config, disk: seq<byte>) returns (s: State)
    requires ValidConfig(c)
    ensures Reachable(c, disk, s)
    ensures s.pc == Enter(c.depth, true) && !s.cancelled && s.cq == [] && s.kern == map[] && s.inflight == map[]
    ensures s.sq == Sq(Tokens.FetchSqes(c, c.depth), [], 0) && s.served == [] && s.closer.Idle?
    ensures |s.descs| == c.depth && |s.pool| == c.depth * c.bufSize
  {
    s := Init(c, disk);
    assert IsRun(c, s, []) && Exec(c, s, []) == s;
    FirstFlush(c);
    s := Reach(c, disk, s, Label.Flush);
  }

  lemma FirstFlush(c: Config)
    requires ValidConfig(c)
    ensures FlushCount(FetchQueue(c, c.depth)) == c.depth
    ensures SubmissionQueue.Flush(FetchQueue(c, c.depth)) == Sq(Tokens.FetchSqes(c, c.depth), [], 0)
  {
    Tokens.FetchQueueIs(c, c.depth);
    assert [] + Tokens.FetchSqes(c, c.depth) == Tokens.FetchSqes(c, c.depth);
  }

  /** An enter that takes no FETCH entry leaves the worker waiting for nothing until Cancel. */
  lemma ShortEnterStrandsTheWorker(c: Config, disk: seq<byte>) returns (s: State)
    requires ValidConfig(c)
    ensures Reachable(c, disk, s) && s.pc.EpollWait? && !s.cancelled && !CanTake(c, s)
  {
    s := AllPublished(c, disk);
    s := Reach(c, disk, s, EnterReturn(true));
    s := Reach(c, disk, s, Check);
    s := Reach(c, disk, s, Load);
    var ls :| IsRun(c, Init(c, disk), ls) && Exec(c, Init(c, disk), ls) == s;
    NeverCatchesUp(c, disk, ls);
    StrandedIff(c, disk, ls);
  }

  /** A request dispatched on tag 0 and its completion taken. */
  lemma FirstToServe(c: Config, disk: seq<byte>) returns (s: State)
    requires ValidConfig(c)
    ensures Reachable(c, disk, s)
    ensures s.pc == Serve(0) && s.cq == [] && 0 in s.inflight && s.closer.Idle? && !s.cancelled
    ensures s.sq.staged == [] && s.sq.back == 0 && |s.sq.published| <= c.depth - 1
    ensures |s.descs| == c.depth && |s.pool| == c.depth * c.bufSize
  {
    s := FirstPosted(c, disk);
    s := Reach(c, disk, s, Check);
    s := Reach(c, disk, s, Load);
    s := Reach(c, disk, s, Take);
  }

  lemma FirstPosted(c: Config, disk: seq<byte>) returns (s: State)
    requires ValidConfig(c)
    ensures Reachable(c, disk, s)
    ensures s.pc == WaitCheck && s.cq == [Ring.Cqe(0, 0)] && 0 in s.inflight && s.closer.Idle? && !s.cancelled
    ensures s.sq.staged == [] && s.sq.back == 0 && |s.sq.published| <= c.depth - 1
    ensures |s.descs| == c.depth && |s.pool| == c.depth * c.bufSize
  {
    s := AllPublished(c, disk);
    s := Reach(c, disk, s, Label.Consume);
    s := Reach(c, disk, s, EnterReturn(true));
    s := Reach(c, disk, s, Dispatch(0, IoDesc(0, 0, 0), []));
    s := Reach(c, disk, s, Post(0));
  }

  /** Its result staged. */
  lemma FirstServed(c: Config, disk: seq<byte>) returns (s: State)
    requires ValidConfig(c)
    ensures Reachable(c, disk, s)
    ensures s.pc == Peek && s.cq == [] && s.served != [] && s.closer.Idle? && !s.cancelled
    ensures s.sq.staged != [] && s.sq.back == 0
  {
    s := FirstToServe(c, disk);
    Bits.MulAtLeast(c.depth, c.bufSize);
    var out := SomeOutcomeIsAllowed(c.caps, c.bufSize, s.descs[0], Buffer(c, s, 0), s.disk);
    Tokens.HandleMovesNothing(c, s, out);
    s := Reach(c, disk, s, Label.HandleIO(out));
    StageWithRoom(s.sq, c.sqEntries, CommitSqe(c, s.pc.tag, s.pc.result));
    s := Reach(c, disk, s, PrepareCommit);
  }

  /** At every depth, one included, a short enter can lose a result that was flushed before Close. */
  lemma ShortEnterLosesAResult(c: Config, disk: seq<byte>) returns (s: State)
    requires ValidConfig(c) && |disk| == c.limits.size
    ensures Reachable(c, disk, s) && s.pc == Done(Cancelled, []) && s.sq.staged == [] && !AllReplied(s)
  {
    s := FirstServed(c, disk);
    s := Reach(c, disk, s, PeekCQE);
    s := Reach(c, disk, s, Label.Flush);
    s := Reach(c, disk, s, EnterReturn(true));
    s := Reach(c, disk, s, StoreFlag);
    s := Reach(c, disk, s, Check);
    var ls :| IsRun(c, Init(c, disk), ls) && Exec(c, Init(c, disk), ls) == s;
    NeverCatchesUp(c, disk, ls);
    AllRepliedIff(c, disk, ls);
  }

  /** Both FETCH entries of tags 0 and 1 taken, the worker about to wait. */
  lemma TwoArmed(c: Config, disk: seq<byte>) returns (s: State)
    requires ValidConfig(c) && c.depth >= 2
    ensures Reachable(c, disk, s)
    ensures s.pc == WaitCheck && !s.cancelled && s.cq == [] && s.sq.staged == [] && s.sq.back == 0
    ensures 0 in s.kern && 1 in s.kern && s.kern[0] == Armed(0) && s.kern[1].Armed?
    ensures |s.descs| == c.depth && |s.pool| == c.depth * c.bufSize
    ensures |s.sq.published| <= c.depth - 2
  {
    s := AllPublished(c, disk);
    var es := s.sq.published;
    s := Reach(c, disk, s, Label.Consume);
    assert s.sq.published == es[1..] && s.kern == map[0 := Armed(0)];
    s := Reach(c, disk, s, Label.Consume);
    assert s.sq.published == es[1..][1..];
    s := Reach(c, disk, s, EnterReturn(true));
  }

  /** A request on tag 0 dispatched and its completion taken; tag 1 aborted behind it. */
  lemma OneToServe(c: Config, disk: seq<byte>) returns (s: State)
    requires ValidConfig(c) && c.depth >= 2
    ensures Reachable(c, disk, s)
    ensures s.pc == Serve(0) && s.cq == [Ring.Cqe(1, -19)]
    ensures s.sq.staged == [] && s.sq.back == 0 && |s.sq.published| <= c.depth - 2
    ensures |s.descs| == c.depth && |s.pool| == c.depth * c.bufSize
  {
    s := OneUnread(c, disk);
    s := Reach(c, disk, s, Check);
    s := Reach(c, disk, s, Load);
    s := Reach(c, disk, s, Take);
    assert s.cq == [Ring.Cqe(1, -19)];
  }

  lemma OneUnread(c: Config, disk: seq<byte>) returns (s: State)
    requires ValidConfig(c) && c.depth >= 2
    ensures Reachable(c, disk, s)
    ensures s.pc == WaitCheck && !s.cancelled && s.cq == [Ring.Cqe(0, 0), Ring.Cqe(1, -19)]
    ensures s.sq.staged == [] && s.sq.back == 0 && |s.sq.published| <= c.depth - 2
    ensures |s.descs| == c.depth && |s.pool| == c.depth * c.bufSize
  {
    s := TwoArmed(c, disk);
    s := Reach(c, disk, s, Dispatch(0, IoDesc(0, 0, 0), []));
    s := Reach(c, disk, s, Post(0));
    s := Reach(c, disk, s, Abort(1, -19));
    assert s.cq == [Ring.Cqe(0, 0), Ring.Cqe(1, -19)];
  }

  /** The result of tag 0 staged, with the aborted completion still unread. */
  lemma ServedThenAborted(c: Config, disk: seq<byte>) returns (s: State)
    requires ValidConfig(c) && c.depth >= 2
    ensures Reachable(c, disk, s)
    ensures s.pc == Peek && s.cq == [Ring.Cqe(1, -19)] && s.sq.staged != []
  {
    s := OneToServe(c, disk);
    Bits.MulAtLeast(c.depth, c.bufSize);
    var out := SomeOutcomeIsAllowed(c.caps, c.bufSize, s.descs[0], Buffer(c, s, 0), s.disk);
    Tokens.HandleMovesNothing(c, s, out);
    s := Reach(c, disk, s, Label.HandleIO(out));
    StageWithRoom(s.sq, c.sqEntries, CommitSqe(c, s.pc.tag, s.pc.result));
    s := Reach(c, disk, s, PrepareCommit);
  }

  /**
   Stopping at a failed completion in mid-batch leaves a served request's
   commit unflushed. Some run does so exactly when the depth is at least two.
   */
  lemma AbortedBatchLosesResultsIff(c: Config, disk: seq<byte>)
    requires ValidConfig(c)
    ensures (exists s :: Reachable(c, disk, s) && s.pc.Done? && s.sq.staged != []) <==> c.depth >= 2
  {
    if c.depth >= 2 {
      var s := ServedThenAborted(c, disk);
      s := Reach(c, disk, s, PeekCQE);
      s := Reach(c, disk, s, Take);
      assert s.pc.Done? && s.sq.staged != [];
    } else {
      forall s | Reachable(c, disk, s) && s.pc.Done?
        ensures s.sq.staged == []
      {
        OneTagIsNeverLost(c, disk, s);
      }
    }
  }

  lemma OneTagIsNeverLost(c: Config, disk: seq<byte>, s: State)
    requires ValidConfig(c) && c.depth == 1 && Reachable(c, disk, s) && s.pc.Done?
    ensures s.sq.staged == []
  {
    Tokens.TokensAreConserved(c, disk, s);
    Tokens.Count(c, s);
    AbortHoldsATag(c, disk, s);
    Shutdown.EverythingFlushedIff(c, disk, s);
  }

  /** A worker that stopped at a failed completion still holds its tag. */
  lemma AbortHoldsATag(c: Config, disk: seq<byte>, s: State)
    requires c.sqEntries > 0 && Reachable(c, disk, s)
    ensures s.pc.Done? && s.pc.reason.Aborted? ==> |s.pc.hand| == 1
  {
    var ls :| IsRun(c, Init(c, disk), ls) && Exec(c, Init(c, disk), ls) == s;
    RunHoldsATag(c, Init(c, disk), ls);
  }

  predicate HoldsATag(pc: Pc) {
    pc.Done? && pc.reason.Aborted? ==> |pc.hand| == 1
  }

  lemma {:induction false} RunHoldsATag(c: Config, s: State, ls: seq<Label>)
    requires IsRun(c, s, ls) && HoldsATag(s.pc)
    ensures HoldsATag(Exec(c, s, ls).pc)
    decreases |ls|
  {
    if ls != [] {
      StepHoldsATag(c, s, ls[0]);
      RunHoldsATag(c, Step(c, s, ls[0]), ls[1..]);
    }
  }

  lemma StepHoldsATag(c: Config, s: State, l: Label)
    requires Enabled(c, s, l) && HoldsATag(s.pc)
    ensures HoldsATag(Step(c, s, l).pc)
  {
    match l
    case HandleIO(out) => Tokens.HandleMovesNothing(c, s, out);
    case Take =>
    case _ =>
  }
}
