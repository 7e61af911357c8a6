/** Cancellation: the handshake, the bound on what runs after it, and what it leaves behind. */
module Shutdown {
  import opened SubmissionQueue
  import opened Disk
  import opened Requests
  import opened Protocol
  import Tokens

  // ---------------------------------------------------------------------
  // Bounds: the drain loop and the work left after Cancel

  /** Tags whose completion is unread or still to come: nothing is published while draining. */
  function Outstanding(s: State): nat { |s.kern| + |s.cq| }

  predicate InDrainLoop(pc: Pc) {
    pc.Got? || pc.Serve? || pc.Commit? || pc.Peek?
  }

  /** handleIO calls that can still start before the next Submit. */
  function DrainBudget(s: State): nat {
    match s.pc
    case Got(_) => Outstanding(s)
    case Serve(_) => Outstanding(s) + 1
    case Commit(_, _) => Outstanding(s)
    case Peek => Outstanding(s)
    case _ => 0
  }

  /** handleIO calls that can still start once the flag is stored. */
  function ServeBudget(s: State): nat {
    if s.pc.WaitLoad? then Outstanding(s) else DrainBudget(s)
  }

  /** Loop Submits that can still start once the flag is stored. */
  function SubmitBudget(s: State): nat {
    if s.pc.WaitLoad? || InDrainLoop(s.pc) || s.pc.SubmitLoop? then 1 else 0
  }

  /** Worker steps left once the flag is stored. */
  function Rank(s: State): nat {
    match s.pc
    case Done(_, _) => 0
    case WaitCheck => 1
    case EpollWait => 2
    case Enter(_, _) => 2
    case SubmitFetch => 3
    case SubmitLoop => 3
    case Got(_) => 5 * Outstanding(s) + 3
    case WaitLoad => 5 * Outstanding(s) + 4
    case Peek => 5 * Outstanding(s) + 4
    case Commit(_, _) => 5 * Outstanding(s) + 5
    case Serve(_) => 5 * Outstanding(s) + 6
  }

  function One(b: bool): nat { if b then 1 else 0 }

  function Serves(ls: seq<Label>): nat {
    if ls == [] then 0 else One(ls[0].HandleIO?) + Serves(ls[1..])
  }

  function WorkerSteps(ls: seq<Label>): nat {
    if ls == [] then 0 else One(IsWorker(ls[0])) + WorkerSteps(ls[1..])
  }

  function LoopSubmits(c: Config, s: State, ls: seq<Label>): nat
    requires IsRun(c, s, ls)
    decreases |ls|
  {
    if ls == [] then 0
    else One(ls[0].Flush? && s.pc.SubmitLoop?) + LoopSubmits(c, Step(c, s, ls[0]), ls[1..])
  }

  lemma MapRemove(k: map<nat, KernelTag>, t: nat)
    requires t in k
    ensures |k - {t}| == |k| - 1
  {
    assert k.Keys == (k - {t}).Keys + {t};
    assert |k.Keys| == |(k - {t}).Keys| + 1;
  }

  /** Kernel and closer steps create no work for a draining worker. */
  lemma OthersKeepOutstanding(c: Config, s: State, l: Label)
    requires ValidConfig(c) && Tokens.Inv(c, s) && Enabled(c, s, l) && !IsWorker(l)
    ensures Step(c, s, l).pc == s.pc || (l.Consume? && s.pc.Enter? && Step(c, s, l).pc.Enter?)
    ensures !l.Consume? ==> Outstanding(Step(c, s, l)) == Outstanding(s)
  {
    Tokens.Count(c, s);
    match l
    case Post(tag) => MapRemove(s.kern, tag);
    case Abort(tag, _) => MapRemove(s.kern, tag);
    case Dispatch(tag, desc, payload) =>
      assert Step(c, s, l).kern.Keys == s.kern.Keys;
      assert |Step(c, s, l).kern| == |Step(c, s, l).kern.Keys| == |s.kern|;
    case _ =>
  }

  lemma WorkerSpendsRank(c: Config, s: State, l: Label)
    requires s.cancelled && Enabled(c, s, l) && IsWorker(l)
    ensures Rank(Step(c, s, l)) < Rank(s)
  {
    match l
    case HandleIO(out) => Tokens.HandleMovesNothing(c, s, out);
    case Take =>
    case Flush =>
    case _ =>
  }

  lemma WorkerSpendsBudget(c: Config, s: State, l: Label)
    requires s.cancelled && Enabled(c, s, l) && IsWorker(l)
    ensures ServeBudget(Step(c, s, l)) + One(l.HandleIO?) <= ServeBudget(s)
    ensures SubmitBudget(Step(c, s, l)) + One(l.Flush? && s.pc.SubmitLoop?) <= SubmitBudget(s)
  {
    match l
    case HandleIO(out) => Tokens.HandleMovesNothing(c, s, out);
    case Take =>
    case Flush =>
    case _ =>
  }

  lemma StepSpends(c: Config, s: State, l: Label)
    requires ValidConfig(c) && Tokens.Inv(c, s) && s.cancelled && Enabled(c, s, l)
    ensures Step(c, s, l).cancelled
    ensures Rank(Step(c, s, l)) + One(IsWorker(l)) <= Rank(s)
    ensures ServeBudget(Step(c, s, l)) + One(l.HandleIO?) <= ServeBudget(s)
    ensures SubmitBudget(Step(c, s, l)) + One(l.Flush? && s.pc.SubmitLoop?) <= SubmitBudget(s)
  {
    FlagIsSticky(c, s, l);
    if IsWorker(l) {
      WorkerSpendsRank(c, s, l);
      WorkerSpendsBudget(c, s, l);
    } else {
      OthersKeepOutstanding(c, s, l);
    }
  }

  lemma FlagIsSticky(c: Config, s: State, l: Label)
    requires Enabled(c, s, l)
    ensures s.cancelled ==> Step(c, s, l).cancelled
    ensures s.signalled ==> Step(c, s, l).signalled
  {
  }

  /**
   Bounded shutdown: once the cancel flag is stored, any continuation starts at
   most `depth` more handleIO calls, at most one more loop Submit, and takes a
   bounded number of worker steps, whatever the kernel and the backend do; a
   worker that has used them up has returned.
   */
  lemma {:induction false} BoundedShutdown(c: Config, s: State, ls: seq<Label>)
    requires ValidConfig(c) && Tokens.Inv(c, s) && s.cancelled && IsRun(c, s, ls)
    ensures Serves(ls) <= ServeBudget(s) <= c.depth
    ensures LoopSubmits(c, s, ls) <= SubmitBudget(s) <= 1
    ensures WorkerSteps(ls) + Rank(Exec(c, s, ls)) <= Rank(s) <= 5 * c.depth + 6
    decreases |ls|
  {
    Tokens.Count(c, s);
    if ls != [] {
      StepSpends(c, s, ls[0]);
      Tokens.StepKeeps(c, s, ls[0]);
      BoundedShutdown(c, Step(c, s, ls[0]), ls[1..]);
    }
  }

  /** A worker step that needs no luck: neither an interrupted nor a failed epoll_wait. */
  predicate Prompt(l: Label) {
    IsWorker(l) && l != Epoll(Interrupted) && l != Epoll(EpollFailed)
  }

  /** Blocked in epoll_wait with nothing to report. */
  predicate Blocked(s: State) {
    s.pc.EpollWait? && !s.signalled && s.cq == []
  }

  /**
   The worker can move, no index out of range, exactly when it has neither
   returned nor blocked in epoll_wait. LostResults.StrandedIff says when such a
   wait can end.
   */
  lemma WorkerCanMoveIff(c: Config, s: State)
    requires ValidConfig(c) && Tokens.Inv(c, s)
    ensures (exists l :: Prompt(l) && Enabled(c, s, l)) <==> !s.pc.Done? && !Blocked(s)
  {
    if !s.pc.Done? && !Blocked(s) {
      var l := NextStep(c, s);
    } else {
      forall l
        ensures !(Prompt(l) && Enabled(c, s, l))
      {
        NoStep(c, s, l);
      }
    }
  }

  lemma NoStep(c: Config, s: State, l: Label)
    requires s.pc.Done? || Blocked(s)
    ensures !(Prompt(l) && Enabled(c, s, l))
  {
    match l
    case Epoll(w) =>
    case _ =>
  }

  lemma NextStep(c: Config, s: State) returns (l: Label)
    requires ValidConfig(c) && Tokens.Inv(c, s) && !s.pc.Done? && !Blocked(s)
    ensures Prompt(l) && Enabled(c, s, l)
  {
    match s.pc
    case SubmitFetch => l := Flush;
    case SubmitLoop => l := Flush;
    case Enter(_, _) => l := EnterReturn(true);
    case WaitCheck => l := Check;
    case WaitLoad => l := Load;
    case EpollWait => l := Epoll(if s.signalled then CancelReady else RingReady);
    case Got(_) => l := Take;
    case Commit(_, _) => l := PrepareCommit;
    case Peek => l := PeekCQE;
    case Serve(tag) =>
      assert tag in multiset(Tokens.Hand(s.pc)) by { assert Tokens.Hand(s.pc) == [tag]; }
      Tokens.InRange(c, s, tag);
      Tokens.TagHasBuffer(c, s, tag);
      var out := SomeOutcomeIsAllowed(c.caps, c.bufSize, s.descs[tag], Buffer(c, s, tag), s.disk);
      l := HandleIO(out);
  }

  /**
   Close returns: from any reachable state in which shutdown waits, and after
   any continuation, the worker has a step to take until it has returned, it
   has at most 5 * depth + 6 of them, and then the wait is over.
   */
  lemma CloseReturns(c: Config, disk: seq<byte>, s: State, ls: seq<Label>)
    requires ValidConfig(c) && Reachable(c, disk, s) && s.closer.Waiting? && IsRun(c, s, ls)
    ensures WorkerSteps(ls) <= 5 * c.depth + 6
    ensures var s' := Exec(c, s, ls);
            if s'.pc.Done? then s'.closer.Waiting? ==> Enabled(c, s', Release)
            else (exists l :: Prompt(l) && Enabled(c, s', l)) && WorkerSteps(ls) < 5 * c.depth + 6
  {
    Tokens.TokensAreConserved(c, disk, s);
    ReachableFlags(c, disk, s);
    BoundedShutdown(c, s, ls);
    Tokens.RunKeeps(c, s, ls);
    RunKeepsFlags(c, s, ls);
    RunStaysSignalled(c, s, ls);
    var s' := Exec(c, s, ls);
    if !s'.pc.Done? {
      WorkerCanMoveIff(c, s');
    }
  }

  lemma {:induction false} RunStaysSignalled(c: Config, s: State, ls: seq<Label>)
    requires IsRun(c, s, ls) && s.signalled
    ensures Exec(c, s, ls).signalled
    decreases |ls|
  {
    if ls != [] {
      FlagIsSticky(c, s, ls[0]);
      RunStaysSignalled(c, Step(c, s, ls[0]), ls[1..]);
    }
  }

  /** Every state the run passes through, the last one aside, is in the drain loop. */
  predicate StaysInDrainLoop(c: Config, s: State, ls: seq<Label>)
    requires IsRun(c, s, ls)
    decreases |ls|
  {
    ls == [] || (InDrainLoop(s.pc) && StaysInDrainLoop(c, Step(c, s, ls[0]), ls[1..]))
  }

  /**
   The drain loop, which never looks at the flag, serves at most `depth`
   completions per batch, cancelled or not.
   */
  lemma {:induction false} DrainLoopIsBounded(c: Config, s: State, ls: seq<Label>)
    requires ValidConfig(c) && Tokens.Inv(c, s) && IsRun(c, s, ls) && StaysInDrainLoop(c, s, ls)
    ensures Serves(ls) <= DrainBudget(s) <= c.depth
    decreases |ls|
  {
    Tokens.Count(c, s);
    if ls != [] {
      DrainStep(c, s, ls[0]);
      Tokens.StepKeeps(c, s, ls[0]);
      DrainLoopIsBounded(c, Step(c, s, ls[0]), ls[1..]);
    }
  }

  lemma DrainStep(c: Config, s: State, l: Label)
    requires ValidConfig(c) && Tokens.Inv(c, s) && Enabled(c, s, l) && InDrainLoop(s.pc)
    ensures DrainBudget(Step(c, s, l)) + One(l.HandleIO?) <= DrainBudget(s)
  {
    if !IsWorker(l) {
      OthersKeepOutstanding(c, s, l);
    }
  }

  // ---------------------------------------------------------------------
  // The handshake

  /** What the flag, the eventfd and the closing thread say about each other. */
  predicate Flags(s: State) {
    && (s.cancelled <==> !s.closer.Idle?)
    && (s.signalled <==> s.closer.Waiting? || s.closer.Released?)
    && (s.closer.Released? ==> s.pc.Done?)
    && (s.pc.Done? && s.pc.reason == Cancelled ==> s.cancelled)
  }

  lemma StepKeepsFlags(c: Config, s: State, l: Label)
    requires Flags(s) && Enabled(c, s, l)
    ensures Flags(Step(c, s, l))
  {
    match l
    case HandleIO(out) => Tokens.HandleMovesNothing(c, s, out);
    case Take =>
    case Flush =>
    case Consume =>
    case _ =>
  }

  lemma {:induction false} RunKeepsFlags(c: Config, s: State, ls: seq<Label>)
    requires Flags(s) && IsRun(c, s, ls)
    ensures Flags(Exec(c, s, ls))
    decreases |ls|
  {
    if ls != [] {
      StepKeepsFlags(c, s, ls[0]);
      RunKeepsFlags(c, Step(c, s, ls[0]), ls[1..]);
    }
  }

  lemma ReachableFlags(c: Config, disk: seq<byte>, s: State)
    requires c.sqEntries > 0 && Reachable(c, disk, s)
    ensures Flags(s)
  {
    var ls :| IsRun(c, Init(c, disk), ls) && Exec(c, Init(c, disk), ls) == s;
    RunKeepsFlags(c, Init(c, disk), ls);
  }

  /** Past the flag store, outside the drain loop and before the head is loaded. */
  predicate Sunk(s: State) {
    s.cancelled && !s.pc.WaitLoad? && !InDrainLoop(s.pc)
  }

  predicate TakesNothing(ls: seq<Label>) {
    forall i :: 0 <= i < |ls| ==> !ls[i].Take? && !ls[i].HandleIO?
  }

  /** A WaitCQE that starts after the flag is stored never hands out a completion. */
  lemma {:induction false} NoCompletionAfterCancel(c: Config, s: State, ls: seq<Label>)
    requires Sunk(s) && IsRun(c, s, ls)
    ensures TakesNothing(ls) && Sunk(Exec(c, s, ls))
    decreases |ls|
  {
    if ls != [] {
      var s' := Step(c, s, ls[0]);
      SunkStep(c, s, ls[0]);
      NoCompletionAfterCancel(c, s', ls[1..]);
      forall i | 0 <= i < |ls|
        ensures !ls[i].Take? && !ls[i].HandleIO?
      {
        if i > 0 { assert ls[i] == ls[1..][i - 1]; }
      }
    }
  }

  lemma SunkStep(c: Config, s: State, l: Label)
    requires Sunk(s) && Enabled(c, s, l)
    ensures Sunk(Step(c, s, l)) && !l.Take? && !l.HandleIO?
  {
    match l
    case Flush =>
    case Consume =>
    case _ =>
  }

  /** A waiter in epoll_wait cannot miss the wake-up: nothing ever drains the eventfd. */
  lemma WakeUpIsNotMissed(c: Config, disk: seq<byte>, s: State, ls: seq<Label>)
    requires c.sqEntries > 0 && Reachable(c, disk, s) && s.closer.Waiting? && IsRun(c, s, ls)
    ensures var s' := Exec(c, s, ls);
            s'.pc.EpollWait? ==>
              Enabled(c, s', Epoll(CancelReady)) && Step(c, s', Epoll(CancelReady)).pc == Done(Cancelled, [])
  {
    ReachableFlags(c, disk, s);
    RunStaysSignalled(c, s, ls);
  }

  /** ErrCancelled is reported only if Cancel was called. */
  lemma CancelledOnlyIfCancelled(c: Config, disk: seq<byte>, s: State)
    requires c.sqEntries > 0 && Reachable(c, disk, s)
    ensures s.pc.Done? && s.pc.reason == Cancelled ==> s.cancelled && !s.closer.Idle?
  {
    ReachableFlags(c, disk, s);
  }

  /** No use after release: once the ring and the descriptors are gone, no worker step is possible. */
  lemma NoUseAfterRelease(c: Config, disk: seq<byte>, s: State, l: Label)
    requires c.sqEntries > 0 && Reachable(c, disk, s) && Enabled(c, s, l)
    requires IsWorker(l) || l.Consume?
    ensures !s.closer.Released?
  {
    ReachableFlags(c, disk, s);
  }

  // ---------------------------------------------------------------------
  // What has been flushed when the worker returns

  /** Where results can be staged and not flushed. */
  ghost predicate FlushInv(s: State) {
    match s.pc
    case Enter(_, _) => s.sq.staged == []
    case WaitCheck => s.sq.staged == []
    case WaitLoad => s.sq.staged == []
    case EpollWait => s.sq.staged == []
    case Got(first) => first <==> s.sq.staged == []
    case Peek => s.sq.staged != []
    case SubmitLoop => s.sq.staged != []
    case Done(reason, _) => reason == Aborted(false) <==> s.sq.staged != []
    case _ => true
  }

  lemma StepKeepsFlushInv(c: Config, s: State, l: Label)
    requires ValidConfig(c) && Tokens.Inv(c, s) && FlushInv(s) && Enabled(c, s, l)
    ensures FlushInv(Step(c, s, l))
  {
    if l.PrepareCommit? {
      CommitKeepsFlushInv(c, s);
    } else if IsWorker(l) {
      WorkerKeepsFlushInv(c, s, l);
    } else {
      OthersKeepFlushInv(c, s, l);
    }
  }

  lemma CommitKeepsFlushInv(c: Config, s: State)
    requires ValidConfig(c) && Tokens.Inv(c, s) && s.pc.Commit?
    ensures FlushInv(StepPrepareCommit(c, s))
  {
    Tokens.Count(c, s);
    StageWithRoom(s.sq, c.sqEntries, CommitSqe(c, s.pc.tag, s.pc.result));
  }

  lemma WorkerKeepsFlushInv(c: Config, s: State, l: Label)
    requires s.sq.back == 0 && FlushInv(s) && Enabled(c, s, l) && IsWorker(l) && !l.PrepareCommit?
    ensures FlushInv(Step(c, s, l))
  {
    match l
    case HandleIO(out) => Tokens.HandleMovesNothing(c, s, out);
    case Flush =>
    case Take =>
    case _ =>
  }

  lemma OthersKeepFlushInv(c: Config, s: State, l: Label)
    requires FlushInv(s) && Enabled(c, s, l) && !IsWorker(l)
    ensures FlushInv(Step(c, s, l))
  {
    match l
    case Consume =>
    case Dispatch(_, _, _) =>
    case Post(_) =>
    case Abort(_, _) =>
    case _ =>
  }

  lemma {:induction false} RunKeepsFlushInv(c: Config, s: State, ls: seq<Label>)
    requires ValidConfig(c) && Tokens.Inv(c, s) && FlushInv(s) && IsRun(c, s, ls)
    ensures FlushInv(Exec(c, s, ls))
    decreases |ls|
  {
    if ls != [] {
      StepKeepsFlushInv(c, s, ls[0]);
      Tokens.StepKeeps(c, s, ls[0]);
      RunKeepsFlushInv(c, Step(c, s, ls[0]), ls[1..]);
    }
  }

  /**
   When `run` returns, every result it produced has been flushed, except
   exactly when it stopped at a failed completion that was not the first of its
   batch. In particular a cancelled worker leaves nothing unflushed.
   */
  lemma EverythingFlushedIff(c: Config, disk: seq<byte>, s: State)
    requires ValidConfig(c) && Reachable(c, disk, s) && s.pc.Done?
    ensures s.sq.staged == [] <==> s.pc.reason != Aborted(false)
  {
    var ls :| IsRun(c, Init(c, disk), ls) && Exec(c, Init(c, disk), ls) == s;
    Tokens.InitHolds(c, disk);
    RunKeepsFlushInv(c, Init(c, disk), ls);
  }
}
