/** How `run` ends: which answer of the environment each exit goes back to, over every run. */
module Exits {
  import opened SubmissionQueue
  import opened Disk
  import opened Requests
  import opened Protocol
  import Tokens
  import Shutdown
  import Turns

  /** Somewhere in the run a completion with a negative result is taken. */
  predicate TakesFailure(c: Config, s: State, ls: seq<Label>)
    requires IsRun(c, s, ls)
    decreases |ls|
  {
    ls != [] &&
    ((ls[0].Take? && s.cq[0].res < 0) || TakesFailure(c, Step(c, s, ls[0]), ls[1..]))
  }

  predicate NoWorkerSteps(ls: seq<Label>) {
    forall i :: 0 <= i < |ls| ==> !IsWorker(ls[i])
  }

  lemma {:induction false} ReturnedIsFinal(c: Config, s: State, ls: seq<Label>)
    requires s.pc.Done? && IsRun(c, s, ls)
    ensures Exec(c, s, ls).pc == s.pc && NoWorkerSteps(ls) && !TakesFailure(c, s, ls)
    decreases |ls|
  {
    if ls != [] {
      StaysReturned(c, s, ls[0]);
      ReturnedIsFinal(c, Step(c, s, ls[0]), ls[1..]);
      forall i | 0 <= i < |ls|
        ensures !IsWorker(ls[i])
      {
        if i > 0 { assert ls[i] == ls[1..][i - 1]; }
      }
    }
  }

  lemma StaysReturned(c: Config, s: State, l: Label)
    requires s.pc.Done? && Enabled(c, s, l)
    ensures Step(c, s, l).pc == s.pc && !IsWorker(l)
  {
    match l
    case Dispatch(_, _, _) =>
    case Post(_) =>
    case Abort(_, _) =>
    case _ =>
  }

  /** The steps that end `run`, and what they end it with. */
  lemma StepExits(c: Config, s: State, l: Label)
    requires !s.pc.Done? && Enabled(c, s, l)
    ensures var pc := Step(c, s, l).pc;
            && (l == Epoll(EpollFailed) <==> pc.Done? && pc.reason == EpollError)
            && (l == EnterReturn(false) <==> pc.Done? && (pc.reason == SubmitError || pc.reason == FetchError))
            && (l.Take? && s.cq[0].res < 0 <==> pc.Done? && pc.reason.Aborted?)
            && (pc.Done? && pc.reason == Cancelled ==> s.cancelled || s.signalled)
  {
    if IsWorker(l) {
      match l
      case HandleIO(out) => Tokens.HandleMovesNothing(c, s, out);
      case Epoll(w) =>
      case EnterReturn(ok) =>
      case _ =>
    } else {
      OthersExitNothing(c, s, l);
    }
  }

  lemma OthersExitNothing(c: Config, s: State, l: Label)
    requires Enabled(c, s, l) && !IsWorker(l)
    ensures Turns.SamePlace(s.pc, Step(c, s, l).pc)
  {
    Turns.OtherKeepsPlace(c, s, l);
  }

  /** What a run that starts before `run` has returned ends with. */
  ghost predicate ExitsBy(c: Config, s: State, ls: seq<Label>)
    requires IsRun(c, s, ls)
  {
    var pc := Exec(c, s, ls).pc;
    && (Epoll(EpollFailed) in ls <==> pc.Done? && pc.reason == EpollError)
    && (EnterReturn(false) in ls <==> pc.Done? && (pc.reason == SubmitError || pc.reason == FetchError))
    && (TakesFailure(c, s, ls) <==> pc.Done? && pc.reason.Aborted?)
  }

  lemma {:induction false} RunExits(c: Config, s: State, ls: seq<Label>)
    requires !s.pc.Done? && IsRun(c, s, ls)
    ensures ExitsBy(c, s, ls)
    decreases |ls|
  {
    if ls != [] {
      var l, rest, s' := ls[0], ls[1..], Step(c, s, ls[0]);
      assert ls == [l] + rest;
      StepExits(c, s, l);
      if s'.pc.Done? {
        ReturnedIsFinal(c, s', rest);
        NotAmong(rest, Epoll(EpollFailed));
        NotAmong(rest, EnterReturn(false));
      } else {
        RunExits(c, s', rest);
      }
    }
  }

  lemma NotAmong(ls: seq<Label>, l: Label)
    requires NoWorkerSteps(ls) && IsWorker(l)
    ensures l !in ls
  {
  }

  // ---------------------------------------------------------------------
  // The first enter

  /** The FETCH entries have not been submitted. */
  predicate Fetching(pc: Pc) { pc.SubmitFetch? || (pc.Enter? && pc.fetch) }

  lemma StepFetching(c: Config, s: State, l: Label)
    requires !s.pc.Done? && Enabled(c, s, l)
    ensures var pc := Step(c, s, l).pc;
            && (Fetching(s.pc) ==> if l.EnterReturn? then !Fetching(pc) else Fetching(pc))
            && (!Fetching(s.pc) ==> !Fetching(pc))
            && (pc.Done? && pc.reason == FetchError <==> l == EnterReturn(false) && Fetching(s.pc))
  {
    if IsWorker(l) {
      match l
      case HandleIO(out) => Tokens.HandleMovesNothing(c, s, out);
      case Epoll(w) =>
      case EnterReturn(ok) =>
      case _ =>
    } else {
      OthersExitNothing(c, s, l);
    }
  }

  lemma {:induction false} RunFetching(c: Config, s: State, ls: seq<Label>)
    requires !s.pc.Done? && IsRun(c, s, ls)
    ensures var pc := Exec(c, s, ls).pc;
            pc.Done? && pc.reason == FetchError <==>
              Fetching(s.pc) && EnterReturn(false) in ls && EnterReturn(true) !in ls
    decreases |ls|
  {
    if ls != [] {
      var l, rest, s' := ls[0], ls[1..], Step(c, s, ls[0]);
      assert ls == [l] + rest;
      StepFetching(c, s, l);
      if s'.pc.Done? {
        ReturnedIsFinal(c, s', rest);
        NotAmong(rest, EnterReturn(false));
        NotAmong(rest, EnterReturn(true));
      } else {
        RunFetching(c, s', rest);
        StepExits(c, s, l);
      }
    }
  }

  // ---------------------------------------------------------------------
  // Cancel

  lemma {:induction false} FlagComesFromClose(c: Config, s: State, ls: seq<Label>)
    requires IsRun(c, s, ls) && StoreFlag !in ls
    ensures Exec(c, s, ls).cancelled == s.cancelled
    decreases |ls|
  {
    if ls != [] {
      assert ls[0] in ls && forall l :: l in ls[1..] ==> l in ls;
      KeepsFlag(c, s, ls[0]);
      FlagComesFromClose(c, Step(c, s, ls[0]), ls[1..]);
    }
  }

  lemma KeepsFlag(c: Config, s: State, l: Label)
    requires Enabled(c, s, l) && l != StoreFlag
    ensures Step(c, s, l).cancelled == s.cancelled
  {
    match l
    case HandleIO(out) => Tokens.HandleMovesNothing(c, s, out);
    case PrepareCommit =>
    case Post(_) =>
    case Abort(_, _) =>
    case _ =>
  }

  /**
   The exits of `run`, over every run from the start. It has returned with an
   epoll error exactly if an epoll_wait failed (an interrupted one does not
   count), with a submit error exactly if an enter failed, the first one for
   FETCH, with an abort exactly if a failed completion was taken, and as
   cancelled only after Cancel and if none of these happened. A run in which
   none of this happens, and Cancel is not called, goes on.
   */
  lemma RunEndsIff(c: Config, disk: seq<byte>, ls: seq<Label>)
    requires c.sqEntries > 0 && IsRun(c, Init(c, disk), ls)
    ensures var pc := Exec(c, Init(c, disk), ls).pc;
            && (pc.Done? && pc.reason == EpollError <==> Epoll(EpollFailed) in ls)
            && (pc.Done? && pc.reason == FetchError <==> EnterReturn(false) in ls && EnterReturn(true) !in ls)
            && (pc.Done? && pc.reason == SubmitError <==> EnterReturn(false) in ls && EnterReturn(true) in ls)
            && (pc.Done? && pc.reason.Aborted? <==> TakesFailure(c, Init(c, disk), ls))
            && (pc.Done? && pc.reason == Cancelled <==>
                  && pc.Done? && Epoll(EpollFailed) !in ls && EnterReturn(false) !in ls
                  && !TakesFailure(c, Init(c, disk), ls))
            && (pc.Done? && StoreFlag !in ls ==>
                  Epoll(EpollFailed) in ls || EnterReturn(false) in ls || TakesFailure(c, Init(c, disk), ls))
  {
    RunExits(c, Init(c, disk), ls);
    RunFetching(c, Init(c, disk), ls);
    Shutdown.RunKeepsFlags(c, Init(c, disk), ls);
    if StoreFlag !in ls { FlagComesFromClose(c, Init(c, disk), ls); }
  }

  // ---------------------------------------------------------------------
  // In terms of what the environment does

  predicate NoneFailed(s: State) {
    forall i :: 0 <= i < |s.cq| ==> s.cq[i].res >= 0
  }

  lemma StepNoneFailed(c: Config, s: State, l: Label)
    requires NoneFailed(s) && Enabled(c, s, l) && !l.Abort?
    ensures NoneFailed(Step(c, s, l))
  {
    match l
    case HandleIO(out) => Tokens.HandleMovesNothing(c, s, out);
    case Post(_) =>
    case Take =>
    case Consume =>
    case Flush =>
    case _ =>
  }

  /** Failed completions come from aborted tags only. */
  lemma {:induction false} FailureComesFromAbort(c: Config, s: State, ls: seq<Label>)
    requires NoneFailed(s) && IsRun(c, s, ls) && forall i :: 0 <= i < |ls| ==> !ls[i].Abort?
    ensures !TakesFailure(c, s, ls)
    decreases |ls|
  {
    if ls != [] {
      StepNoneFailed(c, s, ls[0]);
      assert forall i :: 0 <= i < |ls[1..]| ==> ls[1..][i] == ls[i + 1];
      FailureComesFromAbort(c, Step(c, s, ls[0]), ls[1..]);
    }
  }

  /** Nothing in the turn ends `run`: no failed call, no aborted tag, no Cancel. */
  predicate Harmless(t: Turns.Turn) {
    && t.enterOk && t.wake != EpollFailed
    && forall i :: 0 <= i < |t.before| ==> !t.before[i].Abort? && !t.before[i].StoreFlag?
  }

  predicate EndsNothing(l: Label) {
    l != EnterReturn(false) && l != Epoll(EpollFailed) && !l.Abort? && !l.StoreFlag?
  }

  /**
   The worker goes on for as long as nothing ends it: over any turns without a
   failed enter, a failed epoll_wait, an aborted tag or Cancel, interrupted
   waits included, it does not return.
   */
  lemma HarmlessTurnsGoOn(c: Config, disk: seq<byte>, ts: seq<Turns.Turn>)
    requires ValidConfig(c) && forall i :: 0 <= i < |ts| ==> Harmless(ts[i])
    ensures !Turns.PlayAll(c, Init(c, disk), ts).pc.Done?
  {
    var s := Init(c, disk);
    Tokens.InitHolds(c, disk);
    var ls := Turns.PlayedIsARun(c, s, ts);
    forall i | 0 <= i < |ls|
      ensures EndsNothing(ls[i])
    {
      var t := Turns.FromATurn(ts, ls[i]);
    }
    RunEndsIff(c, disk, ls);
    FailureComesFromAbort(c, s, ls);
    assert EndsNothing(EnterReturn(false)) == false && EndsNothing(Epoll(EpollFailed)) == false;
    assert EndsNothing(StoreFlag) == false;
  }
}
