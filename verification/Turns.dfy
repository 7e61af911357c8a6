/**
 Runs as they are played: turn by turn, the other threads do what they can, and
 then the worker takes its next step with the answer the turn holds for it.
 */
module Turns {
  import opened Disk
  import opened Requests
  import opened Protocol
  import Tokens
  import Shutdown

  /** What happens around one worker step: other threads' steps first, then the answer to its own. */
  datatype Turn = Turn(before: seq<Label>, enterOk: bool, wake: Wake, out: Outcome)

  /** One step of another thread, if it can be taken. */
  function Other(c: Config, s: State, l: Label): State {
    if IsWorker(l) || !Enabled(c, s, l) then s else Step(c, s, l)
  }

  function Others(c: Config, s: State, ls: seq<Label>): State
    decreases |ls|
  {
    if ls == [] then s else Others(c, Other(c, s, ls[0]), ls[1..])
  }

  /** An answer within the backend's contract: the given one, or a failure. */
  function Admit(caps: Caps, bufSize: nat, d: IoDesc, buf: seq<byte>, disk: seq<byte>, out: Outcome): (o: Outcome)
    requires |buf| == bufSize
    ensures Allowed(caps, bufSize, d, buf, disk, o)
    ensures Allowed(caps, bufSize, d, buf, disk, out) ==> o == out
  {
    var plan := PlanOf(caps, bufSize, d);
    if Allowed(caps, bufSize, d, buf, disk, out) then out
    else Outcome(0, true, Zeros(plan.call.len), disk)
  }

  /** The worker's next step, with the answer of the turn. */
  function Next(c: Config, s: State, t: Turn): Label
    requires !s.pc.Done?
  {
    match s.pc
    case SubmitFetch => Flush
    case SubmitLoop => Flush
    case Enter(_, _) => EnterReturn(t.enterOk)
    case WaitCheck => Check
    case WaitLoad => Load
    case EpollWait => Epoll(t.wake)
    case Got(_) => Take
    case Serve(tag) =>
      if HasBuffer(c, s, tag)
      then HandleIO(Admit(c.caps, c.bufSize, s.descs[tag], Buffer(c, s, tag), s.disk, t.out))
      else HandleIO(t.out)
    case Commit(_, _) => PrepareCommit
    case Peek => PeekCQE
  }

  /** The worker takes no step: it has returned, or its epoll_wait has nothing to report. */
  predicate Sleeps(c: Config, s: State, t: Turn) {
    s.pc.Done? || (s.pc.EpollWait? && !Enabled(c, s, Epoll(t.wake)))
  }

  function Own(c: Config, s: State, t: Turn): State {
    if s.pc.Done? || !Enabled(c, s, Next(c, s, t)) then s else Step(c, s, Next(c, s, t))
  }

  function Play(c: Config, s: State, t: Turn): State {
    Own(c, Others(c, s, t.before), t)
  }

  function PlayAll(c: Config, s: State, ts: seq<Turn>): State
    decreases |ts|
  {
    if ts == [] then s else Play(c, PlayAll(c, s, ts[..|ts| - 1]), ts[|ts| - 1])
  }

  lemma PlayNext(c: Config, s: State, ts: seq<Turn>, i: nat)
    requires i < |ts|
    ensures PlayAll(c, s, ts[..i + 1]) == Play(c, PlayAll(c, s, ts[..i]), ts[i])
  {
    assert ts[..i + 1][..i] == ts[..i];
  }

  /** Where the other threads leave the worker: where it was, but for entries taken inside an enter. */
  predicate SamePlace(pc: Pc, pc': Pc) {
    pc' == pc || (pc.Enter? && pc'.Enter? && pc'.fetch == pc.fetch)
  }

  lemma OtherKeepsPlace(c: Config, s: State, l: Label)
    ensures SamePlace(s.pc, Other(c, s, l).pc)
  {
    if !IsWorker(l) && Enabled(c, s, l) {
      match l
      case Consume =>
      case Dispatch(_, _, _) =>
      case Post(_) =>
      case Abort(_, _) =>
      case _ =>
    }
  }

  // ---------------------------------------------------------------------
  // What is played is a run

  /** Turns in which the worker takes no step. */
  function Slept(c: Config, s: State, ts: seq<Turn>): nat
    decreases |ts|
  {
    if ts == [] then 0
    else
      var n := |ts| - 1;
      Slept(c, s, ts[..n])
      + if Sleeps(c, Others(c, PlayAll(c, s, ts[..n]), ts[n].before), ts[n]) then 1 else 0
  }

  lemma {:induction false} WorkerStepsPush(ls: seq<Label>, l: Label)
    ensures Shutdown.WorkerSteps(ls + [l]) == Shutdown.WorkerSteps(ls) + Shutdown.One(IsWorker(l))
  {
    if ls != [] {
      assert (ls + [l])[1..] == ls[1..] + [l];
      WorkerStepsPush(ls[1..], l);
    }
  }

  /** The step is one that the turn holds: another thread's, or the worker's with the turn's answer. */
  predicate HeldBy(t: Turn, l: Label) {
    match l
    case EnterReturn(ok) => ok == t.enterOk
    case Epoll(w) => w == t.wake
    case HandleIO(out) => out == t.out || (out.err && out.n == 0)
    case _ => IsWorker(l) || l in t.before
  }

  predicate HeldByOne(ts: seq<Turn>, l: Label) {
    exists i :: 0 <= i < |ts| && HeldBy(ts[i], l)
  }

  predicate AllHeld(ts: seq<Turn>, ls: seq<Label>) {
    forall j :: 0 <= j < |ls| ==> HeldByOne(ts, ls[j])
  }

  lemma FromATurn(ts: seq<Turn>, l: Label) returns (t: Turn)
    requires HeldByOne(ts, l)
    ensures t in ts && HeldBy(t, l)
  {
    var i :| 0 <= i < |ts| && HeldBy(ts[i], l);
    t := ts[i];
  }

  lemma MoreTurnsHold(ts: seq<Turn>, t: Turn, ls: seq<Label>)
    requires AllHeld(ts, ls)
    ensures AllHeld(ts + [t], ls)
  {
    forall j | 0 <= j < |ls|
      ensures HeldByOne(ts + [t], ls[j])
    {
      assert HeldByOne(ts, ls[j]);
      var i :| 0 <= i < |ts| && HeldBy(ts[i], ls[j]);
      assert HeldBy((ts + [t])[i], ls[j]);
    }
  }

  lemma OneMoreHeld(ts: seq<Turn>, ls: seq<Label>, l: Label)
    requires AllHeld(ts, ls) && ts != [] && HeldBy(ts[|ts| - 1], l)
    ensures AllHeld(ts, ls + [l])
  {
    assert HeldByOne(ts, l);
  }

  lemma {:induction false} OthersRun(c: Config, s: State, ls: seq<Label>, others: seq<Label>, ts: seq<Turn>)
    returns (more: seq<Label>)
    requires IsRun(c, s, ls) && AllHeld(ts, ls)
    requires ts != [] && forall i :: 0 <= i < |others| ==> others[i] in ts[|ts| - 1].before
    ensures AllHeld(ts, more)
    ensures IsRun(c, s, more) && Exec(c, s, more) == Others(c, Exec(c, s, ls), others)
    ensures Shutdown.WorkerSteps(more) == Shutdown.WorkerSteps(ls)
    decreases |others|
  {
    more := ls;
    if others != [] {
      var l := others[0];
      if !IsWorker(l) && Enabled(c, Exec(c, s, ls), l) {
        RunAppend(c, s, ls, l);
        WorkerStepsPush(ls, l);
        OneMoreHeld(ts, ls, l);
        more := ls + [l];
      }
      assert forall i :: 0 <= i < |others[1..]| ==> others[1..][i] == others[i + 1];
      more := OthersRun(c, s, more, others[1..], ts);
    }
  }

  lemma NextIsEnabled(c: Config, s: State, t: Turn)
    requires ValidConfig(c) && Tokens.Inv(c, s)
    ensures Sleeps(c, s, t) <==> s.pc.Done? || !Enabled(c, s, Next(c, s, t))
    ensures !s.pc.Done? ==> IsWorker(Next(c, s, t))
  {
    match s.pc
    case Serve(tag) =>
      assert tag in multiset(Tokens.Hand(s.pc)) by { assert Tokens.Hand(s.pc) == [tag]; }
      Tokens.InRange(c, s, tag);
      Tokens.TagHasBuffer(c, s, tag);
    case _ =>
  }

  /**
   The turns played make up a run whose steps are those the turns hold, and
   each turn is one worker step of it or one turn slept through.
   */
  lemma {:induction false} PlayedIsARun(c: Config, s: State, ts: seq<Turn>) returns (ls: seq<Label>)
    requires ValidConfig(c) && Tokens.Inv(c, s)
    ensures IsRun(c, s, ls) && Exec(c, s, ls) == PlayAll(c, s, ts)
    ensures Shutdown.WorkerSteps(ls) + Slept(c, s, ts) == |ts|
    ensures AllHeld(ts, ls)
    decreases |ts|
  {
    if ts == [] {
      ls := [];
    } else {
      var init := ts[..|ts| - 1];
      ls := PlayedIsARun(c, s, init);
      MoreTurnsHold(init, ts[|ts| - 1], ls);
      assert init + [ts[|ts| - 1]] == ts;
      ls := TurnRun(c, s, ls, ts);
    }
  }

  /** The last turn. */
  lemma TurnRun(c: Config, s: State, ls: seq<Label>, ts: seq<Turn>) returns (more: seq<Label>)
    requires ValidConfig(c) && Tokens.Inv(c, s) && IsRun(c, s, ls) && ts != [] && AllHeld(ts, ls)
    ensures var s', t := Exec(c, s, ls), ts[|ts| - 1];
            && IsRun(c, s, more) && Exec(c, s, more) == Play(c, s', t) && AllHeld(ts, more)
            && Shutdown.WorkerSteps(more)
               == Shutdown.WorkerSteps(ls) + if Sleeps(c, Others(c, s', t.before), t) then 0 else 1
  {
    more := OthersRun(c, s, ls, ts[|ts| - 1].before, ts);
    more := OwnRun(c, s, more, ts);
  }

  /** The worker's own step of the last turn. */
  lemma OwnRun(c: Config, s: State, ls: seq<Label>, ts: seq<Turn>) returns (more: seq<Label>)
    requires ValidConfig(c) && Tokens.Inv(c, s) && IsRun(c, s, ls) && ts != [] && AllHeld(ts, ls)
    ensures var s', t := Exec(c, s, ls), ts[|ts| - 1];
            && IsRun(c, s, more) && Exec(c, s, more) == Own(c, s', t) && AllHeld(ts, more)
            && Shutdown.WorkerSteps(more) == Shutdown.WorkerSteps(ls) + if Sleeps(c, s', t) then 0 else 1
  {
    var s', t := Exec(c, s, ls), ts[|ts| - 1];
    Tokens.RunKeeps(c, s, ls);
    NextIsEnabled(c, s', t);
    more := ls;
    if !Sleeps(c, s', t) {
      var l := Next(c, s', t);
      RunAppend(c, s, ls, l);
      WorkerStepsPush(ls, l);
      OneMoreHeld(ts, ls, l);
      more := ls + [l];
    }
  }
}
