/**
 The control plane: one command at a time over a small ring. A command whose
 enter failed stays in the submission queue, and every later enter takes an
 older command than the one it was made for. A command whose wait failed leaves
 its completion behind, and every later command reads an older answer.
 */
module Control {
  import opened Bits
  import opened SubmissionQueue
  import Ring

  const CMD_ADD_DEV := 0x04
  const CMD_DEL_DEV := 0x05
  const CMD_START_DEV := 0x06
  const CMD_STOP_DEV := 0x07
  const CMD_SET_PARAMS := 0x08
  const U_CMD_BASE := 0xC020_7500

  const NO_DEV := 0xFFFF_FFFF
  const CTRL_ENTRIES := 4
  const CTRL_COMPLETIONS := 8

  /** A control submission: the command opcode and the device it names. */
  datatype CtrlSqe = CtrlSqe(op: nat, devId: nat)

  /** What ctrlCommand comes back with; `Blocked` is a WaitCQE that does not return. */
  datatype Outcome = SqFull | SubmitFailed | WaitFailed | Blocked | Answered(res: int)

  /** What one io_uring_enter does: take the oldest entry, take nothing, or fail. */
  datatype EnterResult = Takes | TakesNone | Fails

  /**
   What happens around one command: its enter, how many commands have completed
   in all by the time WaitCQE looks, and whether an epoll_wait fails if it finds none.
   */
  datatype Turn = Turn(enter: EnterResult, posted: nat, waitFails: bool)

  /**
   The world a device lives in: the turn of each command, the result of each
   when it is executed, and the id that ADD_DEV reports.
   */
  datatype World = World(turn: nat -> Turn, result: nat -> int, id: nat)

  /** A command the kernel executed. */
  datatype Ran = Ran(cmd: CtrlSqe, res: int)

  datatype Status = Fine | Failed | Hung

  function IoctlOp(cmd: nat): nat { U_CMD_BASE + cmd }

  predicate IsCmd(e: CtrlSqe, cmd: nat) { e.op == cmd || e.op == IoctlOp(cmd) }

  predicate IsAdd(e: CtrlSqe) { IsCmd(e, CMD_ADD_DEV) }

  predicate IsDel(e: CtrlSqe) { IsCmd(e, CMD_DEL_DEV) }

  /** ctrlCommand's error value, as its callers see it. */
  function StatusOf(out: Outcome): Status {
    match out
    case Answered(res) => if res >= 0 then Fine else Failed
    case Blocked => Hung
    case _ => Failed
  }

  // ---------------------------------------------------------------------
  // How far the kernel and the caller have come

  /** Commands taken and executed, completions posted, and answers read. */
  datatype Pipe = Pipe(taken: nat, posted: nat, read: nat)

  predicate Ordered(p: Pipe) { p.read <= p.posted <= p.taken }

  function TakenBy(p: Pipe, t: Turn): nat { p.taken + if t.enter.Takes? then 1 else 0 }

  /** Completions posted when WaitCQE first looks. */
  function PostedBy(p: Pipe, t: Turn): (n: nat)
    requires Ordered(p)
    ensures p.posted <= n <= TakenBy(p, t)
  {
    Clamp(t.posted, p.posted, TakenBy(p, t))
  }

  /** The command reads an answer: one is posted, or one comes and the wait for it does not fail. */
  predicate Reads(p: Pipe, t: Turn)
    requires Ordered(p)
  {
    !t.enter.Fails? && p.read < if t.waitFails then PostedBy(p, t) else TakenBy(p, t)
  }

  function Next(p: Pipe, t: Turn): (q: Pipe)
    requires Ordered(p)
    ensures Ordered(q)
  {
    var posted := if t.enter.Fails? then p.posted else PostedBy(p, t);
    if Reads(p, t) then Pipe(TakenBy(p, t), if p.read < posted then posted else p.read + 1, p.read + 1)
    else Pipe(TakenBy(p, t), posted, p.read)
  }

  function OutcomeOf(p: Pipe, t: Turn, result: nat -> int): Outcome
    requires Ordered(p)
  {
    if t.enter.Fails? then SubmitFailed
    else if Reads(p, t) then Answered(result(p.read))
    else if t.waitFails then WaitFailed
    else Blocked
  }

  /** After n commands. */
  function PipeOf(w: World, n: nat): (p: Pipe)
    ensures Ordered(p) && p.taken <= n
  {
    if n == 0 then Pipe(0, 0, 0) else Next(PipeOf(w, n - 1), w.turn(n - 1))
  }

  /** What the n-th command comes back with. */
  function OutcomeAt(w: World, n: nat): Outcome { OutcomeOf(PipeOf(w, n), w.turn(n), w.result) }

  function StatusAt(w: World, n: nat): Status { StatusOf(OutcomeAt(w, n)) }

  /** How many of the first n commands came back without an answer. */
  function Unanswered(w: World, n: nat): nat { n - PipeOf(w, n).read }

  predicate AllTake(w: World, n: nat) {
    forall i: nat :: i < n ==> w.turn(i).enter.Takes?
  }

  /** The enter took its entry, and the wait did not fail. */
  predicate Smooth(w: World, i: nat) {
    w.turn(i).enter.Takes? && OutcomeAt(w, i) != WaitFailed
  }

  predicate InStep(w: World, n: nat) {
    forall i: nat :: i < n ==> Smooth(w, i)
  }

  lemma {:induction false} TakenAllIff(w: World, n: nat)
    ensures PipeOf(w, n).taken == n <==> AllTake(w, n)
  {
    if n > 0 {
      TakenAllIff(w, n - 1);
      assert AllTake(w, n) <==> AllTake(w, n - 1) && w.turn(n - 1).enter.Takes?;
    }
  }

  lemma {:induction false} AnsweredAllIff(w: World, n: nat)
    ensures Unanswered(w, n) == 0 <==> InStep(w, n)
  {
    if n > 0 {
      AnsweredAllIff(w, n - 1);
      assert InStep(w, n) <==> InStep(w, n - 1) && Smooth(w, n - 1);
    }
  }

  lemma OneAnswer(w: World, n: nat)
    ensures Unanswered(w, n + 1) == Unanswered(w, n) + if OutcomeAt(w, n).Answered? then 0 else 1
  {
    assert PipeOf(w, n + 1) == Next(PipeOf(w, n), w.turn(n));
  }

  lemma {:induction false} PipeGrows(w: World, m: nat, n: nat)
    requires m <= n
    ensures PipeOf(w, m).taken <= PipeOf(w, n).taken && PipeOf(w, m).read <= PipeOf(w, n).read
  {
    if m < n { PipeGrows(w, m, n - 1); }
  }

  // ---------------------------------------------------------------------
  // Which command is executed

  /** The command the kernel takes when `e` is sent behind `lag` unconsumed ones. */
  function Executed(lag: seq<CtrlSqe>, e: CtrlSqe): CtrlSqe {
    if lag == [] then e else lag[0]
  }

  /** The unconsumed commands afterwards. */
  function LagAfter(lag: seq<CtrlSqe>, e: CtrlSqe, r: EnterResult): seq<CtrlSqe> {
    if r.Takes? then (lag + [e])[1..] else lag + [e]
  }

  function LagOf(sent: seq<CtrlSqe>, w: World): seq<CtrlSqe> {
    if sent == [] then []
    else
      var n := |sent| - 1;
      LagAfter(LagOf(sent[..n], w), sent[n], w.turn(n).enter)
  }

  /** What executing the oldest command behind `lag` adds to `ran`, if the enter takes it. */
  function RanAfter(ran: seq<Ran>, lag: seq<CtrlSqe>, e: CtrlSqe, r: EnterResult, result: nat -> int): seq<Ran> {
    if r.Takes? then ran + [Ran(Executed(lag, e), result(|ran|))] else ran
  }

  /** What the kernel executed, in order. */
  function RanOf(sent: seq<CtrlSqe>, w: World): seq<Ran> {
    if sent == [] then []
    else
      var n := |sent| - 1;
      RanAfter(RanOf(sent[..n], w), LagOf(sent[..n], w), sent[n], w.turn(n).enter, w.result)
  }

  function Commands(ran: seq<Ran>): (r: seq<CtrlSqe>)
    ensures |r| == |ran|
  {
    seq(|ran|, i requires 0 <= i < |ran| => ran[i].cmd)
  }

  lemma {:induction false} RanLength(sent: seq<CtrlSqe>, w: World)
    ensures |RanOf(sent, w)| == PipeOf(w, |sent|).taken
    decreases |sent|
  {
    if sent != [] { RanLength(sent[..|sent| - 1], w); }
  }

  /** The kernel executes the commands in the order sent, each once, and as many as enters took. */
  lemma {:induction false} CommandsExecuteInOrder(sent: seq<CtrlSqe>, w: World)
    ensures Commands(RanOf(sent, w)) + LagOf(sent, w) == sent
    ensures |RanOf(sent, w)| == PipeOf(w, |sent|).taken
    decreases |sent|
  {
    RanLength(sent, w);
    if sent != [] {
      var n := |sent| - 1;
      CommandsExecuteInOrder(sent[..n], w);
      assert sent == sent[..n] + [sent[n]];
      OneMore(RanOf(sent[..n], w), LagOf(sent[..n], w), sent[n], w.turn(n).enter, w.result);
    }
  }

  lemma CommandsPush(ran: seq<Ran>, x: Ran)
    ensures Commands(ran + [x]) == Commands(ran) + [x.cmd]
  {
  }

  lemma OneMore(ran: seq<Ran>, lag: seq<CtrlSqe>, e: CtrlSqe, r: EnterResult, result: nat -> int)
    ensures Commands(RanAfter(ran, lag, e, r, result)) + LagAfter(lag, e, r) == Commands(ran) + lag + [e]
  {
    if r.Takes? {
      var x := Executed(lag, e);
      CommandsPush(ran, Ran(x, result(|ran|)));
      assert lag + [e] == [x] + LagAfter(lag, e, r);
      assert Commands(ran) + [x] + LagAfter(lag, e, r) == Commands(ran) + (lag + [e]);
    }
  }

  /** What is left behind is no more than what went unanswered. */
  lemma RoomForOne(sent: seq<CtrlSqe>, w: World)
    ensures var p := PipeOf(w, |sent|);
            && |LagOf(sent, w)| <= Unanswered(w, |sent|) && p.taken - p.read <= Unanswered(w, |sent|)
            && PipeOf(w, |sent| + 1) == Next(p, w.turn(|sent|))
  {
    CommandsExecuteInOrder(sent, w);
    assert |Commands(RanOf(sent, w)) + LagOf(sent, w)| == |sent|;
  }

  lemma OneSent(sent: seq<CtrlSqe>, e: CtrlSqe, w: World)
    ensures var r, lag := w.turn(|sent|).enter, LagOf(sent, w);
            && LagOf(sent + [e], w) == LagAfter(lag, e, r)
            && RanOf(sent + [e], w) == RanAfter(RanOf(sent, w), lag, e, r, w.result)
  {
    assert (sent + [e])[..|sent|] == sent;
  }

  lemma {:induction false} ResultsInOrder(sent: seq<CtrlSqe>, w: World)
    ensures forall k :: 0 <= k < |RanOf(sent, w)| ==> RanOf(sent, w)[k].res == w.result(k)
    decreases |sent|
  {
    if sent != [] { ResultsInOrder(sent[..|sent| - 1], w); }
  }

  /** What was executed is what was sent, but for the commands left behind. */
  lemma ExecutedPrefix(sent: seq<CtrlSqe>, w: World)
    ensures |RanOf(sent, w)| == PipeOf(w, |sent|).taken <= |sent|
    ensures forall k :: 0 <= k < |RanOf(sent, w)| ==> RanOf(sent, w)[k] == Ran(sent[k], w.result(k))
  {
    CommandsExecuteInOrder(sent, w);
    ResultsInOrder(sent, w);
    var ran := RanOf(sent, w);
    assert forall k :: 0 <= k < |ran| ==> ran[k].cmd == (Commands(ran) + LagOf(sent, w))[k];
  }

  // ---------------------------------------------------------------------
  // Which answer is read

  /**
   The i-th enter executes the command sent as many places earlier as enters
   before it took nothing. The i-th command reads the answer to the one sent as
   many places earlier as commands before it went unanswered, and that one has
   been executed. It reads its own exactly when every enter before it took its
   entry and no wait before it failed.
   */
  lemma {:induction false} PairedIff(sent: seq<CtrlSqe>, w: World, i: nat)
    requires i < |sent|
    ensures w.turn(i).enter.Takes? ==>
              var k := PipeOf(w, i).taken;
              RanOf(sent[..i + 1], w) == RanOf(sent[..i], w) + [Ran(sent[k], w.result(k))]
    ensures PipeOf(w, i).taken == i <==> AllTake(w, i)
    ensures OutcomeAt(w, i).Answered? ==>
              var k := i - Unanswered(w, i);
              && OutcomeAt(w, i).res == w.result(k)
              && k < |RanOf(sent[..i + 1], w)| && RanOf(sent[..i + 1], w)[k] == Ran(sent[k], w.result(k))
    ensures Unanswered(w, i) == 0 <==> InStep(w, i)
    ensures sent[i] !in sent[..i] ==> (sent[i - Unanswered(w, i)] == sent[i] <==> InStep(w, i))
  {
    AnsweredAllIff(w, i);
    TakenAllIff(w, i);
    if w.turn(i).enter.Takes? { OneMoreRun(sent, w, i); }
    if OutcomeAt(w, i).Answered? { AnswerRead(sent, w, i); }
  }

  lemma {:induction false} AnswerRead(sent: seq<CtrlSqe>, w: World, i: nat)
    requires i < |sent| && OutcomeAt(w, i).Answered?
    ensures var k := i - Unanswered(w, i);
            && OutcomeAt(w, i).res == w.result(k)
            && k < |RanOf(sent[..i + 1], w)| && RanOf(sent[..i + 1], w)[k] == Ran(sent[k], w.result(k))
  {
    ExecutedPrefix(sent[..i + 1], w);
    assert PipeOf(w, i + 1) == Next(PipeOf(w, i), w.turn(i));
  }

  lemma {:induction false} OneMoreRun(sent: seq<CtrlSqe>, w: World, i: nat)
    requires i < |sent| && w.turn(i).enter.Takes?
    ensures var k := PipeOf(w, i).taken;
            RanOf(sent[..i + 1], w) == RanOf(sent[..i], w) + [Ran(sent[k], w.result(k))]
  {
    var ran, ran', k := RanOf(sent[..i], w), RanOf(sent[..i + 1], w), PipeOf(w, i).taken;
    ExecutedPrefix(sent[..i], w);
    ExecutedPrefix(sent[..i + 1], w);
    assert PipeOf(w, i + 1) == Next(PipeOf(w, i), w.turn(i));
    assert |ran| == k && |ran'| == k + 1;
    assert ran' == ran + [Ran(sent[k], w.result(k))];
  }

  /** While enters take their entries and waits do not fail, each command is executed and reads its own answer. */
  lemma {:induction false} AllTakenAllPaired(sent: seq<CtrlSqe>, w: World)
    requires InStep(w, |sent|)
    ensures LagOf(sent, w) == [] && |RanOf(sent, w)| == |sent|
    ensures forall i :: 0 <= i < |sent| ==>
              RanOf(sent, w)[i] == Ran(sent[i], w.result(i)) && OutcomeAt(w, i) == Answered(w.result(i))
  {
    forall i: nat | i < |sent|
      ensures w.turn(i).enter.Takes?
    {
      assert Smooth(w, i);
    }
    TakenAllIff(w, |sent|);
    CommandsExecuteInOrder(sent, w);
    ExecutedPrefix(sent, w);
    forall i | 0 <= i < |sent|
      ensures OutcomeAt(w, i) == Answered(w.result(i))
    {
      OwnAnswer(w, i, |sent|);
    }
  }

  lemma {:induction false} OwnAnswer(w: World, i: nat, n: nat)
    requires i < n && InStep(w, n)
    ensures OutcomeAt(w, i) == Answered(w.result(i))
  {
    AnsweredAllIff(w, i);
    assert Smooth(w, i);
  }

  // ---------------------------------------------------------------------
  // One DEL_DEV for each ADD_DEV

  /** What a life is counted by: ADD_DEVs that succeeded and DEL_DEVs. */
  datatype Kind = Made | Deleted

  predicate Is(r: Ran, k: Kind) {
    match k
    case Made => IsAdd(r.cmd) && r.res >= 0
    case Deleted => IsDel(r.cmd)
  }

  function Count(ran: seq<Ran>, k: Kind): nat {
    if ran == [] then 0
    else Count(ran[..|ran| - 1], k) + if Is(ran[|ran| - 1], k) then 1 else 0
  }

  /** The kernel executed one DEL_DEV for each ADD_DEV that succeeded. */
  predicate Balanced(ran: seq<Ran>) {
    Count(ran, Made) == Count(ran, Deleted)
  }

  lemma {:induction false} CountPrefix(ran: seq<Ran>, k: Kind, m: nat)
    requires m <= |ran| && forall i :: m <= i < |ran| ==> !Is(ran[i], k)
    ensures Count(ran, k) == Count(ran[..m], k)
    decreases |ran|
  {
    if m < |ran| {
      CountPrefix(ran[..|ran| - 1], k, m);
      assert ran[..|ran| - 1][..m] == ran[..m];
    } else {
      assert ran[..m] == ran;
    }
  }

  lemma CountNone(ran: seq<Ran>, k: Kind)
    requires forall i :: 0 <= i < |ran| ==> !Is(ran[i], k)
    ensures Count(ran, k) == 0
  {
    CountPrefix(ran, k, 0);
  }

  /** How addDev ends: with the first attempt unless that returns an error. */
  function AddStatus(w: World): Status {
    if StatusAt(w, 0).Failed? then StatusAt(w, 1) else StatusAt(w, 0)
  }

  /** The ADD_DEV commands addDev sends. */
  function Attempts(w: World): nat { if StatusAt(w, 0).Failed? then 2 else 1 }

  /** The first attempt is ioctl-encoded, the second is not, and neither names a device. */
  predicate IsAttempt(e: CtrlSqe, i: nat) {
    e == CtrlSqe(if i == 0 then 0xC020_7504 else 4, 0xFFFF_FFFF)
  }

  /** A command on the device, encoded like the last attempt sent. */
  predicate Encoded(e: CtrlSqe, cmd: nat, w: World) {
    e == CtrlSqe(if Attempts(w) == 1 then 0xC020_7500 + cmd else cmd, w.id % 0x1_0000_0000)
  }

  /** The commands of New: the ADD_DEV attempts, then SET_PARAMS and START_DEV as far as it came. */
  predicate Opened(sent: seq<CtrlSqe>, w: World) {
    var m := Attempts(w);
    && AddStatus(w).Fine? && m <= |sent| <= m + 2
    && (forall i :: 0 <= i < m ==> IsAttempt(sent[i], i))
    && (|sent| > m ==> Encoded(sent[m], 8, w))
    && (|sent| > m + 1 ==> Encoded(sent[m + 1], 6, w))
  }

  /** And then STOP_DEV. */
  predicate Stopped(sent: seq<CtrlSqe>, w: World) {
    sent != [] && Encoded(sent[|sent| - 1], 7, w) && Opened(sent[..|sent| - 1], w)
  }

  /** Both attempts, and no device. */
  predicate Rejected(sent: seq<CtrlSqe>, w: World) {
    AddStatus(w).Failed? && |sent| == 2 && IsAttempt(sent[0], 0) && IsAttempt(sent[1], 1)
  }

  /** The commands of a whole life, from addDev to the end of shutdown; none if the control ring was not set up. */
  predicate WholeLife(sent: seq<CtrlSqe>, w: World) {
    || sent == []
    || (match AddStatus(w)
        case Fine => Encoded(sent[|sent| - 1], 5, w) && Stopped(sent[..|sent| - 1], w)
        case Failed => Rejected(sent[..|sent| - 1], w) && sent[|sent| - 1] == CtrlSqe(7, 0xFFFF_FFFF)
        case Hung => false)
  }

  /**
   What it takes: if addDev succeeded, every enter took its entry; and no ADD_DEV
   that the kernel executed but whose answer addDev did not read succeeded.
   */
  predicate Tidy(w: World, n: nat) {
    n == 0 ||
    (&& (AddStatus(w).Fine? ==> AllTake(w, n))
     && forall k: nat :: PipeOf(w, Attempts(w)).read <= k < Attempts(w) && k < PipeOf(w, n).taken ==> w.result(k) < 0)
  }

  /** No command waits for ever. */
  predicate NoneBlocks(w: World, n: nat) {
    forall i: nat :: i < n ==> OutcomeAt(w, i) != Blocked
  }

  lemma NoneBlocksNext(w: World, n: nat)
    requires NoneBlocks(w, n) && OutcomeAt(w, n) != Blocked
    ensures NoneBlocks(w, n + 1)
  {
  }

  lemma NextFollows(sent: seq<CtrlSqe>, w: World, e: CtrlSqe)
    requires Opened(sent, w)
    requires || (|sent| == Attempts(w) && Encoded(e, CMD_SET_PARAMS, w))
             || (|sent| == Attempts(w) + 1 && Encoded(e, CMD_START_DEV, w))
    ensures Opened(sent + [e], w)
  {
  }

  lemma StopFollows(sent: seq<CtrlSqe>, w: World, e: CtrlSqe)
    requires Opened(sent, w) && Encoded(e, CMD_STOP_DEV, w)
    ensures Stopped(sent + [e], w)
  {
    assert (sent + [e])[..|sent|] == sent;
  }

  lemma FailureEnds(sent: seq<CtrlSqe>, w: World, e: CtrlSqe)
    requires Rejected(sent, w) && e == CtrlSqe(CMD_STOP_DEV, NO_DEV)
    ensures WholeLife(sent + [e], w)
  {
    assert (sent + [e])[..|sent|] == sent;
  }

  lemma DelFollows(sent: seq<CtrlSqe>, w: World, e: CtrlSqe)
    requires Stopped(sent, w) && Encoded(e, CMD_DEL_DEV, w)
    ensures WholeLife(sent + [e], w)
  {
    assert (sent + [e])[..|sent|] == sent;
  }

  /** The ADD_DEVs of a life are its first commands, and its only DEL_DEV is the last, after a successful addDev. */
  lemma Shape(sent: seq<CtrlSqe>, w: World)
    requires sent != [] && WholeLife(sent, w)
    ensures |sent| > Attempts(w)
    ensures forall i :: 0 <= i < |sent| ==> (IsAdd(sent[i]) <==> i < Attempts(w))
    ensures forall i :: 0 <= i < |sent| ==> (IsDel(sent[i]) <==> AddStatus(w).Fine? && i == |sent| - 1)
  {
    var most := sent[..|sent| - 1];
    assert forall i :: 0 <= i < |most| ==> sent[i] == most[i];
    if AddStatus(w).Fine? {
      var first := most[..|most| - 1];
      assert forall i :: 0 <= i < |first| ==> most[i] == first[i];
    }
  }

  function One(b: bool): nat { if b then 1 else 0 }

  lemma {:induction false} DelsRun(sent: seq<CtrlSqe>, w: World)
    requires sent != [] && WholeLife(sent, w)
    ensures Count(RanOf(sent, w), Deleted) == One(AddStatus(w).Fine? && AllTake(w, |sent|))
  {
    var ran, n := RanOf(sent, w), |sent|;
    Shape(sent, w);
    ExecutedPrefix(sent, w);
    TakenAllIff(w, n);
    if |ran| == n {
      CountNone(ran[..n - 1], Deleted);
    } else {
      CountNone(ran, Deleted);
    }
  }

  lemma {:induction false} AddsRun(sent: seq<CtrlSqe>, w: World)
    requires sent != [] && WholeLife(sent, w)
    ensures var taken := PipeOf(w, |sent|).taken;
            Count(RanOf(sent, w), Made)
            == One(taken > 0 && w.result(0) >= 0) + One(Attempts(w) == 2 && taken > 1 && w.result(1) >= 0)
  {
    var ran, m := RanOf(sent, w), Attempts(w);
    Shape(sent, w);
    ExecutedPrefix(sent, w);
    var k := if |ran| < m then |ran| else m;
    CountPrefix(ran, Made, k);
    CountUpToTwo(ran[..k], Made);
  }

  lemma CountUpToTwo(ran: seq<Ran>, k: Kind)
    requires |ran| <= 2
    ensures Count(ran, k) == One(|ran| > 0 && Is(ran[0], k)) + One(|ran| > 1 && Is(ran[1], k))
  {
    if |ran| > 0 {
      var init := ran[..|ran| - 1];
      assert Count(init, k) == One(|init| > 0 && Is(init[0], k)) by {
        if |init| > 0 { assert init[..0] == []; }
      }
    }
  }

  /** What addDev learns: the answers it reads are failures, but for the last one of a success. */
  lemma WhatAddDevReads(w: World)
    ensures var m := Attempts(w);
            var read := PipeOf(w, m).read;
            && read <= m
            && (AddStatus(w).Failed? ==> forall k: nat :: k < read ==> w.result(k) < 0)
            && (AddStatus(w).Fine? ==>
                  && 0 < read <= PipeOf(w, m).taken && w.result(read - 1) >= 0
                  && (read == 2 ==> w.result(0) < 0) && (m == 1 ==> read == 1))
  {
    var p0, p1 := PipeOf(w, 0), PipeOf(w, 1);
    assert p1 == Next(p0, w.turn(0));
    assert PipeOf(w, 2) == Next(p1, w.turn(1));
    assert OutcomeAt(w, 0).Answered? ==> p1.read == 1 && OutcomeAt(w, 0).res == w.result(0);
  }

  /** The attempts whose answers addDev did not read, as far as the kernel executed them. */
  lemma {:induction false} UnreadAttempts(w: World, n: nat)
    ensures var m, taken := Attempts(w), PipeOf(w, n).taken;
            var read := PipeOf(w, m).read;
            (forall k: nat :: read <= k < m && k < taken ==> w.result(k) < 0)
            <==> && (read == 0 && taken > 0 ==> w.result(0) < 0)
                 && (read <= 1 && m == 2 && taken > 1 ==> w.result(1) < 0)
  {
    var zero, one := w.result(0), w.result(1);
  }

  lemma {:induction false} TidyAfterSuccess(w: World, n: nat)
    requires AddStatus(w).Fine? && n > Attempts(w)
    ensures var taken := PipeOf(w, n).taken;
            One(taken > 0 && w.result(0) >= 0) + One(Attempts(w) == 2 && taken > 1 && w.result(1) >= 0)
              == One(AllTake(w, n))
            <==> Tidy(w, n)
  {
    WhatAddDevReads(w);
    PipeGrows(w, Attempts(w), n);
    TakenAllIff(w, n);
    UnreadAttempts(w, n);
  }

  lemma {:induction false} TidyAfterFailure(w: World)
    requires AddStatus(w).Failed?
    ensures var taken := PipeOf(w, 3).taken;
            One(taken > 0 && w.result(0) >= 0) + One(taken > 1 && w.result(1) >= 0) == 0 <==> Tidy(w, 3)
  {
    WhatAddDevReads(w);
    UnreadAttempts(w, 3);
  }

  /**
   Over a whole life the kernel executes one DEL_DEV for each ADD_DEV that
   succeeded, exactly when enters, waits and results are as `Tidy` says.
   */
  lemma {:induction false} BalancedIff(sent: seq<CtrlSqe>, w: World)
    requires WholeLife(sent, w)
    ensures Balanced(RanOf(sent, w)) <==> Tidy(w, |sent|)
  {
    if sent != [] {
      DelsRun(sent, w);
      AddsRun(sent, w);
      Shape(sent, w);
      if AddStatus(w).Fine? {
        TidyAfterSuccess(w, |sent|);
      } else {
        TidyAfterFailure(w);
      }
    }
  }

  // ---------------------------------------------------------------------
  // Lives that go wrong

  /** Both attempts fail to enter; the STOP_DEV of the clean-up makes the device, and nothing deletes it. */
  lemma {:induction false} StopCanMakeADevice()
    ensures var w := World(i => Turn(if i < 2 then Fails else Takes, 0, false), _ => 0, 0);
            var sent := [AddSqe(true), AddSqe(false), CtrlSqe(CMD_STOP_DEV, NO_DEV)];
            && WholeLife(sent, w) && NoneBlocks(w, 3)
            && RanOf(sent, w) == [Ran(AddSqe(true), 0)] && !Balanced(RanOf(sent, w))
  {
    var w := World(i => Turn(if i < 2 then Fails else Takes, 0, false), _ => 0, 0);
    var sent := [AddSqe(true), AddSqe(false), CtrlSqe(CMD_STOP_DEV, NO_DEV)];
    assert PipeOf(w, 1) == Pipe(0, 0, 0);
    assert PipeOf(w, 2) == Pipe(0, 0, 0);
    assert PipeOf(w, 3) == Pipe(1, 1, 1);
    assert sent[..2] == [AddSqe(true), AddSqe(false)];
    assert WholeLife(sent, w);
    ExecutedPrefix(sent, w);
    AddsRun(sent, w);
    DelsRun(sent, w);
  }

  /** SET_PARAMS fails to enter; shutdown reads success for a DEL_DEV the kernel never sees. */
  lemma {:induction false} DelCanBeLeftBehind()
    ensures var w := World(i => Turn(if i == 1 then Fails else Takes, 0, false), _ => 0, 0);
            var del := CtrlSqe(0xC020_7505, 0);
            var sent := [AddSqe(true), CtrlSqe(0xC020_7508, 0), CtrlSqe(0xC020_7507, 0), del];
            && WholeLife(sent, w) && LagOf(sent, w) == [del] && !Balanced(RanOf(sent, w))
            && StatusAt(w, 3) == Fine
  {
    var w := World(i => Turn(if i == 1 then Fails else Takes, 0, false), _ => 0, 0);
    var params, stop, del := CtrlSqe(0xC020_7508, 0), CtrlSqe(0xC020_7507, 0), CtrlSqe(0xC020_7505, 0);
    var sent := [AddSqe(true), params, stop, del];
    assert PipeOf(w, 1) == Pipe(1, 1, 1);
    assert PipeOf(w, 2) == Pipe(1, 1, 1);
    assert PipeOf(w, 3) == Pipe(2, 2, 2);
    assert PipeOf(w, 4) == Pipe(3, 3, 3);
    assert sent[..3] == [AddSqe(true), params, stop] && sent[..3][..2] == [AddSqe(true), params];
    CommandsExecuteInOrder(sent, w);
    var ran, lag := RanOf(sent, w), LagOf(sent, w);
    assert lag[0] == (Commands(ran) + lag)[3];
    BalancedIff(sent, w);
    assert !w.turn(1).enter.Takes?;
  }

  /**
   The first attempt is executed but its wait fails; the second reads its answer
   and makes another device. Every enter took its entry, every later command
   reads a success, and one of the two devices stays.
   */
  lemma {:induction false} FailedWaitMakesTwoDevices()
    ensures var w := World(i => Turn(Takes, 0, i == 0), _ => 0, 0);
            var sent := [AddSqe(true), AddSqe(false), CtrlSqe(8, 0), CtrlSqe(6, 0), CtrlSqe(7, 0), CtrlSqe(5, 0)];
            && WholeLife(sent, w) && AllTake(w, 6) && StatusAt(w, 0) == Failed
            && (forall i: nat :: 1 <= i < 6 ==> StatusAt(w, i) == Fine)
            && Count(RanOf(sent, w), Made) == 2 && Count(RanOf(sent, w), Deleted) == 1
  {
    var w := World(i => Turn(Takes, 0, i == 0), _ => 0, 0);
    var sent := [AddSqe(true), AddSqe(false), CtrlSqe(8, 0), CtrlSqe(6, 0), CtrlSqe(7, 0), CtrlSqe(5, 0)];
    assert PipeOf(w, 1) == Pipe(1, 0, 0);
    assert PipeOf(w, 2) == Pipe(2, 1, 1);
    assert PipeOf(w, 3) == Pipe(3, 2, 2);
    assert PipeOf(w, 4) == Pipe(4, 3, 3);
    assert PipeOf(w, 5) == Pipe(5, 4, 4);
    assert PipeOf(w, 6).taken == 6;
    assert sent[..5][..4] == sent[..4];
    assert Opened(sent[..4], w);
    DelsRun(sent, w);
    AddsRun(sent, w);
  }

  predicate SameEncoding(a: CtrlSqe, b: CtrlSqe) {
    a.op >= 0xC020_7500 <==> b.op >= 0xC020_7500
  }

  /**
   Over a whole life, every command after addDev has the encoding of the ADD_DEV
   whose success addDev read exactly when its first attempt read an answer.
   */
  lemma {:induction false} EncodingMatchesIff(sent: seq<CtrlSqe>, w: World, i: nat)
    requires WholeLife(sent, w) && AddStatus(w).Fine? && Attempts(w) <= i < |sent|
    ensures var k := PipeOf(w, Attempts(w)).read - 1;
            && 0 <= k < |RanOf(sent, w)| && RanOf(sent, w)[k] == Ran(sent[k], w.result(k)) && w.result(k) >= 0
            && IsAttempt(sent[k], k)
            && (SameEncoding(sent[i], sent[k]) <==> OutcomeAt(w, 0).Answered?)
  {
    WhatAddDevReads(w);
    PipeGrows(w, Attempts(w), |sent|);
    ExecutedPrefix(sent, w);
    AnswerCounts(w);
    EncodedLike(sent, w, i);
    EncodedLike(sent, w, PipeOf(w, Attempts(w)).read - 1);
  }

  /** The entries of a life in numbers: attempts as attempts, the rest encoded like the last of them. */
  lemma {:induction false} EncodedLike(sent: seq<CtrlSqe>, w: World, i: nat)
    requires WholeLife(sent, w) && AddStatus(w).Fine? && i < |sent|
    ensures i < Attempts(w) ==> IsAttempt(sent[i], i)
    ensures i >= Attempts(w) ==> (sent[i].op >= 0xC020_7500 <==> Attempts(w) == 1)
  {
    var most := sent[..|sent| - 1];
    var first := most[..|most| - 1];
    assert i < |first| ==> sent[i] == first[i];
    assert i == |first| ==> sent[i] == most[|first|];
  }

  /** How many answers addDev reads when it succeeds: all, unless its first attempt read none. */
  lemma {:induction false} AnswerCounts(w: World)
    requires AddStatus(w).Fine?
    ensures PipeOf(w, Attempts(w)).read == (if OutcomeAt(w, 0).Answered? then Attempts(w) else 1)
    ensures !OutcomeAt(w, 0).Answered? ==> Attempts(w) == 2
  {
    assert PipeOf(w, 1) == Next(PipeOf(w, 0), w.turn(0));
    assert PipeOf(w, 2) == Next(PipeOf(w, 1), w.turn(1));
  }

  function AddSqe(ioctl: bool): CtrlSqe {
    CtrlSqe(if ioctl then IoctlOp(CMD_ADD_DEV) else CMD_ADD_DEV, NO_DEV)
  }

  /** What addDev sends. */
  function AddCommands(w: World): (sent: seq<CtrlSqe>)
    ensures |sent| == Attempts(w)
  {
    if Attempts(w) == 2 then [AddSqe(true), AddSqe(false)] else [AddSqe(true)]
  }

  /** Where addDev leaves the ring, if nothing was sent before. */
  lemma AddDevBegins(before: seq<CtrlSqe>, w: World)
    requires |before| == 0
    ensures var sent := before + AddCommands(w);
            var n := |sent|;
            match AddStatus(w)
            case Hung => OutcomeAt(w, n - 1) == Blocked
            case Fine => NoneBlocks(w, n) && n == Attempts(w) && Opened(sent, w) && Unanswered(w, n) <= 1
            case Failed => NoneBlocks(w, n) && Rejected(sent, w)
  {
    assert before + AddCommands(w) == AddCommands(w);
    WhatAddDevReads(w);
  }

  // ---------------------------------------------------------------------
  // The device's control side, over a concrete ring

  /** The queue of a ring with `lag` behind, after one command is staged, flushed and entered. */
  lemma QueueAfter(lag: seq<CtrlSqe>, e: CtrlSqe, r: EnterResult, accept: nat)
    requires accept == if r.Takes? then 1 else 0
    ensures var q := Sq(lag, [e], 0);
            var k := Accepted(q, accept);
            && FlushCount(q) == 1 && Flush(q).published[..k] == (if r.Takes? then [Executed(lag, e)] else [])
            && Consume(Flush(q), k) == Sq(LagAfter(lag, e, r), [], 0)
  {
    var pub := lag + [e];
    assert pub[..1] == [Executed(lag, e)] && pub[..0] == [] && pub[0..] == pub;
  }

  /** The completion of an executed command; ctrlCommand sets no user data. */
  function CqeOf(r: Ran): Ring.Cqe { Ring.Cqe(0, r.res) }

  function Cqes(ran: seq<Ran>): (r: seq<Ring.Cqe>)
    ensures |r| == |ran|
  {
    seq(|ran|, i requires 0 <= i < |ran| => CqeOf(ran[i]))
  }

  /** The ublk driver: the world it lives in, what it was sent, executed and has posted. */
  class Driver {
    const w: World
    var sent: seq<CtrlSqe>
    var ran: seq<Ran>
    var posted: nat

    constructor (w: World)
      ensures this.w == w && Blank()
    {
      this.w := w;
      sent, ran, posted := [], [], 0;
    }

    predicate Blank()
      reads this
    {
      |sent| == 0 && |ran| == 0 && posted == 0
    }

    /** An enter for `e` comes in, and the driver executes what it took. */
    method Handle(e: CtrlSqe, taken: seq<CtrlSqe>)
      modifies this`sent, this`ran
      ensures sent == old(sent) + [e]
      ensures ran == old(ran) + if taken == [] then [] else [Ran(taken[0], w.result(|old(ran)|))]
    {
      sent := sent + [e];
      if taken != [] { ran := ran + [Ran(taken[0], w.result(|ran|))]; }
    }
  }

  class ControlPlane {
    const ring: Ring.Ring<CtrlSqe>
    const drv: Driver
    var useIoctl: bool
    var id: int

    /** Nothing in the ring but unconsumed commands and unread completions. */
    ghost predicate Quiet(lag: seq<CtrlSqe>, cq: seq<Ring.Cqe>)
      reads ring, ring.sqArray, ring.sqes, ring.cqes
    {
      && ring.Valid() && ring.sqEntries == CTRL_ENTRIES && ring.cqEntries == CTRL_COMPLETIONS
      && ring.Sq() == Sq(lag, [], 0) && ring.Cq() == cq
      && !ring.cancelled && !ring.signalled
    }

    /** The driver's books are those of the commands sent. */
    ghost predicate Booked(p: Pipe)
      reads drv
    {
      drv.ran == RanOf(drv.sent, drv.w) && |drv.ran| == p.taken && drv.posted == p.posted && Ordered(p)
    }

    /** Between commands: the ring holds what failed enters and failed waits have left behind. */
    ghost predicate Valid()
      reads drv, ring, ring.sqArray, ring.sqes, ring.cqes
    {
      At(PipeOf(drv.w, |drv.sent|))
    }

    /** The same, given how far things have come. */
    ghost predicate At(p: Pipe)
      reads drv, ring, ring.sqArray, ring.sqes, ring.cqes
    {
      Booked(p) && Quiet(LagOf(drv.sent, drv.w), Cqes(drv.ran[p.read..p.posted]))
    }

    /** How many commands have come back without an answer. */
    ghost function Open(): nat
      reads drv
    {
      Unanswered(drv.w, |drv.sent|)
    }

    /** openDevice: a control ring of four entries. */
    constructor (drv: Driver)
      requires drv.Blank()
      ensures Valid() && this.drv == drv && id == -1 && !useIoctl
      ensures fresh(ring) && fresh(ring.sqArray) && fresh(ring.sqes) && fresh(ring.cqes)
    {
      this.drv := drv;
      useIoctl, id := false, -1;
      ring := new Ring.Ring(2, 3, CtrlSqe(0, 0), 0, 0);
      new;
      assert Pow2(2) == 4 && Pow2(3) == 8;
    }

    /** GetSQE128 and the copy into it. */
    method Fill(e: CtrlSqe, ghost lag: seq<CtrlSqe>, ghost cq: seq<Ring.Cqe>) returns (ok: bool)
      requires Quiet(lag, cq) && |lag| < CTRL_ENTRIES
      modifies ring, ring.sqes
      ensures ok && ring.Valid() && ring.Sq() == Sq(lag, [e], 0)
      ensures ring.Cq() == cq && !ring.cancelled && !ring.signalled
    {
      StageWithRoom(ring.Sq(), ring.sqEntries, e);
      ok := ring.Enqueue(e);
    }

    /** Submit of the one entry staged. */
    method Submit(e: CtrlSqe, r: EnterResult, ghost lag: seq<CtrlSqe>) returns (err: bool, taken: seq<CtrlSqe>)
      requires ring.Valid() && ring.Sq() == Sq(lag, [e], 0)
      modifies ring, ring.sqArray
      ensures err == r.Fails? && taken == (if r.Takes? then [Executed(lag, e)] else [])
      ensures ring.Valid() && ring.Sq() == Sq(LagAfter(lag, e, r), [], 0)
      ensures ring.Cq() == old(ring.Cq())
      ensures ring.cancelled == old(ring.cancelled) && ring.signalled == old(ring.signalled)
    {
      ghost var q := ring.Sq();
      var accept := if r.Takes? then 1 else 0;
      QueueAfter(lag, e, r, accept);
      var _, failed, entries := ring.Submit(accept, r.Fails?);
      ghost var k := Accepted(q, accept);
      assert entries == Flush(q).published[..k] && ring.Sq() == Consume(Flush(q), k);
      err, taken := failed, entries;
    }

    /** Stage, flush and enter. */
    method Send(e: CtrlSqe, r: EnterResult, ghost lag: seq<CtrlSqe>, ghost cq: seq<Ring.Cqe>)
      returns (ok: bool, err: bool, taken: seq<CtrlSqe>)
      requires Quiet(lag, cq) && |lag| < CTRL_ENTRIES
      modifies ring, ring.sqArray, ring.sqes
      ensures ok && err == r.Fails?
      ensures taken == if r.Takes? then [Executed(lag, e)] else []
      ensures Quiet(LagAfter(lag, e, r), cq)
    {
      ok := Fill(e, lag, cq);
      err, taken := Submit(e, r, lag);
    }

    /** The driver posts the completions of further commands it has executed. */
    method Post(to: nat, ghost lag: seq<CtrlSqe>, ghost read: nat)
      requires read <= drv.posted <= to <= |drv.ran| && to - read <= CTRL_COMPLETIONS
      requires Quiet(lag, Cqes(drv.ran[read..drv.posted]))
      modifies drv`posted, ring, ring.cqes
      ensures drv.posted == to && Quiet(lag, Cqes(drv.ran[read..to]))
    {
      while drv.posted < to
        invariant read <= drv.posted <= to && Quiet(lag, Cqes(drv.ran[read..drv.posted]))
      {
        CqesPush(drv.ran, read, drv.posted);
        var _ := ring.KernelPost(CqeOf(drv.ran[drv.posted]));
        drv.posted := drv.posted + 1;
      }
    }

    /** WaitCQE and SeenCQE; `next` is posted while the wait sleeps, unless the wait fails. */
    method Take(next: seq<Ran>, fails: bool, ghost lag: seq<CtrlSqe>, ghost cq: seq<Ring.Cqe>)
      returns (out: Outcome, woken: bool)
      requires Quiet(lag, cq) && |next| <= 1
      modifies ring, ring.cqes
      ensures woken == (cq == [] && !fails && next != [])
      ensures if cq != [] then out == Answered(cq[0].res) && Quiet(lag, cq[1..])
              else
                && out == (if woken then Answered(next[0].res) else if fails then WaitFailed else Blocked)
                && Quiet(lag, [])
    {
      var wakes := if fails then [Ring.Wake([], false, Ring.Failed)]
                   else if next != [] then [Ring.Wake([CqeOf(next[0])], false, Ring.Events(false))]
                   else [];
      var r, used := ring.WaitCQE(wakes);
      woken := used > 0 && !fails;
      match r {
        case Completion(slot) =>
          var res := ring.cqes[slot].res;
          ring.SeenCQE();
          return Answered(res), woken;
        case ErrEpoll =>
          return WaitFailed, woken;
        case _ =>
          return Blocked, woken;
      }
    }

    /** The driver completes what it will, and the caller waits for an answer. */
    method Await(t: Turn, ghost lag: seq<CtrlSqe>, ghost read: nat) returns (out: Outcome)
      requires read <= drv.posted <= |drv.ran| && |drv.ran| - read <= CTRL_COMPLETIONS && !t.enter.Fails?
      requires Quiet(lag, Cqes(drv.ran[read..drv.posted]))
      modifies drv`posted, ring, ring.cqes
      ensures var to := Clamp(t.posted, old(drv.posted), |drv.ran|);
              var ok := read < (if t.waitFails then to else |drv.ran|);
              && drv.posted == (if ok && read == to then to + 1 else to)
              && out == (if ok then Answered(drv.ran[read].res) else if t.waitFails then WaitFailed else Blocked)
              && Quiet(lag, Cqes(drv.ran[if ok then read + 1 else read..drv.posted]))
    {
      var to := Clamp(t.posted, drv.posted, |drv.ran|);
      Post(to, lag, read);
      var next := if to < |drv.ran| then [drv.ran[to]] else [];
      var woken;
      ghost var unread := drv.ran[read..to];
      CqesPop(unread);
      out, woken := Take(next, t.waitFails, lag, Cqes(unread));
      if woken { drv.posted := to + 1; }
      if read < to {
        assert unread[1..] == drv.ran[read + 1..to];
      } else {
        assert Cqes(drv.ran[read..read]) == [];
        if woken { assert Cqes(drv.ran[read + 1..drv.posted]) == []; }
      }
    }

    /** ctrlCommand up to Submit: the driver executes what the enter took. */
    method Enter(e: CtrlSqe, t: Turn, ghost p: Pipe) returns (ok: bool, err: bool)
      requires At(p) && t == drv.w.turn(|drv.sent|) && |LagOf(drv.sent, drv.w)| < CTRL_ENTRIES
      modifies drv`sent, drv`ran, ring, ring.sqArray, ring.sqes
      ensures ok && err == t.enter.Fails? && drv.sent == old(drv.sent) + [e]
      ensures At(p.(taken := TakenBy(p, t)))
    {
      OneSent(drv.sent, e, drv.w);
      ghost var ran := drv.ran;
      var taken;
      ok, err, taken := Send(e, t.enter, LagOf(drv.sent, drv.w), Cqes(drv.ran[p.read..p.posted]));
      drv.Handle(e, taken);
      assert drv.ran[p.read..p.posted] == ran[p.read..p.posted];
    }

    /** ctrlCommand from WaitCQE on. */
    method Answer(t: Turn, ghost p: Pipe) returns (out: Outcome)
      requires Ordered(p) && At(p.(taken := TakenBy(p, t))) && !t.enter.Fails?
      requires TakenBy(p, t) - p.read <= CTRL_COMPLETIONS
      modifies drv`posted, ring, ring.cqes
      ensures At(Next(p, t)) && out == OutcomeOf(p, t, drv.w.result)
    {
      ResultsInOrder(drv.sent, drv.w);
      AwaitIsNext(p, t);
      out := Await(t, LagOf(drv.sent, drv.w), p.read);
    }

    /** ctrlCommand, given how far things have come. */
    method Exchange(e: CtrlSqe, t: Turn, ghost p: Pipe) returns (out: Outcome)
      requires At(p) && t == drv.w.turn(|drv.sent|)
      requires |LagOf(drv.sent, drv.w)| < CTRL_ENTRIES && p.taken - p.read < CTRL_COMPLETIONS
      modifies drv, ring, ring.sqArray, ring.sqes, ring.cqes
      ensures drv.sent == old(drv.sent) + [e]
      ensures At(Next(p, t)) && out == OutcomeOf(p, t, drv.w.result)
    {
      var ok, err := Enter(e, t, p);
      if !ok {
        return SqFull;
      }
      if err {
        return SubmitFailed;
      }
      out := Answer(t, p);
    }

    /** ctrlCommand: what it reads is the oldest answer there is. */
    method CtrlCommand(e: CtrlSqe) returns (out: Outcome)
      requires Valid() && Open() < CTRL_ENTRIES
      modifies drv, ring, ring.sqArray, ring.sqes, ring.cqes
      ensures Valid() && drv.sent == old(drv.sent) + [e]
      ensures out == OutcomeAt(drv.w, |old(drv.sent)|)
    {
      RoomForOne(drv.sent, drv.w);
      out := Exchange(e, drv.w.turn(|drv.sent|), PipeOf(drv.w, |drv.sent|));
    }

    /** ctrlOp: the encoding of the ADD_DEV that was believed to succeed. */
    function CtrlOp(cmd: nat): nat
      reads this
    {
      if useIoctl then IoctlOp(cmd) else cmd
    }

    /** ctrlCommand and the error it returns. */
    method Issue(e: CtrlSqe) returns (st: Status)
      requires Valid() && Open() < CTRL_ENTRIES
      modifies drv, ring, ring.sqArray, ring.sqes, ring.cqes
      ensures Valid() && drv.sent == old(drv.sent) + [e]
      ensures st == StatusAt(drv.w, |old(drv.sent)|)
      ensures Open() == old(Open()) + if OutcomeAt(drv.w, |old(drv.sent)|).Answered? then 0 else 1
    {
      OneAnswer(drv.w, |drv.sent|);
      var out := CtrlCommand(e);
      return StatusOf(out);
    }

    /** setParams, startDev, stopDev and delDev, as far as the ring is concerned. */
    method Command(cmd: nat) returns (st: Status)
      requires Valid() && Open() < CTRL_ENTRIES
      modifies drv, ring, ring.sqArray, ring.sqes, ring.cqes
      ensures Valid() && drv.sent == old(drv.sent) + [CtrlSqe(if useIoctl then 0xC020_7500 + cmd else cmd, id % WORD)]
      ensures st == StatusAt(drv.w, |old(drv.sent)|)
      ensures Open() == old(Open()) + if OutcomeAt(drv.w, |old(drv.sent)|).Answered? then 0 else 1
    {
      st := Issue(CtrlSqe(CtrlOp(cmd), id % WORD));
    }

    /** One ADD_DEV; a success is recorded with the encoding it was sent in. */
    method Attempt(ioctl: bool) returns (st: Status)
      requires Valid() && Open() < CTRL_ENTRIES
      modifies this, drv, ring, ring.sqArray, ring.sqes, ring.cqes
      ensures Valid() && drv.sent == old(drv.sent) + [AddSqe(ioctl)]
      ensures st == StatusAt(drv.w, |old(drv.sent)|)
      ensures Open() == old(Open()) + if OutcomeAt(drv.w, |old(drv.sent)|).Answered? then 0 else 1
      ensures id == (if st.Fine? then drv.w.id else old(id))
      ensures useIoctl == if st.Fine? then ioctl else old(useIoctl)
    {
      st := Issue(AddSqe(ioctl));
      if st.Fine? {
        useIoctl, id := ioctl, drv.w.id;
      }
    }

    /** addDev: the ioctl-encoded ADD_DEV, then the legacy one if that returns an error. */
    method AddDev() returns (st: Status)
      requires Valid() && |drv.sent| == 0 && id == -1 && !useIoctl
      modifies this, drv, ring, ring.sqArray, ring.sqes, ring.cqes
      ensures Valid() && id == (if st.Fine? then drv.w.id else -1)
      ensures useIoctl == (StatusAt(drv.w, 0) == Fine)
      ensures st == AddStatus(drv.w) && drv.sent == old(drv.sent) + AddCommands(drv.w)
    {
      st := Attempt(true);
      if st.Failed? {
        st := Attempt(false);
      }
    }
  }

  function Clamp(x: nat, lo: nat, hi: nat): (r: nat)
    requires lo <= hi
    ensures lo <= r <= hi
  {
    if x <= lo then lo else if x <= hi then x else hi
  }

  /** What a wait does, in terms of the completions posted when it looks. */
  lemma AwaitIsNext(p: Pipe, t: Turn)
    requires Ordered(p) && !t.enter.Fails?
    ensures var taken := TakenBy(p, t);
            var to := Clamp(t.posted, p.posted, taken);
            var ok := p.read < (if t.waitFails then to else taken);
            && Next(p, t) == Pipe(taken, if ok && p.read == to then to + 1 else to, if ok then p.read + 1 else p.read)
            && Reads(p, t) == ok
  {
  }

  lemma CqesPush(ran: seq<Ran>, from: nat, to: nat)
    requires from <= to < |ran|
    ensures Cqes(ran[from..to + 1]) == Cqes(ran[from..to]) + [CqeOf(ran[to])]
  {
  }

  lemma CqesPop(ran: seq<Ran>)
    ensures ran != [] ==> Cqes(ran)[1..] == Cqes(ran[1..]) && Cqes(ran)[0] == CqeOf(ran[0])
  {
  }
}
