/**
 The data plane as a step system: the worker thread running `worker.run`, the
 kernel, and the closing thread. Every interleaving of their steps is a run.

 The kernel is an environment. It consumes published entries only inside
 io_uring_enter, oldest first, at most the requested number and possibly fewer;
 it posts one completion per consumed entry, with the same user data, after
 writing the tag's descriptor and write payload; it copies read data out of
 the tag's buffer when it consumes the commit.
 */
module Protocol {
  import opened SubmissionQueue
  import opened Disk
  import opened Requests
  import Ring

  datatype Config = Config(
    depth: nat, sqEntries: nat, cqEntries: nat, bufSize: nat, limits: Limits, caps: Caps)

  predicate ValidConfig(c: Config) {
    && 1 <= c.depth <= 4096
    && c.depth <= c.sqEntries <= c.cqEntries
    && 0 < c.bufSize
    && Sound(c.limits, c.bufSize)
  }

  datatype IoOp = FetchReq | CommitAndFetchReq

  /** A submission entry of the worker: user data and the embedded ublksrv_io_cmd. */
  datatype IoSqe = IoSqe(op: IoOp, userData: nat, qid: nat, tag: nat, result: int, addr: nat)

  type Cqe = Ring.Cqe

  /** A tag held by the kernel: waiting for a request, or its descriptor is written. */
  datatype KernelTag = Armed(addr: nat) | Filled(addr: nat)

  /** A request between dispatch and commit. */
  datatype Request = Request(id: nat, desc: IoDesc, payload: seq<byte>)

  /** The device's external history. */
  datatype Event = Invoked(id: nat, op: Op) | Replied(id: nat, reply: Reply)

  datatype Reason = Cancelled | EpollError | SubmitError | FetchError | Aborted(first: bool)

  /** Where the worker stands in `run`. */
  datatype Pc =
    | SubmitFetch                    // SubmitAndWait of the FETCH entries
    | Enter(left: nat, fetch: bool)  // inside io_uring_enter; `left` entries may still be taken
    | WaitCheck                      // WaitCQE: about to test the cancel flag
    | WaitLoad                       // WaitCQE: flag was clear, about to load head and tail
    | EpollWait                      // WaitCQE: blocked
    | Got(first: bool)               // holds the oldest completion; `first` of its batch
    | Serve(tag: nat)                // about to call handleIO
    | Commit(tag: nat, result: int)  // about to call prepareCommitAndFetch
    | Peek                           // about to look for another completion
    | SubmitLoop                     // about to call Submit
    | Done(reason: Reason, hand: seq<nat>)

  /** The closing thread, in Device.shutdown. */
  datatype Closer = Idle | FlagStored | Waiting | Released

  datatype State = State(
    sq: Sq<IoSqe>, cq: seq<Cqe>, overflowed: bool,
    kern: map<nat, KernelTag>, inflight: map<nat, Request>,
    descs: seq<IoDesc>, pool: seq<byte>, disk: seq<byte>,
    pc: Pc, cancelled: bool, signalled: bool, closer: Closer,
    // history, read by no step: the external events, the requests in the order
    // handleIO served them, and where in the history each was served
    nextId: nat, hist: seq<Event>, served: seq<Effect>, points: seq<nat>)

  datatype Wake = Interrupted | RingReady | CancelReady | EpollFailed

  datatype Label =
    // the worker
    | Flush | EnterReturn(ok: bool) | Check | Load | Epoll(wake: Wake)
    | Take | HandleIO(out: Outcome) | PrepareCommit | PeekCQE
    // the kernel
    | Consume | Dispatch(tag: nat, desc: IoDesc, payload: seq<byte>) | Post(tag: nat)
    | Abort(tag: nat, res: int)
    // the closing thread
    | StoreFlag | RaiseEventFd | Release

  predicate IsWorker(l: Label) {
    l.Flush? || l.EnterReturn? || l.Check? || l.Load? || l.Epoll? || l.Take?
    || l.HandleIO? || l.PrepareCommit? || l.PeekCQE?
  }

  function BufferAddr(c: Config, tag: nat): nat { tag * c.bufSize }

  function FetchSqe(c: Config, tag: nat): IoSqe {
    IoSqe(FetchReq, tag, 0, tag, 0, BufferAddr(c, tag))
  }

  function CommitSqe(c: Config, tag: nat, result: int): IoSqe {
    IoSqe(CommitAndFetchReq, tag, 0, tag, result, BufferAddr(c, tag))
  }

  /** The part of the pool that belongs to a tag. */
  predicate HasBuffer(c: Config, s: State, tag: nat) {
    tag < |s.descs| && BufferAddr(c, tag) + c.bufSize <= |s.pool|
  }

  function Buffer(c: Config, s: State, tag: nat): seq<byte>
    requires HasBuffer(c, s, tag)
  {
    s.pool[BufferAddr(c, tag)..BufferAddr(c, tag) + c.bufSize]
  }

  /** The completion is posted, or lost when the queue is full. */
  function PostCqe(c: Config, s: State, e: Cqe): State {
    if |s.cq| < c.cqEntries then s.(cq := s.cq + [e]) else s.(overflowed := true)
  }

  /** What the requester gets when the kernel consumes the commit. */
  function ReplyOf(s: State, r: Request, e: IoSqe): Reply {
    Reply(e.result,
          if OpCode(r.desc) == OP_READ && 0 <= e.result && e.addr + e.result <= |s.pool|
          then s.pool[e.addr..e.addr + e.result] else [])
  }

  predicate Enabled(c: Config, s: State, l: Label) {
    match l
    case Flush => s.pc.SubmitFetch? || s.pc.SubmitLoop?
    case EnterReturn(_) => s.pc.Enter?
    case Check => s.pc.WaitCheck?
    case Load => s.pc.WaitLoad?
    case Epoll(w) =>
      s.pc.EpollWait? && (w.RingReady? ==> s.cq != []) && (w.CancelReady? ==> s.signalled)
    case Take => s.pc.Got? && s.cq != []
    case HandleIO(out) =>
      && s.pc.Serve? && HasBuffer(c, s, s.pc.tag)
      && Allowed(c.caps, c.bufSize, s.descs[s.pc.tag], Buffer(c, s, s.pc.tag), s.disk, out)
    case PrepareCommit => s.pc.Commit? && c.sqEntries > 0
    case PeekCQE => s.pc.Peek?
    case Consume => s.pc.Enter? && s.pc.left > 0 && s.sq.published != []
    case Dispatch(tag, desc, payload) =>
      && tag in s.kern && s.kern[tag].Armed? && tag < |s.descs| && Advertised(c.limits, desc)
      && |payload| == (if OpCode(desc) == OP_WRITE then Length(desc) else 0)
      && s.kern[tag].addr + |payload| <= |s.pool|
    case Post(tag) => tag in s.kern && s.kern[tag].Filled?
    case Abort(tag, res) => tag in s.kern && res < 0
    case StoreFlag => s.closer.Idle?
    case RaiseEventFd => s.closer.FlagStored?
    case Release => s.closer.Waiting? && s.pc.Done?
  }

  function Step(c: Config, s: State, l: Label): State
    requires Enabled(c, s, l)
  {
    match l
    case Flush => StepFlush(s)
    case EnterReturn(ok) => StepEnterReturn(s, ok)
    case Check => StepCheck(s)
    case Load => StepLoad(s)
    case Epoll(w) => StepEpoll(s, w)
    case Take => StepTake(s)
    case HandleIO(out) => StepHandleIO(c, s, out)
    case PrepareCommit => StepPrepareCommit(c, s)
    case PeekCQE => StepPeek(s)
    case Consume => StepConsume(s)
    case Dispatch(tag, desc, payload) => StepDispatch(s, tag, desc, payload)
    case Post(tag) => StepPost(c, s, tag, 0)
    case Abort(tag, res) => StepPost(c, s, tag, res)
    case StoreFlag => s.(cancelled := true, closer := FlagStored)
    case RaiseEventFd => s.(signalled := true, closer := Waiting)
    case Release => s.(closer := Released)
  }

  function StepFlush(s: State): State {
    var n := FlushCount(s.sq);
    if n == 0 && s.pc.SubmitLoop? then s.(pc := WaitCheck)
    else s.(sq := SubmissionQueue.Flush(s.sq), pc := Enter(n, s.pc.SubmitFetch?))
  }

  function StepEnterReturn(s: State, ok: bool): State
    requires s.pc.Enter?
  {
    if ok then s.(pc := WaitCheck)
    else s.(pc := Done(if s.pc.fetch then FetchError else SubmitError, []))
  }

  function StepCheck(s: State): State {
    s.(pc := if s.cancelled then Done(Cancelled, []) else WaitLoad)
  }

  function StepLoad(s: State): State {
    s.(pc := if s.cq != [] then Got(true) else EpollWait)
  }

  function StepEpoll(s: State, w: Wake): State {
    s.(pc := match w
             case Interrupted => WaitCheck
             case RingReady => WaitCheck
             case CancelReady => Done(Cancelled, [])
             case EpollFailed => Done(EpollError, []))
  }

  /** Copy tag and result out of the slot, then SeenCQE. */
  function StepTake(s: State): State
    requires s.pc.Got? && s.cq != []
  {
    var tag := s.cq[0].userData % 0x1_0000;
    s.(cq := s.cq[1..],
       pc := if s.cq[0].res < 0 then Done(Aborted(s.pc.first), [tag]) else Serve(tag))
  }

  function StepPrepareCommit(c: Config, s: State): State
    requires s.pc.Commit? && c.sqEntries > 0
  {
    s.(sq := Stage(s.sq, c.sqEntries, CommitSqe(c, s.pc.tag, s.pc.result)), pc := Peek)
  }

  function StepPeek(s: State): State {
    s.(pc := if s.cq != [] then Got(false) else SubmitLoop)
  }

  function StepDispatch(s: State, tag: nat, desc: IoDesc, payload: seq<byte>): State
    requires tag in s.kern && tag < |s.descs| && s.kern[tag].addr + |payload| <= |s.pool|
  {
    s.(descs := s.descs[tag := desc],
       pool := Splice(s.pool, s.kern[tag].addr, payload),
       kern := s.kern[tag := Filled(s.kern[tag].addr)],
       inflight := s.inflight[tag := Request(s.nextId, desc, payload)],
       nextId := s.nextId + 1,
       hist := s.hist + [Invoked(s.nextId, Meaning(desc, payload))])
  }

  function StepPost(c: Config, s: State, tag: nat, res: int): State {
    PostCqe(c, s.(kern := s.kern - {tag}), Ring.Cqe(tag, res))
  }

  /** handleIO on the tag in the worker's hand. */
  function ServedBy(c: Config, s: State, out: Outcome): (r: Served)
    requires Enabled(c, s, HandleIO(out))
    ensures |r.buf| == c.bufSize && |r.disk| == |s.disk|
  {
    Requests.HandleIO(c.caps, c.bufSize, s.descs[s.pc.tag], Buffer(c, s, s.pc.tag), s.disk, out)
  }

  function StepHandleIO(c: Config, s: State, out: Outcome): State
    requires Enabled(c, s, HandleIO(out))
  {
    var tag := s.pc.tag;
    var desc := s.descs[tag];
    var r := ServedBy(c, s, out);
    var done := s.(pool := Splice(s.pool, BufferAddr(c, tag), r.buf), disk := r.disk,
                   pc := Commit(tag, r.result));
    if tag in s.inflight then
      var req := s.inflight[tag];
      done.(served := s.served + [Effect(req.id, Meaning(desc, req.payload),
                                         Reply(r.result, DataOf(desc, r.result, r.buf)))],
            points := s.points + [|s.hist|])
    else done
  }

  function StepConsume(s: State): State
    requires s.pc.Enter? && s.pc.left > 0 && s.sq.published != []
  {
    var e := s.sq.published[0];
    var armed := s.(sq := SubmissionQueue.Consume(s.sq, 1), pc := Enter(s.pc.left - 1, s.pc.fetch),
                    kern := s.kern[e.tag := Armed(e.addr)]);
    if e.op == CommitAndFetchReq && e.tag in s.inflight then
      armed.(inflight := s.inflight - {e.tag},
             hist := s.hist + [Replied(s.inflight[e.tag].id, ReplyOf(s, s.inflight[e.tag], e))])
    else armed
  }

  /** The entries `init` stages: prepareFetch for tags 0..n-1, dropping what does not fit. */
  function FetchQueue(c: Config, n: nat): Sq<IoSqe>
    requires c.sqEntries > 0
  {
    if n == 0 then Empty() else Stage(FetchQueue(c, n - 1), c.sqEntries, FetchSqe(c, n - 1))
  }

  function BlankDescs(n: nat): (r: seq<IoDesc>)
    ensures |r| == n
  {
    seq(n, _ => IoDesc(0, 0, 0))
  }

  /** The state `init` leaves behind, over an initial disk. */
  function Init(c: Config, disk: seq<byte>): State
    requires c.sqEntries > 0
  {
    State(FetchQueue(c, c.depth), [], false, map[], map[],
          BlankDescs(c.depth), Zeros(c.depth * c.bufSize), disk,
          SubmitFetch, false, false, Idle, 0, [], [], [])
  }

  /** The labels can be taken one after the other. */
  predicate IsRun(c: Config, s: State, ls: seq<Label>)
    decreases |ls|
  {
    ls == [] || (Enabled(c, s, ls[0]) && IsRun(c, Step(c, s, ls[0]), ls[1..]))
  }

  function Exec(c: Config, s: State, ls: seq<Label>): State
    requires IsRun(c, s, ls)
    decreases |ls|
  {
    if ls == [] then s else Exec(c, Step(c, s, ls[0]), ls[1..])
  }

  ghost predicate Reachable(c: Config, disk: seq<byte>, s: State)
    requires c.sqEntries > 0
  {
    exists ls :: IsRun(c, Init(c, disk), ls) && Exec(c, Init(c, disk), ls) == s
  }

  lemma {:induction false} RunAppend(c: Config, s: State, ls: seq<Label>, l: Label)
    requires IsRun(c, s, ls) && Enabled(c, Exec(c, s, ls), l)
    ensures IsRun(c, s, ls + [l]) && Exec(c, s, ls + [l]) == Step(c, Exec(c, s, ls), l)
    decreases |ls|
  {
    if ls == [] {
      assert (ls + [l])[1..] == [];
      assert IsRun(c, Step(c, s, l), []);
    } else {
      assert (ls + [l])[1..] == ls[1..] + [l];
      RunAppend(c, Step(c, s, ls[0]), ls[1..], l);
    }
  }

  /** A step from a reachable state leads to a reachable state. */
  lemma Reach(c: Config, disk: seq<byte>, s: State, l: Label) returns (s': State)
    requires c.sqEntries > 0 && Reachable(c, disk, s) && Enabled(c, s, l)
    ensures s' == Step(c, s, l) && Reachable(c, disk, s')
  {
    var ls :| IsRun(c, Init(c, disk), ls) && Exec(c, Init(c, disk), ls) == s;
    RunAppend(c, Init(c, disk), ls, l);
    s' := Step(c, s, l);
  }
}
