/**
 The worker as it runs: nested loops over the ring's arrays, the mapped
 descriptors and the buffer pool, changed in place. Whatever the kernel and the
 closing thread do between its steps, it only passes through reachable states
 of the step system, so the theorems about those hold of it.
 */
module Worker {
  import opened Bits
  import opened SubmissionQueue
  import opened Disk
  import opened Requests
  import opened Protocol
  import opened Turns
  import Ring
  import Layout
  import Tokens
  import Shutdown
  import DataPlane
  import Linearizability

  /** How a loop of the worker ended: with what it was after, with `run` returning, or out of turns. */
  datatype Status = Ready | Stopped | CutOff

  class Worker {
    const c: Config
    ghost const d0: seq<byte>
    const ring: Ring.Ring<IoSqe>
    const descs: array<byte>   // the mapped descriptor records
    const pool: array<byte>
    var disk: seq<byte>     // the backend's contents
    var calls: seq<Call>    // the calls made to it

    // The state of the step system. Other threads' steps read it to see what
    // they may do; the worker's own code never does.
    var s: State

    ghost predicate Coupled()
      reads this, ring, ring.sqArray, ring.sqes, ring.cqes, descs, pool
    {
      && ring.Valid() && ring.sqEntries == c.sqEntries && ring.cqEntries == c.cqEntries
      && ring.Sq() == s.sq && ring.Cq() == s.cq
      && ring.cancelled == s.cancelled && ring.signalled == s.signalled
      && Layout.Mapped(descs[..], s.descs) && pool[..] == s.pool && disk == s.disk
    }

    ghost predicate Apart()
      reads this, ring
    {
      && pool as object != ring.sqArray && pool as object != ring.sqes && pool as object != ring.cqes
      && descs as object != ring.sqArray && descs as object != ring.sqes && descs as object != ring.cqes
      && pool != descs
    }

    ghost predicate Valid()
      reads this, ring, ring.sqArray, ring.sqes, ring.cqes, descs, pool
    {
      && ValidConfig(c) && |d0| == c.limits.size
      && Coupled() && Apart()
      && Reachable(c, d0, s)
    }

    /** The ring is new and nothing has been staged. */
    ghost predicate Blank()
      reads this, ring, ring.sqArray, ring.sqes, ring.cqes, descs, pool
    {
      && c.sqEntries > 0 && Apart()
      && ring.Valid() && ring.sqEntries == c.sqEntries && ring.cqEntries == c.cqEntries
      && ring.Sq() == Empty() && ring.Cq() == [] && !ring.cancelled && !ring.signalled
      && s == Init(c, d0) && Layout.Mapped(descs[..], s.descs) && pool[..] == s.pool && disk == d0
    }

    constructor (c: Config, ring: Ring.Ring<IoSqe>, descs: array<byte>, pool: array<byte>, disk: seq<byte>)
      requires c.sqEntries > 0
      ensures this.c == c && this.ring == ring && this.descs == descs && this.pool == pool
      ensures this.disk == disk && d0 == disk && s == Init(c, disk) && calls == []
    {
      this.c, this.ring, this.descs, this.pool := c, ring, descs, pool;
      this.disk, d0, s, calls := disk, disk, Init(c, disk), [];
    }

    /** The rest of init: one FETCH entry per tag. */
    method Prepare()
      requires Blank() && ValidConfig(c) && |d0| == c.limits.size
      modifies ring, ring.sqes
      ensures Valid() && s == Init(c, d0)
    {
      StageFetches();
      InitReachable(c, d0);
    }

    /** The FETCH loop of init. */
    method StageFetches()
      requires ring.Valid() && ring.sqEntries == c.sqEntries && ValidConfig(c) && ring.Sq() == Empty()
      modifies ring, ring.sqes
      ensures ring.Valid() && ring.Sq() == FetchQueue(c, c.depth)
      ensures ring.Cq() == old(ring.Cq())
      ensures ring.cancelled == old(ring.cancelled) && ring.signalled == old(ring.signalled)
    {
      SmallPow2(ring.sqShift);
      var tag := 0;
      while tag < c.depth
        invariant tag <= c.depth && ring.Valid()
        invariant ring.Sq() == FetchQueue(c, tag) && ring.Cq() == old(ring.Cq())
        invariant ring.cancelled == old(ring.cancelled) && ring.signalled == old(ring.signalled)
        modifies ring, ring.sqes
      {
        Tokens.FetchQueueIs(c, tag);
        PrepareFetch(tag);
        tag := tag + 1;
      }
    }

    /** The entry as the kernel reads it, with the command copied into it byte by byte. */
    method Entry(op: IoOp, tag: nat, result: int) returns (e: IoSqe)
      requires ValidConfig(c) && tag < c.depth && IsInt32(result)
      ensures e == IoSqe(op, tag, 0, tag, result, BufferAddr(c, tag))
    {
      var cmd := Layout.IoCmd(0, tag, result, BufferAddr(c, tag));
      AddressFits(c, tag);
      Layout.CmdRoundTrip(cmd);
      e := SqeOf(op, tag, Layout.CmdBytes(cmd));
    }

    /** prepareFetch; an entry that does not fit is silently dropped. */
    method PrepareFetch(tag: nat)
      requires ring.Valid() && ring.sqEntries == c.sqEntries && ValidConfig(c) && tag < c.depth
      requires |ring.Sq().published| + |ring.Sq().staged| + 1 < WORD
      modifies ring, ring.sqes
      ensures ring.Valid() && ring.Sq() == Stage(old(ring.Sq()), c.sqEntries, FetchSqe(c, tag))
      ensures ring.Cq() == old(ring.Cq())
      ensures ring.cancelled == old(ring.cancelled) && ring.signalled == old(ring.signalled)
    {
      var e := Entry(FetchReq, tag, 0);
      var _ := ring.Enqueue(e);
    }

    /**
     handleIO: read the descriptor, call the backend on the tag's buffer, and
     turn its answer into a result. `out` is what the backend does if called.
     */
    method HandleIO(tag: nat, out: Outcome, ghost d: IoDesc, ghost buf: seq<byte>) returns (result: int)
      requires Layout.RecordIs(descs[..], tag, d) && BufferAddr(c, tag) + c.bufSize <= pool.Length
      requires buf == pool[BufferAddr(c, tag)..BufferAddr(c, tag) + c.bufSize]
      requires Allowed(c.caps, c.bufSize, d, buf, disk, out)
      modifies pool, this`disk, this`calls
      ensures var r := Requests.HandleIO(c.caps, c.bufSize, d, buf, old(disk), out);
              && result == r.result && disk == r.disk
              && pool[..] == Splice(old(pool[..]), BufferAddr(c, tag), r.buf)
      ensures IsInt32(result)
      ensures var plan := PlanOf(c.caps, c.bufSize, d);
              calls == old(calls) + if plan.Invoke? then [plan.call] else []
    {
      var desc := GetDesc(tag);
      var op := And(desc.opFlags, 0xFF);
      var offset := AsInt64(desc.startSector * SECTOR);
      var length := desc.nrSectors * SECTOR;
      ghost var a := BufferAddr(c, tag);
      SpliceSame(pool[..], a, c.bufSize);
      if op == OP_READ {
        if length == 0 { return 0; }
        if length > c.bufSize { return -EIO; }
        result := CallBackend(tag, Call.ReadAt(offset, length), out);
      } else if op == OP_WRITE {
        if length == 0 { return 0; }
        if length > c.bufSize { return -EIO; }
        result := CallBackend(tag, Call.WriteAt(offset, length), out);
      } else if op == OP_DISCARD {
        if !c.caps.discard { return -EOPNOTSUPP; }
        if length == 0 { return 0; }
        result := CallBackend(tag, Call.DiscardAt(offset, length), out);
      } else if op == OP_WRITE_ZEROES {
        if !c.caps.zero { return -EOPNOTSUPP; }
        if length == 0 { return 0; }
        var noUnmap := And(desc.opFlags, FLAG_NO_UNMAP) != 0;
        result := CallBackend(tag, Call.WriteZeroesAt(offset, length, noUnmap), out);
      } else {
        return -EOPNOTSUPP;
      }
    }

    /** getDesc: the record at the tag's place in the mapping. */
    method GetDesc(tag: nat) returns (desc: IoDesc)
      requires (tag + 1) * Layout.DESC_SIZE <= descs.Length
      ensures desc == Layout.GetDesc(descs[..], tag)
    {
      var a := tag * Layout.DESC_SIZE;
      assert descs[..][a..a + Layout.DESC_SIZE] == descs[a..a + Layout.DESC_SIZE];
      desc := Layout.ParseDesc(descs[a..a + Layout.DESC_SIZE]);
    }

    /** The backend is called and does `out`; a short count or an error is a failure. */
    method CallBackend(tag: nat, call: Call, out: Outcome) returns (result: int)
      requires BufferAddr(c, tag) + c.bufSize <= pool.Length && (call.ReadAt? ==> call.len <= c.bufSize)
      requires var a := BufferAddr(c, tag);
               Honest(disk, call, PayloadOf(Invoke(call), pool[a..a + c.bufSize]), out)
      modifies pool, this`disk, this`calls
      ensures result == ResultOf(call, out) && IsInt32(result) && calls == old(calls) + [call]
      ensures var a := BufferAddr(c, tag);
              if call.ReadAt?
              then disk == old(disk)
                   && pool[..] == Splice(old(pool[..]), a, out.buf + old(pool[a..a + c.bufSize])[call.len..])
              else disk == out.disk && pool[..] == old(pool[..])
    {
      calls := calls + [call];
      if call.ReadAt? {
        SplicePrefix(pool[..], BufferAddr(c, tag), out.buf, c.bufSize);
        WriteBytes(pool, BufferAddr(c, tag), out.buf);
      } else {
        disk := out.disk;
      }
      if out.err || out.n != call.len { return -EIO; }
      return AsInt32(out.n);
    }

    // -------------------------------------------------------------------
    // Other threads

    /** The kernel takes one published entry. */
    method Consumed()
      requires Valid() && Enabled(c, s, Consume)
      modifies this`s, ring
      ensures Valid() && s == Step(c, old(s), Consume)
    {
      Tokens.TokensAreConserved(c, d0, s);
      ghost var s' := Reach(c, d0, s, Consume);
      ConsumedState(s);
      var _ := ring.KernelConsume(1);
      s := Step(c, s, Consume);
    }

    /** The kernel posts a completion. */
    method Posted(tag: nat, res: int, l: Label)
      requires Valid() && Enabled(c, s, l) && (l == Abort(tag, res) || (l == Post(tag) && res == 0))
      modifies this`s, ring, ring.cqes
      ensures Valid() && s == Step(c, old(s), l)
    {
      ghost var s' := Reach(c, d0, s, l);
      Tokens.CompletionQueueNeverOverflows(c, d0, s);
      var _ := ring.KernelPost(Ring.Cqe(tag, res));
      s := Step(c, s, l);
    }

    /** The kernel writes a request's descriptor and payload. */
    method Dispatched(tag: nat, desc: IoDesc, payload: seq<byte>)
      requires Valid() && Enabled(c, s, Dispatch(tag, desc, payload))
      modifies this`s, descs, pool
      ensures Valid() && s == Step(c, old(s), Dispatch(tag, desc, payload))
    {
      ghost var s' := Reach(c, d0, s, Dispatch(tag, desc, payload));
      AdvertisedFits(c, desc);
      Layout.PutKeepsMapped(descs[..], s.descs, tag, desc, s.kern[tag].addr);
      WriteBytes(pool, s.kern[tag].addr, payload);
      WriteBytes(descs, tag * Layout.DESC_SIZE, Layout.DescBytes(desc, s.kern[tag].addr));
      s := Step(c, s, Dispatch(tag, desc, payload));
    }

    /** The closing thread. */
    method Closing(l: Label)
      requires Valid() && Enabled(c, s, l) && (l.StoreFlag? || l.RaiseEventFd? || l.Release?)
      modifies this`s, ring`cancelled, ring`signalled
      ensures Valid() && s == Step(c, old(s), l)
    {
      ghost var s' := Reach(c, d0, s, l);
      ClosingState(c, s, l);
      ring.Mark(l.StoreFlag?, l.RaiseEventFd?);
      s := Step(c, s, l);
    }

    /** One step of another thread, if it can be taken. */
    method Interfere(l: Label)
      requires Valid()
      modifies this`s, ring, ring.cqes, descs, pool
      ensures Valid() && s == Other(c, old(s), l)
    {
      if IsWorker(l) || !Enabled(c, s, l) { return; }
      if l.Consume? {
        Consumed();
      } else if l.Dispatch? {
        Dispatched(l.tag, l.desc, l.payload);
      } else if l.Post? {
        Posted(l.tag, 0, l);
      } else if l.Abort? {
        Posted(l.tag, l.res, l);
      } else {
        Closing(l);
      }
    }

    /** Everything the other threads do before the worker's next step. */
    method Before(ls: seq<Label>)
      requires Valid()
      modifies this`s, ring, ring.cqes, descs, pool
      ensures Valid() && s == Others(c, old(s), ls) && SamePlace(old(s.pc), s.pc)
    {
      assert ls[0..] == ls;
      for i := 0 to |ls|
        invariant Valid() && Others(c, s, ls[i..]) == Others(c, old(s), ls) && SamePlace(old(s.pc), s.pc)
      {
        assert ls[i..][0] == ls[i] && ls[i..][1..] == ls[i + 1..];
        OtherKeepsPlace(c, s, ls[i]);
        Interfere(ls[i]);
      }
    }

    // -------------------------------------------------------------------
    // The worker's own steps, each on the concrete ring and buffers

    /** flushSQ, and whether io_uring_enter follows. */
    method DoFlush() returns (count: nat)
      requires Valid() && (s.pc.SubmitFetch? || s.pc.SubmitLoop?)
      modifies this`s, ring, ring.sqArray
      ensures Valid() && s == Step(c, old(s), Label.Flush)
      ensures count == FlushCount(old(s).sq)
    {
      ghost var s' := Reach(c, d0, s, Label.Flush);
      Tokens.TokensAreConserved(c, d0, s);
      FlushOfNothing(s.sq);
      count := ring.FlushSQ();
      s := Step(c, s, Label.Flush);
    }

    /** io_uring_enter returns. */
    method DoEnterReturn(ok: bool)
      requires Valid() && s.pc.Enter?
      modifies this`s
      ensures Valid() && s == Step(c, old(s), EnterReturn(ok))
    {
      ghost var s' := Reach(c, d0, s, EnterReturn(ok));
      s := Step(c, s, EnterReturn(ok));
    }

    /** The flag test at the top of WaitCQE. */
    method DoCheck() returns (cancelled: bool)
      requires Valid() && s.pc.WaitCheck?
      modifies this`s
      ensures Valid() && s == Step(c, old(s), Check) && cancelled == old(s).cancelled
    {
      ghost var s' := Reach(c, d0, s, Check);
      cancelled := ring.cancelled;
      s := Step(c, s, Check);
    }

    /** WaitCQE loads head and tail. */
    method DoLoad() returns (ready: bool)
      requires Valid() && s.pc.WaitLoad?
      modifies this`s
      ensures Valid() && s == Step(c, old(s), Load) && ready == (old(s).cq != [])
    {
      ghost var s' := Reach(c, d0, s, Load);
      var slot := ring.PeekCQE();
      ready := slot >= 0;
      s := Step(c, s, Load);
    }

    /** epoll_wait returns, unless it has nothing to report. */
    method DoEpoll(w: Wake) returns (woken: bool)
      requires Valid() && s.pc.EpollWait?
      modifies this`s
      ensures Valid()
      ensures woken == Enabled(c, old(s), Epoll(w))
      ensures s == if woken then Step(c, old(s), Epoll(w)) else old(s)
    {
      var slot := ring.PeekCQE();
      woken := (w.RingReady? ==> slot >= 0) && (w.CancelReady? ==> ring.signalled);
      if woken {
        ghost var s' := Reach(c, d0, s, Epoll(w));
        s := Step(c, s, Epoll(w));
      }
    }

    /** Copy tag and result out of the oldest completion, then SeenCQE. */
    method DoTake() returns (tag: nat, res: int)
      requires Valid() && s.pc.Got?
      modifies this`s, ring
      ensures Valid() && old(s).cq != [] && s == Step(c, old(s), Take)
      ensures tag == old(s).cq[0].userData % 0x1_0000 && res == old(s).cq[0].res
    {
      Tokens.TokensAreConserved(c, d0, s);
      ghost var s' := Reach(c, d0, s, Take);
      var slot := ring.PeekCQE();
      tag := ring.cqes[slot].userData % 0x1_0000;
      res := ring.cqes[slot].res;
      ring.SeenCQE();
      s := Step(c, s, Take);
    }

    /** handleIO on the tag in hand, the backend answering with `out`. */
    method DoHandleIO(tag: nat, out: Outcome) returns (result: int)
      requires Valid() && s.pc == Protocol.Serve(tag) && Enabled(c, s, Label.HandleIO(out))
      modifies this`s, this`disk, this`calls, pool
      ensures Valid() && s == Step(c, old(s), Label.HandleIO(out)) && s.pc == Commit(tag, result)
      ensures IsInt32(result)
    {
      ghost var s' := Reach(c, d0, s, Label.HandleIO(out));
      HandledState(c, s, out);
      ghost var r := ServedBy(c, s, out);
      assert Layout.RecordIs(descs[..], tag, s.descs[tag]);
      result := HandleIO(tag, out, s.descs[tag], Buffer(c, s, tag));
      assert result == r.result && disk == r.disk && pool[..] == Splice(s.pool, BufferAddr(c, tag), r.buf);
      Handled(out, result);
    }

    /** Record the step in the state of the system. */
    method Handled(out: Outcome, result: int)
      requires ValidConfig(c) && |d0| == c.limits.size && Apart()
      requires Enabled(c, s, Label.HandleIO(out))
      requires var s' := Step(c, s, Label.HandleIO(out));
               && Reachable(c, d0, s') && s'.pc == Commit(s.pc.tag, result)
               && s'.sq == s.sq && s'.cq == s.cq && s'.cancelled == s.cancelled && s'.signalled == s.signalled
               && Layout.Mapped(descs[..], s'.descs) && pool[..] == s'.pool && disk == s'.disk
      requires ring.Valid() && ring.sqEntries == c.sqEntries && ring.cqEntries == c.cqEntries
      requires ring.Sq() == s.sq && ring.Cq() == s.cq
      requires ring.cancelled == s.cancelled && ring.signalled == s.signalled
      modifies this`s
      ensures Valid() && s == Step(c, old(s), Label.HandleIO(out))
    {
      s := Step(c, s, Label.HandleIO(out));
    }

    /** The backend's answer: `out` if its contract allows it, otherwise a failure. */
    method AskBackend(tag: nat, out: Outcome) returns (o: Outcome)
      requires Valid() && s.pc == Protocol.Serve(tag)
      ensures Enabled(c, s, Label.HandleIO(o))
      ensures HasBuffer(c, s, tag)
      ensures o == Admit(c.caps, c.bufSize, s.descs[tag], Buffer(c, s, tag), s.disk, out)
    {
      HandHasBuffer(c, d0, s);
      var a := tag * c.bufSize;
      assert a == BufferAddr(c, tag) && pool[a..a + c.bufSize] == Buffer(c, s, tag);
      assert Layout.RecordIs(descs[..], tag, s.descs[tag]);
      var desc := GetDesc(tag);
      o := Admit(c.caps, c.bufSize, desc, pool[a..a + c.bufSize], disk, out);
    }

    /** prepareCommitAndFetch; a refused entry would silently drop the tag. */
    method PrepareCommitAndFetch(tag: nat, result: int)
      requires Valid() && s.pc == Commit(tag, result) && IsInt32(result)
      modifies this`s, ring, ring.sqes
      ensures Valid() && s == Step(c, old(s), PrepareCommit)
    {
      ghost var s' := Reach(c, d0, s, PrepareCommit);
      Tokens.TokensAreConserved(c, d0, s);
      Tokens.Count(c, s);
      HeldInRange(c, s, tag);
      var e := Entry(CommitAndFetchReq, tag, result);
      var _ := ring.Enqueue(e);
      s := Step(c, s, PrepareCommit);
    }

    /** PeekCQE at the bottom of the drain loop. */
    method DoPeek() returns (more: bool)
      requires Valid() && s.pc.Peek?
      modifies this`s
      ensures Valid() && s == Step(c, old(s), PeekCQE) && more == (old(s).cq != [])
    {
      ghost var s' := Reach(c, d0, s, PeekCQE);
      var slot := ring.PeekCQE();
      more := slot >= 0;
      s := Step(c, s, PeekCQE);
    }

    // -------------------------------------------------------------------
    // The same as turns: first the other threads, then the step

    method FlushTurn(t: Turn) returns (count: nat)
      requires Valid() && (s.pc.SubmitFetch? || s.pc.SubmitLoop?)
      modifies this`s, ring, ring.sqArray, ring.cqes, descs, pool
      ensures Valid() && s == Play(c, old(s), t)
      ensures if count == 0 && old(s.pc).SubmitLoop? then s.pc.WaitCheck?
              else s.pc.Enter? && s.pc.fetch == old(s.pc).SubmitFetch?
    {
      Before(t.before);
      count := DoFlush();
    }

    method EnterTurn(t: Turn) returns (ok: bool)
      requires Valid() && s.pc.Enter?
      modifies this`s, ring, ring.cqes, descs, pool
      ensures Valid() && s == Play(c, old(s), t)
      ensures s.pc == if ok then WaitCheck else Done(if old(s.pc).fetch then FetchError else SubmitError, [])
    {
      Before(t.before);
      ok := t.enterOk;
      DoEnterReturn(ok);
    }

    method CheckTurn(t: Turn) returns (cancelled: bool)
      requires Valid() && s.pc.WaitCheck?
      modifies this`s, ring, ring.cqes, descs, pool
      ensures Valid() && s == Play(c, old(s), t)
      ensures s.pc == if cancelled then Done(Cancelled, []) else WaitLoad
    {
      Before(t.before);
      cancelled := DoCheck();
    }

    method LoadTurn(t: Turn) returns (ready: bool)
      requires Valid() && s.pc.WaitLoad?
      modifies this`s, ring, ring.cqes, descs, pool
      ensures Valid() && s == Play(c, old(s), t)
      ensures s.pc == if ready then Got(true) else Pc.EpollWait
    {
      Before(t.before);
      ready := DoLoad();
    }

    method EpollTurn(t: Turn) returns (woken: bool)
      requires Valid() && s.pc.EpollWait?
      modifies this`s, ring, ring.cqes, descs, pool
      ensures Valid() && s == Play(c, old(s), t)
      ensures if !woken then s.pc.EpollWait?
              else if t.wake.CancelReady? || t.wake.EpollFailed? then s.pc.Done? else s.pc.WaitCheck?
    {
      Before(t.before);
      woken := DoEpoll(t.wake);
    }

    method TakeTurn(t: Turn) returns (tag: nat, res: int)
      requires Valid() && s.pc.Got?
      modifies this`s, ring, ring.cqes, descs, pool
      ensures Valid() && s == Play(c, old(s), t)
      ensures if res < 0 then s.pc.Done? else s.pc == Protocol.Serve(tag)
    {
      Before(t.before);
      tag, res := DoTake();
    }

    method ServeTurn(tag: nat, t: Turn) returns (result: int)
      requires Valid() && s.pc == Protocol.Serve(tag)
      modifies this`s, this`disk, this`calls, ring, ring.cqes, descs, pool
      ensures Valid() && s == Play(c, old(s), t)
      ensures s.pc == Commit(tag, result) && IsInt32(result)
    {
      Before(t.before);
      var out := AskBackend(tag, t.out);
      result := DoHandleIO(tag, out);
    }

    method CommitTurn(tag: nat, result: int, t: Turn)
      requires Valid() && s.pc == Commit(tag, result) && IsInt32(result)
      modifies this`s, ring, ring.sqes, ring.cqes, descs, pool
      ensures Valid() && s == Play(c, old(s), t) && s.pc.Peek?
    {
      Before(t.before);
      PrepareCommitAndFetch(tag, result);
    }

    method PeekTurn(t: Turn) returns (more: bool)
      requires Valid() && s.pc.Peek?
      modifies this`s, ring, ring.cqes, descs, pool
      ensures Valid() && s == Play(c, old(s), t)
      ensures s.pc == if more then Got(false) else SubmitLoop
    {
      Before(t.before);
      more := DoPeek();
    }

    // -------------------------------------------------------------------
    // run

    /** The worker stands where the first `i` turns, played from `s0`, lead. */
    ghost predicate Played(s0: State, turns: seq<Turn>, i: nat)
      reads this
    {
      i <= |turns| && s == PlayAll(c, s0, turns[..i])
    }

    /** SubmitAndWait of the FETCH entries. */
    method SubmitAndWait(turns: seq<Turn>, ghost s0: State) returns (ok: bool)
      requires Valid() && s.pc.SubmitFetch? && Played(s0, turns, 0) && |turns| >= 2
      modifies this`s, ring, ring.sqArray, ring.cqes, descs, pool
      ensures Valid() && Played(s0, turns, 2)
      ensures s.pc == if ok then WaitCheck else Done(FetchError, [])
    {
      PlayNext(c, s0, turns, 0);
      PlayNext(c, s0, turns, 1);
      var _ := FlushTurn(turns[0]);
      ok := EnterTurn(turns[1]);
    }

    /** Submit: no io_uring_enter when nothing was flushed. */
    method Submit(turns: seq<Turn>, from: nat, ghost s0: State) returns (ok: bool, i: nat)
      requires Valid() && s.pc.SubmitLoop? && Played(s0, turns, from) && from + 2 <= |turns|
      modifies this`s, ring, ring.sqArray, ring.cqes, descs, pool
      ensures Valid() && Played(s0, turns, i) && i > from
      ensures s.pc == if ok then WaitCheck else Done(SubmitError, [])
    {
      PlayNext(c, s0, turns, from);
      PlayNext(c, s0, turns, from + 1);
      var count := FlushTurn(turns[from]);
      if count == 0 { return true, from + 1; }
      ok := EnterTurn(turns[from + 1]);
      i := from + 2;
    }

    /** epoll_wait until something is reported. */
    method EpollWait(turns: seq<Turn>, from: nat, ghost s0: State) returns (i: nat, st: Status)
      requires Valid() && s.pc.EpollWait? && Played(s0, turns, from)
      modifies this`s, ring, ring.cqes, descs, pool
      ensures Valid() && Played(s0, turns, i) && from <= i
      ensures match st
              case Ready => s.pc.WaitCheck?
              case Stopped => s.pc.Done?
              case CutOff => s.pc.EpollWait? && i == |turns|
    {
      i := from;
      while i < |turns|
        invariant Valid() && Played(s0, turns, i) && from <= i && s.pc.EpollWait?
        decreases |turns| - i
      {
        PlayNext(c, s0, turns, i);
        var woken := EpollTurn(turns[i]);
        var w := turns[i].wake;
        i := i + 1;
        if woken {
          return i, if w.CancelReady? || w.EpollFailed? then Stopped else Ready;
        }
      }
      return i, CutOff;
    }

    /** WaitCQE on the worker's ring, other threads running between any two of its loads. */
    method WaitCQE(turns: seq<Turn>, from: nat, ghost s0: State) returns (i: nat, st: Status)
      requires Valid() && s.pc.WaitCheck? && Played(s0, turns, from)
      modifies this`s, ring, ring.cqes, descs, pool
      ensures Valid() && Played(s0, turns, i) && from <= i
      ensures match st
              case Ready => s.pc == Got(true)
              case Stopped => s.pc.Done?
              case CutOff => !s.pc.Done? && |turns| - i < 4
    {
      i := from;
      while i + 2 <= |turns|
        invariant Valid() && Played(s0, turns, i) && from <= i && s.pc.WaitCheck?
        decreases |turns| - i
      {
        PlayNext(c, s0, turns, i);
        PlayNext(c, s0, turns, i + 1);
        var cancelled := CheckTurn(turns[i]);
        if cancelled { return i + 1, Stopped; }
        var ready := LoadTurn(turns[i + 1]);
        i := i + 2;
        if ready { return i, Ready; }
        i, st := EpollWait(turns, i, s0);
        if !st.Ready? { return; }
      }
      return i, CutOff;
    }

    /**
     The drain loop: serve the completion in hand and every further one, until
     none is left or one reports a failure.
     */
    method Drain(turns: seq<Turn>, from: nat, ghost s0: State) returns (i: nat, st: Status)
      requires Valid() && s.pc.Got? && Played(s0, turns, from)
      modifies this`s, this`disk, this`calls, ring, ring.sqes, ring.cqes, descs, pool
      ensures Valid() && Played(s0, turns, i) && from <= i
      ensures match st
              case Ready => s.pc.SubmitLoop?
              case Stopped => s.pc.Done?
              case CutOff => !s.pc.Done? && |turns| - i < 4
    {
      i := from;
      while i + 4 <= |turns|
        invariant Valid() && Played(s0, turns, i) && from <= i && s.pc.Got?
        decreases |turns| - i
      {
        var more;
        i, st, more := DrainOne(turns, i, s0);
        if !more { return; }
      }
      return i, CutOff;
    }

    /** One pass of the drain loop. */
    method DrainOne(turns: seq<Turn>, from: nat, ghost s0: State) returns (i: nat, st: Status, more: bool)
      requires Valid() && s.pc.Got? && Played(s0, turns, from) && from + 4 <= |turns|
      modifies this`s, this`disk, this`calls, ring, ring.sqes, ring.cqes, descs, pool
      ensures Valid() && Played(s0, turns, i) && from < i
      ensures match st
              case Ready => s.pc == if more then Got(false) else SubmitLoop
              case Stopped => s.pc.Done? && !more
              case CutOff => false
    {
      PlayNext(c, s0, turns, from);
      PlayNext(c, s0, turns, from + 1);
      PlayNext(c, s0, turns, from + 2);
      PlayNext(c, s0, turns, from + 3);
      var tag, res := TakeTurn(turns[from]);
      if res < 0 { return from + 1, Stopped, false; }
      var result := ServeTurn(tag, turns[from + 1]);
      CommitTurn(tag, result, turns[from + 2]);
      more := PeekTurn(turns[from + 3]);
      return from + 4, Ready, more;
    }

    /**
     run: the turns are any behaviour of the kernel, the backend and the closing
     thread. The worker plays them one by one and leaves off only when it has
     returned or fewer than four are left, so it stands exactly where the step
     system stands after the turns used. The replies given so far are
     linearizable, no completion was lost, and unless it stopped at a failed
     completion in mid-batch, nothing is left unflushed.
     */
    method Run(turns: seq<Turn>) returns (returned: bool, used: nat)
      requires Valid() && s.pc.SubmitFetch?
      modifies this`s, this`disk, this`calls, ring, ring.sqArray, ring.sqes, ring.cqes, descs, pool
      ensures Valid() && used <= |turns| && s == PlayAll(c, old(s), turns[..used])
      ensures returned <==> s.pc.Done?
      ensures !returned ==> |turns| - used < 4
      ensures Linearizability.Linearizable(c.caps, d0, s.hist)
      ensures !s.overflowed && |ring.Cq()| <= c.depth
      ensures returned ==> (ring.Sq().staged == [] <==> s.pc.reason != Aborted(false))
    {
      returned, used := RunLoop(turns, s);
      DataPlane.EveryRunIsLinearizable(c, d0, s);
      Tokens.CompletionQueueNeverOverflows(c, d0, s);
      if returned {
        Shutdown.EverythingFlushedIff(c, d0, s);
      }
    }

    /** Submit the FETCH entries, then wait, drain and submit for ever. */
    method RunLoop(turns: seq<Turn>, ghost s0: State) returns (returned: bool, i: nat)
      requires Valid() && s.pc.SubmitFetch? && s == s0
      modifies this`s, this`disk, this`calls, ring, ring.sqArray, ring.sqes, ring.cqes, descs, pool
      ensures Valid() && Played(s0, turns, i)
      ensures returned <==> s.pc.Done?
      ensures !returned ==> |turns| - i < 4
    {
      assert turns[..0] == [];
      if |turns| < 2 { return false, 0; }
      var ok := SubmitAndWait(turns, s0);
      i := 2;
      if !ok { return true, i; }
      while i < |turns|
        invariant Valid() && s.pc.WaitCheck? && Played(s0, turns, i)
        decreases |turns| - i
      {
        var st: Status;
        i, st := WaitCQE(turns, i, s0);
        if !st.Ready? { return st.Stopped?, i; }
        i, st := Drain(turns, i, s0);
        if !st.Ready? { return st.Stopped?, i; }
        if i + 2 > |turns| { return false, i; }
        ok, i := Submit(turns, i, s0);
        if !ok { return true, i; }
      }
      return false, i;
    }
  }

  lemma HandledState(c: Config, s: State, out: Outcome)
    requires Enabled(c, s, Label.HandleIO(out))
    ensures var s', r := StepHandleIO(c, s, out), ServedBy(c, s, out);
            && s'.pool == Splice(s.pool, BufferAddr(c, s.pc.tag), r.buf) && s'.disk == r.disk
            && s'.pc == Commit(s.pc.tag, r.result)
            && s'.sq == s.sq && s'.cq == s.cq && s'.cancelled == s.cancelled && s'.signalled == s.signalled
            && s'.descs == s.descs
  {
  }

  predicate IsInt32(x: int) { -0x8000_0000 <= x < 0x8000_0000 }

  /** An entry as the kernel sees it: opcode, user data and the 16 command bytes. */
  function SqeOf(op: IoOp, userData: nat, cmd: seq<byte>): IoSqe
    requires |cmd| == 16
  {
    var x := Layout.ParseCmd(cmd);
    IoSqe(op, userData, x.qid, x.tag, x.result, x.addr)
  }

  lemma AddressFits(c: Config, tag: nat)
    requires ValidConfig(c) && tag < c.depth
    ensures BufferAddr(c, tag) < 0x1_0000_0000_0000_0000 && tag < 0x1_0000
  {
    MulNext(tag, 4096, c.bufSize);
  }

  lemma HeldInRange(c: Config, s: State, tag: nat)
    requires Tokens.Conserved(c, s) && Tokens.Hand(s.pc) == [tag]
    ensures tag < c.depth
  {
    assert tag in multiset(Tokens.Hand(s.pc));
    Tokens.InRange(c, s, tag);
  }

  lemma ClosingState(c: Config, s: State, l: Label)
    requires Enabled(c, s, l) && (l.StoreFlag? || l.RaiseEventFd? || l.Release?)
    ensures var s' := Step(c, s, l);
            && s'.sq == s.sq && s'.cq == s.cq && s'.descs == s.descs && s'.pool == s.pool && s'.disk == s.disk
            && s'.cancelled == (s.cancelled || l.StoreFlag?) && s'.signalled == (s.signalled || l.RaiseEventFd?)
  {
  }

  lemma ConsumedState(s: State)
    requires s.pc.Enter? && s.pc.left > 0 && s.sq.published != []
    ensures var s' := StepConsume(s);
            && s'.sq == SubmissionQueue.Consume(s.sq, 1) && s'.cq == s.cq
            && s'.cancelled == s.cancelled && s'.signalled == s.signalled
            && s'.descs == s.descs && s'.pool == s.pool && s'.disk == s.disk
  {
  }

  lemma FlushOfNothing(q: Sq<IoSqe>)
    requires q.back == 0
    ensures FlushCount(q) == 0 ==> SubmissionQueue.Flush(q) == q
  {
  }

  lemma HandHasBuffer(c: Config, d0: seq<byte>, s: State)
    requires ValidConfig(c) && Reachable(c, d0, s) && s.pc.Serve?
    ensures s.pc.tag < c.depth && HasBuffer(c, s, s.pc.tag)
  {
    Tokens.TokensAreConserved(c, d0, s);
    assert s.pc.tag in multiset(Tokens.Hand(s.pc)) by { assert Tokens.Hand(s.pc) == [s.pc.tag]; }
    Tokens.InRange(c, s, s.pc.tag);
    Tokens.TagHasBuffer(c, s, s.pc.tag);
  }

  /** Copy bytes into an array, in place. */
  method WriteBytes(a: array<byte>, addr: nat, bytes: seq<byte>)
    requires addr + |bytes| <= a.Length
    modifies a
    ensures a[..] == Splice(old(a[..]), addr, bytes)
  {
    var i := 0;
    while i < |bytes|
      invariant i <= |bytes|
      invariant forall k :: 0 <= k < i ==> a[addr + k] == bytes[k]
      invariant forall k :: 0 <= k < a.Length && !(addr <= k < addr + i) ==> a[k] == old(a[k])
    {
      a[addr + i] := bytes[i];
      i := i + 1;
    }
    assert a[..] == Splice(old(a[..]), addr, bytes);
  }

  lemma AdvertisedFits(c: Config, d: IoDesc)
    requires ValidConfig(c) && Advertised(c.limits, d)
    ensures d.startSector < 0x1_0000_0000_0000_0000
  {
  }

  method NewBytes(n: nat) returns (a: array<byte>)
    ensures fresh(a) && a[..] == Zeros(n)
  {
    a := new byte[n](_ => 0);
  }

  /** newWorker, with the ring, descriptor mapping and buffers that init sets up. */
  method NewWorker(c: Config, sqShift: nat, cqShift: nat, disk: seq<byte>) returns (w: Worker)
    requires sqShift <= 31 && cqShift <= 31 && c.sqEntries == Pow2(sqShift) && c.cqEntries == Pow2(cqShift)
    ensures fresh(w) && w.Blank() && w.c == c && w.d0 == disk
    ensures fresh(w.ring) && fresh(w.ring.sqArray) && fresh(w.ring.sqes) && fresh(w.ring.cqes)
    ensures fresh(w.descs) && fresh(w.pool)
  {
    var descs := NewBytes(c.depth * Layout.DESC_SIZE);
    var pool := NewBytes(c.depth * c.bufSize);
    Layout.ZerosAreMapped(c.depth);
    assert BlankDescs(c.depth) == seq(c.depth, _ => IoDesc(0, 0, 0));
    var ring := new Ring.Ring(sqShift, cqShift, IoSqe(FetchReq, 0, 0, 0, 0, 0), 0, 0);
    w := new Worker(c, ring, descs, pool, disk);
  }

  lemma InitReachable(c: Config, disk: seq<byte>)
    requires c.sqEntries > 0
    ensures Reachable(c, disk, Init(c, disk))
  {
    var s := Init(c, disk);
    assert IsRun(c, s, []) && Exec(c, s, []) == s;
  }

  lemma SpliceSame(p: seq<byte>, a: nat, n: nat)
    requires a + n <= |p|
    ensures Splice(p, a, p[a..a + n]) == p
  {
  }

  lemma SplicePrefix(p: seq<byte>, a: nat, b: seq<byte>, n: nat)
    requires |b| <= n && a + n <= |p|
    ensures Splice(p, a, b) == Splice(p, a, b + p[a..a + n][|b|..])
  {
  }
}
