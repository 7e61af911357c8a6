/**
 The life of a device: staged construction in New with a clean-up at every
 exit, and the tear-down in shutdown, over an operating system that may refuse
 any request and a control ring on which any enter and any wait may fail.
 */
module Lifecycle {
  import opened Control
  import opened Bits

  /**
   The operating system. Every descriptor or mapping it hands out is new;
   `refuses` says which calls fail, in the order they are made.
   */
  class Os {
    const refuses: nat -> bool
    var calls: nat
    var refused: bool       // some call failed
    var next: nat           // handles below this have been handed out
    var live: set<int>      // handed out and not released
    var doubled: bool       // something not live was released

    constructor (refuses: nat -> bool)
      ensures this.refuses == refuses && live == {} && !doubled && !refused && Valid()
    {
      this.refuses := refuses;
      calls, refused, next, live, doubled := 0, false, 0, {}, false;
    }

    ghost predicate Valid()
      reads this
    {
      forall h :: h in live ==> 0 <= h < next
    }

    method Try() returns (ok: bool)
      modifies this`calls, this`refused
      ensures ok == !refuses(old(calls)) && refused == (old(refused) || !ok)
    {
      ok := !refuses(calls);
      calls := calls + 1;
      if !ok { refused := true; }
    }

    /** open, mmap, eventfd, ...: a new handle, or -1. */
    method Acquire() returns (h: int)
      requires Valid()
      modifies this`calls, this`refused, this`next, this`live
      ensures Valid() && next >= old(next) && refused == (old(refused) || h < 0)
      ensures h < 0 ==> live == old(live)
      ensures h >= 0 ==> h !in old(live) && old(next) <= h < next && live == old(live) + {h}
    {
      var ok := Try();
      if !ok { return -1; }
      h := next;
      next := next + 1;
      live := live + {h};
    }

    /** close, munmap. */
    method Release(h: int)
      requires Valid()
      modifies this`live, this`doubled
      ensures Valid() && live == old(live) - {h}
      ensures doubled == (old(doubled) || h !in old(live))
    {
      if h !in live { doubled := true; }
      live := live - {h};
    }

    /** Release a field's handle if it holds one. */
    method Drop(h: int)
      requires Valid()
      modifies this`live, this`doubled
      ensures Valid() && live == old(live) - Held(h)
      ensures doubled == (old(doubled) || !(Held(h) <= old(live)))
    {
      if h >= 0 { Release(h); }
    }
  }

  /** The handle kept in a field, if any. */
  function Held(h: int): set<int> {
    if h >= 0 then {h} else {}
  }

  /** The descriptors and mappings of one uring.Ring; -1 is absent. */
  class RingHandles {
    var fd: int
    var cancelFD: int
    var epollFD: int
    var mmapSQ: int
    var mmapCQ: int
    var mmapSQEs: int

    constructor (fd: int)
      ensures this.fd == fd && cancelFD == -1 && epollFD == -1 && mmapSQ == -1 && mmapCQ == -1 && mmapSQEs == -1
    {
      this.fd := fd;
      cancelFD, epollFD, mmapSQ, mmapCQ, mmapSQEs := -1, -1, -1, -1, -1;
    }

    ghost function Owned(): set<int>
      reads this
    {
      Held(mmapSQ) + Held(mmapCQ) + Held(mmapSQEs) + Held(epollFD) + Held(cancelFD) + Held(fd)
    }

    /** No handle is held twice. */
    ghost predicate Valid()
      reads this
    {
      Held(mmapSQ) !! Held(mmapCQ) !! Held(mmapSQEs) !! Held(epollFD) !! Held(cancelFD) !! Held(fd)
    }

    /** All six are there. */
    ghost predicate Complete()
      reads this
    {
      fd >= 0 && cancelFD >= 0 && epollFD >= 0 && mmapSQ >= 0 && mmapCQ >= 0 && mmapSQEs >= 0
    }

    method MmapRings(os: Os) returns (ok: bool)
      requires os.Valid() && Valid() && Owned() <= os.live
      requires mmapSQ < 0 && mmapCQ < 0 && mmapSQEs < 0
      modifies this, os`calls, os`refused, os`next, os`live
      ensures os.Valid() && Valid() && Owned() <= os.live
      ensures os.live - Owned() == old(os.live - Owned()) && os.next >= old(os.next)
      ensures fd == old(fd) && cancelFD == old(cancelFD) && epollFD == old(epollFD)
      ensures os.refused == (old(os.refused) || !ok)
      ensures ok ==> mmapSQ >= 0 && mmapCQ >= 0 && mmapSQEs >= 0
    {
      ghost var rest := os.live - Owned();
      mmapSQ := os.Acquire();
      assert os.live - Owned() == rest;
      if mmapSQ < 0 { return false; }
      mmapCQ := os.Acquire();
      assert os.live - Owned() == rest;
      if mmapCQ < 0 { return false; }
      mmapSQEs := os.Acquire();
      assert os.live - Owned() == rest;
      return mmapSQEs >= 0;
    }

    method SetupCancel(os: Os) returns (ok: bool)
      requires os.Valid() && Valid() && Owned() <= os.live
      requires cancelFD < 0 && epollFD < 0
      modifies this, os`calls, os`refused, os`next, os`live
      ensures os.Valid() && Valid() && Owned() <= os.live
      ensures os.live - Owned() == old(os.live - Owned()) && os.next >= old(os.next)
      ensures os.refused == (old(os.refused) || !ok)
      ensures ok ==> cancelFD >= 0 && epollFD >= 0
      ensures fd == old(fd) && mmapSQ == old(mmapSQ) && mmapCQ == old(mmapCQ) && mmapSQEs == old(mmapSQEs)
    {
      ghost var rest := os.live - Owned();
      cancelFD := os.Acquire();
      assert os.live - Owned() == rest;
      if cancelFD < 0 { return false; }
      epollFD := os.Acquire();
      assert os.live - Owned() == rest;
      if epollFD < 0 { return false; }
      var a := os.Try();
      if !a { return false; }
      ok := os.Try();
    }

    /** Ring.Close: unmap, then close and forget the descriptors. The mappings are not forgotten. */
    method Close(os: Os)
      requires os.Valid()
      modifies this, os`live, os`doubled
      ensures os.Valid() && os.live == old(os.live) - old(Owned())
      ensures old(Valid()) ==> os.doubled == old(os.doubled || !(Owned() <= os.live))
      ensures fd < 0 && cancelFD < 0 && epollFD < 0
      ensures mmapSQ == old(mmapSQ) && mmapCQ == old(mmapCQ) && mmapSQEs == old(mmapSQEs)
    {
      os.Drop(mmapSQ);
      os.Drop(mmapCQ);
      os.Drop(mmapSQEs);
      os.Drop(epollFD);
      os.Drop(cancelFD);
      os.Drop(fd);
      epollFD, cancelFD, fd := -1, -1, -1;
    }
  }

  /** setup: a ring with all six handles, or nothing acquired. */
  method Setup(os: Os) returns (r: RingHandles?)
    requires os.Valid()
    modifies os
    ensures os.Valid() && os.next >= old(os.next) && os.doubled == old(os.doubled)
    ensures os.refused == (old(os.refused) || r == null)
    ensures r == null ==> os.live == old(os.live)
    ensures r != null ==>
              && fresh(r) && r.Valid() && r.Complete()
              && r.Owned() !! old(os.live) && os.live == old(os.live) + r.Owned()
  {
    var fd := os.Acquire();
    if fd < 0 { return null; }
    var ring := new RingHandles(fd);
    ghost var before := old(os.live);
    assert os.live - ring.Owned() == before;
    var ok := ring.MmapRings(os);
    if !ok {
      ring.Close(os);
      return null;
    }
    ok := ring.SetupCancel(os);
    if !ok {
      ring.Close(os);
      return null;
    }
    return ring;
  }

  /**
   Ring.Close forgets the descriptors but not the mappings: closing a ring a
   second time releases its mappings again.
   */
  method CloseTwice(os: Os, r: RingHandles)
    requires os.Valid() && r.Valid() && r.Owned() <= os.live
    modifies r, os
    ensures os.live == old(os.live - r.Owned())
    ensures os.doubled <==> old(os.doubled || r.mmapSQ >= 0 || r.mmapCQ >= 0 || r.mmapSQEs >= 0)
  {
    r.Close(os);
    r.Close(os);
  }

  // ---------------------------------------------------------------------
  // The device

  class Worker {
    var ioRing: RingHandles?
    var ioDescs: int

    constructor ()
      ensures ioRing == null && ioDescs == -1
    {
      ioRing, ioDescs := null, -1;
    }

    ghost function Owned(): set<int>
      reads this, ioRing
    {
      (if ioRing == null then {} else ioRing.Owned()) + Held(ioDescs)
    }

    ghost predicate Valid()
      reads this, ioRing
    {
      ioRing != null ==> ioRing.Valid() && ioRing.Owned() !! Held(ioDescs)
    }

    /** worker.init: the ring, then the descriptor mapping; nothing is kept on failure. */
    method Init(os: Os) returns (ok: bool)
      requires os.Valid() && ioRing == null && ioDescs < 0
      modifies this, os
      ensures os.Valid() && os.doubled == old(os.doubled) && os.next >= old(os.next)
      ensures Valid()
      ensures os.refused == (old(os.refused) || !ok)
      ensures ok ==> ioDescs >= 0 && ioRing != null && ioRing.Complete()
      ensures !ok ==> os.live == old(os.live)
      ensures ok ==> ioRing != null && fresh(ioRing)
                     && os.live == old(os.live) + Owned() && Owned() !! old(os.live)
    {
      ioRing := Setup(os);
      if ioRing == null { return false; }
      ioDescs := os.Acquire();
      if ioDescs < 0 {
        Cleanup(os);
        return false;
      }
      return true;
    }

    /** cleanup. That `run` has returned by then is Shutdown.NoUseAfterRelease. */
    method Cleanup(os: Os)
      requires os.Valid() && Valid() && Owned() <= os.live
      modifies this, ioRing, os`live, os`doubled
      ensures os.Valid() && os.live == old(os.live - Owned()) && os.doubled == old(os.doubled)
      ensures ioRing == null && ioDescs < 0
    {
      os.Drop(ioDescs);
      ioDescs := -1;
      if ioRing != null {
        ioRing.Close(os);
        ioRing := null;
      }
    }
  }

  /** The commands of a life that has ended, and what came of them. */
  ghost predicate Ended(drv: Driver)
    reads drv
  {
    && NoneBlocks(drv.w, |drv.sent|) && WholeLife(drv.sent, drv.w)
    && drv.ran == RanOf(drv.sent, drv.w)
  }

  /** Nothing acquired is left, nothing was released twice, and the commands are those of a whole life. */
  ghost predicate Gone(os: Os, drv: Driver)
    reads os, drv
  {
    os.live == {} && !os.doubled && Ended(drv)
  }

  /** The last command sent waits for an answer that does not come. */
  predicate Stuck(drv: Driver)
    reads drv
  {
    drv.sent != [] && OutcomeAt(drv.w, |drv.sent| - 1) == Blocked
  }

  /** New gets its device exactly if the system refuses nothing and every command reads a success. */
  predicate Succeeds(w: World, os: Os)
    reads os
  {
    && !os.refused
    && AddStatus(w).Fine? && StatusAt(w, Attempts(w)).Fine? && StatusAt(w, Attempts(w) + 1).Fine?
  }

  class Device {
    const ctrl: ControlPlane
    var ctrlFD: int
    var charFD: int
    var ctrlRing: RingHandles?
    var worker: Worker?    // the one element of d.workers
    var closed: bool       // closeOnce has run

    constructor (fd: int, ring: RingHandles, ctrl: ControlPlane)
      ensures ctrlFD == fd && charFD == -1 && ctrlRing == ring && worker == null && !closed && this.ctrl == ctrl
    {
      this.ctrl := ctrl;
      ctrlFD, charFD, ctrlRing, worker, closed := fd, -1, ring, null, false;
    }

    ghost function WorkerOwned(): set<int>
      reads this, worker, if worker == null then {} else {worker.ioRing}
    {
      if worker == null then {} else worker.Owned()
    }

    ghost function CtrlOwned(): set<int>
      reads this, ctrlRing
    {
      if ctrlRing == null then {} else ctrlRing.Owned()
    }

    ghost function CtrlFootprint(): set<object> {
      {ctrl, ctrl.ring, ctrl.ring.sqArray, ctrl.ring.sqes, ctrl.ring.cqes}
    }

    /** The device owns exactly what is live, each handle in one place. */
    ghost predicate Owns(os: Os)
      reads this, os, ctrlRing, worker, if worker == null then {} else {worker.ioRing}
    {
      && os.Valid() && !os.doubled
      && ctrlRing != null && ctrlRing.Valid() && ctrlFD >= 0
      && (worker != null ==> worker.Valid() && worker.ioRing != null && worker.ioRing != ctrlRing)
      && CtrlOwned() !! Held(ctrlFD) !! Held(charFD) !! WorkerOwned()
      && os.live == CtrlOwned() + Held(ctrlFD) + Held(charFD) + WorkerOwned()
    }

    /** addDev has returned, and at most `open` commands have come back without an answer. */
    ghost predicate Sent(open: nat)
      reads ctrl, ctrl.drv, ctrl.ring, ctrl.ring.sqArray, ctrl.ring.sqes, ctrl.ring.cqes
    {
      var sent, w := ctrl.drv.sent, ctrl.drv.w;
      && ctrl.Valid() && ctrl.Open() <= open && NoneBlocks(w, |sent|)
      && ctrl.useIoctl == (Attempts(w) == 1)
      && if ctrl.id >= 0 then ctrl.id == w.id && Opened(sent, w) else ctrl.id == -1 && Rejected(sent, w)
    }

    /** addDev. */
    method Add() returns (st: Status)
      requires ctrl.Valid() && |ctrl.drv.sent| == 0 && ctrl.id == -1 && !ctrl.useIoctl
      modifies ctrl, ctrl.drv, ctrl.ring, ctrl.ring.sqArray, ctrl.ring.sqes, ctrl.ring.cqes
      ensures if st.Hung? then Stuck(ctrl.drv) else Sent(if st.Fine? then 1 else 2)
      ensures st == AddStatus(ctrl.drv.w)
      ensures st.Fine? ==> ctrl.id == ctrl.drv.w.id && Step() == 0
    {
      AddDevBegins(ctrl.drv.sent, ctrl.drv.w);
      st := ctrl.AddDev();
    }

    /** How many commands followed the ADD_DEV attempts. */
    ghost function Step(): int
      reads ctrl.drv
    {
      |ctrl.drv.sent| - Attempts(ctrl.drv.w)
    }

    /** SET_PARAMS, then START_DEV. A failure leaves at most one more command without an answer. */
    method Configure(cmd: nat) returns (st: Status)
      requires Sent(1) && ctrl.id >= 0
      requires (Step() == 0 && cmd == CMD_SET_PARAMS) || (Step() == 1 && cmd == CMD_START_DEV)
      modifies ctrl.drv, ctrl.ring, ctrl.ring.sqArray, ctrl.ring.sqes, ctrl.ring.cqes
      ensures st.Hung? ==> Stuck(ctrl.drv)
      ensures st.Fine? ==> Sent(1)
      ensures st.Failed? ==> Sent(2)
      ensures Step() == old(Step()) + 1 && st == StatusAt(ctrl.drv.w, |old(ctrl.drv.sent)|)
    {
      ghost var before, w := ctrl.drv.sent, ctrl.drv.w;
      NextFollows(before, w, CtrlSqe(if ctrl.useIoctl then U_CMD_BASE + cmd else cmd, ctrl.id % WORD));
      st := ctrl.Command(cmd);
      if !st.Hung? { NoneBlocksNext(w, |before|); }
    }

    /** STOP_DEV has been sent after a successful addDev; there is room for one command more. */
    ghost predicate Halted()
      reads ctrl, ctrl.drv, ctrl.ring, ctrl.ring.sqArray, ctrl.ring.sqes, ctrl.ring.cqes
    {
      && ctrl.id == ctrl.drv.w.id && ctrl.useIoctl == (Attempts(ctrl.drv.w) == 1)
      && ctrl.Valid() && ctrl.Open() <= 3 && NoneBlocks(ctrl.drv.w, |ctrl.drv.sent|)
      && Stopped(ctrl.drv.sent, ctrl.drv.w)
    }

    /** A command of shutdown, and what it leaves in the ring. */
    method Send(cmd: nat) returns (st: Status)
      requires ctrl.Valid() && ctrl.Open() < CTRL_ENTRIES && NoneBlocks(ctrl.drv.w, |ctrl.drv.sent|)
      modifies ctrl.drv, ctrl.ring, ctrl.ring.sqArray, ctrl.ring.sqes, ctrl.ring.cqes
      ensures ctrl.Valid() && ctrl.Open() <= old(ctrl.Open()) + 1
      ensures ctrl.drv.sent == old(ctrl.drv.sent)
                               + [CtrlSqe(if ctrl.useIoctl then 0xC020_7500 + cmd else cmd, ctrl.id % WORD)]
      ensures st == StatusAt(ctrl.drv.w, |old(ctrl.drv.sent)|)
      ensures if st.Hung? then Stuck(ctrl.drv) else NoneBlocks(ctrl.drv.w, |ctrl.drv.sent|)
      ensures ctrl.id == old(ctrl.id) && ctrl.useIoctl == old(ctrl.useIoctl)
    {
      ghost var n := |ctrl.drv.sent|;
      st := ctrl.Command(cmd);
      if !st.Hung? { NoneBlocksNext(ctrl.drv.w, n); }
    }

    /** The commands with STOP_DEV appended. */
    lemma WithStop(e: CtrlSqe)
      requires Sent(2) && e == CtrlSqe(if ctrl.useIoctl then 0xC020_7507 else 7, ctrl.id % WORD)
      ensures if ctrl.id >= 0 then Stopped(ctrl.drv.sent + [e], ctrl.drv.w)
              else WholeLife(ctrl.drv.sent + [e], ctrl.drv.w)
    {
      var sent, w := ctrl.drv.sent, ctrl.drv.w;
      if ctrl.id >= 0 { StopFollows(sent, w, e); } else { FailureEnds(sent, w, e); }
    }

    /** stopDev: sent whether or not the device was added. */
    method StopDev() returns (st: Status)
      requires Sent(2)
      modifies ctrl.drv, ctrl.ring, ctrl.ring.sqArray, ctrl.ring.sqes, ctrl.ring.cqes
      ensures st.Hung? ==> Stuck(ctrl.drv)
      ensures !st.Hung? ==> if ctrl.id >= 0 then Halted() else Ended(ctrl.drv)
      ensures ctrl.id == old(ctrl.id)
    {
      WithStop(CtrlSqe(if ctrl.useIoctl then 0xC020_7507 else 7, ctrl.id % WORD));
      st := Send(CMD_STOP_DEV);
    }

    lemma WithDel(e: CtrlSqe)
      requires Halted() && e == CtrlSqe(if ctrl.useIoctl then 0xC020_7505 else 5, ctrl.id % WORD)
      ensures WholeLife(ctrl.drv.sent + [e], ctrl.drv.w)
    {
      DelFollows(ctrl.drv.sent, ctrl.drv.w, e);
    }

    /** delDev, the last command of a life. */
    method DelDev() returns (st: Status)
      requires Halted()
      modifies ctrl.drv, ctrl.ring, ctrl.ring.sqArray, ctrl.ring.sqes, ctrl.ring.cqes
      ensures if st.Hung? then Stuck(ctrl.drv) else Ended(ctrl.drv)
      ensures |ctrl.drv.sent| > 0 && st == StatusAt(ctrl.drv.w, |ctrl.drv.sent| - 1)
      ensures ctrl.id == old(ctrl.id)
    {
      WithDel(CtrlSqe(if ctrl.useIoctl then 0xC020_7505 else 5, ctrl.id % WORD));
      st := Send(CMD_DEL_DEV);
    }

    /** What Close reports: the answer DEL_DEV read, if there was one to send. */
    ghost function Report(): Status
      reads ctrl, ctrl.drv
    {
      if ctrl.id >= 0 && |ctrl.drv.sent| > 0 then StatusAt(ctrl.drv.w, |ctrl.drv.sent| - 1) else Fine
    }

    /** STOP_DEV, then DEL_DEV if the device was added: the end of the life, whatever the enters do. */
    method Retire() returns (st: Status)
      requires Sent(2)
      modifies ctrl.drv, ctrl.ring, ctrl.ring.sqArray, ctrl.ring.sqes, ctrl.ring.cqes
      ensures if st.Hung? then Stuck(ctrl.drv) else Ended(ctrl.drv) && st == Report()
    {
      st := StopDev();
      if st.Hung? { return; }
      st := Fine;
      if ctrl.id >= 0 { st := DelDev(); }
    }

    /** The control ring and descriptor, the last handles to go. */
    method ReleaseControl(os: Os)
      requires os.Valid() && ctrlRing != null && ctrlRing.Valid() && !os.doubled
      requires CtrlOwned() !! Held(ctrlFD) && os.live == CtrlOwned() + Held(ctrlFD)
      modifies this`ctrlRing, this`ctrlFD, ctrlRing, os`live, os`doubled
      ensures os.live == {} && !os.doubled && ctrlRing == null
    {
      ctrlRing.Close(os);
      ctrlRing := null;
      os.Drop(ctrlFD);
      ctrlFD := -1;
    }

    /**
     shutdown: cancel the worker, wait for it, release what it used, then
     everything else. `wg.Wait` returns by Shutdown.CloseReturns.
     */
    method Shutdown(os: Os) returns (st: Status)
      requires Owns(os) && Sent(2)
      modifies this, ctrlRing, worker, if worker == null then {} else {worker.ioRing}
      modifies ctrl.ring, ctrl.ring.sqArray, ctrl.ring.sqes, ctrl.ring.cqes, ctrl.drv, os`live, os`doubled
      ensures if st.Hung? then Stuck(ctrl.drv) else Gone(os, ctrl.drv) && st == Report()
      ensures (ctrlRing == null || ctrlRing == old(ctrlRing)) && worker == old(worker) && closed == old(closed)
      ensures worker != null ==> worker.ioRing == null
      ensures st.Hung? ==> os.live == old(CtrlOwned() + Held(ctrlFD)) && !os.doubled
      ensures os.refused == old(os.refused)
    {
      ReleaseWorkload(os);
      st := Remove(os);
    }

    /** shutdown from STOP_DEV on. */
    method Remove(os: Os) returns (st: Status)
      requires Sent(2) && os.Valid() && ctrlRing != null && ctrlRing.Valid() && !os.doubled
      requires CtrlOwned() !! Held(ctrlFD) && os.live == CtrlOwned() + Held(ctrlFD)
      modifies this`ctrlRing, this`ctrlFD, ctrlRing, os`live, os`doubled
      modifies ctrl.ring, ctrl.ring.sqArray, ctrl.ring.sqes, ctrl.ring.cqes, ctrl.drv
      ensures if st.Hung? then Stuck(ctrl.drv) else Gone(os, ctrl.drv) && st == Report()
      ensures ctrlRing == null || ctrlRing == old(ctrlRing)
      ensures st.Hung? ==> os.live == old(os.live) && !os.doubled
      ensures os.refused == old(os.refused)
      ensures worker == old(worker) && closed == old(closed)
    {
      st := Retire();
      if st.Hung? { return; }
      ReleaseControl(os);
    }

    /** The worker and the char device; afterwards only the control handles are live. */
    method ReleaseWorkload(os: Os)
      requires Owns(os)
      modifies this`charFD, worker, if worker == null then {} else {worker.ioRing}, os`live, os`doubled
      ensures os.Valid() && !os.doubled && ctrlRing.Valid()
      ensures CtrlOwned() !! Held(ctrlFD) && os.live == CtrlOwned() + Held(ctrlFD)
      ensures worker != null ==> worker.ioRing == null
      ensures unchanged(ctrl, ctrl.drv, ctrl.ring, ctrl.ring.sqArray, ctrl.ring.sqes, ctrl.ring.cqes)
      ensures os.refused == old(os.refused)
      ensures ctrlRing == old(ctrlRing) && ctrlFD == old(ctrlFD) && worker == old(worker) && closed == old(closed)
    {
      StopWorker(os);
      os.Drop(charFD);
      charFD := -1;
    }

    /** Cancel, wg.Wait, cleanup. */
    method StopWorker(os: Os)
      requires os.Valid() && WorkerOwned() <= os.live
      requires worker != null ==> worker.Valid() && worker.ioRing != null
      modifies worker, if worker == null then {} else {worker.ioRing}, os`live, os`doubled
      ensures os.Valid() && os.live == old(os.live - WorkerOwned()) && os.doubled == old(os.doubled)
      ensures worker != null ==> worker.ioRing == null
    {
      if worker != null {
        worker.Cleanup(os);
      }
    }

    /** Close: only the first call does the work. */
    method Close(os: Os) returns (st: Status)
      requires closed || (Owns(os) && Sent(1))
      modifies this, ctrlRing, worker, if worker == null then {} else {worker.ioRing}
      modifies ctrl.ring, ctrl.ring.sqArray, ctrl.ring.sqes, ctrl.ring.cqes, ctrl.drv, os`live, os`doubled
      ensures closed && (ctrlRing == null || ctrlRing == old(ctrlRing)) && worker == old(worker)
      ensures worker != null ==> worker.ioRing == null || worker.ioRing == old(worker.ioRing)
      ensures old(closed) ==> st == Fine && os.live == old(os.live) && os.doubled == old(os.doubled)
                              && ctrl.drv.sent == old(ctrl.drv.sent) && ctrl.drv.ran == old(ctrl.drv.ran)
      ensures !old(closed) ==>
                if st.Hung? then Stuck(ctrl.drv) else Gone(os, ctrl.drv) && st == Report()
      ensures os.refused == old(os.refused)
    {
      st := Fine;
      if !closed {
        st := Shutdown(os);
        closed := true;
      }
    }
  }

  /** openDevice: the control descriptor and the control ring, or nothing. */
  method OpenDevice(os: Os, drv: Driver) returns (d: Device?)
    requires os.Valid() && os.live == {} && !os.doubled && !os.refused && drv.Blank()
    modifies os
    ensures os.Valid()
    ensures os.refused == (old(os.refused) || d == null)
    ensures d == null ==> os.live == {} && !os.doubled
    ensures d != null ==>
              && fresh(d) && fresh(d.ctrlRing) && fresh(d.CtrlFootprint()) && d.ctrl.drv == drv
              && d.Owns(os) && d.ctrl.Valid() && d.ctrl.id == -1 && !d.ctrl.useIoctl
              && d.charFD < 0 && d.worker == null && !d.closed
  {
    var fd := os.Acquire();
    if fd < 0 { return null; }
    var ring := Setup(os);
    if ring == null {
      os.Drop(fd);
      return null;
    }
    d := NewDevice(fd, ring, drv);
  }

  method NewDevice(fd: int, ring: RingHandles, drv: Driver) returns (d: Device)
    requires drv.Blank()
    ensures fresh(d) && fresh(d.CtrlFootprint()) && d.ctrl.drv == drv
    ensures d.ctrl.Valid() && d.ctrl.id == -1 && !d.ctrl.useIoctl
    ensures d.ctrlFD == fd && d.ctrlRing == ring && d.charFD == -1 && d.worker == null && !d.closed
  {
    var ctrl := new ControlPlane(drv);
    d := new Device(fd, ring, ctrl);
  }

  // The steps of New, each with what it leaves to the device.

  method AddFirst(os: Os, dev: Device) returns (st: Status)
    requires dev.Owns(os)
    requires dev.ctrl.Valid() && |dev.ctrl.drv.sent| == 0 && dev.ctrl.id == -1 && !dev.ctrl.useIoctl
    modifies dev.CtrlFootprint(), dev.ctrl.drv
    ensures dev.Owns(os)
    ensures if st.Hung? then Stuck(dev.ctrl.drv) else dev.Sent(if st.Fine? then 1 else 2)
    ensures st == AddStatus(dev.ctrl.drv.w)
    ensures st.Fine? ==> dev.ctrl.id == dev.ctrl.drv.w.id && dev.Step() == 0
  {
    st := dev.Add();
  }

  method ConfigureNext(os: Os, dev: Device, cmd: nat) returns (st: Status)
    requires dev.Owns(os) && dev.Sent(1) && dev.ctrl.id >= 0
    requires (dev.Step() == 0 && cmd == CMD_SET_PARAMS) || (dev.Step() == 1 && cmd == CMD_START_DEV)
    modifies dev.ctrl.drv, dev.ctrl.ring, dev.ctrl.ring.sqArray, dev.ctrl.ring.sqes, dev.ctrl.ring.cqes
    ensures dev.Owns(os)
    ensures if st.Hung? then Stuck(dev.ctrl.drv) else dev.Sent(if st.Fine? then 1 else 2)
    ensures dev.Step() == old(dev.Step()) + 1 && st == StatusAt(dev.ctrl.drv.w, |old(dev.ctrl.drv.sent)|)
  {
    st := dev.Configure(cmd);
  }

  /** openCharDev. */
  method OpenCharDev(os: Os, dev: Device) returns (ok: bool)
    requires dev.Owns(os) && dev.charFD < 0
    modifies dev`charFD, os
    ensures dev.Owns(os) && ok == (dev.charFD >= 0)
    ensures os.refused == (old(os.refused) || !ok)
    ensures unchanged(dev.ctrl, dev.ctrl.drv)
    ensures unchanged(dev.ctrl.ring, dev.ctrl.ring.sqArray, dev.ctrl.ring.sqes, dev.ctrl.ring.cqes)
    ensures dev.ctrlRing == old(dev.ctrlRing) && dev.closed == old(dev.closed)
  {
    dev.charFD := os.Acquire();
    return dev.charFD >= 0;
  }

  method AddAndOpen(os: Os, dev: Device) returns (st: Status)
    requires dev.Owns(os) && dev.ctrl.Valid() && |dev.ctrl.drv.sent| == 0 && dev.ctrl.id == -1 && !dev.ctrl.useIoctl
    requires !os.refused && dev.charFD < 0
    modifies dev`charFD, dev.CtrlFootprint(), dev.ctrl.drv, os
    ensures if st.Hung? then Stuck(dev.ctrl.drv) else dev.Owns(os) && dev.Sent(if st.Fine? then 1 else 2)
    ensures st.Fine? ==> dev.ctrl.id == dev.ctrl.drv.w.id && dev.charFD >= 0 && dev.Step() == 0
    ensures !st.Hung? ==> (st.Fine? <==> AddStatus(dev.ctrl.drv.w).Fine? && !os.refused)
    ensures dev.ctrlRing == old(dev.ctrlRing) && dev.closed == old(dev.closed)
  {
    st := AddFirst(os, dev);
    if !st.Fine? { return; }
    var ok := OpenCharDev(os, dev);
    if !ok { return Failed; }
  }

  /** New from addDev to setParams. A failure leaves the device to be shut down. */
  method AddDevice(os: Os, dev: Device) returns (st: Status)
    requires dev.Owns(os) && dev.ctrl.Valid() && |dev.ctrl.drv.sent| == 0 && dev.ctrl.id == -1 && !dev.ctrl.useIoctl
    requires !os.refused
    requires dev.charFD < 0 && dev.worker == null
    modifies dev`charFD, dev.CtrlFootprint(), dev.ctrl.drv, os
    ensures if st.Hung? then Stuck(dev.ctrl.drv) else dev.Owns(os) && dev.Sent(if st.Fine? then 1 else 2)
    ensures st.Fine? ==> dev.ctrl.id == dev.ctrl.drv.w.id && dev.charFD >= 0 && dev.Step() == 1
    ensures var w := dev.ctrl.drv.w;
            !st.Hung? ==> (st.Fine? <==> && AddStatus(w).Fine? && !os.refused
                                         && StatusAt(w, Attempts(w)).Fine?)
    ensures dev.ctrlRing == old(dev.ctrlRing) && dev.closed == old(dev.closed)
  {
    st := AddAndOpen(os, dev);
    if st.Fine? { st := ConfigureNext(os, dev, CMD_SET_PARAMS); }
  }

  /** newWorker, init and `go w.run`; on failure the device keeps what it had. */
  method AttachWorker(os: Os, dev: Device) returns (ok: bool)
    requires dev.Owns(os) && dev.worker == null
    modifies dev`worker, os
    ensures dev.Owns(os)
    ensures os.refused == (old(os.refused) || !ok)
    ensures if ok then dev.worker != null && fresh(dev.worker) && fresh(dev.worker.ioRing) else dev.worker == null
    ensures unchanged(dev.ctrl, dev.ctrl.drv)
    ensures unchanged(dev.ctrl.ring, dev.ctrl.ring.sqArray, dev.ctrl.ring.sqes, dev.ctrl.ring.cqes)
    ensures dev.ctrlRing == old(dev.ctrlRing) && dev.closed == old(dev.closed)
  {
    var w := new Worker();
    ok := w.Init(os);
    if ok { dev.worker := w; }
  }

  /** The outcome of SubmitAndWait in run, reported on the ready channel. */
  method AwaitReady(os: Os, dev: Device) returns (ok: bool)
    requires dev.Owns(os)
    modifies os`calls, os`refused
    ensures dev.Owns(os) && os.refused == (old(os.refused) || !ok)
  {
    ok := os.Try();
  }

  /** New from the worker to startDev. A failure leaves the device to be shut down. */
  method StartDevice(os: Os, dev: Device) returns (st: Status)
    requires dev.Owns(os) && dev.Sent(1) && dev.worker == null && dev.ctrl.id >= 0 && dev.Step() == 1
    requires !os.refused
    modifies dev`worker, dev.CtrlFootprint(), dev.ctrl.drv, os
    ensures if st.Hung? then Stuck(dev.ctrl.drv) else dev.Owns(os) && dev.Sent(if st.Fine? then 1 else 2)
    ensures dev.ctrl.id == old(dev.ctrl.id)
    ensures var w := dev.ctrl.drv.w;
            !st.Hung? ==> (st.Fine? <==> && !os.refused
                                         && StatusAt(w, Attempts(w) + 1).Fine?)
    ensures dev.worker != null ==> fresh(dev.worker) && dev.worker.ioRing != null && fresh(dev.worker.ioRing)
    ensures st.Fine? ==> dev.worker != null
    ensures dev.ctrlRing == old(dev.ctrlRing) && dev.closed == old(dev.closed)
  {
    var ok := AttachWorker(os, dev);
    if ok { ok := AwaitReady(os, dev); }
    if !ok { return Failed; }
    st := ConfigureNext(os, dev, CMD_START_DEV);
  }

  /** New after openDevice, up to its clean-up. */
  method SetUp(os: Os, dev: Device) returns (st: Status)
    requires dev.Owns(os) && dev.ctrl.Valid() && |dev.ctrl.drv.sent| == 0 && dev.ctrl.id == -1 && !dev.ctrl.useIoctl
    requires !os.refused
    requires dev.charFD < 0 && dev.worker == null
    modifies dev`charFD, dev`worker, dev.CtrlFootprint(), dev.ctrl.drv, os
    ensures if st.Hung? then Stuck(dev.ctrl.drv) else dev.Owns(os) && dev.Sent(if st.Fine? then 1 else 2)
    ensures st.Fine? ==> dev.ctrl.id == dev.ctrl.drv.w.id && dev.charFD >= 0 && dev.worker != null
    ensures !st.Hung? ==> (st.Fine? <==> Succeeds(dev.ctrl.drv.w, os))
    ensures dev.worker != null ==> fresh(dev.worker) && dev.worker.ioRing != null && fresh(dev.worker.ioRing)
    ensures dev.ctrlRing == old(dev.ctrlRing) && dev.closed == old(dev.closed)
  {
    st := AddDevice(os, dev);
    if st.Fine? { st := StartDevice(os, dev); }
  }

  /** The same with the clean-up. */
  method Launch(os: Os, dev: Device) returns (st: Status)
    requires dev.Owns(os) && dev.ctrl.Valid() && |dev.ctrl.drv.sent| == 0 && dev.ctrl.id == -1 && !dev.ctrl.useIoctl
    requires !os.refused
    requires dev.charFD < 0 && dev.worker == null && !dev.closed
    modifies dev, dev.ctrlRing, dev.CtrlFootprint(), dev.ctrl.drv, os
    ensures st.Hung? ==> Stuck(dev.ctrl.drv)
    ensures st.Failed? ==> Gone(os, dev.ctrl.drv)
    ensures st.Fine? ==> Succeeds(dev.ctrl.drv.w, os)
    ensures st.Failed? ==> !Succeeds(dev.ctrl.drv.w, os)
    ensures st.Fine? ==>
              && dev.Owns(os) && dev.Sent(1) && !dev.closed && dev.ctrl.id == dev.ctrl.drv.w.id && dev.charFD >= 0
              && dev.ctrlRing == old(dev.ctrlRing)
              && dev.worker != null && fresh(dev.worker) && fresh(dev.worker.ioRing)
  {
    st := SetUp(os, dev);
    if st.Failed? { st := CleanUp(os, dev); }
  }

  /** The clean-up of a New that failed. */
  method CleanUp(os: Os, dev: Device) returns (st: Status)
    requires dev.Owns(os) && dev.Sent(2)
    modifies dev, dev.ctrlRing, dev.worker, if dev.worker == null then {} else {dev.worker.ioRing}
    modifies dev.CtrlFootprint(), dev.ctrl.drv, os`live, os`doubled
    ensures if st.Hung? then Stuck(dev.ctrl.drv) else st.Failed? && Gone(os, dev.ctrl.drv)
    ensures os.refused == old(os.refused)
  {
    st := dev.Shutdown(os);
    if !st.Hung? { st := Failed; }
  }

  /**
   New, on an accepted configuration. Either it returns a device that owns
   exactly what is live, or everything acquired on the way has been released
   exactly once, or it waits for ever for an answer that does not come.
   */
  method New(os: Os, drv: Driver) returns (dev: Device?, hung: bool)
    requires os.Valid() && os.live == {} && !os.doubled && !os.refused && drv.Blank()
    modifies os, drv
    ensures hung ==> dev == null && Stuck(drv)
    ensures !hung ==> (dev != null <==> Succeeds(drv.w, os))
    ensures dev == null && !hung ==> Gone(os, drv)
    ensures dev != null ==>
              && fresh(dev) && fresh(dev.ctrlRing) && fresh(dev.CtrlFootprint()) && dev.ctrl.drv == drv
              && dev.worker != null && fresh(dev.worker) && fresh(dev.worker.ioRing)
              && dev.Owns(os) && dev.Sent(1) && !dev.closed && dev.ctrl.id == drv.w.id && dev.charFD >= 0
  {
    dev := OpenDevice(os, drv);
    if dev == null { return null, false; }
    var st := Launch(os, dev);
    if st.Fine? { return dev, false; }
    return null, st.Hung?;
  }

  /**
   A whole life: New, then Close any number of times, leaves nothing behind and
   releases nothing twice. The kernel has then executed one DEL_DEV for each
   ADD_DEV that succeeded exactly when enters and waits on the control ring were tidy.
   */
  method Life(os: Os, drv: Driver, closes: nat) returns (made: bool, hung: bool)
    requires os.Valid() && os.live == {} && !os.doubled && !os.refused && drv.Blank()
    modifies os, drv
    ensures hung ==> Stuck(drv)
    ensures !hung ==> NoneBlocks(drv.w, |drv.sent|)
    ensures !hung && (!made || closes > 0) ==>
              && os.live == {} && !os.doubled && WholeLife(drv.sent, drv.w)
              && (Balanced(drv.ran) <==> Tidy(drv.w, |drv.sent|))
    ensures made && closes == 0 ==> os.live != {} && Opened(drv.sent, drv.w)
    ensures made ==> Succeeds(drv.w, os)
    ensures !made && !hung ==> !Succeeds(drv.w, os)
  {
    var dev;
    dev, hung := New(os, drv);
    made := dev != null;
    if made && closes > 0 { hung := CloseAll(os, dev, closes); }
    if !hung && (!made || closes > 0) { Settled(drv); }
  }

  lemma Settled(drv: Driver)
    requires Ended(drv)
    ensures Balanced(drv.ran) <==> Tidy(drv.w, |drv.sent|)
  {
    BalancedIff(drv.sent, drv.w);
  }

  /** Close, called at least once and any number of times. */
  method CloseAll(os: Os, dev: Device, closes: nat) returns (hung: bool)
    requires dev.Owns(os) && dev.Sent(1) && !dev.closed && closes > 0
    modifies dev, dev.ctrlRing, dev.worker, if dev.worker == null then {} else {dev.worker.ioRing}
    modifies dev.CtrlFootprint(), dev.ctrl.drv, os`live, os`doubled
    ensures if hung then Stuck(dev.ctrl.drv) else Gone(os, dev.ctrl.drv)
    ensures os.refused == old(os.refused)
  {
    var st := dev.Close(os);
    hung := st.Hung?;
    var i := 1;
    while i < closes && !hung
      invariant dev.closed && (dev.ctrlRing == null || dev.ctrlRing == old(dev.ctrlRing))
      invariant dev.worker == old(dev.worker) && os.refused == old(os.refused)
      invariant dev.worker != null ==> dev.worker.ioRing == null || dev.worker.ioRing == old(dev.worker.ioRing)
      invariant if hung then Stuck(dev.ctrl.drv) else Gone(os, dev.ctrl.drv)
    {
      st := dev.Close(os);
      i := i + 1;
    }
  }
}
