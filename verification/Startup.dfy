/** From settings to a running worker: validation, the ring and buffers of init, and run. */
module Startup {
  import opened Bits
  import opened Disk
  import opened Protocol
  import opened Settings
  import Worker
  import Linearizability
  import Turns
  import opened Requests

  /** The exponent of the ring size that roundUp2 asks for. */
  function RingShift(depth: nat): nat { if depth <= 1 then 0 else BitLen(depth - 1) }

  lemma Pow2At12()
    ensures Pow2(12) == 4096
  {
    Pow2Sum(6, 6);
    assert Pow2(6) == 64;
  }

  lemma ShiftIsSmall(depth: nat)
    requires 1 <= depth <= MAX_QUEUE_DEPTH
    ensures RingShift(depth) <= 12 && Pow2(RingShift(depth)) <= 4096
  {
    var k := RingShift(depth);
    Pow2At12();
    if depth > 1 {
      BitLenBounds(depth - 1);
      if k > 12 { Pow2Mono(12, k - 1); }
    }
    Pow2Mono(k, 12);
  }

  lemma ShiftIsRoundUp2(depth: nat)
    requires 1 <= depth <= MAX_QUEUE_DEPTH
    ensures RingShift(depth) <= 12 && RoundUp2(depth) == Pow2(RingShift(depth))
    ensures Pow2(RingShift(depth) + 1) == 2 * RoundUp2(depth)
  {
    ShiftIsSmall(depth);
    assert Pow2(0) == 1;
  }

  /**
   New as far as the data plane is concerned: settings that do not validate are
   refused, and accepted ones give a worker in the step system's initial state,
   its ring sized by roundUp2 and completions for twice as many entries.
   */
  method Start(cfg: Settings, size: nat, kernelMax: u32, caps: Caps, disk: seq<byte>)
    returns (v: Verdict, w: Worker.Worker?)
    requires |disk| == size <= 0x8000_0000_0000_0000 && kernelMax <= cfg.maxIOSize
    ensures v == Validate(cfg, size) && (w == null <==> v != Accepted)
    ensures w != null ==>
              && fresh(w) && fresh(w.ring) && fresh(w.ring.sqArray) && fresh(w.ring.sqes) && fresh(w.ring.cqes)
              && fresh(w.descs) && fresh(w.pool)
              && w.Valid() && w.s == Init(w.c, disk) && w.d0 == disk
              && w.c.depth == cfg.queueDepth && w.c.caps == caps
              && w.c.sqEntries == RoundUp2(cfg.queueDepth) && w.c.cqEntries == 2 * w.c.sqEntries
              && w.c.bufSize == (if kernelMax > 0 then kernelMax else cfg.maxIOSize)
              && w.c.limits == Limits(size, w.c.bufSize / 512)
  {
    v := Validate(cfg, size);
    w := null;
    if v == Accepted {
      var k := RingShift(cfg.queueDepth);
      ShiftIsRoundUp2(cfg.queueDepth);
      var c := DataPlaneConfig(cfg, size, kernelMax, 2 * RoundUp2(cfg.queueDepth), caps);
      AcceptedDeviceIsValidIff(cfg, size, kernelMax, c.cqEntries, caps);
      w := Worker.NewWorker(c, k, k + 1, disk);
      w.Prepare();
    }
  }

  /**
   Settings, init and run in one: for every accepted device of at most 2^63
   bytes, and whatever the kernel, the backend and the closing thread do, the
   worker plays their turns until it returns or fewer than four are left, the
   replies are those of a byte-array disk that starts out as `disk`, and no
   completion is lost.
   */
  method StartAndRun(cfg: Settings, size: nat, kernelMax: u32, caps: Caps, disk: seq<byte>,
                     turns: seq<Turns.Turn>)
    returns (v: Verdict, w: Worker.Worker?, returned: bool, used: nat)
    requires |disk| == size <= 0x8000_0000_0000_0000 && kernelMax <= cfg.maxIOSize
    ensures v == Validate(cfg, size) && (w == null <==> v != Accepted)
    ensures w != null ==>
              && w.Valid() && w.d0 == disk && w.c.depth == cfg.queueDepth
              && used <= |turns| && w.s == Turns.PlayAll(w.c, Init(w.c, disk), turns[..used])
              && (returned <==> w.s.pc.Done?) && (!returned ==> |turns| - used < 4)
              && Linearizability.Linearizable(caps, disk, w.s.hist)
              && !w.s.overflowed && |w.ring.Cq()| <= cfg.queueDepth
  {
    v, w := Start(cfg, size, kernelMax, caps, disk);
    returned, used := false, 0;
    if w != null {
      returned, used := w.Run(turns);
    }
  }
}
