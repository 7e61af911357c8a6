/** Device settings: validation, and what it guarantees about every later request. */
module Settings {
  import opened Bits
  import opened Disk
  import opened Requests
  import opened Protocol

  const MAX_QUEUE_DEPTH := 4096
  const MAX_MAX_IO := 0x10_0000

  datatype Settings = Settings(blockSize: u32, queueDepth: nat, maxIOSize: u32)

  datatype Verdict =
    | Accepted | SizeZero | BadBlockSize | SizeNotMultiple | BadDepth | BadMaxIO | MaxIOTooLarge

  /** bits.OnesCount32 */
  function OnesCount(n: nat): nat {
    if n == 0 then 0 else n % 2 + OnesCount(n / 2)
  }

  /** bits.TrailingZeros32 */
  function TrailingZeros(n: nat): nat {
    if n == 0 then 32 else if n % 2 == 1 then 0 else 1 + TrailingZeros(n / 2)
  }

  /** config.validate, reporting the first check that fails. */
  function Validate(c: Settings, size: nat): Verdict {
    if size == 0 then SizeZero
    else if c.blockSize < 512 || OnesCount(c.blockSize) != 1 then BadBlockSize
    else if size % c.blockSize != 0 then SizeNotMultiple
    else if c.queueDepth < 1 || c.queueDepth > MAX_QUEUE_DEPTH then BadDepth
    else if c.maxIOSize == 0 || c.maxIOSize % c.blockSize != 0 then BadMaxIO
    else if c.maxIOSize > MAX_MAX_IO then MaxIOTooLarge
    else Accepted
  }

  /** One bit set is a power of two, and the shift sent to the kernel is its exponent. */
  lemma {:induction false} OneBit(n: nat)
    ensures OnesCount(n) == 0 <==> n == 0
    ensures OnesCount(n) == 1 ==> n == Pow2(TrailingZeros(n))
  {
    if n > 0 {
      OneBit(n / 2);
    }
  }

  lemma {:induction false} Pow2HasOneBit(k: nat)
    ensures OnesCount(Pow2(k)) == 1
  {
    if k > 0 {
      Pow2HasOneBit(k - 1);
      assert Pow2(k) / 2 == Pow2(k - 1);
    }
  }

  ghost predicate IsPow2(n: nat) {
    exists k: nat :: n == Pow2(k)
  }

  lemma OneBitIffPow2(n: nat)
    ensures OnesCount(n) == 1 <==> IsPow2(n)
  {
    OneBit(n);
    if IsPow2(n) {
      var k: nat :| n == Pow2(k);
      Pow2HasOneBit(k);
    }
  }

  /** Validation accepts exactly the documented settings. */
  lemma AcceptedIff(c: Settings, size: nat)
    ensures Validate(c, size) == Accepted <==>
            && c.blockSize >= 512 && IsPow2(c.blockSize)
            && size > 0 && size % c.blockSize == 0
            && 1 <= c.queueDepth <= MAX_QUEUE_DEPTH
            && 0 < c.maxIOSize <= MAX_MAX_IO && c.maxIOSize % c.blockSize == 0
  {
    OneBitIffPow2(c.blockSize);
  }

  /** A refusal names a check that the settings fail. */
  lemma RefusalNamesAFailure(c: Settings, size: nat)
    ensures match Validate(c, size)
            case Accepted => true
            case SizeZero => size == 0
            case BadBlockSize => c.blockSize < 512 || !IsPow2(c.blockSize)
            case SizeNotMultiple => c.blockSize > 0 && size % c.blockSize != 0
            case BadDepth => !(1 <= c.queueDepth <= 4096)
            case BadMaxIO => c.maxIOSize == 0 || (c.blockSize > 0 && c.maxIOSize % c.blockSize != 0)
            case MaxIOTooLarge => c.maxIOSize > 0x10_0000
  {
    OneBitIffPow2(c.blockSize);
  }

  /** The tag buffer size New settles on, given the kernel's max_io_buf_bytes. */
  function BufSize(c: Settings, kernelMax: u32): nat {
    if kernelMax == 0 then c.maxIOSize else kernelMax
  }

  /** What setParams advertises. */
  datatype Params = Params(
    shift: nat, maxSectors: nat, devSectors: nat, granularity: nat, maxDiscard: nat, maxZeroes: nat)

  function Advertise(c: Settings, size: nat, bufSize: nat, caps: Caps): Params {
    Params(TrailingZeros(c.blockSize), bufSize / SECTOR, size / SECTOR,
           if caps.discard || caps.zero then c.blockSize else 0,
           if caps.discard then MAX_WIDE_SECTORS else 0,
           if caps.zero then MAX_WIDE_SECTORS else 0)
  }

  /** The kernel's side: a request it may issue on a device with these parameters. */
  predicate Within(p: Params, d: IoDesc) {
    var op := d.opFlags % 256;
    && d.startSector + d.nrSectors <= p.devSectors
    && (op == 0 || op == 1 ==> d.nrSectors <= p.maxSectors)
    && (op == 3 ==> d.nrSectors <= p.maxDiscard)
    && (op == 5 ==> d.nrSectors <= p.maxZeroes)
  }

  /** Every such request is within the limits that the data plane relies on. */
  lemma WithinIsAdvertised(c: Settings, size: nat, kernelMax: u32, caps: Caps, d: IoDesc)
    requires Within(Advertise(c, size, BufSize(c, kernelMax), caps), d)
    ensures Advertised(LimitsOf(c, size, kernelMax), d)
  {
    FlagBits();
    AndMask(d.opFlags, 8);
  }

  /** Discards and zeroings are offered exactly if the backend has them, up to 2^21 sectors each. */
  lemma WideRequestsOfferedIff(c: Settings, size: nat, bufSize: nat, caps: Caps, d: IoDesc)
    requires 0 < d.nrSectors && d.startSector + d.nrSectors <= size / 512
    ensures var p := Advertise(c, size, bufSize, caps);
            && (d.opFlags % 256 == 3 ==> (Within(p, d) <==> caps.discard && d.nrSectors <= 0x20_0000))
            && (d.opFlags % 256 == 5 ==> (Within(p, d) <==> caps.zero && d.nrSectors <= 0x20_0000))
  {
  }

  /** The kernel is offered no request that the worker refuses as unsupported. */
  lemma OfferedIsServed(c: Settings, size: nat, kernelMax: u32, caps: Caps, d: IoDesc, buf: seq<byte>,
                        disk: seq<byte>, out: Outcome)
    requires Validate(c, size) == Accepted && size <= 0x8000_0000_0000_0000 && kernelMax <= c.maxIOSize
    requires Within(Advertise(c, size, BufSize(c, kernelMax), caps), d)
    requires d.nrSectors > 0 && d.opFlags % 256 in {0, 1, 3, 5} && |buf| == BufSize(c, kernelMax)
    requires Allowed(caps, BufSize(c, kernelMax), d, buf, disk, out)
    ensures Requests.HandleIO(caps, BufSize(c, kernelMax), d, buf, disk, out).result in {d.nrSectors * 512, -5}
  {
    WithinIsAdvertised(c, size, kernelMax, caps, d);
    AnswerIs(caps, LimitsOf(c, size, kernelMax), BufSize(c, kernelMax), d, buf, disk, out);
  }

  function LimitsOf(c: Settings, size: nat, kernelMax: u32): Limits {
    Limits(size, BufSize(c, kernelMax) / SECTOR)
  }

  /** The configuration the data plane runs with. */
  function DataPlaneConfig(c: Settings, size: nat, kernelMax: u32, cqEntries: nat, caps: Caps): Protocol.Config
    requires c.queueDepth <= MAX_QUEUE_DEPTH
  {
    Protocol.Config(c.queueDepth, RoundUp2(c.queueDepth), cqEntries, BufSize(c, kernelMax),
                    LimitsOf(c, size, kernelMax), caps)
  }

  /**
   An accepted device meets every assumption the data plane's theorems make,
   exactly when its size fits int64; the kernel may lower the buffer size, and
   its completion ring is no smaller than the submission ring.
   */
  lemma AcceptedDeviceIsValidIff(c: Settings, size: nat, kernelMax: u32, cqEntries: nat, caps: Caps)
    requires Validate(c, size) == Accepted && kernelMax <= c.maxIOSize
    requires cqEntries >= RoundUp2(c.queueDepth)
    ensures ValidConfig(DataPlaneConfig(c, size, kernelMax, cqEntries, caps))
            <==> size <= 0x8000_0000_0000_0000
  {
    RoundUp2IsLeast(c.queueDepth);
  }

  /** Validation does not check that: a size past 2^63 is accepted, and a legal read gets a negative offset. */
  lemma HugeSizesAreAccepted(c: Settings, d: IoDesc)
    requires c == Settings(512, 128, 0x2_0000)
    requires d.opFlags == 0 && d.nrSectors == 1 && d.startSector == 0x40_0000_0000_0000
    ensures Validate(c, 0x8000_0000_0000_0200) == Accepted
    ensures Advertised(LimitsOf(c, 0x8000_0000_0000_0200, 0), d) && Offset(d) < 0
  {
    OneBitOf512();
    assert OpCode(d) == 0;
  }

  lemma OneBitOf512()
    ensures OnesCount(512) == 1
  {
    Pow2HasOneBit(9);
    assert Pow2(9) == 512;
  }

  /** The sector size of the advertised geometry is the block size. */
  lemma AdvertisedGeometry(c: Settings, size: nat, bufSize: nat, caps: Caps)
    requires Validate(c, size) == Accepted
    ensures var p := Advertise(c, size, bufSize, caps);
            && Pow2(p.shift) == c.blockSize
            && p.devSectors * SECTOR == size
            && p.maxSectors * SECTOR <= bufSize < (p.maxSectors + 1) * SECTOR
            && p.granularity == (if caps.discard || caps.zero then Pow2(p.shift) else 0)
  {
    OneBit(c.blockSize);
    BlockIsSectors(c.blockSize, TrailingZeros(c.blockSize), size);
  }

  lemma BlockIsSectors(bs: nat, k: nat, size: nat)
    requires bs == Pow2(k) && bs >= 512 && size % bs == 0
    ensures size % SECTOR == 0
  {
    assert Pow2(9) == 512 && Pow2(8) == 256;
    if k < 9 {
      Pow2Mono(k, 8);
    }
    Pow2Sum(9, k - 9);
    assert bs == 512 * Pow2(k - 9);
    ModOfMod(size, 512, Pow2(k - 9));
  }

  /**
   End to end: for an accepted device of at most 2^63 bytes, a request within
   the advertised limits stays inside the device without overflow, never hits
   the oversize branch, and a success reports exactly its length.
   */
  lemma AcceptedRequestsStayInBounds(c: Settings, size: nat, kernelMax: u32, caps: Caps, d: IoDesc, out: Outcome)
    requires Validate(c, size) == Accepted && size <= 0x8000_0000_0000_0000 && kernelMax <= c.maxIOSize
    requires Advertised(LimitsOf(c, size, kernelMax), d)
    ensures var bufSize := BufSize(c, kernelMax);
            var plan := PlanOf(caps, bufSize, d);
            && plan != Answer(-EIO)
            && (plan.Invoke? ==>
                  && 0 <= plan.call.off && plan.call.off + plan.call.len <= size
                  && plan.call.off == d.startSector * SECTOR && plan.call.len == d.nrSectors * SECTOR
                  && (plan.call.ReadAt? || plan.call.WriteAt? ==> plan.call.len <= bufSize)
                  && (Succeeded(plan.call, out) ==> ResultOf(plan.call, out) == plan.call.len))
  {
    AdvertisedArithmetic(LimitsOf(c, size, kernelMax), BufSize(c, kernelMax), d);
  }
}
