/** Request execution: from a mapped descriptor to a backend call and a result. */
module Requests {
  import opened Bits
  import opened Disk

  const OP_READ := 0
  const OP_WRITE := 1
  const OP_DISCARD := 3
  const OP_WRITE_ZEROES := 5
  const FLAG_NO_UNMAP := 0x8000
  const SECTOR := 512
  const MAX_WIDE_SECTORS := 0x20_0000   // 2^21 sectors, 1 GiB per discard or zeroing

  /** struct ublksrv_io_desc as the worker reads it. */
  datatype IoDesc = IoDesc(opFlags: u32, nrSectors: u32, startSector: nat)

  datatype Call =
    | ReadAt(off: int, len: nat)
    | WriteAt(off: int, len: nat)
    | DiscardAt(off: int, len: nat)
    | WriteZeroesAt(off: int, len: nat, noUnmap: bool)

  datatype Plan = Answer(result: int) | Invoke(call: Call)

  /** What a backend call did: count, error, the buffer and the disk afterwards. */
  datatype Outcome = Outcome(n: int, err: bool, buf: seq<byte>, disk: seq<byte>)

  function OpCode(d: IoDesc): nat { And(d.opFlags, 0xFF) }

  /** The worker's offset arithmetic, in int64. */
  function Offset(d: IoDesc): int { AsInt64(d.startSector * SECTOR) }

  function Length(d: IoDesc): nat { d.nrSectors * SECTOR }

  /** handleIO up to the backend call: which call to make, or the answer without one. */
  function PlanOf(caps: Caps, bufSize: nat, d: IoDesc): Plan {
    var op, off, len := OpCode(d), Offset(d), Length(d);
    if op == OP_READ then
      if len == 0 then Answer(0)
      else if len > bufSize then Answer(-EIO)
      else Invoke(ReadAt(off, len))
    else if op == OP_WRITE then
      if len == 0 then Answer(0)
      else if len > bufSize then Answer(-EIO)
      else Invoke(WriteAt(off, len))
    else if op == OP_DISCARD then
      if !caps.discard then Answer(-EOPNOTSUPP)
      else if len == 0 then Answer(0)
      else Invoke(DiscardAt(off, len))
    else if op == OP_WRITE_ZEROES then
      if !caps.zero then Answer(-EOPNOTSUPP)
      else if len == 0 then Answer(0)
      else Invoke(WriteZeroesAt(off, len, And(d.opFlags, FLAG_NO_UNMAP) != 0))
    else Answer(-EOPNOTSUPP)
  }

  /**
   Which requests reach the backend, by the opcode byte: non-empty reads and
   writes that fit the buffer, discards and zeroings of any size the backend
   supports. The no-unmap flag is bit 15.
   */
  lemma BackendCalledIff(caps: Caps, bufSize: nat, d: IoDesc)
    ensures var plan, op := PlanOf(caps, bufSize, d), d.opFlags % 256;
            && (plan.Invoke? <==>
                  d.nrSectors > 0 && (|| (op in {OP_READ, OP_WRITE} && d.nrSectors * SECTOR <= bufSize)
                                      || (op == OP_DISCARD && caps.discard)
                                      || (op == OP_WRITE_ZEROES && caps.zero)))
            && (plan.Invoke? ==>
                  && plan.call.len == d.nrSectors * SECTOR
                  && (plan.call.ReadAt? <==> op == OP_READ) && (plan.call.WriteAt? <==> op == OP_WRITE)
                  && (plan.call.DiscardAt? <==> op == OP_DISCARD)
                  && (plan.call.WriteZeroesAt? ==> (plan.call.noUnmap <==> d.opFlags / FLAG_NO_UNMAP % 2 == 1)))
            && (op !in {OP_READ, OP_WRITE, OP_DISCARD, OP_WRITE_ZEROES} ==> plan == Answer(-EOPNOTSUPP))
  {
    FlagBits();
    AndMask(d.opFlags, 8);
    AndBit(d.opFlags, 15);
  }

  lemma FlagBits()
    ensures Pow2(8) == 256 && Pow2(15) == FLAG_NO_UNMAP
  {
    Pow2Sum(8, 7);
    assert Pow2(8) == 256 && Pow2(7) == 128;
  }

  /** handleIO after the backend call. */
  function ResultOf(call: Call, out: Outcome): int {
    if out.err || out.n != call.len then -EIO else AsInt32(out.n)
  }

  predicate Succeeded(call: Call, out: Outcome) {
    !out.err && out.n == call.len
  }

  /**
   The io.ReaderAt/io.WriterAt contracts, and no more: the backend may fail or
   come up short at any time, use the read buffer as scratch space, and leave
   the range of a failed mutation in any state.
   */
  predicate Honest(disk: seq<byte>, call: Call, payload: seq<byte>, out: Outcome) {
    && |out.disk| == |disk|
    && match call
       case ReadAt(off, len) =>
         && out.disk == disk && |out.buf| == len
         && (Succeeded(call, out) ==> InRange(disk, off, len) && out.buf == disk[off..off + len])
       case WriteAt(off, len) =>
         && SameOutside(disk, out.disk, off, len)
         && (Succeeded(call, out) ==>
               InRange(disk, off, len) && |payload| == len && out.disk == Splice(disk, off, payload))
       case DiscardAt(off, len) =>
         && SameOutside(disk, out.disk, off, len)
         && (Succeeded(call, out) ==> InRange(disk, off, len))
       case WriteZeroesAt(off, len, _) =>
         && SameOutside(disk, out.disk, off, len)
         && (Succeeded(call, out) ==> InRange(disk, off, len) && out.disk == Splice(disk, off, Zeros(len)))
  }

  /** Result, tag buffer and disk after handleIO. */
  datatype Served = Served(result: int, buf: seq<byte>, disk: seq<byte>)

  /** The bytes handed to WriteAt. */
  function PayloadOf(plan: Plan, buf: seq<byte>): seq<byte> {
    if plan.Invoke? && plan.call.WriteAt? && plan.call.len <= |buf| then buf[..plan.call.len] else []
  }

  predicate Allowed(caps: Caps, bufSize: nat, d: IoDesc, buf: seq<byte>, disk: seq<byte>, out: Outcome) {
    var plan := PlanOf(caps, bufSize, d);
    plan.Invoke? ==> Honest(disk, plan.call, PayloadOf(plan, buf), out)
  }

  /** handleIO on one tag: its descriptor, its buffer, the disk, and the backend's answer. */
  function HandleIO(caps: Caps, bufSize: nat, d: IoDesc, buf: seq<byte>, disk: seq<byte>, out: Outcome): (s: Served)
    requires |buf| == bufSize && Allowed(caps, bufSize, d, buf, disk, out)
    ensures |s.buf| == bufSize && |s.disk| == |disk|
  {
    match PlanOf(caps, bufSize, d)
    case Answer(r) => Served(r, buf, disk)
    case Invoke(call) =>
      if call.ReadAt? then Served(ResultOf(call, out), out.buf + buf[call.len..], disk)
      else Served(ResultOf(call, out), buf, out.disk)
  }

  // ---------------------------------------------------------------------
  // Requests within the limits the device advertises

  /** What setParams told the kernel: device size and the largest read or write. */
  datatype Limits = Limits(size: nat, maxSectors: nat)

  predicate Advertised(l: Limits, d: IoDesc) {
    && d.startSector + d.nrSectors <= l.size / SECTOR
    && (OpCode(d) in {OP_READ, OP_WRITE} ==> d.nrSectors <= l.maxSectors)
    && (OpCode(d) in {OP_DISCARD, OP_WRITE_ZEROES} ==> d.nrSectors <= MAX_WIDE_SECTORS)
  }

  /** A device whose offsets fit int64 and whose buffers hold the advertised maximum. */
  predicate Sound(l: Limits, bufSize: nat) {
    && l.size <= 0x8000_0000_0000_0000
    && l.maxSectors * SECTOR <= bufSize <= 0x10_0000
  }

  /** The request in exact byte arithmetic. */
  function Meaning(d: IoDesc, payload: seq<byte>): Op {
    var op, off, len := OpCode(d), d.startSector * SECTOR, d.nrSectors * SECTOR;
    if op == OP_READ then Read(off, len)
    else if op == OP_WRITE then Write(off, payload)
    else if op == OP_DISCARD then Discard(off, len)
    else if op == OP_WRITE_ZEROES then Zero(off, len)
    else Unsupported
  }

  /** Offsets and lengths neither wrap nor leave the device, and results are not truncated. */
  lemma AdvertisedArithmetic(l: Limits, bufSize: nat, d: IoDesc)
    requires Sound(l, bufSize) && Advertised(l, d)
    ensures d.startSector * SECTOR + Length(d) <= l.size
    ensures Length(d) > 0 ==> Offset(d) == d.startSector * SECTOR
    ensures OpCode(d) in {OP_READ, OP_WRITE} ==> Length(d) <= bufSize
    ensures OpCode(d) in {OP_READ, OP_WRITE, OP_DISCARD, OP_WRITE_ZEROES} ==> AsInt32(Length(d)) == Length(d)
  {
    assert (d.startSector + d.nrSectors) * SECTOR <= l.size;
  }

  /** The result survives int32(n) exactly below 2^22 sectors. */
  lemma ResultFitsInt32Iff(nr: u32)
    ensures AsInt32(nr * SECTOR) == nr * SECTOR <==> nr < 0x40_0000
  {
  }

  /** Every non-empty request's offset survives int64 exactly up to 2^63 bytes. */
  lemma OffsetsFitIff(size: nat)
    ensures (forall start: nat :: start * SECTOR < size ==> AsInt64(start * SECTOR) == start * SECTOR)
            <==> size <= 0x8000_0000_0000_0000
  {
    if size > 0x8000_0000_0000_0000 {
      var start: nat := 0x40_0000_0000_0000;
      assert start * SECTOR == 0x8000_0000_0000_0000;
      assert AsInt64(start * SECTOR) < 0;
    }
  }

  /** The bytes a successful read leaves for the requester. */
  function DataOf(d: IoDesc, result: int, buf: seq<byte>): seq<byte> {
    if OpCode(d) == OP_READ && 0 <= result <= |buf| then buf[..result] else []
  }

  /**
   Serving an advertised request is one step of the byte-array disk, whatever
   the backend does within its contract.
   */
  lemma ServingIsASpecStep(caps: Caps, l: Limits, bufSize: nat, d: IoDesc, payload: seq<byte>,
                           buf: seq<byte>, disk: seq<byte>, out: Outcome)
    requires Sound(l, bufSize) && Advertised(l, d) && |disk| == l.size
    requires |buf| == bufSize && Allowed(caps, bufSize, d, buf, disk, out)
    requires OpCode(d) == OP_WRITE ==> |payload| == Length(d) && payload <= buf
    ensures var s := HandleIO(caps, bufSize, d, buf, disk, out);
            && SpecStep(caps, disk, Meaning(d, payload), Reply(s.result, DataOf(d, s.result, s.buf)), s.disk)
  {
    AdvertisedArithmetic(l, bufSize, d);
    var s := HandleIO(caps, bufSize, d, buf, disk, out);
    var plan := PlanOf(caps, bufSize, d);
    var off := d.startSector * SECTOR;
    if plan.Invoke? {
      if Succeeded(plan.call, out) {
        assert s.result == Length(d);
      } else {
        assert s.result == -EIO;
      }
    } else {
      assert disk[off..off] == [];
      assert Splice(disk, off, []) == disk;
      if OpCode(d) == OP_WRITE { assert payload == []; }
      if OpCode(d) == OP_WRITE_ZEROES { assert Zeros(0) == []; }
    }
  }

  /** The opcode byte names a request this backend serves. */
  predicate Serves(caps: Caps, opFlags: u32) {
    var op := opFlags % 256;
    op == 0 || op == 1 || (op == 3 && caps.discard) || (op == 5 && caps.zero)
  }

  /**
   What handleIO answers, in numbers: the length of a served request exactly if
   the backend reported that count and no error, otherwise -EIO; nothing for an
   empty one; -EOPNOTSUPP for any other opcode.
   */
  lemma AnswerIs(caps: Caps, l: Limits, bufSize: nat, d: IoDesc, buf: seq<byte>, disk: seq<byte>, out: Outcome)
    requires Sound(l, bufSize) && Advertised(l, d) && |buf| == bufSize
    requires Allowed(caps, bufSize, d, buf, disk, out)
    ensures HandleIO(caps, bufSize, d, buf, disk, out).result ==
            if !Serves(caps, d.opFlags) then -95
            else if d.nrSectors == 0 then 0
            else if out.n == d.nrSectors * 512 && !out.err then d.nrSectors * 512
            else -5
  {
    AdvertisedArithmetic(l, bufSize, d);
    FlagBits();
    AndMask(d.opFlags, 8);
  }

  /** Serving can always proceed: a failing backend is within its contract. */
  lemma SomeOutcomeIsAllowed(caps: Caps, bufSize: nat, d: IoDesc, buf: seq<byte>, disk: seq<byte>)
    returns (out: Outcome)
    requires |buf| == bufSize
    ensures Allowed(caps, bufSize, d, buf, disk, out)
  {
    var plan := PlanOf(caps, bufSize, d);
    var n := if plan.Invoke? then plan.call.len else 0;
    out := Outcome(0, true, Zeros(n), disk);
  }

  // ---------------------------------------------------------------------
  // Full reads with io.EOF

  /**
   io.ReaderAt in full, over a source of |disk| bytes: the first n bytes are
   right, a short count comes with an error, and a full count comes with one
   only as io.EOF at the end of the source.
   */
  predicate ReaderAt(disk: seq<byte>, off: int, len: nat, out: Outcome) {
    && out.disk == disk && |out.buf| == len && 0 <= out.n <= len
    && (out.n > 0 ==> InRange(disk, off, out.n) && out.buf[..out.n] == disk[off..off + out.n])
    && (out.n < len ==> out.err)
    && (out.n == len && out.err ==> off + len == |disk|)
  }

  /** The backend delivered every byte of the read and handleIO reports a failure. */
  ghost predicate FullReadFailed(caps: Caps, bufSize: nat, d: IoDesc, buf: seq<byte>, disk: seq<byte>, out: Outcome)
    requires |buf| == bufSize
  {
    && ReaderAt(disk, Offset(d), Length(d), out) && out.n == Length(d)
    && Allowed(caps, bufSize, d, buf, disk, out)
    && HandleIO(caps, bufSize, d, buf, disk, out).result == -EIO
  }

  /** A conforming reader makes handleIO fail a read it served in full exactly at the end of the device. */
  lemma FullReadFailsIff(caps: Caps, l: Limits, bufSize: nat, d: IoDesc, buf: seq<byte>, disk: seq<byte>)
    requires Sound(l, bufSize) && Advertised(l, d) && |disk| == l.size && |buf| == bufSize
    requires OpCode(d) == OP_READ && d.nrSectors > 0
    ensures (exists out :: FullReadFailed(caps, bufSize, d, buf, disk, out))
            <==> d.startSector * SECTOR + Length(d) == |disk|
  {
    AdvertisedArithmetic(l, bufSize, d);
    var off, len := Offset(d), Length(d);
    if off + len == |disk| {
      assert FullReadFailed(caps, bufSize, d, buf, disk, Outcome(len, true, disk[off..off + len], disk));
    }
  }
}
