/** The sequential specification of the device: a plain array of bytes. */
module Disk {

  type byte = x: int | 0 <= x < 256

  const EIO: int := 5
  const EOPNOTSUPP: int := 95

  /** Optional backend capabilities (Discarder, ZeroWriter). */
  datatype Caps = Caps(discard: bool, zero: bool)

  /** A block request, in bytes. */
  datatype Op =
    | Read(off: nat, len: nat)
    | Write(off: nat, bytes: seq<byte>)
    | Discard(off: nat, len: nat)
    | Zero(off: nat, len: nat)
    | Unsupported

  /** What the requester sees: the result code, and the bytes of a successful read. */
  datatype Reply = Reply(result: int, data: seq<byte>)

  function Zeros(n: nat): (z: seq<byte>)
    ensures |z| == n
  {
    seq(n, _ => 0)
  }

  predicate InRange(disk: seq<byte>, off: int, len: nat) {
    0 <= off && off + len <= |disk|
  }

  /** `disk` with `bytes` written at `off`. */
  function Splice(disk: seq<byte>, off: nat, bytes: seq<byte>): (r: seq<byte>)
    requires off + |bytes| <= |disk|
    ensures |r| == |disk|
  {
    disk[..off] + bytes + disk[off + |bytes|..]
  }

  lemma SpliceElsewhere(pool: seq<byte>, at: nat, bytes: seq<byte>, from: nat, n: nat)
    requires at + |bytes| <= |pool| && from + n <= |pool|
    requires at + |bytes| <= from || from + n <= at
    ensures Splice(pool, at, bytes)[from..from + n] == pool[from..from + n]
  {
  }

  lemma SpliceHere(pool: seq<byte>, at: nat, bytes: seq<byte>)
    requires at + |bytes| <= |pool|
    ensures Splice(pool, at, bytes)[at..at + |bytes|] == bytes
  {
  }

  /** The disks agree outside the range. */
  predicate SameOutside(d: seq<byte>, d': seq<byte>, off: int, len: nat) {
    |d'| == |d| && forall i :: 0 <= i < |d| && !(off <= i < off + len) ==> d'[i] == d[i]
  }

  /**
   One operation on the byte array. A failed write, discard or zeroing may leave
   its own range, and only that, in any state; a discarded range is undefined.
   */
  predicate SpecStep(caps: Caps, d: seq<byte>, op: Op, r: Reply, d': seq<byte>) {
    match op
    case Read(off, len) =>
      && InRange(d, off, len) && d' == d
      && (r == Reply(len, d[off..off + len]) || r == Reply(-EIO, []))
    case Write(off, bytes) =>
      && InRange(d, off, |bytes|)
      && ((r == Reply(|bytes|, []) && d' == Splice(d, off, bytes))
          || (r == Reply(-EIO, []) && SameOutside(d, d', off, |bytes|)))
    case Discard(off, len) =>
      && InRange(d, off, len)
      && (if caps.discard
          then r in {Reply(len, []), Reply(-EIO, [])} && SameOutside(d, d', off, len)
          else r == Reply(-EOPNOTSUPP, []) && d' == d)
    case Zero(off, len) =>
      && InRange(d, off, len)
      && (if caps.zero
          then || (r == Reply(len, []) && d' == Splice(d, off, Zeros(len)))
               || (r == Reply(-EIO, []) && SameOutside(d, d', off, len))
          else r == Reply(-EOPNOTSUPP, []) && d' == d)
    case Unsupported =>
      r == Reply(-EOPNOTSUPP, []) && d' == d
  }

  /** An operation as it took effect. */
  datatype Effect = Effect(id: nat, op: Op, reply: Reply)

  /** Taking effect in order, the operations lead from `d0` to `d`. */
  ghost predicate Replays(caps: Caps, d0: seq<byte>, es: seq<Effect>, d: seq<byte>) {
    if es == [] then d == d0
    else
      var last := es[|es| - 1];
      exists mid: seq<byte> ::
        Replays(caps, d0, es[..|es| - 1], mid) && SpecStep(caps, mid, last.op, last.reply, d)
  }

  lemma ReplaysPush(caps: Caps, d0: seq<byte>, es: seq<Effect>, mid: seq<byte>, e: Effect, d: seq<byte>)
    requires Replays(caps, d0, es, mid) && SpecStep(caps, mid, e.op, e.reply, d)
    ensures Replays(caps, d0, es + [e], d)
  {
    var all := es + [e];
    assert all[..|all| - 1] == es && all[|all| - 1] == e;
    assert Replays(caps, d0, all[..|all| - 1], mid) && SpecStep(caps, mid, e.op, e.reply, d);
  }

  /** The request succeeded and its effect is determined. */
  predicate Clean(e: Effect) {
    e.reply.result >= 0 && !e.op.Discard?
  }

  /** The number of bytes an operation covers. */
  function Size(op: Op): nat {
    match op
    case Read(_, len) => len
    case Write(_, bytes) => |bytes|
    case Discard(_, len) => len
    case Zero(_, len) => len
    case Unsupported => 0
  }

  /** A request that was answered with its full length. */
  predicate Complete(e: Effect) {
    !e.op.Unsupported? && e.reply.result == Size(e.op)
  }

  function Apply(d: seq<byte>, op: Op): (r: seq<byte>)
    ensures |r| == |d|
  {
    match op
    case Write(off, bytes) => if InRange(d, off, |bytes|) then Splice(d, off, bytes) else d
    case Zero(off, len) => if InRange(d, off, len) then Splice(d, off, Zeros(len)) else d
    case _ => d
  }

  function ApplyAll(d0: seq<byte>, es: seq<Effect>): seq<byte> {
    if es == [] then d0
    else Apply(ApplyAll(d0, es[..|es| - 1]), es[|es| - 1].op)
  }

  /**
   When nothing fails, the specification is deterministic: the disk is the
   initial one with the writes applied in order, and every read returns the
   bytes that are there.
   */
  lemma {:induction false} CleanReplayIsAnArray(caps: Caps, d0: seq<byte>, es: seq<Effect>, d: seq<byte>)
    requires Replays(caps, d0, es, d)
    requires forall i :: 0 <= i < |es| ==> Clean(es[i])
    ensures d == ApplyAll(d0, es)
    ensures forall k :: 0 <= k < |es| ==> ReadsArray(d0, es, k)
  {
    if es != [] {
      var init, last := es[..|es| - 1], es[|es| - 1];
      var mid: seq<byte> :| Replays(caps, d0, init, mid) && SpecStep(caps, mid, last.op, last.reply, d);
      CleanReplayIsAnArray(caps, d0, init, mid);
      forall k | 0 <= k < |es|
        ensures ReadsArray(d0, es, k)
      {
        if k < |init| {
          assert ReadsArray(d0, init, k);
          assert init[..k] == es[..k] && init[k] == es[k];
        }
      }
    }
  }

  /** If the k-th effect is a read, its data is what the array holds at that point. */
  predicate ReadsArray(d0: seq<byte>, es: seq<Effect>, k: nat)
    requires k < |es|
  {
    es[k].op.Read? ==>
      && InRange(ApplyAll(d0, es[..k]), es[k].op.off, es[k].op.len)
      && es[k].reply.data == ApplyAll(d0, es[..k])[es[k].op.off..es[k].op.off + es[k].op.len]
  }
}
