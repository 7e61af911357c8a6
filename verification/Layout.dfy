/** Memory layout: aligned pools, tag buffers, descriptor windows and the byte layouts in them. */
module Layout {
  import opened Bits
  import opened Disk
  import opened Requests

  const PAGE := 4096
  const DESC_SIZE := 24
  const MAX_QUEUE_DEPTH := 4096

  /** alignedAlloc's offset into a raw block of size + align bytes at `addr`. */
  function AlignOffset(addr: nat, align: nat): nat
    requires align > 0
  {
    (align - addr % align) % align
  }

  /** The slice is aligned, inside the block, and starts at the first aligned byte of it. */
  lemma AlignOffsetIsLeast(addr: nat, align: nat, size: nat)
    requires align > 0
    ensures (addr + AlignOffset(addr, align)) % align == 0
    ensures AlignOffset(addr, align) + size <= size + align
    ensures forall a: nat :: addr <= a < addr + AlignOffset(addr, align) ==> !IsAligned(a, align)
  {
    var r := addr % align;
    var off := AlignOffset(addr, align);
    assert addr == addr / align * align + r;
    if r == 0 {
      ModUnique(align, align, 1, 0);
      assert off == 0;
    } else {
      ModUnique(align - r, align, 0, align - r);
      assert off == align - r;
      assert addr + off == (addr / align + 1) * align;
      ModUnique(addr + off, align, addr / align + 1, 0);
      forall a: nat | addr <= a < addr + off
        ensures !IsAligned(a, align)
      {
        ModUnique(a, align, addr / align, r + (a - addr));
      }
    }
  }

  predicate IsAligned(addr: nat, align: nat)
    requires align > 0
  {
    addr % align == 0
  }

  /** A slice of the pool. */
  datatype Slice = Slice(off: nat, len: nat)

  /** Neither slice holds a byte of the other. */
  predicate Apart(a: Slice, b: Slice) {
    a.off + a.len <= b.off || b.off + b.len <= a.off
  }

  predicate Holds(s: Slice, p: nat) {
    s.off <= p < s.off + s.len
  }

  ghost predicate Covered(bufs: seq<Slice>, p: nat) {
    exists i :: 0 <= i < |bufs| && Holds(bufs[i], p)
  }

  /**
   allocBuffers: cut the pool into one buffer per tag. The buffers lie in the
   pool, are pairwise disjoint, and together cover it.
   */
  method AllocBuffers(depth: nat, bufSize: nat) returns (total: nat, bufs: seq<Slice>)
    ensures total == depth * bufSize && |bufs| == depth
    ensures forall i :: 0 <= i < depth ==> bufs[i].len == bufSize && bufs[i].off + bufSize <= total
    ensures forall i, j :: 0 <= i < j < depth ==> Apart(bufs[i], bufs[j])
    ensures forall p: nat :: p < total ==> Covered(bufs, p)
    ensures forall i :: 0 <= i < depth ==> bufs[i].off == i * bufSize
  {
    total := depth * bufSize;
    bufs := [];
    var i := 0;
    while i < depth
      invariant i <= depth && |bufs| == i
      invariant forall k :: 0 <= k < i ==> bufs[k] == Slice(k * bufSize, bufSize)
    {
      var off := i * bufSize;
      bufs := bufs + [Slice(off, bufSize)];
      i := i + 1;
    }
    forall k | 0 <= k < depth
      ensures bufs[k].off + bufSize <= total
    {
      MulNext(k, depth, bufSize);
    }
    forall j, k | 0 <= j < k < depth
      ensures Apart(bufs[j], bufs[k])
    {
      MulNext(j, k, bufSize);
    }
    forall p: nat | p < total
      ensures Covered(bufs, p)
    {
      var k := BufferHolding(p, depth, bufSize);
      assert Holds(bufs[k], p);
    }
  }

  lemma BufferHolding(p: nat, depth: nat, bufSize: nat) returns (k: nat)
    requires p < depth * bufSize
    ensures k < depth && k * bufSize <= p < k * bufSize + bufSize
  {
    k := p / bufSize;
    assert p == k * bufSize + p % bufSize;
    if k >= depth {
      MulSplit(depth, k - depth, bufSize);
      assert false;
    }
  }

  /**
   Over a page-aligned pool every tag buffer is page-aligned exactly when the
   buffer size is a multiple of the page size, or there is only one tag.
   */
  lemma BuffersPageAlignedIff(pool: nat, depth: nat, bufSize: nat)
    requires pool % PAGE == 0 && depth > 0
    ensures (forall i: nat :: i < depth ==> IsAligned(pool + i * bufSize, PAGE))
            <==> (bufSize % PAGE == 0 || depth == 1)
  {
    if bufSize % PAGE == 0 {
      forall i: nat | i < depth
        ensures IsAligned(pool + i * bufSize, PAGE)
      {
        MultipleOfPages(pool, i, bufSize);
      }
    } else if depth > 1 {
      assert (pool + 1 * bufSize) % PAGE == bufSize % PAGE;
      assert !IsAligned(pool + 1 * bufSize, PAGE);
    } else {
      forall i: nat | i < depth
        ensures IsAligned(pool + i * bufSize, PAGE)
      {
        assert i == 0 && pool + i * bufSize == pool;
      }
    }
  }

  lemma MultipleOfPages(pool: nat, i: nat, bufSize: nat)
    requires pool % PAGE == 0 && bufSize % PAGE == 0
    ensures (pool + i * bufSize) % PAGE == 0
  {
    var q, b := pool / PAGE, bufSize / PAGE;
    assert i * bufSize == (i * b) * PAGE by {
      assert bufSize == b * PAGE;
      MulRegroup(i, b, PAGE);
      MulRegroup(i, PAGE, b);
    }
    ModUnique(pool + i * bufSize, PAGE, q + i * b, 0);
  }

  /** mmapDescs: the descriptor window of a queue on the char device. */
  function DescWindow(qid: nat, depth: nat): Slice {
    Slice(qid * MAX_QUEUE_DEPTH * DESC_SIZE, depth * DESC_SIZE)
  }

  /**
   Windows have 24 bytes a tag, lie 98304 bytes apart and start on a page, and
   those of distinct queues are disjoint exactly up to depth 4096.
   */
  lemma DescWindowsDisjointIff(depth: nat)
    ensures forall q: nat :: DescWindow(q, depth) == Slice(q * 98304, depth * 24)
    ensures forall q: nat :: DescWindow(q, depth).off % PAGE == 0
    ensures (forall q: nat, r: nat :: q < r ==> Apart(DescWindow(q, depth), DescWindow(r, depth)))
            <==> depth <= MAX_QUEUE_DEPTH
  {
    forall q: nat
      ensures DescWindow(q, depth).off % PAGE == 0
    {
      assert DescWindow(q, depth).off == q * 24 * PAGE;
    }
    if depth > MAX_QUEUE_DEPTH {
      assert !Apart(DescWindow(0, depth), DescWindow(1, depth));
    } else {
      forall q: nat, r: nat | q < r
        ensures Apart(DescWindow(q, depth), DescWindow(r, depth))
      {
        WindowBefore(q, r, depth);
      }
    }
  }

  lemma WindowBefore(q: nat, r: nat, depth: nat)
    requires q < r && depth <= MAX_QUEUE_DEPTH
    ensures DescWindow(q, depth).off + DescWindow(q, depth).len <= DescWindow(r, depth).off
  {
    MulNext(q, r, MAX_QUEUE_DEPTH * DESC_SIZE);
  }

  // ---------------------------------------------------------------------
  // Little-endian records

  function LeBytes(n: nat, k: nat): (s: seq<byte>)
    ensures |s| == k
    decreases k, n
  {
    if k == 0 then [] else [n % 256] + LeBytes(n / 256, k - 1)
  }

  function LeValue(s: seq<byte>): nat {
    if s == [] then 0 else s[0] + 256 * LeValue(s[1..])
  }

  /** Little-endian: byte i holds bits 8i to 8i + 7. */
  lemma {:induction false} LeByteAt(n: nat, k: nat, i: nat)
    requires i < k
    ensures LeBytes(n, k)[i] == n / Pow2(8 * i) % 256
    decreases k
  {
    if i == 0 {
      assert Pow2(0) == 1;
    } else {
      LeByteAt(n / 256, k - 1, i - 1);
      Pow2Sum(8, 8 * (i - 1));
      assert Pow2(8) == 256;
      DivDiv(n, 256, Pow2(8 * (i - 1)));
    }
  }

  lemma DivDiv(n: nat, a: nat, b: nat)
    requires a > 0 && b > 0
    ensures a * b > 0 && n / a / b == n / (a * b)
  {
    MulAtLeast(a, b);
    var q, r := n / a / b, n / a % b;
    assert n / a == q * b + r;
    assert n == (q * b + r) * a + n % a;
    MulSplit(q * b, r, a);
    MulRegroup(q, a, b);
    MulNext(r, b, a);
    assert n == q * (a * b) + (r * a + n % a);
    DivUnique(n, a * b, q, r * a + n % a);
  }

  lemma {:induction false} LeRoundTrip(n: nat, k: nat)
    requires n < Pow2(8 * k)
    ensures LeValue(LeBytes(n, k)) == n
    decreases k
  {
    if k > 0 {
      Pow2Sum(8, 8 * (k - 1));
      assert Pow2(8) == 256;
      LeRoundTrip(n / 256, k - 1);
      assert LeBytes(n, k)[1..] == LeBytes(n / 256, k - 1);
    }
  }

  /** The kernel's side: struct ublksrv_io_desc as bytes. */
  function DescBytes(d: IoDesc, addr: nat): (s: seq<byte>)
    ensures |s| == DESC_SIZE
  {
    LeBytes(d.opFlags, 4) + LeBytes(d.nrSectors, 4) + LeBytes(d.startSector, 8) + LeBytes(addr, 8)
  }

  /** The record byte by byte: op_flags at 0, nr_sectors at 4, start_sector at 8, addr at 16. */
  lemma DescLayout(d: IoDesc, addr: nat, i: nat)
    requires i < 24
    ensures DescBytes(d, addr)[i] ==
            if i < 4 then d.opFlags / Pow2(8 * i) % 256
            else if i < 8 then d.nrSectors / Pow2(8 * (i - 4)) % 256
            else if i < 16 then d.startSector / Pow2(8 * (i - 8)) % 256
            else addr / Pow2(8 * (i - 16)) % 256
  {
    if i < 4 { LeByteAt(d.opFlags, 4, i); }
    else if i < 8 { LeByteAt(d.nrSectors, 4, i - 4); }
    else if i < 16 { LeByteAt(d.startSector, 8, i - 8); }
    else { LeByteAt(addr, 8, i - 16); }
  }

  function ParseDesc(s: seq<byte>): IoDesc
    requires |s| == DESC_SIZE
  {
    IoDesc(LeValue(s[..4]) % WORD, LeValue(s[4..8]) % WORD, LeValue(s[8..16]))
  }

  /** getDesc: the record at tag * 24 in the mapped descriptors. */
  function GetDesc(descs: seq<byte>, tag: nat): IoDesc
    requires (tag + 1) * DESC_SIZE <= |descs|
  {
    ParseDesc(descs[tag * DESC_SIZE..tag * DESC_SIZE + DESC_SIZE])
  }

  /** The kernel writes a tag's record. */
  function PutDesc(descs: seq<byte>, tag: nat, d: IoDesc, addr: nat): (s: seq<byte>)
    requires (tag + 1) * DESC_SIZE <= |descs|
    ensures |s| == |descs|
  {
    Splice(descs, tag * DESC_SIZE, DescBytes(d, addr))
  }

  lemma Fields(a: seq<byte>, b: seq<byte>, c: seq<byte>, d: seq<byte>)
    ensures var s := a + b + c + d;
            && s[..|a|] == a && s[|a|..|a| + |b|] == b
            && s[|a| + |b|..|a| + |b| + |c|] == c && s[|a| + |b| + |c|..] == d
  {
  }

  lemma Widths()
    ensures Pow2(16) == 0x1_0000 && Pow2(32) == WORD && Pow2(64) == 0x1_0000_0000_0000_0000
  {
    Pow2At32();
    Pow2Sum(32, 32);
    Pow2Sum(8, 8);
    assert Pow2(8) == 256;
  }

  lemma Le16(n: nat)
    requires n < 0x1_0000
    ensures LeValue(LeBytes(n, 2)) == n
  {
    Widths();
    LeRoundTrip(n, 2);
  }

  lemma Le32(n: u32)
    ensures LeValue(LeBytes(n, 4)) == n
  {
    Widths();
    LeRoundTrip(n, 4);
  }

  lemma Le64(n: nat)
    requires n < 0x1_0000_0000_0000_0000
    ensures LeValue(LeBytes(n, 8)) == n
  {
    Widths();
    LeRoundTrip(n, 8);
  }

  lemma RecordRoundTrip(d: IoDesc, addr: nat)
    requires d.startSector < 0x1_0000_0000_0000_0000
    ensures ParseDesc(DescBytes(d, addr)) == d
  {
    Le32(d.opFlags);
    Le32(d.nrSectors);
    Le64(d.startSector);
    RecordFields(LeBytes(d.opFlags, 4), LeBytes(d.nrSectors, 4), LeBytes(d.startSector, 8), LeBytes(addr, 8));
  }

  lemma RecordFields(a: seq<byte>, b: seq<byte>, c: seq<byte>, d: seq<byte>)
    requires |a| == 4 && |b| == 4 && |c| == 8 && |d| == 8
    ensures ParseDesc(a + b + c + d) == IoDesc(LeValue(a) % WORD, LeValue(b) % WORD, LeValue(c))
  {
    Fields(a, b, c, d);
  }

  /** What the kernel writes for a tag is what the worker reads for it. */
  lemma DescRoundTrip(descs: seq<byte>, tag: nat, d: IoDesc, addr: nat)
    requires (tag + 1) * DESC_SIZE <= |descs| && d.startSector < 0x1_0000_0000_0000_0000
    ensures GetDesc(PutDesc(descs, tag, d, addr), tag) == d
  {
    SpliceHere(descs, tag * DESC_SIZE, DescBytes(d, addr));
    RecordRoundTrip(d, addr);
  }

  /** Writing one tag's record leaves every other tag's record as it was. */
  lemma DescsIndependent(descs: seq<byte>, tag: nat, other: nat, d: IoDesc, addr: nat)
    requires (tag + 1) * DESC_SIZE <= |descs| && (other + 1) * DESC_SIZE <= |descs| && tag != other
    ensures GetDesc(PutDesc(descs, tag, d, addr), other) == GetDesc(descs, other)
  {
    RecordElsewhere(descs, tag, other, DescBytes(d, addr));
  }

  /** The mapped bytes hold these descriptors. */
  ghost predicate Mapped(bytes: seq<byte>, descs: seq<IoDesc>) {
    |bytes| == |descs| * DESC_SIZE && forall t :: 0 <= t < |descs| ==> RecordIs(bytes, t, descs[t])
  }

  predicate RecordIs(bytes: seq<byte>, t: nat, d: IoDesc) {
    t * DESC_SIZE + DESC_SIZE <= |bytes| && GetDesc(bytes, t) == d
  }

  /** A record written for one tag changes that tag's descriptor and no other. */
  lemma PutKeepsMapped(bytes: seq<byte>, descs: seq<IoDesc>, tag: nat, d: IoDesc, addr: nat)
    requires Mapped(bytes, descs) && tag < |descs| && d.startSector < 0x1_0000_0000_0000_0000
    ensures (tag + 1) * DESC_SIZE <= |bytes|
    ensures Mapped(PutDesc(bytes, tag, d, addr), descs[tag := d])
  {
    MulNext(tag, |descs|, DESC_SIZE);
    DescRoundTrip(bytes, tag, d, addr);
    var bytes', descs' := PutDesc(bytes, tag, d, addr), descs[tag := d];
    forall t | 0 <= t < |descs'|
      ensures RecordIs(bytes', t, descs'[t])
    {
      assert RecordIs(bytes, t, descs[t]);
      if t != tag { DescsIndependent(bytes, tag, t, d, addr); }
    }
  }

  lemma {:induction false} LeZeros(k: nat)
    ensures LeValue(Zeros(k)) == 0
  {
    if k > 0 {
      assert Zeros(k)[1..] == Zeros(k - 1);
      LeZeros(k - 1);
    }
  }

  lemma ZeroSlice(n: nat, a: nat, b: nat)
    requires a <= b <= n
    ensures Zeros(n)[a..b] == Zeros(b - a)
  {
  }

  /** A fresh mapping holds blank descriptors. */
  lemma ZerosAreMapped(n: nat)
    ensures Mapped(Zeros(n * DESC_SIZE), seq(n, _ => IoDesc(0, 0, 0)))
  {
    var bytes := Zeros(n * DESC_SIZE);
    forall t: nat | t < n
      ensures RecordIs(bytes, t, IoDesc(0, 0, 0))
    {
      MulNext(t, n, DESC_SIZE);
      var a := t * DESC_SIZE;
      assert bytes[a..a + DESC_SIZE] == Zeros(DESC_SIZE);
      ZeroSlice(DESC_SIZE, 0, 4);
      ZeroSlice(DESC_SIZE, 4, 8);
      ZeroSlice(DESC_SIZE, 8, 16);
      LeZeros(4);
      LeZeros(8);
    }
  }

  lemma RecordElsewhere(descs: seq<byte>, tag: nat, other: nat, record: seq<byte>)
    requires (tag + 1) * DESC_SIZE <= |descs| && (other + 1) * DESC_SIZE <= |descs| && tag != other
    requires |record| == DESC_SIZE
    ensures GetDesc(Splice(descs, tag * DESC_SIZE, record), other) == GetDesc(descs, other)
  {
    SpliceElsewhere(descs, tag * DESC_SIZE, record, other * DESC_SIZE, DESC_SIZE);
  }

  /** struct ublksrv_io_cmd. */
  datatype IoCmd = IoCmd(qid: nat, tag: nat, result: int, addr: nat)

  predicate InWidth(c: IoCmd) {
    && c.qid < 0x1_0000 && c.tag < 0x1_0000
    && -0x8000_0000 <= c.result < 0x8000_0000
    && c.addr < 0x1_0000_0000_0000_0000
  }

  /** The command bytes copied into the 16-byte Cmd field of an SQE64. */
  function CmdBytes(c: IoCmd): (s: seq<byte>)
    ensures |s| == 16
  {
    LeBytes(c.qid, 2) + LeBytes(c.tag, 2) + LeBytes(c.result % WORD, 4) + LeBytes(c.addr, 8)
  }

  /** The command byte by byte: q_id at 0, tag at 2, result in two's complement at 4, addr at 8. */
  lemma CmdLayout(c: IoCmd, i: nat)
    requires i < 16
    ensures CmdBytes(c)[i] ==
            if i < 2 then c.qid / Pow2(8 * i) % 256
            else if i < 4 then c.tag / Pow2(8 * (i - 2)) % 256
            else if i < 8 then c.result % 0x1_0000_0000 / Pow2(8 * (i - 4)) % 256
            else c.addr / Pow2(8 * (i - 8)) % 256
  {
    if i < 2 { LeByteAt(c.qid, 2, i); }
    else if i < 4 { LeByteAt(c.tag, 2, i - 2); }
    else if i < 8 { LeByteAt(c.result % WORD, 4, i - 4); }
    else { LeByteAt(c.addr, 8, i - 8); }
  }

  function ParseCmd(s: seq<byte>): IoCmd
    requires |s| == 16
  {
    IoCmd(LeValue(s[..2]), LeValue(s[2..4]), AsInt32(LeValue(s[4..8])), LeValue(s[8..]))
  }

  /** Tag, result and buffer address reach the kernel unchanged, negative results included. */
  lemma CmdRoundTrip(c: IoCmd)
    requires InWidth(c)
    ensures ParseCmd(CmdBytes(c)) == c
  {
    CmdFields(LeBytes(c.qid, 2), LeBytes(c.tag, 2), LeBytes(c.result % WORD, 4), LeBytes(c.addr, 8));
    Le16(c.qid);
    Le16(c.tag);
    Le32(c.result % WORD);
    Le64(c.addr);
    SignedRoundTrip(c.result);
  }

  lemma CmdFields(a: seq<byte>, b: seq<byte>, c: seq<byte>, d: seq<byte>)
    requires |a| == 2 && |b| == 2 && |c| == 4 && |d| == 8
    ensures ParseCmd(a + b + c + d) == IoCmd(LeValue(a), LeValue(b), AsInt32(LeValue(c)), LeValue(d))
  {
    Fields(a, b, c, d);
  }

  lemma SignedRoundTrip(x: int)
    requires -0x8000_0000 <= x < 0x8000_0000
    ensures AsInt32(x % WORD) == x
  {
  }
}
