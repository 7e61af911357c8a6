/**
 The io_uring wrapper: submission and completion queues kept as uint32
 counters that wrap at 2^32 over power-of-two arrays, and the cancel handshake.
 */
module Ring {
  import opened Bits
  import opened SubmissionQueue

  datatype Cqe = Cqe(userData: nat, res: int)

  /** What one epoll_wait brought back, and what the other threads did meanwhile. */
  datatype Wake = Wake(posted: seq<Cqe>, cancel: bool, outcome: EpollOutcome)
  datatype EpollOutcome = Interrupted | Failed | Events(sawCancelFd: bool)

  /** Brings nothing that ends a wait. */
  predicate Idle(w: Wake) {
    w.posted == [] && !w.cancel && (w.outcome == Interrupted || w.outcome == Events(false))
  }

  datatype WaitResult = Completion(slot: nat) | ErrCancelled | ErrEpoll | StillWaiting

  /** `n` ring entries starting at free-running position `start`. */
  function Gather<T>(a: seq<T>, start: nat, n: nat): (r: seq<T>)
    requires |a| > 0
    ensures |r| == n
  {
    seq(n, i requires 0 <= i < n => a[(start + i) % |a|])
  }

  /** The abstract queue held by slots `a` and the four submission counters. */
  ghost function View<T>(a: seq<T>, h: nat, t: nat, lh: nat, lt: nat): Sq<T>
    requires |a| > 0 && h <= lh <= t <= lt
  {
    Sq(Gather(a, h, t - h), Gather(a, t, lt - t), t - lh)
  }

  lemma ModCancel(a: nat, i: nat, j: nat, m: nat)
    requires m > 0
    ensures (a + i) % m == (a + j) % m <==> i % m == j % m
  {
    ModShift(a, i, m);
    ModShift(a, j, m);
    var r, x, y := a % m, i % m, j % m;
    if x != y && (r + x) % m == (r + y) % m {
      if x < y { SlotsDiffer(r + x, r + y, m); } else { SlotsDiffer(r + y, r + x, m); }
    }
  }

  lemma ModShift(a: nat, i: nat, m: nat)
    requires m > 0
    ensures (a + i) % m == (a % m + i % m) % m
  {
    var s := a % m + i % m;
    assert a == a / m * m + a % m;
    assert i == i / m * m + i % m;
    assert s == s / m * m + s % m;
    assert a + i == (a / m + i / m + s / m) * m + s % m by {
      MulSplit(a / m + i / m, s / m, m);
      MulSplit(a / m, i / m, m);
    }
    ModUnique(a + i, m, a / m + i / m + s / m, s % m);
  }

  lemma GatherClobber<T>(a: seq<T>, start: nat, n: nat, j: nat, e: T)
    requires |a| > 0
    ensures Gather(a[(start + j) % |a| := e], start, n) == Clobber(Gather(a, start, n), j, |a|, e)
  {
    forall i | 0 <= i < n
      ensures Gather(a[(start + j) % |a| := e], start, n)[i] == Clobber(Gather(a, start, n), j, |a|, e)[i]
    {
      ModCancel(start, i, j, |a|);
    }
  }

  lemma GatherPush<T>(a: seq<T>, start: nat, n: nat, e: T)
    requires n < |a|
    ensures Gather(a[(start + n) % |a| := e], start, n + 1) == Gather(a, start, n) + [e]
  {
    forall i | 0 <= i < n
      ensures Gather(a[(start + n) % |a| := e], start, n + 1)[i] == Gather(a, start, n)[i]
    {
      SlotsDiffer(start + i, start + n, |a|);
    }
  }

  lemma GatherNext<T>(a: seq<T>, start: nat, n: nat)
    requires |a| > 0
    ensures Gather(a, start, n + 1) == Gather(a, start, n) + [a[(start + n) % |a|]]
  {
  }

  /** GatherPush by end position. */
  lemma GatherPushAt<T>(a: seq<T>, start: nat, end: nat, e: T)
    requires start <= end < start + |a|
    ensures Gather(a[end % |a| := e], start, end + 1 - start) == Gather(a, start, end - start) + [e]
  {
    assert start + (end - start) == end;
    GatherPush(a, start, end - start, e);
  }

  lemma GatherSplit<T>(a: seq<T>, start: nat, n: nat, k: nat)
    requires |a| > 0 && k <= n
    ensures Gather(a, start, n)[..k] == Gather(a, start, k)
    ensures Gather(a, start, n)[k..] == Gather(a, start + k, n - k)
  {
    forall i | 0 <= i < n - k
      ensures Gather(a, start, n)[k..][i] == Gather(a, start + k, n - k)[i]
    {
      assert start + (k + i) == start + k + i;
    }
  }

  /** Writing the next slot and advancing the local tail is `Stage`. */
  lemma ViewStage<T>(a: seq<T>, h: nat, t: nat, lh: nat, lt: nat, e: T)
    requires |a| > 0 && h <= lh <= t <= lt && lt - lh < |a|
    ensures !Full(View(a, h, t, lh, lt), |a|)
    ensures View(a[lt % |a| := e], h, t, lh, lt + 1) == Stage(View(a, h, t, lh, lt), |a|, e)
  {
    assert h + (lt - h) == lt && t + (lt - t) == lt;
    GatherClobber(a, h, t - h, lt - h, e);
    GatherPush(a, t, lt - t, e);
  }

  lemma ViewFlush<T>(a: seq<T>, h: nat, t: nat, lh: nat, lt: nat)
    requires |a| > 0 && h <= lh <= t <= lt
    ensures View(a, h, lt, lt, lt) == Flush(View(a, h, t, lh, lt))
  {
    GatherSplit(a, h, lt - h, t - h);
    assert Gather(a, h, lt - h) == Gather(a, h, lt - h)[..t - h] + Gather(a, h, lt - h)[t - h..];
  }

  lemma ViewConsume<T>(a: seq<T>, h: nat, t: nat, lt: nat, n: nat)
    requires |a| > 0 && h <= t <= lt && n <= t - h
    ensures View(a, h + n, t, t, lt) == Consume(View(a, h, t, t, lt), n)
    ensures View(a, h, t, t, lt).published[..n] == Gather(a, h, n)
  {
    GatherSplit(a, h, t - h, n);
  }

  predicate PointsToItself(a: seq<u32>, p: nat)
    requires |a| > 0
  {
    a[p % |a|] == p % |a|
  }

  /** The indirection array is the identity at positions from..to. */
  ghost predicate IdentityOn(a: seq<u32>, from: nat, to: nat)
    requires |a| > 0
  {
    forall p :: from <= p < to ==> PointsToItself(a, p)
  }

  lemma IdentityKept(a: seq<u32>, from: nat, to: nat, x: u32)
    requires x < |a| && IdentityOn(a, from, to)
    ensures IdentityOn(a[x := x], from, to)
  {
    var b := a[x := x];
    forall p | from <= p < to
      ensures PointsToItself(b, p)
    {
      assert PointsToItself(a, p);
    }
  }

  lemma IdentityGrows(a: seq<u32>, from: nat, to: nat, x: u32)
    requires |a| > 0 && from <= to && IdentityOn(a, from, to) && x == to % |a|
    ensures IdentityOn(a[x := x], from, to + 1)
  {
    IdentityKept(a, from, to, x);
    assert PointsToItself(a[x := x], to);
  }

  lemma IdentityJoins(a: seq<u32>, h: nat, lh: nat, t: nat, lt: nat)
    requires |a| > 0 && h <= lh <= t <= lt && IdentityOn(a, h, t) && IdentityOn(a, lh, lt)
    ensures IdentityOn(a, h, lt)
  {
  }

  lemma IdentityNarrows(a: seq<u32>, from: nat, to: nat)
    requires |a| > 0 && from < to && IdentityOn(a, from, to)
    ensures a[from % |a|] == from % |a| && IdentityOn(a, from + 1, to)
  {
    assert PointsToItself(a, from);
  }

  /** Masking a wrapped counter gives the slot of the free-running position. */
  lemma MaskedIndex(x: nat, k: nat)
    requires k <= 31
    ensures And(x % WORD, Pow2(k) - 1) == x % Pow2(k)
  {
    AndMask(x % WORD, k);
    WrapThenMask(x, k);
  }

  class Ring<E> {
    const sqShift: nat
    const cqShift: nat
    const sqEntries: nat
    const cqEntries: nat
    const sqMask: u32
    const cqMask: u32
    const zero: E

    var sqHead: u32        // shared; advanced by the kernel
    var sqTail: u32        // shared; advanced by flushSQ
    var sqeLocalHead: u32
    var sqeLocalTail: u32
    const sqArray: array<u32>
    const sqes: array<E>

    var cqHead: u32        // shared; advanced by SeenCQE
    var cqTail: u32        // shared; advanced by the kernel
    const cqes: array<Cqe>

    var cancelled: bool
    var signalled: bool    // the eventfd counter is non-zero; never drained

    // The same counters without wrap-around.
    ghost var h: nat
    ghost var t: nat
    ghost var lh: nat
    ghost var lt: nat
    ghost var ch: nat
    ghost var ct: nat

    ghost predicate Shape()
      reads this
    {
      && sqShift <= 31 && cqShift <= 31
      && sqEntries == Pow2(sqShift) && cqEntries == Pow2(cqShift)
      && sqMask == sqEntries - 1 && cqMask == cqEntries - 1
      && sqArray.Length == sqEntries && sqes.Length == sqEntries && cqes.Length == cqEntries
      && sqArray as object != sqes && sqArray as object != cqes && sqes as object != cqes
    }

    ghost predicate Counters()
      reads this
    {
      && sqHead == h % WORD && sqTail == t % WORD
      && sqeLocalHead == lh % WORD && sqeLocalTail == lt % WORD
      && cqHead == ch % WORD && cqTail == ct % WORD
      && h <= lh <= t <= lt < h + WORD
      && ch <= ct <= ch + cqEntries
    }

    /** The indirection array is the identity on everything published. */
    ghost predicate Identity()
      requires Shape()
      reads this, sqArray
    {
      IdentityOn(sqArray[..], h, t)
    }

    ghost predicate Valid()
      reads this, sqArray
    {
      Shape() && Counters() && Identity()
    }

    ghost function Sq(): Sq<E>
      requires Valid()
      reads this, sqArray, sqes
    {
      View(sqes[..], h, t, lh, lt)
    }

    /** The completions posted and not yet released, oldest first. */
    ghost function Cq(): seq<Cqe>
      requires Valid()
      reads this, sqArray, cqes
    {
      Gather(cqes[..], ch, ct - ch)
    }

    /** A ring as the kernel hands it over, its counters anywhere in their range. */
    constructor (sqShift: nat, cqShift: nat, zero: E, start: u32, cstart: u32)
      requires sqShift <= 31 && cqShift <= 31
      ensures Valid() && Sq() == Empty() && Cq() == []
      ensures sqEntries == Pow2(sqShift) && cqEntries == Pow2(cqShift)
      ensures this.zero == zero
      ensures !cancelled && !signalled
      ensures fresh(sqArray) && fresh(sqes) && fresh(cqes)
    {
      Pow2At32();
      Pow2Mono(sqShift, 31);
      Pow2Mono(cqShift, 31);
      this.sqShift, this.cqShift := sqShift, cqShift;
      sqEntries, cqEntries := Pow2(sqShift), Pow2(cqShift);
      sqMask, cqMask := Pow2(sqShift) - 1, Pow2(cqShift) - 1;
      this.zero := zero;
      sqHead, sqTail, sqeLocalHead, sqeLocalTail := start, start, start, start;
      cqHead, cqTail := cstart, cstart;
      h, t, lh, lt, ch, ct := start, start, start, start, cstart, cstart;
      cancelled, signalled := false, false;
      sqArray := new u32[Pow2(sqShift)](_ => 0);
      sqes := new E[Pow2(sqShift)](_ => zero);
      cqes := new Cqe[Pow2(cqShift)](_ => Cqe(0, 0));
    }

    /** The slot of the next entry, or -1 when the queue is full. */
    method NextSQE() returns (slot: int)
      requires Valid()
      modifies this`sqeLocalHead, this`sqeLocalTail, this`lh, this`lt
      ensures slot < 0 <==> old(Full(Sq(), sqEntries))
      ensures slot < 0 ==> Valid() && Sq() == Stage(old(Sq()), sqEntries, zero)
      ensures slot >= 0 ==>
                && slot == old(lt) % sqEntries && lt == old(lt) + 1 && lh == old(lh)
                && lt - lh <= sqEntries
                && sqeLocalHead == old(sqeLocalHead) && sqeLocalTail == lt % WORD
      ensures cancelled == old(cancelled) && signalled == old(signalled)
    {
      var head := sqeLocalHead;
      var tail := sqeLocalTail;
      WrappedDifference(lt, lh);
      WrappedDifference(lt, h);
      if Sub32(tail, head) >= sqEntries {
        head := sqHead;
        sqeLocalHead := head;
        lh := h;
        if Sub32(tail, head) >= sqEntries {
          return -1;
        }
      }
      MaskedIndex(lt, sqShift);
      var idx := And(tail, sqMask);
      WrappedSum(lt, 1);
      sqeLocalTail := Add32(sqeLocalTail, 1);
      lt := lt + 1;
      return idx;
    }

    /** GetSQE64/GetSQE128: a zeroed entry's slot, or -1. */
    method GetSQE() returns (slot: int)
      requires Valid()
      modifies this`sqeLocalHead, this`sqeLocalTail, this`lh, this`lt, sqes
      ensures slot < 0 <==> old(Full(Sq(), sqEntries))
      ensures slot < 0 ==> Valid() && sqes[..] == old(sqes[..])
      ensures slot >= 0 ==>
                && slot == old(lt) % sqEntries && lt == old(lt) + 1 && lh == old(lh)
                && lt - lh <= sqEntries
                && (old(lt - h) + 1 < WORD ==> Valid())
                && sqes[..] == old(sqes[..])[slot := zero]
      ensures Valid() ==> Sq() == Stage(old(Sq()), sqEntries, zero)
      ensures cancelled == old(cancelled) && signalled == old(signalled)
    {
      slot := NextSQE();
      if slot >= 0 {
        sqes[slot] := zero;
        ViewStage(old(sqes[..]), h, t, lh, old(lt), zero);
        assert sqes[..] == old(sqes[..])[slot := zero];
      }
    }

    /** Get an entry and fill it, as every caller does; false when full. */
    method Enqueue(e: E) returns (ok: bool)
      requires Valid()
      modifies this`sqeLocalHead, this`sqeLocalTail, this`lh, this`lt, sqes
      ensures ok <==> !old(Full(Sq(), sqEntries))
      ensures old(lt - h) + 1 < WORD ==> Valid()
      ensures Valid() ==> Sq() == Stage(old(Sq()), sqEntries, e) && Cq() == old(Cq())
      ensures cancelled == old(cancelled) && signalled == old(signalled)
    {
      var slot := GetSQE();
      ok := slot >= 0;
      if ok {
        sqes[slot] := e;
        assert sqes[..] == old(sqes[..])[slot := e];
        ViewStage(old(sqes[..]), h, t, lh, old(lt), e);
      }
    }

    /** The indirection entries of the positions from the flush point to the local tail. */
    method WriteIndices(head: u32, count: u32)
      requires Shape() && Identity() && head == lh % WORD && lh + count == lt
      modifies sqArray
      ensures Identity() && IdentityOn(sqArray[..], lh, lt)
    {
      var i: u32 := 0;
      while i < count
        invariant i <= count
        invariant Identity() && IdentityOn(sqArray[..], lh, lh + i)
      {
        WrappedSum(lh, i);
        MaskedIndex(lh + i, sqShift);
        var idx: u32 := And(Add32(head, i), sqMask);
        IdentityKept(sqArray[..], h, t, idx);
        IdentityGrows(sqArray[..], lh, lh + i, idx);
        ghost var before: seq<u32> := sqArray[..];
        sqArray[idx] := idx;
        assert sqArray[..] == before[idx := idx];
        i := i + 1;
      }
    }

    /** Publish everything staged; returns the number of entries to submit. */
    method FlushSQ() returns (count: u32)
      requires Valid()
      modifies this`sqTail, this`sqeLocalHead, this`t, this`lh, sqArray
      ensures Valid() && t == lt == lh
      ensures Sq() == Flush(old(Sq())) && Cq() == old(Cq())
      ensures count == FlushCount(old(Sq()))
      ensures cancelled == old(cancelled) && signalled == old(signalled)
    {
      var head := sqeLocalHead;
      var tail := sqeLocalTail;
      WrappedDifference(lt, lh);
      count := Sub32(tail, head);
      ViewFlush(sqes[..], h, t, lh, lt);
      if count == 0 {
        return;
      }
      WriteIndices(head, count);
      IdentityJoins(sqArray[..], h, lh, t, lt);
      sqTail := tail;
      t := lt;
      sqeLocalHead := tail;
      lh := lt;
    }

    /** The kernel takes the oldest published entry, reading it through the indirection array. */
    method KernelTake() returns (e: E)
      requires Valid() && lh == t && h < t
      modifies this`sqHead, this`h
      ensures Valid() && h == old(h) + 1 && e == sqes[old(h) % sqEntries]
      ensures cancelled == old(cancelled) && signalled == old(signalled)
    {
      MaskedIndex(h, sqShift);
      IdentityNarrows(sqArray[..], h, t);
      e := sqes[sqArray[And(sqHead, sqMask)]];
      WrappedSum(h, 1);
      sqHead := Add32(sqHead, 1);
      h := h + 1;
    }

    /** The kernel's side of io_uring_enter: take `n` published entries. */
    method KernelConsume(n: nat) returns (taken: seq<E>)
      requires Valid() && lh == t && n <= |Sq().published|
      modifies this`sqHead, this`h
      ensures Valid() && lh == t
      ensures taken == old(Sq().published)[..n]
      ensures Sq() == Consume(old(Sq()), n) && Cq() == old(Cq())
      ensures cancelled == old(cancelled) && signalled == old(signalled)
    {
      taken := [];
      ghost var h0 := h;
      ViewConsume(sqes[..], h, t, lt, n);
      for k := 0 to n
        invariant h == h0 + k && Valid()
        invariant cancelled == old(cancelled) && signalled == old(signalled)
        invariant taken == Gather(sqes[..], h0, k)
      {
        GatherNext(sqes[..], h0, k);
        var e := KernelTake();
        taken := taken + [e];
      }
    }

    /**
     Submit: flush, then io_uring_enter for the flushed count, of which the
     kernel takes at most `accept`. The call may fail all the same, whatever was taken.
     */
    method Submit(accept: nat, fails: bool) returns (n: int, err: bool, taken: seq<E>)
      requires Valid()
      modifies this`sqTail, this`sqeLocalHead, this`t, this`lh, sqArray, this`sqHead, this`h
      ensures Valid()
      ensures err == (fails && FlushCount(old(Sq())) > 0)
      ensures n == if err then 0 else |taken|
      ensures var k := Accepted(old(Sq()), accept);
              taken == Flush(old(Sq())).published[..k] && Sq() == Consume(Flush(old(Sq())), k)
      ensures Cq() == old(Cq())
      ensures cancelled == old(cancelled) && signalled == old(signalled)
    {
      var count := FlushSQ();
      if count == 0 {
        assert Sq() == Consume(Sq(), 0);
        return 0, false, [];
      }
      taken := KernelConsume(if accept <= count then accept else count);
      return if fails then 0 else |taken|, fails, taken;
    }

    /** Head and tail of the completion queue are as far apart as the free-running counters. */
    lemma CqDistance()
      requires Valid()
      ensures Sub32(cqTail, cqHead) == ct - ch && (cqHead == cqTail <==> ch == ct)
    {
      SmallPow2(cqShift);
      WrappedDifference(ct, ch);
    }

    /** The kernel posts a completion; false when the queue is full and it is dropped. */
    method KernelPost(c: Cqe) returns (ok: bool)
      requires Valid()
      modifies this`cqTail, this`ct, cqes
      ensures Valid()
      ensures ok <==> |old(Cq())| < cqEntries
      ensures Cq() == if ok then old(Cq()) + [c] else old(Cq())
      ensures Sq() == old(Sq())
      ensures cancelled == old(cancelled) && signalled == old(signalled)
    {
      CqDistance();
      if Sub32(cqTail, cqHead) == cqEntries {
        return false;
      }
      MaskedIndex(ct, cqShift);
      GatherPushAt(cqes[..], ch, ct, c);
      var idx := And(cqTail, cqMask);
      cqes[idx] := c;
      assert cqes[..] == old(cqes[..])[ct % cqEntries := c];
      WrappedSum(ct, 1);
      cqTail := Add32(cqTail, 1);
      ct := ct + 1;
      return true;
    }

    /** The slot of the oldest completion, or -1. */
    method PeekCQE() returns (slot: int)
      requires Valid()
      ensures slot < 0 <==> Cq() == []
      ensures slot >= 0 ==> slot < cqes.Length && cqes[slot] == Cq()[0]
    {
      CqDistance();
      if cqHead == cqTail {
        return -1;
      }
      MaskedIndex(ch, cqShift);
      slot := And(cqHead, cqMask);
      assert ch + 0 == ch;
    }

    /** Release the oldest completion. */
    method SeenCQE()
      requires Valid() && Cq() != []
      modifies this`cqHead, this`ch
      ensures Valid() && Cq() == old(Cq())[1..] && Sq() == old(Sq())
      ensures cancelled == old(cancelled) && signalled == old(signalled)
    {
      GatherSplit(cqes[..], ch, ct - ch, 1);
      WrappedSum(ch, 1);
      cqHead := Add32(cqHead, 1);
      ch := ch + 1;
    }

    /** One of the two stores of Cancel. */
    method Mark(flag: bool, eventFd: bool)
      requires Valid()
      modifies this`cancelled, this`signalled
      ensures Valid() && Sq() == old(Sq()) && Cq() == old(Cq())
      ensures cancelled == (old(cancelled) || flag) && signalled == (old(signalled) || eventFd)
    {
      if flag { cancelled := true; }
      if eventFd { signalled := true; }
    }

    /** Set the flag, then raise the eventfd. */
    method Cancel()
      modifies this`cancelled, this`signalled
      ensures cancelled && signalled
    {
      cancelled := true;
      signalled := true;
    }

    /** Completions posted while a waiter sits in epoll_wait. */
    method KernelPostAll(cs: seq<Cqe>)
      requires Valid()
      modifies this`cqTail, this`ct, cqes
      ensures Valid()
      ensures old(Cq()) <= Cq() && (cs != [] && |old(Cq())| < cqEntries ==> Cq() != [])
      ensures |old(Cq())| + |cs| <= cqEntries ==> Cq() == old(Cq()) + cs
      ensures Sq() == old(Sq())
    {
      for i := 0 to |cs|
        invariant Valid() && old(Cq()) <= Cq() && Sq() == old(Sq())
        invariant i > 0 && |old(Cq())| < cqEntries ==> Cq() != []
        invariant |old(Cq())| + |cs| <= cqEntries ==> Cq() == old(Cq()) + cs[..i]
      {
        assert cs[..i + 1] == cs[..i] + [cs[i]];
        ghost var before := Cq();
        var _ := KernelPost(cs[i]);
        assert before <= Cq();
      }
    }

    /** What the other threads do while a waiter sits in one epoll_wait. */
    method Sleep(w: Wake)
      requires Valid() && !cancelled && !signalled && Cq() == []
      modifies this`cqTail, this`ct, cqes, this`cancelled, this`signalled
      ensures Valid() && Sq() == old(Sq())
      ensures cancelled == signalled == w.cancel && (Cq() == [] <==> w.posted == [])
      ensures |w.posted| <= cqEntries ==> Cq() == w.posted
    {
      KernelPostAll(w.posted);
      if w.cancel {
        Cancel();
      }
    }

    /**
     Wait for a completion or the cancel flag. `wakes` lists what each
     epoll_wait brings; when it runs out the caller is still blocked.
     */
    method WaitCQE(wakes: seq<Wake>) returns (r: WaitResult, used: nat)
      requires Valid() && (signalled ==> cancelled)
      requires forall i :: 0 <= i < |wakes| && wakes[i].outcome == Events(true) ==>
                 signalled || exists j :: 0 <= j <= i && wakes[j].cancel
      modifies this`cqTail, this`ct, cqes, this`cancelled, this`signalled
      ensures Valid() && used <= |wakes|
      // a wait that starts after Cancel takes no completion and never blocks
      ensures old(cancelled) ==> r == ErrCancelled && used == 0 && Cq() == old(Cq())
      // a completion is the oldest one, and it is still unreleased
      ensures r.Completion? ==> Cq() != [] && r.slot < cqes.Length && cqes[r.slot] == Cq()[0]
      ensures old(Cq()) <= Cq() && Sq() == old(Sq())
      // a ready completion is returned at once unless cancelled
      ensures !old(cancelled) && old(Cq()) != [] ==> r.Completion? && used == 0
      ensures r == ErrCancelled ==> cancelled
      ensures used == 0 ==> Cq() == old(Cq()) && cancelled == old(cancelled) && signalled == old(signalled)
      ensures r == StillWaiting ==> used == |wakes| && !cancelled && Cq() == []
      // it sleeps through idle wake-ups, and the first other one decides
      ensures forall j :: 0 <= j < used - 1 ==> Idle(wakes[j])
      ensures used > 0 ==>
                var w := wakes[used - 1];
                && (r == ErrEpoll <==> w.outcome == Failed)
                && (r == ErrCancelled <==> w.outcome == Events(true) || (w.cancel && w.outcome != Failed))
                && (r.Completion? <==> w.posted != [] && !w.cancel && Idle(w.(posted := [])))
                && (r == StillWaiting <==> Idle(w))
                && (|w.posted| <= cqEntries ==> Cq() == w.posted)
                && (cancelled <==> w.cancel) && (signalled ==> cancelled)
      ensures r == ErrEpoll ==> used > 0
    {
      used := 0;
      while true
        invariant Valid() && used <= |wakes| && old(Cq()) <= Cq() && Sq() == old(Sq())
        invariant old(cancelled) || old(Cq()) != [] ==> used == 0
        invariant used == 0 ==> Cq() == old(Cq()) && cancelled == old(cancelled)
                                && signalled == old(signalled)
        invariant signalled ==> cancelled
        invariant forall j :: 0 <= j < used - 1 ==> Idle(wakes[j])
        invariant used > 0 ==>
                    var w := wakes[used - 1];
                    && (cancelled <==> w.cancel) && (Cq() == [] <==> w.posted == [])
                    && (|w.posted| <= cqEntries ==> Cq() == w.posted)
                    && (w.outcome == Interrupted || w.outcome == Events(false))
        invariant (old(signalled) || exists j :: 0 <= j < used && wakes[j].cancel) ==> cancelled
        decreases |wakes| - used
      {
        if cancelled {
          return ErrCancelled, used;
        }
        var slot := PeekCQE();
        if slot >= 0 {
          return Completion(slot), used;
        }
        if used == |wakes| {
          return StillWaiting, used;
        }
        var w := wakes[used];
        used := used + 1;
        Sleep(w);
        match w.outcome {
          case Interrupted =>
          case Failed =>
            return ErrEpoll, used;
          case Events(saw) =>
            if saw {
              return ErrCancelled, used;
            }
        }
      }
    }
  }
}
