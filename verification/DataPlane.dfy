/** Every run of the data plane is linearizable against a plain byte-array disk. */
module DataPlane {
  import opened SubmissionQueue
  import opened Disk
  import opened Requests
  import opened Protocol
  import opened Linearizability
  import Tokens
  import Bits

  // ---------------------------------------------------------------------
  // What holds of a tag, depending on where it is

  /** The part of the state that requests live in. */
  datatype Memory = Memory(
    inflight: map<nat, Request>, descs: seq<IoDesc>, pool: seq<byte>, served: seq<Effect>)

  function Mem(s: State): Memory { Memory(s.inflight, s.descs, s.pool, s.served) }

  predicate InPool(c: Config, m: Memory, t: nat) {
    t < |m.descs| && BufferAddr(c, t) + c.bufSize <= |m.pool|
  }

  function Buf(c: Config, m: Memory, t: nat): seq<byte>
    requires InPool(c, m, t)
  {
    m.pool[BufferAddr(c, t)..BufferAddr(c, t) + c.bufSize]
  }

  ghost predicate Unserved(m: Memory, id: nat) {
    forall k :: 0 <= k < |m.served| ==> m.served[k].id != id
  }

  /** The descriptor and the buffer hold a request that has not taken effect. */
  ghost predicate Pending(c: Config, m: Memory, t: nat) {
    && t in m.inflight && InPool(c, m, t)
    && var r := m.inflight[t];
    && m.descs[t] == r.desc && Advertised(c.limits, r.desc)
    && (OpCode(r.desc) == OP_WRITE ==> |r.payload| == Length(r.desc) && r.payload <= Buf(c, m, t))
    && Unserved(m, r.id)
  }

  /** If there is a request at all, it has not taken effect. */
  ghost predicate Silent(m: Memory, t: nat) {
    t in m.inflight ==> Unserved(m, m.inflight[t].id)
  }

  /** The request took effect with this result, and the buffer still holds its data. */
  ghost predicate Answered(c: Config, m: Memory, t: nat, result: int) {
    && t in m.inflight && InPool(c, m, t)
    && (OpCode(m.inflight[t].desc) == OP_READ ==> result <= c.bufSize)
    && exists k :: 0 <= k < |m.served| && Matches(c, m, t, result, k)
  }

  ghost predicate Matches(c: Config, m: Memory, t: nat, result: int, k: nat)
    requires t in m.inflight && InPool(c, m, t) && k < |m.served|
  {
    var r := m.inflight[t];
    m.served[k] == Effect(r.id, Meaning(r.desc, r.payload),
                          Reply(result, DataOf(r.desc, result, Buf(c, m, t))))
  }

  ghost predicate SqeOk(c: Config, m: Memory, e: IoSqe) {
    && e.userData == e.tag && e.qid == 0 && e.addr == BufferAddr(c, e.tag)
    && (if e.op == FetchReq then e.tag !in m.inflight else Answered(c, m, e.tag, e.result))
  }

  ghost predicate SqesOk(c: Config, m: Memory, es: seq<IoSqe>) {
    forall i :: 0 <= i < |es| ==> SqeOk(c, m, es[i])
  }

  ghost predicate KernOk(c: Config, m: Memory, t: nat, k: KernelTag) {
    && k.addr == BufferAddr(c, t)
    && (if k.Armed? then t !in m.inflight else Pending(c, m, t))
  }

  ghost predicate KernsOk(c: Config, m: Memory, ks: map<nat, KernelTag>) {
    forall t :: t in ks ==> KernOk(c, m, t, ks[t])
  }

  ghost predicate CqeOk(c: Config, m: Memory, x: Cqe) {
    if x.res >= 0 then Pending(c, m, x.userData) else Silent(m, x.userData)
  }

  ghost predicate CqesOk(c: Config, m: Memory, xs: seq<Cqe>) {
    forall i :: 0 <= i < |xs| ==> CqeOk(c, m, xs[i])
  }

  ghost predicate HandOk(c: Config, m: Memory, pc: Pc) {
    match pc
    case Serve(t) => Pending(c, m, t)
    case Commit(t, result) => Answered(c, m, t, result)
    case Done(_, hand) => forall i :: 0 <= i < |hand| ==> Silent(m, hand[i])
    case _ => true
  }

  ghost predicate PlacesOk(c: Config, s: State) {
    && SqesOk(c, Mem(s), s.sq.published) && SqesOk(c, Mem(s), s.sq.staged)
    && KernsOk(c, Mem(s), s.kern)
    && CqesOk(c, Mem(s), s.cq)
    && HandOk(c, Mem(s), s.pc)
  }

  // ---------------------------------------------------------------------
  // What holds of the history

  ghost predicate InflightOk(s: State) {
    && (forall t :: t in s.inflight ==>
          && s.inflight[t].id < s.nextId
          && Invoked(s.inflight[t].id, Meaning(s.inflight[t].desc, s.inflight[t].payload)) in s.hist
          && NoReply(s.hist, s.inflight[t].id))
    && (forall t, u :: t in s.inflight && u in s.inflight && t != u ==> s.inflight[t].id != s.inflight[u].id)
  }

  ghost predicate NoReply(h: seq<Event>, id: nat) {
    forall i :: 0 <= i < |h| && h[i].Replied? ==> h[i].id != id
  }

  /** The history is linearized by the effects recorded so far. */
  ghost predicate Books(c: Config, d0: seq<byte>, h: seq<Event>, nextId: nat, es: seq<Effect>,
                        pts: seq<nat>, d: seq<byte>) {
    && WellFormed(h)
    && (forall i :: 0 <= i < |h| ==> h[i].id < nextId)
    && (forall k :: 0 <= k < |pts| ==> pts[k] <= |h|)
    && (forall k :: 0 <= k < |es| ==> es[k].id < nextId)
    && |d| == c.limits.size
    && Linearizes(c.caps, d0, h, es, pts, d)
  }

  ghost predicate HistoryOk(c: Config, s: State, d0: seq<byte>) {
    InflightOk(s) && Books(c, d0, s.hist, s.nextId, s.served, s.points, s.disk)
  }

  ghost predicate Inv(c: Config, s: State, d0: seq<byte>) {
    Tokens.Inv(c, s) && PlacesOk(c, s) && HistoryOk(c, s, d0)
  }

  // ---------------------------------------------------------------------
  // Tokens keep the places apart

  lemma OnlyOnce(c: Config, s: State, t: nat)
    requires Tokens.Conserved(c, s)
    ensures Tokens.AllTokens(s)[t] <= 1
  {
  }

  lemma NotAmongSqes(es: seq<IoSqe>, t: nat)
    requires multiset(Tokens.SqTags(es))[t] == 0
    ensures forall i :: 0 <= i < |es| ==> es[i].tag != t
  {
    forall i | 0 <= i < |es|
      ensures es[i].tag != t
    {
      Tokens.TagIn(es, i);
    }
  }

  lemma NotAmongCqes(xs: seq<Cqe>, t: nat)
    requires multiset(Tokens.CqTags(xs))[t] == 0
    ensures forall i :: 0 <= i < |xs| ==> xs[i].userData != t
  {
    forall i | 0 <= i < |xs|
      ensures xs[i].userData != t
    {
      Tokens.CqTagIn(xs, i);
    }
  }

  ghost predicate NotInSq(s: State, t: nat) {
    && (forall i :: 0 <= i < |s.sq.published| ==> s.sq.published[i].tag != t)
    && (forall i :: 0 <= i < |s.sq.staged| ==> s.sq.staged[i].tag != t)
  }

  ghost predicate NotInCq(s: State, t: nat) {
    forall i :: 0 <= i < |s.cq| ==> s.cq[i].userData != t
  }

  lemma KernelTagIsNowhereElse(c: Config, s: State, t: nat)
    requires Tokens.Conserved(c, s) && t in s.kern
    ensures NotInSq(s, t) && NotInCq(s, t) && t !in Tokens.Hand(s.pc) && t < c.depth
  {
    OnlyOnce(c, s, t);
    assert t in multiset(s.kern.Keys);
    Tokens.InRange(c, s, t);
    NotAmongSqes(s.sq.published, t);
    NotAmongSqes(s.sq.staged, t);
    NotAmongCqes(s.cq, t);
    assert multiset(Tokens.Hand(s.pc))[t] == 0;
  }

  lemma HeldTagIsNowhereElse(c: Config, s: State, t: nat)
    requires Tokens.Conserved(c, s) && Tokens.Hand(s.pc) == [t]
    ensures NotInSq(s, t) && NotInCq(s, t) && t !in s.kern && t < c.depth
  {
    OnlyOnce(c, s, t);
    assert t in multiset(Tokens.Hand(s.pc));
    Tokens.InRange(c, s, t);
    NotAmongSqes(s.sq.published, t);
    NotAmongSqes(s.sq.staged, t);
    NotAmongCqes(s.cq, t);
    assert multiset(s.kern.Keys)[t] == 0;
  }

  lemma OldestTagIsNowhereElse(c: Config, s: State)
    requires Tokens.Conserved(c, s) && s.sq.published != []
    ensures var t := s.sq.published[0].tag;
            && (forall i :: 1 <= i < |s.sq.published| ==> s.sq.published[i].tag != t)
            && (forall i :: 0 <= i < |s.sq.staged| ==> s.sq.staged[i].tag != t)
            && NotInCq(s, t) && t !in s.kern && t !in Tokens.Hand(s.pc) && t < c.depth
  {
    var t := s.sq.published[0].tag;
    OnlyOnce(c, s, t);
    Tokens.TagIn(s.sq.published, 0);
    Tokens.InRange(c, s, t);
    Tokens.SqTagsPop(s.sq.published);
    NotAmongSqes(s.sq.published[1..], t);
    NotAmongSqes(s.sq.staged, t);
    NotAmongCqes(s.cq, t);
    assert multiset(s.kern.Keys)[t] == 0;
    assert multiset(Tokens.Hand(s.pc))[t] == 0;
    forall i | 1 <= i < |s.sq.published|
      ensures s.sq.published[i].tag != t
    {
      assert s.sq.published[i] == s.sq.published[1..][i - 1];
    }
  }

  // ---------------------------------------------------------------------
  // Frames: what a step does to one tag leaves the others alone

  /** Nothing that describes tag u's request changed, and it was not served in between. */
  ghost predicate Untouched(c: Config, m: Memory, m': Memory, u: nat) {
    && (u in m.inflight <==> u in m'.inflight)
    && (u in m.inflight ==> m'.inflight[u] == m.inflight[u])
    && (InPool(c, m, u) ==>
          InPool(c, m', u) && m'.descs[u] == m.descs[u] && Buf(c, m', u) == Buf(c, m, u))
    && m.served <= m'.served
    && (forall k :: |m.served| <= k < |m'.served| && u in m.inflight ==> m'.served[k].id != m.inflight[u].id)
  }

  lemma UntouchedPending(c: Config, m: Memory, m': Memory, u: nat)
    requires Untouched(c, m, m', u) && Pending(c, m, u)
    ensures Pending(c, m', u)
  {
  }

  lemma UntouchedSilent(c: Config, m: Memory, m': Memory, u: nat)
    requires Untouched(c, m, m', u) && Silent(m, u)
    ensures Silent(m', u)
  {
  }

  lemma UntouchedAnswered(c: Config, m: Memory, m': Memory, u: nat, result: int)
    requires Untouched(c, m, m', u) && Answered(c, m, u, result)
    ensures Answered(c, m', u, result)
  {
    var k :| 0 <= k < |m.served| && Matches(c, m, u, result, k);
    assert Matches(c, m', u, result, k);
  }

  lemma UntouchedSqes(c: Config, m: Memory, m': Memory, es: seq<IoSqe>)
    requires SqesOk(c, m, es)
    requires forall i :: 0 <= i < |es| ==> Untouched(c, m, m', es[i].tag)
    ensures SqesOk(c, m', es)
  {
    forall i | 0 <= i < |es|
      ensures SqeOk(c, m', es[i])
    {
      assert SqeOk(c, m, es[i]);
      if es[i].op != FetchReq {
        UntouchedAnswered(c, m, m', es[i].tag, es[i].result);
      }
    }
  }

  lemma UntouchedCqes(c: Config, m: Memory, m': Memory, xs: seq<Cqe>)
    requires CqesOk(c, m, xs)
    requires forall i :: 0 <= i < |xs| ==> Untouched(c, m, m', xs[i].userData)
    ensures CqesOk(c, m', xs)
  {
    forall i | 0 <= i < |xs|
      ensures CqeOk(c, m', xs[i])
    {
      assert CqeOk(c, m, xs[i]);
      if xs[i].res >= 0 {
        UntouchedPending(c, m, m', xs[i].userData);
      } else {
        UntouchedSilent(c, m, m', xs[i].userData);
      }
    }
  }

  lemma UntouchedKern(c: Config, m: Memory, m': Memory, u: nat, k: KernelTag)
    requires KernOk(c, m, u, k) && Untouched(c, m, m', u)
    ensures KernOk(c, m', u, k)
  {
    if k.Filled? {
      UntouchedPending(c, m, m', u);
    }
  }

  /** Distinct tags have disjoint buffers: writing into one leaves the other alone. */
  lemma OtherBufferKept(c: Config, pool: seq<byte>, t: nat, u: nat, bytes: seq<byte>)
    requires t != u && |bytes| <= c.bufSize
    requires BufferAddr(c, t) + c.bufSize <= |pool| && BufferAddr(c, u) + c.bufSize <= |pool|
    ensures Splice(pool, BufferAddr(c, t), bytes)[BufferAddr(c, u)..BufferAddr(c, u) + c.bufSize]
            == pool[BufferAddr(c, u)..BufferAddr(c, u) + c.bufSize]
  {
    BuffersDisjoint(c, t, u);
    SpliceElsewhere(pool, BufferAddr(c, t), bytes, BufferAddr(c, u), c.bufSize);
  }

  lemma BuffersDisjoint(c: Config, t: nat, u: nat)
    requires t != u
    ensures BufferAddr(c, t) + c.bufSize <= BufferAddr(c, u) || BufferAddr(c, u) + c.bufSize <= BufferAddr(c, t)
  {
    if t < u { Bits.MulNext(t, u, c.bufSize); } else { Bits.MulNext(u, t, c.bufSize); }
  }

  // ---------------------------------------------------------------------
  // Steps that move a tag without touching its request

  lemma FlushPlaces(c: Config, s: State)
    requires PlacesOk(c, s)
    ensures PlacesOk(c, StepFlush(s))
  {
    assert Mem(StepFlush(s)) == Mem(s);
  }

  lemma TakePlaces(c: Config, s: State)
    requires ValidConfig(c) && Tokens.Inv(c, s) && PlacesOk(c, s) && s.pc.Got?
    ensures PlacesOk(c, StepTake(s))
  {
    var s' := StepTake(s);
    assert Mem(s') == Mem(s);
    Tokens.UnreadTagInRange(c, s, 0);
    assert s'.pc.Serve? ==> s'.pc.tag == s.cq[0].userData;
    assert CqeOk(c, Mem(s), s.cq[0]);
    assert s'.pc.Done? ==> s'.pc.hand == [s.cq[0].userData];
    forall i | 0 <= i < |s'.cq|
      ensures CqeOk(c, Mem(s), s'.cq[i])
    {
      assert s'.cq[i] == s.cq[i + 1];
    }
  }

  lemma CommitPlaces(c: Config, s: State)
    requires ValidConfig(c) && Tokens.Inv(c, s) && PlacesOk(c, s) && s.pc.Commit?
    ensures PlacesOk(c, StepPrepareCommit(c, s))
  {
    Tokens.Count(c, s);
    StageWithRoom(s.sq, c.sqEntries, CommitSqe(c, s.pc.tag, s.pc.result));
    assert Mem(StepPrepareCommit(c, s)) == Mem(s);
  }

  lemma PostPlaces(c: Config, s: State, tag: nat, res: int)
    requires PlacesOk(c, s) && tag in s.kern && (s.kern[tag].Filled? || res < 0)
    ensures PlacesOk(c, StepPost(c, s, tag, res))
  {
    var s' := StepPost(c, s, tag, res);
    assert Mem(s') == Mem(s);
    assert KernOk(c, Mem(s), tag, s.kern[tag]);
    forall t | t in s'.kern
      ensures KernOk(c, Mem(s), t, s'.kern[t])
    {
      assert s'.kern[t] == s.kern[t];
    }
  }

  // ---------------------------------------------------------------------
  // handleIO

  lemma HandlePlaces(c: Config, s: State, out: Outcome, d0: seq<byte>)
    requires ValidConfig(c) && Inv(c, s, d0) && Enabled(c, s, Label.HandleIO(out))
    ensures PlacesOk(c, StepHandleIO(c, s, out))
  {
    var s' := StepHandleIO(c, s, out);
    var m, m' := Mem(s), Mem(s');
    var t := s.pc.tag;
    HeldTagIsNowhereElse(c, s, t);
    forall u | u != t
      ensures Untouched(c, m, m', u)
    {
      HandleLeaves(c, s, out, u);
    }
    UntouchedSqes(c, m, m', s.sq.published);
    UntouchedSqes(c, m, m', s.sq.staged);
    UntouchedCqes(c, m, m', s.cq);
    forall u | u in s'.kern
      ensures KernOk(c, m', u, s'.kern[u])
    {
      UntouchedKern(c, m, m', u, s.kern[u]);
    }
    HandleAnswers(c, s, out);
  }

  lemma HandleLeaves(c: Config, s: State, out: Outcome, u: nat)
    requires ValidConfig(c) && InflightOk(s) && Enabled(c, s, Label.HandleIO(out))
    requires u != s.pc.tag && s.pc.tag in s.inflight
    ensures Untouched(c, Mem(s), Mem(StepHandleIO(c, s, out)), u)
  {
    var t := s.pc.tag;
    var r := Requests.HandleIO(c.caps, c.bufSize, s.descs[t], Buffer(c, s, t), s.disk, out);
    if InPool(c, Mem(s), u) {
      OtherBufferKept(c, s.pool, t, u, r.buf);
    }
  }

  lemma HandleAnswers(c: Config, s: State, out: Outcome)
    requires ValidConfig(c) && Enabled(c, s, Label.HandleIO(out)) && Pending(c, Mem(s), s.pc.tag)
    ensures var s' := StepHandleIO(c, s, out);
            Answered(c, Mem(s'), s.pc.tag, s'.pc.result)
  {
    var s' := StepHandleIO(c, s, out);
    var t := s.pc.tag;
    var r := Requests.HandleIO(c.caps, c.bufSize, s.descs[t], Buffer(c, s, t), s.disk, out);
    AdvertisedArithmetic(c.limits, c.bufSize, s.descs[t]);
    SpliceHere(s.pool, BufferAddr(c, t), r.buf);
    assert Buf(c, Mem(s'), t) == r.buf;
    assert Matches(c, Mem(s'), t, r.result, |s.served|);
  }

  lemma BookEffect(c: Config, d0: seq<byte>, h: seq<Event>, nextId: nat, es: seq<Effect>,
                   pts: seq<nat>, d: seq<byte>, e: Effect, d': seq<byte>)
    requires Books(c, d0, h, nextId, es, pts, d)
    requires e.id < nextId && Invoked(e.id, e.op) in h && NoReply(h, e.id)
    requires forall k :: 0 <= k < |es| ==> es[k].id != e.id
    requires SpecStep(c.caps, d, e.op, e.reply, d') && |d'| == |d|
    ensures Books(c, d0, h, nextId, es + [e], pts + [|h|], d')
  {
    ReplaysPush(c.caps, d0, es, d, e, d');
    EffectAtTheEnd(c.caps, d0, h, es, pts, d, e, d');
  }

  lemma HandleHistory(c: Config, s: State, out: Outcome, d0: seq<byte>)
    requires ValidConfig(c) && HistoryOk(c, s, d0) && Enabled(c, s, Label.HandleIO(out))
    requires Pending(c, Mem(s), s.pc.tag)
    ensures HistoryOk(c, StepHandleIO(c, s, out), d0)
  {
    var t := s.pc.tag;
    var q := s.inflight[t];
    var r := Requests.HandleIO(c.caps, c.bufSize, q.desc, Buffer(c, s, t), s.disk, out);
    ServingIsASpecStep(c.caps, c.limits, c.bufSize, q.desc, q.payload, Buffer(c, s, t), s.disk, out);
    var e := Effect(q.id, Meaning(q.desc, q.payload), Reply(r.result, DataOf(q.desc, r.result, r.buf)));
    BookEffect(c, d0, s.hist, s.nextId, s.served, s.points, s.disk, e, r.disk);
    HandleBooks(c, s, out, e, r.disk);
  }

  lemma HandleBooks(c: Config, s: State, out: Outcome, e: Effect, disk: seq<byte>)
    requires Enabled(c, s, Label.HandleIO(out)) && s.pc.tag in s.inflight
    requires s.descs[s.pc.tag] == s.inflight[s.pc.tag].desc
    requires var t := s.pc.tag;
             var q := s.inflight[t];
             var r := Requests.HandleIO(c.caps, c.bufSize, q.desc, Buffer(c, s, t), s.disk, out);
             && e == Effect(q.id, Meaning(q.desc, q.payload), Reply(r.result, DataOf(q.desc, r.result, r.buf)))
             && disk == r.disk
    ensures var s' := StepHandleIO(c, s, out);
            && s'.inflight == s.inflight && s'.nextId == s.nextId && s'.hist == s.hist && s'.disk == disk
            && s'.served == s.served + [e] && s'.points == s.points + [|s.hist|]
  {
  }

  /** A pending request may take effect now. */
  lemma EffectAtTheEnd(caps: Caps, d0: seq<byte>, h: seq<Event>, es: seq<Effect>, pts: seq<nat>,
                       d: seq<byte>, e: Effect, d': seq<byte>)
    requires Linearizes(caps, d0, h, es, pts, d)
    requires forall k :: 0 <= k < |pts| ==> pts[k] <= |h|
    requires forall k :: 0 <= k < |es| ==> es[k].id != e.id
    requires Invoked(e.id, e.op) in h && NoReply(h, e.id)
    requires Replays(caps, d0, es + [e], d')
    ensures Linearizes(caps, d0, h, es + [e], pts + [|h|], d')
  {
    var es', pts' := es + [e], pts + [|h|];
    var i :| 0 <= i < |h| && h[i] == Invoked(e.id, e.op);
    assert AfterInvocation(h, e, |h|);
    forall k | 0 <= k < |es'|
      ensures AfterInvocation(h, es'[k], pts'[k]) && BeforeReply(h, es'[k], pts'[k])
    {
      if k < |es| {
        assert es'[k] == es[k] && pts'[k] == pts[k];
      }
    }
    forall i | 0 <= i < |h| && h[i].Replied?
      ensures TookEffect(es', h[i].id, h[i].reply)
    {
      var k :| 0 <= k < |es| && es[k].id == h[i].id && es[k].reply == h[i].reply;
      assert es'[k] == es[k];
    }
  }

  /** A later event changes nothing about the effects so far, if a reply reports one of them. */
  lemma LaterEvent(caps: Caps, d0: seq<byte>, h: seq<Event>, es: seq<Effect>, pts: seq<nat>, d: seq<byte>, x: Event)
    requires Linearizes(caps, d0, h, es, pts, d)
    requires forall k :: 0 <= k < |pts| ==> pts[k] <= |h|
    requires x.Replied? ==> TookEffect(es, x.id, x.reply)
    ensures Linearizes(caps, d0, h + [x], es, pts, d)
  {
    var h' := h + [x];
    forall k | 0 <= k < |es|
      ensures AfterInvocation(h', es[k], pts[k]) && BeforeReply(h', es[k], pts[k])
    {
      assert AfterInvocation(h, es[k], pts[k]) && BeforeReply(h, es[k], pts[k]);
      var i :| 0 <= i < pts[k] && i < |h| && h[i] == Invoked(es[k].id, es[k].op);
      assert h'[i] == h[i];
    }
    forall i | 0 <= i < |h'| && h'[i].Replied?
      ensures TookEffect(es, h'[i].id, h'[i].reply)
    {
      if i < |h| {
        assert h'[i] == h[i];
      }
    }
  }

  lemma WellFormedPush(h: seq<Event>, x: Event)
    requires WellFormed(h)
    requires x.Invoked? ==> forall i :: 0 <= i < |h| ==> h[i].id != x.id
    requires x.Replied? ==> NoReply(h, x.id) && exists i :: 0 <= i < |h| && h[i].Invoked? && h[i].id == x.id
    ensures WellFormed(h + [x])
  {
    var h' := h + [x];
    forall j | 0 <= j < |h'| && h'[j].Replied?
      ensures InvokedBefore(h', j)
    {
      if j < |h| {
        assert InvokedBefore(h, j);
        var i :| 0 <= i < j && h[i].Invoked? && h[i].id == h[j].id;
        assert h'[i] == h[i] && h'[j] == h[j];
      } else {
        var i :| 0 <= i < |h| && h[i].Invoked? && h[i].id == x.id;
        assert h'[i] == h[i] && h'[j] == x;
      }
    }
  }

  // ---------------------------------------------------------------------
  // The kernel consumes a commit or a fetch

  lemma ConsumePlaces(c: Config, s: State)
    requires ValidConfig(c) && Tokens.Inv(c, s) && PlacesOk(c, s)
    requires s.pc.Enter? && s.pc.left > 0 && s.sq.published != []
    ensures PlacesOk(c, StepConsume(s))
  {
    var s' := StepConsume(s);
    var m, m' := Mem(s), Mem(s');
    var e := s.sq.published[0];
    OldestTagIsNowhereElse(c, s);
    assert SqeOk(c, m, e);
    assert e.tag !in m'.inflight;
    forall u | u != e.tag
      ensures Untouched(c, m, m', u)
    {
    }
    var rest := s.sq.published[1..];
    forall i | 0 <= i < |rest|
      ensures SqeOk(c, m, rest[i]) && rest[i].tag != e.tag
    {
      assert rest[i] == s.sq.published[i + 1];
    }
    UntouchedSqes(c, m, m', rest);
    UntouchedSqes(c, m, m', s.sq.staged);
    UntouchedCqes(c, m, m', s.cq);
    forall u | u in s'.kern
      ensures KernOk(c, m', u, s'.kern[u])
    {
      if u != e.tag {
        UntouchedKern(c, m, m', u, s.kern[u]);
      }
    }
  }

  /** The reply the kernel delivers is the one recorded when the request took effect. */
  lemma DeliveredReply(c: Config, s: State, e: IoSqe)
    requires SqeOk(c, Mem(s), e) && e.op == CommitAndFetchReq
    ensures e.tag in s.inflight
    ensures TookEffect(s.served, s.inflight[e.tag].id, ReplyOf(s, s.inflight[e.tag], e))
  {
    var t := e.tag;
    var k :| 0 <= k < |s.served| && Matches(c, Mem(s), t, e.result, k);
    var a := BufferAddr(c, t);
    if OpCode(s.inflight[t].desc) == OP_READ && 0 <= e.result {
      assert Buf(c, Mem(s), t)[..e.result] == s.pool[a..a + e.result];
    }
    assert s.served[k].reply == ReplyOf(s, s.inflight[t], e);
  }

  lemma RepliedInflight(s: State, t: nat, r: Reply)
    requires InflightOk(s) && t in s.inflight
    ensures InflightOk(s.(inflight := s.inflight - {t}, hist := s.hist + [Replied(s.inflight[t].id, r)]))
  {
    var s' := s.(inflight := s.inflight - {t}, hist := s.hist + [Replied(s.inflight[t].id, r)]);
    forall u | u in s'.inflight
      ensures && s'.inflight[u] == s.inflight[u]
              && Invoked(s.inflight[u].id, Meaning(s.inflight[u].desc, s.inflight[u].payload)) in s'.hist
              && NoReply(s'.hist, s.inflight[u].id)
    {
      assert u != t && u in s.inflight;
    }
  }

  lemma BookReply(c: Config, d0: seq<byte>, h: seq<Event>, nextId: nat, es: seq<Effect>,
                  pts: seq<nat>, d: seq<byte>, id: nat, op: Op, r: Reply)
    requires Books(c, d0, h, nextId, es, pts, d)
    requires id < nextId && Invoked(id, op) in h && NoReply(h, id) && TookEffect(es, id, r)
    ensures Books(c, d0, h + [Replied(id, r)], nextId, es, pts, d)
  {
    var i :| 0 <= i < |h| && h[i] == Invoked(id, op);
    LaterEvent(c.caps, d0, h, es, pts, d, Replied(id, r));
    WellFormedPush(h, Replied(id, r));
  }

  lemma ConsumeHistory(c: Config, s: State, d0: seq<byte>)
    requires SqesOk(c, Mem(s), s.sq.published) && HistoryOk(c, s, d0)
    requires s.pc.Enter? && s.pc.left > 0 && s.sq.published != []
    ensures HistoryOk(c, StepConsume(s), d0)
  {
    var e := s.sq.published[0];
    assert SqeOk(c, Mem(s), e);
    if e.op == CommitAndFetchReq {
      DeliveredReply(c, s, e);
      CommitHistory(c, s, d0, e.tag, ReplyOf(s, s.inflight[e.tag], e));
    }
  }

  lemma CommitHistory(c: Config, s: State, d0: seq<byte>, t: nat, r: Reply)
    requires HistoryOk(c, s, d0) && t in s.inflight && TookEffect(s.served, s.inflight[t].id, r)
    ensures HistoryOk(c, s.(inflight := s.inflight - {t}, hist := s.hist + [Replied(s.inflight[t].id, r)]), d0)
  {
    var q := s.inflight[t];
    BookReply(c, d0, s.hist, s.nextId, s.served, s.points, s.disk, q.id, Meaning(q.desc, q.payload), r);
    RepliedInflight(s, t, r);
  }

  // ---------------------------------------------------------------------
  // The kernel dispatches a request

  lemma DispatchLeaves(c: Config, s: State, t: nat, desc: IoDesc, payload: seq<byte>, u: nat)
    requires ValidConfig(c) && Enabled(c, s, Dispatch(t, desc, payload))
    requires u != t && s.kern[t].addr == BufferAddr(c, t) && InPool(c, Mem(s), t)
    ensures Untouched(c, Mem(s), Mem(StepDispatch(s, t, desc, payload)), u)
  {
    AdvertisedArithmetic(c.limits, c.bufSize, desc);
    if InPool(c, Mem(s), u) {
      OtherBufferKept(c, s.pool, t, u, payload);
    }
  }

  lemma DispatchPends(c: Config, s: State, t: nat, desc: IoDesc, payload: seq<byte>)
    requires ValidConfig(c) && Enabled(c, s, Dispatch(t, desc, payload))
    requires s.kern[t].addr == BufferAddr(c, t) && InPool(c, Mem(s), t) && Unserved(Mem(s), s.nextId)
    ensures Pending(c, Mem(StepDispatch(s, t, desc, payload)), t)
  {
    AdvertisedArithmetic(c.limits, c.bufSize, desc);
    var a := BufferAddr(c, t);
    PayloadInBuffer(s.pool, a, c.bufSize, payload);
    assert Buf(c, Mem(StepDispatch(s, t, desc, payload)), t) == Splice(s.pool, a, payload)[a..a + c.bufSize];
  }

  lemma PayloadInBuffer(pool: seq<byte>, a: nat, n: nat, payload: seq<byte>)
    requires a + n <= |pool| && |payload| <= n
    ensures payload <= Splice(pool, a, payload)[a..a + n]
  {
  }

  lemma DispatchPlaces(c: Config, s: State, t: nat, desc: IoDesc, payload: seq<byte>, d0: seq<byte>)
    requires ValidConfig(c) && Inv(c, s, d0) && Enabled(c, s, Dispatch(t, desc, payload))
    ensures PlacesOk(c, StepDispatch(s, t, desc, payload))
  {
    KernelTagIsNowhereElse(c, s, t);
    Tokens.TagHasBuffer(c, s, t);
    assert KernOk(c, Mem(s), t, s.kern[t]);
    DispatchPends(c, s, t, desc, payload);
    DispatchElsewhere(c, s, t, desc, payload);
  }

  lemma DispatchElsewhere(c: Config, s: State, t: nat, desc: IoDesc, payload: seq<byte>)
    requires ValidConfig(c) && PlacesOk(c, s) && Enabled(c, s, Dispatch(t, desc, payload))
    requires s.kern[t].addr == BufferAddr(c, t) && InPool(c, Mem(s), t)
    requires NotInSq(s, t) && NotInCq(s, t) && t !in Tokens.Hand(s.pc)
    requires Pending(c, Mem(StepDispatch(s, t, desc, payload)), t)
    ensures PlacesOk(c, StepDispatch(s, t, desc, payload))
  {
    var s' := StepDispatch(s, t, desc, payload);
    var m, m' := Mem(s), Mem(s');
    forall u | u != t
      ensures Untouched(c, m, m', u)
    {
      DispatchLeaves(c, s, t, desc, payload, u);
    }
    UntouchedSqes(c, m, m', s.sq.published);
    UntouchedSqes(c, m, m', s.sq.staged);
    UntouchedCqes(c, m, m', s.cq);
    forall u | u in s'.kern
      ensures KernOk(c, m', u, s'.kern[u])
    {
      if u != t {
        UntouchedKern(c, m, m', u, s.kern[u]);
      }
    }
    match s.pc
    case Serve(u) => UntouchedPending(c, m, m', u);
    case Commit(u, result) => UntouchedAnswered(c, m, m', u, result);
    case Done(_, hand) =>
      forall i | 0 <= i < |hand|
        ensures Silent(m', hand[i])
      {
        UntouchedSilent(c, m, m', hand[i]);
      }
    case _ =>
  }

  lemma BookInvocation(c: Config, d0: seq<byte>, h: seq<Event>, nextId: nat, es: seq<Effect>,
                       pts: seq<nat>, d: seq<byte>, op: Op)
    requires Books(c, d0, h, nextId, es, pts, d)
    ensures Books(c, d0, h + [Invoked(nextId, op)], nextId + 1, es, pts, d)
  {
    LaterEvent(c.caps, d0, h, es, pts, d, Invoked(nextId, op));
    WellFormedPush(h, Invoked(nextId, op));
  }

  lemma InvokedInflight(s: State, t: nat, desc: IoDesc, payload: seq<byte>)
    requires InflightOk(s) && forall i :: 0 <= i < |s.hist| ==> s.hist[i].id < s.nextId
    ensures InflightOk(s.(inflight := s.inflight[t := Request(s.nextId, desc, payload)], nextId := s.nextId + 1,
                          hist := s.hist + [Invoked(s.nextId, Meaning(desc, payload))]))
  {
    var h' := s.hist + [Invoked(s.nextId, Meaning(desc, payload))];
    assert h'[|s.hist|] == Invoked(s.nextId, Meaning(desc, payload));
    forall u | u in s.inflight
      ensures Invoked(s.inflight[u].id, Meaning(s.inflight[u].desc, s.inflight[u].payload)) in h'
      ensures NoReply(h', s.inflight[u].id)
    {
    }
  }

  lemma DispatchHistory(c: Config, s: State, t: nat, desc: IoDesc, payload: seq<byte>, d0: seq<byte>)
    requires HistoryOk(c, s, d0)
    requires t in s.kern && t < |s.descs| && s.kern[t].addr + |payload| <= |s.pool|
    ensures HistoryOk(c, StepDispatch(s, t, desc, payload), d0)
  {
    BookInvocation(c, d0, s.hist, s.nextId, s.served, s.points, s.disk, Meaning(desc, payload));
    InvokedInflight(s, t, desc, payload);
  }

  // ---------------------------------------------------------------------
  // Every step, every run

  /** Steps that leave requests, places and history as they are. */
  predicate Quiet(l: Label) {
    l.EnterReturn? || l.Check? || l.Load? || l.Epoll? || l.PeekCQE?
    || l.StoreFlag? || l.RaiseEventFd? || l.Release?
  }

  lemma QuietStep(c: Config, s: State, l: Label)
    requires Quiet(l) && Enabled(c, s, l)
    ensures var s' := Step(c, s, l);
            && s'.sq == s.sq && s'.cq == s.cq && s'.kern == s.kern && Mem(s') == Mem(s)
            && (s'.pc == s.pc || !(s'.pc.Serve? || s'.pc.Commit? || (s'.pc.Done? && s'.pc.hand != [])))
  {
    match l
    case Epoll(_) =>
    case _ =>
  }

  lemma StepKeepsPlaces(c: Config, s: State, l: Label, d0: seq<byte>)
    requires ValidConfig(c) && Inv(c, s, d0) && Enabled(c, s, l)
    ensures PlacesOk(c, Step(c, s, l))
  {
    match l
    case Flush => FlushPlaces(c, s);
    case Take => TakePlaces(c, s);
    case HandleIO(out) => HandlePlaces(c, s, out, d0);
    case PrepareCommit => CommitPlaces(c, s);
    case Consume => ConsumePlaces(c, s);
    case Dispatch(t, desc, payload) => DispatchPlaces(c, s, t, desc, payload, d0);
    case Post(t) => PostPlaces(c, s, t, 0);
    case Abort(t, res) => PostPlaces(c, s, t, res);
    case _ => QuietStep(c, s, l);
  }

  /** Steps other than these three leave the history alone. */
  lemma SameHistory(c: Config, s: State, l: Label)
    requires Enabled(c, s, l) && !l.HandleIO? && !l.Consume? && !l.Dispatch?
    ensures var s' := Step(c, s, l);
            && s'.inflight == s.inflight && s'.nextId == s.nextId && s'.hist == s.hist
            && s'.served == s.served && s'.points == s.points && s'.disk == s.disk
  {
    match l
    case Post(_) =>
    case Abort(_, _) =>
    case PrepareCommit =>
    case Take =>
    case _ =>
  }

  /** Steps that leave the submission queue, the requests served and the worker's staging alone. */
  lemma QuietOrKernel(c: Config, s: State, l: Label)
    requires Enabled(c, s, l)
    requires Quiet(l) || l.Dispatch? || l.Post? || l.Abort?
    ensures var s' := Step(c, s, l);
            && s'.sq == s.sq && s'.served == s.served
            && (s'.pc.SubmitFetch? <==> s.pc.SubmitFetch?) && (s'.pc.Commit? <==> s.pc.Commit?)
            && (if l.EnterReturn? then !s'.pc.Enter? else s'.pc == s.pc || !(s'.pc.Enter? || s.pc.Enter?))
  {
    match l
    case Epoll(_) =>
    case Post(_) =>
    case Abort(_, _) =>
    case _ =>
  }

  lemma StepKeepsHistory(c: Config, s: State, l: Label, d0: seq<byte>)
    requires ValidConfig(c) && Inv(c, s, d0) && Enabled(c, s, l)
    ensures HistoryOk(c, Step(c, s, l), d0)
  {
    match l
    case HandleIO(out) => HandleHistory(c, s, out, d0);
    case Consume => ConsumeHistory(c, s, d0);
    case Dispatch(t, desc, payload) => DispatchHistory(c, s, t, desc, payload, d0);
    case _ => SameHistory(c, s, l);
  }

  lemma StepKeeps(c: Config, s: State, l: Label, d0: seq<byte>)
    requires ValidConfig(c) && Inv(c, s, d0) && Enabled(c, s, l)
    ensures Inv(c, Step(c, s, l), d0)
  {
    Tokens.StepKeeps(c, s, l);
    StepKeepsPlaces(c, s, l, d0);
    StepKeepsHistory(c, s, l, d0);
  }

  lemma {:induction false} RunKeeps(c: Config, s: State, ls: seq<Label>, d0: seq<byte>)
    requires ValidConfig(c) && Inv(c, s, d0) && IsRun(c, s, ls)
    ensures Inv(c, Exec(c, s, ls), d0)
    decreases |ls|
  {
    if ls != [] {
      StepKeeps(c, s, ls[0], d0);
      RunKeeps(c, Step(c, s, ls[0]), ls[1..], d0);
    }
  }

  lemma InitHolds(c: Config, d0: seq<byte>)
    requires ValidConfig(c) && |d0| == c.limits.size
    ensures Inv(c, Init(c, d0), d0)
  {
    Tokens.InitHolds(c, d0);
    Tokens.FetchQueueIs(c, c.depth);
  }

  lemma ReachableInv(c: Config, d0: seq<byte>, s: State)
    requires ValidConfig(c) && |d0| == c.limits.size && Reachable(c, d0, s)
    ensures Inv(c, s, d0)
  {
    var ls :| IsRun(c, Init(c, d0), ls) && Exec(c, Init(c, d0), ls) == s;
    InitHolds(c, d0);
    RunKeeps(c, Init(c, d0), ls, d0);
  }

  /**
   Linearizability: in every interleaving of kernel, worker and closing
   thread, with any backend that keeps the io.ReaderAt/io.WriterAt contracts,
   each request takes effect once between its dispatch and its commit, and the
   replies are those of a byte-array disk.
   */
  lemma EveryRunIsLinearizable(c: Config, d0: seq<byte>, s: State)
    requires ValidConfig(c) && |d0| == c.limits.size && Reachable(c, d0, s)
    ensures WellFormed(s.hist)
    ensures Linearizes(c.caps, d0, s.hist, s.served, s.points, s.disk)
    ensures Linearizable(c.caps, d0, s.hist)
  {
    ReachableInv(c, d0, s);
  }

  // ---------------------------------------------------------------------
  // A backend that never fails

  /** Only requests the backend supports are dispatched, and a call that is made succeeds. */
  predicate NothingFails(c: Config, s: State, l: Label) {
    match l
    case Dispatch(_, desc, _) => Serves(c.caps, desc.opFlags)
    case HandleIO(out) =>
      s.pc.Serve? && s.pc.tag < |s.descs| ==>
        var plan := PlanOf(c.caps, c.bufSize, s.descs[s.pc.tag]);
        plan.Invoke? ==> Succeeded(plan.call, out)
    case _ => true
  }

  predicate FaultFree(c: Config, s: State, ls: seq<Label>)
    requires IsRun(c, s, ls)
    decreases |ls|
  {
    ls == [] || (NothingFails(c, s, ls[0]) && FaultFree(c, Step(c, s, ls[0]), ls[1..]))
  }

  /** Only such requests are in flight, and those that took effect were served in full. */
  ghost predicate AllServed(c: Config, s: State) {
    && (forall t :: t in s.inflight ==> Serves(c.caps, s.inflight[t].desc.opFlags))
    && (forall k :: 0 <= k < |s.served| ==> Complete(s.served[k]))
  }

  lemma SupportedIsServed(c: Config, s: State, out: Outcome)
    requires ValidConfig(c) && Enabled(c, s, Label.HandleIO(out)) && Pending(c, Mem(s), s.pc.tag)
    requires NothingFails(c, s, Label.HandleIO(out)) && Serves(c.caps, s.inflight[s.pc.tag].desc.opFlags)
    ensures var q, r := s.inflight[s.pc.tag], ServedBy(c, s, out);
            Complete(Effect(q.id, Meaning(q.desc, q.payload), Reply(r.result, DataOf(q.desc, r.result, r.buf))))
  {
    var d := s.descs[s.pc.tag];
    AdvertisedArithmetic(c.limits, c.bufSize, d);
    AnswerIs(c.caps, c.limits, c.bufSize, d, Buffer(c, s, s.pc.tag), s.disk, out);
    FlagBits();
    Bits.AndMask(d.opFlags, 8);
  }

  lemma HandleServesAll(c: Config, s: State, out: Outcome)
    requires ValidConfig(c) && Enabled(c, s, Label.HandleIO(out)) && Pending(c, Mem(s), s.pc.tag)
    requires NothingFails(c, s, Label.HandleIO(out)) && AllServed(c, s)
    ensures AllServed(c, StepHandleIO(c, s, out))
  {
    SupportedIsServed(c, s, out);
    var q, r := s.inflight[s.pc.tag], ServedBy(c, s, out);
    HandleBooks(c, s, out,
                Effect(q.id, Meaning(q.desc, q.payload), Reply(r.result, DataOf(q.desc, r.result, r.buf))), r.disk);
  }

  lemma ConsumeServesAll(c: Config, s: State)
    requires AllServed(c, s) && s.pc.Enter? && s.pc.left > 0 && s.sq.published != []
    ensures AllServed(c, StepConsume(s))
  {
  }

  lemma DispatchServesAll(c: Config, s: State, t: nat, desc: IoDesc, payload: seq<byte>)
    requires AllServed(c, s) && Serves(c.caps, desc.opFlags)
    requires t in s.kern && t < |s.descs| && s.kern[t].addr + |payload| <= |s.pool|
    ensures AllServed(c, StepDispatch(s, t, desc, payload))
  {
  }

  lemma StepServesAll(c: Config, s: State, l: Label, d0: seq<byte>)
    requires ValidConfig(c) && Inv(c, s, d0) && Enabled(c, s, l) && NothingFails(c, s, l) && AllServed(c, s)
    ensures AllServed(c, Step(c, s, l))
  {
    match l
    case HandleIO(out) => HandleServesAll(c, s, out);
    case Consume => ConsumeServesAll(c, s);
    case Dispatch(t, desc, payload) => DispatchServesAll(c, s, t, desc, payload);
    case _ => SameHistory(c, s, l);
  }

  lemma {:induction false} RunServesAll(c: Config, s: State, ls: seq<Label>, d0: seq<byte>)
    requires ValidConfig(c) && Inv(c, s, d0) && AllServed(c, s) && IsRun(c, s, ls) && FaultFree(c, s, ls)
    ensures AllServed(c, Exec(c, s, ls))
    decreases |ls|
  {
    if ls != [] {
      StepServesAll(c, s, ls[0], d0);
      StepKeeps(c, s, ls[0], d0);
      RunServesAll(c, Step(c, s, ls[0]), ls[1..], d0);
    }
  }

  /**
   With a backend that never fails every request is answered with its full
   length, discards included. Without discards, whose range is undefined
   afterwards, the disk is an array: it holds the initial bytes with the writes
   applied in order, and reads return exactly what the writes that took effect
   before them left there.
   */
  lemma FaultFreeRunsAreAnArray(c: Config, d0: seq<byte>, ls: seq<Label>)
    requires ValidConfig(c) && |d0| == c.limits.size
    requires IsRun(c, Init(c, d0), ls) && FaultFree(c, Init(c, d0), ls)
    ensures var s := Exec(c, Init(c, d0), ls);
            && (forall k :: 0 <= k < |s.served| ==> Complete(s.served[k]))
            && Linearizes(c.caps, d0, s.hist, s.served, s.points, s.disk)
            && ((forall k :: 0 <= k < |s.served| ==> !s.served[k].op.Discard?) ==>
                  && s.disk == ApplyAll(d0, s.served)
                  && (forall k :: 0 <= k < |s.served| ==> ReadsArray(d0, s.served, k)))
  {
    InitHolds(c, d0);
    RunKeeps(c, Init(c, d0), ls, d0);
    RunServesAll(c, Init(c, d0), ls, d0);
    var s := Exec(c, Init(c, d0), ls);
    if forall k :: 0 <= k < |s.served| ==> !s.served[k].op.Discard? {
      CleanReplayIsAnArray(c.caps, d0, s.served, s.disk);
    }
  }

  // ---------------------------------------------------------------------
  // Requests that took effect, and their replies

  ghost predicate HasReply(s: State, id: nat) {
    exists i :: 0 <= i < |s.hist| && s.hist[i].Replied? && s.hist[i].id == id
  }

  ghost predicate Inflight(s: State, id: nat) {
    exists t :: t in s.inflight && s.inflight[t].id == id
  }

  /** Every request that took effect is replied to or still in flight. */
  ghost predicate Tracked(c: Config, s: State) {
    && (forall t :: t in s.inflight ==> t < c.depth)
    && (forall k :: 0 <= k < |s.served| ==> HasReply(s, s.served[k].id) || Inflight(s, s.served[k].id))
  }

  lemma ConsumeTracks(c: Config, s: State)
    requires Tracked(c, s) && s.pc.Enter? && s.pc.left > 0 && s.sq.published != []
    ensures Tracked(c, StepConsume(s))
  {
    var s' := StepConsume(s);
    forall k | 0 <= k < |s'.served|
      ensures HasReply(s', s'.served[k].id) || Inflight(s', s'.served[k].id)
    {
      var id := s.served[k].id;
      if HasReply(s, id) {
        var i :| 0 <= i < |s.hist| && s.hist[i].Replied? && s.hist[i].id == id;
        assert s'.hist[i] == s.hist[i];
      } else {
        var t :| t in s.inflight && s.inflight[t].id == id;
        if t in s'.inflight {
          assert s'.inflight[t].id == id;
        } else {
          assert s'.hist[|s.hist|].Replied? && s'.hist[|s.hist|].id == id;
        }
      }
    }
  }

  lemma DispatchTracks(c: Config, s: State, t: nat, desc: IoDesc, payload: seq<byte>)
    requires Tracked(c, s) && t < c.depth && t !in s.inflight
    requires t in s.kern && t < |s.descs| && s.kern[t].addr + |payload| <= |s.pool|
    ensures Tracked(c, StepDispatch(s, t, desc, payload))
  {
    var s' := StepDispatch(s, t, desc, payload);
    forall k | 0 <= k < |s'.served|
      ensures HasReply(s', s'.served[k].id) || Inflight(s', s'.served[k].id)
    {
      var id := s.served[k].id;
      if HasReply(s, id) {
        var i :| 0 <= i < |s.hist| && s.hist[i].Replied? && s.hist[i].id == id;
        assert s'.hist[i] == s.hist[i];
      } else {
        var u :| u in s.inflight && s.inflight[u].id == id;
        assert s'.inflight[u].id == id;
      }
    }
  }

  lemma HandleTracks(c: Config, s: State, out: Outcome)
    requires Tracked(c, s) && Enabled(c, s, Label.HandleIO(out)) && s.pc.tag in s.inflight
    ensures Tracked(c, StepHandleIO(c, s, out))
  {
    var s' := StepHandleIO(c, s, out);
    assert s'.inflight == s.inflight && s'.hist == s.hist;
    forall k | 0 <= k < |s'.served|
      ensures HasReply(s', s'.served[k].id) || Inflight(s', s'.served[k].id)
    {
      if k < |s.served| {
        assert s'.served[k] == s.served[k];
        assert HasReply(s, s.served[k].id) ==> HasReply(s', s.served[k].id);
        assert Inflight(s, s.served[k].id) ==> Inflight(s', s.served[k].id);
      } else {
        assert s'.served[k].id == s.inflight[s.pc.tag].id;
      }
    }
  }

  lemma StepTracks(c: Config, s: State, l: Label, d0: seq<byte>)
    requires ValidConfig(c) && Inv(c, s, d0) && Tracked(c, s) && Enabled(c, s, l)
    ensures Tracked(c, Step(c, s, l))
  {
    match l
    case HandleIO(out) => HandleTracks(c, s, out);
    case Consume => ConsumeTracks(c, s);
    case Dispatch(t, desc, payload) =>
      KernelTagIsNowhereElse(c, s, t);
      assert KernOk(c, Mem(s), t, s.kern[t]);
      DispatchTracks(c, s, t, desc, payload);
    case _ => SameHistory(c, s, l);
              SameTracks(c, s, Step(c, s, l));
  }

  lemma SameTracks(c: Config, s: State, s': State)
    requires Tracked(c, s) && s'.inflight == s.inflight && s'.hist == s.hist && s'.served == s.served
    ensures Tracked(c, s')
  {
    forall k | 0 <= k < |s'.served|
      ensures HasReply(s', s'.served[k].id) || Inflight(s', s'.served[k].id)
    {
      assert HasReply(s, s.served[k].id) ==> HasReply(s', s.served[k].id);
      assert Inflight(s, s.served[k].id) ==> Inflight(s', s.served[k].id);
    }
  }

  lemma {:induction false} RunTracks(c: Config, s: State, ls: seq<Label>, d0: seq<byte>)
    requires ValidConfig(c) && Inv(c, s, d0) && Tracked(c, s) && IsRun(c, s, ls)
    ensures Tracked(c, Exec(c, s, ls))
    decreases |ls|
  {
    if ls != [] {
      StepTracks(c, s, ls[0], d0);
      StepKeeps(c, s, ls[0], d0);
      RunTracks(c, Step(c, s, ls[0]), ls[1..], d0);
    }
  }

  /** An entry that commits the request with this id. */
  ghost predicate CommitsIn(s: State, es: seq<IoSqe>, id: nat) {
    exists i :: 0 <= i < |es| && es[i].op == CommitAndFetchReq
                && es[i].tag in s.inflight && s.inflight[es[i].tag].id == id
  }

  /** A tag whose request took effect and has no reply is in a commit entry or in the worker's hand. */
  lemma ServedTagIsCommitted(c: Config, s: State, t: nat, k: nat)
    requires Tokens.Conserved(c, s) && PlacesOk(c, s) && !s.pc.Commit?
    requires t < c.depth && t in s.inflight && k < |s.served| && s.served[k].id == s.inflight[t].id
    ensures CommitsIn(s, s.sq.published, s.inflight[t].id) || CommitsIn(s, s.sq.staged, s.inflight[t].id)
  {
    assert t in Tokens.AllTokens(s) by { assert t in multiset(Tokens.Tags(c.depth)); }
    SilentElsewhere(c, s, t);
    if t in multiset(Tokens.SqTags(s.sq.published)) {
      InSqe(c, s, s.sq.published, t);
    } else {
      assert t in multiset(Tokens.SqTags(s.sq.staged)) by { assert !Silent(Mem(s), t); }
      InSqe(c, s, s.sq.staged, t);
    }
  }

  /** In the kernel, in the completion queue or in the hand, a request has not taken effect. */
  lemma SilentElsewhere(c: Config, s: State, t: nat)
    requires PlacesOk(c, s) && !s.pc.Commit?
    ensures t in multiset(s.kern.Keys) || t in multiset(Tokens.CqTags(s.cq)) || t in multiset(Tokens.Hand(s.pc))
            ==> Silent(Mem(s), t)
  {
    if t in multiset(s.kern.Keys) {
      assert KernOk(c, Mem(s), t, s.kern[t]);
    } else if t in multiset(Tokens.CqTags(s.cq)) {
      var i :| 0 <= i < |s.cq| && Tokens.CqTags(s.cq)[i] == t;
      assert CqeOk(c, Mem(s), s.cq[i]);
    } else if t in multiset(Tokens.Hand(s.pc)) {
      assert t in Tokens.Hand(s.pc);
    }
  }

  lemma InSqe(c: Config, s: State, es: seq<IoSqe>, t: nat)
    requires SqesOk(c, Mem(s), es) && t in s.inflight && t in multiset(Tokens.SqTags(es))
    ensures CommitsIn(s, es, s.inflight[t].id)
  {
    var i :| 0 <= i < |es| && Tokens.SqTags(es)[i] == t;
    assert SqeOk(c, Mem(s), es[i]);
  }

  /** The request of a commit entry that the kernel has not taken has no reply. */
  lemma CommitMeansNoReply(c: Config, s: State, e: IoSqe) returns (k: nat)
    requires InflightOk(s) && SqeOk(c, Mem(s), e) && e.op == CommitAndFetchReq
    ensures k < |s.served| && !HasReply(s, s.served[k].id)
  {
    k :| 0 <= k < |s.served| && Matches(c, Mem(s), e.tag, e.result, k);
    assert NoReply(s.hist, s.inflight[e.tag].id);
  }

  /** With nothing in the submission queue and no commit in hand, every request that took effect has its reply. */
  lemma EmptyQueueMeansReplied(c: Config, s: State, k: nat)
    requires Tokens.Conserved(c, s) && PlacesOk(c, s) && Tracked(c, s) && !s.pc.Commit?
    requires s.sq.published == [] && s.sq.staged == [] && k < |s.served|
    ensures HasReply(s, s.served[k].id)
  {
    if !HasReply(s, s.served[k].id) {
      var t :| t in s.inflight && s.inflight[t].id == s.served[k].id;
      ServedTagIsCommitted(c, s, t, k);
    }
  }
}
