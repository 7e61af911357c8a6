/**
 Token conservation. Each tag is a token that is always in exactly one place:
 a staged entry, a published entry, the kernel, an unread completion or the
 worker's hand. The code's unchecked branches are safe because of it.
 */
module Tokens {
  import opened SubmissionQueue
  import opened Disk
  import opened Requests
  import opened Protocol
  import Bits
  import Ring

  function SqTags(es: seq<IoSqe>): (r: seq<nat>)
    ensures |r| == |es|
  {
    seq(|es|, i requires 0 <= i < |es| => es[i].tag)
  }

  function CqTags(es: seq<Cqe>): (r: seq<nat>)
    ensures |r| == |es|
  {
    seq(|es|, i requires 0 <= i < |es| => es[i].userData)
  }

  /** The tag the worker has taken and not yet staged again. */
  function Hand(pc: Pc): seq<nat> {
    match pc
    case Serve(tag) => [tag]
    case Commit(tag, _) => [tag]
    case Done(_, hand) => hand
    case _ => []
  }

  /** Every place a token can be, with multiplicity. */
  function AllTokens(s: State): multiset<nat> {
    Sum(multiset(SqTags(s.sq.staged)), multiset(SqTags(s.sq.published)), multiset(s.kern.Keys),
        multiset(CqTags(s.cq)), multiset(Hand(s.pc)))
  }

  function Sum(staged: multiset<nat>, published: multiset<nat>, kern: multiset<nat>,
               unread: multiset<nat>, hand: multiset<nat>): multiset<nat> {
    staged + published + kern + unread + hand
  }

  // A token moving on leaves the sum as it was.

  lemma PublishedToKernel(a: multiset<nat>, p: multiset<nat>, k: multiset<nat>, q: multiset<nat>,
                          h: multiset<nat>, t: nat)
    ensures Sum(a, multiset{t} + p, k, q, h) == Sum(a, p, k + multiset{t}, q, h)
  {
  }

  lemma KernelToUnread(a: multiset<nat>, p: multiset<nat>, k: multiset<nat>, q: multiset<nat>,
                       h: multiset<nat>, t: nat)
    ensures Sum(a, p, k + multiset{t}, q, h) == Sum(a, p, k, q + multiset{t}, h)
  {
  }

  lemma UnreadToHand(a: multiset<nat>, p: multiset<nat>, k: multiset<nat>, q: multiset<nat>, t: nat)
    ensures Sum(a, p, k, multiset{t} + q, multiset{}) == Sum(a, p, k, q, multiset{t})
  {
  }

  lemma HandToStaged(a: multiset<nat>, p: multiset<nat>, k: multiset<nat>, q: multiset<nat>, t: nat)
    ensures Sum(a, p, k, q, multiset{t}) == Sum(a + multiset{t}, p, k, q, multiset{})
  {
  }

  lemma StagedToPublished(a: multiset<nat>, p: multiset<nat>, k: multiset<nat>, q: multiset<nat>, h: multiset<nat>)
    ensures Sum(a, p, k, q, h) == Sum(multiset{}, p + a, k, q, h)
  {
  }

  /** The tags below `n`. */
  function Tags(n: nat): (r: set<nat>)
    ensures forall t: nat :: t in r <==> t < n
    ensures |r| == n
  {
    if n == 0 then {} else Tags(n - 1) + {n - 1}
  }

  /** Each tag below depth is in exactly one place, once. */
  ghost predicate Conserved(c: Config, s: State) {
    AllTokens(s) == multiset(Tags(c.depth))
  }

  /** Conservation, with what it keeps true of the queues. */
  ghost predicate Inv(c: Config, s: State) {
    && Conserved(c, s)
    && s.sq.back == 0
    && !s.overflowed
    && (s.pc.Got? ==> s.cq != [])
    && |s.descs| == c.depth && |s.pool| == c.depth * c.bufSize
  }

  /** Counting the places: they add up to the depth. */
  lemma Count(c: Config, s: State)
    requires Conserved(c, s)
    ensures |s.sq.staged| + |s.sq.published| + |s.kern| + |s.cq| + |Hand(s.pc)| == c.depth
  {
    assert |AllTokens(s)| == c.depth;
    assert |s.kern| == |s.kern.Keys|;
  }

  /** Whatever is in some place is a tag below depth. */
  lemma InRange(c: Config, s: State, t: nat)
    requires Conserved(c, s) && t in AllTokens(s)
    ensures t < c.depth
  {
    assert t in multiset(Tags(c.depth));
  }

  lemma TagIn(es: seq<IoSqe>, i: nat)
    requires i < |es|
    ensures es[i].tag in multiset(SqTags(es))
  {
    assert SqTags(es)[i] == es[i].tag;
  }

  lemma CqTagIn(es: seq<Cqe>, i: nat)
    requires i < |es|
    ensures es[i].userData in multiset(CqTags(es))
  {
    assert CqTags(es)[i] == es[i].userData;
  }

  lemma UnreadTagInRange(c: Config, s: State, i: nat)
    requires Conserved(c, s) && i < |s.cq|
    ensures s.cq[i].userData < c.depth
  {
    CqTagIn(s.cq, i);
    InRange(c, s, s.cq[i].userData);
  }

  lemma SqTagsAppend(a: seq<IoSqe>, b: seq<IoSqe>)
    ensures SqTags(a + b) == SqTags(a) + SqTags(b)
    ensures multiset(SqTags(a + b)) == multiset(SqTags(a)) + multiset(SqTags(b))
  {
    assert SqTags(a + b) == SqTags(a) + SqTags(b);
  }

  lemma SqTagsPush(a: seq<IoSqe>, e: IoSqe)
    ensures multiset(SqTags(a + [e])) == multiset(SqTags(a)) + multiset{e.tag}
  {
    assert SqTags(a + [e]) == SqTags(a) + [e.tag];
  }

  lemma SqTagsPop(a: seq<IoSqe>)
    requires a != []
    ensures multiset(SqTags(a)) == multiset{a[0].tag} + multiset(SqTags(a[1..]))
  {
    assert SqTags(a) == [a[0].tag] + SqTags(a[1..]);
  }

  lemma CqTagsPush(a: seq<Cqe>, e: Cqe)
    ensures multiset(CqTags(a + [e])) == multiset(CqTags(a)) + multiset{e.userData}
  {
    assert CqTags(a + [e]) == CqTags(a) + [e.userData];
  }

  lemma CqTagsPop(a: seq<Cqe>)
    requires a != []
    ensures multiset(CqTags(a)) == multiset{a[0].userData} + multiset(CqTags(a[1..]))
  {
    assert CqTags(a) == [a[0].userData] + CqTags(a[1..]);
  }

  lemma KeysAdd(k: map<nat, KernelTag>, t: nat, v: KernelTag)
    requires t !in k
    ensures multiset(k[t := v].Keys) == multiset(k.Keys) + multiset{t}
  {
    assert k[t := v].Keys == k.Keys + {t};
  }

  lemma KeysRemove(k: map<nat, KernelTag>, t: nat)
    requires t in k
    ensures multiset(k.Keys) == multiset((k - {t}).Keys) + multiset{t}
  {
    assert k.Keys == (k - {t}).Keys + {t};
  }

  /** A buffer for every tag: the pool is the disjoint union of `depth` of them. */
  lemma TagHasBuffer(c: Config, s: State, t: nat)
    requires Inv(c, s) && t < c.depth
    ensures HasBuffer(c, s, t)
  {
    Bits.MulNext(t, c.depth, c.bufSize);
  }

  lemma PublishedNotInKernel(c: Config, s: State)
    requires Conserved(c, s) && s.sq.published != []
    ensures s.sq.published[0].tag !in s.kern
  {
    var t := s.sq.published[0].tag;
    TagIn(s.sq.published, 0);
    if t in s.kern {
      assert AllTokens(s)[t] >= 2;
      assert multiset(Tags(c.depth))[t] <= 1;
    }
  }

  lemma ConsumeKeeps(c: Config, s: State)
    requires ValidConfig(c) && Inv(c, s) && s.pc.Enter? && s.pc.left > 0 && s.sq.published != []
    ensures Inv(c, StepConsume(s))
  {
    var s' := StepConsume(s);
    var e := s.sq.published[0];
    PublishedNotInKernel(c, s);
    SqTagsPop(s.sq.published);
    KeysAdd(s.kern, e.tag, Armed(e.addr));
    PublishedToKernel(multiset(SqTags(s.sq.staged)), multiset(SqTags(s'.sq.published)),
                      multiset(s.kern.Keys), multiset(CqTags(s.cq)), multiset{}, e.tag);
    assert AllTokens(s') == AllTokens(s);
  }

  lemma PostKeeps(c: Config, s: State, tag: nat, res: int)
    requires ValidConfig(c) && Inv(c, s) && tag in s.kern
    ensures Inv(c, StepPost(c, s, tag, res))
  {
    var s' := StepPost(c, s, tag, res);
    Count(c, s);
    assert |s.kern| > 0;
    KeysRemove(s.kern, tag);
    CqTagsPush(s.cq, Ring.Cqe(tag, res));
    KernelToUnread(multiset(SqTags(s.sq.staged)), multiset(SqTags(s.sq.published)),
                   multiset(s'.kern.Keys), multiset(CqTags(s.cq)), multiset(Hand(s.pc)), tag);
    assert AllTokens(s') == AllTokens(s);
  }

  lemma TakeMoves(s: State)
    requires s.pc.Got? && s.cq != [] && s.cq[0].userData < 0x1_0000
    ensures AllTokens(StepTake(s)) == AllTokens(s)
  {
    var s' := StepTake(s);
    var t := s.cq[0].userData;
    assert multiset(Hand(s'.pc)) == multiset{t} by { assert Hand(s'.pc) == [t]; }
    CqTagsPop(s.cq);
    UnreadToHand(multiset(SqTags(s.sq.staged)), multiset(SqTags(s.sq.published)),
                 multiset(s.kern.Keys), multiset(CqTags(s'.cq)), t);
  }

  lemma TakeKeeps(c: Config, s: State)
    requires ValidConfig(c) && Inv(c, s) && s.pc.Got?
    ensures Inv(c, StepTake(s))
  {
    UnreadTagInRange(c, s, 0);
    TakeMoves(s);
  }

  lemma CommitMoves(c: Config, s: State)
    requires s.pc.Commit? && s.sq.back == 0 && |s.sq.staged| + |s.sq.published| < c.sqEntries
    ensures AllTokens(StepPrepareCommit(c, s)) == AllTokens(s)
    ensures StepPrepareCommit(c, s).sq.back == 0
  {
    var e := CommitSqe(c, s.pc.tag, s.pc.result);
    StageWithRoom(s.sq, c.sqEntries, e);
    var s' := StepPrepareCommit(c, s);
    assert s'.sq.staged == s.sq.staged + [e] && s'.sq.published == s.sq.published;
    assert multiset(Hand(s'.pc)) == multiset{};
    SqTagsPush(s.sq.staged, e);
    assert multiset(Hand(s.pc)) == multiset{e.tag} by { assert Hand(s.pc) == [e.tag]; }
    HandToStaged(multiset(SqTags(s.sq.staged)), multiset(SqTags(s.sq.published)),
                 multiset(s.kern.Keys), multiset(CqTags(s.cq)), e.tag);
  }

  lemma CommitKeeps(c: Config, s: State)
    requires ValidConfig(c) && Inv(c, s) && s.pc.Commit?
    ensures Inv(c, StepPrepareCommit(c, s))
  {
    Count(c, s);
    CommitMoves(c, s);
  }

  lemma FlushedTags(q: Sq<IoSqe>)
    ensures multiset(SqTags(SubmissionQueue.Flush(q).published))
         == multiset(SqTags(q.published)) + multiset(SqTags(q.staged))
    ensures multiset(SqTags(SubmissionQueue.Flush(q).staged)) == multiset{}
  {
    SqTagsAppend(q.published, q.staged);
    assert SqTags([]) == [];
  }

  lemma FlushMoves(s: State)
    requires s.pc.SubmitFetch? || s.pc.SubmitLoop?
    ensures AllTokens(StepFlush(s)) == AllTokens(s)
  {
    var s' := StepFlush(s);
    assert Hand(s'.pc) == Hand(s.pc) == [];
    FlushedTags(s.sq);
    StagedToPublished(multiset(SqTags(s.sq.staged)), multiset(SqTags(s.sq.published)),
                      multiset(s.kern.Keys), multiset(CqTags(s.cq)), multiset{});
  }

  lemma FlushKeeps(c: Config, s: State)
    requires Inv(c, s) && (s.pc.SubmitFetch? || s.pc.SubmitLoop?)
    ensures Inv(c, StepFlush(s))
  {
    FlushMoves(s);
  }

  /** Same queues, same tags in the kernel and the same hand: the same tokens. */
  lemma NothingMoved(c: Config, s: State, s': State)
    requires Inv(c, s)
    requires s'.sq == s.sq && s'.cq == s.cq && s'.kern.Keys == s.kern.Keys && Hand(s'.pc) == Hand(s.pc)
    requires s'.overflowed == s.overflowed && |s'.descs| == |s.descs| && |s'.pool| == |s.pool|
    requires s'.pc.Got? ==> s.cq != []
    ensures Inv(c, s')
  {
  }

  /** Steps that move no token. */
  predicate Still(l: Label) {
    !(l.Flush? || l.Take? || l.PrepareCommit? || l.Consume? || l.Post? || l.Abort?)
  }

  lemma StillStep(c: Config, s: State, l: Label)
    requires Enabled(c, s, l) && Still(l) && (s.pc.Got? ==> s.cq != [])
    ensures var s' := Step(c, s, l);
            && s'.sq == s.sq && s'.cq == s.cq && s'.kern.Keys == s.kern.Keys && Hand(s'.pc) == Hand(s.pc)
            && s'.overflowed == s.overflowed && |s'.descs| == |s.descs| && |s'.pool| == |s.pool|
            && (s'.pc.Got? ==> s.cq != [])
  {
    match l
    case HandleIO(out) => HandleMovesNothing(c, s, out);
    case Dispatch(tag, desc, payload) => DispatchMovesNothing(s, tag, desc, payload);
    case _ => WaitMovesNothing(c, s, l);
  }

  lemma WaitMovesNothing(c: Config, s: State, l: Label)
    requires Enabled(c, s, l) && Still(l) && !l.HandleIO? && !l.Dispatch?
    ensures Step(c, s, l) == s.(pc := Step(c, s, l).pc, cancelled := Step(c, s, l).cancelled,
                                signalled := Step(c, s, l).signalled, closer := Step(c, s, l).closer)
    ensures Hand(Step(c, s, l).pc) == Hand(s.pc)
    ensures Step(c, s, l).pc.Got? ==> s.pc.Got? || s.cq != []
  {
    match l
    case Epoll(w) =>
    case EnterReturn(ok) =>
    case Check =>
    case Load =>
    case PeekCQE =>
    case _ =>
  }

  lemma HandleMovesNothing(c: Config, s: State, out: Outcome)
    requires Enabled(c, s, Label.HandleIO(out))
    ensures var s' := StepHandleIO(c, s, out);
            && s'.sq == s.sq && s'.cq == s.cq && s'.kern == s.kern && Hand(s'.pc) == Hand(s.pc)
            && s'.overflowed == s.overflowed && s'.descs == s.descs && |s'.pool| == |s.pool|
            && s'.cancelled == s.cancelled && s'.signalled == s.signalled && s'.closer == s.closer
            && s'.pc.Commit?
  {
  }

  lemma DispatchMovesNothing(s: State, tag: nat, desc: IoDesc, payload: seq<byte>)
    requires tag in s.kern && tag < |s.descs| && s.kern[tag].addr + |payload| <= |s.pool|
    ensures var s' := StepDispatch(s, tag, desc, payload);
            && s'.sq == s.sq && s'.cq == s.cq && s'.pc == s.pc && s'.overflowed == s.overflowed
            && s'.kern.Keys == s.kern.Keys && |s'.descs| == |s.descs| && |s'.pool| == |s.pool|
  {
  }

  /** Every step of every thread keeps the invariant. */
  lemma StepKeeps(c: Config, s: State, l: Label)
    requires ValidConfig(c) && Inv(c, s) && Enabled(c, s, l)
    ensures Inv(c, Step(c, s, l))
  {
    match l
    case Flush => FlushKeeps(c, s);
    case Take => TakeKeeps(c, s);
    case PrepareCommit => CommitKeeps(c, s);
    case Consume => ConsumeKeeps(c, s);
    case Post(tag) => PostKeeps(c, s, tag, 0);
    case Abort(tag, res) => PostKeeps(c, s, tag, res);
    case _ =>
      StillStep(c, s, l);
      NothingMoved(c, s, Step(c, s, l));
  }

  /** One FETCH entry per tag below `n`, in order. */
  function FetchSqes(c: Config, n: nat): (es: seq<IoSqe>)
    ensures |es| == n
    ensures forall i :: 0 <= i < n ==> es[i] == FetchSqe(c, i)
  {
    if n == 0 then [] else FetchSqes(c, n - 1) + [FetchSqe(c, n - 1)]
  }

  /** `init` stages every FETCH entry, tag by tag. */
  lemma {:induction false} FetchQueueIs(c: Config, n: nat)
    requires n <= c.sqEntries && c.sqEntries > 0
    ensures FetchQueue(c, n) == Sq([], FetchSqes(c, n), 0)
  {
    if n > 0 {
      FetchQueueIs(c, n - 1);
      StageWithRoom(FetchQueue(c, n - 1), c.sqEntries, FetchSqe(c, n - 1));
    }
  }

  lemma {:induction false} FetchTags(c: Config, n: nat)
    ensures multiset(SqTags(FetchSqes(c, n))) == multiset(Tags(n))
  {
    if n > 0 {
      FetchTags(c, n - 1);
      SqTagsPush(FetchSqes(c, n - 1), FetchSqe(c, n - 1));
    } else {
      assert SqTags(FetchSqes(c, n)) == [];
    }
  }

  lemma InitHolds(c: Config, disk: seq<byte>)
    requires ValidConfig(c)
    ensures Inv(c, Init(c, disk))
  {
    FetchQueueIs(c, c.depth);
    FetchTags(c, c.depth);
    assert SqTags([]) == [] && CqTags([]) == [];
    var none: map<nat, KernelTag> := map[];
    assert none.Keys == {};
  }

  lemma {:induction false} RunKeeps(c: Config, s: State, ls: seq<Label>)
    requires ValidConfig(c) && Inv(c, s) && IsRun(c, s, ls)
    ensures Inv(c, Exec(c, s, ls))
    decreases |ls|
  {
    if ls != [] {
      StepKeeps(c, s, ls[0]);
      RunKeeps(c, Step(c, s, ls[0]), ls[1..]);
    }
  }

  /** Token conservation over every run. */
  lemma TokensAreConserved(c: Config, disk: seq<byte>, s: State)
    requires ValidConfig(c) && Reachable(c, disk, s)
    ensures forall t: nat :: AllTokens(s)[t] == if t < c.depth then 1 else 0
    ensures Inv(c, s)
  {
    var ls :| IsRun(c, Init(c, disk), ls) && Exec(c, Init(c, disk), ls) == s;
    InitHolds(c, disk);
    RunKeeps(c, Init(c, disk), ls);
    forall t: nat
      ensures AllTokens(s)[t] == if t < c.depth then 1 else 0
    {
      assert multiset(Tags(c.depth))[t] == if t in Tags(c.depth) then 1 else 0;
    }
  }

  /**
   The silent-drop branch is dead and no slot is reused early: whenever the worker
   asks for an entry, even after short enters, there is room for it.
   */
  lemma CommitAlwaysFindsAFreshSlot(c: Config, disk: seq<byte>, s: State)
    requires ValidConfig(c) && Reachable(c, disk, s) && s.pc.Commit?
    ensures !Full(s.sq, c.sqEntries)
    ensures !Aliases(s.sq, c.sqEntries)
    ensures Step(c, s, PrepareCommit).sq
            == s.sq.(staged := s.sq.staged + [CommitSqe(c, s.pc.tag, s.pc.result)])
  {
    TokensAreConserved(c, disk, s);
    Count(c, s);
    StageWithRoom(s.sq, c.sqEntries, CommitSqe(c, s.pc.tag, s.pc.result));
    AliasesIff(s.sq, c.sqEntries);
  }

  /** The completion queue never overflows: at most `depth` completions are unread. */
  lemma CompletionQueueNeverOverflows(c: Config, disk: seq<byte>, s: State)
    requires ValidConfig(c) && Reachable(c, disk, s)
    ensures !s.overflowed
    ensures |s.cq| + |s.kern| <= c.depth <= c.cqEntries
    ensures forall t :: t in s.kern ==> |s.cq| < c.cqEntries
  {
    TokensAreConserved(c, disk, s);
    Count(c, s);
    forall t | t in s.kern
      ensures |s.cq| < c.cqEntries
    {
      assert s.kern != map[];
    }
  }

  /** A ring smaller than the depth loses a tag in `init`; a ring at least as large never does. */
  lemma TokensConservedAtInitIff(c: Config, disk: seq<byte>)
    requires c.sqEntries > 0
    ensures Conserved(c, Init(c, disk)) <==> c.depth <= c.sqEntries
  {
    var s := Init(c, disk);
    assert CqTags([]) == [] && SqTags([]) == [];
    var none: map<nat, KernelTag> := map[];
    assert none.Keys == {};
    if c.depth <= c.sqEntries {
      FetchQueueIs(c, c.depth);
      FetchTags(c, c.depth);
    } else {
      FetchQueueStops(c, c.depth);
      assert |AllTokens(s)| == c.sqEntries;
    }
  }

  lemma {:induction false} FetchQueueStops(c: Config, n: nat)
    requires 0 < c.sqEntries <= n
    ensures FetchQueue(c, n).published == [] && |FetchQueue(c, n).staged| == c.sqEntries
  {
    if n == c.sqEntries {
      FetchQueueIs(c, n);
    } else {
      FetchQueueStops(c, n - 1);
    }
  }

  /** The worker ring, sized by roundUp2(depth), is always large enough. */
  lemma RoundedRingHoldsEveryTag(depth: nat)
    requires depth <= 4096
    ensures Bits.RoundUp2(depth) >= depth
  {
    Bits.RoundUp2IsLeast(depth);
  }
}
