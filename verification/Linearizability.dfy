/**
 Linearizability, stated over external histories alone: every request takes
 effect once, at a point between its invocation and its reply, and the
 effects in that order are a run of the byte-array disk.
 */
module Linearizability {
  import opened Disk
  import opened Protocol

  /** `pts[k]`: how many events had happened when the k-th effect took place. */
  ghost predicate Linearizes(caps: Caps, d0: seq<byte>, h: seq<Event>, es: seq<Effect>, pts: seq<nat>, d: seq<byte>) {
    && |pts| == |es|
    && Once(es)
    && Ordered(pts)
    && (forall k :: 0 <= k < |es| ==> AfterInvocation(h, es[k], pts[k]) && BeforeReply(h, es[k], pts[k]))
    && (forall i :: 0 <= i < |h| && h[i].Replied? ==> TookEffect(es, h[i].id, h[i].reply))
    && Replays(caps, d0, es, d)
  }

  /** No request takes effect twice. */
  ghost predicate Once(es: seq<Effect>) {
    forall j, k :: 0 <= j < k < |es| ==> es[j].id != es[k].id
  }

  ghost predicate Ordered(pts: seq<nat>) {
    forall j, k :: 0 <= j < k < |pts| ==> pts[j] <= pts[k]
  }

  ghost predicate AfterInvocation(h: seq<Event>, e: Effect, p: nat) {
    exists i :: 0 <= i < p && i < |h| && h[i] == Invoked(e.id, e.op)
  }

  ghost predicate BeforeReply(h: seq<Event>, e: Effect, p: nat) {
    forall i :: 0 <= i < |h| && h[i].Replied? && h[i].id == e.id ==> p <= i
  }

  ghost predicate TookEffect(es: seq<Effect>, id: nat, r: Reply) {
    exists k :: 0 <= k < |es| && es[k].id == id && es[k].reply == r
  }

  /** Requests are invoked once, and replied to at most once, afterwards. */
  ghost predicate WellFormed(h: seq<Event>) {
    && (forall i, j :: 0 <= i < j < |h| && h[i].Invoked? && h[j].Invoked? ==> h[i].id != h[j].id)
    && (forall i, j :: 0 <= i < j < |h| && h[i].Replied? && h[j].Replied? ==> h[i].id != h[j].id)
    && (forall j :: 0 <= j < |h| && h[j].Replied? ==> InvokedBefore(h, j))
  }

  ghost predicate InvokedBefore(h: seq<Event>, j: nat)
    requires j < |h|
  {
    exists i :: 0 <= i < j && h[i].Invoked? && h[i].id == h[j].id
  }

  ghost predicate Linearizable(caps: Caps, d0: seq<byte>, h: seq<Event>) {
    exists es: seq<Effect>, pts: seq<nat>, d: seq<byte> :: Linearizes(caps, d0, h, es, pts, d)
  }

  /**
   Linearization points respect real time: a request replied to before another
   is invoked takes effect before it.
   */
  lemma PointsRespectRealTime(caps: Caps, d0: seq<byte>, h: seq<Event>, es: seq<Effect>, pts: seq<nat>,
                              d: seq<byte>, i: nat, j: nat, k: nat)
    returns (m: nat)
    requires Linearizes(caps, d0, h, es, pts, d) && WellFormed(h)
    requires i < j < |h| && h[i].Replied? && h[j].Invoked?
    requires k < |es| && es[k].id == h[j].id
    ensures m < k && es[m].id == h[i].id && es[m].reply == h[i].reply
  {
    m :| 0 <= m < |es| && es[m].id == h[i].id && es[m].reply == h[i].reply;
    assert BeforeReply(h, es[m], pts[m]);
    assert pts[m] <= i;
    assert AfterInvocation(h, es[k], pts[k]);
    var i' :| 0 <= i' < pts[k] && i' < |h| && h[i'] == Invoked(es[k].id, es[k].op);
    assert i' == j;
    assert pts[m] <= i < j < pts[k];
  }
}
