/** The completion queue over whole runs: what is seen is what was posted. `Drive` ties `Ring` to it. */
module CompletionQueue {

  datatype Act<T> = Post(x: T) | See

  /** Unread completions, and everything posted, dropped and seen so far. */
  datatype Trace<T> = Trace(unread: seq<T>, posted: seq<T>, dropped: seq<T>, seen: seq<T>)

  function Do<T>(t: Trace<T>, entries: nat, a: Act<T>): Trace<T> {
    match a
    case Post(x) =>
      if |t.unread| < entries then t.(unread := t.unread + [x], posted := t.posted + [x])
      else t.(posted := t.posted + [x], dropped := t.dropped + [x])
    case See =>
      if t.unread == [] then t else t.(unread := t.unread[1..], seen := t.seen + [t.unread[0]])
  }

  function Run<T>(t: Trace<T>, entries: nat, acts: seq<Act<T>>): Trace<T>
    decreases |acts|
  {
    if acts == [] then t else Run(Do(t, entries, acts[0]), entries, acts[1..])
  }

  /** No completion arrived while `entries` of them were unread. */
  predicate NeverCrowded<T>(t: Trace<T>, entries: nat, acts: seq<Act<T>>)
    decreases |acts|
  {
    acts == [] ||
    (&& (acts[0].Post? ==> |t.unread| < entries)
     && NeverCrowded(Do(t, entries, acts[0]), entries, acts[1..]))
  }

  predicate InOrder<T(==)>(t: Trace<T>) {
    t.dropped == [] && t.posted == t.seen + t.unread
  }

  /** Without crowding, completions are seen in the order posted, none lost and none twice. */
  lemma {:induction false} FifoOverRuns<T>(t: Trace<T>, entries: nat, acts: seq<Act<T>>)
    requires InOrder(t) && NeverCrowded(t, entries, acts)
    ensures InOrder(Run(t, entries, acts))
    decreases |acts|
  {
    if acts != [] {
      var t' := Do(t, entries, acts[0]);
      assert t'.posted == t'.seen + t'.unread;
      FifoOverRuns(t', entries, acts[1..]);
    }
  }

  /** A completion is dropped in some run of the queue exactly when that run crowds it. */
  lemma {:induction false} DroppedIffCrowded<T>(t: Trace<T>, entries: nat, acts: seq<Act<T>>)
    ensures |Run(t, entries, acts).dropped| == |t.dropped| <==> NeverCrowded(t, entries, acts)
    ensures |Run(t, entries, acts).dropped| >= |t.dropped|
    decreases |acts|
  {
    if acts != [] {
      DroppedIffCrowded(Do(t, entries, acts[0]), entries, acts[1..]);
    }
  }
}
