/**
 * The bounded queues of the receivers: a queue.Queue(maxsize) whose producer drops the oldest
 * item when the queue is full, or a collections.deque(maxlen); and the two ways consumers
 * empty it (keep only the last item drained, or collect all of them in order).
 */
module Fifo {
  import opened Wrappers

  /** The maxsize of every receiver queue. */
  const QueueCapacity: nat := 100

  /** The newest `cap` elements of `s`. */
  function KeepNewest<T>(s: seq<T>, cap: nat): (r: seq<T>)
    ensures |r| == if |s| <= cap then |s| else cap
    ensures r == s[|s| - |r|..]
  {
    if |s| <= cap then s else s[|s| - cap..]
  }

  /**
   * Enqueue with drop-oldest: `if q.full(): q.get_nowait()` then `q.put_nowait(x)`,
   * and equally deque(maxlen=cap).append(x).
   */
  function Offer<T>(q: seq<T>, x: T, cap: nat): seq<T>
  {
    KeepNewest(q + [x], cap)
  }

  /** Offering keeps the queue within capacity, keeps the newest item last, and keeps the order of the rest. */
  lemma OfferProperties<T>(q: seq<T>, x: T, cap: nat)
    requires |q| <= cap && cap > 0
    ensures |Offer(q, x, cap)| == if |q| < cap then |q| + 1 else cap
    ensures Offer(q, x, cap) == (if |q| < cap then q else q[1..]) + [x]
  {
  }

  /** Offering a whole batch in order. */
  function OfferAll<T>(q: seq<T>, xs: seq<T>, cap: nat): seq<T>
    decreases |xs|
  {
    if xs == [] then q else OfferAll(Offer(q, xs[0], cap), xs[1..], cap)
  }

  /** After any run of offers the queue holds exactly the newest `cap` items ever offered. */
  lemma {:induction false} OfferAllKeepsNewest<T>(q: seq<T>, xs: seq<T>, cap: nat)
    ensures OfferAll(KeepNewest(q, cap), xs, cap) == KeepNewest(q + xs, cap)
    decreases |xs|
  {
    if xs != [] {
      var q1 := Offer(KeepNewest(q, cap), xs[0], cap);
      assert q1 == KeepNewest(q + [xs[0]], cap);
      OfferAllKeepsNewest(q + [xs[0]], xs[1..], cap);
      assert q + [xs[0]] + xs[1..] == q + xs;
    }
  }

  /** A queue within capacity is its own newest `cap` items. */
  lemma KeepNewestWithin<T>(q: seq<T>, cap: nat)
    requires |q| <= cap
    ensures KeepNewest(q, cap) == q && KeepNewest(q + [], cap) == q
  {
    assert q + [] == q;
  }

  /** Offering one more batch after a run of items keeps the newest `cap` of the whole run. */
  lemma OfferBatch<T>(q: seq<T>, handled: seq<T>, batch: seq<T>, cap: nat)
    ensures OfferAll(KeepNewest(q + handled, cap), batch, cap) == KeepNewest(q + (handled + batch), cap)
  {
    OfferAllKeepsNewest(q + handled, batch, cap);
    assert q + handled + batch == q + (handled + batch);
  }

  /** Offering one more item after a run of items keeps the newest `cap` of the whole run. */
  lemma OfferOne<T>(q: seq<T>, handled: seq<T>, x: T, cap: nat)
    ensures Offer(KeepNewest(q + handled, cap), x, cap) == KeepNewest(q + (handled + [x]), cap)
  {
    OfferBatch(q, handled, [x], cap);
  }

  /** `while not q.empty(): last = q.get_nowait()`; returns the newest item, or None for an empty queue. */
  method DrainLast<T>(q: seq<T>) returns (last: Option<T>)
    ensures last == if q == [] then None else Some(q[|q| - 1])
  {
    last := None;
    var rest := q;
    while rest != []
      invariant |rest| <= |q| && rest == q[|q| - |rest|..]
      invariant last == if |rest| == |q| then None else Some(q[|q| - |rest| - 1])
      decreases |rest|
    {
      last := Some(rest[0]);
      rest := rest[1..];
    }
  }

  /** `while not q.empty(): items.append(q.get_nowait())`; returns the items oldest first. */
  method DrainAll<T>(q: seq<T>) returns (items: seq<T>)
    ensures items == q
  {
    items := [];
    var rest := q;
    while rest != []
      invariant |rest| <= |q| && items == q[..|q| - |rest|] && rest == q[|q| - |rest|..]
      decreases |rest|
    {
      items := items + [rest[0]];
      rest := rest[1..];
    }
  }
}
