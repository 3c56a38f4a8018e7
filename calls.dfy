/**
 * The sequences of driver calls that the session controller issues, and what
 * they guarantee: teardown runs in a fixed order, start-up hands every
 * buffer to the driver exactly once, and the drain loop gives back each
 * buffer it holds before taking the next one.
 */
module Calls {
  import opened Buffers
  import opened Driver

  /** Unmap of buffers 0, 1, ..., n-1, in that order. */
  function UnmapCalls(n: nat): seq<Call>
  {
    if n == 0 then [] else UnmapCalls(n - 1) + [Unmap(n - 1)]
  }

  /** Query and map of buffers 0, 1, ..., n-1, in that order. */
  function MapCalls(n: nat): seq<Call>
  {
    if n == 0 then [] else MapCalls(n - 1) + [QueryBuffer(n - 1), Map(n - 1)]
  }

  /** Queue of buffers 0, 1, ..., n-1, in that order. */
  function QueueCalls(n: nat): seq<Call>
  {
    if n == 0 then [] else QueueCalls(n - 1) + [Queue(n - 1)]
  }

  /**
   * Teardown, one step per flag that is set: give back the locked buffer,
   * unmap the pool, stop streaming, close the descriptor.
   */
  function CleanupCalls(held: Option<nat>, mapped: bool, n: nat, streaming: bool, open: bool): seq<Call>
  {
    (if held.Some? then [Queue(held.value)] else [])
    + (if mapped then UnmapCalls(n) else [])
    + (if streaming then [StreamOff] else [])
    + (if open then [Close] else [])
  }

  /** A successful start-up for n buffers. */
  function InitCalls(n: nat): seq<Call>
  {
    [Open, SetFormat, RequestBuffers(n)] + MapCalls(n) + [StreamOn] + QueueCalls(n)
  }

  /** The calls of one lock up to the k-th buffer it dequeues (counting from 0). */
  function DrainCalls(rs: seq<Frame>, k: nat): (t: seq<Call>)
    requires k < |rs|
    ensures |t| == 3 * k + 1
  {
    if k == 0 then [Dequeue(rs[0].index)]
    else DrainCalls(rs, k - 1) + [Poll, Queue(rs[k - 1].index), Dequeue(rs[k].index)]
  }

  /** The teardown step a call belongs to. */
  function Phase(c: Call): nat
  {
    match c
    case Queue(_) => 0
    case Unmap(_) => 1
    case StreamOff => 2
    case _ => 3
  }

  ghost predicate PhaseOrdered(t: seq<Call>)
  {
    forall i, j :: 0 <= i < j < |t| ==> Phase(t[i]) <= Phase(t[j])
  }

  lemma {:induction false} UnmapCallsAre(n: nat)
    ensures |UnmapCalls(n)| == n
    ensures forall k :: 0 <= k < n ==> UnmapCalls(n)[k] == Unmap(k)
  {
    if n > 0 {
      UnmapCallsAre(n - 1);
    }
  }

  lemma {:induction false} OrderedAppend(a: seq<Call>, b: seq<Call>, pa: nat, pb: nat)
    requires pa <= pb
    requires PhaseOrdered(a) && forall i :: 0 <= i < |a| ==> Phase(a[i]) <= pa
    requires forall j :: 0 <= j < |b| ==> Phase(b[j]) == pb
    ensures PhaseOrdered(a + b) && forall i :: 0 <= i < |a + b| ==> Phase((a + b)[i]) <= pb
  {
  }

  lemma {:induction false} UnmapCallsPhase(n: nat)
    ensures forall j :: 0 <= j < |UnmapCalls(n)| ==> Phase(UnmapCalls(n)[j]) == 1
  {
    if n > 0 {
      UnmapCallsPhase(n - 1);
    }
  }

  /** Teardown is ordered: every step comes after the ones before it in the order above. */
  lemma {:induction false} CleanupOrdered(held: Option<nat>, mapped: bool, n: nat, streaming: bool, open: bool)
    ensures PhaseOrdered(CleanupCalls(held, mapped, n, streaming, open))
  {
    var q: seq<Call> := if held.Some? then [Queue(held.value)] else [];
    var u := if mapped then UnmapCalls(n) else [];
    var s: seq<Call> := if streaming then [StreamOff] else [];
    var c: seq<Call> := if open then [Close] else [];
    UnmapCallsPhase(n);
    assert forall j :: 0 <= j < |u| ==> Phase(u[j]) == 1;
    OrderedAppend(q, u, 0, 1);
    var qu := q + u;
    OrderedAppend(qu, s, 1, 2);
    var qus := qu + s;
    OrderedAppend(qus, c, 2, 3);
  }

  /** Teardown is complete: each step happens exactly when its flag is set. */
  lemma {:induction false} CleanupSteps(held: Option<nat>, mapped: bool, n: nat, streaming: bool, open: bool)
    ensures var t := CleanupCalls(held, mapped, n, streaming, open);
      && (forall h: nat :: Queue(h) in t <==> held == Some(h))
      && (forall k: nat :: Unmap(k) in t <==> mapped && k < n)
      && (StreamOff in t <==> streaming)
      && (Close in t <==> open)
  {
    var u := if mapped then UnmapCalls(n) else [];
    UnmapCallsAre(n);
    forall k: nat
      ensures Unmap(k) in u <==> mapped && k < n
    {
      if mapped && k < n {
        assert u[k] == Unmap(k);
      }
    }
    forall c | c in u
      ensures c.Unmap?
    {
    }
  }

  /** With no flag set, teardown calls nothing: a second teardown changes nothing. */
  lemma CleanupOfNothing(n: nat)
    ensures CleanupCalls(None, false, n, false, false) == []
  {
  }

  lemma {:induction false} QueueCallsCount(n: nat, c: Call)
    ensures multiset(QueueCalls(n))[c] == if c.Queue? && c.index < n then 1 else 0
  {
    if n > 0 {
      QueueCallsCount(n - 1, c);
    }
  }

  lemma {:induction false} MapCallsHaveNoQueue(n: nat, i: nat)
    ensures multiset(MapCalls(n))[Queue(i)] == 0
  {
    if n > 0 {
      MapCallsHaveNoQueue(n - 1, i);
    }
  }

  /** Start-up hands each buffer in [0, n) to the driver exactly once, and no other. */
  lemma QueuedOnceAtInit(n: nat, i: nat)
    ensures multiset(InitCalls(n))[Queue(i)] == if i < n then 1 else 0
  {
    QueueCallsCount(n, Queue(i));
    MapCallsHaveNoQueue(n, i);
  }

  /**
   * The drain never drops the buffer it holds: the m-th buffer dequeued is
   * queued back right before the (m+1)-th is dequeued, after a poll.
   */
  lemma {:induction false} DrainCallsAt(rs: seq<Frame>, k: nat, m: nat)
    requires k < |rs|
    ensures DrainCalls(rs, k)[0] == Dequeue(rs[0].index)
    ensures m < k ==>
      && DrainCalls(rs, k)[3 * m + 1] == Poll
      && DrainCalls(rs, k)[3 * m + 2] == Queue(rs[m].index)
      && DrainCalls(rs, k)[3 * m + 3] == Dequeue(rs[m + 1].index)
  {
    if k > 0 {
      DrainCallsAt(rs, k - 1, m);
    }
  }
}
