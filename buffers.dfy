/**
 * Buffer ownership for a pool of memory-mapped V4L2 capture buffers.
 *
 * A buffer index in [0, n) is always owned by exactly one party:
 *  - the driver, as an empty buffer waiting to be filled (`queued`),
 *  - the driver, as a filled buffer waiting to be dequeued (`ready`, in completion order),
 *  - the consumer, as the single locked frame (`held`).
 */
module Buffers {

  datatype Option<+T> = None | Some(value: T)

  /** A capture timestamp; the model never looks inside it. */
  datatype Timeval = Timeval(sec: int, usec: int)

  /** A dequeued `v4l2_buffer`: its index, the bytes the driver wrote, and when. */
  datatype Frame = Frame(index: nat, bytesUsed: nat, timestamp: Timeval)

  /** The set { 0, 1, ..., n-1 }. */
  function Range(n: nat): (s: set<nat>)
    ensures forall i: nat :: i in s <==> i < n
  {
    if n == 0 then {} else Range(n - 1) + {n - 1}
  }

  lemma {:induction false} RangeSize(n: nat)
    ensures |Range(n)| == n
  {
    if n > 0 {
      RangeSize(n - 1);
      assert n - 1 !in Range(n - 1);
    }
  }

  /** How many frames in `ready` carry buffer index `i`. */
  function Occurrences(ready: seq<Frame>, i: nat): nat
  {
    if ready == [] then 0
    else (if ready[0].index == i then 1 else 0) + Occurrences(ready[1..], i)
  }

  lemma {:induction false} OccurrencesAppend(ready: seq<Frame>, f: Frame, i: nat)
    ensures Occurrences(ready + [f], i) == Occurrences(ready, i) + (if f.index == i then 1 else 0)
  {
    if ready != [] {
      assert (ready + [f])[1..] == ready[1..] + [f];
      OccurrencesAppend(ready[1..], f, i);
    }
  }

  /** The number of parties that own buffer `i`. */
  function Owners(i: nat, queued: set<nat>, ready: seq<Frame>, held: Option<nat>): nat
  {
    (if i in queued then 1 else 0) + Occurrences(ready, i) + (if held == Some(i) then 1 else 0)
  }

  /** The ownership invariant: every index below n has exactly one owner, and no other index appears. */
  ghost predicate Owned(n: nat, queued: set<nat>, ready: seq<Frame>, held: Option<nat>)
  {
    && (forall i :: i in queued ==> i < n)
    && (forall j :: 0 <= j < |ready| ==> ready[j].index < n)
    && (held.Some? ==> held.value < n)
    && (forall i: nat :: i < n ==> Owners(i, queued, ready, held) == 1)
  }

  /** Right after start-up every buffer has been handed to the driver and none has completed. */
  lemma AllQueuedOwned(n: nat)
    ensures Owned(n, Range(n), [], None)
  {
  }

  /** The driver fills a queued buffer: it moves to the back of the ready queue. */
  lemma {:induction false} CompleteOwned(n: nat, queued: set<nat>, ready: seq<Frame>, held: Option<nat>, f: Frame)
    requires Owned(n, queued, ready, held)
    requires f.index in queued
    ensures Owned(n, queued - {f.index}, ready + [f], held)
  {
    forall j | 0 <= j < |ready + [f]|
      ensures (ready + [f])[j].index < n
    {
      if j < |ready| { assert (ready + [f])[j] == ready[j]; }
    }
    forall i: nat | i < n
      ensures Owners(i, queued - {f.index}, ready + [f], held) == 1
    {
      OccurrencesAppend(ready, f, i);
      assert Owners(i, queued, ready, held) == 1;
    }
  }

  /** The oldest ready buffer is dequeued and becomes the consumer's. */
  lemma {:induction false} DequeueOwned(n: nat, queued: set<nat>, ready: seq<Frame>)
    requires Owned(n, queued, ready, None)
    requires ready != []
    ensures Owned(n, queued, ready[1..], Some(ready[0].index))
  {
    forall i: nat | i < n
      ensures Owners(i, queued, ready[1..], Some(ready[0].index)) == 1
    {
      assert Owners(i, queued, ready, None) == 1;
    }
  }

  /** The consumer's buffer is queued again: the driver owns it as an empty buffer. */
  lemma {:induction false} RequeueOwned(n: nat, queued: set<nat>, ready: seq<Frame>, h: nat)
    requires Owned(n, queued, ready, Some(h))
    ensures h !in queued && Occurrences(ready, h) == 0
    ensures Owned(n, queued + {h}, ready, None)
  {
    assert Owners(h, queued, ready, Some(h)) == 1;
    forall i: nat | i < n
      ensures Owners(i, queued + {h}, ready, None) == 1
    {
      assert Owners(i, queued, ready, Some(h)) == 1;
    }
  }

  /** Conservation: the three owners together hold exactly n buffers. */
  lemma {:induction false} OwnedCount(n: nat, queued: set<nat>, ready: seq<Frame>, held: Option<nat>)
    requires Owned(n, queued, ready, held)
    ensures |queued| + |ready| + (if held.Some? then 1 else 0) == n
    decreases |ready| + (if held.Some? then 1 else 0)
  {
    match held {
      case Some(h) =>
        RequeueOwned(n, queued, ready, h);
        OwnedCount(n, queued + {h}, ready, None);
      case None =>
        if ready == [] {
          assert queued == Range(n) by {
            forall i: nat | i < n ensures i in queued {
              assert Owners(i, queued, ready, held) == 1;
            }
          }
          RangeSize(n);
        } else {
          DequeueOwned(n, queued, ready);
          RequeueOwned(n, queued, ready[1..], ready[0].index);
          OwnedCount(n, queued + {ready[0].index}, ready[1..], None);
        }
    }
  }

  /** Exactly one owner, stated per index: the three ownership states exclude each other. */
  lemma OwnedExclusive(n: nat, queued: set<nat>, ready: seq<Frame>, held: Option<nat>, i: nat)
    requires Owned(n, queued, ready, held)
    requires i < n
    ensures i in queued ==> Occurrences(ready, i) == 0 && held != Some(i)
    ensures held == Some(i) ==> Occurrences(ready, i) == 0 && i !in queued
    ensures Occurrences(ready, i) <= 1
    ensures i in queued || Occurrences(ready, i) == 1 || held == Some(i)
  {
    assert Owners(i, queued, ready, held) == 1;
  }
}
