/**
 The queue of transmitted descriptors between the DMA interrupt and the bitstream task.
 */
module CompletionQueue {
  import opened DmaRing

  /** The queue, oldest first, and the descriptor that finished last. */
  datatype Queue = Queue(items: seq<nat>, last: nat)

  /** What the interrupt puts back to the port value before it queues the descriptor that finished. */
  function Evicted(items: seq<nat>): set<nat> {
    if |items| == BUFFERS then {items[0]} else {}
  }

  /** The interrupt: when the queue is full the oldest entry is dropped. */
  function Enqueued(items: seq<nat>, finished: nat): seq<nat> {
    (if |items| == BUFFERS then items[1..] else items) + [finished]
  }

  datatype Event = Done | Take | Restart

  /** A restart begins a new cycle at descriptor 0 and leaves the queue as it is. */
  function Next(q: Queue, e: Event): Queue {
    match e
    case Done => Queue(Enqueued(q.items, Successor(q.last)), Successor(q.last))
    case Take => if q.items == [] then q else q.(items := q.items[1..])
    case Restart => q.(last := BUFFERS - 1)
  }

  function After(q: Queue, es: seq<Event>): Queue
    decreases |es|
  {
    if es == [] then q else After(Next(q, es[0]), es[1..])
  }

  /** The entries are a run of the descriptor cycle that ends with the descriptor finished last. */
  predicate Contiguous(q: Queue) {
    && q.last < BUFFERS && |q.items| <= BUFFERS
    && forall i :: 0 <= i < |q.items| ==> q.items[i] == Wrap(q.last + BUFFERS + 1 + i - |q.items|)
  }

  lemma NoDuplicates(q: Queue, i: nat, j: nat)
    requires Contiguous(q) && i < j < |q.items|
    ensures q.items[i] != q.items[j]
  {
  }

  /** On overflow the entry the interrupt drops and clears is the descriptor that has just finished. */
  lemma OverflowEvictsFinished(q: Queue)
    requires Contiguous(q)
    ensures Contiguous(Next(q, Done))
    ensures Evicted(q.items) == if |q.items| == 5 then {if q.last == 4 then 0 else q.last + 1} else {}
    ensures |q.items| == BUFFERS <==> Successor(q.last) in q.items
  {
    if |q.items| == BUFFERS {
      assert q.items[0] == Successor(q.last);
    }
    if Successor(q.last) in q.items {
      var i :| 0 <= i < |q.items| && q.items[i] == Successor(q.last);
      assert i == 0;
    }
  }

  /** A restart keeps the run exactly when nothing is queued or descriptor 4 was queued last. */
  lemma RestartKeeps(q: Queue)
    requires Contiguous(q)
    ensures Contiguous(Next(q, Restart)) <==> q.items == [] || q.last == BUFFERS - 1
  {
    if q.items != [] {
      assert q.items[|q.items| - 1] == Wrap(q.last + BUFFERS);
      if Contiguous(Next(q, Restart)) {
        assert q.items[|q.items| - 1] == Wrap(BUFFERS - 1 + BUFFERS);
      }
    }
  }

  /** A restart with entries left over queues a descriptor twice. */
  lemma RestartCanDuplicate()
    ensures After(Queue([], BUFFERS - 1), [Done, Restart, Done]) == Queue([0, 0], 0)
  {
    var es := [Done, Restart, Done];
    assert es[1..] == [Restart, Done] && es[1..][1..] == [Done] && es[1..][1..][1..] == [];
    assert Next(Queue([], BUFFERS - 1), Done) == Queue([0], 0);
    assert After(Queue([0], BUFFERS - 1), [Done]) == After(Queue([0, 0], 0), []);
  }

  /** Every restart of the run happens with an empty queue, or with descriptor 4 queued last. */
  predicate CleanRestarts(q: Queue, es: seq<Event>)
    decreases |es|
  {
    es != [] ==>
      (es[0] == Restart ==> q.items == [] || q.last == BUFFERS - 1) && CleanRestarts(Next(q, es[0]), es[1..])
  }

  /** In every such run, for any interleaving of interrupts and task, the queue stays contiguous. */
  lemma {:induction false} RunsStayContiguous(q: Queue, es: seq<Event>)
    requires Contiguous(q) && CleanRestarts(q, es)
    ensures Contiguous(After(q, es))
    decreases |es|
  {
    if es != [] {
      OverflowEvictsFinished(q);
      RestartKeeps(q);
      RunsStayContiguous(Next(q, es[0]), es[1..]);
    }
  }

  // ----- what becomes of the finished descriptors

  /** The interrupt puts the finished descriptor at the end, and drops the oldest exactly if five are queued. */
  lemma EnqueuedExactly(items: seq<nat>, finished: nat)
    ensures Enqueued(items, finished) == (if |items| == 5 then items[1..] else items) + [finished]
    ensures |Enqueued(items, finished)| == if |items| == 5 then 5 else |items| + 1
    ensures Evicted(items) == if |items| == 5 then {items[0]} else {}
  {
  }

  /** The descriptor a step finishes, and the one that leaves the queue in it, taken or dropped. */
  function FinishedBy(q: Queue, e: Event): seq<nat> {
    if e == Done then [if q.last == 4 then 0 else q.last + 1] else []
  }

  function LeftBy(q: Queue, e: Event): seq<nat> {
    if q.items != [] && (e == Take || (e == Done && |q.items| == 5)) then [q.items[0]] else []
  }

  function Finished(q: Queue, es: seq<Event>): seq<nat>
    decreases |es|
  {
    if es == [] then [] else FinishedBy(q, es[0]) + Finished(Next(q, es[0]), es[1..])
  }

  function Left(q: Queue, es: seq<Event>): seq<nat>
    decreases |es|
  {
    if es == [] then [] else LeftBy(q, es[0]) + Left(Next(q, es[0]), es[1..])
  }

  lemma OneStep(q: Queue, e: Event)
    requires q.last < BUFFERS
    ensures Next(q, e).last < BUFFERS
    ensures q.items + FinishedBy(q, e) == LeftBy(q, e) + Next(q, e).items
  {
  }

  lemma Joined(a: seq<nat>, f: seq<nat>, fs: seq<nat>, l: seq<nat>, r: seq<nat>, ls: seq<nat>, z: seq<nat>)
    requires a + f == l + r && r + fs == ls + z
    ensures a + (f + fs) == (l + ls) + z
  {
    assert a + (f + fs) == (a + f) + fs;
    assert (l + r) + fs == l + (r + fs);
    assert l + (ls + z) == (l + ls) + z;
  }

  /** In every run the finished descriptors leave the queue once each and in order; only an overflow drops one. */
  lemma {:induction false} FirstInFirstOut(q: Queue, es: seq<Event>)
    requires q.last < BUFFERS
    ensures q.items + Finished(q, es) == Left(q, es) + After(q, es).items
    decreases |es|
  {
    hide Next, FinishedBy, LeftBy;
    if es == [] {
      assert q.items + [] == [] + q.items;
    } else {
      var r := Next(q, es[0]);
      OneStep(q, es[0]);
      FirstInFirstOut(r, es[1..]);
      Joined(q.items, FinishedBy(q, es[0]), Finished(r, es[1..]),
             LeftBy(q, es[0]), r.items, Left(r, es[1..]), After(r, es[1..]).items);
    }
  }
}
