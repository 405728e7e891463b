/**
 Several writers on the one line buffer of the Bluetooth transmit path.

 A call copies the line into a chunk before it waits for the queue, and clears the line afterwards.  What happens
 between two waits is one step; the steps of different callers and of the poll task interleave.
 */
module BluetoothWriters {
  import opened BluetoothTx

  /** Where a caller is: outside a call, or waiting for the queue with a chunk, to make room for a byte or to end a
      line. */
  datatype Caller = Outside | WaitingFor(chunk: Bytes, c: bv8) | WaitingEnd(chunk: Bytes)

  /** The shared buffers, seen as the single writer's state outside a call, and the callers. */
  datatype Shared = Shared(s: State, callers: seq<Caller>)

  /** Call: caller i puts a byte, up to its first wait. Queue: the chunk of caller i gets its place. Poll: a step of
      the poll task or of the stack. */
  datatype Action = Call(i: nat, c: bv8) | Queue(i: nat) | Poll(e: Event)

  /** The byte stored, and the caller behind it. */
  function StoreBy(x: Shared, i: nat, c: bv8): Shared
    requires i < |x.callers|
  {
    var line := x.s.line + [c];
    Shared(x.s.(line := line), x.callers[i := if c == LF then WaitingEnd(line) else Outside])
  }

  predicate Enters(x: Shared, i: nat) {
    i < |x.callers| && x.callers[i].Outside?
  }

  predicate Places(x: Shared, i: nat) {
    i < |x.callers| && !x.callers[i].Outside? && |x.s.queue| < QUEUE
  }

  function Placed(x: Shared, i: nat): Shared
    requires Places(x, i)
  {
    var y := Shared(x.s.(queue := x.s.queue + [x.callers[i].chunk], line := []), x.callers[i := Outside]);
    if x.callers[i].WaitingFor? then StoreBy(y, i, x.callers[i].c) else y
  }

  function Act(x: Shared, a: Action): Shared {
    match a
    case Call(i, c) =>
      if !Enters(x, i) then x
      else if |x.s.line| == LINE then x.(callers := x.callers[i := WaitingFor(x.s.line, c)])
      else StoreBy(x, i, c)
    case Queue(i) => if Places(x, i) then Placed(x, i) else x
    case Poll(e) => if e.Put? || e.Enqueue? then x else x.(s := Next(x.s, e))
  }

  function Acted(x: Shared, acts: seq<Action>): Shared
    decreases |acts|
  {
    if acts == [] then x else Act(Acted(x, acts[..|acts| - 1]), acts[|acts| - 1])
  }

  function Begun(n: nat): Shared {
    Shared(START, seq(n, _ => Outside))
  }

  /** The byte that a step stores in the line: the moment at which a put takes effect. */
  function StoredBy(x: Shared, a: Action): Bytes {
    match a
    case Call(i, c) => if Enters(x, i) && |x.s.line| != LINE then [c] else []
    case Queue(i) => if Places(x, i) && x.callers[i].WaitingFor? then [x.callers[i].c] else []
    case Poll(_) => []
  }

  function StoredBytes(x: Shared, acts: seq<Action>): Bytes
    decreases |acts|
  {
    if acts == [] then [] else
      var before := acts[..|acts| - 1];
      StoredBytes(x, before) + StoredBy(Acted(x, before), acts[|acts| - 1])
  }

  /** The chunk that gets its place is no longer what the line holds. */
  predicate Stale(x: Shared, a: Action) {
    a.Queue? && Places(x, a.i) && x.callers[a.i].chunk != x.s.line
  }

  /** The stack refuses the write. */
  predicate Refused(x: Shared, a: Action) {
    a == Poll(Send(false)) && x.s.poll.Filling? && !Fits(x.s)
  }

  // ----- what every step keeps

  predicate ChunkSized(c: Bytes) {
    0 < |c| <= LINE
  }

  predicate Sound(x: Shared) {
    && x.s.writer.Ready? && |x.s.line| <= LINE && PollInv(x.s)
    && (forall i :: 0 <= i < |x.s.queue| ==> ChunkSized(x.s.queue[i]))
    && (x.s.chunk.Some? ==> ChunkSized(x.s.chunk.value))
    && (forall i :: 0 <= i < |x.callers| ==> x.callers[i].Outside? || ChunkSized(x.callers[i].chunk))
  }

  lemma SoundNext(x: Shared, a: Action)
    requires Sound(x)
    ensures Sound(Act(x, a))
  {
  }

  lemma {:induction false} SoundAlways(n: nat, acts: seq<Action>)
    ensures Sound(Acted(Begun(n), acts))
    decreases |acts|
  {
    if acts != [] {
      hide Act, Sound;
      SoundAlways(n, acts[..|acts| - 1]);
      SoundNext(Acted(Begun(n), acts[..|acts| - 1]), acts[|acts| - 1]);
    }
  }

  lemma SendsBuffer(x: Shared)
    requires Sound(x) && x.s.poll.Filling? && !Fits(x.s)
    ensures Outgoing(x.s) == x.s.poll.buffer != []
  {
  }

  // ----- conservation, step by step

  /** The account without the line: what a new chunk stands behind. */
  function Ahead(s: State): Bytes {
    InOrder(s.sent, Buffered(s), Chunked(s), Concat(s.queue), [])
  }

  lemma AccountIsAhead(s: State)
    requires s.writer.Ready?
    ensures Account(s) == Ahead(s) + s.line
  {
    hide Concat;
  }

  lemma PlacedAhead(x: Shared, i: nat)
    requires Places(x, i)
    ensures Ahead(Placed(x, i).s) == Ahead(x.s) + x.callers[i].chunk
    ensures Placed(x, i).s.line == StoredBy(x, Queue(i))
    ensures Placed(x, i).s.writer == x.s.writer
  {
    hide Concat, InOrder;
    var chunk := x.callers[i].chunk;
    ConcatLast(x.s.queue, chunk);
    MovesOn(x.s.sent, Buffered(x.s), Chunked(x.s), Concat(x.s.queue), [], [], chunk);
    assert chunk + [] == [] + chunk;
  }

  /** The account after a chunk has got its place: the chunk stands where the line was. */
  lemma PlacedAccount(x: Shared, i: nat)
    requires x.s.writer.Ready? && Places(x, i)
    ensures Account(Placed(x, i).s) == Ahead(x.s) + x.callers[i].chunk + StoredBy(x, Queue(i))
  {
    hide Ahead, Account, Placed;
    PlacedAhead(x, i);
    AccountIsAhead(Placed(x, i).s);
  }

  lemma CallAccount(x: Shared, i: nat, c: bv8)
    requires x.s.writer.Ready?
    ensures Account(Act(x, Call(i, c)).s) == Account(x.s) + StoredBy(x, Call(i, c))
  {
    hide Ahead, Account;
    AccountIsAhead(x.s);
    AccountIsAhead(Act(x, Call(i, c)).s);
    if Enters(x, i) && |x.s.line| != LINE {
      SameAhead(x.s, x.s.line + [c]);
    }
  }

  lemma SameAhead(s: State, line: Bytes)
    ensures Ahead(s.(line := line)) == Ahead(s)
  {
  }

  lemma PollAccount(x: Shared, e: Event)
    requires Sound(x) && !Refused(x, Poll(e))
    ensures Account(Act(x, Poll(e)).s) == Account(x.s)
  {
    hide Account, Next, Sound;
    match e
    case Begin(open) => BeginKeeps(x.s, open);
    case Fill => FillKeeps(x.s);
    case Send(accepted) =>
      if x.s.poll.Filling? && !Fits(x.s) {
        SendsBuffer(x);
        SendKeeps(x.s);
      } else {
        NotSent(x.s, accepted);
      }
    case Written => WrittenKeeps(x.s);
    case _ =>
  }

  lemma NotSent(s: State, accepted: bool)
    requires !(s.poll.Filling? && !Fits(s))
    ensures Next(s, Send(accepted)) == s
  {
  }

  lemma WrittenKeeps(s: State)
    ensures Account(Next(s, Written)) == Account(s)
  {
  }

  lemma RefusedAccount(x: Shared)
    requires Sound(x) && Refused(x, Poll(Send(false)))
    ensures |Account(Act(x, Poll(Send(false))).s)| < |Account(x.s)|
  {
    hide Concat;
    SendsBuffer(x);
  }

  /** A step keeps the account exactly if it queues no stale chunk and no write is refused. */
  lemma ActKeeps(x: Shared, a: Action)
    requires Sound(x)
    ensures Account(Act(x, a).s) == Account(x.s) + StoredBy(x, a) <==> !Stale(x, a) && !Refused(x, a)
  {
    hide Account, Ahead, Placed, Sound, StoredBy;
    SoundReady(x);
    match a
    case Call(i, c) => CallAccount(x, i, c);
    case Queue(i) =>
      if Places(x, i) {
        PlacedAccount(x, i);
        AccountIsAhead(x.s);
        SameMiddle(Ahead(x.s), x.callers[i].chunk, x.s.line, StoredBy(x, a));
      } else {
        NothingStored(x, a);
      }
    case Poll(e) =>
      NothingStored(x, a);
      if Refused(x, a) {
        RefusedAccount(x);
      } else {
        PollAccount(x, e);
      }
  }

  lemma SoundReady(x: Shared)
    requires Sound(x)
    ensures x.s.writer.Ready?
  {
  }

  lemma NothingStored(x: Shared, a: Action)
    requires a.Poll? || (a.Queue? && !Places(x, a.i))
    ensures StoredBy(x, a) == [] && Account(x.s) + [] == Account(x.s)
  {
  }

  lemma SameMiddle(a: Bytes, b: Bytes, c: Bytes, d: Bytes)
    ensures a + b + d == a + c + d <==> b == c
  {
    if a + b + d == a + c + d {
      assert |b| == |c|;
      assert b == (a + b + d)[|a|..|a| + |b|];
      assert c == (a + c + d)[|a|..|a| + |c|];
    }
  }

  // ----- whole runs

  /** Every byte stored so far is accounted for, once and in order. */
  predicate Conserved(n: nat, acts: seq<Action>) {
    Account(Acted(Begun(n), acts).s) == StoredBytes(Begun(n), acts)
  }

  predicate Clean(n: nat, acts: seq<Action>, i: nat)
    requires i < |acts|
  {
    !Stale(Acted(Begun(n), acts[..i]), acts[i]) && !Refused(Acted(Begun(n), acts[..i]), acts[i])
  }

  lemma ConservedNext(n: nat, acts: seq<Action>, i: nat)
    requires i < |acts| && Conserved(n, acts[..i])
    ensures Conserved(n, acts[..i + 1]) <==> Clean(n, acts, i)
  {
    hide Account, Act, StoredBy, Stale, Refused;
    assert acts[..i + 1][..i] == acts[..i];
    SoundAlways(n, acts[..i]);
    ActKeeps(Acted(Begun(n), acts[..i]), acts[i]);
  }

  lemma {:induction false} ConservedUpTo(n: nat, acts: seq<Action>, i: nat)
    requires i <= |acts| && forall k :: 0 <= k < i ==> Clean(n, acts, k)
    ensures Conserved(n, acts[..i])
  {
    if i > 0 {
      hide Conserved, Clean;
      ConservedUpTo(n, acts, i - 1);
      ConservedNext(n, acts, i - 1);
    }
  }

  /** With any number of writers, every byte stays accounted for, once and in order, all along a run exactly if no
      write is refused and no chunk is queued after the line it copied has changed. */
  lemma ManyWriters(n: nat, acts: seq<Action>)
    ensures (forall i :: 0 <= i <= |acts| ==> Conserved(n, acts[..i]))
            <==> (forall i :: 0 <= i < |acts| ==> Clean(n, acts, i))
  {
    hide Conserved, Clean;
    if k :| 0 <= k < |acts| && !Clean(n, acts, k) {
      if Conserved(n, acts[..k]) {
        ConservedNext(n, acts, k);
        assert !Conserved(n, acts[..k + 1]);
      }
    } else {
      forall i | 0 <= i <= |acts|
        ensures Conserved(n, acts[..i])
      {
        ConservedUpTo(n, acts, i);
      }
    }
  }

  // ----- one call at a time is enough

  predicate AllOutside(x: Shared) {
    forall i :: 0 <= i < |x.callers| ==> x.callers[i].Outside?
  }

  /** No call begins while another caller waits. */
  predicate OneAtATime(n: nat, acts: seq<Action>) {
    forall i :: 0 <= i < |acts| && acts[i].Call? ==> AllOutside(Acted(Begun(n), acts[..i]))
  }

  /** At most one caller waits, and its chunk is what the line holds. */
  predicate Alone(x: Shared) {
    forall i :: 0 <= i < |x.callers| && !x.callers[i].Outside? ==>
      x.callers[i].chunk == x.s.line && forall j :: 0 <= j < |x.callers| && j != i ==> x.callers[j].Outside?
  }

  lemma AloneNext(x: Shared, a: Action)
    requires Alone(x) && (a.Call? ==> AllOutside(x))
    ensures Alone(Act(x, a)) && !Stale(x, a)
  {
  }

  lemma {:induction false} AloneUpTo(n: nat, acts: seq<Action>, i: nat)
    requires i <= |acts| && OneAtATime(n, acts)
    ensures Alone(Acted(Begun(n), acts[..i]))
  {
    if i > 0 {
      hide Act, Alone, AllOutside;
      AloneUpTo(n, acts, i - 1);
      assert acts[..i][..i - 1] == acts[..i - 1];
      AloneNext(Acted(Begun(n), acts[..i - 1]), acts[i - 1]);
    }
  }

  /** Calls that come one at a time never leave a chunk stale, whoever makes them. */
  lemma NeverStale(n: nat, acts: seq<Action>, i: nat)
    requires i < |acts| && OneAtATime(n, acts)
    ensures !Stale(Acted(Begun(n), acts[..i]), acts[i])
  {
    hide Act, Alone, AllOutside, Stale;
    AloneUpTo(n, acts, i);
    AloneNext(Acted(Begun(n), acts[..i]), acts[i]);
  }

  /** Two writers that overlap lose a byte: the second stores behind the line that the first has copied and will
      clear. */
  lemma OverlapLoses(c: bv8)
    requires c != LF
    ensures var acts := [Call(0, LF), Call(1, c), Queue(0)];
      && StoredBytes(Begun(2), acts) == [LF, c]
      && Account(Acted(Begun(2), acts).s) == [LF]
  {
    hide Act, StoredBy, Acted, StoredBytes, Account, Begun;
    var x0, a, b, d := Begun(2), Call(0, LF), Call(1, c), Queue(0);
    LastAct(x0, [], a);
    LastAct(x0, [a], b);
    LastAct(x0, [a, b], d);
    NoActs(x0);
    OverlapSteps(x0, c);
    assert [] + [a] == [a] && [a] + [b] == [a, b] && [a, b] + [d] == [a, b, d];
    OneQueued();
  }

  lemma NoActs(x: Shared)
    ensures Acted(x, []) == x && StoredBytes(x, []) == []
  {
  }

  lemma OneQueued()
    ensures Account(START.(queue := [[LF]])) == [LF]
  {
    assert Concat([[LF]]) == [LF] by { assert [[LF]][1..] == []; }
  }

  lemma LastAct(x: Shared, before: seq<Action>, a: Action)
    ensures Acted(x, before + [a]) == Act(Acted(x, before), a)
    ensures StoredBytes(x, before + [a]) == StoredBytes(x, before) + StoredBy(Acted(x, before), a)
  {
    hide Act, StoredBy;
    assert (before + [a])[..|before|] == before;
  }

  lemma OverlapSteps(x0: Shared, c: bv8)
    requires x0 == Begun(2) && c != LF
    ensures var a, b, d := Call(0, LF), Call(1, c), Queue(0);
      var x1 := Act(x0, a);
      var x2 := Act(x1, b);
      && StoredBy(x0, a) == [LF] && StoredBy(x1, b) == [c] && StoredBy(x2, d) == []
      && Act(x2, d).s == START.(queue := [[LF]])
  {
    var x1 := Act(x0, Call(0, LF));
    assert x1.s.line == [LF] && x1.callers == [WaitingEnd([LF]), Outside];
    var x2 := Act(x1, Call(1, c));
    assert x2.s.line == [LF, c] && x2.callers == [WaitingEnd([LF]), Outside];
  }
}
