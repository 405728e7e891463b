/**
 The Bluetooth transmit path as a state machine: a writer that gathers lines, a queue of chunks, and the poll
 task that coalesces chunks into one write at a time.
 */
module BluetoothTx {

  const LINE: nat := 250
  const QUEUE: nat := 32
  const BUFFER: nat := 256
  const LF: bv8 := 10

  type Bytes = seq<bv8>

  datatype Option<T> = None | Some(value: T)

  /** Where the writer is: outside a call, about to make room for a byte, or about to queue a finished line. */
  datatype Writer = Ready | MakingRoom(c: bv8) | Ending

  /** The poll task holds the semaphore while it fills its buffer. */
  datatype Poll = Idle | Filling(buffer: Bytes)

  datatype State = State(
    line: Bytes,
    writer: Writer,
    queue: seq<Bytes>,
    chunk: Option<Bytes>,
    poll: Poll,
    free: bool,
    inFlight: nat,
    sent: Bytes
  )

  const START := State([], Ready, [], None, Idle, true, 0, [])

  /**
   Put: a call with one byte. Enqueue: the next step of a call that waits for the queue; `memory` says whether
   there was memory for the chunk. Begin: the tests at the top of the poll loop; `open` says that there is an
   uncongested connection. Fill: one round of the coalescing loop. Send: the write behind it, `accepted` or not
   by the stack. Written: the event by which the stack reports a write as done.
   */
  datatype Event = Put(c: bv8) | Enqueue(memory: bool) | Begin(open: bool) | Fill | Send(accepted: bool) | Written

  function Store(s: State, c: bv8): State {
    s.(line := s.line + [c], writer := if c == LF then Ending else Ready)
  }

  /** The writer's step can be taken: a full queue holds it up, unless there is nothing to queue. */
  predicate Moves(s: State, memory: bool) {
    s.writer != Ready && (memory ==> |s.queue| < QUEUE)
  }

  function Queued(s: State, memory: bool): State {
    var s1 := s.(line := [], writer := Ready, queue := if memory then s.queue + [s.line] else s.queue);
    if s.writer.MakingRoom? then Store(s1, s.writer.c) else s1
  }

  predicate Starts(s: State, open: bool) {
    open && s.queue != [] && s.free && s.poll.Idle?
  }

  function Received(s: State): State {
    if s.queue == [] then s.(chunk := None)
    else s.(chunk := Some(s.queue[0]), queue := s.queue[1..])
  }

  predicate Fits(s: State) {
    s.poll.Filling? && s.chunk.Some? && |s.poll.buffer| + |s.chunk.value| < BUFFER
  }

  /** The bytes of the write: a chunk that no buffer can hold is written on its own. */
  function Outgoing(s: State): Bytes
    requires s.poll.Filling?
  {
    if s.poll.buffer == [] && s.chunk.Some? && |s.chunk.value| >= BUFFER then s.chunk.value else s.poll.buffer
  }

  function Sending(s: State, accepted: bool): State
    requires s.poll.Filling?
  {
    var data := Outgoing(s);
    var s1 := s.(poll := Idle, chunk := if data == s.poll.buffer then s.chunk else None);
    if accepted && data != [] then s1.(sent := s.sent + data, inFlight := s.inFlight + 1) else s1.(free := true)
  }

  function Next(s: State, e: Event): State {
    match e
    case Put(c) =>
      if s.writer != Ready then s
      else if |s.line| == LINE then s.(writer := MakingRoom(c)) else Store(s, c)
    case Enqueue(memory) =>
      if Moves(s, memory) then Queued(s, memory) else s
    case Begin(open) =>
      if Starts(s, open) then
        (if s.chunk.Some? then s else Received(s)).(free := false, poll := Filling([]))
      else s
    case Fill =>
      if Fits(s) then Received(s.(poll := Filling(s.poll.buffer + s.chunk.value))) else s
    case Send(accepted) =>
      if s.poll.Filling? && !Fits(s) then Sending(s, accepted) else s
    case Written =>
      if s.inFlight > 0 then s.(inFlight := s.inFlight - 1, free := true) else s
  }

  function After(s: State, es: seq<Event>): State
    decreases |es|
  {
    if es == [] then s else Next(After(s, es[..|es| - 1]), es[|es| - 1])
  }

  // ----- what every step keeps

  /** A chunk is a line, or a full buffer of one: a line feed stands only at its end. */
  predicate LineShaped(c: Bytes) {
    && 0 < |c| <= LINE
    && (c[|c| - 1] == LF || |c| == LINE)
    && NoFeed(c[..|c| - 1])
  }

  predicate NoFeed(c: Bytes) {
    forall i :: 0 <= i < |c| ==> c[i] != LF
  }

  predicate LineInv(s: State) {
    && |s.line| <= LINE
    && (s.writer.Ready? ==> NoFeed(s.line))
    && (s.writer.MakingRoom? ==> LineShaped(s.line))
    && (s.writer.Ending? ==> LineShaped(s.line))
  }

  predicate QueueInv(s: State) {
    && |s.queue| <= QUEUE
    && (forall i :: 0 <= i < |s.queue| ==> LineShaped(s.queue[i]))
    && (s.chunk.Some? ==> LineShaped(s.chunk.value))
  }

  /** Either the semaphore is free, or the poll task holds it, or exactly one write is outstanding; the
      coalescing buffer is never full to the last byte, and never empty when it is sent. */
  predicate PollInv(s: State) {
    match s.poll
    case Idle => s.inFlight == if s.free then 0 else 1
    case Filling(b) => !s.free && s.inFlight == 0 && |b| < BUFFER && (b == [] ==> s.chunk.Some?)
  }

  predicate Inv(s: State) {
    LineInv(s) && QueueInv(s) && PollInv(s)
  }

  lemma LineInvNext(s: State, e: Event)
    requires Inv(s)
    ensures LineInv(Next(s, e))
  {
  }

  lemma QueueInvNext(s: State, e: Event)
    requires Inv(s)
    ensures QueueInv(Next(s, e))
  {
    hide LineShaped, NoFeed;
  }

  lemma PollInvNext(s: State, e: Event)
    requires Inv(s)
    ensures PollInv(Next(s, e))
  {
    hide NoFeed;
  }

  lemma {:induction false} InvAlways(es: seq<Event>)
    ensures Inv(After(START, es))
    decreases |es|
  {
    hide Inv, Next, LineInv, QueueInv, PollInv;
    if es == [] {
      StartInv();
    } else {
      var s := After(START, es[..|es| - 1]);
      InvAlways(es[..|es| - 1]);
      InvNext(s, es[|es| - 1]);
    }
  }

  lemma StartInv()
    ensures Inv(START)
  {
  }

  lemma InvNext(s: State, e: Event)
    requires Inv(s)
    ensures Inv(Next(s, e))
  {
    hide Next, LineInv, QueueInv, PollInv;
    LineInvNext(s, e);
    QueueInvNext(s, e);
    PollInvNext(s, e);
  }

  /** In every run at most one write is outstanding, none while the poll task fills its buffer, and the write of
      an oversized chunk is never taken. */
  lemma OneOutstanding(es: seq<Event>)
    ensures After(START, es).inFlight <= 1
    ensures After(START, es).poll.Filling? ==>
      && After(START, es).inFlight == 0 && Outgoing(After(START, es)) == After(START, es).poll.buffer
      && |After(START, es).poll.buffer| < BUFFER
  {
    InvAlways(es);
  }

  // ----- where the bytes are

  function Concat(cs: seq<Bytes>): Bytes {
    if cs == [] then [] else cs[0] + Concat(cs[1..])
  }

  lemma {:induction false} ConcatLast(cs: seq<Bytes>, c: Bytes)
    ensures Concat(cs + [c]) == Concat(cs) + c
  {
    if cs == [] {
      assert [c][1..] == [];
    } else {
      ConcatLast(cs[1..], c);
      assert (cs + [c])[1..] == cs[1..] + [c];
    }
  }

  function Buffered(s: State): Bytes {
    if s.poll.Filling? then s.poll.buffer else []
  }

  function Chunked(s: State): Bytes {
    if s.chunk.Some? then s.chunk.value else []
  }

  function Gathered(s: State): Bytes {
    s.line + if s.writer.MakingRoom? then [s.writer.c] else []
  }

  function InOrder(sent: Bytes, buffer: Bytes, chunk: Bytes, queue: Bytes, line: Bytes): Bytes {
    sent + (buffer + (chunk + (queue + line)))
  }

  /** The bytes sent, then those the poll task holds, those in the queue and those of the line, in this order. */
  function Account(s: State): Bytes {
    InOrder(s.sent, Buffered(s), Chunked(s), Concat(s.queue), Gathered(s))
  }

  /** What a step takes in. */
  function Taken(s: State, e: Event): Bytes {
    if e.Put? && s.writer == Ready then [e.c] else []
  }

  /** What a step throws away: a line for which there is no memory, a write that the stack refuses. */
  function Lost(s: State, e: Event): Bytes {
    match e
    case Enqueue(memory) => if Moves(s, memory) && !memory then s.line else []
    case Send(accepted) => if s.poll.Filling? && !Fits(s) && !accepted then Outgoing(s) else []
    case _ => []
  }

  lemma MovesOn(a: Bytes, b: Bytes, c: Bytes, q: Bytes, r: Bytes, g: Bytes, l: Bytes)
    ensures InOrder(a, b, [], c + q, g) == InOrder(a, b, c, q, g)
    ensures InOrder(a, b + c, [], q, g) == InOrder(a, b, c, q, g)
    ensures InOrder(a + b, [], c, q, g) == InOrder(a, b, c, q, g)
    ensures InOrder(a, b, c, q + l, g) == InOrder(a, b, c, q, l + g)
    ensures InOrder(a, b, c, q, g + l) == InOrder(a, b, c, q, g) + l
  {
    assert b + ([] + ((c + q) + g)) == b + (c + (q + g));
    assert (b + c) + ([] + (q + g)) == b + (c + (q + g));
  }

  lemma PutKeeps(s: State, c: bv8)
    requires s.writer.Ready?
    ensures Account(Next(s, Put(c))) == Account(s) + [c]
  {
    hide Concat, InOrder;
    MovesOn(s.sent, Buffered(s), Chunked(s), Concat(s.queue), [], s.line, [c]);
    assert Gathered(s) == s.line;
    assert Gathered(Next(s, Put(c))) == s.line + [c];
  }

  lemma EnqueueKeeps(s: State)
    requires Moves(s, true)
    ensures Account(Next(s, Enqueue(true))) == Account(s)
  {
    hide Concat, InOrder;
    var r := Next(s, Enqueue(true));
    ConcatLast(s.queue, s.line);
    MovesOn(s.sent, Buffered(s), Chunked(s), Concat(s.queue), [], Gathered(r), s.line);
    assert Gathered(s) == s.line + Gathered(r);
  }

  lemma ReceiveKeeps(s: State)
    requires s.chunk.None?
    ensures Account(Received(s)) == Account(s)
  {
    hide InOrder, Concat;
    if s.queue != [] {
      assert Concat(s.queue) == s.queue[0] + Concat(s.queue[1..]) by { ConcatFirst(s.queue); }
      MovesOn(s.sent, Buffered(s), s.queue[0], Concat(s.queue[1..]), [], Gathered(s), []);
    }
  }

  lemma ConcatFirst(cs: seq<Bytes>)
    requires cs != []
    ensures Concat(cs) == cs[0] + Concat(cs[1..])
  {
  }

  lemma BeginKeeps(s: State, open: bool)
    ensures Account(Next(s, Begin(open))) == Account(s)
  {
    hide InOrder, Concat;
    if Starts(s, open) {
      if s.chunk.None? { ReceiveKeeps(s); }
    }
  }

  lemma FillKeeps(s: State)
    ensures Account(Next(s, Fill)) == Account(s)
  {
    hide InOrder, Concat;
    if Fits(s) {
      var t := s.(poll := Filling(s.poll.buffer + s.chunk.value), chunk := None);
      MovesOn(s.sent, s.poll.buffer, s.chunk.value, Concat(s.queue), [], Gathered(s), []);
      ReceiveKeeps(t);
      assert Next(s, Fill) == Received(t);
    }
  }

  lemma SendKeeps(s: State)
    requires s.poll.Filling? && !Fits(s) ==> Outgoing(s) == s.poll.buffer != []
    ensures Account(Next(s, Send(true))) == Account(s)
  {
    hide InOrder, Concat;
    if s.poll.Filling? && !Fits(s) {
      MovesOn(s.sent, s.poll.buffer, Chunked(s), Concat(s.queue), [], Gathered(s), []);
    }
  }

  /** A step that loses nothing adds what it takes in at the end and moves no other byte. */
  lemma NextKeeps(s: State, e: Event)
    requires Inv(s) && Lost(s, e) == []
    ensures Account(Next(s, e)) == Account(s) + Taken(s, e)
  {
    hide LineShaped, NoFeed, Concat, Inv, InOrder;
    match e
    case Put(c) => if s.writer.Ready? { PutKeeps(s, c); }
    case Enqueue(memory) =>
      if Moves(s, memory) {
        assert memory by { LineNotEmpty(s); }
        EnqueueKeeps(s);
      }
    case Begin(open) => BeginKeeps(s, open);
    case Fill => FillKeeps(s);
    case Send(accepted) =>
      if s.poll.Filling? && !Fits(s) {
        BufferNotEmpty(s);
        SendKeeps(s);
      }
    case Written =>
  }

  lemma LineNotEmpty(s: State)
    requires Inv(s) && s.writer != Ready
    ensures s.line != []
  {
  }

  lemma BufferNotEmpty(s: State)
    requires Inv(s) && s.poll.Filling? && !Fits(s)
    ensures Outgoing(s) == s.poll.buffer != []
  {
  }

  lemma CutLine(a: Bytes, b: Bytes, c: Bytes, q: Bytes, l: Bytes, g: Bytes) returns (front: Bytes)
    ensures InOrder(a, b, c, q, l + g) == front + l + g
    ensures InOrder(a, b, c, q, g) == front + g
  {
    front := a + (b + (c + q));
  }

  lemma EnqueueCuts(s: State)
    requires Moves(s, false)
    ensures exists a: Bytes, b: Bytes ::
      Account(s) == a + s.line + b && Account(Next(s, Enqueue(false))) == a + b
  {
    hide Concat, InOrder;
    var r := Next(s, Enqueue(false));
    assert Gathered(s) == s.line + Gathered(r);
    var a := CutLine(s.sent, Buffered(s), Chunked(s), Concat(s.queue), s.line, Gathered(r));
  }

  lemma SendCuts(s: State)
    requires Inv(s) && s.poll.Filling? && !Fits(s)
    ensures exists a: Bytes, b: Bytes ::
      Account(s) == a + s.poll.buffer + b && Account(Next(s, Send(false))) == a + b
  {
    hide Concat, Inv;
    BufferNotEmpty(s);
    var b := Chunked(s) + (Concat(s.queue) + Gathered(s));
    assert Account(s) == s.sent + s.poll.buffer + b;
    assert Account(Next(s, Send(false))) == s.sent + b;
  }

  /** A step that loses bytes takes none in: they are cut out, and the rest stays in order. */
  lemma NextCuts(s: State, e: Event)
    requires Inv(s) && Lost(s, e) != []
    ensures Taken(s, e) == []
    ensures exists a: Bytes, b: Bytes ::
      Account(s) == a + Lost(s, e) + b && Account(Next(s, e)) == a + b
  {
    hide Account, Next, Inv;
    if e.Enqueue? {
      EnqueueCuts(s);
    } else {
      BufferNotEmpty(s);
      SendCuts(s);
    }
  }

  // ----- whole runs

  /** All bytes put so far. */
  function PutBytes(s: State, es: seq<Event>): Bytes
    decreases |es|
  {
    if es == [] then [] else
      var before := es[..|es| - 1];
      PutBytes(s, before) + Taken(After(s, before), es[|es| - 1])
  }

  /** The number of bytes lost so far. */
  function LostBytes(s: State, es: seq<Event>): nat
    decreases |es|
  {
    if es == [] then 0 else
      var before := es[..|es| - 1];
      LostBytes(s, before) + |Lost(After(s, before), es[|es| - 1])|
  }

  /** a is b with some elements left out. */
  predicate Subsequence(a: Bytes, b: Bytes)
    decreases |b|
  {
    if a == [] then true
    else if b == [] then false
    else
      || (a[|a| - 1] == b[|b| - 1] && Subsequence(a[..|a| - 1], b[..|b| - 1]))
      || Subsequence(a, b[..|b| - 1])
  }

  lemma {:induction false} DropLast(a: Bytes, b: Bytes)
    requires a != [] && Subsequence(a, b)
    ensures Subsequence(a[..|a| - 1], b)
    decreases |b|
  {
    if a[|a| - 1] == b[|b| - 1] && Subsequence(a[..|a| - 1], b[..|b| - 1]) {
    } else {
      DropLast(a, b[..|b| - 1]);
    }
  }

  /** Leaving out one more element. */
  lemma {:induction false} DropOne(a: Bytes, c: bv8, z: Bytes, b: Bytes)
    requires Subsequence(a + [c] + z, b)
    ensures Subsequence(a + z, b)
    decreases |b|
  {
    var full := a + [c] + z;
    if z == [] {
      assert full[..|full| - 1] == a + z;
      DropLast(full, b);
    } else {
      var z1 := z[..|z| - 1];
      assert full[..|full| - 1] == a + [c] + z1 && (a + z)[..|a + z| - 1] == a + z1;
      if full[|full| - 1] == b[|b| - 1] && Subsequence(full[..|full| - 1], b[..|b| - 1]) {
        DropOne(a, c, z1, b[..|b| - 1]);
      } else {
        DropOne(a, c, z, b[..|b| - 1]);
      }
    }
  }

  lemma {:induction false} DropMany(a: Bytes, y: Bytes, z: Bytes, b: Bytes)
    requires Subsequence(a + y + z, b)
    ensures Subsequence(a + z, b)
    decreases |y|
  {
    if y == [] {
      assert a + y + z == a + z;
    } else {
      assert a + y + z == a + [y[0]] + (y[1..] + z);
      DropOne(a, y[0], y[1..] + z, b);
      assert a + (y[1..] + z) == a + y[1..] + z;
      DropMany(a, y[1..], z, b);
    }
  }

  lemma AddBoth(a: Bytes, b: Bytes, t: Bytes)
    requires Subsequence(a, b) && |t| <= 1
    ensures Subsequence(a + t, b + t)
  {
    if t == [] {
      assert a + t == a && b + t == b;
    } else {
      assert (a + t)[..|a|] == a && (b + t)[..|b|] == b;
    }
  }

  /** In every run, whatever fails, no byte is duplicated or reordered, and the bytes put are those accounted for
      and those lost. */
  lemma {:induction false} NeverReordered(es: seq<Event>)
    ensures Subsequence(Account(After(START, es)), PutBytes(START, es))
    ensures |Account(After(START, es))| + LostBytes(START, es) == |PutBytes(START, es)|
    decreases |es|
  {
    hide Account, Next, Lost, Inv, Subsequence;
    if es == [] {
      StartAccount();
    } else {
      var before, e := es[..|es| - 1], es[|es| - 1];
      var s := After(START, before);
      NeverReordered(before);
      InvAlways(before);
      if Lost(s, e) == [] {
        NextKeeps(s, e);
        AddBoth(Account(s), PutBytes(START, before), Taken(s, e));
      } else {
        NextCuts(s, e);
        var a: Bytes, b: Bytes :|
          Account(s) == a + Lost(s, e) + b && Account(Next(s, e)) == a + b;
        DropMany(a, Lost(s, e), b, PutBytes(START, before));
        assert PutBytes(START, es) == PutBytes(START, before);
      }
    }
  }

  lemma StartAccount()
    ensures Account(START) == [] && Subsequence(Account(START), [])
  {
  }

  lemma {:induction false} LosslessKeeps(es: seq<Event>)
    requires LostBytes(START, es) == 0
    ensures Account(After(START, es)) == PutBytes(START, es)
    decreases |es|
  {
    hide Account, Next, Lost, Inv;
    if es == [] {
      StartAccount();
    } else {
      var before := es[..|es| - 1];
      LosslessKeeps(before);
      InvAlways(before);
      NextKeeps(After(START, before), es[|es| - 1]);
    }
  }

  /** What the i-th step of a run loses. */
  function LostAt(es: seq<Event>, i: nat): Bytes
    requires i < |es|
  {
    Lost(After(START, es[..i]), es[i])
  }

  /** Conservation: sent, held, queued and gathered bytes are together the bytes put, exactly in the runs in which
      every chunk got its memory and every write was accepted. */
  lemma Conservation(es: seq<Event>)
    ensures Account(After(START, es)) == PutBytes(START, es) <==> forall i :: 0 <= i < |es| ==> LostAt(es, i) == []
  {
    hide Account, Next, Lost, LostAt;
    NeverReordered(es);
    LossFree(es);
    if LostBytes(START, es) == 0 {
      LosslessKeeps(es);
    }
  }

  lemma {:induction false} LossFree(es: seq<Event>)
    ensures LostBytes(START, es) == 0 <==> forall i :: 0 <= i < |es| ==> LostAt(es, i) == []
    decreases |es|
  {
    hide Lost, Next, After, LostAt;
    if es != [] {
      var before := es[..|es| - 1];
      LossFree(before);
      forall i | 0 <= i < |before|
        ensures LostAt(before, i) == LostAt(es, i)
      {
        LostInPrefix(es, i);
      }
      LostLast(es);
    }
  }

  lemma LostInPrefix(es: seq<Event>, i: nat)
    requires i < |es| - 1
    ensures LostAt(es[..|es| - 1], i) == LostAt(es, i)
  {
    hide Lost, After;
    assert es[..|es| - 1][..i] == es[..i];
  }

  lemma LostLast(es: seq<Event>)
    requires es != []
    ensures LostBytes(START, es) == LostBytes(START, es[..|es| - 1]) + |LostAt(es, |es| - 1)|
  {
    hide Lost, After;
  }
}
