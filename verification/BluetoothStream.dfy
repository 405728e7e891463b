/**
 The Bluetooth transmit stream: the line buffer, the chunk queue and the poll task's loop.
 */
module BluetoothStream {
  import opened BluetoothTx

  /** The poll task's coalescing loop, seen on the state. */
  function Drained(s: State): (r: State)
    ensures !Fits(r)
    decreases |s.queue| + if s.chunk.Some? then 1 else 0
  {
    if Fits(s) then Drained(Next(s, Fill)) else s
  }

  /** One turn of the poll task that nothing interrupts. */
  function Polled(s: State, open: bool, accepted: bool): State {
    Next(Drained(Next(s, Begin(open))), Send(accepted))
  }

  /** Whether there is memory for the first and for the second chunk that a call may queue. */
  datatype Memory = Memory(first: bool, second: bool)

  /** The rest of a call, with the memory for the chunks it may still queue; it stops where the queue is full. */
  function Resumed(s: State, memory: Memory): State {
    if Moves(s, memory.first) then Next(Next(s, Enqueue(memory.first)), Enqueue(memory.second)) else s
  }

  /** A call with one byte that nothing interrupts. */
  function Called(s: State, c: bv8, memory: Memory): State {
    Resumed(Next(s, Put(c)), memory)
  }

  /** A call for each byte, the i-th with memory(i). */
  function AllCalled(s: State, cs: Bytes, memory: nat -> Memory): State {
    if cs == [] then s else Called(AllCalled(s, cs[..|cs| - 1], memory), cs[|cs| - 1], memory(|cs| - 1))
  }

  lemma {:induction false} AfterConcat(s: State, a: seq<Event>, b: seq<Event>)
    ensures After(s, a + b) == After(After(s, a), b)
    decreases |b|
  {
    if b == [] {
      assert a + b == a;
    } else {
      AfterConcat(s, a, b[..|b| - 1]);
      assert (a + b)[..|a + b| - 1] == a + b[..|b| - 1];
    }
  }

  lemma AfterThree(s: State, e: Event, f: Event, g: Event)
    ensures After(s, [e, f, g]) == Next(Next(Next(s, e), f), g)
  {
    hide Next;
    assert [e, f, g][..2] == [e, f] && [e, f][..1] == [e] && [e][..0] == [];
    assert After(s, [e]) == Next(After(s, []), e);
    assert After(s, [e, f]) == Next(After(s, [e]), f);
  }

  /** The calls of a write are a run of the machine: every result about runs holds of them. */
  lemma {:induction false} CallsAreRun(s: State, cs: Bytes, memory: nat -> Memory) returns (es: seq<Event>)
    ensures After(s, es) == AllCalled(s, cs, memory)
  {
    hide Next;
    es := [];
    if cs != [] {
      var before := CallsAreRun(s, cs[..|cs| - 1], memory);
      var t, c, m := After(s, before), cs[|cs| - 1], memory(|cs| - 1);
      var call := if Moves(Next(t, Put(c)), m.first) then [Put(c), Enqueue(m.first), Enqueue(m.second)] else [Put(c)];
      AfterThree(t, Put(c), Enqueue(m.first), Enqueue(m.second));
      AfterOne(t, Put(c));
      AfterConcat(s, before, call);
      es := before + call;
    }
  }

  lemma AfterOne(s: State, e: Event)
    ensures After(s, [e]) == Next(s, e)
  {
    hide Next;
    assert [e][..0] == [];
  }

  /** So is a turn of the poll task. */
  lemma {:induction false} PollIsRun(s: State, open: bool, accepted: bool) returns (es: seq<Event>)
    ensures After(s, es) == Polled(s, open, accepted)
  {
    hide Next;
    var fills := DrainIsRun(Next(s, Begin(open)));
    AfterConcat(s, [Begin(open)], fills);
    assert [Begin(open)][..0] == [];
    assert After(s, [Begin(open)]) == Next(After(s, []), Begin(open));
    es := [Begin(open)] + fills + [Send(accepted)];
    assert es[..|es| - 1] == [Begin(open)] + fills;
  }

  lemma {:induction false} DrainIsRun(s: State) returns (es: seq<Event>)
    ensures After(s, es) == Drained(s)
    decreases |s.queue| + if s.chunk.Some? then 1 else 0
  {
    if Fits(s) {
      var rest := DrainIsRun(Next(s, Fill));
      AfterConcat(s, [Fill], rest);
      assert [Fill][..0] == [];
      assert After(s, [Fill]) == Next(After(s, []), Fill);
      es := [Fill] + rest;
    } else {
      es := [];
    }
  }

  class Stream {
    const data: array<bv8>
    var head: nat
    var writer: Writer
    var queue: seq<Bytes>
    var chunk: Option<Bytes>
    var free: bool
    var inFlight: nat
    var sent: Bytes

    /** The state while the poll task is where p says. */
    ghost function View(p: Poll): State
      requires head <= data.Length
      reads this, data
    {
      State(data[..head], writer, queue, chunk, p, free, inFlight, sent)
    }

    ghost predicate Valid()
      reads this, data
    {
      data.Length == LINE && head <= LINE && Inv(View(Idle))
    }

    constructor ()
      ensures Valid() && fresh(data) && View(Idle) == START
    {
      data := new bv8[LINE];
      head, writer, queue, chunk, free, inFlight, sent := 0, Ready, [], None, true, 0, [];
    }

    /** Queues the line buffer, unless there is no memory for it; false when the queue is full. */
    method EnqueueChunk(memory: bool) returns (queued: bool)
      requires head <= data.Length
      modifies this`queue
      ensures queued == (memory ==> old(|queue|) < QUEUE)
      ensures queue == if memory && queued then old(queue) + [data[..head]] else old(queue)
    {
      queued := !memory || |queue| < QUEUE;
      if memory && queued {
        queue := queue + [data[..head]];
      }
    }

    /** Stores a byte, and queues the line when the byte ends it. */
    method Finish(c: bv8, memory: bool) returns (done: bool)
      requires data.Length == LINE && head < LINE && writer.Ready?
      modifies this`head, this`writer, this`queue, data
      ensures head <= LINE
      ensures View(Idle) == Next(Store(old(View(Idle)), c), Enqueue(memory))
      ensures done == writer.Ready?
    {
      ghost var line := data[..head];
      data[head] := c;
      head := head + 1;
      assert data[..head] == line + [c];
      if c == LF {
        writer := Ending;
        var queued := EnqueueChunk(memory);
        if !queued {
          return false;
        }
        head := 0;
        writer := Ready;
      }
      done := true;
    }

    /** A call with one byte; false when it is held up by a full queue, with the rest left to Resume. */
    method PutC(c: bv8, memory: Memory) returns (done: bool)
      requires Valid() && writer.Ready?
      modifies this`head, this`writer, this`queue, data
      ensures Valid() && View(Idle) == Called(old(View(Idle)), c, memory)
      ensures done == writer.Ready?
    {
      hide Inv, Resumed;
      ghost var s := View(Idle);
      CallKeeps(s, c, memory);
      if head == LINE {
        writer := MakingRoom(c);
        done := Resume(memory);
      } else {
        Bounded(s);
        done := Finish(c, memory.first);
        FinishIsCall(s, c, memory);
      }
    }

    /** The rest of a call that was held up. */
    method Resume(memory: Memory) returns (done: bool)
      requires data.Length == LINE && head <= LINE && (writer.MakingRoom? ==> head == LINE)
      modifies this`head, this`writer, this`queue, data
      ensures head <= LINE
      ensures View(Idle) == Resumed(old(View(Idle)), memory)
      ensures done == writer.Ready?
    {
      if writer.Ready? {
        return true;
      }
      var queued := EnqueueChunk(memory.first);
      if !queued {
        return false;
      }
      head := 0;
      var w := writer;
      writer := Ready;
      assert data[..head] == [];
      done := true;
      if w.MakingRoom? {
        done := Finish(w.c, memory.second);
      }
    }

    /** Puts the bytes in turn, up to the one that is held up. */
    method Write(s: Bytes, memory: nat -> Memory) returns (count: nat)
      requires Valid() && writer.Ready?
      modifies this`head, this`writer, this`queue, data
      ensures Valid() && count <= |s|
      ensures View(Idle) == AllCalled(old(View(Idle)), s[..count], memory)
      ensures writer.Ready? ==> count == |s|
    {
      hide Inv, Called;
      count := 0;
      var done := true;
      while done && count < |s|
        invariant count <= |s| && Valid() && done == writer.Ready?
        invariant View(Idle) == AllCalled(old(View(Idle)), s[..count], memory)
      {
        done := PutC(s[count], memory(count));
        assert s[..count + 1][..count] == s[..count];
        count := count + 1;
      }
    }

    /** Takes the next chunk off the queue, if there is one. */
    method Receive()
      requires head <= data.Length
      modifies this`queue, this`chunk
      ensures View(Idle) == Received(old(View(Idle)))
    {
      if |queue| > 0 {
        chunk := Some(queue[0]);
        queue := queue[1..];
      } else {
        chunk := None;
      }
    }

    /** Copies the held chunk and those behind it into the buffer, as long as they fit. */
    method Gather(buffer: array<bv8>) returns (ptr: nat)
      requires head <= data.Length && buffer.Length == BUFFER && buffer != data
      modifies this`queue, this`chunk, buffer
      ensures ptr <= BUFFER
      ensures View(Filling(buffer[..ptr])) == Drained(old(View(Filling([]))))
    {
      hide Drained, Received, Inv, Next;
      ptr := 0;
      assert buffer[..ptr] == [];
      while chunk.Some? && |chunk.value| < BUFFER - ptr
        modifies this`queue, this`chunk, buffer
        invariant ptr <= BUFFER
        invariant Drained(View(Filling(buffer[..ptr]))) == Drained(old(View(Filling([]))))
        decreases |queue| + if chunk.Some? then 1 else 0
      {
        ghost var before, was := View(Filling(buffer[..ptr])), buffer[..ptr];
        forall i | 0 <= i < |chunk.value| {
          buffer[ptr + i] := chunk.value[i];
        }
        assert buffer[..ptr + |chunk.value|] == was + chunk.value;
        ptr := ptr + |chunk.value|;
        label copied:
        Receive();
        ReceivedAnywhere(old@copied(View(Idle)), Filling(buffer[..ptr]), View(Idle));
        OneMore(before, View(Filling(buffer[..ptr])));
      }
      NoMore(View(Filling(buffer[..ptr])));
    }

    /** One turn of the poll task. */
    method PollTx(open: bool, accepted: bool)
      requires Valid()
      modifies this`queue, this`chunk, this`free, this`inFlight, this`sent
      ensures Valid() && View(Idle) == Polled(old(View(Idle)), open, accepted)
    {
      hide Inv, Drained;
      ghost var s0 := View(Idle);
      PolledKeeps(s0, open, accepted);
      IdleDrained(s0);
      if open && |queue| > 0 && free {
        free := false;
        var dataSent := false;
        if chunk.None? {
          Receive();
        }
        assert View(Filling([])) == Next(s0, Begin(open));
        NeverOversized(Next(s0, Begin(open)));
        var buffer := new bv8[BUFFER];
        if |chunk.value| >= BUFFER {
          assert false;
        }
        var ptr := Gather(buffer);
        DrainedOutgoing(Next(s0, Begin(open)));
        if ptr != 0 {
          dataSent := accepted;
          if accepted {
            sent := sent + buffer[..ptr];
            inFlight := inFlight + 1;
          }
        }
        if !dataSent {
          free := true;
        }
      }
    }

    /** The stack's report that a write is done. */
    method Written()
      requires Valid() && inFlight > 0
      modifies this`free, this`inFlight
      ensures Valid() && View(Idle) == Next(old(View(Idle)), BluetoothTx.Written)
    {
      InvNext(View(Idle), BluetoothTx.Written);
      inFlight := inFlight - 1;
      free := true;
    }
  }

  lemma ReceivedAnywhere(s: State, p: Poll, r: State)
    requires r == Received(s)
    ensures r.(poll := p) == Received(s.(poll := p))
  {
  }

  lemma OneMore(s: State, r: State)
    requires s.poll.Filling? && s.chunk.Some? && |s.poll.buffer| + |s.chunk.value| < BUFFER
    requires r == Received(s.(poll := Filling(s.poll.buffer + s.chunk.value)))
    ensures Drained(r) == Drained(s)
    ensures |r.queue| + (if r.chunk.Some? then 1 else 0) < |s.queue| + if s.chunk.Some? then 1 else 0
  {
  }

  lemma NoMore(s: State)
    requires s.poll.Filling? && !(s.chunk.Some? && |s.chunk.value| < BUFFER - |s.poll.buffer|)
    ensures Drained(s) == s
  {
  }

  lemma IdleDrained(s: State)
    ensures s.poll.Idle? ==> Drained(s) == s
  {
  }

  lemma NeverOversized(s: State)
    requires Inv(s)
    ensures s.chunk.Some? ==> |s.chunk.value| < BUFFER
  {
  }

  lemma DrainedOutgoing(s: State)
    requires Inv(s)
    ensures var r := Drained(s); Inv(r) && (r.poll.Filling? ==> Outgoing(r) == r.poll.buffer)
    ensures s.poll.Filling? ==> Drained(s).poll.Filling?
  {
    hide Inv, Drained;
    DrainKeeps(s);
    NeverOversized(Drained(s));
    DrainedPoll(s);
  }

  lemma {:induction false} DrainedPoll(s: State)
    ensures s.poll.Filling? ==> Drained(s).poll.Filling?
    decreases |s.queue| + if s.chunk.Some? then 1 else 0
  {
    if Fits(s) {
      DrainedPoll(Next(s, Fill));
    }
  }

  lemma Bounded(s: State)
    requires Inv(s)
    ensures |s.line| <= LINE
  {
  }

  lemma CallKeeps(s: State, c: bv8, memory: Memory)
    requires Inv(s)
    ensures Inv(Called(s, c, memory))
  {
    hide Inv, Next, Moves;
    var t := Next(s, Put(c));
    InvNext(s, Put(c));
    InvNext(t, Enqueue(memory.first));
    InvNext(Next(t, Enqueue(memory.first)), Enqueue(memory.second));
  }

  lemma FinishIsCall(s: State, c: bv8, memory: Memory)
    requires s.writer.Ready? && |s.line| != LINE
    ensures Called(s, c, memory) == Next(Store(s, c), Enqueue(memory.first))
  {
  }

  lemma PolledKeeps(s: State, open: bool, accepted: bool)
    requires Inv(s)
    ensures Inv(Next(s, Begin(open))) && Inv(Drained(Next(s, Begin(open)))) && Inv(Polled(s, open, accepted))
  {
    hide Inv, Next, Drained;
    InvNext(s, Begin(open));
    DrainKeeps(Next(s, Begin(open)));
    InvNext(Drained(Next(s, Begin(open))), Send(accepted));
  }

  lemma {:induction false} DrainKeeps(s: State)
    requires Inv(s)
    ensures Inv(Drained(s))
    decreases |s.queue| + if s.chunk.Some? then 1 else 0
  {
    hide Inv;
    if Fits(s) {
      InvNext(s, Fill);
      DrainKeeps(Next(s, Fill));
    }
  }
}
