/**
 What the steps of the Bluetooth transmit path achieve: the shape of the chunks, how much one turn of the poll task
 sends, that everything queued can be sent, and that a single caller is the writer of the machine.
 */
module BluetoothLaws {
  import opened BluetoothTx
  import opened BluetoothStream
  import opened BluetoothWriters

  /** A line of at most 250 bytes with its line feed, or 250 bytes without one before the last. */
  predicate LineOrFull(c: Bytes) {
    && 1 <= |c| <= 250 && (c[|c| - 1] == 10 || |c| == 250)
    && forall i :: 0 <= i < |c| - 1 ==> c[i] != 10
  }

  /** In every run: at most 32 chunks queued, each a line or a full buffer; at most 255 bytes in the poll task's buffer;
      at most 250 in the line, with a line feed only at the end of a line that waits for the queue. */
  lemma ChunksAreLines(es: seq<Event>)
    ensures var s := After(START, es);
      && |s.queue| <= 32 && (forall i :: 0 <= i < |s.queue| ==> LineOrFull(s.queue[i]))
      && (s.chunk.Some? ==> LineOrFull(s.chunk.value))
      && (s.poll.Filling? ==> |s.poll.buffer| <= 255)
      && |s.line| <= 250 && (s.writer.Ready? ==> 10 !in s.line) && (!s.writer.Ready? ==> LineOrFull(s.line))
  {
    InvAlways(es);
    StateShaped(After(START, es));
  }

  lemma StateShaped(s: State)
    requires Inv(s)
    ensures |s.queue| <= 32 && (forall i :: 0 <= i < |s.queue| ==> LineOrFull(s.queue[i]))
    ensures s.chunk.Some? ==> LineOrFull(s.chunk.value)
    ensures s.poll.Filling? ==> |s.poll.buffer| <= 255
    ensures |s.line| <= 250 && (s.writer.Ready? ==> 10 !in s.line) && (!s.writer.Ready? ==> LineOrFull(s.line))
  {
  }

  // ----- the writer

  /** A byte enters the line unless 250 bytes stand there; a line feed ends the line. */
  lemma PutStores(s: State, c: bv8)
    ensures Next(s, Put(c)) ==
      if !s.writer.Ready? then s
      else if |s.line| == 250 then s.(writer := MakingRoom(c))
      else s.(line := s.line + [c], writer := if c == 10 then Ending else Ready)
  {
  }

  /** A waiting line gets its place exactly if fewer than 32 chunks are queued, and the waiting byte starts the next. */
  lemma EnqueueMoves(s: State)
    requires !s.writer.Ready?
    ensures var r := Next(s, Enqueue(true));
      if |s.queue| < 32 then
        && r.queue == s.queue + [s.line] && (r.writer.Ending? <==> s.writer == MakingRoom(10))
        && r.line == (if s.writer.MakingRoom? then [s.writer.c] else []) && !r.writer.MakingRoom?
      else r == s
  {
  }

  function Always(i: nat): Memory { Memory(true, true) }

  lemma StoresOne(s: State, b: Bytes, c: bv8)
    requires s.writer.Ready? && |s.line| + |b| < 250 && c != 10
    ensures Called(s.(line := s.line + b), c, Memory(true, true)) == s.(line := s.line + (b + [c]))
  {
    assert s.line + b + [c] == s.line + (b + [c]);
  }

  lemma {:induction false} StoresAll(s: State, b: Bytes)
    requires s.writer.Ready? && |s.line| + |b| <= 250 && 10 !in b
    ensures AllCalled(s, b, Always) == s.(line := s.line + b)
    decreases |b|
  {
    hide Called;
    if b == [] {
      assert s.line + b == s.line;
    } else {
      var front, last := b[..|b| - 1], b[|b| - 1];
      StoresAll(s, front);
      StoresOne(s, front, last);
      assert front + [last] == b;
    }
  }

  /** Text that ends a line of at most 250 bytes becomes one chunk, the last of the queue. */
  lemma LineIsOneChunk(s: State, b: Bytes)
    requires s.writer.Ready? && |s.line| + |b| < 250 && 10 !in b && |s.queue| < 32
    ensures AllCalled(s, b + [10], Always) == s.(line := [], queue := s.queue + [s.line + b + [10]])
  {
    var all := b + [10];
    assert all[..|all| - 1] == b;
    StoresAll(s, b);
    EndsLine(s.(line := s.line + b));
  }

  lemma EndsLine(s: State)
    requires s.writer.Ready? && |s.line| < 250 && |s.queue| < 32
    ensures Called(s, 10, Memory(true, true)) == s.(line := [], queue := s.queue + [s.line + [10]])
  {
  }

  // ----- a turn of the poll task

  /** The chunks still to be sent: the held one first. */
  function Pending(s: State): seq<Bytes> {
    (if s.chunk.Some? then [s.chunk.value] else []) + s.queue
  }

  /** The state after k pending chunks have gone to the buffer. */
  predicate Gathering(s: State, r: State, k: nat)
    requires s.poll.Filling? && k <= |Pending(s)|
  {
    && r.poll == Filling(s.poll.buffer + Concat(Pending(s)[..k])) && Pending(r) == Pending(s)[k..]
    && (r.chunk.None? ==> r.queue == [])
    && r == s.(poll := r.poll, chunk := r.chunk, queue := r.queue)
  }

  /** Filling takes as many whole chunks as stay below 256 bytes. */
  lemma {:induction false} DrainTakes(s: State) returns (k: nat)
    requires s.poll.Filling? && (s.chunk.None? ==> s.queue == [])
    ensures k <= |Pending(s)| && Gathering(s, Drained(s), k)
    ensures k > 0 ==> |s.poll.buffer| + |Concat(Pending(s)[..k])| <= 255
    ensures k < |Pending(s)| ==> |s.poll.buffer| + |Concat(Pending(s)[..k])| + |Pending(s)[k]| >= 256
    decreases |s.queue| + if s.chunk.Some? then 1 else 0
  {
    var p := Pending(s);
    if Fits(s) {
      var t := Next(s, Fill);
      FillTakesOne(s);
      var j := DrainTakes(t);
      k := j + 1;
      TakeMore(s, t, Drained(s), j);
    } else {
      k := 0;
      assert p[..0] == [] && p[0..] == p && s.poll.buffer + [] == s.poll.buffer;
    }
  }

  lemma FillTakesOne(s: State)
    requires Fits(s)
    ensures var t := Next(s, Fill);
      && Pending(s) != [] && Pending(s)[0] == s.chunk.value && Pending(t) == Pending(s)[1..]
      && t.poll == Filling(s.poll.buffer + s.chunk.value) && (t.chunk.None? ==> t.queue == [])
      && t == s.(poll := t.poll, chunk := t.chunk, queue := t.queue)
  {
    assert Pending(s)[1..] == s.queue;
  }

  lemma TakeMore(s: State, t: State, r: State, j: nat)
    requires s.poll.Filling? && t.poll.Filling? && Pending(s) != [] && Pending(t) == Pending(s)[1..]
    requires t.poll.buffer == s.poll.buffer + Pending(s)[0] && t == s.(poll := t.poll, chunk := t.chunk, queue := t.queue)
    requires j <= |Pending(t)| && Gathering(t, r, j)
    ensures Gathering(s, r, j + 1)
    ensures Concat(Pending(s)[..j + 1]) == Pending(s)[0] + Concat(Pending(t)[..j])
  {
    hide Pending;
    var p, q := Pending(s), Pending(t);
    assert p[..j + 1][1..] == q[..j] && p[..j + 1][0] == p[0];
    assert q[j..] == p[j + 1..];
    assert t.poll.buffer + Concat(q[..j]) == s.poll.buffer + (p[0] + Concat(q[..j]));
  }

  /**
   A turn of the poll task, with a connection, something queued and no write outstanding, writes the longest run of
   pending chunks that stays below 256 bytes, at least one; the others keep their order.  An accepted write makes the
   next turns wait for its report, a refused one loses its bytes.
   */
  lemma TurnSends(s: State, accepted: bool) returns (k: nat)
    requires Inv(s) && s.poll.Idle? && s.queue != [] && s.free
    ensures 1 <= k <= |Pending(s)| && |Concat(Pending(s)[..k])| <= 255
    ensures k < |Pending(s)| ==> |Concat(Pending(s)[..k])| + |Pending(s)[k]| >= 256
    ensures var r := Polled(s, true, accepted);
      && r.poll.Idle? && Pending(r) == Pending(s)[k..] && (r.chunk.None? ==> r.queue == [])
      && r.sent == (if accepted then s.sent + Concat(Pending(s)[..k]) else s.sent)
      && r.inFlight == (if accepted then 1 else 0) && r.free == !accepted
      && r.line == s.line && r.writer == s.writer
  {
    var t := Next(s, Begin(true));
    BeginsEmpty(s);
    InvNext(s, Begin(true));
    k := DrainTakes(t);
    var r := Drained(t);
    DrainKeeps(t);
    BufferNotEmpty(r);
    hide Inv, Next, Drained, Pending, Concat;
    if k == 0 {
      FirstFits(t);
      NothingYet(t);
    }
    EmptyFirst(t, k);
    SendsAll(r, accepted);
  }

  lemma BeginsEmpty(s: State)
    requires s.poll.Idle? && s.queue != [] && s.free
    ensures var t := Next(s, Begin(true));
      && t.poll == Filling([]) && t.chunk.Some? && Pending(t) == Pending(s) && Pending(s) != []
      && t == s.(poll := t.poll, chunk := t.chunk, queue := t.queue, free := false)
  {
  }

  lemma FirstFits(t: State)
    requires Inv(t) && t.chunk.Some?
    ensures Pending(t) != [] && |Pending(t)[0]| <= 250
  {
  }

  lemma NothingYet(t: State)
    ensures Concat(Pending(t)[..0]) == []
  {
  }

  lemma EmptyFirst(t: State, k: nat)
    requires t.poll == Filling([]) && k <= |Pending(t)|
    ensures t.poll.buffer + Concat(Pending(t)[..k]) == Concat(Pending(t)[..k])
  {
  }

  lemma SendsAll(r: State, accepted: bool)
    requires r.poll.Filling? && !Fits(r) && Outgoing(r) == r.poll.buffer != []
    ensures var u := Next(r, Send(accepted));
      && u == r.(poll := Idle, sent := u.sent, inFlight := u.inFlight, free := u.free) && Pending(u) == Pending(r)
      && u.sent == (if accepted then r.sent + r.poll.buffer else r.sent)
      && u.inFlight == (if accepted then r.inFlight + 1 else r.inFlight) && u.free == (if accepted then r.free else true)
  {
  }

  /** Without a connection, with nothing queued or with a write outstanding a turn does nothing. */
  lemma TurnWaits(s: State, open: bool, accepted: bool)
    requires s.poll.Idle?
    ensures !open || s.queue == [] || !s.free ==> Polled(s, open, accepted) == s
  {
  }

  // ----- everything queued can be sent

  lemma {:induction false} ConcatSplit(cs: seq<Bytes>, k: nat)
    requires k <= |cs|
    ensures Concat(cs) == Concat(cs[..k]) + Concat(cs[k..])
  {
    if k == 0 {
      assert cs[..0] == [] && cs[0..] == cs;
    } else {
      ConcatSplit(cs[1..], k - 1);
      assert cs[..k][1..] == cs[1..][..k - 1] && cs[1..][k - 1..] == cs[k..];
      assert cs[0] + (Concat(cs[1..][..k - 1]) + Concat(cs[k..])) == cs[0] + Concat(cs[1..][..k - 1]) + Concat(cs[k..]);
    }
  }

  lemma AccountIsPending(s: State)
    requires s.poll.Idle?
    ensures Account(s) == s.sent + (Concat(Pending(s)) + Gathered(s))
  {
    var q := Concat(s.queue);
    if s.chunk.Some? {
      assert Pending(s)[0] == s.chunk.value && Pending(s)[1..] == s.queue;
      assert s.chunk.value + (q + Gathered(s)) == s.chunk.value + q + Gathered(s);
    } else {
      assert Pending(s) == s.queue;
    }
  }

  lemma TurnAccount(s: State)
    requires Inv(s) && s.poll.Idle? && s.queue != [] && s.free
    ensures Account(Polled(s, true, true)) == Account(s)
  {
    var k := TurnSends(s, true);
    AccountIsPending(s);
    AccountIsPending(Polled(s, true, true));
    ConcatSplit(Pending(s), k);
    hide Account, Pending, Concat, Polled, Inv;
    Regroup(s.sent, Concat(Pending(s)[..k]), Concat(Pending(s)[k..]), Gathered(s));
  }

  lemma Regroup(sent: Bytes, a: Bytes, b: Bytes, g: Bytes)
    ensures sent + a + (b + g) == sent + (a + b + g)
  {
  }

  /** From every state in which the poll task waits there is a run of the poll task and the stack that sends what is
      queued: it empties the queue and loses nothing. */
  lemma {:induction false} CanDrain(s: State) returns (es: seq<Event>)
    requires Inv(s) && s.poll.Idle?
    ensures var r := After(s, es); Inv(r) && r.poll.Idle? && r.queue == [] && Account(r) == Account(s)
    ensures After(s, es).line == s.line && After(s, es).writer == s.writer
    decreases |Pending(s)|, if s.free then 0 else 1
  {
    hide Account, Concat, Inv, Drained;
    if s.queue == [] {
      es := [];
    } else {
      var first, t;
      if s.free {
        first := PollIsRun(s, true, true);
        t := Polled(s, true, true);
        var _ := TurnSends(s, true);
        TurnAccount(s);
        PolledKeeps(s, true, true);
      } else {
        first, t := [Written], Next(s, Written);
        AfterOne(s, Written);
        ReportFrees(s);
        InvNext(s, Written);
      }
      var rest := CanDrain(t);
      AfterConcat(s, first, rest);
      es := first + rest;
    }
  }

  lemma ReportFrees(s: State)
    requires Inv(s) && s.poll.Idle? && !s.free
    ensures var t := Next(s, Written);
      t == s.(free := true, inFlight := 0) && Account(t) == Account(s) && Pending(t) == Pending(s)
  {
  }

  // ----- a single caller

  /** The only caller seen as the writer of the machine. */
  function Single(x: Shared): State
    requires |x.callers| == 1
  {
    x.s.(writer := match x.callers[0]
                   case Outside => Ready
                   case WaitingFor(_, c) => MakingRoom(c)
                   case WaitingEnd(_) => Ending)
  }

  /** What the machine makes of an action. */
  function AsEvent(a: Action): Event {
    match a
    case Call(_, c) => Put(c)
    case Queue(_) => Enqueue(true)
    case Poll(e) => e
  }

  /** An action of the caller, the poll task or the stack. */
  predicate ByOne(a: Action) {
    match a
    case Call(i, _) => i == 0
    case Queue(i) => i == 0
    case Poll(e) => !e.Put? && !e.Enqueue?
  }

  lemma OneCalls(x: Shared, c: bv8)
    requires |x.callers| == 1 && x.s.writer.Ready? && Alone(x)
    ensures var y := Act(x, Call(0, c)); |y.callers| == 1 && y.s.writer.Ready? && Alone(y)
    ensures Single(Act(x, Call(0, c))) == Next(Single(x), Put(c))
  {
  }

  lemma OneQueues(x: Shared)
    requires |x.callers| == 1 && x.s.writer.Ready? && Alone(x)
    ensures var y := Act(x, Queue(0)); |y.callers| == 1 && y.s.writer.Ready? && Alone(y)
    ensures Single(Act(x, Queue(0))) == Next(Single(x), Enqueue(true))
  {
    if Places(x, 0) {
      assert x.callers[0].chunk == x.s.line;
    }
  }

  lemma OnePolls(x: Shared, e: Event)
    requires |x.callers| == 1 && x.s.writer.Ready? && Alone(x) && !e.Put? && !e.Enqueue?
    ensures var y := Act(x, Poll(e)); |y.callers| == 1 && y.s.writer.Ready? && Alone(y)
    ensures Single(Act(x, Poll(e))) == Next(Single(x), e)
  {
    PollLeaves(x.s, Single(x).writer, e);
    hide Next;
  }

  lemma PollLeaves(s: State, w: Writer, e: Event)
    requires !e.Put? && !e.Enqueue?
    ensures Next(s.(writer := w), e) == Next(s, e).(writer := w)
    ensures Next(s, e).line == s.line && Next(s, e).writer == s.writer
  {
  }

  lemma OneCaller(x: Shared, a: Action)
    requires |x.callers| == 1 && x.s.writer.Ready? && Alone(x) && ByOne(a)
    ensures |Act(x, a).callers| == 1 && Act(x, a).s.writer.Ready? && Alone(Act(x, a))
    ensures Single(Act(x, a)) == Next(Single(x), AsEvent(a))
  {
    hide Act, Next, Alone, Single;
    match a
    case Call(_, c) => OneCalls(x, c);
    case Queue(_) => OneQueues(x);
    case Poll(e) => OnePolls(x, e);
  }

  function AsEvents(acts: seq<Action>): seq<Event> {
    if acts == [] then [] else AsEvents(acts[..|acts| - 1]) + [AsEvent(acts[|acts| - 1])]
  }

  /** With one caller the shared buffers go through the states of the machine: both models tell the same runs. */
  lemma {:induction false} OneWriterIsMachine(acts: seq<Action>)
    requires forall i :: 0 <= i < |acts| ==> ByOne(acts[i])
    ensures |Acted(Begun(1), acts).callers| == 1
    ensures Single(Acted(Begun(1), acts)) == After(START, AsEvents(acts))
    ensures Acted(Begun(1), acts).s.writer.Ready? && Alone(Acted(Begun(1), acts))
  {
    hide Act, Next, Alone;
    if acts == [] {
      BegunAlone();
    } else {
      var before := acts[..|acts| - 1];
      OneWriterIsMachine(before);
      OneCaller(Acted(Begun(1), before), acts[|acts| - 1]);
      assert AsEvents(acts)[..|AsEvents(acts)| - 1] == AsEvents(before);
    }
  }

  lemma BegunAlone()
    ensures Alone(Begun(1)) && Single(Begun(1)) == START && |Begun(1).callers| == 1
  {
  }
}
