/**
 Runs of the passthrough ring: the DMA engine walks while pins are written and pulses committed.
 */
module PassRun {
  import opened PassRing

  // ----- the ring and the engine

  /** The engine moves on; a pin is written; a pulse is committed. */
  datatype Op = Move | Show(port: bv32) | Commit(port: bv32, pulse: nat, delay: nat)

  datatype Engine = Engine(ring: Links, at: nat, sent: seq<bv32>)

  ghost predicate ValidEngine(e: Engine) {
    Cycle(e.ring) && e.at < NODES
  }

  /** A commit leaves two nodes free; the other steps are always possible. */
  predicate Fits(e: Engine, op: Op)
    requires e.ring.idle < NODES && e.at < NODES
  {
    op.Commit? ==> Lag(e.ring.idle, e.at) + op.delay + op.pulse <= NODES - 2
  }

  function Step(e: Engine, op: Op, mask: bv32): Engine
    requires |e.ring.next| == |e.ring.data| == NODES && e.ring.idle < NODES && e.at < NODES
    requires e.ring.next[e.at] < NODES
  {
    match op
    case Move => Engine(e.ring, e.ring.next[e.at], e.sent + [e.ring.data[e.ring.next[e.at]]])
    case Show(port) => e.(ring := e.ring.(data := e.ring.data[e.ring.idle := Quiet(port, mask)]))
    case Commit(port, pulse, delay) =>
      e.(ring := Appended(e.ring, Waveform(port, mask, pulse, delay), Quiet(port, mask)))
  }

  /** The condition of `Fits` is the exact one: whatever the samples and the value behind them, they are sent complete. */
  lemma FitsIsRoom(e: Engine, port: bv32, pulse: nat, delay: nat)
    requires ValidEngine(e)
    ensures Fits(e, Commit(port, pulse, delay)) <==>
      forall wave: seq<bv32>, after: bv32 :: |wave| == delay + pulse ==> AppendedComplete(e.ring, e.at, wave, after)
  {
    hide AppendedComplete, Cycle;
    FitsExactly(e.ring, e.at, delay + pulse);
  }

  /** The engine after n steps of its own. */
  ghost function Moved(e: Engine, n: nat, mask: bv32): Engine
    requires ValidEngine(e)
    decreases n
  {
    if n == 0 then e else Moved(Step(e, Move, mask), n - 1, mask)
  }

  /** The engine's own steps send, one by one, what the links of the ring lead to. */
  lemma {:induction false} MovesSend(e: Engine, n: nat, t: nat, mask: bv32)
    requires ValidEngine(e) && t < n
    ensures var f := Moved(e, n, mask);
      && f.ring == e.ring && |f.sent| == |e.sent| + n
      && f.sent[..|e.sent|] == e.sent && f.sent[|e.sent| + t] == Sent(e.ring, e.at, t + 1)
    decreases n
  {
    var d := Step(e, Move, mask);
    assert Sent(e.ring, e.at, t + 1) == Sent(e.ring, d.at, t) && d.sent[..|e.sent|] == e.sent;
    if n > 1 {
      MovesSend(d, n - 1, if t == 0 then 0 else t - 1, mask);
    }
    var f := Moved(e, n, mask);
    assert f == Moved(d, n - 1, mask) && f.sent[..|d.sent|] == d.sent;
    hide Cycle, Step, Moved, Sent;
    assert f.sent[..|e.sent|] == f.sent[..|d.sent|][..|e.sent|];
    assert f.sent[|e.sent|] == f.sent[..|d.sent|][|e.sent|];
  }

  /** The same seen as a line of samples: what is sent, what is still to be sent, and what is repeated after that. */
  datatype Line = Line(sent: seq<bv32>, pending: seq<bv32>, idle: bv32)

  function AsLine(e: Engine): Line
    requires |e.ring.data| == NODES && e.ring.idle < NODES && e.at < NODES
  {
    Line(e.sent,
         seq(Lag(e.ring.idle, e.at), t requires 0 <= t < Lag(e.ring.idle, e.at) => e.ring.data[Fwd(e.at, t + 1)]),
         e.ring.data[e.ring.idle])
  }

  function LineStep(l: Line, op: Op, mask: bv32): Line {
    match op
    case Move =>
      if l.pending == [] then l.(sent := l.sent + [l.idle])
      else l.(sent := l.sent + [l.pending[0]], pending := l.pending[1..])
    case Show(port) =>
      var q := Quiet(port, mask);
      l.(pending := if l.pending == [] then [] else l.pending[|l.pending| - 1 := q], idle := q)
    case Commit(port, pulse, delay) =>
      var q := Quiet(port, mask);
      l.(pending := l.pending + Waveform(port, mask, pulse, delay) + [q], idle := q)
  }

  lemma MoveSimulated(e: Engine, mask: bv32)
    requires ValidEngine(e)
    ensures ValidEngine(Step(e, Move, mask)) && AsLine(Step(e, Move, mask)) == LineStep(AsLine(e), Move, mask)
  {
    var f, l := Step(e, Move, mask), AsLine(e);
    if l.pending != [] {
      assert Lag(f.ring.idle, f.at) == Lag(e.ring.idle, e.at) - 1;
      forall t | 0 <= t < |l.pending| - 1
        ensures AsLine(f).pending[t] == l.pending[t + 1]
      {
        assert Fwd(f.at, t + 1) == Fwd(e.at, t + 2);
      }
    }
  }

  lemma ShowSimulated(e: Engine, port: bv32, mask: bv32)
    requires ValidEngine(e)
    ensures var f := Step(e, Show(port), mask);
      ValidEngine(f) && AsLine(f) == LineStep(AsLine(e), Show(port), mask)
  {
    hide Quiet;
    var f, l := Step(e, Show(port), mask), AsLine(e);
    forall t | 0 <= t < |l.pending|
      ensures AsLine(f).pending[t] == if t == |l.pending| - 1 then Quiet(port, mask) else l.pending[t]
    {
      assert Fwd(e.at, t + 1) == e.ring.idle <==> t == |l.pending| - 1;
    }
  }

  lemma CommitSimulated(e: Engine, port: bv32, pulse: nat, delay: nat, mask: bv32)
    requires ValidEngine(e) && Fits(e, Commit(port, pulse, delay))
    ensures var f := Step(e, Commit(port, pulse, delay), mask);
      ValidEngine(f) && AsLine(f) == LineStep(AsLine(e), Commit(port, pulse, delay), mask)
  {
    hide Quiet, Waveform, Sent, Appended, Committed;
    var wave, q := Waveform(port, mask, pulse, delay), Quiet(port, mask);
    AppendedIs(e.ring, e.ring, wave, q);
    var f := Step(e, Commit(port, pulse, delay), mask);
    AppendedPending(e.ring, f.ring, e.at, wave, q);
    var m := LineStep(AsLine(e), Commit(port, pulse, delay), mask);
    assert AsLine(f).pending == m.pending;
  }

  lemma AppendedPending(r: Links, s: Links, c: nat, wave: seq<bv32>, q: bv32)
    requires Cycle(r) && Cycle(s) && c < NODES && Lag(r.idle, c) + |wave| <= NODES - 2
    requires Committed(r, s, wave, q)
    ensures Lag(s.idle, c) == Lag(r.idle, c) + |wave| + 1 && s.data[s.idle] == q
    ensures forall t {:trigger Fwd(c, t + 1)} :: 0 <= t < Lag(s.idle, c) ==>
      s.data[Fwd(c, t + 1)] == var lag := Lag(r.idle, c);
        if t < lag then r.data[Fwd(c, t + 1)] else if t < lag + |wave| then wave[t - lag] else q
  {
    var lag := Lag(r.idle, c);
    forall t {:trigger Fwd(c, t + 1)} | 0 <= t < lag + |wave| + 1
      ensures s.data[Fwd(c, t + 1)]
        == if t < lag then r.data[Fwd(c, t + 1)] else if t < lag + |wave| then wave[t - lag] else q
    {
      if t < lag {
        assert Off(r.idle, Fwd(c, t + 1)) == NODES - lag + t + 1;
      } else {
        assert Off(r.idle, Fwd(c, t + 1)) == t - lag + 1;
      }
    }
  }

  // ----- pulses in the stream

  ghost predicate AllQuiet(stream: seq<bv32>, mask: bv32) {
    forall i :: 0 <= i < |stream| ==> IsQuiet(stream[i], mask)
  }

  predicate IsQuiet(v: bv32, mask: bv32) {
    v & mask == 0
  }

  /** The stream holds the waveforms in order, each complete, behind each at least one sample, and no step bit
      anywhere else. */
  ghost predicate Holds(stream: seq<bv32>, waves: seq<seq<bv32>>, mask: bv32)
    decreases |waves|
  {
    if waves == [] then AllQuiet(stream, mask)
    else exists i: nat :: HoldsFrom(stream, waves, i, mask)
  }

  /** The last waveform stands at index i. */
  ghost predicate HoldsFrom(stream: seq<bv32>, waves: seq<seq<bv32>>, i: nat, mask: bv32)
    requires waves != []
    decreases |waves|, 0
  {
    var w := waves[|waves| - 1];
    && i + |w| < |stream| && stream[i..i + |w|] == w && AllQuiet(stream[i + |w|..], mask)
    && Holds(stream[..i], waves[..|waves| - 1], mask)
  }

  /** The waveform a step asks for, if any, and those of a run in turn. */
  function Added(op: Op, mask: bv32): seq<seq<bv32>> {
    if op.Commit? then [Waveform(op.port, mask, op.pulse, op.delay)] else []
  }

  function Waves(ops: seq<Op>, mask: bv32): seq<seq<bv32>> {
    if ops == [] then [] else Added(ops[0], mask) + Waves(ops[1..], mask)
  }

  lemma QuietIsQuiet(port: bv32, mask: bv32)
    ensures IsQuiet(Quiet(port, mask), mask)
  {
  }

  lemma QuietSampleAdded(stream: seq<bv32>, waves: seq<seq<bv32>>, v: bv32, mask: bv32)
    requires Holds(stream, waves, mask) && IsQuiet(v, mask)
    ensures Holds(stream + [v], waves, mask)
  {
    hide IsQuiet;
    if waves != [] {
      var i: nat :| HoldsFrom(stream, waves, i, mask);
      var n := i + |waves[|waves| - 1]|;
      assert (stream + [v])[i..n] == stream[i..n] && (stream + [v])[n..] == stream[n..] + [v];
      assert (stream + [v])[..i] == stream[..i];
      assert HoldsFrom(stream + [v], waves, i, mask);
    }
  }

  lemma LastSampleReplaced(stream: seq<bv32>, waves: seq<seq<bv32>>, v: bv32, mask: bv32)
    requires Holds(stream, waves, mask) && IsQuiet(v, mask) && stream != []
    ensures Holds(stream[|stream| - 1 := v], waves, mask)
  {
    hide IsQuiet;
    if waves != [] {
      var i: nat :| HoldsFrom(stream, waves, i, mask);
      var n, t := i + |waves[|waves| - 1]|, stream[|stream| - 1 := v];
      assert t[i..n] == stream[i..n] && t[..i] == stream[..i];
      forall k | 0 <= k < |t[n..]|
        ensures IsQuiet(t[n..][k], mask)
      {
        assert t[n..][k] == v || t[n..][k] == stream[n..][k];
      }
      assert HoldsFrom(t, waves, i, mask);
    }
  }

  lemma WaveAdded(stream: seq<bv32>, waves: seq<seq<bv32>>, w: seq<bv32>, v: bv32, mask: bv32)
    requires Holds(stream, waves, mask) && IsQuiet(v, mask)
    ensures Holds(stream + w + [v], waves + [w], mask)
  {
    hide IsQuiet;
    var t, all := stream + w + [v], waves + [w];
    assert all[..|all| - 1] == waves && all[|all| - 1] == w;
    assert t[|stream|..|stream| + |w|] == w && t[|stream| + |w|..] == [v] && t[..|stream|] == stream;
    assert HoldsFrom(t, all, |stream|, mask);
  }

  ghost predicate LineInv(l: Line, waves: seq<seq<bv32>>, mask: bv32) {
    && Holds(l.sent + l.pending, waves, mask) && IsQuiet(l.idle, mask)
    && (l.pending != [] ==> l.pending[|l.pending| - 1] == l.idle)
  }

  lemma MoveKeeps(l: Line, waves: seq<seq<bv32>>, mask: bv32)
    requires LineInv(l, waves, mask)
    ensures LineInv(LineStep(l, Move, mask), waves, mask)
  {
    hide IsQuiet, Holds;
    var m, all := LineStep(l, Move, mask), l.sent + l.pending;
    if l.pending == [] {
      assert m.sent + m.pending == all + [l.idle];
      QuietSampleAdded(all, waves, l.idle, mask);
    } else {
      assert m.sent + m.pending == all;
    }
  }

  lemma ShowKeeps(l: Line, port: bv32, waves: seq<seq<bv32>>, mask: bv32)
    requires LineInv(l, waves, mask)
    ensures LineInv(LineStep(l, Show(port), mask), waves, mask)
  {
    hide IsQuiet, Holds, Quiet;
    var m, all := LineStep(l, Show(port), mask), l.sent + l.pending;
    QuietIsQuiet(port, mask);
    if l.pending != [] {
      assert m.sent + m.pending == all[|all| - 1 := m.idle];
      LastSampleReplaced(all, waves, m.idle, mask);
    }
  }

  lemma CommitKeeps(l: Line, port: bv32, pulse: nat, delay: nat, waves: seq<seq<bv32>>, mask: bv32)
    requires LineInv(l, waves, mask)
    ensures LineInv(LineStep(l, Commit(port, pulse, delay), mask), waves + [Waveform(port, mask, pulse, delay)], mask)
  {
    hide IsQuiet, Holds, Quiet, Waveform;
    var m, all := LineStep(l, Commit(port, pulse, delay), mask), l.sent + l.pending;
    var w := Waveform(port, mask, pulse, delay);
    QuietIsQuiet(port, mask);
    assert m.sent + m.pending == all + w + [m.idle];
    WaveAdded(all, waves, w, m.idle, mask);
  }

  lemma LineKeeps(l: Line, op: Op, waves: seq<seq<bv32>>, mask: bv32)
    requires LineInv(l, waves, mask)
    ensures LineInv(LineStep(l, op, mask), waves + Added(op, mask), mask)
  {
    hide LineInv, LineStep, Waveform;
    match op
    case Move =>
      assert waves + [] == waves;
      MoveKeeps(l, waves, mask);
    case Show(port) =>
      assert waves + [] == waves;
      ShowKeeps(l, port, waves, mask);
    case Commit(port, pulse, delay) =>
      CommitKeeps(l, port, pulse, delay, waves, mask);
  }

  /** A run in which every commit fits where it is made, and the engine after it. */
  ghost predicate AllFit(e: Engine, ops: seq<Op>, mask: bv32)
    decreases |ops|
  {
    ValidEngine(e) && (ops != [] ==> Fits(e, ops[0]) && AllFit(Step(e, ops[0], mask), ops[1..], mask))
  }

  ghost function Final(e: Engine, ops: seq<Op>, mask: bv32): Engine
    requires AllFit(e, ops, mask)
    decreases |ops|
  {
    if ops == [] then e else Final(Step(e, ops[0], mask), ops[1..], mask)
  }

  lemma StepSimulated(e: Engine, op: Op, mask: bv32)
    requires ValidEngine(e) && Fits(e, op)
    ensures ValidEngine(Step(e, op, mask)) && AsLine(Step(e, op, mask)) == LineStep(AsLine(e), op, mask)
  {
    hide Appended, Quiet, Waveform, AsLine, LineStep;
    match op
    case Move => MoveSimulated(e, mask);
    case Show(port) => ShowSimulated(e, port, mask);
    case Commit(port, pulse, delay) => CommitSimulated(e, port, pulse, delay, mask);
  }

  /**
   The theorem of the passthrough ring: in every interleaving of engine steps, pin writes and commits that fit, what
   is sent and what is still to be sent together hold the waveforms of all commits, complete and in order, and no step
   bit anywhere between them.
   */
  lemma AllPulsesSent(e: Engine, ops: seq<Op>, mask: bv32)
    requires ValidEngine(e) && e.at == e.ring.idle && e.sent == [] && IsQuiet(e.ring.data[e.ring.idle], mask)
    requires AllFit(e, ops, mask)
    ensures var f := Final(e, ops, mask);
      ValidEngine(f) && LineInv(AsLine(f), Waves(ops, mask), mask)
  {
    hide AllFit, Final, LineInv, IsQuiet;
    ParkedLine(e, mask);
    PulsesGoOn(e, ops, [], mask);
    assert [] + Waves(ops, mask) == Waves(ops, mask);
  }

  lemma {:induction false} PulsesGoOn(e: Engine, ops: seq<Op>, waves: seq<seq<bv32>>, mask: bv32)
    requires AllFit(e, ops, mask) && ValidEngine(e) && LineInv(AsLine(e), waves, mask)
    ensures var f := Final(e, ops, mask);
      ValidEngine(f) && LineInv(AsLine(f), waves + Waves(ops, mask), mask)
    decreases |ops|
  {
    hide LineInv, Step, LineStep, AsLine, Fits, Added;
    if ops == [] {
      assert waves + [] == waves;
    } else {
      StepSimulated(e, ops[0], mask);
      LineKeeps(AsLine(e), ops[0], waves, mask);
      PulsesGoOn(Step(e, ops[0], mask), ops[1..], waves + Added(ops[0], mask), mask);
      assert waves + Added(ops[0], mask) + Waves(ops[1..], mask) == waves + (Added(ops[0], mask) + Waves(ops[1..], mask));
    }
  }

  lemma ParkedLine(e: Engine, mask: bv32)
    requires ValidEngine(e) && e.at == e.ring.idle && e.sent == [] && IsQuiet(e.ring.data[e.ring.idle], mask)
    ensures LineInv(AsLine(e), [], mask)
  {
  }
}
