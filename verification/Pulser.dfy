/**
 The pulser status of the I2S driver and the descriptor ring it depends on, as a transition system.

 Each event is one critical section of the driver: the functions that take the status lock, the
 stretches of the fill loop between two callbacks, and the DMA interrupt.
 */
module Pulser {
  import opened DmaRing
  import opened StepTimeline

  /** `cut[i]`: descriptor i has no successor; otherwise it is followed by the next of the cycle. */
  datatype Ring = Ring(initialized: bool, hasCallback: bool, status: Status, cut: seq<bool>, lengths: seq<nat>, rwPos: nat)

  predicate Shape(p: Ring) {
    |p.cut| == BUFFERS && |p.lengths| == BUFFERS
  }

  /** The full cycle of five descriptors. */
  predicate Whole(p: Ring) {
    p.cut == [false, false, false, false, false]
  }

  predicate Fresh(p: Ring) {
    Whole(p) && p.lengths == [BUFFER_LENGTH, BUFFER_LENGTH, BUFFER_LENGTH, BUFFER_LENGTH, BUFFER_LENGTH] && p.rwPos == 0
  }

  function Cleared(p: Ring): Ring {
    p.(cut := [false, false, false, false, false],
       lengths := [BUFFER_LENGTH, BUFFER_LENGTH, BUFFER_LENGTH, BUFFER_LENGTH, BUFFER_LENGTH])
  }

  /** `i2s_out_start`; without a pulse callback every request means Passthrough. */
  function Started(p: Ring, request: Status): Ring {
    var s := if p.hasCallback then request else Passthrough;
    if !p.initialized || p.status == s then p
    else if s == Passthrough then p.(status := Passthrough)
    else Cleared(p).(status := s, rwPos := 0)
  }

  function PassthroughSet(p: Ring): Ring {
    if p.status == Stepping then p.(status := Waiting) else p
  }

  /** `i2s_out_set_stepping`, once it no longer finds the status Waiting. */
  function SteppingSet(p: Ring): Ring
    requires p.status != Waiting
  {
    if p.status == Stepping then p else Started(p, Stepping)
  }

  function ResetDone(p: Ring): Ring {
    var q := if p.status == Stepping then Cleared(p) else p;
    Started(q, if q.status == Waiting then Passthrough else q.status)
  }

  /** `i2s_step_gen` for a status other than Stepping. */
  function Skipped(p: Ring, d: nat): Ring
    requires Shape(p) && d < BUFFERS
  {
    if p.status == Waiting then
      if p.cut[d] then Started(p, Passthrough)
      else p.(cut := p.cut[d := true], lengths := p.lengths[d := BUFFER_LENGTH], rwPos := 0)
    else p.(lengths := p.lengths[d := BUFFER_LENGTH], rwPos := 0)
  }

  // ----- the interleavings

  datatype Phase = Idle | Filling(d: nat) | InCallback(d: nat)

  datatype State = State(ring: Ring, phase: Phase, dma: nat, calls: nat)

  datatype Event =
    | SetCallback | SetPassthrough | SetStepping | Reset
    | TaskTake(d: nat) | CallbackBegin | CallbackEnd(pushed: nat) | EmitSample | FillDone
    | DmaDone

  predicate LockFree(s: State) {
    s.phase.Idle? || s.phase.InCallback?
  }

  /** The callback contract excludes restarting the pulser before the callback has returned. */
  predicate Enabled(s: State, e: Event) {
    match e
    case SetCallback => true
    case SetPassthrough => LockFree(s)
    case SetStepping => LockFree(s) && s.ring.status != Waiting && (s.phase.InCallback? ==> s.ring.status == Stepping)
    case Reset => LockFree(s)
    case TaskTake(d) => s.phase.Idle? && d < BUFFERS
    case CallbackBegin => s.phase.Filling? && s.ring.rwPos < FILL_LIMIT && s.ring.status == Stepping
    case CallbackEnd(pushed) => s.phase.InCallback? && pushed <= SAFE_COUNT + 1
    case EmitSample => s.phase.Filling? && s.ring.rwPos < FILL_LIMIT
    case FillDone => s.phase.Filling? && s.ring.rwPos >= FILL_LIMIT
    case DmaDone => s.ring.status == Stepping || s.ring.status == Waiting
  }

  function Next(s: State, e: Event): State
    requires Inv(s) && Enabled(s, e)
  {
    var p := s.ring;
    match e
    case SetCallback => s.(ring := p.(hasCallback := true))
    case SetPassthrough => s.(ring := PassthroughSet(p))
    case SetStepping =>
      var q := SteppingSet(p);
      State(q, s.phase, if q.status != p.status && q.status == Stepping then 0 else s.dma, s.calls)
    case Reset => s.(ring := ResetDone(p))
    case TaskTake(d) =>
      if p.status == Stepping then s.(ring := p.(rwPos := 0), phase := Filling(d)) else s.(ring := Skipped(p, d))
    case CallbackBegin => s.(phase := InCallback(s.phase.d), calls := s.calls + 1)
    case CallbackEnd(pushed) =>
      if p.status == Waiting then
        s.(ring := p.(rwPos := p.rwPos + pushed, cut := p.cut[s.phase.d := true]), phase := Filling(s.phase.d))
      else if p.status == Passthrough then s.(ring := p.(rwPos := SAMPLE_COUNT), phase := Filling(s.phase.d))
      else s.(ring := p.(rwPos := p.rwPos + pushed), phase := Filling(s.phase.d))
    case EmitSample => s.(ring := p.(rwPos := p.rwPos + 1))
    case FillDone => s.(ring := p.(lengths := p.lengths[s.phase.d := SAMPLE_SIZE * p.rwPos]), phase := Idle)
    case DmaDone => if p.cut[s.dma] then s.(ring := Started(p, Passthrough)) else s.(dma := Successor(s.dma))
  }

  /** What every reachable state keeps. */
  ghost predicate Inv(s: State) {
    && Shape(s.ring) && s.dma < BUFFERS && s.ring.rwPos <= SAMPLE_COUNT
    && (s.ring.status == Stepping || s.ring.status == Waiting ==> s.ring.initialized && s.ring.hasCallback)
    && (s.ring.status == Stepping ==> Whole(s.ring))
    && (!s.phase.Idle? ==> s.phase.d < BUFFERS && s.ring.status != Stopped)
    && (s.phase.InCallback? ==> s.ring.rwPos < FILL_LIMIT)
    && (s.phase.Filling? && s.ring.status == Waiting ==> s.ring.cut[s.phase.d])
    && (forall i :: 0 <= i < BUFFERS ==> SAMPLE_SIZE * FILL_LIMIT <= s.ring.lengths[i] <= BUFFER_LENGTH)
  }

  predicate Initial(s: State) {
    && s.ring == Ring(s.ring.initialized, false, Stopped, [false, false, false, false, false],
                      [BUFFER_LENGTH, BUFFER_LENGTH, BUFFER_LENGTH, BUFFER_LENGTH, BUFFER_LENGTH], 0)
    && s.phase == Idle && s.dma == 0 && s.calls == 0
  }

  lemma InvNext(s: State, e: Event)
    requires Inv(s) && Enabled(s, e)
    ensures Inv(Next(s, e))
  {
  }

  /** A run: every event enabled where it happens. */
  ghost predicate IsRun(s: State, es: seq<Event>)
    requires Inv(s)
    decreases |es|
  {
    es == [] || (Enabled(s, es[0]) && (InvNext(s, es[0]); IsRun(Next(s, es[0]), es[1..])))
  }

  /** The state before event i of a run. */
  ghost function At(s: State, es: seq<Event>, i: nat): (t: State)
    requires Inv(s) && IsRun(s, es) && i <= |es|
    ensures Inv(t)
    ensures i < |es| ==> Enabled(t, es[i])
    decreases i
  {
    if i == 0 then s else InvNext(s, es[0]); At(Next(s, es[0]), es[1..], i - 1)
  }

  lemma {:induction false} AtNext(s: State, es: seq<Event>, i: nat)
    requires Inv(s) && IsRun(s, es) && i < |es|
    ensures At(s, es, i + 1) == Next(At(s, es, i), es[i])
    decreases i
  {
    InvNext(s, es[0]);
    if i > 0 {
      AtNext(Next(s, es[0]), es[1..], i - 1);
    } else {
      assert At(s, es, 1) == At(Next(s, es[0]), es[1..], 0);
    }
  }

  /**
   The pulser theorem, for every run: the callback starts only while the status is Stepping; Stepping
   is entered only from Passthrough or Stopped, never from Waiting, and always with the full cycle,
   full lengths and an empty buffer; and no descriptor is cut while the status stays Stepping.
   */
  lemma {:induction false} PulserRuns(s: State, es: seq<Event>, i: nat)
    requires Initial(s) && Inv(s) && IsRun(s, es) && i < |es|
    ensures var a := At(s, es, i); var b := At(s, es, i + 1);
            && (b.calls != a.calls ==> a.ring.status == Stepping)
            && (b.ring.status == Stepping && a.ring.status != Stepping ==>
                  (a.ring.status == Passthrough || a.ring.status == Stopped)
                  && Fresh(b.ring) && b.phase == Idle && b.dma == 0)
            && (b.ring.status == Stepping ==> Whole(b.ring))
            && (forall d :: 0 <= d < BUFFERS && b.ring.cut[d] && !a.ring.cut[d] ==> a.ring.status == Waiting)
  {
    AtNext(s, es, i);
    InvNext(At(s, es, i), es[i]);
  }

  // ----- what each event does, in its own terms

  /** Nothing of the ring changes but the position. */
  predicate SameRing(a: Ring, b: Ring) {
    b.status == a.status && b.cut == a.cut && b.lengths == a.lengths
  }

  predicate SetSteppingEffect(a: Ring, b: Ring) {
    && (a.initialized && a.hasCallback ==> b.status == Stepping)
    && (a.initialized && !a.hasCallback && a.status != Stepping ==> b.status == Passthrough)
    && (!a.initialized ==> b == a)
  }

  predicate ResetEffect(a: Ring, b: Ring) {
    && (a.status == Stepping ==> b == a.(cut := b.cut, lengths := b.lengths) && Fresh(b.(rwPos := 0)))
    && (a.status == Waiting ==> b.status == Passthrough)
    && (a.status == Passthrough ==> b == a)
  }

  predicate TakeEffect(a: Ring, b: Ring, d: nat)
    requires Shape(a) && Shape(b) && d < BUFFERS
  {
    if a.status == Waiting && a.cut[d] then b.status == Passthrough
    else
      && b.rwPos == 0 && b.status == a.status
      && b.cut == (if a.status == Waiting then a.cut[d := true] else a.cut)
      && b.lengths == if a.status == Stepping then a.lengths else a.lengths[d := 2000]
  }

  predicate CallbackEndEffect(a: Ring, b: Ring, d: nat, pushed: nat)
    requires Shape(a) && Shape(b) && d < BUFFERS
  {
    && b.status == a.status && b.lengths == a.lengths
    && b.cut == (if a.status == Waiting then a.cut[d := true] else a.cut)
    && b.rwPos == if a.status == Passthrough then 500 else a.rwPos + pushed
  }

  ghost predicate Effect(s: State, e: Event, t: State)
    requires Inv(s) && Enabled(s, e) && Shape(t.ring)
  {
    var a, b := s.ring, t.ring;
    match e
    case SetCallback => b == a.(hasCallback := true)
    case SetPassthrough => b == a.(status := if a.status == Stepping then Waiting else a.status)
    case SetStepping => SetSteppingEffect(a, b)
    case Reset => ResetEffect(a, b)
    case TaskTake(d) => TakeEffect(a, b, d) && t.phase == if a.status == Stepping then Filling(d) else Idle
    case CallbackBegin => b == a && t.phase == InCallback(s.phase.d) && t.calls == s.calls + 1
    case CallbackEnd(pushed) => CallbackEndEffect(a, b, s.phase.d, pushed) && t.phase == Filling(s.phase.d)
    case EmitSample => SameRing(a, b) && b.rwPos == a.rwPos + 1
    case FillDone => b.lengths == a.lengths[s.phase.d := 4 * a.rwPos] && b.cut == a.cut && t.phase == Idle
    case DmaDone =>
      if a.cut[s.dma] then b.status == Passthrough else b == a && t.dma == if s.dma == 4 then 0 else s.dma + 1
  }

  lemma EventEffect(s: State, e: Event)
    requires Inv(s) && Enabled(s, e)
    ensures Inv(Next(s, e)) && Effect(s, e, Next(s, e))
  {
    InvNext(s, e);
  }

  /** In every run each event has its effect: stepping starts when it is asked for, with a callback set, and a request
      to stop, a reset, a cut descriptor at its end and a fill do what they are for. */
  lemma EffectsInRuns(s: State, es: seq<Event>, i: nat)
    requires Inv(s) && IsRun(s, es) && i < |es|
    ensures Effect(At(s, es, i), es[i], At(s, es, i + 1))
  {
    hide Next, Effect, Enabled;
    AtNext(s, es, i);
    EventEffect(At(s, es, i), es[i]);
  }

  // ----- stopping takes a bounded number of steps

  function One(b: bool): nat { if b then 1 else 0 }

  function Uncut(cut: seq<bool>): nat
    requires |cut| == BUFFERS
  {
    One(!cut[0]) + One(!cut[1]) + One(!cut[2]) + One(!cut[3]) + One(!cut[4])
  }

  /** Buffers the DMA still sends completely before it reaches one without a successor. */
  function Ahead(cut: seq<bool>, dma: nat): nat
    requires |cut| == BUFFERS && dma < BUFFERS
  {
    if cut[dma] then 0
    else if cut[Successor(dma)] then 1
    else if cut[Successor(Successor(dma))] then 2
    else if cut[Successor(Successor(Successor(dma)))] then 3
    else if cut[Successor(Successor(Successor(Successor(dma))))] then 4
    else BUFFERS
  }

  ghost predicate StaysWaiting(s: State, es: seq<Event>)
    requires Inv(s) && IsRun(s, es)
    decreases |es|
  {
    s.ring.status == Waiting
    && (es != [] ==> (InvNext(s, es[0]); StaysWaiting(Next(s, es[0]), es[1..])))
  }

  function Takes(es: seq<Event>): nat {
    if es == [] then 0 else One(es[0].TaskTake?) + Takes(es[1..])
  }

  function Dones(es: seq<Event>): nat {
    if es == [] then 0 else One(es[0] == DmaDone) + Dones(es[1..])
  }

  lemma WaitingStep(s: State, e: Event)
    requires Inv(s) && Enabled(s, e) && s.ring.status == Waiting && Next(s, e).ring.status == Waiting
    ensures var t := Next(s, e);
            match e
            case TaskTake(d) => !s.ring.cut[d] && t.ring.cut == s.ring.cut[d := true] && t.dma == s.dma
            case CallbackEnd(_) =>
              s.phase.InCallback? && s.phase.d < BUFFERS && t.ring.cut == s.ring.cut[s.phase.d := true] && t.dma == s.dma
            case DmaDone => t.ring.cut == s.ring.cut && !s.ring.cut[s.dma] && t.dma == Successor(s.dma)
            case _ => t.ring.cut == s.ring.cut && t.dma == s.dma
  {
  }

  lemma CutOne(cut: seq<bool>, d: nat, dma: nat)
    requires |cut| == BUFFERS && d < BUFFERS && dma < BUFFERS
    ensures Uncut(cut[d := true]) == Uncut(cut) - One(!cut[d])
    ensures Ahead(cut[d := true], dma) <= Ahead(cut, dma)
  {
  }

  lemma DmaCloser(cut: seq<bool>, dma: nat)
    requires |cut| == BUFFERS && dma < BUFFERS && !cut[dma] && Uncut(cut) < BUFFERS
    ensures Ahead(cut, Successor(dma)) == Ahead(cut, dma) - 1
  {
  }

  lemma WaitingCounts(s: State, e: Event)
    requires Inv(s) && Enabled(s, e) && s.ring.status == Waiting && Next(s, e).ring.status == Waiting
    ensures var t := Next(s, e);
            && Inv(t)
            && Uncut(t.ring.cut) + One(e.TaskTake?) <= Uncut(s.ring.cut)
            && (Uncut(s.ring.cut) < BUFFERS ==> Ahead(t.ring.cut, t.dma) + One(e == DmaDone) <= Ahead(s.ring.cut, s.dma))
  {
    InvNext(s, e);
    WaitingStep(s, e);
    hide Next, Enabled, Uncut, Ahead;
    match e
    case TaskTake(d) => CutOne(s.ring.cut, d, s.dma);
    case CallbackEnd(_) => CutOne(s.ring.cut, s.phase.d, s.dma);
    case DmaDone => if Uncut(s.ring.cut) < BUFFERS { DmaCloser(s.ring.cut, s.dma); }
    case _ =>
  }

  /** While the pulser waits, the bitstream task takes at most five descriptors, and once one is cut the DMA
      completes at most four more: then the status becomes Passthrough. */
  lemma {:induction false} WaitingEnds(s: State, es: seq<Event>)
    requires Inv(s) && IsRun(s, es) && StaysWaiting(s, es)
    ensures Takes(es) <= Uncut(s.ring.cut) <= BUFFERS
    ensures Uncut(s.ring.cut) < BUFFERS ==> Dones(es) <= Ahead(s.ring.cut, s.dma) < BUFFERS
    decreases |es|
  {
    if es != [] {
      WaitingCounts(s, es[0]);
      hide Next, Enabled;
      WaitingEnds(Next(s, es[0]), es[1..]);
    }
  }

  // ----- the fill loop as a run of events

  ghost function After(s: State, es: seq<Event>): (t: State)
    requires Inv(s) && IsRun(s, es)
    ensures Inv(t)
    decreases |es|
  {
    if es == [] then s else InvNext(s, es[0]); After(Next(s, es[0]), es[1..])
  }

  lemma Prepend(s: State, e: Event, es: seq<Event>)
    requires Inv(s) && Enabled(s, e) && Inv(Next(s, e)) && IsRun(Next(s, e), es)
    ensures IsRun(s, [e] + es) && After(s, [e] + es) == After(Next(s, e), es)
  {
    assert ([e] + es)[1..] == es;
  }

  /** One callback of the fill loop, with the calls of other tasks that explain the status it leaves. */
  function CallEvents(pushed: nat, after: Status): seq<Event> {
    [CallbackBegin] + ((if after == Stepping then [] else [SetPassthrough])
                       + ((if after == Passthrough then [Reset] else []) + [CallbackEnd(pushed)]))
  }

  function CallResult(s: State, pushed: nat, after: Status): State
    requires !s.phase.Idle? && s.phase.d < |s.ring.cut|
  {
    State(s.ring.(status := after, rwPos := if after == Passthrough then SAMPLE_COUNT else s.ring.rwPos + pushed,
                  cut := if after == Waiting then s.ring.cut[s.phase.d := true] else s.ring.cut),
          s.phase, s.dma, s.calls + 1)
  }

  /** The states between the events of a callback. */
  lemma CallStates(s: State, pushed: nat, after: Status) returns (s1: State, s2: State, s3: State)
    requires Inv(s) && Enabled(s, CallbackBegin) && pushed <= SAFE_COUNT + 1 && after != Stopped
    ensures s1 == Next(s, CallbackBegin) && Inv(s1)
    ensures after == Stepping ==> s2 == s1
    ensures after != Stepping ==> Enabled(s1, SetPassthrough) && s2 == Next(s1, SetPassthrough)
    ensures Inv(s2)
    ensures after != Passthrough ==> s3 == s2
    ensures after == Passthrough ==> Enabled(s2, Reset) && s3 == Next(s2, Reset)
    ensures Inv(s3) && Enabled(s3, CallbackEnd(pushed))
    ensures Next(s3, CallbackEnd(pushed)) == CallResult(s, pushed, after) && Inv(CallResult(s, pushed, after))
  {
    s1 := Next(s, CallbackBegin);
    InvNext(s, CallbackBegin);
    s2 := if after == Stepping then s1 else Next(s1, SetPassthrough);
    InvNext(s1, SetPassthrough);
    InvNext(s2, Reset);
    s3 := if after == Passthrough then Next(s2, Reset) else s2;
    InvNext(s3, CallbackEnd(pushed));
  }

  lemma CallIsRun(s: State, pushed: nat, after: Status, rest: seq<Event>)
    requires Inv(s) && Enabled(s, CallbackBegin) && pushed <= SAFE_COUNT + 1 && after != Stopped
    ensures var t := CallResult(s, pushed, after);
            && Inv(t)
            && (IsRun(t, rest) ==> IsRun(s, CallEvents(pushed, after) + rest)
                                   && After(s, CallEvents(pushed, after) + rest) == After(t, rest))
  {
    var s1, s2, s3 := CallStates(s, pushed, after);
    hide Inv, Enabled, Next, IsRun, After, CallResult, CallEvents;
    if IsRun(CallResult(s, pushed, after), rest) {
      var es3 := [CallbackEnd(pushed)] + rest;
      Prepend(s3, CallbackEnd(pushed), rest);
      var es2 := Optional(after == Passthrough, Reset) + es3;
      PrependIf(after == Passthrough, s2, Reset, s3, es3);
      var es1 := Optional(after != Stepping, SetPassthrough) + es2;
      PrependIf(after != Stepping, s1, SetPassthrough, s2, es2);
      Prepend(s, CallbackBegin, es1);
      CallEventsAre(pushed, after, rest);
    }
  }

  function Optional(b: bool, e: Event): seq<Event> {
    if b then [e] else []
  }

  lemma PrependIf(b: bool, s: State, e: Event, t: State, es: seq<Event>)
    requires Inv(s) && Inv(t) && IsRun(t, es) && (b ==> Enabled(s, e)) && t == if b then Next(s, e) else s
    ensures IsRun(s, Optional(b, e) + es) && After(s, Optional(b, e) + es) == After(t, es)
  {
    hide Inv, Enabled, Next, IsRun, After;
    if b {
      Prepend(s, e, es);
    } else {
      assert [] + es == es;
    }
  }

  lemma CallEventsAre(pushed: nat, after: Status, rest: seq<Event>)
    ensures CallEvents(pushed, after) + rest
      == [CallbackBegin] + (Optional(after != Stepping, SetPassthrough)
                            + (Optional(after == Passthrough, Reset) + ([CallbackEnd(pushed)] + rest)))
  {
  }

  /** Every fill is a run of the transition system: same position, status, callbacks and cut. */
  lemma {:induction false} FillIsRun(cfg: Config, w: World, g: Gen, s: State) returns (es: seq<Event>)
    requires ValidWorld(w) && Rounded(cfg)
    requires Inv(s) && s.phase.Filling? && s.ring.status == g.status && s.ring.rwPos == |g.out|
    ensures IsRun(s, es)
    ensures var f := Filled(cfg, w, g, 0); var t := After(s, es);
            && t.ring == s.ring.(status := f.gen.status, rwPos := if f.full then SAMPLE_COUNT else |f.gen.out|,
                                 cut := if g.status == Stepping && f.gen.status == Waiting
                                        then s.ring.cut[s.phase.d := true] else s.ring.cut)
            && t.phase == s.phase && t.calls - s.calls == f.gen.calls - g.calls
            && (g.status != Stepping ==> f.gen.status == g.status)
    decreases if |g.out| < FILL_LIMIT then FILL_LIMIT - |g.out| else 0,
              if g.remain < USEC_PER_SAMPLE then USEC_PER_SAMPLE - g.remain else 0
  {
    hide Pulse, PortAfter, CallEvents, Filled;
    FilledUnfold(cfg, w, g, 0);
    if |g.out| >= FILL_LIMIT {
      es := [];
    } else if Due(g) {
      var tick := w(g.calls);
      var n := |Pulse(cfg, tick.stepper, g.port)|;
      var t := CallResult(s, n, tick.after);
      CallIsRun(s, n, tick.after, []);
      var rest := [];
      if tick.after != Passthrough {
        rest := FillIsRun(cfg, w, Call(cfg, w, g), t);
      }
      CallIsRun(s, n, tick.after, rest);
      es := CallEvents(n, tick.after) + rest;
    } else {
      InvNext(s, EmitSample);
      var rest := FillIsRun(cfg, w, Emit(g), Next(s, EmitSample));
      es := [EmitSample] + rest;
      Prepend(s, EmitSample, rest);
    }
  }
}
