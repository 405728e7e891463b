/**
 The sample stream of the I2S step streamer, described without any buffers.

 A generator either emits the resting port value for one 4 microsecond sample or, when less than
 one sample of time credit is left, runs the pulse callback.  `Filled` cuts that stream into DMA
 buffers the way the firmware does; the theorems say where every pulse lands and that the cuts
 change nothing.
 */
module StepTimeline {

  const USEC_PER_SAMPLE: nat := 4
  const SAMPLE_COUNT: nat := 500
  const SAFE_COUNT: nat := 5
  const FILL_LIMIT: nat := SAMPLE_COUNT - SAFE_COUNT
  const MAX_PERIOD: nat := 0xFFFF_FFFC

  datatype Status = Passthrough | Stepping | Waiting | Stopped

  /** Rounded pulse lengths, and the port bits driven by the step and direction outputs. */
  datatype Config = Config(delaySamples: nat, stepSamples: nat, dirMask: bv32, stepMask: bv32, stepIdle: bv32)

  /** The part of `stepper_t` the pulse driver reads; the images are the output bits on the port. */
  datatype Stepper = Stepper(dirChanged: bool, dirImage: bv32, stepping: bool, stepImage: bv32)

  /** One run of the pulse callback: what it steps, and the pulse period and status it leaves. */
  datatype Tick = Tick(stepper: Stepper, period: nat, after: Status)

  /** The k-th callback of a run does `w(k)`. */
  type World = nat -> Tick

  /** The callback contract: it leaves a pulse period of at least 1, small enough that adding it to
      less than one sample of time credit stays within 32 bits, and a pulser that has been started. */
  ghost predicate ValidWorld(w: World) {
    forall k: nat :: 1 <= w(k).period <= MAX_PERIOD && w(k).after != Stopped
  }

  /** The lengths that the settings code can produce. */
  predicate Rounded(cfg: Config) {
    1 <= cfg.delaySamples <= 2 && 1 <= cfg.stepSamples <= 4
  }

  // ----- what one callback pushes

  function SetOutputs(mask: bv32, image: bv32, port: bv32): bv32 {
    (port & !mask) | (image & mask)
  }

  function DirPort(cfg: Config, s: Stepper, port: bv32): bv32 {
    if s.dirChanged then SetOutputs(cfg.dirMask, s.dirImage, port) else port
  }

  /** Number of samples written by one push; too long a request writes none, zero writes one. */
  function PushCount(num: nat): nat {
    if num > SAFE_COUNT then 0 else if num == 0 then 1 else num
  }

  function Copies(n: nat, v: bv32): (s: seq<bv32>)
    ensures |s| == n && forall i :: 0 <= i < n ==> s[i] == v
  {
    seq(n, _ => v)
  }

  function Pulse(cfg: Config, s: Stepper, port: bv32): (r: seq<bv32>)
    ensures Rounded(cfg) ==> |r| <= SAFE_COUNT + 1
    ensures !s.stepping ==> r == []
  {
    var p := DirPort(cfg, s, port);
    if !s.stepping then []
    else
      (if s.dirChanged then Copies(PushCount(cfg.delaySamples), p) else [])
      + Copies(PushCount(cfg.stepSamples), SetOutputs(cfg.stepMask, s.stepImage, p))
  }

  function PortAfter(cfg: Config, s: Stepper, port: bv32): bv32 {
    var p := DirPort(cfg, s, port);
    if s.stepping then SetOutputs(cfg.stepMask, cfg.stepIdle, SetOutputs(cfg.stepMask, s.stepImage, p)) else p
  }

  /** Time credit granted for a callback that pushed n samples. */
  function Credit(period: nat, n: nat): nat {
    if period >= USEC_PER_SAMPLE * n then period else USEC_PER_SAMPLE * n + USEC_PER_SAMPLE
  }

  // ----- the unbuffered generator

  datatype Gen = Gen(remain: nat, port: bv32, status: Status, calls: nat, out: seq<bv32>)

  predicate Due(g: Gen) {
    g.remain < USEC_PER_SAMPLE && g.status == Stepping
  }

  function Call(cfg: Config, w: World, g: Gen): Gen {
    var t := w(g.calls);
    var pulse := Pulse(cfg, t.stepper, g.port);
    Gen(g.remain + (Credit(t.period, |pulse|) - USEC_PER_SAMPLE * |pulse|),
        PortAfter(cfg, t.stepper, g.port), t.after, g.calls + 1, g.out + pulse)
  }

  function Emit(g: Gen): Gen {
    g.(remain := if g.remain >= USEC_PER_SAMPLE then g.remain - USEC_PER_SAMPLE else 0, out := g.out + [g.port])
  }

  function Iterate(cfg: Config, w: World, g: Gen): Gen {
    if Due(g) then Call(cfg, w, g) else Emit(g)
  }

  function Run(cfg: Config, w: World, g: Gen, k: nat): Gen {
    if k == 0 then g else Iterate(cfg, w, Run(cfg, w, g, k - 1))
  }

  // ----- one DMA buffer: iterate from stream position `base` until the fill limit

  /** `full` tells that the loop was left because the status had become Passthrough. */
  datatype Fill = Fill(gen: Gen, full: bool)

  function Filled(cfg: Config, w: World, g: Gen, base: nat): (f: Fill)
    requires ValidWorld(w) && base <= |g.out|
    ensures |g.out| <= |f.gen.out|
    ensures f.full ==> f.gen.status == Passthrough
    decreases if |g.out| < base + FILL_LIMIT then base + FILL_LIMIT - |g.out| else 0,
              if g.remain < USEC_PER_SAMPLE then USEC_PER_SAMPLE - g.remain else 0
  {
    if |g.out| - base >= FILL_LIMIT then Fill(g, false)
    else if Due(g) && w(g.calls).after == Passthrough then Fill(Call(cfg, w, g).(remain := 0), true)
    else Filled(cfg, w, Iterate(cfg, w, g), base)
  }

  lemma FilledUnfold(cfg: Config, w: World, g: Gen, base: nat)
    requires ValidWorld(w) && base <= |g.out|
    ensures Filled(cfg, w, g, base) ==
            if |g.out| - base >= FILL_LIMIT then Fill(g, false)
            else if Due(g) && w(g.calls).after == Passthrough then Fill(Call(cfg, w, g).(remain := 0), true)
            else Filled(cfg, w, Iterate(cfg, w, g), base)
  {
  }

  /** Every round pushes a sample, or it gains time credit that is missing. */
  lemma Progress(cfg: Config, w: World, g: Gen)
    requires ValidWorld(w)
    ensures var it := Iterate(cfg, w, g);
      |it.out| > |g.out| || (|it.out| == |g.out| && g.remain < USEC_PER_SAMPLE && g.remain < it.remain)
  {
    hide Pulse, PortAfter;
  }

  /** A published buffer is short by at most the safety margin and never longer than the DMA buffer. */
  lemma {:induction false} FilledBound(cfg: Config, w: World, g: Gen, base: nat)
    requires ValidWorld(w) && Rounded(cfg) && base <= |g.out| <= base + SAMPLE_COUNT
    ensures var f := Filled(cfg, w, g, base);
            g.out <= f.gen.out && |f.gen.out| <= base + SAMPLE_COUNT
            && (!f.full ==> base + FILL_LIMIT <= |f.gen.out|)
    decreases if |g.out| < base + FILL_LIMIT then base + FILL_LIMIT - |g.out| else 0,
              if g.remain < USEC_PER_SAMPLE then USEC_PER_SAMPLE - g.remain else 0
  {
    if |g.out| - base >= FILL_LIMIT {
    } else if Due(g) && w(g.calls).after == Passthrough {
    } else {
      FilledBound(cfg, w, Iterate(cfg, w, g), base);
    }
  }

  /** What was emitted last is the pulse of the callback that state d ran, and nothing behind it. */
  predicate EndsWithPulse(cfg: Config, w: World, d: Gen, g: Gen) {
    var s := w(d.calls).stepper;
    g.out == d.out + Pulse(cfg, s, d.port) && g.port == PortAfter(cfg, s, d.port)
  }

  /** A fill is cut short exactly if a callback has left Passthrough; then it ends with that callback's pulse and no
      time credit is kept. */
  lemma {:induction false} CutShortByReset(cfg: Config, w: World, g: Gen, base: nat)
    requires ValidWorld(w) && base <= |g.out| && g.status == Stepping
    ensures var f := Filled(cfg, w, g, base);
      && (f.full <==> f.gen.status == Passthrough)
      && (f.full ==> f.gen.remain == 0 && f.gen.calls > g.calls
                     && exists d: Gen :: d.calls + 1 == f.gen.calls && EndsWithPulse(cfg, w, d, f.gen))
    decreases if |g.out| < base + FILL_LIMIT then base + FILL_LIMIT - |g.out| else 0,
              if g.remain < USEC_PER_SAMPLE then USEC_PER_SAMPLE - g.remain else 0
  {
    hide Filled, Pulse, PortAfter, Credit;
    FilledUnfold(cfg, w, g, base);
    if |g.out| - base < FILL_LIMIT {
      if Due(g) && w(g.calls).after == Passthrough {
        assert EndsWithPulse(cfg, w, g, Call(cfg, w, g).(remain := 0));
      } else {
        Progress(cfg, w, g);
        var h := Iterate(cfg, w, g);
        if h.status == Stepping {
          CutShortByReset(cfg, w, h, base);
        } else {
          NotCutShort(cfg, w, h, base);
        }
      }
    }
  }

  lemma {:induction false} NotCutShort(cfg: Config, w: World, g: Gen, base: nat)
    requires ValidWorld(w) && base <= |g.out| && g.status != Stepping
    ensures var f := Filled(cfg, w, g, base); !f.full && f.gen.status == g.status
    decreases if |g.out| < base + FILL_LIMIT then base + FILL_LIMIT - |g.out| else 0
  {
    hide Filled;
    FilledUnfold(cfg, w, g, base);
    if |g.out| - base < FILL_LIMIT {
      NotCutShort(cfg, w, Emit(g), base);
    }
  }

  /** The bound is tight: with the longest pulses, a fill that meets a step with a direction change
      at the last admissible position ends exactly at the end of the buffer. */
  lemma {:induction false} FilledTight(cfg: Config, w: World, g: Gen, base: nat)
    requires ValidWorld(w) && cfg.delaySamples == 2 && cfg.stepSamples == 4
    requires g.status == Stepping && w(g.calls).stepper.dirChanged && w(g.calls).stepper.stepping
    requires w(g.calls).after != Passthrough
    requires base <= |g.out| < base + FILL_LIMIT
    requires g.remain == USEC_PER_SAMPLE * (base + FILL_LIMIT - 1 - |g.out|)
    ensures |Filled(cfg, w, g, base).gen.out| == base + SAMPLE_COUNT
    decreases base + FILL_LIMIT - |g.out|
  {
    if !Due(g) {
      FilledTight(cfg, w, Emit(g), base);
    }
  }

  // ----- where the pulses of a stepping run land

  /** The port value before callback c, when the run starts with port value p. */
  function PortAt(cfg: Config, w: World, p: bv32, c: nat): bv32 {
    if c == 0 then p else PortAfter(cfg, w(c - 1).stepper, PortAt(cfg, w, p, c - 1))
  }

  function PulseAt(cfg: Config, w: World, p: bv32, c: nat): seq<bv32> {
    Pulse(cfg, w(c).stepper, PortAt(cfg, w, p, c))
  }

  /** Sum of the credits of the first c callbacks. */
  function Credits(cfg: Config, w: World, p: bv32, c: nat): nat {
    if c == 0 then 0
    else Credits(cfg, w, p, c - 1) + Credit(w(c - 1).period, |PulseAt(cfg, w, p, c - 1)|)
  }

  /** The absolute sample index of callback c: its ideal time, rounded down to a sample. */
  function Start(cfg: Config, w: World, r: nat, p: bv32, c: nat): nat {
    (r + Credits(cfg, w, p, c)) / USEC_PER_SAMPLE
  }

  /** The first index after callback c's pulse. */
  function End(cfg: Config, w: World, r: nat, p: bv32, c: nat): nat {
    Start(cfg, w, r, p, c) + |PulseAt(cfg, w, p, c)|
  }

  /** Pulses of different callbacks keep their order and never overlap. */
  lemma {:induction false} PulsesOrdered(cfg: Config, w: World, r: nat, p: bv32, c: nat, d: nat)
    requires c < d
    ensures End(cfg, w, r, p, c) <= Start(cfg, w, r, p, d)
    decreases d - c
  {
    hide Pulse, PortAfter;
    NextStart(cfg, w, r, p, c);
    if c + 1 < d {
      PulsesOrdered(cfg, w, r, p, c + 1, d);
    }
  }

  lemma NextStart(cfg: Config, w: World, r: nat, p: bv32, c: nat)
    ensures Start(cfg, w, r, p, c + 1) >= End(cfg, w, r, p, c)
  {
    hide Pulse, PortAfter;
    var n := |PulseAt(cfg, w, p, c)|;
    assert Credits(cfg, w, p, c + 1) == Credits(cfg, w, p, c) + Credit(w(c).period, n);
  }

  /** From one callback to the next: a callback that asks for less time than its pulse takes is followed one sample
      behind the pulse, any other after the period it asks for, to less than one sample. */
  lemma Interval(cfg: Config, w: World, r: nat, p: bv32, c: nat)
    ensures var n, gap := |PulseAt(cfg, w, p, c)|, Start(cfg, w, r, p, c + 1) - Start(cfg, w, r, p, c);
      if w(c).period < 4 * n then gap == n + 1 else w(c).period - 4 < 4 * gap < w(c).period + 4
  {
    hide Pulse, PortAfter;
    var n := |PulseAt(cfg, w, p, c)|;
    assert Credits(cfg, w, p, c + 1) == Credits(cfg, w, p, c) + Credit(w(c).period, n);
  }

  /** The ideal stream up to callback c: every pulse at its start index, the resting port between. */
  function Ideal(cfg: Config, w: World, r: nat, p: bv32, c: nat): (s: seq<bv32>)
    ensures |s| == Start(cfg, w, r, p, c)
  {
    if c == 0 then Copies(Start(cfg, w, r, p, 0), p)
    else
      NextStart(cfg, w, r, p, c - 1);
      Ideal(cfg, w, r, p, c - 1) + PulseAt(cfg, w, p, c - 1)
      + Copies(Start(cfg, w, r, p, c) - End(cfg, w, r, p, c - 1), PortAt(cfg, w, p, c))
  }

  /** In the ideal stream, callback c's pulse begins at index Start(c), |Ideal(c)| that is ... */
  lemma {:induction false} IdealPulse(cfg: Config, w: World, r: nat, p: bv32, c: nat, d: nat)
    requires c < d
    ensures Ideal(cfg, w, r, p, c) + PulseAt(cfg, w, p, c) <= Ideal(cfg, w, r, p, d)
  {
    hide *;
    IdealGrows(cfg, w, r, p, d - 1);
    if c < d - 1 {
      IdealPulse(cfg, w, r, p, c, d - 1);
    }
  }

  lemma IdealGrows(cfg: Config, w: World, r: nat, p: bv32, c: nat)
    ensures Ideal(cfg, w, r, p, c) + PulseAt(cfg, w, p, c) <= Ideal(cfg, w, r, p, c + 1)
  {
    hide Pulse, PortAfter;
  }

  /** ... and every sample between the pulses of callbacks c and c + 1 is the port left by callback c. */
  lemma {:induction false} IdealRest(cfg: Config, w: World, r: nat, p: bv32, c: nat, d: nat)
    requires c < d
    ensures Ideal(cfg, w, r, p, c) + PulseAt(cfg, w, p, c)
            + Copies(RestLength(cfg, w, r, p, c), PortAt(cfg, w, p, c + 1))
            <= Ideal(cfg, w, r, p, d)
  {
    hide *;
    IdealNext(cfg, w, r, p, c);
    if c < d - 1 {
      IdealRest(cfg, w, r, p, c, d - 1);
      IdealGrows(cfg, w, r, p, d - 1);
    }
  }

  function RestLength(cfg: Config, w: World, r: nat, p: bv32, c: nat): nat {
    NextStart(cfg, w, r, p, c);
    Start(cfg, w, r, p, c + 1) - End(cfg, w, r, p, c)
  }

  lemma IdealNext(cfg: Config, w: World, r: nat, p: bv32, c: nat)
    ensures Ideal(cfg, w, r, p, c) + PulseAt(cfg, w, p, c)
            + Copies(RestLength(cfg, w, r, p, c), PortAt(cfg, w, p, c + 1))
            == Ideal(cfg, w, r, p, c + 1)
  {
    hide Pulse, PortAfter;
  }

  /** The state of a run that is still stepping: time accounted for to the microsecond, and the
      samples emitted are a prefix of the ideal stream that ends between two pulses. */
  ghost predicate OnTime(cfg: Config, w: World, r: nat, p: bv32, g: Gen) {
    && USEC_PER_SAMPLE * |g.out| + g.remain == r + Credits(cfg, w, p, g.calls)
    && g.port == PortAt(cfg, w, p, g.calls)
    && (g.calls > 0 ==> End(cfg, w, r, p, g.calls - 1) <= |g.out|)
    && g.out <= Ideal(cfg, w, r, p, g.calls)
  }

  lemma CallOnTime(cfg: Config, w: World, r: nat, p: bv32, g: Gen)
    requires OnTime(cfg, w, r, p, g) && Due(g)
    ensures |g.out| == Start(cfg, w, r, p, g.calls)
    ensures OnTime(cfg, w, r, p, Call(cfg, w, g))
  {
    hide Pulse, PortAfter;
    assert g.out == Ideal(cfg, w, r, p, g.calls);
    NextStart(cfg, w, r, p, g.calls);
  }

  lemma EmitOnTime(cfg: Config, w: World, r: nat, p: bv32, g: Gen)
    requires OnTime(cfg, w, r, p, g) && !Due(g) && g.status == Stepping
    ensures OnTime(cfg, w, r, p, Emit(g))
  {
    hide Pulse, PortAfter;
  }

  /** The state of a run that has left Stepping in its last callback: every pulse up to that of the last
      callback is where the ideal stream has it, complete, and only the port it left follows. */
  ghost predicate Ended(cfg: Config, w: World, r: nat, p: bv32, g: Gen) {
    && g.calls > 0 && g.port == PortAt(cfg, w, p, g.calls)
    && (var last := End(cfg, w, r, p, g.calls - 1);
        last <= |g.out|
        && g.out == Ideal(cfg, w, r, p, g.calls - 1) + PulseAt(cfg, w, p, g.calls - 1) + Copies(|g.out| - last, g.port))
    && (var credit := r + Credits(cfg, w, p, g.calls);
        g.remain == if credit > USEC_PER_SAMPLE * |g.out| then credit - USEC_PER_SAMPLE * |g.out| else 0)
  }

  /** What holds of every run, still stepping or not. */
  ghost predicate Timely(cfg: Config, w: World, r: nat, p: bv32, g: Gen) {
    if g.status == Stepping then OnTime(cfg, w, r, p, g) else Ended(cfg, w, r, p, g)
  }

  lemma CallEnds(cfg: Config, w: World, r: nat, p: bv32, g: Gen)
    requires OnTime(cfg, w, r, p, g) && Due(g)
    ensures Ended(cfg, w, r, p, Call(cfg, w, g))
  {
    hide Pulse, PortAfter;
    assert g.out == Ideal(cfg, w, r, p, g.calls);
  }

  lemma EmitEnded(cfg: Config, w: World, r: nat, p: bv32, g: Gen)
    requires Ended(cfg, w, r, p, g)
    ensures Ended(cfg, w, r, p, Emit(g))
  {
    hide Pulse, PortAfter, PortAt, Ideal, PulseAt, Credits, Start, End;
    var last := End(cfg, w, r, p, g.calls - 1);
    assert Copies(|g.out| - last, g.port) + [g.port] == Copies(|g.out| + 1 - last, g.port);
  }

  /** No drift: however long a run has been going, and whether or not it is still stepping, the samples emitted are
      the ideal stream up to the last callback. */
  lemma {:induction false} NoDrift(cfg: Config, w: World, r: nat, p: bv32, k: nat)
    ensures Timely(cfg, w, r, p, Run(cfg, w, Gen(r, p, Stepping, 0, []), k))
  {
    if k > 0 {
      hide OnTime, Ended, Pulse, PortAfter, Credit;
      NoDrift(cfg, w, r, p, k - 1);
      TimelyNext(cfg, w, r, p, Run(cfg, w, Gen(r, p, Stepping, 0, []), k - 1));
    } else {
      hide Ended, Pulse, PortAfter, Credit;
    }
  }

  lemma TimelyNext(cfg: Config, w: World, r: nat, p: bv32, g: Gen)
    requires Timely(cfg, w, r, p, g)
    ensures Timely(cfg, w, r, p, Iterate(cfg, w, g))
  {
    hide OnTime, Ended, Pulse, PortAfter, Credit;
    if g.status != Stepping {
      EmitEnded(cfg, w, r, p, g);
    } else if Due(g) {
      CallOnTime(cfg, w, r, p, g);
      CallEnds(cfg, w, r, p, g);
    } else {
      EmitOnTime(cfg, w, r, p, g);
    }
  }

  // ----- cutting the stream into buffers

  /** What was emitted before a buffer has no influence on how the buffer is filled. */
  lemma {:induction false} FilledShift(cfg: Config, w: World, g: Gen, base: nat, pre: seq<bv32>)
    requires ValidWorld(w) && base <= |g.out|
    ensures var f := Filled(cfg, w, g, base);
            Filled(cfg, w, g.(out := pre + g.out), |pre| + base) == f.(gen := f.gen.(out := pre + f.gen.out))
    decreases if |g.out| < base + FILL_LIMIT then base + FILL_LIMIT - |g.out| else 0,
              if g.remain < USEC_PER_SAMPLE then USEC_PER_SAMPLE - g.remain else 0
  {
    hide Pulse, PortAfter, Credit;
    if |g.out| - base < FILL_LIMIT {
      CallShift(cfg, w, g, pre);
      Progress(cfg, w, g);
      if !(Due(g) && w(g.calls).after == Passthrough) {
        FilledShift(cfg, w, Iterate(cfg, w, g), base, pre);
      }
    }
  }

  lemma CallShift(cfg: Config, w: World, g: Gen, pre: seq<bv32>)
    ensures Call(cfg, w, g.(out := pre + g.out)) == Call(cfg, w, g).(out := pre + Call(cfg, w, g).out)
    ensures Emit(g.(out := pre + g.out)) == Emit(g).(out := pre + Emit(g).out)
  {
    hide Pulse, PortAfter, Credit;
    assert pre + g.out + Pulse(cfg, w(g.calls).stepper, g.port) == pre + (g.out + Pulse(cfg, w(g.calls).stepper, g.port));
    assert pre + g.out + [g.port] == pre + (g.out + [g.port]);
  }

  lemma {:induction false} RunComposes(cfg: Config, w: World, g: Gen, a: nat, b: nat)
    ensures Run(cfg, w, Run(cfg, w, g, a), b) == Run(cfg, w, g, a + b)
  {
    hide Iterate;
    if b > 0 {
      RunComposes(cfg, w, g, a, b - 1);
    }
  }

  lemma RunOne(cfg: Config, w: World, g: Gen)
    ensures Run(cfg, w, g, 1) == Iterate(cfg, w, g)
  {
    hide Iterate;
    assert Run(cfg, w, g, 0) == g;
  }

  /** Filling a buffer only runs the generator: nothing is added, dropped or reordered at its end; only the time
      credit is given up when the loop is left because of a reset. */
  lemma {:induction false} FilledIsRun(cfg: Config, w: World, g: Gen, base: nat) returns (k: nat)
    requires ValidWorld(w) && base <= |g.out|
    ensures var f := Filled(cfg, w, g, base);
      f.gen == if f.full then Run(cfg, w, g, k).(remain := 0) else Run(cfg, w, g, k)
    ensures Filled(cfg, w, g, base).full ==> Run(cfg, w, g, k).status == Passthrough
    decreases if |g.out| < base + FILL_LIMIT then base + FILL_LIMIT - |g.out| else 0,
              if g.remain < USEC_PER_SAMPLE then USEC_PER_SAMPLE - g.remain else 0
  {
    hide Filled, Pulse, PortAfter, Credit;
    FilledUnfold(cfg, w, g, base);
    if |g.out| - base >= FILL_LIMIT {
      k := 0;
    } else if Due(g) && w(g.calls).after == Passthrough {
      k := 1;
      RunOne(cfg, w, g);
    } else {
      hide Iterate;
      Progress(cfg, w, g);
      var rest := FilledIsRun(cfg, w, Iterate(cfg, w, g), base);
      RunOne(cfg, w, g);
      RunComposes(cfg, w, g, 1, rest);
      k := 1 + rest;
    }
  }

  /** Up to n buffers filled one after the other, until the pulser leaves Stepping. `cuts` are the stream indices of
      the buffer boundaries, `lengths` the published lengths in samples: a buffer whose fill a reset has cut short is
      published as full. */
  datatype Session = Session(gen: Gen, cuts: seq<nat>, lengths: seq<nat>, full: bool)

  predicate Over(s: Session) {
    s.full || s.gen.status != Stepping
  }

  function Buffers(cfg: Config, w: World, g: Gen, n: nat): (s: Session)
    requires ValidWorld(w)
    ensures |s.cuts| == |s.lengths| + 1 && s.cuts[|s.lengths|] == |s.gen.out|
    ensures |s.lengths| <= n && (!Over(s) ==> |s.lengths| == n)
  {
    if n == 0 then Session(g, [|g.out|], [], false)
    else Extended(cfg, w, Buffers(cfg, w, g, n - 1))
  }

  /** The session with one more buffer, if it still goes on. */
  function Extended(cfg: Config, w: World, s: Session): (t: Session)
    requires ValidWorld(w)
    ensures Over(s) ==> t == s
  {
    if Over(s) then s else Added(s, Filled(cfg, w, s.gen, |s.gen.out|))
  }

  /** The session with one more buffer. */
  function Added(s: Session, f: Fill): Session
    requires |s.gen.out| <= |f.gen.out|
  {
    var length := if f.full then SAMPLE_COUNT else |f.gen.out| - |s.gen.out|;
    Session(f.gen, s.cuts + [|f.gen.out|], s.lengths + [length], f.full)
  }

  /** The pulse of callback c does not reach across stream index `cut`. */
  predicate Unsplit(cfg: Config, w: World, r: nat, p: bv32, cut: nat, c: nat) {
    End(cfg, w, r, p, c) <= cut || cut <= Start(cfg, w, r, p, c)
  }

  /** No pulse of any callback, past or future, reaches across stream index `cut`. */
  ghost predicate SplitsNoPulse(cfg: Config, w: World, r: nat, p: bv32, cut: nat) {
    forall c: nat :: Unsplit(cfg, w, r, p, cut, c)
  }

  lemma OnTimeSplitsNoPulse(cfg: Config, w: World, r: nat, p: bv32, g: Gen)
    requires OnTime(cfg, w, r, p, g)
    ensures SplitsNoPulse(cfg, w, r, p, |g.out|)
  {
    OnTimeBetween(cfg, w, r, p, g);
    hide OnTime, Start, End;
    forall c: nat ensures Unsplit(cfg, w, r, p, |g.out|, c) {
      SplitsNotThis(cfg, w, r, p, g.calls, |g.out|, c);
    }
  }

  lemma SplitsNotThis(cfg: Config, w: World, r: nat, p: bv32, calls: nat, cut: nat, c: nat)
    requires cut <= Start(cfg, w, r, p, calls)
    requires calls > 0 ==> End(cfg, w, r, p, calls - 1) <= cut
    ensures Unsplit(cfg, w, r, p, cut, c)
  {
    hide Start, End;
    if c < calls {
      PulsesMonotone(cfg, w, r, p, c, calls - 1);
    } else {
      PulsesMonotone(cfg, w, r, p, calls, c);
    }
  }

  /** The end of an ended run splits none of its pulses either. */
  lemma EndedIsUnsplit(cfg: Config, w: World, r: nat, p: bv32, g: Gen, c: nat)
    requires Ended(cfg, w, r, p, g) && c < g.calls
    ensures Unsplit(cfg, w, r, p, |g.out|, c)
  {
    hide Pulse, PortAfter, Start, End, Credits, Ideal, PulseAt, PortAt;
    PulsesMonotone(cfg, w, r, p, c, g.calls - 1);
  }

  lemma PulsesMonotone(cfg: Config, w: World, r: nat, p: bv32, c: nat, d: nat)
    requires c <= d
    ensures End(cfg, w, r, p, c) <= End(cfg, w, r, p, d)
    ensures Start(cfg, w, r, p, c) <= Start(cfg, w, r, p, d)
  {
    hide Start, PulseAt;
    if c < d { PulsesOrdered(cfg, w, r, p, c, d); }
  }

  lemma OnTimeBetween(cfg: Config, w: World, r: nat, p: bv32, g: Gen)
    requires OnTime(cfg, w, r, p, g)
    ensures |g.out| <= Start(cfg, w, r, p, g.calls)
    ensures g.calls > 0 ==> End(cfg, w, r, p, g.calls - 1) <= |g.out|
  {
    hide Pulse, PortAfter, Start, End, Credits;
  }

  /** Every boundary of the session leaves the pulses of all its callbacks whole; while it is stepping, those to come
      as well. */
  ghost predicate CutsClear(cfg: Config, w: World, r: nat, p: bv32, s: Session) {
    forall i {:trigger s.cuts[i]} :: 0 <= i < |s.cuts| ==>
      if Over(s) then (forall c: nat :: c < s.gen.calls ==> Unsplit(cfg, w, r, p, s.cuts[i], c))
      else SplitsNoPulse(cfg, w, r, p, s.cuts[i])
  }

  /** Every published length is 495 to 500 samples and exactly what was written, but for a last one that a reset has
      cut short. */
  ghost predicate LengthsRight(s: Session) {
    && |s.cuts| == |s.lengths| + 1
    && (s.full ==> s.lengths != [])
    && forall i :: 0 <= i < |s.lengths| ==>
         && FILL_LIMIT <= s.lengths[i] <= SAMPLE_COUNT
         && (if s.full && i == |s.lengths| - 1 then
               s.lengths[i] == SAMPLE_COUNT && s.cuts[i] <= s.cuts[i + 1] <= s.cuts[i] + s.lengths[i]
             else s.cuts[i + 1] == s.cuts[i] + s.lengths[i])
  }

  lemma AddedLengths(s: Session, f: Fill)
    requires LengthsRight(s) && !Over(s) && s.cuts[|s.lengths|] == |s.gen.out|
    requires |s.gen.out| <= |f.gen.out| <= |s.gen.out| + SAMPLE_COUNT
    requires !f.full ==> |s.gen.out| + FILL_LIMIT <= |f.gen.out|
    ensures LengthsRight(Added(s, f))
  {
  }

  lemma AddedCuts(cfg: Config, w: World, r: nat, p: bv32, s: Session, f: Fill, g: Gen)
    requires CutsClear(cfg, w, r, p, s) && !Over(s) && Timely(cfg, w, r, p, g)
    requires g.out == f.gen.out && g.calls == f.gen.calls && g.status == f.gen.status
    requires |s.gen.out| <= |f.gen.out| && (f.full ==> g.status != Stepping)
    ensures CutsClear(cfg, w, r, p, Added(s, f))
  {
    hide OnTime, Ended, Unsplit;
    var t := Added(s, f);
    if g.status == Stepping {
      OnTimeSplitsNoPulse(cfg, w, r, p, g);
    } else {
      forall c: nat | c < g.calls
        ensures Unsplit(cfg, w, r, p, |g.out|, c)
      {
        EndedIsUnsplit(cfg, w, r, p, g, c);
      }
    }
    forall i | 0 <= i < |t.cuts| && i < |s.cuts|
      ensures SplitsNoPulse(cfg, w, r, p, t.cuts[i])
    {
      assert t.cuts[i] == s.cuts[i];
    }
  }

  /**
   The theorem of the step streamer.  From any time credit and port, for any callbacks and any number of buffers,
   up to and including the one in which the pulser is stopped or reset: the buffers carry the ideal stream, so each
   callback's pulse starts at its ideal time rounded down to a sample and the rounding never accumulates; every
   buffer is published with 495 to 500 samples, exactly those written; and no pulse is split between two buffers.
   */
  lemma {:induction false} BufferedNoDrift(cfg: Config, w: World, r: nat, p: bv32, n: nat) returns (k: nat)
    requires ValidWorld(w) && Rounded(cfg)
    ensures var s := Buffers(cfg, w, Gen(r, p, Stepping, 0, []), n);
            var g := Run(cfg, w, Gen(r, p, Stepping, 0, []), k);
            && s.gen == (if s.full then g.(remain := 0) else g)
            && (s.full ==> g.status == Passthrough)
            && Timely(cfg, w, r, p, g)
            && LengthsRight(s)
            && CutsClear(cfg, w, r, p, s)
  {
    hide Pulse, PortAfter, Credit, Iterate, Filled, OnTime, Ended, Timely, Rounded, LengthsRight, CutsClear;
    var g0 := Gen(r, p, Stepping, 0, []);
    k := 0;
    if n > 0 {
      k := BufferedNoDrift(cfg, w, r, p, n - 1);
      var before := Buffers(cfg, w, g0, n - 1);
      if !Over(before) {
        var f := Filled(cfg, w, before.gen, |before.gen.out|);
        FilledBound(cfg, w, before.gen, |before.gen.out|);
        AddedLengths(before, f);
        var rest := FilledIsRun(cfg, w, before.gen, |before.gen.out|);
        hide Run;
        RunComposes(cfg, w, g0, k, rest);
        k := k + rest;
        NoDrift(cfg, w, r, p, k);
        AddedCuts(cfg, w, r, p, before, f, Run(cfg, w, g0, k));
      }
    } else {
      NoDrift(cfg, w, r, p, 0);
      EmptySession(cfg, w, r, p);
    }
  }

  lemma EmptySession(cfg: Config, w: World, r: nat, p: bv32)
    requires ValidWorld(w)
    ensures var s := Buffers(cfg, w, Gen(r, p, Stepping, 0, []), 0);
      LengthsRight(s) && CutsClear(cfg, w, r, p, s) && s.gen == Run(cfg, w, Gen(r, p, Stepping, 0, []), 0)
  {
    hide Start, End;
  }

  // ----- one buffer at a time

  lemma BuffersUnfold(cfg: Config, w: World, g: Gen, n: nat)
    requires ValidWorld(w)
    ensures Buffers(cfg, w, g, 0) == Session(g, [|g.out|], [], false)
    ensures n > 0 ==> Buffers(cfg, w, g, n) == Extended(cfg, w, Buffers(cfg, w, g, n - 1))
  {
    hide Filled, Added, Over;
  }

  /** A session goes on by filling one more buffer on its own. */
  lemma BuffersNext(cfg: Config, w: World, g: Gen, n: nat)
    requires ValidWorld(w) && !Over(Buffers(cfg, w, g, n))
    ensures var s := Buffers(cfg, w, g, n);
            var f := Filled(cfg, w, s.gen.(out := []), 0);
            Buffers(cfg, w, g, n + 1) == Added(s, f.(gen := f.gen.(out := s.gen.out + f.gen.out)))
  {
    hide Filled;
    var s := Buffers(cfg, w, g, n);
    FilledShift(cfg, w, s.gen.(out := []), 0, s.gen.out);
    assert s.gen == s.gen.(out := s.gen.out + []);
  }

  /** The callbacks from number c on. */
  function From(w: World, c: nat): World {
    (k: nat) => w(c + k)
  }

  lemma FromValid(w: World, c: nat)
    requires ValidWorld(w)
    ensures ValidWorld(From(w, c))
  {
  }

  function Later(g: Gen, c: nat): (r: Gen)
    ensures (r.remain, r.port, r.status, r.out) == (g.remain, g.port, g.status, g.out)
  {
    g.(calls := c + g.calls)
  }

  lemma IterateFrom(cfg: Config, w: World, g: Gen, c: nat)
    ensures Call(cfg, w, Later(g, c)) == Later(Call(cfg, From(w, c), g), c)
    ensures Iterate(cfg, w, Later(g, c)) == Later(Iterate(cfg, From(w, c), g), c)
    ensures w(Later(g, c).calls) == From(w, c)(g.calls)
  {
    hide Pulse, PortAfter, Credit;
  }

  function FillLater(f: Fill, c: nat): Fill {
    f.(gen := Later(f.gen, c))
  }

  lemma {:induction false} FilledFrom(cfg: Config, w: World, g: Gen, base: nat, c: nat)
    requires ValidWorld(w) && ValidWorld(From(w, c)) && base <= |g.out|
    ensures Filled(cfg, w, Later(g, c), base) == FillLater(Filled(cfg, From(w, c), g, base), c)
    decreases if |g.out| < base + FILL_LIMIT then base + FILL_LIMIT - |g.out| else 0,
              if g.remain < USEC_PER_SAMPLE then USEC_PER_SAMPLE - g.remain else 0
  {
    hide Call, Iterate, Filled, From, ValidWorld;
    FilledUnfold(cfg, w, Later(g, c), base);
    FilledUnfold(cfg, From(w, c), g, base);
    IterateFrom(cfg, w, g, c);
    if |g.out| - base < FILL_LIMIT && !(Due(g) && From(w, c)(g.calls).after == Passthrough) {
      Progress(cfg, From(w, c), g);
      FilledFrom(cfg, w, Iterate(cfg, From(w, c), g), base, c);
    }
  }

  function SessionLater(s: Session, c: nat): Session {
    s.(gen := Later(s.gen, c))
  }

  lemma AddedFrom(s: Session, f: Fill, c: nat)
    requires |s.gen.out| <= |f.gen.out|
    ensures Added(SessionLater(s, c), FillLater(f, c)) == SessionLater(Added(s, f), c)
    ensures Over(SessionLater(s, c)) == Over(s)
  {
  }

  /** A session that begins after c callbacks is the session of the callbacks from there on. */
  lemma {:induction false} BuffersFrom(cfg: Config, w: World, g: Gen, n: nat, c: nat)
    requires ValidWorld(w)
    ensures ValidWorld(From(w, c))
    ensures Buffers(cfg, w, Later(g, c), n) == SessionLater(Buffers(cfg, From(w, c), g, n), c)
  {
    FromValid(w, c);
    hide Extended, Buffers, From, Later, ValidWorld, SessionLater;
    BuffersUnfold(cfg, w, Later(g, c), n);
    BuffersUnfold(cfg, From(w, c), g, n);
    if n == 0 {
      EmptyLater(g, c);
    } else {
      BuffersFrom(cfg, w, g, n - 1, c);
      ExtendedLater(cfg, w, Buffers(cfg, From(w, c), g, n - 1), c);
    }
  }

  lemma EmptyLater(g: Gen, c: nat)
    ensures Session(Later(g, c), [|Later(g, c).out|], [], false) == SessionLater(Session(g, [|g.out|], [], false), c)
  {
  }

  lemma ExtendedLater(cfg: Config, w: World, s: Session, c: nat)
    requires ValidWorld(w) && ValidWorld(From(w, c))
    ensures Extended(cfg, w, SessionLater(s, c)) == SessionLater(Extended(cfg, From(w, c), s), c)
  {
    hide Filled, Added, From, ValidWorld, Over, Later;
    AddedFrom(s, Filled(cfg, From(w, c), s.gen, |s.gen.out|), c);
    FilledFrom(cfg, w, s.gen, |s.gen.out|, c);
  }

  /** Once the pulser has left Stepping no callback is run: the buffer is filled with the port alone. */
  lemma {:induction false} FilledWhenIdle(cfg: Config, w: World, g: Gen, base: nat)
    requires ValidWorld(w) && base <= |g.out| <= base + FILL_LIMIT && g.status != Stepping
    ensures var f := Filled(cfg, w, g, base);
            !f.full && f.gen.calls == g.calls && f.gen.port == g.port && f.gen.status == g.status
            && f.gen.out == g.out + Copies(base + FILL_LIMIT - |g.out|, g.port)
    decreases base + FILL_LIMIT - |g.out|
  {
    if |g.out| - base < FILL_LIMIT {
      FilledWhenIdle(cfg, w, Emit(g), base);
    }
  }

  /** When no callback is asked to go faster than its own pulse, the credits are the programmed periods. */
  function Periods(w: World, c: nat): nat {
    if c == 0 then 0 else Periods(w, c - 1) + w(c - 1).period
  }

  /** Callback i is asked to be over before the pulse it pushed is. */
  predicate TooFast(cfg: Config, w: World, p: bv32, i: nat) {
    w(i).period < USEC_PER_SAMPLE * |PulseAt(cfg, w, p, i)|
  }

  lemma {:induction false} CreditsArePeriods(cfg: Config, w: World, p: bv32, c: nat)
    ensures Periods(w, c) <= Credits(cfg, w, p, c)
    ensures Periods(w, c) == Credits(cfg, w, p, c) <==> forall i: nat :: i < c ==> !TooFast(cfg, w, p, i)
  {
    hide Pulse, PortAfter, PulseAt;
    if c > 0 {
      CreditsArePeriods(cfg, w, p, c - 1);
      CreditStep(cfg, w, p, c - 1);
      hide TooFast, Credit, Credits, Periods;
      if Periods(w, c) == Credits(cfg, w, p, c) {
        assert !TooFast(cfg, w, p, c - 1);
      }
    }
  }

  lemma CreditStep(cfg: Config, w: World, p: bv32, i: nat)
    ensures Credits(cfg, w, p, i + 1) - Credits(cfg, w, p, i) >= Periods(w, i + 1) - Periods(w, i)
    ensures Credits(cfg, w, p, i + 1) - Credits(cfg, w, p, i) == Periods(w, i + 1) - Periods(w, i)
            <==> !TooFast(cfg, w, p, i)
  {
    hide Pulse, PortAfter, PulseAt;
  }
}
