/**
 What the samples of a tick show on the port, bit by bit: step outputs, direction outputs and everything else.
 */
module PulseShape {
  import opened StepTimeline
  import opened PassRing

  /** The outputs under the mask show the image. */
  predicate Shows(v: bv32, mask: bv32, image: bv32) {
    v & mask == image & mask
  }

  /** No output drives two functions. */
  predicate Disjoint(cfg: Config) {
    cfg.dirMask & cfg.stepMask == 0
  }

  /** The port bits that are neither step nor direction outputs. */
  function Others(cfg: Config): bv32 {
    !(cfg.dirMask | cfg.stepMask)
  }

  /** A port value with these step outputs, these direction outputs, and the rest of the port. */
  predicate Looks(cfg: Config, v: bv32, steps: bv32, dirs: bv32, rest: bv32) {
    Shows(v, cfg.stepMask, steps) && Shows(v, cfg.dirMask, dirs) && Shows(v, Others(cfg), rest)
  }

  /** The direction outputs during a tick: a change shows at once. */
  function Direction(s: Stepper, port: bv32): bv32 {
    if s.dirChanged then s.dirImage else port
  }

  predicate Apart(a: bv32, b: bv32) {
    a & b == 0
  }

  lemma SetShows(mask: bv32, image: bv32, port: bv32)
    ensures Shows(SetOutputs(mask, image, port), mask, image)
  {
    SetBits(mask, image, port);
  }

  lemma SetBits(mask: bv32, image: bv32, port: bv32)
    ensures ((port & !mask) | (image & mask)) & mask == image & mask
  {
  }

  lemma SetElse(mask: bv32, image: bv32, port: bv32, m: bv32, x: bv32)
    requires Apart(mask, m) && Shows(port, m, x)
    ensures Shows(SetOutputs(mask, image, port), m, x)
  {
    ElseBits(mask, image, port, m);
  }

  lemma ElseBits(mask: bv32, image: bv32, port: bv32, m: bv32)
    requires mask & m == 0
    ensures ((port & !mask) | (image & mask)) & m == port & m
  {
  }

  lemma MasksApart(cfg: Config)
    requires Disjoint(cfg)
    ensures Apart(cfg.dirMask, cfg.stepMask) && Apart(cfg.stepMask, cfg.dirMask)
    ensures Apart(cfg.dirMask, Others(cfg)) && Apart(cfg.stepMask, Others(cfg))
  {
    AndSwaps(cfg.stepMask, cfg.dirMask);
  }

  lemma AndSwaps(a: bv32, b: bv32)
    ensures a & b == b & a
  {
  }

  /** Setting the direction outputs changes those, and setting the step outputs those. */
  lemma SetLooks(cfg: Config, port: bv32, image: bv32, steps: bv32, dirs: bv32, rest: bv32)
    requires Disjoint(cfg) && Looks(cfg, port, steps, dirs, rest)
    ensures Looks(cfg, SetOutputs(cfg.dirMask, image, port), steps, image, rest)
    ensures Looks(cfg, SetOutputs(cfg.stepMask, image, port), image, dirs, rest)
  {
    hide SetOutputs, Others, Shows, Apart, Disjoint;
    MasksApart(cfg);
    SetShows(cfg.dirMask, image, port);
    SetShows(cfg.stepMask, image, port);
    SetElse(cfg.dirMask, image, port, cfg.stepMask, steps);
    SetElse(cfg.dirMask, image, port, Others(cfg), rest);
    SetElse(cfg.stepMask, image, port, cfg.dirMask, dirs);
    SetElse(cfg.stepMask, image, port, Others(cfg), rest);
  }

  lemma PortLooks(cfg: Config, port: bv32)
    ensures Looks(cfg, port, port, port, port)
  {
  }

  /** Before the step, the port shows the direction of the tick. */
  lemma DirLooks(cfg: Config, s: Stepper, port: bv32)
    requires Disjoint(cfg)
    ensures Looks(cfg, DirPort(cfg, s, port), port, Direction(s, port), port)
  {
    hide SetOutputs, Looks, Disjoint;
    PortLooks(cfg, port);
    SetLooks(cfg, port, s.dirImage, port, port, port);
  }

  /** The samples of the setup delay of a step: none without a change of direction. */
  function DelayCount(cfg: Config, s: Stepper): nat {
    if s.dirChanged then cfg.delaySamples else 0
  }

  /**
   The pulse of a tick in stepping mode.  With a step: first the delay samples, with the new direction and the step
   outputs as they were, then the step samples, with the step image and the direction of the tick; without one:
   nothing.  Afterwards the step outputs are off, the direction stays, and all along every other bit of the port is
   what it was.
   */
  lemma SteppingPulse(cfg: Config, s: Stepper, port: bv32)
    requires Rounded(cfg) && Disjoint(cfg)
    ensures var v, d := Pulse(cfg, s, port), DelayCount(cfg, s);
      && |v| == (if s.stepping then d + cfg.stepSamples else 0)
      && (forall i :: 0 <= i < |v| ==>
            Looks(cfg, v[i], if i < d then port else s.stepImage, Direction(s, port), port))
    ensures Looks(cfg, PortAfter(cfg, s, port), if s.stepping then cfg.stepIdle else port, Direction(s, port), port)
  {
    hide SetOutputs, Looks, Disjoint, DirPort;
    var p := DirPort(cfg, s, port);
    DirLooks(cfg, s, port);
    SetLooks(cfg, p, s.stepImage, port, Direction(s, port), port);
    var q := SetOutputs(cfg.stepMask, s.stepImage, p);
    SetLooks(cfg, q, cfg.stepIdle, s.stepImage, Direction(s, port), port);
  }

  // ----- passthrough mode

  lemma QuietLooks(cfg: Config, v: bv32, steps: bv32, dirs: bv32, rest: bv32)
    requires Disjoint(cfg) && Looks(cfg, v, steps, dirs, rest)
    ensures Looks(cfg, Quiet(v, cfg.stepMask), 0, dirs, rest)
  {
    hide Looks, SetOutputs;
    SetLooks(cfg, v, 0, steps, dirs, rest);
    QuietIsSet(v, cfg.stepMask);
  }

  lemma QuietIsSet(v: bv32, mask: bv32)
    ensures SetOutputs(mask, 0, v) == Quiet(v, mask)
  {
  }

  /**
   The samples of a tick in passthrough mode: the delay samples with the new direction and no step bit, also for a
   change of direction without a step, then the step samples with the step image; afterwards no step bit.
   */
  lemma PassthroughPulse(cfg: Config, s: Stepper, port: bv32)
    requires Rounded(cfg) && Disjoint(cfg)
    ensures var v, d := PassPulse(cfg, s, port), DelayCount(cfg, s);
      && |v| == d + (if s.stepping then cfg.stepSamples else 0)
      && (forall i :: 0 <= i < |v| ==>
            Looks(cfg, v[i], if i < d then 0 else s.stepImage, Direction(s, port), port))
    ensures Looks(cfg, Quiet(PulsePort(cfg, s, port), cfg.stepMask), 0, Direction(s, port), port)
  {
    hide SetOutputs, Looks, Disjoint, DirPort, Quiet;
    var p := DirPort(cfg, s, port);
    DirLooks(cfg, s, port);
    SetLooks(cfg, p, s.stepImage, port, Direction(s, port), port);
    QuietLooks(cfg, PulsePort(cfg, s, port), if s.stepping then s.stepImage else port, Direction(s, port), port);
  }

  // ----- whole runs

  /** The direction outputs before callback c: those of the last change. */
  function DirectionAt(w: World, p: bv32, c: nat): bv32 {
    if c == 0 then p else Direction(w(c - 1).stepper, DirectionAt(w, p, c - 1))
  }

  /** Whether any callback before c has stepped. */
  predicate Stepped(w: World, c: nat) {
    exists k :: 0 <= k < c && w(k).stepper.stepping
  }

  /** All along a run the port shows the last direction asked for, no step, and otherwise what it showed at first. */
  lemma {:induction false} PortLooksAt(cfg: Config, w: World, p: bv32, c: nat)
    requires Rounded(cfg) && Disjoint(cfg)
    ensures Looks(cfg, PortAt(cfg, w, p, c), if Stepped(w, c) then cfg.stepIdle else p, DirectionAt(w, p, c), p)
  {
    hide Looks, Disjoint, PortAfter, Pulse;
    if c == 0 {
      PortLooks(cfg, p);
    } else {
      PortLooksAt(cfg, w, p, c - 1);
      var s, q := w(c - 1).stepper, PortAt(cfg, w, p, c - 1);
      SteppingPulse(cfg, s, q);
      LooksThrough(cfg, PortAt(cfg, w, p, c), q, s, if Stepped(w, c - 1) then cfg.stepIdle else p,
                   DirectionAt(w, p, c - 1), p, if s.stepping then cfg.stepIdle else q);
    }
  }

  lemma LooksThrough(cfg: Config, v: bv32, q: bv32, s: Stepper, steps: bv32, dirs: bv32, rest: bv32, image: bv32)
    requires Looks(cfg, q, steps, dirs, rest) && Looks(cfg, v, image, Direction(s, q), q)
    ensures Looks(cfg, v, if image == q then steps else image, Direction(s, dirs), rest)
    ensures Looks(cfg, v, image, Direction(s, dirs), rest)
  {
    hide Shows, Others;
    if Shows(v, cfg.stepMask, q) {
      ShowsThrough(v, q, cfg.stepMask, steps);
    }
    if !s.dirChanged {
      ShowsThrough(v, q, cfg.dirMask, dirs);
    }
    ShowsThrough(v, q, Others(cfg), rest);
  }

  lemma ShowsThrough(v: bv32, q: bv32, mask: bv32, x: bv32)
    requires Shows(v, mask, q) && Shows(q, mask, x)
    ensures Shows(v, mask, x)
  {
  }

  /** Every sample of every pulse of a run: the step image of its callback, before it in the delay none, the last
      direction asked for, and otherwise the port as it was at first. */
  lemma PulseLooksAt(cfg: Config, w: World, p: bv32, c: nat, i: nat)
    requires Rounded(cfg) && Disjoint(cfg) && i < |PulseAt(cfg, w, p, c)|
    ensures var s := w(c).stepper;
      var off := if Stepped(w, c) then cfg.stepIdle else p;
      Looks(cfg, PulseAt(cfg, w, p, c)[i], if i < DelayCount(cfg, s) then off else s.stepImage,
            DirectionAt(w, p, c + 1), p)
  {
    hide Looks, Disjoint, PortAfter, Pulse;
    var s, q := w(c).stepper, PortAt(cfg, w, p, c);
    PortLooksAt(cfg, w, p, c);
    SteppingPulse(cfg, s, q);
    LooksThrough(cfg, PulseAt(cfg, w, p, c)[i], q, s, if Stepped(w, c) then cfg.stepIdle else p,
                 DirectionAt(w, p, c), p, if i < DelayCount(cfg, s) then q else s.stepImage);
  }
}
