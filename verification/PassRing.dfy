/**
 The 12-node descriptor ring that puts out single pulses in passthrough mode.

 The DMA engine stands on a node, sends its sample and follows `next`; the idle node is linked to
 itself, so the engine stays there until a commit relinks it.
 */
module PassRing {
  import opened StepTimeline

  const NODES: nat := 12

  /** The node n places after node i in the ring. */
  function Fwd(i: nat, n: nat): (j: nat)
    requires i < NODES && n <= NODES
    ensures j < NODES
  {
    if i + n >= NODES then i + n - NODES else i + n
  }

  /** How many places node j comes after node i, from 1 to a whole round. */
  function Off(i: nat, j: nat): (n: nat)
    requires i < NODES && j < NODES
    ensures 1 <= n <= NODES
  {
    if j > i then j - i else j + NODES - i
  }

  // ----- the ring as a value, and the DMA engine walking it

  datatype Links = Links(next: seq<nat>, data: seq<bv32>, idle: nat)

  /** One cycle in address order; only the idle node is linked to itself. */
  ghost predicate Cycle(r: Links) {
    && |r.next| == NODES && |r.data| == NODES && r.idle < NODES
    && forall i :: 0 <= i < NODES ==> r.next[i] == if i == r.idle then i else Fwd(i, 1)
  }

  /** The t-th sample sent by an engine that stands on node c. */
  ghost function Sent(r: Links, c: nat, t: nat): bv32
    requires Cycle(r) && c < NODES
    decreases t
  {
    if t == 0 then r.data[c] else Sent(r, r.next[c], t - 1)
  }

  /** The number of links from node c to the idle node. */
  function Lag(idle: nat, c: nat): nat
    requires idle < NODES && c < NODES
  {
    if c <= idle then idle - c else idle + NODES - c
  }

  /** An engine `Lag` links behind sends the nodes up to the idle node once each, and then that one for ever. */
  lemma {:induction false} SentAt(r: Links, c: nat, t: nat)
    requires Cycle(r) && c < NODES
    ensures Sent(r, c, t) == if t <= Lag(r.idle, c) then r.data[Fwd(c, t)] else r.data[r.idle]
    decreases t
  {
    if t > 0 {
      SentAt(r, r.next[c], t - 1);
    }
  }

  // ----- one commit

  /** The port without its step bits. */
  function Quiet(port: bv32, mask: bv32): bv32 {
    port & !mask
  }

  /** Only the step bits go. */
  lemma QuietBits(port: bv32, mask: bv32)
    ensures Quiet(port, mask) & mask == 0 && Quiet(port, mask) & !mask == port & !mask
  {
  }

  /** The samples of a commit: the setup delay without step bits, then the step pulse. */
  function Waveform(port: bv32, mask: bv32, pulse: nat, delay: nat): (s: seq<bv32>)
    ensures |s| == delay + pulse
  {
    Copies(delay, Quiet(port, mask)) + Copies(pulse, port)
  }

  /** The number of samples of a commit that get a node of their own: the ring has no more to offer, and what is over
      goes into the old idle node, which keeps the engine. */
  function Kept(n: nat): (k: nat)
    ensures k <= n && k < NODES
  {
    if n < NODES then n else NODES - 1
  }

  /** The node the commit ends on after n samples: it cannot pass the idle node's own link. */
  function Park(idle: nat, n: nat): (j: nat)
    requires idle < NODES
    ensures j < NODES && Off(idle, j) == Kept(n) + 1
  {
    if n <= NODES - 2 then Fwd(idle, n + 1) else idle
  }

  /** What a commit makes of the data: the samples in the nodes behind the old idle one, then the value after it. */
  function Laid(r: Links, wave: seq<bv32>, after: bv32, j: nat): bv32
    requires r.idle < NODES && |r.data| == NODES && j < NODES
  {
    var o := Off(r.idle, j);
    if o <= Kept(|wave|) then wave[o - 1] else if o == Kept(|wave|) + 1 then after else r.data[j]
  }

  ghost predicate Committed(r: Links, s: Links, wave: seq<bv32>, after: bv32)
    requires Cycle(r) && Cycle(s)
  {
    s.idle == Park(r.idle, |wave|) && forall j :: 0 <= j < NODES ==> s.data[j] == Laid(r, wave, after, j)
  }

  lemma WaveWritten(r: Links, s: Links, d1: seq<bv32>, d2: seq<bv32>, port: bv32, mask: bv32, pulse: nat, delay: nat)
    requires Cycle(r) && Cycle(s) && |d1| == |d2| == NODES
    requires forall j :: 0 <= j < NODES ==> Written(r.idle, j, 0, delay, Quiet(port, mask), r.data[j], d1[j])
    requires forall j :: 0 <= j < NODES ==> Written(r.idle, j, delay, pulse, port, d1[j], d2[j])
    requires s.idle == Park(r.idle, delay + pulse) && s.data == d2[s.idle := Quiet(port, mask)]
    ensures Committed(r, s, Waveform(port, mask, pulse, delay), Quiet(port, mask))
  {
    hide Quiet;
    var wave := Waveform(port, mask, pulse, delay);
    forall j | 0 <= j < NODES
      ensures s.data[j] == Laid(r, wave, Quiet(port, mask), j)
    {
      assert Written(r.idle, j, 0, delay, Quiet(port, mask), r.data[j], d1[j]);
      assert Written(r.idle, j, delay, pulse, port, d1[j], d2[j]);
    }
  }

  /** Node j after n copies of a value from place `done` on: only what a full ring pushes into the idle node is not
      told, for a commit overwrites it. */
  predicate Written(idle: nat, j: nat, done: nat, n: nat, value: bv32, before: bv32, now: bv32)
    requires idle < NODES && j < NODES
  {
    var o := Off(idle, j);
    o < NODES || done + n < NODES ==> now == if done < o <= done + n then value else before
  }

  /**
   A commit that leaves room is sent complete and in order: an engine still `Lag` links behind first
   sends everything committed earlier and one more sample of the old idle node, then exactly the new
   waveform, then the cleared port for ever.
   */
  lemma CommitIsSent(r: Links, s: Links, wave: seq<bv32>, after: bv32, c: nat, t: nat)
    requires Cycle(r) && Cycle(s) && c < NODES
    requires Lag(r.idle, c) + |wave| <= NODES - 2
    requires Committed(r, s, wave, after)
    ensures var lag := Lag(r.idle, c);
            Sent(s, c, t) == if t <= lag then Sent(r, c, t)
                             else if t <= lag + |wave| then wave[t - lag - 1]
                             else after
  {
    SentAt(r, c, t);
    SentAt(s, c, t);
    hide Cycle, Sent;
    var lag, n := Lag(r.idle, c), |wave|;
    assert Off(r.idle, s.idle) == n + 1;
    assert Lag(s.idle, c) == lag + n + 1;
    if t <= lag {
      assert Off(r.idle, Fwd(c, t)) == NODES - lag + t;
    } else if t <= lag + n {
      assert Off(r.idle, Fwd(c, t)) == t - lag;
    }
  }

  /**
   A commit that leaves no room overtakes the engine: the samples still to be sent are lost, and of the new ones the
   engine sends only those from number 11 - lag on - its own node is already overwritten - and then the cleared port
   for ever.
   */
  lemma CommitOverruns(r: Links, s: Links, wave: seq<bv32>, after: bv32, c: nat, t: nat)
    requires Cycle(r) && Cycle(s) && c < NODES
    requires Lag(r.idle, c) + |wave| > NODES - 2
    requires Committed(r, s, wave, after)
    ensures var k := NODES - 1 - Lag(r.idle, c) + t;
            Sent(s, c, t) == if k < Kept(|wave|) then wave[k] else after
  {
    SentAt(s, c, t);
    hide Cycle, Sent;
    var lag, n := Lag(r.idle, c), Kept(|wave|);
    assert Lag(s.idle, c) == lag + n + 1 - NODES;
    if t <= Lag(s.idle, c) {
      assert Off(r.idle, Fwd(c, t)) == NODES - lag + t;
    } else {
      assert Off(r.idle, s.idle) == n + 1;
    }
  }

  /** The ring after a commit. */
  function Appended(r: Links, wave: seq<bv32>, after: bv32): (s: Links)
    requires r.idle < NODES && |r.data| == NODES
    ensures |s.next| == |s.data| == NODES && s.idle < NODES
  {
    var idle := Park(r.idle, |wave|);
    Links(seq(NODES, i requires 0 <= i < NODES => if i == idle then i else Fwd(i, 1)),
          seq(NODES, j requires 0 <= j < NODES => Laid(r, wave, after, j)), idle)
  }

  lemma AppendedIs(r: Links, s: Links, wave: seq<bv32>, after: bv32)
    requires Cycle(r)
    ensures Cycle(Appended(r, wave, after)) && Committed(r, Appended(r, wave, after), wave, after)
    ensures Cycle(s) && Committed(r, s, wave, after) ==> s == Appended(r, wave, after)
  {
    hide Laid, Park;
    var t := Appended(r, wave, after);
    if Cycle(s) && Committed(r, s, wave, after) {
      assert s.next == t.next && s.data == t.data;
    }
  }

  /** From its next step on the engine sends what was committed earlier, then the waveform, then the value after it. */
  ghost predicate Complete(r: Links, s: Links, c: nat, wave: seq<bv32>, after: bv32)
    requires Cycle(r) && Cycle(s) && c < NODES
  {
    var lag := Lag(r.idle, c);
    forall t: nat :: t >= 1 ==>
      Sent(s, c, t) == if t <= lag then Sent(r, c, t) else if t <= lag + |wave| then wave[t - lag - 1] else after
  }

  /** Room is what it takes: commits of n samples are sent complete, whatever they hold, exactly when the samples still
      to be sent and the new ones leave two nodes of the ring. */
  lemma FitsExactly(r: Links, c: nat, n: nat)
    requires Cycle(r) && c < NODES
    ensures Lag(r.idle, c) + n <= NODES - 2 <==>
      forall wave: seq<bv32>, after: bv32 :: |wave| == n ==> AppendedComplete(r, c, wave, after)
  {
    if Lag(r.idle, c) + n <= NODES - 2 {
      forall wave: seq<bv32>, after: bv32 | |wave| == n
        ensures AppendedComplete(r, c, wave, after)
      {
        FittingIsComplete(r, c, wave, after);
      }
    } else {
      var x: bv32 := if Sent(r, c, 1) == 0 then 1 else 0;
      var wave := if Lag(r.idle, c) == 0 then [1] + Copies(n - 1, 0) else Copies(n, x);
      OverrunIsNot(r, c, wave, if Lag(r.idle, c) == 0 then 0 else x);
    }
  }

  ghost predicate AppendedComplete(r: Links, c: nat, wave: seq<bv32>, after: bv32)
    requires Cycle(r) && c < NODES
  {
    AppendedIs(r, r, wave, after);
    Complete(r, Appended(r, wave, after), c, wave, after)
  }

  lemma FittingIsComplete(r: Links, c: nat, wave: seq<bv32>, after: bv32)
    requires Cycle(r) && c < NODES && Lag(r.idle, c) + |wave| <= NODES - 2
    ensures AppendedComplete(r, c, wave, after)
  {
    hide Appended, Committed, Sent;
    AppendedIs(r, r, wave, after);
    forall t: nat | t >= 1
      ensures var lag := Lag(r.idle, c);
        Sent(Appended(r, wave, after), c, t) ==
        if t <= lag then Sent(r, c, t) else if t <= lag + |wave| then wave[t - lag - 1] else after
    {
      CommitIsSent(r, Appended(r, wave, after), wave, after, c, t);
    }
  }

  lemma OverrunIsNot(r: Links, c: nat, wave: seq<bv32>, after: bv32)
    requires Cycle(r) && c < NODES && Lag(r.idle, c) + |wave| > NODES - 2
    requires if Lag(r.idle, c) == 0 then wave[0] != after
             else after != Sent(r, c, 1) && forall i :: 0 <= i < |wave| ==> wave[i] != Sent(r, c, 1)
    ensures !AppendedComplete(r, c, wave, after)
  {
    hide Appended, Committed, Sent;
    AppendedIs(r, r, wave, after);
    var s := Appended(r, wave, after);
    CommitOverruns(r, s, wave, after, c, 1);
  }

  class Ring {
    const data: array<bv32>
    const next: array<nat>
    var idle: nat
    var idleNext: nat
    var portData: bv32
    var stepMask: bv32
    var addDirDelay: bool

    ghost predicate Valid()
      reads this, data, next
    {
      && data.Length == NODES && next.Length == NODES && data as object != next as object
      && idle < NODES && idleNext == Fwd(idle, 1) && Cycle(Value())
    }

    ghost function Value(): Links
      reads this, data, next
    {
      Links(next[..], data[..], idle)
    }

    constructor (mask: bv32)
      ensures Valid() && idle == 0 && stepMask == mask && portData == 0 && !addDirDelay
    {
      data := new bv32[NODES];
      next := new nat[NODES];
      idle, idleNext, portData, stepMask, addDirDelay := 0, 1, 0, mask, false;
      new;
      var i := NODES;
      while i > 0
        modifies next
        invariant 0 <= i <= NODES
        invariant forall j :: i <= j < NODES ==> next[j] == if j == 0 || j == NODES - 1 then 0 else j + 1
      {
        i := i - 1;
        next[i] := if i == 0 || i == NODES - 1 then 0 else i + 1;
      }
    }

    /** Changes one port bit; the idle node shows it at once, without the step bits. */
    method Write(pin: bv32, on: bool)
      requires Valid()
      modifies this`portData, data
      ensures Valid() && portData == if on then old(portData) | pin else old(portData) & !pin
      ensures data[..] == old(data[..])[idle := Quiet(portData, stepMask)]
    {
      hide Quiet;
      portData := if on then portData | pin else portData & !pin;
      data[idle] := Quiet(portData, stepMask);
    }

    /** Appends a pulse of the current port value, after a delay, and clears the step bits. */
    method Commit(pulse: nat, delay: nat)
      requires Valid()
      modifies this`idle, this`idleNext, this`portData, data, next
      ensures Valid() && portData == Quiet(old(portData), stepMask)
      ensures Committed(old(Value()), Value(), Waveform(old(portData), stepMask, pulse, delay), portData)
    {
      hide Cycle, Committed, Quiet, Waveform, Written;
      ghost var r := Value();
      var value := portData;
      var desc := idleNext;
      desc := Put(desc, Quiet(value, stepMask), delay, 0);
      ghost var d1 := data[..];
      desc := Put(desc, value, pulse, delay);
      ghost var d2 := data[..];
      portData := Quiet(portData, stepMask);
      Relink(desc);
      WaveWritten(r, Value(), d1, d2, value, stepMask, pulse, delay);
    }

    /** Makes desc the idle node: the old one gets its link back, the new one is linked to itself. */
    method Relink(desc: nat)
      requires Valid() && desc < NODES
      modifies this`idle, this`idleNext, data, next
      ensures Valid() && idle == desc && data[..] == old(data[..])[desc := portData]
    {
      hide Quiet;
      data[desc] := portData;
      next[idle] := idleNext;
      idleNext := next[desc];
      idle := desc;
      next[desc] := desc;
    }

    /** Writes n nodes from desc on, `done` places after the first free one; returns the node after them. */
    method Put(desc: nat, value: bv32, n: nat, ghost done: nat) returns (after: nat)
      requires Valid() && desc == Park(idle, done)
      modifies data
      ensures Valid() && after == Park(idle, done + n)
      ensures forall j :: 0 <= j < NODES ==> Written(idle, j, done, n, value, old(data[j]), data[j])
    {
      after := desc;
      var left := n;
      while left > 0
        invariant 0 <= left <= n && Valid() && after == Park(idle, done + n - left)
        invariant forall j :: 0 <= j < NODES ==> Written(idle, j, done, n - left, value, old(data[j]), data[j])
      {
        data[after] := value;
        after := next[after];
        left := left - 1;
      }
    }

    /** Drives a group of outputs pin by pin; the idle node follows. */
    method WriteOutputs(mask: bv32, image: bv32)
      requires Valid()
      modifies this`portData, data
      ensures Valid() && portData == SetOutputs(mask, image, old(portData))
      ensures data[..] == old(data[..])[idle := Quiet(portData, stepMask)]
    {
      hide Quiet, SetOutputs;
      portData := SetOutputs(mask, image, portData);
      data[idle] := Quiet(portData, stepMask);
    }

    /** The passthrough-mode pulse driver: a direction change alone commits only the setup delay. */
    method PulseStart(cfg: Config, s: Stepper)
      requires Valid() && Rounded(cfg) && stepMask == cfg.stepMask && !addDirDelay
      modifies this`idle, this`idleNext, this`portData, this`addDirDelay, data, next
      ensures Valid() && !addDirDelay
      ensures !s.dirChanged && !s.stepping ==> Value() == old(Value()) && portData == old(portData)
      ensures s.dirChanged || s.stepping ==>
        && portData == Quiet(PulsePort(cfg, s, old(portData)), stepMask)
        && Committed(old(Value()).(data := old(Value()).data[old(idle) := Quiet(PulsePort(cfg, s, old(portData)), stepMask)]),
                     Value(), PassPulse(cfg, s, old(portData)), portData)
    {
      hide Cycle, Committed, Quiet, SetOutputs, Waveform;
      if s.dirChanged {
        WriteOutputs(cfg.dirMask, s.dirImage);
        addDirDelay := s.stepping;
        if !addDirDelay {
          Commit(0, cfg.delaySamples);
        }
      }
      if s.stepping {
        WriteOutputs(cfg.stepMask, s.stepImage);
        assert Value() == old(Value()).(data := old(data[..])[idle := Quiet(portData, stepMask)]);
        Commit(cfg.stepSamples, if addDirDelay then cfg.delaySamples else 0);
        addDirDelay := false;
      }
    }
  }

  /** The port while the step outputs of one tick are on. */
  function PulsePort(cfg: Config, s: Stepper, port: bv32): bv32 {
    if s.stepping then SetOutputs(cfg.stepMask, s.stepImage, DirPort(cfg, s, port)) else DirPort(cfg, s, port)
  }

  /** The samples that one tick commits in passthrough mode. */
  function PassPulse(cfg: Config, s: Stepper, port: bv32): (w: seq<bv32>)
    ensures Rounded(cfg) ==> |w| <= 6
  {
    Waveform(PulsePort(cfg, s, port), cfg.stepMask, if s.stepping then cfg.stepSamples else 0,
             if s.dirChanged then cfg.delaySamples else 0)
  }

  lemma QuietSet(mask: bv32, image: bv32, port: bv32)
    ensures Quiet(SetOutputs(mask, image, port), mask) == Quiet(port, mask)
    ensures SetOutputs(mask, 0, port) == Quiet(port, mask)
  {
  }

  lemma QuietAlready(mask: bv32, port: bv32)
    requires port & mask == 0
    ensures Quiet(port, mask) == port
  {
  }

  lemma SetElsewhere(dirMask: bv32, image: bv32, mask: bv32, port: bv32)
    requires port & mask == 0 && dirMask & mask == 0
    ensures SetOutputs(dirMask, image, port) & mask == 0
  {
    AndOr(port & !dirMask, image & dirMask, mask);
    AndAnd(port, !dirMask, mask);
    AndAnd(dirMask, image, mask);
    assert image & dirMask == dirMask & image;
    Zero(!dirMask);
    Zero(image);
  }

  lemma AndOr(a: bv32, b: bv32, m: bv32)
    ensures (a | b) & m == (a & m) | (b & m)
  {
  }

  lemma AndAnd(a: bv32, b: bv32, m: bv32)
    ensures (a & b) & m == (a & m) & b
  {
  }

  lemma Zero(a: bv32)
    ensures 0 & a == 0
  {
  }

  /** Both modes put out the same samples for a step, and leave the same port, when no step output is
      inverted and none is on between pulses. */
  lemma ModesAgree(cfg: Config, s: Stepper, port: bv32)
    requires Rounded(cfg) && s.stepping && cfg.stepIdle == 0
    requires port & cfg.stepMask == 0 && cfg.dirMask & cfg.stepMask == 0
    ensures PassPulse(cfg, s, port) == Pulse(cfg, s, port)
    ensures Quiet(PulsePort(cfg, s, port), cfg.stepMask) == PortAfter(cfg, s, port)
  {
    var p := DirPort(cfg, s, port);
    SetElsewhere(cfg.dirMask, s.dirImage, cfg.stepMask, port);
    hide Quiet, SetOutputs;
    QuietAlready(cfg.stepMask, p);
    QuietSet(cfg.stepMask, s.stepImage, p);
    QuietSet(cfg.stepMask, s.stepImage, SetOutputs(cfg.stepMask, s.stepImage, p));
  }
}
