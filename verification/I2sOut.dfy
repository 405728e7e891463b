/**
 The I2S output driver: DMA descriptors, the buffer fill loop and the pulser status.
 */
module I2sOut {
  import opened DmaRing
  import opened StepTimeline
  import Pulser
  import CompletionQueue

  function Xor(a: bv32, b: bv32): bv32 { a ^ b }

  lemma XorItself(a: bv32)
    ensures Xor(a, a) == 0
  {
  }

  class Descriptor {
    const buffer: array<bv32>
    var length: nat
    var eof: bool
    var next: Descriptor?

    constructor ()
      ensures fresh(buffer) && buffer.Length == SAMPLE_COUNT && next == null
    {
      buffer := new bv32[SAMPLE_COUNT];
      length, eof, next := BUFFER_LENGTH, true, null;
    }
  }

  class Driver {
    const desc: seq<Descriptor>
    var initialized: bool
    var hasCallback: bool
    var portData: bv32
    var stepMask: bv32
    var pulsePeriod: nat
    var remain: nat
    var status: Status
    var rwPos: nat
    var current: array<bv32>
    var calls: nat
    var queue: seq<nat>
    var idleSample: bv32

    /** Five descriptors of their own buffers; each successor is the next in the cycle or missing. */
    ghost predicate Valid()
      reads desc
    {
      Distinct() && forall i {:trigger desc[i]} :: 0 <= i < BUFFERS ==>
        desc[i].next == null || desc[i].next == desc[Successor(i)]
    }

    /** Allocates five descriptors with a buffer each. */
    constructor ()
      ensures Valid() && fresh(desc) && fresh(Memory())
      ensures !initialized && !hasCallback && status == Stopped && remain == 0 && calls == 0 && queue == []
    {
      hide Copies, Successor;
      var d0 := new Descriptor();
      var d1 := new Descriptor();
      var d2 := new Descriptor();
      var d3 := new Descriptor();
      var d4 := new Descriptor();
      desc := [d0, d1, d2, d3, d4];
      current := d0.buffer;
      initialized, hasCallback, status, rwPos := false, false, Stopped, 0;
      portData, stepMask, pulsePeriod, remain, calls, queue, idleSample := 0, 0, 0, 0, 0, [], 0;
    }

    /** Links the descriptors into their cycle and presets every buffer. */
    method Init(value: bv32)
      requires Valid()
      modifies this`portData, this`rwPos, desc, Memory()
      ensures Valid() && portData == value && Ring() == Pulser.Cleared(old(Ring())).(rwPos := 0)
      ensures AllHold(value)
    {
      portData := value;
      ClearDmaBuffers(value);
      rwPos := 0;
    }

    /** Called with every step output active: remembers which port bits those are and clears them. */
    method SetStepMask() returns (ok: bool)
      requires Valid()
      modifies this`initialized, this`stepMask, this`portData, this`status, this`rwPos, this`current, this`idleSample
      modifies desc, Memory()
      ensures Valid() && ok && stepMask == old(portData) && portData == 0
      ensures Ring() == Pulser.Started(old(Ring()).(initialized := true), Passthrough)
      ensures Contents() == old(Contents())
      ensures idleSample == if old(status) != Passthrough && status == Passthrough then portData else old(idleSample)
    {
      hide Xor, Contents, AllHold, Copies, Cut, Lengths, Memory;
      XorItself(portData);
      initialized := true;
      stepMask := portData;
      portData := Xor(portData, stepMask);
      ok := Start(Passthrough);
    }

    ghost function Memory(): set<array<bv32>> {
      set d | d in desc :: d.buffer
    }

    ghost function Cut(): (c: seq<bool>)
      requires |desc| == BUFFERS
      reads desc
    {
      [desc[0].next == null, desc[1].next == null, desc[2].next == null, desc[3].next == null, desc[4].next == null]
    }

    ghost function Lengths(): seq<nat>
      requires |desc| == BUFFERS
      reads desc
    {
      [desc[0].length, desc[1].length, desc[2].length, desc[3].length, desc[4].length]
    }

    ghost function Ring(): Pulser.Ring
      requires |desc| == BUFFERS
      reads this, desc
    {
      Pulser.Ring(initialized, hasCallback, status, Cut(), Lengths(), rwPos)
    }

    ghost predicate Distinct() {
      && |desc| == BUFFERS
      && (forall i :: 0 <= i < BUFFERS ==> desc[i].buffer.Length == SAMPLE_COUNT)
      && (forall i, j :: 0 <= i < j < BUFFERS ==> desc[i] != desc[j] && desc[i].buffer != desc[j].buffer)
    }

    /** The contents of the five buffers. */
    ghost function Contents(): seq<seq<bv32>>
      requires |desc| == BUFFERS
      reads desc, Memory()
    {
      [desc[0].buffer[..], desc[1].buffer[..], desc[2].buffer[..], desc[3].buffer[..], desc[4].buffer[..]]
    }

    /** Every buffer is full of one port value. */
    ghost predicate AllHold(value: bv32)
      requires |desc| == BUFFERS
      reads desc, Memory()
    {
      var full := Copies(SAMPLE_COUNT, value);
      Contents() == [full, full, full, full, full]
    }

    /** The samples written to the current buffer so far, with the state that decides the next ones. */
    ghost function Pending(): Gen
      requires rwPos <= current.Length
      reads this, current
    {
      Gen(remain, portData, status, calls, current[..rwPos])
    }

    /** Writes num copies of the port value, at least one, or none when num is over the safe count. */
    method PushSample(num: nat) returns (pushed: nat)
      requires rwPos + PushCount(num) <= current.Length
      modifies this`rwPos, current
      ensures pushed == if num > SAFE_COUNT then 0 else num
      ensures rwPos == old(rwPos) + (if num > 5 then 0 else if num == 0 then 1 else num)
      ensures current[..rwPos] == old(current[..rwPos]) + Copies(PushCount(num), portData)
    {
      if num > SAFE_COUNT {
        return 0;
      }
      var n := if num > 0 then num else 1;
      while n > 0
        invariant 0 <= n <= PushCount(num) && rwPos == old(rwPos) + PushCount(num) - n
        invariant rwPos + n <= current.Length
        invariant current[..rwPos] == old(current[..rwPos]) + Copies(PushCount(num) - n, portData)
      {
        current[rwPos] := portData;
        rwPos := rwPos + 1;
        n := n - 1;
      }
      return num;
    }

    /** The stepping-mode pulse driver: direction change, setup delay, step pulse, step outputs off. */
    method PulseStart(cfg: Config, s: Stepper)
      requires Rounded(cfg)
      requires rwPos + |Pulse(cfg, s, portData)| <= current.Length
      modifies this`rwPos, this`portData, current
      ensures portData == PortAfter(cfg, s, old(portData))
      ensures rwPos == old(rwPos) + |Pulse(cfg, s, old(portData))|
      ensures current[..rwPos] == old(current[..rwPos]) + Pulse(cfg, s, old(portData))
    {
      if s.dirChanged {
        portData := SetOutputs(cfg.dirMask, s.dirImage, portData);
        if s.stepping {
          var _ := PushSample(cfg.delaySamples);
        }
      }
      if s.stepping {
        portData := SetOutputs(cfg.stepMask, s.stepImage, portData);
        var _ := PushSample(cfg.stepSamples);
        portData := SetOutputs(cfg.stepMask, cfg.stepIdle, portData);
      }
    }

    /** One pulse callback: it steps, may change the pulse period and, with the status lock released,
        may find the status changed when it returns. */
    method PulseFunc(cfg: Config, w: World)
      requires Rounded(cfg)
      requires rwPos + |Pulse(cfg, w(calls).stepper, portData)| <= current.Length
      modifies this`rwPos, this`portData, this`pulsePeriod, this`status, this`calls, current
      ensures rwPos == old(rwPos) + |Pulse(cfg, w(old(calls)).stepper, old(portData))|
      ensures pulsePeriod == w(old(calls)).period
      ensures current[..rwPos] == Call(cfg, w, old(Pending())).out
      ensures Pending().(remain := 0) == Call(cfg, w, old(Pending())).(remain := 0)
    {
      var t := w(calls);
      PulseStart(cfg, t.stepper);
      pulsePeriod := t.period;
      status := t.after;
      calls := calls + 1;
    }

    /** A callback inside the fill loop: its time credit, and the cut of the descriptor ring behind
        this buffer when the callback has asked for the pulser to stop. */
    method StepDue(d: Descriptor, cfg: Config, w: World)
      requires Rounded(cfg) && current == d.buffer && rwPos <= d.buffer.Length
      requires rwPos + |Pulse(cfg, w(calls).stepper, portData)| <= d.buffer.Length
      modifies this`rwPos, this`remain, this`portData, this`pulsePeriod, this`status, this`calls
      modifies d`eof, d`next, d.buffer
      ensures rwPos == old(rwPos) + |Pulse(cfg, w(old(calls)).stepper, old(portData))|
      ensures Pending() == Call(cfg, w, old(Pending()))
      ensures d.next == if status == Waiting then null else old(d.next)
    {
      hide Pulse, PortAfter;
      var oldRwPos := rwPos;
      PulseFunc(cfg, w);
      var period := USEC_PER_SAMPLE * (rwPos - oldRwPos);
      if pulsePeriod >= period {
        remain := remain + (pulsePeriod - period);
      } else {
        remain := remain + USEC_PER_SAMPLE;
      }
      if status == Waiting {
        d.eof := true;
        d.next := null;
      }
    }

    /** One sample of the resting port value. */
    method StepRest()
      requires rwPos < current.Length
      modifies this`rwPos, this`remain, current
      ensures rwPos == old(rwPos) + 1
      ensures Pending() == Emit(old(Pending()))
    {
      current[rwPos] := portData;
      rwPos := rwPos + 1;
      if remain >= USEC_PER_SAMPLE {
        remain := remain - USEC_PER_SAMPLE;
      } else {
        remain := 0;
      }
    }

    /** Descriptor d carries exactly the samples of the fill, and the driver the state it ends in. */
    ghost predicate Published(d: Descriptor, f: Fill)
      reads this, d, d.buffer
    {
      && |f.gen.out| <= rwPos <= d.buffer.Length
      && rwPos == (if f.full then SAMPLE_COUNT else |f.gen.out|)
      && d.length == rwPos * SAMPLE_SIZE <= BUFFER_LENGTH
      && d.buffer[..|f.gen.out|] == f.gen.out
      && remain == f.gen.remain && portData == f.gen.port && status == f.gen.status && calls == f.gen.calls
    }

    /** Fills one DMA buffer and publishes its length. */
    method FillOut(d: Descriptor, cfg: Config, w: World)
      requires Distinct() && d in desc && current == d.buffer
      requires ValidWorld(w) && Rounded(cfg) && remain < 0x1_0000_0000
      modifies this`rwPos, this`remain, this`portData, this`pulsePeriod, this`status, this`calls
      modifies d, d.buffer
      ensures Published(d, Filled(cfg, w, Gen(old(remain), old(portData), old(status), old(calls), []), 0))
      ensures d.next == if old(status) == Stepping && status == Waiting then null else old(d.next)
      ensures remain < 0x1_0000_0000
    {
      hide Filled, Pulse, PortAfter, Copies;
      rwPos := 0;
      ghost var f := Filled(cfg, w, Pending(), 0);
      FilledBound(cfg, w, Pending(), 0);
      while rwPos < FILL_LIMIT
        invariant rwPos <= SAMPLE_COUNT && remain < 0x1_0000_0000
        invariant Filled(cfg, w, Pending(), 0) == f
        invariant current == d.buffer
        invariant old(status) != Stepping ==> status == old(status)
        invariant d.next == if old(status) == Stepping && status == Waiting then null else old(d.next)
        decreases FILL_LIMIT - rwPos, if remain < USEC_PER_SAMPLE then USEC_PER_SAMPLE - remain else 0
      {
        FilledUnfold(cfg, w, Pending(), 0);
        if remain < USEC_PER_SAMPLE {
          if status == Stepping {
            StepDue(d, cfg, w);
            if status == Passthrough {
              remain := 0;
              rwPos := SAMPLE_COUNT;
              break;
            }
            continue;
          }
        }
        StepRest();
      }
      FilledUnfold(cfg, w, Pending(), 0);
      d.length := rwPos * SAMPLE_SIZE;
    }

    /** Overwrites a whole buffer with one port value and restores its length. */
    method ClearDmaBuffer(d: Descriptor, value: bv32)
      requires d.buffer.Length == SAMPLE_COUNT
      modifies d`length, d.buffer
      ensures d.length == BUFFER_LENGTH && d.buffer[..] == Copies(SAMPLE_COUNT, value)
    {
      var i := SAMPLE_COUNT;
      while i > 0
        invariant 0 <= i <= SAMPLE_COUNT
        invariant d.buffer[..SAMPLE_COUNT - i] == Copies(SAMPLE_COUNT - i, value)
      {
        d.buffer[SAMPLE_COUNT - i] := value;
        i := i - 1;
      }
      assert d.buffer[..] == d.buffer[..SAMPLE_COUNT];
      d.length := BUFFER_LENGTH;
    }

    /** The same for descriptor k of the ring. */
    method ClearAt(k: nat, value: bv32)
      requires Valid() && k < BUFFERS
      modifies desc[k], desc[k].buffer
      ensures Valid() && Cut() == old(Cut()) && Lengths() == old(Lengths())[k := BUFFER_LENGTH]
      ensures Contents() == old(Contents())[k := Copies(SAMPLE_COUNT, value)]
    {
      ClearDmaBuffer(desc[k], value);
    }

    /** Takes the successor away from descriptor k. */
    method CutAt(k: nat)
      requires Valid() && k < BUFFERS
      modifies desc[k]
      ensures Valid() && Cut() == old(Cut())[k := true] && Lengths() == old(Lengths())
      ensures Contents() == old(Contents())
    {
      desc[k].next := null;
    }

    /** Puts every buffer and the descriptor cycle back to their initial state. */
    method ClearDmaBuffers(value: bv32)
      requires Valid()
      modifies desc, Memory()
      ensures Valid() && Ring() == Pulser.Cleared(old(Ring()))
      ensures AllHold(value)
    {
      hide Copies;
      var i := 0;
      while i < BUFFERS
        invariant 0 <= i <= BUFFERS
        invariant forall j :: 0 <= j < i ==> Restored(j, value)
      {
        RestoreAt(i, value);
        i := i + 1;
      }
      assert Restored(0, value) && Restored(1, value) && Restored(2, value) && Restored(3, value) && Restored(4, value);
    }

    ghost predicate Restored(i: nat, value: bv32)
      requires Distinct() && i < BUFFERS
      reads desc, Memory()
    {
      desc[i].next == desc[Successor(i)] && desc[i].length == BUFFER_LENGTH
      && desc[i].buffer[..] == Copies(SAMPLE_COUNT, value)
    }

    method RestoreAt(i: nat, value: bv32)
      requires Distinct() && i < BUFFERS
      modifies desc[i], desc[i].buffer
      ensures Restored(i, value)
      ensures forall j :: 0 <= j < BUFFERS && j != i && old(Restored(j, value)) ==> Restored(j, value)
    {
      desc[i].eof := true;
      desc[i].next := desc[Successor(i)];
      ClearDmaBuffer(desc[i], value);
    }

    /** Starts the output in the requested mode, or in Passthrough when no callback is set. */
    method Start(request: Status) returns (ok: bool)
      requires Valid()
      modifies this`status, this`rwPos, this`current, this`idleSample, desc, Memory()
      ensures Valid() && ok == initialized && Ring() == Pulser.Started(old(Ring()), request)
      ensures status == if !initialized then old(status) else if hasCallback then request else Passthrough
      ensures status != old(status) && status != Passthrough ==> current == desc[0].buffer && AllHold(portData)
      ensures idleSample == if old(status) != Passthrough && status == Passthrough then portData else old(idleSample)
      ensures status == old(status) || status == Passthrough ==> current == old(current) && Contents() == old(Contents())
    {
      hide Copies, Contents, AllHold, Cut, Lengths, Memory;
      if !initialized {
        return false;
      }
      var s := if hasCallback then request else Passthrough;
      if status == s {
        return true;
      }
      status := s;
      if s == Passthrough {
        idleSample := portData;
      } else {
        ClearDmaBuffers(portData);
        rwPos := 0;
        current := desc[0].buffer;
      }
      return true;
    }

    method SetPassthrough()
      requires Valid()
      modifies this`status
      ensures Valid() && Ring() == Pulser.PassthroughSet(old(Ring()))
      ensures status == if old(status) == Stepping then Waiting else old(status)
    {
      if status == Stepping {
        status := Waiting;
      }
    }

    /** One look at the status: while it is Waiting the caller is to look again after a delay. */
    method SetStepping() returns (done: bool)
      requires Valid()
      modifies this`status, this`rwPos, this`current, this`idleSample, desc, Memory()
      ensures Valid() && done == (old(status) != Waiting)
      ensures initialized && hasCallback && done ==> status == Stepping
      ensures initialized && !hasCallback && done && old(status) != Stepping ==> status == Passthrough
      ensures Ring() == if old(status) == Waiting then old(Ring()) else Pulser.SteppingSet(old(Ring()))
      ensures old(status) != Stepping && status == Stepping ==> AllHold(portData)
      ensures old(status) == status ==> Contents() == old(Contents())
      ensures idleSample == if old(status) != Passthrough && status == Passthrough then portData else old(idleSample)
    {
      hide AllHold;
      if status == Waiting {
        return false;
      }
      if status != Stepping {
        var _ := Start(Stepping);
      }
      done := true;
    }

    method Reset()
      requires Valid()
      modifies this`status, this`rwPos, this`current, this`idleSample, desc, Memory()
      ensures Valid() && Ring() == Pulser.ResetDone(old(Ring()))
      ensures initialized && hasCallback ==> status == if old(status) == Waiting then Passthrough else old(status)
      ensures old(status) == Stepping ==> AllHold(portData)
      ensures idleSample == if old(status) != Passthrough && status == Passthrough then portData else old(idleSample)
    {
      hide Copies, Contents;
      if status == Stepping {
        ClearDmaBuffers(portData);
      }
      var _ := Start(if status == Waiting then Passthrough else status);
    }

    /** The bitstream task's work on one transmitted descriptor. */
    method StepGen(k: nat, cfg: Config, w: World)
      requires Valid() && k < BUFFERS
      requires ValidWorld(w) && Rounded(cfg) && remain < 0x1_0000_0000
      modifies this, desc, Memory()
      ensures Valid() && remain < 0x1_0000_0000
      ensures old(status) != Stepping ==> Ring() == Pulser.Skipped(old(Ring()), k)
      ensures old(status) != Stepping ==>
        Contents() == if old(status) == Waiting && old(Cut())[k] then old(Contents())
                      else old(Contents())[k := Copies(SAMPLE_COUNT, 0)]
      ensures old(status) == Stepping ==>
        Contents() == old(Contents())[k := desc[k].buffer[..]] && Lengths() == old(Lengths())[k := desc[k].length]
      ensures old(status) != Stepping ==>
        idleSample == if old(status) != Passthrough && status == Passthrough then portData else old(idleSample)
      ensures old(status) == Stepping ==>
        Published(desc[k], Filled(cfg, w, Gen(old(remain), old(portData), Stepping, old(calls), []), 0))
        && Cut() == (if status == Waiting then old(Cut())[k := true] else old(Cut()))
      ensures old(status) != Stepping ==> status != Stepping
      ensures initialized && old(status) == Waiting && old(Cut())[k] ==> status == Passthrough
    {
      hide Filled, Published, Pulser.Skipped, Copies, Contents;
      current := desc[k].buffer;
      if status == Stepping {
        StepGenFill(k, cfg, w);
      } else {
        StepGenSkip(k);
      }
    }

    /** The bitstream task over the descriptors it takes in turn, from a time when the pulser is stepping. `stream` is
        what it has written while stepping, `lengths` the published lengths in samples: those of the session that
        begins here. */
    method OutTask(taken: seq<nat>, cfg: Config, w: World) returns (ghost stream: seq<bv32>, ghost lengths: seq<nat>)
      requires Valid() && status == Stepping && forall i :: 0 <= i < |taken| ==> taken[i] < BUFFERS
      requires ValidWorld(w) && Rounded(cfg) && remain < 0x1_0000_0000
      modifies this, desc, Memory()
      ensures Valid() && ValidWorld(From(w, old(calls)))
      ensures var s := Buffers(cfg, From(w, old(calls)), Gen(old(remain), old(portData), Stepping, 0, []), |taken|);
        stream == s.gen.out && lengths == s.lengths && (status == Stepping <==> !Over(s))
    {
      hide Buffers, Valid, Rounded, ValidWorld, InSession;
      ghost var g0 := Gen(remain, portData, Stepping, 0, []);
      ghost var c0 := calls;
      stream, lengths := [], [];
      BuffersUnfold(cfg, w, Later(g0, c0), 0);
      SessionBegins(Buffers(cfg, w, Later(g0, c0), 0));
      var i := 0;
      while i < |taken|
        invariant 0 <= i <= |taken| && Valid() && remain < 0x1_0000_0000
        invariant InSession(Buffers(cfg, w, Later(g0, c0), i), stream, lengths)
      {
        stream, lengths := TakeNext(taken[i], cfg, w, Later(g0, c0), i, stream, lengths);
        i := i + 1;
      }
      BuffersFrom(cfg, w, g0, |taken|, c0);
      SessionStands(Buffers(cfg, w, Later(g0, c0), |taken|), stream, lengths);
    }

    /** One descriptor of the session. */
    method TakeNext(k: nat, cfg: Config, w: World, ghost g: Gen, ghost n: nat,
                    ghost before: seq<bv32>, ghost lengthsBefore: seq<nat>)
      returns (ghost stream: seq<bv32>, ghost lengths: seq<nat>)
      requires Valid() && k < BUFFERS
      requires ValidWorld(w) && Rounded(cfg) && remain < 0x1_0000_0000
      requires InSession(Buffers(cfg, w, g, n), before, lengthsBefore)
      modifies this, desc, Memory()
      ensures Valid() && remain < 0x1_0000_0000
      ensures InSession(Buffers(cfg, w, g, n + 1), stream, lengths)
    {
      hide Filled, Buffers, Valid, Rounded, ValidWorld, Published, Contents, Copies, Pulser.Skipped, Lengths, Cut;
      ghost var s := Buffers(cfg, w, g, n);
      ghost var f := Filled(cfg, w, s.gen.(out := []), 0);
      ghost var stepping := status == Stepping;
      FiveOf();
      var d := desc[k];
      StepGen(k, cfg, w);
      stream, lengths := before, lengthsBefore;
      BuffersUnfold(cfg, w, g, n + 1);
      if stepping {
        BuffersNext(cfg, w, g, n);
        PublishedParts(d, f);
        stream := stream + d.buffer[..|f.gen.out|];
        lengths := lengths + [d.length / SAMPLE_SIZE];
      }
    }

    lemma SessionBegins(s: Session)
      requires s == Session(Gen(remain, portData, Stepping, calls, []), [0], [], false) && status == Stepping
      ensures InSession(s, [], [])
    {
    }

    lemma SessionStands(s: Session, stream: seq<bv32>, lengths: seq<nat>)
      requires InSession(s, stream, lengths)
      ensures stream == s.gen.out && lengths == s.lengths && (status == Stepping <==> !Over(s))
    {
    }

    lemma FiveOf()
      requires Valid()
      ensures |desc| == BUFFERS
    {
    }

    /** The driver is where the session is. */
    ghost predicate InSession(s: Session, stream: seq<bv32>, lengths: seq<nat>)
      reads this
    {
      && stream == s.gen.out && lengths == s.lengths && (status == Stepping <==> !Over(s))
      && (status == Stepping ==> s.gen == Gen(remain, portData, Stepping, calls, stream))
    }

    lemma PublishedParts(d: Descriptor, f: Fill)
      requires Published(d, f)
      ensures |f.gen.out| <= d.buffer.Length && d.buffer[..|f.gen.out|] == f.gen.out
      ensures d.length / SAMPLE_SIZE == if f.full then SAMPLE_COUNT else |f.gen.out|
      ensures remain == f.gen.remain && portData == f.gen.port && status == f.gen.status && calls == f.gen.calls
    {
    }

    /** A descriptor taken while the pulser waits or is in passthrough. */
    method StepGenSkip(k: nat)
      requires Valid() && k < BUFFERS && status != Stepping
      modifies this`status, this`rwPos, this`current, this`idleSample, desc, Memory()
      ensures initialized && old(status) == Waiting && old(Cut())[k] ==> status == Passthrough
      ensures Valid() && status != Stepping && Ring() == Pulser.Skipped(old(Ring()), k)
      ensures Contents() == if old(status) == Waiting && old(Cut())[k] then old(Contents())
                            else old(Contents())[k := Copies(SAMPLE_COUNT, 0)]
      ensures idleSample == if old(status) != Passthrough && status == Passthrough then portData else old(idleSample)
    {
      CutIs(k);
      hide Copies, Contents, Lengths, Cut;
      if status == Waiting && desc[k].next == null {
        var _ := Start(Passthrough);
      } else {
        ClearAt(k, 0);
        rwPos := 0;
        if status == Waiting {
          CutAt(k);
        }
      }
    }

    lemma CutIs(k: nat)
      requires |desc| == BUFFERS && k < BUFFERS
      ensures Cut()[k] == (desc[k].next == null) && |Cut()| == |Lengths()| == |Contents()| == BUFFERS
    {
    }

    method StepGenFill(k: nat, cfg: Config, w: World)
      requires Valid() && k < BUFFERS && current == desc[k].buffer && status == Stepping
      requires ValidWorld(w) && Rounded(cfg) && remain < 0x1_0000_0000
      modifies this`rwPos, this`remain, this`portData, this`pulsePeriod, this`status, this`calls
      modifies desc[k], desc[k].buffer
      ensures Valid() && remain < 0x1_0000_0000
      ensures Published(desc[k], Filled(cfg, w, Gen(old(remain), old(portData), Stepping, old(calls), []), 0))
      ensures Cut() == (if status == Waiting then old(Cut())[k := true] else old(Cut()))
      ensures Lengths() == old(Lengths())[k := desc[k].length]
      ensures Contents() == old(Contents())[k := desc[k].buffer[..]]
    {
      hide Filled, Published, Rounded;
      FillOut(desc[k], cfg, w);
      OthersDiffer(k);
    }

    lemma OthersDiffer(k: nat)
      requires Distinct() && k < BUFFERS
      ensures k != 0 ==> desc[0] != desc[k] && desc[0].buffer != desc[k].buffer
      ensures k != 1 ==> desc[1] != desc[k] && desc[1].buffer != desc[k].buffer
      ensures k != 2 ==> desc[2] != desc[k] && desc[2].buffer != desc[k].buffer
      ensures k != 3 ==> desc[3] != desc[k] && desc[3].buffer != desc[k].buffer
      ensures k != 4 ==> desc[4] != desc[k] && desc[4].buffer != desc[k].buffer
    {
    }

    /** The DMA interrupt for the finished descriptor; `totalEof` when it had no successor. */
    method IntrHandler(finished: nat, totalEof: bool)
      requires Valid() && finished < BUFFERS
      requires |queue| <= BUFFERS && forall i :: 0 <= i < |queue| ==> queue[i] < BUFFERS
      modifies this`status, this`rwPos, this`current, this`queue, this`idleSample, desc, Memory()
      ensures Valid()
      ensures totalEof ==> queue == old(queue) && Ring() == Pulser.Started(old(Ring()), Passthrough)
      ensures totalEof && initialized ==> status == Passthrough
      ensures status == Passthrough ==> Contents() == old(Contents()) && Lengths() == old(Lengths())
      ensures idleSample == if old(status) != Passthrough && status == Passthrough then portData else old(idleSample)
      ensures !totalEof ==> Cut() == old(Cut()) && status == old(status) && rwPos == old(rwPos)
      ensures !totalEof ==>
        queue == if status == Passthrough then old(queue) else CompletionQueue.Enqueued(old(queue), finished)
      ensures !totalEof && status != Passthrough ==>
        forall i :: 0 <= i < BUFFERS ==>
          if i in CompletionQueue.Evicted(old(queue)) then
            desc[i].length == BUFFER_LENGTH
            && desc[i].buffer[..] == Copies(SAMPLE_COUNT, if status == Stepping then portData else 0)
          else desc[i].length == old(desc[i].length) && desc[i].buffer[..] == old(desc[i].buffer[..])
    {
      if totalEof {
        var _ := Start(Passthrough);
      } else if status != Passthrough {
        if |queue| == BUFFERS {
          var front := queue[0];
          queue := queue[1..];
          ClearDmaBuffer(desc[front], if status == Stepping then portData else 0);
        }
        queue := queue + [finished];
      }
    }
  }
}
