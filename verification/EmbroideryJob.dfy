/**
 An embroidery job as a state machine: the reader that fills the stitch queue, the consumer that plans the moves,
 the needle trigger, the machine's state changes, the foreground and the reset.
 */
module EmbroideryJob {
  import opened StitchRing

  const TICKS: nat := 0x1_0000_0000

  datatype Coord = Coord(x: real, y: real, z: real)

  datatype Await = Await(pause: bool, trigger: bool, jump: bool)

  const NOTHING := Await(false, false, false)

  datatype Counts = Counts(jumps: nat, stitches: nat, trims: nat, changes: nat, sequins: nat)

  const ZERO := Counts(0, 0, 0, 0, 0)

  /** What the consumer leaves for the foreground to run. */
  datatype Chore = ThreadTrim | ThreadChange

  datatype Machine = MachineIdle | MachineCycle | MachineHold | MachineOther

  datatype Config = Config(sync: bool, zTravel: real, stopDelay: nat)

  /** The stitches of the file and the next to read; `finished` is set when the end of the program is reported. */
  datatype Feed = Feed(file: seq<Stitch>, next: nat, enqueued: bool, completed: bool, finished: bool)

  datatype Motor = Motor(on: bool, stop: nat, lastTrigger: nat, stitching: bool, jumpOut: bool)

  datatype Tally = Tally(programmed: Counts, executed: Counts, exced: nat, errs: nat)

  datatype Flow = Flow(await: Await, machine: Machine, color: nat, chores: seq<Chore>)

  /** The position, and the history: the moves planned and the stitches consumed. */
  datatype Log = Log(position: Coord, lines: seq<Coord>, consumed: seq<Stitch>)

  datatype State = State(ring: Ring, feed: Feed, motor: Motor, tally: Tally, flow: Flow, log: Log)

  /**
   Read: the reader is polled; at the end of the file the decoder may leave anything in the slot. Execute: the
   consumer runs; it is given the time, the room in the planner and whether the planner accepts a jump. Trigger:
   the needle. Changed: the machine's state. RunChore: the foreground. Reset: the driver reset.
   */
  datatype Event =
    | Read(junk: Stitch)
    | Execute(ticks: nat, room: nat, accepts: bool)
    | Trigger(ticks: nat)
    | Changed(state: Machine)
    | RunChore
    | Reset

  predicate Sized(s: State) {
    StitchRing.Sized(s.ring) && s.feed.next <= |s.feed.file|
  }

  // ----- the reader

  function Counted(c: Counts, k: Kind): Counts {
    match k
    case Normal => c.(stitches := c.stitches + 1)
    case Trim => c.(trims := c.trims + 1)
    case Jump => c.(jumps := c.jumps + 1)
    case Stop => c.(changes := c.changes + 1)
    case SequinEject => c.(sequins := c.sequins + 1)
  }

  function Reading(s: State, junk: Stitch): (r: State)
    requires Sized(s)
    ensures Sized(r)
  {
    if s.feed.enqueued || Full(s.ring) then s
    else if s.feed.next == |s.feed.file| then
      s.(feed := s.feed.(enqueued := true), ring := s.ring.(slots := s.ring.slots[s.ring.head := junk]))
    else
      var st := s.feed.file[s.feed.next];
      s.(feed := s.feed.(next := s.feed.next + 1), ring := Put(s.ring, st),
         tally := s.tally.(programmed := Counted(s.tally.programmed, st.kind)))
  }

  // ----- the consumer

  function Ended(s: State, finished: bool): State {
    s.(feed := s.feed.(completed := true, enqueued := true, finished := s.feed.finished || finished),
       motor := s.motor.(on := false))
  }

  function Timed(m: Motor, ticks: nat): Motor {
    if m.stop != 0 && (ticks - m.lastTrigger) % TICKS >= m.stop then m.(on := false, stop := 0) else m
  }

  /** The first stitch after other moves waits for the machine to stop. */
  predicate WaitsForIdle(s: State)
    requires Sized(s)
  {
    !s.motor.stitching && Head(s.ring).kind == Normal && s.flow.machine != MachineIdle
  }

  predicate Drained(s: State) {
    s.feed.enqueued && Empty(s.ring)
  }

  /** The consumer takes the stitch at the tail. */
  predicate Consumes(s: State, room: nat)
    requires Sized(s)
  {
    !s.feed.completed && s.flow.await == NOTHING && !Drained(s) && room >= 3 && !WaitsForIdle(s)
  }

  /** While stitching, the stitch behind the one taken starts the jump output or the motor's stop delay early. */
  function LookedAhead(cfg: Config, m: Motor, behind: Ring): Motor
    requires StitchRing.Sized(behind)
  {
    if m.stitching && !Empty(behind) && Head(behind).kind != Normal then
      if Head(behind).kind == Jump then m.(jumpOut := true)
      else if cfg.stopDelay != 0 then m.(stop := cfg.stopDelay)
      else m
    else m
  }

  function MotorFor(cfg: Config, m: Motor, k: Kind): Motor {
    var m1 := if k == Normal then m.(stitching := true)
              else if cfg.stopDelay == 0 then m.(stitching := false, on := false, stop := 0)
              else m.(stitching := false);
    match k
    case Normal => m1.(on := true)
    case Trim => m1.(stop := cfg.stopDelay)
    case Stop => m1.(stop := cfg.stopDelay)
    case _ => m1
  }

  function TallyFor(t: Tally, k: Kind): Tally {
    match k
    case Normal => t.(exced := t.exced + 1)
    case Jump => t.(executed := t.executed.(jumps := t.executed.jumps + 1))
    case _ => t
  }

  predicate Moves(st: Stitch) {
    st.x != 0.0 || st.y != 0.0
  }

  function FlowFor(cfg: Config, f: Flow, st: Stitch, accepts: bool): Flow {
    match st.kind
    case Normal => f.(await := f.await.(trigger := cfg.sync))
    case Jump => f.(await := f.await.(jump := Moves(st) && accepts))
    case Trim => f.(await := f.await.(pause := true), chores := f.chores + [ThreadTrim])
    case Stop => f.(await := f.await.(pause := true), color := st.color, chores := f.chores + [ThreadChange])
    case SequinEject => f
  }

  function LogFor(cfg: Config, l: Log, st: Stitch): Log {
    var p := l.position.(x := l.position.x + st.x, y := l.position.y + st.y);
    var consumed := l.consumed + [st];
    match st.kind
    case Normal =>
      if cfg.sync then Log(p, l.lines + [p], consumed)
      else
        var down, up := p.(z := -cfg.zTravel), p.(z := cfg.zTravel);
        Log(up, l.lines + [p] + [down] + [up], consumed)
    case Jump => Log(p, if Moves(st) then l.lines + [p] else l.lines, consumed)
    case Trim => Log(p, l.lines + [p], consumed)
    case Stop => Log(p, l.lines, consumed)
    case SequinEject => l.(consumed := consumed)
  }

  function Consuming(cfg: Config, s: State, accepts: bool): State
    requires Sized(s)
  {
    var st, behind := Head(s.ring), Take(s.ring);
    State(behind, s.feed, MotorFor(cfg, LookedAhead(cfg, s.motor, behind), st.kind), TallyFor(s.tally, st.kind),
          FlowFor(cfg, s.flow, st, accepts), LogFor(cfg, s.log, st))
  }

  function Executing(cfg: Config, s: State, ticks: nat, room: nat, accepts: bool): State
    requires Sized(s)
  {
    if s.feed.completed then s
    else
      var s1 := s.(motor := Timed(s.motor, ticks));
      if Consumes(s, room) then Consuming(cfg, s1, accepts)
      else if s.flow.await == NOTHING && Drained(s) then Ended(s1, true)
      else s1
  }

  // ----- the other inputs

  function Triggered(s: State, ticks: nat): State {
    if s.flow.await.trigger && s.flow.machine == MachineCycle then s.(tally := s.tally.(errs := s.tally.errs + 1))
    else
      s.(flow := s.flow.(await := s.flow.await.(trigger := false)), motor := s.motor.(lastTrigger := ticks),
         tally := s.tally.(executed := s.tally.executed.(stitches := s.tally.executed.stitches + 1)))
  }

  function StateChanged(s: State, state: Machine): State {
    if s.flow.machine == state then s
    else
      var landed := state == MachineIdle && s.flow.await.jump;
      var await := s.flow.await.(jump := s.flow.await.jump && !landed,
                                 pause := s.flow.await.pause && s.flow.machine != MachineHold);
      s.(motor := s.motor.(jumpOut := s.motor.jumpOut && !landed), flow := s.flow.(machine := state, await := await))
  }

  function ChoreRun(s: State): State {
    if s.flow.chores == [] then s
    else
      var done := s.tally.executed;
      s.(motor := s.motor.(on := false), flow := s.flow.(chores := s.flow.chores[1..]),
         tally := s.tally.(executed := if s.flow.chores[0] == ThreadTrim then done.(trims := done.trims + 1)
                                       else done.(changes := done.changes + 1)))
  }

  function Next(cfg: Config, s: State, e: Event): (r: State)
    requires Sized(s)
    ensures Sized(r) && r.feed.file == s.feed.file
  {
    match e
    case Read(junk) => Reading(s, junk)
    case Execute(ticks, room, accepts) => Executing(cfg, s, ticks, room, accepts)
    case Trigger(ticks) => Triggered(s, ticks)
    case Changed(state) => StateChanged(s, state)
    case RunChore => ChoreRun(s)
    case Reset => Ended(s, false)
  }

  function After(cfg: Config, s: State, es: seq<Event>): (r: State)
    requires Sized(s)
    ensures Sized(r) && r.feed.file == s.feed.file
    decreases |es|
  {
    if es == [] then s else Next(cfg, After(cfg, s, es[..|es| - 1]), es[|es| - 1])
  }

  /** The job as it is opened: the queue is empty, nothing is counted and nothing awaited. */
  predicate Opened(s: State) {
    && Sized(s) && s.ring.head == 0 && s.ring.tail == 0
    && s.feed.next == 0 && !s.feed.enqueued && !s.feed.completed && !s.feed.finished
    && !s.motor.stitching && s.tally == Tally(ZERO, ZERO, 0, 0)
    && s.flow.await == NOTHING && s.flow.chores == []
    && s.log.lines == [] && s.log.consumed == []
  }

  // ----- file order

  /** What was read is what was consumed and what is queued, in file order; reading stops at the end of the file
      only; and the program end comes only when everything is consumed. */
  predicate InOrder(s: State) {
    && Sized(s)
    && s.log.consumed + Contents(s.ring) == s.feed.file[..s.feed.next]
    && (s.feed.enqueued && !s.feed.completed ==> s.feed.next == |s.feed.file|)
    && (s.feed.finished ==> s.feed.completed && s.log.consumed == s.feed.file)
  }

  /** The step takes a stitch from an empty queue. */
  predicate Underrun(s: State, e: Event)
    requires Sized(s)
  {
    e.Execute? && Consumes(s, e.room) && Empty(s.ring)
  }

  lemma ReadInOrder(s: State, junk: Stitch)
    requires InOrder(s)
    ensures InOrder(Reading(s, junk))
  {
    hide Contents;
    FreeSlot(s.ring, junk);
    if !Full(s.ring) && s.feed.next < |s.feed.file| {
      PutContents(s.ring, s.feed.file[s.feed.next]);
    }
  }

  lemma LogConsumed(cfg: Config, l: Log, st: Stitch)
    ensures LogFor(cfg, l, st).consumed == l.consumed + [st]
  {
  }

  lemma ConsumeInOrder(cfg: Config, s: State, accepts: bool)
    requires InOrder(s) && !Empty(s.ring) && !s.feed.completed
    ensures InOrder(Consuming(cfg, s, accepts))
  {
    hide Contents, LogFor, MotorFor, TallyFor, FlowFor, LookedAhead;
    TakeContents(s.ring);
    LogConsumed(cfg, s.log, Head(s.ring));
  }

  lemma DrainedInOrder(s: State)
    requires InOrder(s) && Drained(s) && !s.feed.completed
    ensures InOrder(Ended(s, true))
  {
    EmptyContents(s.ring);
  }

  lemma NextInOrder(cfg: Config, s: State, e: Event)
    requires InOrder(s) && !Underrun(s, e)
    ensures InOrder(Next(cfg, s, e))
  {
    hide Contents, Reading, Consuming;
    match e
    case Read(junk) => ReadInOrder(s, junk);
    case Execute(ticks, room, accepts) =>
      var s1 := s.(motor := Timed(s.motor, ticks));
      if Consumes(s, room) {
        ConsumeInOrder(cfg, s1, accepts);
      } else if !s.feed.completed && Drained(s) {
        DrainedInOrder(s1);
      }
    case _ =>
  }

  /** After an underrun more stitches are consumed than were read. */
  lemma UnderrunBreaks(cfg: Config, s: State, e: Event)
    requires InOrder(s) && Underrun(s, e)
    ensures !InOrder(Next(cfg, s, e))
  {
    hide Contents, LogFor, MotorFor, TallyFor, FlowFor, LookedAhead;
    EmptyContents(s.ring);
    LogConsumed(cfg, s.log, Head(s.ring));
    assert |s.log.consumed| == |s.feed.file[..s.feed.next]|;
  }

  lemma OpenedInOrder(s: State)
    requires Opened(s)
    ensures InOrder(s)
  {
  }

  lemma AfterNext(cfg: Config, s: State, es: seq<Event>, i: nat)
    requires Sized(s) && i < |es|
    ensures After(cfg, s, es[..i + 1]) == Next(cfg, After(cfg, s, es[..i]), es[i])
  {
    hide Next;
    assert es[..i + 1][..i] == es[..i];
  }

  lemma {:induction false} OrderKept(cfg: Config, s: State, es: seq<Event>, i: nat)
    requires Opened(s) && i <= |es|
    requires forall k :: 0 <= k < i ==> !Underrun(After(cfg, s, es[..k]), es[k])
    ensures InOrder(After(cfg, s, es[..i]))
  {
    hide InOrder, Underrun, Next;
    if i == 0 {
      OpenedInOrder(s);
    } else {
      OrderKept(cfg, s, es, i - 1);
      AfterNext(cfg, s, es, i - 1);
      NextInOrder(cfg, After(cfg, s, es[..i - 1]), es[i - 1]);
    }
  }

  /** File order: all along a run the stitches are consumed once each, in the order of the file, and the program end
      waits for the last of them, exactly if no step takes a stitch from an empty queue. */
  lemma FileOrder(cfg: Config, s: State, es: seq<Event>)
    requires Opened(s)
    ensures (forall i :: 0 <= i <= |es| ==> InOrder(After(cfg, s, es[..i])))
            <==> (forall i :: 0 <= i < |es| ==> !Underrun(After(cfg, s, es[..i]), es[i]))
  {
    hide InOrder, Underrun, Next;
    if i :| 0 <= i < |es| && Underrun(After(cfg, s, es[..i]), es[i]) {
      if InOrder(After(cfg, s, es[..i])) {
        UnderrunBreaks(cfg, After(cfg, s, es[..i]), es[i]);
        AfterNext(cfg, s, es, i);
        assert !InOrder(After(cfg, s, es[..i + 1]));
      }
    } else {
      forall i | 0 <= i <= |es|
        ensures InOrder(After(cfg, s, es[..i]))
      {
        OrderKept(cfg, s, es, i);
      }
    }
  }

  /** Such a run exists: a consumer that runs before the reader takes whatever the slot holds. */
  lemma UnderrunHappens(cfg: Config, s: State)
    requires Opened(s) && s.flow.machine == MachineIdle
    ensures Underrun(s, Execute(0, 3, true)) && !InOrder(Next(cfg, s, Execute(0, 3, true)))
  {
    OpenedInOrder(s);
    UnderrunBreaks(cfg, s, Execute(0, 3, true));
  }

  // ----- counts

  function Count(sts: seq<Stitch>): Counts {
    if sts == [] then ZERO else Counted(Count(sts[..|sts| - 1]), sts[|sts| - 1].kind)
  }

  function Waiting(cs: seq<Chore>, c: Chore): nat {
    if cs == [] then 0 else Waiting(cs[..|cs| - 1], c) + if cs[|cs| - 1] == c then 1 else 0
  }

  lemma CountLast(sts: seq<Stitch>, st: Stitch)
    ensures Count(sts + [st]) == Counted(Count(sts), st.kind)
  {
    assert (sts + [st])[..|sts|] == sts;
  }

  lemma {:induction false} WaitingFirst(cs: seq<Chore>, c: Chore)
    requires cs != []
    ensures Waiting(cs, c) == Waiting(cs[1..], c) + if cs[0] == c then 1 else 0
  {
    if |cs| == 1 {
      assert cs[..0] == [] && cs[1..] == [];
    } else {
      WaitingFirst(cs[..|cs| - 1], c);
      assert cs[..|cs| - 1][1..] == cs[1..][..|cs| - 2];
    }
  }

  lemma WaitingLast(cs: seq<Chore>, d: Chore, c: Chore)
    ensures Waiting(cs + [d], c) == Waiting(cs, c) + if d == c then 1 else 0
  {
    assert (cs + [d])[..|cs|] == cs;
  }

  /** The consumed stitches are counted once each, trims and thread changes when their chore has run. */
  predicate Tallied(t: Tally, f: Flow, c: Counts) {
    && t.executed.jumps == c.jumps
    && t.exced == c.stitches
    && t.executed.trims + Waiting(f.chores, ThreadTrim) == c.trims
    && t.executed.changes + Waiting(f.chores, ThreadChange) == c.changes
  }

  /** In sync mode the needle is never more than one stitch behind, and then its trigger is awaited. */
  predicate Synchronised(t: Tally, f: Flow) {
    t.exced <= t.executed.stitches + if f.await.trigger then 1 else 0
  }

  predicate Accounted(cfg: Config, s: State) {
    && Sized(s)
    && s.tally.programmed == Count(s.feed.file[..s.feed.next])
    && Tallied(s.tally, s.flow, Count(s.log.consumed))
    && (cfg.sync ==> Synchronised(s.tally, s.flow))
  }

  lemma ReadAccounted(cfg: Config, s: State, junk: Stitch)
    requires Accounted(cfg, s)
    ensures Accounted(cfg, Reading(s, junk))
  {
    hide Count, Put, Full, Counted;
    if s.feed.next < |s.feed.file| {
      CountLast(s.feed.file[..s.feed.next], s.feed.file[s.feed.next]);
      assert s.feed.file[..s.feed.next + 1] == s.feed.file[..s.feed.next] + [s.feed.file[s.feed.next]];
    }
  }

  lemma TalliedFor(cfg: Config, t: Tally, f: Flow, c: Counts, st: Stitch, accepts: bool)
    requires Tallied(t, f, c)
    ensures Tallied(TallyFor(t, st.kind), FlowFor(cfg, f, st, accepts), Counted(c, st.kind))
    ensures TallyFor(t, st.kind).programmed == t.programmed
  {
    hide Waiting;
    if st.kind == Trim {
      WaitingLast(f.chores, ThreadTrim, ThreadTrim);
      WaitingLast(f.chores, ThreadTrim, ThreadChange);
    } else if st.kind == Stop {
      WaitingLast(f.chores, ThreadChange, ThreadTrim);
      WaitingLast(f.chores, ThreadChange, ThreadChange);
    }
  }

  lemma SynchronisedFor(cfg: Config, t: Tally, f: Flow, st: Stitch, accepts: bool)
    requires cfg.sync && Synchronised(t, f) && f.await == NOTHING
    ensures Synchronised(TallyFor(t, st.kind), FlowFor(cfg, f, st, accepts))
  {
  }

  lemma ConsumeAccounted(cfg: Config, s: State, accepts: bool)
    requires Accounted(cfg, s) && s.flow.await == NOTHING
    ensures Accounted(cfg, Consuming(cfg, s, accepts))
  {
    hide Count, LogFor, MotorFor, TallyFor, FlowFor, LookedAhead, Tallied, Synchronised;
    LogConsumed(cfg, s.log, Head(s.ring));
    CountLast(s.log.consumed, Head(s.ring));
    TalliedFor(cfg, s.tally, s.flow, Count(s.log.consumed), Head(s.ring), accepts);
    if cfg.sync {
      SynchronisedFor(cfg, s.tally, s.flow, Head(s.ring), accepts);
    }
  }

  lemma ChoreAccounted(cfg: Config, s: State)
    requires Accounted(cfg, s)
    ensures Accounted(cfg, ChoreRun(s))
  {
    hide Count, Waiting;
    if s.flow.chores != [] {
      WaitingFirst(s.flow.chores, ThreadTrim);
      WaitingFirst(s.flow.chores, ThreadChange);
    }
  }

  lemma NextAccounted(cfg: Config, s: State, e: Event)
    requires Accounted(cfg, s)
    ensures Accounted(cfg, Next(cfg, s, e))
  {
    hide Count, Waiting, Consuming, Reading, ChoreRun;
    match e
    case Read(junk) => ReadAccounted(cfg, s, junk);
    case Execute(ticks, room, accepts) =>
      if Consumes(s, room) {
        ConsumeAccounted(cfg, s.(motor := Timed(s.motor, ticks)), accepts);
      }
    case RunChore => ChoreAccounted(cfg, s);
    case _ =>
  }

  /** In every run, underrun or not, the programmed counts are those of the stitches read and the executed counts
      those of the stitches consumed; and in sync mode the machine never runs ahead of the needle. */
  lemma {:induction false} AlwaysAccounted(cfg: Config, s: State, es: seq<Event>)
    requires Opened(s)
    ensures Accounted(cfg, After(cfg, s, es))
    decreases |es|
  {
    hide Next;
    if es != [] {
      hide Accounted;
      AlwaysAccounted(cfg, s, es[..|es| - 1]);
      NextAccounted(cfg, After(cfg, s, es[..|es| - 1]), es[|es| - 1]);
    }
  }

  lemma {:induction false} CountsAdd(a: seq<Stitch>, b: seq<Stitch>)
    ensures Count(a + b).jumps == Count(a).jumps + Count(b).jumps
    ensures Count(a + b).stitches == Count(a).stitches + Count(b).stitches
    ensures Count(a + b).trims == Count(a).trims + Count(b).trims
    ensures Count(a + b).changes == Count(a).changes + Count(b).changes
    ensures Count(a + b).sequins == Count(a).sequins + Count(b).sequins
  {
    if b == [] {
      assert a + b == a;
    } else {
      CountsAdd(a, b[..|b| - 1]);
      assert (a + b)[..|a + b| - 1] == a + b[..|b| - 1];
    }
  }

  /** Without underrun every programmed stitch of any kind is executed, left to the foreground or queued. */
  lemma ProgrammedIsConsumedAndQueued(cfg: Config, s: State, es: seq<Event>)
    requires Opened(s)
    requires forall i :: 0 <= i < |es| ==> !Underrun(After(cfg, s, es[..i]), es[i])
    ensures var r := After(cfg, s, es);
      && r.tally.programmed.stitches == r.tally.exced + Count(Contents(r.ring)).stitches
      && r.tally.programmed.jumps == r.tally.executed.jumps + Count(Contents(r.ring)).jumps
      && r.tally.programmed.trims
         == r.tally.executed.trims + Waiting(r.flow.chores, ThreadTrim) + Count(Contents(r.ring)).trims
      && r.tally.programmed.changes
         == r.tally.executed.changes + Waiting(r.flow.chores, ThreadChange) + Count(Contents(r.ring)).changes
      && r.tally.programmed.sequins == Count(r.log.consumed).sequins + Count(Contents(r.ring)).sequins
  {
    hide Next, Underrun, Contents;
    OrderKept(cfg, s, es, |es|);
    assert es[..|es|] == es;
    AlwaysAccounted(cfg, s, es);
    var r := After(cfg, s, es);
    CountsAdd(r.log.consumed, Contents(r.ring));
  }

  // ----- motion

  /** The sum of the offsets of all stitches but sequins. */
  function Offset(sts: seq<Stitch>): (real, real) {
    if sts == [] then (0.0, 0.0) else
      var before, st := Offset(sts[..|sts| - 1]), sts[|sts| - 1];
      if st.kind == SequinEject then before else (before.0 + st.x, before.1 + st.y)
  }

  predicate AnyNormal(sts: seq<Stitch>) {
    exists i :: 0 <= i < |sts| && sts[i].kind == Normal
  }

  /** Where the needle is after the stitches: the start and all offsets; outside sync mode raised once a stitch is
      made. */
  function Place(cfg: Config, start: Coord, sts: seq<Stitch>): Coord {
    Coord(start.x + Offset(sts).0, start.y + Offset(sts).1,
          if !cfg.sync && AnyNormal(sts) then cfg.zTravel else start.z)
  }

  /** The moves of a stitch: to its place, and outside sync mode down and up there. */
  function Legs(cfg: Config, start: Coord, before: seq<Stitch>, st: Stitch): seq<Coord> {
    var p := Place(cfg, start, before + [st]);
    match st.kind
    case Normal =>
      if cfg.sync then [p]
      else [p.(z := Place(cfg, start, before).z)] + [p.(z := -cfg.zTravel)] + [p.(z := cfg.zTravel)]
    case Jump => if Moves(st) then [p] else []
    case Trim => [p]
    case _ => []
  }

  function Plan(cfg: Config, start: Coord, sts: seq<Stitch>): seq<Coord> {
    if sts == [] then [] else
      var before := sts[..|sts| - 1];
      Plan(cfg, start, before) + Legs(cfg, start, before, sts[|sts| - 1])
  }

  predicate Placed(cfg: Config, start: Coord, l: Log) {
    l.position == Place(cfg, start, l.consumed) && l.lines == Plan(cfg, start, l.consumed)
  }

  lemma PlaceLast(cfg: Config, start: Coord, sts: seq<Stitch>, st: Stitch)
    ensures var p, q := Place(cfg, start, sts), Place(cfg, start, sts + [st]);
      && q.x == (if st.kind == SequinEject then p.x else p.x + st.x)
      && q.y == (if st.kind == SequinEject then p.y else p.y + st.y)
      && q.z == if st.kind == Normal && !cfg.sync then cfg.zTravel else p.z
  {
    var all := sts + [st];
    assert all[..|sts|] == sts;
    if st.kind == Normal {
      assert all[|sts|].kind == Normal;
    } else if AnyNormal(sts) {
      var i :| 0 <= i < |sts| && sts[i].kind == Normal;
      assert all[i].kind == Normal;
    }
  }

  lemma PlanLast(cfg: Config, start: Coord, sts: seq<Stitch>, st: Stitch)
    ensures Plan(cfg, start, sts + [st]) == Plan(cfg, start, sts) + Legs(cfg, start, sts, st)
  {
    hide Place;
    assert (sts + [st])[..|sts|] == sts;
  }

  lemma LogPlaced(cfg: Config, start: Coord, l: Log, st: Stitch)
    requires Placed(cfg, start, l)
    ensures Placed(cfg, start, LogFor(cfg, l, st))
  {
    hide Place, Plan;
    PlaceLast(cfg, start, l.consumed, st);
    PlanLast(cfg, start, l.consumed, st);
  }

  lemma NextPlaced(cfg: Config, start: Coord, s: State, e: Event)
    requires Sized(s) && Placed(cfg, start, s.log)
    ensures Placed(cfg, start, Next(cfg, s, e).log)
  {
    hide Placed, LogFor, MotorFor, TallyFor, FlowFor, LookedAhead;
    if e.Execute? && Consumes(s, e.room) {
      LogPlaced(cfg, start, s.log, Head(s.ring));
    }
  }

  /** In every run the position is the start plus the offsets of the consumed stitches, and the planned moves are
      those of the consumed stitches, each at the sum of the offsets up to it. */
  lemma {:induction false} AlwaysPlaced(cfg: Config, s: State, es: seq<Event>)
    requires Opened(s)
    ensures Placed(cfg, s.log.position, After(cfg, s, es).log)
    decreases |es|
  {
    hide Next;
    if es != [] {
      hide Placed;
      AlwaysPlaced(cfg, s, es[..|es| - 1]);
      NextPlaced(cfg, s.log.position, After(cfg, s, es[..|es| - 1]), es[|es| - 1]);
    }
  }

  /** Moves are planned only by a consumer that saw room for three blocks and awaits nothing, and never more than
      three of them. */
  lemma PlansAtMostThree(cfg: Config, s: State, e: Event)
    requires Sized(s)
    ensures var before, after := s.log.lines, Next(cfg, s, e).log.lines;
      && before <= after && |after| <= |before| + 3
      && (before != after ==> e.Execute? && e.room >= 3 && s.flow.await == NOTHING)
  {
    hide MotorFor, TallyFor, FlowFor, LookedAhead;
  }

  // ----- the needle motor

  predicate RunsOnlyStitching(m: Motor) {
    m.stop == 0 && (m.on ==> m.stitching)
  }

  lemma NextMotor(cfg: Config, s: State, e: Event)
    requires Sized(s) && cfg.stopDelay == 0 && RunsOnlyStitching(s.motor)
    ensures RunsOnlyStitching(Next(cfg, s, e).motor)
  {
    hide LogFor, TallyFor, FlowFor;
  }

  /** Without a stop delay the needle motor runs only while stitching, in every run that begins with it off. */
  lemma {:induction false} MotorStops(cfg: Config, s: State, es: seq<Event>)
    requires Opened(s) && cfg.stopDelay == 0 && s.motor.stop == 0 && !s.motor.on
    ensures RunsOnlyStitching(After(cfg, s, es).motor)
    decreases |es|
  {
    hide Next;
    if es != [] {
      hide RunsOnlyStitching;
      MotorStops(cfg, s, es[..|es| - 1]);
      NextMotor(cfg, After(cfg, s, es[..|es| - 1]), es[|es| - 1]);
    }
  }
}
