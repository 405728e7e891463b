/**
 What an embroidery job does on the whole: which colour a thread change asks for, what each stitch waits for, when the
 motor runs, and that every job can be finished.
 */
module EmbroideryLaws {
  import opened StitchRing
  import opened EmbroideryJob

  // ----- when a stitch is taken and what ends a job

  /** The stitch at the tail may be taken now. */
  predicate MayTake(s: State, e: Event)
    requires EmbroideryJob.Sized(s)
  {
    && e.Execute? && e.room >= 3 && !s.feed.completed && s.flow.await == Await(false, false, false)
    && !(s.feed.enqueued && s.ring.head == s.ring.tail)
    && (s.ring.slots[s.ring.tail].kind == Normal ==> s.motor.stitching || s.flow.machine == MachineIdle)
  }

  lemma TakesExactly(cfg: Config, s: State, e: Event)
    requires EmbroideryJob.Sized(s)
    ensures Next(cfg, s, e).log.consumed
      == s.log.consumed + if MayTake(s, e) then [s.ring.slots[s.ring.tail]] else []
  {
    hide MotorFor, TallyFor, FlowFor, LookedAhead, LogFor, Reading;
    ReadingKeepsLog(s, e);
    if MayTake(s, e) {
      LogConsumed(cfg, s.log, s.ring.slots[s.ring.tail]);
    }
  }

  lemma ReadingKeepsLog(s: State, e: Event)
    requires EmbroideryJob.Sized(s)
    ensures e.Read? ==> Reading(s, e.junk).log == s.log && Reading(s, e.junk).motor == s.motor
    ensures e.Read? ==> Reading(s, e.junk).flow == s.flow && Reading(s, e.junk).feed.completed == s.feed.completed
  {
  }

  /** The end of the program is reported exactly when the queue has run empty behind the end of the file. */
  lemma FinishesExactly(cfg: Config, s: State, e: Event)
    requires EmbroideryJob.Sized(s)
    ensures var t := Next(cfg, s, e);
      var over := e.Execute? && !s.feed.completed && s.flow.await == Await(false, false, false)
                  && s.feed.enqueued && s.ring.head == s.ring.tail;
      && t.feed.finished == (s.feed.finished || over)
      && t.feed.completed == (s.feed.completed || over || e == Reset)
      && (over || e == Reset ==> t.feed.enqueued && !t.motor.on)
  {
    hide MotorFor, TallyFor, FlowFor, LookedAhead, LogFor;
  }

  /** A poll of the reader puts the next stitch of the file behind all others, or notices the end of the file. */
  lemma ReadsExactly(cfg: Config, s: State, junk: Stitch)
    requires EmbroideryJob.Sized(s)
    ensures var t := Next(cfg, s, Read(junk));
      var room := !s.feed.enqueued && |Contents(s.ring)| < 7;
      var more := room && s.feed.next < |s.feed.file|;
      && t.feed.next == s.feed.next + (if more then 1 else 0)
      && Contents(t.ring) == Contents(s.ring) + (if more then [s.feed.file[s.feed.next]] else [])
      && t.feed.enqueued == (s.feed.enqueued || (room && !more))
  {
    hide Contents;
    EmptyContents(s.ring);
    FreeSlot(s.ring, junk);
    if !Full(s.ring) && s.feed.next < |s.feed.file| {
      PutContents(s.ring, s.feed.file[s.feed.next]);
    }
  }

  // ----- colours

  /** The colour of the last stop, or the first one. */
  function LastColor(sts: seq<Stitch>, first: nat): nat {
    if sts == [] then first
    else if sts[|sts| - 1].kind == Stop then sts[|sts| - 1].color
    else LastColor(sts[..|sts| - 1], first)
  }

  lemma FlowColor(cfg: Config, f: Flow, st: Stitch, accepts: bool)
    ensures FlowFor(cfg, f, st, accepts).color == if st.kind == Stop then st.color else f.color
  {
  }

  lemma NextColor(cfg: Config, s: State, e: Event, first: nat)
    requires EmbroideryJob.Sized(s) && s.flow.color == LastColor(s.log.consumed, first)
    ensures Next(cfg, s, e).flow.color == LastColor(Next(cfg, s, e).log.consumed, first)
  {
    hide MotorFor, TallyFor, FlowFor, LookedAhead, LogFor, Reading;
    ReadingKeepsLog(s, e);
    var st := s.ring.slots[s.ring.tail];
    if e.Execute? && Consumes(s, e.room) {
      FlowColor(cfg, s.flow, st, e.accepts);
      LogConsumed(cfg, s.log, st);
      assert (s.log.consumed + [st])[..|s.log.consumed|] == s.log.consumed;
    }
  }

  /** In every run the thread colour asked for is that of the last stop consumed. */
  lemma {:induction false} ColorOfLastStop(cfg: Config, s: State, es: seq<Event>)
    requires Opened(s)
    ensures After(cfg, s, es).flow.color == LastColor(After(cfg, s, es).log.consumed, s.flow.color)
    decreases |es|
  {
    hide Next;
    if es != [] {
      ColorOfLastStop(cfg, s, es[..|es| - 1]);
      NextColor(cfg, After(cfg, s, es[..|es| - 1]), es[|es| - 1], s.flow.color);
    }
  }

  // ----- waits

  /** For the machine to leave its hold, to come to rest, for the needle to come up. */
  datatype Wait = ForHold | ForRest | ForNeedle

  /** The wait that a stitch begins. */
  predicate Begins(cfg: Config, w: Wait, st: Stitch, accepted: bool) {
    match w
    case ForHold => st.kind == Trim || st.kind == Stop
    case ForRest => st.kind == Jump && (st.x != 0.0 || st.y != 0.0) && accepted
    case ForNeedle => st.kind == Normal && cfg.sync
  }

  /** The event that ends a wait. */
  predicate Ends(w: Wait, s: State, e: Event) {
    match w
    case ForHold => e.Changed? && s.flow.machine == MachineHold && e.state != MachineHold
    case ForRest => e.Changed? && s.flow.machine != MachineIdle && e.state == MachineIdle
    case ForNeedle => e.Trigger? && s.flow.machine != MachineCycle
  }

  predicate Waits(w: Wait, s: State) {
    match w
    case ForHold => s.flow.await.pause
    case ForRest => s.flow.await.jump
    case ForNeedle => s.flow.await.trigger
  }

  lemma FlowWaits(cfg: Config, f: Flow, st: Stitch, accepts: bool)
    requires f.await == Await(false, false, false)
    ensures var a := FlowFor(cfg, f, st, accepts).await;
      && a.pause == Begins(cfg, ForHold, st, accepts)
      && a.jump == Begins(cfg, ForRest, st, accepts)
      && a.trigger == Begins(cfg, ForNeedle, st, accepts)
  {
  }

  /** A wait begins with its stitch and with nothing else, ends with its event and with nothing else, and while it
      lasts no stitch is taken. */
  lemma WaitsExactly(cfg: Config, s: State, e: Event, w: Wait)
    requires EmbroideryJob.Sized(s)
    ensures Waits(w, Next(cfg, s, e))
      == if MayTake(s, e) then Begins(cfg, w, s.ring.slots[s.ring.tail], e.accepts) else Waits(w, s) && !Ends(w, s, e)
    ensures Waits(w, s) ==> !MayTake(s, e)
  {
    hide MotorFor, TallyFor, FlowFor, LookedAhead, LogFor, Reading;
    ReadingKeepsLog(s, e);
    if MayTake(s, e) {
      FlowWaits(cfg, s.flow, s.ring.slots[s.ring.tail], e.accepts);
    }
  }

  /** The state before event i of a run. */
  function Before(cfg: Config, s: State, es: seq<Event>, i: nat): (t: State)
    requires EmbroideryJob.Sized(s) && i <= |es|
    ensures EmbroideryJob.Sized(t)
  {
    After(cfg, s, es[..i])
  }

  lemma {:induction false} WaitLasts(cfg: Config, s: State, es: seq<Event>, w: Wait, i: nat, j: nat)
    requires EmbroideryJob.Sized(s) && i <= j <= |es| && Waits(w, Before(cfg, s, es, i))
    requires forall k :: i <= k < j ==> !Ends(w, Before(cfg, s, es, k), es[k])
    ensures Waits(w, Before(cfg, s, es, j))
    decreases j
  {
    hide Next, Waits, Ends, MayTake, Begins;
    if i < j {
      WaitLasts(cfg, s, es, w, i, j - 1);
      AfterNext(cfg, s, es, j - 1);
      WaitsExactly(cfg, Before(cfg, s, es, j - 1), es[j - 1], w);
    }
  }

  /** In every run: between a stitch that begins a wait and the next stitch taken lies the event that ends it. After a
      trim or a thread change the machine has left its hold, after an accepted jump it has come to rest, and in sync
      mode after a stitch the needle has come up. */
  lemma StitchesWait(cfg: Config, s: State, es: seq<Event>, w: Wait, i: nat, j: nat)
    requires EmbroideryJob.Sized(s) && i < j < |es|
    requires MayTake(Before(cfg, s, es, i), es[i]) && MayTake(Before(cfg, s, es, j), es[j])
    requires var t := Before(cfg, s, es, i); Begins(cfg, w, t.ring.slots[t.ring.tail], es[i].accepts)
    ensures exists k :: i < k < j && Ends(w, Before(cfg, s, es, k), es[k])
  {
    hide Next, Waits, Ends, MayTake, Begins;
    TakenIsExecute(Before(cfg, s, es, i), es[i]);
    AfterNext(cfg, s, es, i);
    WaitsExactly(cfg, Before(cfg, s, es, i), es[i], w);
    WaitsExactly(cfg, Before(cfg, s, es, j), es[j], w);
    if forall k :: i < k < j ==> !Ends(w, Before(cfg, s, es, k), es[k]) {
      WaitLasts(cfg, s, es, w, i + 1, j);
    }
  }

  lemma TakenIsExecute(s: State, e: Event)
    requires EmbroideryJob.Sized(s) && MayTake(s, e)
    ensures e.Execute?
  {
  }

  // ----- the needle motor and the jump output

  /** The stop delay has run out. */
  predicate TimeIsUp(s: State, e: Event) {
    e.Execute? && !s.feed.completed && s.motor.stop != 0
    && (e.ticks - s.motor.lastTrigger) % 0x1_0000_0000 >= s.motor.stop
  }

  /** A stitch that is not taken moves no motor: only time, the foreground, the end and a reset stop it, and only the
      trigger tells when it last ran. */
  lemma MotorAtRest(cfg: Config, s: State, e: Event)
    requires EmbroideryJob.Sized(s) && !MayTake(s, e)
    ensures var a, b := s.motor, Next(cfg, s, e).motor;
      var ended := Next(cfg, s, e).feed.completed && (e == Reset || !s.feed.completed);
      && b.on == (a.on && !TimeIsUp(s, e) && !ended && !(e.RunChore? && s.flow.chores != []))
      && b.stop == (if TimeIsUp(s, e) then 0 else a.stop)
      && b.stitching == a.stitching
      && b.lastTrigger == (if e.Trigger? && !(s.flow.await.trigger && s.flow.machine == MachineCycle) then e.ticks
                           else a.lastTrigger)
      && b.jumpOut == (a.jumpOut && !(s.flow.await.jump && Ends(ForRest, s, e)))
  {
    hide MotorFor, TallyFor, FlowFor, LookedAhead, LogFor, Reading;
    ReadingKeepsLog(s, e);
  }

  /** The kind of the stitch behind the one at the tail, if there is one. */
  function Behind(q: Ring): seq<Kind>
    requires StitchRing.Sized(q) && !Empty(q)
  {
    if |Contents(q)| > 1 then [Contents(q)[1].kind] else []
  }

  lemma BehindIsNext(q: Ring)
    requires StitchRing.Sized(q) && !Empty(q)
    ensures var r := Take(q);
      Behind(q) == if Empty(r) then [] else [Head(r).kind]
  {
    hide Contents;
    TakeContents(q);
    EmptyContents(Take(q));
    if !Empty(Take(q)) {
      TakeContents(Take(q));
    }
  }

  /**
   What taking a stitch does to the motor.  A stitch runs it and any other ends the stitching; without a stop delay
   that stops it, with one it runs on until the delay that a trim or a stop begins is up.  While stitching, a jump
   that comes next switches the jump output on ahead of time, and any other end of the stitching begins the delay.
   */
  lemma MotorTaken(cfg: Config, s: State, e: Event)
    requires EmbroideryJob.Sized(s) && MayTake(s, e) && !Empty(s.ring)
    ensures var a, b := s.motor, Next(cfg, s, e).motor;
      var k := s.ring.slots[s.ring.tail].kind;
      var endsWith := if a.stitching then Behind(s.ring) else [];
      var ends := endsWith != [] && endsWith != [Normal] && endsWith != [Jump];
      && b.stitching == (k == Normal)
      && b.lastTrigger == a.lastTrigger
      && b.on == (k == Normal || (a.on && !TimeIsUp(s, e) && cfg.stopDelay > 0))
      && b.jumpOut == (a.jumpOut || endsWith == [Jump])
      && b.stop == (if k == Trim || k == Stop then cfg.stopDelay
                    else if k != Normal && cfg.stopDelay == 0 then 0
                    else if ends && cfg.stopDelay > 0 then cfg.stopDelay
                    else if TimeIsUp(s, e) then 0 else a.stop)
  {
    hide TallyFor, FlowFor, LogFor, Contents, Behind;
    BehindIsNext(s.ring);
  }

  // ----- the other inputs

  /** The needle is counted, unless it comes up during a move that waits for it: that is an error and nothing else. */
  lemma NeedleCounted(cfg: Config, s: State, ticks: nat)
    requires EmbroideryJob.Sized(s)
    ensures var t := Next(cfg, s, Trigger(ticks));
      if s.flow.await.trigger && s.flow.machine == MachineCycle then
        t == s.(tally := t.tally) && t.tally == s.tally.(errs := s.tally.errs + 1)
      else
        && t.tally == s.tally.(executed := t.tally.executed)
        && t.tally.executed == s.tally.executed.(stitches := s.tally.executed.stitches + 1)
  {
  }

  /** Once a job is completed nothing more is read, taken or planned. */
  lemma CompletedIsOver(cfg: Config, s: State, e: Event)
    requires EmbroideryJob.Sized(s) && s.feed.completed && s.feed.enqueued
    ensures var t := Next(cfg, s, e); t.feed == s.feed && t.ring == s.ring && t.log == s.log
  {
  }

  /** The foreground runs the trims and thread changes one by one, oldest first; a taken one is added at the end. */
  lemma ChoresInTurn(cfg: Config, s: State, e: Event)
    requires EmbroideryJob.Sized(s)
    ensures var t := Next(cfg, s, e);
      var k := s.ring.slots[s.ring.tail].kind;
      if e.RunChore? && s.flow.chores != [] then
        t.flow.chores == s.flow.chores[1..]
      else if MayTake(s, e) && (k == Trim || k == Stop) then
        t.flow.chores == s.flow.chores + [if k == Trim then ThreadTrim else ThreadChange]
      else t.flow.chores == s.flow.chores
  {
    hide MotorFor, TallyFor, LookedAhead, LogFor, Reading;
    ReadingKeepsLog(s, e);
  }

  // ----- counts by kind

  function HowMany(sts: seq<Stitch>, k: Kind): nat {
    if sts == [] then 0 else HowMany(sts[..|sts| - 1], k) + if sts[|sts| - 1].kind == k then 1 else 0
  }

  lemma {:induction false} CountIsHowMany(sts: seq<Stitch>)
    ensures Count(sts) == Counts(HowMany(sts, Jump), HowMany(sts, Normal), HowMany(sts, Trim), HowMany(sts, Stop),
                                 HowMany(sts, SequinEject))
  {
    if sts != [] {
      CountIsHowMany(sts[..|sts| - 1]);
    }
  }

  /** In every run each programmed count is the number of stitches of its kind that were read. */
  lemma ProgrammedByKind(cfg: Config, s: State, es: seq<Event>)
    requires Opened(s)
    ensures var t := After(cfg, s, es);
      var read := s.feed.file[..t.feed.next];
      t.tally.programmed == Counts(HowMany(read, Jump), HowMany(read, Normal), HowMany(read, Trim),
                                   HowMany(read, Stop), HowMany(read, SequinEject))
  {
    hide Next, Count, HowMany;
    AlwaysAccounted(cfg, s, es);
    CountIsHowMany(s.feed.file[..After(cfg, s, es).feed.next]);
  }

  // ----- every job can be finished

  /** Nothing is queued or awaited, the machine is idle, and what was read is consumed. */
  predicate Resting(s: State) {
    && EmbroideryJob.Sized(s) && Empty(s.ring) && !s.feed.enqueued && !s.feed.completed
    && s.flow.await == Await(false, false, false) && s.flow.machine == MachineIdle
    && s.log.consumed == s.feed.file[..s.feed.next]
  }

  /** A stitch is read and waits to be taken. */
  predicate Queued(s: State) {
    && EmbroideryJob.Sized(s) && 0 < s.feed.next && !Empty(s.ring) && Empty(Take(s.ring))
    && !s.feed.enqueued && !s.feed.completed
    && s.flow.await == Await(false, false, false) && s.flow.machine == MachineIdle
    && s.log.consumed + [Head(s.ring)] == s.feed.file[..s.feed.next]
  }

  /** It is taken, and may be awaited. */
  predicate Done(s: State, machine: Machine) {
    && EmbroideryJob.Sized(s) && Empty(s.ring) && !s.feed.enqueued && !s.feed.completed
    && s.flow.machine == machine && s.log.consumed == s.feed.file[..s.feed.next]
  }

  lemma ReadOne(cfg: Config, s: State, junk: Stitch)
    requires Resting(s) && s.feed.next < |s.feed.file|
    ensures var t := Next(cfg, s, Read(junk)); Queued(t) && t.feed.next == s.feed.next + 1
  {
  }

  lemma TakeOne(cfg: Config, s: State)
    requires Queued(s)
    ensures var t := Next(cfg, s, Execute(0, 3, true)); Done(t, MachineIdle) && t.feed == s.feed
  {
    hide MotorFor, TallyFor, FlowFor, LookedAhead, LogFor;
    TakesExactly(cfg, s, Execute(0, 3, true));
    FlowMachine(cfg, s.flow, Head(s.ring), true);
  }

  lemma FlowMachine(cfg: Config, f: Flow, st: Stitch, accepts: bool)
    ensures FlowFor(cfg, f, st, accepts).machine == f.machine
  {
  }

  lemma Released(cfg: Config, s: State)
    requires Done(s, MachineIdle)
    ensures var t := Next(cfg, s, Trigger(0));
      var u := Next(cfg, t, Changed(MachineHold));
      var v := Next(cfg, u, Changed(MachineIdle));
      Resting(v) && v.feed == s.feed
  {
    hide Executing, Reading;
  }

  function OneStitch(junk: Stitch): seq<Event> {
    [Read(junk), Execute(0, 3, true), Trigger(0), Changed(MachineHold), Changed(MachineIdle)]
  }

  lemma AfterFirst(cfg: Config, s: State, e: Event, es: seq<Event>)
    requires EmbroideryJob.Sized(s)
    ensures After(cfg, s, [e] + es) == After(cfg, Next(cfg, s, e), es)
    decreases |es|
  {
    hide Next;
    if es == [] {
      assert [e] + es == [e] && [e][..0] == [];
    } else {
      AfterFirst(cfg, s, e, es[..|es| - 1]);
      assert ([e] + es)[..|es|] == [e] + es[..|es| - 1];
    }
  }

  lemma StitchDone(cfg: Config, s: State, junk: Stitch, rest: seq<Event>)
    requires Resting(s) && s.feed.next < |s.feed.file|
    ensures exists t: State :: Resting(t) && t.feed == s.feed.(next := s.feed.next + 1)
                               && After(cfg, s, OneStitch(junk) + rest) == After(cfg, t, rest)
  {
    hide Next, Resting, Queued, Done, After;
    RestingSized(s);
    var e3, e4 := Changed(MachineHold), Changed(MachineIdle);
    var s1 := Next(cfg, s, Read(junk));
    ReadOne(cfg, s, junk);
    var s2 := Next(cfg, s1, Execute(0, 3, true));
    TakeOne(cfg, s1);
    Released(cfg, s2);
    var s3 := Next(cfg, s2, Trigger(0));
    var s4 := Next(cfg, s3, e3);
    var s5 := Next(cfg, s4, e4);
    AfterFirst(cfg, s4, e4, rest);
    AfterFirst(cfg, s3, e3, [e4] + rest);
    AfterFirst(cfg, s2, Trigger(0), [e3] + ([e4] + rest));
    AfterFirst(cfg, s1, Execute(0, 3, true), [Trigger(0)] + ([e3] + ([e4] + rest)));
    AfterFirst(cfg, s, Read(junk), [Execute(0, 3, true)] + ([Trigger(0)] + ([e3] + ([e4] + rest))));
    assert OneStitch(junk) + rest
      == [Read(junk)] + ([Execute(0, 3, true)] + ([Trigger(0)] + ([e3] + ([e4] + rest))));
    FeedStep(cfg, s, junk);
  }

  lemma RestingSized(s: State)
    requires Resting(s)
    ensures EmbroideryJob.Sized(s)
  {
  }

  lemma FeedStep(cfg: Config, s: State, junk: Stitch)
    requires Resting(s) && s.feed.next < |s.feed.file|
    ensures Next(cfg, s, Read(junk)).feed == s.feed.(next := s.feed.next + 1)
  {
  }

  /** The end of the file is noticed and reported. */
  lemma LastRead(cfg: Config, s: State, junk: Stitch)
    requires Resting(s) && s.feed.next == |s.feed.file|
    ensures var t := Next(cfg, s, Read(junk));
      var u := Next(cfg, t, Execute(0, 3, true));
      u.feed.finished && u.log.consumed == s.feed.file
  {
    hide Consuming;
  }

  lemma {:induction false} CanFinishFrom(cfg: Config, s: State, junk: Stitch) returns (es: seq<Event>)
    requires Resting(s)
    ensures EmbroideryJob.Sized(s)
    ensures var t := After(cfg, s, es); t.feed.finished && t.log.consumed == s.feed.file
    decreases |s.feed.file| - s.feed.next
  {
    RestingSized(s);
    if s.feed.next == |s.feed.file| {
      LastRead(cfg, s, junk);
      hide Next, Resting, After;
      AfterFirst(cfg, Next(cfg, s, Read(junk)), Execute(0, 3, true), []);
      AfterFirst(cfg, s, Read(junk), [Execute(0, 3, true)] + []);
      NothingAfter(cfg, Next(cfg, Next(cfg, s, Read(junk)), Execute(0, 3, true)));
      es := [Read(junk)] + ([Execute(0, 3, true)] + []);
    } else {
      hide Next, After;
      StitchDone(cfg, s, junk, []);
      var t: State :| Resting(t) && t.feed == s.feed.(next := s.feed.next + 1)
                      && After(cfg, s, OneStitch(junk) + []) == After(cfg, t, []);
      var rest := CanFinishFrom(cfg, t, junk);
      hide Resting;
      AfterJoins(cfg, s, OneStitch(junk) + [], rest);
      NothingAfter(cfg, t);
      es := OneStitch(junk) + [] + rest;
    }
  }

  lemma NothingAfter(cfg: Config, s: State)
    requires EmbroideryJob.Sized(s)
    ensures After(cfg, s, []) == s
  {
  }

  lemma {:induction false} AfterJoins(cfg: Config, s: State, a: seq<Event>, b: seq<Event>)
    requires EmbroideryJob.Sized(s)
    ensures After(cfg, s, a + b) == After(cfg, After(cfg, s, a), b)
    decreases |b|
  {
    hide Next;
    if b == [] {
      assert a + b == a;
    } else {
      AfterJoins(cfg, s, a, b[..|b| - 1]);
      assert (a + b)[..|a + b| - 1] == a + b[..|b| - 1];
    }
  }

  /** Every job, of any file and in any mode, has a run that consumes the whole file and reports the end. */
  lemma CanFinish(cfg: Config, s: State, junk: Stitch) returns (es: seq<Event>)
    requires Opened(s)
    ensures var t := After(cfg, s, es); t.feed.finished && t.log.consumed == s.feed.file
  {
    var t := Next(cfg, s, Changed(MachineHold));
    var u := Next(cfg, t, Changed(MachineIdle));
    assert Resting(u) && u.feed == s.feed;
    var rest := CanFinishFrom(cfg, u, junk);
    hide Next, After;
    AfterFirst(cfg, t, Changed(MachineIdle), rest);
    AfterFirst(cfg, s, Changed(MachineHold), [Changed(MachineIdle)] + rest);
    es := [Changed(MachineHold)] + ([Changed(MachineIdle)] + rest);
  }
}
