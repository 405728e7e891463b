/**
 The embroidery job record and the handlers that update it.
 */
module EmbroideryRunner {
  import opened StitchRing
  import opened EmbroideryJob

  class Job {
    const cfg: Config
    const slots: array<Stitch>
    var head: nat
    var tail: nat
    var feed: Feed
    var motor: Motor
    var tally: Tally
    var flow: Flow
    var log: Log

    function View(): State
      reads this, slots
    {
      State(Ring(slots[..], head, tail), feed, motor, tally, flow, log)
    }

    predicate Valid()
      reads this, slots
    {
      EmbroideryJob.Sized(View())
    }

    constructor (cfg: Config, empty: Stitch)
      ensures Valid() && fresh(slots) && this.cfg == cfg && feed.completed
    {
      this.cfg := cfg;
      slots := new Stitch[SIZE](_ => empty);
      head, tail := 0, 0;
      feed := Feed([], 0, false, true, false);
      motor := Motor(false, 0, 0, false, false);
      tally := Tally(ZERO, ZERO, 0, 0);
      flow := Flow(NOTHING, MachineIdle, 0, []);
      log := Log(Coord(0.0, 0.0, 0.0), [], []);
    }

    /** Starts the job of a file at the machine's position; a trim or thread change that an earlier job left to the
        foreground is still to come. */
    method Open(file: seq<Stitch>, position: Coord)
      requires Valid()
      modifies this
      ensures Valid() && feed.file == file && log.position == position
      ensures Opened(View()) <==> old(flow.chores) == []
      ensures motor == old(motor).(stitching := false) && flow == old(flow).(await := NOTHING)
    {
      feed := Feed(file, 0, false, false, false);
      head, tail := 0, 0;
      motor := motor.(stitching := false);
      flow := flow.(await := NOTHING);
      tally := Tally(ZERO, ZERO, 0, 0);
      log := Log(position, [], []);
    }

    method SpindleControl(on: bool)
      modifies this`motor
      ensures motor == old(motor).(on := on)
    {
      if motor.on != on {
        motor := motor.(on := on);
      }
    }

    method EndJob()
      modifies this`feed, this`motor
      ensures feed == old(feed).(completed := true, enqueued := true)
      ensures motor == old(motor).(on := false)
    {
      feed := feed.(completed := true, enqueued := true);
      SpindleControl(false);
    }

    /** The driver reset. */
    method Reset()
      requires Valid()
      modifies this`feed, this`motor
      ensures Valid() && View() == Next(cfg, old(View()), Event.Reset)
    {
      EndJob();
    }

    /** Reads at most one stitch into the queue. */
    method SdcardRead(junk: Stitch)
      requires Valid()
      modifies this`head, this`feed, this`tally, slots
      ensures Valid() && View() == Next(cfg, old(View()), Read(junk))
    {
      ghost var q := Ring(slots[..], head, tail);
      if !feed.enqueued {
        var bptr := Slot(head + 1);
        if bptr != tail {
          if feed.next < |feed.file| {
            var st := feed.file[feed.next];
            slots[head] := st;
            assert slots[..] == q.slots[q.head := st];
            feed := feed.(next := feed.next + 1);
            match st.kind {
              case Normal => tally := tally.(programmed := tally.programmed.(stitches := tally.programmed.stitches + 1));
              case Jump => tally := tally.(programmed := tally.programmed.(jumps := tally.programmed.jumps + 1));
              case Trim => tally := tally.(programmed := tally.programmed.(trims := tally.programmed.trims + 1));
              case Stop => tally := tally.(programmed := tally.programmed.(changes := tally.programmed.changes + 1));
              case SequinEject => tally := tally.(programmed := tally.programmed.(sequins := tally.programmed.sequins + 1));
            }
            head := bptr;
          } else {
            slots[head] := junk;
            assert slots[..] == q.slots[q.head := junk];
            feed := feed.(enqueued := true);
          }
        }
      }
    }

    /** The consumer. */
    method OnExecuteRealtime(ticks: nat, room: nat, accepts: bool)
      requires Valid()
      modifies this
      ensures Valid() && View() == Next(cfg, old(View()), Execute(ticks, room, accepts))
    {
      hide Consuming;
      if feed.completed {
        return;
      }
      if motor.stop != 0 && (ticks - motor.lastTrigger) % TICKS >= motor.stop {
        SpindleControl(false);
        motor := motor.(stop := 0);
      }
      if flow.await != NOTHING {
        return;
      }
      if feed.enqueued && tail == head {
        EndJob();
        feed := feed.(finished := true);
        return;
      }
      if room < 3 {
        return;
      }
      if !motor.stitching && slots[tail].kind == Normal && flow.machine != MachineIdle {
        return;
      }
      Consume(accepts);
    }

    /** Takes the stitch at the tail and acts on it. */
    method Consume(accepts: bool)
      requires Valid()
      modifies this
      ensures Valid() && View() == Consuming(cfg, old(View()), accepts)
    {
      var st := slots[tail];
      tail := Slot(tail + 1);
      LookAhead();
      motor := motor.(stitching := st.kind == Normal);
      if !motor.stitching && cfg.stopDelay == 0 {
        motor := motor.(on := false, stop := 0);
      }
      Perform(st, accepts);
    }

    /** While stitching, looks at the stitch behind the one taken. */
    method LookAhead()
      requires Valid()
      modifies this`motor
      ensures motor == LookedAhead(cfg, old(motor), View().ring)
    {
      if motor.stitching {
        if tail != head && slots[tail].kind != Normal {
          if slots[tail].kind == Jump {
            motor := motor.(jumpOut := true);
          } else if cfg.stopDelay != 0 {
            motor := motor.(stop := cfg.stopDelay);
          }
        }
      }
    }

    /** Moves the position by the stitch's offset. */
    method Move(st: Stitch)
      modifies this`log
      ensures log == old(log).(position := log.position)
      ensures log.position == old(log.position).(x := old(log.position.x) + st.x, y := old(log.position.y) + st.y)
    {
      log := log.(position := log.position.(x := log.position.x + st.x, y := log.position.y + st.y));
    }

    /** Plans a move to the position. */
    method McLine()
      modifies this`log
      ensures log == old(log).(lines := old(log.lines) + [log.position])
    {
      log := log.(lines := log.lines + [log.position]);
    }

    /** The branches on the stitch's kind; `motor` already knows whether it is stitching. */
    method Perform(st: Stitch, accepts: bool)
      requires motor.stitching == (st.kind == Normal)
      modifies this`motor, this`tally, this`flow, this`log
      ensures tally == TallyFor(old(tally), st.kind) && flow == FlowFor(cfg, old(flow), st, accepts)
      ensures log == LogFor(cfg, old(log), st)
      ensures motor == match st.kind
        case Normal => old(motor).(on := true)
        case Jump => old(motor)
        case Trim => old(motor).(stop := cfg.stopDelay)
        case Stop => old(motor).(stop := cfg.stopDelay)
        case SequinEject => old(motor)
    {
      match st.kind {
        case Normal =>
          tally := tally.(exced := tally.exced + 1);
          Move(st);
          if !motor.on {
            SpindleControl(true);
          }
          McLine();
          flow := flow.(await := flow.await.(trigger := cfg.sync));
          if !flow.await.trigger {
            log := log.(position := log.position.(z := -cfg.zTravel));
            McLine();
            log := log.(position := log.position.(z := cfg.zTravel));
            McLine();
          }
        case Jump =>
          tally := tally.(executed := tally.executed.(jumps := tally.executed.jumps + 1));
          Move(st);
          if st.x != 0.0 || st.y != 0.0 {
            McLine();
            flow := flow.(await := flow.await.(jump := accepts));
          } else {
            flow := flow.(await := flow.await.(jump := false));
          }
        case Trim =>
          flow := flow.(await := flow.await.(pause := true));
          motor := motor.(stop := cfg.stopDelay);
          Move(st);
          McLine();
          flow := flow.(chores := flow.chores + [ThreadTrim]);
        case Stop =>
          flow := flow.(await := flow.await.(pause := true));
          Move(st);
          flow := flow.(color := st.color, chores := flow.chores + [ThreadChange]);
          motor := motor.(stop := cfg.stopDelay);
        case SequinEject =>
      }
      log := log.(consumed := log.consumed + [st]);
    }

    /** The needle has come to its upper position. */
    method SetNeedleTrigger(ticks: nat)
      requires Valid()
      modifies this`motor, this`tally, this`flow
      ensures Valid() && View() == Next(cfg, old(View()), Trigger(ticks))
    {
      if flow.await.trigger {
        if flow.machine == MachineCycle {
          tally := tally.(errs := tally.errs + 1);
          return;
        }
        flow := flow.(await := flow.await.(trigger := false));
      }
      tally := tally.(executed := tally.executed.(stitches := tally.executed.stitches + 1));
      motor := motor.(lastTrigger := ticks);
    }

    method OnStateChanged(state: Machine)
      requires Valid()
      modifies this`motor, this`flow
      ensures Valid() && View() == Next(cfg, old(View()), Changed(state))
    {
      if flow.machine == state {
        return;
      }
      if state == MachineIdle {
        if flow.await.jump {
          motor := motor.(jumpOut := false);
          flow := flow.(await := flow.await.(jump := false));
        }
      }
      if flow.machine == MachineHold {
        flow := flow.(await := flow.await.(pause := false));
      }
      flow := flow.(machine := state);
    }

    /** The foreground runs the oldest trim or thread change. */
    method RunNextChore()
      requires Valid()
      modifies this`motor, this`tally, this`flow
      ensures Valid() && View() == Next(cfg, old(View()), RunChore)
    {
      if flow.chores != [] {
        var chore := flow.chores[0];
        flow := flow.(chores := flow.chores[1..]);
        SpindleControl(false);
        match chore {
          case ThreadTrim => tally := tally.(executed := tally.executed.(trims := tally.executed.trims + 1));
          case ThreadChange => tally := tally.(executed := tally.executed.(changes := tally.executed.changes + 1));
        }
      }
    }
  }
}
