/** The tracker object of klippy/extras/print_stats.py. Its fields are the
    object's attributes and its methods update them step by step, as the
    source does; every method is proved to leave the tracker in the state the
    corresponding JobModel function gives. The clock reading (`now`) and the
    extruder query (`epos`, `factor`) are parameters. */
module PrintStats {
  import Paths
  import opened JobModel

  class PrintStats {
    var filename: string
    var errorMessage: Option<string>
    var state: JobState
    var printStartTime: Option<real>
    var lastPauseTime: Option<real>
    var prevPauseDuration: real
    var lastEpos: real
    var filamentUsed: real
    var totalDuration: real
    var initDuration: real

    /** The tracker's fields as a value. */
    function Model(): Stats
      reads this
    {
      Stats(filename, errorMessage, state, printStartTime, lastPauseTime,
            prevPauseDuration, lastEpos, filamentUsed, totalDuration, initDuration)
    }

    ghost predicate Valid()
      reads this
    {
      Consistent(Model())
    }

    /** A new tracker starts out reset. */
    constructor ()
      ensures Valid() && Model() == ResetStats("")
    {
      new;
      Reset();
    }

    /** `reset`: back to standby with every accumulator cleared. */
    method Reset()
      modifies this
      ensures state == Standby && filename == "" && errorMessage == Some("")
      ensures prevPauseDuration == 0.0 && lastEpos == 0.0 && filamentUsed == 0.0
      ensures totalDuration == 0.0 && initDuration == 0.0
      ensures printStartTime.None? && lastPauseTime.None?
      ensures Model() == ResetStats("")
    {
      filename, errorMessage := "", Some("");
      state := Standby;
      prevPauseDuration, lastEpos := 0.0, 0.0;
      filamentUsed, totalDuration := 0.0, 0.0;
      printStartTime, lastPauseTime := None, None;
      initDuration := 0.0;
    }

    /** `_update_filament_usage` with the extruder reading `epos`, `factor`. */
    method UpdateFilamentUsage(epos: real, factor: real)
      requires factor != 0.0
      modifies this
      ensures Model() == Flush(old(Model()), epos, factor)
    {
      filamentUsed := filamentUsed + (epos - lastEpos) / factor;
      lastEpos := epos;
    }

    /** `note_start` at time `now` with the extruder at `epos`. */
    method NoteStart(now: real, epos: real)
      modifies this
      ensures Model() == Start(old(Model()), now, epos)
    {
      if printStartTime.None? {
        printStartTime := Some(now);
      } else if lastPauseTime.Some? {
        var pauseDuration := now - lastPauseTime.value;
        prevPauseDuration := prevPauseDuration + pauseDuration;
        lastPauseTime := None;
      }
      lastEpos := epos;
      state := Printing;
      errorMessage := Some("");
    }

    /** `note_pause` at time `now`; the extruder is read only when a pause
        interval opens. */
    method NotePause(now: real, epos: real, factor: real)
      requires lastPauseTime.None? ==> factor != 0.0
      modifies this
      ensures Model() == Pause(old(Model()), now, epos, factor)
    {
      if lastPauseTime.None? {
        lastPauseTime := Some(now);
        UpdateFilamentUsage(epos, factor);
      }
      if state != Error {
        state := Paused;
      }
    }

    /** `note_complete` at time `now`, ending the job with `outcome`.
        The source assigns the message from an undefined name (`message`
        instead of the parameter `error_message`), which raises before the
        message is stored; this method stores the parameter, as intended.
        JobModel.FinishAsWritten models the line as written. */
    method NoteComplete(outcome: JobState, message: Option<string>, now: real)
      requires printStartTime.Some?
      modifies this
      ensures Model() == Finish(old(Model()), outcome, message, now)
    {
      state := outcome;
      totalDuration := now - printStartTime.value;
      if filamentUsed < NoExtrusionThreshold {
        initDuration := totalDuration - prevPauseDuration;
      }
      printStartTime := None;
      errorMessage := message;
    }

    /** `get_status` at time `now`; the extruder is read only while a job is
        running and no pause interval is open. */
    method GetStatus(now: real, epos: real, factor: real) returns (snap: Snapshot)
      requires Valid() && (StatusFlushes(Model()) ==> factor != 0.0)
      modifies this
      ensures Valid()
      ensures (Model(), snap) == Status(old(Model()), now, epos, factor)
    {
      var timePaused := prevPauseDuration;
      if printStartTime.Some? {
        if lastPauseTime.Some? {
          timePaused := timePaused + (now - lastPauseTime.value);
        } else {
          UpdateFilamentUsage(epos, factor);
        }
        totalDuration := now - printStartTime.value;
        if filamentUsed < NoExtrusionThreshold {
          initDuration := totalDuration - timePaused;
        }
      }
      var printDuration := totalDuration - initDuration - timePaused;
      snap := Snapshot(filename, totalDuration, printDuration, filamentUsed,
                       StateName(state), errorMessage);
    }

    /** PRINT_STATS_START: runs `note_start` from standby, paused or error;
        otherwise replies with the reason and changes nothing. */
    method CmdStart(now: real, epos: real) returns (reply: Option<string>)
      requires Valid()
      modifies this
      ensures Valid()
      ensures reply == StartRejection(old(state))
      ensures Model() == if reply.None? then Start(old(Model()), now, epos) else old(Model())
    {
      if state == Printing {
        return Some("Print is already started");
      } else if state !in {Paused, Error, Standby} {
        return Some("Print is not reset to start");
      }
      NoteStart(now, epos);
      reply := None;
    }

    /** PRINT_STATS_PAUSE: runs `note_pause` while printing or in error;
        otherwise replies with the reason and changes nothing. */
    method CmdPause(now: real, epos: real, factor: real) returns (reply: Option<string>)
      requires Valid() && (lastPauseTime.None? ==> factor != 0.0)
      modifies this
      ensures Valid()
      ensures reply == PauseRejection(old(state))
      ensures Model() == if reply.None? then Pause(old(Model()), now, epos, factor) else old(Model())
    {
      if state !in {Printing, Error} {
        return Some("Print is not currently printing");
      }
      NotePause(now, epos, factor);
      reply := None;
    }

    /** PRINT_STATS_ERROR with the optional ERROR argument `error`. */
    method CmdError(error: Option<string>, now: real) returns (reply: Option<string>)
      requires Valid()
      modifies this
      ensures Valid()
      ensures reply == FinishRejection(old(state))
      ensures Model() == if reply.None? then Finish(old(Model()), Error, error, now) else old(Model())
    {
      if state !in {Printing, Paused} {
        return Some("Print is not currently printing");
      }
      NoteComplete(Error, error, now);
      reply := None;
    }

    /** PRINT_STATS_CANCEL. */
    method CmdCancel(now: real) returns (reply: Option<string>)
      requires Valid()
      modifies this
      ensures Valid()
      ensures reply == FinishRejection(old(state))
      ensures Model() == if reply.None? then Finish(old(Model()), Cancel, Some(""), now) else old(Model())
    {
      if state !in {Printing, Paused} {
        return Some("Print is not currently printing");
      }
      NoteComplete(Cancel, Some(""), now);
      reply := None;
    }

    /** PRINT_STATS_COMPLETE. */
    method CmdComplete(now: real) returns (reply: Option<string>)
      requires Valid()
      modifies this
      ensures Valid()
      ensures reply == FinishRejection(old(state))
      ensures Model() == if reply.None? then Finish(old(Model()), Complete, Some(""), now) else old(Model())
    {
      if state !in {Printing, Paused} {
        return Some("Print is not currently printing");
      }
      NoteComplete(Complete, Some(""), now);
      reply := None;
    }

    /** PRINT_STATS_RESET with the optional FILENAME argument `name`: always
        resets, then records the base name of a non-empty FILENAME. */
    method CmdReset(name: Option<string>)
      modifies this
      ensures Valid()
      ensures Model() == ResetStats(ResetName(name))
    {
      Reset();
      if name.Some? && name.value != "" {
        filename := Paths.Basename(name.value);
      }
    }
  }

  // -----------------------------------------------------------------------
  // Clients: what a caller can conclude from the methods' contracts alone.

  /** Start at time 0 with the extruder at 0; by time 5 it has reached 10
      with factor 1. The job reports 10 units used over 5 seconds, all of
      them printing time. */
  method ExtrusionScenario() returns (snap: Snapshot)
    ensures snap == Snapshot("", 5.0, 5.0, 10.0, "printing", Some(""))
  {
    var p := new PrintStats();
    var reply := p.CmdStart(0.0, 0.0);
    snap := p.GetStatus(5.0, 10.0, 1.0);
  }

  /** Start at time 0, pause at time 3 without any extrusion: 3 seconds
      elapsed, none of them printing time. */
  method PauseWithoutExtrusionScenario() returns (snap: Snapshot)
    ensures snap.totalDuration == 3.0 && snap.printDuration == 0.0
    ensures snap.filamentUsed == 0.0 && snap.state == "paused"
  {
    var p := new PrintStats();
    var reply := p.CmdStart(0.0, 0.0);
    assert p.Model() == ResetStats("").(printStartTime := Some(0.0), state := Printing);
    reply := p.CmdPause(3.0, 0.0, 1.0);
    assert p.Model() == ResetStats("").(printStartTime := Some(0.0), lastPauseTime := Some(3.0),
                                        state := Paused);
    snap := p.GetStatus(3.0, 0.0, 1.0);
  }

  /** A second PRINT_STATS_START while printing is refused and the job keeps
      printing; after PRINT_STATS_ERROR the job reports the error message,
      and a later CANCEL is refused. */
  method RefusalScenario() returns (again: Option<string>, cancel: Option<string>, snap: Snapshot)
    ensures again == Some("Print is already started")
    ensures cancel == Some("Print is not currently printing")
    ensures snap.state == "error" && snap.message == Some("nozzle jam")
    ensures snap.totalDuration == 4.0
  {
    var p := new PrintStats();
    var reply := p.CmdStart(1.0, 0.0);
    again := p.CmdStart(2.0, 0.0);
    reply := p.CmdError(Some("nozzle jam"), 5.0);
    cancel := p.CmdCancel(6.0);
    snap := p.GetStatus(7.0, 0.0, 1.0);
  }

  /** PRINT_STATS_RESET FILENAME=gcodes/part.gcode records "part.gcode". */
  method ResetFilenameScenario() returns (snap: Snapshot)
    ensures snap == Snapshot("part.gcode", 0.0, 0.0, 0.0, "standby", Some(""))
  {
    var p := new PrintStats();
    p.CmdReset(Some("gcodes/part.gcode"));
    snap := p.GetStatus(9.0, 3.0, 1.0);
  }

  /** Start at 0, extruder 0 -> 10 by a query at 5, PAUSE at 10, ERROR at 20,
      START at 100, query at 101: the pause opened at 10 is still counted, so
      the job reports -90 seconds of printing. */
  method StalePauseScenario() returns (snap: Snapshot)
    ensures snap.state == "printing" && snap.totalDuration == 1.0
    ensures snap.printDuration == -90.0
  {
    var p := new PrintStats();
    var reply := p.CmdStart(0.0, 0.0);
    snap := p.GetStatus(5.0, 10.0, 1.0);
    assert p.filamentUsed == 10.0 && p.initDuration == 0.0 && p.state == Printing;
    reply := p.CmdPause(10.0, 10.0, 1.0);
    assert p.lastPauseTime == Some(10.0) && p.state == Paused;
    reply := p.CmdError(None, 20.0);
    assert p.state == Error && p.lastPauseTime == Some(10.0) && p.initDuration == 0.0;
    reply := p.CmdStart(100.0, 10.0);
    assert p.printStartTime == Some(100.0) && p.lastPauseTime == Some(10.0);
    assert p.prevPauseDuration == 0.0 && p.filamentUsed == 10.0;
    snap := p.GetStatus(101.0, 10.0, 1.0);
  }
}
