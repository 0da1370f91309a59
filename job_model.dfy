/** The print-job tracker of klippy/extras/print_stats.py as values: the
    tracker's fields as one record, each notification as a function from the
    old record to the new one, and the status snapshot. The class in module
    PrintStats is proved against these functions. */
module JobModel {
  import Paths

  datatype Option<T> = None | Some(value: T)

  /** The six values the tracker's `state` string takes. */
  datatype JobState = Standby | Printing | Paused | Error | Cancel | Complete

  /** The literal string the tracker stores and reports for each state. */
  function StateName(s: JobState): (name: string)
  {
    match s
    case Standby => "standby"
    case Printing => "printing"
    case Paused => "paused"
    case Error => "error"
    case Cancel => "cancel"
    case Complete => "complete"
  }

  /** Filament below this many units counts as "no extrusion yet". */
  const NoExtrusionThreshold: real := 0.0000001

  /** Every field of the tracker. Times are seconds of the monotonic clock,
      positions and filament are extruder units; `None` stands for Python's
      `None`. `errorMessage` is `None` after an ERROR command without an
      ERROR argument. */
  datatype Stats = Stats(
    filename: string,
    errorMessage: Option<string>,
    state: JobState,
    printStartTime: Option<real>,
    lastPauseTime: Option<real>,
    prevPauseDuration: real,
    lastEpos: real,
    filamentUsed: real,
    totalDuration: real,
    initDuration: real)

  /** What a status query reports. */
  datatype Snapshot = Snapshot(
    filename: string,
    totalDuration: real,
    printDuration: real,
    filamentUsed: real,
    state: string,
    message: Option<string>)

  /** One reading of the environment taken when a notification is handled:
      the clock, the extruder position and the extrude factor. */
  datatype Reading = Reading(now: real, epos: real, factor: real)

  /** The tracker right after `reset`, with `filename` recorded afterwards. */
  function ResetStats(filename: string): (r: Stats)
    ensures r.state == Standby && r.filename == filename && r.errorMessage == Some("")
    ensures r.prevPauseDuration == 0.0 && r.lastEpos == 0.0 && r.filamentUsed == 0.0
    ensures r.totalDuration == 0.0 && r.initDuration == 0.0
    ensures r.printStartTime.None? && r.lastPauseTime.None?
  {
    Stats(filename, Some(""), Standby, None, None, 0.0, 0.0, 0.0, 0.0, 0.0)
  }

  /** The tracker's invariant, kept by every command and status query:
      a job start time is recorded exactly while a job is printing or paused,
      a paused job has an open pause interval, and a tracker in standby has
      not moved from its reset values. */
  ghost predicate Consistent(t: Stats)
  {
    && (t.printStartTime.Some? <==> t.state in {Printing, Paused})
    && (t.state == Paused ==> t.lastPauseTime.Some?)
    && (t.state == Standby ==> t == ResetStats(t.filename))
  }

  // ---------------------------------------------------------------------
  // Filament accounting

  /** Folds the extruder movement since the last reading into the filament
      total, scaled by the extrude factor, and takes the new baseline. */
  function Flush(t: Stats, epos: real, factor: real): (r: Stats)
    requires factor != 0.0
    ensures r.filamentUsed - t.filamentUsed == (epos - t.lastEpos) / factor
    ensures r.lastEpos == epos
    ensures r.(filamentUsed := t.filamentUsed, lastEpos := t.lastEpos) == t
  {
    t.(filamentUsed := t.filamentUsed + (epos - t.lastEpos) / factor, lastEpos := epos)
  }

  /** Successive flushes at the positions `es`, in order. */
  function FlushAll(t: Stats, es: seq<real>, factor: real): (r: Stats)
    requires factor != 0.0
    decreases |es|
  {
    if es == [] then t else FlushAll(Flush(t, es[0], factor), es[1..], factor)
  }

  lemma DivSum(a: real, b: real, f: real)
    requires f != 0.0
    ensures a / f + b / f == (a + b) / f
  {
  }

  /** Any run of flushes adds the net extruder movement from the old baseline
      to the last position, divided by the factor, and changes nothing else
      but the baseline. */
  lemma {:induction false} FlushAllTelescopes(t: Stats, es: seq<real>, factor: real)
    requires factor != 0.0 && es != []
    ensures FlushAll(t, es, factor).filamentUsed
            == t.filamentUsed + (es[|es| - 1] - t.lastEpos) / factor
    ensures FlushAll(t, es, factor).lastEpos == es[|es| - 1]
    ensures FlushAll(t, es, factor).(filamentUsed := t.filamentUsed, lastEpos := t.lastEpos) == t
    decreases |es|
  {
    var t1 := Flush(t, es[0], factor);
    if |es| > 1 {
      FlushAllTelescopes(t1, es[1..], factor);
      DivSum(es[0] - t.lastEpos, es[|es| - 1] - es[0], factor);
    }
  }

  /** With a positive factor and an extruder that never moves backwards, the
      filament total never decreases across any run of flushes. */
  lemma {:induction false} FlushAllMonotone(t: Stats, es: seq<real>, factor: real, k: nat)
    requires factor > 0.0
    requires forall i, j :: 0 <= i <= j < |es| ==> es[i] <= es[j]
    requires es != [] ==> t.lastEpos <= es[0]
    requires k <= |es|
    ensures FlushAll(t, es[..k], factor).filamentUsed <= FlushAll(t, es, factor).filamentUsed
    ensures t.filamentUsed <= FlushAll(t, es[..k], factor).filamentUsed
  {
    if k > 0 {
      FlushAllTelescopes(t, es[..k], factor);
      assert (es[k - 1] - t.lastEpos) / factor >= 0.0;
      FlushAllTelescopes(t, es, factor);
      assert (es[|es| - 1] - es[k - 1]) / factor >= 0.0;
      DivSum(es[k - 1] - t.lastEpos, es[|es| - 1] - es[k - 1], factor);
    } else {
      assert es[..k] == [];
      if es != [] {
        FlushAllTelescopes(t, es, factor);
        assert (es[|es| - 1] - t.lastEpos) / factor >= 0.0;
      }
    }
  }

  // ---------------------------------------------------------------------
  // Transitions

  /** `note_start`: begins a job or resumes a paused one. A first start
      records the start time and leaves any pause interval alone; a resume
      folds the open pause interval into the paused total and closes it. */
  function Start(t: Stats, now: real, epos: real): (r: Stats)
    ensures t.printStartTime.None? ==>
              && r.printStartTime == Some(now)
              && r.lastPauseTime == t.lastPauseTime
              && r.prevPauseDuration == t.prevPauseDuration
    ensures t.printStartTime.Some? && t.lastPauseTime.Some? ==>
              && r.printStartTime == t.printStartTime
              && r.prevPauseDuration == t.prevPauseDuration + (now - t.lastPauseTime.value)
              && r.lastPauseTime.None?
    ensures t.printStartTime.Some? && t.lastPauseTime.None? ==>
              && r.printStartTime == t.printStartTime
              && r.lastPauseTime.None?
              && r.prevPauseDuration == t.prevPauseDuration
    ensures r.lastEpos == epos && r.state == Printing && r.errorMessage == Some("")
    ensures && r.filename == t.filename && r.filamentUsed == t.filamentUsed
            && r.totalDuration == t.totalDuration && r.initDuration == t.initDuration
  {
    var timed :=
      if t.printStartTime.None? then t.(printStartTime := Some(now))
      else if t.lastPauseTime.Some? then
        t.(prevPauseDuration := t.prevPauseDuration + (now - t.lastPauseTime.value),
           lastPauseTime := None)
      else t;
    timed.(lastEpos := epos, state := Printing, errorMessage := Some(""))
  }

  /** `note_pause`: opens a pause interval and flushes filament, unless one is
      already open; the state becomes paused except that an error is kept. */
  function Pause(t: Stats, now: real, epos: real, factor: real): (r: Stats)
    requires t.lastPauseTime.None? ==> factor != 0.0
    ensures r.state == if t.state == Error then Error else Paused
    ensures t.lastPauseTime.Some? ==> r == t.(state := r.state)
    ensures t.lastPauseTime.None? ==>
              r == Flush(t, epos, factor).(lastPauseTime := Some(now), state := r.state)
  {
    var frozen :=
      if t.lastPauseTime.None? then Flush(t.(lastPauseTime := Some(now)), epos, factor)
      else t;
    if t.state != Error then frozen.(state := Paused) else frozen
  }

  /** `note_complete`, with the message stored as evidently intended (see
      FinishAsWritten): ends the job with the given outcome, freezes the
      total duration, attributes the whole unpaused time to the pre-extrusion
      phase when no filament was used, and clears the start time. */
  function Finish(t: Stats, outcome: JobState, message: Option<string>, now: real): (r: Stats)
    requires t.printStartTime.Some?
    ensures r.state == outcome && r.errorMessage == message && r.printStartTime.None?
    ensures r.totalDuration == now - t.printStartTime.value
    ensures r.initDuration == if t.filamentUsed < NoExtrusionThreshold
                               then r.totalDuration - t.prevPauseDuration
                               else t.initDuration
    ensures && r.filename == t.filename && r.lastPauseTime == t.lastPauseTime
            && r.prevPauseDuration == t.prevPauseDuration && r.lastEpos == t.lastEpos
            && r.filamentUsed == t.filamentUsed
  {
    var total := now - t.printStartTime.value;
    var init := if t.filamentUsed < NoExtrusionThreshold then total - t.prevPauseDuration
                else t.initDuration;
    t.(state := outcome, totalDuration := total, initDuration := init,
       printStartTime := None, errorMessage := message)
  }

  /** The outcome of `note_complete` exactly as written: the assignment of the
      message names a variable that does not exist, so the call raises after
      the state, durations and start time are already written. */
  datatype Raised = Raised(partial: Stats, exception: string)

  function FinishAsWritten(t: Stats, outcome: JobState, now: real): (r: Raised)
    requires t.printStartTime.Some?
    ensures r.partial == Finish(t, outcome, t.errorMessage, now)
    ensures r.exception == "NameError: name 'message' is not defined"
  {
    Raised(Finish(t, outcome, t.errorMessage, now), "NameError: name 'message' is not defined")
  }

  /** As written, PRINT_STATS_ERROR with a message while printing ends the
      job in the error state but never records the message: the tracker
      still reports the empty message that starting the job left. */
  lemma FinishAsWrittenLosesMessage(t: Stats, now: real)
    requires t.printStartTime.Some? && t.errorMessage == Some("")
    ensures FinishAsWritten(t, Error, now).partial.state == Error
    ensures FinishAsWritten(t, Error, now).partial.errorMessage != Some("nozzle jam")
    ensures Finish(t, Error, Some("nozzle jam"), now).errorMessage == Some("nozzle jam")
  {
  }

  // ---------------------------------------------------------------------
  // Status

  /** Seconds spent paused in the current job as of `now`: the closed
      intervals plus the open one, if a job is running and one is open. */
  function TimePaused(t: Stats, now: real): (paused: real)
  {
    if t.printStartTime.Some? && t.lastPauseTime.Some?
    then t.prevPauseDuration + (now - t.lastPauseTime.value)
    else t.prevPauseDuration
  }

  /** Whether a status query at this point reads the extruder. */
  predicate StatusFlushes(t: Stats)
  {
    t.printStartTime.Some? && t.lastPauseTime.None?
  }

  /** `get_status`: refreshes the cached durations (and, while printing, the
      filament total) and reports them. The pair holds the new tracker and the
      snapshot. */
  function Status(t: Stats, now: real, epos: real, factor: real): (r: (Stats, Snapshot))
    requires StatusFlushes(t) ==> factor != 0.0
    ensures t.printStartTime.None? ==> r.0 == t
    ensures t.printStartTime.Some? ==>
              && r.0.totalDuration == now - t.printStartTime.value
              && r.0.state == t.state && r.0.printStartTime == t.printStartTime
              && r.0.lastPauseTime == t.lastPauseTime
              && r.0.prevPauseDuration == t.prevPauseDuration
              && r.0.filename == t.filename && r.0.errorMessage == t.errorMessage
    ensures t.printStartTime.Some? && t.lastPauseTime.Some? ==>
              r.0.filamentUsed == t.filamentUsed && r.0.lastEpos == t.lastEpos
    ensures StatusFlushes(t) ==>
              r.0.filamentUsed == Flush(t, epos, factor).filamentUsed && r.0.lastEpos == epos
    ensures t.printStartTime.Some? ==>
              r.0.initDuration == if r.0.filamentUsed < NoExtrusionThreshold
                                  then r.0.totalDuration - TimePaused(t, now)
                                  else t.initDuration
    ensures r.1.printDuration == r.0.totalDuration - r.0.initDuration - TimePaused(t, now)
    ensures && r.1.filename == r.0.filename && r.1.totalDuration == r.0.totalDuration
            && r.1.filamentUsed == r.0.filamentUsed && r.1.state == StateName(r.0.state)
            && r.1.message == r.0.errorMessage
  {
    var paused := TimePaused(t, now);
    var t' :=
      if t.printStartTime.None? then t
      else
        var flushed := if t.lastPauseTime.Some? then t else Flush(t, epos, factor);
        var total := now - t.printStartTime.value;
        var init := if flushed.filamentUsed < NoExtrusionThreshold then total - paused
                    else flushed.initDuration;
        flushed.(totalDuration := total, initDuration := init);
    (t', Snapshot(t'.filename, t'.totalDuration, t'.totalDuration - t'.initDuration - paused,
                  t'.filamentUsed, StateName(t'.state), t'.errorMessage))
  }

  /** After a reset every query reports an idle, all-zero job, whatever the
      time and extruder reading. */
  lemma ResetThenStatus(name: string, now: real, epos: real, factor: real)
    ensures Status(ResetStats(name), now, epos, factor).1
            == Snapshot(name, 0.0, 0.0, 0.0, "standby", Some(""))
  {
  }

  /** Querying twice at the same instant reports the same snapshot and leaves
      the same tracker: the cached numbers do not drift. */
  lemma StatusIdempotent(t: Stats, now: real, epos: real, factor: real)
    requires factor != 0.0
    ensures Status(Status(t, now, epos, factor).0, now, epos, factor)
            == Status(t, now, epos, factor)
  {
  }

  /** While a job has used no filament, none of its elapsed time is reported
      as printing time. */
  lemma NoExtrusionNoPrintTime(t: Stats, now: real, epos: real, factor: real)
    requires StatusFlushes(t) ==> factor != 0.0
    requires t.printStartTime.Some?
    requires Status(t, now, epos, factor).0.filamentUsed < NoExtrusionThreshold
    ensures Status(t, now, epos, factor).1.printDuration == 0.0
  {
  }

  /** Pausing an already paused (or errored-and-frozen) job changes nothing. */
  lemma PauseIdempotent(t: Stats, now1: real, now2: real, epos1: real, epos2: real, factor: real)
    requires factor != 0.0
    ensures Pause(Pause(t, now1, epos1, factor), now2, epos2, factor) == Pause(t, now1, epos1, factor)
  {
  }

  // ---------------------------------------------------------------------
  // Commands

  /** The rejection reply of PRINT_STATS_START, or None when it runs. */
  function StartRejection(s: JobState): (reply: Option<string>)
    ensures reply.None? <==> s in {Paused, Error, Standby}
    ensures s in {Cancel, Complete} ==> reply == Some("Print is not reset to start")
  {
    if s == Printing then Some("Print is already started")
    else if s !in {Paused, Error, Standby} then Some("Print is not reset to start")
    else None
  }

  /** The rejection reply of PRINT_STATS_PAUSE, or None when it runs. */
  function PauseRejection(s: JobState): (reply: Option<string>)
    ensures reply.None? <==> s in {Printing, Error}
  {
    if s !in {Printing, Error} then Some("Print is not currently printing") else None
  }

  /** The rejection reply of PRINT_STATS_ERROR, _CANCEL and _COMPLETE, or
      None when they run. */
  function FinishRejection(s: JobState): (reply: Option<string>)
    ensures reply.None? <==> s in {Printing, Paused}
  {
    if s !in {Printing, Paused} then Some("Print is not currently printing") else None
  }

  /** The file name PRINT_STATS_RESET records: the base name of a non-empty
      FILENAME argument, else the empty string. */
  function ResetName(filename: Option<string>): (name: string)
    ensures filename.None? || filename == Some("") ==> name == ""
    ensures filename.Some? && filename.value != "" ==>
              '/' !in name && |name| <= |filename.value| && name == filename.value[|filename.value| - |name|..]
              && (|name| < |filename.value| ==> filename.value[|filename.value| - |name| - 1] == '/')
  {
    if filename.Some? && filename.value != "" then Paths.Basename(filename.value) else ""
  }

  /** The commands that drive the tracker; Poll is a status query. */
  datatype Command =
    | StartCmd
    | PauseCmd
    | ErrorCmd(error: Option<string>)
    | CancelCmd
    | CompleteCmd
    | ResetCmd(filename: Option<string>)
    | Poll

  /** One command handled with one environment reading: the new tracker and
      the rejection reply, if any. */
  function Step(t: Stats, c: Command, rd: Reading): (r: (Stats, Option<string>))
    requires Consistent(t) && rd.factor != 0.0
    ensures r.1.Some? ==> r.0 == t
  {
    match c
    case StartCmd =>
      var no := StartRejection(t.state);
      (if no.None? then Start(t, rd.now, rd.epos) else t, no)
    case PauseCmd =>
      var no := PauseRejection(t.state);
      (if no.None? then Pause(t, rd.now, rd.epos, rd.factor) else t, no)
    case ErrorCmd(error) =>
      var no := FinishRejection(t.state);
      (if no.None? then Finish(t, Error, error, rd.now) else t, no)
    case CancelCmd =>
      var no := FinishRejection(t.state);
      (if no.None? then Finish(t, Cancel, Some(""), rd.now) else t, no)
    case CompleteCmd =>
      var no := FinishRejection(t.state);
      (if no.None? then Finish(t, Complete, Some(""), rd.now) else t, no)
    case ResetCmd(filename) =>
      (ResetStats(ResetName(filename)), None)
    case Poll =>
      (Status(t, rd.now, rd.epos, rd.factor).0, None)
  }

  /** Every command and every status query keeps the invariant. */
  lemma StepConsistent(t: Stats, c: Command, rd: Reading)
    requires Consistent(t) && rd.factor != 0.0
    ensures Consistent(Step(t, c, rd).0)
  {
  }

  /** The tracker after a whole sequence of commands. */
  function Run(t: Stats, cs: seq<(Command, Reading)>): (r: Stats)
    requires Consistent(t)
    requires forall i :: 0 <= i < |cs| ==> cs[i].1.factor != 0.0
    decreases |cs|
  {
    if cs == [] then t
    else
      StepConsistent(t, cs[0].0, cs[0].1);
      Run(Step(t, cs[0].0, cs[0].1).0, cs[1..])
  }

  /** From any consistent tracker (in particular a freshly reset one), every
      sequence of commands and queries leads to a consistent tracker. */
  lemma {:induction false} RunConsistent(t: Stats, cs: seq<(Command, Reading)>)
    requires Consistent(t)
    requires forall i :: 0 <= i < |cs| ==> cs[i].1.factor != 0.0
    ensures Consistent(Run(t, cs))
    decreases |cs|
  {
    if cs != [] {
      StepConsistent(t, cs[0].0, cs[0].1);
      RunConsistent(Step(t, cs[0].0, cs[0].1).0, cs[1..]);
    }
  }

  /** Pausing in the error state keeps the error, and a following CANCEL is
      refused because the job is neither printing nor paused. */
  lemma ErrorPauseThenCancelRefused(t: Stats, rd: Reading, rd2: Reading)
    requires Consistent(t) && t.state == Error && rd.factor != 0.0 && rd2.factor != 0.0
    ensures Step(t, PauseCmd, rd).0.state == Error
    ensures Step(Step(t, PauseCmd, rd).0, CancelCmd, rd2)
            == (Step(t, PauseCmd, rd).0, Some("Print is not currently printing"))
  {
  }

  /** A job that errored, was paused and is started again prints with its
      pause interval still open: the first-start branch of `note_start` does
      not close it, so status queries treat the job as paused. */
  lemma ErrorPauseStartLeavesPauseOpen(t: Stats, rd1: Reading, rd2: Reading, rd3: Reading)
    requires Consistent(t) && t.state == Error && t.lastPauseTime.None?
    requires rd1.factor != 0.0 && rd2.factor != 0.0 && rd3.factor != 0.0
    ensures var t2 := Step(Step(t, PauseCmd, rd1).0, StartCmd, rd2).0;
            && t2.state == Printing
            && t2.lastPauseTime == Some(rd1.now)
            && t2.printStartTime == Some(rd2.now)
            && !StatusFlushes(t2)
  {
  }

  // ---------------------------------------------------------------------
  // The monotonic clock

  /** No time the tracker has recorded lies after `now`: what the monotonic
      clock guarantees for every later reading. */
  predicate NotAfter(t: Stats, now: real)
  {
    && (t.printStartTime.Some? ==> t.printStartTime.value <= now)
    && (t.lastPauseTime.Some? ==> t.lastPauseTime.value <= now)
  }

  /** With the clock not running backwards, no command but RESET lowers the
      paused total, and only a START from paused (a resume) changes it. */
  lemma StepPauseTotal(t: Stats, c: Command, rd: Reading)
    requires Consistent(t) && rd.factor != 0.0 && NotAfter(t, rd.now) && !c.ResetCmd?
    ensures Step(t, c, rd).0.prevPauseDuration >= t.prevPauseDuration
    ensures Step(t, c, rd).0.prevPauseDuration != t.prevPauseDuration ==>
              c == StartCmd && t.state == Paused
    ensures NotAfter(Step(t, c, rd).0, rd.now)
  {
  }

  /** Whether the readings of a command sequence come from a clock that never
      runs backwards, starting no earlier than `now`. */
  predicate ClockFrom(now: real, cs: seq<(Command, Reading)>)
  {
    && (cs != [] ==> now <= cs[0].1.now)
    && forall i :: 0 < i < |cs| ==> cs[i - 1].1.now <= cs[i].1.now
  }

  /** Within a job (no RESET), the paused total never decreases over any
      sequence of commands and queries read from a monotonic clock. */
  lemma {:induction false} RunPauseTotal(t: Stats, now: real, cs: seq<(Command, Reading)>)
    requires Consistent(t) && NotAfter(t, now)
    requires forall i :: 0 <= i < |cs| ==> cs[i].1.factor != 0.0 && !cs[i].0.ResetCmd?
    requires ClockFrom(now, cs)
    ensures Run(t, cs).prevPauseDuration >= t.prevPauseDuration
    decreases |cs|
  {
    if cs != [] {
      var rd := cs[0].1;
      assert now <= cs[0].1.now;
      StepPauseTotal(t, cs[0].0, rd);
      StepConsistent(t, cs[0].0, rd);
      var t1 := Step(t, cs[0].0, rd).0;
      assert ClockFrom(rd.now, cs[1..]) by {
        forall i | 0 < i < |cs[1..]|
          ensures cs[1..][i - 1].1.now <= cs[1..][i].1.now
        {
          assert cs[1..][i - 1] == cs[i] && cs[1..][i] == cs[i + 1];
        }
        if |cs| > 1 {
          assert cs[1..][0] == cs[1];
        }
      }
      RunPauseTotal(t1, rd.now, cs[1..]);
    }
  }

  /** A paused job ended by ERROR keeps its pause interval open (`note_complete`
      clears only the start time), and a START from error takes the first-start
      branch, which does not close it. The restarted job then counts everything
      since the old pause as paused time: once it has used filament, its
      reported print duration falls short of the time actually elapsed by the
      stale interval, and is negative whenever the old pause began before the
      restart. */
  lemma StalePauseAfterError(t: Stats, msg: Option<string>, failAt: real, restartAt: real,
                             epos: real, now: real, epos2: real, factor: real)
    requires Consistent(t) && t.state == Paused && t.filamentUsed >= NoExtrusionThreshold
    ensures var failed := Finish(t, Error, msg, failAt);
            var restarted := Start(failed, restartAt, epos);
            && StartRejection(failed.state).None?
            && restarted.state == Printing
            && restarted.lastPauseTime == t.lastPauseTime
            && !StatusFlushes(restarted)
            && Status(restarted, now, epos2, factor).1.printDuration
               == (now - restartAt) - t.initDuration
                  - (t.prevPauseDuration + (now - t.lastPauseTime.value))
    ensures t.initDuration >= 0.0 && t.prevPauseDuration >= 0.0
            && t.lastPauseTime.value < restartAt ==>
              Status(Start(Finish(t, Error, msg, failAt), restartAt, epos), now, epos2, factor)
                .1.printDuration < 0.0
  {
  }

  /** From a freshly reset tracker, a job started and ended with no PAUSE and
      no status query in between has used no filament, so its whole run counts
      as time before extrusion and the reported print duration is 0. */
  lemma StartFinishNoExtrusion(name: string, t0: real, e: real, t1: real, now: real, e2: real, f: real)
    ensures var done := Finish(Start(ResetStats(name), t0, e), Complete, Some(""), t1);
            && Status(done, now, e2, f).1.totalDuration == t1 - t0
            && Status(done, now, e2, f).1.printDuration == 0.0
  {
  }
}
