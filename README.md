# Print-job statistics tracker (Klipper `print_stats`)

This project models the `PrintStats` object of Klipper's host software. The
object tracks one print job: its state (`standby`, `printing`, `paused`,
`error`, `cancel`, `complete`), when it started, how long it has been paused,
how much filament it has used, and the error message of a failed job. Six
G-code commands drive it (`PRINT_STATS_START`, `_PAUSE`, `_ERROR`, `_CANCEL`,
`_COMPLETE`, `_RESET`). Each command checks the current state and either
refuses with an informational reply or runs one of the transitions
`note_start`, `note_pause`, `note_complete` and `reset`. Status polling
(`get_status`) recomputes the total and printing durations. While a job
prints, it also folds the extruder movement since the last reading into the
filament total.

Layout:

- `paths.dfy`, module `Paths`: `Basename`, the POSIX final path component
  that `PRINT_STATS_RESET FILENAME=…` records.
- `job_model.dfy`, module `JobModel`: the tracker's fields as one record
  (`Stats`) and each transition as a function on it (`Flush`, `Start`,
  `Pause`, `Finish`, `Status`). It also holds the command guards, the step
  function over commands (`Step`, `Run`) and the invariant `Consistent`, with
  the lemmas about all of these.
- `print_stats.dfy`, module `PrintStats`: class `PrintStats`, with the
  object's attributes as mutable fields and a method per source method. Each
  method updates the fields in the source's order and is proved to produce
  the `JobModel` function's result (`Model() == Start(old(Model()), …)`). The
  command methods and `GetStatus` also keep `Valid()`. Five client methods run the class
  through concrete command sequences.

The clock reading (`reactor.monotonic()`) is the parameter `now`. The
extruder query (`gcode_move.get_status`) is the parameters `epos` (extruder
position) and `factor` (extrude factor). Times, positions and filament are
`real`. Python's `None` is `Option.None`.

`Consistent` is the invariant that every command and status query keeps:

- a start time is recorded exactly while the state is `printing` or `paused`;
- a paused job has an open pause interval;
- a tracker in `standby` still holds its reset values.

Because of this invariant, the unguarded `eventtime - self.print_start_time`
in `note_complete` is never reached without a start time.

Five behaviours of the code a reader may not expect:

- One might expect a job that errors while paused to be cancellable. But
  PAUSE in the `error` state keeps `error` (print_stats.py:84-85), and
  CANCEL is accepted only from `printing` or `paused` (print_stats.py:44).
  CANCEL is therefore refused (`ErrorPauseThenCancelRefused`).
- One might expect a job started and completed at once to report its whole
  run as printing time. From a freshly reset tracker, with no PAUSE and no
  status query in between, nothing has flushed the extruder, so
  `filament_used` is still 0. `note_complete` (print_stats.py:90-93) then
  counts the whole run as time before extrusion, and the reported print
  duration is 0 (`StartFinishNoExtrusion`). A PAUSE flushes
  (print_stats.py:83). A START from `error` keeps the earlier job's filament.
- One might expect START to work after any finished job. It is refused from
  `cancel` and `complete` (print_stats.py:28). Only `paused`, `error` and
  `standby` are accepted, so a job must be reset first.
- One might expect a new start to close any old pause interval. A job that
  errors, is paused and is then started takes the first-start branch of
  `note_start` (print_stats.py:66-67). It prints with that pause interval
  still open, so status queries treat it as paused and do not flush filament
  (`ErrorPauseStartLeavesPauseOpen`).
- One might expect durations never to be negative. ERROR on a paused job
  clears only the start time (print_stats.py:94) and leaves the pause
  interval open. A later START does not close it either
  (print_stats.py:66-67), so every status query counts the time since the
  old pause as paused. Once the job has used filament, the reported print
  duration falls short by the stale interval, and it is negative when that
  pause began before the restart (`StalePauseAfterError`). For example:
  start at 0, the extruder moves 0 → 10 by a query at 5, PAUSE at 10, ERROR
  at 20, START at 100, query at 101. The print duration is then −90 seconds
  (`StalePauseScenario`).

With a clock that never runs backwards, the paused total never decreases
within a job, and only a resume from `paused` changes it (`StepPauseTotal`,
`RunPauseTotal`).

## Model

| member | source | states |
|---|---|---|
| Paths.Basename | klippy/extras/print_stats.py:56-57 | the recorded name is a `/`-free suffix of the argument that starts it or follows a `/` |
| Paths.BasenameUnique | klippy/extras/print_stats.py:56-57 | exactly one string has those three properties, so they define the base name |
| Paths.BasenameIdempotent | klippy/extras/print_stats.py:56-57 | taking the base name of a base name changes nothing |
| JobModel.ResetStats | klippy/extras/print_stats.py:96-102 | after reset: state standby, the given name (empty for a plain reset), empty message, all accumulators 0, no start or pause time |
| JobModel.Flush | klippy/extras/print_stats.py:58-63 | filament grows by (epos − last_epos) / factor, the baseline becomes epos, nothing else changes |
| JobModel.FlushAllTelescopes | klippy/extras/print_stats.py:58-63 | any run of flushes adds (last position − old baseline) / factor in total; so two flushes add (e2 − e0) / factor |
| JobModel.FlushAllMonotone | klippy/extras/print_stats.py:58-63 | with factor > 0 and a non-decreasing extruder, the filament total never decreases over a run of flushes |
| JobModel.Start | klippy/extras/print_stats.py:64-77 | first start records `now` and leaves pause fields alone; a resume adds the open pause interval to the paused total and closes it; always printing, baseline epos, message cleared |
| JobModel.Pause | klippy/extras/print_stats.py:78-85 | with no open pause: opens one at `now` and flushes filament; with one open: timing and filament unchanged; state paused unless it was error |
| JobModel.PauseIdempotent | klippy/extras/print_stats.py:78-85 | a second pause leaves exactly the tracker the first one left |
| JobModel.Finish | klippy/extras/print_stats.py:86-95 | state := outcome, total := now − start, init := total − paused only when filament < 0.0000001, start cleared, message stored, rest unchanged |
| JobModel.FinishAsWritten | klippy/extras/print_stats.py:86-95 | as written: the fields left behind are exactly those of the corrected `Finish` with the old message kept (state, durations and start time written, everything else unchanged), and the call raises NameError |
| JobModel.FinishAsWrittenLosesMessage | klippy/extras/print_stats.py:95 | as written, ERROR with a message ends in error yet keeps the old empty message; the corrected version stores it |
| JobModel.Status | klippy/extras/print_stats.py:103-124 | no job: nothing changes; paused: no flush; running: total := now − start, init recomputed below the threshold; print = total − init − time paused |
| JobModel.ResetThenStatus | klippy/extras/print_stats.py:96-124 | after reset, any query reports the name, zero durations and filament, "standby" and an empty message |
| JobModel.StatusIdempotent | klippy/extras/print_stats.py:103-124 | two queries at the same instant and extruder reading give the same snapshot and tracker (no drift) |
| JobModel.NoExtrusionNoPrintTime | klippy/extras/print_stats.py:112-116 | while a running job's filament stays below the threshold, its reported print duration is 0 |
| JobModel.StartRejection | klippy/extras/print_stats.py:24-31 | START runs exactly from paused, error and standby; from cancel and complete it replies "Print is not reset to start" |
| JobModel.PauseRejection | klippy/extras/print_stats.py:32-36 | PAUSE runs exactly from printing and error |
| JobModel.FinishRejection | klippy/extras/print_stats.py:37-52 | ERROR, CANCEL and COMPLETE run exactly from printing and paused |
| JobModel.ResetName | klippy/extras/print_stats.py:53-57 | a missing or empty FILENAME records ""; otherwise the recorded name is its final `/`-free component |
| JobModel.Step | klippy/extras/print_stats.py:24-57 | a refused command leaves the tracker unchanged |
| JobModel.StepConsistent | klippy/extras/print_stats.py:24-124 | each command and each status query keeps the invariant Consistent |
| JobModel.RunConsistent | klippy/extras/print_stats.py:24-124 | every sequence of commands and queries from a consistent (e.g. freshly reset) tracker ends consistent |
| JobModel.ErrorPauseThenCancelRefused | klippy/extras/print_stats.py:32-47 | pausing in error keeps error, and a following CANCEL is refused with no change |
| JobModel.ErrorPauseStartLeavesPauseOpen | klippy/extras/print_stats.py:64-85 | error → pause → start prints with the pause interval still open, so queries do not flush filament |
| JobModel.StepPauseTotal | klippy/extras/print_stats.py:68-72 | with no recorded time after the reading's clock, no command but RESET lowers the paused total, only START from paused changes it, and no recorded time ends up after the clock |
| JobModel.RunPauseTotal | klippy/extras/print_stats.py:68-72 | over any RESET-free sequence of commands and queries read from a monotonic clock, the paused total never decreases |
| JobModel.StalePauseAfterError | klippy/extras/print_stats.py:66-67 | a paused job ended by ERROR and started again prints with the old pause still open; its print duration loses the stale interval and is negative when that pause began before the restart |
| JobModel.StartFinishNoExtrusion | klippy/extras/print_stats.py:86-93 | from a reset tracker, START then COMPLETE with nothing in between reports total = end − start and print duration 0 |
| PrintStats.PrintStats.constructor | klippy/extras/print_stats.py:10-14 | a new tracker is reset and consistent |
| PrintStats.PrintStats.Reset | klippy/extras/print_stats.py:96-102 | every field takes its reset value |
| PrintStats.PrintStats.UpdateFilamentUsage | klippy/extras/print_stats.py:58-63 | the new fields are `Flush` of the old ones |
| PrintStats.PrintStats.NoteStart | klippy/extras/print_stats.py:64-77 | the new fields are `Start` of the old ones |
| PrintStats.PrintStats.NotePause | klippy/extras/print_stats.py:78-85 | the new fields are `Pause` of the old ones |
| PrintStats.PrintStats.NoteComplete | klippy/extras/print_stats.py:86-95 | the new fields are `Finish` of the old ones (message stored as intended) |
| PrintStats.PrintStats.GetStatus | klippy/extras/print_stats.py:103-124 | the new fields and the returned snapshot are `Status` of the old fields; keeps Valid |
| PrintStats.PrintStats.CmdStart | klippy/extras/print_stats.py:24-31 | replies with the START rejection for the old state; runs `note_start` exactly when accepted, else nothing changes; keeps Valid |
| PrintStats.PrintStats.CmdPause | klippy/extras/print_stats.py:32-36 | the same for PAUSE and `note_pause` |
| PrintStats.PrintStats.CmdError | klippy/extras/print_stats.py:37-42 | the same for ERROR, ending in error with the optional ERROR argument as the message |
| PrintStats.PrintStats.CmdCancel | klippy/extras/print_stats.py:43-47 | the same for CANCEL, ending in cancel with an empty message |
| PrintStats.PrintStats.CmdComplete | klippy/extras/print_stats.py:48-52 | the same for COMPLETE, ending in complete with an empty message |
| PrintStats.PrintStats.CmdReset | klippy/extras/print_stats.py:53-57 | always resets, then records `ResetName` of the argument; keeps Valid |
| PrintStats.ExtrusionScenario | klippy/extras/print_stats.py:103-124 | start at 0, extruder 0 → 10 with factor 1, query at 5: 10 used, total 5, print 5 |
| PrintStats.PauseWithoutExtrusionScenario | klippy/extras/print_stats.py:78-124 | start at 0, pause at 3 with no extrusion, query at 3: total 3, print 0, state "paused" |
| PrintStats.RefusalScenario | klippy/extras/print_stats.py:24-52 | START while printing is refused; ERROR stores its message; CANCEL after it is refused |
| PrintStats.ResetFilenameScenario | klippy/extras/print_stats.py:53-57 | RESET FILENAME=gcodes/part.gcode records "part.gcode" with an all-zero standby status |
| PrintStats.StalePauseScenario | klippy/extras/print_stats.py:66-67 | start 0, query 5 with extruder 0 → 10, PAUSE 10, ERROR 20, START 100, query 101: print duration −90 |

## Findings

| source | as written | input that shows it | evidently intended | confidence | as-written member | corrected member |
|---|---|---|---|---|---|---|
| klippy/extras/print_stats.py:95 | `note_complete` assigns `error_message` from the undefined name `message`, so every call raises NameError after lines 87-94 have already written state, durations and start time | `PRINT_STATS_ERROR ERROR="nozzle jam"` while printing: the state becomes error, but the message stays "" | store the parameter `error_message` | not executed; the name is undefined in the method | JobModel.FinishAsWrittenLosesMessage | JobModel.Finish |

## Left out

- Command registration, `gcmd.get` argument parsing and `respond_info` (klippy/extras/print_stats.py:16-23): each command takes its parsed argument as an `Option` and returns its rejection reply, if any, instead of printing it.
- The clock and the extruder query are parameters (`now`, `epos`, `factor`), not calls into the reactor or `gcode_move`.
- Floating-point rounding: all times, positions and filament are exact `real`s.
- The NameError of line 95 as an exception that propagates to the command layer. `FinishAsWritten` records the fields it leaves behind and the exception text; the class and `Step` use the corrected assignment.
- JobModel.Step: requires a nonzero extrude factor on every reading, including readings for commands that never query the extruder. The class methods require it only where the source divides by it.
- JobModel.Finish: requires a recorded start time. The source raises a TypeError without one. `Consistent` shows that no guarded command reaches that case.
- klippy/extras/debug_helpers.py (configuration reload and exception formatting) and klippy/extras/python_macro.py (evaluation of user macro code) are not part of this model.
