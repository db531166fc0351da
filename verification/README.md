# Stage scan sequencer

This is a Dafny model of the tiled-scan worker in the stage scan controller,
`StageScannerApp.scan_sequence` in `src/automatic_scan.py`. It also covers the
parts of `start_scan`, `next_scan` and `stop_scan` that feed the worker.

## How the scan works

A scan covers the sample in `tile_count` tiles.

- For each tile, the stage moves in Y to the far end of the scan range on even
  tiles and back to the start on odd tiles (a serpentine path).
- During the Y pass, the DG800 pulse generator's channel 1 is configured
  (pulse, frequency, 5 V amplitude, 2.5 V offset) and switched on.
- After a timed wait, the generator is switched off.
- The stage then steps in X to the next tile's origin, and the worker waits
  for the operator to press Next.
- At the end of the scan, or after a stop, the stage returns to the position
  read at the start.

## How the model works

The worker is a pure state machine. Its inputs are:

- the scan parameters;
- the stage's reply to the position query;
- a float parser, which stands for Python's `float`;
- a script of operator events, one per tile. An event is Next at the pause,
  or Stop at one of four points: before the tile's loop-head check (for the
  first tile, during setup after line 161 has set the run flag; a Stop before
  that line is overwritten and the scan runs on), during the Y pass, during the X step
  (after the end-of-pass check, before the pause clears the flag), or at the
  pause. When the script runs out, no button is pressed and the worker stays
  paused. After a Stop during the X step, the next event in the script is the
  press that wakes the worker.

Its outputs are:

- the trace of device commands the worker sends;
- the commands the Stop button's handler sends;
- the progress values reported;
- the final status;
- the shared flags (`scanning` and the `next_event` flag).

The modules are:

- `Tokens`: Python's `str.split()` with no argument.
- `Devices`: the device commands, and the generator-pairing discipline over a trace.
- `Params`: `start_scan`'s field conversion and 1e4 scaling, and the pass duration.
- `Control`: the run flag and the `next_event` flag, and what `next_scan`,
  `stop_scan` and the pause do to them.
- `Scan`: the origin parse, the tile loop `Loop`, and the whole worker `ScanSequence`.
- `Reference`: an independent closed form of the tile loop, `LoopSpec`.
  It says what the loop sends: a run of complete tiles up to the first tile
  without Next, then what that tile's event makes of it.
  `LoopMatchesSpec` proves that the loop equals this closed form.
- `Properties`: whole-run properties derived from the closed form.

## Details of the code

- A stop during a pass sends two generator-off commands: the Stop handler's
  (line 113) and the worker's end-of-pass one (line 212).
- The worker waits for Next after the last tile as well (lines 229-230).
- The position reply must split into exactly four tokens (line 180); the second
  and third are the origin.
- A Stop pressed after the end-of-pass check (line 214) and before
  `next_event.clear()` (line 229), for example while the X step's
  `send_command` sleeps (lines 104, 219), sets the event only for the clear to
  erase it. The worker then waits at line 230 with its run flag already
  cleared, and the stage is not sent back to the origin until some button is
  pressed. `Properties.StopDuringStepIsLost` states this; the model keeps the
  code's behaviour.

## Model

| member | source | states |
|---|---|---|
| Params.StartScan | src/automatic_scan.py:121-132 | A scan starts iff all six fields convert (five floats, one int). Each parameter is the converted field. Both distances are the typed millimetres times 1e4. |
| Params.TotalTime | src/automatic_scan.py:163 | The pass time is undefined exactly when `y_speed` is zero (the division raises). Otherwise time × `y_speed` equals the distance in millimetres. |
| Params.TotalTimeOfFields | src/automatic_scan.py:123-127 | For converted fields with a non-zero Y speed, the pass time is the typed distance divided by the typed Y speed. The 1e4 scaling cancels. |
| Params.DefaultPassTakesForty | src/automatic_scan.py:16-42 | The default fields (0.1, 0.2, 10, 8.0, 10, 0.7) give 80000 and 7000 device units and a 40-second pass. |
| Control.NextScan | src/automatic_scan.py:135-137 | Next sets the proceed flag and leaves the run flag alone. |
| Control.StopScan | src/automatic_scan.py:107-114 | Stop clears the run flag and wakes a paused worker. It sends generator-off and then the stage ESC. |
| Control.StopScanIdempotent | src/automatic_scan.py:107-114 | A second Stop leaves the state as the first one left it and sends the same two commands. |
| Control.Wait | src/automatic_scan.py:230 | A wait returns at once when the flag is set. Otherwise it blocks iff no button is pressed, and after a press the worker keeps scanning iff it was scanning and the press was Next. |
| Control.Pause | src/automatic_scan.py:229-230 | The pause (clear, then wait) stays blocked iff no button is pressed. After a press the flag is set. The worker keeps scanning iff it was scanning and the press was Next. |
| Control.EarlyNextDoesNotSkipPause | src/automatic_scan.py:229-230 | A Next pressed before the pause would release a bare wait, but the clear makes the pause wait for a fresh press. |
| Control.StopBeforeClearIsLost | src/automatic_scan.py:229-230 | A Stop that sets the flag just before the pause would release a bare wait, but the pause's clear erases it and the pause blocks. |
| Tokens.SplitInterleave | src/automatic_scan.py:180 | Splitting a reply made of tokens separated by any non-empty whitespace runs, with any leading or trailing whitespace, gives exactly those tokens. |
| Tokens.SplitKeepsContent | src/automatic_scan.py:180 | Concatenating the tokens gives the reply without its whitespace. |
| Tokens.SplitJoin | src/automatic_scan.py:180 | Splitting space-joined tokens gives the tokens back. |
| Scan.ParseOrigin | src/automatic_scan.py:179-186 | The origin is found iff the reply has exactly four tokens and the second and third convert. It is then (second, third). |
| Scan.Loop | src/automatic_scan.py:189-230 | A loop left paused has the proceed flag cleared. At most one progress value is reported per command sent. |
| Scan.ScanSequence | src/automatic_scan.py:159-237 | A zero `y_speed` crashes with nothing sent. An unparsable reply leaves exactly [speed, position query] and progress 0. Otherwise the trace starts with those two commands. A finished or stopped run ends with the move to the origin and progress 0. |
| Reference.StopTile | src/automatic_scan.py:189-230 | The first tile from `i` (below `n`) without a Next: every earlier tile has Next, and the tile returned, if below `n`, does not. |
| Reference.LoopMatchesSpec | src/automatic_scan.py:189-230 | For every script, the tile loop sends, hands to the stop handler, reports and ends exactly as the closed form says. |
| Properties.SerpentineY | src/automatic_scan.py:189-195 | The Y targets alternate: `y0 + scan_range_y` on even tiles and `y0` on odd ones, one per started tile. At most `tile_count` tiles start. |
| Properties.XStepTargets | src/automatic_scan.py:217-219 | The X target after tile `t` is `x0 + (t+1) * tile_step_x`, one per tile that reaches its step. No more tiles step than start. |
| Properties.XStepsIncrease | src/automatic_scan.py:217-219 | With a positive tile step, the X targets strictly increase. |
| Properties.GeneratorDiscipline | src/automatic_scan.py:193-212 | In every run, each Y move is followed at once by the full pulse configuration and an ON, so every started pass is triggered. Each ON follows the configuration and is followed at once by one OFF. Each OFF closes an ON. |
| Properties.UntriggeredPassBreaksDiscipline | src/automatic_scan.py:195-202 | Any trace with a Y move that is not followed at once by the configuration and an ON violates the discipline. |
| Properties.AllTilesWithoutStop | src/automatic_scan.py:189-236 | With Next after every tile, the run completes with `tile_count` Y moves and X steps and nothing sent by the handler. Progress is 0, 1, ..., `tile_count`, 0. The last move returns to the origin. |
| Properties.RunCounts | src/automatic_scan.py:189-219 | The number of Y moves is the number of tiles whose pass starts. The number of X steps is the number of tiles that reach their step. |
| Properties.StopBeforeTileUnwinds | src/automatic_scan.py:161-191 | A stop before tile `j`'s loop-head check ends the run Stopped with `j` Y moves and `j` X steps, and the trace ends with the move to the origin. With `j = 0` the trace is exactly speed, position query, move to origin. |
| Properties.StopDuringPassUnwinds | src/automatic_scan.py:204-215 | A stop in tile `j`'s pass ends the run Stopped with `j+1` Y moves and `j` X steps. The trace ends ON, OFF, move to origin. The handler sends OFF and ESC. |
| Properties.StopDuringStepIsLost | src/automatic_scan.py:214-230 | A stop during tile `j`'s X step with no later press leaves the worker waiting with the run flag cleared. The handler has sent OFF and ESC, the trace ends with tile `j`'s X step, and no move to the origin is ever sent. |
| Properties.StopDuringStepWakes | src/automatic_scan.py:229-233 | The same stop followed by any press ends the run Stopped with `j+1` Y moves and X steps. The trace ends with the X step and then the move to the origin. A Stop as the waking press makes the handler send OFF and ESC again. |
| Properties.StopAtPauseUnwinds | src/automatic_scan.py:189-191 | A stop at tile `j`'s pause ends the run Stopped with `j+1` Y moves and `j+1` X steps. The trace ends with tile `j`'s X step, then the move to the origin. |
| Properties.CompletedIffNextEveryTile | src/automatic_scan.py:189-230 | A run completes iff `y_speed` is non-zero, the origin parses and every one of the `tile_count` tiles gets Next. |
| Properties.PausedIffScriptRunsOut | src/automatic_scan.py:229-230 | A run is left waiting iff the events run out before `tile_count` with every event a Next (the last tile's pause counts too), or the last event is a stop during an X step. The run flag is cleared while waiting exactly in the second case. |
| Properties.ProgressCountsTiles | src/automatic_scan.py:166-167 | Every progress value lies between 0 and `tile_count`. The first value is 0, and every value but the last equals its index. |
| Properties.OriginFromReply | src/automatic_scan.py:176-182 | A reply of four whitespace-separated tokens whose middle two convert gives the origin from those two. |
| Properties.NoOriginFromOtherCounts | src/automatic_scan.py:179-186 | A reply of any other number of whitespace-separated tokens gives no origin. |

## Left out

- The Tkinter window: entry widgets, buttons, log messages and progress-bar
  drawing. Progress is kept as the sequence of values assigned.
- Device transport (`init_devices`, `send_command`, the serial and VISA
  objects). Commands are structured values, not ASCII strings, and replies
  other than the position query are not modelled.
- Threads and timing. The timed wait during a pass is not modelled. The
  operator's events are a script with one event per tile. The moment at which
  the Stop handler's two commands land among the worker's is not fixed.
- `float` and `int` text conversion. These are parser parameters. Exact reals
  replace floating point, so the 1e4 scaling and the pass-time division are
  exact.
- `return_to_initial` and `goto_xyz`: manual moves outside the scan worker.
- Starting a second scan while one is running. Each run is modelled on its own.
- The assignment of `self.x0` when the third token fails to convert. The
  worker returns before using it.
- Exceptions raised by the devices themselves, and the `except` branch in
  `stop_scan` that logs them.
- Scan.Loop: its own contract only bounds the progress length and the paused
  flag. What it sends is stated by `Reference.LoopMatchesSpec` and the
  `Properties` lemmas.
- Stop presses outside the tile loop: in a run that crashes on a zero Y speed,
  fails to parse the origin, or has no tiles (`tile_count <= 0`), the script is
  not consulted, so the handler's commands for a Stop pressed then (lines
  113-114) are not part of that run; the worker's trace is the same either way.
- A Stop pressed after the last tile's pause has released the worker, but
  before the `for` loop ends: it changes no worker command, and the model does
  not record the handler's commands for it.
