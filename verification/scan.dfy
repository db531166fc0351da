/**
 The scan worker (`scan_sequence`) as a pure state machine. Threads and timing
 are replaced by an explicit script with one user event per tile; each device
 call appends a command to the worker's trace, and the commands the Stop
 button's handler sends are collected apart from it.
 */
module Scan {
  import opened Optional
  import opened Tokens
  import opened Devices
  import opened Params
  import opened Control

  /** The stored start position (`self.x0`, `self.y0`). */
  datatype Origin = Origin(x: real, y: real)

  /**
   Parse the reply to the position query: it must split into exactly four
   tokens, the second and third of which convert (`parseReal` stands for
   Python's `float`) to x0 and y0.
   */
  function ParseOrigin(reply: string, parseReal: string -> Option<real>): (r: Option<Origin>)
    ensures r.Some? <==>
      && |Split(reply)| == 4
      && parseReal(Split(reply)[1]).Some?
      && parseReal(Split(reply)[2]).Some?
    ensures r.Some? ==>
      r.value == Origin(parseReal(Split(reply)[1]).value, parseReal(Split(reply)[2]).value)
  {
    var tokens := Split(reply);
    if |tokens| != 4 then None
    else
      match (parseReal(tokens[1]), parseReal(tokens[2]))
      case (Some(x0), Some(y0)) => Some(Origin(x0, y0))
      case _ => None
  }

  /** Y target of tile `i`: away from the origin on even tiles, back on odd ones. */
  function TargetY(p: ScanParams, o: Origin, i: int): real {
    if i % 2 == 0 then o.y + p.scanRangeY else o.y
  }

  /** X origin of the tile after tile `i`. */
  function StepX(p: ScanParams, o: Origin, i: int): real {
    o.x + (i + 1) as real * p.tileStepX
  }

  /** The Y move and trigger start of tile `i`, up to the timed wait. */
  function PassCommands(p: ScanParams, o: Origin, i: int): (r: seq<Command>)
    ensures |r| == 6 && r[0] == MoveY(TargetY(p, o, i)) && r[5] == GenOn
  {
    [MoveY(TargetY(p, o, i))] + Configure(p.triggerFreq) + [GenOn]
  }

  /** Everything the worker sends for a tile that runs to its pause. */
  function Block(p: ScanParams, o: Origin, i: int): (r: seq<Command>)
    ensures |r| == 8 && r[6] == GenOff && r[7] == MoveX(StepX(p, o, i))
  {
    PassCommands(p, o, i) + [GenOff, MoveX(StepX(p, o, i))]
  }

  /** How the tile loop was left: the `for` ended or broke, or the worker is still paused. */
  datatype LoopEnd = Exited | Blocked

  datatype LoopResult = LoopResult(
    cmds: seq<Command>,
    handler: seq<Command>,
    progress: seq<int>,
    end: LoopEnd,
    control: Control)

  /** The event the user supplies for tile `i`, if the script reaches that far. */
  function EventAt(script: seq<TileEvent>, i: int): Option<TileEvent> {
    if 0 <= i < |script| then Some(script[i]) else None
  }

  /**
   The `for i in range(tile_count)` loop from iteration `i` on, with control
   state `c` at the loop head. A Stop acts where it lands: before the loop-head
   check it ends the loop at once; during the pass it is seen at the
   end-of-pass check; during the X step it is erased by the pause's clear, so
   the worker waits for the next press in the script and only then finds the
   run flag cleared at the next loop head.
   */
  function Loop(p: ScanParams, o: Origin, script: seq<TileEvent>, i: nat, c: Control): (r: LoopResult)
    ensures r.end == Blocked ==> !r.control.proceed
    ensures |r.progress| <= |r.cmds|
    decreases p.tileCount - i
  {
    if i >= p.tileCount || !c.scanning then
      LoopResult([], [], [], Exited, c)
    else
      var ev := EventAt(script, i);
      if ev == Some(StopBeforeTile) then
        var (c1, h1) := StopScan(c);
        LoopResult([], h1, [], Exited, c1)
      else if ev == Some(StopDuringPass) then
        var (c1, h1) := StopScan(c);
        LoopResult(PassCommands(p, o, i) + [GenOff], h1, [], Exited, c1)
      else
        var (c1, h1) := if ev == Some(StopDuringStep) then StopScan(c) else (c, []);
        var press := if ev == Some(StopDuringStep) then EventAt(script, i + 1) else ev;
        match Pause(c1, press)
        case None =>
          LoopResult(Block(p, o, i), h1, [i + 1], Blocked, c1.(proceed := false))
        case Some((c2, h2)) =>
          var rest := Loop(p, o, script, i + 1, c2);
          LoopResult(Block(p, o, i) + rest.cmds, h1 + h2 + rest.handler,
                     [i + 1] + rest.progress, rest.end, rest.control)
  }

  /** Where the worker is when the script is exhausted. */
  datatype Status =
    /** The loop ran every tile; the stage went back to the origin. */
    | Completed
    /** A stop was observed; the stage went back to the origin. */
    | Stopped
    /** Paused after a tile, waiting for a button that the script never presses (the run flag is already cleared when a stop was erased by the pause). */
    | AwaitingNext
    /** The position reply did not parse; the worker returned before any tile. */
    | OriginUnparsed
    /** `y_speed` was zero: the worker died at the pass-time division. */
    | Crashed

  datatype Run = Run(
    trace: seq<Command>,
    handler: seq<Command>,
    progress: seq<int>,
    status: Status,
    control: Control)

  /**
   `scan_sequence`: `reply` is what the stage answers to the position query and
   `c` the shared state when the worker starts.
   */
  function ScanSequence(p: ScanParams, reply: string, parseReal: string -> Option<real>,
                        script: seq<TileEvent>, c: Control): (r: Run)
    ensures r.status == Crashed <==> p.ySpeed == 0.0
    ensures r.status == Crashed ==> r.trace == [] && r.control.scanning
    ensures r.status == OriginUnparsed <==> p.ySpeed != 0.0 && ParseOrigin(reply, parseReal).None?
    ensures r.status == OriginUnparsed ==> r.trace == [SetSpeed(p.xSpeed, p.ySpeed), QueryPos]
    ensures r.status == OriginUnparsed ==> r.progress == [0] && r.handler == []
    ensures p.ySpeed != 0.0 ==> |r.trace| >= 2 && r.trace[..2] == [SetSpeed(p.xSpeed, p.ySpeed), QueryPos]
    ensures r.status in {Completed, Stopped, OriginUnparsed} ==> !r.control.scanning
    ensures r.status == AwaitingNext ==> !r.control.proceed
    ensures r.status in {Completed, Stopped} ==>
      |r.trace| > 0 && |r.progress| > 0 &&
      r.trace[|r.trace| - 1] == MoveXY(ParseOrigin(reply, parseReal).value.x, ParseOrigin(reply, parseReal).value.y)
      && r.progress[|r.progress| - 1] == 0
  {
    if TotalTime(p).None? then
      Run([], [], [], Crashed, c.(scanning := true))
    else
      var c0 := c.(scanning := true);
      var pre := [SetSpeed(p.xSpeed, p.ySpeed), QueryPos];
      match ParseOrigin(reply, parseReal)
      case None =>
        Run(pre, [], [0], OriginUnparsed, c0.(scanning := false))
      case Some(o) =>
        var l := Loop(p, o, script, 0, c0);
        if l.end == Blocked then
          Run(pre + l.cmds, l.handler, [0] + l.progress, AwaitingNext, l.control)
        else
          Run(pre + l.cmds + [MoveXY(o.x, o.y)], l.handler, [0] + l.progress + [0],
              if l.control.scanning then Completed else Stopped,
              l.control.(scanning := false))
  }
}
