/**
 The state the control context shares with the worker (`scanning` and the
 `next_event` flag) and the effect of the Next and Stop buttons on it.
 */
module Control {
  import opened Optional
  import opened Devices

  /** `scanning` is the worker's run flag; `proceed` is whether `next_event` is set. */
  datatype Control = Control(scanning: bool, proceed: bool)

  /**
   What the user does during one tile, as seen by the worker: Next at the pause,
   or Stop at one of the four points where the worker can notice it.
   */
  datatype TileEvent =
    /** Next pressed at the pause after the tile. */
    | Next
    /** Stop pressed before the tile's loop-head check (for tile 0: after the worker has set its run flag, while it sets up). */
    | StopBeforeTile
    /** Stop pressed while the Y pass is running (before its end-of-pass check). */
    | StopDuringPass
    /** Stop pressed after the end-of-pass check, while the X step is sent, before the pause clears the flag. */
    | StopDuringStep
    /** Stop pressed at the pause after the tile. */
    | StopAtPause

  /** `next_scan`: sets the proceed flag and nothing else. */
  function NextScan(c: Control): (r: Control)
    ensures r.proceed
    ensures r.scanning == c.scanning
  {
    c.(proceed := true)
  }

  /**
   `stop_scan`: clears the run flag, sets the proceed flag so that a paused
   worker wakes, then switches the generator off and sends the stage ESC.
   */
  function StopScan(c: Control): (r: (Control, seq<Command>))
    ensures !r.0.scanning && r.0.proceed
    ensures r.1 == [GenOff, StageEsc]
  {
    (Control(false, true), StopCommands)
  }

  /** Pressing Stop a second time changes no state and sends the same two commands. */
  lemma StopScanIdempotent(c: Control)
    ensures StopScan(StopScan(c).0).0 == StopScan(c).0
    ensures StopScan(StopScan(c).0).1 == StopScan(c).1
  {
  }

  /** The button behind an event. */
  function Press(c: Control, e: TileEvent): (r: (Control, seq<Command>))
    ensures r.0.proceed
    ensures r.0.scanning <==> c.scanning && e == Next
    ensures e == Next ==> r.1 == []
    ensures e != Next ==> r.1 == StopCommands
  {
    if e == Next then (NextScan(c), []) else StopScan(c)
  }

  /**
   `next_event.wait()`: returns at once when the flag is already set, otherwise
   blocks until a button is pressed (`None`: no press ever comes).
   */
  function Wait(c: Control, press: Option<TileEvent>): (r: Option<(Control, seq<Command>)>)
    ensures c.proceed ==> r == Some((c, []))
    ensures !c.proceed ==> (r.None? <==> press.None?)
    ensures r.Some? ==> r.value.0.proceed
    ensures !c.proceed && r.Some? ==> (r.value.0.scanning <==> c.scanning && press.value == Next)
  {
    if c.proceed then Some((c, []))
    else
      match press
      case None => None
      case Some(e) => Some(Press(c, e))
  }

  /**
   The pause after a tile: `next_event.clear()` then `next_event.wait()`.
   `None` when no button is pressed (the worker stays blocked), otherwise the
   state after the press.
   */
  function Pause(c: Control, press: Option<TileEvent>): (r: Option<(Control, seq<Command>)>)
    ensures r.None? <==> press.None?
    ensures r.Some? ==> r.value.0.proceed
    ensures r.Some? ==> (r.value.0.scanning <==> c.scanning && press.value == Next)
  {
    Wait(c.(proceed := false), press)
  }

  /**
   A Next pressed before the pause (flag already set) would release a bare wait,
   but the clear in front of it makes the pause wait for a fresh press.
   */
  lemma EarlyNextDoesNotSkipPause(c: Control)
    requires c.proceed
    ensures Wait(c, None).Some?
    ensures Pause(c, None).None?
    ensures forall e :: Pause(c, Some(e)) == Pause(c.(proceed := false), Some(e))
  {
  }

  /**
   The clear also erases a Stop that set the flag before it: a worker that is
   told to stop just before its pause still waits for another press.
   */
  lemma StopBeforeClearIsLost(c: Control)
    ensures Pause(StopScan(c).0, None).None?
    ensures Wait(StopScan(c).0, None).Some?
  {
  }
}
