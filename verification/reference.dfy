/**
 A closed-form description of what the tile loop sends, independent of the
 step-by-step machine in `Scan`: a run of complete tiles up to the first tile
 whose event is not Next, then what that tile's event makes of it.
 */
module Reference {
  import opened Optional
  import opened Devices
  import opened Control
  import opened Scan

  /** The script supplies Next for tile `j`. */
  predicate NextAt(script: seq<TileEvent>, j: int) {
    EventAt(script, j) == Some(Next)
  }

  /**
   The first tile at or after `i` (and below `n`) whose event is not Next, or
   `n` when every tile from `i` to `n - 1` gets Next.
   */
  function StopTile(script: seq<TileEvent>, i: nat, n: int): (k: nat)
    ensures k >= i
    ensures i <= n ==> k <= n
    ensures i <= |script| ==> k <= |script|
    ensures forall j :: i <= j < k ==> NextAt(script, j)
    ensures k < n ==> !NextAt(script, k)
    decreases n - i
  {
    if i >= n || i >= |script| || script[i] != Next then i else StopTile(script, i + 1, n)
  }

  /** Complete tiles `i` to `j - 1`, one after the other. */
  function Blocks(p: Params.ScanParams, o: Origin, i: nat, j: nat): (r: seq<Command>)
    decreases j - i
  {
    if i >= j then [] else Block(p, o, i) + Blocks(p, o, i + 1, j)
  }

  /** Progress values `i + 1` to `j`. */
  function Ramp(i: nat, j: nat): (r: seq<int>)
    ensures i <= j ==> |r| == j - i
    ensures forall m :: 0 <= m < |r| ==> r[m] == i + m + 1
    decreases j - i
  {
    if i >= j then [] else [i + 1] + Ramp(i + 1, j)
  }

  datatype Expected = Expected(
    cmds: seq<Command>,
    handler: seq<Command>,
    progress: seq<int>,
    blocked: bool,
    stopped: bool)

  /**
   What the Stop handler sends when the worker, paused with its stop erased,
   is woken by the press at `j`: nothing for Next, a second stop otherwise.
   */
  function Wake(script: seq<TileEvent>, j: int): (r: seq<Command>)
    ensures r == [] <==> NextAt(script, j) || j < 0 || j >= |script|
  {
    if 0 <= j < |script| && script[j] != Next then StopCommands else []
  }

  /** What the loop, entered at tile `i` while scanning, sends and reports when tile `k` is the first without Next. */
  function Outcome(p: Params.ScanParams, o: Origin, script: seq<TileEvent>, i: nat, k: nat): Expected {
    if k >= p.tileCount then
      Expected(Blocks(p, o, i, k), [], Ramp(i, k), false, false)
    else if k >= |script| then
      Expected(Blocks(p, o, i, k + 1), [], Ramp(i, k + 1), true, false)
    else if script[k] == StopBeforeTile then
      Expected(Blocks(p, o, i, k), StopCommands, Ramp(i, k), false, true)
    else if script[k] == StopDuringPass then
      Expected(Blocks(p, o, i, k) + (PassCommands(p, o, k) + [GenOff]), StopCommands, Ramp(i, k), false, true)
    else if script[k] == StopDuringStep then
      Expected(Blocks(p, o, i, k + 1), StopCommands + Wake(script, k + 1), Ramp(i, k + 1), k + 1 >= |script|, true)
    else
      Expected(Blocks(p, o, i, k + 1), StopCommands, Ramp(i, k + 1), false, true)
  }

  /** What the loop, entered at tile `i` while scanning, sends and reports. */
  function LoopSpec(p: Params.ScanParams, o: Origin, script: seq<TileEvent>, i: nat): Expected {
    Outcome(p, o, script, i, StopTile(script, i, p.tileCount))
  }

  lemma BlocksUnfold(p: Params.ScanParams, o: Origin, i: nat, j: nat)
    requires i < j
    ensures Blocks(p, o, i, j) == Block(p, o, i) + Blocks(p, o, i + 1, j)
  {
  }

  /** A tile before the first one without Next peels off the front of the outcome. */
  lemma OutcomeStep(p: Params.ScanParams, o: Origin, script: seq<TileEvent>, i: nat, k: nat)
    requires i < k
    ensures Outcome(p, o, script, i, k).cmds == Block(p, o, i) + Outcome(p, o, script, i + 1, k).cmds
    ensures Outcome(p, o, script, i, k).handler == Outcome(p, o, script, i + 1, k).handler
    ensures Outcome(p, o, script, i, k).progress == [i + 1] + Outcome(p, o, script, i + 1, k).progress
    ensures Outcome(p, o, script, i, k).blocked == Outcome(p, o, script, i + 1, k).blocked
    ensures Outcome(p, o, script, i, k).stopped == Outcome(p, o, script, i + 1, k).stopped
  {
    if k >= p.tileCount || (k < |script| && script[k] == StopBeforeTile) {
      BlocksUnfold(p, o, i, k);
    } else if k < |script| && script[k] == StopDuringPass {
      BlocksUnfold(p, o, i, k);
      var tail := PassCommands(p, o, k) + [GenOff];
      assert Blocks(p, o, i, k) + tail == Block(p, o, i) + (Blocks(p, o, i + 1, k) + tail);
    } else {
      BlocksUnfold(p, o, i, k + 1);
    }
  }

  /** One Next-ed tile peels off the front of the closed form. */
  lemma SpecStep(p: Params.ScanParams, o: Origin, script: seq<TileEvent>, i: nat)
    requires i < p.tileCount && i < |script| && script[i] == Next
    ensures LoopSpec(p, o, script, i).cmds == Block(p, o, i) + LoopSpec(p, o, script, i + 1).cmds
    ensures LoopSpec(p, o, script, i).handler == LoopSpec(p, o, script, i + 1).handler
    ensures LoopSpec(p, o, script, i).progress == [i + 1] + LoopSpec(p, o, script, i + 1).progress
    ensures LoopSpec(p, o, script, i).blocked == LoopSpec(p, o, script, i + 1).blocked
    ensures LoopSpec(p, o, script, i).stopped == LoopSpec(p, o, script, i + 1).stopped
  {
    var k := StopTile(script, i, p.tileCount);
    assert k == StopTile(script, i + 1, p.tileCount) && k >= i + 1;
    OutcomeStep(p, o, script, i, k);
  }

  /** One Next-ed tile peels off the front of the machine's output. */
  lemma LoopStep(p: Params.ScanParams, o: Origin, script: seq<TileEvent>, i: nat, c: Control)
    requires c.scanning
    requires i < p.tileCount && i < |script| && script[i] == Next
    ensures Loop(p, o, script, i, c).cmds == Block(p, o, i) + Loop(p, o, script, i + 1, Control(true, true)).cmds
    ensures Loop(p, o, script, i, c).handler == Loop(p, o, script, i + 1, Control(true, true)).handler
    ensures Loop(p, o, script, i, c).progress == [i + 1] + Loop(p, o, script, i + 1, Control(true, true)).progress
    ensures Loop(p, o, script, i, c).end == Loop(p, o, script, i + 1, Control(true, true)).end
    ensures Loop(p, o, script, i, c).control == Loop(p, o, script, i + 1, Control(true, true)).control
  {
    assert Pause(c, EventAt(script, i)) == Some((Control(true, true), []));
    assert [] + Loop(p, o, script, i + 1, Control(true, true)).handler
        == Loop(p, o, script, i + 1, Control(true, true)).handler;
  }

  /** The tiles whose event is not Next: the loop ends or pauses at this tile. */
  lemma LoopLastTile(p: Params.ScanParams, o: Origin, script: seq<TileEvent>, i: nat, c: Control)
    requires c.scanning
    requires i >= p.tileCount || i >= |script| || script[i] != Next
    ensures Loop(p, o, script, i, c).cmds == LoopSpec(p, o, script, i).cmds
    ensures Loop(p, o, script, i, c).handler == LoopSpec(p, o, script, i).handler
    ensures Loop(p, o, script, i, c).progress == LoopSpec(p, o, script, i).progress
    ensures Loop(p, o, script, i, c).end == Blocked <==> LoopSpec(p, o, script, i).blocked
    ensures !Loop(p, o, script, i, c).control.scanning <==> LoopSpec(p, o, script, i).stopped
  {
    var n := p.tileCount;
    assert StopTile(script, i, n) == i;
    if i >= n {
    } else if i >= |script| {
      BlocksUnfold(p, o, i, i + 1);
    } else if script[i] == StopBeforeTile {
    } else if script[i] == StopDuringPass {
      assert [] + (PassCommands(p, o, i) + [GenOff]) == PassCommands(p, o, i) + [GenOff];
    } else if script[i] == StopDuringStep {
      BlocksUnfold(p, o, i, i + 1);
      StepStopTile(p, o, script, i, c);
    } else {
      BlocksUnfold(p, o, i, i + 1);
      var c2 := Control(false, true);
      assert Pause(c, EventAt(script, i)) == Some((c2, StopCommands));
      assert Loop(p, o, script, i + 1, c2).cmds == [];
      assert Loop(p, o, script, i, c).cmds == Block(p, o, i) + [];
      assert Loop(p, o, script, i, c).handler == [] + StopCommands + [];
      assert Loop(p, o, script, i, c).progress == [i + 1] + [];
    }
  }

  /** A stop erased by the pause: tile `i` completes, then the next press (if any) unwinds. */
  lemma StepStopTile(p: Params.ScanParams, o: Origin, script: seq<TileEvent>, i: nat, c: Control)
    requires c.scanning
    requires i < p.tileCount && i < |script| && script[i] == StopDuringStep
    ensures Loop(p, o, script, i, c).cmds == Block(p, o, i)
    ensures Loop(p, o, script, i, c).handler == StopCommands + Wake(script, i + 1)
    ensures Loop(p, o, script, i, c).progress == [i + 1]
    ensures Loop(p, o, script, i, c).end == Blocked <==> i + 1 >= |script|
    ensures !Loop(p, o, script, i, c).control.scanning
  {
    var c1 := Control(false, true);
    if i + 1 < |script| {
      var c2 := Control(false, true);
      assert Pause(c1, EventAt(script, i + 1)) == Some((c2, Wake(script, i + 1)));
      assert Loop(p, o, script, i + 1, c2) == LoopResult([], [], [], Exited, c2);
      assert Loop(p, o, script, i, c).cmds == Block(p, o, i) + [];
      assert Loop(p, o, script, i, c).handler == StopCommands + Wake(script, i + 1) + [];
      assert Loop(p, o, script, i, c).progress == [i + 1] + [];
    } else {
      assert Pause(c1, EventAt(script, i + 1)).None?;
    }
  }

  /** The tile loop does what the closed form says, on every script. */
  lemma {:induction false} LoopMatchesSpec(p: Params.ScanParams, o: Origin, script: seq<TileEvent>, i: nat, c: Control)
    requires c.scanning
    ensures Loop(p, o, script, i, c).cmds == LoopSpec(p, o, script, i).cmds
    ensures Loop(p, o, script, i, c).handler == LoopSpec(p, o, script, i).handler
    ensures Loop(p, o, script, i, c).progress == LoopSpec(p, o, script, i).progress
    ensures Loop(p, o, script, i, c).end == Blocked <==> LoopSpec(p, o, script, i).blocked
    ensures !Loop(p, o, script, i, c).control.scanning <==> LoopSpec(p, o, script, i).stopped
    decreases p.tileCount - i
  {
    if i >= p.tileCount || i >= |script| || script[i] != Next {
      LoopLastTile(p, o, script, i, c);
    } else {
      LoopStep(p, o, script, i, c);
      SpecStep(p, o, script, i);
      LoopMatchesSpec(p, o, script, i + 1, Control(true, true));
    }
  }
}
