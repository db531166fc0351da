/**
 Properties of whole worker runs, derived from the closed form in `Reference`:
 the serpentine Y path, the X stepping, the generator discipline, stop
 handling, loop bounds, progress values and the pause after every tile.
 */
module Properties {
  import opened Optional
  import opened Tokens
  import opened Devices
  import opened Params
  import opened Control
  import opened Scan
  import opened Reference

  /** Tiles whose Y pass starts. */
  function Started(p: ScanParams, script: seq<TileEvent>): nat {
    var k := StopTile(script, 0, p.tileCount);
    if k < p.tileCount && !(k < |script| && script[k] == StopBeforeTile) then k + 1 else k
  }

  /** Tiles that reach their X step. */
  function Stepped(p: ScanParams, script: seq<TileEvent>): nat {
    var k := StopTile(script, 0, p.tileCount);
    if k < p.tileCount && k < |script| && script[k] == StopDuringPass then k else Started(p, script)
  }

  // ----- Building blocks -----

  /** Commands that move neither axis alone. */
  ghost predicate NoAxisMove(s: seq<Command>) {
    forall k :: 0 <= k < |s| ==> !s[k].MoveX? && !s[k].MoveY?
  }

  lemma {:induction false} NoAxisMoveTargets(s: seq<Command>)
    requires NoAxisMove(s)
    ensures XTargets(s) == [] && YTargets(s) == []
    decreases |s|
  {
    if |s| > 0 {
      NoAxisMoveTargets(s[1..]);
    }
  }

  lemma SingleTargets(c: Command)
    ensures XTargets([c]) == (if c.MoveX? then [c.x] else [])
    ensures YTargets([c]) == (if c.MoveY? then [c.y] else [])
  {
    assert [c][1..] == [];
  }

  lemma CutPassTargets(p: ScanParams, o: Origin, i: int)
    ensures XTargets(PassCommands(p, o, i) + [GenOff]) == []
    ensures YTargets(PassCommands(p, o, i) + [GenOff]) == [TargetY(p, o, i)]
  {
    var hz := p.triggerFreq;
    var ty := TargetY(p, o, i);
    var rest := [GenPulse, GenFreq(hz), GenAmplitude(PulseAmplitude), GenOffset(PulseOffset), GenOn, GenOff];
    assert PassCommands(p, o, i) + [GenOff] == [MoveY(ty)] + rest;
    NoAxisMoveTargets(rest);
    SingleTargets(MoveY(ty));
    TargetsAppend([MoveY(ty)], rest);
  }

  lemma BlockTargets(p: ScanParams, o: Origin, i: int)
    ensures XTargets(Block(p, o, i)) == [StepX(p, o, i)]
    ensures YTargets(Block(p, o, i)) == [TargetY(p, o, i)]
  {
    var cut := PassCommands(p, o, i) + [GenOff];
    var last := [MoveX(StepX(p, o, i))];
    CutPassTargets(p, o, i);
    SingleTargets(last[0]);
    assert Block(p, o, i) == cut + last;
    TargetsAppend(cut, last);
  }

  /** Commands around the tile loop that touch neither axis alone nor the trigger output. */
  lemma FrameTargets(a: seq<Command>, m: seq<Command>, b: seq<Command>, hz: real)
    requires NoAxisMove(a) && NoAxisMove(b)
    requires forall k :: 0 <= k < |a| ==> a[k] != GenOn && a[k] != GenOff
    requires forall k :: 0 <= k < |b| ==> b[k] != GenOn && b[k] != GenOff
    ensures XTargets(a + m + b) == XTargets(m)
    ensures YTargets(a + m + b) == YTargets(m)
    ensures GeneratorPaired(m, hz) ==> GeneratorPaired(a + m + b, hz)
  {
    NoAxisMoveTargets(a);
    NoAxisMoveTargets(b);
    TargetsAppend(a, m);
    TargetsAppend(a + m, b);
    if GeneratorPaired(m, hz) {
      assert GeneratorPaired(a, hz);
      assert GeneratorPaired(b, hz);
      PairedAppend(a, m, hz);
      PairedAppend(a + m, b, hz);
    }
  }

  lemma {:induction false} BlocksTargets(p: ScanParams, o: Origin, i: nat, j: nat)
    requires i <= j
    ensures |XTargets(Blocks(p, o, i, j))| == j - i
    ensures |YTargets(Blocks(p, o, i, j))| == j - i
    ensures forall m :: 0 <= m < j - i ==> XTargets(Blocks(p, o, i, j))[m] == StepX(p, o, i + m)
    ensures forall m :: 0 <= m < j - i ==> YTargets(Blocks(p, o, i, j))[m] == TargetY(p, o, i + m)
    decreases j - i
  {
    if i < j {
      BlocksUnfold(p, o, i, j);
      TargetsAppend(Block(p, o, i), Blocks(p, o, i + 1, j));
      BlockTargets(p, o, i);
      BlocksTargets(p, o, i + 1, j);
    }
  }

  /**
   The generator discipline on a trace that opens with a Y move and whose only
   trigger commands are the configuration and one ON/OFF pair after it.
   */
  lemma PairedSingle(t: seq<Command>, hz: real)
    requires 7 <= |t| && t[0].MoveY?
    requires t[1..5] == Configure(hz) && t[5] == GenOn && t[6] == GenOff
    requires forall k :: 1 <= k < |t| ==> !t[k].MoveY?
    requires forall k :: 7 <= k < |t| ==> t[k] != GenOn && t[k] != GenOff
    ensures GeneratorPaired(t, hz)
  {
    assert t[1..6] == Configure(hz) + [GenOn];
    forall k | 0 <= k < |t|
      ensures PairedAt(t, k, hz)
    {
      if k < 5 {
        assert t[k] != GenOn && t[k] != GenOff;
      } else if k == 5 {
      } else if k == 6 {
      } else {
        assert t[k] != GenOn && t[k] != GenOff;
      }
    }
  }

  lemma BlockPaired(p: ScanParams, o: Origin, i: int)
    ensures GeneratorPaired(Block(p, o, i), p.triggerFreq)
    ensures GeneratorPaired(PassCommands(p, o, i) + [GenOff], p.triggerFreq)
  {
    var hz := p.triggerFreq;
    var b := Block(p, o, i);
    assert b == [MoveY(TargetY(p, o, i)), GenPulse, GenFreq(hz), GenAmplitude(PulseAmplitude),
                 GenOffset(PulseOffset), GenOn, GenOff, MoveX(StepX(p, o, i))];
    assert b[1..5] == Configure(hz);
    PairedSingle(b, hz);
    var q := PassCommands(p, o, i) + [GenOff];
    assert q == b[..7];
    assert q[1..5] == Configure(hz);
    PairedSingle(q, hz);
  }

  lemma {:induction false} BlocksPaired(p: ScanParams, o: Origin, i: nat, j: nat)
    ensures GeneratorPaired(Blocks(p, o, i, j), p.triggerFreq)
    decreases j - i
  {
    if i < j {
      BlocksUnfold(p, o, i, j);
      BlockPaired(p, o, i);
      BlocksPaired(p, o, i + 1, j);
      PairedAppend(Block(p, o, i), Blocks(p, o, i + 1, j), p.triggerFreq);
    }
  }

  /** The first tile without Next is stopped during its pass. */
  predicate CutInPass(p: ScanParams, script: seq<TileEvent>) {
    var k := StopTile(script, 0, p.tileCount);
    k < p.tileCount && k < |script| && script[k] == StopDuringPass
  }

  /** The loop's commands: complete tiles, then possibly one tile cut short in its pass. */
  lemma SpecCmds(p: ScanParams, o: Origin, script: seq<TileEvent>)
    ensures CutInPass(p, script) ==>
      LoopSpec(p, o, script, 0).cmds
        == Blocks(p, o, 0, StopTile(script, 0, p.tileCount))
           + (PassCommands(p, o, StopTile(script, 0, p.tileCount)) + [GenOff])
    ensures !CutInPass(p, script) ==> LoopSpec(p, o, script, 0).cmds == Blocks(p, o, 0, Started(p, script))
  {
  }

  /** The Y moves of the tile loop, one per started tile. */
  lemma SpecYTargets(p: ScanParams, o: Origin, script: seq<TileEvent>)
    ensures |YTargets(LoopSpec(p, o, script, 0).cmds)| == Started(p, script)
    ensures forall t :: 0 <= t < Started(p, script) ==>
      YTargets(LoopSpec(p, o, script, 0).cmds)[t] == TargetY(p, o, t)
  {
    SpecCmds(p, o, script);
    if CutInPass(p, script) {
      CutPassYTargets(p, o, StopTile(script, 0, p.tileCount));
    } else {
      BlocksTargets(p, o, 0, Started(p, script));
    }
  }

  /** The Y moves of `k` complete tiles followed by tile `k` cut short in its pass. */
  lemma CutPassYTargets(p: ScanParams, o: Origin, k: nat)
    ensures var ys := YTargets(Blocks(p, o, 0, k) + (PassCommands(p, o, k) + [GenOff]));
            |ys| == k + 1 && forall t :: 0 <= t < k + 1 ==> ys[t] == TargetY(p, o, t)
  {
    var tail := PassCommands(p, o, k) + [GenOff];
    var bs := Blocks(p, o, 0, k);
    BlocksTargets(p, o, 0, k);
    CutPassTargets(p, o, k);
    TargetsAppend(bs, tail);
    var ys := YTargets(bs + tail);
    assert ys == YTargets(bs) + [TargetY(p, o, k)];
    forall t | 0 <= t < k + 1
      ensures ys[t] == TargetY(p, o, t)
    {
      if t < k {
        assert ys[t] == YTargets(bs)[t];
      }
    }
  }

  /** The X steps of the tile loop, one per tile that reaches its step. */
  lemma SpecXTargets(p: ScanParams, o: Origin, script: seq<TileEvent>)
    ensures |XTargets(LoopSpec(p, o, script, 0).cmds)| == Stepped(p, script)
    ensures forall t :: 0 <= t < Stepped(p, script) ==>
      XTargets(LoopSpec(p, o, script, 0).cmds)[t] == StepX(p, o, t)
  {
    SpecCmds(p, o, script);
    if CutInPass(p, script) {
      CutPassXTargets(p, o, StopTile(script, 0, p.tileCount));
    } else {
      BlocksTargets(p, o, 0, Started(p, script));
    }
  }

  /** No X step in tile `k` cut short in its pass. */
  lemma CutPassXTargets(p: ScanParams, o: Origin, k: nat)
    ensures var xs := XTargets(Blocks(p, o, 0, k) + (PassCommands(p, o, k) + [GenOff]));
            |xs| == k && forall t :: 0 <= t < k ==> xs[t] == StepX(p, o, t)
  {
    var tail := PassCommands(p, o, k) + [GenOff];
    var bs := Blocks(p, o, 0, k);
    BlocksTargets(p, o, 0, k);
    CutPassTargets(p, o, k);
    TargetsAppend(bs, tail);
    assert XTargets(bs + tail) == XTargets(bs) + [];
  }

  /** The tile loop keeps the generator discipline. */
  lemma SpecPaired(p: ScanParams, o: Origin, script: seq<TileEvent>)
    ensures GeneratorPaired(LoopSpec(p, o, script, 0).cmds, p.triggerFreq)
  {
    SpecCmds(p, o, script);
    var k := StopTile(script, 0, p.tileCount);
    if CutInPass(p, script) {
      BlocksPaired(p, o, 0, k);
      BlockPaired(p, o, k);
      PairedAppend(Blocks(p, o, 0, k), PassCommands(p, o, k) + [GenOff], p.triggerFreq);
    } else {
      BlocksPaired(p, o, 0, Started(p, script));
    }
  }

  /** The worker's trace around the tile loop: speed, query, loop, and the return move unless paused. */
  function Framed(p: ScanParams, o: Origin, cmds: seq<Command>, blocked: bool): seq<Command> {
    [SetSpeed(p.xSpeed, p.ySpeed), QueryPos] + cmds + (if blocked then [] else [MoveXY(o.x, o.y)])
  }

  /** The frame adds no axis move and no trigger command. */
  lemma FramedTargets(p: ScanParams, o: Origin, cmds: seq<Command>, blocked: bool)
    ensures XTargets(Framed(p, o, cmds, blocked)) == XTargets(cmds)
    ensures YTargets(Framed(p, o, cmds, blocked)) == YTargets(cmds)
    ensures GeneratorPaired(cmds, p.triggerFreq) ==> GeneratorPaired(Framed(p, o, cmds, blocked), p.triggerFreq)
  {
    var pre := [SetSpeed(p.xSpeed, p.ySpeed), QueryPos];
    if blocked {
      assert Framed(p, o, cmds, blocked) == pre + cmds + [];
      FrameTargets(pre, cmds, [], p.triggerFreq);
    } else {
      FrameTargets(pre, cmds, [MoveXY(o.x, o.y)], p.triggerFreq);
    }
  }

  /** A run that got past the origin, in the terms of the closed form. */
  lemma RunShape(p: ScanParams, reply: string, parseReal: string -> Option<real>,
                 script: seq<TileEvent>, c: Control)
    requires p.ySpeed != 0.0 && ParseOrigin(reply, parseReal).Some?
    ensures var o := ParseOrigin(reply, parseReal).value;
            var e := LoopSpec(p, o, script, 0);
            var r := ScanSequence(p, reply, parseReal, script, c);
            && r.trace == Framed(p, o, e.cmds, e.blocked)
            && r.handler == e.handler
            && r.progress == [0] + e.progress + (if e.blocked then [] else [0])
            && r.status == (if e.blocked then AwaitingNext else if e.stopped then Stopped else Completed)
            && (e.blocked ==> (r.control.scanning <==> !e.stopped))
  {
    var o := ParseOrigin(reply, parseReal).value;
    LoopMatchesSpec(p, o, script, 0, c.(scanning := true));
    var e := LoopSpec(p, o, script, 0);
    var pre := [SetSpeed(p.xSpeed, p.ySpeed), QueryPos];
    if e.blocked {
      assert pre + e.cmds + [] == pre + e.cmds;
      assert [0] + e.progress + [] == [0] + e.progress;
    }
  }

  // ----- Properties of the scan -----

  /** The loop's commands, framed by the opening commands and the return move. */
  lemma RunTargets(p: ScanParams, reply: string, parseReal: string -> Option<real>,
                   script: seq<TileEvent>, c: Control)
    requires p.ySpeed != 0.0 && ParseOrigin(reply, parseReal).Some?
    ensures var e := LoopSpec(p, ParseOrigin(reply, parseReal).value, script, 0);
            var r := ScanSequence(p, reply, parseReal, script, c);
            YTargets(r.trace) == YTargets(e.cmds) && XTargets(r.trace) == XTargets(e.cmds)
  {
    var o := ParseOrigin(reply, parseReal).value;
    var e := LoopSpec(p, o, script, 0);
    RunShape(p, reply, parseReal, script, c);
    FramedTargets(p, o, e.cmds, e.blocked);
  }

  /**
   Tile `t`'s Y move goes to `y0 + scan_range_y` on even tiles and back to `y0`
   on odd ones, for every tile that starts; at most `tile_count` tiles start.
   */
  lemma SerpentineY(p: ScanParams, reply: string, parseReal: string -> Option<real>,
                    script: seq<TileEvent>, c: Control)
    requires p.ySpeed != 0.0 && ParseOrigin(reply, parseReal).Some?
    ensures var o := ParseOrigin(reply, parseReal).value;
            var ys := YTargets(ScanSequence(p, reply, parseReal, script, c).trace);
            && |ys| == Started(p, script)
            && forall t :: 0 <= t < |ys| ==> ys[t] == (if t % 2 == 0 then o.y + p.scanRangeY else o.y)
    ensures Started(p, script) <= if p.tileCount < 0 then 0 else p.tileCount
  {
    var o := ParseOrigin(reply, parseReal).value;
    RunTargets(p, reply, parseReal, script, c);
    SpecYTargets(p, o, script);
    var ys := YTargets(ScanSequence(p, reply, parseReal, script, c).trace);
    forall t | 0 <= t < |ys|
      ensures ys[t] == (if t % 2 == 0 then o.y + p.scanRangeY else o.y)
    {
      assert ys[t] == TargetY(p, o, t);
    }
  }

  /**
   The X step after tile `t` goes to `x0 + (t + 1) * tile_step_x`, for every
   tile that reaches its step; no more tiles step than start.
   */
  lemma XStepTargets(p: ScanParams, reply: string, parseReal: string -> Option<real>,
                     script: seq<TileEvent>, c: Control)
    requires p.ySpeed != 0.0 && ParseOrigin(reply, parseReal).Some?
    ensures var o := ParseOrigin(reply, parseReal).value;
            var xs := XTargets(ScanSequence(p, reply, parseReal, script, c).trace);
            && |xs| == Stepped(p, script)
            && forall t :: 0 <= t < |xs| ==> xs[t] == o.x + (t + 1) as real * p.tileStepX
    ensures Stepped(p, script) <= Started(p, script)
  {
    var o := ParseOrigin(reply, parseReal).value;
    RunTargets(p, reply, parseReal, script, c);
    SpecXTargets(p, o, script);
    var xs := XTargets(ScanSequence(p, reply, parseReal, script, c).trace);
    forall t | 0 <= t < |xs|
      ensures xs[t] == o.x + (t + 1) as real * p.tileStepX
    {
      assert xs[t] == StepX(p, o, t);
      StepXFormula(p, o, t);
    }
  }

  /** `StepX` spelled out; kept apart so that the real product stays out of the callers' proofs. */
  lemma StepXFormula(p: ScanParams, o: Origin, t: int)
    ensures StepX(p, o, t) == o.x + (t + 1) as real * p.tileStepX
  {
  }

  lemma StepIncreases(p: ScanParams, o: Origin, a: int, b: int)
    requires p.tileStepX > 0.0 && a < b
    ensures StepX(p, o, a) < StepX(p, o, b)
  {
    var d := (b - a) as real;
    assert (b + 1) as real * p.tileStepX == (a + 1) as real * p.tileStepX + d * p.tileStepX;
    assert d * p.tileStepX > 0.0;
  }

  /** With a positive tile step the X targets strictly increase. */
  lemma XStepsIncrease(p: ScanParams, reply: string, parseReal: string -> Option<real>,
                       script: seq<TileEvent>, c: Control)
    requires p.ySpeed != 0.0 && ParseOrigin(reply, parseReal).Some?
    requires p.tileStepX > 0.0
    ensures var xs := XTargets(ScanSequence(p, reply, parseReal, script, c).trace);
            forall a, b :: 0 <= a < b < |xs| ==> xs[a] < xs[b]
  {
    var o := ParseOrigin(reply, parseReal).value;
    var xs := XTargets(ScanSequence(p, reply, parseReal, script, c).trace);
    XStepTargets(p, reply, parseReal, script, c);
    forall a, b | 0 <= a < b < |xs|
      ensures xs[a] < xs[b]
    {
      StepXFormula(p, o, a);
      StepXFormula(p, o, b);
      assert xs[a] == StepX(p, o, a) && xs[b] == StepX(p, o, b);
      StepIncreases(p, o, a, b);
    }
  }

  /**
   In every run, each Y move is followed at once by the pulse configuration
   and an ON; each ON follows the configuration and is followed at once by
   exactly one OFF, before any other command; each OFF closes such an ON.
   */
  lemma GeneratorDiscipline(p: ScanParams, reply: string, parseReal: string -> Option<real>,
                            script: seq<TileEvent>, c: Control)
    ensures GeneratorPaired(ScanSequence(p, reply, parseReal, script, c).trace, p.triggerFreq)
  {
    var pre := [SetSpeed(p.xSpeed, p.ySpeed), QueryPos];
    if p.ySpeed != 0.0 && ParseOrigin(reply, parseReal).Some? {
      var o := ParseOrigin(reply, parseReal).value;
      var e := LoopSpec(p, o, script, 0);
      RunShape(p, reply, parseReal, script, c);
      SpecPaired(p, o, script);
      FramedTargets(p, o, e.cmds, e.blocked);
    } else {
      var r := ScanSequence(p, reply, parseReal, script, c);
      assert r.trace == [] || r.trace == pre;
      assert forall k :: 0 <= k < |r.trace| ==> r.trace[k] != GenOn && r.trace[k] != GenOff && !r.trace[k].MoveY?;
    }
  }

  /** Any Y move not followed at once by the configuration and an ON breaks the discipline. */
  lemma UntriggeredPassBreaksDiscipline(t: seq<Command>, k: int, hz: real)
    requires 0 <= k < |t| && t[k].MoveY?
    requires k + 6 > |t| || t[k + 1..k + 6] != Configure(hz) + [GenOn]
    ensures !GeneratorPaired(t, hz)
  {
    assert !PairedAt(t, k, hz);
  }

  /**
   With Next pressed after every tile, all `tile_count` tiles run: as many Y
   moves and X steps as tiles, progress 0, 1, ..., tile_count, then 0, and the
   trace ends with the move back to the origin.
   */
  lemma AllTilesWithoutStop(p: ScanParams, reply: string, parseReal: string -> Option<real>,
                            script: seq<TileEvent>, c: Control)
    requires p.ySpeed != 0.0 && ParseOrigin(reply, parseReal).Some?
    requires p.tileCount >= 0
    requires forall t :: 0 <= t < p.tileCount ==> NextAt(script, t)
    ensures var r := ScanSequence(p, reply, parseReal, script, c);
            var o := ParseOrigin(reply, parseReal).value;
            && r.status == Completed
            && r.handler == []
            && |YTargets(r.trace)| == p.tileCount
            && |XTargets(r.trace)| == p.tileCount
            && |r.progress| == p.tileCount + 2
            && (forall m :: 0 <= m <= p.tileCount ==> r.progress[m] == m)
            && r.progress[p.tileCount + 1] == 0
            && r.trace[|r.trace| - 1] == MoveXY(o.x, o.y)
  {
    var o := ParseOrigin(reply, parseReal).value;
    var k := StopTile(script, 0, p.tileCount);
    RunShape(p, reply, parseReal, script, c);
    SerpentineY(p, reply, parseReal, script, c);
    XStepTargets(p, reply, parseReal, script, c);
    var r := ScanSequence(p, reply, parseReal, script, c);
    var e := LoopSpec(p, o, script, 0);
    assert r.progress == [0] + Ramp(0, k) + [0];
  }

  /** How many tiles start and how many step, in a run that got past the origin. */
  lemma RunCounts(p: ScanParams, reply: string, parseReal: string -> Option<real>,
                  script: seq<TileEvent>, c: Control)
    requires p.ySpeed != 0.0 && ParseOrigin(reply, parseReal).Some?
    ensures |YTargets(ScanSequence(p, reply, parseReal, script, c).trace)| == Started(p, script)
    ensures |XTargets(ScanSequence(p, reply, parseReal, script, c).trace)| == Stepped(p, script)
  {
    RunTargets(p, reply, parseReal, script, c);
    SpecYTargets(p, ParseOrigin(reply, parseReal).value, script);
    SpecXTargets(p, ParseOrigin(reply, parseReal).value, script);
  }

  /** The last `|b|` elements of `a + b` are those of `b`. */
  lemma SuffixAt(a: seq<Command>, b: seq<Command>, m: nat)
    requires m < |b|
    ensures (a + b)[|a + b| - |b| + m] == b[m]
  {
  }

  /**
   A stop pressed during the pass of tile `j` (the first tile without Next):
   the tile's OFF is sent, no X step follows, no further tile starts, and the
   trace still ends with the move back to the origin.
   */
  lemma StopDuringPassUnwinds(p: ScanParams, reply: string, parseReal: string -> Option<real>,
                              script: seq<TileEvent>, c: Control, j: nat)
    requires p.ySpeed != 0.0 && ParseOrigin(reply, parseReal).Some?
    requires j < p.tileCount && j < |script| && script[j] == StopDuringPass
    requires forall t :: 0 <= t < j ==> NextAt(script, t)
    ensures var r := ScanSequence(p, reply, parseReal, script, c);
            var o := ParseOrigin(reply, parseReal).value;
            && r.status == Stopped
            && r.handler == [GenOff, StageEsc]
            && |YTargets(r.trace)| == j + 1
            && |XTargets(r.trace)| == j
            && |r.trace| >= 3
            && r.trace[|r.trace| - 3] == GenOn
            && r.trace[|r.trace| - 2] == GenOff
            && r.trace[|r.trace| - 1] == MoveXY(o.x, o.y)
            && !r.control.scanning
  {
    var o := ParseOrigin(reply, parseReal).value;
    assert !NextAt(script, j);
    assert StopTile(script, 0, p.tileCount) == j;
    RunShape(p, reply, parseReal, script, c);
    RunCounts(p, reply, parseReal, script, c);
    CutPassEnding(p, o, j);
  }

  /**
   A stop pressed at the pause after tile `j`: the tile's X step has been made,
   the loop head then sees the stop, no further tile starts, and the trace ends
   with the move back to the origin.
   */
  lemma StopAtPauseUnwinds(p: ScanParams, reply: string, parseReal: string -> Option<real>,
                           script: seq<TileEvent>, c: Control, j: nat)
    requires p.ySpeed != 0.0 && ParseOrigin(reply, parseReal).Some?
    requires j < p.tileCount && j < |script| && script[j] == StopAtPause
    requires forall t :: 0 <= t < j ==> NextAt(script, t)
    ensures var r := ScanSequence(p, reply, parseReal, script, c);
            var o := ParseOrigin(reply, parseReal).value;
            && r.status == Stopped
            && r.handler == [GenOff, StageEsc]
            && |YTargets(r.trace)| == j + 1
            && |XTargets(r.trace)| == j + 1
            && |r.trace| >= 2
            && r.trace[|r.trace| - 2] == MoveX(StepX(p, o, j))
            && r.trace[|r.trace| - 1] == MoveXY(o.x, o.y)
            && !r.control.scanning
  {
    var o := ParseOrigin(reply, parseReal).value;
    assert !NextAt(script, j);
    assert StopTile(script, 0, p.tileCount) == j;
    RunShape(p, reply, parseReal, script, c);
    RunCounts(p, reply, parseReal, script, c);
    StepEnding(p, o, j);
  }

  /** How a trace ends when tile `j` is cut short in its pass. */
  lemma CutPassEnding(p: ScanParams, o: Origin, j: nat)
    ensures var t := Framed(p, o, Blocks(p, o, 0, j) + (PassCommands(p, o, j) + [GenOff]), false);
            && |t| >= 3
            && t[|t| - 3] == GenOn && t[|t| - 2] == GenOff && t[|t| - 1] == MoveXY(o.x, o.y)
  {
    var pre := [SetSpeed(p.xSpeed, p.ySpeed), QueryPos];
    var front := pre + Blocks(p, o, 0, j) + PassCommands(p, o, j)[..5];
    var back := [GenOn, GenOff, MoveXY(o.x, o.y)];
    assert PassCommands(p, o, j) == PassCommands(p, o, j)[..5] + [GenOn];
    assert Framed(p, o, Blocks(p, o, 0, j) + (PassCommands(p, o, j) + [GenOff]), false) == front + back;
    SuffixAt(front, back, 0);
    SuffixAt(front, back, 1);
    SuffixAt(front, back, 2);
  }

  /** How a trace ends when tile `j` is the last to make its X step. */
  lemma StepEnding(p: ScanParams, o: Origin, j: nat)
    ensures var t := Framed(p, o, Blocks(p, o, 0, j + 1), false);
            && |t| >= 2
            && t[|t| - 2] == MoveX(StepX(p, o, j)) && t[|t| - 1] == MoveXY(o.x, o.y)
  {
    var pre := [SetSpeed(p.xSpeed, p.ySpeed), QueryPos];
    BlocksSnoc(p, o, 0, j + 1);
    var b := Block(p, o, j);
    var front := pre + Blocks(p, o, 0, j) + b[..7];
    var back := [MoveX(StepX(p, o, j)), MoveXY(o.x, o.y)];
    assert b == b[..7] + [MoveX(StepX(p, o, j))];
    assert Framed(p, o, Blocks(p, o, 0, j + 1), false) == front + back;
    SuffixAt(front, back, 0);
    SuffixAt(front, back, 1);
  }

  lemma {:induction false} BlocksSnoc(p: ScanParams, o: Origin, i: nat, j: nat)
    requires i < j
    ensures Blocks(p, o, i, j) == Blocks(p, o, i, j - 1) + Block(p, o, j - 1)
    decreases j - i
  {
    BlocksUnfold(p, o, i, j);
    if i + 1 < j {
      BlocksSnoc(p, o, i + 1, j);
      BlocksUnfold(p, o, i, j - 1);
      var a, m, z := Block(p, o, i), Blocks(p, o, i + 1, j - 1), Block(p, o, j - 1);
      assert a + (m + z) == (a + m) + z;
    } else {
      assert Blocks(p, o, i + 1, j) == [];
      assert Blocks(p, o, i, j - 1) == [];
    }
  }

  /** The script ends, every event so far a Next, before the last tile. */
  predicate ScriptRunsOut(p: ScanParams, script: seq<TileEvent>) {
    |script| < p.tileCount && forall t :: 0 <= t < |script| ==> NextAt(script, t)
  }

  /** The script's last event is a Stop during an X step, every earlier event a Next. */
  predicate StopErasedLast(p: ScanParams, script: seq<TileEvent>) {
    && 0 < |script| <= p.tileCount
    && script[|script| - 1] == StopDuringStep
    && forall t :: 0 <= t < |script| - 1 ==> NextAt(script, t)
  }

  /** When the closed form neither stops nor pauses for good, and when it pauses. */
  lemma SpecOutcome(p: ScanParams, o: Origin, script: seq<TileEvent>)
    ensures !LoopSpec(p, o, script, 0).blocked && !LoopSpec(p, o, script, 0).stopped <==>
              forall t :: 0 <= t < p.tileCount ==> NextAt(script, t)
    ensures LoopSpec(p, o, script, 0).blocked <==> ScriptRunsOut(p, script) || StopErasedLast(p, script)
    ensures LoopSpec(p, o, script, 0).blocked ==>
              (LoopSpec(p, o, script, 0).stopped <==> StopErasedLast(p, script))
  {
    var n := p.tileCount;
    var k := StopTile(script, 0, n);
    var e := LoopSpec(p, o, script, 0);
    if k < n {
      assert !NextAt(script, k);
      assert e.blocked || e.stopped;
      if k >= |script| {
        assert !NextAt(script, |script|);
        assert !StopErasedLast(p, script) by {
          if |script| > 0 {
            assert NextAt(script, |script| - 1);
          }
        }
      } else {
        assert !ScriptRunsOut(p, script);
        if StopErasedLast(p, script) {
          assert k == |script| - 1;
        }
      }
    } else {
      assert !StopErasedLast(p, script) by {
        if 0 < |script| <= n {
          assert NextAt(script, |script| - 1);
        }
      }
    }
  }

  /**
   The worker waits for a button after every tile, the last included: a run
   completes exactly when every one of the `tile_count` tiles got its Next.
   */
  lemma CompletedIffNextEveryTile(p: ScanParams, reply: string, parseReal: string -> Option<real>,
                                  script: seq<TileEvent>, c: Control)
    ensures ScanSequence(p, reply, parseReal, script, c).status == Completed <==>
              && p.ySpeed != 0.0 && ParseOrigin(reply, parseReal).Some?
              && forall t :: 0 <= t < p.tileCount ==> NextAt(script, t)
  {
    if p.ySpeed != 0.0 && ParseOrigin(reply, parseReal).Some? {
      RunShape(p, reply, parseReal, script, c);
      SpecOutcome(p, ParseOrigin(reply, parseReal).value, script);
    }
  }

  /**
   The pause after the last tile is real: the run is left paused exactly when
   the script runs out while every event so far was Next, or when its last
   event is a Stop erased by the pause's clear. In the second case, and only
   then, the run flag is already cleared while the worker waits.
   */
  lemma PausedIffScriptRunsOut(p: ScanParams, reply: string, parseReal: string -> Option<real>,
                               script: seq<TileEvent>, c: Control)
    ensures ScanSequence(p, reply, parseReal, script, c).status == AwaitingNext <==>
              && p.ySpeed != 0.0 && ParseOrigin(reply, parseReal).Some?
              && (ScriptRunsOut(p, script) || StopErasedLast(p, script))
    ensures ScanSequence(p, reply, parseReal, script, c).status == AwaitingNext ==>
              (!ScanSequence(p, reply, parseReal, script, c).control.scanning <==> StopErasedLast(p, script))
  {
    if p.ySpeed != 0.0 && ParseOrigin(reply, parseReal).Some? {
      RunShape(p, reply, parseReal, script, c);
      SpecOutcome(p, ParseOrigin(reply, parseReal).value, script);
    }
  }

  /**
   Progress after tile `t` is `t + 1`: every reported value is the count of
   tiles done so far, never above `tile_count`, until the final reset to 0.
   */
  lemma ProgressCountsTiles(p: ScanParams, reply: string, parseReal: string -> Option<real>,
                            script: seq<TileEvent>, c: Control)
    ensures var r := ScanSequence(p, reply, parseReal, script, c);
            forall m :: 0 <= m < |r.progress| ==> 0 <= r.progress[m] <= if p.tileCount < 0 then 0 else p.tileCount
    ensures var r := ScanSequence(p, reply, parseReal, script, c);
            r.status != Crashed ==> |r.progress| >= 1 && r.progress[0] == 0
    ensures var r := ScanSequence(p, reply, parseReal, script, c);
            forall m :: 0 <= m < |r.progress| - 1 ==> r.progress[m] == m
  {
    var r := ScanSequence(p, reply, parseReal, script, c);
    var n := p.tileCount;
    if p.ySpeed != 0.0 && ParseOrigin(reply, parseReal).Some? {
      var e := LoopSpec(p, ParseOrigin(reply, parseReal).value, script, 0);
      SpecProgress(p, ParseOrigin(reply, parseReal).value, script);
      RunShape(p, reply, parseReal, script, c);
      var tail := if e.blocked then [] else [0];
      assert r.progress == [0] + e.progress + tail;
      forall m | 0 <= m < |r.progress|
        ensures 0 <= r.progress[m] <= if n < 0 then 0 else n
        ensures m < |r.progress| - 1 ==> r.progress[m] == m
      {
        if 1 <= m <= |e.progress| {
          assert r.progress[m] == e.progress[m - 1];
        }
      }
    }
  }

  /** The loop reports progress 1, 2, ... for its completed tiles, never past `tile_count`. */
  lemma SpecProgress(p: ScanParams, o: Origin, script: seq<TileEvent>)
    ensures var e := LoopSpec(p, o, script, 0);
            && |e.progress| <= (if p.tileCount < 0 then 0 else p.tileCount)
            && forall m :: 0 <= m < |e.progress| ==> e.progress[m] == m + 1
  {
  }

  /**
   A stage reply of four tokens, in whatever whitespace layout, yields the
   origin from the middle two when they convert.
   */
  lemma OriginFromReply(ws: seq<string>, ts: seq<string>, parseReal: string -> Option<real>, x0: real, y0: real)
    requires |ts| == 4 && forall j :: 0 <= j < 4 ==> IsToken(ts[j])
    requires Separates(ws, ts)
    requires parseReal(ts[1]) == Some(x0) && parseReal(ts[2]) == Some(y0)
    ensures ParseOrigin(Interleave(ws, ts), parseReal) == Some(Origin(x0, y0))
  {
    SplitInterleave(ws, ts);
  }

  /** A reply with any other number of tokens gives no origin, whatever they hold. */
  lemma NoOriginFromOtherCounts(ws: seq<string>, ts: seq<string>, parseReal: string -> Option<real>)
    requires |ts| != 4 && forall j :: 0 <= j < |ts| ==> IsToken(ts[j])
    requires Separates(ws, ts)
    ensures ParseOrigin(Interleave(ws, ts), parseReal).None?
  {
    SplitInterleave(ws, ts);
  }

  /**
   A stop pressed before tile `j`'s loop-head check (for `j == 0`, while the
   worker sets up): no tile `j` is started, and the trace ends with the move
   back to the origin; with `j == 0` nothing but that move follows the setup.
   */
  lemma StopBeforeTileUnwinds(p: ScanParams, reply: string, parseReal: string -> Option<real>,
                              script: seq<TileEvent>, c: Control, j: nat)
    requires p.ySpeed != 0.0 && ParseOrigin(reply, parseReal).Some?
    requires j < p.tileCount && j < |script| && script[j] == StopBeforeTile
    requires forall t :: 0 <= t < j ==> NextAt(script, t)
    ensures var r := ScanSequence(p, reply, parseReal, script, c);
            var o := ParseOrigin(reply, parseReal).value;
            && r.status == Stopped
            && r.handler == [GenOff, StageEsc]
            && |YTargets(r.trace)| == j
            && |XTargets(r.trace)| == j
            && |r.trace| >= 3
            && r.trace[|r.trace| - 1] == MoveXY(o.x, o.y)
            && (j == 0 ==> r.trace == [SetSpeed(p.xSpeed, p.ySpeed), QueryPos, MoveXY(o.x, o.y)])
            && (j > 0 ==> r.trace[|r.trace| - 2] == MoveX(StepX(p, o, j - 1)))
            && !r.control.scanning
  {
    var o := ParseOrigin(reply, parseReal).value;
    assert !NextAt(script, j);
    assert StopTile(script, 0, p.tileCount) == j;
    RunShape(p, reply, parseReal, script, c);
    RunCounts(p, reply, parseReal, script, c);
    if j > 0 {
      StepEnding(p, o, j - 1);
    }
  }

  /** Commands that do not return the stage to the origin. */
  ghost predicate NoReturn(t: seq<Command>) {
    forall m :: 0 <= m < |t| ==> !t[m].MoveXY?
  }

  lemma {:induction false} BlocksNoReturn(p: ScanParams, o: Origin, i: nat, j: nat)
    ensures NoReturn(Blocks(p, o, i, j))
    decreases j - i
  {
    if i < j {
      BlocksUnfold(p, o, i, j);
      BlocksNoReturn(p, o, i + 1, j);
      var b := Block(p, o, i);
      assert b == [MoveY(TargetY(p, o, i)), GenPulse, GenFreq(p.triggerFreq), GenAmplitude(PulseAmplitude),
                   GenOffset(PulseOffset), GenOn, GenOff, MoveX(StepX(p, o, i))];
    }
  }

  /**
   The lost stop: a Stop pressed while tile `j`'s X step is sent, with no
   further press, leaves the worker waiting with its run flag cleared; the
   generator and stage got the handler's OFF and ESC, but the stage is never
   sent back to the origin.
   */
  lemma StopDuringStepIsLost(p: ScanParams, reply: string, parseReal: string -> Option<real>,
                             script: seq<TileEvent>, c: Control, j: nat)
    requires p.ySpeed != 0.0 && ParseOrigin(reply, parseReal).Some?
    requires j < p.tileCount && |script| == j + 1 && script[j] == StopDuringStep
    requires forall t :: 0 <= t < j ==> NextAt(script, t)
    ensures var r := ScanSequence(p, reply, parseReal, script, c);
            && r.status == AwaitingNext
            && !r.control.scanning && !r.control.proceed
            && r.handler == [GenOff, StageEsc]
            && |YTargets(r.trace)| == j + 1
            && |XTargets(r.trace)| == j + 1
            && |r.trace| >= 1
            && r.trace[|r.trace| - 1] == MoveX(StepX(p, ParseOrigin(reply, parseReal).value, j))
            && NoReturn(r.trace)
  {
    var o := ParseOrigin(reply, parseReal).value;
    assert !NextAt(script, j);
    assert StopTile(script, 0, p.tileCount) == j;
    RunShape(p, reply, parseReal, script, c);
    RunCounts(p, reply, parseReal, script, c);
    assert StopCommands + Wake(script, j + 1) == StopCommands + [];
    PausedEnding(p, o, j);
  }

  /** How a trace ends when the worker is left paused after tile `j`. */
  lemma PausedEnding(p: ScanParams, o: Origin, j: nat)
    ensures var t := Framed(p, o, Blocks(p, o, 0, j + 1), true);
            |t| >= 1 && t[|t| - 1] == MoveX(StepX(p, o, j)) && NoReturn(t)
  {
    var pre := [SetSpeed(p.xSpeed, p.ySpeed), QueryPos];
    BlocksSnoc(p, o, 0, j + 1);
    BlocksNoReturn(p, o, 0, j + 1);
    var t := Framed(p, o, Blocks(p, o, 0, j + 1), true);
    assert t == pre + Blocks(p, o, 0, j + 1);
    assert t == pre + Blocks(p, o, 0, j) + Block(p, o, j);
  }

  /**
   The same stop followed by a press: the worker wakes, finds the run flag
   cleared at the next loop head and returns to the origin; a Stop as the
   waking press sends the handler's two commands again.
   */
  lemma StopDuringStepWakes(p: ScanParams, reply: string, parseReal: string -> Option<real>,
                            script: seq<TileEvent>, c: Control, j: nat)
    requires p.ySpeed != 0.0 && ParseOrigin(reply, parseReal).Some?
    requires j < p.tileCount && j + 1 < |script| && script[j] == StopDuringStep
    requires forall t :: 0 <= t < j ==> NextAt(script, t)
    ensures var r := ScanSequence(p, reply, parseReal, script, c);
            var o := ParseOrigin(reply, parseReal).value;
            && r.status == Stopped
            && r.handler == [GenOff, StageEsc] + (if script[j + 1] == Next then [] else [GenOff, StageEsc])
            && |YTargets(r.trace)| == j + 1
            && |XTargets(r.trace)| == j + 1
            && |r.trace| >= 2
            && r.trace[|r.trace| - 2] == MoveX(StepX(p, o, j))
            && r.trace[|r.trace| - 1] == MoveXY(o.x, o.y)
            && !r.control.scanning
  {
    var o := ParseOrigin(reply, parseReal).value;
    assert !NextAt(script, j);
    assert StopTile(script, 0, p.tileCount) == j;
    RunShape(p, reply, parseReal, script, c);
    RunCounts(p, reply, parseReal, script, c);
    StepEnding(p, o, j);
  }
}
