/**
 The commands the scan controller sends to its two devices: the XY(Z) stage on
 a serial line and the DG800 pulse generator (channel 1) over VISA. Commands are
 structured values; the ASCII text each one is formatted into is left out.
 */
module Devices {

  /** Peak amplitude, in volts, written to the generator before every pass. */
  const PulseAmplitude: real := 5.0

  /** Offset, in volts, written to the generator before every pass. */
  const PulseOffset: real := 2.5

  datatype Command =
    /** Stage `S X=.. Y=..`: axis speeds in mm/s. */
    | SetSpeed(x: real, y: real)
    /** Stage `W X Y Z`: position query. */
    | QueryPos
    /** Stage `M Y=..`: absolute Y move. */
    | MoveY(y: real)
    /** Stage `M X=..`: absolute X move. */
    | MoveX(x: real)
    /** Stage `M X=.. Y=..`: absolute move of both axes. */
    | MoveXY(x: real, y: real)
    /** Stage ESC: immediate halt. */
    | StageEsc
    /** Generator `:SOUR1:FUNC PULSE`. */
    | GenPulse
    /** Generator `:SOUR1:FREQ f`. */
    | GenFreq(hz: real)
    /** Generator `:SOUR1:VOLT v`. */
    | GenAmplitude(volts: real)
    /** Generator `:SOUR1:VOLT:OFFS v`. */
    | GenOffset(volts: real)
    /** Generator `:OUTP1 ON`. */
    | GenOn
    /** Generator `:OUTP1 OFF`. */
    | GenOff

  /** The four writes that prepare channel 1 for a pulse train at `hz`. */
  function Configure(hz: real): (r: seq<Command>)
    ensures |r| == 4
  {
    [GenPulse, GenFreq(hz), GenAmplitude(PulseAmplitude), GenOffset(PulseOffset)]
  }

  /** Commands `stop_scan` sends: output off, then the stage ESC. */
  const StopCommands: seq<Command> := [GenOff, StageEsc]

  /**
   The generator discipline at position `k` of trace `t`: every Y move is
   followed at once by the full configuration and an ON (each pass is
   triggered); an ON is preceded by the full configuration and followed at once
   by an OFF; and every OFF closes the ON just before it (so no stage command
   runs with the trigger energised).
   */
  ghost predicate PairedAt(t: seq<Command>, k: int, hz: real)
    requires 0 <= k < |t|
  {
    && (t[k].MoveY? ==> k + 6 <= |t| && t[k + 1..k + 6] == Configure(hz) + [GenOn])
    && (t[k] == GenOn ==> 4 <= k && k + 1 < |t| && t[k + 1] == GenOff && t[k - 4..k] == Configure(hz))
    && (t[k] == GenOff ==> 1 <= k && t[k - 1] == GenOn)
  }

  ghost predicate GeneratorPaired(t: seq<Command>, hz: real) {
    forall k :: 0 <= k < |t| ==> PairedAt(t, k, hz)
  }

  lemma PairedAtLeft(a: seq<Command>, b: seq<Command>, k: int, hz: real)
    requires 0 <= k < |a| && PairedAt(a, k, hz)
    ensures PairedAt(a + b, k, hz)
  {
    var t := a + b;
    assert t[k] == a[k];
    if a[k].MoveY? {
      assert t[k + 1..k + 6] == a[k + 1..k + 6];
    }
    if a[k] == GenOn {
      assert t[k - 4..k] == a[k - 4..k];
      assert t[k + 1] == a[k + 1];
    }
    if a[k] == GenOff {
      assert t[k - 1] == a[k - 1];
    }
  }

  lemma PairedAtRight(a: seq<Command>, b: seq<Command>, m: int, hz: real)
    requires 0 <= m < |b| && PairedAt(b, m, hz)
    ensures PairedAt(a + b, |a| + m, hz)
  {
    var t := a + b;
    var k := |a| + m;
    assert t[k] == b[m];
    if b[m].MoveY? {
      assert t[k + 1..k + 6] == b[m + 1..m + 6];
    }
    if b[m] == GenOn {
      assert t[k - 4..k] == b[m - 4..m];
      assert t[k + 1] == b[m + 1];
    }
    if b[m] == GenOff {
      assert t[k - 1] == b[m - 1];
    }
  }

  /** The discipline is compositional: traces that keep it can be appended. */
  lemma PairedAppend(a: seq<Command>, b: seq<Command>, hz: real)
    requires GeneratorPaired(a, hz) && GeneratorPaired(b, hz)
    ensures GeneratorPaired(a + b, hz)
  {
    forall k | 0 <= k < |a + b|
      ensures PairedAt(a + b, k, hz)
    {
      if k < |a| {
        PairedAtLeft(a, b, k, hz);
      } else {
        PairedAtRight(a, b, k - |a|, hz);
      }
    }
  }

  /** Targets of the X-only moves in a trace, in order. */
  function XTargets(t: seq<Command>): (r: seq<real>)
    ensures |r| <= |t|
  {
    if |t| == 0 then []
    else (if t[0].MoveX? then [t[0].x] else []) + XTargets(t[1..])
  }

  /** Targets of the Y-only moves in a trace, in order. */
  function YTargets(t: seq<Command>): (r: seq<real>)
    ensures |r| <= |t|
  {
    if |t| == 0 then []
    else (if t[0].MoveY? then [t[0].y] else []) + YTargets(t[1..])
  }

  lemma {:induction false} TargetsAppend(a: seq<Command>, b: seq<Command>)
    ensures XTargets(a + b) == XTargets(a) + XTargets(b)
    ensures YTargets(a + b) == YTargets(a) + YTargets(b)
    decreases |a|
  {
    if |a| == 0 {
      assert a + b == b;
    } else {
      assert (a + b)[0] == a[0];
      assert (a + b)[1..] == a[1..] + b;
      TargetsAppend(a[1..], b);
    }
  }
}
