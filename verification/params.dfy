/** Scan parameters and their conversion from the six entry fields (`start_scan`). */
module Params {
  import opened Optional

  /** The stage counts 10 000 device units per millimetre. */
  const DeviceScale: real := 10000.0

  /** The tuple `scan_params` handed to the worker; distances already in device units. */
  datatype ScanParams = ScanParams(
    xSpeed: real,
    ySpeed: real,
    triggerFreq: real,
    scanRangeY: real,
    tileCount: int,
    tileStepX: real)

  /** The text of the six entry fields. */
  datatype ScanFields = ScanFields(
    xSpeed: string,
    ySpeed: string,
    triggerFreq: string,
    scanDistanceY: string,
    tileCount: string,
    tileStepX: string)

  /**
   `start_scan`: every field must convert (`parseReal` stands for Python's `float`,
   `parseInt` for `int`), otherwise no scan starts; both distances are scaled to
   device units.
   */
  function StartScan(f: ScanFields, parseReal: string -> Option<real>, parseInt: string -> Option<int>)
    : (r: Option<ScanParams>)
    ensures r.Some? <==>
      && parseReal(f.xSpeed).Some? && parseReal(f.ySpeed).Some?
      && parseReal(f.triggerFreq).Some? && parseReal(f.scanDistanceY).Some?
      && parseInt(f.tileCount).Some? && parseReal(f.tileStepX).Some?
    ensures r.Some? ==>
      && r.value.xSpeed == parseReal(f.xSpeed).value
      && r.value.ySpeed == parseReal(f.ySpeed).value
      && r.value.triggerFreq == parseReal(f.triggerFreq).value
      && r.value.tileCount == parseInt(f.tileCount).value
      && r.value.scanRangeY / DeviceScale == parseReal(f.scanDistanceY).value
      && r.value.tileStepX / DeviceScale == parseReal(f.tileStepX).value
  {
    match (parseReal(f.xSpeed), parseReal(f.ySpeed), parseReal(f.triggerFreq),
           parseReal(f.scanDistanceY), parseInt(f.tileCount), parseReal(f.tileStepX))
    case (Some(xs), Some(ys), Some(hz), Some(dy), Some(n), Some(dx)) =>
      Some(ScanParams(xs, ys, hz, dy * DeviceScale, n, dx * DeviceScale))
    case _ => None
  }

  /**
   Duration of one Y pass, `scan_range_y / 1e4 / y_speed`; `None` is the
   ZeroDivisionError raised when `y_speed` is zero.
   */
  function TotalTime(p: ScanParams): (r: Option<real>)
    ensures r.None? <==> p.ySpeed == 0.0
    ensures r.Some? ==> r.value * p.ySpeed == p.scanRangeY / DeviceScale
  {
    if p.ySpeed == 0.0 then None else Some(p.scanRangeY / DeviceScale / p.ySpeed)
  }

  /** The pass duration is the distance typed in, over the Y speed typed in. */
  lemma TotalTimeOfFields(f: ScanFields, parseReal: string -> Option<real>, parseInt: string -> Option<int>)
    requires StartScan(f, parseReal, parseInt).Some?
    requires parseReal(f.ySpeed).value != 0.0
    ensures TotalTime(StartScan(f, parseReal, parseInt).value)
         == Some(parseReal(f.scanDistanceY).value / parseReal(f.ySpeed).value)
  {
  }

  /** The default fields: 8.0 mm at 0.2 mm/s is a 40 s pass. */
  lemma DefaultPassTakesForty(f: ScanFields, parseReal: string -> Option<real>, parseInt: string -> Option<int>)
    requires parseReal(f.xSpeed) == Some(0.1) && parseReal(f.ySpeed) == Some(0.2)
    requires parseReal(f.triggerFreq) == Some(10.0) && parseReal(f.scanDistanceY) == Some(8.0)
    requires parseInt(f.tileCount) == Some(10) && parseReal(f.tileStepX) == Some(0.7)
    ensures StartScan(f, parseReal, parseInt).Some?
    ensures StartScan(f, parseReal, parseInt).value.scanRangeY == 80000.0
    ensures StartScan(f, parseReal, parseInt).value.tileStepX == 7000.0
    ensures TotalTime(StartScan(f, parseReal, parseInt).value) == Some(40.0)
  {
  }
}
