/** What the driver's operations promise about the bytes they write, the
    flags they set and the values they store, stated over the model of
    the driver in `Device`. */
module Effects {

  import opened Wrappers
  import opened Floats
  import opened Errors
  import opened Codes
  import opened Dedup
  import opened Framing
  import opened Status
  import opened Adc
  import opened Offsets
  import opened Convergence
  import opened Device
  import Commands

  /** The text `update_status` reads: the next chunk, after the stream
      was switched off. */
  function StatusChunk(d: Device): string
  {
    var d0 := if d.isDataStreaming then StreamOff(d) else d;
    Read(d0, d0.nbytesStatus).text
  }

  // -------------------------------------------------------------- status

  /** After a status update LED `k` is on iff the last kept line of the
      read that reports it says '1'; an LED no kept line reports is off. */
  lemma StatusLed(v: Version, d: Device, k: LedIndex)
    requires UpdateStatus(v, d).err.None?
    ensures var cs := Classified(v, Latest(StatusLines(StatusChunk(d))));
      UpdateStatus(v, d).d.led.At(k) <==> exists a :: 0 <= a < |cs| && LastLed(cs, a, k) && cs[a].on
    ensures var cs := Classified(v, Latest(StatusLines(StatusChunk(d))));
      (forall a :: 0 <= a < |cs| ==> !NamesLed(cs[a], k)) ==> !UpdateStatus(v, d).d.led.At(k)
  {
    var d0 := if d.isDataStreaming then StreamOff(d) else d;
    LedRule(v, d0.led, d0.sensorPar, StatusLines(StatusChunk(d)), k);
  }

  /** A parameter no kept line reports: a coil field keeps its reading
      from before the update, the other parameters become NaN. */
  lemma StatusParAbsent(v: Version, d: Device, p: Param)
    requires UpdateStatus(v, d).err.None?
    requires var K := Latest(StatusLines(StatusChunk(d)));
      forall a :: 0 <= a < |K| ==> !NamesPar(Classify(v, K[a]), p)
    ensures UpdateStatus(v, d).d.sensorPar.Get(p) == if p.IsField() then d.sensorPar.Get(p) else NaN
  {
    var d0 := if d.isDataStreaming then StreamOff(d) else d;
    ParAbsent(v, d0.led, d0.sensorPar, StatusLines(StatusChunk(d)), p);
  }

  /** A parameter a kept line reports takes that line's value. */
  lemma StatusParReported(v: Version, d: Device, a: int, p: Param)
    requires UpdateStatus(v, d).err.None?
    requires var K := Latest(StatusLines(StatusChunk(d)));
      0 <= a < |K| && NamesPar(Classify(v, K[a]), p)
    ensures UpdateStatus(v, d).d.sensorPar.Get(p) == Classify(v, Latest(StatusLines(StatusChunk(d)))[a]).value
  {
    var d0 := if d.isDataStreaming then StreamOff(d) else d;
    ParReported(v, d0.led, d0.sensorPar, StatusLines(StatusChunk(d)), a, p);
  }

  /** A line that raises leaves the LEDs and parameters as they were, but
      the update time is set and the messages met before it are kept. */
  lemma StatusFault(v: Version, d: Device)
    requires UpdateStatus(v, d).err.Some?
    ensures UpdateStatus(v, d).d.led == d.led && UpdateStatus(v, d).d.sensorPar == d.sensorPar
    ensures UpdateStatus(v, d).d.statusLastUpdated.Some?
  {
    var d0 := if d.isDataStreaming then StreamOff(d) else d;
    FaultKeepsState(v, d0.led, d0.sensorPar, StatusLines(StatusChunk(d)));
  }

  // ----------------------------------------------------------- calibrate

  /** Neither the recorded flag nor the re-read LED4 shows zeroing: the
      call raises and '9' is never written. */
  lemma CalibrateRefuses(v: Version, d: Device)
    requires !d.isFieldZeroed
    requires UpdateStatus(v, d).err.None? && !UpdateStatus(v, d).d.led.fieldZeroed
    ensures Calibrate(v, d).err == Some(RuntimeError)
    ensures Calibrate(v, d).d.tx == d.tx + (if d.isDataStreaming then [Commands.DataStreamOff] else [])
    ensures Calibrate(v, d).d.isCalibrated == d.isCalibrated
    ensures Commands.Calibrate !in Calibrate(v, d).d.tx[|d.tx|..]
  {
    var t := Calibrate(v, d).d.tx;
    assert t[|d.tx|..] == (if d.isDataStreaming then [Commands.DataStreamOff] else []);
  }

  /** Zeroing recorded, or shown by LED4: '9' goes out and the sensor is
      marked calibrated. */
  lemma CalibrateStarts(v: Version, d: Device)
    requires d.isFieldZeroed || (UpdateStatus(v, d).err.None? && UpdateStatus(v, d).d.led.fieldZeroed)
    ensures Calibrate(v, d).d.isCalibrated
    ensures Calibrate(v, d).d.tx ==
      d.tx + (if !d.isFieldZeroed && d.isDataStreaming then [Commands.DataStreamOff] else []) + [Commands.Calibrate]
  {
  }

  // ------------------------------------------------------------- setters

  /** `set_axis_mode`: an unknown token raises before anything is written;
      z, y and dual write C, F and B, record the mode and invalidate
      calibration and zeroing. */
  lemma AxisModeEffect(v: Version, d: Device, mode: string)
    ensures Commands.AxisModeByte(Commands.Token(mode)).None? ==> SetAxisMode(v, d, mode) == Step(d, Some(RuntimeError))
    ensures Commands.AxisModeByte(Commands.Token(mode)).Some? ==>
      var b, r := Commands.AxisModeByte(Commands.Token(mode)).value, SetAxisMode(v, d, mode).d;
      r.tx == d.tx + [b] + (if d.isDataStreaming then [Commands.DataStreamOff] else []) &&
      r.axisMode == Commands.Token(mode) && Commands.AxisModeOfByte(b) == Some(r.axisMode) &&
      !r.isCalibrated && !r.isFieldZeroed
  {
    if Commands.AxisModeByte(Commands.Token(mode)).Some? {
      Commands.AxisModeRoundTrip(Commands.Token(mode), Commands.AxisModeByte(Commands.Token(mode)).value);
    }
  }

  /** `set_gain`: 0.33x, 1x and 3x write their byte and record the gain.
      Any other token writes nothing and keeps the gain; the older
      version returns quietly, the current one raises. */
  lemma GainEffect(v: Version, d: Device, mode: string)
    requires v == Legacy || Commands.Token(mode) != "0.1x"
    ensures Commands.GainOf(Commands.Token(mode)).None? ==>
      SetGain(v, d, mode) == Step(d, if v == Legacy then None else Some(NameError))
    ensures Commands.GainOf(Commands.Token(mode)).Some? ==>
      var g, r := Commands.GainOf(Commands.Token(mode)).value, SetGain(v, d, mode).d;
      r.tx == d.tx + [g.byte] && r.gain == g.gain && Commands.GainOfByte(g.byte) == Some(Commands.Token(mode))
  {
    if Commands.GainOf(Commands.Token(mode)).Some? {
      Commands.GainRoundTrip(Commands.Token(mode), Commands.GainOf(Commands.Token(mode)).value.byte);
    }
  }

  /** `_set_read_axis`: an unknown axis raises before anything is
      written; x, y and z write G, @ and ?, and the axis is recorded. */
  lemma ReadAxisEffect(v: Version, d: Device, axis: string)
    requires v == Legacy || d.readAxis != axis
    ensures var a := if v == Current then Text.Lower(axis) else axis;
      Commands.ReadAxisByte(a).None? ==> SetReadAxis(v, d, axis) == Step(d, Some(RuntimeError))
    ensures var a := if v == Current then Text.Lower(axis) else axis;
      Commands.ReadAxisByte(a).Some? ==>
        var r := SetReadAxis(v, d, axis).d;
        r.tx == d.tx + [Commands.ReadAxisByte(a).value] && r.readAxis == a &&
        Commands.ReadAxisOfByte(Commands.ReadAxisByte(a).value) == Some(a)
  {
    var a := if v == Current then Text.Lower(axis) else axis;
    if Commands.ReadAxisByte(a).Some? {
      Commands.ReadAxisRoundTrip(a, Commands.ReadAxisByte(a).value);
    }
  }

  /** `field_reset`: 'V' goes out, the three coil readings are 0 and
      calibration and zeroing are invalidated. */
  lemma FieldResetEffect(d: Device)
    requires FieldReset(d).err.None?
    ensures var r := FieldReset(d).d;
      r.tx == d.tx + [Commands.FieldReset] && !r.isCalibrated && !r.isFieldZeroed &&
      r.sensorPar.fieldZ == Num(0.0) && r.sensorPar.fieldY == Num(0.0) && r.sensorPar.field0 == Num(0.0)
  {
  }

  /** `reboot`: 'e' goes out and every attribute is back at its default. */
  lemma RebootEffect(v: Version, d: Device)
    requires Reboot(v, d).err.None?
    ensures var r := Reboot(v, d).d;
      r.tx == d.tx + [Commands.Reboot] + StreamStop(d) &&
      !r.isDataStreaming && !r.isFieldZeroed && r.isXyzZeroing && !r.isCalibrated &&
      r.axisMode == "z" && r.readAxis == "z" && r.gain == 2.7
  {
  }

  // ---------------------------------------------------------- field zero

  function AxesByte(axesXyz: bool): char
  {
    if axesXyz then Commands.ZeroAllAxes else Commands.ZeroYzAxes
  }

  function StreamStop(d: Device): string
  {
    if d.isDataStreaming then [Commands.DataStreamOff] else []
  }

  /** The shared part of `field_zero`: calibration is invalidated, 'i' or
      'h' selects the axes, then 'D' starts zeroing (not yet zeroed) or 'E'
      stops it (zeroed). */
  lemma SwitchEffect(v: Version, d: Device, on: bool, axesXyz: bool)
    requires ZeroSwitch(v, d, on, axesXyz).err.None?
    ensures var r := ZeroSwitch(v, d, on, axesXyz).d;
      !r.isCalibrated && r.isXyzZeroing == axesXyz && r.isFieldZeroed == !on &&
      r.tx == d.tx + [AxesByte(axesXyz), if on then Commands.ZeroingOn else Commands.ZeroingOff] +
              (if on then [] else StreamStop(d))
  {
    var d1 := Write(d.(isCalibrated := false), [AxesByte(axesXyz)]);
    assert d1.tx + [Commands.ZeroingOn] == d.tx + [AxesByte(axesXyz), Commands.ZeroingOn];
    assert d1.tx + [Commands.ZeroingOff] == d.tx + [AxesByte(axesXyz), Commands.ZeroingOff];
  }

  /** The bytes of the older `field_zero(on=True)`: the axes byte, 'D',
      '8' if the stream was on, and after the loop "iE" exactly when some
      threshold is finite; with every threshold +inf no 'E' is sent and
      zeroing is not recorded as done. */
  lemma LegacyZeroBytes(d: Device, axesXyz: bool, thr: Thresholds, interruptAfter: nat)
    requires LegacyFieldZero(d, true, axesXyz, thr, interruptAfter).err.None?
    ensures var r := LegacyFieldZero(d, true, axesXyz, thr, interruptAfter).d;
      r.tx == d.tx + [AxesByte(axesXyz), Commands.ZeroingOn] + StreamStop(d) +
              (if AnyFinite(thr) then [Commands.ZeroAllAxes, Commands.ZeroingOff] else []) &&
      r.isFieldZeroed == AnyFinite(thr) && r.isXyzZeroing == (AnyFinite(thr) || axesXyz) && !r.isCalibrated
  {
    var s := ZeroSwitch(Legacy, d, true, axesXyz);
    SwitchEffect(Legacy, d, true, axesXyz);
    var s1 := UpdateStatus(Legacy, s.d);
    assert s1.d.tx == d.tx + [AxesByte(axesXyz), Commands.ZeroingOn] + StreamStop(d);
    assert s1.err.None?;
    var e := ZeroLoop(s1.d, Unseen, Now(s1.d.sensorPar), thr, interruptAfter);
    assert e.err.None? && Quiet(s1.d, e.d);
    var s3 := if AnyFinite(thr) then ZeroSwitch(Legacy, e.d, false, true) else Step(e.d, None);
    assert s3.err.None?;
    LegacyTail(e.d, thr);
    assert LegacyFieldZero(d, true, axesXyz, thr, interruptAfter) == UpdateStatus(Legacy, s3.d);
  }

  /** After the older loop: 'i' and 'E' when some threshold is finite,
      then the final status read, which writes nothing more. */
  lemma LegacyTail(e: Device, thr: Thresholds)
    requires !e.isDataStreaming
    ensures var s3 := if AnyFinite(thr) then ZeroSwitch(Legacy, e, false, true) else Step(e, None);
      var r := UpdateStatus(Legacy, s3.d).d;
      (s3.err.None? ==>
        r.tx == e.tx + (if AnyFinite(thr) then [Commands.ZeroAllAxes, Commands.ZeroingOff] else []) &&
        r.isFieldZeroed == (AnyFinite(thr) || e.isFieldZeroed) &&
        r.isXyzZeroing == (AnyFinite(thr) || e.isXyzZeroing) &&
        r.isCalibrated == (!AnyFinite(thr) && e.isCalibrated))
  {
    if AnyFinite(thr) {
      var s3 := ZeroSwitch(Legacy, e, false, true);
      if s3.err.None? {
        SwitchEffect(Legacy, e, false, true);
        assert !s3.d.isDataStreaming;
      }
    }
  }

  /** With the default thresholds the older loop never polls and zeroing
      is left running: no 'E' is ever written. */
  lemma LegacyDefaultsNeverStop(d: Device, axesXyz: bool, interruptAfter: nat)
    requires LegacyFieldZero(d, true, axesXyz, Disabled, interruptAfter).err.None?
    ensures var t := LegacyFieldZero(d, true, axesXyz, Disabled, interruptAfter).d.tx;
      |d.tx| <= |t| && Commands.ZeroingOff !in t[|d.tx|..]
  {
    LegacyZeroBytes(d, axesXyz, Disabled, interruptAfter);
    var t := LegacyFieldZero(d, true, axesXyz, Disabled, interruptAfter).d.tx;
    NoStopByte(d.tx, t, AxesByte(axesXyz), StreamStop(d));
  }

  lemma NoStopByte(t0: string, t: string, axes: char, rest: string)
    requires axes != Commands.ZeroingOff && Commands.ZeroingOff !in rest
    requires t == t0 + [axes, Commands.ZeroingOn] + rest
    ensures |t0| <= |t| && Commands.ZeroingOff !in t[|t0|..]
  {
    assert t[|t0|..] == [axes, Commands.ZeroingOn] + rest;
  }

  /** The bytes of the current `field_zero(on=True)`: the axes byte, 'D',
      '8' if the stream was on, and "iE" from the interrupt exactly when
      `show` kept the loop running. */
  lemma CurrentZeroBytes(d: Device, axesXyz: bool, show: bool, interruptAfter: nat)
    requires FieldZero(d, true, axesXyz, show, interruptAfter).err.None?
    ensures var r := FieldZero(d, true, axesXyz, show, interruptAfter).d;
      r.tx == d.tx + [AxesByte(axesXyz), Commands.ZeroingOn] + StreamStop(d) +
              (if show then [Commands.ZeroAllAxes, Commands.ZeroingOff] else []) &&
      r.isFieldZeroed == show && r.isXyzZeroing == (show || axesXyz) && !r.isCalibrated
  {
    var s := ZeroSwitch(Current, d, true, axesXyz);
    SwitchEffect(Current, d, true, axesXyz);
    var s1 := UpdateStatus(Current, s.d);
    assert s1.err.None?;
    assert s1.d.tx == d.tx + [AxesByte(axesXyz), Commands.ZeroingOn] + StreamStop(d);
    if show {
      var s2 := Polls(Current, s1.d, interruptAfter);
      assert s2.err.None? && Quiet(s1.d, s2.d);
      var s3 := ZeroSwitch(Current, s2.d, false, true);
      assert s3.err.None?;
      SwitchEffect(Current, s2.d, false, true);
      assert FieldZero(d, true, axesXyz, show, interruptAfter) == UpdateStatus(Current, s3.d);
    } else {
      assert FieldZero(d, true, axesXyz, show, interruptAfter) == UpdateStatus(Current, s1.d);
    }
  }

  // ------------------------------------------------------------ read data

  /** With the axis already selected and the stream on, the current
      `read_data` reads one chunk of at most `10 * (npts + 2)` characters
      and decodes exactly that; a decoded burst is saved. */
  lemma ReadDataOneChunk(d: Device, npts: int, axis: string)
    requires d.readAxis == axis && d.isDataStreaming && d.rx != []
    ensures var r := ReadData(Current, d, npts, axis);
      r.result == Decode(Current, Text.Take(d.rx[0].text, BurstBytes(npts)), npts, d.rx[0].start, d.rx[0].stop) &&
      r.d.rx == d.rx[1..] && r.d.tx == d.tx
    ensures var r := ReadData(Current, d, npts, axis);
      r.result.Data? ==> r.d.time == r.result.times && r.d.field == r.result.field && |r.d.field| == npts
  {
    var r := ReadData(Current, d, npts, axis);
    if r.result.Data? {
      DecodeCount(Current, DataWords(Text.Take(d.rx[0].text, BurstBytes(npts))), npts, d.rx[0].start, d.rx[0].stop);
    }
  }

  /** Whatever the version, a decoded burst is what `read_data` saves,
      with exactly `npts` samples. */
  lemma ReadDataSaves(v: Version, d: Device, npts: int, axis: string)
    requires ReadData(v, d, npts, axis).result.Data?
    ensures var r := ReadData(v, d, npts, axis);
      r.d.time == r.result.times && r.d.field == r.result.field &&
      |r.d.time| == npts && |r.d.field| == npts && r.d.isDataStreaming
  {
    var s := SetReadAxis(v, d, axis);
    var s1 := if s.d.isDataStreaming then s else StreamOn(s.d);
    var rd := Read(s1.d, BurstBytes(npts));
    DecodeCount(v, DataWords(rd.text), npts, rd.start, rd.stop);
  }

  // --------------------------------------------------------- read offsets

  /** The texts the loop of `read_offsets` receives, one per read. */
  function Texts(rx: seq<Chunk>, n: int): (r: seq<string>)
    ensures |r| == |rx| && forall i :: 0 <= i < |rx| ==> r[i] == Text.Take(rx[i].text, n)
  {
    seq(|rx|, i requires 0 <= i < |rx| => Text.Take(rx[i].text, n))
  }

  /** The loop on the port is `Run` on the texts it reads: it finishes,
      fails or starves exactly as `Run` does, and a finished loop has
      used exactly `Run`'s count of reads. */
  lemma {:induction false} LoopIsRun(d: Device, o: Axes, npts: int)
    requires o.Valid()
    ensures var l, u := OffsetLoop(d, o, npts), Run(o, Texts(d.rx, d.nbytesStatus), npts);
      (l.Finished? <==> u.Done?) && (l.Blocked? <==> u.Starved?) && (l.Broke? <==> u.Failed?) &&
      (l.Finished? ==> l.o == u.o && u.used <= |d.rx| && l.d.rx == d.rx[u.used..]) &&
      (l.Broke? ==> l.e == u.e)
    decreases |d.rx|
  {
    var T := Texts(d.rx, d.nbytesStatus);
    if o.Running(npts) && d.rx != [] {
      var r := Read(d, d.nbytesStatus);
      assert r.text == T[0];
      if Round(o, r.text).Ok? {
        RoundKeepsShape(o, r.text);
        assert Texts(r.d.rx, d.nbytesStatus) == T[1..];
        LoopIsRun(r.d, Round(o, r.text).o, npts);
        var u := Run(Round(o, r.text).o, T[1..], npts);
        if u.Done? {
          assert d.rx[u.used + 1..] == d.rx[1..][u.used..];
        }
      }
    }
  }

  /** A finished `read_offsets` saves and returns a table of exactly
      `npts` rows, timed `i / 200` s from the start of the first read;
      each column is its buffer's first `npts` slots, and an axis that
      did not fill is padded with zeros after its own readings.  A device
      still streaming is switched off first, which writes '8' and reads
      nothing, so the loop sees the same reads either way. */
  lemma OffsetsTable(d: Device, npts: int)
    requires ReadOffsets(d, npts).result.Offsets?
    ensures npts >= 0
    ensures var t, u := ReadOffsets(d, npts).result.table, Run(Start(npts), Texts(d.rx, d.nbytesStatus), npts);
      u.Done? && ReadOffsets(d, npts).d.dataFz == Some(t) &&
      |t.times| == npts && |t.x| == npts && |t.y| == npts && |t.z| == npts &&
      |u.o.xs| == 2 * npts && |u.o.ys| == 2 * npts && |u.o.zs| == 2 * npts &&
      t.x == u.o.xs[..npts] && t.y == u.o.ys[..npts] && t.z == u.o.zs[..npts] &&
      (forall i :: 0 <= i < npts ==> t.times[i] == i as real / 200.0 + StartTime(d)) &&
      (forall i :: u.o.nx <= i < npts ==> t.x[i] == 0.0) &&
      (forall i :: u.o.ny <= i < npts ==> t.y[i] == 0.0) &&
      (forall i :: u.o.nz <= i < npts ==> t.z[i] == 0.0)
  {
    var d0 := if d.isDataStreaming then StreamOff(d) else d;
    assert d0.rx == d.rx && d0.nbytesStatus == d.nbytesStatus && StartTime(d0) == StartTime(d);
    LoopIsRun(d0, Start(npts), npts);
    var T := Texts(d.rx, d.nbytesStatus);
    FinishedTable(npts, T, X, StartTime(d));
    FinishedTable(npts, T, Y, StartTime(d));
    FinishedTable(npts, T, Z, StartTime(d));
  }
}
