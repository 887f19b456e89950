/** The driver object `QZFM`: its attributes are fields that the methods
    update in place (grouped by what they describe: the port, what the
    device reported, the data read, the settings), and every method is proved to leave the object in the
    state the corresponding function of `Device` computes from the old one.
    One class covers both versions of the driver; `version` tells them
    apart, and the operations only the current version has require it. */
module Driver {

  import opened Wrappers
  import opened Text
  import opened Framing
  import opened Floats
  import opened Errors
  import opened Codes
  import opened Dedup
  import opened Status
  import opened Adc
  import opened Offsets
  import opened Convergence
  import Commands
  import D = Device

  /** The serial port `ser` and the clock: reads still to come, the time
      now, the bytes written. */
  datatype Port = Port(rx: seq<D.Chunk>, clock: real, tx: string)

  /** What the device has reported: the time of the last status update,
      `led`, `sensor_par` and `messages`. */
  datatype Reported = Reported(statusLastUpdated: Option<real>, led: LedState, sensorPar: SensorPar,
                               messages: seq<D.Message>)

  /** The last data read: `time`, `field` and `data_fz`. */
  datatype Acquired = Acquired(time: seq<real>, field: seq<Float>, dataFz: Option<Table>)

  /** The attributes `_reset_attributes` sets. */
  datatype Attributes = Attributes(isDataStreaming: bool, isFieldZeroed: bool, isXyzZeroing: bool,
                                   isCalibrated: bool, axisMode: string, readAxis: string, gain: real)

  class Magnetometer {
    const version: Version
    const nbytesStatus: int

    var ser: Port
    var status: Reported
    var data: Acquired
    var attrs: Attributes

    /** The object as a value. */
    function State(): D.Device
      reads this
    {
      D.Device(ser.rx, ser.clock, ser.tx, nbytesStatus, data.time, data.field,
               status.statusLastUpdated, status.led, status.sensorPar, status.messages,
               attrs.isDataStreaming, attrs.isFieldZeroed, attrs.isXyzZeroing, attrs.isCalibrated,
               attrs.axisMode, attrs.readAxis, attrs.gain, data.dataFz)
    }

    /** `__init__` without a device name, on a port that will deliver `script`. */
    constructor (version: Version, nbytesStatus: int, script: seq<D.Chunk>, clock: real)
      ensures this.version == version
      ensures State() == D.Initial(script, clock, nbytesStatus)
    {
      this.version := version;
      this.nbytesStatus := nbytesStatus;
      ser := Port(script, clock, "");
      status := Reported(None, AllOff, Unknown, []);
      data := Acquired([], [], None);
      attrs := Attributes(false, false, true, false, "z", "z", 2.7);
      new;
      ResetAttributes();
    }

    // ---------------------------------------------------------------- port

    /** `ser.write(bytes)` */
    method Write(bytes: string)
      modifies this
      ensures State() == D.Write(old(State()), bytes)
    {
      ser := ser.(tx := ser.tx + bytes);
    }

    /** `ser.read(n)`, with the clock readings around it. */
    method Receive(n: int) returns (text: string, start: real, stop: real)
      modifies this
      ensures D.Received(text, start, stop, State()) == D.Read(old(State()), n)
    {
      if ser.rx == [] {
        text, start, stop := "", ser.clock, ser.clock;
      } else {
        var c := ser.rx[0];
        text, start, stop := Take(c.text, n), c.start, c.stop;
        ser := ser.(rx := ser.rx[1..], clock := c.stop);
      }
    }

    /** `_read_serial(nbytes)`: the complete status lines of one read. */
    method ReadSerial(n: int) returns (lines: seq<string>)
      modifies this
      ensures lines == StatusLines(D.Read(old(State()), n).text)
      ensures State() == D.Read(old(State()), n).d
    {
      var text, _, _ := Receive(n);
      lines := StatusLines(text);
    }

    // ---------------------------------------------------------- attributes

    /** `_reset_attributes` */
    method ResetAttributes()
      modifies this
      ensures State() == D.ResetAttributes(old(State()))
    {
      attrs := Attributes(false, false, true, false, "z", "z", 2.7);
    }

    /** Assigns the attributes `_reset_attributes` covers. */
    method SetAttributes(a: Attributes)
      modifies this
      ensures State() == old(State()).(isDataStreaming := a.isDataStreaming, isFieldZeroed := a.isFieldZeroed,
                                       isXyzZeroing := a.isXyzZeroing, isCalibrated := a.isCalibrated,
                                       axisMode := a.axisMode, readAxis := a.readAxis, gain := a.gain)
    {
      attrs := a;
    }

    // ------------------------------------------------------------ messages

    /** `_get_next_message(timeout)` */
    method GetNextMessage(timeout: real) returns (err: Option<PyError>)
      modifies this
      ensures D.Step(State(), err) == D.GetNextMessage(old(State()), timeout)
    {
      var tStart := D.StartTime(State());
      while true
        invariant D.WaitMessage(State(), tStart, timeout) == D.GetNextMessage(old(State()), timeout)
        decreases |ser.rx|
      {
        if ser.rx == [] {
          return None;
        }
        var lines := ReadSerial(nbytesStatus);
        var t := ser.clock;
        if D.HasEmpty(lines) {
          return Some(IndexError);
        }
        var mess := D.Notes(lines, t);
        if t - tStart > timeout {
          return None;
        }
        if mess != [] {
          status := status.(messages := status.messages + mess);
          return None;
        }
      }
    }

    /** `_set_data_stream(on)` */
    method SetDataStream(on: bool) returns (err: Option<PyError>)
      modifies this
      ensures D.Step(State(), err) == if on then D.StreamOn(old(State())) else D.Step(D.StreamOff(old(State())), None)
    {
      if on {
        Write([Commands.DataStreamOn]);
        err := GetNextMessage(1.0);
        if err.None? {
          attrs := attrs.(isDataStreaming := true);
        }
      } else {
        Write([Commands.DataStreamOff]);
        attrs := attrs.(isDataStreaming := false);
        err := None;
      }
    }

    // -------------------------------------------------------------- status

    /** The body of `update_status` after the read: keep the newest line
        per prefix, classify the kept lines in turn, then overwrite the
        LEDs and parameters.  Messages are appended as they are met, so a
        line that raises keeps the ones before it. */
    method Fold(lines: seq<string>, t: real) returns (err: Option<PyError>)
      modifies this
      ensures var p := Apply(version, old(status.led), old(status.sensorPar), lines);
        State() == old(State()).(led := p.led, sensorPar := p.par, messages := old(status.messages) + D.Stamp(p.notes, t)) &&
        err == p.fault
    {
      var codes := KeepLatest(lines);
      ghost var cs := Classified(version, codes);
      var leds: map<LedIndex, bool> := map[];
      var pars: map<Param, Float> := map[];
      ghost var notes: seq<string> := [];
      var i := 0;
      assert cs[..0] == [];
      while i < |codes|
        invariant 0 <= i <= |codes|
        invariant Interpret(cs[..i]) == Scan(Batch(leds, pars, notes), None)
        invariant State() == old(State()).(messages := old(status.messages) + D.Stamp(notes, t))
      {
        InterpretStep(cs, i);
        match Classify(version, codes[i]) {
          case Fault(e) =>
            FaultSticks(cs, i + 1);
            return Some(e);
          case Led(k, on) =>
            leds := leds[k := on];
          case Par(p, x) =>
            pars := pars[p := x];
          case Note(text) =>
            status := status.(messages := status.messages + [D.Message(text, t)]);
            assert D.Stamp(notes + [text], t) == D.Stamp(notes, t) + [D.Message(text, t)];
            notes := notes + [text];
          case Skip =>
        }
        i := i + 1;
      }
      assert cs[..i] == cs;
      status := status.(led := NewLeds(leds), sensorPar := NewPars(status.sensorPar, pars));
      err := None;
    }

    /** `update_status` */
    method UpdateStatus() returns (err: Option<PyError>)
      modifies this
      ensures D.Step(State(), err) == D.UpdateStatus(version, old(State()))
    {
      if attrs.isDataStreaming {
        err := SetDataStream(false);
      }
      var lines := ReadSerial(nbytesStatus);
      status := status.(statusLastUpdated := Some(ser.clock));
      err := Fold(lines, ser.clock);
    }

    /** The `field_zeroed` property: a fresh status update, then LED4. */
    method FieldZeroed() returns (on: bool, err: Option<PyError>)
      modifies this
      ensures D.Step(State(), err) == D.UpdateStatus(version, old(State()))
      ensures on == State().led.fieldZeroed
    {
      err := UpdateStatus();
      on := status.led.fieldZeroed;
    }

    // ------------------------------------------------------------- setters

    /** `_set_read_axis(axis)` */
    method SetReadAxis(axis: string) returns (err: Option<PyError>)
      modifies this
      ensures D.Step(State(), err) == D.SetReadAxis(version, old(State()), axis)
    {
      if version == Current && attrs.readAxis == axis {
        return None;
      }
      var a := if version == Current then Lower(axis) else axis;
      match Commands.ReadAxisByte(a) {
        case None =>
          return Some(RuntimeError);
        case Some(b) =>
          Write([b]);
          attrs := attrs.(readAxis := a);
          err := GetNextMessage(1.0);
      }
    }

    /** `set_axis_mode(mode)` */
    method SetAxisMode(mode: string) returns (err: Option<PyError>)
      modifies this
      ensures D.Step(State(), err) == D.SetAxisMode(version, old(State()), mode)
    {
      ghost var d0 := State();
      var m := Commands.Token(mode);
      match Commands.AxisModeByte(m) {
        case None =>
          return Some(RuntimeError);
        case Some(b) =>
          Write([b]);
          attrs := attrs.(axisMode := m, isCalibrated := false, isFieldZeroed := false);
          ghost var d1 := State();
          assert D.SetAxisMode(version, d0, mode) == D.UpdateStatus(version, d1);
          err := UpdateStatus();
      }
    }

    /** `set_gain(mode)` */
    method SetGain(mode: string) returns (err: Option<PyError>)
      requires version == Legacy || Commands.Token(mode) != "0.1x"
      modifies this
      ensures D.Step(State(), err) == D.SetGain(version, old(State()), mode)
    {
      var m := Commands.Token(mode);
      match Commands.GainOf(m) {
        case None =>
          return if version == Current then Some(NameError) else None;
        case Some(g) =>
          Write([g.byte]);
          attrs := attrs.(gain := g.gain);
      }
      if version == Current {
        err := GetNextMessage(10.0);
      } else {
        err := None;
      }
    }

    /** `field_reset` */
    method FieldReset() returns (err: Option<PyError>)
      modifies this
      ensures D.Step(State(), err) == D.FieldReset(old(State()))
    {
      Write([Commands.FieldReset]);
      err := GetNextMessage(1.0);
      if err.Some? {
        return;
      }
      status := status.(sensorPar := status.sensorPar.(fieldZ := Num(0.0), fieldY := Num(0.0), field0 := Num(0.0)));
      attrs := attrs.(isCalibrated := false, isFieldZeroed := false);
    }

    /** `calibrate` */
    method Calibrate() returns (err: Option<PyError>)
      modifies this
      ensures D.Step(State(), err) == D.Calibrate(version, old(State()))
    {
      if !attrs.isFieldZeroed {
        var on;
        on, err := FieldZeroed();
        if err.Some? {
          return;
        }
        if !on {
          return Some(RuntimeError);
        }
      }
      Write([Commands.Calibrate]);
      attrs := attrs.(isCalibrated := true);
      err := GetNextMessage(100.0);
    }

    /** `reboot` */
    method Reboot() returns (err: Option<PyError>)
      modifies this
      ensures D.Step(State(), err) == D.Reboot(version, old(State()))
    {
      Write([Commands.Reboot]);
      err := UpdateStatus();
      if err.Some? {
        return;
      }
      ResetAttributes();
    }

    // ---------------------------------------------------------- field zero

    /** The lines of `field_zero` both versions share. */
    method ZeroSwitch(on: bool, axesXyz: bool) returns (err: Option<PyError>)
      modifies this
      ensures D.Step(State(), err) == D.ZeroSwitch(version, old(State()), on, axesXyz)
    {
      ghost var d0 := State();
      // `is_calibrated := False` and `is_xyz_zeroing := axes_xyz` around the
      // write; no read or raise comes between them, so one update does both.
      Write([if axesXyz then Commands.ZeroAllAxes else Commands.ZeroYzAxes]);
      SetAttributes(attrs.(isCalibrated := false, isXyzZeroing := axesXyz));
      ghost var d1 := State();
      assert d1 == D.Write(d0.(isCalibrated := false),
                           [if axesXyz then Commands.ZeroAllAxes else Commands.ZeroYzAxes]).(isXyzZeroing := axesXyz);
      if on {
        Write([Commands.ZeroingOn]);
        SetAttributes(attrs.(isFieldZeroed := false));
        err := None;
        assert D.Step(State(), err) == D.ZeroSwitch(version, d0, on, axesXyz);
      } else {
        Write([Commands.ZeroingOff]);
        SetAttributes(attrs.(isFieldZeroed := true));
        ghost var d2 := State();
        assert d2 == D.Write(d1, [Commands.ZeroingOff]).(isFieldZeroed := true);
        err := UpdateStatus();
        assert D.Step(State(), err) == D.UpdateStatus(version, d2) == D.ZeroSwitch(version, d0, on, axesXyz);
      }
    }

    /** The monitoring loop `while show:` of the current `field_zero`: poll
        the status until the user interrupts, after `interruptAfter` polls. */
    method Monitor(interruptAfter: nat) returns (err: Option<PyError>)
      modifies this
      ensures D.Step(State(), err) == D.Polls(version, old(State()), interruptAfter)
    {
      var left := interruptAfter;
      err := None;
      while left > 0
        invariant err.None?
        invariant D.Polls(version, State(), left) == D.Polls(version, old(State()), interruptAfter)
      {
        err := UpdateStatus();
        if err.Some? {
          return;
        }
        left := left - 1;
      }
    }

    /** The current `field_zero(on, axes_xyz, show)`; the user interrupts
        the monitoring loop after `interruptAfter` polls. */
    method FieldZero(on: bool, axesXyz: bool, show: bool, interruptAfter: nat) returns (err: Option<PyError>)
      requires version == Current
      modifies this
      ensures D.Step(State(), err) == D.FieldZero(old(State()), on, axesXyz, show, interruptAfter)
      decreases if on then 1 else 0
    {
      err := ZeroSwitch(on, axesXyz);
      if !on || err.Some? {
        return;
      }
      err := UpdateStatus();
      if err.Some? {
        return;
      }
      if show {
        err := Monitor(interruptAfter);
        if err.Some? {
          return;
        }
        err := FieldZero(false, true, true, 0);
        if err.Some? {
          return;
        }
      }
      err := UpdateStatus();
    }

    /** The older zeroing loop: poll while any step or the temperature
        error is above its threshold; the user interrupts after `budget`
        polls. */
    method ZeroingLoop(last0: Readings, now0: Readings, thr: Thresholds, budget0: nat) returns (err: Option<PyError>)
      requires version == Legacy
      modifies this
      ensures var e := D.ZeroLoop(old(State()), last0, now0, thr, budget0); State() == e.d && err == e.err
    {
      var last, now, budget := last0, now0, budget0;
      while KeepZeroing(last, now, thr)
        invariant D.ZeroLoop(State(), last, now, thr, budget) == D.ZeroLoop(old(State()), last0, now0, thr, budget0)
        decreases budget
      {
        if budget == 0 {
          break;
        }
        last := now;
        err := UpdateStatus();
        if err.Some? {
          return;
        }
        now := D.Now(status.sensorPar);
        budget := budget - 1;
      }
      err := None;
    }

    /** The older `field_zero(on, axes_xyz, dBz, dBy, dB0, dT)`; the user
        interrupts the loop after `interruptAfter` polls. */
    method LegacyFieldZero(on: bool, axesXyz: bool, thr: Thresholds, interruptAfter: nat)
      returns (err: Option<PyError>)
      requires version == Legacy
      modifies this
      ensures D.Step(State(), err) == D.LegacyFieldZero(old(State()), on, axesXyz, thr, interruptAfter)
      decreases if on then 1 else 0
    {
      err := ZeroSwitch(on, axesXyz);
      if !on || err.Some? {
        return;
      }
      var last := Unseen;
      err := UpdateStatus();
      if err.Some? {
        return;
      }
      var now := D.Now(status.sensorPar);
      err := ZeroingLoop(last, now, thr, interruptAfter);
      if err.Some? {
        return;
      }
      if AnyFinite(thr) {
        err := LegacyFieldZero(false, true, Disabled, 0);
        if err.Some? {
          return;
        }
      }
      err := UpdateStatus();
    }

    // ------------------------------------------------------------ read data

    /** `read_data` for `npts` samples (the older signature). */
    method ReadData(npts: int, axis: string) returns (result: Burst)
      modifies this
      ensures D.DataStep(State(), result) == D.ReadData(version, old(State()), npts, axis)
    {
      var err := SetReadAxis(axis);
      if err.Some? {
        return Raised(err.value);
      }
      if !attrs.isDataStreaming {
        err := SetDataStream(true);
        if err.Some? {
          return Raised(err.value);
        }
      }
      var text, start, stop := Receive(BurstBytes(npts));
      result := Decode(version, text, npts, start, stop);
      if result.Data? {
        data := data.(time := result.times, field := result.field);
      }
    }

    /** The current `read_data(seconds, axis)`: `int(seconds * 200)` samples. */
    method ReadSeconds(seconds: real, axis: string) returns (result: Burst)
      requires version == Current
      modifies this
      ensures D.DataStep(State(), result) == D.ReadData(Current, old(State()), SampleCount(seconds), axis)
    {
      result := ReadData(SampleCount(seconds), axis);
    }

    // --------------------------------------------------------- read offsets

    /** One pass of the outer loop of `read_offsets`: read, put the carried
        stream in front, split, store every piece but the last, carry the
        last. */
    method OffsetRound(xs: array<real>, ys: array<real>, zs: array<real>, nx0: nat, ny0: nat, nz0: nat,
                       stream0: string)
      returns (nx: nat, ny: nat, nz: nat, stream: string, err: Option<PyError>)
      requires xs != ys && ys != zs && xs != zs
      requires nx0 <= xs.Length && ny0 <= ys.Length && nz0 <= zs.Length
      modifies this, xs, ys, zs
      ensures nx <= xs.Length && ny <= ys.Length && nz <= zs.Length
      ensures var r := D.Read(old(State()), nbytesStatus);
        State() == r.d &&
        Round(Axes(old(xs[..]), old(ys[..]), old(zs[..]), nx0, ny0, nz0, stream0), r.text)
          == if err.Some? then Scanned.Err(err.value) else Scanned.Ok(Axes(xs[..], ys[..], zs[..], nx, ny, nz, stream))
    {
      ghost var o0 := Axes(xs[..], ys[..], zs[..], nx0, ny0, nz0, stream0);
      var text, _, _ := Receive(nbytesStatus);
      var codes := Split(stream0 + OffsetText(text), LF);
      if nx0 + ny0 + nz0 == 0 {
        codes := codes[1..];
      }
      assert codes == Pieces(o0, text);
      if codes == [] {
        return nx0, ny0, nz0, stream0, Some(IndexError);
      }
      nx, ny, nz, err := Demultiplex(codes[..|codes| - 1], xs, ys, zs, nx0, ny0, nz0, stream0);
      stream := codes[|codes| - 1];
    }

    /** The outer loop of `read_offsets`: one read per round while
        every counter is below `npts`. */
    method OffsetRounds(xs: array<real>, ys: array<real>, zs: array<real>, npts: nat)
      returns (nx: nat, ny: nat, nz: nat, stream: string, exit: Exit)
      requires xs != ys && ys != zs && xs != zs
      requires Axes(xs[..], ys[..], zs[..], 0, 0, 0, "") == Start(npts)
      modifies this, xs, ys, zs
      ensures D.OffsetLoop(old(State()), Start(npts), npts) == exit.End(State(), Axes(xs[..], ys[..], zs[..], nx, ny, nz, stream))
    {
      ghost var d0 := State();
      nx, ny, nz, stream := 0, 0, 0, "";
      while nx < npts && ny < npts && nz < npts
        invariant xs.Length == 2 * npts && ys.Length == 2 * npts && zs.Length == 2 * npts
        invariant nx <= xs.Length && ny <= ys.Length && nz <= zs.Length
        invariant D.OffsetLoop(State(), Axes(xs[..], ys[..], zs[..], nx, ny, nz, stream), npts)
               == D.OffsetLoop(d0, Start(npts), npts)
        decreases |ser.rx|
      {
        if ser.rx == [] {
          return nx, ny, nz, stream, Waiting;
        }
        var e;
        nx, ny, nz, stream, e := OffsetRound(xs, ys, zs, nx, ny, nz, stream);
        if e.Some? {
          return nx, ny, nz, stream, Stopped(e.value);
        }
      }
      exit := Filled;
    }

    /** `read_offsets(npts)`: the three buffers are arrays filled in place. */
    method ReadOffsets(npts: int) returns (result: D.OffsetResult)
      requires version == Current
      modifies this
      ensures D.OffsetStep(State(), result) == D.ReadOffsets(old(State()), npts)
    {
      if attrs.isDataStreaming {
        var _ := SetDataStream(false);
      }
      if npts < 0 {
        return D.Failure(ValueError);
      }
      result := CollectOffsets(npts);
    }

    /** `read_offsets` from the allocation of the buffers on. */
    method CollectOffsets(npts: nat) returns (result: D.OffsetResult)
      modifies this
      ensures D.OffsetStep(State(), result) == D.CollectOffsets(old(State()), npts)
    {
      ghost var d0 := State();
      var start := D.StartTime(State());
      var xs := new real[2 * npts](_ => 0.0);
      var ys := new real[2 * npts](_ => 0.0);
      var zs := new real[2 * npts](_ => 0.0);
      assert Axes(xs[..], ys[..], zs[..], 0, 0, 0, "") == Start(npts);
      assert State() == d0;
      var nx, ny, nz, stream, exit := OffsetRounds(xs, ys, zs, npts);
      var r := D.Conclude(exit.End(State(), Axes(xs[..], ys[..], zs[..], nx, ny, nz, stream)), npts, start);
      result := r.result;
      if result.Offsets? {
        SaveTable(result.table);
      }
    }

    /** `self.data_fz = ...` */
    method SaveTable(t: Table)
      modifies this
      ensures State() == old(State()).(dataFz := Some(t))
    {
      data := data.(dataFz := Some(t));
    }
  }

  /** How the outer loop of `read_offsets` ended: a counter reached
      `npts`, a line raised, or the port had nothing more to deliver. */
  datatype Exit = Filled | Stopped(e: PyError) | Waiting
  {
    /** The loop's end, given the port and the buffers it left. */
    function End(d: D.Device, o: Axes): (r: D.OffsetEnd)
      ensures r.d == d
    {
      match this
      case Filled => D.Finished(d, o)
      case Stopped(e) => D.Broke(d, e)
      case Waiting => D.Blocked(d)
    }
  }

  /** One line of the inner loop of `read_offsets`: an accepted line goes
      into the next free slot of its axis's buffer; a full buffer raises
      IndexError. */
  method Place(r: Reading, xs: array<real>, ys: array<real>, zs: array<real>,
               nx0: nat, ny0: nat, nz0: nat, ghost stream: string)
    returns (nx: nat, ny: nat, nz: nat, err: Option<PyError>)
    requires xs != ys && ys != zs && xs != zs
    requires nx0 <= xs.Length && ny0 <= ys.Length && nz0 <= zs.Length
    modifies xs, ys, zs
    ensures nx <= xs.Length && ny <= ys.Length && nz <= zs.Length
    ensures Put(Axes(old(xs[..]), old(ys[..]), old(zs[..]), nx0, ny0, nz0, stream), r)
         == if err.Some? then Scanned.Err(err.value) else Scanned.Ok(Axes(xs[..], ys[..], zs[..], nx, ny, nz, stream))
  {
    nx, ny, nz, err := nx0, ny0, nz0, None;
    match r {
      case Broken(e) =>
        err := Some(e);
      case Ignore =>
      case Reading(a, x) =>
        match a {
          case X =>
            if nx >= xs.Length {
              return nx, ny, nz, Some(IndexError);
            }
            xs[nx] := x;
            nx := nx + 1;
          case Y =>
            if ny >= ys.Length {
              return nx, ny, nz, Some(IndexError);
            }
            ys[ny] := x;
            ny := ny + 1;
          case Z =>
            if nz >= zs.Length {
              return nx, ny, nz, Some(IndexError);
            }
            zs[nz] := x;
            nz := nz + 1;
        }
    }
  }

  /** The inner loop of `read_offsets`, `for code in codes[:-1]`. */
  method Demultiplex(codes: seq<string>, xs: array<real>, ys: array<real>, zs: array<real>,
                     nx0: nat, ny0: nat, nz0: nat, ghost stream: string)
    returns (nx: nat, ny: nat, nz: nat, err: Option<PyError>)
    requires xs != ys && ys != zs && xs != zs
    requires nx0 <= xs.Length && ny0 <= ys.Length && nz0 <= zs.Length
    modifies xs, ys, zs
    ensures nx <= xs.Length && ny <= ys.Length && nz <= zs.Length
    ensures var o := Axes(old(xs[..]), old(ys[..]), old(zs[..]), nx0, ny0, nz0, stream);
      ScanCodes(o, codes) == if err.Some? then Scanned.Err(err.value) else Scanned.Ok(Axes(xs[..], ys[..], zs[..], nx, ny, nz, stream))
  {
    ghost var o := Axes(xs[..], ys[..], zs[..], nx0, ny0, nz0, stream);
    nx, ny, nz := nx0, ny0, nz0;
    var i := 0;
    assert codes[..0] == [];
    while i < |codes|
      invariant 0 <= i <= |codes|
      invariant nx <= xs.Length && ny <= ys.Length && nz <= zs.Length
      invariant ScanCodes(o, codes[..i]) == Scanned.Ok(Axes(xs[..], ys[..], zs[..], nx, ny, nz, stream))
    {
      ScanStep(o, codes, i);
      nx, ny, nz, err := Place(OffsetCode(codes[i]), xs, ys, zs, nx, ny, nz, stream);
      if err.Some? {
        ScanStopsAtError(o, codes, i + 1);
        return;
      }
      i := i + 1;
    }
    assert codes[..i] == codes;
    err := None;
  }
}
