/** The driver object as a value, and every operation of the core as a
    function from the old value to the new one.  The serial port is a
    script of reads still to come (`rx`), each with the clock readings
    just before and just after it, and the log of bytes written (`tx`). */
module Device {

  import opened Wrappers
  import opened Text
  import opened Framing
  import opened Floats
  import opened Errors
  import opened Codes
  import opened Status
  import opened Adc
  import opened Offsets
  import opened Convergence
  import Commands

  /** One read: the text the port delivers and the clock around it. */
  datatype Chunk = Chunk(text: string, start: real, stop: real)

  /** An entry of `self.messages`: the text after '#' and its time. */
  datatype Message = Message(text: string, at: real)

  datatype Device = Device(
    rx: seq<Chunk>, clock: real, tx: string, nbytesStatus: int,
    time: seq<real>, field: seq<Float>, statusLastUpdated: Option<real>,
    led: LedState, sensorPar: SensorPar, messages: seq<Message>,
    isDataStreaming: bool, isFieldZeroed: bool, isXyzZeroing: bool, isCalibrated: bool,
    axisMode: string, readAxis: string, gain: real, dataFz: Option<Table>)

  /** The new value and the exception the call raised, if any. */
  datatype Step = Step(d: Device, err: Option<PyError>)

  // ---------------------------------------------------------------- port

  function Write(d: Device, bytes: string): Device
  {
    d.(tx := d.tx + bytes)
  }

  datatype Received = Received(text: string, start: real, stop: real, d: Device)

  /** `ser.read(n)`: the next scripted read, cut to `n` characters.  With
      the script used up the port delivers nothing and the clock stands. */
  function Read(d: Device, n: int): (r: Received)
    ensures |r.text| <= if n <= 0 then 0 else n
    ensures r.d == d.(rx := r.d.rx, clock := r.d.clock)
  {
    if d.rx == [] then Received("", d.clock, d.clock, d)
    else
      var c := d.rx[0];
      Received(Take(c.text, n), c.start, c.stop, d.(rx := d.rx[1..], clock := c.stop))
  }

  /** `time()` taken just before the next read. */
  function StartTime(d: Device): real
  {
    if d.rx == [] then d.clock else d.rx[0].start
  }

  // ---------------------------------------------------------- attributes

  /** `_reset_attributes` */
  function ResetAttributes(d: Device): Device
  {
    d.(isDataStreaming := false, isFieldZeroed := false, isXyzZeroing := true,
       isCalibrated := false, axisMode := "z", readAxis := "z", gain := 2.7)
  }

  /** `__init__` without a device name: empty data, LEDs off, parameters
      NaN, no messages, default attributes. */
  function Initial(rx: seq<Chunk>, clock: real, nbytesStatus: int): Device
  {
    ResetAttributes(Device(rx, clock, "", nbytesStatus, [], [], None, AllOff, Unknown, [],
                           false, false, true, false, "z", "z", 2.7, None))
  }

  // ------------------------------------------------------------ messages

  /** `[(m[1:], t) for m in lines if m[0] == '#']` for lines that are all non-empty. */
  function Notes(lines: seq<string>, t: real): (r: seq<Message>)
    requires forall i :: 0 <= i < |lines| ==> lines[i] != ""
    ensures |r| <= |lines| && forall m :: m in r ==> m.at == t
    ensures r == [] <==> forall i :: 0 <= i < |lines| ==> lines[i][0] != '#'
    decreases |lines|
  {
    if lines == [] then []
    else (if lines[0][0] == '#' then [Message(lines[0][1..], t)] else []) + Notes(lines[1..], t)
  }

  /** The positions, from `k` on, of the lines that start with '#', in
      increasing order. */
  function Marks(lines: seq<string>, k: nat): (r: seq<nat>)
    requires forall i :: 0 <= i < |lines| ==> lines[i] != ""
    ensures forall j :: 0 <= j < |r| ==> k <= r[j] < |lines| && lines[r[j]][0] == '#'
    ensures forall j, j' :: 0 <= j < j' < |r| ==> r[j] < r[j']
    ensures forall i :: k <= i < |lines| && lines[i][0] == '#' ==> i in r
    decreases |lines| - k
  {
    if k >= |lines| then []
    else (if lines[k][0] == '#' then [k] else []) + Marks(lines, k + 1)
  }

  /** The messages of a read are exactly its '#' lines, in order, each
      without its '#' and stamped with the time of the read. */
  lemma {:induction false} NotesMarked(lines: seq<string>, k: nat, t: real)
    requires forall i :: 0 <= i < |lines| ==> lines[i] != ""
    requires k <= |lines|
    ensures var r, m := Notes(lines[k..], t), Marks(lines, k);
      |r| == |m| && forall j :: 0 <= j < |r| ==> r[j] == Message(lines[m[j]][1..], t)
    decreases |lines| - k
  {
    if k < |lines| {
      NotesMarked(lines, k + 1, t);
      assert lines[k..][0] == lines[k] && lines[k..][1..] == lines[k + 1..];
      var r, m := Notes(lines[k + 1..], t), Marks(lines, k + 1);
      if lines[k][0] == '#' {
        assert Notes(lines[k..], t) == [Message(lines[k][1..], t)] + r;
        assert Marks(lines, k) == [k] + m;
        ConsMatch(lines, Message(lines[k][1..], t), k, r, m, t);
      } else {
        assert Notes(lines[k..], t) == r && Marks(lines, k) == m;
      }
    }
  }

  lemma ConsMatch(lines: seq<string>, h: Message, k: nat, r: seq<Message>, m: seq<nat>, t: real)
    requires k < |lines| && |lines[k]| > 0 && h == Message(lines[k][1..], t)
    requires forall j :: 0 <= j < |m| ==> m[j] < |lines| && |lines[m[j]]| > 0
    requires |r| == |m| && forall j :: 0 <= j < |r| ==> r[j] == Message(lines[m[j]][1..], t)
    ensures var r', m' := [h] + r, [k] + m;
      |r'| == |m'| && forall j :: 0 <= j < |r'| ==> m'[j] < |lines| && |lines[m'[j]]| > 0 && r'[j] == Message(lines[m'[j]][1..], t)
  {
  }

  predicate HasEmpty(lines: seq<string>)
  {
    exists i :: 0 <= i < |lines| && lines[i] == ""
  }

  /** The loop of `_get_next_message` from the read at hand on: an empty
      line makes `m[0]` raise; a read past the timeout returns without
      saving; the first read with messages saves them.  A used-up script
      stands for the timeout. */
  function WaitMessage(d: Device, tStart: real, timeout: real): (r: Step)
    ensures r.d == d.(rx := r.d.rx, clock := r.d.clock, messages := r.d.messages)
    ensures d.messages <= r.d.messages && |r.d.rx| <= |d.rx|
    decreases |d.rx|
  {
    if d.rx == [] then Step(d, None)
    else
      var r := Read(d, d.nbytesStatus);
      var lines := StatusLines(r.text);
      if HasEmpty(lines) then Step(r.d, Some(IndexError))
      else
        var mess := Notes(lines, r.stop);
        if r.stop - tStart > timeout then Step(r.d, None)
        else if mess != [] then Step(r.d.(messages := r.d.messages + mess), None)
        else WaitMessage(r.d, tStart, timeout)
  }

  /** The lines of one read of the status chunk size. */
  function ChunkLines(d: Device, c: Chunk): seq<string>
  {
    StatusLines(Take(c.text, d.nbytesStatus))
  }

  /** A read the wait loop passes over: no empty line, no '#' line, and
      taken within the timeout. */
  predicate PassedOver(d: Device, c: Chunk, tStart: real, timeout: real)
  {
    var lines := ChunkLines(d, c);
    !HasEmpty(lines) && (forall i :: 0 <= i < |lines| ==> lines[i][0] != '#') && c.stop - tStart <= timeout
  }

  /** After reads it passes over, the wait ends at read `k` when that read is past
      the timeout or has a '#' line: the messages then grow by that read's
      '#' lines, stamped with its time, unless the timeout has passed, in
      which case nothing is added. */
  lemma {:induction false} WaitCaptures(d: Device, tStart: real, timeout: real, k: nat)
    requires k < |d.rx| && forall i :: 0 <= i < k ==> PassedOver(d, d.rx[i], tStart, timeout)
    requires var lines := ChunkLines(d, d.rx[k]);
      !HasEmpty(lines) && (d.rx[k].stop - tStart > timeout || exists i :: 0 <= i < |lines| && lines[i][0] == '#')
    ensures var r, c := WaitMessage(d, tStart, timeout), d.rx[k];
      r.err == None && r.d.rx == d.rx[k + 1..] && r.d.clock == c.stop &&
      r.d.messages == d.messages + (if c.stop - tStart > timeout then [] else Notes(ChunkLines(d, c), c.stop))
    decreases k
  {
    var r := Read(d, d.nbytesStatus);
    assert r.text == Take(d.rx[0].text, d.nbytesStatus) && r.d.rx == d.rx[1..];
    if k > 0 {
      var d1 := r.d;
      assert PassedOver(d, d.rx[0], tStart, timeout);
      assert Notes(ChunkLines(d, d.rx[0]), r.stop) == [];
      assert forall i :: 0 <= i < k - 1 ==> d1.rx[i] == d.rx[i + 1];
      assert forall i :: 0 <= i < k - 1 ==> PassedOver(d1, d1.rx[i], tStart, timeout);
      assert d1.rx[k - 1] == d.rx[k] && d1.rx[k..] == d.rx[k + 1..];
      WaitCaptures(d1, tStart, timeout, k - 1);
    } else {
      if d.rx[0].stop - tStart <= timeout {
        assert Notes(ChunkLines(d, d.rx[0]), r.stop) != [];
      }
    }
  }

  /** A read with an empty line after reads it passes over makes `m[0]` raise
      IndexError and no message is added. */
  lemma {:induction false} WaitBreaks(d: Device, tStart: real, timeout: real, k: nat)
    requires k < |d.rx| && forall i :: 0 <= i < k ==> PassedOver(d, d.rx[i], tStart, timeout)
    requires HasEmpty(ChunkLines(d, d.rx[k]))
    ensures var r := WaitMessage(d, tStart, timeout);
      r.err == Some(IndexError) && r.d.rx == d.rx[k + 1..] && r.d.messages == d.messages
    decreases k
  {
    var r := Read(d, d.nbytesStatus);
    assert r.text == Take(d.rx[0].text, d.nbytesStatus) && r.d.rx == d.rx[1..];
    if k > 0 {
      var d1 := r.d;
      assert PassedOver(d, d.rx[0], tStart, timeout);
      assert Notes(ChunkLines(d, d.rx[0]), r.stop) == [];
      assert forall i :: 0 <= i < k - 1 ==> d1.rx[i] == d.rx[i + 1];
      assert forall i :: 0 <= i < k - 1 ==> PassedOver(d1, d1.rx[i], tStart, timeout);
      assert d1.rx[k - 1] == d.rx[k] && d1.rx[k..] == d.rx[k + 1..];
      WaitBreaks(d1, tStart, timeout, k - 1);
    }
  }

  /** When the loop passes over every read left, the script runs out, which stands for
      the timeout: nothing is added and nothing raised. */
  lemma {:induction false} WaitRunsOut(d: Device, tStart: real, timeout: real)
    requires forall i :: 0 <= i < |d.rx| ==> PassedOver(d, d.rx[i], tStart, timeout)
    ensures var r := WaitMessage(d, tStart, timeout);
      r.err == None && r.d.rx == [] && r.d.messages == d.messages
    decreases |d.rx|
  {
    if d.rx != [] {
      var r := Read(d, d.nbytesStatus);
      assert r.text == Take(d.rx[0].text, d.nbytesStatus) && r.d.rx == d.rx[1..];
      var d1 := r.d;
      assert PassedOver(d, d.rx[0], tStart, timeout);
      assert Notes(ChunkLines(d, d.rx[0]), r.stop) == [];
      assert forall i :: 0 <= i < |d1.rx| ==> d1.rx[i] == d.rx[i + 1];
      assert forall i :: 0 <= i < |d1.rx| ==> PassedOver(d1, d1.rx[i], tStart, timeout);
      WaitRunsOut(d1, tStart, timeout);
    }
  }

  /** `_get_next_message(timeout)` */
  function GetNextMessage(d: Device, timeout: real): (r: Step)
    ensures r.d == d.(rx := r.d.rx, clock := r.d.clock, messages := r.d.messages)
    ensures d.messages <= r.d.messages
  {
    WaitMessage(d, StartTime(d), timeout)
  }

  // --------------------------------------------------------- data stream

  /** `_set_data_stream(False)` */
  function StreamOff(d: Device): Device
  {
    Write(d, [Commands.DataStreamOff]).(isDataStreaming := false)
  }

  /** `_set_data_stream(True)` */
  function StreamOn(d: Device): Step
  {
    var s := GetNextMessage(Write(d, [Commands.DataStreamOn]), 1.0);
    if s.err.Some? then s else Step(s.d.(isDataStreaming := true), None)
  }

  // -------------------------------------------------------------- status

  function Stamp(notes: seq<string>, at: real): (r: seq<Message>)
    ensures |r| == |notes| && forall i :: 0 <= i < |notes| ==> r[i] == Message(notes[i], at)
  {
    seq(|notes|, i requires 0 <= i < |notes| => Message(notes[i], at))
  }

  /** `update_status`: stop streaming if on, read one status chunk, stamp
      the update time, then fold the kept lines into the state.  The
      messages met before a raising line stay appended. */
  function UpdateStatus(v: Version, d: Device): (r: Step)
    ensures r.d == d.(rx := r.d.rx, clock := r.d.clock, tx := r.d.tx, statusLastUpdated := r.d.statusLastUpdated,
                      led := r.d.led, sensorPar := r.d.sensorPar, messages := r.d.messages, isDataStreaming := false)
    ensures r.d.tx == d.tx + (if d.isDataStreaming then [Commands.DataStreamOff] else [])
    ensures d.messages <= r.d.messages && r.d.statusLastUpdated.Some?
  {
    var d0 := if d.isDataStreaming then StreamOff(d) else d;
    var r := Read(d0, d0.nbytesStatus);
    var p := Apply(v, d0.led, d0.sensorPar, StatusLines(r.text));
    var d1 := r.d.(statusLastUpdated := Some(r.stop), messages := d0.messages + Stamp(p.notes, r.stop));
    Step(d1.(led := p.led, sensorPar := p.par), p.fault)
  }

  /** The readings the zeroing loops track. */
  function Now(par: SensorPar): Readings
  {
    Readings(par.fieldZ, par.fieldY, par.field0, par.cellTempError)
  }

  // ------------------------------------------------------------- setters

  /** `_set_read_axis(axis)`: the current version returns early when the
      axis is already selected (compared before lower-casing) and
      lower-cases the token; the older one does neither. */
  function SetReadAxis(v: Version, d: Device, axis: string): Step
  {
    if v == Current && d.readAxis == axis then Step(d, None)
    else
      var a := if v == Current then Lower(axis) else axis;
      match Commands.ReadAxisByte(a)
      case None => Step(d, Some(RuntimeError))
      case Some(b) => GetNextMessage(Write(d, [b]).(readAxis := a), 1.0)
  }

  /** `set_axis_mode(mode)` */
  function SetAxisMode(v: Version, d: Device, mode: string): Step
  {
    var m := Commands.Token(mode);
    match Commands.AxisModeByte(m)
    case None => Step(d, Some(RuntimeError))
    case Some(b) =>
      UpdateStatus(v, Write(d, [b]).(axisMode := m, isCalibrated := false, isFieldZeroed := false))
  }

  /** `set_gain(mode)`.  The current version then waits up to 10 s for the
      confirming message; an unknown token makes its error message refer
      to an undefined name, which raises NameError.  The older version
      ignores unknown tokens.  The current version's "0.1x" branch is
      outside the model. */
  function SetGain(v: Version, d: Device, mode: string): Step
    requires v == Legacy || Commands.Token(mode) != "0.1x"
  {
    match Commands.GainOf(Commands.Token(mode))
    case None => if v == Current then Step(d, Some(NameError)) else Step(d, None)
    case Some(g) =>
      var d1 := Write(d, [g.byte]).(gain := g.gain);
      if v == Current then GetNextMessage(d1, 10.0) else Step(d1, None)
  }

  /** `field_reset` */
  function FieldReset(d: Device): Step
  {
    var s := GetNextMessage(Write(d, [Commands.FieldReset]), 1.0);
    if s.err.Some? then s
    else
      var par := s.d.sensorPar.(fieldZ := Num(0.0), fieldY := Num(0.0), field0 := Num(0.0));
      Step(s.d.(sensorPar := par, isCalibrated := false, isFieldZeroed := false), None)
  }

  /** `calibrate`: refuses, before writing anything, unless zeroing is
      recorded or the re-read LED4 shows it; then starts the calibration
      and waits up to 100 s for its message. */
  function Calibrate(v: Version, d: Device): Step
  {
    if d.isFieldZeroed then Calibrating(d)
    else
      var s := UpdateStatus(v, d);
      if s.err.Some? then s
      else if !s.d.led.fieldZeroed then Step(s.d, Some(RuntimeError))
      else Calibrating(s.d)
  }

  function Calibrating(d: Device): Step
  {
    GetNextMessage(Write(d, [Commands.Calibrate]).(isCalibrated := true), 100.0)
  }

  /** `reboot` */
  function Reboot(v: Version, d: Device): Step
  {
    var s := UpdateStatus(v, Write(d, [Commands.Reboot]));
    if s.err.Some? then s else Step(ResetAttributes(s.d), None)
  }

  // ---------------------------------------------------------- field zero

  /** The part of `field_zero` both versions share: invalidate calibration,
      choose the axes, switch zeroing on or off (off re-reads the status). */
  function ZeroSwitch(v: Version, d: Device, on: bool, axesXyz: bool): Step
  {
    var d1 := Write(d.(isCalibrated := false),
                    [if axesXyz then Commands.ZeroAllAxes else Commands.ZeroYzAxes]).(isXyzZeroing := axesXyz);
    if on then Step(Write(d1, [Commands.ZeroingOn]).(isFieldZeroed := false), None)
    else UpdateStatus(v, Write(d1, [Commands.ZeroingOff]).(isFieldZeroed := true))
  }

  /** The flags and the byte log, which status polls leave alone once the
      stream is off. */
  predicate Quiet(a: Device, b: Device)
  {
    a.tx == b.tx && !b.isDataStreaming && a.isFieldZeroed == b.isFieldZeroed &&
    a.isXyzZeroing == b.isXyzZeroing && a.isCalibrated == b.isCalibrated
  }

  /** `polls` status updates in a row, stopping at the first that raises.
      From a stopped stream they write nothing and change no flag. */
  function Polls(v: Version, d: Device, polls: nat): (r: Step)
    ensures !d.isDataStreaming ==> Quiet(d, r.d)
    decreases polls
  {
    if polls == 0 then Step(d, None)
    else
      var s := UpdateStatus(v, d);
      if s.err.Some? then s else Polls(v, s.d, polls - 1)
  }

  /** The current `field_zero(on, axes_xyz, show)`.  Switching on reads the
      status and, when `show` is set, keeps polling until the user
      interrupts, which here happens after `interruptAfter` polls; the
      interrupt switches zeroing off for all three axes.  A final status
      read follows. */
  function FieldZero(d: Device, on: bool, axesXyz: bool, show: bool, interruptAfter: nat): Step
  {
    var s := ZeroSwitch(Current, d, on, axesXyz);
    if !on || s.err.Some? then s
    else
      var s1 := UpdateStatus(Current, s.d);
      if s1.err.Some? then s1
      else if !show then UpdateStatus(Current, s1.d)
      else
        var s2 := Polls(Current, s1.d, interruptAfter);
        if s2.err.Some? then s2
        else
          var s3 := ZeroSwitch(Current, s2.d, false, true);
          if s3.err.Some? then s3 else UpdateStatus(Current, s3.d)
  }

  /** How the older zeroing loop ended. */
  datatype ZeroEnd = ZeroEnd(d: Device, last: Readings, now: Readings, converged: bool, err: Option<PyError>)

  /** The older zeroing loop: poll while `KeepZeroing`; the user interrupts
      once `budget` polls are spent. */
  function ZeroLoop(d: Device, last: Readings, now: Readings, thr: Thresholds, budget: nat): (r: ZeroEnd)
    ensures !d.isDataStreaming ==> Quiet(d, r.d)
    decreases budget
  {
    if !KeepZeroing(last, now, thr) then ZeroEnd(d, last, now, true, None)
    else if budget == 0 then ZeroEnd(d, last, now, false, None)
    else
      var s := UpdateStatus(Legacy, d);
      if s.err.Some? then ZeroEnd(s.d, last, now, false, s.err)
      else ZeroLoop(s.d, now, Now(s.d.sensorPar), thr, budget - 1)
  }

  /** The older `field_zero(on, axes_xyz, dBz, dBy, dB0, dT)`.  After the
      loop, zeroing is switched off (for all axes) only when some
      threshold is finite; a final status read follows. */
  function LegacyFieldZero(d: Device, on: bool, axesXyz: bool, thr: Thresholds, interruptAfter: nat): Step
  {
    var s := ZeroSwitch(Legacy, d, on, axesXyz);
    if !on || s.err.Some? then s
    else
      var s1 := UpdateStatus(Legacy, s.d);
      if s1.err.Some? then s1
      else
        var e := ZeroLoop(s1.d, Unseen, Now(s1.d.sensorPar), thr, interruptAfter);
        if e.err.Some? then Step(e.d, e.err)
        else
          var s3 := if AnyFinite(thr) then ZeroSwitch(Legacy, e.d, false, true) else Step(e.d, None);
          if s3.err.Some? then s3 else UpdateStatus(Legacy, s3.d)
  }

  // ------------------------------------------------------------ read data

  datatype DataStep = DataStep(d: Device, result: Burst)

  /** `read_data` for `npts` samples: select the axis, start streaming if
      needed, read `10 * (npts + 2)` characters and decode them; a decoded
      burst is also saved as `self.time` and `self.field`. */
  function ReadData(v: Version, d: Device, npts: int, axis: string): DataStep
  {
    var s := SetReadAxis(v, d, axis);
    if s.err.Some? then DataStep(s.d, Adc.Raised(s.err.value))
    else
      var s1 := if s.d.isDataStreaming then s else StreamOn(s.d);
      if s1.err.Some? then DataStep(s1.d, Adc.Raised(s1.err.value))
      else
        var r := Read(s1.d, BurstBytes(npts));
        var b := Decode(v, r.text, npts, r.start, r.stop);
        if b.Data? then DataStep(r.d.(time := b.times, field := b.field), b)
        else DataStep(r.d, b)
  }

  // --------------------------------------------------------- read offsets

  datatype OffsetResult = Offsets(table: Table) | Failure(e: PyError) | Silent

  datatype OffsetStep = OffsetStep(d: Device, result: OffsetResult)

  /** How the outer loop of `read_offsets` left the port and the buffers. */
  datatype OffsetEnd = Finished(d: Device, o: Axes) | Broke(d: Device, e: PyError) | Blocked(d: Device)

  /** The outer loop of `read_offsets` on the port: one read of
      `nbytes_status` per round while every counter is below `npts`.
      With the script used up the read would block for ever. */
  function OffsetLoop(d: Device, o: Axes, npts: int): (r: OffsetEnd)
    requires o.Valid()
    ensures r.Finished? ==>
      r.o.Valid() && !r.o.Running(npts) && |r.o.xs| == |o.xs| && |r.o.ys| == |o.ys| && |r.o.zs| == |o.zs|
    decreases |d.rx|
  {
    if !o.Running(npts) then Finished(d, o)
    else if d.rx == [] then Blocked(d)
    else
      var r := Read(d, d.nbytesStatus);
      match Round(o, r.text)
      case Err(e) => Broke(r.d, e)
      case Ok(o1) =>
        RoundKeepsShape(o, r.text);
        OffsetLoop(r.d, o1, npts)
  }

  /** `read_offsets(npts)`: back to status readback, three zeroed buffers
      of `2 * npts`, the loop, then every buffer cut to `npts` and the
      table saved as `self.data_fz`. */
  function ReadOffsets(d: Device, npts: int): OffsetStep
  {
    var d0 := if d.isDataStreaming then StreamOff(d) else d;
    if npts < 0 then OffsetStep(d0, Failure(ValueError)) else CollectOffsets(d0, npts)
  }

  /** `read_offsets` from the allocation of the buffers on. */
  function CollectOffsets(d: Device, npts: nat): OffsetStep
  {
    Conclude(OffsetLoop(d, Start(npts), npts), npts, StartTime(d))
  }

  /** After the loop: a finished loop gives the table, cut to `npts` rows
      and saved as `self.data_fz`. */
  function Conclude(e: OffsetEnd, npts: nat, start: real): (r: OffsetStep)
    requires e.Finished? ==> |e.o.xs| >= npts && |e.o.ys| >= npts && |e.o.zs| >= npts
    ensures r.d == e.d.(dataFz := r.d.dataFz)
    ensures r.d.dataFz == if r.result.Offsets? then Some(r.result.table) else e.d.dataFz
  {
    match e
    case Finished(d1, o) =>
      var t := MakeTable(o, npts, start);
      OffsetStep(d1.(dataFz := Some(t)), Offsets(t))
    case Broke(d1, err) => OffsetStep(d1, Failure(err))
    case Blocked(d1) => OffsetStep(d1, Silent)
  }
}
