/** `read_offsets`: field-zeroing offsets arrive as status lines "~07…",
    "~08…", "~09…" for the z, y and x coils.  Each read is framed with the
    continuous-carry rule, and every accepted line is stored in the next
    free slot of its axis's buffer. */
module Offsets {

  import opened Wrappers
  import opened Text
  import opened Framing
  import opened Errors
  import opened Codes

  datatype Axis = X | Y | Z

  /** The axis a key reports: "07" is z, "08" is y, "09" is x. */
  function AxisOf(key: string): Option<Axis>
  {
    if key == "07" then Some(Z) else if key == "08" then Some(Y)
    else if key == "09" then Some(X) else None
  }

  /** What one line does to the buffers. */
  datatype Reading = Reading(axis: Axis, value: real) | Ignore | Broken(e: PyError)

  /** The loop body for one line: `code[0]` of an empty line raises, a '~'
      line whose payload passes the current digit check (after removing
      '.' and '-') and whose key is an axis is stored as `float(payload) -
      32768`, and every other line is ignored. */
  function OffsetCode(code: string): (r: Reading)
    ensures r.Reading? ==> |code| > 3 && code[0] == '~' && AxisOf(code[1..3]) == Some(r.axis)
  {
    if code == "" then Broken(IndexError)
    else if code[0] == '~' && IsNumeric(Validated(Current, Drop(code, 3))) then
      match AxisOf(code[1..3])
      case None => Ignore
      case Some(a) =>
        match ParseDecimal(Drop(code, 3))
        case None => Broken(ValueError)
        case Some(x) => Reading(a, x - 32768.0)
    else Ignore
  }

  /** The three buffers, their counters `nx`, `ny`, `nz`, and the carried
      partial line `stream`. */
  datatype Axes = Axes(xs: seq<real>, ys: seq<real>, zs: seq<real>,
                       nx: nat, ny: nat, nz: nat, stream: string)
  {
    function Buffer(a: Axis): seq<real>
    {
      match a case X => xs case Y => ys case Z => zs
    }

    function Count(a: Axis): nat
    {
      match a case X => nx case Y => ny case Z => nz
    }

    function Total(): nat
    {
      nx + ny + nz
    }

    /** The loop condition: every counter below `npts`. */
    predicate Running(npts: int)
    {
      nx < npts && ny < npts && nz < npts
    }

    /** Every counter within its buffer. */
    predicate Valid()
    {
      nx <= |xs| && ny <= |ys| && nz <= |zs|
    }
  }

  function Zeros(n: nat): (r: seq<real>)
    ensures |r| == n && forall i :: 0 <= i < n ==> r[i] == 0.0
  {
    seq(n, i => 0.0)
  }

  /** The state before the loop: three buffers of `2 * npts` zeros. */
  function Start(npts: nat): (o: Axes)
    ensures o.Valid() && o.Total() == 0 && o.stream == ""
  {
    Axes(Zeros(2 * npts), Zeros(2 * npts), Zeros(2 * npts), 0, 0, 0, "")
  }

  datatype Scanned = Ok(o: Axes) | Err(e: PyError)

  /** `data[axis][n] = value; n += 1`; a full buffer raises IndexError. */
  function Store(o: Axes, a: Axis, x: real): Scanned
  {
    match a
    case X => if o.nx < |o.xs| then Ok(o.(xs := o.xs[o.nx := x], nx := o.nx + 1)) else Err(IndexError)
    case Y => if o.ny < |o.ys| then Ok(o.(ys := o.ys[o.ny := x], ny := o.ny + 1)) else Err(IndexError)
    case Z => if o.nz < |o.zs| then Ok(o.(zs := o.zs[o.nz := x], nz := o.nz + 1)) else Err(IndexError)
  }

  /** The inner `for code in codes[:-1]` loop over `codes`. */
  function ScanCodes(o: Axes, codes: seq<string>): Scanned
    decreases |codes|
  {
    if codes == [] then Ok(o)
    else
      match ScanCodes(o, codes[..|codes| - 1])
      case Err(e) => Err(e)
      case Ok(o1) => Line(o1, codes[|codes| - 1])
  }

  /** One line of the inner loop: a broken line raises, an accepted one is stored. */
  function Line(o: Axes, code: string): Scanned
  {
    Put(o, OffsetCode(code))
  }

  function Put(o: Axes, r: Reading): Scanned
  {
    match r
    case Broken(e) => Err(e)
    case Ignore => Ok(o)
    case Reading(a, x) => Store(o, a, x)
  }

  /** One more line of the inner loop, while no line has raised. */
  lemma ScanStep(o: Axes, codes: seq<string>, i: nat)
    requires i < |codes| && ScanCodes(o, codes[..i]).Ok?
    ensures ScanCodes(o, codes[..i + 1]) == Line(ScanCodes(o, codes[..i]).o, codes[i])
  {
    assert codes[..i + 1][..i] == codes[..i];
  }

  /** Once a line has raised, the lines after it are never looked at. */
  lemma {:induction false} ScanStopsAtError(o: Axes, codes: seq<string>, j: nat)
    requires j <= |codes| && ScanCodes(o, codes[..j]).Err?
    ensures ScanCodes(o, codes) == ScanCodes(o, codes[..j])
    decreases |codes| - j
  {
    if j < |codes| {
      assert codes[..j + 1][..j] == codes[..j];
      ScanStopsAtError(o, codes, j + 1);
    } else {
      assert codes[..j] == codes;
    }
  }

  /** The pieces of one read: the carried stream in front of the cleaned
      text, split on "\n", without the first piece while no sample has
      been counted. */
  function Pieces(o: Axes, chunk: string): seq<string>
  {
    var p := Split(o.stream + OffsetText(chunk), LF);
    if o.Total() == 0 then p[1..] else p
  }

  /** One pass of the outer loop.  With no piece left, `codes[-1]` raises. */
  function Round(o: Axes, chunk: string): Scanned
  {
    var codes := Pieces(o, chunk);
    if codes == [] then Err(IndexError)
    else
      match ScanCodes(o, codes[..|codes| - 1])
      case Err(e) => Err(e)
      case Ok(o1) => Ok(o1.(stream := codes[|codes| - 1]))
  }

  /** How the outer loop ends over a sequence of reads: with the counters
      out of range, with an exception, or waiting for more input. */
  datatype Outcome = Done(o: Axes, used: nat) | Failed(e: PyError, used: nat) | Starved

  function Run(o: Axes, chunks: seq<string>, npts: int): Outcome
    decreases |chunks|
  {
    if !o.Running(npts) then Done(o, 0)
    else if chunks == [] then Starved
    else
      match Round(o, chunks[0])
      case Err(e) => Failed(e, 1)
      case Ok(o1) =>
        match Run(o1, chunks[1..], npts)
        case Done(o2, n) => Done(o2, n + 1)
        case Failed(e, n) => Failed(e, n + 1)
        case Starved => Starved
  }

  /** The accepted values for axis `a` among `codes`, in order. */
  function Readings(codes: seq<string>, a: Axis): seq<real>
  {
    Gather(codes, PickOf(a))
  }

  /** The values one line contributes to axis `a`. */
  function PickOf(a: Axis): string -> seq<real>
  {
    code => Picked(OffsetCode(code), a)
  }

  /** The contributions of `codes` under `f`, in order. */
  function Gather(codes: seq<string>, f: string -> seq<real>): seq<real>
    decreases |codes|
  {
    if codes == [] then [] else Gather(codes[..|codes| - 1], f) + f(codes[|codes| - 1])
  }

  /** The value one line contributes to axis `a`, if any. */
  function Picked(r: Reading, a: Axis): seq<real>
  {
    match r
    case Reading(b, x) => if b == a then [x] else []
    case _ => []
  }

  /** Storing keeps the buffers' lengths, writes one slot past the filled
      prefix of the chosen axis and leaves everything else alone. */
  lemma StoreEffect(o: Axes, a: Axis, x: real, c: Axis)
    requires o.Valid() && Store(o, a, x).Ok?
    ensures var o1 := Store(o, a, x).o;
      o1.Valid() && o1.stream == o.stream &&
      |o1.Buffer(c)| == |o.Buffer(c)| &&
      o1.Buffer(c)[..o1.Count(c)] == o.Buffer(c)[..o.Count(c)] + (if c == a then [x] else []) &&
      o1.Buffer(c)[o1.Count(c)..] == o.Buffer(c)[o1.Count(c)..]
  {
    var o1 := Store(o, a, x).o;
    if c == a {
      var b, n := o.Buffer(c), o.Count(c);
      assert o1.Buffer(c) == b[n := x] && o1.Count(c) == n + 1;
      assert b[n := x][..n + 1] == b[..n] + [x];
    }
  }

  /** One line stored after a prefix whose untouched slots agree with
      `o`'s: the line's value is appended and the slots past the new
      counter still agree with `o`'s. */
  lemma PutAppends(o: Axes, om: Axes, r: Reading, c: Axis)
    requires om.Valid() && Put(om, r).Ok? && |om.Buffer(c)| == |o.Buffer(c)|
    requires om.Buffer(c)[om.Count(c)..] == o.Buffer(c)[om.Count(c)..]
    ensures var o1 := Put(om, r).o;
      o1.Valid() && o1.stream == om.stream && |o1.Buffer(c)| == |om.Buffer(c)| &&
      o1.Buffer(c)[..o1.Count(c)] == om.Buffer(c)[..om.Count(c)] + Picked(r, c) &&
      o1.Buffer(c)[o1.Count(c)..] == o.Buffer(c)[o1.Count(c)..]
  {
    match r
    case Ignore =>
      assert om.Buffer(c)[..om.Count(c)] + Picked(r, c) == om.Buffer(c)[..om.Count(c)];
    case Reading(a, x) =>
      var o1 := Store(om, a, x).o;
      assert Put(om, r).o == o1 && Picked(r, c) == if c == a then [x] else [];
      StoreEffect(om, a, x, c);
      assert om.Buffer(c)[o1.Count(c)..] == o.Buffer(c)[o1.Count(c)..] by {
        assert om.Buffer(c)[om.Count(c)..][o1.Count(c) - om.Count(c)..] == om.Buffer(c)[o1.Count(c)..];
        assert o.Buffer(c)[om.Count(c)..][o1.Count(c) - om.Count(c)..] == o.Buffer(c)[o1.Count(c)..];
      }
  }

  /** Scanning a list of lines fills each axis's buffer with exactly that
      axis's accepted values, in order, after what was already there; the
      slots past the counter are untouched. */
  lemma {:induction false} ScanAppends(o: Axes, codes: seq<string>, c: Axis)
    requires o.Valid() && ScanCodes(o, codes).Ok?
    ensures var o1 := ScanCodes(o, codes).o;
      o1.Valid() && o1.stream == o.stream &&
      |o1.Buffer(c)| == |o.Buffer(c)| &&
      o1.Buffer(c)[..o1.Count(c)] == o.Buffer(c)[..o.Count(c)] + Readings(codes, c) &&
      o1.Buffer(c)[o1.Count(c)..] == o.Buffer(c)[o1.Count(c)..]
    decreases |codes|
  {
    if codes != [] {
      var init := codes[..|codes| - 1];
      ScanAppends(o, init, c);
      PutAppends(o, ScanCodes(o, init).o, OffsetCode(codes[|codes| - 1]), c);
    }
  }

  /** Once a sample has been counted, a round is exactly one step of the
      continuous-carry framing: the lines it scans are the complete lines
      of the carried stream plus this read, and the partial last piece
      becomes the new stream. */
  lemma RoundIsCarry(o: Axes, chunk: string)
    requires o.Total() > 0 && Round(o, chunk).Ok?
    ensures var c := Carry(o.stream, chunk);
      ScanCodes(o, c.lines).Ok? && Round(o, chunk).o == ScanCodes(o, c.lines).o.(stream := c.leftover)
  {
  }

  /** Before any sample is counted, the first piece of every read is
      dropped as well; the leftover is carried as usual. */
  lemma RoundDropsFirst(o: Axes, chunk: string)
    requires o.Total() == 0 && Round(o, chunk).Ok?
    ensures var c := Carry(o.stream, chunk);
      |c.lines| >= 1 && ScanCodes(o, c.lines[1..]).Ok? &&
      Round(o, chunk).o == ScanCodes(o, c.lines[1..]).o.(stream := c.leftover)
  {
    var p := Split(o.stream + OffsetText(chunk), LF);
    var codes := p[1..];
    assert codes[..|codes| - 1] == p[..|p| - 1][1..];
  }

  /** One line per pass with no line break before any sample: `codes` is
      empty and `codes[-1]` raises. */
  lemma RoundWithoutBreak(o: Axes, chunk: string)
    requires o.Total() == 0 && '\n' !in o.stream + OffsetText(chunk)
    ensures Round(o, chunk) == Err(IndexError)
  {
    SplitWithout(o.stream + OffsetText(chunk), '\n');
  }

  /** A round keeps every counter within its buffer and every buffer's length. */
  lemma RoundKeepsShape(o: Axes, chunk: string)
    requires o.Valid() && Round(o, chunk).Ok?
    ensures var o1 := Round(o, chunk).o;
      o1.Valid() && |o1.xs| == |o.xs| && |o1.ys| == |o.ys| && |o1.zs| == |o.zs|
  {
    var codes := Pieces(o, chunk);
    ScanAppends(o, codes[..|codes| - 1], X);
    ScanAppends(o, codes[..|codes| - 1], Y);
    ScanAppends(o, codes[..|codes| - 1], Z);
  }

  /** The loop stops only when some counter has reached `npts`: the
      `and` of three `<` tests ends it as soon as one axis is full. */
  lemma RunStops(o: Axes, chunks: seq<string>, npts: int)
    requires Run(o, chunks, npts).Done?
    ensures !Run(o, chunks, npts).o.Running(npts)
    ensures Run(o, chunks, npts).used <= |chunks|
    decreases |chunks|
  {
    if o.Running(npts) {
      RunStops(Round(o, chunks[0]).o, chunks[1..], npts);
    }
  }

  /** The complete lines one round scans: the carry's lines, without the
      first one while no sample has been counted. */
  function RoundLines(o: Axes, chunk: string): seq<string>
  {
    var lines := Carry(o.stream, chunk).lines;
    if o.Total() > 0 then lines else if lines == [] then [] else lines[1..]
  }

  /** The lines the inner loop scans over a whole run, round after round. */
  function RunLines(o: Axes, chunks: seq<string>, npts: int): seq<string>
    decreases |chunks|
  {
    if !o.Running(npts) || chunks == [] then []
    else
      match Round(o, chunks[0])
      case Err(_) => []
      case Ok(o1) => RoundLines(o, chunks[0]) + RunLines(o1, chunks[1..], npts)
  }

  /** One round of a run that goes on: the run continues from the new
      state and its lines are this round's followed by the rest's. */
  lemma RunStep(o: Axes, chunks: seq<string>, npts: int)
    requires o.Running(npts) && chunks != [] && Round(o, chunks[0]).Ok?
    ensures var o1 := Round(o, chunks[0]).o; var u, w := Run(o, chunks, npts), Run(o1, chunks[1..], npts);
      (u.Done? <==> w.Done?) && (u.Done? ==> u.o == w.o && u.used == w.used + 1) &&
      RunLines(o, chunks, npts) == RoundLines(o, chunks[0]) + RunLines(o1, chunks[1..], npts)
  {
  }

  lemma ReadingsAppend(a: seq<string>, b: seq<string>, c: Axis)
    ensures Readings(a + b, c) == Readings(a, c) + Readings(b, c)
  {
    GatherAppend(a, b, PickOf(c));
  }

  lemma {:induction false} GatherAppend(a: seq<string>, b: seq<string>, f: string -> seq<real>)
    ensures Gather(a + b, f) == Gather(a, f) + Gather(b, f)
    decreases |b|
  {
    if b == [] {
      assert a + b == a;
    } else {
      var n, ab := |b| - 1, a + b;
      GatherAppend(a, b[..n], f);
      assert ab[..|ab| - 1] == a + b[..n] && ab[|ab| - 1] == b[n];
      assert Gather(ab, f) == Gather(a + b[..n], f) + f(b[n]);
      assert Gather(b, f) == Gather(b[..n], f) + f(b[n]);
    }
  }

  /** One round appends to each axis exactly the values of the lines it
      scans, carries the leftover, and never lowers a counter. */
  lemma RoundReadings(o: Axes, chunk: string, c: Axis)
    requires o.Valid() && Round(o, chunk).Ok?
    ensures var o1 := Round(o, chunk).o;
      o1.Valid() && o1.stream == Carry(o.stream, chunk).leftover &&
      o1.Buffer(c)[..o1.Count(c)] == o.Buffer(c)[..o.Count(c)] + Readings(RoundLines(o, chunk), c) &&
      o1.Count(c) >= o.Count(c)
  {
    var lines := RoundLines(o, chunk);
    if o.Total() > 0 {
      RoundIsCarry(o, chunk);
    } else {
      RoundDropsFirst(o, chunk);
    }
    ScanAppends(o, lines, c);
    var o1 := ScanCodes(o, lines).o;
    assert |o1.Buffer(c)[..o1.Count(c)]| == o1.Count(c);
  }

  lemma ReadingsChain(p0: seq<real>, p1: seq<real>, p2: seq<real>, r1: seq<real>, r2: seq<real>, r: seq<real>)
    requires p1 == p0 + r1 && p2 == p1 + r2 && r == r1 + r2
    ensures p2 == p0 + r
  {
  }

  /** Over a whole finished run each axis's filled prefix grows by exactly
      the values of the lines scanned in all rounds, in order. */
  lemma {:induction false} RunReadings(o: Axes, chunks: seq<string>, npts: int, c: Axis)
    requires o.Valid() && Run(o, chunks, npts).Done?
    ensures var o2 := Run(o, chunks, npts).o;
      o2.Valid() &&
      o2.Buffer(c)[..o2.Count(c)] == o.Buffer(c)[..o.Count(c)] + Readings(RunLines(o, chunks, npts), c)
    decreases |chunks|
  {
    if !o.Running(npts) {
      assert RunLines(o, chunks, npts) == [];
    } else {
      var o1 := Round(o, chunks[0]).o;
      RunStep(o, chunks, npts);
      RoundReadings(o, chunks[0], c);
      RunReadings(o1, chunks[1..], npts, c);
      var L, M := RoundLines(o, chunks[0]), RunLines(o1, chunks[1..], npts);
      ReadingsAppend(L, M, c);
      ReadingsChain(o.Buffer(c)[..o.Count(c)], o1.Buffer(c)[..o1.Count(c)],
                    Run(o1, chunks[1..], npts).o.Buffer(c)[..Run(o1, chunks[1..], npts).o.Count(c)],
                    Readings(L, c), Readings(M, c), Readings(L + M, c));
    }
  }

  /** From the start, a finished run leaves in each buffer's filled prefix
      exactly the accepted values of the lines scanned over all rounds. */
  lemma RunFromStart(npts: nat, chunks: seq<string>, c: Axis)
    requires Run(Start(npts), chunks, npts).Done?
    ensures var o2 := Run(Start(npts), chunks, npts).o;
      o2.Valid() && o2.Buffer(c)[..o2.Count(c)] == Readings(RunLines(Start(npts), chunks, npts), c)
  {
    RunReadings(Start(npts), chunks, npts, c);
  }

  /** Once a sample has been counted, the rest of a finished run scans
      exactly the lines continuous-carry framing gives for the reads it
      used, and ends holding that framing's leftover. */
  lemma {:induction false} RunIsCarryAll(o: Axes, chunks: seq<string>, npts: int)
    requires o.Valid() && o.Total() > 0 && Run(o, chunks, npts).Done?
    ensures var u := Run(o, chunks, npts);
      u.used <= |chunks| &&
      RunLines(o, chunks, npts) == CarryAll(o.stream, chunks[..u.used]).lines &&
      u.o.stream == CarryAll(o.stream, chunks[..u.used]).leftover
    decreases |chunks|
  {
    var u := Run(o, chunks, npts);
    if !o.Running(npts) {
      assert chunks[..0] == [];
    } else {
      var o1 := Round(o, chunks[0]).o;
      RoundReadings(o, chunks[0], X);
      RoundReadings(o, chunks[0], Y);
      RoundReadings(o, chunks[0], Z);
      RunIsCarryAll(o1, chunks[1..], npts);
      var n := Run(o1, chunks[1..], npts).used;
      assert u.used == n + 1;
      var w := chunks[..n + 1];
      assert w[0] == chunks[0] && w[1..] == chunks[1..][..n];
    }
  }

  /** Before the first sample the cut of the stream matters.  A single
      read of a line break, a reading line `x` and a line break stores the
      reading and finishes a one-point run; the same bytes cut after the
      first line break lose the reading with the second read's dropped
      first piece and wait for more input, though both cuts frame to the
      same lines. */
  lemma CutMatters(x: string)
    requires '\n' !in x && NUL !in x && '\r' !in x && OffsetCode(x).Reading?
    ensures Concat(["\n" + x + "\n"]) == Concat(["\n", x + "\n"])
    ensures CarryAll("", ["\n" + x + "\n"]) == CarryAll("", ["\n", x + "\n"])
    ensures Run(Start(1), ["\n" + x + "\n"], 1).Done?
    ensures Run(Start(1), ["\n", x + "\n"], 1) == Starved
  {
    CutTexts(x);
    CutFrames(x);
    CutWhole(x);
    CutAfterBreak(x);
  }

  lemma CutFrames(x: string)
    requires '\n' !in x && NUL !in x && '\r' !in x
    ensures Concat(["\n" + x + "\n"]) == Concat(["\n", x + "\n"])
    ensures CarryAll("", ["\n" + x + "\n"]) == CarryAll("", ["\n", x + "\n"])
  {
    CutConcat(x);
    CutCarry(x);
  }

  lemma CutConcat(x: string)
    ensures Concat(["\n" + x + "\n"]) == Concat(["\n", x + "\n"])
  {
    var a, b := ["\n" + x + "\n"], ["\n", x + "\n"];
    assert a[1..] == [] && b[1..] == [x + "\n"] && b[1..][1..] == [];
    assert Concat(b[1..]) == x + "\n";
  }

  lemma CutCarry(x: string)
    requires '\n' !in x && NUL !in x && '\r' !in x
    ensures CarryAll("", ["\n" + x + "\n"]) == Carried(["", x], "")
    ensures CarryAll("", ["\n", x + "\n"]) == Carried(["", x], "")
  {
    CutTexts(x);
    var w := "\n" + x + "\n";
    assert "" + OffsetText(w) == w;
    assert "" + OffsetText("\n") == "\n" && "" + OffsetText(x + "\n") == x + "\n";
    assert ["", x, ""][..2] == ["", x] && ["", ""][..1] == [""] && [x, ""][..1] == [x];
    var a, b := [w], ["\n", x + "\n"];
    assert Carry("", w) == Carried(["", x], "");
    assert Carry("", "\n") == Carried([""], "");
    assert Carry("", x + "\n") == Carried([x], "");
    assert a[1..] == [] && b[1..] == [x + "\n"] && b[1..][1..] == [];
    assert CarryAll("", b[1..]) == Carried([x], "");
  }

  /** The whole bytes as one read: the reading is stored and the run ends. */
  lemma CutWhole(x: string)
    requires '\n' !in x && NUL !in x && '\r' !in x && OffsetCode(x).Reading?
    ensures Run(Start(1), ["\n" + x + "\n"], 1).Done?
  {
    CutTexts(x);
    var o, w := Start(1), "\n" + x + "\n";
    assert o.Total() == 0 && o.stream == "" && |o.xs| == 2 && |o.ys| == 2 && |o.zs| == 2;
    assert "" + OffsetText(w) == w;
    assert Pieces(o, w) == [x, ""];
    FirstRound(o, w, x);
    var o1 := Round(o, w).o;
    assert !o1.Running(1);
    assert Run(o, [w], 1) == Done(o1, 1);
  }

  /** A first round whose only complete line is a reading stores it. */
  lemma FirstRound(o: Axes, w: string, x: string)
    requires o.Total() == 0 && |o.xs| > 0 && |o.ys| > 0 && |o.zs| > 0
    requires Pieces(o, w) == [x, ""] && OffsetCode(x).Reading?
    ensures Round(o, w).Ok? && Round(o, w).o.Total() == 1
  {
    assert [x, ""][..1] == [x] && [x][..0] == [];
    assert ScanCodes(o, [x]) == Line(o, x);
    StoreFirst(o, OffsetCode(x).axis, OffsetCode(x).value);
  }

  lemma StoreFirst(o: Axes, a: Axis, v: real)
    requires o.Total() == 0 && |o.xs| > 0 && |o.ys| > 0 && |o.zs| > 0
    ensures Store(o, a, v).Ok? && Store(o, a, v).o.Total() == 1
  {
  }

  /** Cut after the first line break: both reads' first pieces are dropped,
      nothing is stored and the run waits for more input. */
  lemma CutAfterBreak(x: string)
    requires '\n' !in x && NUL !in x && '\r' !in x
    ensures Run(Start(1), ["\n", x + "\n"], 1) == Starved
  {
    CutTexts(x);
    var o := Start(1);
    assert "" + OffsetText("\n") == "\n" && "" + OffsetText(x + "\n") == x + "\n";
    assert Pieces(o, "\n") == [""] && Pieces(o, x + "\n") == [""];
    assert Round(o, "\n") == Ok(o) && Round(o, x + "\n") == Ok(o);
    var b := ["\n", x + "\n"];
    assert b[1..][1..] == [];
    assert Run(o, b[1..][1..], 1) == Starved;
  }

  /** The cleaned texts and pieces of the reads in `CutMatters`. */
  lemma CutTexts(x: string)
    requires '\n' !in x && NUL !in x && '\r' !in x
    ensures OffsetText("\n" + x + "\n") == "\n" + x + "\n" && OffsetText("\n") == "\n" && OffsetText(x + "\n") == x + "\n"
    ensures Split("\n", LF) == ["", ""] && Split(x + "\n", LF) == [x, ""]
    ensures Split("\n" + x + "\n", LF) == ["", x, ""]
  {
    CleanText("\n" + x + "\n");
    CleanText("\n");
    CleanText(x + "\n");
    SplitBreak();
    SplitAround(x);
  }

  lemma CleanText(w: string)
    requires NUL !in w && '\r' !in w
    ensures OffsetText(w) == w
  {
    RemoveNone(w, NUL);
    RemoveNone(w, '\r');
  }

  lemma SplitBreak()
    ensures Split(LF, LF) == ["", ""]
  {
    assert LF[..1] == LF && LF[1..] == "";
  }

  lemma SplitAround(x: string)
    requires '\n' !in x
    ensures Split(x + LF, LF) == [x, ""] && Split(LF + x + LF, LF) == ["", x, ""]
  {
    SplitLine(x);
    SplitBreak();
    var y := x + LF;
    SplitAppendLF(LF, y);
    assert LF + x + LF == LF + y;
  }

  lemma SplitLine(x: string)
    requires '\n' !in x
    ensures Split(x + LF, LF) == [x, ""]
  {
    SplitBreak();
    SplitWithout(x, '\n');
    SplitAppendLF(x, LF);
    var P := Split(x, LF);
    assert P == [x] && P[..0] == [] && P[0] + "" == x;
  }

  /** "~091" is an x reading of `1 - 32768`, so `CutMatters` applies to it. */
  lemma OffsetExample(p: string)
    requires p == "1"
    ensures OffsetCode("~09" + p) == Reading(X, 1.0 - 32768.0)
  {
    var code := "~09" + p;
    assert Drop(code, 3) == p && code[0] == '~' && code[1..3] == "09";
    OneDigit(p);
  }

  lemma OneDigit(p: string)
    requires p == "1"
    ensures IsNumeric(Validated(Current, p)) && ParseDecimal(p) == Some(1.0)
  {
    OneValue(p);
    ValidatedDigits(Current, p);
    DigitsParse(p);
  }

  lemma OneValue(p: string)
    requires p == "1"
    ensures IsNumeric(p) && DigitsValue(p) == 1
  {
    assert p[..0] == "" && p[0] == '1';
    assert DigitsValue(p) == DigitsValue(p[..0]) * 10 + DigitValue('1');
  }

  /** Every counter within its buffer, and the slots of axis `c` past its
      counter still zero. */
  predicate ZeroTail(o: Axes, c: Axis)
  {
    o.Valid() && forall i :: o.Count(c) <= i < |o.Buffer(c)| ==> o.Buffer(c)[i] == 0.0
  }

  /** A round writes only below the new counter, so the zero tail survives. */
  lemma RoundKeepsZeros(o: Axes, chunk: string, c: Axis)
    requires ZeroTail(o, c) && Round(o, chunk).Ok?
    ensures var o1 := Round(o, chunk).o;
      ZeroTail(o1, c) && |o1.Buffer(c)| == |o.Buffer(c)|
  {
    var codes := Pieces(o, chunk);
    var o1 := ScanCodes(o, codes[..|codes| - 1]).o;
    ScanAppends(o, codes[..|codes| - 1], c);
    var n := o1.Count(c);
    forall i | n <= i < |o1.Buffer(c)| ensures o1.Buffer(c)[i] == 0.0 {
      assert o1.Buffer(c)[i] == o1.Buffer(c)[n..][i - n];
      assert o.Buffer(c)[n..][i - n] == o.Buffer(c)[i];
    }
    assert Round(o, chunk).o == o1.(stream := codes[|codes| - 1]);
  }

  /** The loop keeps every counter within its buffer, and each buffer's
      untouched tail at zero. */
  lemma {:induction false} RunKeepsZeros(o: Axes, chunks: seq<string>, npts: int, c: Axis)
    requires ZeroTail(o, c) && Run(o, chunks, npts).Done?
    ensures var o2 := Run(o, chunks, npts).o;
      ZeroTail(o2, c) && |o2.Buffer(c)| == |o.Buffer(c)|
    decreases |chunks|
  {
    if o.Running(npts) {
      RoundKeepsZeros(o, chunks[0], c);
      RunKeepsZeros(Round(o, chunks[0]).o, chunks[1..], npts, c);
    }
  }

  /** `read_offsets`' result: the times `arange(npts) / 200 + start` and
      each buffer cut to its first `npts` slots. */
  datatype Table = Table(times: seq<real>, x: seq<real>, y: seq<real>, z: seq<real>)

  function MakeTable(o: Axes, npts: nat, start: real): (t: Table)
    requires |o.xs| >= npts && |o.ys| >= npts && |o.zs| >= npts
    ensures |t.times| == npts && |t.x| == npts && |t.y| == npts && |t.z| == npts
    ensures forall i :: 0 <= i < npts ==> t.times[i] == i as real / 200.0 + start
  {
    Table(seq(npts, i requires 0 <= i < npts => i as real / 200.0 + start),
          o.xs[..npts], o.ys[..npts], o.zs[..npts])
  }

  /** From the start state, a finished loop gives columns of exactly
      `npts` values; an axis that did not reach `npts` is padded with
      zeros after its own readings. */
  lemma FinishedTable(npts: nat, chunks: seq<string>, c: Axis, start: real)
    requires Run(Start(npts), chunks, npts).Done?
    ensures var o := Run(Start(npts), chunks, npts).o;
      |o.Buffer(c)| == 2 * npts &&
      forall i :: o.Count(c) <= i < npts ==> o.Buffer(c)[i] == 0.0
  {
    StartZeroTail(npts, c);
    RunKeepsZeros(Start(npts), chunks, npts, c);
  }

  /** Before the loop every buffer is all zeros. */
  lemma StartZeroTail(npts: nat, c: Axis)
    ensures ZeroTail(Start(npts), c) && |Start(npts).Buffer(c)| == 2 * npts
  {
  }
}
