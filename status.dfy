/** How `update_status` folds the kept lines into the device state:
    LEDs not reported are switched off, coil field readings not reported
    keep their value, and the other parameters become NaN. */
module Status {

  import opened Wrappers
  import opened Floats
  import opened Errors
  import opened Codes
  import opened Dedup

  /** `self.led` */
  datatype LedState = LedState(laserOn: bool, cellTempLock: bool, laserLock: bool,
                               fieldZeroed: bool, isMaster: bool)
  {
    function At(k: LedIndex): bool
    {
      match k
      case 1 => laserOn
      case 2 => cellTempLock
      case 3 => laserLock
      case 4 => fieldZeroed
      case 5 => isMaster
    }
  }

  const AllOff := LedState(false, false, false, false, false)

  /** `self.sensor_par` */
  datatype SensorPar = SensorPar(cellTempError: Float, cellTempVoltage: Float,
                                 fieldZ: Float, fieldY: Float, field0: Float)
  {
    function Get(p: Param): Float
    {
      match p
      case TempError => cellTempError
      case TempVoltage => cellTempVoltage
      case Bz => fieldZ
      case By => fieldY
      case B0 => field0
    }
  }

  const Unknown := SensorPar(NaN, NaN, NaN, NaN, NaN)

  /** The local `led` and `sp` dictionaries and the messages of one pass. */
  datatype Batch = Batch(leds: map<LedIndex, bool>, pars: map<Param, Float>, notes: seq<string>)

  const Empty := Batch(map[], map[], [])

  /** The dictionaries after the loop, or the exception that ended it. */
  datatype Scan = Scan(batch: Batch, fault: Option<PyError>)

  /** The effect of one classified line on the dictionaries. */
  function Absorb(b: Batch, c: Code): Batch
  {
    match c
    case Led(k, on) => b.(leds := b.leds[k := on])
    case Par(p, x) => b.(pars := b.pars[p := x])
    case Note(t) => b.(notes := b.notes + [t])
    case _ => b
  }

  /** The classification of each line, in order. */
  function Classified(v: Version, lines: seq<string>): (r: seq<Code>)
    ensures |r| == |lines| && forall i :: 0 <= i < |lines| ==> r[i] == Classify(v, lines[i])
  {
    seq(|lines|, i requires 0 <= i < |lines| => Classify(v, lines[i]))
  }

  /** The classification loop over the classified lines, in their order;
      the first line that raises ends it. */
  function Interpret(cs: seq<Code>): Scan
    decreases |cs|
  {
    if cs == [] then Scan(Empty, None)
    else
      var r := Interpret(cs[..|cs| - 1]);
      if r.fault.Some? then r
      else
        match cs[|cs| - 1]
        case Fault(e) => Scan(r.batch, Some(e))
        case c => Scan(Absorb(r.batch, c), None)
  }

  /** Once a line has raised, the lines after it are never looked at. */
  lemma {:induction false} FaultSticks(cs: seq<Code>, j: nat)
    requires j <= |cs| && Interpret(cs[..j]).fault.Some?
    ensures Interpret(cs) == Interpret(cs[..j])
    decreases |cs| - j
  {
    if j < |cs| {
      assert cs[..j + 1][..j] == cs[..j];
      FaultSticks(cs, j + 1);
    } else {
      assert cs[..j] == cs;
    }
  }

  /** One more line of the classification loop. */
  lemma InterpretStep(cs: seq<Code>, i: nat)
    requires i < |cs| && Interpret(cs[..i]).fault.None?
    ensures Interpret(cs[..i + 1]) == match cs[i]
      case Fault(e) => Scan(Interpret(cs[..i]).batch, Some(e))
      case c => Scan(Absorb(Interpret(cs[..i]).batch, c), None)
  {
    assert cs[..i + 1][..i] == cs[..i];
  }

  /** `self.led[k] = led.get(k, False)` for every LED. */
  function NewLeds(leds: map<LedIndex, bool>): (r: LedState)
    ensures forall k: LedIndex :: r.At(k) == (k in leds && leds[k])
  {
    LedState(1 in leds && leds[1], 2 in leds && leds[2], 3 in leds && leds[3],
             4 in leds && leds[4], 5 in leds && leds[5])
  }

  function GetOr(pars: map<Param, Float>, p: Param, default: Float): Float
  {
    if p in pars then pars[p] else default
  }

  /** `sp.get(k, self.sensor_par[k])` for the field keys, `sp.get(k, nan)`
      for the others. */
  function NewPars(par0: SensorPar, pars: map<Param, Float>): (r: SensorPar)
    ensures forall p: Param :: r.Get(p) == GetOr(pars, p, if p.IsField() then par0.Get(p) else NaN)
  {
    SensorPar(GetOr(pars, TempError, NaN), GetOr(pars, TempVoltage, NaN),
              GetOr(pars, Bz, par0.fieldZ), GetOr(pars, By, par0.fieldY), GetOr(pars, B0, par0.field0))
  }

  /** What one status read leaves behind: new LEDs and parameters (or the
      old ones when a line raised), and the messages appended on the way. */
  datatype Poll = Poll(led: LedState, par: SensorPar, notes: seq<string>, fault: Option<PyError>)

  /** `update_status` on the lines of one read, given the previous state. */
  function Apply(v: Version, led0: LedState, par0: SensorPar, lines: seq<string>): Poll
  {
    var s := Interpret(Classified(v, Latest(lines)));
    if s.fault.Some? then Poll(led0, par0, s.batch.notes, s.fault)
    else Poll(NewLeds(s.batch.leds), NewPars(par0, s.batch.pars), s.batch.notes, None)
  }

  predicate NamesLed(c: Code, k: LedIndex)
  {
    c.Led? && c.k == k
  }

  /** `cs[a]` is the last code of `cs` that sets LED `k`. */
  predicate LastLed(cs: seq<Code>, a: int, k: LedIndex)
    requires 0 <= a < |cs|
  {
    NamesLed(cs[a], k) && forall b :: a < b < |cs| ==> !NamesLed(cs[b], k)
  }

  predicate NamesPar(c: Code, p: Param)
  {
    c.Par? && c.p == p
  }

  predicate LastPar(cs: seq<Code>, a: int, p: Param)
    requires 0 <= a < |cs|
  {
    NamesPar(cs[a], p) && forall b :: a < b < |cs| ==> !NamesPar(cs[b], p)
  }

  /** A clean pass is a clean pass over all lines but the last, then the last absorbed. */
  lemma InterpretLast(cs: seq<Code>)
    requires cs != [] && Interpret(cs).fault.None?
    ensures var r := Interpret(cs[..|cs| - 1]);
      r.fault.None? && !cs[|cs| - 1].Fault? && Interpret(cs).batch == Absorb(r.batch, cs[|cs| - 1])
  {
  }

  /** After the loop, LED `k` is in the dictionary iff some code set it,
      and holds the value of the last such code. */
  lemma {:induction false} InterpretLeds(cs: seq<Code>, k: LedIndex)
    requires Interpret(cs).fault.None?
    ensures var leds := Interpret(cs).batch.leds;
      (k in leds <==> exists a :: 0 <= a < |cs| && NamesLed(cs[a], k)) &&
      forall a :: 0 <= a < |cs| && LastLed(cs, a, k) ==> k in leds && leds[k] == cs[a].on
    decreases |cs|
  {
    if cs != [] {
      var n := |cs| - 1;
      var init := cs[..n];
      InterpretLeds(init, k);
      InterpretLast(cs);
      var r := Interpret(init);
      var leds := Interpret(cs).batch.leds;
      assert forall a :: 0 <= a < n ==> init[a] == cs[a];
      if NamesLed(cs[n], k) {
        assert leds == r.batch.leds[k := cs[n].on];
        forall a | 0 <= a < |cs| && LastLed(cs, a, k) ensures a == n {
        }
      } else {
        assert k in leds <==> k in r.batch.leds;
        assert k in leds ==> leds[k] == r.batch.leds[k];
        forall a | 0 <= a < n && LastLed(cs, a, k) ensures LastLed(init, a, k) {
        }
      }
    }
  }

  /** After the loop, parameter `p` is in the dictionary iff some code set
      it, and holds the value of the last such code. */
  lemma InterpretPars(cs: seq<Code>, p: Param)
    requires Interpret(cs).fault.None?
    ensures var pars := Interpret(cs).batch.pars;
      (p in pars <==> exists a :: 0 <= a < |cs| && NamesPar(cs[a], p)) &&
      forall a :: 0 <= a < |cs| && LastPar(cs, a, p) ==> p in pars && pars[p] == cs[a].value
  {
    ParsSet(cs, p);
    ParsLast(cs, p);
  }

  lemma {:induction false} ParsSet(cs: seq<Code>, p: Param)
    requires Interpret(cs).fault.None?
    ensures p in Interpret(cs).batch.pars <==> exists a :: 0 <= a < |cs| && NamesPar(cs[a], p)
    decreases |cs|
  {
    if cs != [] {
      var n := |cs| - 1;
      var init := cs[..n];
      ParsSet(init, p);
      InterpretLast(cs);
      assert forall a :: 0 <= a < n ==> init[a] == cs[a];
      if !NamesPar(cs[n], p) {
        assert p in Interpret(cs).batch.pars <==> p in Interpret(init).batch.pars;
      }
    }
  }

  lemma {:induction false} ParsLast(cs: seq<Code>, p: Param)
    requires Interpret(cs).fault.None?
    ensures var pars := Interpret(cs).batch.pars;
      forall a :: 0 <= a < |cs| && LastPar(cs, a, p) ==> p in pars && pars[p] == cs[a].value
    decreases |cs|
  {
    if cs != [] {
      var n := |cs| - 1;
      var init := cs[..n];
      ParsLast(init, p);
      InterpretLast(cs);
      var r := Interpret(init);
      var pars := Interpret(cs).batch.pars;
      if NamesPar(cs[n], p) {
        assert pars == r.batch.pars[p := cs[n].value];
        forall a | 0 <= a < |cs| && LastPar(cs, a, p) ensures a == n {
        }
      } else {
        assert p in r.batch.pars ==> p in pars && pars[p] == r.batch.pars[p];
        forall a | 0 <= a < n && LastPar(cs, a, p) ensures LastPar(init, a, p) {
          assert forall b :: a < b < n ==> init[b] == cs[b];
        }
      }
    }
  }

  /** The latest code at or after `a` that sets LED `k`. */
  lemma {:induction false} LastIndex(cs: seq<Code>, a: int, k: LedIndex) returns (last: int)
    requires 0 <= a < |cs| && NamesLed(cs[a], k)
    ensures a <= last < |cs| && LastLed(cs, last, k)
    decreases |cs| - a
  {
    if LastLed(cs, a, k) {
      last := a;
    } else {
      var b :| a < b < |cs| && NamesLed(cs[b], k);
      last := LastIndex(cs, b, k);
    }
  }

  /** LED `k` is on after an update iff the last kept line that reports it
      (in the order the loop applies them, newest first) says '1'; an LED
      no kept line reports is off, whatever it was before. */
  lemma LedRule(v: Version, led0: LedState, par0: SensorPar, lines: seq<string>, k: LedIndex)
    requires Apply(v, led0, par0, lines).fault.None?
    ensures var cs := Classified(v, Latest(lines));
      Apply(v, led0, par0, lines).led.At(k) <==>
        exists a :: 0 <= a < |cs| && LastLed(cs, a, k) && cs[a].on
    ensures var cs := Classified(v, Latest(lines));
      (forall a :: 0 <= a < |cs| ==> !NamesLed(cs[a], k)) ==> !Apply(v, led0, par0, lines).led.At(k)
  {
    var cs := Classified(v, Latest(lines));
    InterpretLeds(cs, k);
    var leds := Interpret(cs).batch.leds;
    if k in leds {
      var a :| 0 <= a < |cs| && NamesLed(cs[a], k);
      var last := LastIndex(cs, a, k);
      assert LastLed(cs, last, k);
    }
  }

  /** A kept line that sets a parameter carries that parameter's prefix "~kk". */
  lemma ParPrefix(v: Version, code: string, p: Param)
    requires NamesPar(Classify(v, code), p)
    ensures Prefix(code) == "~" + Key(p)
  {
    assert code[..3] == [code[0]] + code[1..3];
  }

  /** A parameter reported by a kept line takes that line's value: the
      prefixes of kept lines are distinct, so no other kept line reports it. */
  lemma ParReported(v: Version, led0: LedState, par0: SensorPar, lines: seq<string>, a: int, p: Param)
    requires Apply(v, led0, par0, lines).fault.None?
    requires var K := Latest(lines); 0 <= a < |K| && NamesPar(Classify(v, K[a]), p)
    ensures Apply(v, led0, par0, lines).par.Get(p) == Classify(v, Latest(lines)[a]).value
  {
    var K := Latest(lines);
    var cs := Classified(v, K);
    LatestDistinct(lines);
    ParPrefix(v, K[a], p);
    forall b | a < b < |K| ensures !NamesPar(cs[b], p) {
      if NamesPar(cs[b], p) { ParPrefix(v, K[b], p); }
    }
    InterpretPars(cs, p);
  }

  /** A parameter no kept line reports: a coil field keeps its previous
      reading, the cell temperature error and voltage become NaN. */
  lemma ParAbsent(v: Version, led0: LedState, par0: SensorPar, lines: seq<string>, p: Param)
    requires Apply(v, led0, par0, lines).fault.None?
    requires var K := Latest(lines); forall a :: 0 <= a < |K| ==> !NamesPar(Classify(v, K[a]), p)
    ensures Apply(v, led0, par0, lines).par.Get(p) == if p.IsField() then par0.Get(p) else NaN
  {
    InterpretPars(Classified(v, Latest(lines)), p);
  }

  /** A line that raises leaves the LEDs and parameters as they were. */
  lemma FaultKeepsState(v: Version, led0: LedState, par0: SensorPar, lines: seq<string>)
    requires Apply(v, led0, par0, lines).fault.Some?
    ensures Apply(v, led0, par0, lines).led == led0 && Apply(v, led0, par0, lines).par == par0
  {
  }

  /** A line the parser rejects or does not know has no effect at all. */
  lemma SkipChangesNothing(cs: seq<Code>)
    ensures Interpret(cs + [Skip]) == Interpret(cs)
  {
    assert (cs + [Skip])[..|cs|] == cs;
  }

  /** The stale-LED effect: "|11" followed by a newer "|10" keeps both
      lines (their prefixes differ), the older one is applied last, and
      the laser LED ends up on although the newest report says off. */
  lemma StaleLedWins(v: Version, led0: LedState, par0: SensorPar)
    ensures Apply(v, led0, par0, ["|11", "|10"]).led.laserOn
  {
    var lines := ["|11", "|10"];
    assert Prefix("|11") == "|11" && Prefix("|10") == "|10";
    assert IsLatest(lines, 0) && IsLatest(lines, 1);
    assert LatestFrom(lines, 2) == [];
    assert Latest(lines) == ["|10", "|11"];
    var cs := Classified(v, ["|10", "|11"]);
    assert cs == [Led(1, false), Led(1, true)];
    assert cs[..1] == [Led(1, false)] && cs[..1][..0] == [];
    assert Interpret(cs[..1]) == Scan(Absorb(Empty, Led(1, false)), None);
    assert Interpret(cs).batch.leds == map[1 := false][1 := true];
  }

  /** Two messages with the same first two characters: only the newest is
      recorded. */
  lemma MessagesDeduplicated(v: Version, led0: LedState, par0: SensorPar)
    ensures Apply(v, led0, par0, ["#ab1", "#ab2"]).notes == ["ab2"]
  {
    var lines := ["#ab1", "#ab2"];
    assert Prefix("#ab1") == "#ab" && Prefix("#ab2") == "#ab";
    assert Prefix(lines[1]) == Prefix(lines[0]);
    assert !IsLatest(lines, 0) && IsLatest(lines, 1);
    assert LatestFrom(lines, 2) == [];
    assert Latest(lines) == ["#ab2"];
    var cs := Classified(v, ["#ab2"]);
    assert cs == [Note("ab2")];
    assert cs[..0] == [];
    assert Interpret(cs) == Scan(Absorb(Empty, Note("ab2")), None);
  }
}
