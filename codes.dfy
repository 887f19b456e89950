/** How `update_status` reads one kept status line: '|' lines report an
    LED, '~' lines a sensor parameter, '#' lines a free-text message. */
module Codes {

  import opened Wrappers
  import opened Text
  import opened Floats
  import opened Errors

  /** The two versions of the driver: `src/QZFM/QZFM.py` (Current) and the
      older top-level `QZFM.py` (Legacy). */
  datatype Version = Current | Legacy
  {
    /** A coil field reading in pT from its raw value: `raw - 32768`, and
        in the older version that times 0.01. */
    function FieldPt(raw: real): real
    {
      if this == Current then raw - 32768.0 else (raw - 32768.0) * 0.01
    }

    /** Whether '-' is removed, like '.', before the digit check. */
    predicate DropsMinus()
    {
      this == Current
    }
  }

  /** The five LEDs, numbered as on the device. */
  type LedIndex = k: int | 1 <= k <= 5 witness 1

  /** The five sensor parameters `sensor_par` holds. */
  datatype Param = TempError | TempVoltage | Bz | By | B0
  {
    /** The coil field readings are the keys containing "field". */
    predicate IsField()
    {
      this == Bz || this == By || this == B0
    }
  }

  /** The two-character key after '~' that reports each parameter. */
  function Key(p: Param): string
  {
    match p
    case TempError => "04"
    case TempVoltage => "05"
    case Bz => "07"
    case By => "08"
    case B0 => "09"
  }

  function ParamOf(key: string): (r: Option<Param>)
    ensures r.Some? ==> Key(r.value) == key
    ensures forall p :: Key(p) == key ==> r == Some(p)
  {
    if key == "04" then Some(TempError)
    else if key == "05" then Some(TempVoltage)
    else if key == "07" then Some(Bz)
    else if key == "08" then Some(By)
    else if key == "09" then Some(B0)
    else None
  }

  /** What one status line means. */
  datatype Code =
    | Skip                          // empty, unknown, or a rejected '~' payload
    | Led(k: LedIndex, on: bool)
    | Par(p: Param, value: Float)
    | Note(text: string)
    | Fault(e: PyError)             // the line makes the parser raise

  /** The payload text the digit check is applied to. */
  function Validated(v: Version, payload: string): (r: string)
    ensures forall c :: c in r <==> c in payload && c != '.' && (c != '-' || !v.DropsMinus())
    ensures |r| <= |payload|
  {
    var t := Remove(payload, '.');
    RemoveMembers(payload, '.');
    RemoveMembers(t, '-');
    if v.DropsMinus() then Remove(t, '-') else t
  }

  /** The value of an accepted payload.  Cell temperature error is
      `(float(x) - 8388608) / 524288`, cell temperature voltage `int(x)`,
      a field `(float(x) - 32768)` times the version's scale. */
  function ParValue(v: Version, p: Param, payload: string): Code
  {
    if p == TempVoltage then
      match ParseInt(payload)
      case None => Fault(ValueError)
      case Some(n) => Par(p, Num(n as real))
    else
      match ParseDecimal(payload)
      case None => Fault(ValueError)
      case Some(x) =>
        if p == TempError then Par(p, Num((x - 8388608.0) / 524288.0))
        else Par(p, Num(v.FieldPt(x)))
  }

  /** One pass of `update_status`'s classification loop body.  `code[1]`
      and `code[2]` of a short '|' line raise IndexError, exactly when
      Python evaluates them. */
  function Classify(v: Version, code: string): (r: Code)
    ensures r.Led? ==> |code| >= 3 && code[0] == '|' && code[1] as int - '0' as int == r.k
                       && r.on == (code[2] == '1')
    ensures r.Par? ==> |code| > 3 && code[0] == '~' && code[1..3] == Key(r.p)
                       && IsNumeric(Validated(v, Drop(code, 3)))
    ensures r.Note? ==> |code| >= 1 && code[0] == '#' && r.text == code[1..]
  {
    if code == "" then Skip
    else if code[0] == '|' then
      if |code| < 2 then Fault(IndexError)
      else if '1' <= code[1] <= '5' then
        if |code| < 3 then Fault(IndexError)
        else Led(code[1] as int - '0' as int, code[2] == '1')
      else Skip
    else if code[0] == '~' then
      var payload := Drop(code, 3);
      if !IsNumeric(Validated(v, payload)) then Skip
      else
        match ParamOf(code[1..3])
        case None => Skip
        case Some(p) => ParValue(v, p, payload)
    else if code[0] == '#' then Note(code[1..])
    else Skip
  }

  lemma DigitsHaveNoDot(s: string)
    requires AllDigits(s)
    ensures IndexOf(s, '.') == |s|
  {
    var k := IndexOf(s, '.');
    assert k < |s| ==> s[k] == '.' && IsDigit(s[k]);
  }

  lemma DigitsUnstripped(s: string)
    requires IsNumeric(s)
    ensures Strip(s) == s
  {
    assert !IsSpace(s[0]) && !IsSpace(s[|s| - 1]);
    assert StripStart(s) == s;
  }

  /** A decimal text of plain digits parses to its digit value. */
  lemma DigitsParse(s: string)
    requires IsNumeric(s)
    ensures ParseDecimal(s) == Some(DigitsValue(s) as real)
    ensures ParseInt(s) == Some(DigitsValue(s) as int)
  {
    DecimalOfDigits(s);
    IntOfDigits(s);
  }

  lemma DecimalOfDigits(s: string)
    requires IsNumeric(s)
    ensures ParseDecimal(s) == Some(DigitsValue(s) as real)
  {
    DigitsHaveNoDot(s);
    assert s[0] != '-';
    assert s[..|s|] == s;
    assert Drop(s, |s| + 1) == "";
  }

  lemma IntOfDigits(s: string)
    requires IsNumeric(s)
    ensures ParseInt(s) == Some(DigitsValue(s) as int)
  {
    assert s[0] != '-' && s[0] != '+';
    DigitsUnstripped(s);
  }

  /** A parameter line whose payload passes the digit check is read by
      the parameter's conversion. */
  lemma AcceptedParam(v: Version, p: Param, payload: string)
    requires IsNumeric(Validated(v, payload))
    ensures Classify(v, "~" + Key(p) + payload) == ParValue(v, p, payload)
  {
    var code := "~" + Key(p) + payload;
    assert code[0] == '~' && code[1..3] == Key(p);
    assert Drop(code, 3) == payload;
    assert ParamOf(Key(p)) == Some(p);
  }

  /** A field line whose payload passes the digit check and parses as `x`
      reads as `(x - 32768)` times the version's scale. */
  lemma AcceptedField(v: Version, p: Param, payload: string, x: real)
    requires p.IsField() && IsNumeric(Validated(v, payload))
    requires ParseDecimal(payload) == Some(x)
    ensures Classify(v, "~" + Key(p) + payload) == Par(p, Num(v.FieldPt(x)))
  {
    AcceptedParam(v, p, payload);
    FieldValue(v, p, payload, x);
  }

  lemma FieldValue(v: Version, p: Param, payload: string, x: real)
    requires p.IsField() && ParseDecimal(payload) == Some(x)
    ensures ParValue(v, p, payload) == Par(p, Num(v.FieldPt(x)))
  {
  }

  /** A field line with a digits-only payload reads as `payload - 32768`
      in the current version and `(payload - 32768) * 0.01` in the older
      one; both versions accept it. */
  lemma FieldLine(v: Version, p: Param, payload: string)
    requires p.IsField() && IsNumeric(payload)
    ensures Classify(v, "~" + Key(p) + payload)
      == Par(p, Num(v.FieldPt(DigitsValue(payload) as real)))
  {
    var x := DigitsValue(payload) as real;
    assert ParseDecimal(payload) == Some(x) by {
      DecimalOfDigits(payload);
    }
    assert IsNumeric(Validated(v, payload)) by {
      ValidatedDigits(v, payload);
    }
    AcceptedField(v, p, payload, x);
  }

  lemma ValidatedDigits(v: Version, s: string)
    requires AllDigits(s)
    ensures Validated(v, s) == s
  {
    RemoveAbsent(s, '.');
    RemoveAbsent(s, '-');
  }

  /** The cell temperature error line `~04x` reads as `(x - 8388608) / 524288`. */
  lemma TempErrorLine(v: Version, payload: string)
    requires IsNumeric(payload)
    ensures Classify(v, "~04" + payload)
      == Par(TempError, Num((DigitsValue(payload) as real - 8388608.0) / 524288.0))
  {
    ValidatedDigits(v, payload);
    AcceptedParam(v, TempError, payload);
    TempErrorValue(v, payload);
    assert "~" + Key(TempError) + payload == "~04" + payload;
  }

  lemma TempErrorValue(v: Version, payload: string)
    requires IsNumeric(payload)
    ensures ParValue(v, TempError, payload) == Par(TempError, Num((DigitsValue(payload) as real - 8388608.0) / 524288.0))
  {
    var x := DigitsValue(payload) as real;
    assert ParseDecimal(payload) == Some(x) by {
      DecimalOfDigits(payload);
    }
  }

  lemma {:induction false} RemoveAbsent(s: string, c: char)
    requires AllDigits(s) && !IsDigit(c)
    ensures Remove(s, c) == s
    decreases |s|
  {
    if s != [] {
      assert IsDigit(s[0]);
      assert AllDigits(s[1..]) by {
        forall i | 0 <= i < |s[1..]| ensures IsDigit(s[1..][i]) { assert s[1..][i] == s[i + 1]; }
      }
      RemoveAbsent(s[1..], c);
    }
  }

  lemma Value32768()
    ensures IsNumeric("32768") && DigitsValue("32768") == 32768
  {
    assert "32768" == "3276" + ['8'] && "3276" == "327" + ['6'] && "327" == "32" + ['7'];
    assert "32" == "3" + ['2'] && "3"[..0] == "";
    DigitsSnoc("3", '2');
    DigitsSnoc("32", '7');
    DigitsSnoc("327", '6');
    DigitsSnoc("3276", '8');
  }

  lemma Value32868()
    ensures IsNumeric("32868") && DigitsValue("32868") == 32868
  {
    assert "32868" == "3286" + ['8'] && "3286" == "328" + ['6'] && "328" == "32" + ['8'];
    assert "32" == "3" + ['2'] && "3"[..0] == "";
    DigitsSnoc("3", '2');
    DigitsSnoc("32", '8');
    DigitsSnoc("328", '6');
    DigitsSnoc("3286", '8');
  }

  /** The reference reading of the current version: "~07" + "32768" is Bz = 0 pT. */
  lemma CurrentFieldExample(payload: string)
    requires payload == "32768"
    ensures Classify(Current, "~07" + payload) == Par(Bz, Num(0.0))
  {
    assert "~" + Key(Bz) + payload == "~07" + payload;
    assert Classify(Current, "~" + Key(Bz) + payload)
      == Par(Bz, Num(Current.FieldPt(DigitsValue(payload) as real))) by {
      Value32768();
      FieldLine(Current, Bz, payload);
    }
    assert DigitsValue(payload) == 32768 by {
      Value32768();
    }
  }

  /** The reference reading of the older version: "~07" + "32868" is Bz = 1.0 pT. */
  lemma LegacyFieldExample(payload: string)
    requires payload == "32868"
    ensures Classify(Legacy, "~07" + payload) == Par(Bz, Num(1.0))
  {
    assert "~" + Key(Bz) + payload == "~07" + payload;
    assert Classify(Legacy, "~" + Key(Bz) + payload)
      == Par(Bz, Num(Legacy.FieldPt(DigitsValue(payload) as real))) by {
      Value32868();
      FieldLine(Legacy, Bz, payload);
    }
    assert DigitsValue(payload) == 32868 by {
      Value32868();
    }
  }

  /** The older version rejects every parameter line whose payload holds
      a '-'; the line then counts as unknown. */
  lemma LegacyRejectsMinus(code: string)
    requires |code| >= 1 && code[0] == '~' && '-' in Drop(code, 3)
    ensures Classify(Legacy, code) == Skip
  {
    var w := Validated(Legacy, Drop(code, 3));
    assert '-' in w;
    var i :| 0 <= i < |w| && w[i] == '-';
    assert !IsDigit(w[i]);
  }

  lemma DigitsSnoc(s: string, c: char)
    requires AllDigits(s) && IsDigit(c)
    ensures AllDigits(s + [c])
    ensures DigitsValue(s + [c]) == DigitsValue(s) * 10 + DigitValue(c)
  {
    assert (s + [c])[..|s|] == s;
  }

  /** A '-' in front of plain digits parses to the negated digit value. */
  lemma NegativeParse(s: string)
    requires |s| > 1 && s[0] == '-' && IsNumeric(s[1..])
    ensures ParseDecimal(s) == Some(-(DigitsValue(s[1..]) as real))
  {
    var digits := s[1..];
    DigitsHaveNoDot(digits);
    assert digits[..|digits|] == digits;
    assert Drop(digits, |digits| + 1) == "";
  }

  /** The current version accepts a negative field reading. */
  lemma CurrentAcceptsMinus(p: Param, payload: string)
    requires p.IsField() && |payload| > 1 && payload[0] == '-' && IsNumeric(payload[1..])
    ensures Classify(Current, "~" + Key(p) + payload)
      == Par(p, Num(-(DigitsValue(payload[1..]) as real) - 32768.0))
  {
    ValidatedNegative(payload);
    NegativeParse(payload);
    AcceptedField(Current, p, payload, -(DigitsValue(payload[1..]) as real));
  }

  /** The current version's digit check sees the digits after the '-'. */
  lemma ValidatedNegative(s: string)
    requires |s| > 0 && s[0] == '-' && AllDigits(s[1..])
    ensures Validated(Current, s) == s[1..]
  {
    var digits := s[1..];
    assert s == "-" + digits;
    RemoveAbsent(digits, '.');
    RemoveAbsent(digits, '-');
    RemoveAppend("-", digits, '.');
    RemoveAppend("-", digits, '-');
  }
}
