/** The one-byte QZFM commands the driver sends and the tokens that
    select them. */
module Commands {

  import opened Wrappers
  import opened Text

  const DataStreamOn: char := '7'
  const DataStreamOff: char := '8'
  const Calibrate: char := '9'
  const FieldReset: char := 'V'
  const ZeroAllAxes: char := 'i'
  const ZeroYzAxes: char := 'h'
  const ZeroingOn: char := 'D'
  const ZeroingOff: char := 'E'
  const Reboot: char := 'e'

  /** `mode.lower().strip()`, the normalisation of `set_axis_mode` and `set_gain`. */
  function Token(mode: string): string
  {
    Strip(Lower(mode))
  }

  /** `_set_read_axis`: the x, y and z readback axes. */
  function ReadAxisByte(axis: string): Option<char>
  {
    if axis == "x" then Some('G') else if axis == "y" then Some('@')
    else if axis == "z" then Some('?') else None
  }

  function ReadAxisOfByte(b: char): Option<string>
  {
    if b == 'G' then Some("x") else if b == '@' then Some("y")
    else if b == '?' then Some("z") else None
  }

  /** `set_axis_mode`: single z, single y, or dual-axis sensing. */
  function AxisModeByte(mode: string): Option<char>
  {
    if mode == "z" then Some('C') else if mode == "y" then Some('F')
    else if mode == "dual" then Some('B') else None
  }

  function AxisModeOfByte(b: char): Option<string>
  {
    if b == 'C' then Some("z") else if b == 'F' then Some("y")
    else if b == 'B' then Some("dual") else None
  }

  /** `set_gain`: the command byte and the resulting gain in V/nT. */
  datatype GainSetting = GainSetting(byte: char, gain: real)

  function GainOf(mode: string): Option<GainSetting>
  {
    if mode == "0.33x" then Some(GainSetting('a', 0.9))
    else if mode == "1x" then Some(GainSetting('`', 2.7))
    else if mode == "3x" then Some(GainSetting('b', 8.1))
    else None
  }

  function GainOfByte(b: char): Option<string>
  {
    if b == 'a' then Some("0.33x") else if b == '`' then Some("1x")
    else if b == 'b' then Some("3x") else None
  }

  /** Each accepted read-axis token has its own byte, and the byte names it back. */
  lemma ReadAxisRoundTrip(axis: string, b: char)
    ensures ReadAxisByte(axis) == Some(b) <==> ReadAxisOfByte(b) == Some(axis)
  {
  }

  /** Each axis mode has its own byte, and the byte names it back. */
  lemma AxisModeRoundTrip(mode: string, b: char)
    ensures AxisModeByte(mode) == Some(b) <==> AxisModeOfByte(b) == Some(mode)
  {
  }

  /** Each gain token has its own byte, and the byte names it back. */
  lemma GainRoundTrip(mode: string, b: char)
    ensures (GainOf(mode).Some? && GainOf(mode).value.byte == b) <==> GainOfByte(b) == Some(mode)
  {
  }

  /** No token-selected byte doubles as one of the fixed commands. */
  lemma CommandBytesDistinct(axis: string, mode: string, gain: string)
    ensures var fixed := {DataStreamOn, DataStreamOff, Calibrate, FieldReset, ZeroAllAxes,
                          ZeroYzAxes, ZeroingOn, ZeroingOff, Reboot};
      (ReadAxisByte(axis).Some? ==> ReadAxisByte(axis).value !in fixed) &&
      (AxisModeByte(mode).Some? ==> AxisModeByte(mode).value !in fixed) &&
      (GainOf(gain).Some? ==> GainOf(gain).value.byte !in fixed) &&
      |fixed| == 9
  {
  }

  /** Tokens are case- and white-space-insensitive: " Dual\n" selects dual mode. */
  lemma TokenExample()
    ensures Token(" Dual\n") == "dual"
  {
    LowerExample();
    StripExample();
  }

  lemma LowerExample()
    ensures Lower(" Dual\n") == " dual\n"
  {
    var l := Lower(" Dual\n");
    assert l[1] == LowerChar('D') == 'd';
    assert l[2] == LowerChar('u') == 'u';
  }

  lemma StripExample()
    ensures Strip(" dual\n") == "dual"
  {
    var s := " dual\n";
    assert IsSpace(s[0]) && !IsSpace(s[1]) && IsSpace(s[5]) && !IsSpace(s[4]);
    assert s[1..] == "dual\n" && s[1..][..4] == "dual";
    assert StripStart(s) == s[1..];
    assert StripEnd(s[1..]) == s[1..][..4];
  }
}
