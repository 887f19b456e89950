/** `read_data`'s decoding of one streamed burst of ADC words: every word
    is converted to an integer, re-centred on 8388608 and scaled by 0.01
    pT; a word of the wrong length becomes NaN at its own position, so
    the sample count is kept. */
module Adc {

  import opened Text
  import opened Framing
  import opened Floats
  import opened Errors
  import opened Codes

  /** The ADC's mid-scale code, read as 0 pT. */
  const Midscale: int := 8388608

  /** A well-formed data word: `bytesize - 1` characters. */
  const WordLength: nat := 7

  /** Samples per second the device streams (`data_read_rate`). */
  const Rate: real := 200.0

  /** The byte budget of a read: `(bytesize + 2) * (npts + 2)`, room for
      two more words than asked for, since the first and last are partial. */
  function BurstBytes(npts: int): int
  {
    10 * (npts + 2)
  }

  /** `int(seconds * data_read_rate)`: truncation towards zero. */
  function SampleCount(seconds: real): (n: int)
    ensures seconds >= 0.0 ==> n >= 0 && n as real <= seconds * Rate < n as real + 1.0
    ensures seconds < 0.0 ==> n <= 0 && n as real - 1.0 < seconds * Rate <= n as real
  {
    var x := seconds * Rate;
    if x >= 0.0 then x.Floor else -((-x).Floor)
  }

  /** Converting one word with the 64-bit `astype(int)`. */
  datatype Conv = Ok(n: int) | Bad(e: PyError)

  function WordInt(w: string): Conv
  {
    match ParseInt(w)
    case None => Bad(ValueError)
    case Some(n) =>
      if -0x8000_0000_0000_0000 <= n < 0x8000_0000_0000_0000 then Ok(n) else Bad(OverflowError)
  }

  /** The whole array conversion: every word, or the first failure. */
  datatype Parsed = Ints(ns: seq<int>) | Failed(e: PyError)

  function ParseWords(words: seq<string>): (r: Parsed)
    ensures r.Ints? ==> |r.ns| == |words| && forall i :: 0 <= i < |words| ==> WordInt(words[i]) == Ok(r.ns[i])
    decreases |words|
  {
    if words == [] then Ints([])
    else
      match WordInt(words[0])
      case Bad(e) => Failed(e)
      case Ok(n) =>
        match ParseWords(words[1..])
        case Failed(e) => Failed(e)
        case Ints(ns) => Ints([n] + ns)
  }

  /** A failed conversion reports the first word that does not convert. */
  lemma {:induction false} ParseWordsFailed(words: seq<string>)
    requires ParseWords(words).Failed?
    ensures exists i :: 0 <= i < |words| && WordInt(words[i]) == Bad(ParseWords(words).e) &&
                        forall j :: 0 <= j < i ==> WordInt(words[j]).Ok?
    decreases |words|
  {
    if WordInt(words[0]).Ok? {
      ParseWordsFailed(words[1..]);
      var i :| 0 <= i < |words[1..]| && WordInt(words[1..][i]) == Bad(ParseWords(words[1..]).e) &&
               forall j :: 0 <= j < i ==> WordInt(words[1..][j]).Ok?;
      assert WordInt(words[i + 1]) == Bad(ParseWords(words).e);
      assert forall j :: 0 <= j < i + 1 ==> WordInt(words[j]).Ok? by {
        forall j | 0 <= j < i + 1
          ensures WordInt(words[j]).Ok?
        {
          if j > 0 {
            assert words[j] == words[1..][j - 1];
          }
        }
      }
    } else {
      assert WordInt(words[0]) == Bad(ParseWords(words).e);
    }
  }

  /** One sample: `(raw - 8388608) * 0.01`, NaN when the word's length is wrong. */
  function Sample(word: string, raw: int): Float
  {
    if |word| == WordLength then Num((raw - Midscale) as real * 0.01) else NaN
  }

  /** What a burst decodes to. */
  datatype Burst =
    | Data(times: seq<real>, field: seq<Float>)
    | NaNPair              // the current version's `return (np.nan, np.nan)`
    | Raised(e: PyError)

  /** The decode half of `read_data`, for a burst read between clock
      readings `start` and `stop`. */
  function Decode(v: Version, text: string, npts: int, start: real, stop: real): Burst
  {
    DecodeWords(v, DataWords(text), npts, start, stop)
  }

  function DecodeWords(v: Version, words: seq<string>, npts: int, start: real, stop: real): Burst
  {
    match ParseWords(words)
    case Failed(e) => if v == Current then NaNPair else Raised(e)
    case Ints(ns) =>
      if |words| < npts || npts < 0 then Raised(AssertionError)
      else if v == Current && npts == 0 then Raised(ZeroDivisionError)
      else
        Data(if v == Current then Spread(npts, start, stop) else Stepped(npts, start), Samples(words, ns, npts))
  }

  /** The samples of the first `npts` words. */
  function Samples(words: seq<string>, ns: seq<int>, npts: nat): (r: seq<Float>)
    requires npts <= |words| && npts <= |ns|
    ensures |r| == npts && forall i :: 0 <= i < npts ==> r[i] == Sample(words[i], ns[i])
  {
    seq(npts, i requires 0 <= i < npts => Sample(words[i], ns[i]))
  }

  /** The current version's times: `np.arange(npts) * dt + time_start`, `dt` the read's length over `npts`. */
  function Spread(npts: nat, start: real, stop: real): (r: seq<real>)
    requires npts > 0
    ensures |r| == npts
  {
    seq(npts, i requires 0 <= i < npts => i as real * ((stop - start) / npts as real) + start)
  }

  /** The older version's times: `np.arange(npts) / data_read_rate + time_start`. */
  function Stepped(npts: nat, start: real): (r: seq<real>)
    ensures |r| == npts
  {
    seq(npts, i requires 0 <= i < npts => i as real / Rate + start)
  }

  /** The mid-scale code reads as 0 pT. */
  lemma MidscaleIsZero(word: string)
    requires |word| == WordLength
    ensures Sample(word, Midscale) == Num(0.0)
  {
  }

  /** A decoded burst has exactly `npts` samples and times; it needs at
      least `npts` words, and the extra words are dropped. */
  lemma DecodeCount(v: Version, words: seq<string>, npts: int, start: real, stop: real)
    requires DecodeWords(v, words, npts, start, stop).Data?
    ensures var r := DecodeWords(v, words, npts, start, stop);
      |r.field| == npts && |r.times| == npts && |words| >= npts
  {
  }

  /** Sample `i` comes from word `i`: NaN exactly when that word's length
      is wrong, `(raw - 8388608) * 0.01` otherwise. */
  lemma DecodeSamples(v: Version, words: seq<string>, npts: int, start: real, stop: real, i: int)
    requires DecodeWords(v, words, npts, start, stop).Data? && 0 <= i < npts
    ensures var r := DecodeWords(v, words, npts, start, stop);
      i < |words| && WordInt(words[i]).Ok? &&
      (r.field[i].IsNaN() <==> |words[i]| != WordLength) &&
      (|words[i]| == WordLength ==> r.field[i] == Num((WordInt(words[i]).n - Midscale) as real * 0.01))
  {
    DecodedField(v, words, npts, start, stop);
    var ns := ParseWords(words).ns;
    var field := DecodeWords(v, words, npts, start, stop).field;
    assert WordInt(words[i]) == Ok(ns[i]);
    SampleOf(words[i], ns[i], field[i]);
  }

  /** A decoded burst's field is the samples of its first `npts` words. */
  lemma DecodedField(v: Version, words: seq<string>, npts: int, start: real, stop: real)
    requires DecodeWords(v, words, npts, start, stop).Data?
    ensures ParseWords(words).Ints? && 0 <= npts <= |words| &&
      DecodeWords(v, words, npts, start, stop).field == Samples(words, ParseWords(words).ns, npts)
  {
  }

  /** One decoded sample, from its word and that word's conversion. */
  lemma SampleOf(word: string, n: int, f: Float)
    requires WordInt(word) == Ok(n) && f == Sample(word, n)
    ensures (f.IsNaN() <==> |word| != WordLength) &&
      (|word| == WordLength ==> f == Num((WordInt(word).n - Midscale) as real * 0.01))
  {
  }

  /** Fewer words than asked for fails the length assertion. */
  lemma DecodeShort(v: Version, words: seq<string>, npts: int, start: real, stop: real)
    requires ParseWords(words).Ints? && |words| < npts
    ensures DecodeWords(v, words, npts, start, stop) == Raised(AssertionError)
  {
  }

  /** A word that is not an integer: the current version returns
      `(nan, nan)`, the older one raises. */
  lemma DecodeNonInteger(v: Version, words: seq<string>, npts: int, start: real, stop: real, i: int)
    requires 0 <= i < |words| && WordInt(words[i]).Bad?
    ensures v == Current ==> DecodeWords(v, words, npts, start, stop) == NaNPair
    ensures v == Legacy ==> DecodeWords(v, words, npts, start, stop).Raised?
  {
  }

  /** Timestamps: the older version steps by 1/200 s from the start of the
      read; the current one spreads the samples evenly over the read. */
  lemma DecodeTimes(v: Version, words: seq<string>, npts: int, start: real, stop: real, i: int)
    requires DecodeWords(v, words, npts, start, stop).Data? && 0 <= i < npts
    ensures var t := DecodeWords(v, words, npts, start, stop).times;
      (v == Legacy ==> t[i] == start + i as real / 200.0) &&
      (v == Current ==> t[i] == start + i as real * ((stop - start) / npts as real)) &&
      t[0] == start
  {
    if v == Current {
      SpreadAt(npts, start, stop, i);
      SpreadAt(npts, start, stop, 0);
    } else {
      SteppedAt(npts, start, i);
      SteppedAt(npts, start, 0);
    }
  }

  lemma SpreadAt(npts: nat, start: real, stop: real, i: nat)
    requires 0 <= i < npts
    ensures Spread(npts, start, stop)[i] == i as real * ((stop - start) / npts as real) + start
  {
  }

  lemma SteppedAt(npts: nat, start: real, i: nat)
    requires 0 <= i < npts
    ensures Stepped(npts, start)[i] == i as real / Rate + start
  {
  }
}
