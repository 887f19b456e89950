# QZFM driver model

A Dafny model of the text protocol of the Python driver for the QuSpin
QZFM zero-field magnetometer. It covers both versions of the driver
class `QZFM`: the current one in `src/QZFM/QZFM.py` and the older
top-level `QZFM.py`. One `Version` value (`Current` or `Legacy`) selects
the places where the two differ:

- the scale of the coil field readings;
- whether '-' is accepted in parameter payloads;
- how `read_data` stamps its samples;
- how `_set_read_axis` normalises its argument;
- how `set_gain` treats an unknown token;
- the stop rule of `field_zero`.

The serial port is a script of reads. Each read is a `Chunk`: the text
the port delivers and the clock readings just before and just after it.
Every byte the driver writes goes to a log, `tx`. Python exceptions are
values of `Errors.PyError`. A call that raises returns the state at the
point of the raise.

The modules follow the driver's pieces.

- `Text`: the Python string operations the driver uses (`s[:n]`, `s[n:]`,
  `replace(c, '')`, `split`, `join`, `strip`, `lower`, `isnumeric`,
  `int`, `float`) over `seq<char>`.
- `Framing`:
  - bounded-chunk framing (`_read_serial`; the word framing of
    `read_data`): drop the NULs, split, throw away the first and last piece;
  - continuous-carry framing (`read_offsets`): the last, partial piece of
    a read is put in front of the next read.
- `Dedup`: `update_status` keeps the newest line of each three-character
  prefix, newest first. `KeepLatest` is the loop itself, as a method.
- `Codes`: what one status line means. That is an LED, a parameter, a
  message, nothing, or an exception, from the version's payload check.
- `Status`: the classification loop and the way its dictionaries
  overwrite `led` and `sensor_par`:
  - LEDs not reported go off;
  - coil fields not reported keep their reading;
  - other parameters not reported become NaN.
- `Floats`: readings as reals extended with `inf` and `nan`.
- `Adc`: `read_data`'s decoding of one burst of 24-bit ADC words.
- `Offsets`: `read_offsets`' three per-axis buffers and counters.
- `Convergence`: the older `field_zero`'s four-threshold stop rule.
- `Commands`: the one-byte commands and the tokens that select them.
- `Device`: the whole driver object as a value. Every operation is a
  function from the old value to the new one and the exception raised.
- `Effects`: what each operation promises about the bytes it writes, the
  flags it sets and the values it stores.
- `Driver`: the class `Magnetometer`, whose fields the methods update in
  place. Each method is proved to leave the object in the state the
  `Device` function computes. `read_offsets` fills three arrays in place.

## Model

| member | source | states |
|---|---|---|
| Text.Take | src/QZFM/QZFM.py:1174 | `s[:n]` has length `min(max(n, 0), len(s))` and is a prefix of `s` |
| Text.Drop | src/QZFM/QZFM.py:1196 | `s[n:]` has length `len(s) - n` (or 0), and `s[:n]` followed by it is `s` |
| Text.RemoveMembers | src/QZFM/QZFM.py:156 | `replace(c, '')` keeps exactly the characters other than `c` |
| Text.RemoveAppend | src/QZFM/QZFM.py:912-913 | `replace(c, '')` of a concatenation is the concatenation of the replaced parts |
| Text.StripStart | src/QZFM/QZFM.py:1022 | what `lstrip` returns does not start with white space and is no longer than the text |
| Text.StripEnd | src/QZFM/QZFM.py:1022 | what `rstrip` returns does not end with white space and is no longer than the text |
| Text.StripStartSuffix | src/QZFM/QZFM.py:833 | what `lstrip` keeps is a suffix of the text |
| Text.StripEndPrefix | src/QZFM/QZFM.py:833 | what `rstrip` keeps is a prefix of the text |
| Text.Lower | src/QZFM/QZFM.py:204 | `lower()` keeps the length and lower-cases each character in place |
| Text.Split | src/QZFM/QZFM.py:157 | `split(sep)` always gives at least one piece |
| Text.SplitJoin | src/QZFM/QZFM.py:157 | joining the pieces of `split(sep)` with `sep` gives back the text |
| Text.SplitPiecesFree | src/QZFM/QZFM.py:919 | no piece of a split on one character holds that character |
| Text.SplitWithout | src/QZFM/QZFM.py:919 | a text without the separator splits into itself alone |
| Text.SplitAppend | src/QZFM/QZFM.py:916-919 | splitting `a + b` glues the last piece of `a` to the first piece of `b`; the other pieces stay as they are |
| Text.Interior | src/QZFM/QZFM.py:157 | `pieces[1:-1]` is empty for fewer than three pieces; otherwise it is every piece but the first and the last, in order |
| Framing.StatusLinesRebuild | src/QZFM/QZFM.py:155-157 | the status lines, put back between the two dropped fragments with "\r\n", give back the NUL-free text: nothing is reordered and nothing else is lost |
| Framing.StatusLinesComplete | QZFM.py:132-134 | no status line holds a "\r\n" or a NUL |
| Framing.DataWordsClean | src/QZFM/QZFM.py:829-833 | no data word holds a '\n', '\r', '!' or NUL |
| Framing.OffsetTextAppend | src/QZFM/QZFM.py:911-913 | the per-read cleaning of `read_offsets` distributes over concatenation |
| Framing.PrependLeftover | src/QZFM/QZFM.py:916-919 | a break-free leftover put in front of a read sticks to the read's first piece |
| Framing.CarryPieces | src/QZFM/QZFM.py:916-939 | one read delivers all pieces but the last; the last is carried and holds no line break |
| Framing.CarryAllIsSplit | src/QZFM/QZFM.py:903-939 | over any number of reads, the delivered lines followed by the final leftover are exactly the pieces of the whole cleaned stream |
| Framing.CarryIgnoresReadBoundaries | src/QZFM/QZFM.py:911-939 | under continuous-carry framing (the loop once a sample is counted), how the stream is cut into reads changes neither the delivered lines nor the final leftover |
| Dedup.KeepLatest | src/QZFM/QZFM.py:1171-1176 | the `codes`/`codes_uniq` loop over `message[::-1]` returns `Latest(lines)` |
| Dedup.LatestMembers | src/QZFM/QZFM.py:1171-1176 | a line is kept iff no later line has its three-character prefix |
| Dedup.LatestCovers | src/QZFM/QZFM.py:1171-1176 | every prefix that occurs has a kept line |
| Dedup.LatestDistinct | src/QZFM/QZFM.py:1171-1176 | no two kept lines share a prefix |
| Dedup.LatestOrder | QZFM.py:719-725 | of two kept lines, the one that arrived later comes first |
| Dedup.LatestFromMembers | src/QZFM/QZFM.py:1173-1176 | the same membership rule for the lines from position `k` on |
| Dedup.LatestFromDistinct | src/QZFM/QZFM.py:1173-1176 | the same distinctness for the lines from position `k` on |
| Dedup.LatestFromOrder | src/QZFM/QZFM.py:1173-1176 | the same newest-first order for the lines from position `k` on |
| Dedup.HasLatest | src/QZFM/QZFM.py:1173-1176 | every line has a latest line with its prefix at or after it |
| Codes.ParamOf | src/QZFM/QZFM.py:1197-1201 | keys "04", "05", "07", "08", "09" name their parameters, and only those keys name one |
| Codes.Validated | src/QZFM/QZFM.py:1196 | the checked payload keeps every character but '.' and also drops '-' in the current version only |
| Codes.Classify | src/QZFM/QZFM.py:1181-1205 | an LED code comes from a line of a bar, the LED's digit and a value character, and is on iff the value is '1'; a parameter from a "~kk" line whose payload passes the check; a message from a '#' line, minus the '#' |
| Codes.AcceptedParam | src/QZFM/QZFM.py:1196-1201 | a "~kk" line whose payload passes the check is read by that parameter's conversion |
| Codes.AcceptedField | QZFM.py:745-750 | a field line that passes the check and parses as `x` reads `(x - 32768) * 0.01` in the older version, `x - 32768` in the current one |
| Codes.FieldLine | src/QZFM/QZFM.py:1199-1201 | a field line with a digits-only payload gives that field the version's scaled value in both versions |
| Codes.TempErrorLine | src/QZFM/QZFM.py:1197 | "~04x" reads as `(x - 8388608) / 524288` |
| Codes.DigitsParse | src/QZFM/QZFM.py:1197-1198 | `float` and `int` of a digits-only text are its digit value |
| Codes.NegativeParse | src/QZFM/QZFM.py:1199 | `float` of '-' followed by digits is the negated digit value |
| Codes.CurrentFieldExample | src/QZFM/QZFM.py:1199 | "~0732768" is Bz = 0 pT |
| Codes.LegacyFieldExample | QZFM.py:748 | "~0732868" is Bz = 1.0 pT |
| Codes.LegacyRejectsMinus | QZFM.py:745 | the older version ignores every '~' line whose payload holds a '-' |
| Codes.CurrentAcceptsMinus | src/QZFM/QZFM.py:1196-1201 | the current version reads "~kk-n" as the field `-n - 32768` |
| Codes.ValidatedNegative | src/QZFM/QZFM.py:1196 | the current digit check sees the digits after a leading '-' |
| Status.Classified | src/QZFM/QZFM.py:1181 | each kept line is classified on its own, in order |
| Status.NewLeds | src/QZFM/QZFM.py:1208-1209 | LED `k` is `led.get(k, False)` |
| Status.NewPars | src/QZFM/QZFM.py:1211-1215 | a field parameter is `sp.get(k, old)`, any other `sp.get(k, nan)` |
| Status.InterpretStep | src/QZFM/QZFM.py:1181-1205 | one more line either raises, keeping the dictionaries, or adds its effect |
| Status.FaultSticks | src/QZFM/QZFM.py:1181-1192 | once a line has raised, the lines after it are never looked at |
| Status.InterpretLeds | src/QZFM/QZFM.py:1186-1192 | after the loop, LED `k` is in `led` iff some line set it, with the value of the last line that did |
| Status.InterpretPars | src/QZFM/QZFM.py:1195-1201 | after the loop, parameter `p` is in `sp` iff some line set it, with the value of the last line that did |
| Status.ParsSet | src/QZFM/QZFM.py:1195-1201 | parameter `p` is in `sp` after the loop iff some line set it |
| Status.ParsLast | src/QZFM/QZFM.py:1195-1201 | after the loop, `sp[p]` is the value of the last line that set `p` |
| Status.LedRule | src/QZFM/QZFM.py:1187-1209 | after an update LED `k` is on iff the last kept line naming it says '1'; an LED no kept line names is off whatever it was |
| Status.ParReported | src/QZFM/QZFM.py:1195-1213 | a parameter a kept line reports takes that line's value, since kept prefixes are distinct |
| Status.ParAbsent | QZFM.py:760-764 | a parameter no kept line reports: a coil field keeps its old reading, the others become NaN |
| Status.FaultKeepsState | src/QZFM/QZFM.py:1187-1192 | a bar line too short to index raises IndexError before the LEDs and parameters are touched, so they stay as they were |
| Status.SkipChangesNothing | src/QZFM/QZFM.py:1184-1196 | an empty, unknown or rejected line has no effect |
| Status.StaleLedWins | src/QZFM/QZFM.py:1173-1188 | the LED reports "bar 1 1" then a newer "bar 1 0" are both kept (their prefixes differ); the older one is applied last, so the laser LED ends up on |
| Status.MessagesDeduplicated | src/QZFM/QZFM.py:1173-1205 | of "#ab1" and a newer "#ab2" only "ab2" is recorded |
| Floats.Sub | QZFM.py:341-342 | `a - b` is NaN iff an operand is NaN or both are the same infinity, and is exact on numbers |
| Floats.Abs | QZFM.py:341-342 | `abs` is NaN exactly on NaN, never -inf, and non-negative on numbers |
| Adc.SampleCount | src/QZFM/QZFM.py:804 | `int(seconds * 200)` truncates towards zero |
| Adc.ParseWords | src/QZFM/QZFM.py:840 | a successful `astype(int)` converts every word, in place |
| Adc.ParseWordsFailed | src/QZFM/QZFM.py:839-842 | a failed conversion reports the error of the first word that does not convert |
| Adc.Samples | src/QZFM/QZFM.py:844-858 | sample `i` comes from word `i` |
| Adc.MidscaleIsZero | src/QZFM/QZFM.py:844 | the code 8388608 reads as 0 pT |
| Adc.DecodeCount | src/QZFM/QZFM.py:847-851 | a decoded burst has exactly `npts` samples and times, and needs at least `npts` words |
| Adc.DecodeSamples | src/QZFM/QZFM.py:836-858 | sample `i` is NaN iff word `i` is not 7 characters long, and `(raw - 8388608) * 0.01` otherwise |
| Adc.DecodeShort | QZFM.py:618 | fewer than `npts` words fails the length assertion |
| Adc.DecodeNonInteger | src/QZFM/QZFM.py:839-842 | a word that is not an integer makes the current version return `(nan, nan)` and the older one raise |
| Adc.DecodeTimes | src/QZFM/QZFM.py:853-855 | times start at the read's start; the older version steps by 1/200 s (QZFM.py:621), the current one by the read's length over `npts` |
| Adc.Spread | src/QZFM/QZFM.py:854-855 | the current version gives one time per sample |
| Adc.Stepped | QZFM.py:621 | the older version gives one time per sample |
| Offsets.OffsetCode | src/QZFM/QZFM.py:925-936 | a stored reading comes from a "~07", "~08" or "~09" line, and its axis is the key's |
| Offsets.Zeros | src/QZFM/QZFM.py:886-888 | `np.zeros(n)` is `n` zeros |
| Offsets.Start | src/QZFM/QZFM.py:885-891 | the state before the loop: counters 0, no stream, counters within the buffers |
| Offsets.ScanStep | src/QZFM/QZFM.py:925 | one more line of the inner loop, while no line has raised |
| Offsets.ScanStopsAtError | src/QZFM/QZFM.py:925-926 | once a line raises, the lines after it are never looked at |
| Offsets.StoreEffect | src/QZFM/QZFM.py:929-936 | storing writes the slot at the counter, bumps that counter, and leaves the buffers' lengths and the other axes alone |
| Offsets.ScanAppends | src/QZFM/QZFM.py:925-936 | the inner loop appends exactly each axis's accepted values, in order, after what was there, and touches no slot past the counter |
| Offsets.RoundIsCarry | src/QZFM/QZFM.py:915-939 | once a sample is counted, a round scans the complete lines of the carried stream plus this read and carries the last piece |
| Offsets.RoundDropsFirst | src/QZFM/QZFM.py:921-922 | while no sample is counted, the first piece of every read is dropped as well |
| Offsets.RoundWithoutBreak | src/QZFM/QZFM.py:919-939 | before any sample, a read with no line break leaves no piece, and `codes[-1]` raises IndexError |
| Offsets.ReadingsAppend | src/QZFM/QZFM.py:925-936 | the accepted values of two runs of lines are those of the first, then those of the second |
| Offsets.RoundReadings | src/QZFM/QZFM.py:905-939 | one round appends to each axis's filled prefix exactly the values of the lines it scans, carries the last piece, and lowers no counter |
| Offsets.RunReadings | src/QZFM/QZFM.py:903-939 | over a finished run, each axis's filled prefix grows by exactly the values of all lines scanned in all rounds, in order |
| Offsets.RunFromStart | src/QZFM/QZFM.py:885-939 | from the start state, a finished run's filled prefix of each axis is exactly the accepted values of all lines scanned |
| Offsets.RunIsCarryAll | src/QZFM/QZFM.py:905-939 | once a sample is counted, the rest of a finished run scans exactly the lines continuous-carry framing gives for the reads it used, and ends holding its leftover |
| Offsets.CutMatters | src/QZFM/QZFM.py:921-922 | before the first sample, the same bytes cut into reads differently frame to the same lines, yet one cut finishes a one-point run and the other loses the reading and waits for more input |
| Offsets.OffsetExample | src/QZFM/QZFM.py:925-936 | "~091" is an x reading of `1 - 32768` |
| Offsets.RoundKeepsShape | src/QZFM/QZFM.py:903-939 | a round keeps the counters within the buffers and the buffers' lengths |
| Offsets.RunStops | src/QZFM/QZFM.py:903 | a finished loop has a counter at `npts` or more: the loop stops as soon as any axis is full |
| Offsets.RunKeepsZeros | src/QZFM/QZFM.py:886-936 | the loop keeps each buffer's slots past its counter at 0 |
| Offsets.MakeTable | src/QZFM/QZFM.py:945-950 | the table has `npts` rows, timed `i / 200` s after the start |
| Offsets.FinishedTable | src/QZFM/QZFM.py:886-947 | from the start state, a finished loop leaves buffers of `2 * npts` whose slots between the counter and `npts` are 0 |
| Convergence.DisabledNeverLoops | QZFM.py:341-342 | with every threshold at +inf the loop body never runs |
| Convergence.StopsWhenWithin | QZFM.py:341-342 | with finite values the loop ends iff all four steps are within their thresholds |
| Convergence.FirstPollRuns | QZFM.py:326-328 | the "last" readings start at +inf, so a finite field threshold with a numeric reading forces one poll |
| Convergence.NaNDoesNotHold | QZFM.py:341-342 | NaN readings never keep the loop going |
| Convergence.FiniteGuard | QZFM.py:368-369 | the default thresholds skip the switch-off; any numeric threshold triggers it |
| Commands.ReadAxisRoundTrip | src/QZFM/QZFM.py:206-210 | x, y, z and the bytes G, @, ? determine each other |
| Commands.AxisModeRoundTrip | src/QZFM/QZFM.py:1023-1028 | z, y, dual and the bytes C, F, B determine each other |
| Commands.GainRoundTrip | QZFM.py:650-660 | 0.33x, 1x, 3x and the bytes a, `, b determine each other |
| Commands.CommandBytesDistinct | src/QZFM/QZFM.py:185-1056 | the nine fixed command bytes are distinct, and no token-selected byte is one of them |
| Commands.TokenExample | src/QZFM/QZFM.py:1022 | `" Dual\n".lower().strip()` is "dual" |
| Device.Read | src/QZFM/QZFM.py:152 | `ser.read(n)` delivers at most `n` characters and changes only the port and the clock |
| Device.Notes | src/QZFM/QZFM.py:128 | the message list has at most one entry per line, all stamped with the read's time, and is empty iff no line starts with '#' |
| Device.Marks | src/QZFM/QZFM.py:128 | the positions of exactly the lines that start with '#', in increasing order |
| Device.NotesMarked | src/QZFM/QZFM.py:128 | the messages are, in order, the '#' lines without their first character, one for each, stamped with the read's time |
| Device.WaitMessage | src/QZFM/QZFM.py:119-134 | the wait changes only the port, the clock and the messages, only appends messages, and consumes reads |
| Device.WaitCaptures | src/QZFM/QZFM.py:122-134 | after reads with no message within the timeout, the wait ends at the first read that has a '#' line or is past the timeout; it appends that read's messages, stamped with its time, or nothing if the timeout has passed |
| Device.WaitBreaks | src/QZFM/QZFM.py:122-128 | after such reads, a read holding an empty line raises IndexError at `m[0]` and appends nothing |
| Device.WaitRunsOut | src/QZFM/QZFM.py:122-134 | a script of reads with no message within the timeout ends the wait without error, every read consumed and nothing appended |
| Device.GetNextMessage | src/QZFM/QZFM.py:104-134 | `_get_next_message` changes only the port, the clock and the messages, and only appends messages; it is the wait from the first read's start, whose cases `Device.WaitCaptures`, `Device.WaitBreaks` and `Device.WaitRunsOut` state |
| Device.Stamp | src/QZFM/QZFM.py:1205 | every message is stamped with the update's time |
| Device.UpdateStatus | src/QZFM/QZFM.py:1149-1215 | `update_status` writes '8' iff the stream was on, sets the update time, only appends messages and changes nothing outside the port, LEDs, parameters and messages |
| Device.Polls | src/QZFM/QZFM.py:426-438 | polling from a stopped stream writes nothing and changes no flag |
| Device.ZeroLoop | QZFM.py:341-354 | the same for the older zeroing loop |
| Device.OffsetLoop | src/QZFM/QZFM.py:903-939 | a finished loop has some counter at `npts` and keeps the counters within the buffers of unchanged length |
| Device.Conclude | src/QZFM/QZFM.py:944-958 | `data_fz` is set to the returned table, and only on success |
| Effects.StatusLed | src/QZFM/QZFM.py:1149-1209 | after `update_status`, LED `k` is on iff the last kept line of the chunk read that names it says '1'; unnamed LEDs are off |
| Effects.StatusParAbsent | src/QZFM/QZFM.py:1211-1215 | an unreported coil field keeps its reading; another unreported parameter becomes NaN |
| Effects.StatusParReported | src/QZFM/QZFM.py:1195-1213 | a reported parameter takes the value of the kept line reporting it |
| Effects.StatusFault | src/QZFM/QZFM.py:1166-1192 | a line that raises leaves LEDs and parameters as they were but the update time set |
| Effects.CalibrateRefuses | QZFM.py:211-215 | with zeroing neither recorded nor shown by LED4, `calibrate` raises RuntimeError, writes only the '8' of a running stream, never '9', and leaves `is_calibrated` as it was |
| Effects.CalibrateStarts | src/QZFM/QZFM.py:296-304 | otherwise it writes '9' (after the '8' of the re-read, if any) and sets `is_calibrated` |
| Effects.AxisModeEffect | QZFM.py:550-561 | an unknown mode raises before writing; z, y, dual write C, F, B, record the mode and clear calibration and zeroing |
| Effects.GainEffect | QZFM.py:649-660 | 0.33x, 1x, 3x write a, `, b and set the gain 0.9, 2.7, 8.1; any other token writes nothing and keeps the gain (the current version then raises NameError) |
| Effects.ReadAxisEffect | src/QZFM/QZFM.py:199-212 | an unknown axis raises before writing; x, y, z write G, @, ? and record the axis |
| Effects.FieldResetEffect | src/QZFM/QZFM.py:365-375 | 'V' goes out, the three coil readings are 0, calibration and zeroing are cleared |
| Effects.RebootEffect | src/QZFM/QZFM.py:960-964 | the byte log grows by exactly 'e' and then the '8' of a running stream, and the attributes are back at their defaults (`_reset_attributes`, 161-174) |
| Effects.SwitchEffect | src/QZFM/QZFM.py:388-406 | `field_zero` clears `is_calibrated`, writes 'i' or 'h' and sets `is_xyz_zeroing` to match, then 'D' clearing or 'E' setting `is_field_zeroed` |
| Effects.LegacyZeroBytes | QZFM.py:304-371 | the older `field_zero(on=True)` writes the axes byte, 'D', '8' if streaming, then "iE" exactly when some threshold is finite |
| Effects.LegacyDefaultsNeverStop | QZFM.py:368-369 | with the default thresholds no 'E' is ever written |
| Effects.CurrentZeroBytes | src/QZFM/QZFM.py:389-452 | the current `field_zero(on=True)` writes the axes byte, 'D', '8' if streaming, then "iE" (the interrupt's switch-off) exactly when `show` is set |
| Effects.ReadDataOneChunk | src/QZFM/QZFM.py:817-862 | with the axis selected and the stream on, `read_data` decodes one read of at most `10 * (npts + 2)` characters and saves the burst |
| Effects.ReadDataSaves | QZFM.py:610-630 | a decoded burst of exactly `npts` samples is saved as `time` and `field` |
| Effects.Texts | src/QZFM/QZFM.py:908 | the texts the loop of `read_offsets` receives, one per read |
| Effects.LoopIsRun | src/QZFM/QZFM.py:903-942 | the loop on the port finishes, fails or starves exactly as `Run` on the texts it reads, using the same number of reads |
| Effects.OffsetsTable | src/QZFM/QZFM.py:880-958 | a finished `read_offsets`, streaming or not at the call, saves and returns `npts` rows timed `i / 200` s from the first read; each of the x, y and z columns is its buffer's first `npts` slots, zero after that axis's own readings |
| Driver.Magnetometer.constructor | src/QZFM/QZFM.py:68-98 | a new object has no data, LEDs off, parameters NaN, no messages and the default attributes |
| Driver.Magnetometer.Write | src/QZFM/QZFM.py:185 | the byte log grows by the bytes written |
| Driver.Magnetometer.Receive | src/QZFM/QZFM.py:152 | `ser.read(n)` as `Device.Read` |
| Driver.Magnetometer.ReadSerial | src/QZFM/QZFM.py:136-159 | `_read_serial` returns the status lines of one read |
| Driver.Magnetometer.ResetAttributes | src/QZFM/QZFM.py:161-174 | `_reset_attributes` sets the defaults |
| Driver.Magnetometer.SetAttributes | QZFM.py:138-153 | the seven reset attributes are assigned, nothing else changes |
| Driver.Magnetometer.GetNextMessage | src/QZFM/QZFM.py:104-134 | the `while len(mess) == 0` loop leaves the state `Device.GetNextMessage` computes |
| Driver.Magnetometer.SetDataStream | src/QZFM/QZFM.py:176-190 | '7' then a message wait and streaming on, or '8' and streaming off |
| Driver.Magnetometer.Fold | src/QZFM/QZFM.py:1170-1215 | the de-duplication and classification loops, then the dictionary resets, leave `Status.Apply`'s LEDs, parameters and messages |
| Driver.Magnetometer.UpdateStatus | src/QZFM/QZFM.py:1149-1215 | `update_status` leaves the state `Device.UpdateStatus` computes |
| Driver.Magnetometer.FieldZeroed | src/QZFM/QZFM.py:1233-1235 | a status update, then LED4 |
| Driver.Magnetometer.SetReadAxis | src/QZFM/QZFM.py:192-213 | `_set_read_axis` as `Device.SetReadAxis` |
| Driver.Magnetometer.SetAxisMode | src/QZFM/QZFM.py:1013-1033 | `set_axis_mode` as `Device.SetAxisMode` |
| Driver.Magnetometer.SetGain | src/QZFM/QZFM.py:1035-1067 | `set_gain` as `Device.SetGain` |
| Driver.Magnetometer.FieldReset | src/QZFM/QZFM.py:365-375 | `field_reset` as `Device.FieldReset` |
| Driver.Magnetometer.Calibrate | src/QZFM/QZFM.py:288-307 | `calibrate` as `Device.Calibrate` |
| Driver.Magnetometer.Reboot | src/QZFM/QZFM.py:960-964 | `reboot` as `Device.Reboot` |
| Driver.Magnetometer.ZeroSwitch | src/QZFM/QZFM.py:388-406 | the switching part of `field_zero` as `Device.ZeroSwitch` |
| Driver.Magnetometer.Monitor | src/QZFM/QZFM.py:425-438 | the `while show:` polling loop as `Device.Polls` |
| Driver.Magnetometer.FieldZero | src/QZFM/QZFM.py:377-452 | the current `field_zero` as `Device.FieldZero` |
| Driver.Magnetometer.ZeroingLoop | QZFM.py:340-354 | the older threshold loop as `Device.ZeroLoop` |
| Driver.Magnetometer.LegacyFieldZero | QZFM.py:283-371 | the older `field_zero` as `Device.LegacyFieldZero` |
| Driver.Magnetometer.ReadData | QZFM.py:563-630 | `read_data(npts, axis)` as `Device.ReadData` |
| Driver.Magnetometer.ReadSeconds | src/QZFM/QZFM.py:786-864 | `read_data(seconds, axis)` reads `int(seconds * 200)` samples as `Device.ReadData` |
| Driver.Magnetometer.OffsetRound | src/QZFM/QZFM.py:905-939 | one pass of the outer loop over the arrays is `Offsets.Round` |
| Driver.Magnetometer.OffsetRounds | src/QZFM/QZFM.py:903-942 | the outer loop over the arrays ends as `Device.OffsetLoop` |
| Driver.Magnetometer.ReadOffsets | src/QZFM/QZFM.py:866-958 | `read_offsets` as `Device.ReadOffsets` |
| Driver.Magnetometer.CollectOffsets | src/QZFM/QZFM.py:884-958 | from the allocation of the buffers on, as `Device.CollectOffsets` |
| Driver.Magnetometer.SaveTable | src/QZFM/QZFM.py:953 | `self.data_fz = table` changes nothing else |
| Driver.Place | src/QZFM/QZFM.py:926-936 | one line of the inner loop over the arrays is `Offsets.Put` |
| Driver.Demultiplex | src/QZFM/QZFM.py:925-936 | the inner loop over the arrays is `Offsets.ScanCodes` |

## Left out

- Port discovery and the connection (`connect`, `disconnect`, the pyserial settings) are not modelled. The port is a script of reads and a log of written bytes.
- `reset_input_buffer` is not modelled. The next scripted read stands for the first read after the clear.
- UTF-8 decoding is not modelled: a read delivers characters. A decoding error is not covered.
- Wall-clock time is not modelled. Each read carries the clock readings around it, and `time()` before a read is that read's start reading.
- Device.WaitMessage: a used-up script ends the wait as a timeout would.
- KeyboardInterrupt is not modelled as an exception. The user's interrupt is a count of polls (`interruptAfter`), checked at the loop's boundary, never in the middle of a status update.
- Device.OffsetLoop: with the script used up, the source would block or spin for ever; the model stops there with `Silent`.
- IEEE floating point is not modelled. Readings are exact reals plus +inf, -inf and NaN, so rounding in `(raw - 8388608) * 0.01`, in the divisions and in `float()` is not captured.
- Text.ParseDecimal, Text.ParseInt: `float()` and `int()` are modelled for signs, digits and one '.'. Exponents, underscores, "inf"/"nan" and non-ASCII digits are left out; the model treats them as parse failures.
- Text.IsNumeric: `str.isnumeric()` is modelled on the ASCII digits only.
- Text.Lower: `str.lower()` is modelled on the ASCII letters only.
- Device.SetGain, Driver.Magnetometer.SetGain, Effects.GainEffect: the current version's "0.1x" branch (src/QZFM/QZFM.py:1059-1061) passes an int to `ser.write`, so its effect depends on pyserial. These members require a token other than "0.1x" in the current version.
- Printing is not modelled: `print_messages`, `print_status`, `print_state` and the diagnostic lines of `field_zero`. So `show` only matters where it controls a loop (the current `field_zero`) or a call to `print_messages`.
- The tqdm progress bar of `read_offsets` is not modelled.
- The pandas `DataFrame` is modelled as a `Table` of times and three columns. Column renaming is not modelled.
- Plotting and monitoring are not modelled: `draw_data`, `monitor_data`, `monitor_status`, `monitor_cell_T_error`.
- Export is not modelled: `to_csv`, `to_csv_fz`, `save_state` (file I/O and YAML).
- `auto_start` is not modelled. It only orchestrates the modelled operations around a stability loop.
- `src/QZFM/LabJack.py` is not part of this model. It is a wrapper around the LabJack vendor library.
- The `laser_on`, `cell_Tlock`, `laser_locked` and `is_master` properties are left out. They follow the pattern of `field_zeroed`, which is modelled as `Driver.Magnetometer.FieldZeroed`. (`is_master` reads the key `'is_master'`, while the dictionary's key is `'is master'`.)
- Adc.WordInt: numpy's `astype(int)` is modelled as Python `int()` on each word, raising OverflowError outside the 64-bit range. numpy's own string-to-integer rules are not modelled where they differ from Python's.

Where the source and its description differ, the model follows the source:
- Messages are de-duplicated by prefix too.
- A newer LED report can lose to an older one with a different value character (`Status.StaleLedWins`).
- The older `field_zero` with the default thresholds never enters its loop.
- `read_offsets` stops as soon as any axis is full, and pads the others with zeros.
- `read_offsets` drops the first piece of every read until a sample is counted, not only of the first read.
- So before the first sample, how the stream is cut into reads matters: the same bytes cut differently can lose a reading (`Offsets.CutMatters`). Continuous-carry framing is independent of the cut (`Framing.CarryIgnoresReadBoundaries`); the loop frames that way only after the first sample (`Offsets.RunIsCarryAll`).
- Before any sample, a first read without a line break leaves `codes` empty, and `codes[-1]` raises IndexError (`Offsets.RoundWithoutBreak`).
