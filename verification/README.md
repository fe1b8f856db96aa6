# Iwatsu DS-8812 oscilloscope front end: the instrument protocol engine in Dafny

This project models the part of `logic.py` that talks to the oscilloscope over
the serial line: the class `Main` minus its Qt window and its plots.

- **Frame reader** (`readlineCR`). It cuts the instrument's byte stream into
  frames:
  - the in-band acknowledgment byte 0x06 ends a frame at once, as `'ack'`;
  - otherwise a line ends at its line feed, which it keeps.
- **Command channel** (`check_serial_port`, `_sendCommand`).
  - The port is opened lazily.
  - A command goes out as `cmd + "\r\n"`, and the acknowledgment is read.
  - For a query (a command ending in `?`), the reply line is read too and
    returned with CR and LF stripped from both ends.
- **Waveform and measurement exchanges** (`acquireWave`, `measure`). These
  are the fixed three-command sequences. `acquireWave` also decodes the
  comma-separated counts into volts (count / 10000).
- **Acquisition run** (`Acquire`). It covers:
  - the memory length, the number of points and the sample interval;
  - a block for each enabled channel: low-pass filter, waveform, twelve
    measurements;
  - the SKEW pair when both channels are enabled.
- **Front-panel handlers** (`aset`, `ch_toggled`, `ch_coupling_changed`,
  `persist_toggled`, `equiv_toggled`).

The modules:

- `Wrappers`: `Option` and `Result`.
- `Text`: `str.find` on one character and `str.strip(chars)`.
- `Numbers`: `str()` of integers and the decimal subset of `float()`, with
  exact `real` values.
- `Frames`: `readlineCR` as a function on the byte stream.
- `Commands`: the command strings.
- `Waveform`: `split`/`join` and the waveform decode.
- `Protocol`: the link state and `_sendCommand` as a function, `Send`;
  `SendAll` sends a list of commands.
- `Acquisition`: `measure`, `acquireWave` and `Acquire` as functions on the
  link and the oscilloscope state, and the lists of commands a run issues
  (`Plan`).
- `Scenarios`: exchanges with a well-behaved instrument, worked out byte by
  byte.
- `Session`: class `ScopeSession`, the object itself.
  - Its fields are the link (`inbuf`, `written`, `portOpen`, `opens`, `hung`)
    and `points`, `interval`, `ch1Wave`, `ch2Wave`.
  - Its methods update those fields in place. `ReadlineCR` reads one byte per
    loop iteration.
  - Each method is proved equal to its specifying function, so the lemmas
    about the functions hold of the object.

**Inputs and environment.**

- **Instrument bytes.** Everything the instrument sends is the input sequence
  `inbuf`. Bytes are consumed from the front.
- **Port availability.** Whether the port chosen in the combo box can be
  opened is a fixed parameter (`portAvailable`, `available`).
- **Widget reads** become parameters:
  - `Settings`: the channel, long-memory and low-pass check boxes;
  - the coupling texts.
- **Widget writes** become results. `Report` holds the status bar's final
  state and what each measurement box displays.
- **Reads that never return.** The source's `serial.read()` returns `''` on
  timeout, and `readlineCR` then loops forever. The model treats the end of
  the input as that situation:
  - the read yields no frame, and the link is marked `hung`;
  - every later command is a no-op that yields `TimedOut`;
  - `Acquire` reports `Halted(Stalled)` at the first point where the source
    would be waiting forever.
- **Exceptions escaping `Acquire`** are `Halted(...)` statuses, and the state
  assigned before the raise is kept:
  - `float(None)` on a missing TDIV? reply is `TdivMissing`;
  - `float()` of text that is not a number is `TdivMalformed`;
  - `np.arange` with a zero step is `ZeroInterval`;
  - `None.split` on a missing DTWAVE? reply is `WaveMissing(ch)`;
  - `float()` of a bad waveform field is `WaveMalformed(ch)`.
- **Nacks that do not abort.** A nacked action does not stop a run, and a
  nacked `MSRA?` simply displays `None`, as in the source.

## Model

| member | source | states |
|---|---|---|
| Frames.FirstStop | logic.py:83-91 | the index where the first frame ends: no ack or line feed before it, and one at it unless the stream has none |
| Frames.ReadFromFirstStop | logic.py:83-91 | the byte loop computes, at once: no frame when no stop byte is left; the ack when the first stop is 0x06, with the bytes gathered before it discarded; otherwise the gathered text followed by every byte up to and including the line feed, with everything after it unread |
| Frames.ReadFrameConsumes | logic.py:83-91 | reading only consumes from the front, at least one byte when it yields a frame, and everything when it yields none |
| Frames.NoFrameIffNoStop | logic.py:85-91 | no frame is read exactly when the stream holds no ack and no line feed |
| Frames.AckEndsFrame | logic.py:86-88 | 0x06 after non-stop bytes yields the ack; the bytes before it are discarded and nothing after it is consumed |
| Frames.LineEndsFrame | logic.py:89-91 | without an ack, the frame is the bytes up to and including the first line feed, and nothing after it is consumed |
| Frames.LineShape | logic.py:83-91 | a line frame ends with its only line feed, holds no 0x06, is never the literal 'ack', and together with the unread rest it is the whole stream |
| Text.IndexOf | logic.py:116 | the first occurrence of the character, or the length when it does not occur |
| Text.Strip | logic.py:109 | `strip(chars)`: the result neither starts nor ends with a stripped character |
| Text.StripSlice | logic.py:109 | strip keeps one contiguous slice; everything cut before and after it is a stripped character |
| Text.StripClean | logic.py:109 | text that neither starts nor ends with a stripped character is unchanged, so 'ack' stays 'ack' |
| Text.StripIdempotent | logic.py:109 | stripping twice is stripping once |
| Numbers.NatToString | logic.py:140 | `str()` of a natural number: nonempty decimal digits with no leading zero except for zero |
| Numbers.NatToStringValue | logic.py:140 | the digits `str()` prints read back as the number |
| Numbers.IntToString | logic.py:116 | `str()` of an integer: an optional minus sign, then digits, ending with a digit |
| Numbers.ParseIntToString | logic.py:116 | `float(str(i))` is `i` for every integer |
| Numbers.NoDigitNoNumber | logic.py:116 | text with no digit (the empty field, for one) is not a number: `float()` raises |
| Numbers.PlainFraction | logic.py:142 | text `w.f`, optionally after a minus sign, reads as the decimal whose digits are those of `w` then `f` and whose exponent is minus the number of fraction digits |
| Numbers.ScaledFraction | logic.py:142 | text `w.fEv` reads as the digits of `w` then `f`, with the exponent `v` less the number of fraction digits, negated after a minus sign |
| Numbers.ParseFraction | logic.py:142 | `float()` of `w.f` is the value of the decimal PlainFraction reads |
| Numbers.ParseScaledFraction | logic.py:142 | `float()` of `w.fEv` is the value of the decimal ScaledFraction reads |
| Numbers.FractionValue | logic.py:142 | the value of that decimal is the integer part plus the fraction digits over their power of ten, with the sign |
| Numbers.ParseOnePointZero | logic.py:142 | `float('1.0')` is 1 |
| Numbers.ParseThreePointFive | logic.py:142 | `float('3.5')` is 3.5 |
| Numbers.ParseScaledExample | logic.py:142 | `float('2.5E-3')` is 0.0025 |
| Waveform.Split | logic.py:116 | `split(',')`: at least one piece, no piece holds a comma, and joining the pieces with commas gives the reply back |
| Waveform.SplitJoin | logic.py:116 | splitting a comma join of comma-free pieces gives the pieces back |
| Waveform.DecodeFields | logic.py:116 | the decode succeeds exactly when every field is a number, and then gives one sample per field, in order, each field / 10000 |
| Waveform.DecodeEncode | logic.py:116 | decoding the reply for a list of counts gives one sample per count, in order, each count / 10000 |
| Waveform.EmptyFieldFails | logic.py:116 | a reply with an empty field fails the whole decode, with no partial waveform |
| Waveform.EmptyReplyFails | logic.py:116 | the empty reply fails the decode |
| Commands.MselCmd | logic.py:121 | `MSEL CHn, mode` is a query exactly when the mode text ends in `?` |
| Commands.CplCmd | logic.py:306-310 | `Cn:CPL coupling` is a query exactly when the coupling text ends in `?` |
| Commands.FixedCommandKinds | logic.py:107 | TDIV?, DTWAVE? and MSRA? are queries; DIRM A and ASET are actions |
| Commands.ToggleCommandsDistinct | logic.py:292-322 | each flag-to-command map is one-to-one: BWL, TRA, MLEN, PERS, EQU and WAVESRC name exactly the channel and the state asked for |
| Commands.MselInjective | logic.py:121 | different channel/mode pairs give different MSEL commands |
| Protocol.CheckPort | logic.py:67-79 | the port is opened only when none is open and opening succeeds; nothing else about the link changes |
| Protocol.Send | logic.py:93-109 | `cmd + "\r\n"` is written once exactly when the link can write, and nothing otherwise; the port error is exactly a failed open; the port is opened at most once; the link is left hung exactly on a timeout; a hung link is left unchanged |
| Protocol.SendConsumes | logic.py:93-109 | an exchange only consumes the instrument's bytes from the front |
| Protocol.HungIffTimedOut | logic.py:93-109 | the link is left hung exactly when the exchange timed out |
| Protocol.SendOpensOnce | logic.py:67-79 | an exchange keeps the port opened at most once |
| Protocol.NackReadsOneFrame | logic.py:102-106 | a first frame other than the ack gives None (a nack) and consumes only that frame |
| Protocol.AckedAction | logic.py:102-109 | an acknowledged action returns the literal 'ack' and reads nothing more |
| Protocol.AckedQuery | logic.py:102-109 | an acknowledged query returns the second frame with CR/LF stripped, writes its line once, and consumes exactly the two frames |
| Protocol.ReadReplyLine | logic.py:83-91 | a reply line followed by CR LF is read whole as one frame |
| Protocol.ActionExchange | logic.py:93-109 | an instrument that acknowledges an action: 'ack' is returned, the line written, and exactly the ack byte consumed |
| Protocol.QueryExchange | logic.py:93-109 | an instrument that acknowledges a query and answers `t`: exactly `t` is returned, and exactly the ack and the line are consumed |
| Protocol.StripCRLFReply | logic.py:109 | stripping CR/LF from a reply line gives its text back |
| Protocol.SendAllAppend | logic.py:125-244 | sending `a` and then `b` is sending `a + b` |
| Protocol.SendAllCount | logic.py:93-109 | each command adds at most one line; all go out when the link can still write at the end, and none when it could not write at the start |
| Protocol.SendAllWritesPrefix | logic.py:93-109 | whatever the instrument does, the lines written are those of a prefix of the commands, in order, none skipped |
| Protocol.SendPrefixWrites | logic.py:93-109 | the lines of a prefix of a plan are a prefix of the plan's lines; the whole plan is written when the link can still write |
| Protocol.SendAllOpensOnce | logic.py:67-79 | any number of commands open the port at most once |
| Protocol.SendAllHung | logic.py:85-91 | once a read never returns, every later command times out and nothing changes |
| Acquisition.MeasureStepwise | logic.py:119-123 | measure is DIRM A, then `MSEL CHn, mode`, then MSRA?, and returns what MSRA? returns |
| Acquisition.WaveStepwise | logic.py:111-117 | acquireWave is `Cn:TRA ON`, `WAVESRC CHn`, DTWAVE?, and decodes what DTWAVE? returns |
| Acquisition.WaveOfStalls | logic.py:116 | the waveform fails as a stall exactly on a timeout, otherwise only as that channel's missing or malformed reply |
| Acquisition.TdivStalls | logic.py:142 | the time base fails as a stall exactly on a timeout, otherwise as a missing or malformed reply |
| Acquisition.WaveStalls | logic.py:111-117 | acquireWave stalls exactly when it leaves the link hung |
| Acquisition.ConfigureStalls | logic.py:133-144 | the configuration stalls exactly when it leaves the link hung, and otherwise stops only on the time base |
| Acquisition.MeasurementsHalts | logic.py:158-182 | the measurements stop only for a stall; the values are displayed exactly when they do not |
| Acquisition.BlockHalts | logic.py:150-182 | a channel block stops only for a stall or its own channel's waveform; it displays its values exactly when it does not stop |
| Acquisition.SkewHalts | logic.py:237-242 | the SKEW pair stops only for a stall; channel 2's skew is displayed only after channel 1's |
| Acquisition.MeasureAllFollowsPlan | logic.py:158-169 | the measurements send one triple per mode, in order, and each displayed value is the reply to its own triple's MSRA?: nothing is cached or reordered |
| Acquisition.FetchStepwise | logic.py:150-155 | a channel block starts with `Cn:BWL ON/OFF` and then does what acquireWave does |
| Acquisition.BlockFollowsPlan | logic.py:150-182 | a channel block ends at its waveform having sent BWL and the wave commands, or else having sent its whole block |
| Acquisition.SkewFollowsPlan | logic.py:237-242 | the SKEW pair sends both triples, CH1 then CH2 |
| Acquisition.ChannelsFollowPlan | logic.py:150-242 | after the configuration, a run finishes or stalls having sent channel 1's block, channel 2's block and, with both channels, the SKEW pair, or stops at an enabled channel's waveform having sent the commands up to its DTWAVE? |
| Acquisition.IssuedPrefix | logic.py:125-244 | what a run issues is a prefix of its plan |
| Acquisition.AcquireFollowsPlan | logic.py:125-244 | with no channel nothing is sent and nothing changes; a waveform fails only on an enabled channel; the link is left as sending the commands issued leaves it |
| Acquisition.AcquireWritesPlan | logic.py:125-244 | whatever the instrument does, Acquire writes the lines of a prefix of its plan, in order; a finished run on a link that can still write has written the whole plan; a link that cannot write is left as it was |
| Acquisition.ConfigCommands | logic.py:133-140 | the configuration is `MLEN LONG`, `DTPOINTS 30000`, TDIV? with long memory and `MLEN SHORT`, `DTPOINTS 5120`, TDIV? without |
| Acquisition.IntervalSpansScreen | logic.py:143 | the interval times the points is ten times the time base, and it is zero exactly when the time base is |
| Acquisition.ConfigureTimeBase | logic.py:133-144 | the points are set for the memory length unless MLEN never returns; the interval is `tdiv*10/points` exactly when the TDIV? reply is a number, and a zero interval stops the run exactly when the time base is zero; otherwise the run stops for the reply's failure and the interval is left as it was |
| Acquisition.ChannelsReport | logic.py:150-242 | the channels' part displays what ReportShape says |
| Acquisition.AcquireReport | logic.py:125-247 | measurements only for enabled channels, skews only with both, channel 2's skew only after channel 1's; a finished run has displayed every enabled channel's measurements and, with both channels, both skews |
| Acquisition.AcquireWithoutPort | logic.py:93-100 | with no port to open nothing is written, the points are set, and `float(None)` on the TDIV? reply stops the run with the link unchanged |
| Acquisition.ModesPlan | logic.py:158-169 | the program's twelve measurements make a 36-command measurement list and a 40-command channel block, starting with DIRM A, `MSEL CH1, PERIOD`, MSRA? |
| Acquisition.MeasureAllPlanTriple | logic.py:158-169 | the i-th triple of the measurement list is the i-th mode's DIRM A, MSEL, MSRA? |
| Acquisition.BlockState | logic.py:150-182 | a channel block stops for its own waveform's failure, or stalls exactly when its last measurement never returned; it stores the decoded waveform in its own channel's field only, and keeps points and interval |
| Acquisition.ChannelsState | logic.py:150-242 | channel 1's field gets the waveform its DTWAVE? reply decodes to; channel 2's gets its own once channel 1's block did not stop; every other field is kept |
| Acquisition.ChannelsStatus | logic.py:150-247 | the channels' part finishes only when every enabled waveform decoded and channel 2's block was reached, and stops at channel 2's waveform only when reached and the reply is not a waveform |
| Acquisition.PlanSplit | logic.py:133-242 | the outcomes of a run's plan are those of the three configuration commands followed by those of the channels' part |
| Acquisition.WaveQueries | logic.py:150-208 | channel 1's DTWAVE? is the fourth command of the channels' part and channel 2's the fourth after channel 1's block |
| Acquisition.ConfigOutcomes | logic.py:133-144 | the configuration goes on exactly when MLEN returned and the TDIV? reply gives a nonzero interval; the points are set unless MLEN never returns, the interval exactly when the reply is a number, and the waveforms are untouched |
| Acquisition.ConfigHalts | logic.py:133-144 | the configuration stops exactly when ConfigOutcomes says, and only for a stall, a missing or malformed time base or a zero interval |
| Acquisition.AcquireState | logic.py:125-244 | the points, interval and both waveform fields a run leaves, in terms of the replies: the interval exactly when TDIV? reads as a number, channel 1's waveform once configured, channel 2's once channel 1's block completed; a channel whose reply is not a waveform keeps its old field |
| Acquisition.AcquireStatus | logic.py:125-247 | a run finishes only when configured, every enabled waveform decoded and channel 1's measurements returned; it stops at channel 2's waveform only when that block was reached and the reply is not a waveform |
| Acquisition.AcquireFinishedState | logic.py:125-247 | a finished run leaves the points for the memory length, the interval from the time base and every enabled channel's decoded waveform |
| Acquisition.AcquireSecondWaveFails | logic.py:150-210 | a run that stops at channel 2's waveform keeps channel 2's old field and, with channel 1 on, channel 1's decoded waveform |
| Scenarios.ThreeExchanges | logic.py:93-109 | two acknowledged actions and an answered query each write their line once, in order, and the query returns exactly its reply text |
| Scenarios.MeasureAnswered | logic.py:119-123 | against an instrument that answers MSRA? with `t`, measure returns `t` and writes its three commands in order |
| Scenarios.MeasureNoCache | logic.py:119-123 | two calls with the same channel and mode each write all three commands again |
| Scenarios.JoinNumbers | logic.py:116 | integer texts joined with commas form a valid reply line |
| Scenarios.EncodeCountsReplyText | logic.py:116 | the reply for a list of counts is a valid reply line |
| Scenarios.WaveAnswered | logic.py:111-117 | against an instrument that answers DTWAVE? with counts, acquireWave returns one sample per count, in order, each count / 10000, and consumes exactly the three replies |
| Scenarios.ConfigureAnswered | logic.py:133-144 | an instrument that acknowledges MLEN and DTPOINTS and answers TDIV? with `t`: the three lines are written in order, the points set, and the interval is ten divisions of `t` over the points when `t` is a number (stopping only for zero), else the run stops as malformed |
| Scenarios.BlockAnswered | logic.py:150-155 | an instrument that acknowledges the fetch and answers DTWAVE? with counts: the four lines are written, the channel's wave is the counts in volts, and the measurements start on the bytes after the reply |
| Scenarios.ChannelOneRun | logic.py:125-182 | channel 1 alone against a well-behaved instrument: points, interval from the TDIV? number, channel 1's wave from the counts, channel 2's untouched, and the run finishes unless a measurement never returns |
| Scenarios.ShortChannelOneRun | logic.py:133-157 | short memory, TDIV? `1.0`, counts 10000, 20000, -10000: 5120 points, interval 10/5120 s, and channel 1's wave 1 V, 2 V, -1 V |
| Session.ScopeSession.constructor | logic.py:42-65 | no port open, nothing written, and points, interval and both waves None |
| Session.ScopeSession.CheckSerialPort | logic.py:67-79 | the port is opened only when none is open (Protocol.CheckPort); nothing else changes |
| Session.ScopeSession.ReadlineCR | logic.py:83-91 | the byte loop returns the frame the reader specifies (Frames.ReadFrame) and leaves exactly the unread bytes |
| Session.ScopeSession.SendCommand | logic.py:93-109 | the exchange is Protocol.Send on the link; the port stays opened at most once |
| Session.ScopeSession.AcquireWave | logic.py:111-117 | the waveform and the link are Acquisition.AcquireWave's |
| Session.ScopeSession.Measure | logic.py:119-123 | the value and the link are Acquisition.Measure's |
| Session.ScopeSession.MeasureAll | logic.py:158-169 | the values, one per mode, in order, and the link are Acquisition.MeasureAll's |
| Session.ScopeSession.Configure | logic.py:133-144 | points, interval, link and the reason for stopping are Acquisition.Configure's |
| Session.ScopeSession.ChannelBlock | logic.py:150-182 | the channel's waveform field, the displayed values, the link and the reason for stopping are Acquisition.ChannelBlock's |
| Session.ScopeSession.KeepWave | logic.py:155 | the channel's waveform field takes the samples; nothing else changes |
| Session.ScopeSession.Measurements | logic.py:158-182 | the values are displayed only if every measure returned (Acquisition.Measurements) |
| Session.ScopeSession.Skew | logic.py:237-242 | the skews, the link and the reason for stopping are Acquisition.Skew's |
| Session.ScopeSession.Acquire | logic.py:125-247 | the report and the whole new state are Acquisition.Acquire's, so AcquireState (points, interval and waveform fields from the replies), AcquireStatus, AcquireWritesPlan, AcquireFollowsPlan and AcquireReport hold of the object |
| Session.ScopeSession.Channels | logic.py:150-242 | the report and the new state are Acquisition.Channels's |
| Session.ScopeSession.SecondChannel | logic.py:203-242 | the report and the new state are Acquisition.SecondChannel's |
| Session.ScopeSession.Aset | logic.py:287-290 | ASET is sent, and what it returns ('ack' when acknowledged) is shown |
| Session.ScopeSession.ChToggled | logic.py:292-304 | exactly `C1:TRA ON/OFF`, then `C2:TRA ON/OFF`, as the check boxes say |
| Session.ScopeSession.CouplingChanged | logic.py:306-310 | exactly `C1:CPL c1`, then `C2:CPL c2` |
| Session.ScopeSession.PersistToggled | logic.py:312-316 | exactly `PERS ON/OFF` |
| Session.ScopeSession.EquivToggled | logic.py:318-322 | exactly `EQU ON/OFF` |

## Left out

- The Qt window, the widgets, the matplotlib figure, the canvas and every
  plot. The status bar and the measurement text boxes are rendering; the
  model returns what they display (`Report`, `Outcome`) instead.
- The port picker's `glob` enumeration and sort keys: filesystem I/O.
- The real `serial.Serial` configuration and byte I/O. These are the
  abstract byte sequence `inbuf`, the line log `written`, and the fixed
  open-success flag `portAvailable`. The open never succeeds later after
  failing once, and the exception text of a failed open is not modelled;
  the outcome `PortError` stands for it.
- The 30-second timeout. The end of the input stands for a read that never
  returns; `hung` records it, and the rest of the run is a no-op.
- `time.sleep(1)` in `measure`: timing only.
- `print` output.
- Binary floating point. Samples, `tdiv` and `interval` are exact `real`s,
  so no rounding is modelled.
- The full syntax of Python's `float()`. Only decimal notation (sign,
  digits, optional fraction, optional exponent, surrounding whitespace) is
  accepted; `inf`, `nan` and underscores are not.
- `fft`, `rfft`, `calculateFFT` and the `20*log10` power plot: numpy
  numerics outside the protocol engine.
- The `np.arange` time axis. Only its failure for a zero step is kept (the
  `ZeroInterval` halt); the array itself is plotting input.
- `max(x)` in `set_xlim` (logic.py:148). With a nonzero step the axis is
  never empty, so `max` cannot fail.
- Acquisition.Acquire: is the run as `calculateFFT` makes it, with
  `show_plot=False` (logic.py:270), or as the button makes it when each
  decoded waveform has as many samples as the time axis. With `show_plot`
  true, `plot(x, wave)` (logic.py:157, 210) raises `ValueError` when the
  waveform's length differs from the axis built by `np.arange` from
  `points` and `interval`; the run then ends after storing that channel's
  waveform and before its measurements. The model leaves the axis and the
  plots out, so it does not see this abort and always goes on to the
  measurements. Session.ScopeSession.Acquire inherits this.
- Session.ScopeSession.Acquire: takes the list of measurements as a
  parameter `modes`, looped over by `MeasureAll`, instead of the source's
  twelve literal `measure` calls. The program's list is
  `Acquisition.Modes`, and a caller passes it.
- Session.ScopeSession.SendCommand: returns an `Outcome`, which is richer
  than the source's string-or-None. `Protocol.Returned` maps it to what
  the source returns.
- Exceptions raised inside `Acquire` end the run with a `Halted` status
  rather than propagating to the Qt event loop. The state assigned before
  the raise is kept, as in the source.
