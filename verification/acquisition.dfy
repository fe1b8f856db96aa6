/** The acquisition sequence (logic.py, measure, acquireWave and Acquire) as
    functions on the link and on the oscilloscope state the program keeps
    between runs. Each function mirrors the source's order of commands; the
    Plan functions list the commands a run issues, and the lemmas tie the two
    together. */
module Acquisition {
  import opened Wrappers
  import opened Numbers
  import opened Frames
  import opened Commands
  import opened Waveform
  import opened Protocol

  /** The check boxes Acquire reads: the two channels, long memory, and each
      channel's low-pass filter. */
  datatype Settings = Settings(ch1: bool, ch2: bool, longMemory: bool, lowPass1: bool, lowPass2: bool)

  /** Samples per trace: 30000 with long memory, 5120 without. */
  function PointsFor(longMemory: bool): (p: nat)
    ensures p > 0
  {
    if longMemory then 30000 else 5120
  }

  /** The twelve measurements Acquire takes on every enabled channel, in
      order. The functions below take the list of measurements as a
      parameter `modes`; Acquire passes this one. */
  const Modes: seq<string> :=
    ["PERIOD", "DUTY", "VMEAN", "FREQ", "VRMS", "P-P", "TR", "TF", "+PW", "-PW", "+PEAK", "-PEAK"]

  /** The measurement taken on both channels when both are enabled. */
  const SkewMode: string := "SKEW"

  /** Why a run stops early. `Stalled`: a read never returns, so the program
      waits forever. The others are the exceptions Python raises when a reply
      is missing (None) or is not a number: in `float()` of the TDIV? reply,
      in `np.arange` for a zero interval, and in `split` or `float()` on the
      DTWAVE? reply of a channel. */
  datatype Halt = Stalled | TdivMissing | TdivMalformed | ZeroInterval
                | WaveMissing(ch: Channel) | WaveMalformed(ch: Channel)

  /** The status bar at the end of a run. */
  datatype Status = NoChannels | Finished | Halted(why: Halt)

  /** The state Acquire leaves behind (`self.points`, `self.interval`,
      `self.ch1_wave`, `self.ch2_wave`, all None at start), with the link. */
  datatype Scope = Scope(link: Link, points: Option<nat>, interval: Option<real>,
                         ch1Wave: Option<seq<real>>, ch2Wave: Option<seq<real>>)

  function SetWave(sc: Scope, ch: Channel, wave: seq<real>): Scope
  {
    match ch
    case C1 => sc.(ch1Wave := Some(wave))
    case C2 => sc.(ch2Wave := Some(wave))
  }

  /* ---------------- Command plans ---------------- */

  lemma SendableJoin(a: seq<string>, b: seq<string>)
    requires Sendable(a) && Sendable(b)
    ensures Sendable(a + b)
  {
  }

  function ConfigPlan(longMemory: bool): (p: seq<string>)
    ensures Sendable(p) && |p| == 3
  {
    [MlenCmd(longMemory), DtPointsCmd(PointsFor(longMemory)), TdivQuery]
  }

  function WavePlan(ch: Channel): (p: seq<string>)
    ensures Sendable(p) && |p| == 3
  {
    [TraCmd(ch, true), WaveSrcCmd(ch), DtWaveQuery]
  }

  function MeasurePlan(ch: Channel, mode: string): (p: seq<string>)
    ensures Sendable(p) && |p| == 3
  {
    [DirmCmd, MselCmd(ch, mode), MsraQuery]
  }

  /** The measurement triples for a list of modes, in the order of the modes. */
  function MeasureAllPlan(ch: Channel, modes: seq<string>): (p: seq<string>)
    ensures Sendable(p) && |p| == 3 * |modes|
    decreases |modes|
  {
    if modes == [] then []
    else
      var init := MeasureAllPlan(ch, modes[..|modes| - 1]);
      var last := MeasurePlan(ch, modes[|modes| - 1]);
      SendableJoin(init, last);
      init + last
  }

  /** The low-pass filter setting and the waveform commands of a channel block. */
  function FetchPlan(ch: Channel, lowPass: bool): (p: seq<string>)
    ensures Sendable(p) && |p| == 4
  {
    SendableJoin([BwlCmd(ch, lowPass)], WavePlan(ch));
    [BwlCmd(ch, lowPass)] + WavePlan(ch)
  }

  /** A channel block: BWL, the wave commands, one triple per measurement. */
  function ChannelPlan(ch: Channel, lowPass: bool, modes: seq<string>): (p: seq<string>)
    ensures Sendable(p) && |p| == 4 + 3 * |modes|
  {
    SendableJoin(FetchPlan(ch, lowPass), MeasureAllPlan(ch, modes));
    FetchPlan(ch, lowPass) + MeasureAllPlan(ch, modes)
  }

  function SkewPlan(): (p: seq<string>)
    ensures Sendable(p) && |p| == 6
  {
    SendableJoin(MeasurePlan(C1, SkewMode), MeasurePlan(C2, SkewMode));
    MeasurePlan(C1, SkewMode) + MeasurePlan(C2, SkewMode)
  }

  /** Channel 1's block when channel 1 is enabled. */
  function FirstPlan(s: Settings, modes: seq<string>): (p: seq<string>)
    ensures Sendable(p) && |p| == if s.ch1 then 4 + 3 * |modes| else 0
  {
    if s.ch1 then ChannelPlan(C1, s.lowPass1, modes) else []
  }

  /** Channel 2's block when channel 2 is enabled, then the SKEW pair when
      both channels are. */
  function SecondPlan(s: Settings, modes: seq<string>): (p: seq<string>)
    ensures Sendable(p)
    ensures |p| == (if s.ch2 then 4 + 3 * |modes| else 0) + (if s.ch1 && s.ch2 then 6 else 0)
  {
    var two := if s.ch2 then ChannelPlan(C2, s.lowPass2, modes) else [];
    var skew := if s.ch1 && s.ch2 then SkewPlan() else [];
    SendableJoin(two, skew);
    two + skew
  }

  /** The commands after the configuration. */
  function ChannelsPlan(s: Settings, modes: seq<string>): (p: seq<string>)
    ensures Sendable(p) && |p| == |FirstPlan(s, modes)| + |SecondPlan(s, modes)|
  {
    SendableJoin(FirstPlan(s, modes), SecondPlan(s, modes));
    FirstPlan(s, modes) + SecondPlan(s, modes)
  }

  /** Every command a complete run issues, in order: nothing without a
      channel, otherwise the configuration and then the channels' part. */
  function Plan(s: Settings, modes: seq<string>): (p: seq<string>)
    ensures Sendable(p) && |p| == if !s.ch1 && !s.ch2 then 0 else 3 + |ChannelsPlan(s, modes)|
  {
    if !s.ch1 && !s.ch2 then []
    else
      SendableJoin(ConfigPlan(s.longMemory), ChannelsPlan(s, modes));
      ConfigPlan(s.longMemory) + ChannelsPlan(s, modes)
  }

  /** The commands of the channels' part up to and including channel `ch`'s
      waveform query: where a run ends whose waveform is missing or
      malformed. */
  function UpToWave(s: Settings, ch: Channel, modes: seq<string>): (p: seq<string>)
    ensures Sendable(p)
  {
    match ch
    case C1 => FetchPlan(C1, s.lowPass1)
    case C2 =>
      SendableJoin(FirstPlan(s, modes), FetchPlan(C2, s.lowPass2));
      FirstPlan(s, modes) + FetchPlan(C2, s.lowPass2)
  }

  /* ---------------- The run ---------------- */

  /** measure: select the measurement on the channel, then ask for its
      result. The result is whatever _sendCommand returns for `MSRA?`. */
  function Measure(l: Link, available: bool, ch: Channel, mode: string): Sent
  {
    var run := SendAll(l, available, MeasurePlan(ch, mode));
    Sent(run.outcomes[2], run.link)
  }

  datatype Measured = Measured(values: seq<Option<string>>, link: Link)

  /** One measurement per mode, in order, each taken afresh. */
  function MeasureAll(l: Link, available: bool, ch: Channel, modes: seq<string>): (r: Measured)
    ensures |r.values| == |modes|
    decreases |modes|
  {
    if modes == [] then Measured([], l)
    else
      var prev := MeasureAll(l, available, ch, modes[..|modes| - 1]);
      var m := Measure(prev.link, available, ch, modes[|modes| - 1]);
      Measured(prev.values + [Returned(m.outcome)], m.link)
  }

  /** The waveform in the DTWAVE? outcome, or why there is none. */
  function WaveOf(o: Outcome, ch: Channel): Result<seq<real>, Halt>
  {
    match o
    case TimedOut => Failure(Stalled)
    case Answer(reply) =>
      (match DecodeWave(reply)
       case None => Failure(WaveMalformed(ch))
       case Some(wave) => Success(wave))
    case _ => Failure(WaveMissing(ch))
  }

  datatype Fetched = Fetched(wave: Result<seq<real>, Halt>, link: Link)

  /** acquireWave: show the trace, select it as the waveform source, ask for
      the samples and decode them. */
  function AcquireWave(l: Link, available: bool, ch: Channel): Fetched
  {
    var run := SendAll(l, available, WavePlan(ch));
    Fetched(WaveOf(run.outcomes[2], ch), run.link)
  }

  /** `float()` of the TDIV? outcome, or why there is none. */
  function TdivOf(o: Outcome): Result<real, Halt>
  {
    match o
    case TimedOut => Failure(Stalled)
    case Answer(reply) =>
      (match ParseNumber(reply)
       case None => Failure(TdivMalformed)
       case Some(tdiv) => Success(tdiv))
    case _ => Failure(TdivMissing)
  }

  /** The time per sample: ten divisions of `tdiv` seconds over the points. */
  function Interval(tdiv: real, points: nat): real
    requires points > 0
  {
    (tdiv * 10.0) / (points as real)
  }

  /** A stage of a run: the reason it stopped, if it did, and the state after it. */
  datatype Step = Step(halt: Option<Halt>, scope: Scope)

  /** The first part of Acquire: MLEN, DTPOINTS and TDIV?. `points` is set
      once MLEN has returned, `interval` once the TDIV? reply is a number,
      and a zero interval stops the run in the time axis. */
  function Configure(sc: Scope, available: bool, longMemory: bool): Step
  {
    var points := PointsFor(longMemory);
    var run := SendAll(sc.link, available, ConfigPlan(longMemory));
    if run.outcomes[0] == TimedOut then Step(Some(Stalled), sc.(link := run.link))
    else
      var updated := sc.(link := run.link, points := Some(points));
      match TdivOf(run.outcomes[2])
      case Failure(why) => Step(Some(why), updated)
      case Success(tdiv) =>
        var interval := Interval(tdiv, points);
        Step(if interval == 0.0 then Some(ZeroInterval) else None, updated.(interval := Some(interval)))
  }

  /** A channel block and the measurements it displays. */
  datatype Block = Block(halt: Option<Halt>, scope: Scope, values: Option<seq<Option<string>>>)

  /** One channel's block of Acquire: the low-pass filter setting and
      acquireWave (FetchStepwise), then the measurements, displayed only once
      all have returned. */
  function ChannelBlock(sc: Scope, available: bool, ch: Channel, lowPass: bool, modes: seq<string>): Block
  {
    var fetch := SendAll(sc.link, available, FetchPlan(ch, lowPass));
    match WaveOf(fetch.outcomes[3], ch)
    case Failure(why) => Block(Some(why), sc.(link := fetch.link), None)
    case Success(wave) => Measurements(SetWave(sc, ch, wave), fetch.link, available, ch, modes)
  }

  /** The measurement part of a channel block, once the wave is in. */
  function Measurements(sc: Scope, l: Link, available: bool, ch: Channel, modes: seq<string>): Block
  {
    var m := MeasureAll(l, available, ch, modes);
    if m.link.hung then Block(Some(Stalled), sc.(link := m.link), None)
    else Block(None, sc.(link := m.link), Some(m.values))
  }

  datatype Skewed = Skewed(halt: Option<Halt>, link: Link, skew1: Option<Option<string>>, skew2: Option<Option<string>>)

  /** The SKEW pair: channel 1's skew is displayed before channel 2's is asked for. */
  function Skew(l: Link, available: bool): Skewed
  {
    var m1 := Measure(l, available, C1, SkewMode);
    if m1.link.hung then Skewed(Some(Stalled), m1.link, None, None)
    else
      var m2 := Measure(m1.link, available, C2, SkewMode);
      if m2.link.hung then Skewed(Some(Stalled), m2.link, Some(Returned(m1.outcome)), None)
      else Skewed(None, m2.link, Some(Returned(m1.outcome)), Some(Returned(m2.outcome)))
  }

  /** What a run displays: the status, each channel's measurements and each
      channel's skew, where they were displayed. */
  datatype Report = Report(status: Status, ch1Values: Option<seq<Option<string>>>, ch2Values: Option<seq<Option<string>>>,
                           ch1Skew: Option<Option<string>>, ch2Skew: Option<Option<string>>)

  datatype RunResult = RunResult(report: Report, scope: Scope)

  function Stopped(why: Halt, ch1Values: Option<seq<Option<string>>>, sc: Scope): RunResult
  {
    RunResult(Report(Halted(why), ch1Values, None, None, None), sc)
  }

  /** Acquire, taking the measurements `modes` on each channel. With neither
      channel enabled nothing is sent. Otherwise the configuration, channel
      1's block, channel 2's block and, with both channels, the SKEW pair,
      each only if the previous one did not stop. */
  function Acquire(sc: Scope, available: bool, s: Settings, modes: seq<string>): RunResult
  {
    if !s.ch1 && !s.ch2 then RunResult(Report(NoChannels, None, None, None, None), sc)
    else
      var c := Configure(sc, available, s.longMemory);
      if c.halt.Some? then Stopped(c.halt.value, None, c.scope)
      else Channels(c.scope, available, s, modes)
  }

  /** The part of Acquire after the configuration: channel 1's block. */
  function Channels(sc: Scope, available: bool, s: Settings, modes: seq<string>): RunResult
  {
    var b1 := if s.ch1 then ChannelBlock(sc, available, C1, s.lowPass1, modes) else Block(None, sc, None);
    if b1.halt.Some? then Stopped(b1.halt.value, None, b1.scope)
    else SecondChannel(b1, available, s, modes)
  }

  /** Channel 2's block, once channel 1's has not stopped. */
  function SecondChannel(b1: Block, available: bool, s: Settings, modes: seq<string>): RunResult
  {
    var b2 := if s.ch2 then ChannelBlock(b1.scope, available, C2, s.lowPass2, modes) else Block(None, b1.scope, None);
    Conclude(b1.values, b2, available, s)
  }

  /** The end of a run once channel 2's block is done: it stops if that
      block stopped, finishes with one channel, and takes the SKEW pair with
      both. */
  function Conclude(ch1Values: Option<seq<Option<string>>>, b2: Block, available: bool, s: Settings): RunResult
  {
    if b2.halt.Some? then Stopped(b2.halt.value, ch1Values, b2.scope)
    else if !(s.ch1 && s.ch2) then RunResult(Report(Finished, ch1Values, b2.values, None, None), b2.scope)
    else SkewPair(ch1Values, b2, available)
  }

  /** The SKEW pair at the end of a run with both channels. */
  function SkewPair(ch1Values: Option<seq<Option<string>>>, b2: Block, available: bool): RunResult
  {
    var k := Skew(b2.scope.link, available);
    RunResult(Report(if k.halt.Some? then Halted(k.halt.value) else Finished,
                       ch1Values, b2.values, k.skew1, k.skew2),
                b2.scope.(link := k.link))
  }

  /* ---------------- Each stage, one exchange at a time ---------------- */

  /** measure is three exchanges in a row and returns what the third returns. */
  lemma MeasureStepwise(l: Link, available: bool, ch: Channel, mode: string)
    ensures var dirm := Send(l, available, DirmCmd);
            var msel := Send(dirm.link, available, MselCmd(ch, mode));
            Measure(l, available, ch, mode) == Send(msel.link, available, MsraQuery)
  {
    SendAllThree(l, available, DirmCmd, MselCmd(ch, mode), MsraQuery);
  }

  /** acquireWave is three exchanges in a row and decodes what the third returns. */
  lemma WaveStepwise(l: Link, available: bool, ch: Channel)
    ensures var tra := Send(l, available, TraCmd(ch, true));
            var src := Send(tra.link, available, WaveSrcCmd(ch));
            var data := Send(src.link, available, DtWaveQuery);
            AcquireWave(l, available, ch) == Fetched(WaveOf(data.outcome, ch), data.link)
  {
    SendAllThree(l, available, TraCmd(ch, true), WaveSrcCmd(ch), DtWaveQuery);
  }

  /* ---------------- Why a stage stops ---------------- */

  /** Of the ways the waveform query can fail, only a read that never returns
      is a stall. */
  lemma WaveOfStalls(o: Outcome, ch: Channel)
    ensures WaveOf(o, ch) == Failure(Stalled) <==> o == TimedOut
    ensures WaveOf(o, ch).Failure? ==> WaveOf(o, ch).error in {Stalled, WaveMissing(ch), WaveMalformed(ch)}
  {
  }

  /** The time-base query fails in one of three ways; only a read that never
      returns is a stall. */
  lemma TdivStalls(o: Outcome)
    ensures TdivOf(o) == Failure(Stalled) <==> o == TimedOut
    ensures TdivOf(o).Failure? ==> TdivOf(o).error in {Stalled, TdivMissing, TdivMalformed}
  {
  }

  /** acquireWave stalls exactly when it leaves the link hung; otherwise it
      fails only for its own channel's reply. */
  lemma WaveStalls(l: Link, available: bool, ch: Channel)
    ensures var f := AcquireWave(l, available, ch);
            && (f.wave == Failure(Stalled) <==> f.link.hung)
            && (f.wave.Failure? ==> f.wave.error in {Stalled, WaveMissing(ch), WaveMalformed(ch)})
  {
    SendAllLastHung(l, available, WavePlan(ch));
    WaveOfStalls(SendAll(l, available, WavePlan(ch)).outcomes[2], ch);
  }

  /** The configuration stops for a stall exactly when it leaves the link
      hung, and otherwise only for the time base. */
  lemma ConfigureStalls(sc: Scope, available: bool, longMemory: bool)
    ensures var c := Configure(sc, available, longMemory);
            && (c.halt == Some(Stalled) <==> c.scope.link.hung)
            && (c.halt.Some? ==> c.halt.value in {Stalled, TdivMissing, TdivMalformed, ZeroInterval})
  {
    var plan := ConfigPlan(longMemory);
    var run := SendAll(sc.link, available, plan);
    SendAllLastHung(sc.link, available, plan);
    TdivStalls(run.outcomes[2]);
    if run.outcomes[0] == TimedOut {
      SendAllThree(sc.link, available, plan[0], plan[1], plan[2]);
      assert [plan[0], plan[1], plan[2]] == plan;
    }
  }

  /** The measurement part stops only for a stall, exactly when it leaves
      the link hung, and displays the values exactly when it does not stop. */
  lemma MeasurementsHalts(sc: Scope, l: Link, available: bool, ch: Channel, modes: seq<string>)
    ensures var b := Measurements(sc, l, available, ch, modes);
            && (b.halt.Some? ==> b.halt.value == Stalled)
            && (b.halt == Some(Stalled) <==> b.scope.link.hung)
            && (b.halt.None? <==> b.values.Some?)
  {
  }

  /** A channel block stops only for a stall or for that channel's waveform,
      and it stalls exactly when it leaves the link hung. */
  lemma BlockHalts(sc: Scope, available: bool, ch: Channel, lowPass: bool, modes: seq<string>)
    ensures var b := ChannelBlock(sc, available, ch, lowPass, modes);
            && (b.halt.Some? ==> b.halt.value in {Stalled, WaveMissing(ch), WaveMalformed(ch)})
            && (b.halt == Some(Stalled) <==> b.scope.link.hung)
            && (b.halt.None? <==> b.values.Some?)
  {
    var fetch := SendAll(sc.link, available, FetchPlan(ch, lowPass));
    SendAllLastHung(sc.link, available, FetchPlan(ch, lowPass));
    WaveOfStalls(fetch.outcomes[3], ch);
    match WaveOf(fetch.outcomes[3], ch)
    case Failure(why) =>
    case Success(wave) =>
      MeasurementsHalts(SetWave(sc, ch, wave), fetch.link, available, ch, modes);
  }

  /** The SKEW pair stops only for a stall, exactly when it leaves the link
      hung, and channel 2's skew is displayed only after channel 1's. */
  lemma SkewHalts(l: Link, available: bool)
    ensures var k := Skew(l, available);
            && (k.halt.Some? ==> k.halt.value == Stalled)
            && (k.halt.Some? <==> k.link.hung)
            && (k.skew2.Some? ==> k.skew1.Some?)
            && (k.halt.None? <==> k.skew2.Some?)
  {
    var m1 := Measure(l, available, C1, SkewMode);
    SendAllLastHung(l, available, MeasurePlan(C1, SkewMode));
    SendAllLastHung(m1.link, available, MeasurePlan(C2, SkewMode));
  }

  /* ---------------- Each stage issues its part of the plan ---------------- */

  /** Measuring a list of modes sends one triple per mode, in the order of
      the modes, and each value shown is the reply to its own triple's MSRA?:
      nothing is cached or reordered. */
  lemma {:induction false} MeasureAllFollowsPlan(l: Link, available: bool, ch: Channel, modes: seq<string>)
    ensures var run := SendAll(l, available, MeasureAllPlan(ch, modes));
            var m := MeasureAll(l, available, ch, modes);
            && m.link == run.link
            && forall i :: 0 <= i < |modes| ==> m.values[i] == Returned(run.outcomes[3 * i + 2])
    decreases |modes|
  {
    if modes != [] {
      var init := modes[..|modes| - 1];
      var last := modes[|modes| - 1];
      MeasureAllFollowsPlan(l, available, ch, init);
      var prev := MeasureAll(l, available, ch, init);
      var prevRun := SendAll(l, available, MeasureAllPlan(ch, init));
      var lastRun := SendAll(prevRun.link, available, MeasurePlan(ch, last));
      SendAllAppend(l, available, MeasureAllPlan(ch, init), MeasurePlan(ch, last));
      assert MeasureAllPlan(ch, modes) == MeasureAllPlan(ch, init) + MeasurePlan(ch, last);
      var run := SendAll(l, available, MeasureAllPlan(ch, modes));
      assert run == Run(prevRun.outcomes + lastRun.outcomes, lastRun.link);
      var m := MeasureAll(l, available, ch, modes);
      assert m.values == prev.values + [Returned(lastRun.outcomes[2])];
      forall i | 0 <= i < |modes| ensures m.values[i] == Returned(run.outcomes[3 * i + 2]) {
        if i < |init| {
          assert run.outcomes[3 * i + 2] == prevRun.outcomes[3 * i + 2];
        } else {
          assert run.outcomes[3 * i + 2] == lastRun.outcomes[2];
        }
      }
    }
  }

  /** A channel block starts with the BWL command and then does what
      acquireWave does. */
  lemma FetchStepwise(l: Link, available: bool, ch: Channel, lowPass: bool)
    ensures var bwl := Send(l, available, BwlCmd(ch, lowPass));
            var f := AcquireWave(bwl.link, available, ch);
            var run := SendAll(l, available, FetchPlan(ch, lowPass));
            run.link == f.link && WaveOf(run.outcomes[3], ch) == f.wave
  {
    SendAllSnoc(l, available, [], BwlCmd(ch, lowPass));
    assert [] + [BwlCmd(ch, lowPass)] == [BwlCmd(ch, lowPass)];
    SendAllAppend(l, available, [BwlCmd(ch, lowPass)], WavePlan(ch));
  }

  /** How a channel block started on link `l` may end: it stops only for a
      stall, which leaves the link hung, or for its own waveform, having sent
      BWL and the wave commands; otherwise it has sent its whole plan (after
      a stall, the rest of it reaches nobody). */
  predicate BlockEnd(b: Block, l: Link, available: bool, ch: Channel, lowPass: bool, modes: seq<string>)
  {
    var waveHalt := b.halt == Some(WaveMissing(ch)) || b.halt == Some(WaveMalformed(ch));
    && (b.halt.Some? ==> b.halt.value in {Stalled, WaveMissing(ch), WaveMalformed(ch)})
    && (b.halt == Some(Stalled) ==> b.scope.link.hung)
    && (waveHalt ==> b.scope.link == SendAll(l, available, FetchPlan(ch, lowPass)).link)
    && (!waveHalt ==> b.scope.link == SendAll(l, available, ChannelPlan(ch, lowPass, modes)).link)
  }

  lemma BlockFollowsPlan(sc: Scope, available: bool, ch: Channel, lowPass: bool, modes: seq<string>)
    ensures BlockEnd(ChannelBlock(sc, available, ch, lowPass, modes), sc.link, available, ch, lowPass, modes)
  {
    var fetch := SendAll(sc.link, available, FetchPlan(ch, lowPass));
    BlockHalts(sc, available, ch, lowPass, modes);
    SendAllAppend(sc.link, available, FetchPlan(ch, lowPass), MeasureAllPlan(ch, modes));
    if WaveOf(fetch.outcomes[3], ch).Failure? {
      BlockFails(sc, available, ch, lowPass, modes, fetch);
    } else {
      BlockMeasures(sc, available, ch, lowPass, modes, fetch);
    }
  }

  /** A block whose waveform fails ends there, and a stalled one would send
      the rest of its plan to nobody. */
  lemma BlockFails(sc: Scope, available: bool, ch: Channel, lowPass: bool, modes: seq<string>, fetch: Run)
    requires fetch == SendAll(sc.link, available, FetchPlan(ch, lowPass))
    requires WaveOf(fetch.outcomes[3], ch).Failure?
    ensures var b := ChannelBlock(sc, available, ch, lowPass, modes);
            && b.halt == Some(WaveOf(fetch.outcomes[3], ch).error) && b.scope.link == fetch.link
            && (b.halt == Some(Stalled) ==> SendAll(fetch.link, available, MeasureAllPlan(ch, modes)).link == fetch.link)
  {
    SendAllLastHung(sc.link, available, FetchPlan(ch, lowPass));
    WaveOfStalls(fetch.outcomes[3], ch);
    if fetch.link.hung {
      SendAllHung(fetch.link, available, MeasureAllPlan(ch, modes));
    }
  }

  /** A block whose waveform is in sends the measurement triples. */
  lemma BlockMeasures(sc: Scope, available: bool, ch: Channel, lowPass: bool, modes: seq<string>, fetch: Run)
    requires fetch == SendAll(sc.link, available, FetchPlan(ch, lowPass))
    requires WaveOf(fetch.outcomes[3], ch).Success?
    ensures var b := ChannelBlock(sc, available, ch, lowPass, modes);
            && (b.halt.None? || b.halt == Some(Stalled))
            && b.scope.link == SendAll(fetch.link, available, MeasureAllPlan(ch, modes)).link
  {
    MeasureAllFollowsPlan(fetch.link, available, ch, modes);
  }

  /** The SKEW pair sends both measurement triples, whatever the replies. */
  lemma SkewFollowsPlan(l: Link, available: bool)
    ensures Skew(l, available).link == SendAll(l, available, SkewPlan()).link
  {
    var m1 := Measure(l, available, C1, SkewMode);
    if m1.link.hung {
      SendAllHung(m1.link, available, MeasurePlan(C2, SkewMode));
    }
    SendAllAppend(l, available, MeasurePlan(C1, SkewMode), MeasurePlan(C2, SkewMode));
  }


  /* ---------------- The whole run issues a prefix of its plan ---------------- */

  /** A prefix of `a` is a prefix of `a` followed by anything. */
  lemma PrefixOfJoin(p: seq<string>, a: seq<string>, b: seq<string>)
    requires p <= a
    ensures p <= a + b
  {
    assert (a + b)[..|p|] == a[..|p|];
  }

  /** Prefixes stay prefixes behind a common head. */
  lemma PrefixBehind(h: seq<string>, p: seq<string>, a: seq<string>)
    requires p <= a
    ensures h + p <= h + a
  {
    assert (h + a)[..|h + p|] == h + a[..|p|];
  }

  /** The SKEW pair ends a run: it sends its six commands and stops only
      for a stall. */
  lemma SkewPairFollowsPlan(ch1Values: Option<seq<Option<string>>>, b2: Block, available: bool)
    ensures var r := SkewPair(ch1Values, b2, available);
            && r.scope.link == SendAll(b2.scope.link, available, SkewPlan()).link
            && (r.report.status == Finished || r.report.status == Halted(Stalled))
  {
    SkewFollowsPlan(b2.scope.link, available);
    SkewHalts(b2.scope.link, available);
  }

  /** The run stopped because channel `ch`'s waveform reply was missing or
      malformed. */
  predicate WaveHalt(st: Status, ch: Channel)
  {
    st == Halted(WaveMissing(ch)) || st == Halted(WaveMalformed(ch))
  }

  /** How the channels' part of a run, started on link `l0`, may end: it
      finishes or stalls, having issued the whole channels' plan, or it stops
      at an enabled channel's waveform, having issued the plan up to that
      channel's waveform query. */
  predicate ChannelsEnd(r: RunResult, l0: Link, available: bool, s: Settings, modes: seq<string>)
  {
    var st := r.report.status;
    && (st == Finished || st == Halted(Stalled) || (s.ch1 && WaveHalt(st, C1)) || (s.ch2 && WaveHalt(st, C2)))
    && (st == Finished || st == Halted(Stalled) ==> r.scope.link == SendAll(l0, available, ChannelsPlan(s, modes)).link)
    && (WaveHalt(st, C1) ==> r.scope.link == SendAll(l0, available, UpToWave(s, C1, modes)).link)
    && (WaveHalt(st, C2) ==> r.scope.link == SendAll(l0, available, UpToWave(s, C2, modes)).link)
  }

  /** A run that finishes or stalls having issued the channels' plan ends
      as planned. */
  lemma EndsComplete(r: RunResult, l0: Link, available: bool, s: Settings, modes: seq<string>)
    requires r.report.status == Finished || r.report.status == Halted(Stalled)
    requires r.scope.link == SendAll(l0, available, ChannelsPlan(s, modes)).link
    ensures ChannelsEnd(r, l0, available, s, modes)
  {
    assert !WaveHalt(r.report.status, C1) && !WaveHalt(r.report.status, C2);
  }

  /** A run that stops at an enabled channel's waveform, having issued the
      plan up to that waveform query, ends as planned. */
  lemma EndsAtWave(r: RunResult, l0: Link, available: bool, s: Settings, modes: seq<string>, ch: Channel)
    requires (ch == C1 ==> s.ch1) && (ch == C2 ==> s.ch2) && WaveHalt(r.report.status, ch)
    requires r.scope.link == SendAll(l0, available, UpToWave(s, ch, modes)).link
    ensures ChannelsEnd(r, l0, available, s, modes)
  {
    var st := r.report.status;
    assert st != Finished && st != Halted(Stalled);
    assert ch == C1 ==> !WaveHalt(st, C2);
    assert ch == C2 ==> !WaveHalt(st, C1);
  }

  /** Channel 1's block when it stops the run. */
  lemma FirstStops(b1: Block, l0: Link, available: bool, s: Settings, modes: seq<string>)
    requires s.ch1 && b1.halt.Some? && BlockEnd(b1, l0, available, C1, s.lowPass1, modes)
    ensures ChannelsEnd(Stopped(b1.halt.value, None, b1.scope), l0, available, s, modes)
  {
    var r := Stopped(b1.halt.value, None, b1.scope);
    if b1.halt.value == Stalled {
      SendAllHung(b1.scope.link, available, SecondPlan(s, modes));
      SendAllAppend(l0, available, ChannelPlan(C1, s.lowPass1, modes), SecondPlan(s, modes));
      EndsComplete(r, l0, available, s, modes);
    } else {
      EndsAtWave(r, l0, available, s, modes, C1);
    }
  }

  /** Channel 2's block when it stalls: the rest of the plan reaches nobody. */
  lemma SecondStalls(b1: Block, b2: Block, available: bool, s: Settings, modes: seq<string>, l0: Link)
    requires b1.scope.link == SendAll(l0, available, FirstPlan(s, modes)).link
    requires s.ch2 && b2.halt == Some(Stalled) && BlockEnd(b2, b1.scope.link, available, C2, s.lowPass2, modes)
    ensures b2.scope.link == SendAll(l0, available, ChannelsPlan(s, modes)).link
  {
    var one := FirstPlan(s, modes);
    var two := ChannelPlan(C2, s.lowPass2, modes);
    var skew := if s.ch1 && s.ch2 then SkewPlan() else [];
    assert SecondPlan(s, modes) == two + skew;
    SendAllHung(b2.scope.link, available, skew);
    SendAllAppend(b1.scope.link, available, two, skew);
    SendAllAppend(l0, available, one, two + skew);
  }

  /** Channel 2's block when its waveform fails. */
  lemma SecondWaveFails(b1: Block, b2: Block, available: bool, s: Settings, modes: seq<string>, l0: Link)
    requires b1.scope.link == SendAll(l0, available, FirstPlan(s, modes)).link
    requires s.ch2 && b2.halt.Some? && b2.halt != Some(Stalled)
    requires BlockEnd(b2, b1.scope.link, available, C2, s.lowPass2, modes)
    ensures b2.scope.link == SendAll(l0, available, UpToWave(s, C2, modes)).link
  {
    SendAllAppend(l0, available, FirstPlan(s, modes), FetchPlan(C2, s.lowPass2));
  }

  /** A run with one channel finishes after that channel's block. */
  lemma OneChannelFinishes(b1: Block, b2: Block, available: bool, s: Settings, modes: seq<string>, l0: Link)
    requires b1.scope.link == SendAll(l0, available, FirstPlan(s, modes)).link
    requires b2.halt.None? && !(s.ch1 && s.ch2)
    requires s.ch2 ==> BlockEnd(b2, b1.scope.link, available, C2, s.lowPass2, modes)
    requires !s.ch2 ==> b2 == Block(None, b1.scope, None)
    ensures b2.scope.link == SendAll(l0, available, ChannelsPlan(s, modes)).link
  {
    var two := if s.ch2 then ChannelPlan(C2, s.lowPass2, modes) else [];
    assert SecondPlan(s, modes) == two;
    assert b2.scope.link == SendAll(b1.scope.link, available, two).link;
    SendAllAppend(l0, available, FirstPlan(s, modes), two);
  }

  /** A run with both channels ends with the SKEW pair, which ends at `l`. */
  lemma BothChannelsSkew(b1: Block, b2: Block, l: Link, available: bool, s: Settings, modes: seq<string>, l0: Link)
    requires b1.scope.link == SendAll(l0, available, FirstPlan(s, modes)).link
    requires b2.halt.None? && s.ch1 && s.ch2
    requires BlockEnd(b2, b1.scope.link, available, C2, s.lowPass2, modes)
    requires l == SendAll(b2.scope.link, available, SkewPlan()).link
    ensures l == SendAll(l0, available, ChannelsPlan(s, modes)).link
  {
    var one := FirstPlan(s, modes);
    var two := ChannelPlan(C2, s.lowPass2, modes);
    assert SecondPlan(s, modes) == two + SkewPlan();
    SendAllAppend(b1.scope.link, available, two, SkewPlan());
    SendAllAppend(l0, available, one, two + SkewPlan());
  }

  /** The end of a run, once channel 1's block has not stopped. */
  lemma ConcludeEnds(b1: Block, b2: Block, available: bool, s: Settings, modes: seq<string>, l0: Link)
    requires b1.scope.link == SendAll(l0, available, FirstPlan(s, modes)).link
    requires s.ch2 ==> BlockEnd(b2, b1.scope.link, available, C2, s.lowPass2, modes)
    requires !s.ch2 ==> b2 == Block(None, b1.scope, None)
    ensures ChannelsEnd(Conclude(b1.values, b2, available, s), l0, available, s, modes)
  {
    var r := Conclude(b1.values, b2, available, s);
    if b2.halt == Some(Stalled) {
      SecondStalls(b1, b2, available, s, modes, l0);
      EndsComplete(r, l0, available, s, modes);
    } else if b2.halt.Some? {
      SecondWaveFails(b1, b2, available, s, modes, l0);
      EndsAtWave(r, l0, available, s, modes, C2);
    } else if !(s.ch1 && s.ch2) {
      OneChannelFinishes(b1, b2, available, s, modes, l0);
      EndsComplete(r, l0, available, s, modes);
    } else {
      SkewPairFollowsPlan(b1.values, b2, available);
      BothChannelsSkew(b1, b2, r.scope.link, available, s, modes, l0);
      EndsComplete(r, l0, available, s, modes);
    }
  }

  /** After the configuration, a run issues the whole channels' part, or
      stops after the waveform query of an enabled channel whose reply is
      missing or malformed. */
  lemma ChannelsFollowPlan(sc: Scope, available: bool, s: Settings, modes: seq<string>)
    ensures ChannelsEnd(Channels(sc, available, s, modes), sc.link, available, s, modes)
  {
    var b1 := if s.ch1 then ChannelBlock(sc, available, C1, s.lowPass1, modes) else Block(None, sc, None);
    if s.ch1 {
      BlockFollowsPlan(sc, available, C1, s.lowPass1, modes);
    }
    if b1.halt.Some? {
      FirstStops(b1, sc.link, available, s, modes);
    } else {
      var b2 := if s.ch2 then ChannelBlock(b1.scope, available, C2, s.lowPass2, modes) else Block(None, b1.scope, None);
      if s.ch2 {
        BlockFollowsPlan(b1.scope, available, C2, s.lowPass2, modes);
      }
      ConcludeEnds(b1, b2, available, s, modes, sc.link);
      assert Channels(sc, available, s, modes) == Conclude(b1.values, b2, available, s);
    }
  }

  /* ---------------- The whole run ---------------- */

  /** The configuration sends its three commands, whatever the replies. */
  lemma ConfigureFollowsPlan(sc: Scope, available: bool, longMemory: bool)
    ensures Configure(sc, available, longMemory).scope.link == SendAll(sc.link, available, ConfigPlan(longMemory)).link
  {
  }

  /** The run stopped on the time base: the TDIV? reply was missing, was not
      a number, or gave a zero interval. */
  predicate TimeBaseHalt(st: Status)
  {
    st == Halted(TdivMissing) || st == Halted(TdivMalformed) || st == Halted(ZeroInterval)
  }

  /** The commands a run that ends with status `st` has issued: the
      configuration when it stopped on the time base, the plan up to a
      channel's waveform query when that waveform failed, and otherwise the
      whole plan. */
  function Issued(st: Status, s: Settings, modes: seq<string>): (p: seq<string>)
    ensures Sendable(p)
  {
    var config := ConfigPlan(s.longMemory);
    if TimeBaseHalt(st) then config
    else if WaveHalt(st, C1) then SendableJoin(config, UpToWave(s, C1, modes)); config + UpToWave(s, C1, modes)
    else if WaveHalt(st, C2) then SendableJoin(config, UpToWave(s, C2, modes)); config + UpToWave(s, C2, modes)
    else Plan(s, modes)
  }

  /** How a run of Acquire from state `sc` may end: with no channel it says
      so and changes nothing; a waveform fails only on an enabled channel;
      and the link is left as sending the issued commands leaves it. */
  predicate RunEnd(r: RunResult, sc: Scope, available: bool, s: Settings, modes: seq<string>)
  {
    var st := r.report.status;
    && (st == NoChannels <==> !s.ch1 && !s.ch2)
    && (st == NoChannels ==> r.scope == sc)
    && (WaveHalt(st, C1) ==> s.ch1)
    && (WaveHalt(st, C2) ==> s.ch2)
    && r.scope.link == SendAll(sc.link, available, Issued(st, s, modes)).link
  }

  /** Without a channel Acquire sends nothing. */
  lemma NoChannelsEnd(sc: Scope, available: bool, s: Settings, modes: seq<string>)
    requires !s.ch1 && !s.ch2
    ensures RunEnd(Acquire(sc, available, s, modes), sc, available, s, modes)
  {
    var st := Acquire(sc, available, s, modes).report.status;
    assert st == NoChannels;
    assert !TimeBaseHalt(st) && !WaveHalt(st, C1) && !WaveHalt(st, C2);
  }

  /** A run that stalls in the configuration sends the rest of its plan to nobody. */
  lemma ConfigStallEnd(r: RunResult, sc: Scope, available: bool, s: Settings, modes: seq<string>)
    requires s.ch1 || s.ch2
    requires r.report.status == Halted(Stalled) && r.scope.link.hung
    requires r.scope.link == SendAll(sc.link, available, ConfigPlan(s.longMemory)).link
    ensures RunEnd(r, sc, available, s, modes)
  {
    var st := r.report.status;
    assert !TimeBaseHalt(st) && !WaveHalt(st, C1) && !WaveHalt(st, C2);
    SendAllHung(r.scope.link, available, ChannelsPlan(s, modes));
    PlanAfterConfig(sc.link, available, s, modes);
  }

  /** A run that stops on the time base has sent the configuration. */
  lemma TimeBaseEnd(r: RunResult, sc: Scope, available: bool, s: Settings, modes: seq<string>)
    requires s.ch1 || s.ch2
    requires TimeBaseHalt(r.report.status)
    requires r.scope.link == SendAll(sc.link, available, ConfigPlan(s.longMemory)).link
    ensures RunEnd(r, sc, available, s, modes)
  {
    var st := r.report.status;
    assert st != NoChannels && st != Finished && st != Halted(Stalled);
    assert !WaveHalt(st, C1) && !WaveHalt(st, C2);
  }

  /** A run whose channels' part finishes or stalls has sent its whole plan. */
  lemma CompleteEnd(r: RunResult, sc: Scope, l1: Link, available: bool, s: Settings, modes: seq<string>)
    requires s.ch1 || s.ch2
    requires r.report.status == Finished || r.report.status == Halted(Stalled)
    requires l1 == SendAll(sc.link, available, ConfigPlan(s.longMemory)).link
    requires r.scope.link == SendAll(l1, available, ChannelsPlan(s, modes)).link
    ensures RunEnd(r, sc, available, s, modes)
  {
    var st := r.report.status;
    assert st != NoChannels && !TimeBaseHalt(st) && !WaveHalt(st, C1) && !WaveHalt(st, C2);
    assert Issued(st, s, modes) == Plan(s, modes);
    PlanAfterConfig(sc.link, available, s, modes);
  }

  /** A run's plan is its configuration followed by the channels' part. */
  lemma PlanAfterConfig(l: Link, available: bool, s: Settings, modes: seq<string>)
    requires s.ch1 || s.ch2
    ensures var l1 := SendAll(l, available, ConfigPlan(s.longMemory)).link;
            SendAll(l1, available, ChannelsPlan(s, modes)).link == SendAll(l, available, Plan(s, modes)).link
  {
    SendAllAppend(l, available, ConfigPlan(s.longMemory), ChannelsPlan(s, modes));
  }

  /** A run that stops at channel `ch`'s waveform has sent the plan up to that
      waveform query. */
  lemma WaveEnd(r: RunResult, sc: Scope, l1: Link, available: bool, s: Settings, modes: seq<string>, ch: Channel)
    requires (ch == C1 ==> s.ch1) && (ch == C2 ==> s.ch2) && WaveHalt(r.report.status, ch)
    requires l1 == SendAll(sc.link, available, ConfigPlan(s.longMemory)).link
    requires r.scope.link == SendAll(l1, available, UpToWave(s, ch, modes)).link
    ensures RunEnd(r, sc, available, s, modes)
  {
    IssuedAtWave(r.report.status, s, modes, ch);
    LinkAfterBoth(sc.link, available, ConfigPlan(s.longMemory), UpToWave(s, ch, modes));
  }

  /** A run stopped at channel `ch`'s waveform has issued the configuration
      and the channels' part up to that waveform query. */
  lemma IssuedAtWave(st: Status, s: Settings, modes: seq<string>, ch: Channel)
    requires WaveHalt(st, ch)
    ensures Issued(st, s, modes) == ConfigPlan(s.longMemory) + UpToWave(s, ch, modes)
    ensures st != NoChannels && (WaveHalt(st, C1) ==> ch == C1) && (WaveHalt(st, C2) ==> ch == C2)
  {
    assert !TimeBaseHalt(st);
  }

  /** The link after sending `a` and then `b` is the link after sending `a + b`. */
  lemma LinkAfterBoth(l: Link, available: bool, a: seq<string>, b: seq<string>)
    requires Sendable(a) && Sendable(b)
    ensures Sendable(a + b)
    ensures SendAll(SendAll(l, available, a).link, available, b).link == SendAll(l, available, a + b).link
  {
    SendAllAppend(l, available, a, b);
  }

  /** A run after a configuration that did not stop ends as its channels'
      part does. */
  lemma AfterConfigEnd(r: RunResult, sc: Scope, l1: Link, available: bool, s: Settings, modes: seq<string>)
    requires s.ch1 || s.ch2
    requires l1 == SendAll(sc.link, available, ConfigPlan(s.longMemory)).link
    requires ChannelsEnd(r, l1, available, s, modes)
    ensures RunEnd(r, sc, available, s, modes)
  {
    var st := r.report.status;
    if st == Finished || st == Halted(Stalled) {
      CompleteEnd(r, sc, l1, available, s, modes);
    } else if WaveHalt(st, C1) {
      WaveEnd(r, sc, l1, available, s, modes, C1);
    } else {
      WaveEnd(r, sc, l1, available, s, modes, C2);
    }
  }

  /** Whatever the instrument does, a run issues its plan (logic.py, Acquire)
      up to where it stops: all of it when it finishes or stalls, the
      configuration when the time base fails, the plan up to an enabled
      channel's waveform query when that waveform fails, and nothing without
      a channel. */
  lemma AcquireFollowsPlan(sc: Scope, available: bool, s: Settings, modes: seq<string>)
    ensures RunEnd(Acquire(sc, available, s, modes), sc, available, s, modes)
  {
    if !s.ch1 && !s.ch2 {
      NoChannelsEnd(sc, available, s, modes);
    } else {
      var c := Configure(sc, available, s.longMemory);
      ConfigureFollowsPlan(sc, available, s.longMemory);
      ConfigureStalls(sc, available, s.longMemory);
      if c.halt.Some? {
        var r := Stopped(c.halt.value, None, c.scope);
        assert Acquire(sc, available, s, modes) == r;
        if c.halt.value == Stalled {
          ConfigStallEnd(r, sc, available, s, modes);
        } else {
          TimeBaseEnd(r, sc, available, s, modes);
        }
      } else {
        var r := Channels(c.scope, available, s, modes);
        assert Acquire(sc, available, s, modes) == r;
        ChannelsFollowPlan(c.scope, available, s, modes);
        AfterConfigEnd(r, sc, c.scope.link, available, s, modes);
      }
    }
  }

  /** What a run issues is a prefix of its plan. */
  /** A run that finishes has issued its whole plan. */
  lemma IssuedFinished(s: Settings, modes: seq<string>)
    ensures Issued(Finished, s, modes) == Plan(s, modes)
  {
    assert !TimeBaseHalt(Finished) && !WaveHalt(Finished, C1) && !WaveHalt(Finished, C2);
  }

  lemma IssuedPrefix(st: Status, s: Settings, modes: seq<string>)
    requires TimeBaseHalt(st) ==> s.ch1 || s.ch2
    requires (WaveHalt(st, C1) ==> s.ch1) && (WaveHalt(st, C2) ==> s.ch2)
    ensures Issued(st, s, modes) <= Plan(s, modes)
  {
    var config := ConfigPlan(s.longMemory);
    var one := FirstPlan(s, modes);
    var two := SecondPlan(s, modes);
    if TimeBaseHalt(st) {
      PrefixOfJoin(config, config, ChannelsPlan(s, modes));
    } else if WaveHalt(st, C1) {
      var fetch := FetchPlan(C1, s.lowPass1);
      PrefixOfJoin(fetch, fetch, MeasureAllPlan(C1, modes));
      PrefixOfJoin(fetch, one, two);
      PrefixBehind(config, fetch, one + two);
    } else if WaveHalt(st, C2) {
      var fetch := FetchPlan(C2, s.lowPass2);
      PrefixOfJoin(fetch, fetch, MeasureAllPlan(C2, modes));
      PrefixOfJoin(fetch, ChannelPlan(C2, s.lowPass2, modes), if s.ch1 then SkewPlan() else []);
      PrefixBehind(one, fetch, two);
      PrefixBehind(config, one + fetch, one + two);
    }
  }

  /** Whatever the instrument does, the lines Acquire writes are those of a
      prefix of its plan, in order; a run that finishes on a link that can
      still write has written the whole plan; and a run on a link that cannot
      write (no port, or stuck in a read) leaves the link as it was. */
  lemma AcquireWritesPlan(sc: Scope, available: bool, s: Settings, modes: seq<string>)
    ensures var r := Acquire(sc, available, s, modes);
            && WrotePrefix(sc.link.written, r.scope.link.written, Plan(s, modes))
            && (r.report.status == Finished && Writes(r.scope.link, available) ==>
                  r.scope.link.written == sc.link.written + Framed(Plan(s, modes)))
            && (!Writes(sc.link, available) ==> r.scope.link == sc.link)
  {
    AcquireFollowsPlan(sc, available, s, modes);
    RunWrites(Acquire(sc, available, s, modes), sc, available, s, modes);
  }

  /** AcquireWritesPlan for any run that ends as RunEnd says. */
  lemma RunWrites(r: RunResult, sc: Scope, available: bool, s: Settings, modes: seq<string>)
    requires RunEnd(r, sc, available, s, modes)
    ensures && WrotePrefix(sc.link.written, r.scope.link.written, Plan(s, modes))
            && (r.report.status == Finished && Writes(r.scope.link, available) ==>
                  r.scope.link.written == sc.link.written + Framed(Plan(s, modes)))
            && (!Writes(sc.link, available) ==> r.scope.link == sc.link)
  {
    var st := r.report.status;
    IssuedPrefix(st, s, modes);
    if st == Finished {
      IssuedFinished(s, modes);
    }
    SendPrefixWrites(sc.link, available, Issued(st, s, modes), Plan(s, modes));
  }

  /* ---------------- The configuration ---------------- */

  /** The memory length sent and the points announced agree: long memory
      is `MLEN LONG` and 30000 points, short memory `MLEN SHORT` and 5120. */
  lemma ConfigCommands(longMemory: bool)
    ensures ConfigPlan(longMemory) ==
              if longMemory then ["MLEN LONG", "DTPOINTS 30000", "TDIV?"]
              else ["MLEN SHORT", "DTPOINTS 5120", "TDIV?"]
  {
    assert NatToString(30000) == "30000";
    assert NatToString(5120) == "5120";
    assert DtPointsCmd(PointsFor(true)) == "DTPOINTS 30000";
    assert DtPointsCmd(PointsFor(false)) == "DTPOINTS 5120";
  }

  /* ---------------- The measurements ---------------- */

  /** The i-th triple of a measurement plan measures the i-th mode. */
  lemma {:induction false} MeasureAllPlanTriple(ch: Channel, modes: seq<string>, i: nat)
    requires i < |modes|
    ensures MeasureAllPlan(ch, modes)[3 * i..3 * i + 3] == MeasurePlan(ch, modes[i])
    decreases |modes|
  {
    var init := modes[..|modes| - 1];
    var p := MeasureAllPlan(ch, modes);
    var head := MeasureAllPlan(ch, init);
    assert p == head + MeasurePlan(ch, modes[|modes| - 1]);
    if i < |init| {
      MeasureAllPlanTriple(ch, init, i);
      assert init[i] == modes[i];
      assert p[3 * i..3 * i + 3] == head[3 * i..3 * i + 3];
    } else {
      assert p[3 * i..3 * i + 3] == MeasurePlan(ch, modes[i]);
    }
  }

  /** With the program's own twelve measurements, a channel block is forty
      commands: BWL, the three wave commands and thirty-six measurement
      commands, the first triple selecting channel 1's period. */
  lemma ModesPlan(lowPass: bool)
    ensures |Modes| == 12
    ensures |MeasureAllPlan(C1, Modes)| == 36 && |ChannelPlan(C1, lowPass, Modes)| == 40
    ensures MeasureAllPlan(C1, Modes)[..3] == ["DIRM A", "MSEL CH1, PERIOD", "MSRA?"]
  {
    MeasureAllPlanTriple(C1, Modes, 0);
    assert MselCmd(C1, Modes[0]) == "MSEL CH1, PERIOD";
  }

  /** Ten divisions over the points: the interval times the points is ten
      times the time base, so it is zero exactly when the time base is. */
  lemma IntervalSpansScreen(tdiv: real, points: nat)
    requires points > 0
    ensures Interval(tdiv, points) * (points as real) == tdiv * 10.0
    ensures Interval(tdiv, points) == 0.0 <==> tdiv == 0.0
  {
  }

  /** The configuration sets the points for the memory length chosen unless
      the MLEN command itself never returns; it sets the interval from the
      TDIV? reply exactly when that reply is a number, and stops for a zero
      interval exactly when the time base is zero; otherwise it stops for
      the time-base reply's failure and leaves the interval as it was. */
  lemma ConfigureTimeBase(sc: Scope, available: bool, longMemory: bool)
    ensures var c := Configure(sc, available, longMemory);
            var run := SendAll(sc.link, available, ConfigPlan(longMemory));
            var tdiv := TdivOf(run.outcomes[2]);
            && c.scope.points == (if run.outcomes[0] == TimedOut then sc.points else Some(PointsFor(longMemory)))
            && (c.halt != Some(Stalled) ==> c.scope.points == Some(PointsFor(longMemory)))
            && (tdiv.Success? ==> && c.scope.interval == Some(Interval(tdiv.value, PointsFor(longMemory)))
                                  && (c.halt == Some(ZeroInterval) <==> tdiv.value == 0.0)
                                  && (c.halt.None? <==> tdiv.value != 0.0))
            && (tdiv.Failure? ==> c.scope.interval == sc.interval && c.halt == Some(tdiv.error))
  {
    var plan := ConfigPlan(longMemory);
    var run := SendAll(sc.link, available, plan);
    IntervalSpansScreen(1.0, PointsFor(longMemory));
    if run.outcomes[0] == TimedOut {
      SendAllThree(sc.link, available, plan[0], plan[1], plan[2]);
      assert [plan[0], plan[1], plan[2]] == plan;
    } else {
      match TdivOf(run.outcomes[2])
      case Failure(_) =>
      case Success(t) => IntervalSpansScreen(t, PointsFor(longMemory));
    }
  }

  /* ---------------- What a run leaves behind ---------------- */

  /** A channel block, in terms of the outcomes of its plan: it stops for
      its waveform reply when that is not a waveform, and otherwise for a
      stall exactly when the last measurement left the link hung; it stores
      the decoded waveform in its own channel's field and changes no other
      field but the link. */
  lemma BlockState(sc: Scope, available: bool, ch: Channel, lowPass: bool, modes: seq<string>)
    ensures var b := ChannelBlock(sc, available, ch, lowPass, modes);
            var run := SendAll(sc.link, available, ChannelPlan(ch, lowPass, modes));
            var w := WaveOf(run.outcomes[3], ch);
            && b.halt == (if w.Failure? then Some(w.error) else if run.link.hung then Some(Stalled) else None)
            && b.scope.ch1Wave == (if ch == C1 && w.Success? then Some(w.value) else sc.ch1Wave)
            && b.scope.ch2Wave == (if ch == C2 && w.Success? then Some(w.value) else sc.ch2Wave)
            && b.scope.points == sc.points && b.scope.interval == sc.interval
            && (w.Success? ==> b.scope.link == run.link)
  {
    var fetch := SendAll(sc.link, available, FetchPlan(ch, lowPass));
    var meas := SendAll(fetch.link, available, MeasureAllPlan(ch, modes));
    SendAllAppend(sc.link, available, FetchPlan(ch, lowPass), MeasureAllPlan(ch, modes));
    var run := SendAll(sc.link, available, ChannelPlan(ch, lowPass, modes));
    assert run == Run(fetch.outcomes + meas.outcomes, meas.link);
    assert run.outcomes[3] == fetch.outcomes[3];
    MeasureAllFollowsPlan(fetch.link, available, ch, modes);
  }

  /** How the end of a run reports channel 2's block and what it leaves:
      the scope of that block with the link moved on, a finished status only
      when the block did not stop, and a waveform status only for the
      block's own waveform. */
  lemma ConcludeState(ch1Values: Option<seq<Option<string>>>, b2: Block, available: bool, s: Settings)
    ensures var r := Conclude(ch1Values, b2, available, s);
            && r.scope == b2.scope.(link := r.scope.link)
            && (r.report.status == Finished ==> b2.halt.None?)
            && (WaveHalt(r.report.status, C2) ==> b2.halt == Some(r.report.status.why))
            && (WaveHalt(r.report.status, C1) ==> b2.halt == Some(r.report.status.why))
  {
    if b2.halt.None? && s.ch1 && s.ch2 {
      SkewHalts(b2.scope.link, available);
    }
  }

  /** Channel 2's block and the end of the run, once channel 1's block has
      not stopped, in terms of the outcomes of the rest of the plan: channel
      2's field gets the waveform its DTWAVE? reply decodes to, and no other
      field but the link changes. */
  lemma SecondState(b1: Block, available: bool, s: Settings, modes: seq<string>)
    requires b1.halt.None?
    ensures var r := SecondChannel(b1, available, s, modes);
            var two := SendAll(b1.scope.link, available, SecondPlan(s, modes));
            && r.scope.points == b1.scope.points && r.scope.interval == b1.scope.interval
            && r.scope.ch1Wave == b1.scope.ch1Wave
            && r.scope.ch2Wave == (if s.ch2 && WaveOf(two.outcomes[3], C2).Success?
                                   then Some(WaveOf(two.outcomes[3], C2).value) else b1.scope.ch2Wave)
  {
    var b2 := if s.ch2 then ChannelBlock(b1.scope, available, C2, s.lowPass2, modes) else Block(None, b1.scope, None);
    if s.ch2 {
      SecondOutcome(b1.scope.link, available, s, modes);
      BlockState(b1.scope, available, C2, s.lowPass2, modes);
    }
    ConcludeState(b1.values, b2, available, s);
  }

  /** Channel 2's waveform reply is the fourth outcome of the rest of the
      plan, as it is of its own block. */
  lemma SecondOutcome(l: Link, available: bool, s: Settings, modes: seq<string>)
    requires s.ch2
    ensures SendAll(l, available, SecondPlan(s, modes)).outcomes[3] ==
              SendAll(l, available, ChannelPlan(C2, s.lowPass2, modes)).outcomes[3]
  {
    var skew := if s.ch1 && s.ch2 then SkewPlan() else [];
    assert SecondPlan(s, modes) == ChannelPlan(C2, s.lowPass2, modes) + skew;
    SendAllAppend(l, available, ChannelPlan(C2, s.lowPass2, modes), skew);
  }

  /** How the end of a run reports channel 2's block, in terms of the
      outcomes of the rest of the plan: it finishes only if channel 2's
      waveform decoded, stops at channel 2's waveform only if it did not,
      and never at channel 1's. */
  lemma SecondStatus(b1: Block, available: bool, s: Settings, modes: seq<string>)
    requires b1.halt.None?
    ensures var st := SecondChannel(b1, available, s, modes).report.status;
            var two := SendAll(b1.scope.link, available, SecondPlan(s, modes));
            && (st == Finished ==> (s.ch2 ==> WaveOf(two.outcomes[3], C2).Success?))
            && (WaveHalt(st, C2) ==> s.ch2 && WaveOf(two.outcomes[3], C2).Failure?)
            && !WaveHalt(st, C1)
  {
    var b2 := if s.ch2 then ChannelBlock(b1.scope, available, C2, s.lowPass2, modes) else Block(None, b1.scope, None);
    if s.ch2 {
      SecondOutcome(b1.scope.link, available, s, modes);
      BlockState(b1.scope, available, C2, s.lowPass2, modes);
      BlockHalts(b1.scope, available, C2, s.lowPass2, modes);
    }
    ConcludeState(b1.values, b2, available, s);
  }

  /** The channels' part of a run, in terms of the outcomes of its plan:
      channel 1's field gets the waveform its DTWAVE? reply decodes to;
      channel 2's block is reached when channel 1 is off, or its waveform
      decoded and its last measurement returned, and channel 2's field then
      gets the waveform its own reply decodes to; every other field is kept. */
  lemma ChannelsState(sc: Scope, available: bool, s: Settings, modes: seq<string>)
    ensures var r := Channels(sc, available, s, modes);
            var run := SendAll(sc.link, available, ChannelsPlan(s, modes));
            var k := |FirstPlan(s, modes)|;
            var reached := s.ch1 ==> WaveOf(run.outcomes[3], C1).Success? && run.outcomes[k - 1] != TimedOut;
            && r.scope.points == sc.points && r.scope.interval == sc.interval
            && r.scope.ch1Wave == (if s.ch1 && WaveOf(run.outcomes[3], C1).Success?
                                   then Some(WaveOf(run.outcomes[3], C1).value) else sc.ch1Wave)
            && r.scope.ch2Wave == (if s.ch2 && reached && WaveOf(run.outcomes[k + 3], C2).Success?
                                   then Some(WaveOf(run.outcomes[k + 3], C2).value) else sc.ch2Wave)
  {
    var k := |FirstPlan(s, modes)|;
    var b1 := if s.ch1 then ChannelBlock(sc, available, C1, s.lowPass1, modes) else Block(None, sc, None);
    FirstOutcomes(sc, available, s, modes);
    if b1.halt.None? {
      SecondState(b1, available, s, modes);
    }
  }

  /** Channel 1's block in terms of the outcomes of the channels' plan:
      it stops exactly when its waveform reply is not a waveform or its last
      measurement never returns; it keeps every field but channel 1's and
      the link; and channel 2's waveform reply is the fourth outcome after it. */
  lemma FirstOutcomes(sc: Scope, available: bool, s: Settings, modes: seq<string>)
    ensures var b1 := if s.ch1 then ChannelBlock(sc, available, C1, s.lowPass1, modes) else Block(None, sc, None);
            var run := SendAll(sc.link, available, ChannelsPlan(s, modes));
            var k := |FirstPlan(s, modes)|;
            var reached := s.ch1 ==> WaveOf(run.outcomes[3], C1).Success? && run.outcomes[k - 1] != TimedOut;
            && (b1.halt.None? <==> reached)
            && (b1.halt.Some? ==> b1.halt.value in {Stalled, WaveMissing(C1), WaveMalformed(C1)})
            && b1.scope.points == sc.points && b1.scope.interval == sc.interval && b1.scope.ch2Wave == sc.ch2Wave
            && b1.scope.ch1Wave == (if s.ch1 && WaveOf(run.outcomes[3], C1).Success?
                                    then Some(WaveOf(run.outcomes[3], C1).value) else sc.ch1Wave)
            && (b1.halt.None? ==> s.ch2 ==>
                  SendAll(b1.scope.link, available, SecondPlan(s, modes)).outcomes[3] == run.outcomes[k + 3])
  {
    ChannelsOutcomes(sc.link, available, s, modes);
    if s.ch1 {
      BlockState(sc, available, C1, s.lowPass1, modes);
      BlockHalts(sc, available, C1, s.lowPass1, modes);
    }
  }

  /** Where the outcomes of channel 1's block and of channel 2's waveform
      query sit in the outcomes of the channels' plan. */
  lemma ChannelsOutcomes(l: Link, available: bool, s: Settings, modes: seq<string>)
    ensures var run := SendAll(l, available, ChannelsPlan(s, modes));
            var one := SendAll(l, available, FirstPlan(s, modes));
            var k := |FirstPlan(s, modes)|;
            && (s.ch1 ==> && run.outcomes[3] == one.outcomes[3]
                          && (run.outcomes[k - 1] == TimedOut <==> one.link.hung))
            && (s.ch2 ==> run.outcomes[k + 3] == SendAll(one.link, available, SecondPlan(s, modes)).outcomes[3])
  {
    if s.ch1 {
      FirstBlockOutcomes(l, available, s, modes);
    }
    if s.ch2 {
      SecondWaveOutcome(l, available, s, modes);
    }
  }

  lemma FirstBlockOutcomes(l: Link, available: bool, s: Settings, modes: seq<string>)
    requires s.ch1
    ensures var run := SendAll(l, available, ChannelsPlan(s, modes));
            var one := SendAll(l, available, FirstPlan(s, modes));
            var k := |FirstPlan(s, modes)|;
            && run.outcomes[3] == one.outcomes[3]
            && (run.outcomes[k - 1] == TimedOut <==> one.link.hung)
  {
    HeadOutcomes(l, available, FirstPlan(s, modes), SecondPlan(s, modes));
  }

  /** The fourth and the last outcome of a block `p` of at least four
      commands are the same whatever follows the block. */
  lemma HeadOutcomes(l: Link, available: bool, p: seq<string>, q: seq<string>)
    requires Sendable(p) && Sendable(q) && |p| >= 4
    ensures Sendable(p + q)
    ensures var run := SendAll(l, available, p + q);
            var one := SendAll(l, available, p);
            && run.outcomes[3] == one.outcomes[3]
            && (run.outcomes[|p| - 1] == TimedOut <==> one.link.hung)
  {
    JoinOutcome(l, available, p, q, 3);
    JoinOutcome(l, available, p, q, |p| - 1);
    SendAllLastHung(l, available, p);
  }

  lemma SecondWaveOutcome(l: Link, available: bool, s: Settings, modes: seq<string>)
    requires s.ch2
    ensures var run := SendAll(l, available, ChannelsPlan(s, modes));
            var one := SendAll(l, available, FirstPlan(s, modes));
            var k := |FirstPlan(s, modes)|;
            run.outcomes[k + 3] == SendAll(one.link, available, SecondPlan(s, modes)).outcomes[3]
  {
    JoinOutcome(l, available, FirstPlan(s, modes), SecondPlan(s, modes), |FirstPlan(s, modes)| + 3);
  }

  /** How the channels' part of a run ends, in terms of the outcomes of its
      plan: it finishes only when every enabled channel's waveform decoded
      and channel 2's block was reached, and stops at channel 2's waveform
      only when that block was reached and the reply is not a waveform. */
  lemma ChannelsStatus(sc: Scope, available: bool, s: Settings, modes: seq<string>)
    ensures var st := Channels(sc, available, s, modes).report.status;
            var run := SendAll(sc.link, available, ChannelsPlan(s, modes));
            var k := |FirstPlan(s, modes)|;
            var reached := s.ch1 ==> WaveOf(run.outcomes[3], C1).Success? && run.outcomes[k - 1] != TimedOut;
            && (st == Finished ==> reached && (s.ch2 ==> WaveOf(run.outcomes[k + 3], C2).Success?))
            && (WaveHalt(st, C2) ==> s.ch2 && reached && WaveOf(run.outcomes[k + 3], C2).Failure?)
  {
    var b1 := if s.ch1 then ChannelBlock(sc, available, C1, s.lowPass1, modes) else Block(None, sc, None);
    FirstOutcomes(sc, available, s, modes);
    if b1.halt.None? {
      SecondStatus(b1, available, s, modes);
    }
  }

  /** The outcomes of a run's whole plan are those of the configuration's
      three commands followed by those of the channels' part sent after
      it. The lemmas below speak of the two parts. */
  lemma PlanSplit(l: Link, available: bool, s: Settings, modes: seq<string>)
    requires s.ch1 || s.ch2
    ensures var cfg := SendAll(l, available, ConfigPlan(s.longMemory));
            var rest := SendAll(cfg.link, available, ChannelsPlan(s, modes));
            SendAll(l, available, Plan(s, modes)).outcomes == cfg.outcomes + rest.outcomes
  {
    SendAllAppend(l, available, ConfigPlan(s.longMemory), ChannelsPlan(s, modes));
  }

  /** In the channels' part, channel 1's DTWAVE? query is the fourth
      command and channel 2's the fourth after channel 1's `k` commands. */
  lemma WaveQueries(s: Settings, modes: seq<string>)
    ensures var k := |FirstPlan(s, modes)|;
            && (s.ch1 ==> ChannelsPlan(s, modes)[3] == DtWaveQuery)
            && (s.ch2 ==> ChannelsPlan(s, modes)[k + 3] == DtWaveQuery)
  {
    if s.ch2 {
      assert ChannelsPlan(s, modes)[|FirstPlan(s, modes)| + 3] == SecondPlan(s, modes)[3];
    }
  }

  /** What a run of Acquire leaves in the state it keeps between runs, in
      terms of the outcomes of its plan: `cfg` those of the configuration
      (MLEN first, TDIV? third) and `rest` those of the channels' part sent
      after it (channel 1's DTWAVE? query fourth, its last measurement
      `k`-th, channel 2's DTWAVE? query fourth after channel 1's `k`
      commands): the points are set unless MLEN never returns, and the
      interval exactly when the TDIV? reply is a number; the run goes on
      past the configuration exactly when that interval is not zero.
      Channel 1's field then gets the waveform its reply decodes to;
      channel 2's gets its own once channel 1's waveform decoded and its
      measurements all returned. A channel that is off, not reached or
      whose reply is not a waveform keeps its field, so channel 1's
      waveform stays when channel 2's fails. */
  lemma AcquireState(sc: Scope, available: bool, s: Settings, modes: seq<string>)
    requires s.ch1 || s.ch2
    ensures var r := Acquire(sc, available, s, modes);
            var cfg := SendAll(sc.link, available, ConfigPlan(s.longMemory));
            var rest := SendAll(cfg.link, available, ChannelsPlan(s, modes));
            var tdiv := TdivOf(cfg.outcomes[2]);
            var configured := cfg.outcomes[0] != TimedOut && tdiv.Success? && tdiv.value != 0.0;
            var k := |FirstPlan(s, modes)|;
            var reached := configured && (s.ch1 ==> WaveOf(rest.outcomes[3], C1).Success? && rest.outcomes[k - 1] != TimedOut);
            && r.scope.points == (if cfg.outcomes[0] == TimedOut then sc.points else Some(PointsFor(s.longMemory)))
            && r.scope.interval == (if tdiv.Success? then Some(Interval(tdiv.value, PointsFor(s.longMemory))) else sc.interval)
            && r.scope.ch1Wave == (if s.ch1 && configured && WaveOf(rest.outcomes[3], C1).Success?
                                   then Some(WaveOf(rest.outcomes[3], C1).value) else sc.ch1Wave)
            && r.scope.ch2Wave == (if s.ch2 && reached && WaveOf(rest.outcomes[k + 3], C2).Success?
                                   then Some(WaveOf(rest.outcomes[k + 3], C2).value) else sc.ch2Wave)
  {
    var c := Configure(sc, available, s.longMemory);
    ConfigOutcomes(sc, available, s.longMemory);
    if c.halt.None? {
      ConfiguredState(sc, available, s, modes);
    }
  }

  /** AcquireState once the configuration has not stopped: the channels'
      part decides the waveforms. */
  lemma ConfiguredState(sc: Scope, available: bool, s: Settings, modes: seq<string>)
    requires s.ch1 || s.ch2
    requires Configure(sc, available, s.longMemory).halt.None?
    ensures var r := Acquire(sc, available, s, modes);
            var c := Configure(sc, available, s.longMemory);
            var rest := SendAll(c.scope.link, available, ChannelsPlan(s, modes));
            var k := |FirstPlan(s, modes)|;
            var reached := s.ch1 ==> WaveOf(rest.outcomes[3], C1).Success? && rest.outcomes[k - 1] != TimedOut;
            && r.scope.points == c.scope.points && r.scope.interval == c.scope.interval
            && r.scope.ch1Wave == (if s.ch1 && WaveOf(rest.outcomes[3], C1).Success?
                                   then Some(WaveOf(rest.outcomes[3], C1).value) else c.scope.ch1Wave)
            && r.scope.ch2Wave == (if s.ch2 && reached && WaveOf(rest.outcomes[k + 3], C2).Success?
                                   then Some(WaveOf(rest.outcomes[k + 3], C2).value) else c.scope.ch2Wave)
  {
    ChannelsState(Configure(sc, available, s.longMemory).scope, available, s, modes);
  }

  /** The configuration in terms of its outcomes: it stops exactly when
      MLEN never returns or the TDIV? reply gives no interval or a zero
      one; it sets the points and the interval as
      AcquireState says and leaves the waveforms alone. */
  lemma ConfigOutcomes(sc: Scope, available: bool, longMemory: bool)
    ensures var c := Configure(sc, available, longMemory);
            var cfg := SendAll(sc.link, available, ConfigPlan(longMemory));
            var tdiv := TdivOf(cfg.outcomes[2]);
            && (c.halt.None? <==> cfg.outcomes[0] != TimedOut && tdiv.Success? && tdiv.value != 0.0)
            && c.scope.points == (if cfg.outcomes[0] == TimedOut then sc.points else Some(PointsFor(longMemory)))
            && c.scope.interval == (if tdiv.Success? then Some(Interval(tdiv.value, PointsFor(longMemory))) else sc.interval)
            && c.scope.ch1Wave == sc.ch1Wave && c.scope.ch2Wave == sc.ch2Wave
  {
    ConfigureTimeBase(sc, available, longMemory);
    var plan := ConfigPlan(longMemory);
    var run := SendAll(sc.link, available, plan);
    if run.outcomes[0] == TimedOut {
      SendAllThree(sc.link, available, plan[0], plan[1], plan[2]);
      assert [plan[0], plan[1], plan[2]] == plan;
    }
  }

  /** How a run of Acquire ends, in terms of the outcomes of its plan, as
      in AcquireState: it finishes only when the configuration gave a
      non-zero interval, every enabled channel's waveform decoded and
      channel 1's measurements all returned; it stops at channel 2's
      waveform only when that channel was reached and its reply is not a
      waveform. */
  lemma AcquireStatus(sc: Scope, available: bool, s: Settings, modes: seq<string>)
    requires s.ch1 || s.ch2
    ensures var st := Acquire(sc, available, s, modes).report.status;
            var cfg := SendAll(sc.link, available, ConfigPlan(s.longMemory));
            var rest := SendAll(cfg.link, available, ChannelsPlan(s, modes));
            var tdiv := TdivOf(cfg.outcomes[2]);
            var configured := cfg.outcomes[0] != TimedOut && tdiv.Success? && tdiv.value != 0.0;
            var k := |FirstPlan(s, modes)|;
            var reached := configured && (s.ch1 ==> WaveOf(rest.outcomes[3], C1).Success? && rest.outcomes[k - 1] != TimedOut);
            && (st == Finished ==> reached && (s.ch2 ==> WaveOf(rest.outcomes[k + 3], C2).Success?))
            && (WaveHalt(st, C2) ==> s.ch2 && reached && WaveOf(rest.outcomes[k + 3], C2).Failure?)
  {
    var c := Configure(sc, available, s.longMemory);
    ConfigHalts(sc, available, s.longMemory);
    if c.halt.None? {
      ConfigureFollowsPlan(sc, available, s.longMemory);
      ChannelsStatus(c.scope, available, s, modes);
    }
  }

  /** The configuration stops exactly when MLEN never returns or the TDIV?
      reply gives no interval or a zero one, and never for a waveform. */
  lemma ConfigHalts(sc: Scope, available: bool, longMemory: bool)
    ensures var c := Configure(sc, available, longMemory);
            var cfg := SendAll(sc.link, available, ConfigPlan(longMemory));
            var tdiv := TdivOf(cfg.outcomes[2]);
            && (c.halt.None? <==> cfg.outcomes[0] != TimedOut && tdiv.Success? && tdiv.value != 0.0)
            && (c.halt.Some? ==> c.halt.value in {Stalled, TdivMissing, TdivMalformed, ZeroInterval})
  {
    ConfigOutcomes(sc, available, longMemory);
    ConfigureStalls(sc, available, longMemory);
  }

  /** A run that finishes leaves every enabled channel's decoded waveform,
      the points for the memory length and the interval from the time base. */
  lemma AcquireFinishedState(sc: Scope, available: bool, s: Settings, modes: seq<string>)
    requires s.ch1 || s.ch2
    ensures var r := Acquire(sc, available, s, modes);
            var cfg := SendAll(sc.link, available, ConfigPlan(s.longMemory));
            var rest := SendAll(cfg.link, available, ChannelsPlan(s, modes));
            var k := |FirstPlan(s, modes)|;
            r.report.status == Finished ==>
              && TdivOf(cfg.outcomes[2]).Success?
              && r.scope.points == Some(PointsFor(s.longMemory))
              && r.scope.interval == Some(Interval(TdivOf(cfg.outcomes[2]).value, PointsFor(s.longMemory)))
              && (s.ch1 ==> WaveOf(rest.outcomes[3], C1).Success? && r.scope.ch1Wave == Some(WaveOf(rest.outcomes[3], C1).value))
              && (s.ch2 ==> WaveOf(rest.outcomes[k + 3], C2).Success? && r.scope.ch2Wave == Some(WaveOf(rest.outcomes[k + 3], C2).value))
  {
    AcquireState(sc, available, s, modes);
    AcquireStatus(sc, available, s, modes);
  }

  /** A run that stops at channel 2's waveform keeps channel 2's field as
      it was and, with channel 1 enabled, leaves channel 1's decoded
      waveform in place. */
  lemma AcquireSecondWaveFails(sc: Scope, available: bool, s: Settings, modes: seq<string>)
    requires s.ch1 || s.ch2
    ensures var r := Acquire(sc, available, s, modes);
            var cfg := SendAll(sc.link, available, ConfigPlan(s.longMemory));
            var rest := SendAll(cfg.link, available, ChannelsPlan(s, modes));
            WaveHalt(r.report.status, C2) ==>
              && s.ch2 && r.scope.ch2Wave == sc.ch2Wave
              && (s.ch1 ==> WaveOf(rest.outcomes[3], C1).Success? && r.scope.ch1Wave == Some(WaveOf(rest.outcomes[3], C1).value))
  {
    AcquireState(sc, available, s, modes);
    AcquireStatus(sc, available, s, modes);
  }

  /* ---------------- What a run displays ---------------- */

  /** A channel's measurements are displayed only when the channel is
      enabled, the SKEW pair only with both channels and channel 2's skew
      only after channel 1's; a run that finishes has displayed every
      enabled channel's measurements and, with both channels, both skews. */
  predicate ReportShape(rep: Report, s: Settings)
  {
    && (rep.ch1Values.Some? ==> s.ch1)
    && (rep.ch2Values.Some? ==> s.ch2)
    && (rep.ch1Skew.Some? ==> s.ch1 && s.ch2)
    && (rep.ch2Skew.Some? ==> rep.ch1Skew.Some?)
    && (rep.status == Finished ==>
          && (rep.ch1Values.Some? <==> s.ch1)
          && (rep.ch2Values.Some? <==> s.ch2)
          && (rep.ch2Skew.Some? <==> s.ch1 && s.ch2))
  }

  /** The end of a run displays what ReportShape says. */
  lemma ConcludeReport(b1: Block, b2: Block, available: bool, s: Settings)
    requires b1.halt.None? && (b1.values.Some? <==> s.ch1)
    requires s.ch2 ==> (b2.halt.None? <==> b2.values.Some?)
    requires !s.ch2 ==> b2 == Block(None, b1.scope, None)
    ensures ReportShape(Conclude(b1.values, b2, available, s).report, s)
  {
    if b2.halt.None? && s.ch1 && s.ch2 {
      SkewHalts(b2.scope.link, available);
    }
  }

  /** What the channels' part of a run displays. */
  lemma ChannelsReport(sc: Scope, available: bool, s: Settings, modes: seq<string>)
    ensures ReportShape(Channels(sc, available, s, modes).report, s)
  {
    var b1 := if s.ch1 then ChannelBlock(sc, available, C1, s.lowPass1, modes) else Block(None, sc, None);
    if s.ch1 {
      BlockHalts(sc, available, C1, s.lowPass1, modes);
    }
    if b1.halt.None? {
      var b2 := if s.ch2 then ChannelBlock(b1.scope, available, C2, s.lowPass2, modes) else Block(None, b1.scope, None);
      if s.ch2 {
        BlockHalts(b1.scope, available, C2, s.lowPass2, modes);
      }
      ConcludeReport(b1, b2, available, s);
      assert Channels(sc, available, s, modes) == Conclude(b1.values, b2, available, s);
    }
  }

  /** What a run of Acquire displays (ReportShape). */
  lemma AcquireReport(sc: Scope, available: bool, s: Settings, modes: seq<string>)
    ensures ReportShape(Acquire(sc, available, s, modes).report, s)
  {
    if s.ch1 || s.ch2 {
      var c := Configure(sc, available, s.longMemory);
      if c.halt.None? {
        ChannelsReport(c.scope, available, s, modes);
      }
    }
  }

  /** With no port to open, every command fails before anything is written:
      the points are set, the TDIV? reply is None, and `float(None)` stops
      the run; the link is left as it was. */
  lemma AcquireWithoutPort(sc: Scope, s: Settings, modes: seq<string>)
    requires !sc.link.portOpen && !sc.link.hung && (s.ch1 || s.ch2)
    ensures Acquire(sc, false, s, modes) ==
              Stopped(TdivMissing, None, sc.(points := Some(PointsFor(s.longMemory))))
  {
    var plan := ConfigPlan(s.longMemory);
    SendAllThree(sc.link, false, plan[0], plan[1], plan[2]);
    assert [plan[0], plan[1], plan[2]] == plan;
  }
}
