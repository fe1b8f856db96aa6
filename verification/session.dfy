/** The program's engine as the object it is (logic.py, class Main): the serial
    link and the oscilloscope state are fields that its methods update in
    place, one exchange at a time. Each method is proved against the function
    of the Protocol or Acquisition module that specifies it, so the properties
    proved there (the command plan a run follows, how and why it stops, the
    shape of what it displays) hold of the object's state. */
module Session {
  import opened Wrappers
  import opened Text
  import opened Frames
  import opened Commands
  import opened Protocol
  import opened Acquisition

  class ScopeSession {
    /** The instrument's bytes not yet read. */
    var inbuf: seq<byte>
    /** Every line written to the port, in order. */
    var written: seq<string>
    /** `self.serial_port` is set. */
    var portOpen: bool
    /** How many times a port was opened. */
    var opens: nat
    /** A read found no further byte: the program waits forever. */
    var hung: bool
    /** Whether opening the port chosen in the combo box succeeds. */
    const portAvailable: bool

    /** `self.points`, `self.interval`, `self.ch1_wave`, `self.ch2_wave`. */
    var points: Option<nat>
    var interval: Option<real>
    var ch1Wave: Option<seq<real>>
    var ch2Wave: Option<seq<real>>

    function LinkState(): Link
      reads this
    {
      Link(inbuf, written, portOpen, opens, hung)
    }

    function State(): Scope
      reads this
    {
      Scope(LinkState(), points, interval, ch1Wave, ch2Wave)
    }

    /** The port is opened at most once, and is open exactly when it was. */
    ghost predicate Valid()
      reads this
    {
      OpenedOnce(LinkState())
    }

    /** `__init__`: no port open, nothing written, nothing acquired;
        `instrument` is everything the instrument will send. */
    constructor (instrument: seq<byte>, available: bool)
      ensures Valid() && portAvailable == available
      ensures State() == Scope(Link(instrument, [], false, 0, false), None, None, None, None)
    {
      inbuf, written, portOpen, opens, hung := instrument, [], false, 0, false;
      portAvailable := available;
      points, interval, ch1Wave, ch2Wave := None, None, None, None;
    }

    /** check_serial_port: opens the port when none is open. */
    method CheckSerialPort()
      modifies this
      ensures LinkState() == CheckPort(old(LinkState()), portAvailable)
      ensures State() == old(State()).(link := LinkState())
    {
      if !portOpen && portAvailable {
        portOpen := true;
        opens := opens + 1;
      }
    }

    /** readlineCR: reads one byte at a time until the ack byte, which is
        returned as the ack whatever was gathered, or a line feed, which ends
        the gathered line. `None` is a read that never returns (the stream
        has run out). */
    method ReadlineCR() returns (frame: Option<Frame>)
      modifies this
      ensures ReadFrame(old(inbuf)) == FrameRead(frame, inbuf)
      ensures LinkState() == old(LinkState()).(inbuf := inbuf)
      ensures State() == old(State()).(link := LinkState())
    {
      var rv: string := "";
      while inbuf != []
        invariant ReadFrom(inbuf, rv) == ReadFrom(old(inbuf), "")
        invariant LinkState() == old(LinkState()).(inbuf := inbuf)
        invariant State() == old(State()).(link := LinkState())
        decreases |inbuf|
      {
        var b := inbuf[0];
        inbuf := inbuf[1..];
        if b == ACK {
          return Some(Ack);
        }
        rv := rv + [Char(b)];
        if b == LF {
          return Some(Line(rv));
        }
      }
      return None;
    }

    /** _sendCommand: opens the port if need be, writes the command with CR
        LF, reads the acknowledgment and, for a query, the reply line, which
        is returned with CR and LF stripped from both ends. Once a read has
        not returned, nothing further happens. */
    method SendCommand(cmd: string) returns (outcome: Outcome)
      requires |cmd| > 0 && Valid()
      modifies this
      ensures Valid()
      ensures Send(old(LinkState()), portAvailable, cmd) == Sent(outcome, LinkState())
      ensures State() == old(State()).(link := LinkState())
    {
      if hung {
        return TimedOut;
      }
      CheckSerialPort();
      if !portOpen {
        return PortError;
      }
      written := written + [cmd + CRLF];
      var reply := ReadlineCR();
      if reply.None? {
        hung := true;
        return TimedOut;
      }
      if FrameText(reply.value) != "ack" {
        return Nacked;
      }
      if IsQuery(cmd) {
        reply := ReadlineCR();
        if reply.None? {
          hung := true;
          return TimedOut;
        }
      }
      return Answer(Strip(FrameText(reply.value), LineEnds));
    }

    /** acquireWave: shows the trace, selects it as the waveform source, asks
        for the samples and decodes them. */
    method AcquireWave(ch: Channel) returns (wave: Result<seq<real>, Halt>)
      requires Valid()
      modifies this
      ensures Valid()
      ensures Acquisition.AcquireWave(old(LinkState()), portAvailable, ch) == Fetched(wave, LinkState())
      ensures State() == old(State()).(link := LinkState())
    {
      ghost var l0 := LinkState();
      var tra := SendCommand(TraCmd(ch, true));
      var src := SendCommand(WaveSrcCmd(ch));
      var data := SendCommand(DtWaveQuery);
      wave := WaveOf(data, ch);
      WaveStepwise(l0, portAvailable, ch);
    }

    /** measure: selects the measurement on the channel and returns what
        `MSRA?` returns. */
    method Measure(ch: Channel, mode: string) returns (value: Option<string>)
      requires Valid()
      modifies this
      ensures Valid()
      ensures var m := Acquisition.Measure(old(LinkState()), portAvailable, ch, mode);
              value == Returned(m.outcome) && LinkState() == m.link
      ensures State() == old(State()).(link := LinkState())
    {
      ghost var l0 := LinkState();
      var dirm := SendCommand(DirmCmd);
      var msel := SendCommand(MselCmd(ch, mode));
      var msra := SendCommand(MsraQuery);
      value := Returned(msra);
      MeasureStepwise(l0, portAvailable, ch, mode);
    }

    /** The measurements of one channel block, one measure per mode, in order. */
    method MeasureAll(ch: Channel, modes: seq<string>) returns (values: seq<Option<string>>)
      requires Valid()
      modifies this
      ensures Valid()
      ensures Acquisition.MeasureAll(old(LinkState()), portAvailable, ch, modes) == Measured(values, LinkState())
      ensures State() == old(State()).(link := LinkState())
    {
      ghost var l0 := LinkState();
      values := [];
      for i := 0 to |modes|
        invariant Valid()
        invariant Acquisition.MeasureAll(l0, portAvailable, ch, modes[..i]) == Measured(values, LinkState())
        invariant State() == old(State()).(link := LinkState())
      {
        ghost var prev := Measured(values, LinkState());
        var v := Measure(ch, modes[i]);
        values := values + [v];
        assert modes[..i + 1][..i] == modes[..i] && modes[..i + 1][i] == modes[i];
        assert Acquisition.MeasureAll(l0, portAvailable, ch, modes[..i + 1])
            == Measured(prev.values + [v], Acquisition.Measure(prev.link, portAvailable, ch, modes[i]).link);
      }
      assert modes[..|modes|] == modes;
    }

    /** The first part of Acquire: memory length, then `self.points`, the
        number of points, and `self.interval` from the TDIV? reply. A read
        that never returns after MLEN stops everything there. */
    method Configure(longMemory: bool) returns (halt: Option<Halt>)
      requires Valid()
      modifies this
      ensures Valid()
      ensures Acquisition.Configure(old(State()), portAvailable, longMemory) == Step(halt, State())
    {
      ghost var sc0 := State();
      ghost var run := SendAll(sc0.link, portAvailable, ConfigPlan(longMemory));
      var mlen := SendCommand(MlenCmd(longMemory));
      if mlen == TimedOut {
        SendAllThree(sc0.link, portAvailable, MlenCmd(longMemory), DtPointsCmd(PointsFor(longMemory)), TdivQuery);
        assert run.outcomes[0] == TimedOut && run.link == LinkState();
        return Some(Stalled);
      }
      points := Some(PointsFor(longMemory));
      var dtpoints := SendCommand(DtPointsCmd(PointsFor(longMemory)));
      var tdiv := SendCommand(TdivQuery);
      SendAllThree(sc0.link, portAvailable, MlenCmd(longMemory), DtPointsCmd(PointsFor(longMemory)), TdivQuery);
      assert run.outcomes[0] != TimedOut && run.outcomes[2] == tdiv && run.link == LinkState();
      match TdivOf(tdiv)
      case Failure(why) =>
        return Some(why);
      case Success(t) =>
        interval := Some(Interval(t, PointsFor(longMemory)));
        return if Interval(t, PointsFor(longMemory)) == 0.0 then Some(ZeroInterval) else None;
    }

    /** One channel block of Acquire: the low-pass filter, the waveform, kept
        in the channel's field, then the measurements, displayed once all
        have returned. */
    method ChannelBlock(ch: Channel, lowPass: bool, modes: seq<string>) returns (halt: Option<Halt>, values: Option<seq<Option<string>>>)
      requires Valid()
      modifies this
      ensures Valid()
      ensures Acquisition.ChannelBlock(old(State()), portAvailable, ch, lowPass, modes) == Block(halt, State(), values)
    {
      ghost var sc0 := State();
      ghost var fetch := SendAll(sc0.link, portAvailable, FetchPlan(ch, lowPass));
      var bwl := SendCommand(BwlCmd(ch, lowPass));
      var wave := AcquireWave(ch);
      FetchStepwise(sc0.link, portAvailable, ch, lowPass);
      assert fetch.link == LinkState() && WaveOf(fetch.outcomes[3], ch) == wave;
      if wave.Failure? {
        return Some(wave.error), None;
      }
      KeepWave(ch, wave.value);
      assert Acquisition.ChannelBlock(sc0, portAvailable, ch, lowPass, modes)
          == Acquisition.Measurements(State(), LinkState(), portAvailable, ch, modes);
      halt, values := Measurements(ch, modes);
    }

    /** `self.ch1_wave` or `self.ch2_wave` takes the acquired samples. */
    method KeepWave(ch: Channel, wave: seq<real>)
      modifies this
      ensures State() == SetWave(old(State()), ch, wave)
    {
      if ch == C1 {
        ch1Wave := Some(wave);
      } else {
        ch2Wave := Some(wave);
      }
    }

    /** The measurement part of a channel block, once the wave is in: the
        values are displayed only if every measure has returned. */
    method Measurements(ch: Channel, modes: seq<string>) returns (halt: Option<Halt>, values: Option<seq<Option<string>>>)
      requires Valid()
      modifies this
      ensures Valid()
      ensures Acquisition.Measurements(old(State()), old(LinkState()), portAvailable, ch, modes) == Block(halt, State(), values)
    {
      var vs := MeasureAll(ch, modes);
      if hung {
        return Some(Stalled), None;
      }
      return None, Some(vs);
    }

    /** The SKEW pair: channel 1's skew is displayed before channel 2's is
        asked for. */
    method Skew() returns (halt: Option<Halt>, skew1: Option<Option<string>>, skew2: Option<Option<string>>)
      requires Valid()
      modifies this
      ensures Valid()
      ensures Acquisition.Skew(old(LinkState()), portAvailable) == Skewed(halt, LinkState(), skew1, skew2)
      ensures State() == old(State()).(link := LinkState())
    {
      var v1 := Measure(C1, SkewMode);
      if hung {
        return Some(Stalled), None, None;
      }
      var v2 := Measure(C2, SkewMode);
      if hung {
        return Some(Stalled), Some(v1), None;
      }
      return None, Some(v1), Some(v2);
    }

    /** Acquire, taking the measurements `modes` on each enabled channel
        (the program's own list is `Modes`). A run that stops returns what
        it has displayed so far. */
    method Acquire(s: Settings, modes: seq<string>) returns (report: Report)
      requires Valid()
      modifies this
      ensures Valid()
      ensures Acquisition.Acquire(old(State()), portAvailable, s, modes) == RunResult(report, State())
    {
      if !s.ch1 && !s.ch2 {
        return Report(NoChannels, None, None, None, None);
      }
      var halt := Configure(s.longMemory);
      if halt.Some? {
        return Report(Halted(halt.value), None, None, None, None);
      }
      report := Channels(s, modes);
    }

    /** The part of Acquire after the configuration: channel 1's block. */
    method Channels(s: Settings, modes: seq<string>) returns (report: Report)
      requires Valid()
      modifies this
      ensures Valid()
      ensures Acquisition.Channels(old(State()), portAvailable, s, modes) == RunResult(report, State())
    {
      var values1: Option<seq<Option<string>>> := None;
      if s.ch1 {
        var halt;
        halt, values1 := ChannelBlock(C1, s.lowPass1, modes);
        if halt.Some? {
          return Report(Halted(halt.value), None, None, None, None);
        }
      }
      report := SecondChannel(values1, s, modes);
    }

    /** Channel 2's block, once channel 1's has not stopped, then the SKEW
        pair when both channels are enabled. */
    method SecondChannel(values1: Option<seq<Option<string>>>, s: Settings, modes: seq<string>) returns (report: Report)
      requires Valid()
      modifies this
      ensures Valid()
      ensures Acquisition.SecondChannel(Block(None, old(State()), values1), portAvailable, s, modes) == RunResult(report, State())
    {
      var halt: Option<Halt> := None;
      var values2: Option<seq<Option<string>>> := None;
      if s.ch2 {
        halt, values2 := ChannelBlock(C2, s.lowPass2, modes);
      }
      if halt.Some? {
        return Report(Halted(halt.value), values1, None, None, None);
      }
      if !(s.ch1 && s.ch2) {
        return Report(Finished, values1, values2, None, None);
      }
      var skewHalt, skew1, skew2 := Skew();
      return Report(if skewHalt.Some? then Halted(skewHalt.value) else Finished, values1, values2, skew1, skew2);
    }

    /** aset: auto-setup; the reply is shown in the status bar. */
    method Aset() returns (shown: Option<string>)
      requires Valid()
      modifies this
      ensures Valid()
      ensures var r := Send(old(LinkState()), portAvailable, AsetCmd);
              shown == Returned(r.outcome) && LinkState() == r.link
      ensures State() == old(State()).(link := LinkState())
    {
      var outcome := SendCommand(AsetCmd);
      shown := Returned(outcome);
    }

    /** ch_toggled: each channel's trace on or off, as its check box says. */
    method ChToggled(ch1On: bool, ch2On: bool)
      requires Valid()
      modifies this
      ensures Valid()
      ensures Sendable([TraCmd(C1, ch1On), TraCmd(C2, ch2On)])
      ensures LinkState() == SendAll(old(LinkState()), portAvailable, [TraCmd(C1, ch1On), TraCmd(C2, ch2On)]).link
      ensures State() == old(State()).(link := LinkState())
    {
      ghost var l0 := LinkState();
      var reply := SendCommand(TraCmd(C1, ch1On));
      reply := SendCommand(TraCmd(C2, ch2On));
      SendPair(l0, portAvailable, TraCmd(C1, ch1On), TraCmd(C2, ch2On));
    }

    /** ch_coupling_changed: each channel's coupling, as its combo box says. */
    method CouplingChanged(coupling1: string, coupling2: string)
      requires Valid()
      modifies this
      ensures Valid()
      ensures Sendable([CplCmd(C1, coupling1), CplCmd(C2, coupling2)])
      ensures LinkState() == SendAll(old(LinkState()), portAvailable, [CplCmd(C1, coupling1), CplCmd(C2, coupling2)]).link
      ensures State() == old(State()).(link := LinkState())
    {
      ghost var l0 := LinkState();
      var reply := SendCommand(CplCmd(C1, coupling1));
      reply := SendCommand(CplCmd(C2, coupling2));
      SendPair(l0, portAvailable, CplCmd(C1, coupling1), CplCmd(C2, coupling2));
    }

    /** persist_toggled: persistence on or off. */
    method PersistToggled(on: bool)
      requires Valid()
      modifies this
      ensures Valid()
      ensures LinkState() == Send(old(LinkState()), portAvailable, PersCmd(on)).link
      ensures State() == old(State()).(link := LinkState())
    {
      var reply := SendCommand(PersCmd(on));
    }

    /** equiv_toggled: equivalent-time sampling on or off. */
    method EquivToggled(on: bool)
      requires Valid()
      modifies this
      ensures Valid()
      ensures LinkState() == Send(old(LinkState()), portAvailable, EquCmd(on)).link
      ensures State() == old(State()).(link := LinkState())
    {
      var reply := SendCommand(EquCmd(on));
    }
  }

  /** Two commands through SendAll are the two sent one after the other. */
  lemma SendPair(l: Link, available: bool, x: string, y: string)
    requires |x| > 0 && |y| > 0
    ensures Sendable([x, y])
    ensures SendAll(l, available, [x, y]).link == Send(Send(l, available, x).link, available, y).link
  {
    SendAllSnoc(l, available, [], x);
    assert [] + [x] == [x];
    SendAllSnoc(l, available, [x], y);
    assert [x] + [y] == [x, y];
  }
}
