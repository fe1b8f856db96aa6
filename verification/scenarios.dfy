/** Exchanges with a well-behaved instrument, worked out byte by byte: what
    measure and acquireWave (logic.py) return and leave behind when every
    command is acknowledged and every query answered. */
module Scenarios {
  import opened Wrappers
  import opened Numbers
  import opened Frames
  import opened Commands
  import opened Waveform
  import opened Protocol
  import opened Acquisition

  /** The link after three acknowledged commands that consumed the first
      `|l.inbuf| - |rest|` bytes. */
  function AfterThree(l: Link, cmds: seq<string>, rest: seq<byte>): Link
    requires |cmds| == 3
  {
    l.(portOpen := true, opens := l.opens + (if l.portOpen then 0 else 1),
       written := l.written + [cmds[0] + CRLF, cmds[1] + CRLF, cmds[2] + CRLF], inbuf := rest)
  }

  /** Two acknowledged actions and an answered query: each is written once,
      in order, and the query returns exactly the text of its reply line. */
  lemma ThreeExchanges(l: Link, available: bool, x: string, y: string, q: string, t: string, rest: seq<byte>)
    requires |x| > 0 && |y| > 0 && |q| > 0
    requires !IsQuery(x) && !IsQuery(y) && IsQuery(q) && Writes(l, available)
    requires ReplyText(t)
    requires l.inbuf == [ACK, ACK, ACK] + ReplyBytes(t) + rest
    ensures var sx := Send(l, available, x);
            var sy := Send(sx.link, available, y);
            var sq := Send(sy.link, available, q);
            sx.outcome == Answer("ack") && sy.outcome == Answer("ack")
            && sq == Sent(Answer(t), AfterThree(l, [x, y, q], rest))
  {
    var tail := [ACK] + ReplyBytes(t) + rest;
    assert l.inbuf == [ACK] + ([ACK] + tail);
    ActionExchange(l, available, x, [ACK] + tail);
    var sx := Send(l, available, x);
    assert Writes(sx.link, available);
    ActionExchange(sx.link, available, y, tail);
    var sy := Send(sx.link, available, y);
    assert Writes(sy.link, available);
    assert sy.link.inbuf == [ACK] + ReplyBytes(t) + rest;
    QueryExchange(sy.link, available, q, t, rest);
  }

  /** measure against an instrument that acknowledges DIRM A and the MSEL
      selection and answers MSRA? with the line `t`: the value returned is
      `t`, and the three commands were written in order. */
  lemma MeasureAnswered(l: Link, available: bool, ch: Channel, mode: string, t: string, rest: seq<byte>)
    requires !IsQuery(mode) && Writes(l, available) && ReplyText(t)
    requires l.inbuf == [ACK, ACK, ACK] + ReplyBytes(t) + rest
    ensures Measure(l, available, ch, mode) == Sent(Answer(t), AfterThree(l, MeasurePlan(ch, mode), rest))
  {
    FixedCommandKinds();
    MeasureStepwise(l, available, ch, mode);
    ThreeExchanges(l, available, DirmCmd, MselCmd(ch, mode), MsraQuery, t, rest);
  }

  /** measure keeps nothing between calls: two calls with the same channel
      and mode each write all three commands again, unless the link can no
      longer write at the end. */
  lemma MeasureNoCache(l: Link, available: bool, ch: Channel, mode: string)
    ensures var m1 := Measure(l, available, ch, mode);
            var m2 := Measure(m1.link, available, ch, mode);
            Writes(m2.link, available) ==>
              m2.link.written == l.written + Framed(MeasurePlan(ch, mode)) + Framed(MeasurePlan(ch, mode))
  {
    var plan := MeasurePlan(ch, mode);
    var m1 := Measure(l, available, ch, mode);
    var m2 := Measure(m1.link, available, ch, mode);
    if Writes(m2.link, available) {
      SendAllCount(m1.link, available, plan);
      SendPrefixWrites(l, available, plan, plan);
      SendPrefixWrites(m1.link, available, plan, plan);
    }
  }

  /** The characters of integer text joined with commas: digits, signs and
      commas, starting with a digit or a sign and ending with a digit. */
  predicate NumberChar(c: char) { IsDigit(c) || c == '-' || c == ',' }

  lemma {:induction false} JoinNumbers(parts: seq<string>)
    requires |parts| > 0
    requires forall i :: 0 <= i < |parts| ==> |parts[i]| > 0
    requires forall i :: 0 <= i < |parts| ==> IsDigit(parts[i][0]) || parts[i][0] == '-'
    requires forall i :: 0 <= i < |parts| ==> IsDigit(parts[i][|parts[i]| - 1])
    requires forall i, j :: 0 <= i < |parts| && 0 <= j < |parts[i]| ==> NumberChar(parts[i][j])
    ensures var t := Join(parts, ',');
            && |t| > 0 && (IsDigit(t[0]) || t[0] == '-') && IsDigit(t[|t| - 1])
            && forall j :: 0 <= j < |t| ==> NumberChar(t[j])
    decreases |parts|
  {
    if |parts| > 1 {
      JoinNumbers(parts[1..]);
      var t := Join(parts, ',');
      var head := parts[0] + [','];
      var tail := Join(parts[1..], ',');
      assert t == head + tail;
      forall j | 0 <= j < |t| ensures NumberChar(t[j]) {
        if j < |parts[0]| {
          assert t[j] == parts[0][j];
        } else if j > |parts[0]| {
          assert t[j] == tail[j - |head|];
        }
      }
    }
  }

  /** The reply line an instrument sends for a list of counts is a valid
      reply line. */
  lemma EncodeCountsReplyText(counts: seq<int>)
    requires |counts| > 0
    ensures ReplyText(EncodeCounts(counts))
  {
    var fields := CountFields(counts);
    assert EncodeCounts(counts) == Join(fields, ',');
    forall i, j | 0 <= i < |fields| && 0 <= j < |fields[i]| ensures NumberChar(fields[i][j]) {
      if j > 0 {
        assert IsDigit(IntToString(counts[i])[j]);
      }
    }
    JoinNumbers(fields);
    NumberTextReply(Join(fields, ','));
  }

  /** Digits, signs and commas, starting with a digit or a sign and ending
      with a digit, make a reply line. */
  lemma NumberTextReply(t: string)
    requires |t| > 0 && (IsDigit(t[0]) || t[0] == '-') && IsDigit(t[|t| - 1])
    requires forall j :: 0 <= j < |t| ==> NumberChar(t[j])
    ensures ReplyText(t)
  {
    forall j | 0 <= j < |t| ensures t[j] as int < 256 && t[j] != '\n' && t[j] != '\U{6}' {
      assert NumberChar(t[j]);
    }
  }

  /** The bytes of the DTWAVE? reply line for a list of counts. */
  function CountsReply(counts: seq<int>): seq<byte>
    requires |counts| > 0
  {
    EncodeCountsReplyText(counts);
    ReplyBytes(EncodeCounts(counts))
  }

  /** acquireWave against an instrument that acknowledges the trace and
      source commands and answers DTWAVE? with the counts `counts`: the
      waveform is one sample per count, in order, each count / 10000, and
      exactly the three replies are consumed. */
  lemma WaveAnswered(l: Link, available: bool, ch: Channel, counts: seq<int>, rest: seq<byte>)
    requires |counts| > 0 && Writes(l, available)
    requires l.inbuf == [ACK, ACK, ACK] + CountsReply(counts) + rest
    ensures AcquireWave(l, available, ch) == Fetched(Success(Volts(counts)), AfterThree(l, WavePlan(ch), rest))
  {
    FixedCommandKinds();
    WaveStepwise(l, available, ch);
    EncodeCountsReplyText(counts);
    ThreeExchanges(l, available, TraCmd(ch, true), WaveSrcCmd(ch), DtWaveQuery, EncodeCounts(counts), rest);
    DecodeEncode(counts);
  }

  /** The configuration against an instrument that acknowledges MLEN and
      DTPOINTS and answers TDIV? with the line `t`: the three commands are
      written in order, `points` is set for the memory length, and the
      interval is ten divisions of `t` seconds over the points when `t` reads
      as a number, halting the run only for a zero time base; a reply that
      does not read as a number halts the run and leaves the interval as it was. */
  lemma ConfigureAnswered(sc: Scope, available: bool, longMemory: bool, t: string, rest: seq<byte>)
    requires Writes(sc.link, available) && ReplyText(t)
    requires sc.link.inbuf == [ACK, ACK, ACK] + ReplyBytes(t) + rest
    ensures var c := Configure(sc, available, longMemory);
            var points := PointsFor(longMemory);
            && c.scope.link == AfterThree(sc.link, ConfigPlan(longMemory), rest)
            && c.scope.points == Some(points)
            && c.scope.ch1Wave == sc.ch1Wave && c.scope.ch2Wave == sc.ch2Wave
            && (ParseNumber(t).None? ==> c.halt == Some(TdivMalformed) && c.scope.interval == sc.interval)
            && (ParseNumber(t).Some? ==>
                  && c.scope.interval == Some(Interval(ParseNumber(t).value, points))
                  && (c.halt.None? <==> ParseNumber(t).value != 0.0))
  {
    var p := ConfigPlan(longMemory);
    assert [p[0], p[1], p[2]] == p;
    FixedCommandKinds();
    SendAllThree(sc.link, available, p[0], p[1], p[2]);
    ThreeExchanges(sc.link, available, p[0], p[1], p[2], t, rest);
    ConfigureTimeBase(sc, available, longMemory);
  }

  /** The link after the four acknowledged commands of a channel block's
      fetch, which consumed the first `|l.inbuf| - |rest|` bytes. */
  function AfterFetch(l: Link, ch: Channel, lowPass: bool, rest: seq<byte>): Link
  {
    l.(portOpen := true, opens := l.opens + (if l.portOpen then 0 else 1),
       written := l.written + [BwlCmd(ch, lowPass) + CRLF, TraCmd(ch, true) + CRLF, WaveSrcCmd(ch) + CRLF, DtWaveQuery + CRLF],
       inbuf := rest)
  }

  /** A channel block against an instrument that acknowledges BWL and the
      trace and source commands and answers DTWAVE? with `counts`: the four
      commands are written in order, the channel's wave is the counts in
      volts, and the measurements start on the bytes after the wave reply. */
  lemma BlockAnswered(sc: Scope, available: bool, ch: Channel, lowPass: bool, modes: seq<string>,
                      counts: seq<int>, rest: seq<byte>)
    requires |counts| > 0 && Writes(sc.link, available)
    requires sc.link.inbuf == [ACK, ACK, ACK, ACK] + CountsReply(counts) + rest
    ensures ChannelBlock(sc, available, ch, lowPass, modes)
              == Measurements(SetWave(sc, ch, Volts(counts)), AfterFetch(sc.link, ch, lowPass, rest), available, ch, modes)
  {
    var tail := [ACK, ACK, ACK] + CountsReply(counts) + rest;
    assert sc.link.inbuf == [ACK] + tail;
    ActionExchange(sc.link, available, BwlCmd(ch, lowPass), tail);
    var bwl := Send(sc.link, available, BwlCmd(ch, lowPass));
    WaveAnswered(bwl.link, available, ch, counts, rest);
    FetchStepwise(sc.link, available, ch, lowPass);
    var fetch := SendAll(sc.link, available, FetchPlan(ch, lowPass));
    assert WaveOf(fetch.outcomes[3], ch) == Success(Volts(counts));
    assert fetch.link == AfterThree(bwl.link, WavePlan(ch), rest);
    var cmds := [BwlCmd(ch, lowPass) + CRLF, TraCmd(ch, true) + CRLF, WaveSrcCmd(ch) + CRLF, DtWaveQuery + CRLF];
    LinesAppended(sc.link.written, bwl.link.written, fetch.link.written, cmds);
    assert fetch.link == AfterFetch(sc.link, ch, lowPass, rest);
  }

  /** Lines written one, then three more, are the four written at once. */
  lemma LinesAppended(before: seq<string>, middle: seq<string>, after: seq<string>, cmds: seq<string>)
    requires |cmds| == 4
    requires middle == before + [cmds[0]] && after == middle + [cmds[1], cmds[2], cmds[3]]
    ensures after == before + cmds
  {
    assert [cmds[0]] + [cmds[1], cmds[2], cmds[3]] == cmds;
  }

  /** `1.0` is a reply line the instrument can send. */
  lemma OnePointZeroReply()
    ensures ReplyText("1.0")
  {
    var t := "1.0";
    forall i | 0 <= i < |t| ensures t[i] as int < 256 && t[i] != '\n' && t[i] != '\U{6}' {
      assert t[i] in {'1', '.', '0'};
    }
  }

  /** The counts 10000, 20000 and -10000 are 1 V, 2 V and -1 V. */
  lemma ExampleVolts()
    ensures Volts([10000, 20000, -10000]) == [1.0, 2.0, -1.0]
  {
    var v := Volts([10000, 20000, -10000]);
    assert v[0] == 1.0 && v[1] == 2.0 && v[2] == -1.0;
  }

  /** A run with channel 1 alone against an instrument that acknowledges
      every command, answers TDIV? with the number `t` and DTWAVE? with
      `counts`: the points are those of the memory length, the interval is
      ten divisions of `t` over them, channel 1's wave is the counts in volts
      and channel 2's wave is untouched. The run finishes unless a
      measurement read after the wave never returns. */
  lemma ChannelOneRun(sc: Scope, available: bool, s: Settings, modes: seq<string>,
                      t: string, tdiv: real, counts: seq<int>, rest: seq<byte>)
    requires s.ch1 && !s.ch2 && Writes(sc.link, available)
    requires ReplyText(t) && ParseNumber(t) == Some(tdiv) && tdiv != 0.0 && |counts| > 0
    requires sc.link.inbuf == [ACK, ACK, ACK] + ReplyBytes(t) + ([ACK, ACK, ACK, ACK] + CountsReply(counts) + rest)
    ensures var r := Acquire(sc, available, s, modes);
            && r.scope.points == Some(PointsFor(s.longMemory))
            && r.scope.interval == Some(Interval(tdiv, PointsFor(s.longMemory)))
            && r.scope.ch1Wave == Some(Volts(counts)) && r.scope.ch2Wave == sc.ch2Wave
            && r.report.status in {Finished, Halted(Stalled)}
  {
    var tail := [ACK, ACK, ACK, ACK] + CountsReply(counts) + rest;
    ConfiguredNumber(sc, available, s.longMemory, t, tdiv, tail);
    var c := Configure(sc, available, s.longMemory);
    ChannelOneAnswered(c.scope, available, s, modes, counts, rest);
    AfterConfigure(sc, available, s, modes);
  }

  /** The configuration of that run: it does not stop, and it sets the points
      and the interval and leaves the link on the bytes after the TDIV? reply. */
  lemma ConfiguredNumber(sc: Scope, available: bool, longMemory: bool, t: string, tdiv: real, tail: seq<byte>)
    requires Writes(sc.link, available)
    requires ReplyText(t) && ParseNumber(t) == Some(tdiv) && tdiv != 0.0
    requires sc.link.inbuf == [ACK, ACK, ACK] + ReplyBytes(t) + tail
    ensures var c := Configure(sc, available, longMemory);
            && c.halt.None? && Writes(c.scope.link, available) && c.scope.link.inbuf == tail
            && c.scope.points == Some(PointsFor(longMemory))
            && c.scope.interval == Some(Interval(tdiv, PointsFor(longMemory)))
            && c.scope.ch1Wave == sc.ch1Wave && c.scope.ch2Wave == sc.ch2Wave
  {
    ConfigureAnswered(sc, available, longMemory, t, tail);
  }

  /** A run whose configuration does not stop goes on to the channels. */
  lemma AfterConfigure(sc: Scope, available: bool, s: Settings, modes: seq<string>)
    requires s.ch1 || s.ch2
    requires Configure(sc, available, s.longMemory).halt.None?
    ensures Acquire(sc, available, s, modes) == Channels(Configure(sc, available, s.longMemory).scope, available, s, modes)
  {
  }

  /** The part of that run after the configuration. */
  lemma ChannelOneAnswered(sc: Scope, available: bool, s: Settings, modes: seq<string>, counts: seq<int>, rest: seq<byte>)
    requires s.ch1 && !s.ch2 && |counts| > 0 && Writes(sc.link, available)
    requires sc.link.inbuf == [ACK, ACK, ACK, ACK] + CountsReply(counts) + rest
    ensures var r := Channels(sc, available, s, modes);
            && r.scope.points == sc.points && r.scope.interval == sc.interval
            && r.scope.ch1Wave == Some(Volts(counts)) && r.scope.ch2Wave == sc.ch2Wave
            && r.report.status in {Finished, Halted(Stalled)}
  {
    BlockAnswered(sc, available, C1, s.lowPass1, modes, counts, rest);
    ChannelOneAlone(sc, available, s, modes, Volts(counts), AfterFetch(sc.link, C1, s.lowPass1, rest));
  }

  /** The run of the example: short memory, channel 1 alone, TDIV? answered
      `1.0` and DTWAVE? answered with the counts 10000, 20000 and -10000
      give 5120 points, an interval of ten seconds over 5120 points and
      channel 1's wave 1 V, 2 V, -1 V. */
  lemma ShortChannelOneRun(sc: Scope, available: bool, lowPass: bool, rest: seq<byte>)
    requires Writes(sc.link, available)
    requires sc.link.inbuf == [ACK, ACK, ACK] + ReplyBytes("1.0")
                              + ([ACK, ACK, ACK, ACK] + CountsReply([10000, 20000, -10000]) + rest)
    ensures var r := Acquire(sc, available, Settings(true, false, false, lowPass, false), Modes);
            && r.scope.points == Some(5120) && r.scope.interval == Some(10.0 / 5120.0)
            && r.scope.ch1Wave == Some([1.0, 2.0, -1.0]) && r.scope.ch2Wave == sc.ch2Wave
            && r.report.status in {Finished, Halted(Stalled)}
  {
    OnePointZeroReply();
    ParseOnePointZero();
    ExampleVolts();
    assert Interval(1.0, 5120) == 10.0 / 5120.0;
    ChannelOneRun(sc, available, Settings(true, false, false, lowPass, false), Modes,
                  "1.0", 1.0, [10000, 20000, -10000], rest);
  }

  /** With channel 1 alone, a block that stores `wave` and goes on to the
      measurements ends the run: channel 1's wave is `wave`, nothing else but
      the link changes, and the run finishes unless a measurement stalls. */
  lemma ChannelOneAlone(sc: Scope, available: bool, s: Settings, modes: seq<string>, wave: seq<real>, l: Link)
    requires s.ch1 && !s.ch2
    requires ChannelBlock(sc, available, C1, s.lowPass1, modes) == Measurements(SetWave(sc, C1, wave), l, available, C1, modes)
    ensures var r := Channels(sc, available, s, modes);
            && r.scope.points == sc.points && r.scope.interval == sc.interval
            && r.scope.ch1Wave == Some(wave) && r.scope.ch2Wave == sc.ch2Wave
            && r.report.status in {Finished, Halted(Stalled)}
  {
  }
}
