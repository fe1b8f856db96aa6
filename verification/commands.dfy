/** The ASCII command lines the engine sends (logic.py). A command whose last
    character is `?` is a query: the instrument acknowledges it and then sends
    a reply line. Any other command is an action, answered by the
    acknowledgment alone. */
module Commands {
  import opened Numbers

  /** The two input channels of the oscilloscope. */
  datatype Channel = C1 | C2

  /** The channel's name as the trace commands spell it: `C1`, `C2`. */
  function TraceName(ch: Channel): string
  {
    match ch
    case C1 => "C1"
    case C2 => "C2"
  }

  /** The channel's name as the measurement commands spell it: `CH1`, `CH2`. */
  function SourceName(ch: Channel): string
  {
    "CH" + [TraceName(ch)[1]]
  }

  predicate IsQuery(cmd: string) { |cmd| > 0 && cmd[|cmd| - 1] == '?' }

  function OnOff(on: bool): string { if on then "ON" else "OFF" }

  /** Memory length: long memory, or the short default. */
  function MlenCmd(longMemory: bool): (r: string)
    ensures |r| > 0 && !IsQuery(r)
  {
    if longMemory then "MLEN LONG" else "MLEN SHORT"
  }

  /** `'DTPOINTS ' + str(points)`. */
  function DtPointsCmd(points: nat): (r: string)
    ensures |r| > 0 && !IsQuery(r)
  {
    "DTPOINTS " + NatToString(points)
  }

  const TdivQuery: string := "TDIV?"
  const DtWaveQuery: string := "DTWAVE?"
  const DirmCmd: string := "DIRM A"
  const MsraQuery: string := "MSRA?"
  const AsetCmd: string := "ASET"

  /** The channel's bandwidth limit (low-pass filter) on or off. */
  function BwlCmd(ch: Channel, on: bool): (r: string)
    ensures |r| > 0 && !IsQuery(r)
  {
    TraceName(ch) + ":BWL " + OnOff(on)
  }

  /** The channel's trace on or off. */
  function TraCmd(ch: Channel, on: bool): (r: string)
    ensures |r| > 0 && !IsQuery(r)
  {
    TraceName(ch) + ":TRA " + OnOff(on)
  }

  /** `'WAVESRC CH%s' % channel[-1]`: the waveform source is the channel whose
      digit ends the trace name. */
  function WaveSrcCmd(ch: Channel): (r: string)
    ensures |r| > 0 && !IsQuery(r)
  {
    "WAVESRC CH" + [TraceName(ch)[|TraceName(ch)| - 1]]
  }

  /** `'MSEL %s, %s' % (channel, mode)`: a query exactly when the mode text is. */
  function MselCmd(ch: Channel, mode: string): (r: string)
    ensures |r| > 0 && (IsQuery(r) <==> IsQuery(mode))
  {
    "MSEL " + SourceName(ch) + ", " + mode
  }

  /** `'C1:CPL ' + coupling`: a query exactly when the coupling text is. */
  function CplCmd(ch: Channel, coupling: string): (r: string)
    ensures |r| > 0 && (IsQuery(r) <==> IsQuery(coupling))
  {
    TraceName(ch) + ":CPL " + coupling
  }

  /** Persistence on or off. */
  function PersCmd(on: bool): (r: string)
    ensures |r| > 0 && !IsQuery(r)
  {
    "PERS " + OnOff(on)
  }

  /** Equivalent-time sampling on or off. */
  function EquCmd(on: bool): (r: string)
    ensures |r| > 0 && !IsQuery(r)
  {
    "EQU " + OnOff(on)
  }

  /** The three queries are the only fixed commands that expect a reply line;
      ASET, although the handler shows its reply, is an action. */
  lemma FixedCommandKinds()
    ensures IsQuery(TdivQuery) && IsQuery(DtWaveQuery) && IsQuery(MsraQuery)
    ensures !IsQuery(DirmCmd) && !IsQuery(AsetCmd)
  {
  }

  /** Each flag-to-command map is one-to-one: the command sent names the
      channel and the state that was asked for. */
  lemma ToggleCommandsDistinct(ch: Channel, ch': Channel, on: bool, on': bool)
    ensures BwlCmd(ch, on) == BwlCmd(ch', on') ==> ch == ch' && on == on'
    ensures TraCmd(ch, on) == TraCmd(ch', on') ==> ch == ch' && on == on'
    ensures MlenCmd(on) == MlenCmd(on') ==> on == on'
    ensures PersCmd(on) == PersCmd(on') ==> on == on'
    ensures EquCmd(on) == EquCmd(on') ==> on == on'
    ensures WaveSrcCmd(ch) == WaveSrcCmd(ch') ==> ch == ch'
  {
    if BwlCmd(ch, on) == BwlCmd(ch', on') {
      assert BwlCmd(ch, on)[1] == BwlCmd(ch', on')[1];
      assert |BwlCmd(ch, on)| == |BwlCmd(ch', on')|;
    }
    if TraCmd(ch, on) == TraCmd(ch', on') {
      assert TraCmd(ch, on)[1] == TraCmd(ch', on')[1];
      assert |TraCmd(ch, on)| == |TraCmd(ch', on')|;
    }
    if MlenCmd(on) == MlenCmd(on') {
      assert |MlenCmd(on)| == |MlenCmd(on')|;
    }
    if PersCmd(on) == PersCmd(on') {
      assert |PersCmd(on)| == |PersCmd(on')|;
    }
    if EquCmd(on) == EquCmd(on') {
      assert |EquCmd(on)| == |EquCmd(on')|;
    }
    if WaveSrcCmd(ch) == WaveSrcCmd(ch') {
      assert WaveSrcCmd(ch)[10] == WaveSrcCmd(ch')[10];
    }
  }

  /** A measurement selection names its channel and its mode: different
      selections are different commands. */
  lemma MselInjective(ch: Channel, ch': Channel, mode: string, mode': string)
    requires MselCmd(ch, mode) == MselCmd(ch', mode')
    ensures ch == ch' && mode == mode'
  {
    var a := MselCmd(ch, mode);
    assert a[7] == MselCmd(ch', mode')[7];
    assert mode == a[10..];
    assert mode' == MselCmd(ch', mode')[10..];
  }
}
