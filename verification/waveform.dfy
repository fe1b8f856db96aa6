/** The waveform decoder (logic.py, the list comprehension in acquireWave):
    the `DTWAVE?` reply is split on commas and every field is read as a number
    of counts; a count is a tenth of a millivolt, so the sample in volts is
    count / 10000. */
module Waveform {
  import opened Wrappers
  import opened Text
  import opened Numbers

  /** Instrument counts per volt. */
  const CountsPerVolt: real := 10000.0

  /** Python's `sep.join(parts)`. */
  function Join(parts: seq<string>, sep: char): string
    decreases |parts|
  {
    if |parts| == 0 then ""
    else if |parts| == 1 then parts[0]
    else parts[0] + [sep] + Join(parts[1..], sep)
  }

  /** Python's `s.split(sep)`: the pieces between separators, in order, at
      least one (so `""` gives `[""]` and `"a,,b"` gives an empty middle
      piece). No piece holds the separator and joining them back gives `s`. */
  function Split(s: string, sep: char): (parts: seq<string>)
    ensures |parts| > 0
    ensures forall i :: 0 <= i < |parts| ==> sep !in parts[i]
    ensures Join(parts, sep) == s
    decreases |s|
  {
    var k := IndexOf(s, sep);
    if k == |s| then [s]
    else
      var rest := Split(s[k + 1..], sep);
      assert s == s[..k] + [sep] + s[k + 1..];
      [s[..k]] + rest
  }

  /** Splitting a join of separator-free pieces gives the pieces back. */
  lemma {:induction false} SplitJoin(parts: seq<string>, sep: char)
    requires |parts| > 0
    requires forall i :: 0 <= i < |parts| ==> sep !in parts[i]
    ensures Split(Join(parts, sep), sep) == parts
    decreases |parts|
  {
    if |parts| > 1 {
      var s := Join(parts, sep);
      var p := parts[0];
      assert s == p + [sep] + Join(parts[1..], sep);
      assert s[|p|] == sep;
      assert forall j :: 0 <= j < |p| ==> s[j] == p[j];
      assert IndexOf(s, sep) == |p|;
      assert s[..|p|] == p;
      assert s[|p| + 1..] == Join(parts[1..], sep);
      SplitJoin(parts[1..], sep);
    }
  }

  /** One sample per field, in order, each the field's count / 10000; a single
      field that is not a number fails the whole decode. */
  function DecodeFields(fields: seq<string>): (r: Option<seq<real>>)
    ensures r.Some? <==> forall i :: 0 <= i < |fields| ==> ParseNumber(fields[i]).Some?
    ensures r.Some? ==> |r.value| == |fields|
    ensures r.Some? ==> forall i :: 0 <= i < |fields| ==> r.value[i] == ParseNumber(fields[i]).value / CountsPerVolt
    decreases |fields|
  {
    if fields == [] then Some([])
    else
      match ParseNumber(fields[0])
      case None => None
      case Some(v) =>
        match DecodeFields(fields[1..])
        case None => None
        case Some(rest) => Some([v / CountsPerVolt] + rest)
  }

  /** `[float(item)/10000.0 for item in reply.split(',')]`; `None` is the
      exception Python raises when some field is not a number. */
  function DecodeWave(reply: string): Option<seq<real>>
  {
    DecodeFields(Split(reply, ','))
  }

  /** The reply an instrument sends for a list of counts. */
  function EncodeCounts(counts: seq<int>): string
  {
    Join(seq(|counts|, i requires 0 <= i < |counts| => IntToString(counts[i])), ',')
  }

  /** The samples those counts stand for, in volts. */
  function Volts(counts: seq<int>): seq<real>
  {
    seq(|counts|, i requires 0 <= i < |counts| => counts[i] as real / CountsPerVolt)
  }

  /** The decimal text of each count, as `str()` prints it. */
  function CountFields(counts: seq<int>): (fields: seq<string>)
    ensures |fields| == |counts|
    ensures forall i :: 0 <= i < |counts| ==> fields[i] == IntToString(counts[i])
  {
    seq(|counts|, i requires 0 <= i < |counts| => IntToString(counts[i]))
  }

  /** Integer text never holds a comma. */
  lemma NoCommaInInteger(i: int)
    ensures ',' !in IntToString(i)
  {
  }

  /** Decoding the reply for a non-empty list of counts gives one sample per
      count, in the same order, each equal to count / 10000. */
  lemma DecodeEncode(counts: seq<int>)
    requires |counts| > 0
    ensures DecodeWave(EncodeCounts(counts)) == Some(Volts(counts))
  {
    var fields := CountFields(counts);
    assert EncodeCounts(counts) == Join(fields, ',');
    forall i | 0 <= i < |fields| ensures ',' !in fields[i] {
      NoCommaInInteger(counts[i]);
    }
    SplitJoin(fields, ',');
    forall i | 0 <= i < |fields| ensures ParseNumber(fields[i]) == Some(counts[i] as real) {
      ParseIntToString(counts[i]);
    }
    DecodeCounts(counts, fields);
  }

  lemma DecodeCounts(counts: seq<int>, fields: seq<string>)
    requires |fields| == |counts|
    requires forall i :: 0 <= i < |fields| ==> ParseNumber(fields[i]) == Some(counts[i] as real)
    ensures DecodeFields(fields) == Some(Volts(counts))
  {
    var r := DecodeFields(fields);
    assert r.Some?;
    var v := Volts(counts);
    forall i | 0 <= i < |fields| ensures r.value[i] == v[i] {
      assert ParseNumber(fields[i]).value == counts[i] as real;
    }
    assert r.value == v;
  }

  /** A reply with an empty field (two adjacent commas, a leading or trailing
      comma, or nothing at all) decodes to nothing: no partial waveform. */
  lemma EmptyFieldFails(reply: string, i: nat)
    requires i < |Split(reply, ',')| && Split(reply, ',')[i] == ""
    ensures DecodeWave(reply) == None
  {
    NoDigitNoNumber("");
  }

  /** The empty reply is one empty field, so it fails too. */
  lemma EmptyReplyFails()
    ensures DecodeWave("") == None
  {
    assert Split("", ',') == [""];
    EmptyFieldFails("", 0);
  }
}
