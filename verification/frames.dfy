/** The frame reader: the instrument's reply stream cut into frames, one byte
    at a time (logic.py, readlineCR). A frame ends at the in-band
    acknowledgment byte 0x06, which stands for itself and discards whatever
    text was gathered before it, or at a line feed, which is kept as the last
    character of the line. */
module Frames {
  import opened Wrappers

  /** A byte read from or written to the serial port. */
  newtype byte = b: int | 0 <= b < 256

  /** The instrument's in-band acknowledgment. */
  const ACK: byte := 0x06
  const LF: byte := 0x0A

  /** A byte that ends a frame. */
  predicate IsStop(b: byte) { b == ACK || b == LF }

  /** A byte read from the port as a one-character Python 2 string. */
  function Char(b: byte): char { (b as int) as char }

  function Chars(bs: seq<byte>): string
  {
    seq(|bs|, i requires 0 <= i < |bs| => Char(bs[i]))
  }

  /** The bytes of an ASCII (or Latin-1) string. */
  function Ascii(s: string): (bs: seq<byte>)
    requires forall i :: 0 <= i < |s| ==> s[i] as int < 256
    ensures |bs| == |s| && Chars(bs) == s
  {
    var bs := seq(|s|, i requires 0 <= i < |s| => (s[i] as int) as byte);
    assert forall i :: 0 <= i < |s| ==> Char(bs[i]) == s[i];
    bs
  }

  /** Only the line feed byte reads as a line feed, and only the ack byte
      as the ack character. */
  lemma CharStops(b: byte)
    ensures Char(b) == '\n' <==> b == LF
    ensures Char(b) == '\U{6}' <==> b == ACK
  {
  }

  /** One frame: the ack byte, or a line up to and including its line feed. */
  datatype Frame = Ack | Line(text: string)

  /** What readlineCR hands back: the literal 'ack' for the ack byte, the text otherwise. */
  function FrameText(f: Frame): string
  {
    match f
    case Ack => "ack"
    case Line(t) => t
  }

  /** Where the first frame of `bs` ends: the index of its first ack or line
      feed byte, or `|bs|` when it has none. */
  function FirstStop(bs: seq<byte>): (k: nat)
    ensures k <= |bs|
    ensures forall j :: 0 <= j < k ==> !IsStop(bs[j])
    ensures k < |bs| ==> IsStop(bs[k])
  {
    if bs == [] || IsStop(bs[0]) then 0 else 1 + FirstStop(bs[1..])
  }

  /** The result of one read cycle: the frame, or `None` when the stream runs
      out before a frame ends, and the bytes left unread. */
  datatype FrameRead = FrameRead(frame: Option<Frame>, rest: seq<byte>)

  /** readlineCR's loop, with `rv` the text gathered so far: take one byte;
      the ack byte ends the frame as the ack, whatever was gathered; any
      other byte is gathered, and a line feed then ends the frame. */
  function ReadFrom(bs: seq<byte>, rv: string): FrameRead
    decreases |bs|
  {
    if bs == [] then FrameRead(None, [])
    else if bs[0] == ACK then FrameRead(Some(Ack), bs[1..])
    else if bs[0] == LF then FrameRead(Some(Line(rv + [Char(bs[0])])), bs[1..])
    else ReadFrom(bs[1..], rv + [Char(bs[0])])
  }

  /** readlineCR: the frame at the front of `bs` and what follows it. */
  function ReadFrame(bs: seq<byte>): FrameRead
  {
    ReadFrom(bs, "")
  }

  /** The frame read from `bs`, with `rv` gathered before it, when its
      first stop is at `k`: none when there is no stop, the ack when the stop
      is the ack byte, and otherwise the line of the gathered text and every
      byte up to and including that line feed. */
  function FrameAt(bs: seq<byte>, rv: string, k: nat): FrameRead
    requires k <= |bs|
  {
    if k == |bs| then FrameRead(None, [])
    else if bs[k] == ACK then FrameRead(Some(Ack), bs[k + 1..])
    else FrameRead(Some(Line(rv + Chars(bs[..k + 1]))), bs[k + 1..])
  }

  /** What the loop computes, at once: the frame ends at the first ack or
      line feed. */
  lemma {:induction false} ReadFromFirstStop(bs: seq<byte>, rv: string)
    ensures ReadFrom(bs, rv) == FrameAt(bs, rv, FirstStop(bs))
    decreases |bs|
  {
    if bs != [] && !IsStop(bs[0]) {
      var c := Char(bs[0]);
      ReadFromFirstStop(bs[1..], rv + [c]);
      var k := FirstStop(bs);
      assert FirstStop(bs[1..]) == k - 1;
      FrameAfterFirstByte(bs, k, rv);
    } else if bs != [] {
      assert Chars(bs[..1]) == [Char(bs[0])];
    }
  }

  /** The step of ReadFromFirstStop: gathering the first byte and then
      reading on from the second gives the frame read from the first. */
  lemma FrameAfterFirstByte(bs: seq<byte>, k: nat, rv: string)
    requires 0 < k <= |bs|
    ensures FrameAt(bs[1..], rv + [Char(bs[0])], k - 1) == FrameAt(bs, rv, k)
  {
    if k < |bs| {
      assert bs[1..][k..] == bs[k + 1..];
      assert bs[1..][..k] == bs[1..k + 1];
      assert Chars(bs[..k + 1]) == [Char(bs[0])] + Chars(bs[1..k + 1]);
      assert rv + [Char(bs[0])] + Chars(bs[1..k + 1]) == rv + Chars(bs[..k + 1]);
    }
  }

  /** `rest` is what is left of `bs` after reading some bytes off its front. */
  predicate Consumed(bs: seq<byte>, rest: seq<byte>)
  {
    |rest| <= |bs| && rest == bs[|bs| - |rest|..]
  }

  lemma ConsumedTrans(a: seq<byte>, b: seq<byte>, c: seq<byte>)
    requires Consumed(a, b) && Consumed(b, c)
    ensures Consumed(a, c)
  {
  }

  /** Reading only ever consumes from the front, and it consumes at least one
      byte when it yields a frame; when it yields none it has consumed
      everything. */
  lemma ReadFrameConsumes(bs: seq<byte>)
    ensures Consumed(bs, ReadFrame(bs).rest)
    ensures ReadFrame(bs).frame.Some? ==> |ReadFrame(bs).rest| < |bs|
    ensures ReadFrame(bs).frame.None? ==> ReadFrame(bs).rest == []
  {
    ReadFromFirstStop(bs, "");
  }

  /** No frame is read exactly when no ack or line feed is left. */
  lemma NoFrameIffNoStop(bs: seq<byte>)
    ensures ReadFrame(bs).frame.None? <==> forall j :: 0 <= j < |bs| ==> !IsStop(bs[j])
  {
    ReadFromFirstStop(bs, "");
  }

  /** The ack byte ends the frame at once: the bytes before it are discarded
      and nothing after it is consumed. */
  lemma AckEndsFrame(before: seq<byte>, after: seq<byte>)
    requires forall j :: 0 <= j < |before| ==> !IsStop(before[j])
    ensures ReadFrame(before + [ACK] + after) == FrameRead(Some(Ack), after)
  {
    var bs := before + [ACK] + after;
    ReadFromFirstStop(bs, "");
    assert bs[|before|] == ACK;
    assert FirstStop(bs) == |before|;
    assert bs[|before| + 1..] == after;
  }

  /** Without an ack, the frame is the bytes up to and including the first line
      feed, and nothing after it is consumed. */
  lemma LineEndsFrame(before: seq<byte>, after: seq<byte>)
    requires forall j :: 0 <= j < |before| ==> !IsStop(before[j])
    ensures ReadFrame(before + [LF] + after) == FrameRead(Some(Line(Chars(before + [LF]))), after)
  {
    var bs := before + [LF] + after;
    ReadFromFirstStop(bs, "");
    assert bs[|before|] == LF;
    assert FirstStop(bs) == |before|;
    assert bs[..|before| + 1] == before + [LF];
    assert bs[|before| + 1..] == after;
    assert "" + Chars(before + [LF]) == Chars(before + [LF]);
  }

  /** A line frame ends with its only line feed and holds no ack byte; its
      text followed by what is left is the text of the whole stream. So a line
      is never the literal 'ack' that stands for the ack byte. */
  lemma LineShape(bs: seq<byte>)
    requires ReadFrame(bs).frame.Some? && ReadFrame(bs).frame.value.Line?
    ensures var t := ReadFrame(bs).frame.value.text;
            && |t| > 0 && t[|t| - 1] == '\n'
            && (forall j :: 0 <= j < |t| - 1 ==> t[j] != '\n')
            && (forall j :: 0 <= j < |t| ==> t[j] != '\U{6}')
            && Chars(bs) == t + Chars(ReadFrame(bs).rest)
            && t != "ack"
  {
    ReadFromFirstStop(bs, "");
    var k := FirstStop(bs);
    LineOfStop(bs, k);
    assert "" + Chars(bs[..k + 1]) == Chars(bs[..k + 1]);
  }

  /** The line that ends at the first stop `k`, a line feed. */
  lemma LineOfStop(bs: seq<byte>, k: nat)
    requires k < |bs| && bs[k] == LF && forall j :: 0 <= j < k ==> !IsStop(bs[j])
    ensures var t := Chars(bs[..k + 1]);
            && |t| > 0 && t[|t| - 1] == '\n'
            && (forall j :: 0 <= j < |t| - 1 ==> t[j] != '\n')
            && (forall j :: 0 <= j < |t| ==> t[j] != '\U{6}')
            && Chars(bs) == t + Chars(bs[k + 1..])
            && t != "ack"
  {
    var t := Chars(bs[..k + 1]);
    forall j | 0 <= j < |t| ensures t[j] != '\U{6}' && (j < |t| - 1 ==> t[j] != '\n') {
      CharStops(bs[j]);
    }
    CharsAppend(bs[..k + 1], bs[k + 1..]);
    assert bs[..k + 1] + bs[k + 1..] == bs;
    assert "ack"[2] != '\n';
  }

  lemma CharsAppend(a: seq<byte>, b: seq<byte>)
    ensures Chars(a + b) == Chars(a) + Chars(b)
  {
  }
}
