/** The command channel (logic.py, check_serial_port and _sendCommand) as
    functions on the state of the serial link: the instrument bytes not yet
    read, the lines written so far, whether the port is open, and whether the
    program is stuck in a read that never returns. */
module Protocol {
  import opened Wrappers
  import opened Text
  import opened Frames
  import opened Commands

  /** The state of the serial link.
      `inbuf`: the instrument's bytes not yet read, consumed from the front.
      `written`: every line written to the port, in order.
      `portOpen`: a port has been opened (the port picker is then disabled).
      `opens`: how many times a port was opened.
      `hung`: a read found no further byte; the program waits forever. */
  datatype Link = Link(inbuf: seq<byte>, written: seq<string>, portOpen: bool, opens: nat, hung: bool)

  /** The port is opened at most once, and is open exactly when it was opened. */
  predicate OpenedOnce(l: Link) { l.opens == if l.portOpen then 1 else 0 }

  /** The line terminator appended to every command. */
  const CRLF: string := "\r\n"

  const LineEnds: set<char> := {'\r', '\n'}

  /** How one exchange ended. `Answer` carries what _sendCommand returns;
      `PortError` is the failed open and `Nacked` the missing acknowledgment,
      for which it returns None; `TimedOut` is a read that never returns. */
  datatype Outcome = Answer(text: string) | PortError | Nacked | TimedOut

  /** What _sendCommand hands to its caller. */
  function Returned(o: Outcome): Option<string>
  {
    match o
    case Answer(t) => Some(t)
    case _ => None
  }

  datatype Sent = Sent(outcome: Outcome, link: Link)

  /** The next command will reach the instrument: nothing is stuck, and a port
      is open or can be opened. */
  predicate Writes(l: Link, available: bool) { !l.hung && (l.portOpen || available) }

  /** check_serial_port: opens the port when none is open; `available` says
      whether opening the chosen device succeeds. */
  function CheckPort(l: Link, available: bool): (r: Link)
    ensures r.portOpen == (l.portOpen || available)
    ensures r.opens == l.opens + (if !l.portOpen && available then 1 else 0)
    ensures r.inbuf == l.inbuf && r.written == l.written && r.hung == l.hung
  {
    if !l.portOpen && available then l.(portOpen := true, opens := l.opens + 1) else l
  }

  /** What the instrument's reply to one written command amounts to, and
      the bytes left unread after it. */
  datatype Reply = Reply(outcome: Outcome, rest: seq<byte>)

  /** The reading half of _sendCommand, once the command is written: a
      frame is read; one other than 'ack' is a nack and no second frame is
      read. A query (`query`) reads a second frame, whose text is returned
      with CR and LF stripped from both ends; an acknowledged action returns
      'ack'. No frame at all is a read that never returns. */
  function Exchange(inbuf: seq<byte>, query: bool): (r: Reply)
    ensures r.outcome != PortError
  {
    var first := ReadFrame(inbuf);
    if first.frame.None? then Reply(TimedOut, first.rest)
    else if FrameText(first.frame.value) != "ack" then Reply(Nacked, first.rest)
    else if !query then Reply(Answer(Strip("ack", LineEnds)), first.rest)
    else
      var second := ReadFrame(first.rest);
      if second.frame.None? then Reply(TimedOut, second.rest)
      else Reply(Answer(Strip(FrameText(second.frame.value), LineEnds)), second.rest)
  }

  /** _sendCommand. When the port cannot be opened nothing is written and
      nothing read. Otherwise `cmd + "\r\n"` is written once and the reply
      read; a command whose last character is `?` is a query. */
  function Send(l: Link, available: bool, cmd: string): (r: Sent)
    requires |cmd| > 0
    ensures r.link.written == l.written + (if Writes(l, available) then [cmd + CRLF] else [])
    ensures r.outcome == PortError <==> !l.hung && !l.portOpen && !available
    ensures r.link.portOpen == (l.portOpen || Writes(l, available))
    ensures r.link.opens == l.opens + (if Writes(l, available) && !l.portOpen then 1 else 0)
    ensures r.link.hung == (l.hung || r.outcome == TimedOut)
    ensures l.hung ==> r == Sent(TimedOut, l)
  {
    if l.hung then Sent(TimedOut, l)
    else
      var ready := CheckPort(l, available);
      if !ready.portOpen then Sent(PortError, ready)
      else
        var reply := Exchange(ready.inbuf, IsQuery(cmd));
        Sent(reply.outcome, ready.(written := ready.written + [cmd + CRLF], inbuf := reply.rest,
                                   hung := reply.outcome == TimedOut))
  }

  /** The exchange reads the reply off the front of the stream. */
  lemma ExchangeConsumes(inbuf: seq<byte>, query: bool)
    ensures Consumed(inbuf, Exchange(inbuf, query).rest)
  {
    var first := ReadFrame(inbuf);
    ReadFrameConsumes(inbuf);
    ReadFrameConsumes(first.rest);
    ConsumedTrans(inbuf, first.rest, ReadFrame(first.rest).rest);
  }

  /** Sending a command only ever consumes the instrument's bytes from the front. */
  lemma SendConsumes(l: Link, available: bool, cmd: string)
    requires |cmd| > 0
    ensures Consumed(l.inbuf, Send(l, available, cmd).link.inbuf)
  {
    ExchangeConsumes(l.inbuf, IsQuery(cmd));
  }

  /** The link is left hung exactly when the exchange timed out. */
  lemma HungIffTimedOut(l: Link, available: bool, cmd: string)
    requires |cmd| > 0
    ensures Send(l, available, cmd).link.hung <==> Send(l, available, cmd).outcome == TimedOut
  {
  }

  /** An exchange keeps the port opened at most once. */
  lemma SendOpensOnce(l: Link, available: bool, cmd: string)
    requires |cmd| > 0 && OpenedOnce(l)
    ensures OpenedOnce(Send(l, available, cmd).link)
  {
  }

  /** A first frame other than the ack is a nack: None is returned, and only
      that one frame is consumed. */
  lemma NackReadsOneFrame(l: Link, available: bool, cmd: string)
    requires |cmd| > 0 && Writes(l, available)
    requires ReadFrame(l.inbuf).frame.Some? && ReadFrame(l.inbuf).frame.value != Ack
    ensures Send(l, available, cmd).outcome == Nacked
    ensures Send(l, available, cmd).link.inbuf == ReadFrame(l.inbuf).rest
  {
    LineShape(l.inbuf);
  }

  /** An acknowledged action returns the literal 'ack' and reads nothing more. */
  lemma AckedAction(l: Link, available: bool, cmd: string)
    requires |cmd| > 0 && !IsQuery(cmd) && Writes(l, available)
    requires ReadFrame(l.inbuf).frame == Some(Ack)
    ensures Send(l, available, cmd).outcome == Answer("ack")
    ensures Send(l, available, cmd).link.inbuf == ReadFrame(l.inbuf).rest
  {
    StripClean("ack", LineEnds);
  }

  /** An acknowledged query returns the second frame's text with CR/LF
      stripped, and consumes exactly the two frames. */
  lemma AckedQuery(l: Link, available: bool, cmd: string)
    requires |cmd| > 0 && IsQuery(cmd) && Writes(l, available)
    requires ReadFrame(l.inbuf).frame == Some(Ack)
    requires ReadFrame(ReadFrame(l.inbuf).rest).frame.Some?
    ensures var second := ReadFrame(ReadFrame(l.inbuf).rest);
            Send(l, available, cmd) ==
              Sent(Answer(Strip(FrameText(second.frame.value), LineEnds)),
                   l.(portOpen := true, opens := l.opens + (if l.portOpen then 0 else 1),
                      written := l.written + [cmd + CRLF], inbuf := second.rest))
  {
  }

  /** A text the instrument can send as one line: single bytes, no ack or line
      feed inside, and no CR or LF at either end. */
  predicate ReplyText(t: string)
  {
    && (forall i :: 0 <= i < |t| ==> t[i] as int < 256 && t[i] != '\n' && t[i] != '\U{6}')
    && (t == [] || (t[0] !in LineEnds && t[|t| - 1] !in LineEnds))
  }

  /** The bytes of a reply line: the text, then CR LF. */
  function ReplyBytes(t: string): (bs: seq<byte>)
    requires ReplyText(t)
  {
    Ascii(t + CRLF)
  }

  /** The frame reader takes the reply line whole off the front of the stream. */
  lemma ReadReplyLine(t: string, rest: seq<byte>)
    requires ReplyText(t)
    ensures ReadFrame(ReplyBytes(t) + rest) == FrameRead(Some(Line(t + CRLF)), rest)
  {
    var before := Ascii(t + "\r");
    var bs := ReplyBytes(t);
    assert Chars(before) == t + "\r";
    assert bs == before + [LF] by {
      assert Chars(bs) == t + CRLF;
      forall i | 0 <= i < |bs| ensures bs[i] == (before + [LF])[i] {
        assert Char(bs[i]) == (t + CRLF)[i];
        if i < |before| {
          assert Char(before[i]) == (t + CRLF)[i];
        }
      }
    }
    forall j | 0 <= j < |before| ensures !IsStop(before[j]) {
      assert Char(before[j]) == (t + "\r")[j];
    }
    LineEndsFrame(before, rest);
    assert Chars(before + [LF]) == t + CRLF;
    assert bs + rest == before + [LF] + rest;
  }

  /** An instrument that acknowledges an action: the action returns 'ack',
      its line is written, and exactly the ack byte is consumed. */
  lemma ActionExchange(l: Link, available: bool, cmd: string, rest: seq<byte>)
    requires |cmd| > 0 && !IsQuery(cmd) && Writes(l, available)
    requires l.inbuf == [ACK] + rest
    ensures Send(l, available, cmd).outcome == Answer("ack")
    ensures Send(l, available, cmd).link ==
              l.(portOpen := true, opens := l.opens + (if l.portOpen then 0 else 1),
                 written := l.written + [cmd + CRLF], inbuf := rest)
  {
    AckEndsFrame([], rest);
    assert [] + [ACK] + rest == l.inbuf;
    AckedAction(l, available, cmd);
  }

  /** An instrument that acknowledges a query and answers with the line `t`:
      the query returns exactly `t`, and exactly the ack and the line are consumed. */
  lemma QueryExchange(l: Link, available: bool, cmd: string, t: string, rest: seq<byte>)
    requires |cmd| > 0 && IsQuery(cmd) && Writes(l, available)
    requires ReplyText(t)
    requires l.inbuf == [ACK] + ReplyBytes(t) + rest
    ensures Send(l, available, cmd).outcome == Answer(t)
    ensures Send(l, available, cmd).link ==
              l.(portOpen := true, opens := l.opens + (if l.portOpen then 0 else 1),
                 written := l.written + [cmd + CRLF], inbuf := rest)
  {
    AckEndsFrame([], ReplyBytes(t) + rest);
    assert [] + [ACK] + (ReplyBytes(t) + rest) == l.inbuf;
    ReadReplyLine(t, rest);
    AckedQuery(l, available, cmd);
    StripCRLFReply(t);
  }

  /** Stripping a reply line gives back its text. */
  lemma StripCRLFReply(t: string)
    requires ReplyText(t)
    ensures Strip(t + CRLF, LineEnds) == t
  {
    var s := t + CRLF;
    StripSlice(s, LineEnds);
    var r := Strip(s, LineEnds);
    var i := |s| - |StripLeft(s, LineEnds)|;
    if t == [] {
      assert forall j :: 0 <= j < |s| ==> s[j] in LineEnds;
    } else {
      assert s[0] !in LineEnds && s[|t| - 1] !in LineEnds;
      assert i == 0;
      assert r == s[..|r|];
      assert |r| >= |t|;
      assert |r| <= |t|;
      assert r == t;
    }
  }

  /** Every command of a list can be sent. */
  predicate Sendable(cmds: seq<string>) { forall i :: 0 <= i < |cmds| ==> |cmds[i]| > 0 }

  /** What sending a list of commands yields: one outcome per command, in
      order, and the link after the last. */
  datatype Run = Run(outcomes: seq<Outcome>, link: Link)

  /** Sending a list of commands one after the other, whatever each returns. */
  function SendAll(l: Link, available: bool, cmds: seq<string>): (r: Run)
    requires Sendable(cmds)
    ensures |r.outcomes| == |cmds|
    decreases |cmds|
  {
    if cmds == [] then Run([], l)
    else
      var prev := SendAll(l, available, cmds[..|cmds| - 1]);
      var last := Send(prev.link, available, cmds[|cmds| - 1]);
      Run(prev.outcomes + [last.outcome], last.link)
  }

  /** The lines of a list of commands as written to the port. */
  function Framed(cmds: seq<string>): (lines: seq<string>)
    ensures |lines| == |cmds|
    decreases |cmds|
  {
    if cmds == [] then [] else Framed(cmds[..|cmds| - 1]) + [cmds[|cmds| - 1] + CRLF]
  }

  lemma FramedSnoc(cmds: seq<string>, last: string)
    ensures Framed(cmds + [last]) == Framed(cmds) + [last + CRLF]
  {
    assert (cmds + [last])[..|cmds|] == cmds;
  }

  /** Sending one more command after a list. */
  lemma SendAllSnoc(l: Link, available: bool, cmds: seq<string>, c: string)
    requires Sendable(cmds) && |c| > 0
    ensures Sendable(cmds + [c])
    ensures var prev := SendAll(l, available, cmds);
            var last := Send(prev.link, available, c);
            SendAll(l, available, cmds + [c]) == Run(prev.outcomes + [last.outcome], last.link)
  {
    assert (cmds + [c])[..|cmds|] == cmds;
  }

  /** Sending `a` and then `b` is sending `a + b`. */
  lemma {:induction false} SendAllAppend(l: Link, available: bool, a: seq<string>, b: seq<string>)
    requires Sendable(a) && Sendable(b)
    ensures Sendable(a + b)
    ensures var first := SendAll(l, available, a);
            var second := SendAll(first.link, available, b);
            SendAll(l, available, a + b) == Run(first.outcomes + second.outcomes, second.link)
    decreases |b|
  {
    var first := SendAll(l, available, a);
    if b == [] {
      assert a + b == a;
      assert first.outcomes + [] == first.outcomes;
    } else {
      var b' := b[..|b| - 1];
      var c := b[|b| - 1];
      assert a + b == (a + b') + [c];
      SendAllAppend(l, available, a, b');
      SendAllSnoc(l, available, a + b', c);
      var second' := SendAll(first.link, available, b');
      var last := Send(second'.link, available, c);
      assert SendAll(first.link, available, b) == Run(second'.outcomes + [last.outcome], last.link);
      assert first.outcomes + second'.outcomes + [last.outcome] == first.outcomes + (second'.outcomes + [last.outcome]);
    }
  }

  /** The outcome of a command in `a + b` is its outcome in `a`, or in `b`
      sent after `a`. */
  lemma JoinOutcome(l: Link, available: bool, a: seq<string>, b: seq<string>, i: nat)
    requires Sendable(a) && Sendable(b) && i < |a| + |b|
    ensures Sendable(a + b)
    ensures var first := SendAll(l, available, a);
            SendAll(l, available, a + b).outcomes[i] ==
              if i < |a| then first.outcomes[i] else SendAll(first.link, available, b).outcomes[i - |a|]
  {
    SendAllAppend(l, available, a, b);
  }

  /** Sending three commands through SendAll is sending them one by one. */
  lemma SendAllThree(l: Link, available: bool, x: string, y: string, z: string)
    requires |x| > 0 && |y| > 0 && |z| > 0
    ensures Sendable([x, y, z])
    ensures var sx := Send(l, available, x);
            var sy := Send(sx.link, available, y);
            var sz := Send(sy.link, available, z);
            SendAll(l, available, [x, y, z]) == Run([sx.outcome, sy.outcome, sz.outcome], sz.link)
  {
    SendAllTwo(l, available, x, y);
    SendAllSnoc(l, available, [x, y], z);
    assert [x, y] + [z] == [x, y, z];
  }

  lemma SendAllTwo(l: Link, available: bool, x: string, y: string)
    requires |x| > 0 && |y| > 0
    ensures Sendable([x, y])
    ensures var sx := Send(l, available, x);
            var sy := Send(sx.link, available, y);
            SendAll(l, available, [x, y]) == Run([sx.outcome, sy.outcome], sy.link)
  {
    SendAllSnoc(l, available, [], x);
    assert [] + [x] == [x];
    SendAllSnoc(l, available, [x], y);
    assert [x] + [y] == [x, y];
  }

  /** Each command of a list adds at most one line; when the link can still
      write at the end every command went out, and when it could not write
      at the start none did. */
  lemma {:induction false} SendAllCount(l: Link, available: bool, cmds: seq<string>)
    requires Sendable(cmds)
    ensures var end := SendAll(l, available, cmds).link;
            && |l.written| <= |end.written| <= |l.written| + |cmds|
            && (Writes(end, available) ==> |end.written| == |l.written| + |cmds|)
            && (!Writes(l, available) ==> end == l)
    decreases |cmds|
  {
    if cmds != [] {
      SendAllCount(l, available, cmds[..|cmds| - 1]);
      SendAllStep(l, available, cmds);
    }
  }

  /** `after` is `before` followed by the lines of the first commands of
      `cmds`, in order. */
  predicate WrotePrefix(before: seq<string>, after: seq<string>, cmds: seq<string>)
  {
    && |before| <= |after| <= |before| + |cmds|
    && after == before + Framed(cmds[..|after| - |before|])
  }

  /** Lines that form a prefix of a list's lines form a prefix of the lines
      of any longer list that starts with it. */
  lemma WrotePrefixWiden(before: seq<string>, after: seq<string>, p: seq<string>, q: seq<string>)
    requires p <= q && WrotePrefix(before, after, p)
    ensures WrotePrefix(before, after, q)
  {
    var k := |after| - |before|;
    assert p[..k] == q[..k];
  }

  /** Whatever the instrument does, the lines written while sending a list of
      commands are the lines of a prefix of that list: commands go out in
      order and none is skipped. */
  lemma {:induction false} SendAllWritesPrefix(l: Link, available: bool, cmds: seq<string>)
    requires Sendable(cmds)
    ensures WrotePrefix(l.written, SendAll(l, available, cmds).link.written, cmds)
    decreases |cmds|
  {
    if cmds == [] {
      assert Framed(cmds[..0]) == [];
    } else {
      var p := cmds[..|cmds| - 1];
      SendAllWritesPrefix(l, available, p);
      SendAllCount(l, available, p);
      SendAllStep(l, available, cmds);
      var mid := SendAll(l, available, p).link;
      FramedExtend(l.written, mid.written, SendAll(l, available, cmds).link.written, cmds, Writes(mid, available));
    }
  }

  /** Sending the first commands of a plan writes the lines of a prefix of
      the plan; sending all of it on a link that can still write at the end
      writes all of its lines; and a link that cannot write is left as it
      was. */
  lemma SendPrefixWrites(l: Link, available: bool, issued: seq<string>, plan: seq<string>)
    requires Sendable(issued) && issued <= plan
    ensures var end := SendAll(l, available, issued).link;
            && WrotePrefix(l.written, end.written, plan)
            && (issued == plan && Writes(end, available) ==> end.written == l.written + Framed(plan))
            && (!Writes(l, available) ==> end == l)
  {
    var end := SendAll(l, available, issued).link;
    SendAllWritesPrefix(l, available, issued);
    SendAllCount(l, available, issued);
    WrotePrefixWiden(l.written, end.written, issued, plan);
    assert issued[..|issued|] == issued;
  }

  /** The sequence step of SendAllWritesPrefix: a prefix of the lines of all
      but the last command, extended by the last command's line only when the
      prefix is complete, is a prefix of the lines of all commands. */
  lemma FramedExtend(base: seq<string>, mid: seq<string>, w: seq<string>, cmds: seq<string>, wrote: bool)
    requires cmds != []
    requires WrotePrefix(base, mid, cmds[..|cmds| - 1])
    requires wrote ==> |mid| == |base| + |cmds| - 1
    requires w == mid + (if wrote then [cmds[|cmds| - 1] + CRLF] else [])
    ensures WrotePrefix(base, w, cmds)
  {
    var p := cmds[..|cmds| - 1];
    var k := |mid| - |base|;
    assert p[..k] == cmds[..k];
    if wrote {
      assert p[..k] == p;
      FramedSnoc(p, cmds[|cmds| - 1]);
      assert p + [cmds[|cmds| - 1]] == cmds;
      assert cmds[..|cmds|] == cmds;
    }
  }

  /** The last command of a list is written exactly when the link could
      still write after the others; a link that cannot write stays so. */
  lemma SendAllStep(l: Link, available: bool, cmds: seq<string>)
    requires Sendable(cmds) && cmds != []
    ensures var mid := SendAll(l, available, cmds[..|cmds| - 1]).link;
            var end := SendAll(l, available, cmds).link;
            && end.written == mid.written + (if Writes(mid, available) then [cmds[|cmds| - 1] + CRLF] else [])
            && (Writes(end, available) ==> Writes(mid, available))
  {
  }

  /** Sending any list of commands keeps the port opened at most once. */
  lemma {:induction false} SendAllOpensOnce(l: Link, available: bool, cmds: seq<string>)
    requires Sendable(cmds) && OpenedOnce(l)
    ensures OpenedOnce(SendAll(l, available, cmds).link)
    decreases |cmds|
  {
    if cmds != [] {
      SendAllOpensOnce(l, available, cmds[..|cmds| - 1]);
    }
  }

  /** A hung link stays hung: every later command times out and is neither
      written nor answered, so sending a list changes nothing. */
  lemma {:induction false} SendAllHung(l: Link, available: bool, cmds: seq<string>)
    requires Sendable(cmds) && l.hung
    ensures SendAll(l, available, cmds).link == l
    ensures forall i :: 0 <= i < |cmds| ==> SendAll(l, available, cmds).outcomes[i] == TimedOut
    decreases |cmds|
  {
    if cmds != [] {
      SendAllHung(l, available, cmds[..|cmds| - 1]);
    }
  }

  /** After a list of commands the link is hung exactly when the last one
      timed out (or, for no commands, when it was hung before). */
  lemma SendAllLastHung(l: Link, available: bool, cmds: seq<string>)
    requires Sendable(cmds) && cmds != []
    ensures SendAll(l, available, cmds).link.hung <==> SendAll(l, available, cmds).outcomes[|cmds| - 1] == TimedOut
  {
    var prev := SendAll(l, available, cmds[..|cmds| - 1]);
    HungIffTimedOut(prev.link, available, cmds[|cmds| - 1]);
  }
}
