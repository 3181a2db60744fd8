/** The syslog printer and the syslog parser undo each other: exactly when, and what they lose. */
module SyslogRoundTrip {
  import opened Findings
  import opened LineText
  import opened SyslogParser
  import opened SyslogPrinter
  import opened Text
  import opened Wire

  /** A priority is read back exactly when its facility is one of the 24 that exist. */
  lemma PriorityReadBackIff(pri: int, rest: string)
    ensures SplitPriority("<" + Itoa(pri) + ">" + rest) == if 0 <= pri <= 191 then Some((pri, rest)) else None
  {
    ItoaRoundTrip(pri);
    hide Itoa, Atoi, IndexOf;
    MarkedPriority(Itoa(pri), rest);
    if 0 <= pri <= 191 {
      ShortPriority(pri);
    }
  }

  lemma MarkedPriority(digits: string, rest: string)
    requires '>' !in digits
    ensures var line, n := "<" + digits + ">" + rest, |digits| + 1;
            HasPrefix(line, "<") && n < |line| && IndexOf(line, '>') == n && line[1..n] == digits && line[n + 1..] == rest
  {
    hide IndexOf;
    var head := "<" + digits;
    assert "<" + digits + ">" + rest == head + ['>'] + rest;
    FirstOccurrence(head, '>', rest);
  }

  lemma ShortPriority(pri: nat)
    requires pri < 1000
    ensures 1 <= |Itoa(pri)| <= 3
  {
    assert pri >= 10 ==> |Decimal(pri)| == |Decimal(pri / 10)| + 1;
    assert pri >= 100 ==> |Decimal(pri / 10)| == |Decimal(pri / 10 / 10)| + 1;
  }

  lemma {:induction false} DropNewlinesOf(s: string, c: char)
    requires s != "" && s[|s| - 1] != '\n' && s[|s| - 1] != '\r'
    requires c == '\n' || c == '\r'
    ensures DropNewlines(s + [c]) == s
  {
    assert (s + [c])[..|s|] == s;
  }

  // ---------------------------------------------------------------- the body of a frame

  /** What the printer puts after the time stamp. */
  function Body(host: string, tag: string, pid: nat, message: string): string
  {
    " " + host + " " + Label(tag, pid) + " " + message
  }

  predicate HostReadable(host: string)
  {
    host != "" && ' ' !in host && !IsSpace(host[0])
  }

  predicate TagReadable(tag: string)
  {
    ':' !in tag && '[' !in tag && (tag == "" || !IsSpace(tag[0]))
  }

  /** The fields that come back: what a sender can check before it prints. */
  predicate Readable(host: string, tag: string, pid: nat)
  {
    HostReadable(host) && TagReadable(tag) &&
    ByteLen(tag) + 2 + |Itoa(pid)| < 64
  }

  lemma LabelColon(tag: string, pid: nat, after: string)
    requires ':' !in tag && '[' !in tag
    ensures var l := Label(tag, pid);
            IndexOf(l + after, ':') == |l| - 1 && AppOf(l[..|l| - 1]) == tag && l[|l| - 1] == ':'
    ensures ByteLen(Label(tag, pid)[..|Label(tag, pid)| - 1]) == ByteLen(tag) + 2 + |Itoa(pid)|
  {
    ItoaRoundTrip(pid);
    hide Itoa;
    var rest := "[" + Itoa(pid) + "]";
    var inner := tag + rest;
    assert Label(tag, pid) == inner + [':'];
    FirstOccurrence(inner, ':', after);
    assert inner + [':'] + after == Label(tag, pid) + after;
    assert Label(tag, pid)[..|inner|] == inner;
    FirstOccurrence(tag, '[', Itoa(pid) + "]");
    assert inner == tag + ['['] + (Itoa(pid) + "]");
    assert inner[..|tag|] == tag;
    ByteLenOf(tag, rest);
    assert forall i :: 0 <= i < |rest| ==> rest[i] == '[' || rest[i] == ']' || rest[i] in Itoa(pid);
    ByteLenAscii(rest);
  }

  /** Trimming leaves what ends in no space, and what is left of the text after it. */
  lemma TrimAround(inner: string, after: string)
    requires inner != "" && !IsSpace(inner[|inner| - 1])
    ensures TrimSpace(" " + inner + after) == TrimLeft(inner + TrimRight(after))
  {
    hide *;
    var head := " " + inner;
    TrimRightAfter(head, after);
    TrimsCommute(head + after);
    SpaceDropped(inner + TrimRight(after));
    assert head + TrimRight(after) == " " + (inner + TrimRight(after));
  }

  lemma SpaceDropped(s: string)
    ensures TrimLeft(" " + s) == TrimLeft(s)
  {
    assert (" " + s)[1..] == s;
  }

  /** The white space around a message is all that is lost of it. */
  lemma MessageTrimmed(message: string)
    ensures TrimSpace(TrimRight(" " + message)) == TrimSpace(message)
  {
    hide TrimLeft, TrimRight;
    TrimsCommute(" " + message);
    SpaceDropped(message);
    TrimRightTwice(" " + message);
    TrimsCommute(TrimRight(" " + message));
  }

  /** Reading a host that can be read, and what follows it. */
  lemma HostComesBack(host: string, rest: string, e: Reading)
    requires HostReadable(host)
    ensures var tail := TrimSpace(rest);
            var colon := IndexOf(tail, ':');
            ReadBody(TrimLeft(host + " " + rest), e) ==
              if colon > 0 && ByteLen(tail[..colon]) < 64 then
                e.(host := host, app := AppOf(tail[..colon]), message := TrimSpace(tail[colon + 1..]), parsed := true)
              else
                e.(host := host, message := tail, parsed := true)
  {
    var remain := host + " " + rest;
    assert remain[0] == host[0];
    assert TrimLeft(remain) == remain;
    hide TrimSpace, AppOf, ByteLen;
    assert remain == host + [' '] + rest;
    FirstOccurrence(host, ' ', rest);
    assert remain[..|host|] == host;
    assert remain[|host| + 1..] == rest;
  }

  /** The body the printer makes, trimmed, up to the spaces at its end. */
  lemma TrimmedBody(host: string, tag: string, pid: nat, message: string)
    ensures TrimSpace(Body(host, tag, pid, message)) ==
      TrimLeft(host + " " + (Label(tag, pid) + TrimRight(" " + message)))
  {
    hide Itoa, TrimLeft, TrimRight, TrimSpace;
    var mark := Label(tag, pid);
    var inner := host + " " + mark;
    assert Body(host, tag, pid, message) == " " + inner + (" " + message);
    assert inner[|inner| - 1] == ':';
    TrimAround(inner, " " + message);
    assert inner + TrimRight(" " + message) == host + " " + (mark + TrimRight(" " + message));
  }

  /** The label and the message, as they stand after the host. */
  lemma TailTrimmed(mark: string, y: string)
    requires mark != "" && mark[|mark| - 1] == ':' && y == TrimRight(y)
    ensures TrimSpace(mark + y) == TrimLeft(mark + y)
  {
    TrimRightAfter(mark, y);
    TrimsCommute(mark + y);
  }

  /** The label as it stands after the host: where its colon is, and what surrounds it. */
  lemma MarkedTail(tag: string, pid: nat, y: string)
    requires TagReadable(tag) && y == TrimRight(y)
    ensures var mark := Label(tag, pid);
            var tail := mark + y;
            TrimSpace(tail) == tail && IndexOf(tail, ':') == |mark| - 1 && |mark| > 1 &&
            ByteLen(tail[..|mark| - 1]) == ByteLen(tag) + 2 + |Itoa(pid)| &&
            AppOf(tail[..|mark| - 1]) == tag && tail[|mark|..] == y
  {
    LabelSettled(tag, pid, y);
    LabelColon(tag, pid, y);
    hide *;
    var mark := Label(tag, pid);
    LabelLong(tag, pid);
    assert (mark + y)[..|mark| - 1] == mark[..|mark| - 1];
    assert (mark + y)[|mark|..] == y;
  }

  lemma LabelLong(tag: string, pid: nat)
    ensures |Label(tag, pid)| > 1
  {
  }

  lemma ReadableParts(host: string, tag: string, pid: nat)
    requires Readable(host, tag, pid)
    ensures HostReadable(host) && TagReadable(tag) && ByteLen(tag) + 2 + |Itoa(pid)| < 64
  {
  }

  /** Readable fields come back. */
  lemma ReadableComesBack(host: string, tag: string, pid: nat, message: string, e: Reading)
    requires Readable(host, tag, pid)
    ensures ReadBody(TrimSpace(Body(host, tag, pid, message)), e) ==
      e.(host := host, app := tag, message := TrimSpace(message), parsed := true)
  {
    hide *;
    var y := TrimRight(" " + message);
    ReadableParts(host, tag, pid);
    TrimmedBody(host, tag, pid, message);
    TrimRightTwice(" " + message);
    MarkedTail(tag, pid, y);
    HostComesBack(host, Label(tag, pid) + y, e);
    MessageTrimmed(message);
  }

  lemma LeftSettled(s: string)
    requires s != "" && !IsSpace(s[0])
    ensures TrimLeft(s) == s
  {
  }

  // ---------------------------------------------------------------- and no others do

  /** A host that the parser finds is one it can find. */
  lemma FoundHost(remain: string, e: Reading)
    requires e.host == "" && (remain == "" || !IsSpace(remain[0]))
    ensures var r := ReadBody(remain, e); r.host != "" ==> HostReadable(r.host)
    ensures var r := ReadBody(remain, e); r.host == "" ==> r == e.(message := remain, parsed := true) && ' ' !in remain
  {
    hide TrimSpace, AppOf, ByteLen;
    assert IsSpace(' ');
    hide IsSpace;
    var sp := IndexOf(remain, ' ');
    if sp >= 0 {
      assert remain[..sp][0] == remain[0];
    }
  }

  /** So is a tag. */
  lemma FoundTag(tail: string, n: nat)
    requires 0 < n <= |tail| && !IsSpace(tail[0]) && ':' !in tail[..n]
    ensures TagReadable(AppOf(tail[..n]))
  {
    hide IsSpace;
    var app := AppOf(tail[..n]);
    assert app == tail[..|app|];
    assert forall c :: c in app ==> c in tail[..n];
  }

  lemma NoSpaceNoRest(message: string)
    ensures var y := TrimRight(" " + message); ' ' !in y ==> y == ""
  {
    var y := TrimRight(" " + message);
    TrimIsPrefix(" " + message);
    assert y != "" ==> y[0] == (" " + message)[0];
  }

  lemma {:induction false} TrimIsPrefix(s: string)
    ensures HasPrefix(s, TrimRight(s))
    decreases |s|
  {
    if s != "" && IsSpace(s[|s| - 1]) {
      TrimIsPrefix(s[..|s| - 1]);
    }
  }

  lemma EmptyTrimmed()
    ensures TrimSpace("") == ""
  {
  }

  /** Without a host, the first word after it is taken for one, or nothing is left to be the message. */
  lemma MissingHost(tag: string, pid: nat, message: string, e: Reading)
    requires e.host == "" && e.app == ""
    ensures var r := ReadBody(TrimSpace(Body("", tag, pid, message)), e);
            !(r.host == "" && r.app == tag && r.message == TrimSpace(message))
  {
    hide ReadBody, TrimSpace, TrimRight, Body, Itoa;
    var y := TrimRight(" " + message);
    var mark := Label(tag, pid);
    TrimmedBody("", tag, pid, message);
    assert "" + " " + (mark + y) == " " + (mark + y);
    SpaceDropped(mark + y);
    var remain := TrimLeft(mark + y);
    FoundHost(remain, e);
    if ReadBody(remain, e).host == "" && tag == "" {
      assert (mark + y)[0] == '[';
      assert remain == mark + y;
      MessageTrimmed(message);
      NoSpaceNoRest(message);
      assert forall c :: c in y ==> c in remain;
      EmptyTrimmed();
    }
  }

  /** Host, tag and message all come back exactly when the fields are readable. */
  lemma FieldsComeBackIff(host: string, tag: string, pid: nat, message: string, e: Reading)
    requires e.host == "" && e.app == ""
    ensures var r := ReadBody(TrimSpace(Body(host, tag, pid, message)), e);
            (r.host == host && r.app == tag && r.message == TrimSpace(message)) <==> Readable(host, tag, pid)
  {
    if Readable(host, tag, pid) {
      ReadableComesBack(host, tag, pid, message, e);
    } else if host == "" {
      MissingHost(tag, pid, message, e);
    } else {
      var remain := TrimSpace(Body(host, tag, pid, message));
      TrimmedBody(host, tag, pid, message);
      FoundHost(remain, e);
      if HostReadable(host) {
        UnreadableTag(host, tag, pid, message, e);
      }
    }
  }

  /** Whatever follows the host, the tag that is read has the form of one. */
  lemma TagRead(host: string, rest: string, e: Reading)
    requires e.app == "" && HostReadable(host) && TrimSpace(rest) != "" && !IsSpace(TrimSpace(rest)[0])
    ensures TagReadable(ReadBody(TrimLeft(host + " " + rest), e).app)
  {
    HostComesBack(host, rest, e);
    var tail := TrimSpace(rest);
    var colon := IndexOf(tail, ':');
    if colon > 0 {
      FoundTag(tail, colon);
    }
  }

  /** A colon too far in is not taken for the end of a tag. */
  lemma FarColon(host: string, tail: string, e: Reading)
    requires HostReadable(host) && TrimSpace(tail) == tail
    requires IndexOf(tail, ':') >= 0 && ByteLen(tail[..IndexOf(tail, ':')]) >= 64
    ensures ReadBody(TrimLeft(host + " " + tail), e) == e.(host := host, message := tail, parsed := true)
  {
    hide *;
    HostComesBack(host, tail, e);
  }

  lemma LabelSettled(tag: string, pid: nat, y: string)
    requires TagReadable(tag) && y == TrimRight(y)
    ensures TrimSpace(Label(tag, pid) + y) == Label(tag, pid) + y
  {
    assert !IsSpace('[');
    hide IsSpace, TrimLeft, TrimRight, TrimSpace, Itoa;
    var mark := Label(tag, pid);
    assert (mark + y)[0] == if tag == "" then '[' else tag[0];
    TailTrimmed(mark, y);
    LeftSettled(mark + y);
  }

  /** A label that is too long is read as part of the message. */
  lemma LongLabel(host: string, tag: string, pid: nat, y: string, e: Reading)
    requires HostReadable(host) && TagReadable(tag) && y == TrimRight(y) && !Readable(host, tag, pid)
    ensures ReadBody(TrimLeft(host + " " + (Label(tag, pid) + y)), e) ==
      e.(host := host, message := Label(tag, pid) + y, parsed := true)
  {
    var mark := Label(tag, pid);
    var tail := mark + y;
    LabelSettled(tag, pid, y);
    assert ByteLen(tag) + 2 + |Itoa(pid)| >= 64;
    hide *;
    LabelColon(tag, pid, y);
    assert tail[..|mark| - 1] == mark[..|mark| - 1];
    FarColon(host, tail, e);
  }

  lemma UnreadableTag(host: string, tag: string, pid: nat, message: string, e: Reading)
    requires e.host == "" && e.app == ""
    requires HostReadable(host) && !Readable(host, tag, pid)
    ensures var r := ReadBody(TrimSpace(Body(host, tag, pid, message)), e);
            !(r.app == tag && r.message == TrimSpace(message))
  {
    var y := TrimRight(" " + message);
    var mark := Label(tag, pid);
    TrimmedBody(host, tag, pid, message);
    TrimRightTwice(" " + message);
    TailTrimmed(mark, y);
    TrimShortens(y);
    TrimShortens(TrimLeft(y));
    MessageTrimmed(message);
    hide ReadBody, TrimRight, IsSpace, Body, Itoa;
    if TagReadable(tag) {
      LongLabel(host, tag, pid, y, e);
    } else if ReadBody(TrimSpace(Body(host, tag, pid, message)), e).app == tag {
      SomeTail(mark, y);
      TagRead(host, mark + y, e);
    }
  }

  lemma SomeTail(mark: string, y: string)
    requires mark != "" && mark[|mark| - 1] == ':'
    ensures TrimLeft(mark + y) != ""
  {
    ColonStays(mark + y, |mark| - 1);
  }

  lemma {:induction false} ColonStays(s: string, i: nat)
    requires i < |s| && s[i] == ':'
    ensures TrimLeft(s) != ""
  {
    if i > 0 {
      ColonStays(s[1..], i - 1);
    }
  }

  // ---------------------------------------------------------------- whole frames

  /** A time stamp as time.Stamp prints it: 15 ASCII characters, a month name first, and the parser takes it. */
  predicate GoodStamp(stamp: string, clock: Clock)
  {
    |stamp| == 15 && (forall i :: 0 <= i < 15 ==> stamp[i] < '\U{80}' && stamp[i] != '\n') &&
    stamp[0] != '1' && clock.stamp(stamp).Some?
  }

  predicate OneLine(s: string)
  {
    '\n' !in s && '\r' !in s
  }

  /** The frame, without the newline that ends it, is what the parser splits and reads. */
  lemma FrameParts(pri: int, stamp: string, host: string, tag: string, pid: nat, message: string)
    requires OneLine(message)
    ensures DropNewlines(Frame(pri, stamp, host, tag, pid, message)) ==
      "<" + Itoa(pri) + ">" + (stamp + Body(host, tag, pid, message))
  {
    hide DropNewlines, Itoa, Label;
    var line := "<" + Itoa(pri) + ">" + stamp + " " + host + " " + Label(tag, pid) + " " + message;
    assert line == "<" + Itoa(pri) + ">" + (stamp + Body(host, tag, pid, message));
    assert line[|line| - 1] == if message == "" then ' ' else message[|message| - 1];
    DropNewlinesOf(line, '\n');
  }

  /** After the priority, a time stamp leads to the older framing. */
  lemma StampRead(stamp: string, body: string, e: Reading, clock: Clock)
    requires GoodStamp(stamp, clock) && body != ""
    ensures Read5424(stamp + body, e, clock) == None
    ensures Read3164(stamp + body, e, clock) ==
      Some(ReadBody(TrimSpace(body), e.(at := clock.stamp(stamp).value)))
  {
    hide ReadBody, TrimSpace, SplitN;
    var rest := stamp + body;
    assert rest[0] == stamp[0];
    assert rest[..15] == stamp && rest[15..] == body;
    assert Stamped(rest);
  }

  /** What is read of a frame: all of it from the body, or the whole line as a message. */
  lemma FrameRead(pri: int, stamp: string, host: string, tag: string, pid: nat, message: string, clock: Clock)
    requires OneLine(message) && GoodStamp(stamp, clock)
    ensures var r := Read(Frame(pri, stamp, host, tag, pid, message), clock);
            var line := "<" + Itoa(pri) + ">" + (stamp + Body(host, tag, pid, message));
            if 0 <= pri <= 191 then
              r == ReadBody(TrimSpace(Body(host, tag, pid, message)),
                            Reading(clock.stamp(stamp).value, pri % 8, "", "", "", false, line))
            else
              r == Reading(clock.now, -1, "", "", line, false, line)
  {
    FrameParts(pri, stamp, host, tag, pid, message);
    var body := Body(host, tag, pid, message);
    assert body != "";
    hide DropNewlines, SplitPriority, Body, ReadBody, TrimSpace, Itoa, Frame, GoodStamp, Read5424, Read3164;
    PriorityReadBackIff(pri, stamp + body);
    var line := "<" + Itoa(pri) + ">" + (stamp + body);
    StampRead(stamp, body, Reading(clock.now, pri % 8, "", "", "", false, line), clock);
  }

  predicate ComesBack(r: Reading, severity: int, host: string, tag: string, message: string)
  {
    r.parsed && r.severity == severity && r.host == host && r.app == tag && r.message == TrimSpace(message)
  }

  lemma FrameReadBackIff(facility: int, sev: nat, stamp: string, host: string, tag: string, pid: nat,
      message: string, clock: Clock)
    requires OneLine(message) && GoodStamp(stamp, clock) && sev < 8
    ensures var r := Read(Frame(facility * 8 + sev, stamp, host, tag, pid, message), clock);
            ComesBack(r, sev, host, tag, message) <==> 0 <= facility <= 23 && Readable(host, tag, pid)
  {
    var pri := facility * 8 + sev;
    FrameRead(pri, stamp, host, tag, pid, message, clock);
    assert 0 <= pri <= 191 <==> 0 <= facility <= 23;
    hide *;
    if 0 <= pri <= 191 {
      LowBits(facility, sev);
      var e := Reading(clock.stamp(stamp).value, sev, "", "", "", false,
                       "<" + Itoa(pri) + ">" + (stamp + Body(host, tag, pid, message)));
      FieldsComeBackIff(host, tag, pid, message, e);
      KeepsRest(TrimSpace(Body(host, tag, pid, message)), e);
      ComesBackMeans(Read(Frame(pri, stamp, host, tag, pid, message), clock), sev, host, tag, message);
    } else {
      ComesBackMeans(Read(Frame(pri, stamp, host, tag, pid, message), clock), sev, host, tag, message);
    }
  }

  lemma LowBits(facility: nat, sev: nat)
    requires sev < 8
    ensures (facility * 8 + sev) % 8 == sev
  {
  }

  lemma ComesBackMeans(r: Reading, severity: int, host: string, tag: string, message: string)
    ensures ComesBack(r, severity, host, tag, message) ==
      (r.parsed && r.severity == severity && r.host == host && r.app == tag && r.message == TrimSpace(message))
  {
  }

  /** The severity that a receiver sees: a resolution is a notice, and what is not known is for information. */
  function Number(s: Severity, resolved: bool): int
  {
    if resolved then 5
    else
      match s
      case Critical => 2
      case High => 3
      case Medium => 4
      case Low => 5
      case Info => 6
      case Unknown(text) =>
        if Lower(text) == "critical" then 2
        else if Lower(text) == "high" then 3
        else if Lower(text) == "medium" then 4
        else if Lower(text) == "low" then 5
        else 6
  }

  lemma NumberIsUrgency(f: Finding, resolved: bool)
    ensures Urgency(f, resolved) == Number(f.severity, resolved)
  {
    assert Lower("critical") == "critical" && Lower("high") == "high" && Lower("medium") == "medium";
    assert Lower("low") == "low" && Lower("info") == "info";
  }

  /**
   * One frame of a digest says the same to the parser exactly when the channel is configured
   * readably: severity, the host and tag that are set or else the system's and the module's, and the message.
   */
  lemma FindingReadBackIff(ch: Channel, mod: string, f: Finding, resolved: bool, clock: Clock)
    requires GoodStamp(ch.stamp, clock)
    ensures var r := Read(FrameOf(ch, mod, f, resolved), clock);
            var host := if ch.hostname != "" then ch.hostname else if ch.osHostname != "" then ch.osHostname else "-";
            var tag := if ch.tag != "" then ch.tag else mod;
            var facility := if ch.facility == 0 then 16 else ch.facility;
            ComesBack(r, Number(f.severity, resolved), host, tag, Message(ch, mod, f, resolved)) <==>
              0 <= facility <= 23 && Readable(host, tag, ch.pid)
  {
    hide *;
    ChannelIs(ch, mod, f, resolved);
    NumberIsUrgency(f, resolved);
    MessageFits(ch, mod, f, resolved);
    MessageOneLine(Message(ch, mod, f, resolved));
    FrameReadBackIff(Facility(ch), Urgency(f, resolved), ch.stamp, Host(ch), Tag(ch, mod), ch.pid,
                     Message(ch, mod, f, resolved), clock);
  }

  lemma ChannelIs(ch: Channel, mod: string, f: Finding, resolved: bool)
    ensures Host(ch) == if ch.hostname != "" then ch.hostname else if ch.osHostname != "" then ch.osHostname else "-"
    ensures Tag(ch, mod) == if ch.tag != "" then ch.tag else mod
    ensures Facility(ch) == if ch.facility == 0 then 16 else ch.facility
    ensures FrameOf(ch, mod, f, resolved) ==
            Frame(Facility(ch) * 8 + Urgency(f, resolved), ch.stamp, Host(ch), Tag(ch, mod), ch.pid, Message(ch, mod, f, resolved))
  {
    hide Message, Frame, Urgency;
  }

  lemma MessageOneLine(m: string)
    requires '\n' !in m && '\r' !in m
    ensures OneLine(m)
  {
  }

  /** A line without a priority is its own message. */
  lemma BareLine(line: string, clock: Clock)
    requires line == "" || (line[0] != '<' && line[|line| - 1] != '\n' && line[|line| - 1] != '\r')
    ensures Read(line, clock) == Reading(clock.now, -1, "", "", line, false, line)
  {
    assert !HasPrefix(line, "<");
  }

  /** With a priority but in neither format, everything after the priority is the message. */
  lemma UnframedLine(pri: nat, rest: string, clock: Clock)
    requires pri <= 191 && !HasPrefix(rest, "1 ") && (|rest| < 16 || clock.stamp(rest[..15]) == None)
    requires rest != "" && rest[|rest| - 1] != '\n' && rest[|rest| - 1] != '\r'
    ensures var line := "<" + Itoa(pri) + ">" + rest;
            Read(line, clock) == Reading(clock.now, pri % 8, "", "", rest, false, line)
  {
    var line := "<" + Itoa(pri) + ">" + rest;
    PriorityReadBackIff(pri, rest);
    hide SplitPriority, Itoa;
    assert line[|line| - 1] == rest[|rest| - 1];
  }

  lemma KeepsRest(remain: string, e: Reading)
    ensures var r := ReadBody(remain, e); r.parsed && r.severity == e.severity && r.at == e.at
  {
  }

  /** A frame is a single line exactly when neither its host nor its tag breaks it. */
  lemma SingleLineIff(pri: int, stamp: string, host: string, tag: string, pid: nat, message: string, clock: Clock)
    requires OneLine(message) && GoodStamp(stamp, clock)
    ensures var frame := Frame(pri, stamp, host, tag, pid, message);
            frame[|frame| - 1] == '\n' &&
            ('\n' !in frame[..|frame| - 1] <==> '\n' !in host && '\n' !in tag)
  {
    ItoaRoundTrip(pri);
    ItoaRoundTrip(pid);
    hide Itoa;
    var head := "<" + Itoa(pri) + ">" + stamp + " ";
    var rest := "[" + Itoa(pid) + "]: " + message;
    var frame := Frame(pri, stamp, host, tag, pid, message);
    var line := head + host + (" " + tag + rest);
    assert frame == line + "\n";
    assert '\n' !in head;
    assert '\n' !in rest;
    hide *;
    assert frame[..|frame| - 1] == line;
    InEither(head + host, " " + tag + rest, '\n');
    InEither(head, host, '\n');
    InEither(" " + tag, rest, '\n');
    InEither(" ", tag, '\n');
  }

  lemma InEither(s: string, t: string, c: char)
    ensures c in s + t <==> c in s || c in t
  {
  }
}
