/** The syslog channel: a digest as frames in the format of RFC 3164 section 4.1. */
module SyslogPrinter {
  import opened Dispatcher
  import opened Findings
  import opened LineText
  import opened Text

  /**
   * What a channel is configured with, and what it asks of the system: its host name, its process
   * id, the time of the digest as Go's time.Stamp prints it, and the address in a finding's evidence.
   */
  datatype Channel = Channel(
    hostname: string, osHostname: string, tag: string, facility: int,
    pid: nat, stamp: string, sourceOf: Finding -> string)

  const MAX_MESSAGE: nat := 1600
  const ELLIPSIS: char := '\U{2026}'

  function Name(s: Severity): string
  {
    match s
    case Critical => "critical"
    case High => "high"
    case Medium => "medium"
    case Low => "low"
    case Info => "info"
    case Unknown(text) => text
  }

  function Level(severity: string): (n: int)
    ensures 2 <= n <= 6
  {
    var sev := Lower(severity);
    if sev == "critical" then 2
    else if sev == "high" then 3
    else if sev == "medium" then 4
    else if sev == "low" then 5
    else 6
  }

  /** What would end a frame early becomes a space. */
  function Plain(c: char): char
  {
    if c == '\n' || c == '\r' || c == '\0' then ' ' else c
  }

  /** The longest beginning of s that takes up no more than n bytes. */
  function Cut(s: string, n: nat): (r: string)
    ensures ByteLen(r) <= n && HasPrefix(s, r)
    ensures |r| < |s| ==> ByteLen(r) + CharBytes(s[|r|]) > n
  {
    if s == "" || CharBytes(s[0]) > n then ""
    else
      var rest := Cut(s[1..], n - CharBytes(s[0]));
      assert ([s[0]] + rest)[1..] == rest;
      [s[0]] + rest
  }

  function SanitizeLine(s: string): string
  {
    var plain := seq(|s|, i requires 0 <= i < |s| => Plain(s[i]));
    if ByteLen(plain) > MAX_MESSAGE then Cut(plain, MAX_MESSAGE) + [ELLIPSIS] else plain
  }

  function Message(ch: Channel, mod: string, f: Finding, resolved: bool): string
  {
    var src := ch.sourceOf(f);
    SanitizeLine(
      (if resolved then "RESOLVED: " else "") + f.title +
      " | product=" + mod + " severity=" + Name(f.severity) + " check=" + f.check + " target=" + f.target +
      " status=" + (if resolved then "resolved" else "open") +
      (if src != "" then " src=" + src else ""))
  }

  function Host(ch: Channel): (h: string)
    ensures h != ""
  {
    if ch.hostname != "" then ch.hostname
    else if ch.osHostname != "" then ch.osHostname
    else "-"
  }

  function Tag(ch: Channel, mod: string): string
  {
    if ch.tag != "" then ch.tag else mod
  }

  function Facility(ch: Channel): int
  {
    if ch.facility == 0 then 16 else ch.facility
  }

  function Urgency(f: Finding, resolved: bool): (n: int)
    ensures 2 <= n <= 6
  {
    if resolved then 5 else Level(Name(f.severity))
  }

  /** The tag, the process id and the colon that ends them. */
  function Label(tag: string, pid: nat): string
  {
    tag + "[" + Itoa(pid) + "]:"
  }

  function Frame(pri: int, stamp: string, host: string, tag: string, pid: nat, message: string): string
  {
    "<" + Itoa(pri) + ">" + stamp + " " + host + " " + Label(tag, pid) + " " + message + "\n"
  }

  function FrameOf(ch: Channel, mod: string, f: Finding, resolved: bool): string
  {
    Frame(Facility(ch) * 8 + Urgency(f, resolved), ch.stamp, Host(ch), Tag(ch, mod), ch.pid,
          Message(ch, mod, f, resolved))
  }

  function Frames(ch: Channel, mod: string, fs: seq<Finding>, resolved: bool): seq<string>
  {
    seq(|fs|, i requires 0 <= i < |fs| => FrameOf(ch, mod, fs[i], resolved))
  }

  method Lines(ch: Channel, d: Digest) returns (out: seq<string>)
    ensures out == Frames(ch, d.mod, d.news, false) + Frames(ch, d.mod, d.resolved, true)
  {
    hide Message, Level, Name, Frame;
    var host := ch.hostname;
    if host == "" {
      host := if ch.osHostname != "" then ch.osHostname else "-";
    }
    var tag := if ch.tag != "" then ch.tag else d.mod;
    var facility := if ch.facility == 0 then 16 else ch.facility;
    out := [];
    for i := 0 to |d.news|
      invariant |out| == i
      invariant forall j :: 0 <= j < i ==> out[j] == FrameOf(ch, d.mod, d.news[j], false)
    {
      var pri := facility * 8 + Level(Name(d.news[i].severity));
      out := out + [Frame(pri, ch.stamp, host, tag, ch.pid, Message(ch, d.mod, d.news[i], false))];
    }
    assert out == Frames(ch, d.mod, d.news, false);
    ghost var first := out;
    for i := 0 to |d.resolved|
      invariant |out| == |first| + i && out[..|first|] == first
      invariant forall j :: 0 <= j < i ==> out[|first| + j] == FrameOf(ch, d.mod, d.resolved[j], true)
    {
      var pri := facility * 8 + 5;
      out := out + [Frame(pri, ch.stamp, host, tag, ch.pid, Message(ch, d.mod, d.resolved[i], true))];
    }
    assert out[|first|..] == Frames(ch, d.mod, d.resolved, true);
  }

  /** A message holds nothing that could end its frame, and no more than its limit and the ellipsis. */
  lemma MessageFits(ch: Channel, mod: string, f: Finding, resolved: bool)
    ensures var m := Message(ch, mod, f, resolved);
            '\n' !in m && '\r' !in m && '\0' !in m && ByteLen(m) <= MAX_MESSAGE + 3
  {
    SanitizeLineFits((if resolved then "RESOLVED: " else "") + f.title +
      " | product=" + mod + " severity=" + Name(f.severity) + " check=" + f.check + " target=" + f.target +
      " status=" + (if resolved then "resolved" else "open") +
      (if ch.sourceOf(f) != "" then " src=" + ch.sourceOf(f) else ""));
  }

  lemma SanitizeLineFits(s: string)
    ensures var m := SanitizeLine(s);
            '\n' !in m && '\r' !in m && '\0' !in m && ByteLen(m) <= MAX_MESSAGE + 3
  {
    var plain := seq(|s|, i requires 0 <= i < |s| => Plain(s[i]));
    assert '\n' !in plain && '\r' !in plain && '\0' !in plain;
    if ByteLen(plain) > MAX_MESSAGE {
      var start := Cut(plain, MAX_MESSAGE);
      ByteLenOf(start, [ELLIPSIS]);
      assert ByteLen([ELLIPSIS]) == 3;
      assert forall c :: c in start ==> c in plain;
    }
  }
}
