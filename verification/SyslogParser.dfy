/** Reading one syslog line, RFC 5424 framing first and then RFC 3164, up to field extraction. */
module SyslogParser {
  import opened LineText
  import opened Text
  import opened Wire

  /** The current time, and the two time formats the parser tries, each giving a point in time if it fits. */
  datatype Clock = Clock(now: int, stamp: string -> Option<int>, rfc3339: string -> Option<int>)

  /** What a line says; severity -1 means the line had no priority. */
  datatype Reading = Reading(
    at: int, severity: int, host: string, app: string, message: string, parsed: bool, raw: string)

  function DropNewlines(s: string): string
  {
    if s != "" && (s[|s| - 1] == '\n' || s[|s| - 1] == '\r') then DropNewlines(s[..|s| - 1]) else s
  }

  /** The number in a leading "<NN>" and what follows it. */
  function SplitPriority(line: string): Option<(int, string)>
  {
    if !HasPrefix(line, "<") then None
    else
      var end := IndexOf(line, '>');
      if end < 2 || end > 4 then None
      else
        match Atoi(line[1..end])
        case None => None
        case Some(n) => if n < 0 || n > 191 then None else Some((n, line[end + 1..]))
  }

  /** At most n pieces between spaces; the last one keeps the spaces it has. */
  function SplitN(s: string, n: nat): (parts: seq<string>)
    requires n > 0
    ensures 1 <= |parts| <= n
  {
    var i := IndexOf(s, ' ');
    if n == 1 || i < 0 then [s] else [s[..i]] + SplitN(s[i + 1..], n - 1)
  }

  function DashToEmpty(s: string): string
  {
    if s == "-" then "" else s
  }

  /** Opening brackets minus closing ones. */
  function Balance(s: string): int
  {
    if s == "" then 0
    else
      var last := s[|s| - 1];
      Balance(s[..|s| - 1]) + (if last == '[' then 1 else if last == ']' then -1 else 0)
  }

  predicate ClosesAt(s: string, i: int)
  {
    0 <= i < |s| && s[i] == ']' && Balance(s[..i + 1]) == 0
  }

  lemma ClosesInside(s: string, init: string)
    requires HasPrefix(s, init)
    ensures forall j :: 0 <= j < |init| ==> ClosesAt(init, j) == ClosesAt(s, j)
  {
    forall j | 0 <= j < |init|
      ensures ClosesAt(init, j) == ClosesAt(s, j)
    {
      assert s[..j + 1] == init[..j + 1];
    }
  }

  /** The first bracket that closes as many as were opened, or -1. */
  function Closing(s: string): (k: int)
    ensures -1 <= k < |s|
    ensures k >= 0 ==> ClosesAt(s, k) && forall j :: 0 <= j < k ==> !ClosesAt(s, j)
    ensures k < 0 ==> forall j :: 0 <= j < |s| ==> !ClosesAt(s, j)
  {
    if s == "" then -1
    else
      var init := s[..|s| - 1];
      ClosesInside(s, init);
      assert s[..|s|] == s;
      var k := Closing(init);
      if k >= 0 then k
      else if s[|s| - 1] == ']' && Balance(s) == 0 then |s| - 1
      else -1
  }

  /** The message after a leading block in brackets, or after a bare dash. */
  function Stripped(text: string): string
  {
    var s := TrimSpace(text);
    if HasPrefix(s, "- ") then s[2..]
    else if s == "-" then ""
    else if HasPrefix(s, "[") && Closing(s) >= 0 then TrimSpace(s[Closing(s) + 1..])
    else s
  }

  function Read5424(rest: string, e: Reading, clock: Clock): Option<Reading>
  {
    if !HasPrefix(rest, "1 ") then None
    else
      var f := SplitN(rest, 7);
      if |f| < 7 then None
      else
        var at := clock.rfc3339(f[1]);
        Some(e.(at := if at.Some? then at.value else e.at,
                host := DashToEmpty(f[2]), app := DashToEmpty(f[3]),
                message := Stripped(f[6]), parsed := true))
  }

  /** No time stamp of RFC 3164 has a character outside ASCII. */
  predicate Stamped(rest: string)
  {
    |rest| >= 16 && forall i :: 0 <= i < 15 ==> rest[i] < '\U{80}'
  }

  /** The part before a colon that is neither first nor too far in. */
  function AppOf(tag: string): string
  {
    var br := IndexOf(tag, '[');
    if br >= 0 then tag[..br] else tag
  }

  /** "HOST APP[pid]: message", without outer white space. */
  function ReadBody(remain: string, e: Reading): Reading
  {
    var sp := IndexOf(remain, ' ');
    if sp < 0 then e.(message := remain, parsed := true)
    else
      var tail := TrimSpace(remain[sp + 1..]);
      var colon := IndexOf(tail, ':');
      if colon > 0 && ByteLen(tail[..colon]) < 64 then
        e.(host := remain[..sp], app := AppOf(tail[..colon]), message := TrimSpace(tail[colon + 1..]), parsed := true)
      else
        e.(host := remain[..sp], message := tail, parsed := true)
  }

  function Read3164(rest: string, e: Reading, clock: Clock): Option<Reading>
  {
    if !Stamped(rest) then None
    else
      match clock.stamp(rest[..15])
      case None => None
      case Some(at) => Some(ReadBody(TrimSpace(rest[15..]), e.(at := at)))
  }

  function Read(text: string, clock: Clock): Reading
  {
    var line := DropNewlines(text);
    var e := Reading(clock.now, -1, "", "", "", false, line);
    match SplitPriority(line)
    case None => e.(message := line)
    case Some((pri, rest)) =>
      var e1 := e.(severity := pri % 8);
      var modern := Read5424(rest, e1, clock);
      if modern.Some? then modern.value
      else
        var bsd := Read3164(rest, e1, clock);
        if bsd.Some? then bsd.value else e1.(message := rest)
  }

  // ---------------------------------------------------------------- the code itself

  method StripStructuredData(text: string) returns (message: string)
    ensures message == Stripped(text)
  {
    hide TrimLeft, TrimRight;
    var s := TrimSpace(text);
    if HasPrefix(s, "- ") {
      return s[2..];
    }
    if s == "-" {
      return "";
    }
    if HasPrefix(s, "[") {
      var depth := 0;
      for i := 0 to |s|
        invariant depth == Balance(s[..i])
        invariant forall j :: 0 <= j < i ==> !ClosesAt(s, j)
      {
        assert s[..i + 1][..i] == s[..i];
        match s[i]
        case '[' => depth := depth + 1;
        case ']' =>
          depth := depth - 1;
          if depth == 0 {
            assert ClosesAt(s, i);
            return TrimSpace(s[i + 1..]);
          }
        case _ =>
      }
    }
    return s;
  }

  method Parse5424(rest: string, e: Reading, clock: Clock) returns (r: Option<Reading>)
    ensures r == Read5424(rest, e, clock)
  {
    if !HasPrefix(rest, "1 ") {
      return None;
    }
    var f := SplitN(rest, 7);
    if |f| < 7 {
      return None;
    }
    var out := e;
    var ts := clock.rfc3339(f[1]);
    if ts.Some? {
      out := out.(at := ts.value);
    }
    out := out.(host := DashToEmpty(f[2]));
    out := out.(app := DashToEmpty(f[3]));
    out := out.(parsed := true);
    var message := StripStructuredData(f[6]);
    out := out.(message := message);
    return Some(out);
  }

  method ParseSyslog(text: string, clock: Clock) returns (e: Reading)
    ensures e == Read(text, clock)
  {
    hide Read5424, Read3164, SplitPriority;
    var line := DropNewlines(text);
    e := Reading(clock.now, -1, "", "", "", false, line);
    var split := SplitPriority(line);
    if split.None? {
      e := e.(message := line);
      return;
    }
    var (pri, rest) := split.value;
    e := e.(severity := pri % 8);
    var ev := Parse5424(rest, e, clock);
    if ev.None? {
      ev := Read3164(rest, e, clock);
    }
    if ev.Some? {
      e := ev.value;
    } else {
      e := e.(message := rest);
    }
  }
}
