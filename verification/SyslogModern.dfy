/** Lines in the format of RFC 5424 section 6, written down and read by the parser. */
module SyslogModern {
  import opened LineText
  import opened SyslogParser
  import opened SyslogRoundTrip
  import opened Text
  import opened Wire

  /** The header fields, each followed by one space. */
  function Joined(fields: seq<string>): string
  {
    if fields == [] then "" else fields[0] + " " + Joined(fields[1..])
  }

  predicate SpaceFree(fields: seq<string>)
  {
    forall i :: 0 <= i < |fields| ==> ' ' !in fields[i]
  }

  lemma SplitOnce(field: string, more: string, n: nat)
    requires ' ' !in field && n > 1
    ensures SplitN(field + [' '] + more, n) == [field] + SplitN(more, n - 1)
  {
    var s := field + [' '] + more;
    FirstOccurrence(field, ' ', more);
    assert s[..|field|] == field;
    assert s[|field| + 1..] == more;
  }

  /** Splitting finds the fields again, and leaves the rest alone. */
  lemma {:induction false} SplitJoined(fields: seq<string>, rest: string)
    requires SpaceFree(fields)
    ensures SplitN(Joined(fields) + rest, |fields| + 1) == fields + [rest]
  {
    if fields == [] {
      assert Joined(fields) + rest == rest;
    } else {
      var more := Joined(fields[1..]) + rest;
      assert Joined(fields) + rest == fields[0] + [' '] + more;
      SplitOnce(fields[0], more, |fields| + 1);
      SplitJoined(fields[1..], rest);
      hide SplitN, Joined;
      assert [fields[0]] + (fields[1..] + [rest]) == fields + [rest];
    }
  }

  /** The header of RFC 5424 with version 1. */
  function Header(time: string, host: string, app: string, procId: string, msgId: string): seq<string>
  {
    ["1", time, host, app, procId, msgId]
  }

  /** A dash stands for a field that is not given. */
  lemma DashIsNone(s: string)
    ensures DashToEmpty(s) == if s == "-" then "" else s
  {
  }

  /** Every field of a well-formed line is read, and what follows the header is stripped of its data block. */
  lemma HeaderReadBack(pri: nat, time: string, host: string, app: string, procId: string, msgId: string,
      rest: string, clock: Clock)
    requires pri <= 191 && SpaceFree(Header(time, host, app, procId, msgId))
    requires rest != "" && rest[|rest| - 1] != '\n' && rest[|rest| - 1] != '\r'
    ensures var line := "<" + Itoa(pri) + ">" + (Joined(Header(time, host, app, procId, msgId)) + rest);
            var r := Read(line, clock);
            r.parsed && r.severity == pri % 8 && r.host == (if host == "-" then "" else host) && r.app == (if app == "-" then "" else app) &&
            r.message == Stripped(rest) &&
            r.at == (if clock.rfc3339(time).Some? then clock.rfc3339(time).value else clock.now)
  {
    var header := Header(time, host, app, procId, msgId);
    var text := Joined(header) + rest;
    var line := "<" + Itoa(pri) + ">" + text;
    assert line[|line| - 1] == rest[|rest| - 1];
    assert DropNewlines(line) == line;
    HeaderStarts(header, rest);
    SplitJoined(header, rest);
    PriorityReadBackIff(pri, text);
    assert SplitN(text, 7) == header + [rest];
    DashIsNone(host);
    DashIsNone(app);
    hide Joined, SplitN, SplitPriority, DropNewlines, Stripped, DashToEmpty, Itoa, Read3164;
  }

  lemma HeaderStarts(header: seq<string>, rest: string)
    requires |header| > 0 && header[0] == "1"
    ensures HasPrefix(Joined(header) + rest, "1 ")
  {
    assert Joined(header) + rest == "1" + " " + Joined(header[1..]) + rest;
  }

  // ---------------------------------------------------------------- structured data

  datatype Param = Param(name: string, value: string)

  /** An element of structured data (RFC 5424 section 6.3): an id and named values. */
  datatype Element = Element(id: string, params: seq<Param>)

  /** A value as it stands between quotes: quotes, backslashes and closing brackets are escaped. */
  function Escaped(value: string): string
  {
    if value == "" then ""
    else (if value[0] in {'"', '\\', ']'} then ['\\'] else "") + [value[0]] + Escaped(value[1..])
  }

  function ParamText(p: Param): string
  {
    " " + p.name + "=\"" + Escaped(p.value) + "\""
  }

  function ParamsText(ps: seq<Param>): string
  {
    if ps == [] then "" else ParamText(ps[0]) + ParamsText(ps[1..])
  }

  function ElementText(e: Element): string
  {
    "[" + (e.id + ParamsText(e.params)) + "]"
  }

  function DataText(es: seq<Element>): string
  {
    if es == [] then "" else ElementText(es[0]) + DataText(es[1..])
  }

  /** Brackets, quoted or not, come out even at the last character and not before. */
  predicate StaysOpen(s: string)
  {
    Balance(s) == 0 && forall i :: 0 < i < |s| ==> Balance(s[..i]) > 0
  }

  predicate Bracketed(s: string)
  {
    |s| >= 2 && s[0] == '[' && s[|s| - 1] == ']'
  }

  lemma {:induction false} DataIsBracketed(es: seq<Element>)
    requires es != []
    ensures Bracketed(DataText(es))
  {
    if |es| > 1 {
      DataIsBracketed(es[1..]);
    } else {
      assert es[1..] == [];
      assert DataText(es) == ElementText(es[0]);
    }
  }

  /** What starts and ends in no space shields itself from trimming. */
  lemma TrimKeeps(b: string, rest: string)
    requires b != "" && !IsSpace(b[0]) && !IsSpace(b[|b| - 1])
    ensures TrimSpace(b + rest) == b + TrimRight(rest)
  {
    hide *;
    TrimsCommute(b + rest);
    TrimRightAfter(b, rest);
    LeftSettled(b + TrimRight(rest));
  }

  lemma TrimTwice(s: string)
    ensures TrimSpace(TrimRight(s)) == TrimSpace(s)
  {
    hide *;
    TrimsCommute(s);
    TrimsCommute(TrimRight(s));
    TrimRightTwice(s);
  }

  /** Until a bracket closes, more are open than closed. */
  lemma {:induction false} OpenUntilClosed(s: string, n: nat)
    requires s != "" && s[0] == '[' && 0 < n <= |s|
    requires forall j :: 0 <= j < n ==> !ClosesAt(s, j)
    ensures Balance(s[..n]) > 0
  {
    assert s[..n][..n - 1] == s[..n - 1];
    if n > 1 {
      OpenUntilClosed(s, n - 1);
      assert !ClosesAt(s, n - 1);
    } else {
      assert s[..1] == "[";
    }
  }

  /** The first closing bracket of a text that goes on after b is the last of b exactly when b stays open. */
  lemma ClosingIff(b: string, y: string)
    requires Bracketed(b)
    ensures Closing(b + y) == |b| - 1 <==> StaysOpen(b)
  {
    var s, k := b + y, |b| - 1;
    assert s[..|b|] == b;
    if StaysOpen(b) {
      forall j | 0 <= j < k
        ensures !ClosesAt(s, j)
      {
        assert s[..j + 1] == b[..j + 1];
      }
      assert ClosesAt(s, k);
    } else if Closing(s) == k {
      forall i | 0 < i < |b|
        ensures Balance(b[..i]) > 0
      {
        OpenUntilClosed(s, i);
        assert s[..i] == b[..i];
      }
    }
  }

  lemma StrippedOf(text: string)
    requires TrimSpace(text) != "" && TrimSpace(text)[0] == '['
    ensures var s := TrimSpace(text);
            Stripped(text) == if Closing(s) >= 0 then TrimSpace(s[Closing(s) + 1..]) else s
  {
    hide TrimSpace, Closing;
  }

  /** What ends in no space adds to the length that is left after trimming. */
  lemma TrimmedLonger(x: string, rest: string)
    requires x != "" && !IsSpace(x[|x| - 1])
    ensures |TrimSpace(x + rest)| > |TrimRight(rest)| >= |TrimSpace(rest)|
  {
    var y := TrimRight(rest);
    TrimsCommute(x + rest);
    TrimRightAfter(x, rest);
    TrimsCommute(rest);
    TrimShortens(y);
    LeftKeeps(x, y, |x| - 1);
  }

  lemma {:induction false} LeftKeeps(x: string, y: string, i: nat)
    requires i < |x| && !IsSpace(x[i])
    ensures |TrimLeft(x + y)| >= |x| - i + |y|
    decreases i
  {
    if IsSpace(x[0]) {
      assert (x + y)[1..] == x[1..] + y;
      LeftKeeps(x[1..], y, i - 1);
    }
  }

  /** A block that closes early leaves more than the message. */
  lemma ClosesEarly(b: string, y: string, k: nat)
    requires Bracketed(b) && k < |b| - 1 && y == TrimRight(y)
    ensures |TrimSpace((b + y)[k + 1..])| > |TrimSpace(y)|
  {
    assert !IsSpace(']');
    hide IsSpace, TrimSpace, TrimRight;
    assert (b + y)[k + 1..] == b[k + 1..] + y;
    TrimmedLonger(b[k + 1..], y);
  }

  /** A block that closes late, in the message, takes some of it. */
  lemma ClosesLate(b: string, y: string, k: nat)
    requires |b| <= k < |b + y| && (b + y)[k] == ']'
    ensures |TrimSpace((b + y)[k + 1..])| < |TrimSpace(y)|
  {
    assert !IsSpace(']');
    hide IsSpace, TrimSpace, TrimRight;
    var p := k - |b|;
    assert y[p] == ']';
    assert (b + y)[k + 1..] == y[p + 1..];
    assert y == y[..p + 1] + y[p + 1..];
    TrimmedLonger(y[..p + 1], y[p + 1..]);
  }

  /** What is left of a block and the text after it, by where the block closes. */
  lemma BlockLeaves(b: string, y: string)
    requires Bracketed(b) && y == TrimRight(y)
    ensures var s := b + y;
            var left := if Closing(s) >= 0 then TrimSpace(s[Closing(s) + 1..]) else s;
            left == TrimSpace(y) <==> StaysOpen(b)
  {
    ClosingIff(b, y);
    hide Balance, StaysOpen, TrimSpace, TrimRight;
    var s, k := b + y, Closing(b + y);
    if k < 0 {
      SpaceShortens(y);
    } else if k < |b| - 1 {
      ClosesEarly(b, y, k);
    } else if k == |b| - 1 {
      assert s[k + 1..] == y;
    } else {
      ClosesLate(b, y, k);
    }
  }

  lemma BlockStripped(b: string, rest: string)
    requires Bracketed(b)
    ensures Stripped(b + rest) == TrimSpace(TrimRight(rest)) <==> StaysOpen(b)
  {
    hide *;
    BracketsShow();
    BracketsOf(b);
    TrimKeeps(b, rest);
    TrimRightTwice(rest);
    StrippedOf(b + rest);
    BlockLeaves(b, TrimRight(rest));
  }

  /** A block of brackets is removed, and what follows it left, exactly when it stays open to its end. */
  lemma BlockStrippedIff(b: string, message: string)
    requires Bracketed(b)
    ensures Stripped(b + " " + message) == TrimSpace(message) <==> StaysOpen(b)
  {
    hide *;
    assert b + " " + message == b + (" " + message);
    BlockStripped(b, " " + message);
    MessageTrimmed(message);
  }

  lemma BracketsShow()
    ensures !IsSpace('[') && !IsSpace(']')
  {
  }

  lemma BracketsOf(b: string)
    requires Bracketed(b)
    ensures b != "" && b[0] == '[' && b[|b| - 1] == ']'
  {
  }

  /**
   * Structured data is removed and the message comes back exactly when the brackets of the data,
   * those in quoted values included, come out even at its last character and not before.
   */
  lemma MessageComesBackIff(es: seq<Element>, message: string)
    requires es != []
    ensures Stripped(DataText(es) + " " + message) == TrimSpace(message) <==> StaysOpen(DataText(es))
  {
    DataIsBracketed(es);
    BlockStrippedIff(DataText(es), message);
  }

  // ---------------------------------------------------------------- with and without brackets in the data

  predicate NoBrackets(s: string)
  {
    '[' !in s && ']' !in s
  }

  predicate PlainElement(e: Element)
  {
    NoBrackets(e.id) && forall p :: p in e.params ==> NoBrackets(p.name) && NoBrackets(p.value)
  }

  lemma {:induction false} BalanceOf(s: string, t: string)
    ensures Balance(s + t) == Balance(s) + Balance(t)
  {
    if t == "" {
      assert s + t == s;
    } else {
      BalanceOf(s, t[..|t| - 1]);
      assert (s + t)[..|s + t| - 1] == s + t[..|t| - 1];
    }
  }

  lemma {:induction false} NoBracketsBalance(s: string)
    requires NoBrackets(s)
    ensures Balance(s) == 0
  {
    if s != "" {
      var front := s[..|s| - 1];
      assert forall c :: c in front ==> c in s;
      NoBracketsBalance(front);
      assert s[|s| - 1] in s;
    }
  }

  lemma {:induction false} EscapedPlain(value: string)
    requires NoBrackets(value)
    ensures NoBrackets(Escaped(value))
  {
    if value != "" {
      assert value[0] in value && forall c :: c in value[1..] ==> c in value;
      EscapedPlain(value[1..]);
    }
  }

  lemma {:induction false} ParamsPlain(ps: seq<Param>)
    requires forall p :: p in ps ==> NoBrackets(p.name) && NoBrackets(p.value)
    ensures NoBrackets(ParamsText(ps))
  {
    if ps != [] {
      ParamsPlain(ps[1..]);
      assert ps[0] in ps;
      EscapedPlain(ps[0].value);
    }
  }

  /** One element without brackets of its own stays open to its end. */
  lemma PlainStaysOpen(e: Element)
    requires PlainElement(e)
    ensures StaysOpen(ElementText(e))
  {
    ParamsPlain(e.params);
    var inner := e.id + ParamsText(e.params);
    assert NoBrackets(inner);
    var s := ElementText(e);
    hide ParamsText, Balance;
    forall i | 0 < i < |s|
      ensures Balance(s[..i]) == 1
    {
      assert s[..i] == "[" + inner[..i - 1];
      assert forall c :: c in inner[..i - 1] ==> c in inner;
      BalanceOf("[", inner[..i - 1]);
      NoBracketsBalance(inner[..i - 1]);
      OneBracket();
    }
    assert s == "[" + inner + "]" == s[..|s| - 1] + "]";
    BalanceOf(s[..|s| - 1], "]");
    OneBracket();
  }

  lemma OneBracket()
    ensures Balance("[") == 1 && Balance("]") == -1 && Balance("") == 0
  {
    assert "["[..0] == "" && "]"[..0] == "";
  }

  /** Without brackets in ids, names and values, the message comes back exactly when there is one element. */
  lemma PlainElementsIff(es: seq<Element>, message: string)
    requires es != [] && forall e :: e in es ==> PlainElement(e)
    ensures Stripped(DataText(es) + " " + message) == TrimSpace(message) <==> |es| == 1
  {
    MessageComesBackIff(es, message);
    PlainStaysOpen(es[0]);
    hide ElementText, Stripped, TrimSpace, Balance;
    var first, rest := ElementText(es[0]), DataText(es[1..]);
    assert DataText(es) == first + rest;
    if |es| == 1 {
      assert es[1..] == [];
      assert first + "" == first;
    } else {
      DataIsBracketed(es[1..]);
      FirstNotEmpty(es[0]);
      assert (first + rest)[..|first|] == first;
    }
  }

  lemma FirstNotEmpty(e: Element)
    ensures |ElementText(e)| > 0
  {
  }

  const QUOTED_OPENING := Element("x", [Param("a", "[")])
  const QUOTED_CLOSING := Element("y", [Param("b", "]")])

  function Change(c: char): int
  {
    if c == '[' then 1 else if c == ']' then -1 else 0
  }

  lemma {:induction false} Balances(s: string, bs: seq<int>, n: nat)
    requires |bs| == |s| + 1 && bs[0] == 0 && n <= |s|
    requires forall i :: 0 <= i < |s| ==> bs[i + 1] == bs[i] + Change(s[i])
    ensures Balance(s[..n]) == bs[n]
  {
    if n > 0 {
      Balances(s, bs, n - 1);
      assert s[..n][..n - 1] == s[..n - 1];
    }
  }

  lemma QuotedTexts()
    ensures ElementText(QUOTED_OPENING) == "[x a=\"[\"]" && ElementText(QUOTED_CLOSING) == "[y b=\"\\]\"]"
    ensures DataText([QUOTED_OPENING]) == "[x a=\"[\"]" && DataText([QUOTED_CLOSING]) == "[y b=\"\\]\"]"
    ensures DataText([QUOTED_OPENING, QUOTED_CLOSING]) == "[x a=\"[\"][y b=\"\\]\"]"
  {
    OneElement(QUOTED_OPENING);
    OneElement(QUOTED_CLOSING);
    assert [QUOTED_OPENING, QUOTED_CLOSING][1..] == [QUOTED_CLOSING];
  }

  lemma OneElement(e: Element)
    ensures DataText([e]) == ElementText(e)
  {
    assert [e][1..] == [];
  }

  /** An opening bracket in quotes is never closed; a closing one closes early; together they come out even. */
  lemma QuotedBrackets(message: string)
    ensures Stripped("[x a=\"[\"]" + " " + message) != TrimSpace(message)
    ensures Stripped("[y b=\"\\]\"]" + " " + message) != TrimSpace(message)
    ensures Stripped("[x a=\"[\"][y b=\"\\]\"]" + " " + message) == TrimSpace(message)
  {
    QuotedTexts();
    MessageComesBackIff([QUOTED_OPENING], message);
    MessageComesBackIff([QUOTED_CLOSING], message);
    MessageComesBackIff([QUOTED_OPENING, QUOTED_CLOSING], message);
    hide DataText, Stripped, TrimSpace, Balance, ElementText;
    OpeningLeftOpen();
    ClosingClosesEarly();
    BothComeOutEven();
  }

  lemma OpeningLeftOpen()
    ensures !StaysOpen("[x a=\"[\"]")
  {
    var s := "[x a=\"[\"]";
    hide Balance;
    Balances(s, [0, 1, 1, 1, 1, 1, 1, 2, 2, 1], 9);
    assert s[..9] == s;
  }

  lemma ClosingClosesEarly()
    ensures !StaysOpen("[y b=\"\\]\"]")
  {
    hide Balance;
    Balances("[y b=\"\\]\"]", [0, 1, 1, 1, 1, 1, 1, 1, 0, 0, -1], 8);
  }

  lemma BothComeOutEven()
    ensures StaysOpen("[x a=\"[\"][y b=\"\\]\"]")
  {
    var s := "[x a=\"[\"][y b=\"\\]\"]";
    var bs := [0, 1, 1, 1, 1, 1, 1, 2, 2, 1, 2, 2, 2, 2, 2, 2, 2, 1, 1, 0];
    assert forall i :: 0 <= i < |s| ==> bs[i + 1] == bs[i] + Change(s[i]);
    assert forall i :: 0 < i < |s| ==> bs[i] > 0;
    hide Balance, Change;
    forall i | 0 < i <= |s|
      ensures Balance(s[..i]) == bs[i]
    {
      Balances(s, bs, i);
    }
    assert s[..|s|] == s;
  }

  /** A whole line: its message comes back exactly when the brackets of its data come out even at the end. */
  lemma LineReadBackIff(pri: nat, time: string, host: string, app: string, procId: string, msgId: string,
      es: seq<Element>, message: string, clock: Clock)
    requires pri <= 191 && SpaceFree(Header(time, host, app, procId, msgId)) && es != []
    requires message == "" || (message[|message| - 1] != '\n' && message[|message| - 1] != '\r')
    ensures var line := "<" + Itoa(pri) + ">" + (Joined(Header(time, host, app, procId, msgId)) + (DataText(es) + " " + message));
            Read(line, clock).message == TrimSpace(message) <==> StaysOpen(DataText(es))
  {
    var rest := DataText(es) + " " + message;
    assert rest[|rest| - 1] == if message == "" then ' ' else message[|message| - 1];
    HeaderReadBack(pri, time, host, app, procId, msgId, rest, clock);
    MessageComesBackIff(es, message);
    hide Read, Joined, DataText, Stripped, StaysOpen, TrimSpace, Itoa;
  }

  lemma SpaceShortens(s: string)
    ensures |TrimSpace(s)| <= |s|
  {
    TrimShortens(s);
    TrimShortens(TrimLeft(s));
  }

  lemma SpaceTrimmed()
    ensures TrimRight(" ") == "" && !IsSpace('-')
  {
    assert " "[..0] == "";
  }

  lemma DashTrimmed(message: string)
    ensures TrimSpace("-" + (" " + message)) == "-" + (if TrimRight(message) == "" then "" else " " + TrimRight(message))
  {
    SpaceTrimmed();
    hide *;
    TrimKeeps("-", " " + message);
    TrimRightOf(" ", message);
  }

  lemma DashStripped(text: string, message: string)
    requires TrimSpace(text) == "-" + (if message == "" then "" else " " + message)
    ensures Stripped(text) == message
  {
    hide TrimSpace, Closing;
    var s := TrimSpace(text);
    if message == "" {
      assert s == "-";
    } else {
      assert s == "- " + message;
      assert s[2..] == message;
    }
  }

  /** Without structured data the message loses only the space after it. */
  lemma NilValueStripped(message: string)
    ensures Stripped("- " + message) == TrimRight(message)
  {
    hide *;
    assert "- " + message == "-" + (" " + message);
    DashTrimmed(message);
    DashStripped("-" + (" " + message), TrimRight(message));
  }
}
