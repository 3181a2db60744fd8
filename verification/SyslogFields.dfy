/** What a syslog message says of a finding, and that its fields can be read off it again. */
module SyslogFields {
  import opened Findings
  import opened LineText
  import opened SyslogPrinter
  import opened Text

  // --- fields after a title ----------------------------------------------------------------

  datatype Pair = Pair(key: string, value: string)

  /** Each field after a space, its key and its value around an equals sign. */
  function Render(ps: seq<Pair>): string
  {
    if ps == [] then ""
    else
      var last := ps[|ps| - 1];
      Render(ps[..|ps| - 1]) + " " + last.key + "=" + last.value
  }

  /** The fields that s begins with, read up to each space. */
  function Fields(s: string): seq<Pair>
    decreases |s|
  {
    if s == "" || s[0] != ' ' then []
    else
      var rest := s[1..];
      var eq := IndexOf(rest, '=');
      if eq < 0 then []
      else
        var value := rest[eq + 1..];
        var end := IndexOf(value, ' ');
        if end < 0 then [Pair(rest[..eq], value)]
        else [Pair(rest[..eq], value[..end])] + Fields(value[end..])
  }

  predicate Readable(p: Pair)
  {
    '=' !in p.key && ' ' !in p.value
  }

  lemma {:induction false} RenderAppend(ps: seq<Pair>, qs: seq<Pair>)
    ensures Render(ps + qs) == Render(ps) + Render(qs)
  {
    if qs == [] {
      assert ps + qs == ps;
    } else {
      var n, last := |qs| - 1, qs[|qs| - 1];
      RenderAppend(ps, qs[..n]);
      assert (ps + qs)[..|ps| + n] == ps + qs[..n];
      RenderLast(ps + qs);
      RenderLast(qs);
      hide Render;
      Joined(Render(ps), Render(qs[..n]), last.key, last.value);
    }
  }

  lemma RenderLast(ps: seq<Pair>)
    requires ps != []
    ensures var last := ps[|ps| - 1]; Render(ps) == Render(ps[..|ps| - 1]) + " " + last.key + "=" + last.value
  {
  }

  lemma Joined(a: string, b: string, k: string, v: string)
    ensures a + b + " " + k + "=" + v == a + (b + " " + k + "=" + v)
  {
  }

  lemma RenderCons(ps: seq<Pair>)
    requires ps != []
    ensures Render(ps) == " " + (ps[0].key + "=" + (ps[0].value + Render(ps[1..])))
  {
    RenderAppend([ps[0]], ps[1..]);
    assert [ps[0]] + ps[1..] == ps;
    RenderLast([ps[0]]);
    assert [ps[0]][..0] == [] && Render([]) == "";
    hide Render;
    Regrouped(ps[0].key, ps[0].value, Render(ps[1..]));
  }

  lemma Regrouped(k: string, v: string, more: string)
    ensures "" + " " + k + "=" + v + more == " " + (k + "=" + (v + more))
  {
  }

  lemma FieldAt(key: string, value: string, more: string)
    requires '=' !in key && ' ' !in value && (more == "" || more[0] == ' ')
    ensures Fields(" " + (key + "=" + (value + more))) == [Pair(key, value)] + Fields(more)
  {
    hide IndexOf, Fields;
    var rest := key + ['='] + (value + more);
    FirstOccurrence(key, '=', value + more);
    assert rest[..|key|] == key && rest[|key| + 1..] == value + more;
    var s := " " + (key + "=" + (value + more));
    assert s[0] == ' ' && s[1..] == rest;
    if more == "" {
      assert value + more == value;
      NoOccurrence(value, ' ');
      LastRead(s, |key|);
      assert Fields(more) == [] by { NothingRead(); }
    } else {
      assert value + more == value + [' '] + more[1..];
      FirstOccurrence(value, ' ', more[1..]);
      assert (value + more)[..|value|] == value && (value + more)[|value|..] == more;
      FieldRead(s, |key|, |value|);
    }
  }

  lemma NothingRead()
    ensures Fields("") == []
  {
  }

  lemma LastRead(s: string, eq: nat)
    requires s != "" && s[0] == ' ' && IndexOf(s[1..], '=') == eq < |s[1..]| && IndexOf(s[1..][eq + 1..], ' ') < 0
    ensures Fields(s) == [Pair(s[1..][..eq], s[1..][eq + 1..])]
  {
    hide IndexOf;
  }

  lemma FieldRead(s: string, eq: nat, end: nat)
    requires s != "" && s[0] == ' ' && IndexOf(s[1..], '=') == eq < |s[1..]|
    requires IndexOf(s[1..][eq + 1..], ' ') == end <= |s[1..][eq + 1..]|
    ensures Fields(s) == [Pair(s[1..][..eq], s[1..][eq + 1..][..end])] + Fields(s[1..][eq + 1..][end..])
  {
    hide IndexOf;
  }

  lemma NoOccurrence(s: string, c: char)
    requires c !in s
    ensures IndexOf(s, c) < 0
  {
  }

  lemma {:induction false} FieldsReadBack(ps: seq<Pair>)
    requires forall p :: p in ps ==> Readable(p)
    ensures Fields(Render(ps)) == ps
  {
    if ps != [] {
      var more := Render(ps[1..]);
      RenderCons(ps);
      FieldsReadBack(ps[1..]);
      assert Readable(ps[0]);
      assert more == "" || more[0] == ' ';
      FieldAt(ps[0].key, ps[0].value, more);
    }
  }

  // --- the fields of a finding ---------------------------------------------------------------

  function Word(s: Severity): string
  {
    match s
    case Critical => "critical"
    case High => "high"
    case Medium => "medium"
    case Low => "low"
    case Info => "info"
    case Unknown(text) => text
  }

  /** What a collector can key on: product, severity, check, target and status, and the source if it is known. */
  function Told(mod: string, f: Finding, resolved: bool, source: string): seq<Pair>
  {
    [Pair("product", mod), Pair("severity", Word(f.severity)), Pair("check", f.check), Pair("target", f.target),
     Pair("status", if resolved then "resolved" else "open")] +
    if source == "" then [] else [Pair("src", source)]
  }

  /** The sentence and its fields. */
  function Sentence(mod: string, f: Finding, resolved: bool, source: string): string
  {
    (if resolved then "RESOLVED: " else "") + f.title + " |" + Render(Told(mod, f, resolved, source))
  }

  /** One more field, by its key between a space and an equals sign. */
  lemma RenderNext(ps: seq<Pair>, key: string, value: string, word: string)
    requires word == " " + key + "="
    ensures Render(ps + [Pair(key, value)]) == Render(ps) + word + value
  {
    RenderLast(ps + [Pair(key, value)]);
    assert (ps + [Pair(key, value)])[..|ps|] == ps;
    hide Render;
    assert Render(ps) + " " + key + "=" == Render(ps) + word;
  }

  /** Five fields, by the words before their values. */
  lemma RenderFive(a: Pair, b: Pair, c: Pair, d: Pair, e: Pair, wa: string, wb: string, wc: string, wd: string, we: string)
    requires wa == " " + a.key + "=" && wb == " " + b.key + "=" && wc == " " + c.key + "="
    requires wd == " " + d.key + "=" && we == " " + e.key + "="
    ensures Render([a, b, c, d, e]) == wa + a.value + wb + b.value + wc + c.value + wd + d.value + we + e.value
  {
    hide *;
    RenderNone();
    RenderNext([], a.key, a.value, wa);
    assert [] + [a] == [a] && "" + wa == wa;
    RenderNext([a], b.key, b.value, wb);
    assert [a] + [b] == [a, b];
    RenderNext([a, b], c.key, c.value, wc);
    assert [a, b] + [c] == [a, b, c];
    RenderNext([a, b, c], d.key, d.value, wd);
    assert [a, b, c] + [d] == [a, b, c, d];
    RenderNext([a, b, c, d], e.key, e.value, we);
    assert [a, b, c, d] + [e] == [a, b, c, d, e];
  }

  lemma RenderNone()
    ensures Render([]) == ""
  {
  }

  lemma RenderTold(mod: string, f: Finding, resolved: bool, source: string)
    ensures Render(Told(mod, f, resolved, source)) ==
            " product=" + mod + " severity=" + Word(f.severity) + " check=" + f.check + " target=" + f.target +
            " status=" + (if resolved then "resolved" else "open") + (if source != "" then " src=" + source else "")
  {
    var status := if resolved then "resolved" else "open";
    var p1, p2, p3 := Pair("product", mod), Pair("severity", Word(f.severity)), Pair("check", f.check);
    var p4, p5 := Pair("target", f.target), Pair("status", status);
    ToldIs(mod, f, resolved, source, p1, p2, p3, p4, p5);
    hide *;
    RenderFive(p1, p2, p3, p4, p5, " product=", " severity=", " check=", " target=", " status=");
    RenderNext([p1, p2, p3, p4, p5], "src", source, " src=");
    LastField(Render([p1, p2, p3, p4, p5]), source);
  }

  lemma ToldIs(mod: string, f: Finding, resolved: bool, source: string, p1: Pair, p2: Pair, p3: Pair, p4: Pair, p5: Pair)
    requires p1 == Pair("product", mod) && p2 == Pair("severity", Word(f.severity)) && p3 == Pair("check", f.check)
    requires p4 == Pair("target", f.target) && p5 == Pair("status", if resolved then "resolved" else "open")
    ensures Told(mod, f, resolved, source) ==
            if source == "" then [p1, p2, p3, p4, p5] else [p1, p2, p3, p4, p5] + [Pair("src", source)]
  {
    hide Word;
    assert [p1, p2, p3, p4, p5] + [] == [p1, p2, p3, p4, p5];
  }

  lemma LastField(before: string, source: string)
    ensures before + " src=" + source == before + (" src=" + source) && before + "" == before
  {
  }

  /** What ends a frame early is a space, and the rest of the line is kept. */
  predicate SpacedOut(s: string, m: string)
  {
    |m| == |s| && forall i :: 0 <= i < |s| ==> m[i] == if s[i] in {'\n', '\r', '\0'} then ' ' else s[i]
  }

  /** The longest beginning that takes up to 1600 bytes, and an ellipsis. */
  ghost predicate CutShort(whole: string, m: string)
  {
    exists n :: && 0 <= n < |whole| && m == whole[..n] + ['\U{2026}']
                && ByteLen(whole[..n]) <= 1600 < ByteLen(whole[..n]) + CharBytes(whole[n])
  }

  /** A line is kept whole up to 1600 bytes, and otherwise cut short. */
  lemma LineKept(s: string) returns (whole: string)
    ensures SpacedOut(s, whole)
    ensures if ByteLen(whole) <= 1600 then SanitizeLine(s) == whole else CutShort(whole, SanitizeLine(s))
  {
    whole := seq(|s|, i requires 0 <= i < |s| => Plain(s[i]));
    if ByteLen(whole) > 1600 {
      var r := Cut(whole, 1600);
      ProperPrefix(whole, r);
      assert SanitizeLine(s) == whole[..|r|] + ['\U{2026}'];
    }
  }

  lemma ProperPrefix(s: string, r: string)
    requires HasPrefix(s, r) && ByteLen(r) < ByteLen(s)
    ensures |r| < |s| && s[..|r|] == r
  {
    PrefixWhole(s, r);
  }

  lemma PrefixWhole(s: string, r: string)
    requires HasPrefix(s, r)
    ensures |r| <= |s| && s[..|r|] == r && (|r| == |s| ==> r == s)
  {
    assert |r| == |s| ==> s[..|r|] == s;
  }

  /** The message of a finding is its sentence, as far as a line can hold it. */
  lemma MessageIsSentence(ch: Channel, mod: string, f: Finding, resolved: bool)
    ensures Message(ch, mod, f, resolved) == SanitizeLine(Sentence(mod, f, resolved, ch.sourceOf(f)))
  {
    var src := ch.sourceOf(f);
    var lead, status := if resolved then "RESOLVED: " else "", if resolved then "resolved" else "open";
    RenderTold(mod, f, resolved, src);
    WordIsName(f.severity);
    hide SanitizeLine, Render, Told, Word, Name;
    JoinedSentence(lead + f.title, mod, Word(f.severity), f.check, f.target, status, if src != "" then " src=" + src else "");
  }

  lemma JoinedSentence(start: string, mod: string, w: string, check: string, target: string, status: string, tail: string)
    ensures start + " | product=" + mod + " severity=" + w + " check=" + check + " target=" + target + " status=" + status + tail ==
            start + " |" + (" product=" + mod + " severity=" + w + " check=" + check + " target=" + target + " status=" + status + tail)
  {
    hide *;
    var a := start + " |";
    assert start + " | product=" == a + " product=";
    Move(a, " product=", mod);
    Move(a, " product=" + mod, " severity=");
    Move(a, " product=" + mod + " severity=", w);
    Move(a, " product=" + mod + " severity=" + w, " check=");
    Move(a, " product=" + mod + " severity=" + w + " check=", check);
    Move(a, " product=" + mod + " severity=" + w + " check=" + check, " target=");
    Move(a, " product=" + mod + " severity=" + w + " check=" + check + " target=", target);
    Move(a, " product=" + mod + " severity=" + w + " check=" + check + " target=" + target, " status=");
    Move(a, " product=" + mod + " severity=" + w + " check=" + check + " target=" + target + " status=", status);
    Move(a, " product=" + mod + " severity=" + w + " check=" + check + " target=" + target + " status=" + status, tail);
  }

  lemma Move(a: string, b: string, c: string)
    ensures a + (b + c) == a + b + c
  {
  }

  lemma WordIsName(s: Severity)
    ensures Word(s) == Name(s)
  {
  }

  predicate FitsLine(s: string)
  {
    '\n' !in s && '\r' !in s && '\0' !in s && ByteLen(s) <= 1600
  }

  /**
   * While a finding fits the line and its fields hold no space, whoever knows its title can read off
   * the message whether it is resolved, and every field.
   */
  lemma MessageReadBack(ch: Channel, mod: string, f: Finding, resolved: bool)
    requires FitsLine(Sentence(mod, f, resolved, ch.sourceOf(f)))
    requires forall p :: p in Told(mod, f, resolved, ch.sourceOf(f)) ==> ' ' !in p.value
    ensures var m, lead := Message(ch, mod, f, resolved), (if resolved then "RESOLVED: " else "") + f.title + " |";
            HasPrefix(m, lead) && Fields(m[|lead|..]) == Told(mod, f, resolved, ch.sourceOf(f))
  {
    var src := ch.sourceOf(f);
    var ps, lead := Told(mod, f, resolved, src), (if resolved then "RESOLVED: " else "") + f.title + " |";
    MessageIsSentence(ch, mod, f, resolved);
    WholeLine(Sentence(mod, f, resolved, src));
    KeysReadable(mod, f, resolved, src);
    FieldsReadBack(ps);
    assert Sentence(mod, f, resolved, src) == lead + Render(ps);
    hide Render, Fields, Told, Message, SanitizeLine;
    assert (lead + Render(ps))[|lead|..] == Render(ps) && (lead + Render(ps))[..|lead|] == lead;
  }

  lemma KeysReadable(mod: string, f: Finding, resolved: bool, source: string)
    requires forall p :: p in Told(mod, f, resolved, source) ==> ' ' !in p.value
    ensures forall p :: p in Told(mod, f, resolved, source) ==> Readable(p)
  {
    hide Word;
  }

  lemma WholeLine(s: string)
    requires FitsLine(s)
    ensures SanitizeLine(s) == s
  {
    var whole := seq(|s|, i requires 0 <= i < |s| => Plain(s[i]));
    assert whole == s;
  }
}
