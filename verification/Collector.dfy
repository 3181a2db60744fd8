/** Path B: re-emitting the detections of a source that are still active. */
module Collector {
  import opened Detections
  import opened Findings
  import opened Lifecycle
  import opened LineText
  import LogStore
  import opened Wire

  type DetectionRecord = LogStore.DetectionRecord

  const MODULE_ID := "loglight"
  const LOGLIGHT := Module(MODULE_ID, 1)
  const ACTIVE_WINDOW: int := 30 * 60 * 1_000_000_000
  const DEFAULT_FIX := "Investigate the actor and affected host."
  const PARSE_CHECK := "ingest.parse_rate"

  /** The hashed text of a fingerprint; the hash is taken to be injective. */
  function Fingerprint(source: string, check: string, discriminator: string): string
  {
    MODULE_ID + "|" + source + "|" + check + "|" + discriminator
  }

  function DetectionPrint(d: DetectionRecord): string
  {
    Fingerprint(d.source, d.check, d.key)
  }

  /** The finding that both paths make of a detection. */
  function DetectionFinding(d: DetectionRecord): Finding
  {
    Finding(DetectionPrint(d), d.source, d.check, d.title,
            if Rank(d.severity) >= 0 then d.severity else Medium,
            if TrimSpace(d.fix) == "" then DEFAULT_FIX else d.fix,
            d.evidence, "", "", Open, None, 0, 0, None)
  }

  function ParsePrint(source: string): string
  {
    Fingerprint(source, PARSE_CHECK, "")
  }

  function ParseRateFinding(source: string): Finding
  {
    Finding(ParsePrint(source), source, PARSE_CHECK, "Low parse rate on source " + source,
            Low, "Check the source type and format.", NoEvidence, "", "", Open, None, 0, 0, None)
  }

  predicate Active(d: DetectionRecord, now: int)
  {
    d.lastAt >= now - ACTIVE_WINDOW
  }

  function ActiveFindings(ds: seq<DetectionRecord>, now: int): seq<Finding>
  {
    if ds == [] then []
    else
      ActiveFindings(ds[..|ds| - 1], now) +
      if Active(ds[|ds| - 1], now) then [DetectionFinding(ds[|ds| - 1])] else []
  }

  /** A parse rate below one half is a finding of its own; no probe, no finding. */
  predicate ParsesPoorly(rate: Option<real>)
  {
    rate.Some? && rate.value < 0.5
  }

  function Report(ds: seq<DetectionRecord>, name: string, now: int, rate: Option<real>): seq<Finding>
  {
    ActiveFindings(ds, now) + if ParsesPoorly(rate) then [ParseRateFinding(name)] else []
  }

  /** What a scan of a source may report: everything active, and nothing once the source is deleted. */
  ghost predicate Collected(reported: seq<Finding>, sources: map<string, string>, dets: LogStore.Detections,
      name: string, now: int, rate: Option<real>)
  {
    if name !in sources then reported == []
    else exists ds :: LogStore.Lists(ds, dets, name) && reported == Report(ds, name, now, rate)
  }

  // ---------------------------------------------------------------- what a finding shows of a detection

  predicate Blank(s: string)
  {
    forall i :: 0 <= i < |s| ==> IsSpace(s[i])
  }

  /** The severity that was given, if it is one of the five, and medium otherwise. */
  predicate Graded(given: Severity, shown: Severity)
  {
    if given in {Critical, High, Medium, Low, Info} then shown == given else shown == Medium
  }

  /** The finding f is of the detection d: under its source and check, with its words and its severity. */
  predicate Shows(f: Finding, d: DetectionRecord)
  {
    && f.fingerprint == "loglight|" + d.source + "|" + d.check + "|" + d.key
    && f.target == d.source && f.check == d.check && f.title == d.title && f.evidence == d.evidence
    && Graded(d.severity, f.severity)
    && f.remediation == if Blank(d.fix) then "Investigate the actor and affected host." else d.fix
  }

  predicate ShowsPoorParsing(f: Finding, source: string)
  {
    && f.fingerprint == "loglight|" + source + "|ingest.parse_rate|"
    && f.target == source && f.check == "ingest.parse_rate" && f.severity == Low
    && f.title == "Low parse rate on source " + source && f.remediation != ""
  }

  lemma {:induction false} TrimmedBlank(s: string)
    ensures TrimSpace(s) == "" <==> Blank(s)
  {
    TrimLeftBlank(s);
    TrimRightBlank(TrimLeft(s));
    assert TrimLeft(s) != "" ==> !IsSpace(TrimLeft(s)[0]);
  }

  lemma {:induction false} TrimLeftBlank(s: string)
    ensures TrimLeft(s) == "" <==> Blank(s)
  {
    if s != "" && IsSpace(s[0]) {
      TrimLeftBlank(s[1..]);
      assert Blank(s) <==> Blank(s[1..]) by {
        if Blank(s[1..]) {
          forall i | 0 <= i < |s| ensures IsSpace(s[i]) {
            assert i > 0 ==> s[1..][i - 1] == s[i];
          }
        }
      }
    }
  }

  lemma {:induction false} TrimRightBlank(s: string)
    ensures TrimRight(s) == "" <==> Blank(s)
  {
    if s != "" && IsSpace(s[|s| - 1]) {
      TrimRightBlank(s[..|s| - 1]);
      assert Blank(s) <==> Blank(s[..|s| - 1]) by {
        if Blank(s[..|s| - 1]) {
          forall i | 0 <= i < |s| ensures IsSpace(s[i]) {
            assert i < |s| - 1 ==> s[..|s| - 1][i] == s[i];
          }
        }
      }
    }
  }

  lemma DetectionShown(d: DetectionRecord)
    ensures Shows(DetectionFinding(d), d)
    ensures DetectionFinding(d).status == Open && DetectionFinding(d).groupId == None && DetectionFinding(d).resolvedAt == None
  {
    TrimmedBlank(d.fix);
    assert "loglight" + "|" == "loglight|";
    hide TrimSpace, Blank;
  }

  lemma ParseRateShown(source: string)
    ensures ShowsPoorParsing(ParseRateFinding(source), source)
  {
    assert "loglight" + "|" == "loglight|" && "|" + "ingest.parse_rate" + "|" == "|ingest.parse_rate|";
    assert ParsePrint(source) == "loglight|" + source + "|ingest.parse_rate|";
  }

  /** How many of the first n detections were last seen within thirty minutes. */
  function RecentBefore(ds: seq<DetectionRecord>, now: int, n: nat): nat
    requires n <= |ds|
  {
    if n == 0 then 0 else RecentBefore(ds, now, n - 1) + if IsRecent(ds[n - 1], now) then 1 else 0
  }

  predicate IsRecent(d: DetectionRecord, now: int)
  {
    now - d.lastAt <= 1_800_000_000_000
  }

  /** Every recent detection is reported in its place with what it shows, and nothing else but a poor parse rate. */
  ghost predicate Reports(reported: seq<Finding>, ds: seq<DetectionRecord>, name: string, now: int, rate: Option<real>)
  {
    var poor := rate.Some? && rate.value < 0.5;
    && |reported| == RecentBefore(ds, now, |ds|) + (if poor then 1 else 0)
    && (forall i :: 0 <= i < |ds| && IsRecent(ds[i], now) ==>
          RecentBefore(ds, now, i) < RecentBefore(ds, now, |ds|) && Shows(reported[RecentBefore(ds, now, i)], ds[i]))
    && (poor ==> ShowsPoorParsing(reported[|reported| - 1], name))
  }

  lemma {:induction false} RecentPrefix(ds: seq<DetectionRecord>, now: int, n: nat, m: nat)
    requires n <= m <= |ds|
    ensures RecentBefore(ds[..m], now, n) == RecentBefore(ds, now, n)
  {
    if n > 0 {
      RecentPrefix(ds, now, n - 1, m);
    }
  }

  lemma {:induction false} ActiveShown(ds: seq<DetectionRecord>, now: int)
    ensures |ActiveFindings(ds, now)| == RecentBefore(ds, now, |ds|)
    ensures forall i :: 0 <= i < |ds| && IsRecent(ds[i], now) ==>
              RecentBefore(ds, now, i) < |ActiveFindings(ds, now)| && Shows(ActiveFindings(ds, now)[RecentBefore(ds, now, i)], ds[i])
  {
    hide Shows, DetectionFinding;
    if ds != [] {
      var n := |ds| - 1;
      ActiveShown(ds[..n], now);
      RecentPrefix(ds, now, n, n);
      DetectionShown(ds[n]);
      forall i | 0 <= i < |ds| && IsRecent(ds[i], now)
        ensures RecentBefore(ds, now, i) < |ActiveFindings(ds, now)| && Shows(ActiveFindings(ds, now)[RecentBefore(ds, now, i)], ds[i])
      {
        if i < n {
          RecentPrefix(ds, now, i, n);
          assert ds[..n][i] == ds[i];
        }
      }
    }
  }

  lemma ReportShown(ds: seq<DetectionRecord>, name: string, now: int, rate: Option<real>)
    ensures Reports(Report(ds, name, now, rate), ds, name, now, rate)
  {
    ActiveShown(ds, now);
    ParseRateShown(name);
    hide ActiveFindings, RecentBefore, Shows, ShowsPoorParsing, ParseRateFinding;
  }

  // ---------------------------------------------------------------- the collector as it runs

  class Collector {
    const store: LogStore.Store

    constructor (store: LogStore.Store)
      ensures this.store == store
    {
      this.store := store;
    }

    /**
     * rate is the live parse rate of the source, if there is a live pipeline; cancelled(i) tells
     * whether the scan was cancelled by the time detection i was reached.
     */
    method Collect(name: string, now: int, rate: Option<real>, cancelled: nat -> bool) returns (out: Option<seq<Finding>>)
      requires LogStore.Slotted(store.dets)
      ensures out.Some? ==> Collected(out.value, store.sources, store.dets, name, now, rate)
      ensures out.Some? && name in store.sources ==>
                exists ds :: LogStore.Lists(ds, store.dets, name) && Reports(out.value, ds, name, now, rate)
      ensures out.None? ==> name in store.sources && exists i :: cancelled(i)
      ensures name !in store.sources || (forall i :: !cancelled(i)) ==> out.Some?
    {
      var src := store.GetSource(name);
      if src.None? {
        return Some([]);
      }
      var dets := store.ListDetections(name);
      var cutoff := now - ACTIVE_WINDOW;
      var found: seq<Finding> := [];
      for i := 0 to |dets|
        invariant found == ActiveFindings(dets[..i], now)
      {
        if cancelled(i) {
          return None;
        }
        assert dets[..i + 1][..i] == dets[..i];
        if !(dets[i].lastAt < cutoff) {
          found := found + [DetectionFinding(dets[i])];
        }
      }
      assert dets[..|dets|] == dets;
      if rate.Some? && rate.value < 0.5 {
        found := found + [ParseRateFinding(name)];
      }
      assert found == Report(dets, name, now, rate);
      ReportShown(dets, name, now, rate);
      out := Some(found);
    }
  }

  // ---------------------------------------------------------------- fingerprints

  /** The checks that findings are filed under: one for each kind of detection, incidents, and the parse rate. */
  datatype Check = OfKind(kind: Kind) | OfChain | OfParseRate

  function CheckName(c: Check): string
  {
    match c
    case OfKind(k) => "detect." + KindName(k)
    case OfChain => "incident.killchain"
    case OfParseRate => PARSE_CHECK
  }

  /** The word that begins every key of a check, before a bar. */
  function KeyWord(c: Check): string
    requires !c.OfParseRate?
  {
    if c.OfKind? then KindWord(c.kind) else "killchain"
  }

  predicate Starts(key: string, c: Check)
    requires !c.OfParseRate?
  {
    HasPrefix(key, KeyWord(c) + "|")
  }

  /** What path A fires: a check and a key that begins with its word. */
  ghost predicate Fireable(check: string, key: string)
  {
    exists c: Check :: check == CheckName(c) && !c.OfParseRate? && Starts(key, c)
  }

  /** What a fingerprint can be made of besides its source. */
  ghost predicate Printable(check: string, key: string)
  {
    Fireable(check, key) || (check == PARSE_CHECK && key == "")
  }

  /** A check and a key of t and of u with one fingerprint. */
  ghost predicate SharesWith(t: string, u: string, check: string, key: string, check': string, key': string)
  {
    Printable(check, key) && Printable(check', key') && Fingerprint(t, check, key) == Fingerprint(u, check', key')
  }

  ghost predicate Share(t: string, u: string)
  {
    exists check, key, check', key' :: SharesWith(t, u, check, key, check', key')
  }

  /** The name u goes on where a fingerprint of t has a check and the word of its keys. */
  ghost predicate Continues(t: string, u: string)
  {
    exists c: Check :: !c.OfParseRate? && HasPrefix(u + "|", t + "|" + Opening(c))
  }

  function Opening(c: Check): string
    requires !c.OfParseRate?
  {
    CheckName(c) + "|" + KeyWord(c) + "|"
  }

  lemma KindsBarless(k: Kind)
    ensures '|' !in KindName(k) && '|' !in KindWord(k) && '.' !in KindWord(k)
  {
  }

  lemma DetectBarless(name: string)
    requires '|' !in name
    ensures '|' !in "detect." + name && '.' in "detect." + name
  {
    var check := "detect." + name;
    assert check[6] == '.';
    assert forall i :: 0 <= i < 7 ==> check[i] != '|';
    assert forall i :: 7 <= i < |check| ==> check[i] == name[i - 7];
  }

  lemma NamesBarless(c: Check)
    ensures '|' !in CheckName(c) && CheckName(c) != "" && '.' in CheckName(c)
    ensures !c.OfParseRate? ==> '|' !in KeyWord(c) && '.' !in KeyWord(c)
  {
    match c
    case OfKind(k) =>
      KindsBarless(k);
      hide KindName, KindWord;
      DetectBarless(KindName(k));
    case OfChain => assert CheckName(c)[8] == '.';
    case OfParseRate => assert CheckName(c)[6] == '.';
  }

  lemma PrintableBarless(check: string, key: string)
    requires Printable(check, key)
    ensures '|' !in check && check != "" && '.' in check
  {
    NamesBarless(OfParseRate);
    if Fireable(check, key) {
      var c: Check :| check == CheckName(c) && !c.OfParseRate? && Starts(key, c);
      NamesBarless(c);
    }
  }

  lemma Cancel(head: string, a: string, b: string)
    ensures head + a == head + b ==> a == b
  {
    assert (head + a)[|head|..] == a;
    assert (head + b)[|head|..] == b;
  }

  /** A text up to its first bar, and what follows it, are determined by the whole. */
  lemma FirstBar(a: string, x: string, b: string, y: string)
    requires a + "|" + x == b + "|" + y && '|' !in a && '|' !in b
    ensures a == b && x == y
  {
    assert a + "|" + x == a + ['|'] + x && b + "|" + y == b + ['|'] + y;
    FirstOccurrence(a, '|', x);
    FirstOccurrence(b, '|', y);
    assert a == (a + "|" + x)[..|a|] == b;
    assert x == (a + "|" + x)[|a| + 1..] == y;
  }

  lemma Grouped(source: string, check: string, key: string)
    ensures Fingerprint(source, check, key) == (MODULE_ID + "|") + (source + "|" + (check + "|" + key))
  {
    var head := MODULE_ID + "|" + source + "|";
    assert head + check + "|" + key == head + (check + "|" + key);
  }

  lemma SamePrint(source: string, check: string, key: string, check': string, key': string)
    requires Fingerprint(source, check, key) == Fingerprint(source, check', key')
    requires Printable(check, key) && Printable(check', key')
    ensures check == check' && key == key'
  {
    PrintableBarless(check, key);
    PrintableBarless(check', key');
    Grouped(source, check, key);
    Grouped(source, check', key');
    hide *;
    Cancel(MODULE_ID + "|", source + "|" + (check + "|" + key), source + "|" + (check' + "|" + key'));
    Cancel(source + "|", check + "|" + key, check' + "|" + key');
    FirstBar(check, key, check', key');
  }

  lemma CharsOf(check: string, word: string, tail: string, n: nat)
    requires n < |check + "|" + (word + "|" + tail)|
    ensures var x := check + "|" + (word + "|" + tail);
            (n < |check| ==> x[n] == check[n]) &&
            (|check| < n < |check| + 1 + |word| ==> x[n] == word[n - |check| - 1])
  {
  }

  /** Where the check and the word of t end, the longer name u has not ended yet. */
  lemma WordReached(check: string, word: string, tail: string, rest: string, check': string, key': string)
    requires check + "|" + (word + "|" + tail) == rest + "|" + (check' + "|" + key')
    requires '|' !in check && '|' !in word && '.' !in word && '|' !in check' && '.' in check'
    ensures HasPrefix(rest + "|", check + "|" + word + "|")
  {
    var x, y := check + "|" + (word + "|" + tail), rest + "|" + (check' + "|" + key');
    assert y[|rest|] == '|';
    CharsOf(check, word, tail, |rest|);
    if |rest| == |check| {
      Cancel(x[..|rest| + 1], x[|rest| + 1..], y[|rest| + 1..]);
      FirstBar(word, tail, check', key');
    }
    assert x == check + "|" + word + "|" + tail;
    assert rest + "|" == x[..|rest| + 1];
  }

  /** A fingerprint of t and of a longer name u: u goes on with the check and the word of t. */
  lemma LongerContinues(t: string, u: string, check: string, key: string, check': string, key': string)
    requires SharesWith(t, u, check, key, check', key') && |t| < |u|
    ensures Continues(t, u)
  {
    PrintableBarless(check, key);
    PrintableBarless(check', key');
    Grouped(t, check, key);
    Grouped(u, check', key');
    hide Fingerprint, CheckName, KeyWord, HasPrefix;
    Cancel(MODULE_ID + "|", t + "|" + (check + "|" + key), u + "|" + (check' + "|" + key'));
    var rest := LongerName(t, u, check + "|" + key, check' + "|" + key');
    if c: Check :| check == CheckName(c) && !c.OfParseRate? && Starts(key, c) {
      NamesBarless(c);
      var tail := key[|KeyWord(c)| + 1..];
      KeySplit(key, c);
      WordReached(check, KeyWord(c), tail, rest, check', key');
      Joined(t, u, rest, c);
    } else {
      assert check + "|" + key == check + "|" + "";
      EmptyKey(check, rest, check', key');
    }
  }

  lemma KeySplit(key: string, c: Check)
    requires !c.OfParseRate? && Starts(key, c)
    ensures |key| > |KeyWord(c)| && key == KeyWord(c) + "|" + key[|KeyWord(c)| + 1..]
  {
    hide KeyWord;
  }

  lemma LongerName(t: string, u: string, x: string, y: string) returns (rest: string)
    requires t + "|" + x == u + "|" + y && |t| < |u|
    ensures u == t + "|" + rest && x == rest + "|" + y
  {
    var a, b := t + "|" + x, u + "|" + y;
    rest := u[|t| + 1..];
    assert u == b[..|u|] && b[..|t| + 1] == a[..|t| + 1] == t + "|";
    assert u == t + "|" + rest;
    assert b == t + "|" + (rest + "|" + y);
    Cancel(t + "|", x, rest + "|" + y);
  }

  lemma Joined(t: string, u: string, rest: string, c: Check)
    requires !c.OfParseRate? && u == t + "|" + rest && HasPrefix(rest + "|", CheckName(c) + "|" + KeyWord(c) + "|")
    ensures Continues(t, u)
  {
    hide CheckName, KeyWord;
    var o := Opening(c);
    assert u + "|" == t + "|" + (rest + "|");
    assert (u + "|")[..|t + "|" + o|] == t + "|" + o;
  }

  /** The parse-rate finding has no discriminator, so nothing continues it. */
  lemma EmptyKey(check: string, rest: string, check': string, key': string)
    requires '|' !in check && check' != ""
    ensures check + "|" + "" != rest + "|" + (check' + "|" + key')
  {
    var x, y := check + "|" + "", rest + "|" + (check' + "|" + key');
    assert y[|rest|] == '|';
    assert |rest| < |check| ==> x[|rest|] == check[|rest|];
  }

  /** Whatever goes on after the check and the word of t can be the key of t. */
  lemma ContinuedShares(t: string, u: string, check': string, key': string) returns (check: string, key: string)
    requires Continues(t, u)
    ensures Fireable(check, key) && Fingerprint(t, check, key) == Fingerprint(u, check', key')
  {
    var c: Check :| !c.OfParseRate? && HasPrefix(u + "|", t + "|" + Opening(c));
    var rest := RestOf(u, t, CheckName(c), KeyWord(c));
    hide CheckName, KeyWord, Continues, Fingerprint, HasPrefix;
    var tail := rest + (check' + "|" + key');
    check, key := CheckName(c), KeyWord(c) + "|" + tail;
    KeyStarts(c, tail);
    Regrouped(u, t, CheckName(c), KeyWord(c), rest, check' + "|" + key');
    Grouped(t, check, key);
    Grouped(u, check', key');
  }

  lemma KeyStarts(c: Check, tail: string)
    requires !c.OfParseRate?
    ensures Fireable(CheckName(c), KeyWord(c) + "|" + tail)
  {
    hide CheckName, KeyWord;
    assert Starts(KeyWord(c) + "|" + tail, c);
  }

  lemma RestOf(u: string, t: string, check: string, word: string) returns (rest: string)
    requires HasPrefix(u + "|", t + "|" + (check + "|" + word + "|"))
    ensures u + "|" == t + "|" + (check + "|" + word + "|") + rest
  {
    rest := (u + "|")[|t + "|" + (check + "|" + word + "|")|..];
  }

  lemma Regrouped(u: string, t: string, check: string, word: string, rest: string, tail: string)
    requires u + "|" == t + "|" + (check + "|" + word + "|") + rest
    ensures u + "|" + tail == t + "|" + (check + "|" + (word + "|" + (rest + tail)))
  {
    var inner := check + "|" + word + "|";
    assert t + "|" + inner + rest + tail == t + "|" + (inner + (rest + tail));
    assert inner + (rest + tail) == check + "|" + (word + "|" + (rest + tail));
  }

  /**
   * Two sources can share a fingerprint exactly when they are one, or one name goes on, after a
   * bar, with a check and the word that begins its keys.
   */
  lemma SharedIff(t: string, u: string)
    ensures Share(t, u) <==> t == u || Continues(t, u) || Continues(u, t)
  {
    if Share(t, u) {
      var check, key, check', key' :| SharesWith(t, u, check, key, check', key');
      if |t| < |u| {
        LongerContinues(t, u, check, key, check', key');
      } else if |u| < |t| {
        LongerContinues(u, t, check', key', check, key);
      } else {
        SameLength(t, u, check, key, check', key');
      }
    }
    if t == u {
      assert SharesWith(t, u, PARSE_CHECK, "", PARSE_CHECK, "");
    } else if Continues(t, u) {
      var check, key := ContinuedShares(t, u, PARSE_CHECK, "");
      assert SharesWith(t, u, check, key, PARSE_CHECK, "");
    } else if Continues(u, t) {
      var check, key := ContinuedShares(u, t, PARSE_CHECK, "");
      assert SharesWith(t, u, PARSE_CHECK, "", check, key);
    }
  }

  lemma SameLength(t: string, u: string, check: string, key: string, check': string, key': string)
    requires Fingerprint(t, check, key) == Fingerprint(u, check', key') && |t| == |u|
    ensures t == u
  {
    Grouped(t, check, key);
    Grouped(u, check', key');
    hide Fingerprint;
    var x, y := check + "|" + key, check' + "|" + key';
    Cancel(MODULE_ID + "|", t + "|" + x, u + "|" + y);
    assert t == (t + "|" + x)[..|t|] == (u + "|" + y)[..|u|] == u;
  }

  // ---------------------------------------------------------------- owners

  /** No two of the names can share a fingerprint. */
  ghost predicate Separate(names: set<string>)
  {
    forall t, u :: t in names && u in names && t != u ==> !Continues(t, u)
  }

  ghost predicate Prints(t: string, fp: string)
  {
    exists check, key :: PrintsAs(t, check, key, fp)
  }

  ghost predicate PrintsAs(t: string, check: string, key: string, fp: string)
  {
    Printable(check, key) && Fingerprint(t, check, key) == fp
  }

  /** The source that a fingerprint is of, among separate names. */
  ghost function OwnerAmong(names: set<string>, fp: string): string
  {
    if exists t :: t in names && Prints(t, fp) then
      var t :| t in names && Prints(t, fp);
      t
    else ""
  }

  lemma OwnerIs(names: set<string>, t: string, check: string, key: string)
    requires Separate(names) && t in names && Printable(check, key)
    ensures OwnerAmong(names, Fingerprint(t, check, key)) == t
  {
    var fp := Fingerprint(t, check, key);
    assert PrintsAs(t, check, key, fp);
    assert Prints(t, fp);
    var u := OwnerAmong(names, fp);
    assert u in names && Prints(u, fp);
    var check', key' :| PrintsAs(u, check', key', fp);
    assert SharesWith(t, u, check, key, check', key');
    SharedIff(t, u);
    hide Continues, Printable, Fingerprint;
  }

  /** A key begins with the word of one check only. */
  lemma OneCheckAKey(check: string, check': string, key: string)
    requires Fireable(check, key) && Fireable(check', key)
    ensures check == check'
  {
    var c: Check :| check == CheckName(c) && !c.OfParseRate? && Starts(key, c);
    var d: Check :| check' == CheckName(d) && !d.OfParseRate? && Starts(key, d);
    NamesBarless(c);
    NamesBarless(d);
    KeySplit(key, c);
    KeySplit(key, d);
    hide CheckName, HasPrefix, KeyWord;
    FirstBar(KeyWord(c), key[|KeyWord(c)| + 1..], KeyWord(d), key[|KeyWord(d)| + 1..]);
    WordsApart(c, d);
  }

  lemma WordsApart(c: Check, d: Check)
    requires !c.OfParseRate? && !d.OfParseRate? && KeyWord(c) == KeyWord(d)
    ensures c == d
  {
    assert KeyWord(c)[0] == KeyWord(d)[0] && KeyWord(c)[1] == KeyWord(d)[1] && KeyWord(c)[3] == KeyWord(d)[3];
  }

  /** What path A writes is accepted by path B exactly when its source, check and title are not empty. */
  lemma AcceptedIff(d: DetectionRecord)
    ensures Valid(DetectionFinding(d)) <==> d.source != "" && d.check != "" && d.title != ""
  {
    assert DetectionPrint(d) != "";
    assert TrimSpace("") == "";
  }
}
