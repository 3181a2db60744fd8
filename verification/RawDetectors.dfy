/**
 * The windowed detectors over the fields of raw events: which events each of them counts, towards
 * what, and what it says when it has counted enough.
 */
module RawDetectors {
  import opened Wire
  import opened LineText
  import opened Text
  import opened Events
  import opened Detections
  import opened ValueWindows
  import opened Windows
  import Buffers
  import opened Tracks
  import D = Detectors
  import DH = DetectorHistory

  /** What is counted for one key: the events, what is distinct about them, and how many it takes. */
  datatype Watch = Watch(
    counts: Event -> bool, value: Event -> string,
    minCount: Option<int>, minDistinct: Option<int>, window: int, cooldown: int, evidenceMax: int)
  {
    function AsRule(): Rule
    {
      Rule(minCount, minDistinct, window, cooldown, evidenceMax)
    }
  }

  // --- counting over the raw events -------------------------------------------------------

  /** One past the last event that was reported. */
  ghost function Since(w: Watch, h: seq<Event>): (n: nat)
    ensures n <= |h|
    decreases |h|, 0
  {
    if h == [] then 0 else if Due(w, h[..|h| - 1], h[|h| - 1]) then |h| else Since(w, h[..|h| - 1])
  }

  ghost function LastReported(w: Watch, h: seq<Event>): Option<int>
    decreases |h|, 0
  {
    if h == [] then None
    else if Due(w, h[..|h| - 1], h[|h| - 1]) then Some(h[|h| - 1].timestamp)
    else LastReported(w, h[..|h| - 1])
  }

  /** The positions from n on of the events that count and are at or after the cutoff. */
  function Counted(w: Watch, h: seq<Event>, n: nat, cutoff: int): set<nat>
  {
    set i: nat | n <= i < |h| && w.counts(h[i]) && h[i].timestamp >= cutoff
  }

  /** What is distinct about them. */
  function Distinct(w: Watch, h: seq<Event>, n: nat, cutoff: int): set<string>
  {
    set i: nat | n <= i < |h| && w.counts(h[i]) && h[i].timestamp >= cutoff :: w.value(h[i])
  }

  /**
   * The event e is to be reported: it counts, and with it enough events that count, and enough
   * different ones, lie within the window since the last report, which is a cooldown ago.
   */
  ghost predicate Due(w: Watch, h: seq<Event>, e: Event)
    decreases |h|, 1
  {
    var n, cutoff := Since(w, h), e.timestamp - w.window;
    && w.counts(e)
    && (w.minCount.Some? ==> |Counted(w, h + [e], n, cutoff)| >= w.minCount.value)
    && (w.minDistinct.Some? ==> |Distinct(w, h + [e], n, cutoff)| >= w.minDistinct.value)
    && match LastReported(w, h)
       case None => true
       case Some(t) => e.timestamp - t >= w.cooldown
  }

  /** The events that count, by their times and what is distinct about them. */
  function Noted(w: Watch, h: seq<Event>): seq<Sighting<string>>
  {
    if h == [] then []
    else
      var e := h[|h| - 1];
      Noted(w, h[..|h| - 1]) + if w.counts(e) then [Sighting(e.timestamp, w.value(e), e.raw)] else []
  }

  /** The orders in which the windows are exact, as WindowExactIff and DistinctExactIff say. */
  ghost predicate InOrder(w: Watch, h: seq<Event>)
  {
    Steady(w.AsRule(), Noted(w, h))
  }

  // --- the three detectors -------------------------------------------------------------------

  /** Who is behind an event: its address, else its user, else its host. */
  predicate IsBy(e: Event, who: string)
  {
    || (e.srcIP != "" && who == e.srcIP)
    || (e.srcIP == "" && e.user != "" && who == "user:" + e.user)
    || (e.srcIP == "" && e.user == "" && who == e.host)
  }

  /** Failed logins by one party. */
  function BruteWatch(c: D.Config, who: string): Watch
  {
    Watch((e: Event) => e.auth == Failure && who != "" && IsBy(e, who), (e: Event) => "",
          Some(c.bruteFailures), None, c.bruteWindow, c.cooldown, c.evidenceMax)
  }

  /** Ports tried from one address. */
  function ScanWatch(c: D.Config, ip: string): Watch
  {
    Watch((e: Event) => ip != "" && e.srcIP == ip && e.dstPort != 0, (e: Event) => Itoa(e.dstPort),
          None, Some(c.scanPorts), c.scanWindow, c.cooldown, c.evidenceMax)
  }

  predicate IsAt(e: Event, service: string)
  {
    service == (if e.host == "" then "any" else e.host) + "/" + (if e.app == "" then "any" else e.app)
  }

  /** Failed logins at one service, by source: the address, else the user. */
  function SpikeWatch(c: D.Config, service: string): Watch
  {
    Watch((e: Event) => e.auth == Failure && IsAt(e, service),
          (e: Event) => if e.srcIP != "" then e.srcIP else if e.user != "" then e.user else "any",
          Some(c.spikeMin), Some(3), c.spikeWindow, c.cooldown, c.evidenceMax)
  }

  // --- counting sightings is counting events -----------------------------------------------------

  lemma NotedMore(w: Watch, h: seq<Event>, e: Event)
    ensures Noted(w, h + [e]) == if w.counts(e) then Noted(w, h) + [Sighting(e.timestamp, w.value(e), e.raw)] else Noted(w, h)
  {
    assert (h + [e])[..|h|] == h;
    assert Noted(w, h) + [] == Noted(w, h);
  }

  lemma CountedSet(w: Watch, h: seq<Event>, e: Event, n: nat, cutoff: int)
    requires n <= |h|
    ensures Counted(w, h + [e], n, cutoff) == Counted(w, h, n, cutoff) + if w.counts(e) && e.timestamp >= cutoff then {|h|} else {}
    ensures |h| !in Counted(w, h, n, cutoff)
  {
    var more := h + [e];
    assert forall i :: 0 <= i < |h| ==> more[i] == h[i];
    assert more[|h|] == e;
  }

  lemma CountedMore(w: Watch, h: seq<Event>, e: Event, n: nat, cutoff: int)
    requires n <= |h|
    ensures |Counted(w, h + [e], n, cutoff)| == |Counted(w, h, n, cutoff)| + if w.counts(e) && e.timestamp >= cutoff then 1 else 0
  {
    CountedSet(w, h, e, n, cutoff);
    hide Counted;
  }

  lemma DistinctMore(w: Watch, h: seq<Event>, e: Event, n: nat, cutoff: int)
    requires n <= |h|
    ensures Distinct(w, h + [e], n, cutoff) == Distinct(w, h, n, cutoff) + if w.counts(e) && e.timestamp >= cutoff then {w.value(e)} else {}
  {
    var more := h + [e];
    assert forall i :: 0 <= i < |h| ==> more[i] == h[i];
    assert more[|h|] == e;
  }

  /** What is noted of the first n events. */
  function NotedBefore(w: Watch, h: seq<Event>, n: nat): (m: nat)
    requires n <= |h|
  {
    |Noted(w, h[..n])|
  }

  lemma {:induction false} NotedGrows(w: Watch, h: seq<Event>, n: nat)
    requires n <= |h|
    ensures NotedBefore(w, h, n) <= |Noted(w, h)|
  {
    if n == |h| {
      assert h[..n] == h;
    } else {
      NotedGrows(w, h[..|h| - 1], n);
      assert h[..|h| - 1][..n] == h[..n];
    }
  }

  lemma CountLast(ss: seq<Sighting<string>>, x: Sighting<string>, m: nat, cutoff: int)
    requires m <= |ss|
    ensures CountSince(ss + [x], m, cutoff) == CountSince(ss, m, cutoff) + if x.at >= cutoff then 1 else 0
    ensures ValuesSince(ss + [x], m, cutoff) == ValuesSince(ss, m, cutoff) + if x.at >= cutoff then {x.value} else {}
  {
    var more := ss + [x];
    assert more[..|ss|] == ss;
    assert forall i :: 0 <= i < |ss| ==> more[i] == ss[i];
    assert more[|ss|] == x;
  }

  lemma {:induction false} CountsAgree(w: Watch, h: seq<Event>, n: nat, cutoff: int)
    requires n <= |h|
    ensures CountSince(Noted(w, h), NotedBefore(w, h, n), cutoff) == |Counted(w, h, n, cutoff)|
    ensures ValuesSince(Noted(w, h), NotedBefore(w, h, n), cutoff) == Distinct(w, h, n, cutoff)
  {
    if n == |h| {
      assert h[..n] == h;
      assert Counted(w, h, n, cutoff) == {};
    } else {
      var front, e := h[..|h| - 1], h[|h| - 1];
      CountsAgree(w, front, n, cutoff);
      NotedGrows(w, front, n);
      assert front[..n] == h[..n] && front + [e] == h;
      NotedMore(w, front, e);
      CountedMore(w, front, e, n, cutoff);
      DistinctMore(w, front, e, n, cutoff);
      hide Noted, Counted, Distinct, CountSince, ValuesSince;
      if w.counts(e) {
        CountLast(Noted(w, front), Sighting(e.timestamp, w.value(e), e.raw), NotedBefore(w, h, n), cutoff);
      }
    }
  }

  /** Since and LastReported are those of the sightings. */
  ghost predicate Agrees(w: Watch, h: seq<Event>)
  {
    && NotedBefore(w, h, Since(w, h)) == Tracks.Since(w.AsRule(), Noted(w, h))
    && LastReported(w, h) == LastFired(w.AsRule(), Noted(w, h))
  }

  lemma DueParts(w: Watch, h: seq<Event>, e: Event)
    ensures var n, cutoff := Since(w, h), e.timestamp - w.window;
            Due(w, h, e) <==>
              && w.counts(e)
              && (w.minCount.Some? ==> |Counted(w, h + [e], n, cutoff)| >= w.minCount.value)
              && (w.minDistinct.Some? ==> |Distinct(w, h + [e], n, cutoff)| >= w.minDistinct.value)
              && Rested(LastReported(w, h), e.timestamp, w.cooldown)
  {
    hide Counted, Distinct, Since, LastReported;
  }

  lemma FiresParts(r: Rule, ss: seq<Sighting<string>>, x: Sighting<string>)
    ensures var n, cutoff := Tracks.Since(r, ss), x.at - r.window;
            Fires(r, ss, x) <==>
              && (r.minCount.Some? ==> CountSince(ss + [x], n, cutoff) >= r.minCount.value)
              && (r.minDistinct.Some? ==> |ValuesSince(ss + [x], n, cutoff)| >= r.minDistinct.value)
              && Rested(LastFired(r, ss), x.at, r.cooldown)
  {
    hide CountSince, ValuesSince, Tracks.Since, LastFired, Rested;
  }

  lemma DueIsFires(w: Watch, h: seq<Event>, e: Event)
    requires Agrees(w, h) && w.counts(e)
    ensures Due(w, h, e) <==> Fires(w.AsRule(), Noted(w, h), Sighting(e.timestamp, w.value(e), e.raw))
    ensures var n, cutoff := Since(w, h), e.timestamp - w.window;
            && CountSince(Noted(w, h + [e]), Tracks.Since(w.AsRule(), Noted(w, h)), cutoff) == |Counted(w, h + [e], n, cutoff)|
            && ValuesSince(Noted(w, h + [e]), Tracks.Since(w.AsRule(), Noted(w, h)), cutoff) == Distinct(w, h + [e], n, cutoff)
  {
    var n, cutoff := Since(w, h), e.timestamp - w.window;
    hide *;
    StartAgrees(w, h, e);
    CountsAgree(w, h + [e], n, cutoff);
    NotedMore(w, h, e);
    DueParts(w, h, e);
    FiresParts(w.AsRule(), Noted(w, h), Sighting(e.timestamp, w.value(e), e.raw));
    RuleParts(w);
  }

  lemma RuleParts(w: Watch)
    ensures var r := w.AsRule();
            && r.minCount == w.minCount && r.minDistinct == w.minDistinct
            && r.window == w.window && r.cooldown == w.cooldown && r.evidenceMax == w.evidenceMax
  {
  }

  lemma SinceMore(w: Watch, h: seq<Event>, e: Event)
    ensures Since(w, h + [e]) == if Due(w, h, e) then |h| + 1 else Since(w, h)
    ensures LastReported(w, h + [e]) == if Due(w, h, e) then Some(e.timestamp) else LastReported(w, h)
  {
    hide Due;
    assert (h + [e])[..|h|] == h;
  }

  lemma {:induction false} SinceAgrees(w: Watch, h: seq<Event>)
    ensures Agrees(w, h)
  {
    if h == [] {
      assert h[..0] == [];
    } else {
      var front, e := h[..|h| - 1], h[|h| - 1];
      SinceAgrees(w, front);
      assert front + [e] == h;
      AgreesMore(w, front, e);
    }
  }

  lemma AgreesMore(w: Watch, h: seq<Event>, e: Event)
    requires Agrees(w, h)
    ensures Agrees(w, h + [e])
  {
    NotedMore(w, h, e);
    SinceMore(w, h, e);
    if w.counts(e) {
      DueIsFires(w, h, e);
      SinceSnoc(w.AsRule(), Noted(w, h), Sighting(e.timestamp, w.value(e), e.raw));
    }
    assert (h + [e])[..|h| + 1] == h + [e];
    assert (h + [e])[..Since(w, h)] == h[..Since(w, h)];
    assert !w.counts(e) ==> !Due(w, h, e);
    hide Noted, Due, Fires, Since, LastReported, Tracks.Since, LastFired;
  }

  // --- and the detectors count them ----------------------------------------------------------------

  /** The detector dt counts for key k what the watch w counts. */
  ghost predicate Watches(dt: D.Detector, c: D.Config, k: string, w: Watch)
  {
    && w.AsRule() == D.RuleOf(dt, c)
    && (forall e: Event :: w.counts(e) <==> D.KeyOf(dt, e) == Some(k))
    && (forall e: Event :: w.counts(e) ==> D.Sight(dt, e) == Sighting(e.timestamp, w.value(e), e.raw))
  }

  lemma {:induction false} SightingsAreNoted(dt: D.Detector, c: D.Config, k: string, w: Watch, h: seq<Event>)
    requires Watches(dt, c, k, w)
    ensures D.Sightings(dt, h, k) == Noted(w, h)
  {
    if h != [] {
      SightingsAreNoted(dt, c, k, w, h[..|h| - 1]);
    }
    hide D.KeyOf, D.Sight;
  }

  lemma BruteWatched(c: D.Config, who: string)
    ensures Watches(D.Brute, c, who, BruteWatch(c, who))
  {
  }

  lemma ScanWatched(c: D.Config, ip: string)
    ensures Watches(D.Scan, c, ip, ScanWatch(c, ip))
  {
    hide Itoa;
  }

  lemma SpikeWatched(c: D.Config, service: string)
    ensures Watches(D.Spike, c, service, SpikeWatch(c, service))
  {
  }

  /** Position i is the first from n on that counts. */
  ghost predicate IsFirst(w: Watch, h: seq<Event>, n: nat, i: nat)
  {
    n <= i < |h| && w.counts(h[i]) && forall j :: n <= j < i ==> !w.counts(h[j])
  }

  /** The lines of the events from n on that count; an event may have none. */
  function Lines(w: Watch, h: seq<Event>, n: nat): seq<string>
  {
    if |h| <= n then []
    else
      var e := h[|h| - 1];
      Lines(w, h[..|h| - 1], n) + if w.counts(e) && e.raw != "" then [e.raw] else []
  }

  function FirstFew(lines: seq<string>, max: int): seq<string>
  {
    if max <= 0 then [] else if |lines| <= max then lines else lines[..max]
  }

  lemma {:induction false} FirstIsSighting(w: Watch, h: seq<Event>, n: nat)
    requires n <= |h| && NotedBefore(w, h, n) < |Noted(w, h)|
    ensures exists i: nat :: IsFirst(w, h, n, i) && Noted(w, h)[NotedBefore(w, h, n)].at == h[i].timestamp
  {
    WholeNoted(w, h);
    if n < |h| {
      var front, e := h[..|h| - 1], h[|h| - 1];
      assert front + [e] == h && front[..n] == h[..n];
      NotedMore(w, front, e);
      NotedGrows(w, front, n);
      hide Noted;
      if NotedBefore(w, front, n) < |Noted(w, front)| {
        FirstIsSighting(w, front, n);
        var i: nat :| IsFirst(w, front, n, i) && Noted(w, front)[NotedBefore(w, front, n)].at == front[i].timestamp;
        FirstStays(w, front, e, n, i);
      } else {
        NoneCounts(w, front, n);
        FirstHere(w, front, e, n);
      }
    }
  }

  lemma WholeNoted(w: Watch, h: seq<Event>)
    ensures NotedBefore(w, h, |h|) == |Noted(w, h)|
  {
    assert h[..|h|] == h;
  }

  lemma FirstStays(w: Watch, h: seq<Event>, e: Event, n: nat, i: nat)
    requires IsFirst(w, h, n, i)
    ensures IsFirst(w, h + [e], n, i) && (h + [e])[i] == h[i]
  {
  }

  lemma FirstHere(w: Watch, h: seq<Event>, e: Event, n: nat)
    requires n <= |h| && w.counts(e) && forall i :: n <= i < |h| ==> !w.counts(h[i])
    ensures IsFirst(w, h + [e], n, |h|) && (h + [e])[|h|] == e
  {
  }

  lemma {:induction false} NoneCounts(w: Watch, h: seq<Event>, n: nat)
    requires n <= |h| && NotedBefore(w, h, n) == |Noted(w, h)|
    ensures forall i :: n <= i < |h| ==> !w.counts(h[i])
  {
    if n < |h| {
      var front, e := h[..|h| - 1], h[|h| - 1];
      assert front + [e] == h && front[..n] == h[..n];
      NotedMore(w, front, e);
      NotedGrows(w, front, n);
      NoneCounts(w, front, n);
    }
  }

  lemma {:induction false} LinesAreEvidence(w: Watch, h: seq<Event>, n: nat, max: int)
    requires n <= |h|
    ensures EvidenceSince(Noted(w, h), NotedBefore(w, h, n), max) == FirstFew(Lines(w, h, n), max)
  {
    if n == |h| {
      assert h[..n] == h;
    } else {
      var front, e := h[..|h| - 1], h[|h| - 1];
      assert front + [e] == h && front[..n] == h[..n];
      LinesAreEvidence(w, front, n, max);
      NotedMore(w, front, e);
      NotedGrows(w, front, n);
      if w.counts(e) {
        EvidenceSnoc(Noted(w, front), Sighting(e.timestamp, w.value(e), e.raw), NotedBefore(w, front, n), max);
      }
      hide Noted, EvidenceSince;
      assert Lines(w, front, n) + [] == Lines(w, front, n);
    }
  }

  /** The report tells how many, and since when, and shows their first lines. */
  ghost predicate Reports(w: Watch, h: seq<Event>, e: Event, d: Detection, distinct: bool)
  {
    var n, cutoff, all := Since(w, h), e.timestamp - w.window, h + [e];
    && d.count == (if distinct then |Distinct(w, all, n, cutoff)| else |Counted(w, all, n, cutoff)|)
    && (exists i: nat :: IsFirst(w, all, n, i) && d.firstAt == all[i].timestamp)
    && d.lastAt == e.timestamp && d.target == e.host
    && d.evidence == FirstFew(Lines(w, all, n), w.evidenceMax)
  }

  lemma WatchParts(dt: D.Detector, c: D.Config, k: string, w: Watch, e: Event)
    requires Watches(dt, c, k, w) && w.counts(e)
    ensures D.KeyOf(dt, e) == Some(k) && D.Sight(dt, e) == Sighting(e.timestamp, w.value(e), e.raw)
    ensures w.AsRule() == D.RuleOf(dt, c)
  {
    hide D.KeyOf, D.Sight, D.RuleOf;
  }

  /** What a report says of the sightings since the last one, it says of the events. */
  lemma SightingsReport(w: Watch, h: seq<Event>, e: Event, d: Detection, distinct: bool)
    requires Agrees(w, h) && w.counts(e) && d.lastAt == e.timestamp && d.target == e.host
    requires var ss, m, cutoff := Noted(w, h + [e]), Tracks.Since(w.AsRule(), Noted(w, h)), e.timestamp - w.window;
             && m < |ss| && d.firstAt == ss[m].at && d.evidence == EvidenceSince(ss, m, w.evidenceMax)
             && d.count == if distinct then |ValuesSince(ss, m, cutoff)| else CountSince(ss, m, cutoff)
    ensures Reports(w, h, e, d, distinct)
  {
    hide *;
    var n := Since(w, h);
    StartAgrees(w, h, e);
    DueIsFires(w, h, e);
    FirstIsSighting(w, h + [e], n);
    LinesAreEvidence(w, h + [e], n, w.evidenceMax);
    ReportsBy(w, h, e, d, distinct);
  }

  lemma StartAgrees(w: Watch, h: seq<Event>, e: Event)
    requires Agrees(w, h)
    ensures NotedBefore(w, h + [e], Since(w, h)) == Tracks.Since(w.AsRule(), Noted(w, h))
    ensures LastReported(w, h) == LastFired(w.AsRule(), Noted(w, h))
  {
    hide Noted, Since, LastReported, Tracks.Since, LastFired;
    assert (h + [e])[..Since(w, h)] == h[..Since(w, h)];
  }

  lemma ReportsBy(w: Watch, h: seq<Event>, e: Event, d: Detection, distinct: bool)
    requires var n, cutoff, all := Since(w, h), e.timestamp - w.window, h + [e];
             && d.count == (if distinct then |Distinct(w, all, n, cutoff)| else |Counted(w, all, n, cutoff)|)
             && (exists i: nat :: IsFirst(w, all, n, i) && d.firstAt == all[i].timestamp)
             && d.lastAt == e.timestamp && d.target == e.host
             && d.evidence == FirstFew(Lines(w, all, n), w.evidenceMax)
    ensures Reports(w, h, e, d, distinct)
  {
    hide Since, Distinct, Counted, IsFirst, FirstFew, Lines;
  }

  lemma OrderOf(w: Watch, h: seq<Event>)
    requires InOrder(w, h)
    ensures Steady(w.AsRule(), Noted(w, h))
  {
    hide Steady, Noted;
  }

  lemma EmitsDue(dt: D.Detector, c: D.Config, k: string, w: Watch, h: seq<Event>, e: Event)
    requires Watches(dt, c, k, w) && InOrder(w, h + [e]) && w.counts(e)
    ensures D.Emit(dt, c, h, e).Some? <==> Due(w, h, e)
    ensures D.Emit(dt, c, h, e).Some? ==> Reports(w, h, e, D.Emit(dt, c, h, e).value, dt == D.Scan)
  {
    hide *;
    OrderOf(w, h + [e]);
    WatchParts(dt, c, k, w, e);
    SightingsAreNoted(dt, c, k, w, h);
    SightingsAreNoted(dt, c, k, w, h + [e]);
    SinceAgrees(w, h);
    DueIsFires(w, h, e);
    EmitFires(dt, c, h, e, k, w.AsRule(), Noted(w, h), Noted(w, h + [e]));
    if D.Emit(dt, c, h, e).Some? {
      RuleParts(w);
      EvidenceMaxIs(dt, c);
      SightingsReport(w, h, e, D.Emit(dt, c, h, e).value, dt == D.Scan);
    }
  }

  /** EmitIff for the rule r, and the sightings ss before e and all with it. */
  lemma EmitFires(dt: D.Detector, c: D.Config, h: seq<Event>, e: Event, k: string, r: Rule,
                  ss: seq<Sighting<string>>, all: seq<Sighting<string>>)
    requires D.KeyOf(dt, e) == Some(k) && r == D.RuleOf(dt, c) && Steady(r, all)
    requires ss == D.Sightings(dt, h, k) && all == D.Sightings(dt, h + [e], k)
    ensures D.Emit(dt, c, h, e).Some? <==> Fires(r, ss, D.Sight(dt, e))
    ensures D.Emit(dt, c, h, e).Some? ==>
              var d, m, cutoff := D.Emit(dt, c, h, e).value, Tracks.Since(r, ss), e.timestamp - r.window;
              && m < |all| && d.firstAt == all[m].at && d.evidence == EvidenceSince(all, m, c.evidenceMax)
              && d.count == (if dt == D.Scan then |ValuesSince(all, m, cutoff)| else CountSince(all, m, cutoff))
              && d.lastAt == e.timestamp && d.target == e.host
  {
    hide *;
    EmitTarget(dt, c, h, e);
    DH.EmitIff(dt, c, h, e, k);
  }

  lemma EvidenceMaxIs(dt: D.Detector, c: D.Config)
    ensures D.RuleOf(dt, c).evidenceMax == c.evidenceMax
  {
  }

  lemma EmitTarget(dt: D.Detector, c: D.Config, h: seq<Event>, e: Event)
    ensures D.Emit(dt, c, h, e).Some? ==> D.Emit(dt, c, h, e).value.target == e.host
  {
    hide D.TrackOf, Ready, Add;
  }

  /**
   * In a steady order a brute force is reported at an event exactly when it is a failed login and
   * the failed logins of whoever is behind it, since their last report and within the window, are
   * enough, the last report a cooldown ago; the report names them and says how many and since when.
   */
  lemma BruteForceIff(c: D.Config, h: seq<Event>, e: Event)
    requires forall who :: IsBy(e, who) ==> InOrder(BruteWatch(c, who), h + [e])
    ensures D.Emit(D.Brute, c, h, e).Some? <==> exists who :: IsBy(e, who) && Due(BruteWatch(c, who), h, e)
    ensures D.Emit(D.Brute, c, h, e).Some? ==>
              var d := D.Emit(D.Brute, c, h, e).value;
              && IsBy(e, d.actor) && Due(BruteWatch(c, d.actor), h, e) && Reports(BruteWatch(c, d.actor), h, e, d, false)
              && d.kind == BruteForce && d.severity == "high" && d.user == e.user && d.key == "brute|" + d.actor
              && d.title == "Brute force: " + Itoa(d.count) + " failed logins from " + d.actor
  {
    var who := if e.srcIP != "" then e.srcIP else if e.user != "" then "user:" + e.user else e.host;
    assert forall x :: IsBy(e, x) ==> x == who;
    assert IsBy(e, who);
    BruteWatched(c, who);
    BruteParts(c, h, e);
    if BruteWatch(c, who).counts(e) {
      EmitsDue(D.Brute, c, who, BruteWatch(c, who), h, e);
    } else {
      NotDue(BruteWatch(c, who), h, e);
      assert D.KeyOf(D.Brute, e) == None;
    }
    hide Due, Reports, InOrder, Watches, IsBy;
  }

  lemma NotDue(w: Watch, h: seq<Event>, e: Event)
    requires !w.counts(e)
    ensures !Due(w, h, e)
  {
  }

  lemma BruteParts(c: D.Config, h: seq<Event>, e: Event)
    ensures D.Emit(D.Brute, c, h, e).Some? ==>
              var d := D.Emit(D.Brute, c, h, e).value;
              && d.kind == BruteForce && d.severity == "high" && IsBy(e, d.actor) && d.user == e.user && d.key == "brute|" + d.actor
              && d.title == "Brute force: " + Itoa(d.count) + " failed logins from " + d.actor
  {
    hide D.TrackOf, Ready, Add, Itoa;
  }

  /** A port scan likewise: by the different ports that one address tried. */
  lemma PortScanIff(c: D.Config, h: seq<Event>, e: Event)
    requires InOrder(ScanWatch(c, e.srcIP), h + [e])
    ensures D.Emit(D.Scan, c, h, e).Some? <==> Due(ScanWatch(c, e.srcIP), h, e)
    ensures D.Emit(D.Scan, c, h, e).Some? ==>
              var d := D.Emit(D.Scan, c, h, e).value;
              && Reports(ScanWatch(c, e.srcIP), h, e, d, true)
              && d.kind == PortScan && d.severity == "medium" && d.actor == e.srcIP && d.user == "" && d.key == "scan|" + e.srcIP
              && d.title == "Port scan: " + e.srcIP + " hit " + Itoa(d.count) + " distinct ports"
  {
    ScanWatched(c, e.srcIP);
    ScanParts(c, h, e);
    if ScanWatch(c, e.srcIP).counts(e) {
      EmitsDue(D.Scan, c, e.srcIP, ScanWatch(c, e.srcIP), h, e);
    } else {
      NotDue(ScanWatch(c, e.srcIP), h, e);
      assert D.KeyOf(D.Scan, e) == None;
    }
    hide Due, Reports, InOrder, Watches;
  }

  lemma ScanParts(c: D.Config, h: seq<Event>, e: Event)
    ensures D.Emit(D.Scan, c, h, e).Some? ==>
              var d := D.Emit(D.Scan, c, h, e).value;
              && d.kind == PortScan && d.severity == "medium" && d.actor == e.srcIP && d.user == "" && d.key == "scan|" + e.srcIP
              && d.title == "Port scan: " + e.srcIP + " hit " + Itoa(d.count) + " distinct ports"
  {
    hide D.TrackOf, Ready, Add, Itoa;
  }

  /** And a spike: by the failed logins at one service, from three sources at least. */
  lemma SpikeIff(c: D.Config, h: seq<Event>, e: Event)
    requires forall service :: IsAt(e, service) ==> InOrder(SpikeWatch(c, service), h + [e])
    ensures D.Emit(D.Spike, c, h, e).Some? <==> exists service :: IsAt(e, service) && Due(SpikeWatch(c, service), h, e)
    ensures D.Emit(D.Spike, c, h, e).Some? ==>
              var d := D.Emit(D.Spike, c, h, e).value;
              && IsAt(e, d.actor) && Due(SpikeWatch(c, d.actor), h, e) && Reports(SpikeWatch(c, d.actor), h, e, d, false)
              && d.kind == AuthSpike && d.severity == "medium" && d.user == "" && d.key == "spike|" + d.actor
  {
    var service := (if e.host == "" then "any" else e.host) + "/" + (if e.app == "" then "any" else e.app);
    assert IsAt(e, service);
    assert forall x :: IsAt(e, x) ==> x == service;
    SpikeWatched(c, service);
    SpikeParts(c, h, e);
    if SpikeWatch(c, service).counts(e) {
      EmitsDue(D.Spike, c, service, SpikeWatch(c, service), h, e);
    } else {
      NotDue(SpikeWatch(c, service), h, e);
      assert D.KeyOf(D.Spike, e) == None;
    }
    hide Due, Reports, InOrder, Watches, IsAt;
  }

  lemma SpikeParts(c: D.Config, h: seq<Event>, e: Event)
    ensures D.Emit(D.Spike, c, h, e).Some? ==>
              var d := D.Emit(D.Spike, c, h, e).value;
              && d.kind == AuthSpike && d.severity == "medium" && IsAt(e, d.actor) && d.user == "" && d.key == "spike|" + d.actor
  {
    hide D.TrackOf, Ready, Add, Itoa;
  }

  /** A service is one host and one app unless a name holds a slash. */
  lemma ServicesApart(x: Event, y: Event, service: string)
    requires IsAt(x, service) && IsAt(y, service) && '/' !in x.host && '/' !in y.host
    ensures (x.host == y.host || {x.host, y.host} <= {"", "any"}) && (x.app == y.app || {x.app, y.app} <= {"", "any"})
  {
    var hx, hy := if x.host == "" then "any" else x.host, if y.host == "" then "any" else y.host;
    var ax, ay := if x.app == "" then "any" else x.app, if y.app == "" then "any" else y.app;
    SplitOnce(hx, ax, hy, ay);
  }

  lemma SplitOnce(a: string, x: string, b: string, y: string)
    requires a + "/" + x == b + "/" + y && '/' !in a && '/' !in b
    ensures a == b && x == y
  {
    hide IndexOf;
    FirstOccurrence(a, '/', x);
    FirstOccurrence(b, '/', y);
    assert a + ['/'] + x == b + ['/'] + y;
    var s := a + ['/'] + x;
    assert a == s[..|a|] && x == s[|a| + 1..];
  }
}
