/** The detectors that report single events: new privileged accounts, and findings of sister products. */
module Alerts {
  import opened Wire
  import opened Events
  import opened Detections
  import opened Windows
  import Tracks

  /** Reported once per key and cooldown; an event without a key does not concern the detector. */
  type Keying = Event -> Option<string>

  /** Whether e is reported after the events h. */
  predicate Passes(keyOf: Keying, d: int, h: seq<Event>, e: Event)
    decreases |h|, 1
  {
    keyOf(e).Some? && Rested(LastPassed(keyOf, d, h, keyOf(e).value), e.timestamp, d)
  }

  function LastPassed(keyOf: Keying, d: int, h: seq<Event>, k: string): Option<int>
    decreases |h|, 0
  {
    if h == [] then None
    else if keyOf(h[|h| - 1]) == Some(k) && Passes(keyOf, d, h[..|h| - 1], h[|h| - 1]) then Some(h[|h| - 1].timestamp)
    else LastPassed(keyOf, d, h[..|h| - 1], k)
  }

  lemma PassedSnoc(keyOf: Keying, d: int, h: seq<Event>, e: Event, k: string)
    ensures LastPassed(keyOf, d, h + [e], k) ==
            if keyOf(e) == Some(k) && Passes(keyOf, d, h, e) then Some(e.timestamp) else LastPassed(keyOf, d, h, k)
  {
    hide Passes;
    assert (h + [e])[..|h|] == h;
  }

  // --- new privileged account -------------------------------------------------------

  function AdminKey(e: Event): Option<string>
  {
    if e.action == "new_admin" then Some("newadmin|" + OrAny(e.host) + "|" + OrAny(e.user)) else None
  }

  function NewAccount(e: Event): Detection
  {
    Detection(NewAdmin, "high", Actor(e), e.host, e.user,
              "New privileged account created: " + if e.user == "" then "a new account" else e.user,
              1, e.timestamp, e.timestamp, [e.raw], "newadmin|" + OrAny(e.host) + "|" + OrAny(e.user))
  }

  function Created(cooldown: int, h: seq<Event>, e: Event): Option<Detection>
  {
    if Passes(AdminKey, cooldown, h, e) then Some(NewAccount(e)) else None
  }

  /** The event at i was reported under the key k. */
  ghost predicate ReportedAt(keyOf: Keying, d: int, h: seq<Event>, k: string, i: nat)
    requires i < |h|
  {
    keyOf(h[i]) == Some(k) && Passes(keyOf, d, h[..i], h[i])
  }

  /** And it was the last one. */
  ghost predicate LastReport(keyOf: Keying, d: int, h: seq<Event>, k: string, i: nat)
  {
    i < |h| && ReportedAt(keyOf, d, h, k, i) && forall j :: i < j < |h| ==> !ReportedAt(keyOf, d, h, k, j)
  }

  lemma ReportedBefore(keyOf: Keying, d: int, h: seq<Event>, k: string, n: nat, i: nat)
    requires i < n <= |h|
    ensures ReportedAt(keyOf, d, h[..n], k, i) == ReportedAt(keyOf, d, h, k, i)
  {
    assert h[..n][..i] == h[..i];
    hide Passes;
  }

  lemma {:induction false} LastPassedIs(keyOf: Keying, d: int, h: seq<Event>, k: string)
    ensures match LastPassed(keyOf, d, h, k)
            case None => forall j :: 0 <= j < |h| ==> !ReportedAt(keyOf, d, h, k, j)
            case Some(t) => exists i: nat :: LastReport(keyOf, d, h, k, i) && h[i].timestamp == t
  {
    if h != [] {
      var n := |h| - 1;
      var front := h[..n];
      LastPassedIs(keyOf, d, front, k);
      assert ReportedAt(keyOf, d, h, k, n) <==> keyOf(h[n]) == Some(k) && Passes(keyOf, d, front, h[n]);
      hide Passes, ReportedAt;
      forall j: nat | j < n ensures ReportedAt(keyOf, d, front, k, j) == ReportedAt(keyOf, d, h, k, j) {
        ReportedBefore(keyOf, d, h, k, n, j);
      }
      if ReportedAt(keyOf, d, h, k, n) {
        assert LastReport(keyOf, d, h, k, n);
      } else if LastPassed(keyOf, d, front, k).Some? {
        var i: nat :| LastReport(keyOf, d, front, k, i) && front[i].timestamp == LastPassed(keyOf, d, front, k).value;
        assert LastReport(keyOf, d, h, k, i);
      }
    }
  }

  lemma LastReportOne(keyOf: Keying, d: int, h: seq<Event>, k: string)
    ensures forall i: nat, j: nat :: LastReport(keyOf, d, h, k, i) && LastReport(keyOf, d, h, k, j) ==> i == j
    ensures (forall j :: 0 <= j < |h| ==> !ReportedAt(keyOf, d, h, k, j)) ==> forall i: nat :: !LastReport(keyOf, d, h, k, i)
  {
    hide ReportedAt;
  }

  /** A new account is reported exactly when the last report for its host and user, if any, is a cooldown ago. */
  lemma CreatedIff(cooldown: int, h: seq<Event>, e: Event)
    ensures var who, place := if e.user == "" then "any" else e.user, if e.host == "" then "any" else e.host;
            var key := "newadmin|" + place + "|" + who;
            && (Created(cooldown, h, e).Some? <==>
                  && e.action == "new_admin"
                  && forall i: nat :: LastReport(AdminKey, cooldown, h, key, i) ==> e.timestamp - h[i].timestamp >= cooldown)
            && (Created(cooldown, h, e).Some? ==>
                  var d := Created(cooldown, h, e).value;
                  && d.kind == NewAdmin && d.severity == "high" && d.target == e.host && d.user == e.user && d.key == key
                  && d.title == "New privileged account created: " + (if e.user == "" then "a new account" else e.user)
                  && d.count == 1 && d.firstAt == d.lastAt == e.timestamp && d.evidence == [e.raw]
                  && (e.srcIP != "" ==> d.actor == e.srcIP) && (e.srcIP == "" && e.user != "" ==> d.actor == "user:" + e.user)
                  && (e.srcIP == "" && e.user == "" ==> d.actor == e.host))
  {
    var key := "newadmin|" + OrAny(e.host) + "|" + OrAny(e.user);
    LastPassedIs(AdminKey, cooldown, h, key);
    LastReportOne(AdminKey, cooldown, h, key);
    hide LastPassed, LastReport;
  }

  class NewAdminDetector {
    const cool: Cooldown
    ghost var history: seq<Event>

    ghost predicate Valid()
      reads this, cool
    {
      forall k :: cool.LastOf(k) == LastPassed(AdminKey, cool.d, history, k)
    }

    constructor (cooldown: int)
      ensures Valid() && history == [] && cool.d == cooldown && fresh(cool)
    {
      cool := new Cooldown(cooldown);
      history := [];
    }

    method Observe(e: Event) returns (r: Option<Detection>)
      requires Valid()
      modifies this, cool
      ensures Valid() && history == old(history) + [e]
      ensures r == Created(cool.d, old(history), e)
    {
      hide Rested;
      r := None;
      if e.action == "new_admin" {
        var key := "newadmin|" + OrAny(e.host) + "|" + OrAny(e.user);
        var ok := cool.Firable(key, e.timestamp);
        if ok {
          r := Some(Detection(NewAdmin, "high", Actor(e), e.host, e.user,
                              "New privileged account created: " + if e.user == "" then "a new account" else e.user,
                              1, e.timestamp, e.timestamp, [e.raw], key));
        }
      }
      forall k ensures cool.LastOf(k) == LastPassed(AdminKey, cool.d, history + [e], k) {
        PassedSnoc(AdminKey, cool.d, history, e, k);
      }
      history := history + [e];
    }
  }

  // --- findings of sister products ------------------------------------------------------

  /** The structured tail of a message; a field is empty where the text has none. */
  datatype Tail = Tail(product: string, severity: string, check: string, status: string)

  datatype Sentry = Sentry(tailOf: string -> Tail, cooldown: int, evidenceMax: int)
  {
    function TailOf(e: Event): Tail
    {
      tailOf(if e.message == "" then e.raw else e.message)
    }
  }

  /** Only an open finding of high or critical severity that names an address is a sign of an attack. */
  predicate Alarming(s: Sentry, e: Event)
  {
    var t := s.TailOf(e);
    t.product != "" && t.status != "resolved" && (t.severity == "critical" || t.severity == "high") && e.srcIP != ""
  }

  function AlarmKey(s: Sentry): Keying
  {
    (e: Event) => if Alarming(s, e) then Some("sentinel:" + s.TailOf(e).product + ":" + e.srcIP) else None
  }

  /** The first lines of everything reported of an address. */
  function Gathered(s: Sentry, h: seq<Event>, a: string): seq<string>
  {
    if h == [] then []
    else
      var front, e := h[..|h| - 1], h[|h| - 1];
      if e.srcIP == a && Passes(AlarmKey(s), s.cooldown, front, e) then Tracks.KeepEvidence(Gathered(s, front, a), e.raw, s.evidenceMax)
      else Gathered(s, front, a)
  }

  function Relayed(s: Sentry, e: Event, evidence: seq<string>): Detection
  {
    var t := s.TailOf(e);
    Detection(Sentinel, if t.severity == "critical" then "critical" else "high", e.srcIP, e.host, "",
              t.product + " reported " + OrAny(t.check) + " from " + e.srcIP,
              1, e.timestamp, e.timestamp, evidence, "sentinel|" + t.product + "|" + e.srcIP)
  }

  function Tripped(s: Sentry, h: seq<Event>, e: Event): Option<Detection>
  {
    if Passes(AlarmKey(s), s.cooldown, h, e) then Some(Relayed(s, e, Gathered(s, h + [e], e.srcIP))) else None
  }

  lemma GatheredSnoc(s: Sentry, h: seq<Event>, e: Event, a: string)
    ensures Gathered(s, h + [e], a) ==
            if e.srcIP == a && Passes(AlarmKey(s), s.cooldown, h, e) then Tracks.KeepEvidence(Gathered(s, h, a), e.raw, s.evidenceMax)
            else Gathered(s, h, a)
  {
    hide Passes, AlarmKey, Tracks.KeepEvidence;
    assert (h + [e])[..|h|] == h;
  }

  /**
   * A sister product's finding is relayed exactly when it is open, high or critical, and names an
   * address, and the last one of the product and the address, if any, is a cooldown ago.
   */
  lemma TrippedIff(s: Sentry, h: seq<Event>, e: Event)
    ensures var t := s.tailOf(if e.message == "" then e.raw else e.message);
            var key := "sentinel:" + t.product + ":" + e.srcIP;
            && (Tripped(s, h, e).Some? <==>
                  && t.product != "" && t.status != "resolved" && t.severity in {"critical", "high"} && e.srcIP != ""
                  && forall i: nat :: LastReport(AlarmKey(s), s.cooldown, h, key, i) ==> e.timestamp - h[i].timestamp >= s.cooldown)
            && (Tripped(s, h, e).Some? ==>
                  var d := Tripped(s, h, e).value;
                  && d.kind == Sentinel && d.severity == t.severity && d.actor == e.srcIP && d.target == e.host && d.user == ""
                  && d.title == t.product + " reported " + (if t.check == "" then "any" else t.check) + " from " + e.srcIP
                  && d.count == 1 && d.firstAt == d.lastAt == e.timestamp && d.key == "sentinel|" + t.product + "|" + e.srcIP)
  {
    var t := s.TailOf(e);
    var key := "sentinel:" + t.product + ":" + e.srcIP;
    LastPassedIs(AlarmKey(s), s.cooldown, h, key);
    LastReportOne(AlarmKey(s), s.cooldown, h, key);
    hide LastPassed, LastReport, Gathered;
  }

  class SentinelDetector {
    const sentry: Sentry
    const cool: Cooldown
    var evid: map<string, seq<string>>
    ghost var history: seq<Event>

    ghost predicate Valid()
      reads this, cool
    {
      && cool.d == sentry.cooldown
      && (forall k :: cool.LastOf(k) == LastPassed(AlarmKey(sentry), sentry.cooldown, history, k))
      && forall a :: At(evid, a) == Gathered(sentry, history, a)
    }

    constructor (sentry: Sentry)
      ensures Valid() && history == [] && this.sentry == sentry && fresh(cool)
    {
      this.sentry := sentry;
      cool := new Cooldown(sentry.cooldown);
      evid, history := map[], [];
    }

    method Observe(e: Event) returns (r: Option<Detection>)
      requires Valid()
      modifies this, cool
      ensures Valid() && history == old(history) + [e]
      ensures r == Tripped(sentry, old(history), e)
    {
      hide Rested, LastPassed, Gathered, Tracks.KeepEvidence;
      r := None;
      var t := sentry.tailOf(if e.message == "" then e.raw else e.message);
      if t.product != "" && t.status != "resolved" && (t.severity == "critical" || t.severity == "high") && e.srcIP != "" {
        var ok := cool.Firable("sentinel:" + t.product + ":" + e.srcIP, e.timestamp);
        if ok {
          evid := evid[e.srcIP := Tracks.KeepEvidence(At(evid, e.srcIP), e.raw, sentry.evidenceMax)];
          r := Some(Detection(Sentinel, if t.severity == "critical" then "critical" else "high", e.srcIP, e.host, "",
                              t.product + " reported " + OrAny(t.check) + " from " + e.srcIP,
                              1, e.timestamp, e.timestamp, evid[e.srcIP], "sentinel|" + t.product + "|" + e.srcIP));
        }
      }
      forall k ensures cool.LastOf(k) == LastPassed(AlarmKey(sentry), sentry.cooldown, history + [e], k) {
        PassedSnoc(AlarmKey(sentry), sentry.cooldown, history, e, k);
      }
      forall a ensures At(evid, a) == Gathered(sentry, history + [e], a) {
        GatheredSnoc(sentry, history, e, a);
      }
      history := history + [e];
    }
  }
}
