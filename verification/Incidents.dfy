/** Detectors and correlator together: the incidents of a run of raw events, and nothing else. */
module Incidents {
  import opened Wire
  import opened Events
  import opened Detections
  import opened C = Correlator
  import Alerts
  import D = Detectors
  import opened Engine
  import LogStore
  import P = Pipeline
  import R = RawDetectors
  import Windows

  /** The detectors' settings and the correlator's. */
  datatype Setup = Setup(tuning: Tuning, corr: C.Config)

  function BruteOn(s: Setup, h: seq<Event>, e: Event): Option<Detection>
  {
    D.Emit(D.Brute, s.tuning.detect, h, e)
  }

  function ScanOn(s: Setup, h: seq<Event>, e: Event): Option<Detection>
  {
    D.Emit(D.Scan, s.tuning.detect, h, e)
  }

  function TripOn(s: Setup, h: seq<Event>, e: Event): Option<Detection>
  {
    Alerts.Tripped(s.tuning.AsSentry(), h, e)
  }

  // --- the memory after a run of events ---------------------------------------------------

  function Noted(m: Memory, d: Option<Detection>): Memory
  {
    if d.Some? then m.(states := m.states[d.value.actor := Note(StateOf(m, d.value.actor), d.value)]) else m
  }

  /** What the correlator remembers when it is told of a sister product's finding on e. */
  function Primed(s: Setup, m: Memory, h: seq<Event>, e: Event): Memory
  {
    Noted(Noted(m, BruteOn(s, h, e)), ScanOn(s, h, e))
  }

  function AfterTrip(c: C.Config, m: Memory, trip: Option<Detection>): Memory
  {
    if trip.Some? then Step(c, m, Tripped(trip.value)) else m
  }

  function AfterLogin(c: C.Config, m: Memory, e: Event): Memory
  {
    if e.auth == Success then Step(c, m, P.Login(e)) else m
  }

  function After(s: Setup, h: seq<Event>): Memory
  {
    if h == [] then Memory(map[], map[])
    else
      var front, e := h[..|h| - 1], h[|h| - 1];
      AfterLogin(s.corr, AfterTrip(s.corr, Primed(s, After(s, front), front, e), TripOn(s, front, e)), e)
  }

  function OfTrip(c: C.Config, m: Memory, trip: Option<Detection>): Option<Incident>
  {
    if trip.Some? then Raise(c, m, Tripped(trip.value)) else None
  }

  function OfLogin(c: C.Config, m: Memory, e: Event): Option<Incident>
  {
    if e.auth == Success then Raise(c, m, P.Login(e)) else None
  }

  /** The incident that e raises after the events h, whichever of the two ways. */
  function Raised(s: Setup, h: seq<Event>, e: Event): Option<Incident>
  {
    var m, trip := Primed(s, After(s, h), h, e), TripOn(s, h, e);
    if OfTrip(s.corr, m, trip).Some? then OfTrip(s.corr, m, trip) else OfLogin(s.corr, AfterTrip(s.corr, m, trip), e)
  }

  // --- the history-only specification --------------------------------------------------------

  /** The detector fires on e for the actor a. */
  predicate FiresFor(s: Setup, dt: D.Detector, h: seq<Event>, e: Event, a: string)
  {
    D.KeyOf(dt, e) == Some(a) && D.Emit(dt, s.tuning.detect, h, e).Some?
  }

  /** The last event from position n on at which it does. */
  function LastFiring(s: Setup, dt: D.Detector, h: seq<Event>, a: string, n: nat): (r: Option<nat>)
    ensures r.Some? ==> n <= r.value < |h| && FiresFor(s, dt, h[..r.value], h[r.value], a)
  {
    if |h| <= n then None
    else if FiresFor(s, dt, h[..|h| - 1], h[|h| - 1], a) then Some(|h| - 1)
    else
      var r := LastFiring(s, dt, h[..|h| - 1], a, n);
      assert r.Some? ==> h[..|h| - 1][..r.value] == h[..r.value];
      r
  }

  /** The last host named by an event at which the actor scanned or tried passwords. */
  function LastHost(s: Setup, h: seq<Event>, a: string, n: nat): string
  {
    if |h| <= n then ""
    else
      var front, e := h[..|h| - 1], h[|h| - 1];
      if (FiresFor(s, D.Brute, front, e, a) || FiresFor(s, D.Scan, front, e, a)) && e.host != "" then e.host
      else LastHost(s, front, a, n)
  }

  function FiredAt(s: Setup, dt: D.Detector, h: seq<Event>, i: nat): Option<Detection>
    requires i < |h|
  {
    D.Emit(dt, s.tuning.detect, h[..i], h[i])
  }

  /** What the events from position n on leave to remember of a. */
  function Recalled(s: Setup, h: seq<Event>, a: string, n: nat): ActorState
  {
    var scan, brute := LastFiring(s, D.Scan, h, a, n), LastFiring(s, D.Brute, h, a, n);
    ActorState(if scan.Some? then h[scan.value].timestamp else 0,
               if scan.Some? then FiredAt(s, D.Scan, h, scan.value).value.title else "",
               if brute.Some? then h[brute.value].timestamp else 0,
               if brute.Some? then FiredAt(s, D.Brute, h, brute.value) else None,
               LastHost(s, h, a, n))
  }

  /** A firing from position n on is within reach of the time at. */
  predicate Reaches(s: Setup, dt: D.Detector, h: seq<Event>, a: string, n: nat, at: int)
  {
    var i := LastFiring(s, dt, h, a, n);
    i.Some? && (dt == D.Scan ==> h[i.value].timestamp != 0) && h[i.value].timestamp <= at <= h[i.value].timestamp + s.corr.window
  }

  /** One past the last event that raised an incident of a. */
  ghost function Since(s: Setup, h: seq<Event>, a: string): (n: nat)
    ensures n <= |h|
    decreases |h|, 0
  {
    if h == [] then 0
    else if Actor(h[|h| - 1]) == a && Closes(s, h[..|h| - 1], h[|h| - 1]) then |h|
    else Since(s, h[..|h| - 1], a)
  }

  ghost function LastIncident(s: Setup, h: seq<Event>, a: string): Option<int>
    decreases |h|, 0
  {
    if h == [] then None
    else if Actor(h[|h| - 1]) == a && Closes(s, h[..|h| - 1], h[|h| - 1]) then Some(h[|h| - 1].timestamp)
    else LastIncident(s, h[..|h| - 1], a)
  }

  /**
   * The event e closes a chain of its actor: it trips a sister product's alarm after a scan or a
   * brute force, or logs in after a brute force - counting from the actor's last incident, e
   * included - and that incident is a cooldown ago.
   */
  ghost predicate Closes(s: Setup, h: seq<Event>, e: Event)
    decreases |h|, 1
  {
    var a, n := Actor(e), Since(s, h, Actor(e));
    && Windows.Rested(LastIncident(s, h, a), e.timestamp, s.corr.cool)
    && (Deceived(s, h, e, n) || (e.auth == Success && Reaches(s, D.Brute, h + [e], a, n, e.timestamp)))
  }

  predicate Deceived(s: Setup, h: seq<Event>, e: Event, n: nat)
  {
    && TripOn(s, h, e).Some?
    && (Reaches(s, D.Scan, h + [e], Actor(e), n, e.timestamp) || Reaches(s, D.Brute, h + [e], Actor(e), n, e.timestamp))
  }

  /** And this is the incident. */
  ghost function ChainOf(s: Setup, h: seq<Event>, e: Event): Option<Incident>
  {
    var n := Since(s, h, Actor(e));
    var known := Recalled(s, h + [e], Actor(e), n);
    if !Closes(s, h, e) then None
    else if Deceived(s, h, e, n) then
      RecallReaches(s, h + [e], Actor(e), n, e.timestamp);
      TripParts(s, h, e);
      Some(Deception(s.corr, known, TripOn(s, h, e).value))
    else
      RecallReaches(s, h + [e], Actor(e), n, e.timestamp);
      Some(Intrusion(s.corr, known, P.Login(e)))
  }

  // --- parts -----------------------------------------------------------------------------------

  lemma TripParts(s: Setup, h: seq<Event>, e: Event)
    ensures var d := TripOn(s, h, e);
            d.Some? ==> d.value.kind == Sentinel && d.value.actor == Actor(e) != "" && d.value.lastAt == e.timestamp
  {
  }

  /** What a brute force or a scan says of itself. */
  lemma FiringParts(s: Setup, dt: D.Detector, h: seq<Event>, e: Event)
    requires dt != D.Spike
    ensures var d := D.Emit(dt, s.tuning.detect, h, e);
            d.Some? ==>
              && d.value.kind == (if dt == D.Brute then BruteForce else PortScan)
              && d.value.actor == Actor(e) && D.KeyOf(dt, e) == Some(Actor(e))
              && d.value.lastAt == e.timestamp && d.value.target == e.host
  {
    hide D.TrackOf, Tracks.Ready, Tracks.Add;
  }

  lemma LastFiringIn(s: Setup, dt: D.Detector, h: seq<Event>, e: Event, a: string, n: nat)
    requires n <= |h|
    ensures LastFiring(s, dt, h + [e], a, n) == if FiresFor(s, dt, h, e, a) then Some(|h|) else LastFiring(s, dt, h, a, n)
  {
    hide FiresFor;
    assert (h + [e])[..|h|] == h;
  }

  lemma LastHostIn(s: Setup, h: seq<Event>, e: Event, a: string, n: nat)
    requires n <= |h|
    ensures LastHost(s, h + [e], a, n) ==
            if (FiresFor(s, D.Brute, h, e, a) || FiresFor(s, D.Scan, h, e, a)) && e.host != "" then e.host else LastHost(s, h, a, n)
  {
    hide FiresFor;
    assert (h + [e])[..|h|] == h;
  }

  lemma FiredAtIn(s: Setup, dt: D.Detector, h: seq<Event>, e: Event, i: nat)
    requires i <= |h|
    ensures FiredAt(s, dt, h + [e], i) == if i == |h| then D.Emit(dt, s.tuning.detect, h, e) else FiredAt(s, dt, h, i)
  {
    hide D.Emit;
    assert (h + [e])[..i] == h[..i];
  }

  lemma RecallReaches(s: Setup, h: seq<Event>, a: string, n: nat, at: int)
    ensures HasScan(s.corr, Recalled(s, h, a, n), at) <==> Reaches(s, D.Scan, h, a, n, at)
    ensures HasBrute(s.corr, Recalled(s, h, a, n), at) <==> Reaches(s, D.Brute, h, a, n, at)
  {
    hide LastHost, D.Emit;
  }

  // --- refinement --------------------------------------------------------------------------------

  function NoteOf(st: ActorState, d: Option<Detection>): ActorState
  {
    if d.Some? then Note(st, d.value) else st
  }

  lemma NotedState(m: Memory, d: Option<Detection>, a: string)
    ensures StateOf(Noted(m, d), a) == if d.Some? && d.value.actor == a then NoteOf(StateOf(m, a), d) else StateOf(m, a)
    ensures Noted(m, d).fired == m.fired
  {
  }

  lemma PrimedState(s: Setup, m: Memory, h: seq<Event>, e: Event, a: string)
    ensures StateOf(Primed(s, m, h, e), a) ==
            if a == Actor(e) then NoteOf(NoteOf(StateOf(m, a), BruteOn(s, h, e)), ScanOn(s, h, e)) else StateOf(m, a)
    ensures Primed(s, m, h, e).fired == m.fired
  {
    hide D.Emit, Noted, StateOf, Note, Actor;
    FiringParts(s, D.Brute, h, e);
    FiringParts(s, D.Scan, h, e);
    NotedState(m, BruteOn(s, h, e), a);
    NotedState(Noted(m, BruteOn(s, h, e)), ScanOn(s, h, e), a);
  }

  lemma FiresForIff(s: Setup, dt: D.Detector, h: seq<Event>, e: Event, a: string)
    requires dt != D.Spike
    ensures FiresFor(s, dt, h, e, a) <==> D.Emit(dt, s.tuning.detect, h, e).Some? && a == Actor(e)
  {
    FiringParts(s, dt, h, e);
    hide D.Emit, D.KeyOf, Actor;
  }

  lemma RecalledIn(s: Setup, h: seq<Event>, e: Event, a: string, n: nat)
    requires n <= |h|
    ensures Recalled(s, h + [e], a, n) ==
            if a == Actor(e) then NoteOf(NoteOf(Recalled(s, h, a, n), BruteOn(s, h, e)), ScanOn(s, h, e)) else Recalled(s, h, a, n)
  {
    FiresForIff(s, D.Brute, h, e, a);
    FiresForIff(s, D.Scan, h, e, a);
    LastFiringIn(s, D.Brute, h, e, a, n);
    LastFiringIn(s, D.Scan, h, e, a, n);
    LastHostIn(s, h, e, a, n);
    FiringParts(s, D.Brute, h, e);
    FiringParts(s, D.Scan, h, e);
    hide D.Emit, FiresFor, LastHost, D.KeyOf, Actor, FiredAt;
    var brute, scan := LastFiring(s, D.Brute, h + [e], a, n), LastFiring(s, D.Scan, h + [e], a, n);
    if brute.Some? {
      FiredAtIn(s, D.Brute, h, e, brute.value);
    }
    if scan.Some? {
      FiredAtIn(s, D.Scan, h, e, scan.value);
    }
    hide LastFiring;
  }

  /** What is remembered of a is what its events since its last incident leave. */
  ghost predicate Remembered(s: Setup, h: seq<Event>, a: string, m: Memory)
  {
    && StateOf(m, a) == Recalled(s, h, a, Since(s, h, a))
    && LastIncident(s, h, a) == if a in m.fired then Some(m.fired[a]) else None
  }

  /** An event raises one incident at most: an alarm that closes a chain leaves nothing for a login. */
  lemma Settled(c: C.Config, m: Memory, trip: Option<Detection>, e: Event)
    requires trip.Some? ==> trip.value.kind == Sentinel && trip.value.actor == Actor(e) && trip.value.lastAt == e.timestamp
    ensures var byTrip, byLogin := trip.Some? && Completes(c, m, Tripped(trip.value)), e.auth == Success && Completes(c, m, P.Login(e));
            && AfterLogin(c, AfterTrip(c, m, trip), e) ==
                 (if byTrip || byLogin then Memory(m.states - {Actor(e)}, m.fired[Actor(e) := e.timestamp]) else m)
            && OfTrip(c, m, trip) == (if byTrip then Some(Deception(c, StateOf(m, Actor(e)), trip.value)) else None)
            && OfLogin(c, AfterTrip(c, m, trip), e) ==
                 if !byTrip && byLogin then Some(Intrusion(c, StateOf(m, Actor(e)), P.Login(e))) else None
  {
    hide Deception, Intrusion, HasScan, Within, Actor;
  }

  lemma Cooled(c: C.Config, m: Memory, a: string, at: int, last: Option<int>)
    requires last == if a in m.fired then Some(m.fired[a]) else None
    ensures CoolingDown(c, m, a, at) <==> !Windows.Rested(last, at, c.cool)
  {
  }

  /** On what the history calls for, completing a chain is closing one. */
  lemma CompletesIsCloses(s: Setup, h: seq<Event>, e: Event, m: Memory)
    requires Remembered(s, h, Actor(e), m)
    ensures var p, trip, n := Primed(s, m, h, e), TripOn(s, h, e), Since(s, h, Actor(e));
            && StateOf(p, Actor(e)) == Recalled(s, h + [e], Actor(e), n)
            && (Closes(s, h, e) <==>
                  (trip.Some? && Completes(s.corr, p, Tripped(trip.value))) || (e.auth == Success && Completes(s.corr, p, P.Login(e))))
            && (Closes(s, h, e) && Deceived(s, h, e, n) <==> trip.Some? && Completes(s.corr, p, Tripped(trip.value)))
  {
    var a, n := Actor(e), Since(s, h, Actor(e));
    TripParts(s, h, e);
    PrimedState(s, m, h, e, a);
    RecalledIn(s, h, e, a, n);
    RecallReaches(s, h + [e], a, n, e.timestamp);
    Cooled(s.corr, Primed(s, m, h, e), a, e.timestamp, LastIncident(s, h, a));
    hide Primed, Recalled, Since, LastIncident, Actor, HasScan, HasBrute, CoolingDown, Reaches, TripOn, Windows.Rested, StateOf;
  }

  lemma SinceIn(s: Setup, h: seq<Event>, e: Event, a: string)
    ensures var closes := Actor(e) == a && Closes(s, h, e);
            && Since(s, h + [e], a) == (if closes then |h| + 1 else Since(s, h, a))
            && LastIncident(s, h + [e], a) == if closes then Some(e.timestamp) else LastIncident(s, h, a)
  {
    hide Closes, Actor;
    assert (h + [e])[..|h|] == h;
  }

  lemma NothingRecalled(s: Setup, h: seq<Event>, a: string)
    ensures Recalled(s, h, a, |h|) == BLANK
  {
  }

  function Next(s: Setup, m: Memory, h: seq<Event>, e: Event): Memory
  {
    AfterLogin(s.corr, AfterTrip(s.corr, Primed(s, m, h, e), TripOn(s, h, e)), e)
  }

  lemma NextIs(s: Setup, h: seq<Event>, e: Event, m: Memory)
    requires Remembered(s, h, Actor(e), m)
    ensures var p := Primed(s, m, h, e);
            Next(s, m, h, e) == if Closes(s, h, e) then Memory(p.states - {Actor(e)}, p.fired[Actor(e) := e.timestamp]) else p
  {
    TripParts(s, h, e);
    Settled(s.corr, Primed(s, m, h, e), TripOn(s, h, e), e);
    CompletesIsCloses(s, h, e, m);
    hide Primed, TripOn, Completes, AfterLogin, AfterTrip, Closes, Actor, Deception, Intrusion;
  }

  lemma Forgotten(m: Memory, b: string, t: int, a: string)
    ensures StateOf(Memory(m.states - {b}, m.fired[b := t]), a) == if a == b then BLANK else StateOf(m, a)
  {
  }

  lemma RemembersNext(s: Setup, h: seq<Event>, e: Event, a: string, m: Memory)
    requires Remembered(s, h, a, m) && Remembered(s, h, Actor(e), m)
    ensures Remembered(s, h + [e], a, Next(s, m, h, e))
  {
    var p := Primed(s, m, h, e);
    NextIs(s, h, e, m);
    CompletesIsCloses(s, h, e, m);
    SinceIn(s, h, e, a);
    PrimedState(s, m, h, e, a);
    RecalledIn(s, h, e, a, Since(s, h, a));
    Forgotten(p, Actor(e), e.timestamp, a);
    NothingRecalled(s, h + [e], a);
    hide Recalled, Since, LastIncident, Closes, StateOf, Next, Primed, Actor, Completes, NoteOf, Deceived, TripOn, BruteOn, ScanOn;
  }

  /** In every reachable state an actor's record is what its raw events call for. */
  lemma {:induction false} Remembers(s: Setup, h: seq<Event>, a: string)
    ensures Remembered(s, h, a, After(s, h))
  {
    hide *;
    if h == [] {
      RemembersNothing(s, a);
    } else {
      var front, e := h[..|h| - 1], h[|h| - 1];
      Remembers(s, front, a);
      Remembers(s, front, Actor(e));
      RemembersNext(s, front, e, a, After(s, front));
      AfterIsNext(s, h);
      assert front + [e] == h;
    }
  }

  lemma RemembersNothing(s: Setup, a: string)
    ensures Remembered(s, [], a, After(s, []))
  {
  }

  lemma AfterIsNext(s: Setup, h: seq<Event>)
    requires h != []
    ensures After(s, h) == Next(s, After(s, h[..|h| - 1]), h[..|h| - 1], h[|h| - 1])
  {
    hide AfterLogin, AfterTrip, Primed, TripOn;
  }

  /**
   * After any run of events an event raises an incident exactly when it closes a chain, counted
   * over the raw events, and the incident is the one that they call for.
   */
  lemma IncidentIff(s: Setup, h: seq<Event>, e: Event)
    ensures Raised(s, h, e) == ChainOf(s, h, e)
    ensures Raised(s, h, e).Some? <==> Closes(s, h, e)
    ensures Raised(s, h, e).Some? ==> Tells(s, h, e, Raised(s, h, e).value)
  {
    if Closes(s, h, e) {
      ChainTells(s, h, e);
    }
    var m := After(s, h);
    Remembers(s, h, Actor(e));
    TripParts(s, h, e);
    Settled(s.corr, Primed(s, m, h, e), TripOn(s, h, e), e);
    CompletesIsCloses(s, h, e, m);
    hide Primed, TripOn, Completes, AfterLogin, AfterTrip, Closes, Actor, After, OfTrip, OfLogin, Deception, Intrusion, Recalled, Since, Deceived, Tells;
  }

  // --- what an incident says ------------------------------------------------------------------

  /** When the scan of a chain must have been at the latest: before the brute force for a login. */
  function ScanDeadline(s: Setup, h: seq<Event>, a: string, n: nat, e: Event, byTrip: bool): int
  {
    var brute := LastFiring(s, D.Brute, h, a, n);
    if !byTrip && brute.Some? then h[brute.value].timestamp else e.timestamp
  }

  /** The line of a firing: when it was, and its title. */
  function LineOf(s: Setup, dt: D.Detector, h: seq<Event>, i: nat, stage: Stage): Member
    requires i < |h| && FiredAt(s, dt, h, i).Some?
  {
    Member(h[i].timestamp, stage, FiredAt(s, dt, h, i).value.title)
  }

  function LinesOf(s: Setup, dt: D.Detector, h: seq<Event>, a: string, n: nat, at: int, stage: Stage): seq<Member>
  {
    if Reaches(s, dt, h, a, n, at) then [LineOf(s, dt, h, LastFiring(s, dt, h, a, n).value, stage)] else []
  }

  function LoginNote(e: Event, target: string): string
  {
    var place := if target == "" then "the host" else target;
    if e.user != "" then "successful login as " + e.user + " on " + place
    else if e.raw != "" then e.raw else "successful login on " + place
  }

  /**
   * The incident that e raises: critical after an alarm, or when a scan led up to the brute force of
   * a login, and high otherwise; its timeline is the scan and the brute force that are within reach
   * and e itself, each with its time and its words; its target is e's host, or the last one named.
   */
  ghost predicate Tells(s: Setup, h: seq<Event>, e: Event, inc: Incident)
  {
    var a, n, all, byTrip := Actor(e), Since(s, h, Actor(e)), h + [e], Deceived(s, h, e, Since(s, h, Actor(e)));
    var deadline := ScanDeadline(s, all, a, n, e, byTrip);
    var scan, brute := LinesOf(s, D.Scan, all, a, n, deadline, ScanStage), LinesOf(s, D.Brute, all, a, n, e.timestamp, BruteStage);
    && inc.actor == a && inc.lastAt == e.timestamp && inc.key == "killchain|" + a
    && inc.target == (if e.host != "" then e.host else LastHost(s, all, a, n))
    && inc.severity == (if byTrip || scan != [] then "critical" else "high")
    && inc.members == scan + brute +
         [if byTrip then Member(e.timestamp, DeceptionStage, TripOn(s, h, e).value.title)
          else Member(e.timestamp, SuccessStage, LoginNote(e, inc.target))]
    && StagesMatch(inc)
  }

  predicate StagesMatch(inc: Incident)
  {
    |inc.stages| == |inc.members| && forall i :: 0 <= i < |inc.stages| ==> inc.stages[i] == inc.members[i].stage
  }

  lemma RecalledLine(s: Setup, h: seq<Event>, a: string, n: nat)
    ensures var st, i := Recalled(s, h, a, n), LastFiring(s, D.Scan, h, a, n);
            i.Some? ==> FiredAt(s, D.Scan, h, i.value).Some? && ScanMember(st) == LineOf(s, D.Scan, h, i.value, ScanStage)
    ensures var st, i := Recalled(s, h, a, n), LastFiring(s, D.Brute, h, a, n);
            i.Some? ==> FiredAt(s, D.Brute, h, i.value).Some? && st.brute.Some? && st.bruteAt == h[i.value].timestamp
                        && BruteMember(st) == LineOf(s, D.Brute, h, i.value, BruteStage)
    ensures Recalled(s, h, a, n).target == LastHost(s, h, a, n)
  {
    hide LastHost, D.Emit, D.KeyOf;
  }

  lemma RecalledLinesOf(s: Setup, h: seq<Event>, a: string, n: nat, at: int)
    ensures var st := Recalled(s, h, a, n);
            LinesOf(s, D.Scan, h, a, n, at, ScanStage) == if HasScan(s.corr, st, at) then [ScanMember(st)] else []
    ensures var st := Recalled(s, h, a, n);
            LinesOf(s, D.Brute, h, a, n, at, BruteStage) == if HasBrute(s.corr, st, at) then [BruteMember(st)] else []
  {
    RecallReaches(s, h, a, n, at);
    RecalledLine(s, h, a, n);
    hide LastFiring, Recalled, LineOf, FiredAt, ScanMember, BruteMember, HasScan;
  }

  lemma DeceptionShape(c: C.Config, st: ActorState, d: Detection)
    requires HasScan(c, st, d.lastAt) || HasBrute(c, st, d.lastAt)
    ensures var inc := Deception(c, st, d);
            && inc.actor == d.actor && inc.lastAt == d.lastAt && inc.key == "killchain|" + d.actor && inc.severity == "critical"
            && inc.target == (if d.target != "" then d.target else st.target) && StagesMatch(inc)
            && inc.members == (if HasScan(c, st, d.lastAt) then [ScanMember(st)] else []) +
                 (if HasBrute(c, st, d.lastAt) then [BruteMember(st)] else []) + [Member(d.lastAt, DeceptionStage, d.title)]
  {
    hide HasScan, ScanMember, BruteMember;
  }

  lemma IntrusionShape(c: C.Config, st: ActorState, e: Event)
    requires st.brute.Some?
    ensures var inc := Intrusion(c, st, P.Login(e));
            && inc.actor == Actor(e) && inc.lastAt == e.timestamp && inc.key == "killchain|" + Actor(e)
            && inc.severity == (if HasScan(c, st, st.bruteAt) then "critical" else "high")
            && inc.target == (if e.host != "" then e.host else st.target) && StagesMatch(inc)
            && inc.members == (if HasScan(c, st, st.bruteAt) then [ScanMember(st)] else []) + [BruteMember(st)] +
                 [Member(e.timestamp, SuccessStage, LoginNote(e, inc.target))]
  {
    LoginNoted(e, if e.host != "" then e.host else st.target);
    hide HasScan, ScanMember, BruteMember, Actor, SuccessNote, LoginNote;
    var inc := Intrusion(c, st, P.Login(e));
    assert inc.members == (if HasScan(c, st, st.bruteAt) then [ScanMember(st)] else []) +
                          ([BruteMember(st)] + [Member(e.timestamp, SuccessStage, LoginNote(e, inc.target))]);
  }

  lemma TripTells(s: Setup, h: seq<Event>, e: Event)
    requires Closes(s, h, e) && Deceived(s, h, e, Since(s, h, Actor(e)))
    ensures ChainOf(s, h, e).Some? && Tells(s, h, e, ChainOf(s, h, e).value)
  {
    var a, n, all := Actor(e), Since(s, h, Actor(e)), h + [e];
    var known := Recalled(s, all, a, n);
    RecalledLine(s, all, a, n);
    RecallReaches(s, all, a, n, e.timestamp);
    RecalledLinesOf(s, all, a, n, e.timestamp);
    TripParts(s, h, e);
    TripTarget(s, h, e);
    DeceptionShape(s.corr, known, TripOn(s, h, e).value);
    hide Closes, Recalled, Since, Actor, LinesOf, LineOf, LastFiring, LastHost, HasScan, HasBrute, ScanMember, BruteMember, TripOn, Reaches, Deception, StagesMatch, LoginNote;
  }

  lemma LoginParts(s: Setup, h: seq<Event>, e: Event)
    requires Closes(s, h, e) && !Deceived(s, h, e, Since(s, h, Actor(e)))
    ensures var a, n, all := Actor(e), Since(s, h, Actor(e)), h + [e];
            && Reaches(s, D.Brute, all, a, n, e.timestamp) && LastFiring(s, D.Brute, all, a, n).Some?
            && ScanDeadline(s, all, a, n, e, false) == Recalled(s, all, a, n).bruteAt
  {
    RecalledLine(s, h + [e], Actor(e), Since(s, h, Actor(e)));
    hide Deceived, Recalled, Since, LastFiring, Actor;
  }

  /** What the incident of a login has to say, part by part. */
  lemma LoginTold(s: Setup, h: seq<Event>, e: Event, inc: Incident, scan: seq<Member>, brute: seq<Member>)
    requires !Deceived(s, h, e, Since(s, h, Actor(e)))
    requires var a, n, all := Actor(e), Since(s, h, Actor(e)), h + [e];
             && scan == LinesOf(s, D.Scan, all, a, n, ScanDeadline(s, all, a, n, e, false), ScanStage)
             && brute == LinesOf(s, D.Brute, all, a, n, e.timestamp, BruteStage)
             && inc.target == (if e.host != "" then e.host else LastHost(s, all, a, n))
    requires inc.actor == Actor(e) && inc.lastAt == e.timestamp && inc.key == "killchain|" + Actor(e) && StagesMatch(inc)
    requires inc.severity == if scan != [] then "critical" else "high"
    requires inc.members == scan + brute + [Member(e.timestamp, SuccessStage, LoginNote(e, inc.target))]
    ensures Tells(s, h, e, inc)
  {
    hide Deceived, Since, Actor, LinesOf, ScanDeadline, LastHost, StagesMatch, LoginNote, TripOn;
  }

  lemma ChainOfLogin(s: Setup, h: seq<Event>, e: Event)
    requires Closes(s, h, e) && !Deceived(s, h, e, Since(s, h, Actor(e)))
    ensures var known := Recalled(s, h + [e], Actor(e), Since(s, h, Actor(e)));
            known.brute.Some? && P.Login(e).LoggedIn? && ChainOf(s, h, e) == Some(Intrusion(s.corr, known, P.Login(e)))
  {
    RecallReaches(s, h + [e], Actor(e), Since(s, h, Actor(e)), e.timestamp);
    hide Deceived, Since, Actor, Recalled, Reaches, Intrusion;
  }

  lemma LoginTells(s: Setup, h: seq<Event>, e: Event)
    requires Closes(s, h, e) && !Deceived(s, h, e, Since(s, h, Actor(e)))
    ensures ChainOf(s, h, e).Some? && Tells(s, h, e, ChainOf(s, h, e).value)
  {
    hide *;
    var a, n, all := Actor(e), Since(s, h, Actor(e)), h + [e];
    var known := Recalled(s, all, a, n);
    LoginParts(s, h, e);
    RecalledLine(s, all, a, n);
    RecallReaches(s, all, a, n, e.timestamp);
    RecalledLinesOf(s, all, a, n, e.timestamp);
    RecalledLinesOf(s, all, a, n, known.bruteAt);
    ChainOfLogin(s, h, e);
    IntrusionShape(s.corr, known, e);
    LoginTold(s, h, e, Intrusion(s.corr, known, P.Login(e)),
              if HasScan(s.corr, known, known.bruteAt) then [ScanMember(known)] else [], [BruteMember(known)]);
  }

  lemma ChainTells(s: Setup, h: seq<Event>, e: Event)
    requires Closes(s, h, e)
    ensures ChainOf(s, h, e).Some? && Tells(s, h, e, ChainOf(s, h, e).value)
  {
    hide *;
    if Deceived(s, h, e, Since(s, h, Actor(e))) {
      TripTells(s, h, e);
    } else {
      LoginTells(s, h, e);
    }
  }

  lemma LoginNoted(e: Event, target: string)
    ensures SuccessNote(e.user, target, e.raw) == LoginNote(e, target)
  {
  }

  lemma TripTarget(s: Setup, h: seq<Event>, e: Event)
    ensures TripOn(s, h, e).Some? ==> TripOn(s, h, e).value.target == e.host
  {
  }

  /**
   * The firings that count are themselves counted over the raw events: while the events of the
   * actor keep the order its window needs, a brute force fires exactly when the failed logins since
   * its last firing are enough, and a scan when the different ports are.
   */
  lemma FiringIff(s: Setup, h: seq<Event>, e: Event, a: string)
    ensures R.InOrder(R.BruteWatch(s.tuning.detect, a), h + [e]) ==>
              (FiresFor(s, D.Brute, h, e, a) <==> R.Due(R.BruteWatch(s.tuning.detect, a), h, e))
    ensures R.InOrder(R.ScanWatch(s.tuning.detect, a), h + [e]) ==>
              (FiresFor(s, D.Scan, h, e, a) <==> R.Due(R.ScanWatch(s.tuning.detect, a), h, e))
  {
    var c := s.tuning.detect;
    R.BruteWatched(c, a);
    R.ScanWatched(c, a);
    FiringWatched(s, D.Brute, h, e, a, R.BruteWatch(c, a));
    FiringWatched(s, D.Scan, h, e, a, R.ScanWatch(c, a));
    hide FiresFor, R.Due, R.InOrder, R.Watches;
  }

  lemma FiringWatched(s: Setup, dt: D.Detector, h: seq<Event>, e: Event, a: string, w: R.Watch)
    requires R.Watches(dt, s.tuning.detect, a, w)
    ensures R.InOrder(w, h + [e]) ==> (FiresFor(s, dt, h, e, a) <==> R.Due(w, h, e))
  {
    assert w.counts(e) <==> D.KeyOf(dt, e) == Some(a);
    if R.InOrder(w, h + [e]) {
      if w.counts(e) {
        R.EmitsDue(dt, s.tuning.detect, a, w, h, e);
      } else {
        R.NotDue(w, h, e);
      }
    }
    hide R.Due, R.InOrder, R.Watches, D.Emit, D.KeyOf;
  }

  // --- and what the pipeline writes of it -----------------------------------------------------------

  function RecordsOf(source: string, ds: seq<Detection>, words: P.Wording): seq<LogStore.DetectionRecord>
  {
    seq(|ds|, i requires 0 <= i < |ds| => P.OfDetection(source, ds[i], words))
  }

  lemma {:induction false} HandledAppend(c: C.Config, m: Memory, source: string, ds: seq<Detection>, more: seq<Detection>, words: P.Wording)
    ensures P.MemoryAfter(c, m, ds + more) == P.MemoryAfter(c, P.MemoryAfter(c, m, ds), more)
    ensures P.Detected(c, m, source, ds + more, words) ==
            P.Detected(c, m, source, ds, words) + P.Detected(c, P.MemoryAfter(c, m, ds), source, more, words)
  {
    hide P.OneDetection, P.AfterDetection;
    if more == [] {
      assert ds + more == ds;
    } else {
      var init := more[..|more| - 1];
      assert (ds + more)[..|ds + more| - 1] == ds + init;
      HandledAppend(c, m, source, ds, init, words);
    }
  }

  lemma OneHandled(c: C.Config, m: Memory, source: string, d: Detection, words: P.Wording)
    ensures P.MemoryAfter(c, m, [d]) == P.AfterDetection(c, m, d)
    ensures P.Detected(c, m, source, [d], words) == P.OneDetection(c, m, source, d, words)
  {
    hide P.OneDetection, P.AfterDetection;
    assert [d][..0] == [];
  }

  lemma HandledKind(c: C.Config, m: Memory, source: string, d: Detection, words: P.Wording)
    ensures P.AfterDetection(c, m, d) ==
            if d.kind in {BruteForce, PortScan} then Noted(m, Some(d)) else if d.kind == Sentinel then AfterTrip(c, m, Some(d)) else m
    ensures P.OneDetection(c, m, source, d, words) ==
            [P.OfDetection(source, d, words)] + if d.kind == Sentinel then P.Chain(source, OfTrip(c, m, Some(d)), words) else []
  {
    hide HasScan, HasBrute, StateOf, CoolingDown, Note, P.OfDetection, P.OfIncident;
  }

  predicate Plays(d: Detection)
  {
    d.kind in {BruteForce, PortScan, Sentinel}
  }

  lemma {:induction false} QuietHandled(c: C.Config, m: Memory, source: string, ds: seq<Detection>, words: P.Wording)
    requires forall i :: 0 <= i < |ds| ==> !Plays(ds[i])
    ensures P.MemoryAfter(c, m, ds) == m
    ensures P.Detected(c, m, source, ds, words) == RecordsOf(source, ds, words)
  {
    hide P.OneDetection, P.AfterDetection, P.OfDetection;
    if ds != [] {
      QuietHandled(c, m, source, ds[..|ds| - 1], words);
      HandledKind(c, m, source, ds[|ds| - 1], words);
    }
  }

  /** A brute force or a scan, if there is one. */
  lemma NotedHandled(c: C.Config, m: Memory, source: string, d: Option<Detection>, words: P.Wording)
    requires d.Some? ==> d.value.kind in {BruteForce, PortScan}
    ensures P.MemoryAfter(c, m, Listed(d)) == Noted(m, d)
    ensures P.Detected(c, m, source, Listed(d), words) == RecordsOf(source, Listed(d), words)
  {
    if d.Some? {
      OneHandled(c, m, source, d.value, words);
      HandledKind(c, m, source, d.value, words);
    }
    hide P.OneDetection, P.AfterDetection, P.OfDetection;
  }

  lemma TripHandled(c: C.Config, m: Memory, source: string, d: Option<Detection>, words: P.Wording)
    requires d.Some? ==> d.value.kind == Sentinel
    ensures P.MemoryAfter(c, m, Listed(d)) == AfterTrip(c, m, d)
    ensures P.Detected(c, m, source, Listed(d), words) ==
            RecordsOf(source, Listed(d), words) + P.Chain(source, OfTrip(c, m, d), words)
  {
    if d.Some? {
      OneHandled(c, m, source, d.value, words);
      HandledKind(c, m, source, d.value, words);
    }
    hide P.OneDetection, P.AfterDetection, P.OfDetection, AfterTrip, Raise, P.OfIncident;
  }

  /** What is fired on e up to the alarm, and after it. */
  function Before(s: Setup, h: seq<Event>, e: Event, x: Others): seq<Detection>
  {
    Listed(BruteOn(s, h, e)) + Listed(ScanOn(s, h, e)) + (Listed(x.exfil) + Listed(x.admin) + Listed(x.spike)) + Listed(TripOn(s, h, e))
  }

  function Behind(x: Others): seq<Detection>
  {
    Listed(x.beacon) + Listed(x.service)
  }

  lemma FiredSplit(s: Setup, h: seq<Event>, e: Event, x: Others)
    ensures Fired(s.tuning, h, e, x) == Before(s, h, e, x) + Behind(x)
  {
    hide D.Emit, Alerts.Tripped, Listed;
  }

  lemma RecordsAppend(source: string, ds: seq<Detection>, more: seq<Detection>, words: P.Wording)
    ensures RecordsOf(source, ds + more, words) == RecordsOf(source, ds, words) + RecordsOf(source, more, words)
  {
    hide P.OfDetection;
  }

  /** From the memory m, ds lead to the memory last and to the records out. */
  ghost predicate Leads(c: C.Config, m: Memory, source: string, ds: seq<Detection>, words: P.Wording,
                        last: Memory, out: seq<LogStore.DetectionRecord>)
  {
    P.MemoryAfter(c, m, ds) == last && P.Detected(c, m, source, ds, words) == out
  }

  lemma LeadsOn(c: C.Config, m: Memory, source: string, ds: seq<Detection>, more: seq<Detection>, words: P.Wording,
                mid: Memory, out: seq<LogStore.DetectionRecord>, last: Memory, rest: seq<LogStore.DetectionRecord>)
    requires Leads(c, m, source, ds, words, mid, out) && Leads(c, mid, source, more, words, last, rest)
    ensures Leads(c, m, source, ds + more, words, last, out + rest)
  {
    HandledAppend(c, m, source, ds, more, words);
    hide P.MemoryAfter, P.Detected;
  }

  lemma RecordsLead(c: C.Config, m: Memory, source: string, ds: seq<Detection>, more: seq<Detection>, words: P.Wording,
                    mid: Memory, last: Memory, rest: seq<LogStore.DetectionRecord>)
    requires Leads(c, m, source, ds, words, mid, RecordsOf(source, ds, words))
    requires Leads(c, mid, source, more, words, last, RecordsOf(source, more, words) + rest)
    ensures Leads(c, m, source, ds + more, words, last, RecordsOf(source, ds + more, words) + rest)
  {
    hide *;
    LeadsOn(c, m, source, ds, more, words, mid, RecordsOf(source, ds, words), last, RecordsOf(source, more, words) + rest);
    RecordsAppend(source, ds, more, words);
    Regrouped(RecordsOf(source, ds, words), RecordsOf(source, more, words), rest);
  }

  lemma Regrouped<T>(a: seq<T>, b: seq<T>, c: seq<T>)
    ensures a + (b + c) == a + b + c && a + [] == a
  {
  }

  lemma NotedLeads(c: C.Config, m: Memory, source: string, d: Option<Detection>, words: P.Wording)
    requires d.Some? ==> d.value.kind in {BruteForce, PortScan}
    ensures Leads(c, m, source, Listed(d), words, Noted(m, d), RecordsOf(source, Listed(d), words))
  {
    NotedHandled(c, m, source, d, words);
    hide P.MemoryAfter, P.Detected, RecordsOf, Noted;
  }

  lemma QuietLeads(c: C.Config, m: Memory, source: string, ds: seq<Detection>, words: P.Wording)
    requires forall i :: 0 <= i < |ds| ==> !Plays(ds[i])
    ensures Leads(c, m, source, ds, words, m, RecordsOf(source, ds, words))
  {
    QuietHandled(c, m, source, ds, words);
    hide P.MemoryAfter, P.Detected, RecordsOf;
  }

  lemma TripLeads(c: C.Config, m: Memory, source: string, d: Option<Detection>, words: P.Wording)
    requires d.Some? ==> d.value.kind == Sentinel
    ensures Leads(c, m, source, Listed(d), words, AfterTrip(c, m, d), RecordsOf(source, Listed(d), words) + P.Chain(source, OfTrip(c, m, d), words))
  {
    TripHandled(c, m, source, d, words);
    hide P.MemoryAfter, P.Detected, RecordsOf, AfterTrip, OfTrip, P.Chain;
  }

  lemma RecordsLeadOn(c: C.Config, m: Memory, source: string, ds: seq<Detection>, more: seq<Detection>, words: P.Wording, mid: Memory, last: Memory)
    requires Leads(c, m, source, ds, words, mid, RecordsOf(source, ds, words))
    requires Leads(c, mid, source, more, words, last, RecordsOf(source, more, words))
    ensures Leads(c, m, source, ds + more, words, last, RecordsOf(source, ds + more, words))
  {
    hide *;
    LeadsOn(c, m, source, ds, more, words, mid, RecordsOf(source, ds, words), last, RecordsOf(source, more, words));
    RecordsAppend(source, ds, more, words);
  }

  lemma TheirKinds(s: Setup, h: seq<Event>, e: Event)
    ensures var d := BruteOn(s, h, e); d.Some? ==> d.value.kind in {BruteForce, PortScan}
    ensures var d := ScanOn(s, h, e); d.Some? ==> d.value.kind in {BruteForce, PortScan}
    ensures var d := TripOn(s, h, e); d.Some? ==> d.value.kind == Sentinel
  {
    FiringParts(s, D.Brute, h, e);
    FiringParts(s, D.Scan, h, e);
    TripParts(s, h, e);
    hide D.Emit, Alerts.Tripped;
  }

  lemma BeforeLeads(s: Setup, m: Memory, h: seq<Event>, e: Event, x: Others, words: P.Wording)
    requires x.OfTheirKinds()
    ensures var primed, trip := Primed(s, m, h, e), TripOn(s, h, e);
            Leads(s.corr, m, e.sourceId, Before(s, h, e, x), words, AfterTrip(s.corr, primed, trip),
                  RecordsOf(e.sourceId, Before(s, h, e, x), words) + P.Chain(e.sourceId, OfTrip(s.corr, primed, trip), words))
  {
    var c, source, brute, scan, trip := s.corr, e.sourceId, BruteOn(s, h, e), ScanOn(s, h, e), TripOn(s, h, e);
    var q := Listed(x.exfil) + Listed(x.admin) + Listed(x.spike);
    var m1 := Noted(m, brute);
    var m2 := Noted(m1, scan);
    assert m2 == Primed(s, m, h, e) && Before(s, h, e, x) == Listed(brute) + Listed(scan) + q + Listed(trip);
    TheirKinds(s, h, e);
    QuietKinds(x);
    hide *;
    NotedLeads(c, m, source, brute, words);
    NotedLeads(c, m1, source, scan, words);
    QuietLeads(c, m2, source, q, words);
    TripLeads(c, m2, source, trip, words);
    RecordsLeadOn(c, m, source, Listed(brute), Listed(scan), words, m1, m2);
    RecordsLeadOn(c, m, source, Listed(brute) + Listed(scan), q, words, m2, m2);
    RecordsLead(c, m, source, Listed(brute) + Listed(scan) + q, Listed(trip), words, m2, AfterTrip(c, m2, trip),
                P.Chain(source, OfTrip(c, m2, trip), words));
  }

  lemma QuietKinds(x: Others)
    requires x.OfTheirKinds()
    ensures var q := Listed(x.exfil) + Listed(x.admin) + Listed(x.spike); forall i :: 0 <= i < |q| ==> !Plays(q[i])
    ensures forall i :: 0 <= i < |Behind(x)| ==> !Plays(Behind(x)[i])
  {
    hide Keyed;
  }

  /** What is written of e: the detections, and the incident after the alarm or at the end. */
  ghost function Written(s: Setup, h: seq<Event>, e: Event, x: Others, words: P.Wording): seq<LogStore.DetectionRecord>
  {
    if Deceived(s, h, e, Since(s, h, Actor(e))) && Closes(s, h, e)
    then RecordsOf(e.sourceId, Before(s, h, e, x), words) + P.Chain(e.sourceId, ChainOf(s, h, e), words) +
         RecordsOf(e.sourceId, Behind(x), words)
    else RecordsOf(e.sourceId, Fired(s.tuning, h, e, x), words) + P.Chain(e.sourceId, ChainOf(s, h, e), words)
  }

  /**
   * Fed with what the engine fires on an event, the pipeline's correlator remembers what its raw
   * events call for, and the pipeline writes the detections in order and, after the alarm or at
   * the end, the incident that the raw events call for - once.
   */
  lemma HandledIsHistory(s: Setup, h: seq<Event>, e: Event, x: Others, words: P.Wording)
    requires x.OfTheirKinds()
    ensures P.MemoryOf(s.corr, After(s, h), e, Fired(s.tuning, h, e, x)) == After(s, h + [e])
    ensures P.Emitted(s.corr, After(s, h), e, Fired(s.tuning, h, e, x), words) == Written(s, h, e, x, words)
  {
    var m := After(s, h);
    var primed, trip := Primed(s, m, h, e), TripOn(s, h, e);
    var early, late, src := Before(s, h, e, x), Behind(x), e.sourceId;
    var mid := AfterTrip(s.corr, primed, trip);
    QuietKinds(x);
    hide *;
    FiredSplit(s, h, e, x);
    BeforeLeads(s, m, h, e, x, words);
    QuietLeads(s.corr, mid, src, late, words);
    LeadsOn(s.corr, m, src, early, late, words, mid,
            RecordsOf(src, early, words) + P.Chain(src, OfTrip(s.corr, primed, trip), words), mid, RecordsOf(src, late, words));
    LeadsParts(s.corr, m, src, early + late, words, mid,
               RecordsOf(src, early, words) + P.Chain(src, OfTrip(s.corr, primed, trip), words) + RecordsOf(src, late, words));
    RecordsAppend(src, early, late, words);
    AfterMore(s, h, e);
    EmittedParts(s.corr, m, e, early + late, words);
    TwoWays(s, h, e);
    NoChain(src, words);
    WrittenIs(s, h, e, x, words);
    Regrouped(RecordsOf(src, early, words), [], RecordsOf(src, late, words));
    Regrouped(RecordsOf(src, early, words) + P.Chain(src, OfTrip(s.corr, primed, trip), words) + RecordsOf(src, late, words), [], []);
  }

  lemma LeadsParts(c: C.Config, m: Memory, source: string, ds: seq<Detection>, words: P.Wording,
                   last: Memory, out: seq<LogStore.DetectionRecord>)
    requires Leads(c, m, source, ds, words, last, out)
    ensures P.MemoryAfter(c, m, ds) == last && P.Detected(c, m, source, ds, words) == out
  {
    hide P.MemoryAfter, P.Detected;
  }

  lemma NoChain(source: string, words: P.Wording)
    ensures P.Chain(source, None, words) == []
  {
  }

  lemma AfterMore(s: Setup, h: seq<Event>, e: Event)
    ensures After(s, h + [e]) == AfterLogin(s.corr, AfterTrip(s.corr, Primed(s, After(s, h), h, e), TripOn(s, h, e)), e)
  {
    hide AfterLogin, AfterTrip, Primed, TripOn;
    assert (h + [e])[..|h|] == h;
  }

  lemma EmittedParts(c: C.Config, m: Memory, e: Event, ds: seq<Detection>, words: P.Wording)
    ensures P.MemoryOf(c, m, e, ds) == AfterLogin(c, P.MemoryAfter(c, m, ds), e)
    ensures P.Emitted(c, m, e, ds, words) ==
            P.Detected(c, m, e.sourceId, ds, words) + P.Chain(e.sourceId, OfLogin(c, P.MemoryAfter(c, m, ds), e), words)
  {
    hide P.Detected, P.MemoryAfter, Step, Raise, P.OfIncident;
  }

  /** Of the two ways to an incident, at most one is taken. */
  lemma TwoWays(s: Setup, h: seq<Event>, e: Event)
    ensures var m, trip := Primed(s, After(s, h), h, e), TripOn(s, h, e);
            if Deceived(s, h, e, Since(s, h, Actor(e))) && Closes(s, h, e)
            then OfTrip(s.corr, m, trip) == ChainOf(s, h, e) && OfLogin(s.corr, AfterTrip(s.corr, m, trip), e) == None
            else OfTrip(s.corr, m, trip) == None && OfLogin(s.corr, AfterTrip(s.corr, m, trip), e) == ChainOf(s, h, e)
  {
    var m := After(s, h);
    Remembers(s, h, Actor(e));
    TripParts(s, h, e);
    Settled(s.corr, Primed(s, m, h, e), TripOn(s, h, e), e);
    CompletesIsCloses(s, h, e, m);
    IncidentIff(s, h, e);
    hide Primed, TripOn, Completes, AfterLogin, AfterTrip, Closes, Actor, After, OfTrip, OfLogin, Deception, Intrusion, Recalled, Since, Deceived, ChainOf;
  }

  lemma WrittenIs(s: Setup, h: seq<Event>, e: Event, x: Others, words: P.Wording)
    ensures Written(s, h, e, x, words) ==
            if Deceived(s, h, e, Since(s, h, Actor(e))) && Closes(s, h, e)
            then RecordsOf(e.sourceId, Before(s, h, e, x), words) + P.Chain(e.sourceId, ChainOf(s, h, e), words) +
                 RecordsOf(e.sourceId, Behind(x), words)
            else RecordsOf(e.sourceId, Fired(s.tuning, h, e, x), words) + P.Chain(e.sourceId, ChainOf(s, h, e), words)
  {
    hide Deceived, Closes, RecordsOf, Before, Behind, ChainOf, Fired;
  }

  ghost function SetupOf(g: Engine, p: P.Pipeline): Setup
  {
    Setup(g.tuning, p.Tuning())
  }

  lemma NothingShared(g: Engine, p: P.Pipeline)
    ensures p !in g.EarlyParts() && p.corr !in g.EarlyParts() && p.log !in g.EarlyParts() && p.store !in g.EarlyParts()
    ensures p !in g.LateParts() && p.corr !in g.LateParts() && p.log !in g.LateParts() && p.store !in g.LateParts()
  {
  }

  method HandleFired(ghost g: Engine, p: P.Pipeline, e: Event, ds: seq<Detection>, ids: seq<string>, ghost s: Setup, ghost h: seq<Event>, ghost x: Others)
    requires g.Valid() && s.corr == p.Tuning() && p.corr.Contents() == After(s, h)
    requires x.OfTheirKinds() && ds == Fired(s.tuning, h, e, x)
    modifies p, p.corr, p.log, p.store
    ensures g.Valid() && g.history == old(g.history) && p.corr.Contents() == After(s, h + [e])
    ensures p.Contents() == P.WriteAll(p.Stores(), old(p.Contents()), Written(s, h, e, x, p.words), ids, 0)
    ensures p.announced == old(p.announced) + P.FindingsOf(Written(s, h, e, x, p.words))
  {
    hide After, Fired, Written, P.Emitted, P.MemoryOf, P.WriteAll, P.FindingsOf, Others.OfTheirKinds, Engine.Valid;
    NothingShared(g, p);
    HandledIsHistory(s, h, e, x, p.words);
    p.Handle(e, ds, ids);
  }

  /** One event, from the detectors to the stores; what is remembered stays what the raw events call for. */
  method Ingest(g: Engine, p: P.Pipeline, e: Event, ids: seq<string>) returns (ghost x: Others)
    requires g.Valid() && p.corr.Contents() == After(SetupOf(g, p), g.history)
    modifies g, g.EarlyParts(), g.LateParts(), p, p.corr, p.log, p.store
    ensures g.Valid() && g.history == old(g.history) + [e]
    ensures p.corr.Contents() == After(SetupOf(g, p), g.history)
    ensures x.OfTheirKinds()
    ensures var out := Written(SetupOf(g, p), old(g.history), e, x, p.words);
            && p.Contents() == P.WriteAll(p.Stores(), old(p.Contents()), out, ids, 0)
            && p.announced == old(p.announced) + P.FindingsOf(out)
  {
    hide After, Fired, Written, P.WriteAll, P.FindingsOf, Engine.Valid, Others.OfTheirKinds, Engine.EarlyParts, Engine.LateParts;
    NothingShared(g, p);
    ghost var h := g.history;
    var ds, y := g.Observe(e);
    x := y;
    HandleFired(g, p, e, ds, ids, SetupOf(g, p), h, x);
  }
}
