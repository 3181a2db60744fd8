/** The brute-force, port-scan and authentication-spike detectors. */
module Detectors {
  import opened Wire
  import opened Text
  import opened Events
  import opened Detections
  import opened ValueWindows
  import opened Windows
  import opened Tracks

  datatype Config = Config(
    bruteFailures: int, bruteWindow: int, scanPorts: int, scanWindow: int,
    spikeMin: int, spikeWindow: int, cooldown: int, evidenceMax: int)

  datatype Detector = Brute | Scan | Spike

  const SPIKE_SOURCES: int := 3

  function RuleOf(dt: Detector, c: Config): Rule
  {
    match dt
    case Brute => Rule(Some(c.bruteFailures), None, c.bruteWindow, c.cooldown, c.evidenceMax)
    case Scan => Rule(None, Some(c.scanPorts), c.scanWindow, c.cooldown, c.evidenceMax)
    case Spike => Rule(Some(c.spikeMin), Some(SPIKE_SOURCES), c.spikeWindow, c.cooldown, c.evidenceMax)
  }

  function Service(e: Event): string
  {
    OrAny(e.host) + "/" + OrAny(e.app)
  }

  /** The key an event counts towards, if it concerns the detector at all. */
  function KeyOf(dt: Detector, e: Event): Option<string>
  {
    match dt
    case Brute => if e.auth == Failure && Actor(e) != "" then Some(Actor(e)) else None
    case Scan => if e.srcIP != "" && e.dstPort != 0 then Some(e.srcIP) else None
    case Spike => if e.auth == Failure then Some(Service(e)) else None
  }

  /** What is distinct about it: the port for a scan, the source for a spike. */
  function ValueOf(dt: Detector, e: Event): string
  {
    match dt
    case Brute => ""
    case Scan => Itoa(e.dstPort)
    case Spike => if e.srcIP != "" then e.srcIP else OrAny(e.user)
  }

  function Sight(dt: Detector, e: Event): Sighting<string>
  {
    Sighting(e.timestamp, ValueOf(dt, e), e.raw)
  }

  /** The events of h that count towards key k. */
  function Sightings(dt: Detector, h: seq<Event>, k: string): seq<Sighting<string>>
  {
    if h == [] then []
    else Sightings(dt, h[..|h| - 1], k) + if KeyOf(dt, h[|h| - 1]) == Some(k) then [Sight(dt, h[|h| - 1])] else []
  }

  function TrackOf(dt: Detector, c: Config, h: seq<Event>, k: string): Track<string>
  {
    Follow(RuleOf(dt, c), Sightings(dt, h, k))
  }

  function Report(dt: Detector, e: Event, k: string, t: Track<string>): Detection
    requires t.first.Some?
  {
    var n, m := |t.times|, |t.seen|;
    match dt
    case Brute =>
      Detection(BruteForce, "high", k, e.host, e.user, "Brute force: " + Itoa(n) + " failed logins from " + k,
                n, t.first.value, e.timestamp, t.evidence, "brute|" + k)
    case Scan =>
      Detection(PortScan, "medium", k, e.host, "", "Port scan: " + k + " hit " + Itoa(m) + " distinct ports",
                m, t.first.value, e.timestamp, t.evidence, "scan|" + k)
    case Spike =>
      Detection(AuthSpike, "medium", k, e.host, "",
                "Distributed auth-failure spike on " + k + ": " + Itoa(n) + " from " + Itoa(m) + " sources",
                n, t.first.value, e.timestamp, t.evidence, "spike|" + k)
  }

  /** What the detector says of an event that counts towards k, given the track of k. */
  function Verdict(dt: Detector, c: Config, t: Track<string>, e: Event, k: string): Option<Detection>
  {
    var u := Add(RuleOf(dt, c), t, Sight(dt, e));
    if Ready(RuleOf(dt, c), u, e.timestamp) then Some(Report(dt, e, k, u)) else None
  }

  /** What the detector says of e after the events h. */
  function Emit(dt: Detector, c: Config, h: seq<Event>, e: Event): Option<Detection>
  {
    match KeyOf(dt, e)
    case None => None
    case Some(k) => Verdict(dt, c, TrackOf(dt, c, h, k), e, k)
  }

  lemma TrackSnoc(dt: Detector, c: Config, h: seq<Event>, e: Event, k: string)
    ensures TrackOf(dt, c, h + [e], k) ==
            if KeyOf(dt, e) == Some(k) then Next(RuleOf(dt, c), TrackOf(dt, c, h, k), Sight(dt, e)) else TrackOf(dt, c, h, k)
  {
    hide Next, RuleOf, KeyOf, Sight;
    var ss := Sightings(dt, h, k);
    assert (h + [e])[..|h|] == h;
    if KeyOf(dt, e) == Some(k) {
      assert (ss + [Sight(dt, e)])[..|ss|] == ss;
    } else {
      assert ss + [] == ss;
    }
  }

  // --- the detectors as they run ---------------------------------------------------

  function Find<T>(m: map<string, T>, k: string): Option<T>
  {
    if k in m then Some(m[k]) else None
  }

  lemma PrefixApart(p: string, a: string, b: string)
    requires a != b
    ensures p + a != p + b
  {
    assert (p + a)[|p|..] == a && (p + b)[|p|..] == b;
  }

  class BruteForceDetector {
    const cfg: Config
    const count: SlidingCounter
    const cool: Cooldown
    var first: map<string, int>
    var evid: map<string, seq<string>>
    ghost var history: seq<Event>

    ghost function TrackAt(k: string): Track<string>
      reads this, count, cool
    {
      Track(At(count.times, k), map[], Find(first, k), At(evid, k), cool.LastOf("bf:" + k))
    }

    ghost predicate Valid()
      reads this, count, cool
    {
      && count.window == cfg.bruteWindow && cool.d == cfg.cooldown
      && forall k :: TrackAt(k) == TrackOf(Brute, cfg, history, k)
    }

    constructor (cfg: Config)
      ensures Valid() && this.cfg == cfg && history == []
      ensures fresh(count) && fresh(cool)
    {
      this.cfg := cfg;
      count := new SlidingCounter(cfg.bruteWindow);
      cool := new Cooldown(cfg.cooldown);
      first, evid, history := map[], map[], [];
    }

    /** Adds one failure of the actor to its windows. */
    method Record(e: Event, actor: string) returns (n: nat)
      requires KeyOf(Brute, e) == Some(actor) && count.window == cfg.bruteWindow
      modifies this, count
      ensures history == old(history)
      ensures TrackAt(actor) == Add(RuleOf(Brute, cfg), old(TrackAt(actor)), Sight(Brute, e))
      ensures n == |TrackAt(actor).times| && actor in first && actor in evid
      ensures forall k :: k != actor ==> TrackAt(k) == old(TrackAt(k))
    {
      hide Prune, KeepEvidence;
      if actor !in first {
        first := first[actor := e.timestamp];
      }
      evid := evid[actor := KeepEvidence(At(evid, actor), e.raw, cfg.evidenceMax)];
      n := count.Add(actor, e.timestamp);
    }

    /** Forgets the actor's windows; its cooldown goes on. */
    method Forget(actor: string)
      modifies this, count
      ensures history == old(history)
      ensures TrackAt(actor) == Track([], map[], None, [], old(TrackAt(actor)).last)
      ensures forall k :: k != actor ==> TrackAt(k) == old(TrackAt(k))
    {
      count.Reset(actor);
      first := first - {actor};
      evid := evid - {actor};
    }

    method MayFire(actor: string, t: int) returns (ok: bool)
      modifies cool
      ensures ok == Rested(old(TrackAt(actor)).last, t, cool.d)
      ensures TrackAt(actor) == if ok then old(TrackAt(actor)).(last := Some(t)) else old(TrackAt(actor))
      ensures forall k :: k != actor ==> TrackAt(k) == old(TrackAt(k))
    {
      hide Rested;
      ok := cool.Firable("bf:" + actor, t);
      forall k | k != actor ensures TrackAt(k) == old(TrackAt(k)) {
        PrefixApart("bf:", k, actor);
      }
    }

    /** The track of one actor takes in one failure, and the others stay as they are. */
    method Advance(e: Event, actor: string) returns (r: Option<Detection>)
      requires KeyOf(Brute, e) == Some(actor)
      requires count.window == cfg.bruteWindow && cool.d == cfg.cooldown
      modifies this, count, cool
      ensures history == old(history)
      ensures TrackAt(actor) == Next(RuleOf(Brute, cfg), old(TrackAt(actor)), Sight(Brute, e))
      ensures forall k :: k != actor ==> TrackAt(k) == old(TrackAt(k))
      ensures r == Verdict(Brute, cfg, old(TrackAt(actor)), e, actor)
    {
      hide Add, Rested, Itoa;
      var n := Record(e, actor);
      if n < cfg.bruteFailures {
        return None;
      }
      var ok := MayFire(actor, e.timestamp);
      if !ok {
        return None;
      }
      r := Some(Detection(BruteForce, "high", actor, e.host, e.user, "Brute force: " + Itoa(n) + " failed logins from " + actor,
                          n, first[actor], e.timestamp, evid[actor], "brute|" + actor));
      Forget(actor);
    }

    method Observe(e: Event) returns (r: Option<Detection>)
      requires Valid()
      modifies this, count, cool
      ensures Valid() && history == old(history) + [e]
      ensures r == Emit(Brute, cfg, old(history), e)
    {
      hide Next, Verdict, Follow;
      r := None;
      if e.auth == Failure && Actor(e) != "" {
        r := Advance(e, Actor(e));
      }
      forall k ensures TrackAt(k) == TrackOf(Brute, cfg, history + [e], k) {
        TrackSnoc(Brute, cfg, history, e, k);
      }
      history := history + [e];
    }
  }

  class ScanDetector {
    const cfg: Config
    const ports: DistinctWindow<string>
    const cool: Cooldown
    var first: map<string, int>
    var evid: map<string, seq<string>>
    ghost var history: seq<Event>

    ghost function TrackAt(k: string): Track<string>
      reads this, ports, cool
    {
      Track([], SeenAt(ports.seen, k), Find(first, k), At(evid, k), cool.LastOf("scan:" + k))
    }

    ghost predicate Valid()
      reads this, ports, cool
    {
      && ports.window == cfg.scanWindow && cool.d == cfg.cooldown
      && forall k :: TrackAt(k) == TrackOf(Scan, cfg, history, k)
    }

    constructor (cfg: Config)
      ensures Valid() && this.cfg == cfg && history == []
      ensures fresh(ports) && fresh(cool)
    {
      this.cfg := cfg;
      ports := new DistinctWindow(cfg.scanWindow);
      cool := new Cooldown(cfg.cooldown);
      first, evid, history := map[], map[], [];
    }

    /** Adds the port that the actor tried to its window. */
    method Record(e: Event, actor: string) returns (n: nat)
      requires KeyOf(Scan, e) == Some(actor) && ports.window == cfg.scanWindow
      modifies this, ports
      ensures history == old(history)
      ensures TrackAt(actor) == Add(RuleOf(Scan, cfg), old(TrackAt(actor)), Sight(Scan, e))
      ensures n == |TrackAt(actor).seen| && actor in first && actor in evid
      ensures forall k :: k != actor ==> TrackAt(k) == old(TrackAt(k))
    {
      hide Recent, KeepEvidence;
      if actor !in first {
        first := first[actor := e.timestamp];
      }
      evid := evid[actor := KeepEvidence(At(evid, actor), e.raw, cfg.evidenceMax)];
      n := ports.Add(actor, Itoa(e.dstPort), e.timestamp);
    }

    /** Forgets the actor's windows; its cooldown goes on. */
    method Forget(actor: string)
      modifies this, ports
      ensures history == old(history)
      ensures TrackAt(actor) == Track([], map[], None, [], old(TrackAt(actor)).last)
      ensures forall k :: k != actor ==> TrackAt(k) == old(TrackAt(k))
    {
      ports.Reset(actor);
      first := first - {actor};
      evid := evid - {actor};
    }

    method MayFire(actor: string, t: int) returns (ok: bool)
      modifies cool
      ensures ok == Rested(old(TrackAt(actor)).last, t, cool.d)
      ensures TrackAt(actor) == if ok then old(TrackAt(actor)).(last := Some(t)) else old(TrackAt(actor))
      ensures forall k :: k != actor ==> TrackAt(k) == old(TrackAt(k))
    {
      hide Rested;
      ok := cool.Firable("scan:" + actor, t);
      forall k | k != actor ensures TrackAt(k) == old(TrackAt(k)) {
        PrefixApart("scan:", k, actor);
      }
    }

    /** The track of one actor takes in one port, and the others stay as they are. */
    method Advance(e: Event, actor: string) returns (r: Option<Detection>)
      requires KeyOf(Scan, e) == Some(actor)
      requires ports.window == cfg.scanWindow && cool.d == cfg.cooldown
      modifies this, ports, cool
      ensures history == old(history)
      ensures TrackAt(actor) == Next(RuleOf(Scan, cfg), old(TrackAt(actor)), Sight(Scan, e))
      ensures forall k :: k != actor ==> TrackAt(k) == old(TrackAt(k))
      ensures r == Verdict(Scan, cfg, old(TrackAt(actor)), e, actor)
    {
      hide Add, Rested, Itoa;
      var n := Record(e, actor);
      if n < cfg.scanPorts {
        return None;
      }
      var ok := MayFire(actor, e.timestamp);
      if !ok {
        return None;
      }
      r := Some(Detection(PortScan, "medium", actor, e.host, "", "Port scan: " + actor + " hit " + Itoa(n) + " distinct ports",
                          n, first[actor], e.timestamp, evid[actor], "scan|" + actor));
      Forget(actor);
    }

    method Observe(e: Event) returns (r: Option<Detection>)
      requires Valid()
      modifies this, ports, cool
      ensures Valid() && history == old(history) + [e]
      ensures r == Emit(Scan, cfg, old(history), e)
    {
      hide Next, Verdict, Follow;
      r := None;
      if e.srcIP != "" && e.dstPort != 0 {
        r := Advance(e, e.srcIP);
      }
      forall k ensures TrackAt(k) == TrackOf(Scan, cfg, history + [e], k) {
        TrackSnoc(Scan, cfg, history, e, k);
      }
      history := history + [e];
    }
  }

  class SpikeDetector {
    const cfg: Config
    const count: SlidingCounter
    const sources: DistinctWindow<string>
    const cool: Cooldown
    var first: map<string, int>
    var evid: map<string, seq<string>>
    ghost var history: seq<Event>

    ghost function TrackAt(k: string): Track<string>
      reads this, count, sources, cool
    {
      Track(At(count.times, k), SeenAt(sources.seen, k), Find(first, k), At(evid, k), cool.LastOf("spike:" + k))
    }

    ghost predicate Valid()
      reads this, count, sources, cool
    {
      && count.window == sources.window == cfg.spikeWindow && cool.d == cfg.cooldown
      && forall k :: TrackAt(k) == TrackOf(Spike, cfg, history, k)
    }

    constructor (cfg: Config)
      ensures Valid() && this.cfg == cfg && history == []
      ensures fresh(count) && fresh(sources) && fresh(cool)
    {
      this.cfg := cfg;
      count := new SlidingCounter(cfg.spikeWindow);
      sources := new DistinctWindow(cfg.spikeWindow);
      cool := new Cooldown(cfg.cooldown);
      first, evid, history := map[], map[], [];
    }

    /** Adds one failure at the service to its windows. */
    method Record(e: Event, svc: string) returns (n: nat, m: nat)
      requires KeyOf(Spike, e) == Some(svc) && count.window == sources.window == cfg.spikeWindow
      modifies this, count, sources
      ensures history == old(history)
      ensures TrackAt(svc) == Add(RuleOf(Spike, cfg), old(TrackAt(svc)), Sight(Spike, e))
      ensures n == |TrackAt(svc).times| && m == |TrackAt(svc).seen| && svc in first && svc in evid
      ensures forall k :: k != svc ==> TrackAt(k) == old(TrackAt(k))
    {
      hide Prune, Recent, KeepEvidence;
      if svc !in first {
        first := first[svc := e.timestamp];
      }
      evid := evid[svc := KeepEvidence(At(evid, svc), e.raw, cfg.evidenceMax)];
      n := count.Add(svc, e.timestamp);
      m := sources.Add(svc, if e.srcIP != "" then e.srcIP else OrAny(e.user), e.timestamp);
    }

    /** Forgets the service's windows; its cooldown goes on. */
    method Forget(svc: string)
      modifies this, count, sources
      ensures history == old(history)
      ensures TrackAt(svc) == Track([], map[], None, [], old(TrackAt(svc)).last)
      ensures forall k :: k != svc ==> TrackAt(k) == old(TrackAt(k))
    {
      count.Reset(svc);
      sources.Reset(svc);
      first := first - {svc};
      evid := evid - {svc};
    }

    method MayFire(svc: string, t: int) returns (ok: bool)
      modifies cool
      ensures ok == Rested(old(TrackAt(svc)).last, t, cool.d)
      ensures TrackAt(svc) == if ok then old(TrackAt(svc)).(last := Some(t)) else old(TrackAt(svc))
      ensures forall k :: k != svc ==> TrackAt(k) == old(TrackAt(k))
    {
      hide Rested;
      ok := cool.Firable("spike:" + svc, t);
      forall k | k != svc ensures TrackAt(k) == old(TrackAt(k)) {
        PrefixApart("spike:", k, svc);
      }
    }

    /** The track of one service takes in one failure, and the others stay as they are. */
    method Advance(e: Event, svc: string) returns (r: Option<Detection>)
      requires KeyOf(Spike, e) == Some(svc)
      requires count.window == sources.window == cfg.spikeWindow && cool.d == cfg.cooldown
      modifies this, count, sources, cool
      ensures history == old(history)
      ensures TrackAt(svc) == Next(RuleOf(Spike, cfg), old(TrackAt(svc)), Sight(Spike, e))
      ensures forall k :: k != svc ==> TrackAt(k) == old(TrackAt(k))
      ensures r == Verdict(Spike, cfg, old(TrackAt(svc)), e, svc)
    {
      hide Add, Rested, Itoa;
      var n, m := Record(e, svc);
      if n < cfg.spikeMin || m < SPIKE_SOURCES {
        return None;
      }
      var ok := MayFire(svc, e.timestamp);
      if !ok {
        return None;
      }
      r := Some(Detection(AuthSpike, "medium", svc, e.host, "",
                          "Distributed auth-failure spike on " + svc + ": " + Itoa(n) + " from " + Itoa(m) + " sources",
                          n, first[svc], e.timestamp, evid[svc], "spike|" + svc));
      Forget(svc);
    }

    method Observe(e: Event) returns (r: Option<Detection>)
      requires Valid()
      modifies this, count, sources, cool
      ensures Valid() && history == old(history) + [e]
      ensures r == Emit(Spike, cfg, old(history), e)
    {
      hide Next, Verdict, Follow;
      r := None;
      if e.auth == Failure {
        r := Advance(e, Service(e));
      }
      forall k ensures TrackAt(k) == TrackOf(Spike, cfg, history + [e], k) {
        TrackSnoc(Spike, cfg, history, e, k);
      }
      history := history + [e];
    }
  }
}
