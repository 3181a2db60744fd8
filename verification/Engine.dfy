/** The detection engine: every event goes to every detector, in one order. */
module Engine {
  import opened Wire
  import opened Events
  import opened Detections
  import opened Alerts
  import opened Windows
  import B = Beacon
  import D = Detectors
  import E = Egress
  import S = NewServices
  import Tracks

  datatype Config = Config(
    bruteFailures: int, bruteWindow: int, scanPorts: int, scanWindow: int,
    exfilBytes: int, exfilFactor: real, exfilWindow: int, spikeMin: int, spikeWindow: int,
    beaconMin: int, beaconMinGap: int, beaconMaxGap: int, beaconMaxCV: real,
    newServiceLearn: int, cooldown: int, evidenceMax: int)
  {
    /** What is zero is the default. */
    function WithDefaults(): Config
    {
      Config(
        Or(bruteFailures, 8), Or(bruteWindow, 60 * B.SECOND), Or(scanPorts, 10), Or(scanWindow, 30 * B.SECOND),
        Or(exfilBytes, 52_428_800), if exfilFactor == 0.0 then 4.0 else exfilFactor, Or(exfilWindow, 60 * B.SECOND),
        Or(spikeMin, 20), Or(spikeWindow, 60 * B.SECOND),
        Or(beaconMin, 8), Or(beaconMinGap, 10 * B.SECOND), Or(beaconMaxGap, 3600 * B.SECOND),
        if beaconMaxCV == 0.0 then 0.2 else beaconMaxCV,
        Or(newServiceLearn, 1800 * B.SECOND), Or(cooldown, 300 * B.SECOND), Or(evidenceMax, 5))
    }
  }

  function Or(x: int, default: int): int
  {
    if x == 0 then default else x
  }

  /** What incidents depend on: the windowed detectors, and how the tail of a message is read. */
  datatype Tuning = Tuning(detect: D.Config, tailOf: string -> Tail)
  {
    function AsSentry(): Sentry
    {
      Sentry(tailOf, detect.cooldown, detect.evidenceMax)
    }
  }

  function TuningOf(c: Config, tailOf: string -> Tail): Tuning
  {
    Tuning(D.Config(c.bruteFailures, c.bruteWindow, c.scanPorts, c.scanWindow, c.spikeMin, c.spikeWindow, c.cooldown, c.evidenceMax), tailOf)
  }

  /** What the detectors that play no part in incidents make of an event. */
  datatype Others = Others(
    exfil: Option<Detection>, admin: Option<Detection>, spike: Option<Detection>, beacon: Option<Detection>, service: Option<Detection>)
  {
    predicate OfTheirKinds()
    {
      && (exfil.Some? ==> exfil.value.kind == Exfil && Keyed(exfil.value))
      && (admin.Some? ==> admin.value.kind == NewAdmin && Keyed(admin.value))
      && (spike.Some? ==> spike.value.kind == AuthSpike && Keyed(spike.value))
      && (beacon.Some? ==> beacon.value.kind == Beaconing && Keyed(beacon.value))
      && (service.Some? ==> service.value.kind == NewService && Keyed(service.value))
    }
  }

  function Listed(d: Option<Detection>): seq<Detection>
  {
    if d.Some? then [d.value] else []
  }

  /** Everything fired on e after the events h, in the order of the detectors. */
  function Fired(t: Tuning, h: seq<Event>, e: Event, x: Others): seq<Detection>
  {
    Listed(D.Emit(D.Brute, t.detect, h, e)) + Listed(D.Emit(D.Scan, t.detect, h, e)) +
    Listed(x.exfil) + Listed(x.admin) + Listed(x.spike) +
    Listed(Tripped(t.AsSentry(), h, e)) + Listed(x.beacon) + Listed(x.service)
  }

  lemma DefaultsSensible(config: Config)
    requires config.beaconMin >= 0
    ensures config.WithDefaults().beaconMin >= 1
  {
  }

  lemma DefaultTuning(config: Config, tailOf: string -> Tail)
    ensures var t := TuningOf(config.WithDefaults(), tailOf).detect;
            && t.bruteFailures == (if config.bruteFailures == 0 then 8 else config.bruteFailures)
            && t.bruteWindow == (if config.bruteWindow == 0 then 60_000_000_000 else config.bruteWindow)
            && t.scanPorts == (if config.scanPorts == 0 then 10 else config.scanPorts)
            && t.scanWindow == (if config.scanWindow == 0 then 30_000_000_000 else config.scanWindow)
            && t.spikeMin == (if config.spikeMin == 0 then 20 else config.spikeMin)
            && t.spikeWindow == (if config.spikeWindow == 0 then 60_000_000_000 else config.spikeWindow)
            && t.cooldown == (if config.cooldown == 0 then 300_000_000_000 else config.cooldown)
            && t.evidenceMax == (if config.evidenceMax == 0 then 5 else config.evidenceMax)
  {
  }

  method NewEarly(c: Config, t: Tuning) returns (b: D.BruteForceDetector, p: D.ScanDetector, f: E.ExfilDetector, n: NewAdminDetector)
    ensures fresh({b, b.count, b.cool, p, p.ports, p.cool, f, f.sum, f.cool, n, n.cool})
    ensures b.cool !in {p.cool, f.cool, n.cool} && p.cool !in {f.cool, n.cool} && f.cool != n.cool
    ensures b.cfg == p.cfg == t.detect && b.history == p.history == n.history == []
    ensures b.Valid() && p.Valid() && f.Valid() && n.Valid()
  {
    hide D.BruteForceDetector.Valid, D.ScanDetector.Valid, E.ExfilDetector.Valid, NewAdminDetector.Valid;
    b := new D.BruteForceDetector(t.detect);
    p := new D.ScanDetector(t.detect);
    f := new E.ExfilDetector(E.Settings(c.exfilBytes, c.exfilFactor, c.exfilWindow, c.cooldown, c.evidenceMax));
    n := new NewAdminDetector(c.cooldown);
  }

  method NewLate(c: Config, t: Tuning, internal: string -> bool)
    returns (a: D.SpikeDetector, s: SentinelDetector, b: B.BeaconDetector, v: S.NewServiceDetector)
    requires c.beaconMin >= 1
    ensures fresh({a, a.count, a.sources, a.cool, s, s.cool, b, b.cool, v, v.cool})
    ensures a.cool !in {s.cool, b.cool, v.cool} && s.cool !in {b.cool, v.cool} && b.cool != v.cool
    ensures a.cfg == t.detect && s.sentry == t.AsSentry() && B.Sensible(b.cfg) && b.cool.d == b.cfg.cooldown
    ensures a.history == s.history == [] && a.Valid() && s.Valid() && v.Valid()
  {
    hide D.SpikeDetector.Valid, SentinelDetector.Valid, S.NewServiceDetector.Valid;
    a := new D.SpikeDetector(t.detect);
    s := new SentinelDetector(t.AsSentry());
    b := new B.BeaconDetector(B.Settings(c.beaconMin, c.beaconMinGap, c.beaconMaxGap, c.beaconMaxCV, c.cooldown), internal);
    v := new S.NewServiceDetector(S.Settings(c.newServiceLearn, c.cooldown, internal));
  }

  class Engine {
    const brute: D.BruteForceDetector
    const scan: D.ScanDetector
    const exfil: E.ExfilDetector
    const newAdmin: NewAdminDetector
    const authSpike: D.SpikeDetector
    const sentinel: SentinelDetector
    const beacon: B.BeaconDetector
    const newSvc: S.NewServiceDetector
    const tuning: Tuning
    ghost var history: seq<Event>

    ghost function EarlyParts(): set<object>
    {
      {brute, brute.count, brute.cool, scan, scan.ports, scan.cool, exfil, exfil.sum, exfil.cool, newAdmin, newAdmin.cool}
    }

    ghost function LateParts(): set<object>
    {
      {authSpike, authSpike.count, authSpike.sources, authSpike.cool, sentinel, sentinel.cool, beacon, beacon.cool, newSvc, newSvc.cool}
    }

    ghost function EarlyCools(): set<Cooldown>
    {
      {brute.cool, scan.cool, exfil.cool, newAdmin.cool}
    }

    ghost function LateCools(): set<Cooldown>
    {
      {authSpike.cool, sentinel.cool, beacon.cool, newSvc.cool}
    }

    lemma HalvesApart()
      requires Apart()
      ensures EarlyParts() !! LateParts()
    {
    }

    /** No two detectors share a part. */
    ghost predicate Apart()
    {
      && brute.count != authSpike.count && scan.ports != authSpike.sources
      && EarlyCools() !! LateCools()
      && brute.cool !in {scan.cool, exfil.cool, newAdmin.cool} && scan.cool !in {exfil.cool, newAdmin.cool} && exfil.cool != newAdmin.cool
      && authSpike.cool !in {sentinel.cool, beacon.cool, newSvc.cool} && sentinel.cool !in {beacon.cool, newSvc.cool}
      && beacon.cool != newSvc.cool
    }

    ghost predicate Tuned()
    {
      && brute.cfg == scan.cfg == authSpike.cfg == tuning.detect
      && sentinel.sentry == tuning.AsSentry()
      && B.Sensible(beacon.cfg) && beacon.cool.d == beacon.cfg.cooldown
    }

    /** The detectors asked first have seen h. */
    ghost predicate EarlyFollow(h: seq<Event>)
      reads EarlyParts()
    {
      && brute.Valid() && scan.Valid() && exfil.Valid() && newAdmin.Valid()
      && brute.history == scan.history == newAdmin.history == h
    }

    /** And those asked last. */
    ghost predicate LateFollow(h: seq<Event>)
      reads LateParts()
    {
      && authSpike.Valid() && sentinel.Valid() && newSvc.Valid()
      && authSpike.history == sentinel.history == h
    }

    ghost predicate Valid()
      reads this, EarlyParts(), LateParts()
    {
      Apart() && Tuned() && EarlyFollow(history) && LateFollow(history)
    }

    constructor (config: Config, internal: string -> bool, tailOf: string -> Tail)
      requires config.beaconMin >= 0
      ensures Valid() && history == [] && tuning == TuningOf(config.WithDefaults(), tailOf)
      ensures tuning.tailOf == tailOf
      ensures tuning.detect.bruteFailures == (if config.bruteFailures == 0 then 8 else config.bruteFailures)
      ensures tuning.detect.bruteWindow == (if config.bruteWindow == 0 then 60_000_000_000 else config.bruteWindow)
      ensures tuning.detect.scanPorts == (if config.scanPorts == 0 then 10 else config.scanPorts)
      ensures tuning.detect.scanWindow == (if config.scanWindow == 0 then 30_000_000_000 else config.scanWindow)
      ensures tuning.detect.spikeMin == (if config.spikeMin == 0 then 20 else config.spikeMin)
      ensures tuning.detect.spikeWindow == (if config.spikeWindow == 0 then 60_000_000_000 else config.spikeWindow)
      ensures tuning.detect.cooldown == (if config.cooldown == 0 then 300_000_000_000 else config.cooldown)
      ensures tuning.detect.evidenceMax == (if config.evidenceMax == 0 then 5 else config.evidenceMax)
      ensures fresh(EarlyParts()) && fresh(LateParts())
    {
      hide Config.WithDefaults;
      hide D.BruteForceDetector.Valid, D.ScanDetector.Valid, D.SpikeDetector.Valid, E.ExfilDetector.Valid;
      hide NewAdminDetector.Valid, SentinelDetector.Valid, S.NewServiceDetector.Valid;
      var c := config.WithDefaults();
      var t := TuningOf(c, tailOf);
      DefaultsSensible(config);
      DefaultTuning(config, tailOf);
      tuning := t;
      var b, p, f, n := NewEarly(c, t);
      var a, s, o, v := NewLate(c, t, internal);
      brute, scan, exfil, newAdmin := b, p, f, n;
      authSpike, sentinel, beacon, newSvc := a, s, o, v;
      history := [];
    }

    method ObserveEgress(e: Event) returns (f: Option<Detection>)
      requires exfil.Valid()
      modifies exfil, exfil.sum, exfil.cool
      ensures exfil.Valid() && (f.Some? ==> f.value.kind == Exfil && Keyed(f.value))
    {
      hide Keyed, E.Fires, E.Next;
      f := exfil.Observe(e);
    }

    method ObserveEarly(e: Event, ghost h: seq<Event>) returns (ds: seq<Detection>, f: Option<Detection>, n: Option<Detection>)
      requires Apart() && Tuned() && EarlyFollow(h)
      modifies EarlyParts()
      ensures EarlyFollow(h + [e])
      ensures ds == Listed(D.Emit(D.Brute, tuning.detect, h, e)) + Listed(D.Emit(D.Scan, tuning.detect, h, e)) + Listed(f) + Listed(n)
      ensures f.Some? ==> f.value.kind == Exfil && Keyed(f.value)
      ensures n.Some? ==> n.value.kind == NewAdmin && Keyed(n.value)
    {
      hide D.BruteForceDetector.Valid, D.ScanDetector.Valid, E.ExfilDetector.Valid, NewAdminDetector.Valid;
      hide D.Emit, Created, Listed, Keyed;
      var b := brute.Observe(e);
      var p := scan.Observe(e);
      f := ObserveEgress(e);
      n := newAdmin.Observe(e);
      CreatedKeyed(newAdmin.cool.d, h, e);
      ds := Listed(b) + Listed(p) + Listed(f) + Listed(n);
    }

    method ObserveLate(e: Event, ghost h: seq<Event>)
      returns (ds: seq<Detection>, a: Option<Detection>, c: Option<Detection>, v: Option<Detection>)
      requires Apart() && Tuned() && LateFollow(h)
      modifies LateParts()
      ensures LateFollow(h + [e])
      ensures ds == Listed(a) + Listed(Tripped(tuning.AsSentry(), h, e)) + Listed(c) + Listed(v)
      ensures a.Some? ==> a.value.kind == AuthSpike && Keyed(a.value)
      ensures c.Some? ==> c.value.kind == Beaconing && Keyed(c.value)
      ensures v.Some? ==> v.value.kind == NewService && Keyed(v.value)
    {
      hide D.SpikeDetector.Valid, SentinelDetector.Valid, S.NewServiceDetector.Valid;
      hide D.Emit, Tripped, Listed, Keyed, B.Fires, B.Next, S.Flags, S.Next;
      a := authSpike.Observe(e);
      var s := sentinel.Observe(e);
      c := beacon.Observe(e);
      v := newSvc.Observe(e);
      SpikeKeyed(tuning.detect, h, e);
      ds := Listed(a) + Listed(s) + Listed(c) + Listed(v);
    }

    method Observe(e: Event) returns (ds: seq<Detection>, ghost x: Others)
      requires Valid()
      modifies this, EarlyParts(), LateParts()
      ensures Valid() && history == old(history) + [e]
      ensures x.OfTheirKinds() && ds == Fired(tuning, old(history), e, x)
    {
      hide EarlyFollow, LateFollow, Tuned, Listed, Keyed, D.Emit, Tripped;
      HalvesApart();
      var early, f, n := ObserveEarly(e, history);
      var late, a, c, v := ObserveLate(e, history);
      ds := early + late;
      x := Others(f, n, a, c, v);
      history := history + [e];
    }
  }

  lemma SpikeKeyed(c: D.Config, h: seq<Event>, e: Event)
    ensures var d := D.Emit(D.Spike, c, h, e); d.Some? ==> d.value.kind == AuthSpike && Keyed(d.value)
  {
    var d := D.Emit(D.Spike, c, h, e);
    hide D.TrackOf, Tracks.Ready, Tracks.Add, Keyed;
    if d.Some? {
      KeyedBy(d.value, "spike|", D.Service(e));
    }
  }

  lemma BruteKeyed(c: D.Config, h: seq<Event>, e: Event)
    ensures var d := D.Emit(D.Brute, c, h, e); d.Some? ==> Keyed(d.value)
  {
    var d := D.Emit(D.Brute, c, h, e);
    hide D.TrackOf, Tracks.Ready, Tracks.Add, Keyed;
    if d.Some? {
      KeyedBy(d.value, "brute|", Actor(e));
    }
  }

  lemma ScanKeyed(c: D.Config, h: seq<Event>, e: Event)
    ensures var d := D.Emit(D.Scan, c, h, e); d.Some? ==> Keyed(d.value)
  {
    var d := D.Emit(D.Scan, c, h, e);
    hide D.TrackOf, Tracks.Ready, Tracks.Add, Keyed;
    if d.Some? {
      KeyedBy(d.value, "scan|", e.srcIP);
    }
  }

  lemma TrippedKeyed(s: Sentry, h: seq<Event>, e: Event)
    ensures var d := Tripped(s, h, e); d.Some? ==> Keyed(d.value)
  {
    var d := Tripped(s, h, e);
    hide Passes, Gathered, Keyed;
    if d.Some? {
      assert d.value.key == "sentinel|" + (s.TailOf(e).product + "|" + e.srcIP);
      KeyedBy(d.value, "sentinel|", s.TailOf(e).product + "|" + e.srcIP);
    }
  }

  /** Whatever the engine fires is called something, under a key that begins with the word of its kind. */
  lemma FiredIsKeyed(t: Tuning, h: seq<Event>, e: Event, x: Others)
    requires x.OfTheirKinds()
    ensures forall d :: d in Fired(t, h, e, x) ==> Keyed(d)
  {
    hide D.Emit, Tripped, Keyed, Listed;
    BruteKeyed(t.detect, h, e);
    ScanKeyed(t.detect, h, e);
    TrippedKeyed(t.AsSentry(), h, e);
    ListedKeyed(D.Emit(D.Brute, t.detect, h, e));
    ListedKeyed(D.Emit(D.Scan, t.detect, h, e));
    ListedKeyed(Tripped(t.AsSentry(), h, e));
    ListedKeyed(x.exfil);
    ListedKeyed(x.admin);
    ListedKeyed(x.spike);
    ListedKeyed(x.beacon);
    ListedKeyed(x.service);
  }

  lemma ListedKeyed(d: Option<Detection>)
    requires d.Some? ==> Keyed(d.value)
    ensures forall y :: y in Listed(d) ==> Keyed(y)
  {
    hide Keyed;
  }

  lemma CreatedKeyed(cooldown: int, h: seq<Event>, e: Event)
    ensures var d := Created(cooldown, h, e); d.Some? ==> d.value.kind == NewAdmin && Keyed(d.value)
  {
    var d := Created(cooldown, h, e);
    if d.Some? {
      assert d.value.key == "newadmin|" + (OrAny(e.host) + "|" + OrAny(e.user));
      KeyedBy(d.value, "newadmin|", OrAny(e.host) + "|" + OrAny(e.user));
    }
  }
}
