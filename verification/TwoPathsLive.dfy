/** The pipeline and the collector as they run are runs of the two paths. */
module TwoPathsLive {
  import opened Collector
  import Correlator
  import opened Detections
  import Engine
  import opened Events
  import opened Findings
  import opened Lifecycle
  import opened LineText
  import LogStore
  import opened Pipeline
  import Reconciler
  import opened TwoPaths
  import opened Wire
  import opened Worlds

  // ---------------------------------------------------------------- what an event writes is a run

  function Firings(ds: seq<DetectionRecord>, ids: seq<string>, n: nat): (run: seq<Op>)
    ensures |run| == |ds|
  {
    seq(|ds|, i requires 0 <= i < |ds| => Fired(ds[i], IdAt(ids, n + i)))
  }

  /** The record of a firing of a source, which path B accepts. */
  ghost predicate Genuine(d: DetectionRecord, source: string)
  {
    d.source == source && Fireable(d.check, d.key) && d.title != ""
  }

  lemma {:induction false} WritesAreFirings(names: set<string>, bs: Backends, w: World, ds: seq<DetectionRecord>,
      ids: seq<string>, n: nat, source: string)
    requires Filed(w.recs) && source in names
    requires forall i :: 0 <= i < |ds| ==> Genuine(ds[i], source)
    ensures RunFrom(bs, w, Firings(ds, ids, n)) == WriteAll(bs, w, ds, ids, n)
    ensures Happened(names, bs, w, Firings(ds, ids, n))
  {
    hide Write, Fireable;
    if ds != [] {
      var init := ds[..|ds| - 1];
      WritesAreFirings(names, bs, w, init, ids, n, source);
      assert Firings(ds, ids, n)[..|ds| - 1] == Firings(init, ids, n);
    }
  }

  ghost predicate Titled(words: Wording)
  {
    forall inc :: words.titleOf(inc) != ""
  }

  lemma DetectionIsGenuine(source: string, d: Detection, words: Wording)
    requires Keyed(d)
    ensures Genuine(OfDetection(source, d, words), source)
  {
    hide KindName, KindWord, HasPrefix;
    assert Starts(d.key, OfKind(d.kind));
  }

  lemma IncidentIsGenuine(c: Correlator.Config, m: Correlator.Memory, op: Correlator.Op, source: string, words: Wording)
    requires Titled(words) && Correlator.Raise(c, m, op).Some?
    ensures Genuine(OfIncident(source, Correlator.Raise(c, m, op).value, words), source)
  {
    var inc := Correlator.Raise(c, m, op).value;
    ChainKey(c, m, op);
    hide Correlator.Raise, HasPrefix;
    assert Starts(inc.key, OfChain);
  }

  lemma ChainKey(c: Correlator.Config, m: Correlator.Memory, op: Correlator.Op)
    requires Correlator.Raise(c, m, op).Some?
    ensures HasPrefix(Correlator.Raise(c, m, op).value.key, "killchain" + "|")
  {
    var key := Correlator.Raise(c, m, op).value.key;
    assert key == "killchain|" + Correlator.ActorOf(op);
    assert "killchain" + "|" == "killchain|";
  }

  lemma {:induction false} DetectedIsGenuine(c: Correlator.Config, m: Correlator.Memory, source: string, ds: seq<Detection>, words: Wording)
    requires Titled(words) && forall i :: 0 <= i < |ds| ==> Keyed(ds[i])
    ensures forall r :: r in Detected(c, m, source, ds, words) ==> Genuine(r, source)
  {
    hide OneDetection, Genuine, Titled, Keyed;
    if ds != [] {
      DetectedIsGenuine(c, m, source, ds[..|ds| - 1], words);
      OneIsGenuine(c, MemoryAfter(c, m, ds[..|ds| - 1]), source, ds[|ds| - 1], words);
    }
  }

  lemma OneIsGenuine(c: Correlator.Config, m: Correlator.Memory, source: string, d: Detection, words: Wording)
    requires Titled(words) && Keyed(d)
    ensures forall r :: r in OneDetection(c, m, source, d, words) ==> Genuine(r, source)
  {
    DetectionIsGenuine(source, d, words);
    var m1 := Correlator.Step(c, m, Correlator.Detected(d));
    if Correlator.Raise(c, m1, Correlator.Tripped(d)).Some? {
      IncidentIsGenuine(c, m1, Correlator.Tripped(d), source, words);
    }
    hide Correlator.Step, Correlator.Raise, Genuine, Titled, Keyed, OfDetection, OfIncident;
  }

  /** Everything that path A writes for an event can be fired, and is accepted by path B. */
  lemma EmittedIsGenuine(c: Correlator.Config, m: Correlator.Memory, e: Event, ds: seq<Detection>, words: Wording)
    requires Titled(words) && forall i :: 0 <= i < |ds| ==> Keyed(ds[i])
    ensures forall r :: r in Emitted(c, m, e, ds, words) ==>
              Genuine(r, e.sourceId) && (e.sourceId != "" ==> Valid(DetectionFinding(r)))
  {
    DetectedIsGenuine(c, m, e.sourceId, ds, words);
    var m1 := MemoryAfter(c, m, ds);
    if Correlator.Raise(c, m1, Login(e)).Some? {
      IncidentIsGenuine(c, m1, Login(e), e.sourceId, words);
    }
    hide Detected, MemoryAfter, Correlator.Raise, Genuine, Titled, Keyed, OfIncident, Validate, DetectionFinding;
    forall r | r in Emitted(c, m, e, ds, words)
      ensures Genuine(r, e.sourceId) && (e.sourceId != "" ==> Valid(DetectionFinding(r)))
    {
      GenuineAccepted(r, e.sourceId);
    }
  }

  lemma GenuineAccepted(r: DetectionRecord, source: string)
    ensures Genuine(r, source) && source != "" ==> Valid(DetectionFinding(r))
  {
    if Genuine(r, source) {
      NamedChecks(r.check, r.key);
      AcceptedIff(r);
    }
  }

  /** So the runs above are the runs of the pipeline: an event is a possible run of firings. */
  lemma EventIsRun(names: set<string>, bs: Backends, w: World, c: Correlator.Config, m: Correlator.Memory, e: Event,
      ds: seq<Detection>, words: Wording, ids: seq<string>)
    requires Filed(w.recs) && e.sourceId in names
    requires Titled(words) && forall i :: 0 <= i < |ds| ==> Keyed(ds[i])
    ensures var out := Emitted(c, m, e, ds, words);
            RunFrom(bs, w, Firings(out, ids, 0)) == WriteAll(bs, w, out, ids, 0) &&
            Happened(names, bs, w, Firings(out, ids, 0))
  {
    EmittedIsGenuine(c, m, e, ds, words);
    hide *;
    var out := Emitted(c, m, e, ds, words);
    assert forall i :: 0 <= i < |out| ==> out[i] in out;
    WritesAreFirings(names, bs, w, out, ids, 0, e.sourceId);
  }

  /** A real firing is still open after the next scan exactly when its source exists and it is active. */
  lemma RealFiringSurvivesIff(names: set<string>, bs: Backends, w: World, r: DetectionRecord, id: string, s: Scan, rate: Option<real>)
    requires Inv(names, w) && r.source in names && Genuine(r, r.source) && s.target == r.source
    requires Possible(names, Write(bs, w, r, id), Scanned(s, rate))
    ensures var after := AfterScan(bs.findings, LOGLIGHT, Write(bs, w, r, id).recs, s);
            StatusOf(w.(recs := after), DetectionPrint(r)) ==
              Some(if r.source in w.sources && Active(r, s.now) then Open else Resolved)
  {
    FiredSurvivesIff(names, bs, w, r, id, s, rate);
    hide Inv, StatusOf, Write, AfterScan, Active, Fireable, DetectionPrint;
  }

  /** And so is what the engine fires on an event, after whatever events. */
  lemma EngineEventIsRun(names: set<string>, bs: Backends, w: World, c: Correlator.Config, m: Correlator.Memory,
      t: Engine.Tuning, h: seq<Event>, e: Event, x: Engine.Others, words: Wording, ids: seq<string>)
    requires Filed(w.recs) && e.sourceId in names && Titled(words) && x.OfTheirKinds()
    ensures var out := Emitted(c, m, e, Engine.Fired(t, h, e, x), words);
            RunFrom(bs, w, Firings(out, ids, 0)) == WriteAll(bs, w, out, ids, 0) &&
            Happened(names, bs, w, Firings(out, ids, 0)) &&
            forall r :: r in out ==> Genuine(r, e.sourceId)
  {
    var ds := Engine.Fired(t, h, e, x);
    Engine.FiredIsKeyed(t, h, e, x);
    hide *;
    assert forall i :: 0 <= i < |ds| ==> ds[i] in ds;
    EventIsRun(names, bs, w, c, m, e, ds, words, ids);
    EmittedIsGenuine(c, m, e, ds, words);
  }

  // ---------------------------------------------------------------- a scan as it runs

  /** Collect and reconcile, as one scan of one source; a scan that is cancelled reconciles nothing. */
  method Poll(ghost names: set<string>, path: Collector, engine: Reconciler.Engine, name: string, now: int,
      rate: Option<real>, ids: seq<string>, cancelled: nat -> bool)
    returns (res: Option<Reconciler.ReconcileResult>, s: Scan)
    requires name in names
    requires Inv(names, World(path.store.sources, path.store.dets, engine.store.recs))
    modifies engine.store
    ensures res.None? ==> engine.store.recs == old(engine.store.recs) && exists i :: cancelled(i)
    ensures res.Some? ==>
            var w := World(path.store.sources, path.store.dets, old(engine.store.recs));
            s.target == name && s.now == now && Possible(names, w, Scanned(s, rate)) &&
            World(path.store.sources, path.store.dets, engine.store.recs) ==
              Step(Backends(path.store.backend, engine.store.backend), w, Scanned(s, rate)) &&
            res.value.newlyOpen == NewlyOpen(engine.store.backend, LOGLIGHT, w.recs, s) &&
            Reconciler.Announces(ResolvedKeys(LOGLIGHT, w.recs, s), LOGLIGHT, s, w.recs, res.value.resolved)
  {
    hide AfterScan, NewlyOpen, Owners, DetectionPrint, Report, LogStore.Lists;
    var reported := path.Collect(name, now, rate, cancelled);
    if reported.None? {
      return None, Scan(name, [], now, ids);
    }
    s := Scan(name, reported.value, now, ids);
    var result := engine.Reconcile(LOGLIGHT, s);
    res := Some(result);
  }
}
