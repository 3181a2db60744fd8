/** Path A: every detection and incident is written as an open finding the moment it fires. */
module Pipeline {
  import opened Collector
  import Correlator
  import opened Detections
  import opened Events
  import opened Findings
  import LogStore
  import opened Wire
  import opened Worlds

  /** The prose of a finding: what a detection or an incident is called, what to do, what to show. */
  datatype Wording = Wording(
    fixFor: Kind -> string, chainFix: string, titleOf: Correlator.Incident -> string,
    evidenceOf: Detection -> Evidence, timeline: Correlator.Incident -> Evidence)

  function SeverityOf(text: string): Severity
  {
    if text == "critical" then Critical
    else if text == "high" then High
    else if text == "medium" then Medium
    else if text == "low" then Low
    else if text == "info" then Info
    else Unknown(text)
  }

  function OfDetection(source: string, d: Detection, words: Wording): DetectionRecord
  {
    LogStore.DetectionRecord(source, d.key, CheckName(OfKind(d.kind)), SeverityOf(d.severity), d.actor, d.target,
      d.title, words.evidenceOf(d), words.fixFor(d.kind), d.count, d.firstAt, d.lastAt)
  }

  function OfIncident(source: string, inc: Correlator.Incident, words: Wording): DetectionRecord
  {
    LogStore.DetectionRecord(source, inc.key, CheckName(OfChain), SeverityOf(inc.severity), inc.actor, inc.target,
      words.titleOf(inc), words.timeline(inc), words.chainFix, |inc.members|, inc.firstAt, inc.lastAt)
  }

  /** The word for a severity, and the severity. */
  predicate SaysSeverity(text: string, s: Severity)
  {
    && (text == "critical" <==> s == Critical) && (text == "high" <==> s == High) && (text == "medium" <==> s == Medium)
    && (text == "low" <==> s == Low) && (text == "info" <==> s == Info)
  }

  /** The record of a firing tells its source what fired, under the check of its kind and its own key. */
  lemma FiringRecorded(source: string, d: Detection, words: Wording)
    ensures var r := OfDetection(source, d, words);
            && r.source == source && r.key == d.key && r.check == "detect." + KindName(d.kind)
            && SaysSeverity(d.severity, r.severity) && r.title == d.title && r.actor == d.actor && r.target == d.target
            && r.evidence == words.evidenceOf(d) && r.fix == words.fixFor(d.kind)
            && r.count == d.count && r.firstAt == d.firstAt && r.lastAt == d.lastAt
  {
  }

  lemma IncidentRecorded(source: string, inc: Correlator.Incident, words: Wording)
    ensures var r := OfIncident(source, inc, words);
            && r.source == source && r.key == inc.key && r.check == "incident.killchain"
            && SaysSeverity(inc.severity, r.severity) && r.title == words.titleOf(inc) && r.actor == inc.actor && r.target == inc.target
            && r.evidence == words.timeline(inc) && r.fix == words.chainFix
            && r.count == |inc.members| && r.firstAt == inc.firstAt && r.lastAt == inc.lastAt
  {
  }

  function IdAt(ids: seq<string>, i: nat): string
  {
    if i < |ids| then ids[i] else ""
  }

  /** Writes in order, with the ids from place n on. */
  function WriteAll(bs: Backends, w: World, ds: seq<DetectionRecord>, ids: seq<string>, n: nat): World
  {
    if ds == [] then w
    else
      var last := |ds| - 1;
      Write(bs, WriteAll(bs, w, ds[..last], ids, n), ds[last], IdAt(ids, n + last))
  }

  lemma {:induction false} WriteAllAppend(bs: Backends, w: World, ds: seq<DetectionRecord>, more: seq<DetectionRecord>,
      ids: seq<string>, n: nat)
    ensures WriteAll(bs, w, ds + more, ids, n) == WriteAll(bs, WriteAll(bs, w, ds, ids, n), more, ids, n + |ds|)
  {
    hide Write, IdAt;
    if more == [] {
      assert ds + more == ds;
    } else {
      assert (ds + more)[..|ds + more| - 1] == ds + more[..|more| - 1];
      WriteAllAppend(bs, w, ds, more[..|more| - 1], ids, n);
    }
  }

  // ---------------------------------------------------------------- what one event emits

  function AfterDetection(c: Correlator.Config, m: Correlator.Memory, d: Detection): Correlator.Memory
  {
    Correlator.Step(c, Correlator.Step(c, m, Correlator.Detected(d)), Correlator.Tripped(d))
  }

  function Chain(source: string, inc: Option<Correlator.Incident>, words: Wording): seq<DetectionRecord>
  {
    if inc.Some? then [OfIncident(source, inc.value, words)] else []
  }

  /** A detection, and the incident that it closes by itself, if it does. */
  function OneDetection(c: Correlator.Config, m: Correlator.Memory, source: string, d: Detection, words: Wording): seq<DetectionRecord>
  {
    [OfDetection(source, d, words)] +
    Chain(source, Correlator.Raise(c, Correlator.Step(c, m, Correlator.Detected(d)), Correlator.Tripped(d)), words)
  }

  function MemoryAfter(c: Correlator.Config, m: Correlator.Memory, ds: seq<Detection>): Correlator.Memory
  {
    if ds == [] then m else AfterDetection(c, MemoryAfter(c, m, ds[..|ds| - 1]), ds[|ds| - 1])
  }

  function Detected(c: Correlator.Config, m: Correlator.Memory, source: string, ds: seq<Detection>, words: Wording): seq<DetectionRecord>
  {
    if ds == [] then []
    else
      var init := ds[..|ds| - 1];
      Detected(c, m, source, init, words) + OneDetection(c, MemoryAfter(c, m, init), source, ds[|ds| - 1], words)
  }

  function Login(e: Event): Correlator.Op
  {
    Correlator.LoggedIn(Actor(e), e.host, e.user, e.timestamp, e.raw)
  }

  /** Everything path A writes for one event whose detectors fired ds, in order. */
  function Emitted(c: Correlator.Config, m: Correlator.Memory, e: Event, ds: seq<Detection>, words: Wording): seq<DetectionRecord>
  {
    Detected(c, m, e.sourceId, ds, words) +
    if e.auth == Success then Chain(e.sourceId, Correlator.Raise(c, MemoryAfter(c, m, ds), Login(e)), words) else []
  }

  function MemoryOf(c: Correlator.Config, m: Correlator.Memory, e: Event, ds: seq<Detection>): Correlator.Memory
  {
    if e.auth == Success then Correlator.Step(c, MemoryAfter(c, m, ds), Login(e)) else MemoryAfter(c, m, ds)
  }

  function FindingsOf(ds: seq<DetectionRecord>): seq<Finding>
  {
    seq(|ds|, i requires 0 <= i < |ds| => DetectionFinding(ds[i]))
  }

  // ---------------------------------------------------------------- the pipeline as it runs

  class Pipeline {
    const corr: Correlator.Correlator
    const log: LogStore.Store
    const store: FindingStore
    const words: Wording
    /** The findings handed to the dispatcher as opened. */
    var announced: seq<Finding>

    ghost function Contents(): World
      reads this, log, store
    {
      World(log.sources, log.dets, store.recs)
    }

    function Stores(): Backends
    {
      Backends(log.backend, store.backend)
    }

    function Tuning(): Correlator.Config
    {
      Correlator.Config(corr.window, corr.cool)
    }

    constructor (corr: Correlator.Correlator, log: LogStore.Store, store: FindingStore, words: Wording)
      ensures this.corr == corr && this.log == log && this.store == store && this.words == words && announced == []
    {
      this.corr, this.log, this.store, this.words, announced := corr, log, store, words, [];
    }

    method PersistAndEmit(d: DetectionRecord, id: string)
      modifies this, log, store
      ensures Contents() == Write(Stores(), old(Contents()), d, id)
      ensures announced == old(announced) + [DetectionFinding(d)]
      ensures Shows(announced[|old(announced)|], d) && StoresFiring(store.backend, old(store.recs), store.recs, d, id)
    {
      DetectionShown(d);
      WriteStores(Stores(), Contents(), d, id);
      hide Upsert, Shows, StoresFiring;
      log.UpsertDetection(d);
      var f := DetectionFinding(d);
      store.Put(Record(f.(id := id, mod := MODULE_ID, status := Open, firstSeen := d.firstAt, lastSeen := d.lastAt), 0));
      announced := announced + [f];
    }

    /** A chain that is complete is written like any detection. */
    method EmitChain(source: string, inc: Option<Correlator.Incident>, ids: seq<string>, n: nat) returns (next: nat)
      modifies this, log, store
      ensures var out := Chain(source, inc, words);
              Contents() == WriteAll(Stores(), old(Contents()), out, ids, n) &&
              announced == old(announced) + FindingsOf(out) && next == n + |out|
    {
      hide Write, OfIncident, DetectionFinding;
      next := n;
      if inc.Some? {
        var rec := OfIncident(source, inc.value, words);
        Single(Stores(), Contents(), rec, ids, n);
        PersistAndEmit(rec, IdAt(ids, n));
        next := n + 1;
      }
    }

    method HandleDetection(source: string, d: Detection, ids: seq<string>, n: nat) returns (next: nat)
      modifies this, corr, log, store
      ensures var out := OneDetection(Tuning(), old(corr.Contents()), source, d, words);
              Contents() == WriteAll(Stores(), old(Contents()), out, ids, n) &&
              announced == old(announced) + FindingsOf(out) && next == n + |out|
      ensures corr.Contents() == AfterDetection(Tuning(), old(corr.Contents()), d)
    {
      hide Write, OfDetection, OfIncident, DetectionFinding, Correlator.Step, Correlator.Raise, WriteAll, Chain, Shows, StoresFiring, FindingsOf, IdAt;
      ghost var w := Contents();
      corr.ObserveDetection(d);
      var rec := OfDetection(source, d, words);
      Single(Stores(), w, rec, ids, n);
      PersistAndEmit(rec, IdAt(ids, n));
      var inc := corr.ObserveSentinelFinding(d);
      next := EmitChain(source, inc, ids, n + 1);
      WriteAllAppend(Stores(), w, [rec], Chain(source, inc, words), ids, n);
      FindingsAppend([rec], Chain(source, inc, words));
    }

    /** One event, with what the detectors made of it and the ids drawn for the records it writes. */
    method Handle(e: Event, ds: seq<Detection>, ids: seq<string>)
      modifies this, corr, log, store
      ensures var out := Emitted(Tuning(), old(corr.Contents()), e, ds, words);
              Contents() == WriteAll(Stores(), old(Contents()), out, ids, 0) &&
              announced == old(announced) + FindingsOf(out)
      ensures corr.Contents() == MemoryOf(Tuning(), old(corr.Contents()), e, ds)
    {
      hide Write, WriteAll, OneDetection, AfterDetection, Chain, FindingsOf, Correlator.Step, Correlator.Raise;
      ghost var m0, w0, a0 := corr.Contents(), Contents(), announced;
      ghost var out: seq<DetectionRecord> := [];
      var n := 0;
      Nothing(Stores(), w0, ids);
      for i := 0 to |ds|
        invariant out == Detected(Tuning(), m0, e.sourceId, ds[..i], words) && n == |out|
        invariant corr.Contents() == MemoryAfter(Tuning(), m0, ds[..i])
        invariant Contents() == WriteAll(Stores(), w0, out, ids, 0)
        invariant announced == a0 + FindingsOf(out)
      {
        assert ds[..i + 1][..i] == ds[..i];
        ghost var more := OneDetection(Tuning(), corr.Contents(), e.sourceId, ds[i], words);
        WriteAllAppend(Stores(), w0, out, more, ids, 0);
        FindingsAppend(out, more);
        n := HandleDetection(e.sourceId, ds[i], ids, n);
        out := out + more;
      }
      assert ds[..|ds|] == ds;
      if e.auth == Success {
        var inc := corr.ObserveSuccess(Actor(e), e.host, e.user, e.timestamp, e.raw);
        WriteAllAppend(Stores(), w0, out, Chain(e.sourceId, inc, words), ids, 0);
        FindingsAppend(out, Chain(e.sourceId, inc, words));
        n := EmitChain(e.sourceId, inc, ids, n);
      } else {
        assert out + [] == out;
      }
    }
  }

  lemma Nothing(bs: Backends, w: World, ids: seq<string>)
    ensures WriteAll(bs, w, [], ids, 0) == w && FindingsOf([]) == []
  {
  }

  lemma Single(bs: Backends, w: World, d: DetectionRecord, ids: seq<string>, n: nat)
    ensures WriteAll(bs, w, [d], ids, n) == Write(bs, w, d, IdAt(ids, n)) && FindingsOf([d]) == [DetectionFinding(d)]
  {
    hide Write, DetectionFinding;
    assert [d][..0] == [];
  }

  lemma FindingsAppend(ds: seq<DetectionRecord>, more: seq<DetectionRecord>)
    ensures FindingsOf(ds + more) == FindingsOf(ds) + FindingsOf(more)
  {
    hide DetectionFinding;
  }
}
