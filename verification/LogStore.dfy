/** The store of configured sources and active detections. */
module LogStore {
  import opened Findings
  import opened Wire

  /** A detection or incident as it is kept; its evidence stands for everything the finding shows of it. */
  datatype DetectionRecord = DetectionRecord(
    source: string, key: string, check: string, severity: Severity, actor: string, target: string,
    title: string, evidence: Evidence, fix: string, count: int, firstAt: int, lastAt: int)

  type Slot = (string, string)

  function SlotOf(d: DetectionRecord): Slot
  {
    (d.source, d.key)
  }

  type Detections = map<Slot, DetectionRecord>

  predicate Slotted(dets: Detections)
  {
    forall k :: k in dets ==> SlotOf(dets[k]) == k
  }

  function Earlier(a: int, b: int): int
  {
    if a < b then a else b
  }

  /** A recurrence; SQLite's conflict rule keeps the columns it does not list. */
  function Recur(backend: Backend, row: DetectionRecord, d: DetectionRecord): DetectionRecord
  {
    match backend
    case Memory => d.(firstAt := Earlier(row.firstAt, d.firstAt))
    case Sqlite =>
      row.(severity := d.severity, title := d.title, evidence := d.evidence, count := d.count,
            lastAt := d.lastAt, firstAt := Earlier(row.firstAt, d.firstAt))
  }

  function Keep(backend: Backend, dets: Detections, d: DetectionRecord): Detections
  {
    dets[SlotOf(d) := if SlotOf(d) in dets then Recur(backend, dets[SlotOf(d)], d) else d]
  }

  /** What is left once everything last seen before a moment is gone. */
  function PrunedBefore(dets: Detections, before: int): Detections
  {
    map k | k in dets && dets[k].lastAt >= before :: dets[k]
  }

  /** Deleting a source takes its detections with it in SQLite, and leaves them in memory. */
  function WithoutSource(backend: Backend, dets: Detections, name: string): Detections
  {
    if backend == Memory then dets else map k | k in dets && dets[k].source != name :: dets[k]
  }

  /** ds lists, each once, the detections of one source, or of all when the name is empty. */
  ghost predicate Lists(ds: seq<DetectionRecord>, dets: Detections, name: string)
  {
    && (forall d :: d in ds <==> SlotOf(d) in dets && dets[SlotOf(d)] == d && (name == "" || d.source == name))
    && forall i, j :: 0 <= i < j < |ds| ==> SlotOf(ds[i]) != SlotOf(ds[j])
  }

  class Store {
    const backend: Backend
    var sources: map<string, string>
    var dets: Detections

    constructor (backend: Backend)
      ensures this.backend == backend && sources == map[] && dets == map[]
    {
      this.backend := backend;
      sources := map[];
      dets := map[];
    }

    method PutSource(name: string, kind: string)
      modifies this
      ensures sources == old(sources)[name := kind] && dets == old(dets)
    {
      sources := sources[name := kind];
    }

    method GetSource(name: string) returns (kind: Option<string>)
      ensures kind == if name in sources then Some(sources[name]) else None
    {
      kind := if name in sources then Some(sources[name]) else None;
    }

    method DeleteSource(name: string)
      modifies this
      ensures sources == old(sources) - {name} && dets == WithoutSource(backend, old(dets), name)
    {
      sources := sources - {name};
      if backend == Sqlite {
        var rest := dets.Keys;
        ghost var was := dets;
        while rest != {}
          invariant rest <= was.Keys
          invariant sources == old(sources) - {name}
          invariant dets == map k | k in was && (k in rest || was[k].source != name) :: was[k]
          decreases rest
        {
          var k :| k in rest;
          rest := rest - {k};
          if dets[k].source == name {
            dets := dets - {k};
          }
        }
      }
    }

    method UpsertDetection(d: DetectionRecord)
      modifies this
      ensures dets == Keep(backend, old(dets), d) && sources == old(sources)
    {
      var r := d;
      if SlotOf(d) in dets {
        var existing := dets[SlotOf(d)];
        if backend == Sqlite {
          r := existing.(severity := d.severity, title := d.title, evidence := d.evidence,
                         count := d.count, lastAt := d.lastAt, firstAt := d.firstAt);
        }
        if existing.firstAt < d.firstAt {
          r := r.(firstAt := existing.firstAt);
        }
      }
      dets := dets[SlotOf(d) := r];
    }

    method ListDetections(name: string) returns (out: seq<DetectionRecord>)
      requires Slotted(dets)
      ensures Lists(out, dets, name)
    {
      out := [];
      var rest := dets.Keys;
      while rest != {}
        invariant rest <= dets.Keys
        invariant forall d :: d in out <==> SlotOf(d) in dets.Keys - rest && dets[SlotOf(d)] == d && (name == "" || d.source == name)
        invariant forall i, j :: 0 <= i < j < |out| ==> SlotOf(out[i]) != SlotOf(out[j])
        decreases rest
      {
        var k :| k in rest;
        rest := rest - {k};
        if name == "" || dets[k].source == name {
          assert SlotOf(dets[k]) == k;
          out := out + [dets[k]];
        }
      }
    }

    method PruneDetections(before: int)
      modifies this
      ensures dets == PrunedBefore(old(dets), before) && sources == old(sources)
    {
      var rest := dets.Keys;
      ghost var was := dets;
      while rest != {}
        invariant rest <= was.Keys && sources == old(sources)
        invariant dets == map k | k in was && (k in rest || was[k].lastAt >= before) :: was[k]
        decreases rest
      {
        var k :| k in rest;
        rest := rest - {k};
        if dets[k].lastAt < before {
          dets := dets - {k};
        }
      }
    }
  }
}
