/** What the two write paths share: both stores, and the write of path A. */
module Worlds {
  import opened Collector
  import opened Findings
  import LogStore
  import opened Wire

  /** Both stores: the configured sources and active detections, and the findings. */
  datatype World = World(sources: map<string, string>, dets: LogStore.Detections, recs: Records)

  datatype Backends = Backends(log: Backend, findings: Backend)

  /** The record path A writes, whatever was there before. */
  function Written(d: DetectionRecord, id: string): Record
  {
    Record(DetectionFinding(d).(id := id, mod := MODULE_ID, status := Open, firstSeen := d.firstAt, lastSeen := d.lastAt), 0)
  }

  function Write(bs: Backends, w: World, d: DetectionRecord, id: string): World
  {
    World(w.sources, LogStore.Keep(bs.log, w.dets, d), Upsert(bs.findings, w.recs, Written(d, id)))
  }

  /**
   * The firing d has been written with the id drawn: an open finding that shows d, first and last
   * seen when d was. SQLite keeps the id, target, check and first time of a row that is there.
   */
  ghost predicate StoresFiring(backend: Backend, before: Records, after: Records, d: DetectionRecord, id: string)
  {
    var k := Key("loglight", "loglight|" + d.source + "|" + d.check + "|" + d.key);
    && after.Keys == before.Keys + {k}
    && (forall j :: j in before && j != k ==> after[j] == before[j])
    && after[k].absentStreak == 0
    && var g := after[k].finding;
       && g.mod == "loglight" && g.status == Open && g.lastSeen == d.lastAt && g.resolvedAt == None
       && if backend == Sqlite && k in before then
            && Shows(g.(target := d.source, check := d.check), d)
            && g.id == before[k].finding.id && g.target == before[k].finding.target
            && g.check == before[k].finding.check && g.firstSeen == before[k].finding.firstSeen
          else Shows(g, d) && g.id == id && g.firstSeen == d.firstAt
  }

  lemma WriteStores(bs: Backends, w: World, d: DetectionRecord, id: string)
    ensures StoresFiring(bs.findings, w.recs, Write(bs, w, d, id).recs, d, id)
    ensures Write(bs, w, d, id).sources == w.sources
  {
    var f := DetectionFinding(d);
    DetectionShown(d);
    assert Shows(f.(id := id, mod := MODULE_ID, status := Open, firstSeen := d.firstAt, lastSeen := d.lastAt), d);
    hide DetectionFinding, Graded, Blank, LogStore.Keep;
  }
}
