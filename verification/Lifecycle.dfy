/** What one scan does to the records: reconciliation as a function. */
module Lifecycle {
  import opened Wire
  import opened Findings

  datatype Module = Module(id: string, resolveAfter: int)
  {
    function Threshold(): (t: int)
      ensures t >= 1
    {
      if resolveAfter < 1 then 1 else resolveAfter
    }
  }

  /** One scan of one target: what the collector reported, the clock, and the ids drawn for new records. */
  datatype Scan = Scan(target: string, reported: seq<Finding>, now: int, ids: seq<string>)
  {
    function IdAt(i: nat): string
    {
      if i < |ids| then ids[i] else ""
    }
  }

  /** The record of fingerprint fp that the scan finds filed under its own module and target. */
  function Listed(recs: Records, m: Module, target: string, fp: string): Option<Record>
  {
    var k := Key(m.id, fp);
    if k in recs && recs[k].finding.target == target then Some(recs[k]) else None
  }

  function Seen(reported: seq<Finding>): set<string>
  {
    set f | f in reported && Valid(f) :: f.fingerprint
  }

  function Insert(m: Module, f: Finding, now: int, id: string): Record
  {
    Record(f.(id := id, mod := m.id, status := Open, firstSeen := now, lastSeen := now), 0)
  }

  function Refresh(prev: Record, f: Finding, now: int): Record
  {
    var g := prev.finding.(title := f.title, severity := f.severity, remediation := f.remediation,
                           evidence := f.evidence, lastSeen := now);
    Record(if g.status == Resolved then g.(status := Open, resolvedAt := None) else g, 0)
  }

  datatype Progress = Progress(recs: Records, newlyOpen: seq<Finding>, rejected: seq<(Finding, Reason)>)

  /** The record a valid finding is written as; start holds the records as the scan read them. */
  function Incoming(m: Module, start: Records, s: Scan, i: nat): Record
    requires i < |s.reported|
  {
    var f := CapEvidence(s.reported[i]);
    match Listed(start, m, s.target, f.fingerprint)
    case None => Insert(m, f, s.now, s.IdAt(i))
    case Some(prev) => Refresh(prev, f, s.now)
  }

  /** A finding is news when the scan does not list it, or lists it as resolved. */
  predicate IsNews(m: Module, start: Records, s: Scan, fp: string)
  {
    match Listed(start, m, s.target, fp)
    case None => true
    case Some(prev) => prev.finding.status == Resolved
  }

  /** What one reported finding does. */
  function Ingest(backend: Backend, m: Module, start: Records, s: Scan, i: nat, p: Progress): Progress
    requires i < |s.reported|
  {
    match Validate(s.reported[i])
    case Some(why) => p.(rejected := p.rejected + [(s.reported[i], why)])
    case None =>
      var r := Incoming(m, start, s, i);
      Progress(Upsert(backend, p.recs, r),
               p.newlyOpen + if IsNews(m, start, s, s.reported[i].fingerprint) then [r.finding] else [],
               p.rejected)
  }

  function IngestUpTo(backend: Backend, m: Module, start: Records, s: Scan, n: nat): Progress
    requires n <= |s.reported|
  {
    if n == 0 then Progress(start, [], [])
    else Ingest(backend, m, start, s, n - 1, IngestUpTo(backend, m, start, s, n - 1))
  }

  /** The collector did not report r, and nobody has settled it. */
  predicate Overdue(s: Scan, r: Record)
  {
    r.finding.fingerprint !in Seen(s.reported) && r.finding.status !in {Resolved, Suppressed}
  }

  /** One more absence and r is resolved. */
  predicate Expires(r: Record, m: Module)
  {
    r.absentStreak + 1 >= m.Threshold()
  }

  /** A record that the scan lists and finds overdue. */
  predicate Ages(start: Records, m: Module, s: Scan, k: Key)
  {
    k in start && k.mod == m.id && start[k].finding.target == s.target && Overdue(s, start[k])
  }

  function Aged(r: Record, m: Module, now: int): Record
  {
    if Expires(r, m)
    then Record(r.finding.(status := Resolved, resolvedAt := Some(now)), r.absentStreak + 1)
    else r.(absentStreak := r.absentStreak + 1)
  }

  /** The records once every unreported one has aged. */
  function AgeAll(backend: Backend, m: Module, start: Records, s: Scan, recs: Records): Records
    requires forall k :: Ages(start, m, s, k) ==> k in recs
  {
    map k | k in recs :: if Ages(start, m, s, k) then Merge(backend, recs[k], Aged(start[k], m, s.now)) else recs[k]
  }

  /** Nothing is lost, and only reported fingerprints of the module change. */
  ghost predicate Kept(m: Module, s: Scan, start: Records, recs: Records)
  {
    && start.Keys <= recs.Keys
    && forall k :: k in start && (k.mod != m.id || k.fingerprint !in Seen(s.reported)) ==> recs[k] == start[k]
  }

  lemma IncomingKey(m: Module, start: Records, s: Scan, i: nat)
    requires i < |s.reported| && Filed(start)
    ensures KeyOf(Incoming(m, start, s, i)) == Key(m.id, s.reported[i].fingerprint)
  {
  }

  lemma IngestKeepsOne(backend: Backend, m: Module, start: Records, s: Scan, i: nat, p: Progress)
    requires i < |s.reported| && Filed(start)
    requires Kept(m, s, start, p.recs)
    ensures Kept(m, s, start, Ingest(backend, m, start, s, i, p).recs)
  {
    IncomingKey(m, start, s, i);
    assert Valid(s.reported[i]) ==> s.reported[i].fingerprint in Seen(s.reported);
  }

  lemma {:induction false} IngestKeeps(backend: Backend, m: Module, start: Records, s: Scan, n: nat)
    requires n <= |s.reported| && Filed(start)
    ensures Kept(m, s, start, IngestUpTo(backend, m, start, s, n).recs)
  {
    hide Ingest;
    if n > 0 {
      IngestKeeps(backend, m, start, s, n - 1);
      IngestKeepsOne(backend, m, start, s, n - 1, IngestUpTo(backend, m, start, s, n - 1));
    }
  }

  /** The records after the whole scan. */
  function AfterScan(backend: Backend, m: Module, start: Records, s: Scan): Records
    requires Filed(start)
  {
    IngestKeeps(backend, m, start, s, |s.reported|);
    AgeAll(backend, m, start, s, IngestUpTo(backend, m, start, s, |s.reported|).recs)
  }

  lemma UpsertFiled(backend: Backend, recs: Records, r: Record)
    requires Filed(recs)
    ensures Filed(Upsert(backend, recs, r))
  {
  }

  lemma {:induction false} IngestFiled(backend: Backend, m: Module, start: Records, s: Scan, n: nat)
    requires n <= |s.reported| && Filed(start)
    ensures Filed(IngestUpTo(backend, m, start, s, n).recs)
  {
    hide Upsert, Incoming;
    if n > 0 {
      IngestFiled(backend, m, start, s, n - 1);
      UpsertFiled(backend, IngestUpTo(backend, m, start, s, n - 1).recs, Incoming(m, start, s, n - 1));
    }
  }

  lemma AfterScanFiled(backend: Backend, m: Module, start: Records, s: Scan)
    requires Filed(start)
    ensures Filed(AfterScan(backend, m, start, s))
  {
    IngestFiled(backend, m, start, s, |s.reported|);
  }

  function NewlyOpen(backend: Backend, m: Module, start: Records, s: Scan): seq<Finding>
  {
    IngestUpTo(backend, m, start, s, |s.reported|).newlyOpen
  }

  function ResolvedKeys(m: Module, start: Records, s: Scan): set<Key>
  {
    set k | k in start && Ages(start, m, s, k) && Expires(start[k], m)
  }
}
