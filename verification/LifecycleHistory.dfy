/** The stored records as a function of the scans alone, and the agreement of the two stores. */
module LifecycleHistory {
  import opened Wire
  import opened Findings
  import opened Lifecycle
  import opened LifecycleRuns

  // --- the discipline collectors keep --------------------------------------

  /** A collector reports only findings of the target it scans, and a fingerprint names one target. */
  ghost predicate Honest(s: Scan, owner: string -> string)
  {
    forall f :: f in s.reported && Valid(f) ==> f.target == s.target && owner(f.fingerprint) == s.target
  }

  ghost predicate Distinct(s: Scan)
  {
    forall i, j :: 0 <= i < j < |s.reported| && Valid(s.reported[i]) && Valid(s.reported[j])
              ==> s.reported[i].fingerprint != s.reported[j].fingerprint
  }

  ghost predicate Owned(m: Module, recs: Records, owner: string -> string)
  {
    forall k :: k in recs && k.mod == m.id ==> recs[k].finding.target == owner(k.fingerprint)
  }

  lemma {:induction false} DistinctOnce(s: Scan, fp: string, n: nat)
    requires n <= |s.reported| && Distinct(s)
    ensures Reports(s, fp, n) <= 1
  {
    if n > 0 {
      DistinctOnce(s, fp, n - 1);
      ReportsSeen(s, fp, n - 1);
    }
  }

  lemma HonestListed(m: Module, recs: Records, s: Scan, owner: string -> string, fp: string)
    requires Honest(s, owner) && Owned(m, recs, owner) && Reports(s, fp, |s.reported|) > 0
    ensures owner(fp) == s.target
    ensures Listed(recs, m, s.target, fp).Some? <==> Key(m.id, fp) in recs
  {
    ReportsSeen(s, fp, |s.reported|);
    assert Key(m.id, fp).fingerprint == fp;
  }

  lemma IngestOwnedOne(backend: Backend, m: Module, start: Records, s: Scan, i: nat, p: Progress, owner: string -> string)
    requires i < |s.reported| && Filed(start) && Honest(s, owner)
    requires Owned(m, start, owner) && Owned(m, p.recs, owner)
    ensures Owned(m, Ingest(backend, m, start, s, i, p).recs, owner)
  {
    IncomingKey(m, start, s, i);
    assert s.reported[i] in s.reported;
  }

  lemma {:induction false} IngestOwned(backend: Backend, m: Module, start: Records, s: Scan, n: nat, owner: string -> string)
    requires n <= |s.reported| && Filed(start) && Honest(s, owner) && Owned(m, start, owner)
    ensures Owned(m, IngestUpTo(backend, m, start, s, n).recs, owner)
  {
    hide Ingest;
    if n > 0 {
      IngestOwned(backend, m, start, s, n - 1, owner);
      IngestOwnedOne(backend, m, start, s, n - 1, IngestUpTo(backend, m, start, s, n - 1), owner);
    }
  }

  lemma ScanOwned(backend: Backend, m: Module, start: Records, s: Scan, owner: string -> string)
    requires Filed(start) && Honest(s, owner) && Owned(m, start, owner)
    ensures Owned(m, AfterScan(backend, m, start, s), owner)
  {
    IngestOwned(backend, m, start, s, |s.reported|, owner);
    IngestKeeps(backend, m, start, s, |s.reported|);
  }

  /** The discipline makes every scan clean, so its announcements are truthful. */
  lemma DisciplinedIsClean(m: Module, recs: Records, s: Scan, owner: string -> string, fp: string)
    requires Owned(m, recs, owner) && Honest(s, owner) && Distinct(s)
    ensures Clean(m, recs, Scanned(s), fp)
  {
    DistinctOnce(s, fp, |s.reported|);
    if Reports(s, fp, |s.reported|) > 0 {
      HonestListed(m, recs, s, owner, fp);
    }
  }

  // --- what the scans alone say about a fingerprint -------------------------

  /** First and last report, the scans of its target missed since, and when it was last given up. */
  datatype Past = Never | Past(first: int, last: int, missed: nat, closedAt: Option<int>)

  function Extend(past: Past, m: Module, s: Scan, fp: string, target: string): Past
  {
    if Reports(s, fp, |s.reported|) > 0 then Past(if past.Never? then s.now else past.first, s.now, 0, None)
    else if past.Never? || s.target != target then past
    else past.(missed := past.missed + 1, closedAt := if past.missed + 1 == m.Threshold() then Some(s.now) else past.closedAt)
  }

  function PastOf(m: Module, scans: seq<Scan>, fp: string, target: string): Past
  {
    if scans == [] then Never
    else Extend(PastOf(m, scans[..|scans| - 1], fp, target), m, scans[|scans| - 1], fp, target)
  }

  function AfterScans(backend: Backend, m: Module, scans: seq<Scan>): (recs: Records)
    ensures Filed(recs)
  {
    if scans == [] then map[]
    else
      var before := AfterScans(backend, m, scans[..|scans| - 1]);
      AfterScanFiled(backend, m, before, scans[|scans| - 1]);
      AfterScan(backend, m, before, scans[|scans| - 1])
  }

  /** The record at fp is the one its past calls for. */
  ghost predicate Recorded(m: Module, recs: Records, fp: string, past: Past)
  {
    var k := Key(m.id, fp);
    match past
    case Never => k !in recs
    case Past(first, last, missed, closedAt) =>
      k in recs && RecordFor(m, recs[k], past)
  }

  ghost predicate RecordFor(m: Module, r: Record, past: Past)
    requires past.Past?
  {
    && r.finding.firstSeen == past.first
    && r.finding.lastSeen == past.last
    && r.absentStreak == (if past.missed < m.Threshold() then past.missed else m.Threshold())
    && r.finding.status == (if past.missed < m.Threshold() then Open else Resolved)
    && (past.missed >= m.Threshold() ==> past.closedAt.Some? && r.finding.resolvedAt == past.closedAt)
  }

  lemma IncomingFirstSeen(m: Module, start: Records, s: Scan, i: nat)
    requires i < |s.reported| && Filed(start)
    ensures Incoming(m, start, s, i).finding.firstSeen ==
            match Listed(start, m, s.target, s.reported[i].fingerprint)
            case None => s.now
            case Some(prev) => prev.finding.firstSeen
  {
  }

  /** Recs at fp, if reported, has the first-seen time of the listed record, or else the scan's. */
  ghost predicate FirstSeenAt(m: Module, start: Records, s: Scan, n: nat, fp: string, recs: Records)
    requires n <= |s.reported|
  {
    var k := Key(m.id, fp);
    if Reports(s, fp, n) == 0 then (k in recs <==> k in start) && (k in recs ==> recs[k].finding.firstSeen == start[k].finding.firstSeen)
    else
      k in recs &&
      recs[k].finding.firstSeen ==
        match Listed(start, m, s.target, fp)
        case None => s.now
        case Some(prev) => prev.finding.firstSeen
  }

  lemma FirstSeenOne(backend: Backend, m: Module, start: Records, s: Scan, i: nat, fp: string, p: Progress)
    requires i < |s.reported| && Filed(start)
    requires Key(m.id, fp) in start ==> Listed(start, m, s.target, fp).Some? || Reports(s, fp, |s.reported|) == 0
    requires Reports(s, fp, i + 1) <= Reports(s, fp, |s.reported|)
    requires FirstSeenAt(m, start, s, i, fp, p.recs)
    ensures FirstSeenAt(m, start, s, i + 1, fp, Ingest(backend, m, start, s, i, p).recs)
  {
    IncomingKey(m, start, s, i);
    IncomingFirstSeen(m, start, s, i);
  }

  lemma {:induction false} ReportsGrow(s: Scan, fp: string, i: nat, j: nat)
    requires i <= j <= |s.reported|
    ensures Reports(s, fp, i) <= Reports(s, fp, j)
  {
    if i < j {
      ReportsGrow(s, fp, i, j - 1);
    }
  }

  lemma {:induction false} FirstSeenKept(backend: Backend, m: Module, start: Records, s: Scan, n: nat, fp: string)
    requires n <= |s.reported| && Filed(start)
    requires Key(m.id, fp) in start ==> Listed(start, m, s.target, fp).Some? || Reports(s, fp, |s.reported|) == 0
    ensures FirstSeenAt(m, start, s, n, fp, IngestUpTo(backend, m, start, s, n).recs)
  {
    hide Ingest;
    if n > 0 {
      FirstSeenKept(backend, m, start, s, n - 1, fp);
      ReportsGrow(s, fp, n, |s.reported|);
      FirstSeenOne(backend, m, start, s, n - 1, fp, IngestUpTo(backend, m, start, s, n - 1));
    }
  }

  lemma ScanRecorded(backend: Backend, m: Module, recs: Records, s: Scan, fp: string, owner: string -> string, past: Past)
    requires Filed(recs) && Owned(m, recs, owner) && Honest(s, owner)
    requires Recorded(m, recs, fp, past)
    ensures Recorded(m, AfterScan(backend, m, recs, s), fp, Extend(past, m, s, fp, owner(fp)))
  {
    ScanAt(backend, m, recs, s, fp);
    SeenIsReported(s, fp);
    var k := Key(m.id, fp);
    assert k in recs ==> recs[k].finding.target == owner(k.fingerprint) == owner(fp);
    if Reports(s, fp, |s.reported|) > 0 {
      HonestListed(m, recs, s, owner, fp);
      FirstSeenKept(backend, m, recs, s, |s.reported|, fp);
      IngestKeeps(backend, m, recs, s, |s.reported|);
      assert !Ages(recs, m, s, k);
    }
  }

  /**
   * With no user changes the store is a function of the scans: a record exists once reported,
   * keeps its first-seen time for ever, is resolved exactly when at least ResolveAfter scans of
   * its target in a row have missed it, and bears the time of the one that gave it up.
   */
  lemma {:induction false} StoreIsHistory(backend: Backend, m: Module, scans: seq<Scan>, fp: string, owner: string -> string)
    requires forall s :: s in scans ==> Honest(s, owner)
    ensures Owned(m, AfterScans(backend, m, scans), owner)
    ensures Recorded(m, AfterScans(backend, m, scans), fp, PastOf(m, scans, fp, owner(fp)))
  {
    if scans != [] {
      var before, s := scans[..|scans| - 1], scans[|scans| - 1];
      StoreIsHistory(backend, m, before, fp, owner);
      assert s in scans;
      ScanOwned(backend, m, AfterScans(backend, m, before), s, owner);
      ScanRecorded(backend, m, AfterScans(backend, m, before), s, fp, owner, PastOf(m, before, fp, owner(fp)));
    }
  }

  /** A scan announces the resolution of exactly the findings it is the ResolveAfter-th to miss. */
  lemma ClosesOnThreshold(backend: Backend, m: Module, scans: seq<Scan>, s: Scan, fp: string, owner: string -> string)
    requires forall t :: t in scans ==> Honest(t, owner)
    ensures var past := PastOf(m, scans, fp, owner(fp));
            Key(m.id, fp) in ResolvedKeys(m, AfterScans(backend, m, scans), s) <==>
              past.Past? && s.target == owner(fp) && Reports(s, fp, |s.reported|) == 0 && past.missed + 1 == if m.resolveAfter < 1 then 1 else m.resolveAfter
  {
    StoreIsHistory(backend, m, scans, fp, owner);
    SeenIsReported(s, fp);
    assert Key(m.id, fp).fingerprint == fp;
  }

  /** The clock of the last scan; the clocks never run backwards. */
  ghost predicate Monotone(scans: seq<Scan>)
  {
    forall i, j :: 0 <= i < j < |scans| ==> scans[i].now <= scans[j].now
  }

  lemma {:induction false} ClosedAfterLastSeen(m: Module, scans: seq<Scan>, fp: string, target: string)
    requires Monotone(scans)
    ensures var past := PastOf(m, scans, fp, target);
            past.Past? ==>
              && past.first <= past.last <= scans[|scans| - 1].now
              && (past.closedAt.Some? ==> past.last <= past.closedAt.value)
  {
    if scans != [] {
      ClosedAfterLastSeen(m, scans[..|scans| - 1], fp, target);
    }
  }

  /** With a clock that never runs backwards, a resolved record was resolved no earlier than it was last seen. */
  lemma ResolvedNotBeforeLastSeen(backend: Backend, m: Module, scans: seq<Scan>, fp: string, owner: string -> string)
    requires Monotone(scans) && forall s :: s in scans ==> Honest(s, owner)
    ensures var recs, k := AfterScans(backend, m, scans), Key(m.id, fp);
            k in recs ==>
              && recs[k].finding.firstSeen <= recs[k].finding.lastSeen
              && (recs[k].finding.status == Resolved ==>
                   recs[k].finding.resolvedAt.Some? && recs[k].finding.lastSeen <= recs[k].finding.resolvedAt.value)
              && (recs[k].finding.status == Open ==> 0 <= recs[k].absentStreak < if m.resolveAfter < 1 then 1 else m.resolveAfter)
  {
    StoreIsHistory(backend, m, scans, fp, owner);
    ClosedAfterLastSeen(m, scans, fp, owner(fp));
  }

  /** Reconcile leaves a suppressed finding suppressed exactly when it does not take it for a new one. */
  lemma SuppressedKeptIff(backend: Backend, m: Module, recs: Records, s: Scan, fp: string)
    requires Filed(recs) && StatusAt(m, recs, fp) == Some(Suppressed)
    ensures StatusAt(m, AfterScan(backend, m, recs, s), fp) == Some(Suppressed) <==>
            (Reports(s, fp, |s.reported|) > 0 ==> recs[Key(m.id, fp)].finding.target == s.target)
  {
    ScanAt(backend, m, recs, s, fp);
  }

  // --- the two stores agree -------------------------------------------------

  /** Every report either refreshes a listed record or is the first word of a fingerprint nobody holds. */
  ghost predicate Canonical(m: Module, recs: Records, s: Scan)
  {
    forall i :: 0 <= i < |s.reported| && Valid(s.reported[i]) ==>
      || Listed(recs, m, s.target, s.reported[i].fingerprint).Some?
      || (Key(m.id, s.reported[i].fingerprint) !in recs && Reports(s, s.reported[i].fingerprint, i) == 0)
  }

  /** The columns that the SQLite upsert never updates. */
  ghost predicate SameColumns(a: Record, b: Record)
  {
    && a.finding.id == b.finding.id && a.finding.target == b.finding.target
    && a.finding.check == b.finding.check && a.finding.firstSeen == b.finding.firstSeen
  }

  ghost predicate Stable(m: Module, start: Records, s: Scan, n: nat, recs: Records)
    requires n <= |s.reported|
  {
    && (forall k :: k in start && k in recs ==> SameColumns(recs[k], start[k]))
    && (forall k :: k in recs && k !in start ==> k.mod == m.id && Reports(s, k.fingerprint, n) > 0)
  }

  lemma StableOne(m: Module, start: Records, s: Scan, i: nat, p: Progress)
    requires i < |s.reported| && Filed(start) && Canonical(m, start, s)
    requires Stable(m, start, s, i, p.recs)
    ensures Ingest(Sqlite, m, start, s, i, p) == Ingest(Memory, m, start, s, i, p)
    ensures Stable(m, start, s, i + 1, Ingest(Memory, m, start, s, i, p).recs)
  {
    IncomingKey(m, start, s, i);
    var r := Incoming(m, start, s, i);
    if Valid(s.reported[i]) {
      BackendsAgreeIff(p.recs, r);
    }
  }

  lemma {:induction false} IngestAgrees(m: Module, start: Records, s: Scan, n: nat)
    requires n <= |s.reported| && Filed(start) && Canonical(m, start, s)
    ensures IngestUpTo(Sqlite, m, start, s, n) == IngestUpTo(Memory, m, start, s, n)
    ensures Stable(m, start, s, n, IngestUpTo(Memory, m, start, s, n).recs)
  {
    hide Ingest;
    if n > 0 {
      IngestAgrees(m, start, s, n - 1);
      StableOne(m, start, s, n - 1, IngestUpTo(Memory, m, start, s, n - 1));
    }
  }

  /** A canonical scan leaves equal records and gives equal results on either store. */
  lemma ScanAgrees(m: Module, start: Records, s: Scan)
    requires Filed(start) && Canonical(m, start, s)
    ensures AfterScan(Sqlite, m, start, s) == AfterScan(Memory, m, start, s)
    ensures NewlyOpen(Sqlite, m, start, s) == NewlyOpen(Memory, m, start, s)
  {
    hide IngestUpTo, Canonical;
    IngestAgrees(m, start, s, |s.reported|);
    IngestKeeps(Memory, m, start, s, |s.reported|);
    var mid := IngestUpTo(Memory, m, start, s, |s.reported|).recs;
    forall k | k in mid && Ages(start, m, s, k)
      ensures Merge(Sqlite, mid[k], Aged(start[k], m, s.now)) == Aged(start[k], m, s.now)
    {
      assert mid[k] == start[k];
    }
  }

  lemma DisciplinedIsCanonical(m: Module, recs: Records, s: Scan, owner: string -> string)
    requires Owned(m, recs, owner) && Honest(s, owner) && Distinct(s)
    ensures Canonical(m, recs, s)
  {
    forall i | 0 <= i < |s.reported| && Valid(s.reported[i])
      ensures Listed(recs, m, s.target, s.reported[i].fingerprint).Some? ||
              (Key(m.id, s.reported[i].fingerprint) !in recs && Reports(s, s.reported[i].fingerprint, i) == 0)
    {
      var fp := s.reported[i].fingerprint;
      ReportsSeen(s, fp, |s.reported|);
      HonestListed(m, recs, s, owner, fp);
      ReportsSeen(s, fp, i);
    }
  }

  /**
   * The production store refines the in-memory one: over any run of disciplined scans, with user
   * status changes in between, both hold the same records.
   */
  lemma {:induction false} StoresAgree(m: Module, run: seq<Op>, owner: string -> string)
    requires forall op :: op in run && op.Scanned? ==> Honest(op.scan, owner) && Distinct(op.scan)
    ensures After(Sqlite, m, run) == After(Memory, m, run)
    ensures Owned(m, After(Memory, m, run), owner)
  {
    if run != [] {
      hide AfterScan, Distinct, Honest;
      var before, op := run[..|run| - 1], run[|run| - 1];
      StoresAgree(m, before, owner);
      var recs := After(Memory, m, before);
      assert op in run;
      match op
      case Scanned(s) =>
        DisciplinedIsCanonical(m, recs, s, owner);
        ScanAgrees(m, recs, s);
        ScanOwned(Memory, m, recs, s, owner);
      case SetStatus(fp, status) =>
        assert Key(m.id, fp) in recs ==> KeyOf(recs[Key(m.id, fp)]) == Key(m.id, fp);
    }
  }
}
