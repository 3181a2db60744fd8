/** Properties of whole runs: scans and user status changes, in any order and number. */
module LifecycleRuns {
  import opened Wire
  import opened Findings
  import opened Lifecycle

  datatype Op =
    | Scanned(scan: Scan)
    | SetStatus(fingerprint: string, status: Status)

  /** The dashboard's status change: resolved cannot be asked for, and an unknown finding is left alone. */
  function ChangeStatus(backend: Backend, m: Module, recs: Records, fp: string, status: Status): Records
  {
    var k := Key(m.id, fp);
    if status == Resolved || k !in recs then recs
    else Upsert(backend, recs, recs[k].(finding := recs[k].finding.(status := status)))
  }

  function Step(backend: Backend, m: Module, recs: Records, op: Op): Records
    requires Filed(recs)
  {
    match op
    case Scanned(s) => AfterScan(backend, m, recs, s)
    case SetStatus(fp, status) => ChangeStatus(backend, m, recs, fp, status)
  }

  lemma StepFiled(backend: Backend, m: Module, recs: Records, op: Op)
    requires Filed(recs)
    ensures Filed(Step(backend, m, recs, op))
  {
    match op
    case Scanned(s) => AfterScanFiled(backend, m, recs, s);
    case SetStatus(_, _) =>
  }

  /** The records after a run, from an empty store. */
  function After(backend: Backend, m: Module, run: seq<Op>): (recs: Records)
    ensures Filed(recs)
  {
    if run == [] then map[]
    else
      var before := After(backend, m, run[..|run| - 1]);
      StepFiled(backend, m, before, run[|run| - 1]);
      Step(backend, m, before, run[|run| - 1])
  }

  // --- one scan, seen from one fingerprint ---------------------------------

  /** How many of the first n findings are valid and carry fp. */
  function Reports(s: Scan, fp: string, n: nat): nat
    requires n <= |s.reported|
  {
    if n == 0 then 0
    else Reports(s, fp, n - 1) + if Valid(s.reported[n - 1]) && s.reported[n - 1].fingerprint == fp then 1 else 0
  }

  function Count(fs: seq<Finding>, fp: string): nat
  {
    if fs == [] then 0
    else Count(fs[..|fs| - 1], fp) + if fs[|fs| - 1].fingerprint == fp then 1 else 0
  }

  /** What a report makes of a finding's status: news opens it, anything else keeps it. */
  function StatusOnReport(m: Module, start: Records, s: Scan, fp: string): Status
  {
    if IsNews(m, start, s, fp) then Open else Listed(start, m, s.target, fp).value.finding.status
  }

  lemma {:induction false} ReportsSeen(s: Scan, fp: string, n: nat)
    requires n <= |s.reported|
    ensures Reports(s, fp, n) > 0 <==> exists i :: 0 <= i < n && Valid(s.reported[i]) && s.reported[i].fingerprint == fp
  {
    if n > 0 {
      ReportsSeen(s, fp, n - 1);
    }
  }

  lemma SeenIsReported(s: Scan, fp: string)
    ensures fp in Seen(s.reported) <==> Reports(s, fp, |s.reported|) > 0
  {
    ReportsSeen(s, fp, |s.reported|);
  }

  /** The part of a record that a report settles. */
  ghost predicate Reported(m: Module, start: Records, s: Scan, fp: string, r: Record)
  {
    && r.absentStreak == 0
    && r.finding.lastSeen == s.now
    && r.finding.status == StatusOnReport(m, start, s, fp)
  }

  lemma IncomingReported(m: Module, start: Records, s: Scan, i: nat)
    requires i < |s.reported| && Filed(start)
    ensures Reported(m, start, s, s.reported[i].fingerprint, Incoming(m, start, s, i))
  {
  }

  /** Recs at fp after n reported findings. */
  ghost predicate IngestedAt(m: Module, start: Records, s: Scan, n: nat, fp: string, recs: Records)
    requires n <= |s.reported|
  {
    var k := Key(m.id, fp);
    if Reports(s, fp, n) == 0 then (k in recs <==> k in start) && (k in recs ==> recs[k] == start[k])
    else k in recs && Reported(m, start, s, fp, recs[k])
  }

  lemma IngestAtOne(backend: Backend, m: Module, start: Records, s: Scan, i: nat, fp: string, p: Progress)
    requires i < |s.reported| && Filed(start)
    requires IngestedAt(m, start, s, i, fp, p.recs)
    ensures IngestedAt(m, start, s, i + 1, fp, Ingest(backend, m, start, s, i, p).recs)
  {
    IncomingKey(m, start, s, i);
    IncomingReported(m, start, s, i);
  }

  lemma {:induction false} IngestAt(backend: Backend, m: Module, start: Records, s: Scan, n: nat, fp: string)
    requires n <= |s.reported| && Filed(start)
    ensures IngestedAt(m, start, s, n, fp, IngestUpTo(backend, m, start, s, n).recs)
  {
    if n > 0 {
      IngestAt(backend, m, start, s, n - 1, fp);
      IngestAtOne(backend, m, start, s, n - 1, fp, IngestUpTo(backend, m, start, s, n - 1));
    }
  }

  lemma CountAppend(fs: seq<Finding>, gs: seq<Finding>, fp: string)
    requires |gs| <= 1
    ensures Count(fs + gs, fp) == Count(fs, fp) + if gs != [] && gs[0].fingerprint == fp then 1 else 0
  {
    assert gs != [] ==> (fs + gs)[..|fs|] == fs;
    assert gs == [] ==> fs + gs == fs;
  }

  lemma NewsCountOne(backend: Backend, m: Module, start: Records, s: Scan, i: nat, fp: string, p: Progress)
    requires i < |s.reported| && Filed(start)
    requires Count(p.newlyOpen, fp) == if IsNews(m, start, s, fp) then Reports(s, fp, i) else 0
    ensures Count(Ingest(backend, m, start, s, i, p).newlyOpen, fp) == if IsNews(m, start, s, fp) then Reports(s, fp, i + 1) else 0
  {
    IncomingKey(m, start, s, i);
    var r, fp' := Incoming(m, start, s, i), s.reported[i].fingerprint;
    CountAppend(p.newlyOpen, if IsNews(m, start, s, fp') then [r.finding] else [], fp);
  }

  lemma {:induction false} NewsCount(backend: Backend, m: Module, start: Records, s: Scan, n: nat, fp: string)
    requires n <= |s.reported| && Filed(start)
    ensures Count(IngestUpTo(backend, m, start, s, n).newlyOpen, fp) == if IsNews(m, start, s, fp) then Reports(s, fp, n) else 0
  {
    hide Ingest;
    if n > 0 {
      NewsCount(backend, m, start, s, n - 1, fp);
      NewsCountOne(backend, m, start, s, n - 1, fp, IngestUpTo(backend, m, start, s, n - 1));
    }
  }

  /** The status at fp after a scan; None when there is no record. */
  function StatusAt(m: Module, recs: Records, fp: string): Option<Status>
  {
    if Key(m.id, fp) in recs then Some(recs[Key(m.id, fp)].finding.status) else None
  }

  lemma ScanAt(backend: Backend, m: Module, start: Records, s: Scan, fp: string)
    requires Filed(start)
    ensures var k, after := Key(m.id, fp), AfterScan(backend, m, start, s);
            if Reports(s, fp, |s.reported|) > 0 then k in after && Reported(m, start, s, fp, after[k])
            else (k in after <==> k in start) &&
                 (k in start ==> after[k] == if Ages(start, m, s, k) then Merge(backend, start[k], Aged(start[k], m, s.now)) else start[k])
  {
    IngestAt(backend, m, start, s, |s.reported|, fp);
    IngestKeeps(backend, m, start, s, |s.reported|);
    SeenIsReported(s, fp);
  }

  // --- announcements alternate ---------------------------------------------

  datatype Announcement = Opened | Closed

  function Repeat(a: Announcement, n: nat): (r: seq<Announcement>)
    ensures |r| == n && forall i :: 0 <= i < n ==> r[i] == a
  {
    if n == 0 then [] else Repeat(a, n - 1) + [a]
  }

  /** What the scan's result announces about fp. */
  function Announce(backend: Backend, m: Module, recs: Records, op: Op, fp: string): seq<Announcement>
  {
    match op
    case SetStatus(_, _) => []
    case Scanned(s) =>
      Repeat(Opened, Count(NewlyOpen(backend, m, recs, s), fp)) +
      if Key(m.id, fp) in ResolvedKeys(m, recs, s) then [Closed] else []
  }

  function Log(backend: Backend, m: Module, run: seq<Op>, fp: string): seq<Announcement>
  {
    if run == [] then []
    else
      var before := run[..|run| - 1];
      Log(backend, m, before, fp) + Announce(backend, m, After(backend, m, before), run[|run| - 1], fp)
  }

  predicate Alternates(log: seq<Announcement>)
  {
    forall i :: 0 <= i < |log| ==> log[i] == if i % 2 == 0 then Opened else Closed
  }

  predicate Live(m: Module, recs: Records, fp: string)
  {
    Key(m.id, fp) in recs && recs[Key(m.id, fp)].finding.status != Resolved
  }

  /** The announcements alternate, and the finding is unresolved exactly when the last one opened it. */
  predicate Truthful(log: seq<Announcement>, live: bool)
  {
    Alternates(log) && (live <==> log != [] && log[|log| - 1] == Opened)
  }

  /**
   * What a caller can check before an operation: a scan reports a fingerprint that would be
   * announced at most once, and only when it is not already open elsewhere; a user never
   * changes a resolved finding.
   */
  predicate Clean(m: Module, recs: Records, op: Op, fp: string)
  {
    match op
    case SetStatus(fp', status) =>
      fp' == fp && status != Resolved && Key(m.id, fp) in recs ==> recs[Key(m.id, fp)].finding.status != Resolved
    case Scanned(s) =>
      Reports(s, fp, |s.reported|) > 0 && IsNews(m, recs, s, fp) ==>
        Reports(s, fp, |s.reported|) == 1 && !Live(m, recs, fp)
  }

  lemma OpeningIff(log: seq<Announcement>, live: bool, n: nat)
    requires Truthful(log, live) && n > 0
    ensures Truthful(log + Repeat(Opened, n), true) <==> n == 1 && !live
  {
    var longer := log + Repeat(Opened, n);
    assert longer[|log|] == Opened;
    if n > 1 {
      assert longer[|log| + 1] == Opened;
    }
  }

  lemma Closing(log: seq<Announcement>)
    requires Truthful(log, true)
    ensures Truthful(log + [Closed], false)
  {
  }

  /** What a scan announces about fp, and whether fp is unresolved afterwards. */
  lemma ScanSays(backend: Backend, m: Module, recs: Records, s: Scan, fp: string)
    requires Filed(recs)
    ensures var k, n := Key(m.id, fp), Reports(s, fp, |s.reported|);
            var said, live := Announce(backend, m, recs, Scanned(s), fp), Live(m, AfterScan(backend, m, recs, s), fp);
            if n > 0 then live && said == if IsNews(m, recs, s, fp) then Repeat(Opened, n) else []
            else if k in ResolvedKeys(m, recs, s) then Live(m, recs, fp) && !live && said == [Closed]
            else said == [] && live == Live(m, recs, fp)
  {
    ScanAt(backend, m, recs, s, fp);
    SeenIsReported(s, fp);
    NewsCount(backend, m, recs, s, |s.reported|, fp);
  }

  lemma StepTruthfulIff(backend: Backend, m: Module, recs: Records, op: Op, fp: string, log: seq<Announcement>)
    requires Filed(recs) && Truthful(log, Live(m, recs, fp))
    ensures Truthful(log + Announce(backend, m, recs, op, fp), Live(m, Step(backend, m, recs, op), fp)) <==> Clean(m, recs, op, fp)
  {
    assert log + [] == log;
    match op
    case SetStatus(_, _) =>
    case Scanned(s) =>
      ScanSays(backend, m, recs, s, fp);
      var n := Reports(s, fp, |s.reported|);
      if n > 0 && IsNews(m, recs, s, fp) {
        OpeningIff(log, Live(m, recs, fp), n);
      } else if Live(m, recs, fp) {
        Closing(log);
      }
  }

  ghost predicate TruthfulAfter(backend: Backend, m: Module, run: seq<Op>, fp: string)
  {
    Truthful(Log(backend, m, run, fp), Live(m, After(backend, m, run), fp))
  }

  /** The log was truthful at every moment of the run. */
  ghost predicate AlwaysTruthful(backend: Backend, m: Module, run: seq<Op>, fp: string)
  {
    (run != [] ==> AlwaysTruthful(backend, m, run[..|run| - 1], fp)) && TruthfulAfter(backend, m, run, fp)
  }

  /** Every operation of the run was clean when it was made. */
  ghost predicate AlwaysClean(backend: Backend, m: Module, run: seq<Op>, fp: string)
  {
    run != [] ==>
      AlwaysClean(backend, m, run[..|run| - 1], fp) &&
      Clean(m, After(backend, m, run[..|run| - 1]), run[|run| - 1], fp)
  }

  /**
   * Announcements of a fingerprint strictly alternate, starting with an opening, and the finding
   * is unresolved exactly when the last one opened it - at every moment of a run if and only if
   * every operation of the run was clean.
   */
  lemma {:induction false} AlternationIff(backend: Backend, m: Module, run: seq<Op>, fp: string)
    ensures AlwaysTruthful(backend, m, run, fp) <==> AlwaysClean(backend, m, run, fp)
  {
    if run != [] {
      var before := run[..|run| - 1];
      AlternationIff(backend, m, before, fp);
      if TruthfulAfter(backend, m, before, fp) {
        StepTruthfulIff(backend, m, After(backend, m, before), run[|run| - 1], fp, Log(backend, m, before, fp));
      }
    }
  }
}
