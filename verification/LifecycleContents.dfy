/** What a stored finding says after a scan, field by field, from the report and the record before. */
module LifecycleContents {
  import opened Wire
  import opened Findings
  import opened Lifecycle

  /** Evidence is stored as reported, or as a marker when it has over 64 KiB or does not serialise. */
  predicate StoredAs(reported: Evidence, stored: Evidence)
  {
    match reported
    case Blob(_, None) => stored == NotSerialisable
    case Blob(_, Some(n)) => if n > 65536 then stored == Truncated(n) else stored == reported
    case _ => stored == reported
  }

  /** g says what the report f says. */
  predicate Tells(g: Finding, f: Finding)
  {
    && g.title == f.title && g.severity == f.severity && g.remediation == f.remediation
    && StoredAs(f.evidence, g.evidence)
  }

  /** g is the finding that prev was: nothing a report can change identifies it. */
  predicate SameFinding(g: Finding, prev: Finding)
  {
    && g.id == prev.id && g.mod == prev.mod && g.fingerprint == prev.fingerprint && g.target == prev.target
    && g.check == prev.check && g.groupId == prev.groupId && g.firstSeen == prev.firstSeen
  }

  /** The last of the first n reports of fp that is valid. */
  function LastReport(s: Scan, fp: string, n: nat): (r: Option<nat>)
    requires n <= |s.reported|
    ensures r.None? ==> forall i :: 0 <= i < n && s.reported[i].fingerprint == fp ==> !Valid(s.reported[i])
    ensures r.Some? ==> r.value < n && s.reported[r.value].fingerprint == fp && Valid(s.reported[r.value])
    ensures r.Some? ==> forall i :: r.value < i < n && s.reported[i].fingerprint == fp ==> !Valid(s.reported[i])
  {
    if n == 0 then None
    else if s.reported[n - 1].fingerprint == fp && Valid(s.reported[n - 1]) then Some(n - 1)
    else LastReport(s, fp, n - 1)
  }

  function FirstReport(s: Scan, fp: string, n: nat): (r: Option<nat>)
    requires n <= |s.reported|
    ensures r.None? ==> forall i :: 0 <= i < n && s.reported[i].fingerprint == fp ==> !Valid(s.reported[i])
    ensures r.Some? ==> r.value < n && s.reported[r.value].fingerprint == fp && Valid(s.reported[r.value])
    ensures r.Some? ==> forall i :: 0 <= i < r.value && s.reported[i].fingerprint == fp ==> !Valid(s.reported[i])
  {
    if n == 0 then None
    else if FirstReport(s, fp, n - 1).Some? then FirstReport(s, fp, n - 1)
    else if s.reported[n - 1].fingerprint == fp && Valid(s.reported[n - 1]) then Some(n - 1)
    else None
  }

  /** A reported finding that the scan lists is the one it was, and says what its report f says. */
  ghost predicate Refreshed(r: Record, prev: Record, f: Finding, now: int)
  {
    && SameFinding(r.finding, prev.finding) && Tells(r.finding, f)
    && r.finding.lastSeen == now && r.absentStreak == 0
    && r.finding.status == (if prev.finding.status == Resolved then Open else prev.finding.status)
    && r.finding.resolvedAt == if prev.finding.status == Resolved then None else prev.finding.resolvedAt
  }

  /** A finding that the scan does not list is open, and says what its report f says. */
  ghost predicate Begun(r: Record, m: Module, f: Finding, now: int)
  {
    && Tells(r.finding, f) && r.finding.fingerprint == f.fingerprint && r.finding.mod == m.id
    && r.finding.groupId == f.groupId && r.finding.resolvedAt == f.resolvedAt
    && r.finding.status == Open && r.finding.lastSeen == now && r.absentStreak == 0
  }

  /** What identifies a row and cannot be written twice in SQLite. */
  ghost predicate Columns(r: Record, id: string, target: string, check: string, firstSeen: int)
  {
    r.finding.id == id && r.finding.target == target && r.finding.check == check && r.finding.firstSeen == firstSeen
  }

  /** Where a new finding has its columns from: its last report, or in SQLite whatever was there first. */
  ghost predicate Identified(backend: Backend, start: Records, m: Module, s: Scan, n: nat, fp: string, r: Record)
    requires n <= |s.reported| && LastReport(s, fp, n).Some?
  {
    var k, i, j := Key(m.id, fp), LastReport(s, fp, n).value, FirstReport(s, fp, n).value;
    if backend == Memory then Columns(r, s.IdAt(i), s.reported[i].target, s.reported[i].check, s.now)
    else if k in start then
      Columns(r, start[k].finding.id, start[k].finding.target, start[k].finding.check, start[k].finding.firstSeen)
    else Columns(r, s.IdAt(j), s.reported[j].target, s.reported[j].check, s.now)
  }

  /** What the records say of fp once the first n reports are in. */
  ghost predicate StoredFor(backend: Backend, start: Records, m: Module, s: Scan, n: nat, fp: string, recs: Records)
    requires n <= |s.reported|
  {
    var k := Key(m.id, fp);
    match LastReport(s, fp, n)
    case None => (k in recs <==> k in start) && (k in start ==> recs[k] == start[k])
    case Some(i) =>
      && k in recs
      && match Listed(start, m, s.target, fp)
         case Some(prev) => Refreshed(recs[k], prev, s.reported[i], s.now)
         case None => Begun(recs[k], m, s.reported[i], s.now) && Identified(backend, start, m, s, n, fp, recs[k])
  }

  // --- one report ---------------------------------------------------------------------------

  lemma CapTells(f: Finding)
    ensures Tells(CapEvidence(f), f)
    ensures CapEvidence(f).(evidence := f.evidence) == f
  {
  }

  lemma IncomingTells(m: Module, start: Records, s: Scan, i: nat)
    requires i < |s.reported| && Filed(start)
    ensures match Listed(start, m, s.target, s.reported[i].fingerprint)
            case Some(prev) => Refreshed(Incoming(m, start, s, i), prev, s.reported[i], s.now)
            case None =>
              && Begun(Incoming(m, start, s, i), m, s.reported[i], s.now)
              && Columns(Incoming(m, start, s, i), s.IdAt(i), s.reported[i].target, s.reported[i].check, s.now)
  {
    CapTells(s.reported[i]);
    hide CapEvidence, StoredAs, Filed;
  }

  /** The record of the report f says what f says, and was seen now. */
  ghost predicate Written(recs: Records, m: Module, f: Finding, now: int)
  {
    var k := Key(m.id, f.fingerprint);
    k in recs && Tells(recs[k].finding, f) && recs[k].finding.lastSeen == now && recs[k].absentStreak == 0
  }

  lemma WrittenTells(backend: Backend, recs: Records, m: Module, start: Records, s: Scan, i: nat)
    requires i < |s.reported| && Filed(start)
    ensures Written(Upsert(backend, recs, Incoming(m, start, s, i)), m, s.reported[i], s.now)
    ensures Announced(m, start, s, i, Incoming(m, start, s, i).finding)
  {
    IncomingTells(m, start, s, i);
    IncomingKey(m, start, s, i);
    NoStreak(m, start, s, i);
    hide StoredAs, Incoming, Listed;
  }

  lemma MergedRefreshed(backend: Backend, row: Record, r: Record, prev: Record, f: Finding, now: int)
    requires Refreshed(r, prev, f, now) && SameFinding(row.finding, prev.finding)
    ensures Refreshed(Merge(backend, row, r), prev, f, now)
  {
    hide StoredAs;
  }

  lemma MergedBegun(backend: Backend, row: Record, r: Record, m: Module, f: Finding, now: int)
    requires Begun(r, m, f, now)
    ensures Begun(Merge(backend, row, r), m, f, now)
    ensures if backend == Memory then Merge(backend, row, r) == r
            else Columns(Merge(backend, row, r), row.finding.id, row.finding.target, row.finding.check, row.finding.firstSeen)
  {
    hide StoredAs;
  }

  lemma LastReportMore(s: Scan, fp: string, n: nat)
    requires 0 < n <= |s.reported|
    ensures s.reported[n - 1].fingerprint != fp || !Valid(s.reported[n - 1]) ==>
              LastReport(s, fp, n) == LastReport(s, fp, n - 1) && FirstReport(s, fp, n) == FirstReport(s, fp, n - 1)
    ensures s.reported[n - 1].fingerprint == fp && Valid(s.reported[n - 1]) ==>
              && LastReport(s, fp, n) == Some(n - 1)
              && FirstReport(s, fp, n) == if FirstReport(s, fp, n - 1).Some? then FirstReport(s, fp, n - 1) else Some(n - 1)
  {
  }

  lemma {:induction false} FirstIfLast(s: Scan, fp: string, n: nat)
    requires n <= |s.reported|
    ensures FirstReport(s, fp, n).Some? <==> LastReport(s, fp, n).Some?
  {
  }

  lemma UpsertAt(backend: Backend, recs: Records, r: Record, k: Key)
    ensures k in Upsert(backend, recs, r) <==> k in recs || KeyOf(r) == k
    ensures k != KeyOf(r) && k in recs ==> Upsert(backend, recs, r)[k] == recs[k]
    ensures k == KeyOf(r) ==> Upsert(backend, recs, r)[k] == if k in recs then Merge(backend, recs[k], r) else r
  {
  }

  lemma SameAsItself(r: Record)
    ensures SameFinding(r.finding, r.finding)
    ensures Columns(r, r.finding.id, r.finding.target, r.finding.check, r.finding.firstSeen)
  {
  }

  lemma RefreshedIsSame(r: Record, prev: Record, f: Finding, now: int)
    requires Refreshed(r, prev, f, now)
    ensures SameFinding(r.finding, prev.finding)
  {
  }

  lemma StoredParts(backend: Backend, start: Records, m: Module, s: Scan, n: nat, fp: string, recs: Records)
    requires n <= |s.reported| && StoredFor(backend, start, m, s, n, fp, recs)
    ensures var k, i := Key(m.id, fp), LastReport(s, fp, n);
            && (k in recs <==> i.Some? || k in start) && (i.None? && k in start ==> recs[k] == start[k])
            && match Listed(start, m, s.target, fp)
               case Some(prev) => k in start && start[k] == prev && (i.Some? ==> Refreshed(recs[k], prev, s.reported[i.value], s.now))
               case None => i.Some? ==> Identified(backend, start, m, s, n, fp, recs[k])
  {
    hide LastReport, FirstReport, Refreshed, Begun, Identified;
  }

  lemma StoredBy(backend: Backend, start: Records, m: Module, s: Scan, n: nat, fp: string, recs: Records, i: nat)
    requires n <= |s.reported| && LastReport(s, fp, n) == Some(i) && Key(m.id, fp) in recs
    requires match Listed(start, m, s.target, fp)
             case Some(prev) => Refreshed(recs[Key(m.id, fp)], prev, s.reported[i], s.now)
             case None => Begun(recs[Key(m.id, fp)], m, s.reported[i], s.now) && Identified(backend, start, m, s, n, fp, recs[Key(m.id, fp)])
    ensures StoredFor(backend, start, m, s, n, fp, recs)
  {
    hide LastReport, FirstReport, Refreshed, Begun, Identified, Listed;
  }

  /** A valid report of fp leaves its record as the report says: first of a listed finding, then of another. */
  lemma ListedStored(backend: Backend, start: Records, m: Module, s: Scan, n: nat, fp: string, recs: Records, prev: Record)
    requires 0 < n <= |s.reported| && Filed(start)
    requires s.reported[n - 1].fingerprint == fp && Valid(s.reported[n - 1])
    requires StoredFor(backend, start, m, s, n - 1, fp, recs) && Listed(start, m, s.target, fp) == Some(prev)
    ensures StoredFor(backend, start, m, s, n, fp, Upsert(backend, recs, Incoming(m, start, s, n - 1)))
  {
    hide *;
    var k, r := Key(m.id, fp), Incoming(m, start, s, n - 1);
    IncomingTells(m, start, s, n - 1);
    IncomingKey(m, start, s, n - 1);
    LastReportMore(s, fp, n);
    UpsertAt(backend, recs, r, k);
    SameAsItself(prev);
    StoredParts(backend, start, m, s, n - 1, fp, recs);
    if LastReport(s, fp, n - 1).Some? {
      RefreshedIsSame(recs[k], prev, s.reported[LastReport(s, fp, n - 1).value], s.now);
    }
    MergedRefreshed(backend, recs[k], r, prev, s.reported[n - 1], s.now);
    StoredBy(backend, start, m, s, n, fp, Upsert(backend, recs, r), n - 1);
  }

  lemma NewStored(backend: Backend, start: Records, m: Module, s: Scan, n: nat, fp: string, recs: Records)
    requires 0 < n <= |s.reported| && Filed(start)
    requires s.reported[n - 1].fingerprint == fp && Valid(s.reported[n - 1])
    requires StoredFor(backend, start, m, s, n - 1, fp, recs) && Listed(start, m, s.target, fp) == None
    ensures StoredFor(backend, start, m, s, n, fp, Upsert(backend, recs, Incoming(m, start, s, n - 1)))
  {
    hide *;
    var k, r := Key(m.id, fp), Incoming(m, start, s, n - 1);
    IncomingTells(m, start, s, n - 1);
    IncomingKey(m, start, s, n - 1);
    LastReportMore(s, fp, n);
    UpsertAt(backend, recs, r, k);
    StoredParts(backend, start, m, s, n - 1, fp, recs);
    if k in recs {
      MergedBegun(backend, recs[k], r, m, s.reported[n - 1], s.now);
      NewIdentified(backend, start, m, s, n, fp, recs[k], Merge(backend, recs[k], r));
    } else {
      FirstIdentified(backend, start, m, s, n, fp, r);
    }
    StoredBy(backend, start, m, s, n, fp, Upsert(backend, recs, r), n - 1);
  }

  lemma FirstIdentified(backend: Backend, start: Records, m: Module, s: Scan, n: nat, fp: string, r: Record)
    requires 0 < n <= |s.reported| && s.reported[n - 1].fingerprint == fp && Valid(s.reported[n - 1])
    requires LastReport(s, fp, n - 1).None? && Key(m.id, fp) !in start
    requires Columns(r, s.IdAt(n - 1), s.reported[n - 1].target, s.reported[n - 1].check, s.now)
    ensures LastReport(s, fp, n).Some? && Identified(backend, start, m, s, n, fp, r)
  {
    LastReportMore(s, fp, n);
    FirstIfLast(s, fp, n - 1);
    hide LastReport, FirstReport, Validate;
  }

  lemma NewIdentified(backend: Backend, start: Records, m: Module, s: Scan, n: nat, fp: string, row: Record, w: Record)
    requires 0 < n <= |s.reported| && s.reported[n - 1].fingerprint == fp && Valid(s.reported[n - 1])
    requires if LastReport(s, fp, n - 1).Some? then Identified(backend, start, m, s, n - 1, fp, row)
             else Key(m.id, fp) in start && row == start[Key(m.id, fp)]
    requires if backend == Memory then Columns(w, s.IdAt(n - 1), s.reported[n - 1].target, s.reported[n - 1].check, s.now)
             else Columns(w, row.finding.id, row.finding.target, row.finding.check, row.finding.firstSeen)
    ensures LastReport(s, fp, n).Some? && Identified(backend, start, m, s, n, fp, w)
  {
    LastReportMore(s, fp, n);
    FirstIfLast(s, fp, n - 1);
    hide LastReport, FirstReport, Validate;
  }

  lemma OtherStored(backend: Backend, start: Records, m: Module, s: Scan, n: nat, fp: string, recs: Records, after: Records)
    requires 0 < n <= |s.reported|
    requires s.reported[n - 1].fingerprint != fp || !Valid(s.reported[n - 1])
    requires StoredFor(backend, start, m, s, n - 1, fp, recs)
    requires var k := Key(m.id, fp); (k in after <==> k in recs) && (k in recs ==> after[k] == recs[k])
    ensures StoredFor(backend, start, m, s, n, fp, after)
  {
    LastReportMore(s, fp, n);
    hide LastReport, FirstReport, Refreshed, Begun, Columns;
  }

  lemma NothingStored(backend: Backend, start: Records, m: Module, s: Scan, fp: string)
    ensures StoredFor(backend, start, m, s, 0, fp, start)
  {
  }

  lemma IngestMore(backend: Backend, m: Module, start: Records, s: Scan, n: nat)
    requires 0 < n <= |s.reported|
    ensures var before := IngestUpTo(backend, m, start, s, n - 1);
            IngestUpTo(backend, m, start, s, n).recs ==
              if Valid(s.reported[n - 1]) then Upsert(backend, before.recs, Incoming(m, start, s, n - 1)) else before.recs
  {
    hide Upsert, Incoming, IsNews, Validate;
  }

  lemma {:induction false} IngestStores(backend: Backend, m: Module, start: Records, s: Scan, n: nat, fp: string)
    requires n <= |s.reported| && Filed(start)
    ensures StoredFor(backend, start, m, s, n, fp, IngestUpTo(backend, m, start, s, n).recs)
  {
    hide *;
    if n == 0 {
      NothingStored(backend, start, m, s, fp);
      NoReports(backend, m, start, s);
    } else {
      var recs := IngestUpTo(backend, m, start, s, n - 1).recs;
      IngestStores(backend, m, start, s, n - 1, fp);
      IngestMore(backend, m, start, s, n);
      if !Valid(s.reported[n - 1]) {
        OtherStored(backend, start, m, s, n, fp, recs, recs);
      } else if s.reported[n - 1].fingerprint != fp {
        IncomingKey(m, start, s, n - 1);
        UpsertAt(backend, recs, Incoming(m, start, s, n - 1), Key(m.id, fp));
        OtherStored(backend, start, m, s, n, fp, recs, IngestUpTo(backend, m, start, s, n).recs);
      } else if Listed(start, m, s.target, fp).Some? {
        ListedStored(backend, start, m, s, n, fp, recs, Listed(start, m, s.target, fp).value);
      } else {
        NewStored(backend, start, m, s, n, fp, recs);
      }
    }
  }

  lemma NoReports(backend: Backend, m: Module, start: Records, s: Scan)
    ensures IngestUpTo(backend, m, start, s, 0).recs == start
  {
  }

  // --- the whole scan ---------------------------------------------------------------------------

  lemma ReportedIsSeen(s: Scan, fp: string)
    ensures fp in Seen(s.reported) <==> LastReport(s, fp, |s.reported|).Some?
  {
  }

  /**
   * After a scan, a finding with a valid report says what the last of its reports says, evidence
   * replaced by a marker exactly when it is too large or does not serialise. One that the scan lists
   * keeps its id, target, check, group and first time; a new one has all that its report gives.
   */
  lemma ScanStoresReport(backend: Backend, m: Module, start: Records, s: Scan, fp: string)
    requires Filed(start) && fp in Seen(s.reported)
    ensures LastReport(s, fp, |s.reported|).Some? && StoredFor(backend, start, m, s, |s.reported|, fp, AfterScan(backend, m, start, s))
  {
    ReportedIsSeen(s, fp);
    IngestStores(backend, m, start, s, |s.reported|, fp);
    assert !Ages(start, m, s, Key(m.id, fp)) by {
      hide Filed;
      assert Key(m.id, fp) in start ==> start[Key(m.id, fp)].finding.fingerprint == fp;
    }
    hide Ages, Seen, IngestUpTo, Merge, LastReport, FirstReport, Refreshed, Begun, Columns, Listed;
  }

  /** A record without a valid report says what it said; only its status, its streak and its end can change. */
  lemma ScanKeepsOthers(backend: Backend, m: Module, start: Records, s: Scan, k: Key)
    requires Filed(start) && k in start && (k.mod != m.id || k.fingerprint !in Seen(s.reported))
    ensures k in AfterScan(backend, m, start, s)
    ensures var r, prev := AfterScan(backend, m, start, s)[k], start[k];
            && r.finding.(status := prev.finding.status, resolvedAt := prev.finding.resolvedAt) == prev.finding
            && (r == prev || (Ages(start, m, s, k) && r.absentStreak == prev.absentStreak + 1))
            && (r.finding == prev.finding || (r.finding.status == Resolved && r.finding.resolvedAt == Some(s.now)))
  {
    IngestKeeps(backend, m, start, s, |s.reported|);
    hide IngestUpTo, Seen, Filed;
  }

  /** A finding that is resolved says what it said, and was resolved now. */
  lemma ResolvedTells(r: Record, m: Module, now: int)
    requires Expires(r, m)
    ensures var g := Aged(r, m, now).finding;
            && g.(status := r.finding.status, resolvedAt := r.finding.resolvedAt) == r.finding
            && g.status == Resolved && g.resolvedAt == Some(now)
  {
  }

  // --- what is announced, and what is rejected ---------------------------------------------------------

  predicate IsNewsAt(m: Module, start: Records, s: Scan, i: nat)
    requires i < |s.reported|
  {
    Valid(s.reported[i]) &&
    match Listed(start, m, s.target, s.reported[i].fingerprint)
    case None => true
    case Some(prev) => prev.finding.status == Resolved
  }

  /** The announcement f is of report i. */
  ghost predicate Announced(m: Module, start: Records, s: Scan, i: nat, f: Finding)
    requires i < |s.reported|
  {
    match Listed(start, m, s.target, s.reported[i].fingerprint)
    case Some(prev) => Refreshed(Record(f, 0), prev, s.reported[i], s.now)
    case None =>
      && Begun(Record(f, 0), m, s.reported[i], s.now)
      && Columns(Record(f, 0), s.IdAt(i), s.reported[i].target, s.reported[i].check, s.now)
  }

  /** How many of the first n reports are news. */
  function NewsBefore(m: Module, start: Records, s: Scan, n: nat): nat
    requires n <= |s.reported|
  {
    if n == 0 then 0
    else NewsBefore(m, start, s, n - 1) + if IsNewsAt(m, start, s, n - 1) then 1 else 0
  }

  /** Those of the first n reports that are news are announced, each in its place. */
  ghost predicate InPlace(m: Module, start: Records, s: Scan, n: nat, news: seq<Finding>)
    requires n <= |s.reported|
  {
    && |news| == NewsBefore(m, start, s, n)
    && forall i :: 0 <= i < n && IsNewsAt(m, start, s, i) ==>
         NewsBefore(m, start, s, i) < |news| && Announced(m, start, s, i, news[NewsBefore(m, start, s, i)])
  }

  lemma InPlaceMore(m: Module, start: Records, s: Scan, n: nat, news: seq<Finding>, g: Finding)
    requires 0 < n <= |s.reported| && InPlace(m, start, s, n - 1, news) && Announced(m, start, s, n - 1, g)
    ensures InPlace(m, start, s, n, if IsNewsAt(m, start, s, n - 1) then news + [g] else news)
  {
    hide Announced, IsNewsAt;
  }

  lemma NoneAnnounced(m: Module, start: Records, s: Scan)
    ensures InPlace(m, start, s, 0, [])
  {
  }

  lemma IngestNews(backend: Backend, m: Module, start: Records, s: Scan, i: nat, p: Progress)
    requires i < |s.reported|
    ensures Ingest(backend, m, start, s, i, p).newlyOpen ==
            if IsNewsAt(m, start, s, i) then p.newlyOpen + [Incoming(m, start, s, i).finding] else p.newlyOpen
  {
    hide Incoming, Upsert, Validate;
  }

  /** Every report that is news is announced in its place, with what it says. */
  lemma {:induction false} NewsIsReported(backend: Backend, m: Module, start: Records, s: Scan, n: nat)
    requires n <= |s.reported| && Filed(start)
    ensures InPlace(m, start, s, n, IngestUpTo(backend, m, start, s, n).newlyOpen)
  {
    hide InPlace, Ingest, Incoming, Refreshed, Begun, Columns, IsNewsAt, Listed;
    if n == 0 {
      NoneAnnounced(m, start, s);
    } else {
      var before := IngestUpTo(backend, m, start, s, n - 1);
      NewsIsReported(backend, m, start, s, n - 1);
      assert IngestUpTo(backend, m, start, s, n) == Ingest(backend, m, start, s, n - 1, before);
      hide IngestUpTo;
      IncomingTells(m, start, s, n - 1);
      NoStreak(m, start, s, n - 1);
      IngestNews(backend, m, start, s, n - 1, before);
      InPlaceMore(m, start, s, n, before.newlyOpen, Incoming(m, start, s, n - 1).finding);
    }
  }

  lemma NoStreak(m: Module, start: Records, s: Scan, i: nat)
    requires i < |s.reported|
    ensures Record(Incoming(m, start, s, i).finding, 0) == Incoming(m, start, s, i)
  {
  }

  /** A finding is rejected exactly for lack of a field or of a known severity, by the first of them in this order. */
  lemma RejectedIff(f: Finding)
    ensures Valid(f) <==> (f.fingerprint != "" && f.target != "" && f.check != "" && f.title != "" && f.remediation != "" &&
                           f.severity in {Critical, High, Medium, Low, Info})
    ensures Validate(f) == Some(NoFingerprint) <==> f.fingerprint == ""
    ensures Validate(f) == Some(NoTarget) <==> f.fingerprint != "" && f.target == ""
    ensures Validate(f) == Some(NoCheck) <==> f.fingerprint != "" && f.target != "" && f.check == ""
    ensures Validate(f) == Some(NoTitle) <==> f.fingerprint != "" && f.target != "" && f.check != "" && f.title == ""
    ensures Validate(f) == Some(NoRemediation) <==>
            f.fingerprint != "" && f.target != "" && f.check != "" && f.title != "" && f.remediation == ""
  {
  }

  predicate IsRejectedAt(s: Scan, i: nat)
    requires i < |s.reported|
  {
    !Valid(s.reported[i])
  }

  /** x is report i with the first requirement that it fails. */
  predicate RejectedAs(s: Scan, i: nat, x: (Finding, Reason))
    requires i < |s.reported|
  {
    x.0 == s.reported[i] && Validate(s.reported[i]) == Some(x.1)
  }

  function RejectedBefore(s: Scan, n: nat): nat
    requires n <= |s.reported|
  {
    if n == 0 then 0 else RejectedBefore(s, n - 1) + if IsRejectedAt(s, n - 1) then 1 else 0
  }

  /** The invalid ones of the first n reports are rejected, each in its place and with its reason. */
  ghost predicate RejectedInPlace(s: Scan, n: nat, rejected: seq<(Finding, Reason)>)
    requires n <= |s.reported|
  {
    && |rejected| == RejectedBefore(s, n)
    && forall i :: 0 <= i < n && IsRejectedAt(s, i) ==>
         RejectedBefore(s, i) < |rejected| && RejectedAs(s, i, rejected[RejectedBefore(s, i)])
  }

  lemma RejectedInPlaceMore(s: Scan, n: nat, rejected: seq<(Finding, Reason)>, x: (Finding, Reason))
    requires 0 < n <= |s.reported| && RejectedInPlace(s, n - 1, rejected)
    requires IsRejectedAt(s, n - 1) ==> RejectedAs(s, n - 1, x)
    ensures RejectedInPlace(s, n, if IsRejectedAt(s, n - 1) then rejected + [x] else rejected)
  {
    hide RejectedAs, IsRejectedAt;
  }

  lemma IngestRejects(backend: Backend, m: Module, start: Records, s: Scan, i: nat, p: Progress) returns (x: (Finding, Reason))
    requires i < |s.reported|
    ensures IsRejectedAt(s, i) ==> RejectedAs(s, i, x)
    ensures Ingest(backend, m, start, s, i, p).rejected == if IsRejectedAt(s, i) then p.rejected + [x] else p.rejected
  {
    hide Incoming, Upsert, Validate;
    x := (s.reported[i], if IsRejectedAt(s, i) then Validate(s.reported[i]).value else NoTitle);
  }

  lemma NoneRejected(s: Scan)
    ensures RejectedInPlace(s, 0, [])
  {
  }

  lemma {:induction false} RejectedAre(backend: Backend, m: Module, start: Records, s: Scan, n: nat)
    requires n <= |s.reported|
    ensures RejectedInPlace(s, n, IngestUpTo(backend, m, start, s, n).rejected)
  {
    hide RejectedInPlace, Ingest, IsRejectedAt, RejectedAs;
    if n == 0 {
      NoneRejected(s);
    } else {
      var before := IngestUpTo(backend, m, start, s, n - 1);
      RejectedAre(backend, m, start, s, n - 1);
      assert IngestUpTo(backend, m, start, s, n) == Ingest(backend, m, start, s, n - 1, before);
      hide IngestUpTo;
      var x := IngestRejects(backend, m, start, s, n - 1, before);
      RejectedInPlaceMore(s, n, before.rejected, x);
    }
  }
}
