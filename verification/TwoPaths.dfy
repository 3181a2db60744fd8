/** The two write paths together: runs of firings, scans, user changes, pruning and source changes. */
module TwoPaths {
  import opened Collector
  import opened Findings
  import opened Lifecycle
  import opened LifecycleHistory
  import Runs = LifecycleRuns
  import LogStore
  import opened Wire
  import opened Worlds

  datatype Op =
    | AddSource(name: string, kind: string)
    | RemoveSource(name: string)
    | Fired(d: DetectionRecord, id: string)
    | Scanned(scan: Scan, rate: Option<real>)
    | SetStatus(fp: string, status: Status)
    | Pruned(before: int)

  function Step(bs: Backends, w: World, op: Op): World
    requires Filed(w.recs)
  {
    match op
    case AddSource(name, kind) => w.(sources := w.sources[name := kind])
    case RemoveSource(name) => w.(sources := w.sources - {name}, dets := LogStore.WithoutSource(bs.log, w.dets, name))
    case Fired(d, id) => Write(bs, w, d, id)
    case Scanned(s, _) => w.(recs := AfterScan(bs.findings, LOGLIGHT, w.recs, s))
    case SetStatus(fp, status) => w.(recs := Runs.ChangeStatus(bs.findings, LOGLIGHT, w.recs, fp, status))
    case Pruned(before) => w.(dets := LogStore.PrunedBefore(w.dets, before))
  }

  /** Names of sources: not empty, and no two that can share a fingerprint. */
  ghost predicate SourceNames(names: set<string>)
  {
    "" !in names && Separate(names)
  }

  /**
   * What can happen among sources of these names: a scan reports what the collector collects, and
   * path A fires a check of its own with a key of that check.
   */
  ghost predicate Possible(names: set<string>, w: World, op: Op)
  {
    match op
    case Fired(d, _) => d.source in names && Fireable(d.check, d.key)
    case Scanned(s, rate) =>
      s.target in names && Collected(s.reported, w.sources, w.dets, s.target, s.now, rate)
    case _ => true
  }

  const EMPTY := World(map[], map[], map[])

  ghost function RunFrom(bs: Backends, w: World, run: seq<Op>): (after: World)
    requires Filed(w.recs)
    ensures Filed(after.recs)
  {
    if run == [] then w
    else
      var before := RunFrom(bs, w, run[..|run| - 1]);
      StepFiled(bs, before, run[|run| - 1]);
      Step(bs, before, run[|run| - 1])
  }

  ghost predicate Happened(names: set<string>, bs: Backends, w: World, run: seq<Op>)
    requires Filed(w.recs)
  {
    run != [] ==>
      Happened(names, bs, w, run[..|run| - 1]) && Possible(names, RunFrom(bs, w, run[..|run| - 1]), run[|run| - 1])
  }

  lemma StepFiled(bs: Backends, w: World, op: Op)
    requires Filed(w.recs)
    ensures Filed(Step(bs, w, op).recs)
  {
    hide DetectionFinding;
    match op
    case Fired(d, id) => UpsertFiled(bs.findings, w.recs, Written(d, id));
    case Scanned(s, _) => AfterScanFiled(bs.findings, LOGLIGHT, w.recs, s);
    case _ =>
  }

  // ---------------------------------------------------------------- what every operation keeps

  function KeyAt(fp: string): Key
  {
    Key(MODULE_ID, fp)
  }

  ghost predicate Counted(recs: Records)
  {
    forall k :: k in recs && k.mod == MODULE_ID ==> recs[k].absentStreak >= 0
  }

  ghost predicate Known(names: set<string>, dets: LogStore.Detections)
  {
    forall k :: k in dets ==> dets[k].source in names && Fireable(dets[k].check, dets[k].key)
  }

  /** Path A has written a finding for every active detection. */
  ghost predicate Backed(dets: LogStore.Detections, recs: Records)
  {
    forall k :: k in dets ==> KeyAt(DetectionPrint(dets[k])) in recs
  }

  ghost predicate Inv(names: set<string>, w: World)
  {
    && SourceNames(names)
    && Filed(w.recs) && Owned(LOGLIGHT, w.recs, Owners(names)) && Counted(w.recs)
    && LogStore.Slotted(w.dets) && Known(names, w.dets) && Backed(w.dets, w.recs)
  }

  ghost function Owners(names: set<string>): string -> string
  {
    fp => OwnerAmong(names, fp)
  }

  lemma DetectionOwner(names: set<string>, d: DetectionRecord)
    requires Separate(names) && d.source in names && Fireable(d.check, d.key)
    ensures Owners(names)(DetectionPrint(d)) == d.source
  {
    OwnerIs(names, d.source, d.check, d.key);
  }

  lemma UpsertKeeps(backend: Backend, recs: Records, r: Record, owner: string -> string)
    requires Filed(recs) && Owned(LOGLIGHT, recs, owner) && Counted(recs)
    requires r.finding.mod == MODULE_ID && r.finding.target == owner(r.finding.fingerprint) && r.absentStreak >= 0
    ensures var after := Upsert(backend, recs, r);
            Filed(after) && Owned(LOGLIGHT, after, owner) && Counted(after) && after.Keys == recs.Keys + {KeyOf(r)}
  {
  }

  /** The row of a slot keeps its check, which is that of every firing of the slot. */
  lemma KeepKeeps(names: set<string>, backend: Backend, dets: LogStore.Detections, d: DetectionRecord)
    requires LogStore.Slotted(dets) && Known(names, dets) && d.source in names && Fireable(d.check, d.key)
    ensures var after := LogStore.Keep(backend, dets, d);
            LogStore.Slotted(after) && Known(names, after) && DetectionPrint(after[LogStore.SlotOf(d)]) == DetectionPrint(d) &&
            after.Keys == dets.Keys + {LogStore.SlotOf(d)} &&
            forall k :: k in dets && k != LogStore.SlotOf(d) ==> after[k] == dets[k]
  {
    hide Fingerprint, Fireable;
    if LogStore.SlotOf(d) in dets {
      OneCheckAKey(d.check, dets[LogStore.SlotOf(d)].check, d.key);
    }
  }

  lemma FiredKeeps(names: set<string>, bs: Backends, w: World, d: DetectionRecord, id: string)
    requires Inv(names, w) && Possible(names, w, Fired(d, id))
    ensures Inv(names, Write(bs, w, d, id))
  {
    DetectionOwner(names, d);
    hide Owners, DetectionPrint, Upsert, LogStore.Keep, Fingerprint, Fireable, Separate;
    assert Written(d, id).finding.fingerprint == DetectionPrint(d);
    UpsertKeeps(bs.findings, w.recs, Written(d, id), Owners(names));
    KeepKeeps(names, bs.log, w.dets, d);
  }

  // ---------------------------------------------------------------- what a scan reports

  /** What a scan of a source reports, and path B accepts, under a fingerprint. */
  ghost predicate Emits(w: World, name: string, now: int, rate: Option<real>, fp: string)
  {
    name in w.sources &&
    ((exists k :: EmitsSlot(w.dets, name, now, fp, k)) || (ParsesPoorly(rate) && fp == ParsePrint(name)))
  }

  predicate EmitsSlot(dets: LogStore.Detections, name: string, now: int, fp: string, k: LogStore.Slot)
  {
    k in dets && dets[k].source == name && Active(dets[k], now) && dets[k].title != "" && DetectionPrint(dets[k]) == fp
  }

  lemma {:induction false} ActiveMember(ds: seq<DetectionRecord>, now: int, f: Finding)
    ensures f in ActiveFindings(ds, now) <==> exists i :: 0 <= i < |ds| && Active(ds[i], now) && f == DetectionFinding(ds[i])
  {
    hide Active, DetectionFinding;
    if ds != [] {
      var init, last := ds[..|ds| - 1], ds[|ds| - 1];
      ActiveMember(init, now, f);
      if i :| 0 <= i < |ds| && Active(ds[i], now) && f == DetectionFinding(ds[i]) {
        assert i < |init| ==> init[i] == ds[i];
      }
      if i :| 0 <= i < |init| && Active(init[i], now) && f == DetectionFinding(init[i]) {
        assert init[i] == ds[i];
      }
    }
  }

  ghost predicate DistinctPrints(fs: seq<Finding>)
  {
    forall i, j :: 0 <= i < j < |fs| ==> fs[i].fingerprint != fs[j].fingerprint
  }

  lemma SlotsApart(d: DetectionRecord, e: DetectionRecord)
    requires d.source == e.source && LogStore.SlotOf(d) != LogStore.SlotOf(e)
    requires Fireable(d.check, d.key) && Fireable(e.check, e.key)
    ensures DetectionPrint(d) != DetectionPrint(e)
  {
    hide Fireable;
    if DetectionPrint(d) == DetectionPrint(e) {
      SamePrint(d.source, d.check, d.key, e.check, e.key);
    }
  }

  lemma {:induction false} ActiveDistinct(ds: seq<DetectionRecord>, now: int, name: string)
    requires forall i :: 0 <= i < |ds| ==> ds[i].source == name && Fireable(ds[i].check, ds[i].key)
    requires forall i, j :: 0 <= i < j < |ds| ==> LogStore.SlotOf(ds[i]) != LogStore.SlotOf(ds[j])
    ensures DistinctPrints(ActiveFindings(ds, now))
  {
    if ds != [] {
      var init, last := ds[..|ds| - 1], ds[|ds| - 1];
      ActiveDistinct(init, now, name);
      hide DetectionPrint;
      forall f | f in ActiveFindings(init, now)
        ensures f.fingerprint != DetectionFinding(last).fingerprint
      {
        ActiveMember(init, now, f);
        var i :| 0 <= i < |init| && Active(init[i], now) && f == DetectionFinding(init[i]);
        SlotsApart(ds[i], last);
      }
    }
  }

  /** Reports are honest and name every finding once, and hold exactly what the source emits. */
  lemma CollectedIs(names: set<string>, w: World, s: Scan, rate: Option<real>)
    requires Inv(names, w) && Possible(names, w, Scanned(s, rate))
    ensures Honest(s, Owners(names)) && Distinct(s)
    ensures forall fp :: fp in Seen(s.reported) <==> Emits(w, s.target, s.now, rate, fp)
  {
    if s.target in w.sources {
      var ds :| LogStore.Lists(ds, w.dets, s.target) && s.reported == Report(ds, s.target, s.now, rate);
      ReportHonest(names, w, s, ds, rate);
      ReportDistinct(names, w, s, ds, rate);
      forall fp
        ensures fp in Seen(s.reported) <==> Emits(w, s.target, s.now, rate, fp)
      {
        ReportedIff(names, w, s, ds, rate, fp);
      }
    }
  }

  lemma ReportMember(ds: seq<DetectionRecord>, name: string, now: int, rate: Option<real>, f: Finding)
    ensures f in Report(ds, name, now, rate) <==>
            (exists i :: 0 <= i < |ds| && Active(ds[i], now) && f == DetectionFinding(ds[i])) ||
            (ParsesPoorly(rate) && f == ParseRateFinding(name))
  {
    ActiveMember(ds, now, f);
    hide Active, DetectionFinding, ActiveFindings, ParseRateFinding;
  }

  lemma ReportHonest(names: set<string>, w: World, s: Scan, ds: seq<DetectionRecord>, rate: Option<real>)
    requires Inv(names, w) && s.target in names
    requires LogStore.Lists(ds, w.dets, s.target) && s.reported == Report(ds, s.target, s.now, rate)
    ensures Honest(s, Owners(names))
  {
    OwnerIs(names, s.target, PARSE_CHECK, "");
    assert Owners(names)(ParsePrint(s.target)) == s.target;
    hide Owners, Fingerprint, Fireable, Separate;
    forall f | f in s.reported
      ensures f.target == s.target && Owners(names)(f.fingerprint) == s.target
    {
      ReportMember(ds, s.target, s.now, rate, f);
      if i :| 0 <= i < |ds| && Active(ds[i], s.now) && f == DetectionFinding(ds[i]) {
        assert ds[i] in ds;
        DetectionOwner(names, ds[i]);
      }
    }
  }

  lemma ReportDistinct(names: set<string>, w: World, s: Scan, ds: seq<DetectionRecord>, rate: Option<real>)
    requires Inv(names, w) && s.target in names
    requires LogStore.Lists(ds, w.dets, s.target) && s.reported == Report(ds, s.target, s.now, rate)
    ensures Distinct(s)
  {
    forall i | 0 <= i < |ds|
      ensures ds[i].source == s.target && Fireable(ds[i].check, ds[i].key)
    {
      assert ds[i] in ds;
    }
    ActiveDistinct(ds, s.now, s.target);
    forall f | f in ActiveFindings(ds, s.now)
      ensures f.fingerprint != ParsePrint(s.target)
    {
      ActiveMember(ds, s.now, f);
      var i :| 0 <= i < |ds| && Active(ds[i], s.now) && f == DetectionFinding(ds[i]);
      NotParse(ds[i]);
    }
  }

  lemma NotParse(d: DetectionRecord)
    requires Fireable(d.check, d.key)
    ensures DetectionPrint(d) != ParsePrint(d.source)
  {
    NotParseCheck(d.check, d.key);
    hide Fireable;
    if DetectionPrint(d) == ParsePrint(d.source) {
      SamePrint(d.source, d.check, d.key, PARSE_CHECK, "");
    }
  }

  lemma NotParseCheck(check: string, key: string)
    requires Fireable(check, key)
    ensures check != PARSE_CHECK
  {
    var c: Check :| check == CheckName(c) && !c.OfParseRate? && Starts(key, c);
    assert CheckName(c)[2] != PARSE_CHECK[2] || CheckName(c)[0] != PARSE_CHECK[0];
  }

  lemma ParseAccepted(name: string)
    ensures name != "" ==> Valid(ParseRateFinding(name))
  {
  }

  lemma NamedChecks(check: string, key: string)
    requires Fireable(check, key)
    ensures check != ""
  {
    PrintableBarless(check, key);
  }

  lemma ReportedEmits(names: set<string>, w: World, s: Scan, ds: seq<DetectionRecord>, rate: Option<real>, f: Finding)
    requires Inv(names, w) && s.target in names && s.target in w.sources
    requires LogStore.Lists(ds, w.dets, s.target) && s.reported == Report(ds, s.target, s.now, rate)
    requires f in s.reported && Valid(f)
    ensures Emits(w, s.target, s.now, rate, f.fingerprint)
  {
    assert ParseRateFinding(s.target).fingerprint == ParsePrint(s.target);
    hide Fingerprint, ParseRateFinding, ParsePrint, Report, Validate, Fireable, Owned, Separate;
    ReportMember(ds, s.target, s.now, rate, f);
    if i :| 0 <= i < |ds| && Active(ds[i], s.now) && f == DetectionFinding(ds[i]) {
      assert ds[i] in ds;
      AcceptedIff(ds[i]);
      assert EmitsSlot(w.dets, s.target, s.now, f.fingerprint, LogStore.SlotOf(ds[i]));
    }
  }

  lemma EmittedReported(names: set<string>, w: World, s: Scan, ds: seq<DetectionRecord>, rate: Option<real>, fp: string)
    requires Inv(names, w) && s.target in names && s.target in w.sources
    requires LogStore.Lists(ds, w.dets, s.target) && s.reported == Report(ds, s.target, s.now, rate)
    requires Emits(w, s.target, s.now, rate, fp)
    ensures fp in Seen(s.reported)
  {
    ParseAccepted(s.target);
    assert ParseRateFinding(s.target).fingerprint == ParsePrint(s.target);
    ReportMember(ds, s.target, s.now, rate, ParseRateFinding(s.target));
    hide Fingerprint, ParseRateFinding, ParsePrint, Report, Validate, Fireable, Owned, Separate;
    if k :| EmitsSlot(w.dets, s.target, s.now, fp, k) {
      assert w.dets[k] in ds;
      NamedChecks(w.dets[k].check, w.dets[k].key);
      AcceptedIff(w.dets[k]);
      ReportMember(ds, s.target, s.now, rate, DetectionFinding(w.dets[k]));
    }
  }

  lemma ReportedIff(names: set<string>, w: World, s: Scan, ds: seq<DetectionRecord>, rate: Option<real>, fp: string)
    requires Inv(names, w) && s.target in names && s.target in w.sources
    requires LogStore.Lists(ds, w.dets, s.target) && s.reported == Report(ds, s.target, s.now, rate)
    ensures fp in Seen(s.reported) <==> Emits(w, s.target, s.now, rate, fp)
  {
    hide Emits, Inv, LogStore.Lists, Report, Validate;
    if fp in Seen(s.reported) {
      var f :| f in s.reported && Valid(f) && f.fingerprint == fp;
      ReportedEmits(names, w, s, ds, rate, f);
    }
    if Emits(w, s.target, s.now, rate, fp) {
      EmittedReported(names, w, s, ds, rate, fp);
    }
  }

  // ---------------------------------------------------------------- one scan

  /** What a scan does to one fingerprint, in terms of what its source emits. */
  ghost predicate AgreesAt(w: World, after: Records, s: Scan, rate: Option<real>, fp: string)
  {
    var k := KeyAt(fp);
    if Emits(w, s.target, s.now, rate, fp) then
      k in after && after[k].finding.target == s.target && after[k].absentStreak == 0 &&
      after[k].finding.status ==
        (if k in w.recs && w.recs[k].finding.status != Resolved then w.recs[k].finding.status else Open)
    else
      (k in after <==> k in w.recs) &&
      (k in w.recs ==>
        if w.recs[k].finding.target != s.target then after[k] == w.recs[k]
        else after[k].finding.target == s.target &&
             after[k].finding.status == if w.recs[k].finding.status == Suppressed then Suppressed else Resolved)
  }

  /** What the scan announces of it: an opening unless it is open already, and what it resolves. */
  ghost predicate AnnouncesAt(bs: Backends, w: World, s: Scan, rate: Option<real>, fp: string)
    requires Filed(w.recs)
  {
    var k := KeyAt(fp);
    Runs.Count(NewlyOpen(bs.findings, LOGLIGHT, w.recs, s), fp) ==
      (if Emits(w, s.target, s.now, rate, fp) && !(k in w.recs && w.recs[k].finding.status != Resolved) then 1 else 0) &&
    (k in ResolvedKeys(LOGLIGHT, w.recs, s) <==>
      k in w.recs && w.recs[k].finding.target == s.target &&
      w.recs[k].finding.status in {Open, Acknowledged} && !Emits(w, s.target, s.now, rate, fp))
  }

  lemma NewsAt(names: set<string>, bs: Backends, w: World, s: Scan, rate: Option<real>, fp: string)
    requires Inv(names, w) && Possible(names, w, Scanned(s, rate))
    ensures Runs.Count(NewlyOpen(bs.findings, LOGLIGHT, w.recs, s), fp) ==
      if Emits(w, s.target, s.now, rate, fp) && !(KeyAt(fp) in w.recs && w.recs[KeyAt(fp)].finding.status != Resolved) then 1 else 0
  {
    CollectedIs(names, w, s, rate);
    Runs.SeenIsReported(s, fp);
    Runs.NewsCount(bs.findings, LOGLIGHT, w.recs, s, |s.reported|, fp);
    DistinctOnce(s, fp, |s.reported|);
    if Runs.Reports(s, fp, |s.reported|) > 0 {
      HonestListed(LOGLIGHT, w.recs, s, Owners(names), fp);
    }
    assert Emits(w, s.target, s.now, rate, fp) == (fp in Seen(s.reported));
    hide Emits, Owners, Distinct, Honest, NewlyOpen, Seen, Possible, Counted, LogStore.Slotted, Known, Backed, SourceNames, Owned;
  }

  lemma ResolvedAt(names: set<string>, w: World, s: Scan, rate: Option<real>, fp: string)
    requires Inv(names, w) && Possible(names, w, Scanned(s, rate))
    ensures KeyAt(fp) in ResolvedKeys(LOGLIGHT, w.recs, s) <==>
      KeyAt(fp) in w.recs && w.recs[KeyAt(fp)].finding.target == s.target &&
      w.recs[KeyAt(fp)].finding.status in {Open, Acknowledged} && !Emits(w, s.target, s.now, rate, fp)
  {
    CollectedIs(names, w, s, rate);
    assert fp in Seen(s.reported) <==> Emits(w, s.target, s.now, rate, fp);
    assert KeyAt(fp) in w.recs ==> w.recs[KeyAt(fp)].finding.fingerprint == fp && w.recs[KeyAt(fp)].absentStreak >= 0;
    hide Emits, Owners, Distinct, Honest, Seen, Possible, LogStore.Slotted, Known, Backed, SourceNames, Owned, Counted;
    var k := KeyAt(fp);
    assert LOGLIGHT.Threshold() == 1;
    assert k in ResolvedKeys(LOGLIGHT, w.recs, s) <==> Ages(w.recs, LOGLIGHT, s, k) && Expires(w.recs[k], LOGLIGHT);
    assert k in w.recs ==> Expires(w.recs[k], LOGLIGHT);
    if k in w.recs {
      var r := w.recs[k].finding;
      assert r.status.Open? || r.status.Acknowledged? || r.status.Suppressed? || r.status.Resolved?;
      assert Overdue(s, w.recs[k]) <==> !Emits(w, s.target, s.now, rate, fp) && r.status !in {Resolved, Suppressed};
    }
  }

  lemma ScanAnnounces(names: set<string>, bs: Backends, w: World, s: Scan, rate: Option<real>, fp: string)
    requires Inv(names, w) && Possible(names, w, Scanned(s, rate))
    ensures AnnouncesAt(bs, w, s, rate, fp)
  {
    NewsAt(names, bs, w, s, rate, fp);
    ResolvedAt(names, w, s, rate, fp);
    hide Emits, Possible, NewlyOpen, ResolvedKeys;
  }

  lemma EmittedAgrees(names: set<string>, bs: Backends, w: World, s: Scan, rate: Option<real>, fp: string)
    requires Inv(names, w) && Possible(names, w, Scanned(s, rate)) && Emits(w, s.target, s.now, rate, fp)
    ensures AgreesAt(w, AfterScan(bs.findings, LOGLIGHT, w.recs, s), s, rate, fp)
  {
    CollectedIs(names, w, s, rate);
    Runs.SeenIsReported(s, fp);
    HonestListed(LOGLIGHT, w.recs, s, Owners(names), fp);
    ScanOwned(bs.findings, LOGLIGHT, w.recs, s, Owners(names));
    Runs.ScanAt(bs.findings, LOGLIGHT, w.recs, s, fp);
    hide Emits, Owners, Distinct, Honest, AfterScan, Seen, Possible, Counted, LogStore.Slotted, Known, Backed, SourceNames;
  }

  lemma SilentAgrees(names: set<string>, bs: Backends, w: World, s: Scan, rate: Option<real>, fp: string)
    requires Inv(names, w) && Possible(names, w, Scanned(s, rate)) && !Emits(w, s.target, s.now, rate, fp)
    ensures AgreesAt(w, AfterScan(bs.findings, LOGLIGHT, w.recs, s), s, rate, fp)
  {
    CollectedIs(names, w, s, rate);
    Runs.SeenIsReported(s, fp);
    Runs.ScanAt(bs.findings, LOGLIGHT, w.recs, s, fp);
    hide Emits, Owners, Distinct, Honest, AfterScan, Seen, Possible, LogStore.Slotted, Known, Backed, Owned, SourceNames;
    assert fp !in Seen(s.reported);
  }

  lemma ScanSettles(names: set<string>, bs: Backends, w: World, s: Scan, rate: Option<real>, fp: string)
    requires Inv(names, w) && Possible(names, w, Scanned(s, rate))
    ensures AgreesAt(w, AfterScan(bs.findings, LOGLIGHT, w.recs, s), s, rate, fp)
  {
    if Emits(w, s.target, s.now, rate, fp) {
      EmittedAgrees(names, bs, w, s, rate, fp);
    } else {
      SilentAgrees(names, bs, w, s, rate, fp);
    }
  }

  // ---------------------------------------------------------------- whole runs

  lemma ScanCounts(bs: Backends, w: World, s: Scan, k: Key)
    requires Filed(w.recs) && Counted(w.recs) && k.mod == MODULE_ID
    requires k in AfterScan(bs.findings, LOGLIGHT, w.recs, s)
    ensures AfterScan(bs.findings, LOGLIGHT, w.recs, s)[k].absentStreak >= 0
  {
    Runs.ScanAt(bs.findings, LOGLIGHT, w.recs, s, k.fingerprint);
    hide AfterScan, Ages;
    assert k == KeyAt(k.fingerprint);
  }

  lemma ScanKeeps(names: set<string>, bs: Backends, w: World, s: Scan, rate: Option<real>)
    requires Inv(names, w) && Possible(names, w, Scanned(s, rate))
    ensures Inv(names, w.(recs := AfterScan(bs.findings, LOGLIGHT, w.recs, s)))
  {
    CollectedIs(names, w, s, rate);
    ScanOwned(bs.findings, LOGLIGHT, w.recs, s, Owners(names));
    AfterScanFiled(bs.findings, LOGLIGHT, w.recs, s);
    IngestKeeps(bs.findings, LOGLIGHT, w.recs, s, |s.reported|);
    var after := AfterScan(bs.findings, LOGLIGHT, w.recs, s);
    assert w.recs.Keys <= after.Keys;
    hide AfterScan, Possible, Emits, Owners, Fingerprint, SourceNames, Known;
    forall k | k in after && k.mod == MODULE_ID
      ensures after[k].absentStreak >= 0
    {
      ScanCounts(bs, w, s, k);
    }
  }

  lemma StatusKeeps(names: set<string>, bs: Backends, w: World, fp: string, status: Status)
    requires Inv(names, w)
    ensures Inv(names, Step(bs, w, SetStatus(fp, status)))
  {
    hide Owners, Upsert, DetectionPrint, SourceNames, Fireable;
    var k := KeyAt(fp);
    if status != Resolved && k in w.recs {
      var r := w.recs[k].(finding := w.recs[k].finding.(status := status));
      UpsertKeeps(bs.findings, w.recs, r, Owners(names));
    }
  }

  lemma FewerKeeps(names: set<string>, w: World, sources: map<string, string>, dets: LogStore.Detections)
    requires Inv(names, w) && forall k :: k in dets ==> k in w.dets && dets[k] == w.dets[k]
    ensures Inv(names, World(sources, dets, w.recs))
  {
    hide Filed, Owned, Counted, SourceNames, Fireable, DetectionPrint;
  }

  lemma StepKeeps(names: set<string>, bs: Backends, w: World, op: Op)
    requires Inv(names, w) && Possible(names, w, op)
    ensures Inv(names, Step(bs, w, op))
  {
    match op
    case Fired(d, id) =>
      hide Inv;
      FiredKeeps(names, bs, w, d, id);
    case Scanned(s, rate) =>
      hide Inv;
      ScanKeeps(names, bs, w, s, rate);
    case SetStatus(fp, status) =>
      hide Inv;
      StatusKeeps(names, bs, w, fp, status);
    case _ =>
      FewerKeeps(names, w, Step(bs, w, op).sources, Step(bs, w, op).dets);
      hide Inv;
  }

  lemma {:induction false} RunKeeps(names: set<string>, bs: Backends, w: World, run: seq<Op>)
    requires Inv(names, w) && Happened(names, bs, w, run)
    ensures Inv(names, RunFrom(bs, w, run))
  {
    assert Inv(names, w) ==> Filed(w.recs);
    hide Inv, Possible, Step;
    if run != [] {
      RunKeeps(names, bs, w, run[..|run| - 1]);
      StepKeeps(names, bs, RunFrom(bs, w, run[..|run| - 1]), run[|run| - 1]);
    }
  }

  lemma EmptyKept(names: set<string>)
    requires SourceNames(names)
    ensures Inv(names, EMPTY)
  {
  }

  /**
   * After any run, one more scan of a source: what the source emits is open, acknowledged or
   * suppressed as it was, and everything else of it is resolved unless it was suppressed; findings
   * of other sources are untouched; only what was not open already is announced as opened; and
   * path B alone never makes a finding, but for the parse rate.
   */
  lemma PathsAgree(names: set<string>, bs: Backends, run: seq<Op>, s: Scan, rate: Option<real>, fp: string)
    requires SourceNames(names) && Happened(names, bs, EMPTY, run) && Possible(names, RunFrom(bs, EMPTY, run), Scanned(s, rate))
    ensures var w := RunFrom(bs, EMPTY, run);
            AgreesAt(w, Step(bs, w, Scanned(s, rate)).recs, s, rate, fp) && AnnouncesAt(bs, w, s, rate, fp) &&
            (Emits(w, s.target, s.now, rate, fp) && KeyAt(fp) !in w.recs ==> fp == ParsePrint(s.target))
  {
    EmptyKept(names);
    RunKeeps(names, bs, EMPTY, run);
    var w := RunFrom(bs, EMPTY, run);
    ScanSettles(names, bs, w, s, rate, fp);
    ScanAnnounces(names, bs, w, s, rate, fp);
    hide AgreesAt, AnnouncesAt, Possible, Happened, RunFrom, DetectionPrint, ParsePrint, Owned, AfterScan;
    if Emits(w, s.target, s.now, rate, fp) && fp != ParsePrint(s.target) {
      var k :| EmitsSlot(w.dets, s.target, s.now, fp, k);
    }
  }

  // ---------------------------------------------------------------- names that are not separate

  function Firing(source: string, check: string, key: string): DetectionRecord
  {
    LogStore.DetectionRecord(source, key, check, High, "", "", "seen", NoEvidence, "", 1, 0, 0)
  }

  /** A firing of each source, in the order that leaves the record under u. */
  function BothFire(backend: Backend, t: string, d: DetectionRecord, e: DetectionRecord): seq<Op>
  {
    [AddSource(t, "file")] + if backend == Memory then [Fired(d, ""), Fired(e, "")] else [Fired(e, ""), Fired(d, "")]
  }

  lemma OneMoreOp(names: set<string>, bs: Backends, w: World, run: seq<Op>, op: Op)
    requires Filed(w.recs) && Happened(names, bs, w, run) && Possible(names, RunFrom(bs, w, run), op)
    ensures Happened(names, bs, w, run + [op]) && RunFrom(bs, w, run + [op]) == Step(bs, RunFrom(bs, w, run), op)
  {
    hide Possible, Step;
    assert (run + [op])[..|run|] == run;
  }

  lemma BothFired(bs: Backends, t: string, d: DetectionRecord, e: DetectionRecord)
    requires d.source == t != e.source && DetectionPrint(d) == DetectionPrint(e)
    requires Fireable(d.check, d.key) && Fireable(e.check, e.key)
    ensures var w := RunFrom(bs, EMPTY, BothFire(bs.findings, t, d, e));
            var k := KeyAt(DetectionPrint(d));
            w.sources == map[t := "file"] && w.dets == map[LogStore.SlotOf(d) := d, LogStore.SlotOf(e) := e] &&
            k in w.recs && w.recs[k].finding.target == e.source && w.recs[k].finding.status == Open
    ensures Happened({t, e.source}, bs, EMPTY, BothFire(bs.findings, t, d, e))
  {
    hide Fireable, DetectionPrint, RunFrom, Happened;
    var names := {t, e.source};
    var one, two := if bs.findings == Memory then d else e, if bs.findings == Memory then e else d;
    Begun(names, bs);
    OneMoreOp(names, bs, EMPTY, [], AddSource(t, "file"));
    OneMoreOp(names, bs, EMPTY, [] + [AddSource(t, "file")], Fired(one, ""));
    OneMoreOp(names, bs, EMPTY, [] + [AddSource(t, "file")] + [Fired(one, "")], Fired(two, ""));
    assert BothFire(bs.findings, t, d, e) == [] + [AddSource(t, "file")] + [Fired(one, "")] + [Fired(two, "")];
  }

  lemma Begun(names: set<string>, bs: Backends)
    ensures Happened(names, bs, EMPTY, []) && RunFrom(bs, EMPTY, []) == EMPTY
  {
  }

  /** A scan that reports one finding, open under another source, announces it. */
  lemma OpenElsewhere(bs: Backends, w: World, s: Scan, f: Finding)
    requires Filed(w.recs) && s.reported == [f] && Valid(f)
    requires KeyAt(f.fingerprint) in w.recs
    requires w.recs[KeyAt(f.fingerprint)].finding.target != s.target
    ensures Runs.Count(NewlyOpen(bs.findings, LOGLIGHT, w.recs, s), f.fingerprint) == 1
  {
    Runs.NewsCount(bs.findings, LOGLIGHT, w.recs, s, 1, f.fingerprint);
    hide Validate, NewlyOpen, IngestUpTo;
    assert Runs.Reports(s, f.fingerprint, 0) == 0;
    assert Runs.Reports(s, f.fingerprint, 1) == 1;
    assert NewlyOpen(bs.findings, LOGLIGHT, w.recs, s) == IngestUpTo(bs.findings, LOGLIGHT, w.recs, s, 1).newlyOpen by {
      OneReported(bs, w, s);
    }
  }

  lemma OneReported(bs: Backends, w: World, s: Scan)
    requires |s.reported| == 1
    ensures NewlyOpen(bs.findings, LOGLIGHT, w.recs, s) == IngestUpTo(bs.findings, LOGLIGHT, w.recs, s, 1).newlyOpen
  {
  }

  /** The scan that reports the firing of d alone. */
  lemma OneActive(names: set<string>, w: World, d: DetectionRecord, e: DetectionRecord)
    requires w.sources == map[d.source := "file"] && w.dets == map[LogStore.SlotOf(d) := d, LogStore.SlotOf(e) := e]
    requires d.source in names && d.source != "" && d.source != e.source && Active(d, 0)
    ensures Possible(names, w, Scanned(Scan(d.source, [DetectionFinding(d)], 0, []), None))
  {
    hide DetectionFinding;
    assert LogStore.Lists([d], w.dets, d.source);
    assert [d][..0] == [];
    assert ActiveFindings([d], 0) == [DetectionFinding(d)];
    assert [DetectionFinding(d)] == Report([d], d.source, 0, None);
  }

  /**
   * Separate names are needed: whenever two can share a fingerprint, one can fire it, the other
   * can fire it too, and the next scan announces as opened what is open.
   */
  lemma SharingMisannounces(bs: Backends, t: string, u: string) returns (run: seq<Op>, s: Scan, fp: string)
    requires t != "" && u != "" && t != u && Continues(t, u)
    ensures Happened({t, u}, bs, EMPTY, run)
    ensures var w := RunFrom(bs, EMPTY, run);
            Possible({t, u}, w, Scanned(s, None)) &&
            KeyAt(fp) in w.recs && w.recs[KeyAt(fp)].finding.status == Open &&
            Runs.Count(NewlyOpen(bs.findings, LOGLIGHT, w.recs, s), fp) == 1
  {
    KeyStarts(OfChain, "");
    var check', key' := CheckName(OfChain), KeyWord(OfChain) + "|" + "";
    var check, key := ContinuedShares(t, u, check', key');
    var d, e := Firing(t, check, key), Firing(u, check', key');
    NamedChecks(check, key);
    AcceptedIff(d);
    assert Active(d, 0);
    assert DetectionFinding(d).fingerprint == DetectionPrint(d);
    hide Continues, Fireable, CheckName, KeyWord, Fingerprint, RunFrom, Happened, BothFire, NewlyOpen, Validate, Possible, DetectionFinding;
    run, fp := BothFire(bs.findings, t, d, e), DetectionPrint(d);
    BothFired(bs, t, d, e);
    s := Scan(t, [DetectionFinding(d)], 0, []);
    OneActive({t, u}, RunFrom(bs, EMPTY, run), d, e);
    OpenElsewhere(bs, RunFrom(bs, EMPTY, run), s, DetectionFinding(d));
  }

  // ---------------------------------------------------------------- suppression

  function StatusOf(w: World, fp: string): Option<Status>
  {
    Runs.StatusAt(LOGLIGHT, w.recs, fp)
  }

  predicate Fires(op: Op, fp: string)
  {
    op.Fired? && DetectionPrint(op.d) == fp
  }

  predicate UserSets(op: Op, fp: string)
  {
    op.SetStatus? && op.fp == fp
  }

  /** Path A opens whatever it writes. */
  lemma FiredOpens(bs: Backends, w: World, d: DetectionRecord, id: string, fp: string)
    ensures StatusOf(Write(bs, w, d, id), fp) == if DetectionPrint(d) == fp then Some(Open) else StatusOf(w, fp)
  {
    hide Fingerprint;
    assert KeyOf(Written(d, id)) == KeyAt(DetectionPrint(d));
  }

  lemma SuppressedStepIff(names: set<string>, bs: Backends, w: World, op: Op, fp: string)
    requires Inv(names, w) && Possible(names, w, op) && !UserSets(op, fp)
    ensures StatusOf(Step(bs, w, op), fp) == Some(Suppressed) <==>
            StatusOf(w, fp) == Some(Suppressed) && !Fires(op, fp)
  {
    match op
    case Fired(d, id) => FiredOpens(bs, w, d, id, fp);
    case Scanned(s, rate) =>
      ScanSettles(names, bs, w, s, rate, fp);
      hide Emits, Possible, AfterScan, Fingerprint, SourceNames, Known;
    case SetStatus(other, status) =>
      hide Fingerprint;
    case _ =>
  }

  /** Left to itself, a suppressed finding stays so exactly until path A writes it again. */
  lemma {:induction false} SuppressedUntilFiredIff(names: set<string>, bs: Backends, w: World, run: seq<Op>, fp: string)
    requires Inv(names, w) && Happened(names, bs, w, run) && StatusOf(w, fp) == Some(Suppressed)
    requires forall i :: 0 <= i < |run| ==> !UserSets(run[i], fp)
    ensures StatusOf(RunFrom(bs, w, run), fp) == Some(Suppressed) <==> forall i :: 0 <= i < |run| ==> !Fires(run[i], fp)
  {
    if run != [] {
      var init := run[..|run| - 1];
      SuppressedUntilFiredIff(names, bs, w, init, fp);
      RunKeeps(names, bs, w, init);
      SuppressedStepIff(names, bs, RunFrom(bs, w, init), run[|run| - 1], fp);
      hide StatusOf, Fires, UserSets, Inv, Possible, Step;
      assert forall i :: 0 <= i < |init| ==> init[i] == run[i];
    }
  }

  // ---------------------------------------------------------------- a firing and the next scan

  /** What decides, when path A writes, whether path B will say the same. */
  predicate Confirmed(w: World, d: DetectionRecord, now: int)
  {
    d.source in w.sources && Active(d, now) && d.title != ""
  }

  /** A finding that has just been written survives the next scan of its source exactly when it is confirmed. */
  lemma FiredSurvivesIff(names: set<string>, bs: Backends, w: World, d: DetectionRecord, id: string, s: Scan, rate: Option<real>)
    requires Inv(names, w) && Possible(names, w, Fired(d, id)) && s.target == d.source
    requires Possible(names, Write(bs, w, d, id), Scanned(s, rate))
    ensures var after := AfterScan(bs.findings, LOGLIGHT, Write(bs, w, d, id).recs, s);
            StatusOf(w.(recs := after), DetectionPrint(d)) ==
              Some(if Confirmed(w, d, s.now) then Open else Resolved)
    ensures Runs.Count(NewlyOpen(bs.findings, LOGLIGHT, Write(bs, w, d, id).recs, s), DetectionPrint(d)) == 0
  {
    var mid, fp := Write(bs, w, d, id), DetectionPrint(d);
    FiredKeeps(names, bs, w, d, id);
    FiredOpens(bs, w, d, id, fp);
    ScanSettles(names, bs, mid, s, rate, fp);
    ScanAnnounces(names, bs, mid, s, rate, fp);
    FiredEmitsIff(names, bs, w, d, id, s.now, rate);
    DetectionOwner(names, d);
    hide Emits, Possible, Written, AfterScan, Upsert, Confirmed, NewlyOpen, LogStore.Keep, Owners, Fingerprint, DetectionPrint, SourceNames, Known;
    assert KeyAt(fp) in mid.recs && mid.recs[KeyAt(fp)].finding.target == s.target;
  }

  lemma FiredEmitsIff(names: set<string>, bs: Backends, w: World, d: DetectionRecord, id: string, now: int, rate: Option<real>)
    requires Inv(names, w) && Possible(names, w, Fired(d, id))
    ensures Emits(Write(bs, w, d, id), d.source, now, rate, DetectionPrint(d)) <==> Confirmed(w, d, now)
  {
    NotParse(d);
    var dets := LogStore.Keep(bs.log, w.dets, d);
    KeepKeeps(names, bs.log, w.dets, d);
    OwnSlotOnly(names, dets, d, now);
    OwnSlotEmitsIff(bs.log, w.dets, d, now);
    hide DetectionPrint, ParsePrint, LogStore.Keep, EmitsSlot, Fireable, SourceNames, Known, Owned;
  }

  lemma OwnSlotOnly(names: set<string>, dets: LogStore.Detections, d: DetectionRecord, now: int)
    requires LogStore.Slotted(dets) && Known(names, dets) && Fireable(d.check, d.key)
    ensures forall k :: EmitsSlot(dets, d.source, now, DetectionPrint(d), k) ==> k == LogStore.SlotOf(d)
  {
    hide DetectionPrint, Active, Fireable;
    forall k | EmitsSlot(dets, d.source, now, DetectionPrint(d), k)
      ensures k == LogStore.SlotOf(d)
    {
      if k != LogStore.SlotOf(d) {
        SlotsApart(dets[k], d);
      }
    }
  }

  lemma OwnSlotEmitsIff(backend: Backend, dets: LogStore.Detections, d: DetectionRecord, now: int)
    requires DetectionPrint(LogStore.Keep(backend, dets, d)[LogStore.SlotOf(d)]) == DetectionPrint(d)
    requires LogStore.Slotted(dets)
    ensures EmitsSlot(LogStore.Keep(backend, dets, d), d.source, now, DetectionPrint(d), LogStore.SlotOf(d)) <==>
            Active(d, now) && d.title != ""
  {
    hide Fingerprint;
  }

  /** Pruning what is no longer active changes nothing that a scan reports. */
  lemma PruningUnseen(w: World, before: int, name: string, now: int, rate: Option<real>, fp: string)
    requires before <= now - ACTIVE_WINDOW
    ensures Emits(w.(dets := LogStore.PrunedBefore(w.dets, before)), name, now, rate, fp) <==> Emits(w, name, now, rate, fp)
  {
    var after := LogStore.PrunedBefore(w.dets, before);
    forall k
      ensures EmitsSlot(after, name, now, fp, k) <==> EmitsSlot(w.dets, name, now, fp, k)
    {
    }
  }

  // ---------------------------------------------------------------- the active detections as history

  /** The firings of a slot since it was last forgotten: pruned, or deleted with its source. */
  function Since(bs: Backends, run: seq<Op>, slot: LogStore.Slot): seq<DetectionRecord>
  {
    if run == [] then []
    else
      var past := Since(bs, run[..|run| - 1], slot);
      match run[|run| - 1]
      case Fired(d, _) => if LogStore.SlotOf(d) == slot then past + [d] else past
      case Pruned(before) => if past != [] && past[|past| - 1].lastAt < before then [] else past
      case RemoveSource(name) => if bs.log == Sqlite && name == slot.0 then [] else past
      case _ => past
  }

  predicate Earliest(at: int, ds: seq<DetectionRecord>)
  {
    (forall i :: 0 <= i < |ds| ==> at <= ds[i].firstAt) && exists i :: 0 <= i < |ds| && at == ds[i].firstAt
  }

  /** What a slot holds, of the firings it stands for. */
  predicate Sums(backend: Backend, d: DetectionRecord, slot: LogStore.Slot, past: seq<DetectionRecord>)
    requires past != []
  {
    var last := past[|past| - 1];
    LogStore.SlotOf(d) == slot && d.lastAt == last.lastAt && d.severity == last.severity && d.title == last.title &&
    d.evidence == last.evidence && d.count == last.count && Earliest(d.firstAt, past) &&
    d.check == (if backend == Sqlite then past[0] else last).check
  }

  predicate HoldsHistory(backend: Backend, dets: LogStore.Detections, slot: LogStore.Slot, past: seq<DetectionRecord>)
  {
    (slot in dets <==> past != []) && (past != [] ==> Sums(backend, dets[slot], slot, past))
  }

  lemma FiredHistory(backend: Backend, dets: LogStore.Detections, slot: LogStore.Slot, past: seq<DetectionRecord>, d: DetectionRecord)
    requires HoldsHistory(backend, dets, slot, past) && LogStore.SlotOf(d) == slot
    ensures HoldsHistory(backend, LogStore.Keep(backend, dets, d), slot, past + [d])
  {
    var more := past + [d];
    if past != [] {
      var i :| 0 <= i < |past| && dets[slot].firstAt == past[i].firstAt;
      assert more[i] == past[i];
    }
    assert more[|past|] == d;
    assert Earliest(LogStore.Keep(backend, dets, d)[slot].firstAt, more);
  }

  /** What is stored of a detection is a function of its own firings, whatever else happened. */
  lemma {:induction false} SlotIsHistory(bs: Backends, run: seq<Op>, slot: LogStore.Slot)
    ensures HoldsHistory(bs.log, RunFrom(bs, EMPTY, run).dets, slot, Since(bs, run, slot))
  {
    if run != [] {
      var init, op := run[..|run| - 1], run[|run| - 1];
      SlotIsHistory(bs, init, slot);
      var w := RunFrom(bs, EMPTY, init);
      hide Earliest, AfterScan, Upsert, Written;
      match op
      case Fired(d, id) =>
        if LogStore.SlotOf(d) == slot {
          FiredHistory(bs.log, w.dets, slot, Since(bs, init, slot), d);
        }
      case _ =>
    }
  }
}
