/** The reconcile engine as it runs: two loops that update the store record by record. */
module Reconciler {
  import opened Wire
  import opened Findings
  import opened Lifecycle
  import LifecycleContents

  datatype ReconcileResult = ReconcileResult(newlyOpen: seq<Finding>, resolved: seq<Finding>, rejected: seq<(Finding, Reason)>)

  // --- the second loop over a list, and why the order of the list does not matter ---

  /** rs lists the records of the scanned target, each once. */
  ghost predicate Lists(rs: seq<Record>, start: Records, m: Module, s: Scan)
  {
    && (forall r :: r in rs <==> KeyOf(r) in start && start[KeyOf(r)] == r && r.finding.mod == m.id && r.finding.target == s.target)
    && forall i, j :: 0 <= i < j < |rs| ==> KeyOf(rs[i]) != KeyOf(rs[j])
  }

  ghost function AgeFirst(backend: Backend, m: Module, s: Scan, rs: seq<Record>, n: nat, recs: Records): Records
    requires n <= |rs|
  {
    if n == 0 then recs
    else
      var before := AgeFirst(backend, m, s, rs, n - 1, recs);
      if Overdue(s, rs[n - 1]) then Upsert(backend, before, Aged(rs[n - 1], m, s.now)) else before
  }

  ghost function ResolvedFirst(m: Module, s: Scan, rs: seq<Record>, n: nat): seq<Finding>
    requires n <= |rs|
  {
    if n == 0 then []
    else
      ResolvedFirst(m, s, rs, n - 1) +
      if Overdue(s, rs[n - 1]) && Expires(rs[n - 1], m) then [Aged(rs[n - 1], m, s.now).finding] else []
  }

  ghost function FirstKeys(rs: seq<Record>, n: nat): set<Key>
    requires n <= |rs|
  {
    if n == 0 then {} else FirstKeys(rs, n - 1) + {KeyOf(rs[n - 1])}
  }

  lemma {:induction false} FirstKeysMember(rs: seq<Record>, n: nat, k: Key)
    requires n <= |rs|
    ensures k in FirstKeys(rs, n) <==> exists i :: 0 <= i < n && KeyOf(rs[i]) == k
  {
    if n > 0 {
      FirstKeysMember(rs, n - 1, k);
    }
  }

  /** The listed records are exactly those under FirstKeys, and each key comes up once. */
  lemma ListsKeys(rs: seq<Record>, start: Records, m: Module, s: Scan, n: nat)
    requires n < |rs| && Lists(rs, start, m, s)
    ensures KeyOf(rs[n]) !in FirstKeys(rs, n) && KeyOf(rs[n]) in start && start[KeyOf(rs[n])] == rs[n]
    ensures Ages(start, m, s, KeyOf(rs[n])) == Overdue(s, rs[n])
  {
    FirstKeysMember(rs, n, KeyOf(rs[n]));
    assert rs[n] in rs;
  }

  /** recs with the records under done aged. */
  ghost predicate AgedUnder(done: set<Key>, backend: Backend, m: Module, s: Scan, start: Records, recs: Records, after: Records)
  {
    && after.Keys == recs.Keys
    && forall k :: k in recs ==> after[k] == AgedAt(done, backend, m, s, start, recs, k)
  }

  ghost function AgedAt(done: set<Key>, backend: Backend, m: Module, s: Scan, start: Records, recs: Records, k: Key): Record
    requires k in recs
  {
    if k in done && Ages(start, m, s, k) then Merge(backend, recs[k], Aged(start[k], m, s.now)) else recs[k]
  }

  lemma AgedUnderOne(done: set<Key>, r: Record, backend: Backend, m: Module, s: Scan, start: Records, recs: Records, after: Records)
    requires AgedUnder(done, backend, m, s, start, recs, after)
    requires KeyOf(r) !in done && KeyOf(r) in start && start[KeyOf(r)] == r && KeyOf(r) in recs
    requires Ages(start, m, s, KeyOf(r)) == Overdue(s, r)
    ensures AgedUnder(done + {KeyOf(r)}, backend, m, s, start, recs,
                      if Overdue(s, r) then Upsert(backend, after, Aged(r, m, s.now)) else after)
  {
    assert KeyOf(Aged(r, m, s.now)) == KeyOf(r);
    assert after[KeyOf(r)] == recs[KeyOf(r)];
  }

  lemma NothingAged(backend: Backend, m: Module, s: Scan, start: Records, recs: Records)
    ensures AgedUnder({}, backend, m, s, start, recs, recs)
  {
  }

  lemma {:induction false} AgeFirstIs(backend: Backend, m: Module, s: Scan, start: Records, rs: seq<Record>, n: nat, recs: Records)
    requires n <= |rs| && Lists(rs, start, m, s) && start.Keys <= recs.Keys
    ensures AgedUnder(FirstKeys(rs, n), backend, m, s, start, recs, AgeFirst(backend, m, s, rs, n, recs))
  {
    hide Aged, Overdue, Upsert, AgedUnder;
    if n == 0 {
      NothingAged(backend, m, s, start, recs);
    } else {
      AgeFirstIs(backend, m, s, start, rs, n - 1, recs);
      ListsKeys(rs, start, m, s, n - 1);
      AgedUnderOne(FirstKeys(rs, n - 1), rs[n - 1], backend, m, s, start, recs, AgeFirst(backend, m, s, rs, n - 1, recs));
    }
  }

  lemma AllListed(m: Module, s: Scan, start: Records, rs: seq<Record>, k: Key)
    requires Filed(start) && Lists(rs, start, m, s) && Ages(start, m, s, k)
    ensures k in FirstKeys(rs, |rs|)
  {
    FirstKeysMember(rs, |rs|, k);
    assert KeyOf(start[k]) == k && start[k] in rs;
  }

  lemma AgeFirstAll(backend: Backend, m: Module, s: Scan, start: Records, rs: seq<Record>, recs: Records)
    requires Filed(start) && Lists(rs, start, m, s) && start.Keys <= recs.Keys
    ensures AgeFirst(backend, m, s, rs, |rs|, recs) == AgeAll(backend, m, start, s, recs)
  {
    AgeFirstIs(backend, m, s, start, rs, |rs|, recs);
    forall k | Ages(start, m, s, k) ensures k in FirstKeys(rs, |rs|) {
      AllListed(m, s, start, rs, k);
    }
  }

  /** fs announces the resolution of the records under done, each once. */
  ghost predicate Announces(done: set<Key>, m: Module, s: Scan, start: Records, fs: seq<Finding>)
  {
    && (forall f :: f in fs <==> exists k :: k in ResolvedKeys(m, start, s) * done && f == Aged(start[k], m, s.now).finding)
    && |fs| == |ResolvedKeys(m, start, s) * done|
  }

  lemma ResolvedAt(r: Record, m: Module, s: Scan, start: Records)
    requires KeyOf(r) in start && start[KeyOf(r)] == r
    requires Ages(start, m, s, KeyOf(r)) == Overdue(s, r)
    ensures KeyOf(r) in ResolvedKeys(m, start, s) <==> Overdue(s, r) && Expires(r, m)
  {
  }

  lemma AnnouncesOne(done: set<Key>, r: Record, m: Module, s: Scan, start: Records, fs: seq<Finding>)
    requires Announces(done, m, s, start, fs)
    requires KeyOf(r) !in done && KeyOf(r) in start && start[KeyOf(r)] == r
    requires Ages(start, m, s, KeyOf(r)) == Overdue(s, r)
    ensures Announces(done + {KeyOf(r)}, m, s, start,
                      fs + if Overdue(s, r) && Expires(r, m) then [Aged(r, m, s.now).finding] else [])
  {
    hide Aged, Overdue, Expires, KeyOf;
    ResolvedAt(r, m, s, start);
    if Overdue(s, r) && Expires(r, m) {
      AnnouncesMore(done, KeyOf(r), m, s, start, fs);
    } else {
      assert ResolvedKeys(m, start, s) * (done + {KeyOf(r)}) == ResolvedKeys(m, start, s) * done;
      assert fs + [] == fs;
    }
  }

  lemma AnnouncesMore(done: set<Key>, k: Key, m: Module, s: Scan, start: Records, fs: seq<Finding>)
    requires Announces(done, m, s, start, fs) && k !in done && k in ResolvedKeys(m, start, s)
    ensures Announces(done + {k}, m, s, start, fs + [Aged(start[k], m, s.now).finding])
  {
    hide Aged, ResolvedKeys;
    var all := ResolvedKeys(m, start, s);
    assert all * (done + {k}) == all * done + {k};
  }

  lemma NothingAnnounced(m: Module, s: Scan, start: Records)
    ensures Announces({}, m, s, start, [])
  {
    assert ResolvedKeys(m, start, s) * {} == {};
  }

  lemma {:induction false} ResolvedFirstIs(m: Module, s: Scan, start: Records, rs: seq<Record>, n: nat)
    requires n <= |rs| && Lists(rs, start, m, s)
    ensures Announces(FirstKeys(rs, n), m, s, start, ResolvedFirst(m, s, rs, n))
  {
    hide Aged, Overdue, Expires, Announces;
    if n == 0 {
      NothingAnnounced(m, s, start);
    } else {
      ResolvedFirstIs(m, s, start, rs, n - 1);
      ListsKeys(rs, start, m, s, n - 1);
      AnnouncesOne(FirstKeys(rs, n - 1), rs[n - 1], m, s, start, ResolvedFirst(m, s, rs, n - 1));
    }
  }

  lemma ResolvedFirstAll(m: Module, s: Scan, start: Records, rs: seq<Record>)
    requires Filed(start) && Lists(rs, start, m, s)
    ensures Announces(ResolvedKeys(m, start, s), m, s, start, ResolvedFirst(m, s, rs, |rs|))
  {
    ResolvedFirstIs(m, s, start, rs, |rs|);
    forall k | k in ResolvedKeys(m, start, s) ensures k in FirstKeys(rs, |rs|) {
      AllListed(m, s, start, rs, k);
    }
    assert ResolvedKeys(m, start, s) * FirstKeys(rs, |rs|) == ResolvedKeys(m, start, s) * ResolvedKeys(m, start, s);
  }

  /** What is announced as resolved is a record of before, as it was but for its status, resolved now. */
  lemma ResolvedAreRecords(m: Module, s: Scan, start: Records, resolved: seq<Finding>)
    requires Announces(ResolvedKeys(m, start, s), m, s, start, resolved)
    ensures forall f :: f in resolved ==>
              exists k :: k in ResolvedKeys(m, start, s) && f.status == Resolved && f.resolvedAt == Some(s.now) &&
                f.(status := start[k].finding.status, resolvedAt := start[k].finding.resolvedAt) == start[k].finding
  {
    forall f | f in resolved
      ensures exists k :: k in ResolvedKeys(m, start, s) && f.status == Resolved && f.resolvedAt == Some(s.now) &&
                f.(status := start[k].finding.status, resolvedAt := start[k].finding.resolvedAt) == start[k].finding
    {
      var k :| k in ResolvedKeys(m, start, s) * ResolvedKeys(m, start, s) && f == Aged(start[k], m, s.now).finding;
      LifecycleContents.ResolvedTells(start[k], m, s.now);
    }
  }

  // --- the engine ----------------------------------------------------------

  /** byFP indexes the records that the scan lists. */
  ghost predicate Indexes(byFP: map<string, Record>, start: Records, m: Module, s: Scan)
  {
    forall fp :: Listed(start, m, s.target, fp) == if fp in byFP then Some(byFP[fp]) else None
  }

  class Engine {
    const store: FindingStore

    constructor (store: FindingStore)
      ensures this.store == store
    {
      this.store := store;
    }

    method Index(existing: seq<Record>, m: Module, s: Scan, ghost start: Records) returns (byFP: map<string, Record>)
      requires Filed(start) && Lists(existing, start, m, s)
      ensures Indexes(byFP, start, m, s)
    {
      byFP := map[];
      for i := 0 to |existing|
        invariant forall j :: 0 <= j < i ==> existing[j].finding.fingerprint in byFP
        invariant forall fp :: fp in byFP ==> byFP[fp] in existing && byFP[fp].finding.fingerprint == fp
      {
        byFP := byFP[existing[i].finding.fingerprint := existing[i]];
      }
      forall fp
        ensures Listed(start, m, s.target, fp) == if fp in byFP then Some(byFP[fp]) else None
      {
        if Listed(start, m, s.target, fp).Some? {
          assert KeyOf(start[Key(m.id, fp)]) == Key(m.id, fp) && start[Key(m.id, fp)] in existing;
        }
        if fp in byFP {
          assert KeyOf(byFP[fp]) == Key(m.id, fp);
        }
      }
    }

    /** The body of the first loop: an update for a valid finding, a reason for an invalid one. */
    method IngestOne(m: Module, s: Scan, i: nat, byFP: map<string, Record>, ghost start: Records)
      returns (bad: Option<Reason>, news: seq<Finding>)
      requires i < |s.reported| && Indexes(byFP, start, m, s)
      modifies store
      ensures bad == Validate(s.reported[i])
      ensures bad.Some? ==> store.recs == old(store.recs) && news == []
      ensures bad.None? ==> store.recs == Upsert(store.backend, old(store.recs), Incoming(m, start, s, i))
      ensures bad.None? ==> news == if IsNews(m, start, s, s.reported[i].fingerprint) then [Incoming(m, start, s, i).finding] else []
      ensures bad.None? && Filed(start) ==> LifecycleContents.Written(store.recs, m, s.reported[i], s.now)
      ensures news != [] && Filed(start) ==> LifecycleContents.Announced(m, start, s, i, news[0])
    {
      ghost var before := store.recs;
      bad, news := Validate(s.reported[i]), [];
      if bad.Some? {
        return;
      }
      var f := CapEvidence(s.reported[i]);
      if f.fingerprint !in byFP {
        var r := Insert(m, f, s.now, s.IdAt(i));
        store.Put(r);
        news := [r.finding];
      } else {
        var prev := byFP[f.fingerprint];
        var r := Refresh(prev, f, s.now);
        store.Put(r);
        if prev.finding.status == Resolved {
          news := [r.finding];
        }
      }
      if Filed(start) {
        hide Upsert, Incoming, Validate;
        LifecycleContents.WrittenTells(store.backend, before, m, start, s, i);
      }
    }

    method IngestAll(m: Module, s: Scan, byFP: map<string, Record>, ghost start: Records)
      returns (newlyOpen: seq<Finding>, rejected: seq<(Finding, Reason)>, seen: set<string>)
      requires Indexes(byFP, start, m, s) && store.recs == start
      modifies store
      ensures Progress(store.recs, newlyOpen, rejected) == IngestUpTo(store.backend, m, start, s, |s.reported|)
      ensures seen == Seen(s.reported)
    {
      hide Validate, Upsert, Incoming;
      newlyOpen, rejected, seen := [], [], {};
      for i := 0 to |s.reported|
        invariant Progress(store.recs, newlyOpen, rejected) == IngestUpTo(store.backend, m, start, s, i)
        invariant seen == Seen(s.reported[..i])
      {
        assert s.reported[..i + 1] == s.reported[..i] + [s.reported[i]];
        var bad, news := IngestOne(m, s, i, byFP, start);
        if bad.Some? {
          rejected := rejected + [(s.reported[i], bad.value)];
        } else {
          seen := seen + {s.reported[i].fingerprint};
          newlyOpen := newlyOpen + news;
        }
      }
      assert s.reported[..|s.reported|] == s.reported;
    }

    /** The second loop: every listed record that was not seen ages. */
    method AgeExisting(m: Module, s: Scan, existing: seq<Record>, seen: set<string>) returns (resolved: seq<Finding>)
      requires seen == Seen(s.reported)
      modifies store
      ensures store.recs == AgeFirst(store.backend, m, s, existing, |existing|, old(store.recs))
      ensures resolved == ResolvedFirst(m, s, existing, |existing|)
    {
      resolved := [];
      for i := 0 to |existing|
        invariant store.recs == AgeFirst(store.backend, m, s, existing, i, old(store.recs))
        invariant resolved == ResolvedFirst(m, s, existing, i)
      {
        if existing[i].finding.fingerprint !in seen && existing[i].finding.status !in {Resolved, Suppressed} {
          var r := Aged(existing[i], m, s.now);
          if r.absentStreak >= m.Threshold() {
            resolved := resolved + [r.finding];
          }
          store.Put(r);
        }
      }
    }

    method Reconcile(m: Module, s: Scan) returns (res: ReconcileResult)
      requires Filed(store.recs)
      modifies store
      ensures Filed(store.recs) && store.recs == AfterScan(store.backend, m, old(store.recs), s)
      ensures res.newlyOpen == NewlyOpen(store.backend, m, old(store.recs), s)
      ensures res.rejected == IngestUpTo(store.backend, m, old(store.recs), s, |s.reported|).rejected
      ensures Announces(ResolvedKeys(m, old(store.recs), s), m, s, old(store.recs), res.resolved)
    {
      ghost var start := store.recs;
      var existing := store.ListByTarget(m.id, s.target);
      var byFP := Index(existing, m, s, start);
      var newlyOpen, rejected, seen := IngestAll(m, s, byFP, start);
      IngestKeeps(store.backend, m, start, s, |s.reported|);
      ghost var mid := store.recs;
      var resolved := AgeExisting(m, s, existing, seen);
      res := ReconcileResult(newlyOpen, resolved, rejected);
      AgeFirstAll(store.backend, m, s, start, existing, mid);
      ResolvedFirstAll(m, s, start, existing);
      AfterScanFiled(store.backend, m, start, s);
    }
  }
}
