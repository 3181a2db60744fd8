/** The notification dispatcher: dedup, batch, flush; every accepted event ends up in one digest. */
module Dispatcher {
  import opened Wire
  import opened Findings
  import opened LineText
  import opened SeveritySort
  import opened Sums

  datatype Kind = Opened | Closed

  datatype Event = Event(kind: Kind, mod: string, finding: Finding)

  datatype Digest = Digest(mod: string, news: seq<Finding>, resolved: seq<Finding>)

  /** minSeverity None sends everything; maxBatch and retries are at least one once defaulted. */
  datatype Settings = Settings(maxBatch: int, minSeverity: Option<Severity>, retries: int)

  function WithDefaults(c: Settings): (d: Settings)
    ensures d.maxBatch >= 1 && d.retries >= 1
  {
    Settings(if c.maxBatch <= 0 then 100 else c.maxBatch, c.minSeverity, if c.retries <= 0 then 3 else c.retries)
  }

  function DedupKey(e: Event): string
  {
    (if e.kind == Opened then "opened" else "resolved") + "|" + e.mod + "|" + e.finding.fingerprint
  }

  /** Resolutions always pass; openings only at or above the configured severity. */
  predicate Passes(c: Settings, e: Event)
  {
    e.kind == Opened && c.minSeverity.Some? ==> SeverityRank(e.finding.severity) >= SeverityRank(c.minSeverity.value)
  }

  type Pending = map<string, seq<Event>>

  function PendingOf(p: Pending, mod: string): seq<Event>
  {
    if mod in p then p[mod] else []
  }

  ghost function Lengths(p: Pending): map<string, int>
  {
    map m | m in p :: |p[m]|
  }

  ghost function Total(p: Pending): int
  {
    Sum(Lengths(p))
  }

  // --- digests -----------------------------------------------------------------------

  /** What one module had pending when it was flushed. */
  datatype Batch = Batch(mod: string, events: seq<Event>)

  function FindingsOf(es: seq<Event>, kind: Kind): seq<Finding>
  {
    if es == [] then []
    else FindingsOf(es[..|es| - 1], kind) + if es[|es| - 1].kind == kind then [es[|es| - 1].finding] else []
  }

  function DigestOf(b: Batch): Digest
  {
    Digest(b.mod, MostSevereFirst(FindingsOf(b.events, Opened)), FindingsOf(b.events, Closed))
  }

  function Announced(mod: string, kind: Kind, fs: seq<Finding>): seq<Event>
  {
    seq(|fs|, i requires 0 <= i < |fs| => Event(kind, mod, fs[i]))
  }

  /** The events a digest stands for. */
  function EventsOf(d: Digest): multiset<Event>
  {
    multiset(Announced(d.mod, Opened, d.news)) + multiset(Announced(d.mod, Closed, d.resolved))
  }

  lemma {:induction false} AnnouncedCount(mod: string, kind: Kind, fs: seq<Finding>, e: Event)
    ensures multiset(Announced(mod, kind, fs))[e] == if e.mod == mod && e.kind == kind then multiset(fs)[e.finding] else 0
  {
    if fs != [] {
      var front, last := fs[..|fs| - 1], fs[|fs| - 1];
      AnnouncedCount(mod, kind, front, e);
      assert fs == front + [last];
      assert Announced(mod, kind, fs) == Announced(mod, kind, front) + [Event(kind, mod, last)];
    }
  }

  lemma FindingsSnoc(es: seq<Event>, x: Event, kind: Kind)
    ensures FindingsOf(es + [x], kind) == FindingsOf(es, kind) + if x.kind == kind then [x.finding] else []
  {
    assert (es + [x])[..|es|] == es;
  }

  lemma CountMore<T>(s: seq<T>, x: T, y: T)
    ensures multiset(s + [x])[y] == multiset(s)[y] + if x == y then 1 else 0
  {
  }

  lemma FindingsCountOne(front: seq<Event>, last: Event, e: Event)
    requires last.mod == e.mod && multiset(FindingsOf(front, e.kind))[e.finding] == multiset(front)[e]
    ensures multiset(FindingsOf(front + [last], e.kind))[e.finding] == multiset(front + [last])[e]
  {
    hide *;
    FindingsSnoc(front, last, e.kind);
    CountMore(front, last, e);
    if last.kind == e.kind {
      CountMore(FindingsOf(front, e.kind), last.finding, e.finding);
    } else {
      assert FindingsOf(front, e.kind) + [] == FindingsOf(front, e.kind);
    }
  }

  lemma {:induction false} FindingsCount(es: seq<Event>, mod: string, e: Event)
    requires e.mod == mod && forall x :: x in es ==> x.mod == mod
    ensures multiset(FindingsOf(es, e.kind))[e.finding] == multiset(es)[e]
  {
    if es == [] {
      assert FindingsOf(es, e.kind) == [];
    } else {
      hide *;
      var front, last := es[..|es| - 1], es[|es| - 1];
      assert es == front + [last];
      FindingsCount(front, mod, e);
      FindingsCountOne(front, last, e);
    }
  }

  lemma NotOfModule(es: seq<Event>, mod: string, e: Event)
    requires e.mod != mod && forall x :: x in es ==> x.mod == mod
    ensures multiset(es)[e] == 0
  {
    assert e !in es;
  }

  /** A digest stands for exactly the events of its batch, each as often as it was accepted. */
  lemma DigestKeepsEvents(b: Batch)
    requires forall e :: e in b.events ==> e.mod == b.mod
    ensures EventsOf(DigestOf(b)) == multiset(b.events)
  {
    var d := DigestOf(b);
    SortIsPermutation(FindingsOf(b.events, Opened));
    hide MostSevereFirst, FindingsOf, Announced;
    forall e ensures EventsOf(d)[e] == multiset(b.events)[e] {
      AnnouncedCount(d.mod, Opened, d.news, e);
      AnnouncedCount(d.mod, Closed, d.resolved, e);
      if e.mod == b.mod {
        FindingsCount(b.events, b.mod, e);
      } else {
        NotOfModule(b.events, b.mod, e);
      }
    }
  }

  // --- the dispatcher's state and its steps ----------------------------------------------

  /** Besides the fields: what has been accepted so far, and the batches flushed so far. */
  datatype Box = Box(pending: Pending, seen: set<string>, timer: bool, closed: bool, accepted: seq<Event>, batches: seq<Batch>)

  const EMPTY := Box(map[], {}, false, false, [], [])

  predicate Accepts(c: Settings, s: Box, e: Event)
  {
    Passes(c, e) && !s.closed && DedupKey(e) !in s.seen
  }

  function Push(s: Box, e: Event): Box
  {
    s.(seen := s.seen + {DedupKey(e)}, pending := s.pending[e.mod := PendingOf(s.pending, e.mod) + [e]], accepted := s.accepted + [e])
  }

  /** bs holds every module's pending events, each module once, in any order. */
  ghost predicate Covers(p: Pending, bs: seq<Batch>)
  {
    && (forall i :: 0 <= i < |bs| ==> bs[i].mod in p && bs[i].events == p[bs[i].mod])
    && (forall i, j :: 0 <= i < j < |bs| ==> bs[i].mod != bs[j].mod)
    && (forall m :: m in p ==> exists i :: 0 <= i < |bs| && bs[i].mod == m)
  }

  ghost predicate Flushed(s: Box, t: Box)
  {
    && t.pending == map[] && t.seen == {} && !t.timer && t.closed == s.closed && t.accepted == s.accepted
    && exists bs :: Covers(s.pending, bs) && t.batches == s.batches + bs
  }

  ghost predicate Enqueued(c: Settings, s: Box, e: Event, t: Box)
  {
    if !Accepts(c, s, e) then t == s
    else if Total(Push(s, e).pending) >= c.maxBatch then Flushed(Push(s, e), t)
    else t == Push(s, e).(timer := true)
  }

  ghost predicate Shut(s: Box, t: Box)
  {
    t.closed && Flushed(s, t.(closed := s.closed))
  }

  // --- what every step keeps ---------------------------------------------------------------

  function OfModule(es: seq<Event>, mod: string): seq<Event>
  {
    if es == [] then []
    else OfModule(es[..|es| - 1], mod) + if es[|es| - 1].mod == mod then [es[|es| - 1]] else []
  }

  /** The batches of a module, one after the other. */
  function Delivered(bs: seq<Batch>, mod: string): seq<Event>
  {
    if bs == [] then []
    else Delivered(bs[..|bs| - 1], mod) + if bs[|bs| - 1].mod == mod then bs[|bs| - 1].events else []
  }

  /** The accepted events of every module are its batches and what is pending, in that order, each once. */
  ghost predicate Conserved(s: Box)
  {
    forall m :: OfModule(s.accepted, m) == Delivered(s.batches, m) + PendingOf(s.pending, m)
  }

  ghost predicate Tidy(p: Pending)
  {
    forall m :: m in p ==> p[m] != [] && forall e :: e in p[m] ==> e.mod == m
  }

  /** The seen set is the keys of the pending events, no two of which share one. */
  ghost predicate Deduplicated(p: Pending, seen: set<string>)
  {
    && (forall m, i :: m in p && 0 <= i < |p[m]| ==> DedupKey(p[m][i]) in seen)
    && (forall k :: k in seen ==> exists m, i :: m in p && 0 <= i < |p[m]| && DedupKey(p[m][i]) == k)
    && (forall m, i, n, j :: m in p && 0 <= i < |p[m]| && n in p && 0 <= j < |p[n]| && DedupKey(p[m][i]) == DedupKey(p[n][j]) ==> m == n && i == j)
  }

  ghost predicate Inv(c: Settings, s: Box)
  {
    && Conserved(s)
    && Tidy(s.pending)
    && Deduplicated(s.pending, s.seen)
    && (s.timer <==> s.pending != map[])
    && Total(s.pending) < c.maxBatch
    && (s.closed ==> s.pending == map[])
  }

  /** Below the severity that is asked for, an opening is not worth telling; a resolution always is. */
  predicate WorthTelling(least: Option<Severity>, e: Event)
  {
    e.kind == Closed || least.None? || !MoreUrgent(least.value, e.finding.severity)
  }

  /** The same news of the same finding of the same module. */
  predicate SameNews(x: Event, y: Event)
  {
    x.kind == y.kind && x.mod + "|" + x.finding.fingerprint == y.mod + "|" + y.finding.fingerprint
  }

  ghost predicate IsPending(p: Pending, e: Event)
  {
    exists m, i :: m in p && 0 <= i < |p[m]| && SameNews(p[m][i], e)
  }

  lemma KeysAreNews(x: Event, y: Event)
    ensures DedupKey(x) == DedupKey(y) <==> SameNews(x, y)
  {
    var kx, ky := if x.kind == Opened then "opened" else "resolved", if y.kind == Opened then "opened" else "resolved";
    var rx, ry := x.mod + "|" + x.finding.fingerprint, y.mod + "|" + y.finding.fingerprint;
    assert DedupKey(x) == kx + ("|" + rx) && DedupKey(y) == ky + ("|" + ry);
    if DedupKey(x) == DedupKey(y) {
      assert (kx + ("|" + rx))[0] == kx[0] && (ky + ("|" + ry))[0] == ky[0];
      assert kx == ky;
      assert (kx + ("|" + rx))[|kx| + 1..] == rx && (ky + ("|" + ry))[|ky| + 1..] == ry;
    }
  }

  /** Module and fingerprint tell the news apart, unless a module's name holds a bar. */
  lemma NewsApart(x: Event, y: Event)
    requires '|' !in x.mod && '|' !in y.mod
    ensures SameNews(x, y) <==> x.kind == y.kind && x.mod == y.mod && x.finding.fingerprint == y.finding.fingerprint
  {
    if SameNews(x, y) {
      hide IndexOf;
      FirstOccurrence(x.mod, '|', x.finding.fingerprint);
      FirstOccurrence(y.mod, '|', y.finding.fingerprint);
      var s := x.mod + ['|'] + x.finding.fingerprint;
      assert s == y.mod + ['|'] + y.finding.fingerprint;
      assert x.mod == s[..|x.mod|] == y.mod && x.finding.fingerprint == s[|x.mod| + 1..] == y.finding.fingerprint;
    }
  }

  /** In every run, an event is accepted exactly when it is worth telling, in time, and not already pending. */
  lemma AcceptsIff(c: Settings, s: Box, e: Event)
    requires Inv(c, s)
    ensures Accepts(c, s, e) <==> WorthTelling(c.minSeverity, e) && !s.closed && !IsPending(s.pending, e)
  {
    if c.minSeverity.Some? {
      UrgencyIsRank(c.minSeverity.value, e.finding.severity);
    }
    assert DedupKey(e) in s.seen <==> IsPending(s.pending, e) by {
      hide DedupKey, SameNews, Conserved, Tidy;
      if IsPending(s.pending, e) {
        var m, i :| m in s.pending && 0 <= i < |s.pending[m]| && SameNews(s.pending[m][i], e);
        KeysAreNews(s.pending[m][i], e);
      }
      if DedupKey(e) in s.seen {
        var m, i :| m in s.pending && 0 <= i < |s.pending[m]| && DedupKey(s.pending[m][i]) == DedupKey(e);
        KeysAreNews(s.pending[m][i], e);
      }
    }
    hide DedupKey, Inv, MoreUrgent, SeverityRank, IsPending;
  }

  lemma EmptyInv(c: Settings)
    requires c.maxBatch >= 1
    ensures Inv(c, EMPTY)
  {
    assert Lengths(map[]) == map[];
    SumEmpty<string>();
    assert forall m: string :: OfModule([], m) == [] && Delivered([], m) == [] && PendingOf(map[], m) == [];
  }

  lemma PushConserved(s: Box, e: Event)
    requires Conserved(s)
    ensures Conserved(Push(s, e))
  {
    var t := Push(s, e);
    assert t.accepted[..|s.accepted|] == s.accepted;
    forall m ensures OfModule(t.accepted, m) == Delivered(t.batches, m) + PendingOf(t.pending, m) {
      assert OfModule(t.accepted, m) == OfModule(s.accepted, m) + if e.mod == m then [e] else [];
      assert OfModule(s.accepted, m) == Delivered(s.batches, m) + PendingOf(s.pending, m);
    }
  }

  lemma PushTidy(s: Box, e: Event)
    requires Tidy(s.pending)
    ensures Tidy(Push(s, e).pending)
  {
    hide DedupKey;
    assert forall x :: x in PendingOf(s.pending, e.mod) ==> x.mod == e.mod;
  }

  /** Every pending event but e was pending before, in its place. */
  lemma PushPlaces(s: Box, e: Event)
    ensures var p, q, n := s.pending, Push(s, e).pending, |PendingOf(s.pending, e.mod)|;
            && e.mod in q && n < |q[e.mod]| && q[e.mod][n] == e
            && (forall m, i :: m in q && 0 <= i < |q[m]| && !(m == e.mod && i == n) ==> m in p && i < |p[m]| && q[m][i] == p[m][i])
            && (forall m, i :: m in p && 0 <= i < |p[m]| ==> m in q && i < |q[m]| && q[m][i] == p[m][i])
  {
  }

  lemma PushSeen(s: Box, e: Event)
    requires Deduplicated(s.pending, s.seen)
    ensures var q, seen := Push(s, e).pending, Push(s, e).seen;
            && seen == s.seen + {DedupKey(e)}
            && (forall m, i :: m in q && 0 <= i < |q[m]| ==> DedupKey(q[m][i]) in seen)
            && (forall k :: k in seen ==> exists m, i :: m in q && 0 <= i < |q[m]| && DedupKey(q[m][i]) == k)
  {
    PushPlaces(s, e);
    var p, q, n := s.pending, Push(s, e).pending, |PendingOf(s.pending, e.mod)|;
    var seen := Push(s, e).seen;
    assert seen == s.seen + {DedupKey(e)};
    hide DedupKey, Push;
    forall k | k in seen
      ensures exists m, i :: m in q && 0 <= i < |q[m]| && DedupKey(q[m][i]) == k
    {
      if k in s.seen {
        var m, i :| m in p && 0 <= i < |p[m]| && DedupKey(p[m][i]) == k;
        assert q[m][i] == p[m][i];
      } else {
        assert DedupKey(q[e.mod][n]) == k;
      }
    }
  }

  lemma PushUnique(s: Box, e: Event, m: string, i: nat, n: string, j: nat)
    requires Deduplicated(s.pending, s.seen) && DedupKey(e) !in s.seen
    requires m in Push(s, e).pending && i < |Push(s, e).pending[m]| && n in Push(s, e).pending && j < |Push(s, e).pending[n]|
    requires DedupKey(Push(s, e).pending[m][i]) == DedupKey(Push(s, e).pending[n][j])
    ensures m == n && i == j
  {
    PushPlaces(s, e);
    hide DedupKey, Push, PendingOf;
  }

  lemma PushDeduplicated(s: Box, e: Event)
    requires Deduplicated(s.pending, s.seen) && DedupKey(e) !in s.seen
    ensures Deduplicated(Push(s, e).pending, Push(s, e).seen)
  {
    PushSeen(s, e);
    var q := Push(s, e).pending;
    forall m, i, n, j | m in q && 0 <= i < |q[m]| && n in q && 0 <= j < |q[n]| && DedupKey(q[m][i]) == DedupKey(q[n][j])
      ensures m == n && i == j
    {
      PushUnique(s, e, m, i, n, j);
    }
    hide DedupKey, Push, PendingOf;
  }

  lemma {:induction false} DeliveredAppend(bs: seq<Batch>, cs: seq<Batch>, m: string)
    ensures Delivered(bs + cs, m) == Delivered(bs, m) + Delivered(cs, m)
  {
    if cs == [] {
      assert bs + cs == bs;
    } else {
      var front := cs[..|cs| - 1];
      DeliveredAppend(bs, front, m);
      assert (bs + cs)[..|bs + cs| - 1] == bs + front;
    }
  }

  lemma {:induction false} DeliveredOnce(bs: seq<Batch>, m: string)
    requires forall i, j :: 0 <= i < j < |bs| ==> bs[i].mod != bs[j].mod
    ensures forall i :: 0 <= i < |bs| && bs[i].mod == m ==> Delivered(bs, m) == bs[i].events
    ensures (forall i :: 0 <= i < |bs| ==> bs[i].mod != m) ==> Delivered(bs, m) == []
  {
    if bs != [] {
      DeliveredOnce(bs[..|bs| - 1], m);
    }
  }

  lemma CoversDelivers(p: Pending, bs: seq<Batch>, m: string)
    requires Covers(p, bs)
    ensures Delivered(bs, m) == PendingOf(p, m)
  {
    DeliveredOnce(bs, m);
  }

  lemma FlushConserved(s: Box, t: Box)
    requires Conserved(s) && Flushed(s, t)
    ensures Conserved(t)
  {
    hide Delivered, OfModule, Covers;
    var bs :| Covers(s.pending, bs) && t.batches == s.batches + bs;
    forall m ensures OfModule(t.accepted, m) == Delivered(t.batches, m) + PendingOf(t.pending, m) {
      DeliveredAppend(s.batches, bs, m);
      CoversDelivers(s.pending, bs, m);
    }
  }

  lemma FlushInv(c: Settings, s: Box, t: Box)
    requires c.maxBatch >= 1 && Conserved(s) && Flushed(s, t)
    ensures Inv(c, t)
  {
    FlushConserved(s, t);
    assert Lengths(t.pending) == map[];
    SumEmpty<string>();
  }

  lemma EnqueueInv(c: Settings, s: Box, e: Event, t: Box)
    requires c.maxBatch >= 1 && Inv(c, s) && Enqueued(c, s, e, t)
    ensures Inv(c, t)
  {
    if Accepts(c, s, e) {
      PushConserved(s, e);
      PushTidy(s, e);
      PushDeduplicated(s, e);
      hide Conserved, Tidy, Deduplicated, Flushed;
      if Total(Push(s, e).pending) >= c.maxBatch {
        FlushInv(c, Push(s, e), t);
      } else {
        assert Conserved(t) by { SameConserved(Push(s, e), t); }
        assert e.mod in t.pending;
      }
    }
  }

  lemma SameConserved(s: Box, t: Box)
    requires Conserved(s) && t.accepted == s.accepted && t.batches == s.batches && t.pending == s.pending
    ensures Conserved(t)
  {
  }

  lemma ShutInv(c: Settings, s: Box, t: Box)
    requires c.maxBatch >= 1 && Inv(c, s) && Shut(s, t)
    ensures Inv(c, t) && t.pending == map[]
  {
    FlushInv(c, s, t.(closed := s.closed));
    SameConserved(t.(closed := s.closed), t);
  }

  // --- runs -------------------------------------------------------------------------------

  datatype Op = Enqueue(e: Event) | Flush | Close

  ghost predicate Stepped(c: Settings, s: Box, op: Op, t: Box)
  {
    match op
    case Enqueue(e) => Enqueued(c, s, e, t)
    case Flush => Flushed(s, t)
    case Close => Shut(s, t)
  }

  /** states[i] is the state after i operations, from empty. */
  ghost predicate Run(c: Settings, ops: seq<Op>, states: seq<Box>)
  {
    && |states| == |ops| + 1 && states[0] == EMPTY
    && forall i :: 0 <= i < |ops| ==> Stepped(c, states[i], ops[i], states[i + 1])
  }

  /** In every run, after every operation, the invariant holds. */
  lemma {:induction false} RunInv(c: Settings, ops: seq<Op>, states: seq<Box>, n: nat)
    requires c.maxBatch >= 1 && Run(c, ops, states) && n <= |ops|
    ensures Inv(c, states[n])
  {
    if n == 0 {
      EmptyInv(c);
    } else {
      RunInv(c, ops, states, n - 1);
      assert Stepped(c, states[n - 1], ops[n - 1], states[n]);
      hide Inv, Enqueued, Flushed, Shut;
      match ops[n - 1]
      case Enqueue(e) => EnqueueInv(c, states[n - 1], e, states[n]);
      case Flush => InvConserved(c, states[n - 1]); FlushInv(c, states[n - 1], states[n]);
      case Close => ShutInv(c, states[n - 1], states[n]);
    }
  }

  lemma InvConserved(c: Settings, s: Box)
    requires Inv(c, s)
    ensures Conserved(s)
  {
  }

  /** Once closed, nothing is pending and nothing more is accepted. */
  lemma {:induction false} ClosedForGood(c: Settings, ops: seq<Op>, states: seq<Box>, i: nat, n: nat)
    requires c.maxBatch >= 1 && Run(c, ops, states) && i < n <= |ops| && ops[i] == Close
    ensures states[n].closed && states[n].pending == map[] && states[n].accepted == states[i].accepted
    decreases n
  {
    assert Stepped(c, states[n - 1], ops[n - 1], states[n]);
    RunInv(c, ops, states, n);
    if i < n - 1 {
      ClosedForGood(c, ops, states, i, n - 1);
    }
  }

  /**
   * Exactly once: after any run, for every event, the number of times it was accepted is the number
   * of times it is pending plus the number of times the digests stand for it.
   */
  lemma ExactlyOnce(c: Settings, ops: seq<Op>, states: seq<Box>, n: nat, e: Event)
    requires c.maxBatch >= 1 && Run(c, ops, states) && n <= |ops|
    ensures multiset(states[n].accepted)[e] ==
            multiset(PendingOf(states[n].pending, e.mod))[e] + CountIn(states[n].batches, e)
  {
    var s := states[n];
    RunInv(c, ops, states, n);
    hide Run;
    OwnBatches(c, ops, states, n);
    assert OfModule(s.accepted, e.mod) == Delivered(s.batches, e.mod) + PendingOf(s.pending, e.mod);
    OfModuleCount(s.accepted, e);
    DeliveredCount(s.batches, e);
  }

  /** How often the digests of bs stand for e. */
  ghost function CountIn(bs: seq<Batch>, e: Event): nat
  {
    if bs == [] then 0 else CountIn(bs[..|bs| - 1], e) + EventsOf(DigestOf(bs[|bs| - 1]))[e]
  }

  lemma {:induction false} OfModuleCount(es: seq<Event>, e: Event)
    ensures multiset(OfModule(es, e.mod))[e] == multiset(es)[e]
  {
    if es != [] {
      assert es == es[..|es| - 1] + [es[|es| - 1]];
      OfModuleCount(es[..|es| - 1], e);
    }
  }

  ghost predicate Own(b: Batch)
  {
    forall e :: e in b.events ==> e.mod == b.mod
  }

  lemma {:induction false} OwnBatches(c: Settings, ops: seq<Op>, states: seq<Box>, n: nat)
    requires c.maxBatch >= 1 && Run(c, ops, states) && n <= |ops|
    ensures forall b :: b in states[n].batches ==> Own(b)
  {
    if n > 0 {
      OwnBatches(c, ops, states, n - 1);
      RunInv(c, ops, states, n - 1);
      StepOwn(c, states[n - 1], ops[n - 1], states[n]);
    }
  }

  lemma FlushOwn(s: Box, t: Box)
    requires Tidy(s.pending) && Flushed(s, t) && forall b :: b in s.batches ==> Own(b)
    ensures forall b :: b in t.batches ==> Own(b)
  {
    var bs :| Covers(s.pending, bs) && t.batches == s.batches + bs;
    forall b | b in bs ensures Own(b) {
      var i :| 0 <= i < |bs| && bs[i] == b;
    }
  }

  lemma StepOwn(c: Settings, s: Box, op: Op, t: Box)
    requires Inv(c, s) && Stepped(c, s, op, t) && forall b :: b in s.batches ==> Own(b)
    ensures forall b :: b in t.batches ==> Own(b)
  {
    hide Conserved, Deduplicated, Flushed, Own, Total;
    match op
    case Enqueue(e) =>
      if Accepts(c, s, e) && Total(Push(s, e).pending) >= c.maxBatch {
        PushTidy(s, e);
        FlushOwn(Push(s, e), t);
      }
    case Flush => FlushOwn(s, t);
    case Close => FlushOwn(s, t.(closed := s.closed));
  }

  lemma {:induction false} DeliveredCount(bs: seq<Batch>, e: Event)
    requires forall b :: b in bs ==> Own(b)
    ensures multiset(Delivered(bs, e.mod))[e] == CountIn(bs, e)
  {
    if bs != [] {
      var last := bs[|bs| - 1];
      assert last in bs;
      DeliveredCount(bs[..|bs| - 1], e);
      DigestKeepsEvents(last);
      if last.mod != e.mod {
        NotOfModule(last.events, last.mod, e);
      }
    }
  }
}
