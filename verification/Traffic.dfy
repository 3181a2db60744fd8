/** The traffic graph's edges: a write-behind buffer over a table. */
module Traffic {
  import opened Wire

  /** One observed flow; an end of zero is no time. */
  datatype Flow = Flow(src: string, dst: string, port: int, proto: int, bytes: int, packets: int, end: int)

  datatype EdgeKey = EdgeKey(src: string, dst: string, port: int, proto: int)

  datatype Agg = Agg(flows: int, bytes: int, packets: int, first: int, last: int)

  const BUFFER_LIMIT: nat := 50_000

  function Max(a: int, b: int): int
  {
    if b > a then b else a
  }

  function Min(a: int, b: int): int
  {
    if b < a then b else a
  }

  function EdgeOf(f: Flow): EdgeKey
  {
    EdgeKey(f.src, f.dst, f.port, f.proto)
  }

  predicate Counts(f: Flow)
  {
    f.src != "" && f.dst != ""
  }

  function EndOf(f: Flow, now: int): int
  {
    if f.end == 0 then now else f.end
  }

  function Absorb(a: Agg, f: Flow, end: int): Agg
  {
    Agg(a.flows + 1, a.bytes + f.bytes, a.packets + f.packets, Min(a.first, end), Max(a.last, end))
  }

  type Rows = map<EdgeKey, Agg>

  /** The conflict rule of the table: counters add up, the last time advances, the first stays. */
  function Fold(row: Agg, a: Agg): Agg
  {
    Agg(row.flows + a.flows, row.bytes + a.bytes, row.packets + a.packets, row.first, Max(row.last, a.last))
  }

  function Upsert(table: Rows, k: EdgeKey, a: Agg): Rows
  {
    table[k := if k in table then Fold(table[k], a) else a]
  }

  function Merged(table: Rows, pend: Rows): Rows
  {
    table + map k | k in pend :: if k in table then Fold(table[k], pend[k]) else pend[k]
  }

  datatype Store = Store(table: Rows, pend: Rows)

  function Flushed(s: Store): Store
  {
    Store(Merged(s.table, s.pend), map[])
  }

  /** Without the rows that have been quiet since before. */
  function Pruned(s: Store, before: int): Store
  {
    s.(table := map k | k in s.table && s.table[k].last >= before :: s.table[k])
  }

  /** Buffers one flow; a is what the buffer held of its edge. */
  function Buffer(s: Store, f: Flow, end: int): Store
  {
    var k := EdgeOf(f);
    s.(pend := s.pend[k := Absorb(if k in s.pend then s.pend[k] else Agg(0, 0, 0, end, 0), f, end)])
  }

  function Observed(s: Store, f: Flow, now: int): Store
  {
    if !Counts(f) then s
    else Buffer(if EdgeOf(f) !in s.pend && |s.pend| > BUFFER_LIMIT then Flushed(s) else s, f, EndOf(f, now))
  }

  // --- the graph as it runs ---------------------------------------------------------

  class Graph {
    var table: Rows
    var pend: Rows

    ghost function Contents(): Store
      reads this
    {
      Store(table, pend)
    }

    constructor ()
      ensures Contents() == Store(map[], map[])
    {
      table, pend := map[], map[];
    }

    method Flush()
      modifies this
      ensures Contents() == Flushed(old(Contents()))
    {
      ghost var before := table;
      var batch := pend;
      pend := map[];
      var rest := batch.Keys;
      while rest != {}
        invariant rest <= batch.Keys && pend == map[]
        invariant table == Merged(before, Without(batch, rest))
        decreases rest
      {
        var k :| k in rest;
        MergedMore(before, batch, rest, k);
        table := Upsert(table, k, batch[k]);
        rest := rest - {k};
      }
      assert Without(batch, {}) == batch;
    }

    method Observe(f: Flow, now: int)
      modifies this
      ensures Contents() == Observed(old(Contents()), f, now)
    {
      hide Flushed, Buffer;
      if f.src == "" || f.dst == "" {
        return;
      }
      var end := if f.end == 0 then now else f.end;
      if EdgeOf(f) !in pend && |pend| > BUFFER_LIMIT {
        Flush();
      }
      Count(f, end);
    }

    /** The counters of one edge, new or known, take in a flow. */
    method Count(f: Flow, end: int)
      modifies this
      ensures Contents() == Buffer(old(Contents()), f, end)
    {
      var k := EdgeOf(f);
      if k !in pend {
        pend := pend[k := Agg(0, 0, 0, end, 0)];
      }
      var a := pend[k];
      a := a.(flows := a.flows + 1, bytes := a.bytes + f.bytes, packets := a.packets + f.packets);
      if end > a.last {
        a := a.(last := end);
      }
      if end < a.first {
        a := a.(first := end);
      }
      pend := pend[k := a];
    }

    /** Drops the rows that have been quiet since before. */
    method Prune(before: int)
      modifies this
      ensures Contents() == Pruned(old(Contents()), before)
    {
      table := map k | k in table && table[k].last >= before :: table[k];
    }
  }

  ghost function Without(p: Rows, ks: set<EdgeKey>): Rows
  {
    map k | k in p && k !in ks :: p[k]
  }

  lemma MergedMore(table: Rows, pend: Rows, rest: set<EdgeKey>, k: EdgeKey)
    requires rest <= pend.Keys && k in rest
    ensures Merged(table, Without(pend, rest - {k})) == Upsert(Merged(table, Without(pend, rest)), k, pend[k])
  {
    hide Fold;
  }

  // --- conservation --------------------------------------------------------------------

  datatype Op = Observe(f: Flow, now: int) | Flush | Prune(before: int)

  function Step(s: Store, op: Op): Store
  {
    match op
    case Observe(f, now) => Observed(s, f, now)
    case Flush => Flushed(s)
    case Prune(before) => Pruned(s, before)
  }

  function After(h: seq<Op>): Store
  {
    if h == [] then Store(map[], map[]) else Step(After(h[..|h| - 1]), h[|h| - 1])
  }

  /** What all flows of an edge come to; the first time is not accounted for. */
  datatype Account = Account(flows: int, bytes: int, packets: int, last: int)

  const NOTHING := Account(0, 0, 0, 0)

  function Both(x: Account, y: Account): Account
  {
    Account(x.flows + y.flows, x.bytes + y.bytes, x.packets + y.packets, Max(x.last, y.last))
  }

  function AccountOf(rows: Rows, k: EdgeKey): Account
  {
    if k in rows then Account(rows[k].flows, rows[k].bytes, rows[k].packets, rows[k].last) else NOTHING
  }

  /** Table and buffer together. */
  function Held(s: Store, k: EdgeKey): Account
  {
    Both(AccountOf(s.table, k), AccountOf(s.pend, k))
  }

  /** The flow f is on edge k: from its source to its destination, on its port and protocol, both ends known. */
  predicate IsOn(f: Flow, k: EdgeKey)
  {
    f.src == k.src != "" && f.dst == k.dst != "" && f.port == k.port && f.proto == k.proto
  }

  /** What one operation brings to edge k: a flow with its bytes and packets, ended when it says or else now. */
  function Contribution(op: Op, k: EdgeKey): Account
  {
    if op.Observe? && IsOn(op.f, k) then Account(1, op.f.bytes, op.f.packets, if op.f.end == 0 then op.now else op.f.end)
    else NOTHING
  }

  lemma OnIts(f: Flow, k: EdgeKey)
    ensures IsOn(f, k) <==> Counts(f) && EdgeOf(f) == k
  {
  }

  /** The flows of an edge over the whole history, added up. */
  function Carried(h: seq<Op>, k: EdgeKey): Account
  {
    if h == [] then NOTHING else Both(Carried(h[..|h| - 1], k), Contribution(h[|h| - 1], k))
  }

  /** What one operation takes off the table of edge k. */
  function Lost(s: Store, op: Op, k: EdgeKey): Account
  {
    if op.Prune? && k in s.table && s.table[k].last < op.before then AccountOf(s.table, k) else NOTHING
  }

  /** What prunings have taken of an edge over the whole history, added up. */
  function Dropped(h: seq<Op>, k: EdgeKey): Account
  {
    if h == [] then NOTHING
    else Both(Dropped(h[..|h| - 1], k), Lost(After(h[..|h| - 1]), h[|h| - 1], k))
  }

  /** The last time of a row is never below zero. */
  ghost predicate Started(rows: Rows)
  {
    forall k :: k in rows ==> rows[k].last >= 0
  }

  lemma MaxZero(x: int)
    requires x >= 0
    ensures Max(0, x) == x == Max(x, 0)
  {
  }

  lemma BothNothing(x: Account)
    requires x.last >= 0
    ensures Both(x, NOTHING) == x == Both(NOTHING, x)
  {
    hide Max;
    MaxZero(x.last);
  }

  lemma AccountStarted(rows: Rows, k: EdgeKey)
    requires Started(rows)
    ensures AccountOf(rows, k).last >= 0
  {
  }

  lemma InBoth(table: Rows, pend: Rows, k: EdgeKey)
    requires k in table && k in pend
    ensures AccountOf(Merged(table, pend), k) == Both(AccountOf(table, k), AccountOf(pend, k))
  {
  }

  lemma InOneOrNone(table: Rows, pend: Rows, k: EdgeKey)
    ensures k !in pend ==> AccountOf(Merged(table, pend), k) == AccountOf(table, k) && AccountOf(pend, k) == NOTHING
    ensures k !in table ==> AccountOf(Merged(table, pend), k) == AccountOf(pend, k) && AccountOf(table, k) == NOTHING
  {
  }

  lemma MergedAccount(table: Rows, pend: Rows, k: EdgeKey)
    requires Started(table) && Started(pend)
    ensures AccountOf(Merged(table, pend), k) == Both(AccountOf(table, k), AccountOf(pend, k))
  {
    hide *;
    if k in table && k in pend {
      InBoth(table, pend, k);
    } else if k in table {
      InOneOrNone(table, pend, k);
      AccountStarted(table, k);
      BothNothing(AccountOf(table, k));
    } else {
      InOneOrNone(table, pend, k);
      AccountStarted(pend, k);
      BothNothing(AccountOf(pend, k));
    }
  }

  lemma MergedStarted(table: Rows, pend: Rows)
    requires Started(table) && Started(pend)
    ensures Started(Merged(table, pend))
  {
  }

  lemma FlushHolds(s: Store, k: EdgeKey)
    requires Started(s.table) && Started(s.pend)
    ensures Held(Flushed(s), k) == Held(s, k)
    ensures Started(Flushed(s).table) && Started(Flushed(s).pend)
  {
    MergedAccount(s.table, s.pend, k);
    MergedStarted(s.table, s.pend);
    var after := Merged(s.table, s.pend);
    AccountStarted(after, k);
    hide AccountOf, Both, Merged, Max;
    NoRow(k);
    BothNothing(AccountOf(after, k));
  }

  lemma NoRow(k: EdgeKey)
    ensures AccountOf(map[], k) == NOTHING
  {
  }

  lemma BufferAccount(s: Store, f: Flow, end: int, k: EdgeKey)
    requires Started(s.table) && Started(s.pend)
    ensures AccountOf(Buffer(s, f, end).pend, k) ==
            if EdgeOf(f) == k then Both(AccountOf(s.pend, k), Account(1, f.bytes, f.packets, end)) else AccountOf(s.pend, k)
    ensures Buffer(s, f, end).table == s.table && Started(Buffer(s, f, end).pend)
  {
  }

  lemma BothAssociative(x: Account, y: Account, z: Account)
    ensures Both(x, Both(y, z)) == Both(Both(x, y), z)
  {
  }

  lemma BufferHolds(s: Store, f: Flow, end: int, k: EdgeKey)
    requires Started(s.table) && Started(s.pend)
    ensures EdgeOf(f) == k ==> Held(Buffer(s, f, end), k) == Both(Held(s, k), Account(1, f.bytes, f.packets, end))
    ensures EdgeOf(f) != k ==> Held(Buffer(s, f, end), k) == Held(s, k)
    ensures Started(Buffer(s, f, end).table) && Started(Buffer(s, f, end).pend)
  {
    BufferAccount(s, f, end, k);
    BothAssociative(AccountOf(s.table, k), AccountOf(s.pend, k), Account(1, f.bytes, f.packets, end));
    hide AccountOf, Both, Buffer, Started, EdgeOf;
  }

  lemma HeldStarted(s: Store, k: EdgeKey)
    requires Started(s.table) && Started(s.pend)
    ensures Held(s, k).last >= 0
  {
    AccountStarted(s.table, k);
  }

  lemma EndIs(f: Flow, now: int)
    ensures EndOf(f, now) == if f.end == 0 then now else f.end
  {
  }

  lemma ObserveHolds(s: Store, f: Flow, now: int, k: EdgeKey)
    requires Started(s.table) && Started(s.pend) && Counts(f)
    ensures Held(Observed(s, f, now), k) == Both(Held(s, k), Contribution(Observe(f, now), k))
    ensures Started(Observed(s, f, now).table) && Started(Observed(s, f, now).pend)
  {
    OnIts(f, k);
    EndIs(f, now);
    hide Flushed, Buffer, Held, Both, Started, EndOf, EdgeOf, Max, IsOn;
    FlushHolds(s, k);
    HeldStarted(s, k);
    BothNothing(Held(s, k));
    var t := if EdgeOf(f) !in s.pend && |s.pend| > BUFFER_LIMIT then Flushed(s) else s;
    BufferHolds(t, f, EndOf(f, now), k);
  }

  lemma NothingYet(k: EdgeKey)
    ensures Held(Store(map[], map[]), k) == NOTHING && Started(map[])
  {
    NoRow(k);
    BothNothing(NOTHING);
  }

  lemma Swapped(x: Account, y: Account, z: Account)
    ensures Both(Both(x, y), z) == Both(Both(x, z), y)
    ensures Both(x, Both(y, z)) == Both(Both(x, z), y)
  {
  }

  lemma PrunedAccount(s: Store, before: int, k: EdgeKey)
    ensures AccountOf(Pruned(s, before).table, k) == NOTHING || Lost(s, Prune(before), k) == NOTHING
    ensures AccountOf(Pruned(s, before).table, k) == AccountOf(s.table, k) || Lost(s, Prune(before), k) == AccountOf(s.table, k)
    ensures Lost(s, Prune(before), k) == NOTHING ==> AccountOf(Pruned(s, before).table, k) == AccountOf(s.table, k)
    ensures Started(s.table) ==> Started(Pruned(s, before).table)
  {
  }

  lemma PruneHolds(s: Store, before: int, k: EdgeKey)
    requires Started(s.table) && Started(s.pend)
    ensures Both(Held(Pruned(s, before), k), Lost(s, Prune(before), k)) == Held(s, k)
    ensures Started(Pruned(s, before).table) && Started(Pruned(s, before).pend)
  {
    PrunedAccount(s, before, k);
    var row, left, lost, pend := AccountOf(s.table, k), AccountOf(Pruned(s, before).table, k), Lost(s, Prune(before), k), AccountOf(s.pend, k);
    assert Held(Pruned(s, before), k) == Both(left, pend) && Held(s, k) == Both(row, pend);
    HeldStarted(s, k);
    AccountStarted(s.table, k);
    hide *;
    Swapped(left, pend, lost);
    BothNothing(row);
    assert Both(left, lost) == row by {
      if lost == NOTHING {
        assert left == row;
      } else {
        assert left == NOTHING && lost == row;
      }
    }
  }

  lemma StepHolds(s: Store, op: Op, k: EdgeKey)
    requires Started(s.table) && Started(s.pend)
    ensures Both(Held(Step(s, op), k), Lost(s, op, k)) == Both(Held(s, k), Contribution(op, k))
    ensures Started(Step(s, op).table) && Started(Step(s, op).pend)
  {
    hide *;
    StepIs(s, op, k);
    HeldStarted(s, k);
    BothNothing(Held(s, k));
    match op
    case Observe(f, now) =>
      if Counts(f) {
        ObserveHolds(s, f, now, k);
      } else {
        Uncounted(s, f, now);
      }
      HeldStarted(Step(s, op), k);
      BothNothing(Held(Step(s, op), k));
    case Flush =>
      FlushHolds(s, k);
    case Prune(before) =>
      PruneHolds(s, before, k);
  }

  lemma StepIs(s: Store, op: Op, k: EdgeKey)
    ensures Step(s, op) == if op.Observe? then Observed(s, op.f, op.now) else if op.Flush? then Flushed(s) else Pruned(s, op.before)
    ensures op.Observe? && !Counts(op.f) ==> Contribution(op, k) == NOTHING
    ensures !op.Prune? ==> Lost(s, op, k) == NOTHING
    ensures !op.Observe? ==> Contribution(op, k) == NOTHING
  {
    if op.Observe? {
      OnIts(op.f, k);
    }
    hide Observed, Flushed, Pruned;
  }

  lemma Uncounted(s: Store, f: Flow, now: int)
    requires !Counts(f)
    ensures Observed(s, f, now) == s
  {
  }

  lemma Unfolded(h: seq<Op>, k: EdgeKey)
    requires h != []
    ensures After(h) == Step(After(h[..|h| - 1]), h[|h| - 1])
    ensures Carried(h, k) == Both(Carried(h[..|h| - 1], k), Contribution(h[|h| - 1], k))
    ensures Dropped(h, k) == Both(Dropped(h[..|h| - 1], k), Lost(After(h[..|h| - 1]), h[|h| - 1], k))
  {
    hide Step, Both, Contribution, Lost;
  }

  lemma NothingTwice()
    ensures Both(NOTHING, NOTHING) == NOTHING
  {
    BothNothing(NOTHING);
  }

  lemma AtFirst(k: EdgeKey)
    ensures After([]) == Store(map[], map[]) && Carried([], k) == NOTHING && Dropped([], k) == NOTHING
  {
  }

  /**
   * However flows, flushes and prunings are interleaved, table and buffer hold exactly what was
   * observed but for what prunings took.
   */
  lemma {:induction false} NothingLost(h: seq<Op>, k: EdgeKey)
    ensures Both(Held(After(h), k), Dropped(h, k)) == Carried(h, k)
    ensures Started(After(h).table) && Started(After(h).pend)
  {
    hide *;
    if h == [] {
      AtFirst(k);
      NothingYet(k);
      NothingTwice();
    } else {
      var front, op := h[..|h| - 1], h[|h| - 1];
      NothingLost(front, k);
      StepHolds(After(front), op, k);
      Unfolded(h, k);
      Exchange(Held(After(h), k), Dropped(front, k), Lost(After(front), op, k), Held(After(front), k), Contribution(op, k));
    }
  }

  lemma Exchange(now: Account, dropped: Account, lost: Account, was: Account, came: Account)
    requires Both(now, lost) == Both(was, came)
    ensures Both(now, Both(dropped, lost)) == Both(Both(was, dropped), came)
  {
    hide *;
    Swapped(now, dropped, lost);
    Swapped(was, came, dropped);
  }

  lemma LostIsOld(s: Store, op: Op, k: EdgeKey, cutoff: int)
    requires Started(s.table) && (op.Prune? ==> op.before <= cutoff)
    ensures Lost(s, op, k) == NOTHING || 0 <= Lost(s, op, k).last < cutoff
  {
  }

  /** What prunings took ended before their cutoffs. */
  lemma {:induction false} DroppedIsOld(h: seq<Op>, k: EdgeKey, cutoff: int)
    requires forall i :: 0 <= i < |h| && h[i].Prune? ==> h[i].before <= cutoff
    ensures Dropped(h, k) == NOTHING || 0 <= Dropped(h, k).last < cutoff
  {
    hide *;
    if h == [] {
      AtFirst(k);
    } else {
      var front, op := h[..|h| - 1], h[|h| - 1];
      NothingLost(front, k);
      DroppedIsOld(front, k, cutoff);
      LostIsOld(After(front), op, k, cutoff);
      Unfolded(h, k);
      BothOld(Dropped(front, k), Lost(After(front), op, k), cutoff);
    }
  }

  lemma BothOld(x: Account, y: Account, cutoff: int)
    requires (x == NOTHING || 0 <= x.last < cutoff) && (y == NOTHING || 0 <= y.last < cutoff)
    ensures Both(x, y) == NOTHING || 0 <= Both(x, y).last < cutoff
  {
    if x == NOTHING && y == NOTHING {
      NothingTwice();
    } else if x == NOTHING {
      BothNothing(y);
    } else if y == NOTHING {
      BothNothing(x);
    } else {
      assert Both(x, y).last == x.last || Both(x, y).last == y.last;
    }
  }

  /** An edge that was active at or after every cutoff is held, with its latest time. */
  lemma ActiveIsHeld(h: seq<Op>, k: EdgeKey, cutoff: int)
    requires forall i :: 0 <= i < |h| && h[i].Prune? ==> h[i].before <= cutoff
    requires Carried(h, k).last >= cutoff
    ensures Held(After(h), k).last == Carried(h, k).last
  {
    NothingLost(h, k);
    DroppedIsOld(h, k, cutoff);
    HeldStarted(After(h), k);
    hide Held, Started, Carried, Dropped, After;
  }

  /** A flow on edge k ended at t, by what it says or else when it came. */
  predicate EndsAt(op: Op, k: EdgeKey, t: int)
  {
    op.Observe? && IsOn(op.f, k) && t == if op.f.end == 0 then op.now else op.f.end
  }

  lemma ContributionEnds(op: Op, k: EdgeKey)
    ensures forall t :: EndsAt(op, k, t) ==> Contribution(op, k).last == t
    ensures Contribution(op, k).last == 0 || EndsAt(op, k, Contribution(op, k).last)
  {
    hide IsOn;
  }

  /** The latest time of an edge is that of a flow on it, and none on it is later. */
  lemma {:induction false} LatestIsAFlow(h: seq<Op>, k: EdgeKey)
    ensures forall i, t :: 0 <= i < |h| && EndsAt(h[i], k, t) ==> t <= Carried(h, k).last
    ensures Carried(h, k).last == 0 || exists i :: 0 <= i < |h| && EndsAt(h[i], k, Carried(h, k).last)
  {
    hide EndsAt, Both, Contribution;
    if h != [] {
      var n := |h| - 1;
      LatestIsAFlow(h[..n], k);
      ContributionEnds(h[n], k);
      LaterOf(Carried(h[..n], k), Contribution(h[n], k));
      assert Carried(h, k) == Both(Carried(h[..n], k), Contribution(h[n], k));
      hide Carried;
      if Carried(h, k).last == Carried(h[..n], k).last && Carried(h, k).last != 0 {
        var i :| 0 <= i < n && EndsAt(h[..n][i], k, Carried(h, k).last);
        assert EndsAt(h[i], k, Carried(h, k).last);
      }
    }
  }

  lemma LaterOf(x: Account, y: Account)
    ensures Both(x, y).last >= x.last && Both(x, y).last >= y.last && Both(x, y).last in {x.last, y.last}
  {
  }

  /**
   * The first time of a row is the one it had in the buffer when it was first flushed, whatever
   * comes later: there, it is the earliest end of its flows.
   */
  lemma FirstsStay(s: Store, op: Op, k: EdgeKey)
    ensures k in s.table && k in Step(s, op).table ==> Step(s, op).table[k].first == s.table[k].first
    ensures k !in s.table && k in Step(s, op).table ==> k in s.pend && Step(s, op).table[k].first == s.pend[k].first
    ensures op.Observe? && IsOn(op.f, k) ==>
              && k in Step(s, op).pend
              && var end, row := if op.f.end == 0 then op.now else op.f.end, Step(s, op).pend[k];
                 if k in s.pend then row.first == (if end < s.pend[k].first then end else s.pend[k].first)
                 else row.first == end
    ensures k in Step(s, op).pend && k in s.pend && !(op.Observe? && IsOn(op.f, k)) ==> Step(s, op).pend[k] == s.pend[k]
  {
    if op.Observe? {
      OnIts(op.f, k);
      EndIs(op.f, op.now);
    }
  }

  /** The buffer never outgrows its limit by more than one edge. */
  lemma {:induction false} BufferStaysBounded(h: seq<Op>)
    ensures |After(h).pend| <= 50_001
  {
    if h != [] {
      BufferStaysBounded(h[..|h| - 1]);
      var s := After(h[..|h| - 1]);
      hide Flushed, Observed;
      FlushEmpties(s);
      match h[|h| - 1]
      case Observe(f, now) => BufferBounded(s, f, now);
      case Flush =>
      case Prune(before) =>
    }
  }

  lemma FlushEmpties(s: Store)
    ensures Flushed(s).pend == map[]
  {
  }

  lemma BufferBounded(s: Store, f: Flow, now: int)
    requires |s.pend| <= 50_001
    ensures |Observed(s, f, now).pend| <= 50_001
  {
    hide Absorb, Flushed;
    FlushEmpties(s);
    if Counts(f) {
      var t := if EdgeOf(f) !in s.pend && |s.pend| > BUFFER_LIMIT then Flushed(s) else s;
      var q := Observed(s, f, now).pend;
      assert q.Keys == t.pend.Keys + {EdgeOf(f)};
      assert |q| == |q.Keys| && |t.pend| == |t.pend.Keys|;
      if EdgeOf(f) in t.pend {
        assert q.Keys == t.pend.Keys;
      }
    }
  }
}
