/** The dispatcher's insertion sort: most severe first, otherwise in the order given. */
module SeveritySort {
  import opened Findings

  /** The notifier's own rank; unknown severities count as info. */
  function SeverityRank(s: Severity): (r: int)
    ensures 0 <= r <= 4
  {
    match s
    case Critical => 4
    case High => 3
    case Medium => 2
    case Low => 1
    case _ => 0
  }

  function RankOf(f: Finding): (r: int)
    ensures 0 <= r <= 4
  {
    SeverityRank(f.severity)
  }

  /** x is to be seen to before y; a severity that is not known counts as info. */
  predicate MoreUrgent(x: Severity, y: Severity)
  {
    match x
    case Critical => y != Critical
    case High => y !in {Critical, High}
    case Medium => y !in {Critical, High, Medium}
    case Low => y !in {Critical, High, Medium, Low}
    case _ => false
  }

  lemma UrgencyIsRank(x: Severity, y: Severity)
    ensures MoreUrgent(x, y) <==> SeverityRank(x) > SeverityRank(y)
  {
  }

  /** The findings of one rank, in order. */
  function OfRank(fs: seq<Finding>, r: int): seq<Finding>
  {
    if fs == [] then [] else OfRank(fs[..|fs| - 1], r) + if RankOf(fs[|fs| - 1]) == r then [fs[|fs| - 1]] else []
  }

  /** What a stable sort gives: each rank's findings in their original order, most severe rank first. */
  function MostSevereFirst(fs: seq<Finding>): seq<Finding>
  {
    OfRank(fs, 4) + OfRank(fs, 3) + OfRank(fs, 2) + OfRank(fs, 1) + OfRank(fs, 0)
  }

  ghost predicate Descending(fs: seq<Finding>)
  {
    forall i, j :: 0 <= i < j < |fs| ==> RankOf(fs[i]) >= RankOf(fs[j])
  }

  ghost predicate SameRanks(fs: seq<Finding>, gs: seq<Finding>)
  {
    forall r :: OfRank(fs, r) == OfRank(gs, r)
  }

  lemma {:induction false} OfRankAppend(fs: seq<Finding>, gs: seq<Finding>, r: int)
    ensures OfRank(fs + gs, r) == OfRank(fs, r) + OfRank(gs, r)
  {
    if gs == [] {
      assert fs + gs == fs;
    } else {
      var front := gs[..|gs| - 1];
      OfRankAppend(fs, front, r);
      assert (fs + gs)[..|fs + gs| - 1] == fs + front;
    }
  }

  lemma {:induction false} NoneBelow(fs: seq<Finding>, r: int)
    requires forall f :: f in fs ==> RankOf(f) > r
    ensures OfRank(fs, r) == []
  {
    if fs != [] {
      NoneBelow(fs[..|fs| - 1], r);
    }
  }

  /** A finding that ranks below all the others is sorted to the end. */
  lemma SortLowest(fs: seq<Finding>, last: Finding)
    requires forall r :: r < RankOf(last) ==> OfRank(fs, r) == []
    ensures MostSevereFirst(fs + [last]) == MostSevereFirst(fs) + [last]
  {
    hide RankOf;
    forall r ensures OfRank(fs + [last], r) == OfRank(fs, r) + if RankOf(last) == r then [last] else [] {
      assert (fs + [last])[..|fs|] == fs;
    }
    hide OfRank;
    assert forall r :: r != RankOf(last) ==> OfRank(fs, r) + [] == OfRank(fs, r);
    var a, b, c, d, e := OfRank(fs, 4), OfRank(fs, 3), OfRank(fs, 2), OfRank(fs, 1), OfRank(fs, 0);
    match RankOf(last)
    case 4 => assert a + [last] + [] + [] + [] + [] == a + [] + [] + [] + [] + [last];
    case 3 => assert a + (b + [last]) + [] + [] + [] == a + b + [] + [] + [] + [last];
    case 2 => assert a + b + (c + [last]) + [] + [] == a + b + c + [] + [] + [last];
    case 1 => assert a + b + c + (d + [last]) + [] == a + b + c + d + [] + [last];
    case 0 => assert a + b + c + d + (e + [last]) == a + b + c + d + e + [last];
  }

  /** A list already in order is its own stable sort. */
  lemma {:induction false} DescendingIsSorted(fs: seq<Finding>)
    requires Descending(fs)
    ensures MostSevereFirst(fs) == fs
  {
    hide RankOf;
    if fs != [] {
      var front, last := fs[..|fs| - 1], fs[|fs| - 1];
      DescendingIsSorted(front);
      assert forall f :: f in front ==> RankOf(f) >= RankOf(last);
      hide MostSevereFirst, OfRank;
      forall r | r < RankOf(last) ensures OfRank(front, r) == [] {
        NoneBelow(front, r);
      }
      SortLowest(front, last);
      assert front + [last] == fs;
    }
  }

  lemma SortedOf(fs: seq<Finding>, gs: seq<Finding>)
    requires Descending(gs) && SameRanks(fs, gs)
    ensures gs == MostSevereFirst(fs)
  {
    DescendingIsSorted(gs);
  }

  lemma PairOfRank(x: Finding, y: Finding, r: int)
    requires RankOf(x) != RankOf(y)
    ensures OfRank([y, x], r) == OfRank([x, y], r)
  {
    hide RankOf;
    OfRankAppend([x], [y], r);
    OfRankAppend([y], [x], r);
    assert [x] + [y] == [x, y] && [y] + [x] == [y, x];
    assert [x][..0] == [] && [y][..0] == [];
    assert OfRank([x], r) == [] || OfRank([y], r) == [];
  }

  lemma SwapOfRank(a: seq<Finding>, x: Finding, y: Finding, b: seq<Finding>, r: int)
    requires RankOf(x) != RankOf(y)
    ensures OfRank(a + [y, x] + b, r) == OfRank(a + [x, y] + b, r)
  {
    hide OfRank, RankOf;
    OfRankAppend(a + [y, x], b, r);
    OfRankAppend(a + [x, y], b, r);
    OfRankAppend(a, [y, x], r);
    OfRankAppend(a, [x, y], r);
    PairOfRank(x, y, r);
  }

  lemma SwapKeepsRanks(fs: seq<Finding>, j: nat)
    requires 0 < j < |fs| && RankOf(fs[j - 1]) != RankOf(fs[j])
    ensures SameRanks(fs[j - 1 := fs[j]][j := fs[j - 1]], fs)
  {
    hide OfRank, RankOf;
    var a, b, x, y := fs[..j - 1], fs[j + 1..], fs[j - 1], fs[j];
    assert fs == a + [x, y] + b;
    assert fs[j - 1 := y][j := x] == a + [y, x] + b;
    forall r ensures OfRank(a + [y, x] + b, r) == OfRank(a + [x, y] + b, r) {
      SwapOfRank(a, x, y, b, r);
    }
  }

  lemma {:induction false} CountOfRank(fs: seq<Finding>, r: int, x: Finding)
    ensures multiset(OfRank(fs, r))[x] == if RankOf(x) == r then multiset(fs)[x] else 0
  {
    hide RankOf;
    if fs != [] {
      assert fs == fs[..|fs| - 1] + [fs[|fs| - 1]];
      CountOfRank(fs[..|fs| - 1], r, x);
    }
  }

  /** The stable sort moves findings without losing or repeating any, and puts them in order. */
  lemma SortIsPermutation(fs: seq<Finding>)
    ensures multiset(MostSevereFirst(fs)) == multiset(fs)
    ensures Descending(MostSevereFirst(fs))
  {
    hide OfRank, RankOf, Descending;
    RankedDescending(fs);
    forall x ensures multiset(MostSevereFirst(fs))[x] == multiset(fs)[x] {
      CountOfRank(fs, 4, x);
      CountOfRank(fs, 3, x);
      CountOfRank(fs, 2, x);
      CountOfRank(fs, 1, x);
      CountOfRank(fs, 0, x);
    }
  }

  lemma {:induction false} OnlyRank(fs: seq<Finding>, r: int)
    ensures forall f :: f in OfRank(fs, r) ==> RankOf(f) == r
  {
    if fs != [] {
      OnlyRank(fs[..|fs| - 1], r);
    }
  }

  lemma DescendingAppend(fs: seq<Finding>, gs: seq<Finding>, r: int)
    requires Descending(fs) && forall f :: f in fs ==> RankOf(f) > r
    requires forall g :: g in gs ==> RankOf(g) == r
    ensures Descending(fs + gs) && forall f :: f in fs + gs ==> RankOf(f) > r - 1
  {
    assert forall i :: 0 <= i < |gs| ==> gs[i] in gs;
    assert forall i :: 0 <= i < |fs| ==> fs[i] in fs;
  }

  lemma RankedDescending(fs: seq<Finding>)
    ensures Descending(MostSevereFirst(fs))
  {
    hide RankOf, OfRank;
    OnlyRank(fs, 4);
    OnlyRank(fs, 3);
    OnlyRank(fs, 2);
    OnlyRank(fs, 1);
    OnlyRank(fs, 0);
    var s4 := OfRank(fs, 4);
    assert Descending(s4) by { assert forall i :: 0 <= i < |s4| ==> s4[i] in s4; }
    DescendingAppend(s4, OfRank(fs, 3), 3);
    DescendingAppend(s4 + OfRank(fs, 3), OfRank(fs, 2), 2);
    DescendingAppend(s4 + OfRank(fs, 3) + OfRank(fs, 2), OfRank(fs, 1), 1);
    DescendingAppend(s4 + OfRank(fs, 3) + OfRank(fs, 2) + OfRank(fs, 1), OfRank(fs, 0), 0);
  }

  /** Nothing sorted comes before something more urgent. */
  lemma MostUrgentFirst(fs: seq<Finding>, i: nat, j: nat)
    requires i < j < |MostSevereFirst(fs)|
    ensures !MoreUrgent(MostSevereFirst(fs)[j].severity, MostSevereFirst(fs)[i].severity)
  {
    SortIsPermutation(fs);
    UrgencyIsRank(MostSevereFirst(fs)[j].severity, MostSevereFirst(fs)[i].severity);
    hide MostSevereFirst, MoreUrgent, SeverityRank;
  }

  method SortBySeverity(a: array<Finding>)
    modifies a
    ensures a[..] == MostSevereFirst(old(a[..]))
  {
    hide SameRanks, RankOf, MostSevereFirst;
    ghost var given := a[..];
    assert SameRanks(given, given) by { SameRanksRefl(given); }
    var i := 1;
    while i < a.Length
      invariant i >= 1 && (i <= a.Length ==> Descending(a[..i]))
      invariant i > a.Length ==> a.Length == 0
      invariant SameRanks(given, a[..])
    {
      Insert(a, i, given);
      i := i + 1;
    }
    assert a[..] == a[..a.Length];
    SortedOf(given, a[..]);
  }

  lemma SameRanksRefl(fs: seq<Finding>)
    ensures SameRanks(fs, fs)
  {
  }

  lemma SameRanksTrans(fs: seq<Finding>, gs: seq<Finding>, hs: seq<Finding>)
    requires SameRanks(fs, gs) && SameRanks(hs, gs)
    ensures SameRanks(fs, hs)
  {
  }

  /** The inner loop: entry i sinks to its place among those before it. */
  method Insert(a: array<Finding>, i: nat, ghost given: seq<Finding>)
    requires 1 <= i < a.Length && Descending(a[..i]) && SameRanks(given, a[..])
    modifies a
    ensures Descending(a[..i + 1]) && SameRanks(given, a[..])
  {
    hide SameRanks, RankOf;
    var j := i;
    while j > 0 && RankOf(a[j]) > RankOf(a[j - 1])
      invariant 0 <= j <= i
      invariant forall p, q :: 0 <= p < q <= i && q != j ==> RankOf(a[p]) >= RankOf(a[q])
      invariant SameRanks(given, a[..])
    {
      ghost var before := a[..];
      a[j], a[j - 1] := a[j - 1], a[j];
      assert a[..] == before[j - 1 := before[j]][j := before[j - 1]];
      SwapKeepsRanks(before, j);
      SameRanksTrans(given, before, a[..]);
      j := j - 1;
    }
  }
}
