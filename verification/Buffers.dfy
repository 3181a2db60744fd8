/** The sliding counter over a whole run of times, in whatever order they come. */
module Buffers {
  import opened Windows

  /** What the counter holds after ts: every time is appended, and the front pruned, in turn. */
  function Buffer(ts: seq<int>, window: int): seq<int>
  {
    if ts == [] then []
    else
      var t := ts[|ts| - 1];
      Prune(Buffer(ts[..|ts| - 1], window) + [t], t - window)
  }

  /** The first position from i on that is at or after the cutoff. */
  function FirstFrom(ts: seq<int>, i: nat, cutoff: int): (j: nat)
    requires i <= |ts|
    ensures i <= j <= |ts|
    ensures j < |ts| ==> ts[j] >= cutoff
    ensures forall k :: i <= k < j ==> ts[k] < cutoff
    decreases |ts| - i
  {
    if i == |ts| || ts[i] >= cutoff then i else FirstFrom(ts, i + 1, cutoff)
  }

  /** Where what is held begins: pruning only ever takes from the front. */
  function Start(ts: seq<int>, window: int): (s: nat)
    ensures s <= |ts|
  {
    if ts == [] then 0 else FirstFrom(ts, Start(ts[..|ts| - 1], window), ts[|ts| - 1] - window)
  }

  lemma {:induction false} PruneIsFirst(ts: seq<int>, i: nat, cutoff: int)
    requires i <= |ts|
    ensures Prune(ts[i..], cutoff) == ts[FirstFrom(ts, i, cutoff)..]
    decreases |ts| - i
  {
    if i < |ts| && ts[i] < cutoff {
      assert ts[i..][1..] == ts[i + 1..];
      PruneIsFirst(ts, i + 1, cutoff);
    }
  }

  lemma {:induction false} BufferIsSuffix(ts: seq<int>, window: int)
    ensures Buffer(ts, window) == ts[Start(ts, window)..]
  {
    if ts != [] {
      var front, t := ts[..|ts| - 1], ts[|ts| - 1];
      BufferIsSuffix(front, window);
      var s := Start(front, window);
      assert Buffer(ts, window) == Prune(Buffer(front, window) + [t], t - window);
      assert Start(ts, window) == FirstFrom(ts, s, t - window);
      hide *;
      assert front[s..] + [t] == ts[s..];
      PruneIsFirst(ts, s, t - window);
    }
  }

  lemma InWindowLast(ts: seq<int>, cutoff: int)
    requires ts != []
    ensures var rest, last := InWindow(ts[..|ts| - 1], cutoff), ts[|ts| - 1];
            InWindow(ts, cutoff) == if last >= cutoff then rest + [last] else rest
  {
    var rest := InWindow(ts[..|ts| - 1], cutoff);
    assert rest + [] == rest;
  }

  lemma {:induction false} InWindowKeeps(ts: seq<int>, cutoff: int)
    ensures forall t :: t in InWindow(ts, cutoff) ==> t >= cutoff
  {
    if ts != [] {
      InWindowLast(ts, cutoff);
      hide InWindow;
      InWindowKeeps(ts[..|ts| - 1], cutoff);
    }
  }

  lemma {:induction false} InWindowEmptyIff(ts: seq<int>, cutoff: int)
    ensures InWindow(ts, cutoff) == [] <==> forall i :: 0 <= i < |ts| ==> ts[i] < cutoff
  {
    if ts != [] {
      InWindowLast(ts, cutoff);
      hide InWindow;
      InWindowEmptyIff(ts[..|ts| - 1], cutoff);
    }
  }

  /** The positions from s on, and no others, are at or after the cutoff. */
  ghost predicate Divides(ts: seq<int>, s: nat, cutoff: int)
  {
    forall i :: 0 <= i < |ts| ==> (i >= s <==> ts[i] >= cutoff)
  }

  lemma DividesLast(ts: seq<int>, s: nat, cutoff: int)
    requires s < |ts|
    ensures Divides(ts, s, cutoff) <==> Divides(ts[..|ts| - 1], s, cutoff) && ts[|ts| - 1] >= cutoff
  {
    var front := ts[..|ts| - 1];
    if Divides(front, s, cutoff) && ts[|ts| - 1] >= cutoff {
      forall i | 0 <= i < |ts| ensures i >= s <==> ts[i] >= cutoff {
        assert i < |front| ==> front[i] == ts[i];
      }
    }
    if Divides(ts, s, cutoff) {
      forall i | 0 <= i < |front| ensures i >= s <==> front[i] >= cutoff {
        assert front[i] == ts[i];
      }
    }
  }

  /** A suffix is the window exactly when it is the positions at or after the cutoff. */
  lemma {:induction false} SuffixIsWindowIff(ts: seq<int>, s: nat, cutoff: int)
    requires s <= |ts|
    ensures ts[s..] == InWindow(ts, cutoff) <==> Divides(ts, s, cutoff)
  {
    if s == |ts| {
      InWindowEmptyIff(ts, cutoff);
      hide InWindow;
    } else {
      hide InWindow, Divides;
      var front, last := ts[..|ts| - 1], ts[|ts| - 1];
      InWindowKeeps(ts, cutoff);
      InWindowLast(ts, cutoff);
      DividesLast(ts, s, cutoff);
      SuffixIsWindowIff(front, s, cutoff);
      assert ts[s..] == front[s..] + [last];
      if last >= cutoff {
        Last(front[s..], InWindow(front, cutoff), last);
      } else {
        assert last in ts[s..];
      }
    }
  }

  lemma Last(a: seq<int>, b: seq<int>, x: int)
    ensures a + [x] == b + [x] <==> a == b
  {
    assert (a + [x])[..|a|] == a && (b + [x])[..|b|] == b;
  }

  /** What is held after ts is what the window over all of ts holds. */
  predicate Exact(ts: seq<int>, window: int)
    requires ts != []
  {
    Buffer(ts, window) == InWindow(ts, ts[|ts| - 1] - window)
  }

  ghost predicate AlwaysExact(ts: seq<int>, window: int)
  {
    forall n :: 0 < n <= |ts| ==> Exact(ts[..n], window)
  }

  /** In the window of n: no more than the window before it. */
  predicate In(ts: seq<int>, window: int, i: nat, n: nat)
    requires i < |ts| && n < |ts|
  {
    ts[i] >= ts[n] - window
  }

  /**
   * The order that times have to keep: what is in the window of one of them is followed there by
   * everything up to it, and what has left the window of an earlier one is not in that of a later.
   */
  ghost predicate Orderly(ts: seq<int>, window: int)
  {
    && (forall i, j, n :: 0 <= i < j <= n < |ts| && In(ts, window, i, n) ==> In(ts, window, j, n))
    && (forall i, k, n :: 0 <= i <= k < n < |ts| && !In(ts, window, i, k) ==> !In(ts, window, i, n))
  }

  ghost predicate Held(ts: seq<int>, window: int)
    requires ts != []
  {
    forall i :: 0 <= i < |ts| ==> HeldAt(ts, window, i)
  }

  predicate HeldAt(ts: seq<int>, window: int, i: nat)
    requires i < |ts|
  {
    i >= Start(ts, window) <==> In(ts, window, i, |ts| - 1)
  }

  lemma ExactIsHeld(ts: seq<int>, window: int)
    requires ts != []
    ensures Exact(ts, window) <==> Held(ts, window)
  {
    hide *;
    var s, cutoff := Start(ts, window), ts[|ts| - 1] - window;
    ExactMeans(ts, window);
    BufferIsSuffix(ts, window);
    SuffixIsWindowIff(ts, s, cutoff);
    HeldMeans(ts, window, s);
  }

  lemma ExactMeans(ts: seq<int>, window: int)
    requires ts != []
    ensures Exact(ts, window) <==> Buffer(ts, window) == InWindow(ts, ts[|ts| - 1] - window)
  {
    hide Buffer, InWindow;
  }

  lemma HeldMeans(ts: seq<int>, window: int, s: nat)
    requires ts != [] && s == Start(ts, window)
    ensures Held(ts, window) <==> Divides(ts, s, ts[|ts| - 1] - window)
  {
    hide Start;
    assert forall i :: 0 <= i < |ts| ==> HeldAt(ts, window, i) == (i >= s <==> ts[i] >= ts[|ts| - 1] - window);
  }

  lemma {:induction false} StartsLater(ts: seq<int>, n: nat, window: int)
    requires n <= |ts|
    ensures Start(ts[..n], window) <= Start(ts, window)
  {
    if n < |ts| {
      StartsLater(ts[..|ts| - 1], n, window);
      assert ts[..|ts| - 1][..n] == ts[..n];
    } else {
      assert ts[..n] == ts;
    }
  }

  lemma OrderlyFront(ts: seq<int>, window: int, m: nat, n: nat)
    requires Orderly(ts, window) && m <= n <= |ts|
    ensures Orderly(ts[m..n], window)
  {
    var s := ts[m..n];
    forall i, j, k | 0 <= i < j <= k < |s| && In(s, window, i, k)
      ensures In(s, window, j, k)
    {
      assert In(ts, window, m + i, m + k);
      assert In(ts, window, m + j, m + k);
    }
    forall i, k, j | 0 <= i <= k < j < |s| && !In(s, window, i, k)
      ensures !In(s, window, i, j)
    {
      assert !In(ts, window, m + i, m + k);
      assert !In(ts, window, m + i, m + j);
    }
  }

  lemma {:induction false} OrderlyIsHeld(ts: seq<int>, window: int)
    requires ts != [] && Orderly(ts, window)
    ensures Held(ts, window)
  {
    var n := |ts| - 1;
    var front := ts[..n];
    var s := Start(front, window);
    if n > 0 {
      OrderlyFront(ts, window, 0, n);
      assert ts[0..n] == front;
      OrderlyIsHeld(front, window);
      forall i | 0 <= i < s
        ensures !In(ts, window, i, n)
      {
        assert HeldAt(front, window, i);
        assert !In(ts, window, i, n - 1);
      }
    }
    forall i | 0 <= i < |ts|
      ensures HeldAt(ts, window, i)
    {
      var j := Start(ts, window);
      if j < i {
        assert In(ts, window, j, n);
      }
    }
  }

  lemma HeldFollows(ts: seq<int>, window: int, i: nat, j: nat, n: nat)
    requires i < j <= n < |ts| && Held(ts[..n + 1], window) && In(ts, window, i, n)
    ensures In(ts, window, j, n)
  {
    hide Start;
    var upTo := ts[..n + 1];
    assert HeldAt(upTo, window, i) && HeldAt(upTo, window, j);
  }

  lemma HeldLeaves(ts: seq<int>, window: int, i: nat, k: nat, n: nat)
    requires i <= k < n < |ts| && Held(ts[..k + 1], window) && Held(ts[..n + 1], window) && !In(ts, window, i, k)
    ensures !In(ts, window, i, n)
  {
    hide Start;
    var early, late := ts[..k + 1], ts[..n + 1];
    assert HeldAt(early, window, i) && HeldAt(late, window, i);
    assert late[..k + 1] == early;
    StartsLater(late, k + 1, window);
  }

  lemma HeldIsOrderly(ts: seq<int>, window: int)
    requires forall n :: 0 < n <= |ts| ==> Held(ts[..n], window)
    ensures Orderly(ts, window)
  {
    hide Held, In;
    forall i, j, n | 0 <= i < j <= n < |ts| && In(ts, window, i, n)
      ensures In(ts, window, j, n)
    {
      HeldFollows(ts, window, i, j, n);
    }
    forall i, k, n | 0 <= i <= k < n < |ts| && !In(ts, window, i, k)
      ensures !In(ts, window, i, n)
    {
      HeldLeaves(ts, window, i, k, n);
    }
  }

  /** The counter is always exact if and only if its times are orderly. */
  lemma WindowExactIff(ts: seq<int>, window: int)
    ensures AlwaysExact(ts, window) <==> Orderly(ts, window)
  {
    if Orderly(ts, window) {
      forall n | 0 < n <= |ts|
        ensures Exact(ts[..n], window)
      {
        OrderlyFront(ts, window, 0, n);
        assert ts[0..n] == ts[..n];
        OrderlyIsHeld(ts[..n], window);
        ExactIsHeld(ts[..n], window);
      }
    }
    if AlwaysExact(ts, window) {
      forall n | 0 < n <= |ts|
        ensures Held(ts[..n], window)
      {
        ExactIsHeld(ts[..n], window);
      }
      HeldIsOrderly(ts, window);
    }
  }

  lemma SortedIsOrderly(ts: seq<int>, window: int)
    requires SortedTimes(ts) && window >= 0
    ensures Orderly(ts, window)
  {
  }
}
