/** The distinct window over a whole run of sightings, in whatever order their times come. */
module ValueWindows {
  import opened Windows

  datatype Sighting<V> = Sighting(at: int, value: V, raw: string)

  /** What the window holds after h: every value is stamped, and stale values dropped, in turn. */
  function SeenAfter<V>(h: seq<Sighting<V>>, window: int): map<V, int>
  {
    if h == [] then map[]
    else
      var x := h[|h| - 1];
      Recent(SeenAfter(h[..|h| - 1], window)[x.value := x.at], x.at - window)
  }

  /** Sighting i is in the window of sighting n. */
  predicate Covers<V>(h: seq<Sighting<V>>, window: int, n: nat, i: nat)
    requires i < |h| && n < |h|
  {
    h[i].at >= h[n].at - window
  }

  /** No sighting after i, up to n, is of the same value. */
  ghost predicate Latest<V>(h: seq<Sighting<V>>, i: nat, n: nat)
    requires i <= n < |h|
  {
    forall k :: i < k <= n ==> h[k].value != h[i].value
  }

  /** Sighting i is in the window of every one from itself to n. */
  ghost predicate Stays<V>(h: seq<Sighting<V>>, window: int, i: nat, n: nat)
    requires i <= n < |h|
  {
    forall k :: i <= k <= n ==> Covers(h, window, k, i)
  }

  /** The values in the window of the last sighting, over all of h. */
  function ValuesIn<V>(h: seq<Sighting<V>>, window: int): set<V>
    requires h != []
  {
    set i | 0 <= i < |h| && Covers(h, window, |h| - 1, i) :: h[i].value
  }

  ghost predicate ExactValues<V>(h: seq<Sighting<V>>, window: int)
    requires h != []
  {
    SeenAfter(h, window).Keys == ValuesIn(h, window)
  }

  ghost predicate AlwaysExactValues<V(!new)>(h: seq<Sighting<V>>, window: int)
  {
    forall n :: 0 < n <= |h| ==> ExactValues(h[..n], window)
  }

  /**
   * The order that sightings have to keep: while an earlier sighting of a value is in a window its
   * latest one is too, and a latest one that has left the window of an earlier sighting is not in
   * that of a later.
   */
  ghost predicate OrderlyValues<V(!new)>(h: seq<Sighting<V>>, window: int)
  {
    && (forall j, i, n :: 0 <= j < i <= n < |h| && h[j].value == h[i].value && Latest(h, i, n) ==>
          Covers(h, window, n, j) ==> Covers(h, window, n, i))
    && (forall i, k, n :: 0 <= i <= k < n < |h| && Latest(h, i, n) ==>
          Covers(h, window, n, i) ==> Covers(h, window, k, i))
  }

  /** What is held of a value is its latest sighting, as long as it has been in every window. */
  lemma {:induction false} SeenIff<V>(h: seq<Sighting<V>>, window: int, i: nat)
    requires i < |h| && Latest(h, i, |h| - 1)
    ensures h[i].value in SeenAfter(h, window) <==> Stays(h, window, i, |h| - 1)
    ensures h[i].value in SeenAfter(h, window) ==> SeenAfter(h, window)[h[i].value] == h[i].at
  {
    var n := |h| - 1;
    if i < n {
      var front := h[..n];
      assert Latest(front, i, n - 1);
      SeenIff(front, window, i);
      assert Stays(h, window, i, n) <==> Stays(front, window, i, n - 1) && Covers(h, window, n, i) by {
        StaysLonger(h, window, i);
      }
    } else {
      assert Stays(h, window, i, n) <==> Covers(h, window, n, n);
    }
  }

  lemma StaysLonger<V>(h: seq<Sighting<V>>, window: int, i: nat)
    requires i < |h| - 1
    ensures Stays(h, window, i, |h| - 1) <==>
            Stays(h[..|h| - 1], window, i, |h| - 2) && Covers(h, window, |h| - 1, i)
  {
    var front := h[..|h| - 1];
    assert forall k :: i <= k < |front| ==> Covers(front, window, k, i) == Covers(h, window, k, i);
  }

  lemma {:induction false} SeenWasSighted<V>(h: seq<Sighting<V>>, window: int, v: V)
    requires v in SeenAfter(h, window)
    ensures exists i :: 0 <= i < |h| && h[i].value == v
  {
    var front, x := h[..|h| - 1], h[|h| - 1];
    if x.value != v {
      SeenWasSighted(front, window, v);
      var i :| 0 <= i < |front| && front[i].value == v;
      assert h[i].value == v;
    }
  }

  lemma {:induction false} LatestFrom<V>(h: seq<Sighting<V>>, j: nat, n: nat) returns (i: nat)
    requires j <= n < |h|
    ensures j <= i <= n && h[i].value == h[j].value && Latest(h, i, n)
    decreases n - j
  {
    if k :| j < k <= n && h[k].value == h[j].value {
      i := LatestFrom(h, k, n);
    } else {
      i := j;
    }
  }

  lemma OrderlyValuesPart<V(!new)>(h: seq<Sighting<V>>, window: int, m: nat, n: nat)
    requires OrderlyValues(h, window) && m <= n <= |h|
    ensures OrderlyValues(h[m..n], window)
  {
    var s := h[m..n];
    forall j, i, k | 0 <= j < i <= k < |s| && s[j].value == s[i].value && Latest(s, i, k) && Covers(s, window, k, j)
      ensures Covers(s, window, k, i)
    {
      LatestPart(h, m, n, i, k);
      assert Covers(h, window, m + k, m + j);
      assert Covers(h, window, m + k, m + i);
    }
    forall i, j, k | 0 <= i <= j < k < |s| && Latest(s, i, k) && !Covers(s, window, j, i)
      ensures !Covers(s, window, k, i)
    {
      LatestPart(h, m, n, i, k);
      assert !Covers(h, window, m + j, m + i);
      assert !Covers(h, window, m + k, m + i);
    }
  }

  lemma LatestPart<V>(h: seq<Sighting<V>>, m: nat, n: nat, i: nat, k: nat)
    requires m <= n <= |h| && i <= k < n - m && Latest(h[m..n], i, k)
    ensures Latest(h, m + i, m + k)
  {
    forall j | m + i < j <= m + k
      ensures h[j].value != h[m + i].value
    {
      assert h[m..n][j - m] == h[j];
    }
  }

  /** One value of an orderly run. */
  lemma OrderlyValueIff<V(!new)>(h: seq<Sighting<V>>, window: int, i: nat)
    requires i < |h| && OrderlyValues(h, window) && Latest(h, i, |h| - 1)
    ensures Stays(h, window, i, |h| - 1) <==> h[i].value in ValuesIn(h, window)
  {
    var n := |h| - 1;
    if Stays(h, window, i, n) {
      assert Covers(h, window, n, i);
    }
    if h[i].value in ValuesIn(h, window) {
      var j :| 0 <= j < |h| && Covers(h, window, n, j) && h[j].value == h[i].value;
      assert Covers(h, window, n, i);
    }
  }

  lemma OrderlyIsExactValues<V(!new)>(h: seq<Sighting<V>>, window: int)
    requires h != [] && OrderlyValues(h, window)
    ensures ExactValues(h, window)
  {
    var n := |h| - 1;
    forall v
      ensures v in SeenAfter(h, window) <==> v in ValuesIn(h, window)
    {
      if v in SeenAfter(h, window) {
        SeenWasSighted(h, window, v);
        var j :| 0 <= j < |h| && h[j].value == v;
        var i := LatestFrom(h, j, n);
        SeenIff(h, window, i);
        OrderlyValueIff(h, window, i);
      }
      if v in ValuesIn(h, window) {
        var j :| 0 <= j < |h| && Covers(h, window, n, j) && h[j].value == v;
        var i := LatestFrom(h, j, n);
        SeenIff(h, window, i);
        OrderlyValueIff(h, window, i);
      }
    }
  }

  lemma LatestStays<V>(h: seq<Sighting<V>>, window: int, i: nat, n: nat)
    requires i <= n < |h| && Latest(h, i, n) && ExactValues(h[..n + 1], window)
    ensures (exists j :: 0 <= j <= n && h[j].value == h[i].value && Covers(h, window, n, j)) <==> Stays(h, window, i, n)
  {
    var s := h[..n + 1];
    assert Latest(s, i, n);
    SeenIff(s, window, i);
    assert Stays(s, window, i, n) <==> Stays(h, window, i, n) by {
      assert forall k :: i <= k <= n ==> Covers(s, window, k, i) == Covers(h, window, k, i);
    }
    assert forall j :: 0 <= j <= n ==> Covers(s, window, n, j) == Covers(h, window, n, j);
    hide SeenAfter;
    if h[i].value in ValuesIn(s, window) {
      var j :| 0 <= j < |s| && Covers(s, window, n, j) && s[j].value == h[i].value;
      assert h[j].value == h[i].value && Covers(h, window, n, j);
    }
    if j :| 0 <= j <= n && h[j].value == h[i].value && Covers(h, window, n, j) {
      assert Covers(s, window, n, j) && s[j].value == h[i].value;
    }
  }

  lemma ExactIsOrderlyValues<V(!new)>(h: seq<Sighting<V>>, window: int)
    requires AlwaysExactValues(h, window)
    ensures OrderlyValues(h, window)
  {
    hide ExactValues;
    forall j, i, n | 0 <= j < i <= n < |h| && h[j].value == h[i].value && Latest(h, i, n) && Covers(h, window, n, j)
      ensures Covers(h, window, n, i)
    {
      assert ExactValues(h[..n + 1], window);
      LatestStays(h, window, i, n);
      assert Stays(h, window, i, n);
    }
    forall i, k, n | 0 <= i <= k < n < |h| && Latest(h, i, n) && !Covers(h, window, k, i)
      ensures !Covers(h, window, n, i)
    {
      assert ExactValues(h[..n + 1], window);
      LatestStays(h, window, i, n);
      assert !Stays(h, window, i, n);
    }
  }

  /** The distinct window is always exact if and only if its sightings are orderly. */
  lemma DistinctExactIff<V(!new)>(h: seq<Sighting<V>>, window: int)
    ensures AlwaysExactValues(h, window) <==> OrderlyValues(h, window)
  {
    if OrderlyValues(h, window) {
      forall n | 0 < n <= |h|
        ensures ExactValues(h[..n], window)
      {
        OrderlyValuesPart(h, window, 0, n);
        assert h[0..n] == h[..n];
        OrderlyIsExactValues(h[..n], window);
      }
    }
    if AlwaysExactValues(h, window) {
      ExactIsOrderlyValues(h, window);
    }
  }
}
