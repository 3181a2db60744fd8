/**
 * A windowed detector seen from one key: the bounded track it keeps, and the proof that the track
 * answers exactly as counting over the key's whole history would.
 */
module Tracks {
  import opened Buffers
  import opened ValueWindows
  import opened Wire
  import opened Windows

  /** Fire at minCount entries and minDistinct values in the window, once per cooldown; None asks nothing. */
  datatype Rule = Rule(minCount: Option<int>, minDistinct: Option<int>, window: int, cooldown: int, evidenceMax: int)

  datatype Track<V> = Track(times: seq<int>, seen: map<V, int>, first: Option<int>, evidence: seq<string>, last: Option<int>)

  function KeepEvidence(evidence: seq<string>, raw: string, max: int): seq<string>
  {
    if |evidence| >= max || raw == "" then evidence else evidence + [raw]
  }

  /** The track once x has been added to its windows. */
  function Add<V>(r: Rule, t: Track<V>, x: Sighting<V>): Track<V>
  {
    Track(if r.minCount.Some? then Prune(t.times + [x.at], x.at - r.window) else [],
          if r.minDistinct.Some? then Recent(t.seen[x.value := x.at], x.at - r.window) else map[],
          if t.first.Some? then t.first else Some(x.at),
          KeepEvidence(t.evidence, x.raw, r.evidenceMax),
          t.last)
  }

  /** Enough in the windows, and the key has rested. */
  predicate Ready<V>(r: Rule, t: Track<V>, at: int)
  {
    && (r.minCount.Some? ==> |t.times| >= r.minCount.value)
    && (r.minDistinct.Some? ==> |t.seen| >= r.minDistinct.value)
    && Rested(t.last, at, r.cooldown)
  }

  /** Firing starts the windows afresh and the cooldown. */
  function Next<V>(r: Rule, t: Track<V>, x: Sighting<V>): Track<V>
  {
    var u := Add(r, t, x);
    if Ready(r, u, x.at) then Track([], map[], None, [], Some(x.at)) else u
  }

  function Follow<V>(r: Rule, h: seq<Sighting<V>>): Track<V>
  {
    if h == [] then Track([], map[], None, [], None) else Next(r, Follow(r, h[..|h| - 1]), h[|h| - 1])
  }

  // --- the history-only specification --------------------------------------------

  /** How many sightings from position n on are at or after the cutoff. */
  function CountSince<V>(h: seq<Sighting<V>>, n: nat, cutoff: int): nat
  {
    if |h| <= n then 0
    else CountSince(h[..|h| - 1], n, cutoff) + if h[|h| - 1].at >= cutoff then 1 else 0
  }

  /** The values among them. */
  function ValuesSince<V>(h: seq<Sighting<V>>, n: nat, cutoff: int): set<V>
  {
    set i | n <= i < |h| && h[i].at >= cutoff :: h[i].value
  }

  /** One past the last position that fired. */
  ghost function Since<V>(r: Rule, h: seq<Sighting<V>>): (n: nat)
    ensures n <= |h|
    decreases |h|, 0
  {
    if h == [] then 0 else if Fires(r, h[..|h| - 1], h[|h| - 1]) then |h| else Since(r, h[..|h| - 1])
  }

  ghost function LastFired<V>(r: Rule, h: seq<Sighting<V>>): Option<int>
    decreases |h|, 0
  {
    if h == [] then None
    else if Fires(r, h[..|h| - 1], h[|h| - 1]) then Some(h[|h| - 1].at)
    else LastFired(r, h[..|h| - 1])
  }

  /** Whether x fires after the history h: counted over everything since the last firing, x included. */
  ghost predicate Fires<V>(r: Rule, h: seq<Sighting<V>>, x: Sighting<V>)
    decreases |h|, 1
  {
    var n, cutoff := Since(r, h), x.at - r.window;
    && (r.minCount.Some? ==> CountSince(h + [x], n, cutoff) >= r.minCount.value)
    && (r.minDistinct.Some? ==> |ValuesSince(h + [x], n, cutoff)| >= r.minDistinct.value)
    && Rested(LastFired(r, h), x.at, r.cooldown)
  }

  // --- the bounded track refines it ------------------------------------------------

  ghost predicate Sorted<V>(h: seq<Sighting<V>>)
  {
    forall i, j :: 0 <= i < j < |h| ==> h[i].at <= h[j].at
  }

  function TimesSince<V>(h: seq<Sighting<V>>, n: nat): (ts: seq<int>)
    ensures |ts| == if n <= |h| then |h| - n else 0
  {
    if n <= |h| then seq(|h| - n, i requires 0 <= i < |h| - n => h[n + i].at) else []
  }

  function EvidenceSince<V>(h: seq<Sighting<V>>, n: nat, max: int): seq<string>
  {
    if |h| <= n then [] else KeepEvidence(EvidenceSince(h[..|h| - 1], n, max), h[|h| - 1].raw, max)
  }

  /** The windows of t hold what the counters make of everything since position n. */
  ghost predicate WindowsHold<V(!new)>(r: Rule, h: seq<Sighting<V>>, n: nat, t: Track<V>)
    requires n <= |h|
  {
    && t.times == (if r.minCount.Some? then Buffer(TimesSince(h, n), r.window) else [])
    && t.seen == (if r.minDistinct.Some? then SeenAfter(h[n..], r.window) else map[])
    && t.first == (if n < |h| then Some(h[n].at) else None)
    && t.evidence == EvidenceSince(h, n, r.evidenceMax)
  }

  /** t is the track that the history calls for. */
  ghost predicate Tracks<V(!new)>(r: Rule, h: seq<Sighting<V>>, t: Track<V>)
  {
    WindowsHold(r, h, Since(r, h), t) && t.last == LastFired(r, h)
  }

  /**
   * The order that the windows of a rule need, each of them exactly as WindowExactIff and
   * DistinctExactIff say. Times that never decrease are such an order.
   */
  ghost predicate Steady<V(!new)>(r: Rule, h: seq<Sighting<V>>)
  {
    && (r.minCount.Some? ==> Orderly(TimesSince(h, 0), r.window))
    && (r.minDistinct.Some? ==> OrderlyValues(h, r.window))
  }

  lemma SortedIsSteady<V(!new)>(r: Rule, h: seq<Sighting<V>>)
    requires Sorted(h) && r.window >= 0
    ensures Steady(r, h)
  {
    SortedIsOrderly(TimesSince(h, 0), r.window);
  }

  lemma SteadyFront<V(!new)>(r: Rule, h: seq<Sighting<V>>, x: Sighting<V>)
    requires Steady(r, h + [x])
    ensures Steady(r, h)
  {
    hide Orderly, OrderlyValues;
    if r.minCount.Some? {
      TimesSnoc(h, x, 0);
      OrderlyFront(TimesSince(h + [x], 0), r.window, 0, |h|);
      assert TimesSince(h + [x], 0)[0..|h|] == TimesSince(h, 0);
    }
    if r.minDistinct.Some? {
      OrderlyValuesPart(h + [x], r.window, 0, |h|);
      assert (h + [x])[0..|h|] == h;
    }
  }

  lemma TimesSnoc<V>(h: seq<Sighting<V>>, x: Sighting<V>, n: nat)
    requires n <= |h|
    ensures TimesSince(h + [x], n) == TimesSince(h, n) + [x.at]
  {
  }

  lemma {:induction false} CountIsWindow<V>(h: seq<Sighting<V>>, n: nat, cutoff: int)
    ensures CountSince(h, n, cutoff) == |InWindow(TimesSince(h, n), cutoff)|
  {
    if |h| > n {
      var front := h[..|h| - 1];
      CountIsWindow(front, n, cutoff);
      TimesSnoc(front, h[|h| - 1], n);
      assert front + [h[|h| - 1]] == h;
      assert TimesSince(h, n)[..|TimesSince(front, n)|] == TimesSince(front, n);
    }
  }

  lemma EvidenceSnoc<V>(h: seq<Sighting<V>>, x: Sighting<V>, n: nat, max: int)
    requires n <= |h|
    ensures EvidenceSince(h + [x], n, max) == KeepEvidence(EvidenceSince(h, n, max), x.raw, max)
  {
    assert (h + [x])[..|h|] == h;
  }

  lemma BufferSnoc(ts: seq<int>, t: int, window: int)
    ensures Buffer(ts + [t], window) == Prune(Buffer(ts, window) + [t], t - window)
  {
    hide Prune;
    assert (ts + [t])[..|ts|] == ts;
  }

  lemma SeenSnoc<V>(h: seq<Sighting<V>>, x: Sighting<V>, window: int)
    ensures SeenAfter(h + [x], window) == Recent(SeenAfter(h, window)[x.value := x.at], x.at - window)
  {
    hide Recent;
    assert (h + [x])[..|h|] == h;
  }

  /** Adding a sighting keeps the windows, in whatever order. */
  lemma AddHolds<V(!new)>(r: Rule, h: seq<Sighting<V>>, n: nat, t: Track<V>, x: Sighting<V>)
    requires n <= |h| && WindowsHold(r, h, n, t)
    ensures WindowsHold(r, h + [x], n, Add(r, t, x))
  {
    hide Prune, Recent, KeepEvidence, Buffer, SeenAfter;
    TimesSnoc(h, x, n);
    EvidenceSnoc(h, x, n, r.evidenceMax);
    BufferSnoc(TimesSince(h, n), x.at, r.window);
    assert (h + [x])[n..] == h[n..] + [x];
    SeenSnoc(h[n..], x, r.window);
  }

  lemma CountExact<V(!new)>(r: Rule, h: seq<Sighting<V>>, n: nat)
    requires n < |h| && Orderly(TimesSince(h, 0), r.window)
    ensures |Buffer(TimesSince(h, n), r.window)| == CountSince(h, n, h[|h| - 1].at - r.window)
  {
    var ts := TimesSince(h, n);
    hide Buffer, Orderly, InWindow, CountSince;
    assert TimesSince(h, 0)[n..|h|] == ts;
    OrderlyFront(TimesSince(h, 0), r.window, n, |h|);
    WindowExactIff(ts, r.window);
    assert ts[..|ts|] == ts;
    assert Exact(ts, r.window);
    CountIsWindow(h, n, h[|h| - 1].at - r.window);
  }

  lemma DistinctExact<V(!new)>(r: Rule, h: seq<Sighting<V>>, n: nat)
    requires n < |h| && OrderlyValues(h, r.window)
    ensures |SeenAfter(h[n..], r.window)| == |ValuesSince(h, n, h[|h| - 1].at - r.window)|
  {
    var s, cutoff := h[n..], h[|h| - 1].at - r.window;
    hide SeenAfter, OrderlyValues;
    assert h[n..|h|] == s;
    OrderlyValuesPart(h, r.window, n, |h|);
    OrderlyIsExactValues(s, r.window);
    forall v
      ensures v in ValuesIn(s, r.window) <==> v in ValuesSince(h, n, cutoff)
    {
      if i :| 0 <= i < |s| && Covers(s, r.window, |s| - 1, i) && s[i].value == v {
        assert h[n + i].value == v && h[n + i].at >= cutoff;
      }
      if i :| n <= i < |h| && h[i].at >= cutoff && h[i].value == v {
        assert s[i - n].value == v && Covers(s, r.window, |s| - 1, i - n);
      }
    }
    assert SeenAfter(s, r.window).Keys == ValuesSince(h, n, cutoff);
  }

  /** In a steady order the windows have the sizes the history has. */
  lemma WindowSizes<V(!new)>(r: Rule, h: seq<Sighting<V>>, n: nat, t: Track<V>)
    requires n < |h| && Steady(r, h) && WindowsHold(r, h, n, t)
    ensures r.minCount.Some? ==> |t.times| == CountSince(h, n, h[|h| - 1].at - r.window)
    ensures r.minDistinct.Some? ==> |t.seen| == |ValuesSince(h, n, h[|h| - 1].at - r.window)|
  {
    hide Buffer, SeenAfter, Orderly, OrderlyValues, EvidenceSince, ValuesSince, CountSince, TimesSince;
    if r.minCount.Some? {
      CountExact(r, h, n);
    }
    if r.minDistinct.Some? {
      DistinctExact(r, h, n);
    }
  }

  /** On an exact track, ready is what the history-only specification calls firing. */
  lemma ReadyIsFires<V(!new)>(r: Rule, h: seq<Sighting<V>>, t: Track<V>, x: Sighting<V>)
    requires Steady(r, h + [x]) && Tracks(r, h, t)
    ensures WindowsHold(r, h + [x], Since(r, h), Add(r, t, x))
    ensures Ready(r, Add(r, t, x), x.at) <==> Fires(r, h, x)
    ensures r.minCount.Some? ==> |Add(r, t, x).times| == CountSince(h + [x], Since(r, h), x.at - r.window)
    ensures r.minDistinct.Some? ==> |Add(r, t, x).seen| == |ValuesSince(h + [x], Since(r, h), x.at - r.window)|
  {
    hide *;
    var n, u := Since(r, h), Add(r, t, x);
    TracksParts(r, h, t);
    AddHolds(r, h, n, t, x);
    AddKeepsLast(r, t, x);
    assert (h + [x])[|h|] == x;
    WindowSizes(r, h + [x], n, u);
    SizesDecide(r, h, u, x);
  }

  lemma TracksParts<V(!new)>(r: Rule, h: seq<Sighting<V>>, t: Track<V>)
    requires Tracks(r, h, t)
    ensures WindowsHold(r, h, Since(r, h), t) && t.last == LastFired(r, h)
  {
    hide WindowsHold, Since, LastFired;
  }

  lemma SizesDecide<V(!new)>(r: Rule, h: seq<Sighting<V>>, u: Track<V>, x: Sighting<V>)
    requires r.minCount.Some? ==> |u.times| == CountSince(h + [x], Since(r, h), x.at - r.window)
    requires r.minDistinct.Some? ==> |u.seen| == |ValuesSince(h + [x], Since(r, h), x.at - r.window)|
    requires u.last == LastFired(r, h)
    ensures Ready(r, u, x.at) <==> Fires(r, h, x)
  {
    hide CountSince, ValuesSince, Since, LastFired, Rested;
  }

  lemma AddKeepsLast<V>(r: Rule, t: Track<V>, x: Sighting<V>)
    ensures Add(r, t, x).last == t.last
  {
    hide Prune, Recent, KeepEvidence;
  }

  lemma SinceSnoc<V>(r: Rule, h: seq<Sighting<V>>, x: Sighting<V>)
    ensures Since(r, h + [x]) == if Fires(r, h, x) then |h| + 1 else Since(r, h)
    ensures LastFired(r, h + [x]) == if Fires(r, h, x) then Some(x.at) else LastFired(r, h)
  {
    hide Fires;
    assert (h + [x])[..|h|] == h;
  }

  lemma FiredHolds<V(!new)>(r: Rule, h: seq<Sighting<V>>, last: Option<int>)
    ensures WindowsHold(r, h, |h|, Track([], map[], None, [], last))
  {
    assert TimesSince(h, |h|) == [];
    assert h[|h|..] == [];
  }

  lemma NextTracks<V(!new)>(r: Rule, h: seq<Sighting<V>>, t: Track<V>, x: Sighting<V>)
    requires Steady(r, h + [x]) && Tracks(r, h, t)
    ensures Tracks(r, h + [x], Next(r, t, x))
  {
    hide Fires, Ready, LastFired, Since, WindowsHold, Steady, Add;
    ReadyIsFires(r, h, t, x);
    AddKeepsLast(r, t, x);
    SinceSnoc(r, h, x);
    FiredHolds(r, h + [x], Some(x.at));
    assert |h + [x]| == |h| + 1;
  }

  /**
   * In a steady order the bounded track is exact: its windows hold just what the history since the
   * last firing says, so the detector fires exactly when the history-only specification does.
   */
  lemma {:induction false} FollowTracks<V(!new)>(r: Rule, h: seq<Sighting<V>>)
    requires Steady(r, h)
    ensures Tracks(r, h, Follow(r, h))
  {
    if h != [] {
      var front, x := h[..|h| - 1], h[|h| - 1];
      assert front + [x] == h;
      SteadyFront(r, front, x);
      FollowTracks(r, front);
      hide Next, Tracks, Steady;
      NextTracks(r, front, Follow(r, front), x);
    }
  }
}
