/** What the detectors say of a whole run of events. */
module DetectorHistory {
  import opened Wire
  import opened Events
  import opened Detections
  import Buffers
  import opened Windows
  import opened ValueWindows
  import opened Tracks
  import opened Detectors

  /** The events of key k arrive in time order. */
  ghost predicate InOrder(dt: Detector, h: seq<Event>, k: string)
  {
    Sorted(Sightings(dt, h, k))
  }

  lemma SightingsSnoc(dt: Detector, h: seq<Event>, e: Event, k: string)
    ensures Sightings(dt, h + [e], k) == if KeyOf(dt, e) == Some(k) then Sightings(dt, h, k) + [Sight(dt, e)] else Sightings(dt, h, k)
  {
    assert (h + [e])[..|h|] == h;
    assert Sightings(dt, h, k) + [] == Sightings(dt, h, k);
  }

  lemma InOrderIsSteady(dt: Detector, c: Config, h: seq<Event>, k: string)
    requires InOrder(dt, h, k) && RuleOf(dt, c).window >= 0
    ensures Steady(RuleOf(dt, c), Sightings(dt, h, k))
  {
    SortedIsSteady(RuleOf(dt, c), Sightings(dt, h, k));
  }

  /**
   * While the events of a key keep the order its windows need - as they do when they come in time
   * order - its detector reports at an event exactly when the events since its last report, counted
   * over the whole history, say so; and the report carries that count, the first of those events,
   * and their first evidence lines.
   */
  lemma EmitIff(dt: Detector, c: Config, h: seq<Event>, e: Event, k: string)
    requires KeyOf(dt, e) == Some(k) && Steady(RuleOf(dt, c), Sightings(dt, h + [e], k))
    ensures Emit(dt, c, h, e).Some? <==> Fires(RuleOf(dt, c), Sightings(dt, h, k), Sight(dt, e))
    ensures Emit(dt, c, h, e).Some? ==>
              var d, ss := Emit(dt, c, h, e).value, Sightings(dt, h + [e], k);
              var n, cutoff := Since(RuleOf(dt, c), Sightings(dt, h, k)), e.timestamp - RuleOf(dt, c).window;
              && n < |ss|
              && d.count == (if dt == Scan then |ValuesSince(ss, n, cutoff)| else CountSince(ss, n, cutoff))
              && d.firstAt == ss[n].at && d.lastAt == e.timestamp
              && d.evidence == EvidenceSince(ss, n, c.evidenceMax)
  {
    hide Fires, Follow, Add, Ready, Since, CountSince, ValuesSince, EvidenceSince, Sightings, Steady, Buffers.Buffer, SeenAfter;
    var r, ss, x := RuleOf(dt, c), Sightings(dt, h, k), Sight(dt, e);
    SightingsSnoc(dt, h, e, k);
    SteadyFront(r, ss, x);
    FollowTracks(r, ss);
    ReadyIsFires(r, ss, Follow(r, ss), x);
  }

  // --- keys do not interfere --------------------------------------------------------

  function OnlyOf(dt: Detector, h: seq<Event>, k: string): seq<Event>
  {
    if h == [] then []
    else OnlyOf(dt, h[..|h| - 1], k) + if KeyOf(dt, h[|h| - 1]) == Some(k) then [h[|h| - 1]] else []
  }

  lemma {:induction false} OnlyOfSightings(dt: Detector, h: seq<Event>, k: string)
    ensures Sightings(dt, OnlyOf(dt, h, k), k) == Sightings(dt, h, k)
  {
    if h != [] {
      var front, e := h[..|h| - 1], h[|h| - 1];
      OnlyOfSightings(dt, front, k);
      SightingsSnoc(dt, OnlyOf(dt, front, k), e, k);
      assert OnlyOf(dt, front, k) + [] == OnlyOf(dt, front, k);
    }
  }

  /** Everything the detector reports over a run. */
  function Emitted(dt: Detector, c: Config, h: seq<Event>): seq<Detection>
  {
    if h == [] then []
    else Emitted(dt, c, h[..|h| - 1]) + ToSeq(Emit(dt, c, h[..|h| - 1], h[|h| - 1]))
  }

  /** What it reports for one key. */
  function EmittedFor(dt: Detector, c: Config, h: seq<Event>, k: string): seq<Detection>
  {
    if h == [] then []
    else
      EmittedFor(dt, c, h[..|h| - 1], k) +
      if KeyOf(dt, h[|h| - 1]) == Some(k) then ToSeq(Emit(dt, c, h[..|h| - 1], h[|h| - 1])) else []
  }

  /** The reports for one key are those of the run restricted to the events of that key. */
  lemma {:induction false} KeysDoNotInterfere(dt: Detector, c: Config, h: seq<Event>, k: string)
    ensures EmittedFor(dt, c, h, k) == Emitted(dt, c, OnlyOf(dt, h, k))
  {
    if h != [] {
      var front, e := h[..|h| - 1], h[|h| - 1];
      var mine := OnlyOf(dt, front, k);
      KeysDoNotInterfere(dt, c, front, k);
      OnlyOfSightings(dt, front, k);
      hide Verdict, Follow, Sightings;
      if KeyOf(dt, e) == Some(k) {
        assert Emit(dt, c, front, e) == Emit(dt, c, mine, e);
        assert (mine + [e])[..|mine|] == mine && OnlyOf(dt, h, k) == mine + [e];
      } else {
        assert OnlyOf(dt, h, k) == mine + [] == mine;
        assert EmittedFor(dt, c, front, k) + [] == EmittedFor(dt, c, front, k);
      }
    }
  }

  // --- reports keep their distance ----------------------------------------------------

  /** A report sets the time the cooldown counts from, and waits for it to run out. */
  lemma NextLast(dt: Detector, c: Config, t: Track<string>, e: Event, k: string)
    ensures Next(RuleOf(dt, c), t, Sight(dt, e)).last == if Verdict(dt, c, t, e, k).Some? then Some(e.timestamp) else t.last
    ensures Verdict(dt, c, t, e, k).Some? ==> Rested(t.last, e.timestamp, c.cooldown)
  {
    hide Prune, Recent, KeepEvidence;
  }

  ghost predicate Apart(ds: seq<Detection>, gap: int)
  {
    forall i, j :: 0 <= i < j < |ds| ==> ds[j].lastAt - ds[i].lastAt >= gap
  }

  lemma ApartSnoc(ds: seq<Detection>, d: Detection, gap: int)
    requires Apart(ds, gap) && gap >= 0
    requires ds != [] ==> d.lastAt - ds[|ds| - 1].lastAt >= gap
    ensures Apart(ds + [d], gap)
  {
    assert forall i :: 0 <= i < |ds| - 1 ==> ds[|ds| - 1].lastAt - ds[i].lastAt >= gap;
  }

  /** The cooldown counts from the last report of the key. */
  ghost predicate CountsFrom(ds: seq<Detection>, last: Option<int>)
  {
    last == if ds == [] then None else Some(ds[|ds| - 1].lastAt)
  }

  lemma VerdictStamped(dt: Detector, c: Config, t: Track<string>, e: Event, k: string)
    ensures Verdict(dt, c, t, e, k).Some? ==> Verdict(dt, c, t, e, k).value.lastAt == e.timestamp
  {
    hide Prune, Recent, KeepEvidence, Ready;
  }

  lemma {:induction false} CooldownKept(dt: Detector, c: Config, h: seq<Event>, k: string)
    requires c.cooldown >= 0
    ensures Apart(EmittedFor(dt, c, h, k), c.cooldown)
    ensures CountsFrom(EmittedFor(dt, c, h, k), TrackOf(dt, c, h, k).last)
  {
    if h != [] {
      var front, e := h[..|h| - 1], h[|h| - 1];
      var before := EmittedFor(dt, c, front, k);
      assert h == front + [e];
      CooldownKept(dt, c, front, k);
      TrackSnoc(dt, c, front, e, k);
      hide Next, RuleOf, Sight, TrackOf, Verdict, Apart;
      if KeyOf(dt, e) == Some(k) {
        var t := TrackOf(dt, c, front, k);
        NextLast(dt, c, t, e, k);
        VerdictStamped(dt, c, t, e, k);
        if Verdict(dt, c, t, e, k).Some? {
          ApartSnoc(before, Verdict(dt, c, t, e, k).value, c.cooldown);
        }
      }
      assert before + [] == before;
    } else {
      hide Rested;
    }
  }

  /** Any two reports for one key are at least the cooldown apart, in whatever order the events arrive. */
  lemma ReportsApart(dt: Detector, c: Config, h: seq<Event>, k: string)
    requires c.cooldown >= 0
    ensures var ds := EmittedFor(dt, c, h, k);
            forall i, j :: 0 <= i < j < |ds| ==> ds[j].lastAt - ds[i].lastAt >= c.cooldown
  {
    CooldownKept(dt, c, h, k);
  }

  // --- out of order ---------------------------------------------------------------------

  lemma CountSnoc<V>(h: seq<Sighting<V>>, x: Sighting<V>, n: nat, cutoff: int)
    requires n <= |h|
    ensures CountSince(h + [x], n, cutoff) == CountSince(h, n, cutoff) + if x.at >= cutoff then 1 else 0
  {
    assert (h + [x])[..|h|] == h;
  }

  const THREE_IN_TEN := Rule(Some(3), None, 10, 0, 5)

  function Stamped(at: int): Sighting<string>
  {
    Sighting(at, "", "")
  }

  lemma DisorderFires()
    ensures Fires(THREE_IN_TEN, [Stamped(50), Stamped(100)], Stamped(55))
  {
    hide Since, LastFired, CountSince, ValuesSince;
    var r, a, b, x := THREE_IN_TEN, Stamped(50), Stamped(100), Stamped(55);
    var none: seq<Sighting<string>> := [];
    assert Since(r, none) == 0 && LastFired(r, none) == None && CountSince(none, 0, 40) == CountSince(none, 0, 90) == CountSince(none, 0, 45) == 0 by { NoHistory(r); }
    assert none + [a] == [a] && [a] + [b] == [a, b] && [a, b] + [x] == [a, b, x];
    SinceSnoc(r, none, a);
    CountSnoc(none, a, 0, 40);
    SinceSnoc(r, [a], b);
    CountSnoc(none, a, 0, 90);
    CountSnoc([a], b, 0, 90);
    CountSnoc(none, a, 0, 45);
    CountSnoc([a], b, 0, 45);
    CountSnoc([a, b], x, 0, 45);
  }

  lemma NoHistory(r: Rule)
    ensures Since<string>(r, []) == 0 && LastFired<string>(r, []) == None
    ensures forall n, cutoff :: CountSince<string>([], n, cutoff) == 0
  {
  }

  lemma DisorderNotReady()
    ensures Follow(THREE_IN_TEN, [Stamped(50), Stamped(100)]).times == [100]
    ensures !Ready(THREE_IN_TEN, Add(THREE_IN_TEN, Follow(THREE_IN_TEN, [Stamped(50), Stamped(100)]), Stamped(55)), 55)
  {
    var r, a, b := THREE_IN_TEN, Stamped(50), Stamped(100);
    assert [a][..0] == [] && [a, b][..1] == [a];
    assert [50, 100][1..] == [100] && [50] + [100] == [50, 100] && [100] + [55] == [100, 55];
    assert Follow(r, [a]).times == [50];
    assert Follow(r, [a, b]).times == [100];
    assert Prune([100, 55], 45) == [100, 55];
  }

  /**
   * Out of time order the bounded window can miss what the history shows: three failures within
   * ten units of the last, the second of them stamped late, are counted as two.
   */
  lemma DisorderMisses()
    ensures exists r: Rule, h: seq<Sighting<string>>, x: Sighting<string> ::
              Fires(r, h, x) && !Ready(r, Add(r, Follow(r, h), x), x.at)
  {
    hide Fires, Ready, Add, Follow;
    DisorderFires();
    DisorderNotReady();
  }
}
