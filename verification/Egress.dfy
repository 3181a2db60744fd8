/** Abnormal egress: a rolling sum per host against a moving average of itself. */
module Egress {
  import opened Detections
  import Buffers
  import opened Events
  import Tracks
  import opened Windows
  import opened Wire

  datatype Settings = Settings(floor: int, factor: real, window: int, cooldown: int, evidenceMax: int)

  datatype Sample = Sample(at: int, bytes: int)

  /** What is kept of one host; a baseline of zero means none yet. */
  datatype Meter = Meter(samples: seq<Sample>, base: real, last: Option<int>)

  const FRESH := Meter([], 0.0, None)

  /** Buf from its first sample at or after the cutoff; pruning stops there. */
  function PruneSamples(buf: seq<Sample>, cutoff: int): seq<Sample>
  {
    if buf == [] || buf[0].at >= cutoff then buf else PruneSamples(buf[1..], cutoff)
  }

  function Total(buf: seq<Sample>): int
  {
    if buf == [] then 0 else Total(buf[..|buf| - 1]) + buf[|buf| - 1].bytes
  }

  function Blend(base: real, total: int): real
  {
    if base == 0.0 then total as real else 0.8 * base + 0.2 * total as real
  }

  function Held(c: Settings, m: Meter, x: Sample): seq<Sample>
  {
    PruneSamples(m.samples + [x], x.at - c.window)
  }

  function Scaled(factor: real, x: real): real
  {
    factor * x
  }

  /** Above the floor, and a multiple of a baseline that was there before. */
  predicate Abnormal(c: Settings, base: real, total: int)
  {
    total >= c.floor && base != 0.0 && total as real >= Scaled(c.factor, base)
  }

  predicate Fires(c: Settings, m: Meter, x: Sample)
  {
    Abnormal(c, m.base, Total(Held(c, m, x))) && Rested(m.last, x.at, c.cooldown)
  }

  function Next(c: Settings, m: Meter, x: Sample): Meter
  {
    Meter(Held(c, m, x), Blend(m.base, Total(Held(c, m, x))), if Fires(c, m, x) then Some(x.at) else m.last)
  }

  function Follow(c: Settings, h: seq<Sample>): Meter
  {
    if h == [] then FRESH else Next(c, Follow(c, h[..|h| - 1]), h[|h| - 1])
  }

  // --- the detector as it runs -----------------------------------------------------

  class SumWindow {
    const window: int
    var events: map<string, seq<Sample>>

    constructor (window: int)
      ensures this.window == window && events == map[]
    {
      this.window := window;
      events := map[];
    }

    method Add(key: string, t: int, v: int) returns (total: int)
      modifies this
      ensures events == old(events)[key := PruneSamples(At(old(events), key) + [Sample(t, v)], t - window)]
      ensures total == Total(events[key])
    {
      var cutoff := t - window;
      var buf := At(events, key) + [Sample(t, v)];
      var i := 0;
      while i < |buf|
        invariant i <= |buf| && PruneSamples(buf[i..], cutoff) == PruneSamples(buf, cutoff)
      {
        if buf[i].at >= cutoff {
          break;
        }
        assert buf[i..][1..] == buf[i + 1..];
        i := i + 1;
      }
      buf := buf[i..];
      events := events[key := buf];
      total := 0;
      for j := 0 to |buf|
        invariant total == Total(buf[..j])
      {
        assert buf[..j + 1][..j] == buf[..j];
        total := total + buf[j].bytes;
      }
      assert buf[..|buf|] == buf;
    }
  }

  class ExfilDetector {
    const cfg: Settings
    const sum: SumWindow
    const cool: Cooldown
    var base: map<string, real>
    var evid: map<string, seq<string>>

    function BaseOf(host: string): real
      reads this
    {
      if host in base then base[host] else 0.0
    }

    ghost function MeterAt(host: string): Meter
      reads this, sum, cool
    {
      Meter(At(sum.events, host), BaseOf(host), cool.LastOf("exfil:" + host))
    }

    ghost predicate Valid()
      reads this
    {
      sum.window == cfg.window && cool.d == cfg.cooldown
    }

    constructor (cfg: Settings)
      ensures Valid() && this.cfg == cfg && evid == map[] && fresh(sum) && fresh(cool)
      ensures forall h :: MeterAt(h) == FRESH
    {
      this.cfg := cfg;
      sum := new SumWindow(cfg.window);
      cool := new Cooldown(cfg.cooldown);
      base, evid := map[], map[];
    }

    /** The meter of one host; true when its egress is reported. */
    method Measure(host: string, t: int, bytes: int) returns (fires: bool)
      requires Valid()
      modifies this`base, sum, cool
      ensures fires == Fires(cfg, old(MeterAt(host)), Sample(t, bytes))
      ensures MeterAt(host) == Next(cfg, old(MeterAt(host)), Sample(t, bytes))
      ensures forall h :: h != host ==> MeterAt(h) == old(MeterAt(h))
    {
      hide PruneSamples, Total;
      forall h | h != host ensures "exfil:" + h != "exfil:" + host {
        assert ("exfil:" + h)[6..] == h && ("exfil:" + host)[6..] == host;
      }
      var total := sum.Add(host, t, bytes);
      var was := BaseOf(host);
      base := base[host := if was == 0.0 then total as real else 0.8 * was + 0.2 * total as real];
      fires := false;
      if total < cfg.floor || was == 0.0 {
        return;
      }
      if total as real < cfg.factor * was {
        return;
      }
      fires := cool.Firable("exfil:" + host, t);
    }

    method Observe(e: Event) returns (d: Option<Detection>)
      requires Valid()
      modifies this, sum, cool
      ensures Valid()
      ensures e.bytesOut <= 0 || e.host == "" ==> d == None && forall h :: MeterAt(h) == old(MeterAt(h))
      ensures e.bytesOut > 0 && e.host != "" ==>
                var x, kept := Sample(e.timestamp, e.bytesOut), Tracks.KeepEvidence(At(old(evid), e.host), e.raw, cfg.evidenceMax);
                && MeterAt(e.host) == Next(cfg, old(MeterAt(e.host)), x)
                && (forall h :: h != e.host ==> MeterAt(h) == old(MeterAt(h)))
                && d.Some? == Fires(cfg, old(MeterAt(e.host)), x)
                && (d.Some? ==>
                     && d.value.kind == Exfil && d.value.severity == "high" && d.value.actor == d.value.target == e.host
                     && d.value.user == "" && d.value.count == 1 && d.value.firstAt == d.value.lastAt == e.timestamp
                     && d.value.evidence == kept && d.value.key == "exfil|" + e.host && Keyed(d.value))
                && evid == if d.Some? then old(evid) - {e.host} else old(evid)[e.host := kept]
    {
      hide Fires, Next, Tracks.KeepEvidence, Keyed;
      if e.bytesOut <= 0 || e.host == "" {
        return None;
      }
      evid := evid[e.host := Tracks.KeepEvidence(At(evid, e.host), e.raw, cfg.evidenceMax)];
      assert forall h :: MeterAt(h) == old(MeterAt(h));
      var fires := Measure(e.host, e.timestamp, e.bytesOut);
      if !fires {
        return None;
      }
      d := Some(Detection(Exfil, "high", e.host, e.host, "", "Abnormal egress from " + e.host, 1,
                          e.timestamp, e.timestamp, evid[e.host], "exfil|" + e.host));
      KeyedBy(d.value, "exfil|", e.host);
      ghost var now := MeterAt(e.host);
      evid := evid - {e.host};
      assert MeterAt(e.host) == now;
      assert evid == old(evid) - {e.host};
    }
  }

  // --- the sum is the sum over the whole history ---------------------------------------

  function Times(h: seq<Sample>): seq<int>
  {
    seq(|h|, i requires 0 <= i < |h| => h[i].at)
  }

  /** The order the times of a host's samples have to keep for its window to be exact. */
  ghost predicate Orderly(c: Settings, h: seq<Sample>)
  {
    Buffers.Orderly(Times(h), c.window)
  }

  /** The bytes of every sample at or after the cutoff. */
  function WindowTotal(h: seq<Sample>, cutoff: int): int
  {
    if h == [] then 0
    else WindowTotal(h[..|h| - 1], cutoff) + if h[|h| - 1].at >= cutoff then h[|h| - 1].bytes else 0
  }

  lemma {:induction false} PruneIsFirst(h: seq<Sample>, i: nat, cutoff: int)
    requires i <= |h|
    ensures PruneSamples(h[i..], cutoff) == h[Buffers.FirstFrom(Times(h), i, cutoff)..]
    decreases |h| - i
  {
    if i < |h| && h[i].at < cutoff {
      assert h[i..][1..] == h[i + 1..];
      PruneIsFirst(h, i + 1, cutoff);
    }
  }

  lemma TimesFront(h: seq<Sample>, n: nat)
    requires n <= |h|
    ensures Times(h[..n]) == Times(h)[..n]
  {
  }

  /** The samples held are the history from where the buffer of their times starts. */
  lemma {:induction false} FollowIsSuffix(c: Settings, h: seq<Sample>)
    ensures Follow(c, h).samples == h[Buffers.Start(Times(h), c.window)..]
  {
    hide *;
    if h == [] {
      NoSamples(c);
    } else {
      var front, x := h[..|h| - 1], h[|h| - 1];
      FollowIsSuffix(c, front);
      FollowMore(c, h);
      var s := Buffers.Start(Times(front), c.window);
      assert front[s..] + [x] == h[s..];
      PruneIsFirst(h, s, x.at - c.window);
    }
  }

  lemma NoSamples(c: Settings)
    ensures Follow(c, []).samples == [] && Buffers.Start(Times([]), c.window) == 0
  {
  }

  lemma FollowMore(c: Settings, h: seq<Sample>)
    requires h != []
    ensures var front, x := h[..|h| - 1], h[|h| - 1];
            && |Times(h)| == |h| && |Times(front)| == |front|
            && Follow(c, h).samples == PruneSamples(Follow(c, front).samples + [x], x.at - c.window)
            && Buffers.Start(Times(h), c.window) == Buffers.FirstFrom(Times(h), Buffers.Start(Times(front), c.window), x.at - c.window)
  {
    hide Fires, Blend, PruneSamples, Buffers.FirstFrom;
    TimesFront(h, |h| - 1);
  }

  lemma {:induction false} SuffixTotal(h: seq<Sample>, s: nat, cutoff: int)
    requires s <= |h| && forall i :: 0 <= i < |h| ==> (i >= s <==> h[i].at >= cutoff)
    ensures Total(h[s..]) == WindowTotal(h, cutoff)
  {
    if h != [] {
      var front := h[..|h| - 1];
      if s < |h| {
        assert h[s..][..|h[s..]| - 1] == front[s..];
        SuffixTotal(front, s, cutoff);
      } else {
        SuffixTotal(front, |front|, cutoff);
        assert h[s..] == front[|front|..];
      }
    }
  }

  lemma StartDivides(c: Settings, h: seq<Sample>, i: nat)
    requires i < |h| && Orderly(c, h)
    ensures i >= Buffers.Start(Times(h), c.window) <==> h[i].at >= h[|h| - 1].at - c.window
  {
    var ts := Times(h);
    Buffers.OrderlyIsHeld(ts, c.window);
    assert Buffers.HeldAt(ts, c.window, i);
    hide Buffers.Start, Buffers.Orderly, Orderly;
  }

  /** In an orderly history, the bytes held are those in the window. */
  lemma HeldTotal(c: Settings, h: seq<Sample>)
    requires h != [] && Orderly(c, h)
    ensures Total(Follow(c, h).samples) == WindowTotal(h, h[|h| - 1].at - c.window)
  {
    hide *;
    var s := Buffers.Start(Times(h), c.window);
    FollowIsSuffix(c, h);
    LengthOfTimes(h);
    forall i | 0 <= i < |h| ensures i >= s <==> h[i].at >= h[|h| - 1].at - c.window {
      StartDivides(c, h, i);
    }
    SuffixTotal(h, s, h[|h| - 1].at - c.window);
  }

  lemma LengthOfTimes(h: seq<Sample>)
    ensures |Times(h)| == |h|
  {
  }

  lemma OrderlyFront(c: Settings, h: seq<Sample>, n: nat)
    requires n <= |h| && Orderly(c, h)
    ensures Orderly(c, h[..n])
  {
    TimesFront(h, n);
    assert Times(h)[0..n] == Times(h)[..n];
    Buffers.OrderlyFront(Times(h), c.window, 0, n);
  }

  // --- the baseline is a mean of the totals before ---------------------------------------

  ghost predicate Positive(h: seq<Sample>)
  {
    forall i :: 0 <= i < |h| ==> h[i].bytes > 0
  }

  /** The bytes within the window up to sample i. */
  function TotalAt(c: Settings, h: seq<Sample>, i: nat): int
    requires i < |h|
  {
    WindowTotal(h[..i + 1], h[i].at - c.window)
  }

  lemma {:induction false} WindowPositive(h: seq<Sample>, cutoff: int)
    requires Positive(h)
    ensures WindowTotal(h, cutoff) >= 0
    ensures (forall i :: 0 <= i < |h| ==> h[i].at < cutoff) ==> WindowTotal(h, cutoff) == 0
  {
    if h != [] {
      WindowPositive(h[..|h| - 1], cutoff);
    }
  }

  /** A total is of no bytes exactly when the window shuts out the sample itself. */
  lemma TotalPositive(c: Settings, h: seq<Sample>)
    requires h != [] && Positive(h) && Orderly(c, h)
    ensures TotalAt(c, h, |h| - 1) >= 0
    ensures TotalAt(c, h, |h| - 1) == 0 <==> c.window < 0
  {
    var n := |h| - 1;
    var cutoff := h[n].at - c.window;
    assert h[..n + 1] == h;
    WindowPositive(h, cutoff);
    WindowPositive(h[..n], cutoff);
    if c.window < 0 {
      var ts := Times(h);
      assert !Buffers.In(ts, c.window, n, n);
      forall i | 0 <= i < |h| ensures h[i].at < cutoff {
        assert !Buffers.In(ts, c.window, i, n);
      }
    }
  }

  /** lo and hi bound every total of the history. */
  ghost predicate Within(c: Settings, h: seq<Sample>, lo: real, hi: real)
  {
    forall i :: 0 <= i < |h| ==> lo <= TotalAt(c, h, i) as real <= hi
  }

  /**
   * There is a baseline exactly after the first sample, unless the window is negative, and it lies
   * between the smallest and the largest total so far.
   */
  lemma {:induction false} BaselineBetween(c: Settings, h: seq<Sample>, lo: real, hi: real)
    requires Orderly(c, h) && Positive(h) && Within(c, h, lo, hi)
    ensures Follow(c, h).base == 0.0 <==> h == [] || c.window < 0
    ensures Follow(c, h).base >= 0.0
    ensures h != [] ==> lo <= Follow(c, h).base <= hi
  {
    hide Orderly;
    if h != [] {
      var n := |h| - 1;
      var front := h[..n];
      BaselineStep(c, h);
      TotalPositive(c, h);
      assert lo <= TotalAt(c, h, n) as real <= hi;
      FrontWithin(c, h, lo, hi);
      OrderlyFront(c, h, n);
      BaselineBetween(c, front, lo, hi);
      hide Follow, TotalAt, Blend, Within;
      BlendBetween(Follow(c, front).base, TotalAt(c, h, n), lo, hi);
    }
  }

  lemma FrontWithin(c: Settings, h: seq<Sample>, lo: real, hi: real)
    requires h != [] && Within(c, h, lo, hi)
    ensures Within(c, h[..|h| - 1], lo, hi)
  {
    hide WindowTotal;
    var front := h[..|h| - 1];
    forall i | 0 <= i < |front|
      ensures TotalAt(c, front, i) == TotalAt(c, h, i)
    {
      assert front[..i + 1] == h[..i + 1];
    }
  }

  /** The baseline blends in the total of the newest sample. */
  lemma BaselineStep(c: Settings, h: seq<Sample>)
    requires h != [] && Orderly(c, h)
    ensures Follow(c, h).base == Blend(Follow(c, h[..|h| - 1]).base, TotalAt(c, h, |h| - 1))
  {
    hide Fires, Blend, Held, PruneSamples, Total, WindowTotal, Orderly;
    assert h[..|h|] == h;
    HeldTotal(c, h);
  }

  /** Four fifths of the baseline before, again and again. */
  function Faded(x: real, n: nat): real
  {
    if n == 0 then x else 0.8 * Faded(x, n - 1)
  }

  /** What the totals from the second on add to the baseline after sample n: a fifth of each, faded since. */
  function FadedTotals(c: Settings, h: seq<Sample>, n: nat): real
    requires n < |h|
  {
    if n == 0 then 0.0 else 0.8 * FadedTotals(c, h, n - 1) + 0.2 * TotalAt(c, h, n) as real
  }

  lemma {:induction false} FadedFront(c: Settings, h: seq<Sample>, m: nat, n: nat)
    requires n < m <= |h|
    ensures FadedTotals(c, h[..m], n) == FadedTotals(c, h, n)
  {
    hide WindowTotal;
    assert h[..m][..n + 1] == h[..n + 1];
    if n > 0 {
      FadedFront(c, h, m, n - 1);
    }
  }

  /** The baseline is the first total faded at every sample since, and a fifth of each later one likewise. */
  lemma {:induction false} BaselineIsAverage(c: Settings, h: seq<Sample>)
    requires h != [] && Orderly(c, h) && Positive(h) && c.window >= 0
    ensures Follow(c, h).base == Faded(TotalAt(c, h, 0) as real, |h| - 1) + FadedTotals(c, h, |h| - 1)
  {
    hide Orderly, WindowTotal;
    var n := |h| - 1;
    var front := h[..n];
    BaselineStep(c, h);
    if n > 0 {
      OrderlyFront(c, h, n);
      BaselineIsAverage(c, front);
      FrontNotZero(c, front);
      assert front[..1] == h[..1];
      FadedFront(c, h, n, n - 1);
      hide Follow, TotalAt;
    }
  }

  lemma {:induction false} FrontNotZero(c: Settings, h: seq<Sample>)
    requires h != [] && Orderly(c, h) && Positive(h) && c.window >= 0
    ensures Follow(c, h).base > 0.0
  {
    hide Orderly, WindowTotal;
    var n := |h| - 1;
    BaselineStep(c, h);
    TotalPositive(c, h);
    if n > 0 {
      OrderlyFront(c, h, n);
      FrontNotZero(c, h[..n]);
    }
    hide Follow, TotalAt;
  }

  lemma BlendBetween(base: real, total: int, lo: real, hi: real)
    requires total >= 0 && lo <= total as real <= hi && base >= 0.0 && (base != 0.0 ==> lo <= base <= hi)
    ensures lo <= Blend(base, total) <= hi && Blend(base, total) >= 0.0
    ensures Blend(base, total) == 0.0 <==> base == 0.0 && total == 0
  {
  }

  /** A host reports exactly when its bytes in the window, counted over its whole history, stand out. */
  lemma ReportIff(c: Settings, h: seq<Sample>, x: Sample)
    requires Orderly(c, h + [x])
    ensures Fires(c, Follow(c, h), x) <==>
            Abnormal(c, Follow(c, h).base, WindowTotal(h + [x], x.at - c.window)) && Rested(Follow(c, h).last, x.at, c.cooldown)
  {
    assert (h + [x])[..|h|] == h && (h + [x])[|h|] == x;
    HeldTotal(c, h + [x]);
    hide Held, Abnormal, Rested, PruneSamples, Total, WindowTotal, Orderly;
    assert Follow(c, h + [x]) == Next(c, Follow(c, h), x);
  }

  /**
   * The first sample of a host is never reported, nor any when the window is negative. Another is
   * not while it stays below the factor times every total before it, and is once it reaches the
   * floor and the factor times each of them, if the host has rested. Lo and hi stand for the
   * totals: the factor, positive or not, is largest and smallest at the ends.
   */
  lemma SteadyIsSilentSurgeIsNot(c: Settings, h: seq<Sample>, x: Sample, lo: real, hi: real)
    requires Orderly(c, h + [x]) && Positive(h) && Within(c, h, lo, hi)
    ensures var total := WindowTotal(h + [x], x.at - c.window);
            && (h == [] || c.window < 0 || total < c.floor ==> !Fires(c, Follow(c, h), x))
            && (h != [] && Below(c.factor, total, lo) && Below(c.factor, total, hi) ==> !Fires(c, Follow(c, h), x))
            && (h != [] && c.window >= 0 && total >= c.floor && !Below(c.factor, total, lo) && !Below(c.factor, total, hi) ==>
                  (Fires(c, Follow(c, h), x) <==> Rested(Follow(c, h).last, x.at, c.cooldown)))
  {
    hide *;
    assert (h + [x])[..|h|] == h;
    OrderlyFront(c, h + [x], |h|);
    BaselineBetween(c, h, lo, hi);
    ReportIff(c, h, x);
    hide Fires, Follow;
    var total := WindowTotal(h + [x], x.at - c.window);
    Judged(c, Follow(c, h).base, total);
    if h != [] {
      BelowBetween(c.factor, total, lo, Follow(c, h).base, hi);
    }
  }

  predicate Below(factor: real, total: int, x: real)
  {
    total as real < Scaled(factor, x)
  }

  lemma Judged(c: Settings, base: real, total: int)
    ensures Abnormal(c, base, total) <==> total >= c.floor && base != 0.0 && !Below(c.factor, total, base)
  {
  }

  lemma BelowBetween(f: real, total: int, lo: real, x: real, hi: real)
    requires lo <= x <= hi
    ensures Below(f, total, lo) && Below(f, total, hi) ==> Below(f, total, x)
    ensures !Below(f, total, lo) && !Below(f, total, hi) ==> !Below(f, total, x)
  {
    if f >= 0.0 {
      assert Scaled(f, lo) <= Scaled(f, x) <= Scaled(f, hi);
    } else {
      assert Scaled(f, lo) >= Scaled(f, x) >= Scaled(f, hi);
    }
  }
}
