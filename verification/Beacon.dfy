/** Beaconing: connections to one endpoint at a suspiciously regular interval. Times are nanoseconds. */
module Beacon {
  import opened Wire
  import opened Events
  import opened Windows
  import opened Detections

  const SECOND: int := 1_000_000_000

  datatype Settings = Settings(minBeats: int, minGap: int, maxGap: int, maxCV: real, cooldown: int)

  predicate Sensible(c: Settings)
  {
    c.minBeats >= 1
  }

  // --- interval statistics ---------------------------------------------------------

  /** The interval that ends at beat i. */
  function Gap(ts: seq<int>, i: nat): real
    requires 0 < i < |ts|
  {
    (ts[i] - ts[i - 1]) as real
  }

  /** The sum of the first n intervals. */
  function GapSum(ts: seq<int>, n: nat): real
    requires n < |ts|
  {
    if n == 0 then 0.0 else GapSum(ts, n - 1) + Gap(ts, n)
  }

  function Square(x: real): real
  {
    x * x
  }

  /** The sum of the squared deviations of the first n intervals from mean. */
  function Deviation(ts: seq<int>, n: nat, mean: real): real
    requires n < |ts|
  {
    if n == 0 then 0.0 else Deviation(ts, n - 1, mean) + Square(Gap(ts, n) - mean)
  }

  function Mean(ts: seq<int>): real
    requires |ts| >= 2
  {
    GapSum(ts, |ts| - 1) / (|ts| - 1) as real
  }

  /** The mean interval is plausible, and the coefficient of variation is within bounds. */
  predicate Regular(c: Settings, ts: seq<int>)
    requires |ts| >= 2
  {
    var n, mean := (|ts| - 1) as real, Mean(ts);
    && c.minGap as real <= mean <= c.maxGap as real
    && 0.0 <= c.maxCV
    && Deviation(ts, |ts| - 1, mean) / n <= Square(c.maxCV) * Square(mean)
  }

  /** A single beat has no interval: its mean is not a number, and no test stops it. */
  predicate Passes(c: Settings, ts: seq<int>)
    requires ts != []
  {
    |ts| == 1 || Regular(c, ts)
  }

  // --- one endpoint -------------------------------------------------------------------

  datatype Beats = Beats(times: seq<int>, last: Option<int>)

  /** A flow within a second of the last beat is the same beat. */
  predicate SameBeat(ts: seq<int>, t: int)
  {
    ts != [] && t - ts[|ts| - 1] < SECOND
  }

  /** The last n entries. */
  function Tail(ts: seq<int>, n: int): seq<int>
    requires n >= 0
  {
    if |ts| > n then ts[|ts| - n..] else ts
  }

  function Extend(c: Settings, ts: seq<int>, t: int): seq<int>
    requires Sensible(c)
  {
    if SameBeat(ts, t) then ts else Tail(ts + [t], 2 * c.minBeats)
  }

  predicate Fires(c: Settings, b: Beats, t: int)
    requires Sensible(c)
  {
    && !SameBeat(b.times, t)
    && |Extend(c, b.times, t)| >= c.minBeats
    && Passes(c, Extend(c, b.times, t))
    && Rested(b.last, t, c.cooldown)
  }

  function Next(c: Settings, b: Beats, t: int): Beats
    requires Sensible(c)
  {
    if Fires(c, b, t) then Beats([], Some(t)) else b.(times := Extend(c, b.times, t))
  }

  // --- the detector as it runs ------------------------------------------------------------

  class BeaconDetector {
    const cfg: Settings
    const internal: string -> bool
    const cool: Cooldown
    var times: map<string, seq<int>>

    ghost function BeatsAt(k: string): Beats
      reads this, cool
    {
      Beats(At(times, k), cool.LastOf("beacon:" + k))
    }

    constructor (cfg: Settings, internal: string -> bool)
      ensures this.cfg == cfg && this.internal == internal && cool.d == cfg.cooldown && fresh(cool)
      ensures forall k :: BeatsAt(k) == Beats([], None)
    {
      this.cfg := cfg;
      this.internal := internal;
      cool := new Cooldown(cfg.cooldown);
      times := map[];
    }

    /** The mean interval of ts, and the sum of the squared deviations from it. */
    method Statistics(ts: seq<int>) returns (mean: real, varsum: real)
      requires |ts| >= 2
      ensures mean == Mean(ts) && varsum == Deviation(ts, |ts| - 1, mean)
    {
      var n := |ts| - 1;
      var sum := 0.0;
      var gaps: seq<real> := [];
      for i := 1 to |ts|
        invariant sum == GapSum(ts, i - 1)
        invariant |gaps| == i - 1 && forall j :: 0 <= j < i - 1 ==> gaps[j] == Gap(ts, j + 1)
      {
        var g := (ts[i] - ts[i - 1]) as real;
        gaps := gaps + [g];
        sum := sum + g;
      }
      mean := sum / n as real;
      varsum := 0.0;
      for i := 0 to |gaps|
        invariant varsum == Deviation(ts, i, mean)
      {
        varsum := varsum + (gaps[i] - mean) * (gaps[i] - mean);
      }
    }

    predicate Concerns(e: Event)
    {
      e.source == Netflow && e.srcIP != "" && e.dstIP != "" && internal(e.srcIP) && !internal(e.dstIP)
    }

    function PairOf(e: Event): string
    {
      e.srcIP + "|" + e.dstIP
    }

    /** One beat of a pair; true when it completes a beacon. */
    method Beat(key: string, t: int) returns (fires: bool, kept: seq<int>)
      requires Sensible(cfg) && cool.d == cfg.cooldown
      modifies this, cool
      ensures fires == Fires(cfg, old(BeatsAt(key)), t)
      ensures BeatsAt(key) == Next(cfg, old(BeatsAt(key)), t)
      ensures fires ==> kept == Extend(cfg, old(BeatsAt(key)).times, t)
      ensures forall k :: k != key ==> BeatsAt(k) == old(BeatsAt(k))
    {
      hide Regular, Rested, Mean, Deviation, GapSum, Gap, Square;
      fires, kept := false, At(times, key);
      if |kept| > 0 && t - kept[|kept| - 1] < SECOND {
        return;
      }
      kept := kept + [t];
      if |kept| > 2 * cfg.minBeats {
        kept := kept[|kept| - 2 * cfg.minBeats..];
      }
      times := times[key := kept];
      if |kept| < cfg.minBeats {
        return;
      }
      if |kept| > 1 {
        var mean, varsum := Statistics(kept);
        var regular := PassesTests(kept, mean, varsum);
        if !regular {
          return;
        }
      }
      fires := cool.Firable("beacon:" + key, t);
      if fires {
        times := times - {key};
      }
      forall k | k != key ensures BeatsAt(k) == old(BeatsAt(k)) {
        assert ("beacon:" + k)[7..] == k && ("beacon:" + key)[7..] == key;
      }
    }

    method PassesTests(ts: seq<int>, mean: real, varsum: real) returns (ok: bool)
      requires |ts| >= 2 && mean == Mean(ts) && varsum == Deviation(ts, |ts| - 1, mean)
      ensures ok == Regular(cfg, ts)
    {
      if mean < cfg.minGap as real || mean > cfg.maxGap as real {
        return false;
      }
      ok := 0.0 <= cfg.maxCV && varsum / (|ts| - 1) as real <= cfg.maxCV * cfg.maxCV * (mean * mean);
    }

    method Observe(e: Event) returns (r: Option<Detection>)
      requires Sensible(cfg) && cool.d == cfg.cooldown
      modifies this, cool
      ensures Concerns(e) <==> e.source == Netflow && e.srcIP != "" && e.dstIP != "" && internal(e.srcIP) && !internal(e.dstIP)
      ensures Concerns(e) ==>
                && r.Some? == Fires(cfg, old(BeatsAt(PairOf(e))), e.timestamp)
                && BeatsAt(PairOf(e)) == Next(cfg, old(BeatsAt(PairOf(e))), e.timestamp)
                && (r.Some? ==>
                     var ts := Extend(cfg, old(BeatsAt(PairOf(e))).times, e.timestamp);
                     && r.value.kind == Beaconing && r.value.severity == "high" && r.value.actor == e.srcIP && r.value.target == e.dstIP
                     && r.value.user == "" && r.value.count == |ts| && r.value.firstAt == ts[0] && r.value.lastAt == e.timestamp
                     && r.value.evidence == [e.raw] && r.value.key == "beacon|" + (e.srcIP + "|" + e.dstIP) && Keyed(r.value))
      ensures !Concerns(e) ==> r == None
      ensures forall k :: !Concerns(e) || k != PairOf(e) ==> BeatsAt(k) == old(BeatsAt(k))
    {
      hide Fires, Next, Extend, Keyed;
      r := None;
      if Concerns(e) {
        var fires, ts := Beat(PairOf(e), e.timestamp);
        if fires {
          FiringBeats(cfg, old(BeatsAt(PairOf(e))), e.timestamp);
          r := Some(Detection(Beaconing, "high", e.srcIP, e.dstIP, "", "Beaconing: " + e.srcIP + " calls " + e.dstIP,
                              |ts|, ts[0], e.timestamp, [e.raw], "beacon|" + PairOf(e)));
          KeyedBy(r.value, "beacon|", PairOf(e));
        }
      }
    }
  }

  lemma FiringBeats(c: Settings, b: Beats, t: int)
    requires Sensible(c) && Fires(c, b, t)
    ensures |Extend(c, b.times, t)| >= c.minBeats
  {
    hide Regular, Rested;
  }

  // --- what holds of every run of flows ----------------------------------------------------

  function FollowFrom(c: Settings, b: Beats, h: seq<int>): Beats
    requires Sensible(c)
  {
    if h == [] then b else Next(c, FollowFrom(c, b, h[..|h| - 1]), h[|h| - 1])
  }

  function Follow(c: Settings, h: seq<int>): Beats
    requires Sensible(c)
  {
    FollowFrom(c, Beats([], None), h)
  }

  ghost predicate Spaced(ts: seq<int>)
  {
    forall i :: 0 < i < |ts| ==> ts[i] - ts[i - 1] >= SECOND
  }

  /** In whatever order flows arrive, the kept beats are a second apart and at most twice the minimum. */
  lemma {:induction false} BeatsBounded(c: Settings, h: seq<int>)
    requires Sensible(c)
    ensures Spaced(Follow(c, h).times) && |Follow(c, h).times| <= 2 * c.minBeats
  {
    if h != [] {
      BeatsBounded(c, h[..|h| - 1]);
      ExtendSpaced(c, Follow(c, h[..|h| - 1]).times, h[|h| - 1]);
    }
  }

  lemma ExtendSpaced(c: Settings, ts: seq<int>, t: int)
    requires Sensible(c) && Spaced(ts) && |ts| <= 2 * c.minBeats
    ensures Spaced(Extend(c, ts, t)) && |Extend(c, ts, t)| <= 2 * c.minBeats
  {
    assert !SameBeat(ts, t) ==> Spaced(ts + [t]);
  }

  lemma {:induction false} GapsTelescope(ts: seq<int>, n: nat)
    requires n < |ts|
    ensures GapSum(ts, n) == (ts[n] - ts[0]) as real
  {
    if n > 0 {
      GapsTelescope(ts, n - 1);
    }
  }

  lemma {:induction false} OneOfTheSquares(ts: seq<int>, n: nat, i: nat, mean: real)
    requires 0 < i <= n < |ts|
    ensures Square(Gap(ts, i) - mean) <= Deviation(ts, n, mean)
  {
    hide Gap;
    SquarePositive(Gap(ts, n) - mean);
    hide Square;
    DeviationPositive(ts, n - 1, mean);
    if i < n {
      OneOfTheSquares(ts, n - 1, i, mean);
    }
  }

  lemma {:induction false} DeviationPositive(ts: seq<int>, n: nat, mean: real)
    requires n < |ts|
    ensures Deviation(ts, n, mean) >= 0.0
  {
    hide Gap, Square;
    if n > 0 {
      DeviationPositive(ts, n - 1, mean);
      SquarePositive(Gap(ts, n) - mean);
    }
  }

  /**
   * When a beacon is reported, the mean interval is the span of the kept beats divided by their
   * number less one and lies in the plausible range, and no interval strays from it by more than
   * the coefficient of variation allows for all of them together.
   */
  lemma FiringStatistics(c: Settings, b: Beats, t: int, i: nat)
    requires Sensible(c) && Fires(c, b, t)
    requires 0 < i < |Extend(c, b.times, t)|
    ensures var ts := Extend(c, b.times, t);
            var n := (|ts| - 1) as real;
            && Mean(ts) * n == (ts[|ts| - 1] - ts[0]) as real
            && c.minGap as real <= Mean(ts) <= c.maxGap as real
            && Square(Gap(ts, i) - Mean(ts)) <= n * (Square(c.maxCV) * Square(Mean(ts)))
  {
    hide Deviation, GapSum, Square, Gap, Extend, Mean, SameBeat, Rested;
    var ts := Extend(c, b.times, t);
    MeanIsSpan(ts);
    OneOfTheSquares(ts, |ts| - 1, i, Mean(ts));
    DivBound(Deviation(ts, |ts| - 1, Mean(ts)), (|ts| - 1) as real, Square(c.maxCV) * Square(Mean(ts)));
  }

  // --- the same by the times of the beats alone --------------------------------------------

  /** The sum of the first n intervals squared. */
  function Squares(ts: seq<int>, n: nat): int
    requires n < |ts|
  {
    if n == 0 then 0 else Squares(ts, n - 1) + (ts[n] - ts[n - 1]) * (ts[n] - ts[n - 1])
  }

  /**
   * Beats whose n intervals span s: their mean s / n is in the range, and their variance, which is the
   * mean of their squares less the square of their mean, at most the square of maxCV times the mean.
   */
  predicate IsSteady(c: Settings, ts: seq<int>)
    requires |ts| >= 2
  {
    var n, span := |ts| - 1, ts[|ts| - 1] - ts[0];
    && c.minGap * n <= span <= c.maxGap * n
    && c.maxCV >= 0.0
    && LittleSpread(c.maxCV, n, span, Squares(ts, n))
  }

  predicate LittleSpread(cv: real, n: nat, span: int, squares: int)
  {
    (n * squares - span * span) as real <= (cv * cv) * (span * span) as real
  }

  lemma Expanded(g: real, m: real)
    ensures Square(g - m) == Square(g) - 2.0 * (m * g) + Square(m)
  {
    assert (g - m) * (g - m) == g * g - g * m - m * g + m * m;
  }

  lemma Distributed(m: real, x: real, y: real)
    ensures m * (x + y) == m * x + m * y
  {
  }

  lemma IntSquare(x: int)
    ensures Square(x as real) == (x * x) as real
  {
  }

  lemma {:induction false} DeviationIs(ts: seq<int>, n: nat, m: real)
    requires n < |ts|
    ensures Deviation(ts, n, m) == Squares(ts, n) as real - 2.0 * (m * GapSum(ts, n)) + n as real * Square(m)
  {
    hide Square;
    if n == 0 {
      NoIntervals(m);
    } else {
      DeviationIs(ts, n - 1, m);
      hide Gap;
      GapSquared(ts, n);
      OneMoreSquare(Squares(ts, n - 1) as real, m, GapSum(ts, n - 1), (n - 1) as real, Gap(ts, n));
    }
  }

  lemma NoIntervals(m: real)
    ensures 0.0 - 2.0 * (m * 0.0) + 0.0 * Square(m) == 0.0
  {
  }

  lemma GapSquared(ts: seq<int>, n: nat)
    requires 0 < n < |ts|
    ensures Square(Gap(ts, n)) == ((ts[n] - ts[n - 1]) * (ts[n] - ts[n - 1])) as real
  {
    IntSquare(ts[n] - ts[n - 1]);
    hide Square;
  }

  lemma OneMoreSquare(s: real, m: real, sum: real, n: real, g: real)
    ensures s - 2.0 * (m * sum) + n * Square(m) + Square(g - m) == (s + Square(g)) - 2.0 * (m * (sum + g)) + (n + 1.0) * Square(m)
  {
    Expanded(g, m);
    Distributed(m, sum, g);
    hide Square;
    Distributed(Square(m), n, 1.0);
    assert n * Square(m) == Square(m) * n && (n + 1.0) * Square(m) == Square(m) * (n + 1.0) && Square(m) * 1.0 == Square(m);
  }

  /** The spread of n intervals of mean m, n^2 times over. */
  lemma Spread(n: real, m: real, span: real, squares: real, d: real)
    requires m * n == span && d == squares - 2.0 * (m * span) + n * Square(m)
    ensures n * d == n * squares - Square(span)
  {
    assert n * Square(m) == m * span;
    assert d == squares - m * span;
    Distributed(n, d, m * span);
    assert n * (m * span) == (m * n) * span;
  }

  lemma Scaled(n: real, m: real, span: real, squares: real, d: real, cv: real)
    requires n > 0.0 && m * n == span && d == squares - 2.0 * (m * span) + n * Square(m)
    ensures d / n <= cv * Square(m) <==> n * squares - Square(span) <= cv * Square(span)
  {
    Spread(n, m, span, squares, d);
    TimesSquare(n, m, cv);
    TimesQuotient(n, d);
    hide *;
    Cancelled(n, d / n, cv * Square(m));
    Cancelled(n, d, n * (cv * Square(m)));
  }

  lemma SquareOfProduct(m: real, n: real)
    ensures Square(m * n) == Square(n) * Square(m)
  {
    assert (m * n) * (m * n) == (n * n) * (m * m);
  }

  lemma TimesSquare(n: real, m: real, cv: real)
    ensures n * (n * (cv * Square(m))) == cv * Square(m * n)
  {
    SquareOfProduct(m, n);
    assert Square(n) == n * n;
    hide Square;
    var x := Square(m);
    Swapped(n, cv, x);
    Swapped(n, cv, n * x);
    assert n * (n * x) == (n * n) * x;
  }

  lemma Swapped(a: real, b: real, c: real)
    ensures a * (b * c) == b * (a * c)
  {
  }

  lemma TimesQuotient(n: real, d: real)
    requires n > 0.0
    ensures n * (d / n) == d
  {
  }

  lemma Cancelled(k: real, x: real, y: real)
    requires k > 0.0
    ensures x <= y <==> k * x <= k * y
  {
    if x <= y {
      assert k * (y - x) >= 0.0;
    } else {
      assert k * (x - y) > 0.0;
    }
  }

  lemma RegularParts(c: Settings, ts: seq<int>)
    requires |ts| >= 2
    ensures var n, m := (|ts| - 1) as real, Mean(ts);
            Regular(c, ts) <==>
              && c.minGap as real <= m <= c.maxGap as real && 0.0 <= c.maxCV
              && Deviation(ts, |ts| - 1, m) / n <= Square(c.maxCV) * Square(m)
  {
    hide Deviation, Mean, Square;
  }

  lemma SteadyParts(c: Settings, ts: seq<int>)
    requires |ts| >= 2
    ensures var n, span := (|ts| - 1) as real, (ts[|ts| - 1] - ts[0]) as real;
            IsSteady(c, ts) <==>
              && n * c.minGap as real <= span <= n * c.maxGap as real && 0.0 <= c.maxCV
              && n * Squares(ts, |ts| - 1) as real - Square(span) <= Square(c.maxCV) * Square(span)
  {
    var k, span := |ts| - 1, ts[|ts| - 1] - ts[0];
    SteadyRange(c.minGap, k, span);
    SteadyRange(c.maxGap, k, span);
    hide Squares, LittleSpread, Square;
    SteadySpread(c.maxCV, k, span, Squares(ts, k));
  }

  lemma SteadyRange(gap: int, k: nat, span: int)
    ensures gap * k <= span <==> k as real * gap as real <= span as real
    ensures span <= gap * k <==> span as real <= k as real * gap as real
  {
    ProductReal(k, gap);
  }

  lemma SteadySpread(cv: real, k: nat, span: int, squares: int)
    ensures LittleSpread(cv, k, span, squares) <==>
            k as real * squares as real - Square(span as real) <= Square(cv) * Square(span as real)
  {
    ProductReal(k, squares);
    IntSquare(span);
    assert Square(cv) == cv * cv;
    hide Square;
  }

  lemma RegularIff(c: Settings, ts: seq<int>)
    requires |ts| >= 2
    ensures Regular(c, ts) <==> IsSteady(c, ts)
  {
    hide *;
    var k, span := |ts| - 1, (ts[|ts| - 1] - ts[0]) as real;
    var n, m := k as real, Mean(ts);
    RegularParts(c, ts);
    SteadyParts(c, ts);
    MeanIsSpan(ts);
    GapsTelescope(ts, k);
    DeviationIs(ts, k, m);
    Scaled(n, m, span, Squares(ts, k) as real, Deviation(ts, k, m), Square(c.maxCV));
    InRange(n, m, span, c.minGap as real, c.maxGap as real);
  }

  lemma InRange(n: real, m: real, span: real, low: real, high: real)
    requires n > 0.0 && m * n == span
    ensures low <= m <= high <==> n * low <= span <= n * high
  {
    Cancelled(n, low, m);
    Cancelled(n, m, high);
    assert n * m == m * n;
  }

  lemma ProductReal(x: int, y: int)
    ensures (x * y) as real == x as real * y as real && y * x == x * y
  {
  }

  /** The beats that count once a flow has come at t: the last 2 minBeats of those before and itself. */
  function Counted(c: Settings, b: Beats, t: int): seq<int>
  {
    var all := b.times + [t];
    if 0 <= 2 * c.minBeats < |all| then all[|all| - 2 * c.minBeats..] else all
  }

  /**
   * A beacon is reported exactly when the flow is a second or more after the last beat, enough beats
   * count, they are steady or there is but one, and the pair has rested.
   */
  lemma FiresIff(c: Settings, b: Beats, t: int)
    requires Sensible(c)
    ensures Fires(c, b, t) <==>
            && (b.times == [] || t - b.times[|b.times| - 1] >= 1_000_000_000)
            && |Counted(c, b, t)| >= c.minBeats
            && (|Counted(c, b, t)| == 1 || IsSteady(c, Counted(c, b, t)))
            && (b.last.None? || t - b.last.value >= c.cooldown)
  {
    if |Counted(c, b, t)| >= 2 {
      RegularIff(c, Counted(c, b, t));
    }
    hide Regular, IsSteady;
  }

  lemma MeanIsSpan(ts: seq<int>)
    requires |ts| >= 2
    ensures Mean(ts) * (|ts| - 1) as real == (ts[|ts| - 1] - ts[0]) as real
  {
    hide GapSum;
    GapsTelescope(ts, |ts| - 1);
    MulDiv(GapSum(ts, |ts| - 1), (|ts| - 1) as real);
  }

  lemma MulDiv(x: real, n: real)
    requires n > 0.0
    ensures (x / n) * n == x
  {
  }

  lemma DivBound(d: real, n: real, bound: real)
    requires n > 0.0 && d / n <= bound
    ensures d <= n * bound
  {
    assert d == (d / n) * n;
  }

  // --- a perfectly regular stream --------------------------------------------------------------

  /** n beats, g apart, from t0. */
  function Ticks(t0: int, g: int, n: nat): seq<int>
  {
    seq(n, i requires 0 <= i < n => t0 + i * g)
  }

  lemma TicksSnoc(t0: int, g: int, n: nat)
    ensures Ticks(t0, g, n + 1) == Ticks(t0, g, n) + [t0 + n * g]
    ensures n > 0 ==> t0 + n * g - Ticks(t0, g, n)[n - 1] == g
  {
    assert n > 0 ==> n * g == (n - 1) * g + g;
  }

  lemma {:induction false} TicksStatistics(t0: int, g: int, m: nat, n: nat)
    requires n < m
    ensures GapSum(Ticks(t0, g, m), n) == (n * g) as real
    ensures Deviation(Ticks(t0, g, m), n, g as real) == 0.0
  {
    if n > 0 {
      TicksStatistics(t0, g, m, n - 1);
      var ts := Ticks(t0, g, m);
      assert ts[n] - ts[n - 1] == n * g - (n - 1) * g == g;
      assert Gap(ts, n) == g as real;
    }
  }

  lemma TicksRegular(c: Settings, t0: int, g: int, m: nat)
    requires m >= 2
    ensures Mean(Ticks(t0, g, m)) == g as real
    ensures Regular(c, Ticks(t0, g, m)) <==> c.minGap <= g <= c.maxGap && 0.0 <= c.maxCV
  {
    var ts, n := Ticks(t0, g, m), m - 1;
    TicksStatistics(t0, g, m, n);
    assert (n * g) as real == n as real * g as real;
    assert Mean(ts) == g as real;
    assert 0.0 <= Square(c.maxCV) * Square(g as real) by {
      SquarePositive(c.maxCV);
      SquarePositive(g as real);
    }
  }

  lemma SquarePositive(x: real)
    ensures Square(x) >= 0.0
  {
  }

  /**
   * Fed beats exactly g apart, a second or more, from no kept beats, the detector stays silent
   * through the beat before minBeats and keeps them all; at beat minBeats it fires if and only if g
   * is in range - one beat has no interval to be out of it - and the pair has rested since it last
   * fired, if it did.
   */
  lemma {:induction false} RegularStream(c: Settings, last: Option<int>, t0: int, g: int, n: nat)
    requires Sensible(c) && g >= SECOND && n < c.minBeats
    ensures FollowFrom(c, Beats([], last), Ticks(t0, g, n)) == Beats(Ticks(t0, g, n), last)
    ensures Fires(c, Beats(Ticks(t0, g, n), last), t0 + n * g) <==>
            n == c.minBeats - 1 && (n == 0 || (c.minGap <= g <= c.maxGap && 0.0 <= c.maxCV)) &&
            Rested(last, t0 + n * g, c.cooldown)
  {
    TickFires(c, last, t0, g, n);
    if n > 0 {
      RegularStream(c, last, t0, g, n - 1);
      TickFires(c, last, t0, g, n - 1);
      TickExtends(c, t0, g, n - 1);
      hide Fires, Extend, Rested;
    }
  }

  /** One more tick is one more beat, and none is dropped yet. */
  lemma TickExtends(c: Settings, t0: int, g: int, n: nat)
    requires Sensible(c) && g >= SECOND && n < c.minBeats
    ensures var ts := Ticks(t0, g, n);
            !SameBeat(ts, t0 + n * g) && Extend(c, ts, t0 + n * g) == Ticks(t0, g, n + 1)
    ensures var ts := Ticks(t0, g, n + 1); ts[..n] == Ticks(t0, g, n) && ts[n] == t0 + n * g
  {
    TicksSnoc(t0, g, n);
  }

  lemma TickFires(c: Settings, last: Option<int>, t0: int, g: int, n: nat)
    requires Sensible(c) && g >= SECOND && n < c.minBeats
    ensures Fires(c, Beats(Ticks(t0, g, n), last), t0 + n * g) <==>
            n == c.minBeats - 1 && (n == 0 || (c.minGap <= g <= c.maxGap && 0.0 <= c.maxCV)) &&
            Rested(last, t0 + n * g, c.cooldown)
  {
    TickExtends(c, t0, g, n);
    hide Extend, Ticks, Rested, Regular;
    if n > 0 {
      TicksRegular(c, t0, g, n + 1);
    }
  }
}
