/** Where the governor ends up when the network behaves: throughput grows in proportion to the
    connections up to a knee and is flat beyond it.  Wherever the knee is, a settled governor is
    between the start and the larger of start and twice the knee, nothing the cap allows would pay
    another threshold, and saturation is recorded only where it is. */
module Regimes {
  import opened Common
  import opened Governors
  import opened GovernorRuns
  import opened Plans

  /** `k` connections move `unit * min(k, knee)` bytes per nanosecond; the governor starts at
      `k0`. */
  datatype Regime = Regime(k0: nat, knee: nat, unit: real)

  function Useful(r: Regime, k: nat): real {
    Min(k, r.knee) as real
  }

  function Flow(r: Regime, k: nat): real {
    r.unit * Useful(r, k)
  }

  predicate Sane(cfg: Config, r: Regime) {
    && 0.0 < cfg.gainThreshold <= 1.0 && 0.0 <= cfg.saturationRatio < 1.0
    && 1 <= r.k0 <= cfg.maxConns && r.knee >= 1 && r.unit > 0.0
  }

  /** Within one gain threshold of everything the cap could give. */
  predicate NearTop(cfg: Config, r: Regime, k: nat) {
    (1.0 + cfg.gainThreshold) * Useful(r, k) > Useful(r, cfg.maxConns)
  }

  function Highest(r: Regime): nat {
    Max(r.k0, 2 * r.knee)
  }

  // ----- undisturbed samples -----

  /** No limit, no stall, no error, the token at hand, plenty of work left. */
  predicate Undisturbed(cfg: Config, s: Sample) {
    && s.rateLimited.None? && s.errors == 0 && !s.backpressure && s.token
    && s.remaining >= 4 * MIN_SEGMENT && MaxByWork(s.remaining) >= cfg.maxConns
  }

  /** Since the last sample, at `last`, exactly what the regime gives has arrived. */
  ghost predicate Steady(g: Gov, last: nat, s: Sample, r: Regime) {
    && s.now >= last && s.bytesTotal >= g.lastBytes
    && (s.bytesTotal - g.lastBytes) as real == Flow(r, g.k) * (s.now - last) as real
  }

  /** A whole run; the first sample may start from any byte count. */
  ghost predicate QuietRun(g: Gov, samples: seq<Sample>, r: Regime) {
    forall i :: 0 <= i < |samples| ==>
      && Undisturbed(g.cfg, samples[i])
      && (i > 0 ==> Steady(Run(g, samples[..i]), samples[i - 1].now, samples[i], r))
  }

  // ----- arithmetic of the verdicts -----

  lemma UsefulIsPositive(r: Regime, k: nat)
    requires r.knee >= 1 && k >= 1
    ensures 1.0 <= Useful(r, k) <= k as real
  {
  }

  lemma MulMono(c: real, x: real, y: real)
    requires c > 0.0
    ensures x <= y ==> c * x <= c * y
    ensures x < y ==> c * x < c * y
  {
  }

  /** More flow means more connections, starting from below the knee. */
  lemma MoreFlow(r: Regime, a: nat, b: nat)
    requires r.unit > 0.0 && Flow(r, a) < Flow(r, b)
    ensures a < b && a < r.knee
  {
  }

  lemma DivCompare(x: real, y: real, t: real)
    requires y > 0.0
    ensures x / y - 1.0 >= t <==> x >= (1.0 + t) * y
  {
    var q := x / y;
    assert x == q * y;
    if q >= 1.0 + t {
      MulMono(y, 1.0 + t, q);
    } else {
      MulMono(y, q, 1.0 + t);
    }
  }

  lemma Cancel(c: real, x: real, y: real)
    requires c > 0.0 && y > 0.0
    ensures c * y > 0.0 && (c * x) / (c * y) == x / y
  {
    var q := x / y;
    assert x == q * y;
    assert c * x == q * (c * y);
  }

  /** A level pays exactly when it is useful enough. */
  lemma GainIff(r: Regime, a: nat, b: nat, t: real)
    requires r.unit > 0.0 && r.knee >= 1 && a >= 1
    ensures Gain(Flow(r, a), Flow(r, b)) >= t <==> Useful(r, b) >= (1.0 + t) * Useful(r, a)
  {
    UsefulIsPositive(r, a);
    Cancel(r.unit, Useful(r, b), Useful(r, a));
    DivCompare(Useful(r, b), Useful(r, a), t);
  }

  lemma QuotientOfQuotients(x: real, y: real, l: real, b: real)
    requires x > 0.0 && y > 0.0 && l > 0.0 && b > 0.0
    ensures y / b > 0.0 && (x / l) / (y / b) == (x * b) / (l * y)
  {
    var p, q := x / l, y / b;
    assert x == p * l && y == q * b;
    assert q > 0.0;
    var z := p / q;
    assert p == z * q;
    assert x * b == z * (l * y) by {
      assert x * b == (z * q) * l * b;
      assert z * (l * y) == z * l * (q * b);
    }
    assert l * y > 0.0;
  }

  lemma SharesCompare(unit: real, x: real, y: real, l: real, b: real)
    requires unit > 0.0 && x > 0.0 && y > 0.0 && l > 0.0 && b > 0.0
    ensures unit * y / b > 0.0 && l * y > 0.0
    ensures (unit * x / l) / (unit * y / b) == (x * b) / (l * y)
  {
    MulMono(unit, 0.0, x);
    MulMono(unit, 0.0, y);
    QuotientOfQuotients(unit * x, unit * y, l, b);
    MulMono(l, 0.0, y);
    Cancel(unit, x * b, l * y);
    assert (unit * x) * b == unit * (x * b);
    assert l * (unit * y) == unit * (l * y);
  }

  /** Throughput per connection compares as the useful shares do. */
  lemma PerConnIs(r: Regime, a: nat, b: nat)
    requires r.unit > 0.0 && r.knee >= 1 && a >= 1 && b >= 1
    ensures b as real * Useful(r, a) > 0.0
    ensures PerConn(Level(a, Flow(r, a)), b, Flow(r, b)) == (Useful(r, b) * a as real) / (b as real * Useful(r, a))
  {
    hide Useful, PerConn;
    UsefulIsPositive(r, a);
    UsefulIsPositive(r, b);
    SharesCompare(r.unit, Useful(r, b), Useful(r, a), b as real, a as real);
    PerConnUnfolds(a, Flow(r, a), b, Flow(r, b));
  }

  lemma PerConnUnfolds(a: nat, base: real, b: nat, bps: real)
    requires a >= 1 && b >= 1 && base / a as real > 0.0
    ensures PerConn(Level(a, base), b, bps) == (bps / b as real) / (base / a as real)
  {
    var q := base / a as real;
    assert base == q * a as real;
    MulMono(q, 0.0, a as real);
  }

  lemma AtMostIff(x: real, y: real, t: real)
    requires y > 0.0
    ensures x / y <= t <==> x <= t * y
  {
    var q := x / y;
    assert x == q * y;
    if q <= t {
      MulMono(y, q, t);
    } else {
      MulMono(y, t, q);
    }
  }

  /** With `ua` useful of `a`, `ub` useful of `b`, and the knee at `n`. */
  lemma FlatShares(n: real, a: real, b: real, m: real, t: real, ua: real, ub: real)
    requires n > 0.0 && a > 0.0 && 0.0 < b <= m && 0.0 <= t < 1.0
    requires 0.0 < ua <= a && ub == (if b <= n then b else n)
    requires ub * a <= t * (b * ua)
    ensures n <= t * m
  {
    if b <= n {
      FlatBelowKnee(a, b, t, ua);
    } else {
      NonNegMono(t * b, ua, a);
      assert t * (b * ua) == (t * b) * ua;
      assert a * n <= a * (t * b);
      CancelLeft(a, n, t * b);
      NonNegMono(t, b, m);
    }
  }

  lemma NonNegMono(c: real, x: real, y: real)
    requires c >= 0.0 && x <= y
    ensures c * x <= c * y
  {
  }

  lemma FlatBelowKnee(a: real, b: real, t: real, ua: real)
    requires a > 0.0 && b > 0.0 && 0.0 <= t < 1.0 && 0.0 < ua <= a
    ensures b * a > t * (b * ua)
  {
    NonNegMono(t, ua, a);
    MulMono(a, t, 1.0);
    MulMono(b, t * ua, a);
    assert t * (b * ua) == b * (t * ua);
  }

  /** Saturation is only ever seen when the knee is well inside the cap. */
  lemma FlatMeansKnee(cfg: Config, r: Regime, a: nat, b: nat)
    requires Sane(cfg, r) && 1 <= a <= cfg.maxConns && 1 <= b <= cfg.maxConns
    requires PerConn(Level(a, Flow(r, a)), b, Flow(r, b)) <= cfg.saturationRatio
    ensures r.knee as real <= cfg.saturationRatio * cfg.maxConns as real
  {
    hide PerConn, Flow;
    PerConnIs(r, a, b);
    UsefulIsPositive(r, a);
    AtMostIff(Useful(r, b) * a as real, b as real * Useful(r, a), cfg.saturationRatio);
    FlatShares(r.knee as real, a as real, b as real, cfg.maxConns as real, cfg.saturationRatio, Useful(r, a), Useful(r, b));
  }

  lemma CancelLeft(c: real, x: real, y: real)
    requires c > 0.0 && c * x <= c * y
    ensures x <= y
  {
    if y < x {
      MulMono(c, y, x);
    }
  }

  /** What arrived over a window is the rate times its length. */
  lemma RateIs(moved: nat, elapsed: nat, rate: real)
    requires elapsed > 0 && moved as real == rate * elapsed as real
    ensures moved as real / elapsed as real == rate
  {
  }

  // ----- what an undisturbed run keeps -----

  /** A level as the regime measures it, within reach. */
  ghost predicate LevelOk(cfg: Config, r: Regime, l: Level) {
    l.bps == Flow(r, l.conns) && r.k0 <= l.conns <= Min(cfg.maxConns, Highest(r))
  }

  /** The open window has seen exactly the flow of the current level. */
  ghost predicate WindowOk(g: Gov, last: nat, r: Regime) {
    g.window.Some? ==>
      && g.window.value.started <= last && g.window.value.startBytes <= g.lastBytes
      && (g.lastBytes - g.window.value.startBytes) as real == Flow(r, g.k) * (last - g.window.value.started) as real
  }

  /** Climbing: every doubling so far paid. */
  ghost predicate Climbing(g: Gov, b: Level) {
    && g.ceiling == g.cfg.maxConns && g.k == Min(2 * b.conns, g.cfg.maxConns) && b.conns < g.k
    && g.mid.None? && g.best == Some(b) && !g.saturated
  }

  /** The top is in sight: nothing beyond can pay; a midpoint or a reprobe is being measured. */
  ghost predicate Levelled(g: Gov, r: Regime, b: Level) {
    && NearTop(g.cfg, r, b.conns) && NearTop(g.cfg, r, g.k) && g.best.Some?
    && (g.mid.Some? ==> g.mid.value == g.k && b.conns < g.k && (g.best == Some(b) || g.best.value.conns > g.k))
    && (g.mid.None? ==> g.best == Some(b))
  }

  ghost predicate RampOk(g: Gov, r: Regime) {
    && g.baseline.Some? && LevelOk(g.cfg, r, g.baseline.value)
    && g.k <= Max(2 * g.baseline.value.conns, g.baseline.value.conns + 2)
    && (Climbing(g, g.baseline.value) || Levelled(g, r, g.baseline.value))
  }

  ghost predicate SettledOk(g: Gov, r: Regime) {
    && NearTop(g.cfg, r, g.k) && g.k <= Highest(r) && g.mid.None?
    && g.best.Some? && g.best.value.conns >= g.k
  }

  /** Everything but the window. */
  ghost predicate LevelsOk(g: Gov, r: Regime) {
    && Sane(g.cfg, r) && r.k0 <= g.k <= g.ceiling <= g.cfg.maxConns
    && g.stop != RateLimited && g.stalls == 0 && !g.recentStall
    && (g.saturated ==> r.knee as real <= g.cfg.saturationRatio * g.cfg.maxConns as real)
    && (g.best.Some? ==> LevelOk(g.cfg, r, g.best.value))
    && match g.phase
       case Baseline => g.k == r.k0 && g.ceiling == g.cfg.maxConns && g.best.None? && g.mid.None? && !g.saturated
       case Ramp => RampOk(g, r)
       case Holding => SettledOk(g, r)
       case BackingOff => false
  }

  /** The state right after a window closed at level `g.k`: the best level knows about it. */
  ghost predicate JustMeasured(g: Gov, was: Option<Level>, r: Regime) {
    g.best == if was.None? || Flow(r, g.k) > was.value.bps then Some(Level(g.k, Flow(r, g.k))) else was
  }

  lemma CapIsNearTop(cfg: Config, r: Regime)
    requires Sane(cfg, r)
    ensures NearTop(cfg, r, cfg.maxConns)
  {
    hide Useful;
    UsefulIsPositive(r, cfg.maxConns);
    var u := Useful(r, cfg.maxConns);
    MulMono(u, 1.0, 1.0 + cfg.gainThreshold);
    assert (1.0 + cfg.gainThreshold) * u == u * (1.0 + cfg.gainThreshold);
  }

  /** Growing from a level that is its own baseline and the best so far. */
  lemma GrowKeeps(g: Gov, s: Sample, r: Regime)
    requires Sane(g.cfg, r) && r.k0 <= g.k <= g.ceiling == g.cfg.maxConns
    requires g.stop != RateLimited && g.stalls == 0 && !g.recentStall && !g.saturated && g.mid.None?
    requires g.k <= Highest(r) && g.phase == Ramp
    requires g.best == g.baseline == Some(Level(g.k, Flow(r, g.k)))
    requires Undisturbed(g.cfg, s)
    ensures LevelsOk(Grown(g, s).0, r) && Grown(g, s).0.window == (if Grown(g, s).1.SpawnTo? then None else g.window)
  {
    hide Flow, MaxByWork, Useful, NearTop;
    CapIsNearTop(g.cfg, r);
  }

  lemma NearTopGrows(cfg: Config, r: Regime, a: nat, b: nat)
    requires Sane(cfg, r) && a <= b && NearTop(cfg, r, a)
    ensures NearTop(cfg, r, b)
  {
    hide Useful;
    UsefulGrows(r, a, b);
    Outgrows(1.0 + cfg.gainThreshold, Useful(r, a), Useful(r, b), Useful(r, cfg.maxConns));
  }

  lemma UsefulGrows(r: Regime, a: nat, b: nat)
    requires a <= b
    ensures Useful(r, a) <= Useful(r, b)
  {
  }

  lemma Outgrows(t: real, x: real, y: real, z: real)
    requires t >= 0.0 && x <= y && t * x > z
    ensures t * y > z
  {
    NonNegMono(t, x, y);
  }

  /** Nothing beyond a level near the top can pay. */
  lemma NearTopIsFinal(cfg: Config, r: Regime, b: nat, k: nat)
    requires Sane(cfg, r) && 1 <= b && k <= cfg.maxConns && NearTop(cfg, r, b)
    ensures Gain(Flow(r, b), Flow(r, k)) < cfg.gainThreshold
  {
    hide Gain, Flow, Useful;
    GainIff(r, b, k, cfg.gainThreshold);
    UsefulGrows(r, k, cfg.maxConns);
  }

  /** A doubling, or a step to the cap, that does not pay puts the top in sight. */
  lemma FailedClimbIsNearTop(cfg: Config, r: Regime, b: nat, k: nat)
    requires Sane(cfg, r) && 1 <= b < k == Min(2 * b, cfg.maxConns)
    requires Gain(Flow(r, b), Flow(r, k)) < cfg.gainThreshold
    ensures NearTop(cfg, r, b)
  {
    hide Gain, Flow, Useful;
    GainIff(r, b, k, cfg.gainThreshold);
    UsefulCases(cfg, r, b, k);
    UsefulIsPositive(r, b);
    AtMostDouble(cfg.gainThreshold, Useful(r, b));
  }

  /** Below the knee a doubling doubles; at the cap or past the knee nothing is left to gain. */
  lemma UsefulCases(cfg: Config, r: Regime, b: nat, k: nat)
    requires k == Min(2 * b, cfg.maxConns)
    ensures Useful(r, k) == Useful(r, cfg.maxConns) || Useful(r, k) == Useful(r, b) + Useful(r, b)
  {
  }

  lemma AtMostDouble(t: real, x: real)
    requires 0.0 <= t <= 1.0 && x >= 0.0
    ensures (1.0 + t) * x <= x + x
  {
    NonNegMono(x, t, 1.0);
    assert (1.0 + t) * x == x + x * t;
  }

  /** A step that moved more bytes stays within twice the knee. */
  lemma PaidStepIsReachable(cfg: Config, r: Regime, b: nat, k: nat)
    requires Sane(cfg, r) && r.k0 <= b && k <= cfg.maxConns && k <= Max(2 * b, b + 2) && Flow(r, k) > Flow(r, b)
    ensures b < k && LevelOk(cfg, r, Level(k, Flow(r, k)))
  {
    MoreFlow(r, b, k);
  }

  lemma VerdictKeeps(g: Gov, r: Regime, b: Level, bps: real)
    requires Sane(g.cfg, r) && r.k0 <= g.k <= g.cfg.maxConns && LevelOk(g.cfg, r, b) && bps == Flow(r, g.k)
    requires g.saturated ==> r.knee as real <= g.cfg.saturationRatio * g.cfg.maxConns as real
    ensures var d := Disappointed(g, b, g.k, bps);
      && d == g.(saturated := d.saturated, stop := d.stop) && d.stop != RateLimited
      && (d.saturated ==> r.knee as real <= g.cfg.saturationRatio * g.cfg.maxConns as real)
  {
    hide Disappointed;
    DisappointedKeeps(g, b, g.k, bps);
    if PerConn(b, g.k, bps) <= g.cfg.saturationRatio {
      FlatMeansKnee(g.cfg, r, b.conns, g.k);
    }
  }

  /** Fields that a verdict, a midpoint and a settlement leave alone. */
  ghost predicate Calm(g: Gov, r: Regime) {
    && Sane(g.cfg, r) && g.stop != RateLimited && g.stalls == 0 && !g.recentStall
    && (g.saturated ==> r.knee as real <= g.cfg.saturationRatio * g.cfg.maxConns as real)
    && g.best.Some? && LevelOk(g.cfg, r, g.best.value)
  }

  lemma SettleKeeps(g: Gov, winner: nat, now: nat, r: Regime)
    requires Calm(g, r) && g.k <= g.ceiling <= g.cfg.maxConns
    requires r.k0 <= Min(winner, g.ceiling) <= g.best.value.conns
    requires winner <= Highest(r) && NearTop(g.cfg, r, Min(winner, g.ceiling))
    ensures LevelsOk(Settled(g, winner, g.k, now).0, r) && Settled(g, winner, g.k, now).0.window.None?
  {
    hide Flow, NearTop;
  }

  lemma MidpointKeeps(g: Gov, half: nat, now: nat, r: Regime)
    requires Calm(g, r) && g.phase == Ramp && g.k <= g.ceiling <= g.cfg.maxConns
    requires g.baseline.Some? && LevelOk(g.cfg, r, g.baseline.value)
    requires g.baseline.value.conns < half < g.k <= Max(2 * g.baseline.value.conns, g.baseline.value.conns + 2)
    requires NearTop(g.cfg, r, g.baseline.value.conns)
    requires g.best == g.baseline || g.best.value.conns == g.k
    ensures LevelsOk(Changed(g.(mid := Some(half)), half, now), r)
  {
    hide Flow, NearTop;
    NearTopGrows(g.cfg, r, g.baseline.value.conns, half);
  }

  /** What holds between closing a window in `Ramp` and the verdict; `was` was the best level
      before. */
  ghost predicate Weighed(g: Gov, was: Level, r: Regime) {
    && Calm(g, r) && r.k0 <= g.k <= g.ceiling <= g.cfg.maxConns && g.phase == Ramp && g.window.None?
    && LevelOk(g.cfg, r, was) && JustMeasured(g, Some(was), r)
    && RampOk(g.(best := Some(was)), r)
  }

  /** It paid: the climb goes on from here. */
  lemma {:induction false} PaidKeeps(g: Gov, was: Level, s: Sample, r: Regime)
    requires Weighed(g, was, r) && Undisturbed(g.cfg, s)
    requires Gain(g.baseline.value.bps, Flow(r, g.k)) >= g.cfg.gainThreshold
    ensures var n := Grown(g.(baseline := Some(Level(g.k, Flow(r, g.k))), mid := None), s).0;
      LevelsOk(n, r) && n.window.None?
  {
    hide Gain, NearTop, Flow, Useful;
    var b := g.baseline.value;
    if NearTop(g.cfg, r, b.conns) {
      NearTopIsFinal(g.cfg, r, b.conns, g.k);
    }
    PaidIsMore(r, b.conns, g.k, g.cfg);
    PaidStepIsReachable(g.cfg, r, b.conns, g.k);
    GrowKeeps(g.(baseline := Some(Level(g.k, Flow(r, g.k))), mid := None), s, r);
  }

  lemma PaidIsMore(r: Regime, a: nat, b: nat, cfg: Config)
    requires Sane(cfg, r) && a >= 1 && Gain(Flow(r, a), Flow(r, b)) >= cfg.gainThreshold
    ensures Flow(r, b) > Flow(r, a)
  {
    GainIff(r, a, b, cfg.gainThreshold);
    UsefulIsPositive(r, a);
    MulMono(Useful(r, a), 1.0, 1.0 + cfg.gainThreshold);
    MulMono(r.unit, Useful(r, a), Useful(r, b));
  }

  /** It did not pay, and the verdict is in: nothing beyond can pay. */
  ghost predicate Outdone(g: Gov, was: Level, r: Regime) {
    && Calm(g, r) && r.k0 <= g.k <= g.ceiling <= g.cfg.maxConns && g.phase == Ramp && g.window.None?
    && LevelOk(g.cfg, r, was) && JustMeasured(g, Some(was), r)
    && g.baseline.Some? && LevelOk(g.cfg, r, g.baseline.value)
    && g.k <= Max(2 * g.baseline.value.conns, g.baseline.value.conns + 2)
    && Levelled(g.(best := Some(was)), r, g.baseline.value)
  }

  lemma UnpaidIsNearTop(g: Gov, was: Level, r: Regime)
    requires Weighed(g, was, r)
    requires Gain(g.baseline.value.bps, Flow(r, g.k)) < g.cfg.gainThreshold
    ensures NearTop(g.cfg, r, g.baseline.value.conns) && NearTop(g.cfg, r, g.k)
  {
    hide Flow, Useful, NearTop, Gain;
    var b := g.baseline.value;
    if Climbing(g.(best := Some(was)), b) {
      FailedClimbIsNearTop(g.cfg, r, b.conns, g.k);
      NearTopGrows(g.cfg, r, b.conns, g.k);
    }
  }

  lemma UnpaidIsOutdone(g: Gov, was: Level, r: Regime)
    requires Weighed(g, was, r)
    requires Gain(g.baseline.value.bps, Flow(r, g.k)) < g.cfg.gainThreshold
    ensures Outdone(Disappointed(g, g.baseline.value, g.k, Flow(r, g.k)), was, r)
  {
    hide Disappointed, Flow, Useful, NearTop, Gain, Highest;
    UnpaidIsNearTop(g, was, r);
    VerdictKeeps(g, r, g.baseline.value, Flow(r, g.k));
  }

  /** The best level never lies below the one to settle on. */
  lemma BestIsAbove(g: Gov, was: Level, r: Regime)
    requires Outdone(g, was, r)
    ensures g.best.value.conns >= g.baseline.value.conns
    ensures g.mid.Some? && Flow(r, g.k) > g.baseline.value.bps ==> g.best.value.conns >= g.k && g.k <= Highest(r)
    ensures g.mid.None? ==> g.best == g.baseline || g.best.value.conns == g.k
  {
    hide Flow, Useful, NearTop;
    var b := g.baseline.value;
    if Flow(r, g.k) > was.bps {
      MoreFlow(r, was.conns, g.k);
    }
    if Flow(r, g.k) > b.bps {
      PaidStepIsReachable(g.cfg, r, b.conns, g.k);
    }
  }

  lemma WinnerIsFine(g: Gov, was: Level, r: Regime)
    requires Outdone(g, was, r)
    ensures var winner := Winner(g, g.baseline.value, Flow(r, g.k));
      && r.k0 <= Min(winner, g.ceiling) <= g.best.value.conns
      && winner <= Highest(r) && NearTop(g.cfg, r, Min(winner, g.ceiling))
  {
    hide Flow, Useful, NearTop;
    BestIsAbove(g, was, r);
    NearTopGrows(g.cfg, r, g.k, g.ceiling);
  }

  lemma UnpaidSettles(g: Gov, was: Level, now: nat, r: Regime)
    requires Outdone(g, was, r)
    ensures var n := Settled(g, Winner(g, g.baseline.value, Flow(r, g.k)), g.k, now).0;
      LevelsOk(n, r) && n.window.None?
  {
    hide Flow, Useful, NearTop, Settled, LevelsOk, Levelled, Winner;
    WinnerIsFine(g, was, r);
    SettleKeeps(g, Winner(g, g.baseline.value, Flow(r, g.k)), now, r);
  }

  lemma UnpaidHalves(g: Gov, was: Level, now: nat, r: Regime)
    requires Outdone(g, was, r) && g.mid.None?
    requires g.baseline.value.conns < (g.baseline.value.conns + g.k) / 2 < g.k
    ensures var half := (g.baseline.value.conns + g.k) / 2;
      LevelsOk(Changed(g.(mid := Some(half)), half, now), r)
  {
    hide Flow, Useful, NearTop, Changed, LevelsOk;
    BestIsAbove(g, was, r);
    MidpointKeeps(g, (g.baseline.value.conns + g.k) / 2, now, r);
  }

  /** The two ways on from a verdict. */
  lemma UnpaidIs(g: Gov, bps: real, s: Sample)
    requires g.baseline.Some? && Gain(g.baseline.value.bps, bps) < g.cfg.gainThreshold
    ensures var b := g.baseline.value;
      var d := Disappointed(g, b, g.k, bps);
      var half := (b.conns + g.k) / 2;
      && d.baseline == g.baseline && d.k == g.k && d.mid == g.mid
      && Judged(g, g.k, bps, s).0 ==
        if d.mid.Some? || !(b.conns < half < d.k) then Settled(d, Winner(d, b, bps), d.k, s.now).0
        else Changed(d.(mid := Some(half)), half, s.now)
  {
    hide Gain, Disappointed, Changed, Settled, Grown;
    DisappointedKeeps(g, g.baseline.value, g.k, bps);
  }

  lemma UnpaidKeeps(g: Gov, was: Level, s: Sample, r: Regime)
    requires Weighed(g, was, r)
    requires Gain(g.baseline.value.bps, Flow(r, g.k)) < g.cfg.gainThreshold
    ensures var n := Judged(g, g.k, Flow(r, g.k), s).0;
      LevelsOk(n, r) && n.window.None?
  {
    hide Gain, Disappointed, Flow, Useful, NearTop, Settled, LevelsOk, Winner, Judged, Outdone, Climbing, Levelled, JustMeasured;
    var b := g.baseline.value;
    var d, half := Disappointed(g, b, g.k, Flow(r, g.k)), (b.conns + g.k) / 2;
    UnpaidIs(g, Flow(r, g.k), s);
    UnpaidIsOutdone(g, was, r);
    if d.mid.None? && b.conns < half < g.k {
      UnpaidHalves(d, was, s.now, r);
    } else {
      UnpaidSettles(d, was, s.now, r);
    }
  }

  lemma JudgeKeeps(g: Gov, was: Level, s: Sample, r: Regime)
    requires Weighed(g, was, r) && Undisturbed(g.cfg, s)
    ensures var n := Judged(g, g.k, Flow(r, g.k), s).0;
      LevelsOk(n, r) && n.window.None?
  {
    hide Gain, Disappointed, Flow, Useful, NearTop, Grown, LevelsOk, Settled, Climbing, Levelled, JustMeasured;
    if Gain(g.baseline.value.bps, Flow(r, g.k)) >= g.cfg.gainThreshold {
      PaidKeeps(g, was, s, r);
    } else {
      UnpaidKeeps(g, was, s, r);
    }
  }

  // ----- a whole observation -----

  /** A closing window has measured the flow of the current level. */
  lemma ClosingMeasuresFlow(g: Gov, last: nat, s: Sample, r: Regime)
    requires WindowOk(g, last, r) && Steady(g, last, s, r)
    requires !TooEarly(Noted(g, s), s)
    ensures g.window.Some? && Rate(Noted(g, s), s) == Flow(r, g.k)
  {
    hide Flow, EffectiveDwell;
    assert g.window.Some?;
    var w := g.window.value;
    RateIs(Since(s.bytesTotal, w.startBytes), Since(s.now, w.started), Flow(r, g.k));
  }

  /** A window that stays open goes on seeing the flow. */
  lemma WaitingKeepsWindow(g: Gov, last: nat, s: Sample, r: Regime)
    requires WindowOk(g, last, r) && (g.window.Some? ==> Steady(g, last, s, r))
    ensures WindowOk(Noted(g, s), s.now, r)
    ensures WindowOk(Noted(g, s).(window := Some(WindowAt(Noted(g, s), s))), s.now, r)
  {
    hide Flow;
  }

  lemma BaselineKeeps(g: Gov, s: Sample, r: Regime)
    requires LevelsOk(g, r) && g.phase == Baseline && Undisturbed(g.cfg, s) && g.lastBytes == s.bytesTotal
    ensures var n := Grown(Closed(g, s, Flow(r, g.k)).(baseline := Some(Level(g.k, Flow(r, g.k))), phase := Ramp), s).0;
      LevelsOk(n, r) && n.window.None?
  {
    hide Flow, Useful, NearTop, Grown;
    GrowKeeps(Closed(g, s, Flow(r, g.k)).(baseline := Some(Level(g.k, Flow(r, g.k))), phase := Ramp), s, r);
  }

  lemma ClosedIsCalm(g: Gov, s: Sample, r: Regime)
    requires LevelsOk(g, r) && g.phase == Ramp
    ensures g.best.Some? && LevelOk(g.cfg, r, g.best.value)
    ensures Calm(Closed(g, s, Flow(r, g.k)), r)
  {
    hide Flow, Useful, NearTop, LevelOk;
    if Flow(r, g.k) > g.best.value.bps {
      BetterIsReachable(g, r);
    }
  }

  lemma ClosedIsWeighed(g: Gov, s: Sample, r: Regime)
    requires LevelsOk(g, r) && g.phase == Ramp
    ensures g.best.Some? && Weighed(Closed(g, s, Flow(r, g.k)), g.best.value, r)
  {
    hide Flow, Useful, NearTop, RampOk, LevelOk, Calm;
    ClosedIsCalm(g, s, r);
    RampIgnoresClocks(g, Closed(g, s, Flow(r, g.k)).(best := g.best), r);
  }

  /** Only the levels matter to the climb. */
  lemma RampIgnoresClocks(g: Gov, h: Gov, r: Regime)
    requires RampOk(g, r)
    requires h.cfg == g.cfg && h.k == g.k && h.ceiling == g.ceiling && h.mid == g.mid && h.saturated == g.saturated
    requires h.best == g.best && h.baseline == g.baseline
    ensures RampOk(h, r)
  {
    hide Flow, Useful, NearTop, LevelOk;
  }

  lemma NotedKeeps(g: Gov, s: Sample, r: Regime)
    requires LevelsOk(g, r) && Undisturbed(g.cfg, s)
    ensures LevelsOk(Noted(g, s), r)
  {
    hide Flow, Useful, NearTop, RampOk, LevelOk;
    if g.phase == Ramp {
      RampIgnoresClocks(g, Noted(g, s), r);
    }
  }

  lemma BetterIsReachable(g: Gov, r: Regime)
    requires LevelsOk(g, r) && g.phase == Ramp && Flow(r, g.k) > g.best.value.bps
    ensures LevelOk(g.cfg, r, Level(g.k, Flow(r, g.k)))
  {
    hide Useful, NearTop;
    MoreFlow(r, g.best.value.conns, g.k);
    assert g.best == g.baseline;
    PaidStepIsReachable(g.cfg, r, g.baseline.value.conns, g.k);
  }

  lemma MeasuringKeeps(g: Gov, last: nat, s: Sample, r: Regime)
    requires LevelsOk(g, r) && WindowOk(g, last, r) && Exploring(g)
    requires Undisturbed(g.cfg, s) && (g.window.Some? ==> Steady(g, last, s, r))
    ensures var n := Measured(Noted(g, s), s).0;
      LevelsOk(n, r) && WindowOk(n, s.now, r)
  {
    var h := Noted(g, s);
    NotedKeeps(g, s, r);
    WaitingKeepsWindow(g, last, s, r);
    if Closes(h, s) {
      hide Flow, Useful, NearTop, Warming, TooEarly, Undisturbed, RampOk, LevelsOk;
      OnlyOpenWindowsClose(g, s);
      ClosingMeasuresFlow(g, last, s, r);
      ClosingKeeps(h, s, r);
    } else {
      OpenKeeps(h, s, r);
      hide Flow, Useful, NearTop, Grown, Judged, Warming, TooEarly, RampOk, LevelsOk, Undisturbed, Steady;
    }
  }

  lemma OpenKeeps(g: Gov, s: Sample, r: Regime)
    requires LevelsOk(g, r)
    ensures LevelsOk(g.(window := Some(WindowAt(g, s))), r)
  {
    hide Flow, Useful, NearTop, RampOk, LevelOk;
    if g.phase == Ramp {
      RampIgnoresClocks(g, g.(window := Some(WindowAt(g, s))), r);
    }
  }

  lemma ClosingKeeps(g: Gov, s: Sample, r: Regime)
    requires LevelsOk(g, r) && Exploring(g) && Undisturbed(g.cfg, s) && g.lastBytes == s.bytesTotal
    requires Closes(g, s) && Rate(g, s) == Flow(r, g.k)
    ensures LevelsOk(Measured(g, s).0, r) && Measured(g, s).0.window.None?
  {
    hide Flow, Useful, NearTop, Warming, TooEarly, Undisturbed, Grown, Judged, Rate, RampOk, LevelsOk;
    if g.phase == Baseline {
      BaselineKeeps(g, s, r);
    } else {
      ClosedIsWeighed(g, s, r);
      JudgeKeeps(Closed(g, s, Flow(r, g.k)), g.best.value, s, r);
    }
  }

  lemma OnlyOpenWindowsClose(g: Gov, s: Sample)
    requires Closes(Noted(g, s), s)
    ensures g.window.Some?
  {
    hide EffectiveDwell;
  }

  lemma ReprobingKeeps(g: Gov, s: Sample, r: Regime)
    requires LevelsOk(g, r) && g.phase == Holding && Undisturbed(g.cfg, s)
    ensures LevelsOk(Reprobed(g, s).0, r)
    ensures Reprobed(g, s).0.window == g.window || Reprobed(g, s).0.window.None?
  {
    hide Flow, Useful, NearTop;
    var best := g.best.value;
    var next := Min(g.k + 2, GrowthLimit(g, s));
    NearTopGrows(g.cfg, r, g.k, best.conns);
    if next > g.k {
      NearTopGrows(g.cfg, r, g.k, next);
    }
  }

  lemma ObservingKeeps(g: Gov, last: nat, s: Sample, r: Regime)
    requires LevelsOk(g, r) && WindowOk(g, last, r)
    requires Undisturbed(g.cfg, s) && (g.window.Some? ==> Steady(g, last, s, r))
    ensures LevelsOk(After(g, s), r) && WindowOk(After(g, s), s.now, r)
  {
    hide Flow, Useful, NearTop, Measured, Reprobed, LevelsOk, Undisturbed, Observed;
    MeasureOrReprobe(g, s, r);
    if g.phase == Holding {
      NotedKeeps(g, s, r);
      ReprobingKeeps(Noted(g, s), s, r);
      WaitingKeepsWindow(g, last, s, r);
      ReprobedWindow(Noted(g, s), s);
    } else {
      MeasuringKeeps(g, last, s, r);
    }
  }

  lemma MeasureOrReprobe(g: Gov, s: Sample, r: Regime)
    requires LevelsOk(g, r) && Undisturbed(g.cfg, s)
    ensures After(g, s) == if g.phase == Holding then Reprobed(Noted(g, s), s).0 else Measured(Noted(g, s), s).0
    ensures g.phase == Holding || Exploring(g)
  {
    hide Flow, Useful, NearTop, Measured, Reprobed;
  }

  lemma ReprobedWindow(g: Gov, s: Sample)
    ensures Reprobed(g, s).0 == g || Reprobed(g, s).0.window.None?
  {
  }

  ghost function LastTime(start: nat, samples: seq<Sample>): nat {
    if |samples| == 0 then start else samples[|samples| - 1].now
  }

  lemma QuietPrefix(g: Gov, samples: seq<Sample>, r: Regime)
    requires QuietRun(g, samples, r) && |samples| > 0
    ensures QuietRun(g, samples[..|samples| - 1], r)
  {
    hide Observed, Undisturbed, Steady;
    var before := samples[..|samples| - 1];
    forall i | 0 <= i < |before|
      ensures Undisturbed(g.cfg, before[i])
      ensures i > 0 ==> Steady(Run(g, before[..i]), before[i - 1].now, before[i], r)
    {
      assert before[..i] == samples[..i];
      assert Undisturbed(g.cfg, samples[i]);
      assert i > 0 ==> Steady(Run(g, samples[..i]), samples[i - 1].now, samples[i], r);
    }
  }

  lemma {:induction false} QuietRunKeeps(cfg: Config, r: Regime, start: nat, samples: seq<Sample>)
    requires Sane(cfg, r) && QuietRun(Created(cfg, r.k0, start), samples, r)
    ensures var g := Run(Created(cfg, r.k0, start), samples);
      LevelsOk(g, r) && WindowOk(g, LastTime(start, samples), r) && g.cfg == cfg
    decreases |samples|
  {
    var g := Created(cfg, r.k0, start);
    RunIsSafe(g, samples);
    if |samples| > 0 {
      var n := |samples| - 1;
      RunIsSafe(g, samples[..n]);
      QuietPrefix(g, samples, r);
      QuietRunKeeps(cfg, r, start, samples[..n]);
      assert Undisturbed(cfg, samples[n]);
      assert n > 0 ==> Steady(Run(g, samples[..n]), samples[n - 1].now, samples[n], r);
      assert n == 0 ==> samples[..n] == [];
      hide Observed, Undisturbed, Steady, LevelsOk;
      ObservingKeeps(Run(g, samples[..n]), LastTime(start, samples[..n]), samples[n], r);
    }
  }

  /** What the invariant says of a governor at rest. */
  ghost predicate AtRest(cfg: Config, r: Regime, g: Gov) {
    && g.phase != BackingOff
    && (g.phase == Holding ==> r.k0 <= g.k <= Max(r.k0, 2 * r.knee) && g.k <= cfg.maxConns)
    && (g.phase == Holding ==>
          (1.0 + cfg.gainThreshold) * Min(g.k, r.knee) as real > Min(cfg.maxConns, r.knee) as real)
    && (g.saturated ==> r.knee as real <= cfg.saturationRatio * cfg.maxConns as real)
  }

  lemma LevelsAtRest(g: Gov, r: Regime)
    requires LevelsOk(g, r)
    ensures AtRest(g.cfg, r, g)
  {
    hide RampOk, LevelOk;
  }

  /** Wherever the knee lies: whenever the governor has settled, it has not fallen below where it
      started nor climbed past twice the knee, and nothing the cap allows would pay another
      gain threshold; saturation is recorded only if the knee is within the saturation share of
      the cap. */
  lemma {:induction false} SettlesNearTheKnee(cfg: Config, r: Regime, start: nat, samples: seq<Sample>)
    requires Sane(cfg, r) && QuietRun(Created(cfg, r.k0, start), samples, r)
    ensures AtRest(cfg, r, Run(Created(cfg, r.k0, start), samples))
  {
    hide Observed, Undisturbed, Steady, QuietRun, Run, LevelsOk, AtRest;
    QuietRunKeeps(cfg, r, start, samples);
    LevelsAtRest(Run(Created(cfg, r.k0, start), samples), r);
  }

  /** A per-connection cap: as long as every connection adds its share, saturation is never seen
      and the governor settles within one gain threshold of the cap. */
  lemma {:induction false} PerConnectionCapIsClimbed(cfg: Config, r: Regime, start: nat, samples: seq<Sample>)
    requires Sane(cfg, r) && r.knee >= cfg.maxConns && QuietRun(Created(cfg, r.k0, start), samples, r)
    ensures var g := Run(Created(cfg, r.k0, start), samples);
      && !g.saturated
      && (g.phase == Holding ==> g.k >= r.k0 && (1.0 + cfg.gainThreshold) * g.k as real > cfg.maxConns as real)
  {
    hide Sane, QuietRun, Run, Created, AtRest;
    SettlesNearTheKnee(cfg, r, start, samples);
    UncappedAtRest(cfg, r, Run(Created(cfg, r.k0, start), samples));
  }

  lemma ShareIsLess(n: real, t: real, m: real)
    requires 0.0 <= t < 1.0 && 0.0 < m <= n
    ensures t * m < n
  {
    MulMono(m, t, 1.0);
  }

  lemma UncappedAtRest(cfg: Config, r: Regime, g: Gov)
    requires Sane(cfg, r) && r.knee >= cfg.maxConns && AtRest(cfg, r, g)
    ensures !g.saturated
    ensures g.phase == Holding ==> g.k >= r.k0 && (1.0 + cfg.gainThreshold) * g.k as real > cfg.maxConns as real
  {
    ShareIsLess(r.knee as real, cfg.saturationRatio, cfg.maxConns as real);
    if g.phase == Holding {
      assert Min(g.k, r.knee) == g.k && Min(cfg.maxConns, r.knee) == cfg.maxConns;
    }
  }
}
