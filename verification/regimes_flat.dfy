/** The governor on a flat network: one connection fewer or more makes no difference.  It settles
    where it started, and records saturation exactly if its first step looks like the same rate
    shared out anew; with room to double at the start it is then left alone for good. */
module FlatRegimes {
  import opened Common
  import opened Governors
  import opened GovernorRuns
  import opened Regimes

  /** More connections never help: the knee is at or below the start. */
  predicate Flat(r: Regime) {
    r.knee <= r.k0
  }

  /** The first step up. */
  function FirstStep(cfg: Config, r: Regime): nat {
    Min(2 * r.k0, cfg.maxConns)
  }

  /** Whether that step looks like resharing a fixed pipe. */
  predicate LooksSaturated(cfg: Config, r: Regime) {
    r.k0 < cfg.maxConns && r.k0 as real <= cfg.saturationRatio * FirstStep(cfg, r) as real
  }

  /** On a flat network only the start level is ever a baseline or the best. */
  ghost predicate FlatOk(g: Gov, r: Regime) {
    && (g.best.Some? ==> g.best.value.conns == r.k0) && (g.baseline.Some? ==> g.baseline.value.conns == r.k0)
    && match g.phase
       case Baseline => true
       case Ramp => g.baseline.Some? && r.k0 < g.k <= FirstStep(g.cfg, r) &&
         (Climbing(g, g.baseline.value) || (g.saturated <==> LooksSaturated(g.cfg, r)))
       case Holding => g.k == r.k0 && g.ceiling <= FirstStep(g.cfg, r) && (g.saturated <==> LooksSaturated(g.cfg, r))
       case BackingOff => false
  }

  lemma FlatUseful(r: Regime, a: nat, b: nat)
    requires Flat(r) && a >= r.k0 && b >= r.k0
    ensures Useful(r, a) == Useful(r, b)
  {
  }

  lemma FlatFlow(r: Regime, a: nat, b: nat)
    requires Flat(r) && a >= r.k0 && b >= r.k0
    ensures Flow(r, a) == Flow(r, b)
  {
  }

  lemma RatioIff(u: real, a: real, b: real, t: real)
    requires u > 0.0 && b > 0.0
    ensures b * u > 0.0 && ((u * a) / (b * u) <= t <==> a <= t * b)
  {
    Cancel(u, a, b);
    AtMostIff(a, b, t);
  }

  /** On a flat network the share per connection is the ratio of the levels. */
  lemma FlatPerConn(cfg: Config, r: Regime, k: nat)
    requires Sane(cfg, r) && Flat(r) && k >= r.k0
    ensures PerConn(Level(r.k0, Flow(r, r.k0)), k, Flow(r, k)) <= cfg.saturationRatio <==>
      r.k0 as real <= cfg.saturationRatio * k as real
  {
    hide PerConn, Flow;
    PerConnIs(r, r.k0, k);
    var u := Useful(r, r.k0);
    assert Useful(r, k) == u == r.knee as real;
    hide Useful;
    RatioIff(u, r.k0 as real, k as real, cfg.saturationRatio);
  }

  lemma FlatNeverPays(g: Gov, r: Regime)
    requires Sane(g.cfg, r) && Flat(r) && g.k >= r.k0
    ensures Gain(Flow(r, r.k0), Flow(r, g.k)) < g.cfg.gainThreshold
  {
    hide Gain, Flow, Useful;
    FlatFlow(r, r.k0, g.k);
    GainIff(r, r.k0, g.k, g.cfg.gainThreshold);
    UsefulIsPositive(r, r.k0);
    FlatUseful(r, r.k0, g.k);
    MulMono(Useful(r, r.k0), 1.0, 1.0 + g.cfg.gainThreshold);
  }

  /** Judged or not before, after this verdict saturation is recorded exactly if the first step
      looked like it. */
  lemma FlatVerdict(g: Gov, r: Regime)
    requires Sane(g.cfg, r) && Flat(r) && g.baseline.Some? && g.baseline.value == Level(r.k0, Flow(r, r.k0))
    requires r.k0 < g.k <= FirstStep(g.cfg, r)
    requires Climbing(g, g.baseline.value) || (g.saturated <==> LooksSaturated(g.cfg, r))
    ensures Disappointed(g, g.baseline.value, g.k, Flow(r, g.k)).saturated <==> LooksSaturated(g.cfg, r)
  {
    hide Disappointed, PerConn, Flow, Sane, Climbing;
    FlatVerdictIs(g, r);
    FlatLooks(g, r);
  }

  lemma FlatVerdictIs(g: Gov, r: Regime)
    requires Sane(g.cfg, r) && Flat(r) && g.k >= r.k0
    ensures Disappointed(g, Level(r.k0, Flow(r, r.k0)), g.k, Flow(r, g.k)).saturated <==>
      g.saturated || r.k0 as real <= g.cfg.saturationRatio * g.k as real
  {
    hide Disappointed, PerConn, Flow;
    DisappointedKeeps(g, Level(r.k0, Flow(r, r.k0)), g.k, Flow(r, g.k));
    FlatPerConn(g.cfg, r, g.k);
  }

  /** At the first step the verdict is the look of it; below, it never goes further. */
  lemma FlatLooks(g: Gov, r: Regime)
    requires Sane(g.cfg, r) && g.baseline.Some? && g.baseline.value.conns == r.k0
    requires r.k0 < g.k <= FirstStep(g.cfg, r)
    requires Climbing(g, g.baseline.value) || (g.saturated <==> LooksSaturated(g.cfg, r))
    ensures g.saturated || r.k0 as real <= g.cfg.saturationRatio * g.k as real <==> LooksSaturated(g.cfg, r)
  {
    Looser(r.k0 as real, g.cfg.saturationRatio, g.k as real, FirstStep(g.cfg, r) as real);
    if Climbing(g, g.baseline.value) {
      assert g.k == FirstStep(g.cfg, r);
    }
  }

  lemma Looser(a: real, t: real, x: real, y: real)
    requires t >= 0.0 && x <= y
    ensures a <= t * x ==> a <= t * y
  {
    NonNegMono(t, x, y);
  }

  lemma FlatJudge(g: Gov, s: Sample, r: Regime)
    requires Sane(g.cfg, r) && Flat(r) && g.phase == Ramp && FlatOk(g, r) && g.ceiling >= g.k
    requires g.best.Some? && LevelOk(g.cfg, r, g.baseline.value)
    requires g.mid.Some? ==> g.mid.value == g.k
    ensures FlatOk(Judged(g, g.k, Flow(r, g.k), s).0, r)
  {
    hide Gain, Disappointed, PerConn, Flow, Judged, LooksSaturated, Climbing;
    var b := g.baseline.value;
    FlatNeverPays(g, r);
    FlatVerdict(g, r);
    FlatFlow(r, r.k0, g.k);
    UnpaidIs(g, Flow(r, g.k), s);
    DisappointedKeeps(g, b, g.k, Flow(r, g.k));
    var d := Disappointed(g, b, g.k, Flow(r, g.k));
    if d.mid.Some? || !(b.conns < (b.conns + g.k) / 2 < g.k) {
      FlatSettles(d, s.now, r);
    } else {
      FlatHalves(d, (b.conns + g.k) / 2, s.now, r);
    }
  }

  lemma FlatSettles(g: Gov, now: nat, r: Regime)
    requires r.k0 >= 1 && r.k0 < g.k <= FirstStep(g.cfg, r) && g.k <= g.ceiling
    requires g.best.Some? && g.best.value.conns == r.k0 && g.baseline.Some? && g.baseline.value.conns == r.k0
    requires g.saturated <==> LooksSaturated(g.cfg, r)
    ensures FlatOk(Settled(g, r.k0, g.k, now).0, r)
  {
    hide LooksSaturated;
  }

  lemma FlatHalves(g: Gov, half: nat, now: nat, r: Regime)
    requires r.k0 < half < g.k <= FirstStep(g.cfg, r) && g.phase == Ramp
    requires g.best.Some? && g.best.value.conns == r.k0 && g.baseline.Some? && g.baseline.value.conns == r.k0
    requires g.saturated <==> LooksSaturated(g.cfg, r)
    ensures FlatOk(Changed(g.(mid := Some(half)), half, now), r)
  {
    hide LooksSaturated, Climbing;
  }

  lemma FlatStart(g: Gov, s: Sample, r: Regime)
    requires Sane(g.cfg, r) && g.k == r.k0 && g.ceiling == g.cfg.maxConns && g.phase == Ramp && !g.saturated && g.mid.None?
    requires g.best == g.baseline == Some(Level(r.k0, Flow(r, r.k0))) && !g.recentStall && Undisturbed(g.cfg, s)
    ensures FlatOk(Grown(g, s).0, r)
  {
    hide Flow, MaxByWork;
  }

  /** Noting a sample and keeping a window open change nothing that matters here. */
  lemma FlatIgnoresClocks(g: Gov, h: Gov, r: Regime)
    requires FlatOk(g, r)
    requires h.cfg == g.cfg && h.phase == g.phase && h.k == g.k && h.ceiling == g.ceiling && h.mid == g.mid
    requires h.saturated == g.saturated && h.best == g.best && h.baseline == g.baseline
    ensures FlatOk(h, r)
  {
    hide LooksSaturated;
  }

  lemma FlatReprobe(g: Gov, s: Sample, r: Regime)
    requires FlatOk(g, r) && g.phase == Holding && g.best.Some?
    ensures FlatOk(Reprobed(g, s).0, r)
  {
    hide LooksSaturated, Climbing;
  }

  lemma {:induction false} FlatMeasuring(g: Gov, last: nat, s: Sample, r: Regime)
    requires LevelsOk(g, r) && WindowOk(g, last, r) && FlatOk(g, r) && Flat(r) && Exploring(g)
    requires Undisturbed(g.cfg, s) && (g.window.Some? ==> Steady(g, last, s, r))
    ensures FlatOk(Measured(Noted(g, s), s).0, r)
  {
    hide Useful, NearTop, Grown, Judged, Warming, TooEarly, Rate, LooksSaturated;
    var h := Noted(g, s);
    if Closes(h, s) {
      OnlyOpenWindowsClose(g, s);
      ClosingMeasuresFlow(g, last, s, r);
      var c := Closed(h, s, Flow(r, g.k));
      if g.phase == Baseline {
        FlatStart(c.(baseline := Some(Level(g.k, Flow(r, g.k))), phase := Ramp), s, r);
      } else {
        FlatFlow(r, r.k0, g.k);
        assert c.best == g.best;
        FlatIgnoresClocks(g, c, r);
        FlatJudge(c, s, r);
      }
    } else {
      FlatIgnoresClocks(g, h, r);
      FlatIgnoresClocks(g, h.(window := Some(WindowAt(h, s))), r);
    }
  }

  lemma FlatObserving(g: Gov, last: nat, s: Sample, r: Regime)
    requires LevelsOk(g, r) && WindowOk(g, last, r) && FlatOk(g, r) && Flat(r)
    requires Undisturbed(g.cfg, s) && (g.window.Some? ==> Steady(g, last, s, r))
    ensures FlatOk(After(g, s), r)
  {
    hide Useful, NearTop, Measured, Reprobed, Observed, RampOk, LooksSaturated, Climbing, Flow, Undisturbed, Steady;
    MeasureOrReprobe(g, s, r);
    if g.phase == Holding {
      FlatIgnoresClocks(g, Noted(g, s), r);
      FlatReprobe(Noted(g, s), s, r);
    } else {
      FlatMeasuring(g, last, s, r);
    }
  }

  lemma {:induction false} FlatRunKeeps(cfg: Config, r: Regime, start: nat, samples: seq<Sample>)
    requires Sane(cfg, r) && Flat(r) && QuietRun(Created(cfg, r.k0, start), samples, r)
    ensures FlatOk(Run(Created(cfg, r.k0, start), samples), r)
    decreases |samples|
  {
    var g := Created(cfg, r.k0, start);
    if |samples| > 0 {
      var n := |samples| - 1;
      QuietPrefix(g, samples, r);
      FlatRunKeeps(cfg, r, start, samples[..n]);
      QuietRunKeeps(cfg, r, start, samples[..n]);
      assert Undisturbed(cfg, samples[n]);
      assert n > 0 ==> Steady(Run(g, samples[..n]), samples[n - 1].now, samples[n], r);
      assert n == 0 ==> samples[..n] == [];
      hide Observed, Undisturbed, Steady, LevelsOk, FlatOk;
      FlatObserving(Run(g, samples[..n]), LastTime(start, samples[..n]), samples[n], r);
    }
  }

  /** A link or per-host cap: whenever the governor has settled it is back where it started, and
      it has recorded saturation exactly if the first step up looked like resharing. */
  lemma {:induction false} FlatNetworkSettlesAtTheStart(cfg: Config, r: Regime, start: nat, samples: seq<Sample>)
    requires Sane(cfg, r) && Flat(r) && QuietRun(Created(cfg, r.k0, start), samples, r)
    requires Run(Created(cfg, r.k0, start), samples).phase == Holding
    ensures Run(Created(cfg, r.k0, start), samples).k == r.k0
    ensures Run(Created(cfg, r.k0, start), samples).saturated <==> LooksSaturated(cfg, r)
  {
    hide Observed, Undisturbed, Steady, QuietRun, Run, LooksSaturated, LevelsOk, RampOk;
    FlatRunKeeps(cfg, r, start, samples);
    QuietRunKeeps(cfg, r, start, samples);
  }

  lemma DoublingLooksSaturated(cfg: Config, r: Regime)
    requires Sane(cfg, r) && 2 * r.k0 <= cfg.maxConns && cfg.saturationRatio >= 0.5
    ensures LooksSaturated(cfg, r)
  {
    NonNegMono(2.0 * r.k0 as real, 0.5, cfg.saturationRatio);
  }

  /** With room to double and a ratio of at least one half, it then never grows again, whatever
      samples follow. */
  lemma {:induction false} FlatNetworkIsLeftAlone(cfg: Config, r: Regime, start: nat, samples: seq<Sample>, later: seq<Sample>)
    requires Sane(cfg, r) && Flat(r) && QuietRun(Created(cfg, r.k0, start), samples, r)
    requires 2 * r.k0 <= cfg.maxConns && cfg.saturationRatio >= 0.5
    requires Run(Created(cfg, r.k0, start), samples).phase == Holding
    ensures var g := Run(Created(cfg, r.k0, start), samples);
      && g.saturated && Run(g, later).k <= r.k0
      && forall i :: 0 <= i < |later| ==> !Observed(Run(g, later[..i]), later[i]).1.SpawnTo?
  {
    hide Observed, QuietRun, Run, LooksSaturated, Created;
    DoublingLooksSaturated(cfg, r);
    FlatNetworkSettlesAtTheStart(cfg, r, start, samples);
    SaturationIsFinal(Run(Created(cfg, r.k0, start), samples), later);
  }
}
