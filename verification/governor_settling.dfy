/** "Settle back" is not always back: when, over whole runs, the level rises although nothing is
    spawned. */
module GovernorSettling {
  import opened Common
  import opened Governors
  import opened GovernorRuns

  /** More connections, under a decision that spawns none. */
  predicate Raises(g: Gov, s: Sample) {
    After(g, s).k > g.k && !Observed(g, s).1.SpawnTo?
  }

  /** What the window that is closing has measured. */
  function WindowRate(g: Gov, s: Sample): real
    requires Judges(g, s)
  {
    Rate(Noted(g, s), s)
  }

  /** A window of the ramp closes without the gain asked for; the level compared with lies above
      the one being tried, and so does the ceiling; and no midpoint did better than it. */
  predicate PoorWindowBelow(g: Gov, s: Sample) {
    && Judges(g, s) && g.phase == Ramp && g.baseline.Some?
    && Gain(g.baseline.value.bps, WindowRate(g, s)) < g.cfg.gainThreshold
    && g.baseline.value.conns > g.k && g.ceiling > g.k
    && !(g.mid.Some? && WindowRate(g, s) > g.baseline.value.bps)
  }

  // ----- a pending midpoint is the level being tried, or is out of reach -----

  ghost predicate MidpointInPlace(g: Gov) {
    g.mid.Some? ==>
      || (g.phase == Ramp && g.mid.value == g.k && g.baseline.Some?)
      || (g.phase == Ramp && g.ceiling <= g.k)
      || (!Exploring(g) && g.ceiling <= g.k + 1)
  }

  lemma GrownKeepsMidpoint(g: Gov, s: Sample)
    requires g.mid.None? || g.ceiling <= g.k
    ensures MidpointInPlace(Grown(g, s).0)
    ensures Grown(g, s).0.k >= g.k && (Grown(g, s).0.k > g.k ==> Grown(g, s).1.SpawnTo?)
    ensures Grown(g, s).0.baseline == g.baseline
  {
  }

  lemma SettledForgetsMidpoint(g: Gov, winner: nat, level: nat, now: nat)
    requires g.k >= 1
    ensures var (r, d) := Settled(g, winner, level, now);
      && r.mid.None? && r.phase == Holding && d.ReleaseToken?
      && (r.k > g.k <==> winner > g.k && g.ceiling > g.k)
  {
  }

  /** Where a closed window of the ramp can lead. */
  lemma JudgedRaisesIff(g: Gov, bps: real, s: Sample)
    requires g.phase == Ramp && g.k >= 1 && MidpointInPlace(g)
    ensures var (r, d) := Judged(g, g.k, bps, s);
      && MidpointInPlace(r)
      && (r.k > g.k && !d.SpawnTo? <==>
          && g.baseline.Some? && Gain(g.baseline.value.bps, bps) < g.cfg.gainThreshold
          && g.baseline.value.conns > g.k && g.ceiling > g.k
          && !(g.mid.Some? && bps > g.baseline.value.bps))
      && (r.phase == Ramp ==> r.baseline.Some? && r.baseline.value.conns <= r.k)
      && (r.k > g.k && !d.SpawnTo? ==> d.ReleaseToken?)
  {
    hide Gain, Grown, Settled, Disappointed;
    var level := Some(Level(g.k, bps));
    if g.baseline.None? {
      GrownKeepsMidpoint(g.(baseline := level), s);
    } else {
      var base := g.baseline.value;
      GrownKeepsMidpoint(g.(baseline := level, mid := None), s);
      DisappointedKeeps(g, base, g.k, bps);
      SettledForgetsMidpoint(Disappointed(g, base, g.k, bps), Winner(g, base, bps), g.k, s.now);
    }
  }

  lemma MeasuredRaisesIff(g: Gov, s: Sample)
    requires Exploring(g) && g.k >= 1 && MidpointInPlace(g)
    ensures var (r, d) := Measured(g, s);
      && MidpointInPlace(r)
      && (r.k > g.k && !d.SpawnTo? <==>
          && Closes(g, s) && g.phase == Ramp
          && g.baseline.Some? && Gain(g.baseline.value.bps, Rate(g, s)) < g.cfg.gainThreshold
          && g.baseline.value.conns > g.k && g.ceiling > g.k
          && !(g.mid.Some? && Rate(g, s) > g.baseline.value.bps))
      && (r.k > g.k && !d.SpawnTo? ==> d.ReleaseToken?)
      && (r.phase == Ramp && r.baseline.Some? && r.baseline.value.conns > r.k ==>
            !Closes(g, s) && r.k == g.k && r.phase == g.phase && r.baseline == g.baseline)
  {
    hide Gain, Grown, Judged, Warming, TooEarly, Rate;
    if Closes(g, s) {
      var bps := Rate(g, s);
      var c := Closed(g, s, bps);
      if g.phase == Baseline {
        GrownKeepsMidpoint(c.(baseline := Some(Level(g.k, bps)), phase := Ramp), s);
      } else {
        JudgedRaisesIff(c, bps, s);
      }
    }
  }

  lemma ReprobedKeepsMidpoint(g: Gov, s: Sample)
    requires MidpointInPlace(g) && g.phase == Holding
    ensures MidpointInPlace(Reprobed(g, s).0)
    ensures Reprobed(g, s).0.k > g.k ==> Reprobed(g, s).1.SpawnTo?
  {
  }

  lemma StepRaisesIff(g: Gov, s: Sample)
    requires g.k >= 1 && MidpointInPlace(g)
    ensures MidpointInPlace(After(g, s))
    ensures Raises(g, s) <==> PoorWindowBelow(g, s)
    ensures Raises(g, s) ==> Observed(g, s).1.ReleaseToken?
  {
    hide Measured, Reprobed, Closes, Gain, Rate;
    var h := Noted(g, s);
    if s.rateLimited.None? {
      if Exploring(h) {
        MeasuredRaisesIff(h, s);
      } else if h.phase == Holding {
        ReprobedKeepsMidpoint(h, s);
      }
    }
  }

  lemma {:induction false} RunKeepsMidpoint(cfg: Config, k0: nat, now: nat, samples: seq<Sample>)
    requires 1 <= k0 <= cfg.maxConns
    ensures var g := Run(Created(cfg, k0, now), samples);
      g.k >= 1 && MidpointInPlace(g)
    decreases |samples|
  {
    hide Observed;
    RunIsSafe(Created(cfg, k0, now), samples);
    if |samples| > 0 {
      var n := |samples| - 1;
      RunKeepsMidpoint(cfg, k0, now, samples[..n]);
      StepRaisesIff(Run(Created(cfg, k0, now), samples[..n]), samples[n]);
    }
  }

  /** Over every run: the level rises without a spawn exactly when a window closes without the
      gain asked for while the level compared with is above the one being tried, the ceiling
      leaves room, and no midpoint is preferred.  The decision then says that connections are
      released. */
  lemma {:induction false} SettlingRaisesIff(cfg: Config, k0: nat, now: nat, samples: seq<Sample>, s: Sample)
    requires 1 <= k0 <= cfg.maxConns
    ensures var g := Run(Created(cfg, k0, now), samples);
      && (Raises(g, s) <==> PoorWindowBelow(g, s))
      && (Raises(g, s) ==> Observed(g, s).1.ReleaseToken?)
  {
    RunKeepsMidpoint(cfg, k0, now, samples);
    StepRaisesIff(Run(Created(cfg, k0, now), samples), s);
  }

  // ----- where such a comparison comes from -----

  /** Comparing with a level above the one being tried. */
  predicate ComparesAbove(g: Gov) {
    g.phase == Ramp && g.baseline.Some? && g.baseline.value.conns > g.k
  }

  lemma ComparesAboveStep(g: Gov, s: Sample)
    requires g.k >= 1 && MidpointInPlace(g)
    requires ComparesAbove(After(g, s))
    ensures ComparesAbove(g) || Reprobes(g, s)
  {
    hide Measured, Reprobed;
    if Exploring(g) {
      MeasuredRaisesIff(Noted(g, s), s);
    }
  }

  /** The reprobe at sample `i` opened the ramp that is still going on. */
  ghost predicate OpenedBy(g: Gov, samples: seq<Sample>, i: nat)
    requires i < |samples|
  {
    && Reprobes(Run(g, samples[..i]), samples[i])
    && forall j :: i < j <= |samples| ==> Exploring(Run(g, samples[..j]))
  }

  /** Only a reprobe opens a ramp that compares with a level above the one being tried. */
  lemma {:induction false} OpenedByAReprobe(cfg: Config, k0: nat, now: nat, samples: seq<Sample>)
    requires 1 <= k0 <= cfg.maxConns
    requires ComparesAbove(Run(Created(cfg, k0, now), samples))
    ensures exists i :: 0 <= i < |samples| && OpenedBy(Created(cfg, k0, now), samples, i)
    decreases |samples|
  {
    hide Observed;
    var g0 := Created(cfg, k0, now);
    var n := |samples| - 1;
    RunKeepsMidpoint(cfg, k0, now, samples[..n]);
    ComparesAboveStep(Run(g0, samples[..n]), samples[n]);
    assert samples[..|samples|] == samples;
    if ComparesAbove(Run(g0, samples[..n])) {
      OpenedByAReprobe(cfg, k0, now, samples[..n]);
      var i :| 0 <= i < n && OpenedBy(g0, samples[..n], i);
      OpenedStays(g0, samples, i);
    } else {
      assert OpenedBy(g0, samples, n);
    }
  }

  lemma OpenedStays(g: Gov, samples: seq<Sample>, i: nat)
    requires i < |samples| - 1 && OpenedBy(g, samples[..|samples| - 1], i) && Exploring(Run(g, samples))
    ensures OpenedBy(g, samples, i)
  {
    hide Run, Reprobes, Exploring;
    var n := |samples| - 1;
    assert samples[..n][..i] == samples[..i];
    forall j | i < j <= |samples|
      ensures Exploring(Run(g, samples[..j]))
    {
      if j <= n {
        assert samples[..n][..j] == samples[..j];
      } else {
        assert samples[..j] == samples;
      }
    }
  }

  /** So in every run the level rises on settling only in a ramp that a reprobe opened. */
  lemma {:induction false} RaisesOnlyAfterAReprobe(cfg: Config, k0: nat, now: nat, samples: seq<Sample>, s: Sample)
    requires 1 <= k0 <= cfg.maxConns && Raises(Run(Created(cfg, k0, now), samples), s)
    ensures exists i :: 0 <= i < |samples| && OpenedBy(Created(cfg, k0, now), samples, i)
  {
    SettlingRaisesIff(cfg, k0, now, samples, s);
    OpenedByAReprobe(cfg, k0, now, samples);
  }
}
