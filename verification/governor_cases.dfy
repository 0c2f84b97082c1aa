/** Two runs from the start: one, with nothing unusual in any sample, in which a measurement that
    did not pay raises the level, and one that grows in the middle of a stall. */
module GovernorCases {
  import opened Common
  import opened Governors
  import opened GovernorRuns

  /** The defaults of config.rs. */
  const DEFAULTS: Config := Config(400 * MILLISECOND, 1200 * MILLISECOND, 0.15, 30 * SECOND, 0.6, 32)
  const PLENTY: nat := 100_000_000_000

  function Plain(seconds: nat, bytes: nat): Sample {
    Sample(seconds * SECOND, bytes, 0, 0, None, false, PLENTY, true)
  }

  /** What closing a two-second window over `moved` bytes leads to. */
  function Verdict(g: Gov, seconds: nat, bytes: nat, moved: nat): (Gov, Decision) {
    var s := Plain(seconds, bytes);
    var bps := moved as real / (2 * SECOND) as real;
    var c := Closed(Noted(g, s), s, bps);
    if g.phase == Baseline then Grown(c.(baseline := Some(Level(g.k, bps)), phase := Ramp), s)
    else Judged(c, g.k, bps, s)
  }

  /** One window at the current level: a sample opens it, one two seconds later closes it. */
  lemma OneWindow(g: Gov, seconds: nat, bytes: nat, moved: nat)
    requires g.window.None? && Exploring(g) && g.cfg == DEFAULTS
    requires seconds * SECOND >= g.changedAt + 400 * MILLISECOND
    ensures Observed(After(g, Plain(seconds, bytes)), Plain(seconds + 2, bytes + moved)) ==
      Verdict(g, seconds + 2, bytes + moved, moved)
  {
    hide Grown, Judged;
    var waiting := After(g, Plain(seconds, bytes));
    DwellIsAtMost(Noted(waiting, Plain(seconds + 2, bytes + moved)), 2 * SECOND, moved, PLENTY);
  }

  lemma RunMore(g: Gov, samples: seq<Sample>, s: Sample)
    ensures Run(g, samples + [s]) == After(Run(g, samples), s)
  {
    assert (samples + [s])[..|samples|] == samples;
  }

  /** The run so far, and where it stands. */
  ghost predicate Stands(samples: seq<Sample>, phase: Phase, k: nat, ceiling: nat, best: Option<Level>,
                         baseline: Option<Level>, mid: Option<nat>, seconds: nat)
  {
    var g := Run(Created(DEFAULTS, 17, 0), samples);
    && g.cfg == DEFAULTS && g.window.None? && !g.saturated && g.stop != RateLimited
    && g.reprobeInterval == 30 * SECOND && g.stalls == 0
    && g.phase == phase && g.k == k && g.ceiling == ceiling && g.best == best && g.baseline == baseline && g.mid == mid
    && g.changedAt == seconds * SECOND && g.lastProbe <= seconds * SECOND
  }

  /** Two more samples, a window's worth. */
  lemma WindowMore(samples: seq<Sample>, seconds: nat, bytes: nat, moved: nat) returns (more: seq<Sample>)
    requires var g := Run(Created(DEFAULTS, 17, 0), samples);
      && g.window.None? && Exploring(g) && g.cfg == DEFAULTS
      && seconds * SECOND >= g.changedAt + 400 * MILLISECOND
    ensures Run(Created(DEFAULTS, 17, 0), more) ==
      Verdict(Run(Created(DEFAULTS, 17, 0), samples), seconds + 2, bytes + moved, moved).0
  {
    hide Verdict, Observed, Created;
    var g0 := Created(DEFAULTS, 17, 0);
    var a, b := Plain(seconds, bytes), Plain(seconds + 2, bytes + moved);
    OneWindow(Run(g0, samples), seconds, bytes, moved);
    RunMore(g0, samples, a);
    RunMore(g0, samples + [a], b);
    more := samples + [a] + [b];
  }

  lemma Doubled() returns (samples: seq<Sample>)
    ensures Stands(samples, Ramp, 32, 32, Some(Level(17, 1.0)), Some(Level(17, 1.0)), None, 3)
  {
    hide Observed;
    samples := WindowMore([], 1, 0, 2_000_000_000);
  }

  lemma HalvedBack() returns (samples: seq<Sample>)
    ensures Stands(samples, Ramp, 24, 32, Some(Level(32, 1.14)), Some(Level(17, 1.0)), Some(24), 6)
  {
    hide Observed, Run;
    samples := Doubled();
    samples := WindowMore(samples, 4, 2_000_000_000, 2_280_000_000);
  }

  lemma BackToStart() returns (samples: seq<Sample>)
    ensures Stands(samples, Holding, 17, 23, Some(Level(32, 1.14)), Some(Level(17, 1.0)), None, 9)
  {
    hide Observed, Run;
    samples := HalvedBack();
    samples := WindowMore(samples, 7, 4_280_000_000, 1_980_000_000);
  }

  lemma ProbedAgain() returns (samples: seq<Sample>)
    ensures var g := Run(Created(DEFAULTS, 17, 0), samples);
      && g.cfg == DEFAULTS && g.window.None? && g.phase == Ramp && g.k == 19 && g.ceiling == 23 && g.mid.None?
      && g.best == g.baseline == Some(Level(32, 1.14)) && g.changedAt == 39 * SECOND
  {
    hide Run, Measured;
    var before := BackToStart();
    var s := Plain(39, 6_260_000_000);
    RunMore(Created(DEFAULTS, 17, 0), before, s);
    samples := before + [s];
  }

  /** 17 connections; 32 are a little better but do not pay, 24 are worse, so back to 17; half a
      minute later 19 are tried and are worse than 32 were.  The level goes up to 23, which was
      never measured, under a decision that only retires connections. */
  lemma {:induction false} SettlingCanRaise() returns (samples: seq<Sample>, s: Sample)
    ensures var g := Run(Created(DEFAULTS, 17, 0), samples);
      g.k == 19 && Observed(g, s).1 == ReleaseToken(23) && After(g, s).k == 23
  {
    var before := ProbedAgain();
    samples, s := LastWindow(before);
  }

  lemma LastWindow(before: seq<Sample>) returns (samples: seq<Sample>, s: Sample)
    requires var g := Run(Created(DEFAULTS, 17, 0), before);
      && g.cfg == DEFAULTS && g.window.None? && g.phase == Ramp && g.k == 19 && g.ceiling == 23 && g.mid.None?
      && g.best == g.baseline == Some(Level(32, 1.14)) && g.changedAt == 39 * SECOND
    ensures var g := Run(Created(DEFAULTS, 17, 0), samples);
      g.k == 19 && Observed(g, s).1 == ReleaseToken(23) && After(g, s).k == 23
  {
    hide Run, Measured;
    var g0 := Created(DEFAULTS, 17, 0);
    var a := Plain(40, 6_260_000_000);
    OneWindow(Run(g0, before), 40, 6_260_000_000, 2_000_000_000);
    RunMore(g0, before, a);
    WaitingKeepsLevel(Run(g0, before), a);
    samples, s := before + [a], Plain(42, 8_260_000_000);
  }

  lemma WaitingKeepsLevel(g: Gov, s: Sample)
    requires g.phase == Ramp && g.window.None? && s.rateLimited.None? && !s.backpressure && s.errors == 0
    ensures After(g, s).k == g.k
  {
    hide Judged, Grown, EffectiveDwell;
  }

  /** Back at 17 with a ceiling of 23, half a minute later, while the disk is stalled: two more. */
  lemma {:induction false} GrowsUnderBackpressure() returns (samples: seq<Sample>, s: Sample)
    ensures var g := Run(Created(DEFAULTS, 17, 0), samples);
      s.backpressure && g.k == 17 && Observed(g, s).1 == SpawnTo(19)
  {
    hide Run, Measured;
    samples := BackToStart();
    s := Plain(39, 6_260_000_000).(backpressure := true);
    GrowthUnderBackpressureIff(Run(Created(DEFAULTS, 17, 0), samples), s);
  }
}
