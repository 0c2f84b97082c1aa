/** What the governor keeps over every run of samples: its bounds, when it may grow and when a stall
    does not keep it from growing, how many windows a ramp closes and how long it lasts, how
    reprobes thin out, and when it never grows again. */
module GovernorRuns {
  import opened Common
  import opened Governors
  import opened Plans

  // ----- bounds -----

  /** Within its ceiling, which is within the configured cap; never at zero. */
  ghost predicate InBounds(g: Gov) {
    && 1 <= g.k <= g.ceiling <= g.cfg.maxConns
    && (g.baseline.Some? ==> 1 <= g.baseline.value.conns <= g.cfg.maxConns)
    && (g.best.Some? ==> 1 <= g.best.value.conns <= g.cfg.maxConns)
    && (g.mid.Some? ==> g.mid.value >= 1)
  }

  function After(g: Gov, s: Sample): Gov {
    Observed(g, s).0
  }

  function Run(g: Gov, samples: seq<Sample>): Gov {
    if |samples| == 0 then g else After(Run(g, samples[..|samples| - 1]), samples[|samples| - 1])
  }

  ghost predicate GrowthAllowed(g: Gov, s: Sample, n: nat) {
    && s.token && s.rateLimited.None?
    && g.k < n <= Min(Max(2 * g.k, g.k + 2), Min(g.ceiling, MaxByWork(s.remaining)))
  }

  /** The level the code settles on when an increase did not pay. */
  function Winner(g: Gov, base: Level, bps: real): nat {
    if g.mid.Some? && bps > base.bps then g.mid.value else base.conns
  }

  /** What an observation may do: keep the bounds, never raise the ceiling, and grow only with
      the token, without a rate limit, to at most double (or two more), within the ceiling and
      the work left. */
  ghost predicate SafeMove(g: Gov, s: Sample, r: (Gov, Decision)) {
    && InBounds(r.0) && r.0.cfg == g.cfg && r.0.ceiling <= g.ceiling
    && (r.1.SpawnTo? ==> r.1.n == r.0.k && GrowthAllowed(g, s, r.1.n))
  }

  lemma GrownIsSafe(g: Gov, s: Sample)
    requires InBounds(g) && s.rateLimited.None?
    ensures SafeMove(g, s, Grown(g, s))
  {
  }

  lemma SettledIsSafe(g: Gov, winner: nat, level: nat, s: Sample)
    requires InBounds(g)
    ensures SafeMove(g, s, Settled(g, winner, level, s.now))
  {
  }

  /** Disappointment touches only the verdict. */
  lemma DisappointedKeeps(g: Gov, base: Level, level: nat, bps: real)
    ensures var d := Disappointed(g, base, level, bps);
      && d == g.(saturated := d.saturated, stop := d.stop)
      && (d.saturated <==> g.saturated || PerConn(base, level, bps) <= g.cfg.saturationRatio)
      && (d.stop == Saturated || d.stop == ServerPenalised)
  {
    hide PerConn, Gain;
  }

  lemma MidpointIsSafe(g: Gov, mid: nat, s: Sample)
    requires InBounds(g) && 1 <= mid < g.k
    ensures SafeMove(g, s, (Changed(g.(mid := Some(mid)), mid, s.now), RetireTo(mid)))
  {
  }

  lemma JudgedIsSafe(g: Gov, bps: real, s: Sample)
    requires InBounds(g) && s.rateLimited.None?
    ensures SafeMove(g, s, Judged(g, g.k, bps, s))
  {
    hide Gain, Grown, Settled, Disappointed, Changed;
    if g.baseline.None? {
      GrownIsSafe(g.(baseline := Some(Level(g.k, bps))), s);
    } else {
      var base := g.baseline.value;
      GrownIsSafe(g.(baseline := Some(Level(g.k, bps)), mid := None), s);
      DisappointedKeeps(g, base, g.k, bps);
      var d := Disappointed(g, base, g.k, bps);
      SettledIsSafe(d, Winner(g, base, bps), g.k, s);
      var mid := (base.conns + g.k) / 2;
      if base.conns < mid < g.k {
        MidpointIsSafe(d, mid, s);
      }
    }
  }

  lemma MeasuredIsSafe(g: Gov, s: Sample)
    requires InBounds(g) && s.rateLimited.None?
    ensures SafeMove(g, s, Measured(g, s))
  {
    hide Grown, Judged, Warming, TooEarly, Rate;
    if Closes(g, s) {
      var bps := Rate(g, s);
      var c := Closed(g, s, bps);
      GrownIsSafe(c.(baseline := Some(Level(g.k, bps)), phase := Ramp), s);
      JudgedIsSafe(c, bps, s);
    }
  }

  lemma ReprobedIsSafe(g: Gov, s: Sample)
    requires InBounds(g) && s.rateLimited.None?
    ensures SafeMove(g, s, Reprobed(g, s))
  {
  }

  /** The state in which the phase is looked at: the sample's stall and byte count are noted. */
  function Noted(g: Gov, s: Sample): Gov {
    g.(lastBytes := s.bytesTotal, recentStall := s.backpressure, stalls := if s.backpressure then g.stalls + 1 else 0)
  }

  lemma BackOffIsSafe(g: Gov, s: Sample)
    requires InBounds(g) && s.rateLimited.Some?
    ensures SafeMove(g, s, Observed(g, s))
  {
    hide Measured, Reprobed;
  }

  lemma SheddingIsSafe(g: Gov, s: Sample)
    requires InBounds(g) && g.k > 1
    ensures SafeMove(g, s, (Changed(g.(ceiling := Min(g.ceiling, g.k), phase := Holding), g.k - 1, s.now), RetireTo(g.k - 1)))
  {
  }

  lemma CappingIsSafe(g: Gov, s: Sample)
    requires InBounds(g)
    ensures SafeMove(g, s, (g.(ceiling := g.k, stop := DiskBound, phase := Holding), Decision.Hold))
  {
  }

  lemma {:induction false} ObserveIsSafe(g: Gov, s: Sample)
    requires InBounds(g)
    ensures SafeMove(g, s, Observed(g, s))
  {
    hide Measured, Reprobed, Changed;
    if s.rateLimited.Some? {
      BackOffIsSafe(g, s);
    } else {
      var h := Noted(g, s);
      MeasuredIsSafe(h, s);
      ReprobedIsSafe(h, s);
      CappingIsSafe(h, s);
      if h.k > 1 {
        SheddingIsSafe(h, s);
      }
    }
  }

  lemma {:induction false} RunIsSafe(g: Gov, samples: seq<Sample>)
    requires InBounds(g)
    ensures InBounds(Run(g, samples)) && Run(g, samples).ceiling <= g.ceiling && Run(g, samples).cfg == g.cfg
    decreases |samples|
  {
    if |samples| > 0 {
      RunIsSafe(g, samples[..|samples| - 1]);
      ObserveIsSafe(Run(g, samples[..|samples| - 1]), samples[|samples| - 1]);
    }
  }

  /** From a start within the cap, at every moment of every run. */
  lemma {:induction false} BoundsHoldForever(cfg: Config, k0: nat, now: nat, samples: seq<Sample>)
    requires 1 <= k0 <= cfg.maxConns
    ensures var g := Run(Created(cfg, k0, now), samples);
      1 <= g.k <= g.ceiling <= cfg.maxConns
  {
    RunIsSafe(Created(cfg, k0, now), samples);
  }

  /** After a rate limit the level stays at or below half of what it was, for ever. */
  lemma {:induction false} RateLimitIsForever(g: Gov, s: Sample, samples: seq<Sample>)
    requires InBounds(g) && s.rateLimited.Some?
    ensures Run(After(g, s), samples).k <= Max(g.k / 2, 1)
  {
    ObserveIsSafe(g, s);
    RunIsSafe(After(g, s), samples);
  }

  /** Backpressure does not stop all growth.  During a stall connections are added exactly when a
      settled governor's next reprobe is due: no rate limit, fewer than five stalls before this
      one, no error, no saturation, the token, and room below ceiling, cap and work. */
  lemma GrowthUnderBackpressureIff(g: Gov, s: Sample)
    requires s.backpressure
    ensures Observed(g, s).1.SpawnTo? <==>
      && g.phase == Holding && s.rateLimited.None? && g.stalls < 5 && s.errors == 0
      && !g.saturated && g.stop != RateLimited && s.token
      && Since(s.now, g.lastProbe) >= g.reprobeInterval && s.remaining >= 4 * MIN_SEGMENT
      && g.k < Min(g.ceiling, Min(g.cfg.maxConns, MaxByWork(s.remaining)))
  {
  }

  // ----- settling -----

  predicate Exploring(g: Gov) {
    g.phase == Baseline || g.phase == Ramp
  }

  /** What is left to find out: how far the paying level is from the cap, and whether the
      midpoint is still to be tried. */
  function Potential(g: Gov): nat
    requires g.baseline.Some? ==> g.baseline.value.conns <= g.cfg.maxConns
  {
    if g.phase == Ramp && g.baseline.Some? && g.baseline.value.conns < g.k then
      2 * (g.cfg.maxConns - g.baseline.value.conns) + if g.mid.None? then 1 else 0
    else 2 * g.cfg.maxConns + 2
  }

  /** The observation closes a measurement window. */
  predicate Judges(g: Gov, s: Sample) {
    && s.rateLimited.None? && Exploring(g)
    && !(s.backpressure && g.stalls >= 5) && !(s.errors >= 2 && g.k > 1)
    && Closes(Noted(g, s), s)
  }

  lemma GrownUsesPotential(g: Gov, s: Sample)
    requires InBounds(g) && g.phase == Ramp && g.baseline.Some? && g.baseline.value.conns == g.k
    ensures Grown(g, s).0.phase == Baseline || Grown(g, s).0.phase == Ramp ==>
      && Grown(g, s).0.phase == Ramp && Grown(g, s).0.cfg == g.cfg && Grown(g, s).0.baseline == g.baseline
      && Potential(Grown(g, s).0) <= 2 * (g.cfg.maxConns - g.k) + 1
  {
  }

  lemma MidpointUsesPotential(g: Gov, mid: nat, s: Sample)
    requires InBounds(g) && g.phase == Ramp && g.baseline.Some? && g.mid.None? && g.baseline.value.conns < mid < g.k
    ensures Potential(Changed(g.(mid := Some(mid)), mid, s.now)) < Potential(g)
  {
  }

  lemma JudgeUsesPotential(g: Gov, bps: real, s: Sample)
    requires InBounds(g) && g.phase == Ramp
    requires Exploring(Judged(g, g.k, bps, s).0)
    ensures Judged(g, g.k, bps, s).0.baseline.Some? ==> Judged(g, g.k, bps, s).0.baseline.value.conns <= g.cfg.maxConns
    ensures Judged(g, g.k, bps, s).0.cfg == g.cfg
    ensures Potential(Judged(g, g.k, bps, s).0) < Potential(g)
  {
    hide Gain, Grown, Disappointed, Changed;
    var level := Some(Level(g.k, bps));
    if g.baseline.None? {
      GrownUsesPotential(g.(baseline := level), s);
    } else {
      var base := g.baseline.value;
      GrownUsesPotential(g.(baseline := level, mid := None), s);
      DisappointedKeeps(g, base, g.k, bps);
      var d := Disappointed(g, base, g.k, bps);
      var mid := (base.conns + g.k) / 2;
      ChangedKeeps(d.(mid := Some(mid)), mid, s.now);
      SettledNotesProbes(d, Winner(g, base, bps), g.k, s.now);
      if g.mid.None? && base.conns < mid < g.k {
        MidpointUsesPotential(d, mid, s);
      }
    }
  }

  lemma ChangedKeeps(g: Gov, k: nat, now: nat)
    ensures var c := Changed(g, k, now);
      c == g.(k := k, changedAt := c.changedAt, window := c.window, bytesAtChange := c.bytesAtChange)
  {
  }

  lemma MeasureUsesPotential(g: Gov, s: Sample)
    requires InBounds(g) && Exploring(g) && Exploring(Measured(g, s).0)
    ensures InBounds(Measured(g, s).0) ==> Potential(Measured(g, s).0) <= Potential(g)
    ensures InBounds(Measured(g, s).0) && Closes(g, s) ==> Potential(Measured(g, s).0) < Potential(g)
  {
    hide Grown, Judged, Warming, TooEarly, Rate;
    if Closes(g, s) {
      var bps := Rate(g, s);
      var c := Closed(g, s, bps);
      if g.phase == Baseline {
        GrownUsesPotential(c.(baseline := Some(Level(g.k, bps)), phase := Ramp), s);
      } else {
        JudgeUsesPotential(c, bps, s);
      }
    }
  }

  /** While exploring goes on, closing a window uses up potential and anything else leaves it
      alone. */
  lemma ExploringUsesPotential(g: Gov, s: Sample)
    requires InBounds(g) && Exploring(g) && Exploring(After(g, s))
    ensures InBounds(After(g, s)) && After(g, s).cfg == g.cfg
    ensures Potential(After(g, s)) <= Potential(g)
    ensures Judges(g, s) ==> Potential(After(g, s)) < Potential(g)
  {
    hide Measured, Reprobed, Warming, TooEarly;
    ObserveIsSafe(g, s);
    assert After(g, s) == Measured(Noted(g, s), s).0;
    MeasureUsesPotential(Noted(g, s), s);
  }

  /** The samples of one ramp: all are taken while exploring, and the last may end it. */
  ghost predicate Episode(g: Gov, samples: seq<Sample>) {
    forall i :: 0 <= i < |samples| ==> Exploring(Run(g, samples[..i]))
  }

  /** And the ramp is not over. */
  ghost predicate StillExploring(g: Gov, samples: seq<Sample>) {
    Episode(g, samples) && Exploring(Run(g, samples))
  }

  lemma EpisodeBefore(g: Gov, samples: seq<Sample>)
    requires Episode(g, samples) && |samples| > 0
    ensures StillExploring(g, samples[..|samples| - 1])
  {
    hide Run, Exploring;
    var n := |samples| - 1;
    assert forall i :: 0 <= i <= n ==> samples[..n][..i] == samples[..i];
    assert Exploring(Run(g, samples[..n]));
  }

  /** Windows closed along the way. */
  function Judgements(g: Gov, samples: seq<Sample>): nat {
    if |samples| == 0 then 0
    else
      Judgements(g, samples[..|samples| - 1])
      + if Judges(Run(g, samples[..|samples| - 1]), samples[|samples| - 1]) then 1 else 0
  }

  lemma {:induction false} EpisodeUsesPotential(g: Gov, samples: seq<Sample>)
    requires InBounds(g) && StillExploring(g, samples)
    ensures InBounds(Run(g, samples)) && Run(g, samples).cfg == g.cfg
    ensures Judgements(g, samples) + Potential(Run(g, samples)) <= Potential(g)
    decreases |samples|
  {
    hide Exploring, InBounds, Potential, Judges, After, Episode;
    if |samples| > 0 {
      var n := |samples| - 1;
      EpisodeBefore(g, samples);
      EpisodeUsesPotential(g, samples[..n]);
      ExploringUsesPotential(Run(g, samples[..n]), samples[n]);
    }
  }

  lemma PotentialRange(g: Gov)
    requires InBounds(g)
    ensures 2 <= Potential(g) <= 2 * g.cfg.maxConns + 2
  {
  }

  /** A ramp closes at most `2 * maxConns + 1` windows, the one that ends it included, whatever is
      measured. */
  lemma EpisodesAreShort(g: Gov, samples: seq<Sample>)
    requires InBounds(g) && Episode(g, samples)
    ensures Judgements(g, samples) <= 2 * g.cfg.maxConns + 1
  {
    hide Exploring, InBounds, Potential, Judges, After, Episode;
    if |samples| > 0 {
      var before := samples[..|samples| - 1];
      EpisodeBefore(g, samples);
      EpisodeUsesPotential(g, before);
      PotentialRange(g);
      PotentialRange(Run(g, before));
    }
  }

  // ----- how long an episode lasts -----

  /** The longest a window may stay open. */
  function LongestWindow(cfg: Config): nat {
    Max(cfg.dwell, MIN_SAMPLE)
  }

  /** From one change to the next judgement, with samples at most `gap` apart. */
  function LongestLevel(cfg: Config, gap: nat): nat {
    cfg.warmup + LongestWindow(cfg) + 2 * gap
  }

  /** Between judgements, with the last sample at `last`: the warmup or the window is not over. */
  ghost predicate Paced(g: Gov, last: nat, gap: nat) {
    && last >= g.changedAt
    && (g.window.None? ==> last == g.changedAt || last < g.changedAt + g.cfg.warmup)
    && (g.window.Some? ==>
          && g.window.value.started <= g.changedAt + g.cfg.warmup + gap
          && g.window.value.started <= last < g.window.value.started + LongestWindow(g.cfg))
  }

  lemma DwellIsAtMost(g: Gov, elapsed: nat, moved: nat, remaining: nat)
    ensures EffectiveDwell(g, elapsed, moved, remaining) <= g.cfg.dwell as real
  {
  }

  lemma WaitingIsPaced(g: Gov, last: nat, s: Sample, gap: nat)
    requires Paced(g, last, gap) && last <= s.now <= last + gap && !Closes(g, s)
    ensures Paced(if Warming(g, s) then g else g.(window := Some(WindowAt(g, s))), s.now, gap)
  {
    hide EffectiveDwell;
    var w := WindowAt(g, s);
    DwellIsAtMost(g, Since(s.now, w.started), Since(s.bytesTotal, w.startBytes), s.remaining);
  }

  lemma GrownIsStamped(g: Gov, s: Sample)
    requires g.changedAt == s.now && g.window.None?
    ensures Grown(g, s).0.changedAt == s.now && Grown(g, s).0.window.None?
  {
  }

  lemma JudgedIsStamped(g: Gov, bps: real, s: Sample)
    requires g.changedAt == s.now && g.window.None?
    ensures Judged(g, g.k, bps, s).0.changedAt == s.now && Judged(g, g.k, bps, s).0.window.None?
  {
    hide Gain, Grown, Disappointed;
    var level := Some(Level(g.k, bps));
    GrownIsStamped(g.(baseline := level), s);
    GrownIsStamped(g.(baseline := level, mid := None), s);
    if g.baseline.Some? {
      DisappointedKeeps(g, g.baseline.value, g.k, bps);
    }
  }

  /** A judgement starts the clock again; nothing else does. */
  lemma MeasuredIsPaced(g: Gov, last: nat, s: Sample, gap: nat)
    requires Exploring(g) && Paced(g, last, gap) && last <= s.now <= last + gap
    ensures Paced(Measured(g, s).0, s.now, gap)
    ensures Closes(g, s) ==>
      s.now <= g.changedAt + LongestLevel(g.cfg, gap) && Measured(g, s).0.changedAt == s.now
    ensures !Closes(g, s) ==> Measured(g, s).0.changedAt == g.changedAt
  {
    hide Grown, Judged, Warming, TooEarly, Rate;
    if Closes(g, s) {
      var bps := Rate(g, s);
      var c := Closed(g, s, bps);
      GrownIsStamped(c.(baseline := Some(Level(g.k, bps)), phase := Ramp), s);
      JudgedIsStamped(c, bps, s);
    } else {
      WaitingIsPaced(g, last, s, gap);
    }
  }

  /** Samples come at most `gap` apart, from `start` on. */
  ghost predicate Frequent(samples: seq<Sample>, start: nat, gap: nat) {
    forall i :: 0 <= i < |samples| ==>
      Previous(samples, i, start) <= samples[i].now <= Previous(samples, i, start) + gap
  }

  function Previous(samples: seq<Sample>, i: nat, start: nat): nat
    requires i <= |samples|
  {
    if i == 0 then start else samples[i - 1].now
  }

  lemma ExploringMeasures(g: Gov, s: Sample)
    requires Exploring(g) && Exploring(After(g, s))
    ensures After(g, s) == Measured(Noted(g, s), s).0
    ensures Judges(g, s) <==> Closes(Noted(g, s), s)
  {
    hide Measured, Reprobed, Warming, TooEarly;
  }

  lemma StepIsPaced(g: Gov, last: nat, s: Sample, gap: nat)
    requires Exploring(g) && Exploring(After(g, s)) && Paced(g, last, gap) && last <= s.now <= last + gap
    ensures Paced(After(g, s), s.now, gap)
    ensures After(g, s).changedAt <= g.changedAt + if Judges(g, s) then LongestLevel(g.cfg, gap) else 0
  {
    hide Observed, Measured, Paced, LongestLevel, Warming, TooEarly;
    ExploringMeasures(g, s);
    NotedIsPaced(g, last, s, gap);
    MeasuredIsPaced(Noted(g, s), last, s, gap);
  }

  lemma {:induction false} EpisodeIsPaced(g: Gov, samples: seq<Sample>, gap: nat)
    requires StillExploring(g, samples) && Frequent(samples, g.changedAt, gap) && Paced(g, g.changedAt, gap)
    requires InBounds(g)
    ensures Paced(Run(g, samples), Previous(samples, |samples|, g.changedAt), gap)
    ensures Run(g, samples).changedAt <= g.changedAt + Judgements(g, samples) * LongestLevel(g.cfg, gap)
    decreases |samples|
  {
    hide After, Paced, LongestLevel, Exploring, InBounds, Judges, Episode, Frequent;
    if |samples| > 0 {
      var n := |samples| - 1;
      EpisodeBefore(g, samples);
      FrequentPrefix(g, samples, gap);
      EpisodeIsPaced(g, samples[..n], gap);
      RunIsSafe(g, samples[..n]);
      StepIsPaced(Run(g, samples[..n]), Previous(samples, n, g.changedAt), samples[n], gap);
      MulAtMost(0, Judgements(g, samples[..n]), LongestLevel(g.cfg, gap));
    }
  }

  lemma NotedIsPaced(g: Gov, last: nat, s: Sample, gap: nat)
    requires Paced(g, last, gap) && Exploring(g)
    ensures Paced(Noted(g, s), last, gap) && Exploring(Noted(g, s))
  {
  }

  lemma FrequentPrefix(g: Gov, samples: seq<Sample>, gap: nat)
    requires |samples| > 0 && Frequent(samples, g.changedAt, gap)
    ensures var n := |samples| - 1;
      && Frequent(samples[..n], g.changedAt, gap)
      && Previous(samples[..n], n, g.changedAt) == Previous(samples, n, g.changedAt)
      && Previous(samples, n, g.changedAt) <= samples[n].now <= Previous(samples, n, g.changedAt) + gap
  {
    var n := |samples| - 1;
    forall i | 0 <= i < n
      ensures Previous(samples[..n], i, g.changedAt) == Previous(samples, i, g.changedAt)
    {
    }
  }

  /** A ramp ends in bounded time: with samples at most `gap` apart, its last sample comes within
      `2 * maxConns + 1` times a warmup, a window and two gaps. */
  lemma {:induction false} ExploringEndsInTime(g: Gov, samples: seq<Sample>, gap: nat)
    requires InBounds(g) && g.window.None?
    requires Episode(g, samples) && Frequent(samples, g.changedAt, gap)
    ensures Previous(samples, |samples|, g.changedAt) <=
      g.changedAt + (2 * g.cfg.maxConns + 1) * LongestLevel(g.cfg, gap)
  {
    hide After, Exploring, InBounds, Frequent, Judgements, Potential, Episode;
    if |samples| > 0 {
      var before := samples[..|samples| - 1];
      EpisodeBefore(g, samples);
      FrequentPrefix(g, samples, gap);
      EpisodeIsPaced(g, before, gap);
      EpisodeUsesPotential(g, before);
      PotentialRange(g);
      PotentialRange(Run(g, before));
      MulAtMost(Judgements(g, before), 2 * g.cfg.maxConns, LongestLevel(g.cfg, gap));
    }
  }

  lemma MulAtMost(a: nat, b: nat, c: nat)
    requires a <= b
    ensures a * c <= b * c
    ensures b * c + c == (b + 1) * c
  {
  }

  // ----- reprobes thin out -----

  predicate Reprobes(g: Gov, s: Sample) {
    g.phase == Holding && After(g, s).phase == Ramp
  }

  function ReprobeCount(g: Gov, samples: seq<Sample>): nat {
    if |samples| == 0 then 0
    else
      ReprobeCount(g, samples[..|samples| - 1])
      + if Reprobes(Run(g, samples[..|samples| - 1]), samples[|samples| - 1]) then 1 else 0
  }

  function Doubled(n: nat, interval: nat): nat {
    if n == 0 then interval else 2 * Doubled(n - 1, interval)
  }

  lemma GrownNotesProbes(g: Gov, s: Sample)
    ensures Grown(g, s).0.reprobeInterval == g.reprobeInterval
    ensures Grown(g, s).0.lastProbe == g.lastProbe || Grown(g, s).0.lastProbe == s.now
  {
  }

  lemma JudgedNotesProbes(g: Gov, bps: real, s: Sample)
    ensures Judged(g, g.k, bps, s).0.reprobeInterval == g.reprobeInterval
    ensures Judged(g, g.k, bps, s).0.lastProbe == g.lastProbe || Judged(g, g.k, bps, s).0.lastProbe == s.now
  {
    hide Gain, Grown, Disappointed, Changed;
    var level := Some(Level(g.k, bps));
    GrownNotesProbes(g.(baseline := level), s);
    GrownNotesProbes(g.(baseline := level, mid := None), s);
    if g.baseline.Some? {
      var base := g.baseline.value;
      DisappointedKeeps(g, base, g.k, bps);
      var d := Disappointed(g, base, g.k, bps);
      var mid := (base.conns + g.k) / 2;
      ChangedKeeps(d.(mid := Some(mid)), mid, s.now);
      SettledNotesProbes(d, Winner(g, base, bps), g.k, s.now);
    }
  }

  lemma SettledNotesProbes(g: Gov, winner: nat, level: nat, now: nat)
    ensures Settled(g, winner, level, now).0.reprobeInterval == g.reprobeInterval
    ensures Settled(g, winner, level, now).0.lastProbe == now
    ensures Settled(g, winner, level, now).0.phase == Holding
  {
  }

  lemma MeasuredNotesProbes(g: Gov, s: Sample)
    ensures Measured(g, s).0.reprobeInterval == g.reprobeInterval
    ensures Measured(g, s).0.lastProbe == g.lastProbe || Measured(g, s).0.lastProbe == s.now
  {
    hide Grown, Judged, Warming, TooEarly, Rate;
    if Closes(g, s) {
      var bps := Rate(g, s);
      var c := Closed(g, s, bps);
      GrownNotesProbes(c.(baseline := Some(Level(g.k, bps)), phase := Ramp), s);
      JudgedNotesProbes(c, bps, s);
    }
  }

  lemma ReprobeStep(g: Gov, s: Sample)
    ensures Reprobes(g, s) ==> After(g, s).reprobeInterval == 2 * g.reprobeInterval
    ensures Reprobes(g, s) ==> s.now >= g.lastProbe + g.reprobeInterval || g.reprobeInterval == 0
    ensures !Reprobes(g, s) ==> After(g, s).reprobeInterval == g.reprobeInterval
    ensures After(g, s).lastProbe == g.lastProbe || After(g, s).lastProbe == s.now
  {
    hide Measured;
    MeasuredNotesProbes(Noted(g, s), s);
  }

  lemma {:induction false} IntervalDoubles(g: Gov, samples: seq<Sample>, start: nat)
    requires g.lastProbe >= start && forall i :: 0 <= i < |samples| ==> samples[i].now >= start
    ensures Run(g, samples).reprobeInterval == Doubled(ReprobeCount(g, samples), g.reprobeInterval)
    ensures Run(g, samples).lastProbe >= start
    decreases |samples|
  {
    if |samples| > 0 {
      var n := |samples| - 1;
      IntervalDoubles(g, samples[..n], start);
      ReprobeStep(Run(g, samples[..n]), samples[n]);
    }
  }

  /** The n-th reprobe, counting from 0, comes no sooner than `2^n` intervals after the start. */
  lemma {:induction false} ReprobesThinOut(cfg: Config, k0: nat, start: nat, samples: seq<Sample>, s: Sample)
    requires forall i :: 0 <= i < |samples| ==> samples[i].now >= start
    requires s.now >= start
    requires Reprobes(Run(Created(cfg, k0, start), samples), s)
    ensures s.now >= start + Doubled(ReprobeCount(Created(cfg, k0, start), samples), cfg.reprobeInterval)
  {
    var g := Created(cfg, k0, start);
    IntervalDoubles(g, samples, start);
    ReprobeStep(Run(g, samples), s);
  }

  // ----- saturation is final -----

  ghost predicate Resigned(g: Gov) {
    g.saturated && (g.phase == Holding || g.phase == BackingOff) && g.k >= 1
  }

  lemma ResignedStep(g: Gov, s: Sample)
    requires Resigned(g)
    ensures Resigned(After(g, s)) && After(g, s).k <= g.k && !Observed(g, s).1.SpawnTo?
  {
    hide Measured;
  }

  /** Once saturation is known and the governor has settled or backed off, the level never rises
      again. */
  lemma {:induction false} SaturationIsFinal(g: Gov, samples: seq<Sample>)
    requires Resigned(g)
    ensures Resigned(Run(g, samples)) && Run(g, samples).k <= g.k
    ensures forall i :: 0 <= i < |samples| ==> !Observed(Run(g, samples[..i]), samples[i]).1.SpawnTo?
    decreases |samples|
  {
    hide Observed;
    if |samples| > 0 {
      var n := |samples| - 1;
      SaturationIsFinal(g, samples[..n]);
      ResignedStep(Run(g, samples[..n]), samples[n]);
      forall i | 0 <= i < |samples|
        ensures !Observed(Run(g, samples[..i]), samples[i]).1.SpawnTo?
      {
        if i < n {
          assert samples[..n][..i] == samples[..i] && samples[..n][i] == samples[i];
        }
      }
    }
  }
}
