/** What the governor answers to a sample. */
module GovernorAnswers {
  import opened Common
  import opened Governors
  import opened GovernorRuns
  import opened Plans

  // In the order of precedence: a rate limit, a disk that stays behind, a burst of errors, and only
  // then what the phase calls for.

  /** A new governor explores from its start, at least one, below the cap, with nothing measured,
      warming up from the first byte and the moment of its creation. */
  lemma StartsExploring(cfg: Config, k0: nat, start: nat, s: Sample)
    ensures var g := Created(cfg, k0, start);
      && g.phase == Baseline && g.cfg == cfg && g.ceiling == cfg.maxConns && g.k >= 1 && (k0 >= 1 ==> g.k == k0)
      && g.best.None? && g.baseline.None? && g.mid.None? && g.window.None? && g.stop == StillRamping && !g.saturated
      && g.stalls == 0 && g.lastProbe == start && g.reprobeInterval == cfg.reprobeInterval
      && (Warm(g, s) <==> s.bytesTotal >= 512 * 1024 * g.k || Since(s.now, start) >= cfg.warmup)
  {
  }

  /** A rate limit halves the level for good and asks for the wait the server named, or a second. */
  lemma RateLimitAnswer(g: Gov, s: Sample)
    requires s.rateLimited.Some?
    ensures var (r, d) := Observed(g, s);
      && d.BackOff? && d.conns == r.k && r.phase == BackingOff && r.saturated && r.stop == RateLimited
      && r.k >= 1 && r.ceiling == r.k && (g.k >= 2 ==> 2 * r.k <= g.k < 2 * r.k + 2) && (g.k < 2 ==> r.k == 1)
      && (s.rateLimited.value.Some? ==> d.wait == s.rateLimited.value.value)
      && (s.rateLimited.value.None? ==> d.wait == 1_000_000_000)
      && r.window.None? && r.changedAt == s.now && r.bytesAtChange == s.bytesTotal
  {
    hide Measured, Reprobed;
  }

  /** With the sixth stall in a row the level reached becomes the ceiling for good. */
  lemma SixthStallAnswer(g: Gov, s: Sample)
    requires s.rateLimited.None? && s.backpressure && g.stalls >= 5
    ensures var (r, d) := Observed(g, s);
      d == Hold && r.k == g.k && r.ceiling == g.k && r.phase == Holding && r.stop == DiskBound
  {
    hide Measured, Reprobed;
  }

  /** What no growth and no verdict touches. */
  predicate SameCounts(g: Gov, r: Gov) {
    r.best == g.best && r.stalls == g.stalls && r.recentStall == g.recentStall && r.lastBytes == g.lastBytes
  }

  lemma GrownCounts(g: Gov, s: Sample)
    ensures SameCounts(g, Grown(g, s).0)
  {
    hide GrowthLimit, MaxByWork;
  }

  lemma SettledCounts(g: Gov, winner: nat, level: nat, now: nat)
    ensures SameCounts(g, Settled(g, winner, level, now).0)
  {
  }

  lemma JudgedCounts(g: Gov, bps: real, s: Sample)
    ensures SameCounts(g, Judged(g, g.k, bps, s).0)
  {
    hide Gain, Grown, Settled, Disappointed;
    var level := Some(Level(g.k, bps));
    GrownCounts(g.(baseline := level), s);
    GrownCounts(g.(baseline := level, mid := None), s);
    if g.baseline.Some? {
      var base := g.baseline.value;
      DisappointedKeeps(g, base, g.k, bps);
      SettledCounts(Disappointed(g, base, g.k, bps), Winner(g, base, bps), g.k, s.now);
    }
  }

  lemma MeasuredCounts(g: Gov, s: Sample)
    ensures var r := Measured(g, s).0;
      && r.stalls == g.stalls && r.recentStall == g.recentStall && r.lastBytes == g.lastBytes
      && r.best == if Closes(g, s) then Closed(g, s, Rate(g, s)).best else g.best
  {
    hide Grown, Judged, Warming, TooEarly, Rate;
    if Closes(g, s) {
      var bps := Rate(g, s);
      var c := Closed(g, s, bps);
      GrownCounts(c.(baseline := Some(Level(g.k, bps)), phase := Ramp), s);
      JudgedCounts(c, bps, s);
    }
  }

  /** Stalls are counted as long as they follow each other. */
  lemma StallsAreCounted(g: Gov, s: Sample)
    requires s.rateLimited.None?
    ensures After(g, s).stalls == if s.backpressure then g.stalls + 1 else 0
    ensures After(g, s).recentStall == s.backpressure && After(g, s).lastBytes == s.bytesTotal
  {
    hide Measured;
    MeasuredCounts(Noted(g, s), s);
  }

  /** Two errors or more since the last sample, and nothing more urgent. */
  predicate Burst(g: Gov, s: Sample) {
    s.rateLimited.None? && !(s.backpressure && g.stalls >= 5) && s.errors >= 2
  }

  /** One connection goes, and no more than there were will ever be back. */
  lemma BurstAnswer(g: Gov, s: Sample)
    requires Burst(g, s) && g.k > 1
    ensures var (r, d) := Observed(g, s);
      && d == RetireTo(g.k - 1) && r.k == g.k - 1 && r.phase == Holding
      && r.ceiling <= g.k && r.ceiling <= g.ceiling && (r.ceiling == g.k || r.ceiling == g.ceiling)
      && r.window.None? && r.changedAt == s.now && r.bytesAtChange == s.bytesTotal
  {
    hide Measured, Reprobed;
  }

  /** With one connection left a settled governor sits a burst out. */
  lemma LastConnectionStays(g: Gov, s: Sample)
    requires Burst(g, s) && g.k <= 1 && g.phase == Holding
    ensures Observed(g, s).1 == Hold && After(g, s).k == g.k && After(g, s).phase == Holding
  {
    hide Measured;
  }

  ghost predicate Bursts(g: Gov, samples: seq<Sample>) {
    forall i :: 0 <= i < |samples| ==> Burst(Run(g, samples[..i]), samples[i])
  }

  /** So `n` bursts in a row take `n` connections, down to the last. */
  lemma {:induction false} BurstsShed(g: Gov, samples: seq<Sample>)
    requires g.k > 1 && Bursts(g, samples)
    ensures Run(g, samples).k == Max(Since(g.k, |samples|), 1)
    ensures |samples| > 0 ==> Run(g, samples).phase == Holding
    decreases |samples|
  {
    hide Observed, Burst;
    if |samples| > 0 {
      var n := |samples| - 1;
      assert forall i :: 0 <= i < n ==> samples[..n][..i] == samples[..i] && samples[..n][i] == samples[i];
      BurstsShed(g, samples[..n]);
      var h := Run(g, samples[..n]);
      assert Burst(h, samples[n]);
      if h.k > 1 {
        BurstAnswer(h, samples[n]);
      } else {
        LastConnectionStays(h, samples[n]);
      }
    }
  }

  /** And the level of before is never exceeded again, whatever follows. */
  lemma {:induction false} BurstIsForever(g: Gov, s: Sample, samples: seq<Sample>)
    requires InBounds(g) && Burst(g, s) && g.k > 1
    ensures Run(After(g, s), samples).k <= g.k
  {
    hide Observed, InBounds;
    ObserveIsSafe(g, s);
    BurstAnswer(g, s);
    RunIsSafe(After(g, s), samples);
    WithinCeiling(Run(After(g, s), samples));
  }

  lemma WithinCeiling(g: Gov)
    requires InBounds(g)
    ensures g.k <= g.ceiling
  {
  }

  // ----- nothing urgent -----

  predicate Urgent(g: Gov, s: Sample) {
    s.rateLimited.Some? || (s.backpressure && g.stalls >= 5) || (s.errors >= 2 && g.k > 1)
  }

  /** After a rate limit the next quiet sample ends the backing off. */
  lemma BackingOffEnds(g: Gov, s: Sample)
    requires !Urgent(g, s) && g.phase == BackingOff
    ensures Observed(g, s).1 == Hold && After(g, s).k == g.k && After(g, s).phase == Holding
  {
    hide Measured, Reprobed;
  }

  /** `n` connections are within the limits: ceiling, cap, and a minimum segment each. */
  predicate Fits(g: Gov, remaining: nat, n: nat) {
    n <= g.ceiling && n <= g.cfg.maxConns && (n <= 1 || n * MIN_SEGMENT <= remaining)
  }

  lemma SegmentsFit(remaining: nat, n: nat)
    ensures n <= MaxByWork(remaining) <==> n <= 1 || n * MIN_SEGMENT <= remaining
  {
  }

  lemma LimitFits(g: Gov, s: Sample, n: nat)
    ensures n <= GrowthLimit(g, s) <==> Fits(g, s.remaining, n)
  {
    hide MaxByWork;
    SegmentsFit(s.remaining, n);
  }

  /** A settled governor probes exactly when the interval is over and nothing speaks against it.  It
      goes up by two, or by one if two do not fit, compares with the best level it has seen, and
      will wait twice as long the next time. */
  lemma ReprobeAnswer(g: Gov, s: Sample)
    requires !Urgent(g, s) && g.phase == Holding
    ensures var (r, d) := Observed(g, s);
      && (d.SpawnTo? <==>
            && !g.saturated && g.stop != RateLimited && s.token && s.errors == 0
            && (g.reprobeInterval == 0 || s.now >= g.lastProbe + g.reprobeInterval)
            && s.remaining >= 8 * 1024 * 1024 && Fits(g, s.remaining, g.k + 1))
      && (d.SpawnTo? ==>
            && d.n == r.k && r.k == (if Fits(g, s.remaining, g.k + 2) then g.k + 2 else g.k + 1)
            && r.phase == Ramp && r.baseline == g.best && r.reprobeInterval == 2 * g.reprobeInterval
            && r.window.None? && r.changedAt == s.now && r.bytesAtChange == s.bytesTotal)
      && (!d.SpawnTo? ==>
            && d == Hold && r.phase == Holding && r.k == g.k && r.baseline == g.baseline
            && r.reprobeInterval == g.reprobeInterval && r.window == g.window && r.changedAt == g.changedAt)
      && r.ceiling == g.ceiling && r.best == g.best && r.lastProbe == g.lastProbe && r.mid == g.mid
      && r.stop == g.stop && r.saturated == g.saturated
  {
    hide Measured, GrowthLimit;
    LimitFits(Noted(g, s), s, g.k + 1);
    LimitFits(Noted(g, s), s, g.k + 2);
  }

  // ----- measuring -----

  /** Half a MiB per connection has come in since the last change, or the warmup is over. */
  predicate Warm(g: Gov, s: Sample) {
    || Since(s.bytesTotal, g.bytesAtChange) >= 512 * 1024 * g.k
    || Since(s.now, g.changedAt) >= g.cfg.warmup
  }

  /** A window closes after 150 ms at the earliest: with 2 MiB per connection, at the end of the dwell,
      or, from 250 ms on, as soon as six times what it has moved reaches what remains. */
  predicate LongEnough(g: Gov, s: Sample) {
    var w := WindowAt(g, s);
    var elapsed, moved := Since(s.now, w.started), Since(s.bytesTotal, w.startBytes);
    && elapsed >= 150_000_000
    && (moved >= 2 * 1024 * 1024 * g.k || elapsed >= g.cfg.dwell
        || (elapsed >= 250_000_000 && moved > 0 && 6 * moved >= s.remaining))
  }

  lemma SixthOfTheRest(elapsed: nat, moved: nat, remaining: nat)
    requires elapsed > 0 && moved > 0
    ensures elapsed as real < (remaining * elapsed) as real / (6 * moved) as real <==> 6 * moved < remaining
  {
    var sixth := (remaining * elapsed) as real / (6 * moved) as real;
    assert sixth * (6 * moved) as real == (remaining * elapsed) as real;
    assert (elapsed * (6 * moved)) as real == elapsed as real * (6 * moved) as real;
    if elapsed as real < sixth {
      ScaleLess(elapsed as real, sixth, (6 * moved) as real);
      MulLess(6 * moved, remaining, elapsed);
    } else {
      ScaleAtMost(sixth, elapsed as real, (6 * moved) as real);
      MulLess(6 * moved, remaining, elapsed);
    }
  }

  lemma ScaleLess(a: real, b: real, c: real)
    requires a < b && c > 0.0
    ensures a * c < b * c
  {
  }

  lemma ScaleAtMost(a: real, b: real, c: real)
    requires a <= b && c > 0.0
    ensures a * c <= b * c
  {
  }

  lemma MulLess(a: nat, b: nat, c: nat)
    requires c > 0
    ensures a < b <==> c * a < b * c
  {
  }

  /** When a window closes, in bytes and times alone. */
  lemma ClosesIff(g: Gov, s: Sample)
    ensures Closes(g, s) <==> (g.window.Some? || Warm(g, s)) && LongEnough(g, s)
  {
    var w := WindowAt(g, s);
    var elapsed, moved := Since(s.now, w.started), Since(s.bytesTotal, w.startBytes);
    DwellEndsIff(g, elapsed, moved, s.remaining);
    hide EffectiveDwell;
  }

  lemma DwellEndsIff(g: Gov, elapsed: nat, moved: nat, remaining: nat)
    ensures elapsed as real < EffectiveDwell(g, elapsed, moved, remaining) <==>
      elapsed < g.cfg.dwell && !(elapsed >= 250_000_000 && moved > 0 && 6 * moved >= remaining)
  {
    if elapsed >= MIN_DWELL && moved > 0 {
      SixthOfTheRest(elapsed, moved, remaining);
    }
  }

  /** While a window runs nothing changes; the first sample after the warmup opens it. */
  lemma WaitingAnswer(g: Gov, s: Sample)
    requires !Urgent(g, s) && Exploring(g) && !Closes(Noted(g, s), s)
    ensures var (r, d) := Observed(g, s);
      && d == Hold && r.k == g.k && r.phase == g.phase && r.baseline == g.baseline && r.mid == g.mid
      && r.ceiling == g.ceiling && r.best == g.best && r.lastProbe == g.lastProbe && r.changedAt == g.changedAt
      && r.stop == g.stop && r.saturated == g.saturated && r.bytesAtChange == g.bytesAtChange
      && r.window == (if g.window.None? && Warm(g, s) then Some(Window(s.now, s.bytesTotal)) else g.window)
  {
    hide TooEarly;
  }

  /** The rate of the window that closes. */
  function Measurement(g: Gov, s: Sample): real
    requires Closes(Noted(g, s), s)
  {
    Rate(Noted(g, s), s)
  }

  /** Bytes over time, from the sample that opened the window to the one that closes it. */
  lemma MeasurementIs(g: Gov, s: Sample)
    requires Closes(Noted(g, s), s) && g.window.Some?
    ensures s.now > g.window.value.started
    ensures Measurement(g, s) * (s.now - g.window.value.started) as real ==
      Since(s.bytesTotal, g.window.value.startBytes) as real
  {
    hide EffectiveDwell;
  }

  /** The first level ever measured, or one that beats the level compared with by the threshold. */
  predicate Pays(g: Gov, bps: real) {
    || g.phase == Baseline || g.baseline.None?
    || (g.baseline.value.bps > 0.0 && bps >= g.baseline.value.bps * (1.0 + g.cfg.gainThreshold))
    || (g.baseline.value.bps <= 0.0 && 1.0 >= g.cfg.gainThreshold)
  }

  lemma GainPays(prev: real, bps: real, threshold: real)
    ensures Gain(prev, bps) >= threshold <==>
      if prev > 0.0 then bps >= prev * (1.0 + threshold) else 1.0 >= threshold
  {
    if prev > 0.0 {
      var q := bps / prev;
      assert q * prev == bps;
      if q >= 1.0 + threshold {
        ScaleAtMost(1.0 + threshold, q, prev);
      } else {
        ScaleLess(q, 1.0 + threshold, prev);
      }
    }
  }

  /** A level that paid becomes the one to compare with.  With the token and no stall the next one is
      twice as high or as high as fits; otherwise the governor settles, and lets go of the token if
      it has it. */
  lemma PaidAnswer(g: Gov, s: Sample, n: nat)
    requires !Urgent(g, s) && Exploring(g) && Closes(Noted(g, s), s) && Pays(g, Measurement(g, s)) && g.k >= 1
    ensures var (r, d) := Observed(g, s);
      && r.baseline == Some(Level(g.k, Measurement(g, s))) && r.ceiling == g.ceiling && r.saturated == g.saturated
      && r.window.None? && r.changedAt == s.now && (g.phase == Ramp && g.baseline.Some? ==> r.mid.None?)
      && (!s.token ==> d == Hold && r.k == g.k && r.phase == Holding && r.lastProbe == g.lastProbe && r.stop == g.stop)
      && (s.token && s.backpressure ==>
            d == ReleaseToken(g.k) && r.k == g.k && r.phase == Holding && r.lastProbe == s.now && r.stop == DiskBound)
      && (s.token && !s.backpressure && Fits(g, s.remaining, g.k + 1) ==>
            && d == SpawnTo(r.k) && r.phase == Ramp && r.bytesAtChange == s.bytesTotal && r.stop == g.stop
            && (n <= r.k <==> n <= 2 * g.k && Fits(g, s.remaining, n)))
      && (s.token && !s.backpressure && !Fits(g, s.remaining, g.k + 1) ==>
            && d == ReleaseToken(g.k) && r.k == g.k && r.phase == Holding && r.lastProbe == s.now
            && r.stop == (if (g.k + 1) * MIN_SEGMENT > s.remaining then NotEnoughWork else ReachedCeiling))
  {
    hide Warming, TooEarly, Rate, Gain, Disappointed, Settled;
    var h := Noted(g, s);
    var bps := Measurement(g, s);
    if g.baseline.Some? {
      GainPays(g.baseline.value.bps, bps, g.cfg.gainThreshold);
    }
    var c := Closed(h, s, bps);
    var level := Some(Level(g.k, bps));
    GrownAnswer(c.(baseline := level, phase := Ramp), s, n);
    GrownAnswer(c.(baseline := level), s, n);
    GrownAnswer(c.(baseline := level, mid := None), s, n);
    hide Grown, GrowthLimit;
  }

  lemma GrownAnswer(g: Gov, s: Sample, n: nat)
    requires g.k >= 1 && g.window.None? && g.changedAt == s.now
    ensures var (r, d) := Grown(g, s);
      && r.baseline == g.baseline && r.ceiling == g.ceiling && r.saturated == g.saturated && r.mid == g.mid
      && r.window.None? && r.changedAt == s.now
      && (!s.token ==> d == Hold && r.k == g.k && r.phase == Holding && r.lastProbe == g.lastProbe && r.stop == g.stop)
      && (s.token && g.recentStall ==>
            d == ReleaseToken(g.k) && r.k == g.k && r.phase == Holding && r.lastProbe == s.now && r.stop == DiskBound)
      && (s.token && !g.recentStall && Fits(g, s.remaining, g.k + 1) ==>
            && d == SpawnTo(r.k) && r.phase == Ramp && r.bytesAtChange == g.lastBytes && r.stop == g.stop
            && (n <= r.k <==> n <= 2 * g.k && Fits(g, s.remaining, n)))
      && (s.token && !g.recentStall && !Fits(g, s.remaining, g.k + 1) ==>
            && d == ReleaseToken(g.k) && r.k == g.k && r.phase == Holding && r.lastProbe == s.now
            && r.stop == (if (g.k + 1) * MIN_SEGMENT > s.remaining then NotEnoughWork else ReachedCeiling))
  {
    LimitFits(g, s, n);
    LimitFits(g, s, g.k + 1);
    SegmentsFit(s.remaining, g.k + 1);
    hide GrowthLimit, MaxByWork;
  }

  /** The best level seen is kept, whatever else a window leads to; a tie does not replace it. */
  lemma BestIsKept(g: Gov, s: Sample)
    requires !Urgent(g, s) && Exploring(g) && Closes(Noted(g, s), s)
    ensures After(g, s).best.Some?
    ensures g.best.Some? && g.best.value.bps >= Measurement(g, s) ==> After(g, s).best == g.best
    ensures g.best.None? || g.best.value.bps < Measurement(g, s) ==> After(g, s).best == Some(Level(g.k, Measurement(g, s)))
  {
    hide Measured, Warming, TooEarly, Rate;
    MeasuredCounts(Noted(g, s), s);
  }

  /** Throughput per connection has fallen to the saturation share of what it was, or less. */
  predicate Shared(base: Level, level: nat, bps: real, ratio: real) {
    if base.bps > 0.0 && level > 0 && base.conns > 0
    then bps * base.conns as real <= ratio * base.bps * level as real
    else 1.0 <= ratio
  }

  lemma PerConnShared(base: Level, level: nat, bps: real, ratio: real)
    ensures PerConn(base, level, bps) <= ratio <==> Shared(base, level, bps, ratio)
  {
    if base.bps > 0.0 && level > 0 && base.conns > 0 {
      var a, b := bps / level as real, base.bps / base.conns as real;
      assert a * level as real == bps && b * base.conns as real == base.bps;
      assert b > 0.0;
      RatioAtMost(a, b, ratio);
      CrossMultiplied(a, b, level as real, base.conns as real, ratio);
    }
  }

  lemma RatioAtMost(a: real, b: real, r: real)
    requires b > 0.0
    ensures a / b <= r <==> a <= r * b
  {
    var q := a / b;
    assert q * b == a;
    if q <= r {
      ScaleAtMost(q, r, b);
    } else {
      ScaleLess(r, q, b);
    }
  }

  lemma CrossMultiplied(a: real, b: real, l: real, c: real, r: real)
    requires l > 0.0 && c > 0.0
    ensures a <= r * b <==> (a * l) * c <= r * (b * c) * l
  {
    var lc := l * c;
    assert (a * l) * c == a * lc;
    assert r * (b * c) * l == (r * b) * lc;
    if a <= r * b {
      ScaleAtMost(a, r * b, lc);
    } else {
      ScaleLess(r * b, a, lc);
    }
  }

  /** A level that did not pay is remembered as saturation if connections only shared the rate.  The
      first time a midpoint is tried if there is one; then the governor settles, where it may not
      come back to the level it tried. */
  lemma UnpaidAnswer(g: Gov, s: Sample)
    requires !Urgent(g, s) && g.phase == Ramp && Closes(Noted(g, s), s) && !Pays(g, Measurement(g, s))
    ensures var (r, d), base, bps := Observed(g, s), g.baseline.value, Measurement(g, s);
      var mid := (base.conns + g.k) / 2;
      && r.baseline == g.baseline && r.window.None? && r.changedAt == s.now && r.bytesAtChange == s.bytesTotal
      && (r.saturated <==> g.saturated || Shared(base, g.k, bps, g.cfg.saturationRatio))
      && (r.stop == if Shared(base, g.k, bps, g.cfg.saturationRatio) && Gain(base.bps, bps) < PENALISED
                    then ServerPenalised else Saturated)
      && (g.mid.None? && base.conns < mid < g.k ==>
            && d == RetireTo(mid) && r.k == mid && r.mid == Some(mid) && r.phase == Ramp
            && r.ceiling == g.ceiling && r.lastProbe == g.lastProbe)
      && (g.mid.Some? || !(base.conns < mid < g.k) ==>
            && d == ReleaseToken(r.k) && r.phase == Holding && r.mid.None? && r.lastProbe == s.now
            && SettlesAt(r.k, if g.mid.Some? && bps > base.bps then g.mid.value else base.conns, g.ceiling)
            && r.ceiling <= g.ceiling && (r.ceiling == g.ceiling || r.ceiling == Max(Since(g.k, 1), r.k))
            && r.ceiling <= Max(Since(g.k, 1), r.k))
  {
    hide Warming, TooEarly, Rate, Gain, PerConn, Grown, Settled, Disappointed, Shared;
    var base, bps := g.baseline.value, Measurement(g, s);
    var c := Closed(Noted(g, s), s, bps);
    GainPays(base.bps, bps, g.cfg.gainThreshold);
    DisappointedKeeps(c, base, g.k, bps);
    DisappointedAnswer(c, base, g.k, bps);
    SettledAnswer(Disappointed(c, base, g.k, bps), Winner(c, base, bps), g.k, s.now);
  }

  lemma DisappointedAnswer(g: Gov, base: Level, level: nat, bps: real)
    ensures var d := Disappointed(g, base, level, bps);
      && (d.saturated <==> g.saturated || Shared(base, level, bps, g.cfg.saturationRatio))
      && (d.stop == if Shared(base, level, bps, g.cfg.saturationRatio) && Gain(base.bps, bps) < PENALISED
                    then ServerPenalised else Saturated)
  {
    hide PerConn, Shared, Gain;
    PerConnShared(base, level, bps, g.cfg.saturationRatio);
  }

  lemma SettledAnswer(g: Gov, winner: nat, level: nat, now: nat)
    ensures var (r, d) := Settled(g, winner, level, now);
      && d == ReleaseToken(r.k) && r.phase == Holding && r.mid.None? && r.lastProbe == now && r.changedAt == now
      && r.window.None? && r.bytesAtChange == g.lastBytes && r.baseline == g.baseline
      && r.saturated == g.saturated && r.stop == g.stop
      && SettlesAt(r.k, winner, g.ceiling)
      && r.ceiling <= g.ceiling && (r.ceiling == g.ceiling || r.ceiling == Max(Since(level, 1), r.k))
      && r.ceiling <= Max(Since(level, 1), r.k)
  {
  }

  /** At the winner, or below it at the ceiling, but never at zero. */
  predicate SettlesAt(k: nat, winner: nat, ceiling: nat) {
    1 <= k && (k == 1 || (k <= winner && k <= ceiling)) && (k == winner || k == ceiling || (k == 1 && (winner == 0 || ceiling == 0)))
  }
}
