/** The adaptive-concurrency governor (governor.rs): a state machine over samples.  Times are
    nanoseconds, rates are exact bytes per nanosecond. */
module Governors {
  import opened Common
  import opened Plans

  const MILLISECOND: nat := 1_000_000
  const SECOND: nat := 1000 * MILLISECOND
  const WARMUP_BYTES_PER_CONN: nat := 512 * 1024
  const DWELL_BYTES_PER_CONN: nat := 2 * 1024 * 1024
  const MIN_SAMPLE: nat := 150 * MILLISECOND
  const MIN_DWELL: nat := 250 * MILLISECOND
  const PENALISED: real := -0.05

  datatype Config = Config(
    warmup: nat, dwell: nat, gainThreshold: real, reprobeInterval: nat, saturationRatio: real, maxConns: nat)

  datatype Sample = Sample(
    now: nat, bytesTotal: nat, conns: nat, errors: nat, rateLimited: Option<Option<nat>>,
    backpressure: bool, remaining: nat, token: bool)

  datatype Decision = Hold | SpawnTo(n: nat) | RetireTo(n: nat) | BackOff(conns: nat, wait: nat) | ReleaseToken(n: nat)

  datatype Phase = Baseline | Ramp | Holding | BackingOff

  datatype StopReason =
    StillRamping | Saturated | ServerPenalised | RateLimited | DiskBound | NotEnoughWork | ReachedCeiling

  datatype Level = Level(conns: nat, bps: real)
  datatype Window = Window(started: nat, startBytes: nat)

  datatype Gov = Gov(
    cfg: Config, phase: Phase, k: nat, ceiling: nat, best: Option<Level>, baseline: Option<Level>,
    window: Option<Window>, changedAt: nat, bytesAtChange: nat, mid: Option<nat>, lastProbe: nat,
    reprobeInterval: nat, stalls: nat, lastBytes: nat, recentStall: bool, stop: StopReason, saturated: bool)

  // ----- the pieces, as functions of the state -----

  function Created(cfg: Config, k0: nat, now: nat): Gov {
    Gov(cfg, Baseline, Max(k0, 1), cfg.maxConns, None, None, None, now, 0, None, now, cfg.reprobeInterval, 0, 0, false,
        StillRamping, false)
  }

  function MaxByWork(remaining: nat): nat {
    Max(remaining / MIN_SEGMENT, 1)
  }

  function Changed(g: Gov, k: nat, now: nat): Gov {
    g.(k := k, changedAt := now, window := None, bytesAtChange := g.lastBytes)
  }

  /** How long a window must run: no more than a sixth of the time the rest should take. */
  function EffectiveDwell(g: Gov, elapsed: nat, moved: nat, remaining: nat): real {
    if elapsed < MIN_DWELL || moved == 0 then g.cfg.dwell as real
    else
      var sixth := (remaining * elapsed) as real / (6 * moved) as real;
      var budget := if sixth >= MIN_DWELL as real then sixth else MIN_DWELL as real;
      if budget <= g.cfg.dwell as real then budget else g.cfg.dwell as real
  }

  function Grown(g: Gov, s: Sample): (Gov, Decision) {
    if !s.token then (g.(phase := Holding), Hold)
    else if g.recentStall then
      (g.(stop := DiskBound, phase := Holding, lastProbe := s.now), ReleaseToken(g.k))
    else
      var next := Min(g.k * 2, GrowthLimit(g, s));
      if next <= g.k then
        (g.(stop := if MaxByWork(s.remaining) <= g.k then NotEnoughWork else ReachedCeiling,
            phase := Holding, lastProbe := s.now),
         ReleaseToken(g.k))
      else (Changed(g.(phase := Ramp), next, s.now), SpawnTo(next))
  }

  function GrowthLimit(g: Gov, s: Sample): nat {
    Min(Min(g.ceiling, g.cfg.maxConns), MaxByWork(s.remaining))
  }

  function Gain(prev: real, bps: real): real {
    if prev > 0.0 then bps / prev - 1.0 else 1.0
  }

  /** Throughput per connection against the baseline's. */
  function PerConn(base: Level, level: nat, bps: real): real {
    if base.bps > 0.0 && level > 0 && base.conns > 0
    then (bps / level as real) / (base.bps / base.conns as real)
    else 1.0
  }

  /** The verdict on an increase that did not pay. */
  function Disappointed(g: Gov, base: Level, level: nat, bps: real): Gov {
    if PerConn(base, level, bps) <= g.cfg.saturationRatio then
      g.(saturated := true, stop := if Gain(base.bps, bps) < PENALISED then ServerPenalised else Saturated)
    else g.(stop := Saturated)
  }

  /** Settle at `winner`, or below it if the ceiling is lower, and never come back to `level`. */
  function Settled(g: Gov, winner: nat, level: nat, now: nat): (Gov, Decision) {
    var settle := Max(Min(winner, g.ceiling), 1);
    (Changed(g.(phase := Holding, lastProbe := now, mid := None,
                ceiling := Min(g.ceiling, Max(Since(level, 1), settle))), settle, now),
     ReleaseToken(settle))
  }

  function Judged(g: Gov, level: nat, bps: real, s: Sample): (Gov, Decision) {
    if g.baseline.None? then Grown(g.(baseline := Some(Level(level, bps))), s)
    else
      var base := g.baseline.value;
      if Gain(base.bps, bps) >= g.cfg.gainThreshold then
        Grown(g.(baseline := Some(Level(level, bps)), mid := None), s)
      else
        var d := Disappointed(g, base, level, bps);
        if g.mid.Some? then Settled(d, if bps > base.bps then g.mid.value else base.conns, level, s.now)
        else
          var mid := (base.conns + level) / 2;
          if base.conns < mid < level then (Changed(d.(mid := Some(mid)), mid, s.now), RetireTo(mid))
          else Settled(d, base.conns, level, s.now)
  }

  /** Still warming up: neither enough time nor enough data since the last change. */
  predicate Warming(g: Gov, s: Sample) {
    && g.window.None?
    && Since(s.bytesTotal, g.bytesAtChange) < WARMUP_BYTES_PER_CONN * g.k
    && Since(s.now, g.changedAt) < g.cfg.warmup
  }

  function WindowAt(g: Gov, s: Sample): Window {
    if g.window.Some? then g.window.value else Window(s.now, s.bytesTotal)
  }

  predicate TooEarly(g: Gov, s: Sample) {
    var w := WindowAt(g, s);
    var elapsed, moved := Since(s.now, w.started), Since(s.bytesTotal, w.startBytes);
    || elapsed < MIN_SAMPLE
    || (elapsed as real < EffectiveDwell(g, elapsed, moved, s.remaining) && moved < DWELL_BYTES_PER_CONN * g.k)
  }

  /** The sample closes the measurement window. */
  predicate Closes(g: Gov, s: Sample) {
    !Warming(g, s) && !TooEarly(g, s)
  }

  function Rate(g: Gov, s: Sample): real
    requires !TooEarly(g, s)
  {
    var w := WindowAt(g, s);
    Since(s.bytesTotal, w.startBytes) as real / Since(s.now, w.started) as real
  }

  function Closed(g: Gov, s: Sample, bps: real): Gov {
    g.(window := None, changedAt := s.now,
       best := if g.best.None? || bps > g.best.value.bps then Some(Level(g.k, bps)) else g.best)
  }

  lemma ClosedForgets(g: Gov, w: Window, s: Sample, bps: real)
    ensures Closed(g.(window := Some(w)), s, bps) == Closed(g, s, bps)
  {
  }

  function Measured(g: Gov, s: Sample): (Gov, Decision) {
    if Warming(g, s) then (g, Hold)
    else if TooEarly(g, s) then (g.(window := Some(WindowAt(g, s))), Hold)
    else
      var bps := Rate(g, s);
      var c := Closed(g, s, bps);
      if g.phase == Baseline then Grown(c.(baseline := Some(Level(g.k, bps)), phase := Ramp), s)
      else Judged(c, g.k, bps, s)
  }

  function Reprobed(g: Gov, s: Sample): (Gov, Decision) {
    var next := Min(g.k + 2, GrowthLimit(g, s));
    if g.saturated || g.stop == RateLimited || !s.token || s.errors > 0
      || Since(s.now, g.lastProbe) < g.reprobeInterval || s.remaining < MIN_SEGMENT * 4 || next <= g.k
    then (g, Hold)
    else
      (Changed(g.(reprobeInterval := g.reprobeInterval * 2, baseline := g.best, phase := Ramp), next, s.now),
       SpawnTo(next))
  }

  /** Halve, and stay there. */
  function BackedOff(g: Gov, s: Sample): (Gov, Decision)
    requires s.rateLimited.Some?
  {
    var k := Max(g.k / 2, 1);
    (Changed(g.(ceiling := k, saturated := true, stop := RateLimited, phase := BackingOff), k, s.now),
     BackOff(k, if s.rateLimited.value.Some? then s.rateLimited.value.value else SECOND))
  }

  /** One connection less, and never more than there were. */
  function Shed(g: Gov, s: Sample): (Gov, Decision)
    requires g.k > 1
  {
    (Changed(g.(ceiling := Min(g.ceiling, g.k), phase := Holding), g.k - 1, s.now), RetireTo(g.k - 1))
  }

  /** One observation. */
  function Observed(g0: Gov, s: Sample): (Gov, Decision) {
    var g := g0.(lastBytes := s.bytesTotal);
    if s.rateLimited.Some? then BackedOff(g, s)
    else
      var h := g.(recentStall := s.backpressure, stalls := if s.backpressure then g.stalls + 1 else 0);
      if s.backpressure && h.stalls >= 6 then (h.(ceiling := h.k, stop := DiskBound, phase := Holding), Hold)
      else if s.errors >= 2 && h.k > 1 then Shed(h, s)
      else
        match h.phase
        case BackingOff => (h.(phase := Holding), Hold)
        case Holding => Reprobed(h, s)
        case _ => Measured(h, s)
  }

  function EndgameTarget(k: nat, remaining: nat): Option<nat> {
    if remaining < MIN_SEGMENT then Some(1)
    else if remaining < MIN_SEGMENT * 2 then Some(Min(2, k))
    else None
  }

  // ----- the governor itself -----

  class Governor {
    const cfg: Config
    var phase: Phase
    var k: nat
    var ceiling: nat
    var best: Option<Level>
    var baseline: Option<Level>
    var window: Option<Window>
    var changedAt: nat
    var bytesAtChange: nat
    var mid: Option<nat>
    var lastProbe: nat
    var reprobeInterval: nat
    var stalls: nat
    var lastBytes: nat
    var recentStall: bool
    var stop: StopReason
    var saturated: bool

    function State(): Gov
      reads this
    {
      Gov(cfg, phase, k, ceiling, best, baseline, window, changedAt, bytesAtChange, mid, lastProbe, reprobeInterval,
          stalls, lastBytes, recentStall, stop, saturated)
    }

    constructor (cfg: Config, k0: nat, now: nat)
      ensures State() == Created(cfg, k0, now)
    {
      this.cfg, phase, k, ceiling := cfg, Baseline, Max(k0, 1), cfg.maxConns;
      best, baseline, window, mid := None, None, None, None;
      changedAt, lastProbe, bytesAtChange, lastBytes := now, now, 0, 0;
      reprobeInterval, stalls, recentStall := cfg.reprobeInterval, 0, false;
      stop, saturated := StillRamping, false;
    }

    method ChangeTo(k: nat, now: nat)
      modifies this
      ensures State() == Changed(old(State()), k, now)
    {
      this.k := k;
      changedAt := now;
      window := None;
      bytesAtChange := lastBytes;
    }

    method HalveFor(s: Sample) returns (d: Decision)
      requires s.rateLimited.Some?
      modifies this
      ensures (State(), d) == BackedOff(old(State()), s)
    {
      hide Changed;
      var half := Max(k / 2, 1);
      ceiling, saturated, stop, phase := half, true, RateLimited, BackingOff;
      ChangeTo(half, s.now);
      d := BackOff(half, if s.rateLimited.value.Some? then s.rateLimited.value.value else SECOND);
    }

    method ShedOne(s: Sample) returns (d: Decision)
      requires k > 1
      modifies this
      ensures (State(), d) == Shed(old(State()), s)
    {
      hide Changed;
      var fewer := k - 1;
      ceiling, phase := Min(ceiling, k), Holding;
      ChangeTo(fewer, s.now);
      d := RetireTo(fewer);
    }

    method Observe(s: Sample) returns (d: Decision)
      modifies this
      ensures (State(), d) == Observed(old(State()), s)
    {
      hide Measured, Reprobed, BackedOff, Shed;
      lastBytes := s.bytesTotal;
      if s.rateLimited.Some? {
        d := HalveFor(s);
        return;
      }
      recentStall := s.backpressure;
      if s.backpressure {
        stalls := stalls + 1;
        if stalls >= 6 {
          ceiling, stop, phase := k, DiskBound, Holding;
          return Hold;
        }
      } else {
        stalls := 0;
      }
      if s.errors >= 2 && k > 1 {
        d := ShedOne(s);
        return;
      }
      match phase
      case BackingOff =>
        phase := Holding;
        d := Hold;
      case Holding =>
        d := MaybeReprobe(s);
      case _ =>
        d := Measure(s);
    }

    method CloseWindow(s: Sample, bps: real)
      modifies this
      ensures State() == Closed(old(State()), s, bps)
      ensures phase == old(phase) && k == old(k)
    {
      window, changedAt := None, s.now;
      if best.None? || bps > best.value.bps {
        best := Some(Level(k, bps));
      }
    }

    method Measure(s: Sample) returns (d: Decision)
      modifies this
      ensures (State(), d) == Measured(old(State()), s)
    {
      hide Grown, Judged, EffectiveDwell, Closed;
      if window.None? {
        var enoughBytes := Since(s.bytesTotal, bytesAtChange) >= WARMUP_BYTES_PER_CONN * k;
        var enoughTime := Since(s.now, changedAt) >= cfg.warmup;
        if !enoughBytes && !enoughTime {
          return Hold;
        }
      }
      var w := if window.Some? then window.value else Window(s.now, s.bytesTotal);
      window := Some(w);
      var elapsed, moved := Since(s.now, w.started), Since(s.bytesTotal, w.startBytes);
      if elapsed < MIN_SAMPLE
        || (elapsed as real < EffectiveDwell(State(), elapsed, moved, s.remaining) && moved < DWELL_BYTES_PER_CONN * k)
      {
        return Hold;
      }
      var bps := moved as real / elapsed as real;
      ClosedForgets(old(State()), w, s, bps);
      CloseWindow(s, bps);
      if phase == Baseline {
        baseline, phase := Some(Level(k, bps)), Ramp;
        d := TryGrow(s);
      } else {
        d := Judge(k, bps, s);
      }
    }

    method Judge(level: nat, bps: real, s: Sample) returns (d: Decision)
      modifies this
      ensures (State(), d) == Judged(old(State()), level, bps, s)
    {
      hide Grown, Settled, Gain, PerConn;
      if baseline.None? {
        baseline := Some(Level(level, bps));
        d := TryGrow(s);
        return;
      }
      var base := baseline.value;
      var gain := Gain(base.bps, bps);
      if gain >= cfg.gainThreshold {
        baseline, mid := Some(Level(level, bps)), None;
        d := TryGrow(s);
        return;
      }
      if PerConn(base, level, bps) <= cfg.saturationRatio {
        saturated := true;
        stop := if gain < PENALISED then ServerPenalised else Saturated;
      } else {
        stop := Saturated;
      }
      if mid.Some? {
        d := Settle(if bps > base.bps then mid.value else base.conns, level, s.now);
        return;
      }
      var half := (base.conns + level) / 2;
      if base.conns < half < level {
        mid := Some(half);
        ChangeTo(half, s.now);
        return RetireTo(half);
      }
      d := Settle(base.conns, level, s.now);
    }

    method Settle(winner: nat, level: nat, now: nat) returns (d: Decision)
      modifies this
      ensures (State(), d) == Settled(old(State()), winner, level, now)
    {
      var settle := Max(Min(winner, ceiling), 1);
      mid, phase, lastProbe := None, Holding, now;
      ceiling := Min(ceiling, Max(Since(level, 1), settle));
      ChangeTo(settle, now);
      d := ReleaseToken(settle);
    }

    method TryGrow(s: Sample) returns (d: Decision)
      modifies this
      ensures (State(), d) == Grown(old(State()), s)
    {
      if !s.token {
        phase := Holding;
        return Hold;
      }
      if recentStall {
        stop, phase, lastProbe := DiskBound, Holding, s.now;
        return ReleaseToken(k);
      }
      var byWork := MaxByWork(s.remaining);
      var next := Min(k * 2, Min(Min(ceiling, cfg.maxConns), byWork));
      if next <= k {
        stop := if byWork <= k then NotEnoughWork else ReachedCeiling;
        phase, lastProbe := Holding, s.now;
        return ReleaseToken(k);
      }
      phase := Ramp;
      ChangeTo(next, s.now);
      d := SpawnTo(next);
    }

    method MaybeReprobe(s: Sample) returns (d: Decision)
      modifies this
      ensures (State(), d) == Reprobed(old(State()), s)
    {
      if saturated || stop == RateLimited {
        return Hold;
      }
      if !s.token || s.errors > 0 {
        return Hold;
      }
      if Since(s.now, lastProbe) < reprobeInterval {
        return Hold;
      }
      if s.remaining < MIN_SEGMENT * 4 {
        return Hold;
      }
      var next := Min(k + 2, Min(Min(ceiling, cfg.maxConns), MaxByWork(s.remaining)));
      if next <= k {
        return Hold;
      }
      reprobeInterval := reprobeInterval * 2;
      baseline, phase := best, Ramp;
      ChangeTo(next, s.now);
      d := SpawnTo(next);
    }
  }
}
