/** The connection count a download starts with, and whether the governor's cap can hold it
    (task/mod.rs). */
module Starting {
  import opened Common
  import opened Governors
  import opened Plans
  import opened GovernorRuns

  const MEBIBYTE: nat := 1024 * 1024
  const SMALL_FILE_THRESHOLD: nat := 4 * MEBIBYTE
  const LARGE_ENOUGH: nat := 32 * MEBIBYTE
  const GOVERNOR_CAP: nat := 32

  /** What was learned about a host before. */
  datatype HostHint = HostHint(bestConns: Option<nat>, saturated: bool)

  datatype Limits = Limits(perDownload: nat, total: nat)

  function FromHint(hint: HostHint, size: nat): nat {
    if size >= LARGE_ENOUGH && hint.bestConns.Some? then
      (if hint.saturated then Min(hint.bestConns.value, 4) else hint.bestConns.value)
    else if size < LARGE_ENOUGH then 2
    else 4
  }

  function InitialConns(resumable: bool, size: Option<nat>, limits: Limits, fixed: Option<nat>, hint: Option<HostHint>): nat {
    if !resumable || size.None? || size.value < SMALL_FILE_THRESHOLD then 1
    else
      var bySize := Max(size.value / MIN_SEGMENT, 1);
      var ceiling := if fixed.Some? then fixed.value else limits.perDownload;
      var base :=
        if fixed.Some? then fixed.value
        else if hint.Some? then FromHint(hint.value, size.value)
        else if size.value < LARGE_ENOUGH then 2
        else 4;
      Max(Min(Min(Min(base, bySize), ceiling), limits.total), 1)
  }

  /** The limit on connections that applies to this download. */
  function Limit(limits: Limits, fixed: Option<nat>): nat {
    if fixed.Some? then fixed.value else limits.perDownload
  }

  /** The cap handed to the governor. */
  function Cap(limits: Limits, fixed: Option<nat>): nat {
    Min(Limit(limits, fixed), GOVERNOR_CAP)
  }

  /** The start is at least one, respects the limit asked for and both other limits, and never
      leaves a connection without a minimum segment. */
  lemma StartRespectsLimits(resumable: bool, size: Option<nat>, limits: Limits, fixed: Option<nat>, hint: Option<HostHint>)
    ensures var k := InitialConns(resumable, size, limits, fixed, hint);
      && k >= 1
      && (k > 1 ==> resumable && size.Some? && k * MIN_SEGMENT <= size.value)
      && (k > 1 ==> k <= limits.total && k <= Limit(limits, fixed))
  {
    if size.Some? {
      assert (size.value / MIN_SEGMENT) * MIN_SEGMENT <= size.value;
    }
  }

  /** What is asked for before any limit: the fixed number; else the level remembered of the host, no
      more than 4 if it was saturated, for a file of 32 MiB or more; else 2 or 4 by that size. */
  ghost predicate Asked(size: nat, fixed: Option<nat>, hint: Option<HostHint>, n: nat) {
    var remembered := hint.Some? && hint.value.bestConns.Some? && size >= LARGE_ENOUGH;
    && (fixed.Some? ==> n == fixed.value)
    && (fixed.None? && remembered && !hint.value.saturated ==> n == hint.value.bestConns.value)
    && (fixed.None? && remembered && hint.value.saturated ==>
          n <= 4 && n <= hint.value.bestConns.value && (n == 4 || n == hint.value.bestConns.value))
    && (fixed.None? && !remembered ==> n == if size < LARGE_ENOUGH then 2 else 4)
  }

  /** A single connection for what cannot be split, is of unknown size or small. */
  lemma SingleStart(resumable: bool, size: Option<nat>, limits: Limits, fixed: Option<nat>, hint: Option<HostHint>)
    requires !resumable || size.None? || size.value < SMALL_FILE_THRESHOLD
    ensures InitialConns(resumable, size, limits, fixed, hint) == 1
  {
  }

  /** Otherwise the start is the most that was asked for and every limit allows, or one. */
  lemma StartIsTheMost(size: nat, limits: Limits, fixed: Option<nat>, hint: Option<HostHint>, n: nat, k: nat)
    requires size >= SMALL_FILE_THRESHOLD && Asked(size, fixed, hint, n)
    ensures var start := InitialConns(true, Some(size), limits, fixed, hint);
      k <= start <==> k <= 1 || (k <= n && k * MIN_SEGMENT <= size && k <= Limit(limits, fixed) && k <= limits.total)
  {
    MostSegments(size, k);
  }

  lemma MostSegments(size: nat, k: nat)
    ensures k * MIN_SEGMENT <= size <==> k <= size / MIN_SEGMENT
  {
  }

  /** More than 32 connections are asked for: by the user, or by what is remembered of the host. */
  predicate WantsMany(size: nat, fixed: Option<nat>, hint: Option<HostHint>) {
    fixed.Some? ||
    (size >= LARGE_ENOUGH && hint.Some? && !hint.value.saturated && hint.value.bestConns.Some?
     && hint.value.bestConns.value > GOVERNOR_CAP)
  }

  /** The inputs for which the cap holds the start: the limit is not zero, and not everything that
      bounds the start lies above 32. */
  predicate CapHolds(resumable: bool, size: Option<nat>, limits: Limits, fixed: Option<nat>, hint: Option<HostHint>) {
    && Limit(limits, fixed) >= 1
    && !(resumable && size.Some? && size.value >= SMALL_FILE_THRESHOLD
         && size.value / MIN_SEGMENT > GOVERNOR_CAP && Limit(limits, fixed) > GOVERNOR_CAP
         && limits.total > GOVERNOR_CAP && WantsMany(size.value, fixed, hint))
  }

  lemma StartIsWithinCapIff(resumable: bool, size: Option<nat>, limits: Limits, fixed: Option<nat>, hint: Option<HostHint>)
    ensures InitialConns(resumable, size, limits, fixed, hint) <= Cap(limits, fixed) <==>
      CapHolds(resumable, size, limits, fixed, hint)
  {
    StartRespectsLimits(resumable, size, limits, fixed, hint);
  }

  /** And then, and only then, the level never leaves the cap, whatever the samples say. */
  lemma LevelStaysWithinCapIff(resumable: bool, size: Option<nat>, limits: Limits, fixed: Option<nat>, hint: Option<HostHint>,
                               cfg: Config, now: nat)
    requires cfg.maxConns == Cap(limits, fixed)
    ensures var k0 := InitialConns(resumable, size, limits, fixed, hint);
      (forall samples :: Run(Created(cfg, k0, now), samples).k <= cfg.maxConns) <==>
      CapHolds(resumable, size, limits, fixed, hint)
  {
    hide CapHolds;
    StartIsWithinCapIff(resumable, size, limits, fixed, hint);
    StartRespectsLimits(resumable, size, limits, fixed, hint);
    var k0 := InitialConns(resumable, size, limits, fixed, hint);
    assert Run(Created(cfg, k0, now), []).k == k0;
    if k0 <= cfg.maxConns {
      forall samples
        ensures Run(Created(cfg, k0, now), samples).k <= cfg.maxConns
      {
        BoundsHoldForever(cfg, k0, now, samples);
      }
    }
  }

  /** Limits up to 32 are enough for the governor's bounds to hold throughout. */
  lemma {:induction false} SmallLimitsKeepTheBounds(resumable: bool, size: Option<nat>, limits: Limits, hint: Option<HostHint>, cfg: Config,
                                 now: nat, samples: seq<Sample>)
    requires 1 <= limits.perDownload <= GOVERNOR_CAP && cfg.maxConns == Cap(limits, None)
    ensures var k0 := InitialConns(resumable, size, limits, None, hint);
      var g := Run(Created(cfg, k0, now), samples);
      1 <= k0 <= cfg.maxConns && 1 <= g.k <= g.ceiling <= limits.perDownload
  {
    StartRespectsLimits(resumable, size, limits, None, hint);
    BoundsHoldForever(cfg, InitialConns(resumable, size, limits, None, hint), now, samples);
  }

  /** A host remembered at 40 connections starts above a cap of 32. */
  lemma HintsMayStartAboveTheCap() returns (limits: Limits, hint: HostHint, size: nat)
    ensures InitialConns(true, Some(size), limits, None, Some(hint)) > Cap(limits, None)
  {
    limits, hint, size := Limits(64, 64), HostHint(Some(40), false), 1024 * MEBIBYTE;
  }
}
