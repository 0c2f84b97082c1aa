/** One call of `download` (task/mod.rs). */
module Sessions {
  import opened Chunks
  import opened Spans
  import opened RangeSets
  import opened Plans
  import opened Media
  import opened Checkpoints
  import P = Protocol
  import S = ProtocolSafety
  import E = ProtocolExhaustion
  import W = Writers

  // For a file of known length on a server with working ranges: reconcile, plan the holes, let the
  // workers run, write, check coverage, publish.

  datatype Result = Published(bytes: nat) | IoFailed | DriveFailed | Cancelled | Incomplete(done: nat, gaps: nat)

  /** What the workers and the caller made of a plan: the messages that reached the writer, in
      order, whether a worker failed for good, and whether the run was cancelled. */
  datatype Play = Play(msgs: seq<W.Msg>, failed: bool, cancelled: bool)

  /** The steps behind a play. */
  datatype Trace = Trace(steps: seq<P.Step>, last: P.State)

  function Start(free: seq<Span>): P.State {
    P.State(free, [], [], [], [], false, {})
  }

  /** The play is what some interleaving of the workers' steps sends, followed by `Finish`. */
  ghost predicate Plausible(env: P.Env, free: seq<Span>, play: Play, trace: Trace) {
    && S.Run(env, Start(free), trace.steps, trace.last)
    && W.DataOf(play.msgs) == trace.last.sent
    && FinishesOnce(play.msgs)
    && (play.cancelled <==> trace.last.cancelled)
    && (play.failed ==> P.Gone(P.Failed) in trace.last.workers)
  }

  ghost predicate FinishesOnce(msgs: seq<W.Msg>) {
    |msgs| > 0 && forall i :: 0 <= i < |msgs| ==> (msgs[i].Finish? <==> i == |msgs| - 1)
  }

  /** The plan holds exactly the holes of what is already there. */
  ghost predicate Planned(env: P.Env, free: seq<Span>) {
    P.Initial(env, Start(free))
  }

  /** Everyone who worked found nothing left to do. */
  ghost predicate Undisturbed(last: P.State) {
    && !last.cancelled && last.retiring == {} && |last.workers| > 0
    && forall w :: 0 <= w < |last.workers| ==> last.workers[w] == P.Gone(P.NoWork)
  }

  /** The run starts from the record, unless the part file is gone. */
  function Reconciled(base: Medium, rewind: bool, partExisted: bool): seq<Span>
    requires |base.rows| > 0
  {
    if partExisted then ResumeState(base, rewind) else []
  }

  /** What the writer's run is about. */
  function ContextOf(env: P.Env, play: Play): W.Context {
    W.Context(env.completed, env.source, W.Largest(play.msgs))
  }

  /** How far the writer got, whether every `Sync` succeeded, and where it waited. */
  datatype Progress = Progress(taken: nat, synced: bool, waits: seq<W.Wait>)

  /** What a crash can cost: `Writers.CrashWhileWaiting` reads it off the waits, and at any other
      moment at most an interval, a batch and the largest chunk are at stake. */
  ghost predicate Guarded(env: P.Env, play: Play, ready: nat -> bool, due: nat -> bool, events: seq<Event>,
                          progress: Progress)
  {
    var c := ContextOf(env, play);
    && W.Timely(c, play.msgs, events, progress.synced, ready, due, progress.waits)
    && W.Waits(c, play.msgs, progress.taken, events, progress.synced, progress.waits)
    && (progress.synced ==> ExposedAtMost(events, c.Stake()))
  }

  lemma MessagesAreHonest(env: P.Env, free: seq<Span>, play: Play, trace: Trace)
    requires env.total <= U64_MAX && Planned(env, free) && Plausible(env, free, play, trace)
    ensures W.Honest(play.msgs, ContextOf(env, play))
  {
    S.NoByteIsLost(env, Start(free), trace.steps, trace.last);
    forall i | 0 <= i < |play.msgs| && play.msgs[i].Data?
      ensures play.msgs[i].chunk.Agrees(env.source) && play.msgs[i].chunk.End() <= env.total
      ensures |play.msgs[i].chunk.bytes| <= W.Largest(play.msgs)
    {
      W.LargestBounds(play.msgs, i);
      var k := W.DataIsThere(play.msgs, i);
      assert trace.last.sent[k] == play.msgs[i].chunk;
    }
  }

  /** The first `total` bytes read back as the source. */
  ghost predicate RightFile(m: Medium, source: File, total: nat) {
    forall p: nat :: p < total ==> View(m)(p) == source(p)
  }

  /** What a run starts from does. */
  ghost predicate RightStart(env: P.Env, base: Medium) {
    forall p: nat :: p < env.total && Covers(env.completed, p) ==> View(base)(p) == env.source(p)
  }

  /** Resumed bytes are never written again, so a complete file is right exactly if they were. */
  lemma CompleteIsRightIff(env: P.Env, free: seq<Span>, base: Medium, events: seq<Event>, done: seq<Span>, trace: Trace)
    requires Planned(env, free) && S.Run(env, Start(free), trace.steps, trace.last)
    requires Transferred(env, trace, done, events)
    requires forall p: nat :: p < env.total ==> Covers(done, p)
    ensures RightFile(Replay(base, events), env.source, env.total) <==> RightStart(env, base)
  {
    hide P.Initial, S.Run, View, Replay, WrittenIn, RowsExact, Disciplined, Claims;
    E.OnlyTheMissingIsFetched(env, Start(free), trace.steps, trace.last);
    forall p: nat | p < env.total
      ensures View(Replay(base, events))(p) == env.source(p) <==> (Covers(env.completed, p) ==> View(base)(p) == env.source(p))
    {
      ViewOfARun(base, env.completed, events, env.source, p);
      assert Covers(done, p);
    }
  }

  /** Everything is covered exactly if nothing that the workers left free is still to be sent. */
  lemma CoveredIff(env: P.Env, free: seq<Span>, trace: Trace, done: seq<Span>)
    requires Planned(env, free) && S.Run(env, Start(free), trace.steps, trace.last) && E.AllGone(trace.last)
    requires W.Grown(done, env.completed, trace.last.sent)
    ensures (forall p: nat :: p < env.total ==> Covers(done, p)) <==> NothingLeft(trace.last)
  {
    hide P.Initial, S.Run;
    E.OnlyTheMissingIsFetched(env, Start(free), trace.steps, trace.last);
    E.GoneMeansSentOrFree(env, Start(free), trace.steps, trace.last);
    if forall p: nat :: p < env.total ==> Covers(done, p) {
      forall p: nat | Covers(trace.last.free, p)
        ensures Sent(trace.last.sent, p)
      {
        assert p < env.total && Covers(done, p);
      }
    }
  }

  /** Every byte still free has been sent all the same. */
  ghost predicate NothingLeft(last: P.State) {
    forall p: nat :: Covers(last.free, p) ==> Sent(last.sent, p)
  }

  lemma FullCoverageCounts(done: seq<Span>, total: nat)
    requires Canonical(done)
    requires forall p: nat :: Covers(done, p) <==> p < total
    ensures TotalLen(done) == total
  {
    TotalIsCardinality(done);
    WindowSize(0, total);
    forall p: nat
      ensures p in ByteSet(done) <==> p in Window(0, total)
    {
      ByteSetCovers(done, p);
    }
    assert ByteSet(done) == Window(0, total);
  }

  lemma NothingBeyond(env: P.Env, free: seq<Span>, trace: Trace, done: seq<Span>)
    requires Planned(env, free) && S.Run(env, Start(free), trace.steps, trace.last)
    requires forall p: nat :: Covers(env.completed, p) ==> p < env.total
    requires W.Grown(done, env.completed, trace.last.sent)
    ensures forall p: nat :: Covers(done, p) ==> p < env.total
  {
    S.NoByteIsLost(env, Start(free), trace.steps, trace.last);
  }

  lemma ReconciledIsValid(base: Medium, rewind: bool, partExisted: bool)
    requires |base.rows| > 0 && Spans.Valid(base.rows[|base.rows| - 1].ranges)
    ensures Spans.Valid(ResumeState(base, rewind)) && Spans.Valid(Reconciled(base, rewind, partExisted))
  {
    RewoundKeeps(base.rows[|base.rows| - 1].ranges, PARANOID_REWIND);
  }

  /** The maximal holes, split for `k0` workers as far as they are large enough. */
  ghost predicate Seeded(free: seq<Span>, completed: seq<Span>, total: nat, k0: nat) {
    exists gaps :: HolesOf(gaps, completed, total) && SeededWith(gaps, free, k0)
  }

  ghost predicate SeededWith(gaps: seq<Span>, free: seq<Span>, k0: nat) {
    && SeededFrom(gaps, free)
    && (|gaps| >= k0 ==> free == gaps)
    && (|gaps| < k0 && k0 > 1 ==> |free| == k0 || (|free| < k0 && NothingToSplit(free)))
  }

  method MakePlan(completed: RangeSet, total: nat, k0: nat, ghost source: File) returns (free: seq<Span>)
    requires completed.Valid()
    ensures Planned(P.Env(total, completed.spans, source), free)
    ensures Seeded(free, completed.spans, total, k0)
  {
    hide Sum, Undercut, Small, TotalLen, SeededFrom, NothingToSplit, HolesOf, Planned;
    var plan := new Plan(total, completed);
    ghost var gaps := plan.free;
    AreHoles(gaps, completed.spans, total);
    plan.Seed(k0);
    free := plan.free;
    HolesArePlanned(gaps, free, completed.spans, total, source);
    assert SeededWith(gaps, free, k0);
  }

  lemma AreHoles(gaps: seq<Span>, completed: seq<Span>, total: nat)
    requires Canonical(gaps) && forall p: nat :: Covers(gaps, p) <==> p < total && !Covers(completed, p)
    ensures HolesOf(gaps, completed, total) && Ordered(gaps)
  {
    hide Covers;
  }

  lemma HolesArePlanned(gaps: seq<Span>, free: seq<Span>, completed: seq<Span>, total: nat, source: File)
    requires HolesOf(gaps, completed, total) && SeededFrom(gaps, free)
    ensures Planned(P.Env(total, completed, source), free)
  {
    hide Covers, Ordered, Canonical, AllCutFrom, TotalLen;
  }

  /** The ranges stored last. */
  function Stored(base: Medium): seq<Span>
    requires |base.rows| > 0
  {
    base.rows[|base.rows| - 1].ranges
  }

  /** What a run starts from: nothing if the part file is gone; all that is stored after a clean stop;
      after an unclean one every byte of it that has a whole margin of stored bytes behind it. */
  ghost predicate StartsFrom(start: seq<Span>, stored: seq<Span>, rewind: bool, partExisted: bool) {
    && (!partExisted ==> start == [])
    && (partExisted && !rewind ==> start == stored)
    && (partExisted && rewind ==> forall p: nat :: Covers(start, p) <==> !HoleWithin(stored, p, PARANOID_REWIND))
  }

  lemma ReconciledStartsFrom(base: Medium, rewind: bool, partExisted: bool)
    requires |base.rows| > 0 && Spans.Valid(Stored(base))
    ensures StartsFrom(Reconciled(base, rewind, partExisted), Stored(base), rewind, partExisted)
  {
    RewoundKeeps(Stored(base), PARANOID_REWIND);
    if partExisted && rewind {
      forall p: nat
        ensures Covers(Reconciled(base, rewind, partExisted), p) <==> !HoleWithin(Stored(base), p, PARANOID_REWIND)
      {
      }
    }
  }

  /** The stored bytes that do not read back right are all given up by the rewind. */
  ghost predicate OnlyLostTails(base: Medium, rewind: bool, source: File, total: nat)
    requires |base.rows| > 0
  {
    forall p: nat :: p < total && Covers(Stored(base), p) && View(base)(p) != source(p) ==>
      rewind && HoleWithin(Stored(base), p, PARANOID_REWIND)
  }

  /** When a run over a part file that exists starts right: after a clean stop, if every stored byte
      does; after an unclean one, if every stored byte that does not lies within the margin of one
      that is not stored. */
  lemma StartIsRightIff(base: Medium, rewind: bool, total: nat, source: File)
    requires |base.rows| > 0 && Spans.Valid(Stored(base))
    ensures RightStart(EnvOf(base, rewind, true, total, source), base) <==> OnlyLostTails(base, rewind, source, total)
  {
    hide View;
    ReconciledStartsFrom(base, rewind, true);
    forall p: nat
      ensures Covers(Reconciled(base, true, true), p) ==> Covers(Stored(base), p)
    {
      ReconciledStartsFrom(base, true, true);
      if Covers(Reconciled(base, true, true), p) {
        assert !HoleWithin(Stored(base), p, PARANOID_REWIND);
      }
    }
  }

  /** Load the record, reconcile it with the part file, plan the holes. */
  method Prepare(base: Medium, rewind: bool, partExisted: bool, total: nat, k0: nat, ghost source: File)
    returns (completed: RangeSet, free: seq<Span>)
    requires |base.rows| > 0 && Spans.Valid(base.rows[|base.rows| - 1].ranges)
    ensures fresh(completed) && completed.Valid() && completed.spans == Reconciled(base, rewind, partExisted)
    ensures StartsFrom(completed.spans, Stored(base), rewind, partExisted)
    ensures Seeded(free, completed.spans, total, k0)
    ensures Planned(P.Env(total, completed.spans, source), free)
  {
    ReconciledIsValid(base, rewind, partExisted);
    ReconciledStartsFrom(base, rewind, partExisted);
    completed := new RangeSet.Of(ResumeState(base, rewind));
    if !partExisted && |completed.spans| != 0 {
      completed := new RangeSet();
    }
    free := MakePlan(completed, total, k0, source);
  }

  /** After the workers are through and `Finish` was answered: everything that was sent is
      written and claimed. */
  ghost predicate Transferred(env: P.Env, trace: Trace, done: seq<Span>, events: seq<Event>) {
    && Sound(env.completed, done, events, env.source)
    && W.Grown(done, env.completed, trace.last.sent) && W.WrittenExactly(trace.last.sent, events)
  }

  /** Drive the writer through the play. */
  method Transfer(disk: W.Disk, completed: RangeSet, play: Play, ready: nat -> bool, due: nat -> bool,
                  ghost env: P.Env, ghost free: seq<Span>, ghost trace: Trace)
    returns (ok: bool, ghost progress: Progress)
    requires disk.events == [] && completed.Valid() && completed.spans == env.completed
    requires env.total <= U64_MAX && Planned(env, free) && Plausible(env, free, play, trace)
    modifies disk, completed
    ensures completed.Valid() && Sound(env.completed, completed.spans, disk.events, env.source)
    ensures ok ==> Transferred(env, trace, completed.spans, disk.events)
    ensures Guarded(env, play, ready, due, disk.events, progress)
    ensures disk.Healthy() ==> ok && progress.synced && progress.taken == |play.msgs|
  {
    hide W.Waits, W.Honest, W.Timely, W.AllReplied, ExposedAtMost;
    MessagesAreHonest(env, free, play, trace);
    var writer := new W.Writer(disk, completed);
    var outcome, answers;
    ghost var taken, waits;
    outcome, answers, taken, waits := writer.Run(play.msgs, ready, due, ContextOf(env, play));
    progress := Progress(taken, W.AllDone(answers), waits);
    ok := outcome.Finished? && outcome.reply.Done?;
    assert play.msgs[|play.msgs| - 1].Finish?;
    if outcome.Finished? {
      assert play.msgs[..taken] == play.msgs;
    }
  }

  /** Exactly the maximal holes of `[0, total)`. */
  ghost predicate HolesOf(gaps: seq<Span>, done: seq<Span>, total: nat) {
    Canonical(gaps) && forall p: nat :: Covers(gaps, p) <==> p < total && !Covers(done, p)
  }

  /** The checks between the last byte and the final name. */
  method Conclude(completed: RangeSet, play: Play, total: nat) returns (result: Result)
    requires completed.Valid()
    ensures play.failed ==> result == DriveFailed
    ensures !play.failed && play.cancelled ==> result == Cancelled
    ensures !play.failed && !play.cancelled ==>
      (result.Published? <==> forall p: nat :: p < total ==> Covers(completed.spans, p))
    ensures result.Published? ==> !play.failed && !play.cancelled && result.bytes == TotalLen(completed.spans)
    ensures result.Incomplete? <==>
      !play.failed && !play.cancelled && !forall p: nat :: p < total ==> Covers(completed.spans, p)
    ensures result.Incomplete? ==> result.done == TotalLen(completed.spans) && result.gaps > 0
    ensures result.Incomplete? ==> exists gaps :: HolesOf(gaps, completed.spans, total) && |gaps| == result.gaps
    ensures !result.IoFailed?
  {
    if play.failed {
      return DriveFailed;
    }
    if play.cancelled {
      return Cancelled;
    }
    var complete := completed.ContainsAll(0, total);
    if !complete {
      var gaps := completed.GapsIn(0, total);
      NoGapsIffCovered(completed.spans, gaps, 0, total);
      assert HolesOf(gaps, completed.spans, total);
      return Incomplete(completed.Total(), |gaps|);
    }
    result := Published(completed.Total());
  }

  ghost function EnvOf(base: Medium, rewind: bool, partExisted: bool, total: nat, source: File): P.Env
    requires |base.rows| > 0
  {
    P.Env(total, Reconciled(base, rewind, partExisted), source)
  }

  /** What a download leaves behind. */
  ghost predicate Kept(env: P.Env, base: Medium, events: seq<Event>, done: seq<Span>, trace: Trace, result: Result) {
    // Whatever happened, nothing is claimed that was not written.
    && Sound(env.completed, done, events, env.source)
    // What is published is the source, exactly if what the run started from was.
    && (result.Published? ==> (RightFile(Replay(base, events), env.source, env.total) <==> RightStart(env, base)))
    && (result.Published? && (forall p: nat :: Covers(env.completed, p) ==> p < env.total) ==> result.bytes == env.total)
    // A refusal to publish names real holes, and what was fetched is not thrown away.
    && (result.Incomplete? ==>
          && result.gaps > 0 && result.done == TotalLen(done)
          && W.Grown(done, env.completed, trace.last.sent)
          && exists p: nat :: p < env.total && !Covers(done, p))
  }

  lemma PublishedIsKept(env: P.Env, free: seq<Span>, base: Medium, events: seq<Event>, done: seq<Span>, trace: Trace,
                        result: Result)
    requires Transferred(env, trace, done, events) && Canonical(done)
    requires Planned(env, free) && S.Run(env, Start(free), trace.steps, trace.last)
    requires result.Published? ==> result.bytes == TotalLen(done) && forall p: nat :: p < env.total ==> Covers(done, p)
    requires result.Incomplete? ==>
      result.gaps > 0 && result.done == TotalLen(done) && exists p: nat :: p < env.total && !Covers(done, p)
    ensures Kept(env, base, events, done, trace, result)
  {
    hide Planned, S.Run, RightFile, RightStart;
    if result.Published? {
      CompleteIsRightIff(env, free, base, events, done, trace);
      if forall p: nat :: Covers(env.completed, p) ==> p < env.total {
        NothingBeyond(env, free, trace, done);
        FullCoverageCounts(done, env.total);
      }
    }
  }

  /** Fetch the rest of the file and publish it.  `network` stands for the servers, the
      workers' interleaving and the caller: it answers a plan with a play. */
  method Download(disk: W.Disk, rewind: bool, partExisted: bool, total: nat, k0: nat,
                  network: seq<Span> -> Play, ready: nat -> bool, due: nat -> bool,
                  ghost source: File, ghost trace: seq<Span> -> Trace)
    returns (result: Result, ghost planned: seq<Span>, ghost done: seq<Span>, ghost progress: Progress)
    requires disk.events == [] && |disk.base.rows| > 0 && total <= U64_MAX
    requires Spans.Valid(disk.base.rows[|disk.base.rows| - 1].ranges)
    requires forall free :: Planned(EnvOf(disk.base, rewind, partExisted, total, source), free) ==>
      Plausible(EnvOf(disk.base, rewind, partExisted, total, source), free, network(free), trace(free))
    modifies disk
    ensures var env := EnvOf(disk.base, rewind, partExisted, total, source);
      Planned(env, planned) && Kept(env, disk.base, disk.events, done, trace(planned), result)
    // On a safe medium, and from nothing, that is the source.
    ensures result.Published? && (partExisted ==> Safe(disk.base, source)) ==>
      RightFile(Replay(disk.base, disk.events), source, total)
    // On any other, after an unclean stop, it is exactly if every stored byte that does not read right
    // lies within the margin of one that is not stored.
    ensures result.Published? && partExisted ==>
      (RightFile(Replay(disk.base, disk.events), source, total) <==> OnlyLostTails(disk.base, rewind, source, total))
    // What is stored stays true, wherever this run is cut off.
    ensures partExisted ==> LifeOk(disk.base, Life(rewind, disk.events, Stopped), source)
    // A crash while the writer waits costs less than 8 MiB, as long as no `Sync` failed.
    ensures var env := EnvOf(disk.base, rewind, partExisted, total, source);
      Guarded(env, network(planned), ready, due, disk.events, progress)
    ensures disk.Healthy() ==> progress.synced
    // With a healthy disk, no failure and no cancellation it is published exactly if the workers, why
    // ever they left, left nothing behind.
    ensures disk.Healthy() && E.AllGone(trace(planned).last) && !network(planned).failed && !network(planned).cancelled ==>
      (result.Published? <==> NothingLeft(trace(planned).last))
    // An undisturbed run on a healthy disk publishes.
    ensures Undisturbed(trace(planned).last) && disk.Healthy() ==> result.Published?
  {
    hide Planned, Seeded, StartsFrom, S.Run, RightFile, RightStart, W.WrittenExactly, W.Waits, W.Timely, ExposedAtMost, NothingLeft;
    ghost var env := EnvOf(disk.base, rewind, partExisted, total, source);
    var completed, free := Prepare(disk.base, rewind, partExisted, total, k0, source);
    planned := free;
    StartsRight(disk.base, rewind, partExisted, total, source);
    StartIsRightIff(disk.base, rewind, total, source);
    var play := network(free);
    var ok;
    ok, progress := Transfer(disk, completed, play, ready, due, env, free, trace(free));
    done := completed.spans;
    if !ok {
      return IoFailed, planned, done, progress;
    }
    if Undisturbed(trace(free).last) {
      E.ExhaustedMeansHandedOver(env, Start(free), trace(free).steps, trace(free).last);
    }
    if E.AllGone(trace(free).last) {
      CoveredIff(env, free, trace(free), done);
    }
    result := Conclude(completed, play, total);
    PublishedIsKept(env, free, disk.base, disk.events, done, trace(free), result);
  }

  /** A safe medium and an empty record start right. */
  lemma StartsRight(base: Medium, rewind: bool, partExisted: bool, total: nat, source: File)
    requires |base.rows| > 0
    ensures (partExisted ==> Safe(base, source)) ==> RightStart(EnvOf(base, rewind, partExisted, total, source), base)
  {
    if partExisted && Safe(base, source) {
      ResumeReadsRight(base, rewind, source);
    }
  }

  // ----- a stale row -----

  lemma NothingPlanned(env: P.Env, free: seq<Span>)
    requires Planned(env, free) && env.total == 1 && env.completed == [Span(0, 1)]
    ensures free == []
  {
    if |free| > 0 {
      assert free[0].Has(free[0].start);
      assert Covers(free, free[0].start);
      assert env.completed[0].Has(0);
    }
  }

  /** A worker comes, finds nothing to do and leaves. */
  function IdleTrace(): Trace {
    Trace([P.Spawn, P.NothingToSteal(0)], P.State([], [], [P.Gone(P.NoWork)], [], [], false, {}))
  }

  lemma IdleIsPlausible(env: P.Env)
    ensures Plausible(env, [], Play([W.Finish], false, false), IdleTrace())
  {
    var s := Start([]);
    var t := P.Apply(env, s, P.Spawn);
    assert t.workers == [P.Ready];
    assert P.Apply(env, t, P.NothingToSteal(0)) == IdleTrace().last;
    assert [P.Spawn, P.NothingToSteal(0)][1..] == [P.NothingToSteal(0)];
    assert S.Run(env, t, [P.NothingToSteal(0)], IdleTrace().last) by {
      assert [P.NothingToSteal(0)][1..] == [];
    }
    assert [W.Finish][..0] == [];
  }

  /** The part file was deleted, the run that recreated it as zeros never got to commit a row of
      its own, and the next one takes the old row at its word: it has nothing to fetch and
      publishes the zeros. */
  method StaleRowIsPublished() returns (m: Medium, disk: W.Disk, result: Result, ghost source: File)
    ensures Safe(m, source) && disk.base == Deleted(m)
    ensures result.Published? && !RightFile(Replay(disk.base, disk.events), source, 1)
  {
    hide Planned, Plausible, Kept, Guarded, Replay, Safe, LifeOk;
    source := (p: nat) => 1;
    m := Medium((p: nat) => 1, [], [Row([Span(0, 1)], 1)]);
    OneByteRow(m, source);
    disk := new W.Disk(Deleted(m), (n: nat) => W.Fine);
    ghost var env := EnvOf(disk.base, false, true, 1, source);
    forall free | Planned(env, free)
      ensures Plausible(env, free, Play([W.Finish], false, false), IdleTrace())
    {
      NothingPlanned(env, free);
      IdleIsPlausible(env);
    }
    ghost var planned, done, progress;
    result, planned, done, progress := Download(disk, false, true, 1, 1, free => Play([W.Finish], false, false),
                                                n => true, n => false, source, free => IdleTrace());
    StaleStart(env, disk.base, disk.events, done, IdleTrace(), result);
  }

  lemma OneByteRow(m: Medium, source: File)
    requires m.unsynced == [] && m.rows == [Row([Span(0, 1)], 1)] && m.durable(0) == source(0)
    ensures Safe(m, source) && Spans.Valid([Span(0, 1)])
  {
    assert TotalLen([Span(0, 1)]) == TotalLen([]) + 1;
  }

  lemma StaleStart(env: P.Env, base: Medium, events: seq<Event>, done: seq<Span>, trace: Trace, result: Result)
    requires Kept(env, base, events, done, trace, result) && result.Published?
    requires env.total == 1 && env.completed == [Span(0, 1)] && base.unsynced == [] && base.durable(0) != env.source(0)
    ensures !RightFile(Replay(base, events), env.source, 1)
  {
    hide RightFile, Sound;
    assert env.completed[0].Has(0);
    assert View(base)(0) == base.durable(0);
  }

  // ----- after any number of interrupted runs -----

  /** A run over `m` with these events may end like this. */
  ghost predicate MayEnd(m: Medium, events: seq<Event>, end: End) {
    end.PowerLoss? ==> CrashImage(Replay(m, events), end.image) && 0 < end.keep <= |Replay(m, events).rows|
  }

  lemma {:induction false} OneMoreLife(first: Medium, lives: seq<Life>, m: Medium, life: Life, source: File)
    requires Lives(first, lives, source, m) && LifeOk(m, life, source)
    ensures Lives(first, lives + [life], source, AfterLife(m, life))
    decreases |lives|
  {
    if |lives| == 0 {
      assert [life][1..] == [];
      assert lives + [life] == [life];
    } else {
      OneMoreLife(AfterLife(first, lives[0]), lives[1..], m, life, source);
      assert (lives + [life])[1..] == lives[1..] + [life];
    }
  }

  function Fresh(file: File): Medium {
    Medium(file, [], [Row([], 0)])
  }

  /** The same download taken up again: from a fresh medium, after any runs, each cut off
      anywhere, with any unsynced bytes surviving and the row rolled back to any earlier commit.
      What it publishes is the source; a crash while its writer waits costs less than 8 MiB; and
      wherever it is cut off itself, that is one more run of the kind it started from. */
  method DownloadAgain(disk: W.Disk, rewind: bool, total: nat, k0: nat,
                       network: seq<Span> -> Play, ready: nat -> bool, due: nat -> bool,
                       ghost file: File, ghost lives: seq<Life>, ghost source: File, ghost trace: seq<Span> -> Trace)
    returns (result: Result, ghost planned: seq<Span>, ghost progress: Progress)
    requires disk.events == [] && total <= U64_MAX && |disk.base.rows| > 0
    requires Lives(Fresh(file), lives, source, disk.base)
    requires forall free :: Planned(EnvOf(disk.base, rewind, true, total, source), free) ==>
      Plausible(EnvOf(disk.base, rewind, true, total, source), free, network(free), trace(free))
    modifies disk
    ensures result.Published? ==> RightFile(Replay(disk.base, disk.events), source, total)
    ensures progress.synced ==> forall k, now :: 0 <= k < |progress.waits| ==>
      W.LosesLittle(disk.base, ResumeState(disk.base, rewind), network(planned).msgs, disk.events, progress.waits[k], now)
    ensures disk.Healthy() ==> progress.synced
    ensures forall k, end :: 0 <= k <= |disk.events| && MayEnd(disk.base, disk.events[..k], end) ==>
      Lives(Fresh(file), lives + [Life(rewind, disk.events[..k], end)], source,
            AfterLife(disk.base, Life(rewind, disk.events[..k], end)))
  {
    hide Planned, Plausible, Lives, LifeOk, W.Waits, W.Timely, Safe, ExposedAtMost, RightFile, RightStart;
    var base := disk.base;
    ghost var done;
    FreshIsSafe(file, source);
    CrashSafety(Fresh(file), lives, source, base);
    LastRowIsTrue(base, rewind, source);
    result, planned, done, progress := Download(disk, rewind, true, total, k0, network, ready, due, source, trace);
    var events := disk.events;
    ghost var env := EnvOf(base, rewind, true, total, source);
    if progress.synced {
      forall k, now | 0 <= k < |progress.waits|
        ensures W.LosesLittle(base, env.completed, network(planned).msgs, events, progress.waits[k], now)
      {
        W.CrashWhileWaiting(base, ContextOf(env, network(planned)), network(planned).msgs, progress.taken, events,
                            progress.waits, k, now);
      }
    }
    forall k, end | 0 <= k <= |events| && MayEnd(base, events[..k], end)
      ensures Lives(Fresh(file), lives + [Life(rewind, events[..k], end)], source, AfterLife(base, Life(rewind, events[..k], end)))
    {
      AnyCutIsALife(base, rewind, events, k, end, source);
      OneMoreLife(Fresh(file), lives, base, Life(rewind, events[..k], end), source);
    }
  }

  lemma LastRowIsTrue(m: Medium, rewind: bool, source: File)
    requires Safe(m, source) && |m.rows| > 0
    ensures Spans.Valid(m.rows[|m.rows| - 1].ranges)
    ensures Within(ResumeState(m, rewind), m.rows[|m.rows| - 1].ranges)
  {
    assert TrueRow(m.durable, m.rows[|m.rows| - 1], source);
    RewindOnlyShrinks(m.rows[|m.rows| - 1].ranges, PARANOID_REWIND);
  }
}
