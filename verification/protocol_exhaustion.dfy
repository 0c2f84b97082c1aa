/** What has been handed to the writer when every worker has left. */
module ProtocolExhaustion {
  import opened Chunks
  import opened Spans
  import opened Plans
  import opened Protocol
  import opened ProtocolSafety

  // If they left because there was no work, that is everything that was missing, although a worker
  // leaves as soon as the largest live claim is too small to split; otherwise the rest is free.

  /** Nobody has been stood down, cancelled or has failed. */
  ghost predicate Calm(s: State) {
    && !s.cancelled && s.retiring == {}
    && forall w :: 0 <= w < |s.workers| ==> CalmPc(s.workers[w])
  }

  predicate CalmPc(pc: Pc) {
    match pc
    case Releasing(_, after) => CalmAfter(after)
    case Deactivated(_, after) => CalmAfter(after)
    case GivingBack(_, _, after) => CalmAfter(after)
    case Gone(exit) => exit == NoWork
    case _ => true
  }

  predicate CalmAfter(after: After) {
    after.GoOn? || after.exit == NoWork
  }

  /** A disturbance is never forgotten. */
  lemma DisturbanceStays(env: Env, s: State, step: Step)
    requires Enabled(env, s, step) && Calm(Apply(env, s, step))
    ensures Calm(s)
  {
    var t := Apply(env, s, step);
    assert s.retiring <= t.retiring;
    forall w | 0 <= w < |s.workers|
      ensures CalmPc(s.workers[w])
    {
      assert CalmPc(t.workers[w]);
    }
  }

  lemma {:induction false} CalmFromTheStart(env: Env, s: State, steps: seq<Step>, t: State)
    requires Run(env, s, steps, t) && Calm(t)
    ensures Calm(s)
    decreases |steps|
  {
    if |steps| > 0 {
      CalmFromTheStart(env, Apply(env, s, steps[0]), steps[1..], t);
      DisturbanceStays(env, s, steps[0]);
    }
  }

  /** In a calm run claims are given back finished, and nothing is free any more once somebody
      has had to look for a victim or has left. */
  ghost predicate CalmWorker(free: seq<Span>, slots: seq<Slot>, pc: Pc) {
    match pc
    case Releasing(i, after) => after.GoOn? && i < |slots| && slots[i].cursor >= slots[i].end
    case Deactivated(i, after) => after.GoOn? && i < |slots| && slots[i].cursor >= slots[i].end
    case GivingBack(lo, hi, after) => after.GoOn? && lo >= hi
    case Picked(_) => free == []
    case Measured(_, _) => free == []
    case Chosen(_, _, _, _) => free == []
    case Gone(_) => free == []
    case _ => true
  }

  ghost predicate CalmInv(s: State) {
    forall w :: 0 <= w < |s.workers| ==> CalmWorker(s.free, s.slots, s.workers[w])
  }

  lemma CalmStep(env: Env, s: State, step: Step)
    requires Inv(env, s) && CalmInv(s) && Calm(s) && Enabled(env, s, step) && Calm(Apply(env, s, step))
    ensures CalmInv(Apply(env, s, step))
  {
    hide NothingLost, SentOk, FreeOk, SlotOk, OneLock, Aligned, Sent, Honest, Accepted, Unlocked;
    var t := Apply(env, s, step);
    forall w | 0 <= w < |t.workers|
      ensures CalmWorker(t.free, t.slots, t.workers[w])
    {
      assert w < |s.workers| ==> CalmWorker(s.free, s.slots, s.workers[w]);
      assert CalmPc(t.workers[w]);
      if step.GiveBack? {
        assert CalmWorker(s.free, s.slots, s.workers[step.w]);
      }
      if !step.Spawn? && !step.CancelAll? && !step.Retire? {
        assert CalmWorker(s.free, s.slots, s.workers[step.w]);
        assert WorkerOk(env, s.slots, s.sent, step.w, s.workers[step.w]);
      }
    }
  }

  lemma {:induction false} CalmRun(env: Env, s: State, steps: seq<Step>, t: State)
    requires Inv(env, s) && CalmInv(s) && Run(env, s, steps, t) && Calm(t)
    ensures CalmInv(t)
    decreases |steps|
  {
    if |steps| > 0 {
      var u := Apply(env, s, steps[0]);
      CalmFromTheStart(env, u, steps[1..], t);
      DisturbanceStays(env, s, steps[0]);
      StepKeeps(env, s, steps[0]);
      CalmStep(env, s, steps[0]);
      CalmRun(env, u, steps[1..], t);
    }
  }

  // ----- everybody is gone -----

  ghost predicate AllGone(s: State) {
    forall w :: 0 <= w < |s.workers| ==> s.workers[w].Gone?
  }

  /** Workers that are gone answer for nothing: what is missing was sent or is free. */
  lemma GoneHoldNothing(env: Env, t: State)
    requires Inv(env, t) && AllGone(t)
    ensures forall p: nat :: p < env.total ==> Covers(env.completed, p) || Sent(t.sent, p) || Covers(t.free, p)
  {
    hide Covers, Sent, SentOk, FreeOk;
    forall i | 0 <= i < |t.slots|
      ensures !t.slots[i].open
    {
      assert SlotOk(env.total, t.slots, t.workers, i);
    }
    forall p: nat | p < env.total
      ensures Covers(env.completed, p) || Sent(t.sent, p) || Covers(t.free, p)
    {
      assert Accounted(env, t, p);
    }
  }

  /** However a run went and for whatever reason its workers left: every missing byte was handed to
      the writer or is free. */
  lemma {:induction false} GoneMeansSentOrFree(env: Env, s: State, steps: seq<Step>, t: State)
    requires Initial(env, s) && Run(env, s, steps, t) && AllGone(t)
    ensures forall p: nat :: p < env.total ==> Covers(env.completed, p) || Sent(t.sent, p) || Covers(t.free, p)
  {
    InitialKeeps(env, s);
    RunKeeps(env, s, steps, t);
    GoneHoldNothing(env, t);
  }

  lemma ExhaustedMeansHandedOver(env: Env, s: State, steps: seq<Step>, t: State)
    requires Initial(env, s) && Run(env, s, steps, t)
    requires !t.cancelled && t.retiring == {}
    requires |t.workers| > 0 && forall w :: 0 <= w < |t.workers| ==> t.workers[w] == Gone(NoWork)
    ensures forall p: nat :: p < env.total ==> Covers(env.completed, p) || Sent(t.sent, p)
  {
    InitialKeeps(env, s);
    GoneMeansSentOrFree(env, s, steps, t);
    CalmRun(env, s, steps, t);
    assert CalmWorker(t.free, t.slots, t.workers[0]);
  }

  // ----- only what was missing -----

  ghost predicate Absent(env: Env, p: nat) {
    p < env.total && !Covers(env.completed, p)
  }

  ghost predicate AbsentRange(env: Env, lo: nat, hi: nat) {
    forall p: nat :: lo <= p < hi ==> Absent(env, p)
  }

  ghost predicate FreeIsAbsent(env: Env, free: seq<Span>) {
    forall p: nat :: Covers(free, p) ==> Absent(env, p)
  }

  /** Only what was missing is free, claimed, or carried back. */
  ghost predicate MissingOnly(env: Env, s: State) {
    && FreeIsAbsent(env, s.free)
    && (forall i :: 0 <= i < |s.slots| ==> AbsentRange(env, s.slots[i].lo, s.slots[i].hi))
    && (forall w :: 0 <= w < |s.workers| && s.workers[w].GivingBack? ==>
          AbsentRange(env, s.workers[w].lo, s.workers[w].hi))
  }

  lemma AbsentPart(env: Env, lo: nat, hi: nat, from: nat, to: nat)
    requires AbsentRange(env, lo, hi) && lo <= from && to <= hi
    ensures AbsentRange(env, from, to)
  {
    hide Absent;
  }

  lemma TakenIsAbsent(env: Env, free: seq<Span>, i: nat)
    requires FreeIsAbsent(env, free) && i < |free|
    ensures AbsentRange(env, free[i].start, free[i].End())
    ensures FreeIsAbsent(env, free[..i] + free[i + 1..])
  {
    hide Absent;
    RemovedAt(free, i);
    forall p: nat | free[i].start <= p < free[i].End()
      ensures Absent(env, p)
    {
      assert free[i].Has(p);
    }
  }

  lemma MissingAtOwnStep(env: Env, s: State, step: Step)
    requires Inv(env, s) && MissingOnly(env, s) && Enabled(env, s, step)
    requires step.TakeFree? || step.Cut? || step.ReadBack? || step.GiveBack?
    ensures MissingOnly(env, Apply(env, s, step))
  {
    hide Absent, AbsentRange, Covers, NothingLost, SentOk, FreeOk, OneLock, Aligned, Sent, Honest, Accepted, Unlocked, Lengths;
    var pc := s.workers[step.w];
    assert WorkerOk(env, s.slots, s.sent, step.w, pc);
    match step
    case TakeFree(w) =>
      TakenIsAbsent(env, s.free, LastMax(Lengths(s.free)));
    case Cut(w) =>
      assert SlotOk(env.total, s.slots, s.workers, pc.victim);
      AbsentPart(env, s.slots[pc.victim].lo, s.slots[pc.victim].hi, pc.split, pc.oldEnd);
    case ReadBack(w) =>
      assert SlotOk(env.total, s.slots, s.workers, pc.slot);
      AbsentPart(env, s.slots[pc.slot].lo, s.slots[pc.slot].hi, s.slots[pc.slot].cursor, s.slots[pc.slot].end);
    case GiveBack(w, free) =>
      MergedIsAbsent(env, s.free, pc.lo, pc.hi, free);
  }

  lemma MergedIsAbsent(env: Env, free: seq<Span>, lo: nat, hi: nat, merged: seq<Span>)
    requires FreeIsAbsent(env, free) && AbsentRange(env, lo, hi) && MergedInto(free, lo, hi, merged)
    ensures FreeIsAbsent(env, merged)
  {
    hide Absent, Covers;
  }

  lemma MissingOtherwise(env: Env, s: State, step: Step)
    requires Inv(env, s) && MissingOnly(env, s) && Enabled(env, s, step)
    requires !step.TakeFree? && !step.Cut? && !step.ReadBack? && !step.GiveBack?
    ensures MissingOnly(env, Apply(env, s, step))
  {
    hide AbsentRange, FreeIsAbsent, Inv, Aligned, Sent, Honest, Accepted, Unlocked;
  }

  lemma {:induction false} MissingRun(env: Env, s: State, steps: seq<Step>, t: State)
    requires Inv(env, s) && MissingOnly(env, s) && Run(env, s, steps, t)
    ensures Inv(env, t) && MissingOnly(env, t)
    decreases |steps|
  {
    hide Inv, MissingOnly, Enabled, Apply;
    if |steps| > 0 {
      StepKeeps(env, s, steps[0]);
      if steps[0].TakeFree? || steps[0].Cut? || steps[0].ReadBack? || steps[0].GiveBack? {
        MissingAtOwnStep(env, s, steps[0]);
      } else {
        MissingOtherwise(env, s, steps[0]);
      }
      MissingRun(env, Apply(env, s, steps[0]), steps[1..], t);
    }
  }

  /** Nothing that was there at the start is fetched again: what is sent, or free in the end, was
      missing. */
  lemma {:induction false} OnlyTheMissingIsFetched(env: Env, s: State, steps: seq<Step>, t: State)
    requires Initial(env, s) && Run(env, s, steps, t)
    ensures forall p: nat :: Sent(t.sent, p) || Covers(t.free, p) ==> p < env.total && !Covers(env.completed, p)
  {
    InitialKeeps(env, s);
    MissingRun(env, s, steps, t);
    forall p: nat | Sent(t.sent, p) || Covers(t.free, p)
      ensures Absent(env, p)
    {
      if Sent(t.sent, p) {
        SentIsAbsent(env, t, p);
      }
    }
  }

  lemma SentIsAbsent(env: Env, t: State, p: nat)
    requires Inv(env, t) && MissingOnly(env, t) && Sent(t.sent, p)
    ensures Absent(env, p)
  {
    hide Absent, NothingLost, FreeOk, OneLock, FreeIsAbsent;
    var k :| 0 <= k < |t.sent| && t.sent[k].Has(p);
    assert AbsentRange(env, t.slots[t.from[k]].lo, t.slots[t.from[k]].hi);
  }
}
