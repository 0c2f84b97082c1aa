/** Which interleavings plan a byte twice. */
module ProtocolOverlap {
  import opened Chunks
  import opened Spans
  import opened Plans
  import opened Protocol
  import opened ProtocolSafety

  // A thief reads its victim, computes a split and only then lowers the victim's end; meanwhile the
  // victim goes on, and `release` reads a claim back outside the mutex.  Nothing is lost by either,
  // but bytes past the split may by then be fetched, in the victim's hands, or on their way to the
  // free list.  Such a cut is the only way a byte comes to be planned twice.

  datatype Holder = FreeList | Territory(i: nat) | Carrier(w: nat)

  /** Bytes of claim `i` that a worker has taken off the connection and not yet counted. */
  function InHand(pc: Pc, i: nat): nat {
    match pc
    case Loaded(slot, chunk, _, _) => if slot == i then |chunk.bytes| else 0
    case Handed(slot, n, _, _) => if slot == i then n else 0
    case _ => 0
  }

  /** How far claim `i` has been fetched, with what its owner has in hand. */
  function Reach(s: State, i: nat): nat
    requires i < |s.slots|
  {
    var slot := s.slots[i];
    slot.cursor + if slot.owner < |s.workers| then InHand(s.workers[slot.owner], i) else 0
  }

  /** Whose byte is `p`?  A claim keeps everything fetched under it or in its owner's hands, and
      while it is answered for also what is still to be fetched; what was not fetched leaves with
      the worker that gives the claim back. */
  ghost predicate Holds(s: State, h: Holder, p: nat) {
    match h
    case FreeList => Covers(s.free, p)
    case Territory(i) =>
      i < |s.slots| && s.slots[i].lo <= p && (p < Reach(s, i) || (s.slots[i].open && p < s.slots[i].end))
    case Carrier(w) => w < |s.workers| && s.workers[w].GivingBack? && s.workers[w].lo <= p < s.workers[w].hi
  }

  ghost predicate OneHolder(s: State, p: nat) {
    forall g: Holder, h: Holder :: g != h && Holds(s, g, p) ==> !Holds(s, h, p)
  }

  /** No byte has two holders. */
  ghost predicate NoOverlap(s: State) {
    forall p: nat :: OneHolder(s, p)
  }

  /** The claim a worker inside the critical section means to cut. */
  ghost predicate VictimOk(s: State, pc: Pc) {
    pc.Locks() ==>
      && pc.victim < |s.slots|
      && var v := s.slots[pc.victim];
         || v.open
         || (v.owner < |s.workers| && s.workers[v.owner].GivingBack?
             && s.workers[v.owner].lo == v.cursor && s.workers[v.owner].hi == v.end)
  }

  /** Active claims are answered for, and a chosen victim is either still answered for or its
      owner is waiting for the mutex with exactly the range it read. */
  ghost predicate StealInv(s: State) {
    && (forall i :: 0 <= i < |s.slots| && s.slots[i].active ==> s.slots[i].open)
    && (forall w :: 0 <= w < |s.workers| && s.workers[w].Deactivated? && s.workers[w].slot < |s.slots| ==>
          !s.slots[s.workers[w].slot].active)
    && (forall w :: 0 <= w < |s.workers| ==> VictimOk(s, s.workers[w]))
  }

  /** Who holds `p` now held it before. */
  ghost predicate NoNewHolder(s: State, t: State, p: nat) {
    forall h: Holder :: Holds(t, h, p) ==> Holds(s, h, p)
  }

  /** Who holds `p` now held it before, except that `a` may have it from `b`, who then has not. */
  ghost predicate HandsOver(s: State, t: State, a: Holder, b: Holder, p: nat) {
    && (forall h: Holder :: h != a && Holds(t, h, p) ==> Holds(s, h, p))
    && (Holds(t, a, p) ==> Holds(s, b, p) && !Holds(t, b, p))
  }

  lemma Shrinks(s: State, t: State)
    requires NoOverlap(s)
    requires forall p: nat :: NoNewHolder(s, t, p)
    ensures NoOverlap(t)
  {
    hide Holds;
    forall p: nat
      ensures OneHolder(t, p)
    {
      assert OneHolder(s, p) && NoNewHolder(s, t, p);
    }
  }

  /** Holder `a` takes part of what was `b`'s. */
  lemma Divides(s: State, t: State, a: Holder, b: Holder)
    requires NoOverlap(s)
    requires forall p: nat :: HandsOver(s, t, a, b, p)
    ensures NoOverlap(t)
  {
    hide Holds;
    forall p: nat
      ensures OneHolder(t, p)
    {
      assert OneHolder(s, p) && HandsOver(s, t, a, b, p);
      forall g: Holder, h: Holder | g != h && Holds(t, g, p)
        ensures !Holds(t, h, p)
      {
        var g', h' := if g == a then b else g, if h == a then b else h;
        assert g' != h' && Holds(s, g', p) ==> !Holds(s, h', p);
      }
    }
  }

  /** A worker without bytes in hand takes up a new claim: nobody's reach changes. */
  lemma EngagedKeepsReach(s: State, w: nat, lo: nat, hi: nat, i: nat)
    requires w < |s.workers| && !s.workers[w].Loaded? && !s.workers[w].Handed?
    ensures i < |s.slots| ==> Reach(Engaged(s, w, lo, hi), i) == Reach(s, i)
    ensures Reach(Engaged(s, w, lo, hi), |s.slots|) == lo
  {
  }

  lemma TakeFreeHandsOver(env: Env, s: State, w: nat, p: nat)
    requires Inv(env, s) && Enabled(env, s, TakeFree(w))
    ensures HandsOver(s, Apply(env, s, TakeFree(w)), Territory(|s.slots|), FreeList, p)
  {
    hide NothingLost, SentOk, SlotOk, OneLock, WorkerOk, Aligned, Sent, Covers, LastMax, Lengths, Unlocked, Reach, Ordered;
    var t := Apply(env, s, TakeFree(w));
    var i := LastMax(Lengths(s.free));
    RemovedAt(s.free, i);
    if s.free[i].Has(p) {
      OrderedSpansAreDisjoint(s.free, i, p);
    }
    EngagedKeepsReach(s.(free := t.free), w, s.free[i].start, s.free[i].End(), 0);
    forall h: Holder | h != Territory(|s.slots|) && Holds(t, h, p)
      ensures Holds(s, h, p)
    {
      if h.Territory? {
        EngagedKeepsReach(s.(free := t.free), w, s.free[i].start, s.free[i].End(), h.i);
        SameReach(s, s.(free := t.free), h.i);
      }
    }
  }

  lemma SameReach(s: State, t: State, i: nat)
    requires i < |s.slots| && s.slots == t.slots && s.workers == t.workers
    ensures Reach(s, i) == Reach(t, i)
  {
  }

  lemma TakeFreeKeepsApart(env: Env, s: State, w: nat)
    requires Inv(env, s) && NoOverlap(s) && Enabled(env, s, TakeFree(w))
    ensures NoOverlap(Apply(env, s, TakeFree(w)))
  {
    hide Inv, NoOverlap, Apply, Enabled, HandsOver;
    forall p: nat
      ensures HandsOver(s, Apply(env, s, TakeFree(w)), Territory(|s.slots|), FreeList, p)
    {
      TakeFreeHandsOver(env, s, w, p);
    }
    Divides(s, Apply(env, s, TakeFree(w)), Territory(|s.slots|), FreeList);
  }

  lemma ReadBackKeepsApart(env: Env, s: State, w: nat)
    requires Inv(env, s) && NoOverlap(s) && Enabled(env, s, ReadBack(w))
    ensures NoOverlap(Apply(env, s, ReadBack(w)))
  {
    var t := Apply(env, s, ReadBack(w));
    assert WorkerOk(env, s.slots, s.sent, w, s.workers[w]);
    assert SlotOk(env.total, s.slots, s.workers, s.workers[w].slot);
    forall p: nat
      ensures HandsOver(s, t, Carrier(w), Territory(s.workers[w].slot), p)
    {
    }
    Divides(s, t, Carrier(w), Territory(s.workers[w].slot));
  }

  lemma GiveBackKeepsApart(env: Env, s: State, w: nat, free: seq<Span>)
    requires Inv(env, s) && NoOverlap(s) && Enabled(env, s, GiveBack(w, free))
    ensures NoOverlap(Apply(env, s, GiveBack(w, free)))
  {
    var t := Apply(env, s, GiveBack(w, free));
    forall p: nat
      ensures OneHolder(t, p)
    {
      assert OneHolder(s, p);
      forall g: Holder, h: Holder | g != h && Holds(t, g, p)
        ensures !Holds(t, h, p)
      {
        var g' := if Holds(s, g, p) then g else Carrier(w);
        var h' := if Holds(s, h, p) then h else Carrier(w);
        assert Holds(s, g', p);
        assert g' != h' ==> !Holds(s, h', p);
      }
    }
  }

  lemma AdvanceKeepsApart(env: Env, s: State, w: nat)
    requires Inv(env, s) && NoOverlap(s) && Enabled(env, s, Advance(w))
    ensures NoOverlap(Apply(env, s, Advance(w)))
  {
    forall p: nat
      ensures NoNewHolder(s, Apply(env, s, Advance(w)), p)
    {
    }
    Shrinks(s, Apply(env, s, Advance(w)));
  }

  /** A worker moves on with nothing new in hand and nothing to give back. */
  lemma MovingOnAddsNoHolder(s: State, w: nat, pc: Pc, p: nat)
    requires w < |s.workers| && !pc.GivingBack?
    requires forall i :: 0 <= i < |s.slots| && s.slots[i].owner == w && InHand(pc, i) > 0 ==>
      s.slots[i].open && s.slots[i].cursor + InHand(pc, i) <= s.slots[i].end
    ensures NoNewHolder(s, s.(workers := s.workers[w := pc]), p)
  {
    hide Covers;
  }

  lemma WorkerStepKeepsApart(env: Env, s: State, step: Step)
    requires Inv(env, s) && NoOverlap(s) && Enabled(env, s, step)
    requires !step.Cut? && !step.TakeFree? && !step.ReadBack? && !step.GiveBack? && !step.Advance?
    requires !step.Spawn? && !step.CancelAll? && !step.Retire? && !step.Send? && !step.Deactivate?
    ensures NoOverlap(Apply(env, s, step))
  {
    hide NothingLost, SentOk, FreeOk, SlotOk, OneLock, Aligned, Sent, Covers, Honest, Accepted, Unlocked, NoOverlap, NoNewHolder;
    var pc := Apply(env, s, step).workers[step.w];
    assert WorkerOk(env, s.slots, s.sent, step.w, s.workers[step.w]);
    var t := s.(workers := s.workers[step.w := pc]);
    forall p: nat
      ensures NoNewHolder(s, t, p)
    {
      MovingOnAddsNoHolder(s, step.w, pc, p);
    }
    Shrinks(s, t);
  }

  lemma BystanderStepKeepsApart(env: Env, s: State, step: Step)
    requires Inv(env, s) && NoOverlap(s) && Enabled(env, s, step)
    requires step.Spawn? || step.CancelAll? || step.Retire? || step.Send? || step.Deactivate?
    ensures NoOverlap(Apply(env, s, step))
  {
    hide NothingLost, SentOk, FreeOk, OneLock, Aligned, Sent, Covers, NoOverlap;
    if step.Send? || step.Deactivate? {
      assert WorkerOk(env, s.slots, s.sent, step.w, s.workers[step.w]);
    }
    assert forall i :: 0 <= i < |s.slots| ==> SlotOk(env.total, s.slots, s.workers, i);
    forall p: nat
      ensures NoNewHolder(s, Apply(env, s, step), p)
    {
    }
    Shrinks(s, Apply(env, s, step));
  }

  /** Only a cut can make two holders of one byte. */
  lemma OnlyACutOverlaps(env: Env, s: State, step: Step)
    requires Inv(env, s) && NoOverlap(s) && Enabled(env, s, step) && !step.Cut?
    ensures NoOverlap(Apply(env, s, step))
  {
    hide Inv, NoOverlap, Enabled, Apply;
    match step
    case TakeFree(w) => TakeFreeKeepsApart(env, s, w);
    case ReadBack(w) => ReadBackKeepsApart(env, s, w);
    case GiveBack(w, free) => GiveBackKeepsApart(env, s, w, free);
    case Advance(w) => AdvanceKeepsApart(env, s, w);
    case Spawn => BystanderStepKeepsApart(env, s, step);
    case CancelAll => BystanderStepKeepsApart(env, s, step);
    case Retire(_) => BystanderStepKeepsApart(env, s, step);
    case Send(_) => BystanderStepKeepsApart(env, s, step);
    case Deactivate(_) => BystanderStepKeepsApart(env, s, step);
    case _ => WorkerStepKeepsApart(env, s, step);
  }

  /** The victim is still answered for, and nothing of it past the split has been fetched or is
      in hand. */
  predicate CleanCut(s: State, w: nat)
    requires w < |s.workers| && s.workers[w].Chosen? && s.workers[w].victim < |s.slots|
  {
    s.slots[s.workers[w].victim].open && Reach(s, s.workers[w].victim) <= s.workers[w].split
  }

  lemma CleanCutKeepsApart(env: Env, s: State, w: nat)
    requires Inv(env, s) && NoOverlap(s) && Enabled(env, s, Cut(w)) && CleanCut(s, w)
    ensures NoOverlap(Apply(env, s, Cut(w)))
  {
    var t := Apply(env, s, Cut(w));
    var v, n := Territory(s.workers[w].victim), Territory(|s.slots|);
    assert WorkerOk(env, s.slots, s.sent, w, s.workers[w]);
    assert SlotOk(env.total, s.slots, s.workers, s.workers[w].victim);
    forall p: nat
      ensures HandsOver(s, t, n, v, p)
    {
    }
    Divides(s, t, n, v);
  }

  /** Any other cut leaves a byte that the thief claims and the victim has fetched, has in hand,
      or carries back. */
  lemma OtherCutsOverlap(env: Env, s: State, w: nat)
    requires Inv(env, s) && StealInv(s) && Enabled(env, s, Cut(w)) && !CleanCut(s, w)
    ensures !NoOverlap(Apply(env, s, Cut(w)))
  {
    var t := Apply(env, s, Cut(w));
    var pc := s.workers[w];
    var v := s.slots[pc.victim];
    assert WorkerOk(env, s.slots, s.sent, w, pc);
    assert SlotOk(env.total, s.slots, s.workers, pc.victim);
    assert VictimOk(s, pc);
    var p := if v.open then pc.split else v.end - 1;
    assert Holds(t, Territory(|s.slots|), p);
    if v.open || v.cursor >= v.end {
      assert Holds(t, Territory(pc.victim), p);
    } else {
      assert Holds(t, Carrier(v.owner), p);
    }
    assert !OneHolder(t, p);
  }

  /** Exactly when a cut keeps the plan free of overlap. */
  lemma CutKeepsApartIff(env: Env, s: State, w: nat)
    requires Inv(env, s) && StealInv(s) && NoOverlap(s) && Enabled(env, s, Cut(w))
    ensures NoOverlap(Apply(env, s, Cut(w))) <==> CleanCut(s, w)
  {
    if CleanCut(s, w) {
      CleanCutKeepsApart(env, s, w);
    } else {
      OtherCutsOverlap(env, s, w);
    }
  }

  // ----- the side invariant holds in every run -----

  /** After these steps nobody is inside the critical section. */
  lemma NobodyLocks(env: Env, s: State, step: Step, w: nat)
    requires Inv(env, s) && Enabled(env, s, step) && (step.Cut? || step.GiveBack? || step.TakeFree?)
    requires w < |s.workers|
    ensures !Apply(env, s, step).workers[w].Locks()
  {
    if step.Cut? && w != step.w {
      assert s.workers[step.w].Locks();
    }
  }

  /** Steps on a claim of the worker's own. */
  lemma OwnClaimStep(env: Env, s: State, step: Step, w: nat)
    requires Inv(env, s) && StealInv(s) && Enabled(env, s, step)
    requires step.Advance? || step.Deactivate? || step.ReadBack?
    requires w < |s.workers| && s.workers[w].Locks()
    ensures VictimOk(Apply(env, s, step), Apply(env, s, step).workers[w])
  {
    assert VictimOk(s, s.workers[w]);
    assert WorkerOk(env, s.slots, s.sent, step.w, s.workers[step.w]);
    assert w != step.w;
  }

  /** The claims stay as they are and worker `w0`, which was carrying nothing, moves to `pc`. */
  lemma OneWorkerMoves(s: State, w0: nat, pc: Pc, w: nat)
    requires StealInv(s) && w0 < |s.workers| && !s.workers[w0].GivingBack? && w < |s.workers|
    requires VictimOk(s, pc) || (pc.Locks() && s.workers[w0].Locks() && pc.victim == s.workers[w0].victim)
    ensures var t := s.(workers := s.workers[w0 := pc]); VictimOk(t, t.workers[w])
  {
    assert VictimOk(s, s.workers[w]) && VictimOk(s, s.workers[w0]);
  }

  /** Steps that leave the claims alone. */
  lemma NoClaimStep(env: Env, s: State, step: Step, w: nat)
    requires Inv(env, s) && StealInv(s) && Enabled(env, s, step)
    requires step.Leave? || step.Pick? || step.NothingToSteal? || step.Measure? || step.Choose? || step.GiveUp?
      || step.Open? || step.Load? || step.StopStreaming? || step.Interrupt? || step.Retry? || step.Finish? || step.Abandon?
    requires w < |s.workers|
    ensures VictimOk(Apply(env, s, step), Apply(env, s, step).workers[w])
  {
    OneWorkerMoves(s, step.w, Apply(env, s, step).workers[step.w], w);
  }

  /** Spawning, the two tokens, and a send. */
  lemma BystanderStep(env: Env, s: State, step: Step, w: nat)
    requires Inv(env, s) && StealInv(s) && Enabled(env, s, step)
    requires step.Spawn? || step.CancelAll? || step.Retire? || step.Send?
    requires w < |Apply(env, s, step).workers|
    ensures VictimOk(Apply(env, s, step), Apply(env, s, step).workers[w])
  {
    assert w < |s.workers| ==> VictimOk(s, s.workers[w]);
  }

  lemma VictimsStayOk(env: Env, s: State, step: Step, w: nat)
    requires Inv(env, s) && StealInv(s) && Enabled(env, s, step)
    requires w < |Apply(env, s, step).workers|
    ensures VictimOk(Apply(env, s, step), Apply(env, s, step).workers[w])
  {
    if step.Cut? || step.GiveBack? || step.TakeFree? {
      NobodyLocks(env, s, step, w);
    } else if step.Advance? || step.Deactivate? || step.ReadBack? {
      if s.workers[w].Locks() {
        OwnClaimStep(env, s, step, w);
      }
    } else if step.Spawn? || step.CancelAll? || step.Retire? || step.Send? {
      BystanderStep(env, s, step, w);
    } else {
      NoClaimStep(env, s, step, w);
    }
  }

  lemma ActiveStaysOpen(env: Env, s: State, step: Step, i: nat)
    requires Inv(env, s) && StealInv(s) && Enabled(env, s, step)
    requires i < |Apply(env, s, step).slots| && Apply(env, s, step).slots[i].active
    ensures Apply(env, s, step).slots[i].open
  {
    if step.ReadBack? {
      assert WorkerOk(env, s.slots, s.sent, step.w, s.workers[step.w]);
    }
  }

  lemma DeactivatedStaysInactive(env: Env, s: State, step: Step, w: nat)
    requires Inv(env, s) && StealInv(s) && Enabled(env, s, step) && w < |Apply(env, s, step).workers|
    ensures var t := Apply(env, s, step);
      t.workers[w].Deactivated? && t.workers[w].slot < |t.slots| ==> !t.slots[t.workers[w].slot].active
  {
    hide NothingLost, SentOk, FreeOk, SlotOk, OneLock, Aligned, Sent, Covers, MergedInto, Honest, Accepted, Unlocked,
      VictimOk, LastMax, Lengths, SplitPoint;
    if w < |s.workers| {
      assert WorkerOk(env, s.slots, s.sent, w, s.workers[w]);
    }
  }

  lemma StealStep(env: Env, s: State, step: Step)
    requires Inv(env, s) && StealInv(s) && Enabled(env, s, step)
    ensures StealInv(Apply(env, s, step))
  {
    var t := Apply(env, s, step);
    forall i | 0 <= i < |t.slots| && t.slots[i].active
      ensures t.slots[i].open
    {
      ActiveStaysOpen(env, s, step, i);
    }
    forall w | 0 <= w < |t.workers| && t.workers[w].Deactivated? && t.workers[w].slot < |t.slots|
      ensures !t.slots[t.workers[w].slot].active
    {
      DeactivatedStaysInactive(env, s, step, w);
    }
    forall w | 0 <= w < |t.workers|
      ensures VictimOk(t, t.workers[w])
    {
      VictimsStayOk(env, s, step, w);
    }
  }

  lemma {:induction false} StealRun(env: Env, s: State, steps: seq<Step>, t: State)
    requires Inv(env, s) && StealInv(s) && Run(env, s, steps, t)
    ensures Inv(env, t) && StealInv(t)
    decreases |steps|
  {
    if |steps| > 0 {
      StepKeeps(env, s, steps[0]);
      StealStep(env, s, steps[0]);
      StealRun(env, Apply(env, s, steps[0]), steps[1..], t);
    }
  }

  /** In every reachable state without overlap, a step brings overlap about exactly when it is a
      cut that is not clean. */
  lemma OverlapIff(env: Env, s: State, steps: seq<Step>, t: State, step: Step)
    requires Initial(env, s) && Run(env, s, steps, t)
    requires NoOverlap(t) && Enabled(env, t, step)
    ensures NoOverlap(Apply(env, t, step)) <==> (step.Cut? ==> CleanCut(t, step.w))
  {
    InitialKeeps(env, s);
    StealRun(env, s, steps, t);
    if step.Cut? {
      CutKeepsApartIff(env, t, step.w);
    } else {
      OnlyACutOverlaps(env, t, step);
    }
  }

  // ----- whole runs -----

  ghost predicate CutsAreClean(env: Env, s: State, steps: seq<Step>)
    decreases |steps|
  {
    |steps| > 0 ==>
      && Enabled(env, s, steps[0])
      && (steps[0].Cut? ==> CleanCut(s, steps[0].w))
      && CutsAreClean(env, Apply(env, s, steps[0]), steps[1..])
  }

  ghost predicate AlwaysApart(env: Env, s: State, steps: seq<Step>)
    decreases |steps|
  {
    && NoOverlap(s)
    && (|steps| > 0 ==> Enabled(env, s, steps[0]) && AlwaysApart(env, Apply(env, s, steps[0]), steps[1..]))
  }

  lemma {:induction false} ApartAlongTheRun(env: Env, s: State, steps: seq<Step>, t: State)
    requires Inv(env, s) && StealInv(s) && NoOverlap(s) && Run(env, s, steps, t)
    ensures AlwaysApart(env, s, steps) <==> CutsAreClean(env, s, steps)
    ensures AlwaysApart(env, s, steps) ==> NoOverlap(t)
    decreases |steps|
  {
    hide Inv, StealInv, NoOverlap, Apply, Enabled, CleanCut;
    if |steps| > 0 {
      var u := Apply(env, s, steps[0]);
      StepKeeps(env, s, steps[0]);
      StealStep(env, s, steps[0]);
      if steps[0].Cut? {
        StepOverlapsIff(env, s, steps[0]);
      } else {
        OnlyACutOverlaps(env, s, steps[0]);
      }
      if NoOverlap(u) {
        ApartAlongTheRun(env, u, steps[1..], t);
      }
    }
  }

  lemma StepOverlapsIff(env: Env, s: State, step: Step)
    requires Inv(env, s) && StealInv(s) && NoOverlap(s) && Enabled(env, s, step) && step.Cut?
    ensures NoOverlap(Apply(env, s, step)) <==> CleanCut(s, step.w)
  {
    hide Inv, StealInv, NoOverlap, Apply, CleanCut;
    CutKeepsApartIff(env, s, step.w);
  }

  /** A run never plans a byte twice exactly when every cut in it was clean at its moment. */
  lemma ApartIffCutsAreClean(env: Env, s: State, steps: seq<Step>, t: State)
    requires Initial(env, s) && Run(env, s, steps, t)
    ensures AlwaysApart(env, s, steps) <==> CutsAreClean(env, s, steps)
    ensures AlwaysApart(env, s, steps) ==> NoOverlap(t)
  {
    InitialKeeps(env, s);
    assert forall p: nat :: OneHolder(s, p);
    ApartAlongTheRun(env, s, steps, t);
  }
}
