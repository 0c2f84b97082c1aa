/** What reaches the writer under a claim, and how often. */
module ProtocolSent {
  import opened Common
  import opened Chunks
  import opened Spans
  import opened Plans
  import opened Protocol
  import opened ProtocolSafety
  import opened ProtocolOverlap

  // In order and without repetition under one claim, past a lowered end by no more than was already
  // in hand, and no byte twice in a run whose cuts are all clean.

  // ----- past a lowered end -----

  /** Nothing beyond this will ever be fetched under claim `i`. */
  function Limit(s: State, i: nat): nat
    requires i < |s.slots|
  {
    Max(Reach(s, i), s.slots[i].end)
  }

  lemma LimitFallsAtOwnStep(env: Env, s: State, step: Step, i: nat)
    requires Inv(env, s) && Enabled(env, s, step) && i < |s.slots|
    requires step.Load? || step.Send? || step.Advance? || step.Cut? || step.Deactivate? || step.ReadBack?
    ensures i < |Apply(env, s, step).slots|
    ensures Limit(Apply(env, s, step), i) <= Limit(s, i) && Apply(env, s, step).slots[i].end <= s.slots[i].end
  {
    hide NothingLost, SentOk, FreeOk, OneLock, Aligned, Sent, Covers, Honest, Accepted, Unlocked;
    assert SlotOk(env.total, s.slots, s.workers, i);
    assert WorkerOk(env, s.slots, s.sent, step.w, s.workers[step.w]);
  }

  lemma LimitFallsOtherwise(env: Env, s: State, step: Step, i: nat)
    requires Inv(env, s) && Enabled(env, s, step) && i < |s.slots|
    requires !step.Load? && !step.Send? && !step.Advance? && !step.Cut? && !step.Deactivate? && !step.ReadBack?
    ensures i < |Apply(env, s, step).slots|
    ensures Limit(Apply(env, s, step), i) <= Limit(s, i) && Apply(env, s, step).slots[i].end <= s.slots[i].end
  {
    hide NothingLost, SentOk, FreeOk, OneLock, Aligned, Sent, Covers, Honest, Accepted, Unlocked, MergedInto, LastMax;
    assert SlotOk(env.total, s.slots, s.workers, i);
  }

  /** No step lets a claim reach further than it could before, or raises its end. */
  lemma LimitFalls(env: Env, s: State, step: Step, i: nat)
    requires Inv(env, s) && Enabled(env, s, step) && i < |s.slots|
    ensures i < |Apply(env, s, step).slots|
    ensures Limit(Apply(env, s, step), i) <= Limit(s, i) && Apply(env, s, step).slots[i].end <= s.slots[i].end
  {
    hide Inv, Enabled, Apply, Limit;
    if step.Load? || step.Send? || step.Advance? || step.Cut? || step.Deactivate? || step.ReadBack? {
      LimitFallsAtOwnStep(env, s, step, i);
    } else {
      LimitFallsOtherwise(env, s, step, i);
    }
  }

  lemma {:induction false} LimitFallsInARun(env: Env, s: State, steps: seq<Step>, t: State, i: nat)
    requires Inv(env, s) && Run(env, s, steps, t) && i < |s.slots|
    ensures i < |t.slots| && Limit(t, i) <= Limit(s, i) && t.slots[i].end <= s.slots[i].end
    decreases |steps|
  {
    hide Inv, Enabled, Apply, Limit;
    if |steps| > 0 {
      StepKeeps(env, s, steps[0]);
      LimitFalls(env, s, steps[0], i);
      LimitFallsInARun(env, Apply(env, s, steps[0]), steps[1..], t, i);
    }
  }

  // ----- in order under one claim -----

  /** How far claim `i` has been sent. */
  function SentTo(s: State, i: nat): nat
    requires i < |s.slots|
  {
    var slot := s.slots[i];
    slot.cursor +
    if slot.owner < |s.workers| && s.workers[slot.owner].Handed? && s.workers[slot.owner].slot == i
    then s.workers[slot.owner].n else 0
  }

  ghost predicate SentInOrder(s: State) {
    && |s.from| == |s.sent|
    && (forall k :: 0 <= k < |s.sent| ==>
          && s.from[k] < |s.slots| && s.slots[s.from[k]].lo <= s.sent[k].off
          && s.sent[k].End() <= SentTo(s, s.from[k]))
    && (forall k, l :: 0 <= k < l < |s.sent| && s.from[k] == s.from[l] ==> s.sent[k].End() <= s.sent[l].off)
  }

  /** Sending, and the count that follows, only ever move the mark of the worker's own claim
      forward. */
  lemma SentToRises(env: Env, s: State, step: Step, i: nat)
    requires Inv(env, s) && Enabled(env, s, step) && i < |s.slots|
    ensures var t := Apply(env, s, step);
      i < |t.slots| && t.slots[i].lo == s.slots[i].lo && SentTo(t, i) >= SentTo(s, i)
  {
    hide NothingLost, SentOk, FreeOk, OneLock, Aligned, Sent, Covers, Honest, Accepted, Unlocked, MergedInto, LastMax;
    assert SlotOk(env.total, s.slots, s.workers, i);
  }

  lemma SendKeepsOrder(env: Env, s: State, w: nat)
    requires Inv(env, s) && Enabled(env, s, Send(w)) && SentInOrder(s)
    ensures SentInOrder(Apply(env, s, Send(w)))
  {
    hide NothingLost, SentOk, FreeOk, OneLock, Aligned, Sent, Covers;
    var t := Apply(env, s, Send(w));
    assert WorkerOk(env, s.slots, s.sent, w, s.workers[w]);
    assert SlotOk(env.total, s.slots, s.workers, s.workers[w].slot);
    forall k | 0 <= k < |s.sent|
      ensures SentTo(t, s.from[k]) >= SentTo(s, s.from[k])
    {
      SentToRises(env, s, Send(w), s.from[k]);
    }
  }

  lemma StepKeepsOrder(env: Env, s: State, step: Step)
    requires Inv(env, s) && Enabled(env, s, step) && SentInOrder(s)
    ensures SentInOrder(Apply(env, s, step))
  {
    hide Inv, SentTo;
    if step.Send? {
      SendKeepsOrder(env, s, step.w);
    } else {
      var t := Apply(env, s, step);
      assert t.sent == s.sent && t.from == s.from;
      forall k | 0 <= k < |s.sent|
        ensures s.from[k] < |t.slots| && t.slots[s.from[k]].lo == s.slots[s.from[k]].lo
        ensures SentTo(t, s.from[k]) >= SentTo(s, s.from[k])
      {
        SentToRises(env, s, step, s.from[k]);
      }
    }
  }

  lemma {:induction false} RunKeepsOrder(env: Env, s: State, steps: seq<Step>, t: State)
    requires Inv(env, s) && SentInOrder(s) && Run(env, s, steps, t)
    ensures SentInOrder(t)
    decreases |steps|
  {
    hide Inv, Enabled, Apply, SentInOrder;
    if |steps| > 0 {
      StepKeeps(env, s, steps[0]);
      StepKeepsOrder(env, s, steps[0]);
      RunKeepsOrder(env, Apply(env, s, steps[0]), steps[1..], t);
    }
  }

  // ----- how far past the end, how often -----

  ghost predicate InRange(s: State, i: nat, limit: nat)
    requires |s.from| == |s.sent|
  {
    forall k :: 0 <= k < |s.sent| && s.from[k] == i ==> s.sent[k].End() <= limit
  }

  lemma LaterSendsAreInRange(env: Env, s: State, steps: seq<Step>, t: State, i: nat)
    requires Inv(env, s) && SentInOrder(s) && Run(env, s, steps, t) && i < |s.slots|
    ensures i < |t.slots| && t.slots[i].end <= s.slots[i].end
    ensures |t.from| == |t.sent| && InRange(t, i, Limit(s, i))
  {
    hide Inv, Apply, Enabled, Reach, SentTo, Run;
    LimitFallsInARun(env, s, steps, t, i);
    RunKeepsOrder(env, s, steps, t);
    SentToIsInReach(t, i);
  }

  /** From the moment a claim is cut, whatever happens, nothing is sent under it past the new end
      except what had been fetched or was in its owner's hands at that moment. */
  lemma OvershootIsInHand(env: Env, s: State, steps: seq<Step>, u: State, w: nat, more: seq<Step>, t: State)
    requires Initial(env, s) && Run(env, s, steps, u) && Enabled(env, u, Cut(w))
    requires Run(env, Apply(env, u, Cut(w)), more, t)
    ensures var v := u.workers[w].victim;
      && v < |t.slots| && |t.from| == |t.sent| && t.slots[v].end <= u.workers[w].split
      && InRange(t, v, Max(Reach(u, v), u.workers[w].split))
  {
    hide Inv, Apply, Enabled, Reach, SentTo, Run, Initial, SentInOrder, InRange;
    var c := Apply(env, u, Cut(w));
    InitialKeeps(env, s);
    NothingSentYet(env, s);
    RunKeeps(env, s, steps, u);
    RunKeepsOrder(env, s, steps, u);
    StepKeeps(env, u, Cut(w));
    StepKeepsOrder(env, u, Cut(w));
    CutKeepsReach(env, u, w);
    LaterSendsAreInRange(env, c, more, t, u.workers[w].victim);
  }

  lemma CutKeepsReach(env: Env, s: State, w: nat)
    requires Inv(env, s) && Enabled(env, s, Cut(w))
    ensures w < |s.workers| && s.workers[w].Chosen? && s.workers[w].victim < |s.slots|
    ensures var v := s.workers[w].victim;
      && v < |Apply(env, s, Cut(w)).slots| && Reach(Apply(env, s, Cut(w)), v) == Reach(s, v)
      && Apply(env, s, Cut(w)).slots[v].end == s.workers[w].split
  {
    hide NothingLost, SentOk, FreeOk, OneLock, SlotOk, WorkerOk;
  }

  lemma SentToIsInReach(s: State, i: nat)
    requires i < |s.slots|
    ensures SentTo(s, i) <= Reach(s, i)
  {
  }

  ghost predicate SentOnce(sent: seq<Chunk>) {
    forall k, l, p: nat :: 0 <= k < l < |sent| && sent[k].Has(p) ==> !sent[l].Has(p)
  }

  lemma SentIsHeld(s: State, k: nat, p: nat)
    requires SentInOrder(s) && k < |s.sent|
    ensures s.sent[k].Has(p) ==> Holds(s, Territory(s.from[k]), p)
  {
    hide Reach, SentTo;
    SentToIsInReach(s, s.from[k]);
  }

  lemma ApartMeansOnce(s: State)
    requires SentInOrder(s) && NoOverlap(s)
    ensures SentOnce(s.sent)
  {
    hide Reach, SentTo, Holds;
    forall k, l, p: nat | 0 <= k < l < |s.sent| && s.sent[k].Has(p)
      ensures !s.sent[l].Has(p)
    {
      SentIsHeld(s, k, p);
      SentIsHeld(s, l, p);
      assert OneHolder(s, p);
    }
  }

  /** In a run whose cuts are all clean no byte is sent to the writer twice. */
  lemma CleanCutsSendOnce(env: Env, s: State, steps: seq<Step>, t: State)
    requires Initial(env, s) && Run(env, s, steps, t) && CutsAreClean(env, s, steps)
    ensures SentOnce(t.sent)
  {
    hide Apply, Enabled, NoOverlap, SentInOrder, SentOnce, CutsAreClean;
    InitialKeeps(env, s);
    NothingSentYet(env, s);
    ApartIffCutsAreClean(env, s, steps, t);
    RunKeepsOrder(env, s, steps, t);
    ApartMeansOnce(t);
  }

  lemma NothingSentYet(env: Env, s: State)
    requires Initial(env, s)
    ensures SentInOrder(s)
  {
  }
}
