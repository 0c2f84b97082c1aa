/** No byte is lost under any interleaving: every step of the machine keeps the invariant, so
    every run does. */
module ProtocolSafety {
  import opened Chunks
  import opened Spans
  import opened Plans
  import opened Protocol

  /** A worker that carries nothing back for byte `p` may move on. */
  lemma MovesOn(workers: seq<Pc>, w: nat, pc: Pc, p: nat)
    requires w < |workers|
    requires workers[w].GivingBack? ==> !(workers[w].lo <= p < workers[w].hi)
    ensures OnTheWayBack(workers, p) ==> OnTheWayBack(workers[w := pc], p)
  {
    if OnTheWayBack(workers, p) {
      var x :| 0 <= x < |workers| && workers[x].GivingBack? && workers[x].lo <= p < workers[x].hi;
      assert workers[w := pc][x] == workers[x];
    }
  }

  /** So may a claim that held `p` and still does, or did not hold it. */
  lemma ClaimMovesOn(slots: seq<Slot>, i: nat, slot: Slot, p: nat)
    requires i < |slots|
    requires slots[i].open && slots[i].cursor <= p < slots[i].end ==> slot.open && slot.cursor <= p < slot.end
    ensures HeldOpen(slots, p) ==> HeldOpen(slots[i := slot], p)
  {
    if HeldOpen(slots, p) {
      var j :| 0 <= j < |slots| && slots[j].open && slots[j].cursor <= p < slots[j].end;
      var after := slots[i := slot];
      assert after[j].open && after[j].cursor <= p < after[j].end;
    }
  }

  // ----- one lemma per kind of step -----

  /** A step that only moves worker `w` along, keeping its claim. */
  lemma LocalStep(env: Env, s: State, w: nat, pc: Pc)
    requires Inv(env, s) && w < |s.workers|
    requires WorkerOk(env, s.slots, s.sent, w, pc)
    requires forall i :: s.workers[w].Owns(i) ==> pc.Owns(i)
    requires !s.workers[w].GivingBack?
    requires pc.Locks() ==> s.workers[w].Locks() || Unlocked(s)
    ensures Inv(env, s.(workers := s.workers[w := pc]))
  {
    hide HeldOpen, OnTheWayBack;
    var t := s.(workers := s.workers[w := pc]);
    assert OneLock(t.workers);
    forall i | 0 <= i < |t.slots|
      ensures SlotOk(env.total, t.slots, t.workers, i)
    {
      assert SlotOk(env.total, s.slots, s.workers, i);
    }
    forall x | 0 <= x < |t.workers|
      ensures WorkerOk(env, t.slots, t.sent, x, t.workers[x])
    {
      assert WorkerOk(env, s.slots, s.sent, x, s.workers[x]);
    }
    forall p: nat | p < env.total
      ensures Accounted(env, t, p)
    {
      assert Accounted(env, s, p);
      MovesOn(s.workers, w, pc, p);
    }
  }

  lemma SpawnStep(env: Env, s: State)
    requires Inv(env, s)
    ensures Inv(env, s.(workers := s.workers + [Ready]))
  {
    var t := s.(workers := s.workers + [Ready]);
    forall i | 0 <= i < |t.slots|
      ensures SlotOk(env.total, t.slots, t.workers, i)
    {
      assert SlotOk(env.total, s.slots, s.workers, i);
    }
    forall p: nat | p < env.total
      ensures Accounted(env, t, p)
    {
      assert Accounted(env, s, p);
      if OnTheWayBack(s.workers, p) {
        var x :| 0 <= x < |s.workers| && s.workers[x].GivingBack? && s.workers[x].lo <= p < s.workers[x].hi;
        assert t.workers[x] == s.workers[x];
      }
    }
  }

  lemma TokenStep(env: Env, s: State, cancelled: bool, retiring: set<nat>)
    requires Inv(env, s)
    ensures Inv(env, s.(cancelled := cancelled, retiring := retiring))
  {
    var t := s.(cancelled := cancelled, retiring := retiring);
    forall p: nat | p < env.total
      ensures Accounted(env, t, p)
    {
      assert Accounted(env, s, p);
    }
  }

  /** Worker `w`, which owned nothing, takes up a claim over `[lo, hi)`. */
  lemma ClaimKeepsStructure(env: Env, s: State, w: nat, lo: nat, hi: nat)
    requires Structure(env, s) && w < |s.workers| && lo <= hi <= env.total
    requires forall i :: !s.workers[w].Owns(i)
    ensures Structure(env, Engaged(s, w, lo, hi))
  {
    var t := Engaged(s, w, lo, hi);
    assert OneLock(t.workers);
    forall i | 0 <= i < |t.slots|
      ensures SlotOk(env.total, t.slots, t.workers, i)
    {
      if i < |s.slots| {
        assert SlotOk(env.total, s.slots, s.workers, i);
      }
    }
    forall x | 0 <= x < |t.workers|
      ensures WorkerOk(env, t.slots, t.sent, x, t.workers[x])
    {
      assert WorkerOk(env, s.slots, s.sent, x, s.workers[x]);
    }
    assert SentOk(env, t);
  }

  lemma ClaimCovers(s: State, w: nat, lo: nat, hi: nat, p: nat)
    requires w < |s.workers| && !s.workers[w].GivingBack?
    ensures HeldOpen(s.slots, p) || lo <= p < hi ==> HeldOpen(Engaged(s, w, lo, hi).slots, p)
    ensures OnTheWayBack(s.workers, p) ==> OnTheWayBack(Engaged(s, w, lo, hi).workers, p)
  {
    var t := Engaged(s, w, lo, hi);
    if HeldOpen(s.slots, p) {
      var i :| 0 <= i < |s.slots| && s.slots[i].open && s.slots[i].cursor <= p < s.slots[i].end;
      assert t.slots[i] == s.slots[i];
    }
    if lo <= p < hi {
      assert t.slots[|s.slots|].open && t.slots[|s.slots|].cursor <= p < t.slots[|s.slots|].end;
    }
    if OnTheWayBack(s.workers, p) {
      var x :| 0 <= x < |s.workers| && s.workers[x].GivingBack? && s.workers[x].lo <= p < s.workers[x].hi;
      assert t.workers[x] == s.workers[x];
    }
  }

  lemma TakeFreeStep(env: Env, s: State, w: nat)
    requires Inv(env, s) && Enabled(env, s, TakeFree(w))
    ensures Inv(env, Apply(env, s, TakeFree(w)))
  {
    var i := LastMax(Lengths(s.free));
    var g := s.free[i];
    var u := s.(free := s.free[..i] + s.free[i + 1..]);
    var t := Apply(env, s, TakeFree(w));
    RemovedAt(s.free, i);
    assert g.Has(g.start) && g.Has(g.End() - 1);
    OrderedSpansAreDisjoint(s.free, i, g.start);
    assert Covers(s.free, g.End() - 1);
    forall p: nat | Covers(u.free, p)
      ensures p < env.total
    {
      assert Covers(s.free, p);
    }
    assert Structure(env, u);
    ClaimKeepsStructure(env, u, w, g.start, g.End());
    forall p: nat | p < env.total
      ensures Accounted(env, t, p)
    {
      assert Accounted(env, s, p);
      ClaimCovers(u, w, g.start, g.End(), p);
    }
  }

  /** The machine's worker, like the class's, takes the largest gap, whole and fresh. */
  lemma LargestGapIsTaken(env: Env, s: State, w: nat)
    requires Enabled(env, s, TakeFree(w))
    ensures var t, i := Apply(env, s, TakeFree(w)), |s.slots|;
      && |t.slots| == i + 1 && t.slots[..i] == s.slots && t.workers == s.workers[w := Fetching(i)]
      && TakesLargest(s.free, t.slots[i].lo, t.slots[i].hi, t.free)
      && t.slots[i] == Slot(t.slots[i].lo, t.slots[i].hi, w, t.slots[i].lo, t.slots[i].hi, true, true)
      && t.sent == s.sent && t.from == s.from && t.cancelled == s.cancelled && t.retiring == s.retiring
  {
    hide TakesLargest, LastMax, Unlocked;
    LargestGapGoesFirst(PlanState(s.free, []));
    SomethingFree(PlanState(s.free, []));
  }

  /** The victim's end is lowered while the thief holds the mutex. */
  lemma LoweringKeepsStructure(env: Env, s: State, w: nat)
    requires Structure(env, s) && Enabled(env, s, Cut(w))
    ensures var pc := s.workers[w];
      Structure(env, s.(slots := s.slots[pc.victim := s.slots[pc.victim].(end := pc.split)], workers := s.workers[w := Ready]))
  {
    hide Aligned, Sent, Covers;
    var pc := s.workers[w];
    assert WorkerOk(env, s.slots, s.sent, w, pc);
    var t := s.(slots := s.slots[pc.victim := s.slots[pc.victim].(end := pc.split)], workers := s.workers[w := Ready]);
    assert OneLock(t.workers);
    forall i | 0 <= i < |t.slots|
      ensures SlotOk(env.total, t.slots, t.workers, i)
    {
      assert SlotOk(env.total, s.slots, s.workers, i);
    }
    forall x | 0 <= x < |t.workers|
      ensures WorkerOk(env, t.slots, t.sent, x, t.workers[x])
    {
      assert WorkerOk(env, s.slots, s.sent, x, s.workers[x]);
      assert x != w ==> !s.workers[x].Locks();
    }
    assert SentOk(env, t);
  }

  lemma CutStep(env: Env, s: State, w: nat)
    requires Inv(env, s) && Enabled(env, s, Cut(w))
    ensures Inv(env, Apply(env, s, Cut(w)))
  {
    hide HeldOpen, OnTheWayBack, Sent;
    var pc := s.workers[w];
    assert WorkerOk(env, s.slots, s.sent, w, pc);
    assert SlotOk(env.total, s.slots, s.workers, pc.victim);
    var u := s.(slots := s.slots[pc.victim := s.slots[pc.victim].(end := pc.split)], workers := s.workers[w := Ready]);
    LoweringKeepsStructure(env, s, w);
    var t := Apply(env, s, Cut(w));
    assert t.workers == Engaged(u, w, pc.split, pc.oldEnd).workers;
    ClaimKeepsStructure(env, u, w, pc.split, pc.oldEnd);
    assert t == Engaged(u, w, pc.split, pc.oldEnd);
    forall p: nat | p < env.total
      ensures Accounted(env, t, p)
    {
      assert Accounted(env, s, p);
      ClaimCovers(u, w, pc.split, pc.oldEnd, p);
      if !(pc.split <= p < pc.oldEnd) {
        ClaimMovesOn(s.slots, pc.victim, u.slots[pc.victim], p);
      }
      MovesOn(s.workers, w, Ready, p);
    }
  }

  lemma SendStep(env: Env, s: State, w: nat)
    requires Inv(env, s) && Enabled(env, s, Send(w))
    ensures Inv(env, Apply(env, s, Send(w)))
  {
    hide HeldOpen, OnTheWayBack, Sent;
    var t := Apply(env, s, Send(w));
    var pc := s.workers[w];
    assert WorkerOk(env, s.slots, s.sent, w, pc);
    assert SlotOk(env.total, s.slots, s.workers, pc.slot);
    forall p: nat
      ensures Sent(t.sent, p) <==> Sent(s.sent, p) || pc.chunk.Has(p)
    {
      SentMore(s.sent, pc.chunk, p);
    }
    assert OneLock(t.workers);
    forall i | 0 <= i < |t.slots|
      ensures SlotOk(env.total, t.slots, t.workers, i)
    {
      assert SlotOk(env.total, s.slots, s.workers, i);
    }
    forall x | 0 <= x < |t.workers|
      ensures WorkerOk(env, t.slots, t.sent, x, t.workers[x])
    {
      assert WorkerOk(env, s.slots, s.sent, x, s.workers[x]);
    }
    forall p: nat | p < env.total
      ensures Accounted(env, t, p)
    {
      assert Accounted(env, s, p);
      MovesOn(s.workers, w, t.workers[w], p);
    }
  }

  /** A step that rewrites the owner's own claim, leaving its range and owner alone. */
  lemma OwnSlotKeepsStructure(env: Env, s: State, w: nat, slot: Slot, pc: Pc)
    requires Structure(env, s) && w < |s.workers|
    requires exists i :: s.workers[w].Owns(i)
    requires var i := s.workers[w].slot;
      && WorkerOk(env, s.slots, s.sent, w, s.workers[w])
      && slot.lo == s.slots[i].lo && slot.hi == s.slots[i].hi && slot.owner == w && slot.end == s.slots[i].end
      && s.slots[i].cursor <= slot.cursor <= slot.hi
      && (slot.open ==> pc.Owns(i))
      && WorkerOk(env, s.slots[i := slot], s.sent, w, pc)
    requires !pc.Locks()
    ensures Structure(env, s.(slots := s.slots[s.workers[w].slot := slot], workers := s.workers[w := pc]))
  {
    var i := s.workers[w].slot;
    var t := s.(slots := s.slots[i := slot], workers := s.workers[w := pc]);
    assert OneLock(t.workers);
    forall j | 0 <= j < |t.slots|
      ensures SlotOk(env.total, t.slots, t.workers, j)
    {
      assert SlotOk(env.total, s.slots, s.workers, j);
    }
    forall x | 0 <= x < |t.workers|
      ensures WorkerOk(env, t.slots, t.sent, x, t.workers[x])
    {
      assert WorkerOk(env, s.slots, s.sent, x, s.workers[x]);
    }
    assert SentOk(env, t);
  }

  lemma AdvanceStep(env: Env, s: State, w: nat)
    requires Inv(env, s) && Enabled(env, s, Advance(w))
    ensures Inv(env, Apply(env, s, Advance(w)))
  {
    hide HeldOpen, OnTheWayBack, Sent;
    var t := Apply(env, s, Advance(w));
    var pc := s.workers[w];
    var slot := s.slots[pc.slot];
    assert WorkerOk(env, s.slots, s.sent, w, pc);
    assert pc.Owns(pc.slot);
    OwnSlotKeepsStructure(env, s, w, slot.(cursor := slot.cursor + pc.n), t.workers[w]);
    forall p: nat | p < env.total
      ensures Accounted(env, t, p)
    {
      assert Accounted(env, s, p);
      if !Sent(s.sent, p) {
        ClaimMovesOn(s.slots, pc.slot, t.slots[pc.slot], p);
      }
      MovesOn(s.workers, w, t.workers[w], p);
    }
  }

  lemma DeactivateStep(env: Env, s: State, w: nat)
    requires Inv(env, s) && Enabled(env, s, Deactivate(w))
    ensures Inv(env, Apply(env, s, Deactivate(w)))
  {
    hide HeldOpen, OnTheWayBack, Sent;
    var t := Apply(env, s, Deactivate(w));
    var pc := s.workers[w];
    assert WorkerOk(env, s.slots, s.sent, w, pc);
    assert SlotOk(env.total, s.slots, s.workers, pc.slot);
    assert pc.Owns(pc.slot);
    OwnSlotKeepsStructure(env, s, w, s.slots[pc.slot].(active := false), t.workers[w]);
    forall p: nat | p < env.total
      ensures Accounted(env, t, p)
    {
      assert Accounted(env, s, p);
      ClaimMovesOn(s.slots, pc.slot, t.slots[pc.slot], p);
      MovesOn(s.workers, w, t.workers[w], p);
    }
  }

  /** The un-locked read of `release`: from here on the worker carries the range itself. */
  lemma ReadBackStep(env: Env, s: State, w: nat)
    requires Inv(env, s) && Enabled(env, s, ReadBack(w))
    ensures Inv(env, Apply(env, s, ReadBack(w)))
  {
    hide HeldOpen, Sent;
    var t := Apply(env, s, ReadBack(w));
    var pc := s.workers[w];
    assert WorkerOk(env, s.slots, s.sent, w, pc);
    assert SlotOk(env.total, s.slots, s.workers, pc.slot);
    assert pc.Owns(pc.slot);
    OwnSlotKeepsStructure(env, s, w, s.slots[pc.slot].(open := false), t.workers[w]);
    forall p: nat | p < env.total
      ensures Accounted(env, t, p)
    {
      assert Accounted(env, s, p);
      if s.slots[pc.slot].cursor <= p < s.slots[pc.slot].end {
        assert t.workers[w].lo <= p < t.workers[w].hi;
      } else {
        ClaimMovesOn(s.slots, pc.slot, t.slots[pc.slot], p);
      }
      MovesOn(s.workers, w, t.workers[w], p);
    }
  }

  lemma GiveBackStep(env: Env, s: State, w: nat, free: seq<Span>)
    requires Inv(env, s) && Enabled(env, s, GiveBack(w, free))
    ensures Inv(env, Apply(env, s, GiveBack(w, free)))
  {
    hide HeldOpen, OnTheWayBack, Sent;
    var t := Apply(env, s, GiveBack(w, free));
    var pc := s.workers[w];
    assert WorkerOk(env, s.slots, s.sent, w, pc);
    assert OneLock(t.workers);
    forall i | 0 <= i < |t.slots|
      ensures SlotOk(env.total, t.slots, t.workers, i)
    {
      assert SlotOk(env.total, s.slots, s.workers, i);
    }
    forall x | 0 <= x < |t.workers|
      ensures WorkerOk(env, t.slots, t.sent, x, t.workers[x])
    {
      assert WorkerOk(env, s.slots, s.sent, x, s.workers[x]);
    }
    forall p: nat | p < env.total
      ensures Accounted(env, t, p)
    {
      assert Accounted(env, s, p);
      if !(pc.lo <= p < pc.hi) {
        MovesOn(s.workers, w, t.workers[w], p);
      }
    }
  }

  // ----- trying again -----

  /** Everything but worker `w` is as it was. */
  ghost predicate OnlyWorkerMoved(s: State, t: State, w: nat) {
    && |t.workers| == |s.workers| && (forall x :: 0 <= x < |s.workers| && x != w ==> t.workers[x] == s.workers[x])
    && t == s.(workers := t.workers)
  }

  /** A transfer may break off at any time, and the worker then asks again, from the cursor. */
  lemma InterruptedAsksAgain(env: Env, s: State, w: nat, response: Response)
    requires Inv(env, s) && w < |s.workers| && s.workers[w].Streaming?
    requires s.workers[w].slot < |s.slots|
    requires Honest(response, env.source) && Accepted(response, s.slots[s.workers[w].slot].cursor, env.total)
    ensures Enabled(env, s, Interrupt(w))
    ensures var t := Apply(env, s, Interrupt(w));
      && OnlyWorkerMoved(s, t, w) && Enabled(env, t, Step.Open(w, response))
      && Apply(env, t, Step.Open(w, response)).workers[w] == Streaming(s.workers[w].slot, response.body)
  {
    hide Inv, Honest, Accepted;
  }

  /** A body that ends short of the claim is asked for again, unless the worker was told to stop: then
      it gives back what is left. */
  lemma ShortBodyAsksAgain(env: Env, s: State, w: nat, response: Response)
    requires Inv(env, s) && w < |s.workers| && s.workers[w].BodyEnd? && s.workers[w].slot < |s.slots|
    requires s.slots[s.workers[w].slot].cursor < s.slots[s.workers[w].slot].end
    requires Honest(response, env.source) && Accepted(response, s.slots[s.workers[w].slot].cursor, env.total)
    ensures w !in s.retiring ==> Enabled(env, s, Retry(w)) && !Enabled(env, s, Finish(w))
    ensures w !in s.retiring ==>
      var t := Apply(env, s, Retry(w)); OnlyWorkerMoved(s, t, w) && Enabled(env, t, Step.Open(w, response))
    ensures w in s.retiring ==> Enabled(env, s, Finish(w)) && !Enabled(env, s, Retry(w))
    ensures w in s.retiring ==>
      var t := Apply(env, s, Finish(w)); OnlyWorkerMoved(s, t, w) && Enabled(env, t, Deactivate(w))
  {
    hide Inv, Honest, Accepted;
  }

  /** Undisturbed, a chunk goes from the body to the writer and the cursor passes it: all of it if the
      claim still holds it, and then the body goes on; otherwise as much as the claim holds, and then the
      claim is done and nothing more is asked of the server for it. */
  lemma ChunkIsDelivered(env: Env, s: State, w: nat, n: nat, response: Response)
    requires Enabled(env, s, Load(w, n))
    ensures Enabled(env, Apply(env, s, Load(w, n)), Send(w))
    ensures Enabled(env, Apply(env, Apply(env, s, Load(w, n)), Send(w)), Step.Advance(w))
    ensures var t := Apply(env, Apply(env, Apply(env, s, Load(w, n)), Send(w)), Step.Advance(w));
      var i := s.workers[w].slot;
      var was, now := s.slots[i], t.slots[i];
      && |t.sent| == |s.sent| + 1 && t.sent[|s.sent|].off == was.cursor && t.sent[|s.sent|].End() == now.cursor
      && now.end == was.end
      && (was.cursor + n <= was.end ==>
            && now.cursor == was.cursor + n && t.workers[w] == Streaming(i, s.workers[w].rest[n..]))
      && (was.cursor + n > was.end ==>
            && now.cursor == was.end && !Enabled(env, t, Step.Open(w, response)) && !Enabled(env, t, Retry(w))
            && Enabled(env, t, Finish(w)) && Enabled(env, Apply(env, t, Finish(w)), Deactivate(w)))
  {
    hide Honest, Accepted;
    var i := s.workers[w].slot;
    HandsOver(env, s, w, n);
    var h := Apply(env, Apply(env, s, Load(w, n)), Send(w));
    hide Apply;
    PassesIt(env, h, w);
    var t := Apply(env, h, Step.Advance(w));
    if !h.workers[w].more {
      DoneWithIt(env, t, w, response);
    }
  }

  lemma HandsOver(env: Env, s: State, w: nat, n: nat)
    requires Enabled(env, s, Load(w, n))
    ensures Enabled(env, Apply(env, s, Load(w, n)), Send(w))
    ensures var t := Apply(env, Apply(env, s, Load(w, n)), Send(w));
      var slot := s.slots[s.workers[w].slot];
      && t.slots == s.slots && w < |t.workers| && t.workers[w].Handed? && t.workers[w].slot == s.workers[w].slot
      && t.workers[w].n == (if slot.cursor + n <= slot.end then n else slot.end - slot.cursor) && (t.workers[w].more <==> slot.cursor + n <= slot.end)
      && t.workers[w].rest == s.workers[w].rest[n..]
      && |t.sent| == |s.sent| + 1 && t.sent[|s.sent|].off == slot.cursor && |t.sent[|s.sent|].bytes| == t.workers[w].n
  {
  }

  lemma PassesIt(env: Env, s: State, w: nat)
    requires w < |s.workers| && s.workers[w].Handed? && s.workers[w].slot < |s.slots|
    ensures Enabled(env, s, Step.Advance(w))
    ensures var t, pc := Apply(env, s, Step.Advance(w)), s.workers[w];
      && t.sent == s.sent && w < |t.workers| && pc.slot < |t.slots|
      && t.slots[pc.slot].end == s.slots[pc.slot].end && t.slots[pc.slot].cursor == s.slots[pc.slot].cursor + pc.n
      && t.workers[w] == if pc.more then Streaming(pc.slot, pc.rest) else BodyEnd(pc.slot)
  {
  }

  lemma DoneWithIt(env: Env, s: State, w: nat, response: Response)
    requires w < |s.workers| && s.workers[w].BodyEnd? && s.workers[w].slot < |s.slots|
    requires s.slots[s.workers[w].slot].cursor >= s.slots[s.workers[w].slot].end
    ensures !Enabled(env, s, Step.Open(w, response)) && !Enabled(env, s, Retry(w))
    ensures Enabled(env, s, Finish(w)) && Enabled(env, Apply(env, s, Finish(w)), Deactivate(w))
  {
  }

  /** Once the run is cancelled, a worker that is about to ask for work may leave, and one that is about
      to ask the server gives its claim back and leaves. */
  lemma CancelReachesEverybody(env: Env, s: State, w: nat)
    requires w < |s.workers|
    ensures var t := Apply(env, s, CancelAll);
      && t.workers == s.workers && t.slots == s.slots && t.free == s.free && t.sent == s.sent
      && (s.workers[w].Ready? ==> Enabled(env, t, Step.Leave(w, Cancelled)))
      && (s.workers[w].Fetching? ==>
            && Enabled(env, t, Abandon(w, Cancelled))
            && Apply(env, t, Abandon(w, Cancelled)).workers[w] == Releasing(s.workers[w].slot, After.Leave(Cancelled)))
  {
    hide Honest, Accepted;
  }

  // ----- every step, every run -----

  lemma LocalStepKeeps(env: Env, s: State, step: Step)
    requires Inv(env, s) && Enabled(env, s, step)
    requires step.Leave? || step.Pick? || step.NothingToSteal? || step.Measure? || step.Choose? || step.GiveUp?
      || step.StopStreaming? || step.Interrupt? || step.Retry? || step.Finish? || step.Abandon?
    ensures Inv(env, Apply(env, s, step))
  {
    hide NothingLost, SentOk, FreeOk, OneLock, Aligned, Sent, Covers, Honest, Accepted;
    var pc := s.workers[step.w];
    assert WorkerOk(env, s.slots, s.sent, step.w, pc);
    if step.Choose? {
      assert SlotOk(env.total, s.slots, s.workers, pc.victim);
    }
    LocalStep(env, s, step.w, Apply(env, s, step).workers[step.w]);
  }

  /** Verify before write: what an accepted response delivers belongs at the cursor. */
  lemma OpenStep(env: Env, s: State, w: nat, response: Response)
    requires Inv(env, s) && Enabled(env, s, Step.Open(w, response))
    ensures Inv(env, Apply(env, s, Step.Open(w, response)))
    ensures var slot := s.slots[s.workers[w].slot];
      && Aligned(response.body, slot.cursor, env.source)
      && (response.range.value.total.Some? ==> response.range.value.total.value == env.total)
  {
    assert WorkerOk(env, s.slots, s.sent, w, s.workers[w]);
    LocalStep(env, s, w, Streaming(s.workers[w].slot, response.body));
  }

  /** The chunk is clipped to the claim and keeps its place in the file. */
  lemma LoadStep(env: Env, s: State, w: nat, n: nat)
    requires Inv(env, s) && Enabled(env, s, Load(w, n))
    ensures Inv(env, Apply(env, s, Load(w, n)))
    ensures var slot, next := s.slots[s.workers[w].slot], Apply(env, s, Load(w, n)).workers[w];
      && next.Loaded? && next.slot == s.workers[w].slot
      && next.chunk.off == slot.cursor && next.chunk.End() <= slot.end && next.chunk.Agrees(env.source)
      && (|next.chunk.bytes| == n || next.chunk.End() == slot.end)
      && (next.more <==> |next.chunk.bytes| == n)
  {
    var pc := s.workers[w];
    assert WorkerOk(env, s.slots, s.sent, w, pc);
    assert SlotOk(env.total, s.slots, s.workers, pc.slot);
    var next := Apply(env, s, Load(w, n)).workers[w];
    var cursor := s.slots[pc.slot].cursor;
    if next.more {
      forall i | 0 <= i < |next.rest|
        ensures next.rest[i] == env.source(cursor + n + i)
      {
        assert next.rest[i] == pc.rest[n + i];
        assert pc.rest[n + i] == env.source(cursor + (n + i));
      }
    }
    LocalStep(env, s, w, next);
  }

  lemma StepKeeps(env: Env, s: State, step: Step)
    requires Inv(env, s) && Enabled(env, s, step)
    ensures Inv(env, Apply(env, s, step))
  {
    match step
    case Spawn => SpawnStep(env, s);
    case CancelAll => TokenStep(env, s, true, s.retiring);
    case Retire(w) => TokenStep(env, s, s.cancelled, s.retiring + {w});
    case TakeFree(w) => TakeFreeStep(env, s, w);
    case Cut(w) => CutStep(env, s, w);
    case Open(w, response) => OpenStep(env, s, w, response);
    case Load(w, n) => LoadStep(env, s, w, n);
    case Send(w) => SendStep(env, s, w);
    case Advance(w) => AdvanceStep(env, s, w);
    case Deactivate(w) => DeactivateStep(env, s, w);
    case ReadBack(w) => ReadBackStep(env, s, w);
    case GiveBack(w, free) => GiveBackStep(env, s, w, free);
    case _ => LocalStepKeeps(env, s, step);
  }

  lemma InitialKeeps(env: Env, s: State)
    requires Initial(env, s)
    ensures Inv(env, s)
  {
    forall p: nat | p < env.total
      ensures Accounted(env, s, p)
    {
    }
  }

  /** `t` is reached from `s` by taking `steps` in order. */
  ghost predicate Run(env: Env, s: State, steps: seq<Step>, t: State)
    decreases |steps|
  {
    if |steps| == 0 then s == t
    else Enabled(env, s, steps[0]) && Run(env, Apply(env, s, steps[0]), steps[1..], t)
  }

  lemma {:induction false} RunKeeps(env: Env, s: State, steps: seq<Step>, t: State)
    requires Inv(env, s) && Run(env, s, steps, t)
    ensures Inv(env, t)
    decreases |steps|
  {
    if |steps| > 0 {
      StepKeeps(env, s, steps[0]);
      RunKeeps(env, Apply(env, s, steps[0]), steps[1..], t);
    }
  }

  /** Under every interleaving, each byte of the file is already there, sent to the writer,
      free, held by a claim somebody answers for, or on its way back to the free list; and every
      chunk sent holds the file's own bytes and stays inside the claim it was fetched under. */
  lemma NoByteIsLost(env: Env, s: State, steps: seq<Step>, t: State)
    requires Initial(env, s) && Run(env, s, steps, t)
    ensures forall p: nat :: p < env.total ==> Accounted(env, t, p)
    ensures |t.from| == |t.sent|
    ensures forall k :: 0 <= k < |t.sent| ==>
      && t.sent[k].Agrees(env.source)
      && t.from[k] < |t.slots|
      && t.slots[t.from[k]].lo <= t.sent[k].off
      && t.sent[k].off + |t.sent[k].bytes| <= t.slots[t.from[k]].hi <= env.total
  {
    InitialKeeps(env, s);
    RunKeeps(env, s, steps, t);
    forall k | 0 <= k < |t.sent|
      ensures t.slots[t.from[k]].hi <= env.total
    {
      assert SlotOk(env.total, t.slots, t.workers, t.from[k]);
    }
  }
}
