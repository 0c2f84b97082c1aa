/** The machine and the class agree: left alone, a worker's request steps through the machine
    to exactly the plan the class computes.  And three runs from the start: two in which a
    steal interleaves badly, and one that ends with work left. */
module ProtocolRequests {
  import opened Common
  import opened Chunks
  import opened Spans
  import opened Plans
  import opened Protocol
  import opened ProtocolSafety

  function AsClaim(slot: Slot): Claim {
    Claim(slot.cursor, slot.end, slot.active)
  }

  function AsClaims(slots: seq<Slot>): (r: seq<Claim>)
    ensures |r| == |slots|
    ensures forall i :: 0 <= i < |slots| ==> r[i] == AsClaim(slots[i])
  {
    seq(|slots|, i requires 0 <= i < |slots| => AsClaim(slots[i]))
  }

  /** The plan as the class sees it. */
  function AsPlan(s: State): PlanState {
    PlanState(s.free, AsClaims(s.slots))
  }

  lemma {:induction false} OneMore(env: Env, s: State, steps: seq<Step>, t: State, step: Step)
    requires Run(env, s, steps, t) && Enabled(env, t, step)
    ensures Run(env, s, steps + [step], Apply(env, t, step))
    decreases |steps|
  {
    if |steps| == 0 {
      assert steps + [step] == [step];
      assert [step][1..] == [];
    } else {
      OneMore(env, Apply(env, s, steps[0]), steps[1..], t, step);
      assert (steps + [step])[1..] == steps[1..] + [step];
    }
  }

  /** `t` with its run, extended by one step. */
  lemma Take(env: Env, s: State, steps: seq<Step>, t: State, step: Step) returns (steps': seq<Step>, t': State)
    requires Run(env, s, steps, t) && Enabled(env, t, step)
    ensures t' == Apply(env, t, step) && Run(env, s, steps', t')
  {
    OneMore(env, s, steps, t, step);
    steps', t' := steps + [step], Apply(env, t, step);
  }

  /** Where a worker stands after a request with this outcome. */
  ghost predicate Answered(s: State, w: nat, grant: Grant, t: State)
    requires w < |s.workers|
  {
    match grant
    case Granted(start, end) =>
      && |t.slots| == |s.slots| + 1
      && t.slots[|s.slots|] == Slot(start, end, w, start, end, true, true)
      && t.workers == s.workers[w := Fetching(|s.slots|)]
    case Exhausted => t.slots == s.slots && t.workers == s.workers[w := Gone(NoWork)]
  }

  lemma UndisturbedRequest(env: Env, s: State, w: nat) returns (steps: seq<Step>, t: State)
    requires w < |s.workers| && s.workers[w] == Ready && Unlocked(s)
    ensures Run(env, s, steps, t)
    ensures AsPlan(t) == Requested(AsPlan(s)).0
    ensures Answered(s, w, Requested(AsPlan(s)).1, t)
    ensures t.sent == s.sent
  {
    if |s.free| > 0 {
      steps, t := Take(env, s, [], s, TakeFree(w));
    } else if Victim(AsClaims(s.slots)) == -1 {
      forall i | 0 <= i < |s.slots|
        ensures !s.slots[i].active
      {
        assert AsClaims(s.slots)[i] == AsClaim(s.slots[i]);
      }
      steps, t := Take(env, s, [], s, NothingToSteal(w));
    } else {
      steps, t := UndisturbedSteal(env, s, w);
    }
  }

  lemma UndisturbedSteal(env: Env, s: State, w: nat) returns (steps: seq<Step>, t: State)
    requires w < |s.workers| && s.workers[w] == Ready && Unlocked(s) && s.free == []
    requires Victim(AsClaims(s.slots)) >= 0
    ensures Run(env, s, steps, t)
    ensures AsPlan(t) == Requested(AsPlan(s)).0
    ensures Answered(s, w, Requested(AsPlan(s)).1, t)
    ensures t.sent == s.sent
  {
    var v := Victim(AsClaims(s.slots));
    assert AsClaims(s.slots)[v] == AsClaim(s.slots[v]);
    steps, t := Take(env, s, [], s, Pick(w, v));
    steps, t := Take(env, s, steps, t, Measure(w));
    var remaining := AsClaim(s.slots[v]).Remaining();
    assert t == s.(workers := s.workers[w := Measured(v, remaining)]);
    if remaining < 2 * MIN_SEGMENT {
      steps, t := Take(env, s, steps, t, GiveUp(w));
      assert t == s.(workers := s.workers[w := Gone(NoWork)]);
    } else {
      steps, t := ChooseAndCut(env, s, steps, t, w, v);
    }
  }

  lemma ChooseAndCut(env: Env, s: State, steps: seq<Step>, u: State, w: nat, v: nat) returns (steps': seq<Step>, t: State)
    requires w < |s.workers| && s.free == [] && v == Victim(AsClaims(s.slots))
    requires AsClaim(s.slots[v]).Remaining() >= 2 * MIN_SEGMENT
    requires u == s.(workers := s.workers[w := Measured(v, AsClaim(s.slots[v]).Remaining())])
    requires Run(env, s, steps, u)
    ensures Run(env, s, steps', t)
    ensures AsPlan(t) == Requested(AsPlan(s)).0
    ensures Answered(s, w, Requested(AsPlan(s)).1, t)
    ensures t.sent == s.sent
  {
    hide Run, Honest, Accepted, Covers, MergedInto, AlignUp;
    var slot := s.slots[v];
    assert AsClaims(s.slots)[v] == AsClaim(slot);
    var split := SplitPoint(slot.cursor, AsClaim(slot).Remaining());
    steps', t := Take(env, s, steps, u, Choose(w));
    assert t == s.(workers := s.workers[w := Chosen(v, slot.cursor, split, slot.end)]);
    steps', t := Take(env, s, steps', t, Cut(w));
    assert t.slots == s.slots[v := slot.(end := split)] + [Slot(split, slot.end, w, split, slot.end, true, true)];
    assert AsClaims(t.slots) == AsClaims(s.slots)[v := AsClaim(slot).(end := split)] + [Claim(split, slot.end, true)];
  }

  /** Left alone, a release is three steps and gives the class's result. */
  lemma UndisturbedRelease(env: Env, s: State, w: nat, free: seq<Span>) returns (steps: seq<Step>, t: State)
    requires w < |s.workers| && s.workers[w].Releasing? && Unlocked(s)
    requires s.workers[w].slot < |s.slots|
    requires var slot := s.slots[s.workers[w].slot]; MergedInto(s.free, slot.cursor, slot.end, free)
    ensures Run(env, s, steps, t)
    ensures t.free == free && t.workers == s.workers[w := Resume(s.workers[w].after)]
    ensures t.slots == s.slots[s.workers[w].slot := s.slots[s.workers[w].slot].(active := false, open := false)]
  {
    hide Run, MergedInto, Honest, Accepted, Covers;
    StandingStill(env, s);
    steps, t := ReadingBack(env, s, w);
    assert t.free == s.free && Unlocked(t);
    steps, t := Take(env, s, steps, t, GiveBack(w, free));
  }

  lemma StandingStill(env: Env, s: State)
    ensures Run(env, s, [], s)
  {
  }

  lemma ReadingBack(env: Env, s: State, w: nat) returns (steps: seq<Step>, t: State)
    requires w < |s.workers| && s.workers[w].Releasing? && s.workers[w].slot < |s.slots|
    ensures Run(env, s, steps, t)
    ensures var pc := s.workers[w];
      var slot := s.slots[pc.slot];
      t == s.(slots := s.slots[pc.slot := slot.(active := false, open := false)],
              workers := s.workers[w := GivingBack(slot.cursor, slot.end, pc.after)])
  {
    hide Run, Honest, Accepted, Covers, MergedInto;
    StandingStill(env, s);
    steps, t := Take(env, s, [], s, Deactivate(w));
    steps, t := Take(env, s, steps, t, ReadBack(w));
  }

  // ----- a bad interleaving -----

  const SIZE: nat := 8 * SPLIT_ALIGN

  function Plain(free: seq<Span>, slots: seq<Slot>, workers: seq<Pc>): State {
    State(free, slots, workers, [], [], false, {})
  }

  function Whole(active: bool, open: bool): Slot {
    Slot(0, SIZE, 0, 0, SIZE, active, open)
  }

  lemma TwoWorkersOneClaim(env: Env, s: State) returns (steps: seq<Step>, t: State)
    requires s == Plain([Span(0, SIZE)], [], [])
    ensures Run(env, s, steps, t)
    ensures t == Plain([], [Whole(true, true)], [Fetching(0), Ready])
  {
    steps, t := Take(env, s, [], s, Spawn);
    steps, t := Take(env, s, steps, t, Spawn);
    assert t == Plain([Span(0, SIZE)], [], [Ready, Ready]);
    steps, t := Take(env, s, steps, t, TakeFree(0));
  }

  /** Worker 1, inside the critical section, has chosen to cut the claim of worker 0. */
  lemma AboutToCut(env: Env, s: State, steps: seq<Step>, u: State) returns (steps': seq<Step>, t: State)
    requires Run(env, s, steps, u) && u == Plain([], [Whole(true, true)], [Fetching(0), Ready])
    ensures Run(env, s, steps', t)
    ensures t == Plain([], [Whole(true, true)], [Fetching(0), Chosen(0, 0, SIZE / 2, SIZE)])
  {
    steps', t := Take(env, s, steps, u, Pick(1, 0));
    assert t == Plain([], [Whole(true, true)], [Fetching(0), Picked(0)]);
    steps', t := Take(env, s, steps', t, Measure(1));
    assert t == Plain([], [Whole(true, true)], [Fetching(0), Measured(0, SIZE)]);
    steps', t := ChoosesHalf(env, s, steps', t);
  }

  lemma ChoosesHalf(env: Env, s: State, steps: seq<Step>, u: State) returns (steps': seq<Step>, t: State)
    requires Run(env, s, steps, u) && u == Plain([], [Whole(true, true)], [Fetching(0), Measured(0, SIZE)])
    ensures Run(env, s, steps', t)
    ensures t == Plain([], [Whole(true, true)], [Fetching(0), Chosen(0, 0, SIZE / 2, SIZE)])
  {
    assert SplitPoint(0, SIZE) == SIZE / 2;
    steps', t := Take(env, s, steps, u, Choose(1));
  }

  /** Worker 0 gives up and reads its claim back. */
  lemma GivesUp(env: Env, s: State, steps: seq<Step>, u: State, other: Pc) returns (steps': seq<Step>, t: State)
    requires Run(env, s, steps, u) && u == Plain([], [Whole(true, true)], [Fetching(0), other])
    ensures Run(env, s, steps', t)
    ensures t == Plain([], [Whole(false, false)], [GivingBack(0, SIZE, After.Leave(Failed)), other])
  {
    steps', t := Take(env, s, steps, u, Abandon(0, Failed));
    assert t == Plain([], [Whole(true, true)], [Releasing(0, After.Leave(Failed)), other]);
    steps', t := Take(env, s, steps', t, Deactivate(0));
    assert t == Plain([], [Whole(false, true)], [Deactivated(0, After.Leave(Failed)), other]);
    steps', t := Take(env, s, steps', t, ReadBack(0));
  }

  /** The cut comes now, and then the returned range. */
  lemma CutThenReturn(env: Env, s: State, steps: seq<Step>, u: State, free: seq<Span>) returns (steps': seq<Step>, t: State)
    requires Run(env, s, steps, u)
    requires u == Plain([], [Whole(false, false)], [GivingBack(0, SIZE, After.Leave(Failed)), Chosen(0, 0, SIZE / 2, SIZE)])
    requires MergedInto([], 0, SIZE, free)
    ensures Run(env, s, steps', t)
    ensures t.free == free && |t.slots| == 2 && t.slots[1] == Slot(SIZE / 2, SIZE, 1, SIZE / 2, SIZE, true, true)
  {
    steps', t := Take(env, s, steps, u, Cut(1));
    assert t.workers == [GivingBack(0, SIZE, After.Leave(Failed)), Fetching(1)];
    steps', t := Take(env, s, steps', t, GiveBack(0, free));
  }

  /** The second half ends up both free and claimed. */
  lemma ReleaseAndStealCanOverlap(source: nat -> byte) returns (env: Env, s: State, steps: seq<Step>, t: State)
    ensures Initial(env, s) && Run(env, s, steps, t)
    ensures Covers(t.free, SIZE - 1) && HeldOpen(t.slots, SIZE - 1)
  {
    env := Env(SIZE, [], source);
    var free := [Span(0, SIZE)];
    s := Plain(free, [], []);
    OneSpanIsInitial(env);
    steps, t := TwoWorkersOneClaim(env, s);
    steps, t := AboutToCut(env, s, steps, t);
    steps, t := GivesUp(env, s, steps, t, Chosen(0, 0, SIZE / 2, SIZE));
    steps, t := CutThenReturn(env, s, steps, t, free);
    assert t.slots[1].open && t.slots[1].cursor <= SIZE - 1 < t.slots[1].end;
  }

  // ----- a cut under a chunk in hand -----

  function Body(source: nat -> byte, from: nat): seq<byte>
    requires from <= SIZE
  {
    seq(SIZE - from, i requires 0 <= i < SIZE - from => source(from + i))
  }

  /** What a server that honours ranges answers from `from` on. */
  function Whole206(source: nat -> byte, from: nat): Response
    requires from < SIZE
  {
    Response(206, Some(ContentRange(from, SIZE - 1, Some(SIZE))), false, Body(source, from))
  }

  lemma WholeIsAccepted(source: nat -> byte, from: nat)
    requires from < SIZE
    ensures Accepted(Whole206(source, from), from, SIZE) && Honest(Whole206(source, from), source)
  {
  }

  const BEYOND: nat := SIZE / 2 + 1

  /** Worker 0 takes one byte more than half from its connection while worker 1 is about to cut
      its claim in half. */
  lemma TakesBeyondTheSplit(env: Env, s: State, steps: seq<Step>, u: State) returns (steps': seq<Step>, t: State)
    requires env.total == SIZE && Run(env, s, steps, u)
    requires u == Plain([], [Whole(true, true)], [Fetching(0), Chosen(0, 0, SIZE / 2, SIZE)])
    ensures Run(env, s, steps', t)
    ensures |t.workers| == 2 && t.workers[0].Loaded? && t.workers[1] == u.workers[1]
    ensures t.workers[0].slot == 0 && t.workers[0].chunk == Chunk(0, Body(env.source, 0)[..BEYOND])
    ensures t == u.(workers := t.workers)
  {
    WholeIsAccepted(env.source, 0);
    hide Accepted, Honest;
    steps', t := Take(env, s, steps, u, Step.Open(0, Whole206(env.source, 0)));
    assert t.workers == [Streaming(0, Body(env.source, 0)), u.workers[1]];
    steps', t := Take(env, s, steps', t, Load(0, BEYOND));
  }

  lemma CutsAndBothSend(env: Env, s: State, steps: seq<Step>, u: State) returns (steps': seq<Step>, t: State)
    requires env.total == SIZE && Run(env, s, steps, u)
    requires |u.workers| == 2 && u == Plain([], [Whole(true, true)], u.workers)
    requires u.workers[1] == Chosen(0, 0, SIZE / 2, SIZE) && u.workers[0].Loaded? && u.workers[0].slot == 0
    requires u.workers[0].chunk == Chunk(0, Body(env.source, 0)[..BEYOND])
    ensures Run(env, s, steps', t)
    ensures |t.workers| == 2 && t.workers[1] == Fetching(1) && t.free == []
    ensures |t.slots| == 2 && t.slots[1] == Slot(SIZE / 2, SIZE, 1, SIZE / 2, SIZE, true, true)
    ensures t.sent == [Chunk(0, Body(env.source, 0)[..BEYOND])]
  {
    steps', t := Take(env, s, steps, u, Cut(1));
    steps', t := Take(env, s, steps', t, Send(0));
  }

  lemma ThiefSendsItsHalf(env: Env, s: State, steps: seq<Step>, u: State) returns (steps': seq<Step>, t: State)
    requires env.total == SIZE && Run(env, s, steps, u)
    requires |u.workers| == 2 && u.workers[1] == Fetching(1) && |u.slots| == 2
    requires u.slots[1] == Slot(SIZE / 2, SIZE, 1, SIZE / 2, SIZE, true, true)
    ensures Run(env, s, steps', t)
    ensures t.sent == u.sent + [Chunk(SIZE / 2, Body(env.source, SIZE / 2)[..1])]
  {
    WholeIsAccepted(env.source, SIZE / 2);
    hide Accepted, Honest;
    steps', t := Take(env, s, steps, u, Step.Open(1, Whole206(env.source, SIZE / 2)));
    assert t.workers[1] == Streaming(1, Body(env.source, SIZE / 2)) && t.slots == u.slots;
    steps', t := Take(env, s, steps', t, Load(1, 1));
    assert t.workers[1].chunk == Chunk(SIZE / 2, Body(env.source, SIZE / 2)[..1]) && t.sent == u.sent;
    steps', t := Take(env, s, steps', t, Send(1));
  }

  /** The byte at the split is sent by the victim and by the thief, although the victim was
      answered for all along. */
  lemma StealUnderAChunkSendsTwice(source: nat -> byte) returns (env: Env, s: State, steps: seq<Step>, t: State)
    ensures Initial(env, s) && Run(env, s, steps, t)
    ensures |t.sent| == 2 && t.sent[0].Has(SIZE / 2) && t.sent[1].Has(SIZE / 2)
  {
    env := Env(SIZE, [], source);
    s := Plain([Span(0, SIZE)], [], []);
    OneSpanIsInitial(env);
    steps, t := TwoWorkersOneClaim(env, s);
    steps, t := AboutToCut(env, s, steps, t);
    steps, t := TakesBeyondTheSplit(env, s, steps, t);
    steps, t := CutsAndBothSend(env, s, steps, t);
    steps, t := ThiefSendsItsHalf(env, s, steps, t);
  }

  lemma OneSpanIsInitial(env: Env)
    requires env.total == SIZE && env.completed == []
    ensures Initial(env, Plain([Span(0, SIZE)], [], []))
  {
    var free := [Span(0, SIZE)];
    forall p: nat
      ensures Covers(free, p) <==> p < SIZE
    {
      assert p < SIZE ==> free[0].Has(p);
    }
  }

  // ----- told to stop with work left -----

  /** Bytes 0 and 2 of three are missing. */
  function Holed(source: nat -> byte): Env {
    Env(3, [Span(1, 1)], source)
  }

  /** Worker 0 has, or had, the claim to byte 2; both workers are told to stop. */
  function Stopping(cursor: nat, active: bool, open: bool, worker0: Pc, sent: seq<Chunk>, from: seq<nat>): State {
    State([Span(0, 1)], [Slot(2, 3, 0, cursor, 3, active, open)], [worker0, Gone(Retired)], sent, from, false, {0, 1})
  }

  lemma HoledIsInitial(source: nat -> byte)
    ensures Initial(Holed(source), Plain([Span(0, 1), Span(2, 1)], [], []))
  {
    var free, completed := [Span(0, 1), Span(2, 1)], [Span(1, 1)];
    forall p: nat
      ensures Covers(free, p) <==> p < 3 && !Covers(completed, p)
    {
      assert free[0].Has(p) <==> p == 0;
      assert free[1].Has(p) <==> p == 2;
      assert completed[0].Has(p) <==> p == 1;
    }
  }

  /** Two workers start, one takes a hole, and both are told to stop. */
  lemma ToldToStop(env: Env, s: State) returns (steps: seq<Step>, t: State)
    requires s == Plain([Span(0, 1), Span(2, 1)], [], [])
    ensures Run(env, s, steps, t)
    ensures t == Stopping(2, true, true, Fetching(0), [], [])
  {
    hide Run, Honest, Accepted, Covers, MergedInto;
    StandingStill(env, s);
    steps, t := Take(env, s, [], s, Spawn);
    steps, t := Take(env, s, steps, t, Spawn);
    assert t == Plain([Span(0, 1), Span(2, 1)], [], [Ready, Ready]);
    steps, t := TakesTheLastHole(env, s, steps, t);
    steps, t := Take(env, s, steps, t, Retire(0));
    steps, t := Take(env, s, steps, t, Retire(1));
    assert t.retiring == {0, 1};
    steps, t := Take(env, s, steps, t, Step.Leave(1, Retired));
    assert t.workers == [Fetching(0), Gone(Retired)];
  }

  lemma TakesTheLastHole(env: Env, s: State, steps: seq<Step>, u: State) returns (steps': seq<Step>, t: State)
    requires Run(env, s, steps, u) && u == Plain([Span(0, 1), Span(2, 1)], [], [Ready, Ready])
    ensures Run(env, s, steps', t)
    ensures t == Plain([Span(0, 1)], [Slot(2, 3, 0, 2, 3, true, true)], [Fetching(0), Ready])
  {
    hide Run;
    assert LastMax(Lengths(u.free)) == 1;
    steps', t := Take(env, s, steps, u, TakeFree(0));
    assert t.free == [Span(0, 1)] && t.workers == [Fetching(0), Ready];
  }

  lemma ByteTwoIsAccepted(source: nat -> byte)
    ensures var r := Response(206, Some(ContentRange(2, 2, Some(3))), false, [source(2)]);
      Accepted(r, 2, 3) && Honest(r, source)
  {
  }

  /** Worker 0 fetches what it has claimed. */
  lemma LoadsItsHole(env: Env, s: State, steps: seq<Step>, u: State) returns (steps': seq<Step>, t: State)
    requires env == Holed(env.source) && Run(env, s, steps, u) && u == Stopping(2, true, true, Fetching(0), [], [])
    ensures Run(env, s, steps', t)
    ensures t == Stopping(2, true, true, Loaded(0, Chunk(2, [env.source(2)]), true, []), [], [])
  {
    ByteTwoIsAccepted(env.source);
    hide Run, Honest, Accepted, Covers, MergedInto;
    var body := [env.source(2)];
    assert body[..1] == body && body[1..] == [];
    steps', t := Take(env, s, steps, u, Step.Open(0, Response(206, Some(ContentRange(2, 2, Some(3))), false, body)));
    assert t == Stopping(2, true, true, Streaming(0, body), [], []);
    steps', t := Take(env, s, steps', t, Load(0, 1));
  }

  lemma SendsItsHole(env: Env, s: State, steps: seq<Step>, u: State, c: Chunk) returns (steps': seq<Step>, t: State)
    requires Run(env, s, steps, u) && u == Stopping(2, true, true, Loaded(0, c, true, []), [], []) && |c.bytes| == 1
    ensures Run(env, s, steps', t)
    ensures t == Stopping(3, true, true, BodyEnd(0), [c], [0])
  {
    hide Run, Honest, Accepted, Covers, MergedInto;
    steps', t := Take(env, s, steps, u, Send(0));
    assert t == Stopping(2, true, true, Handed(0, 1, true, []), [c], [0]);
    steps', t := Take(env, s, steps', t, Advance(0));
    assert t == Stopping(3, true, true, Streaming(0, []), [c], [0]);
    steps', t := Take(env, s, steps', t, StopStreaming(0));
  }

  /** It gives its finished claim back. */
  lemma ReadsItBack(env: Env, s: State, steps: seq<Step>, u: State, sent: seq<Chunk>) returns (steps': seq<Step>, t: State)
    requires Run(env, s, steps, u) && u == Stopping(3, true, true, BodyEnd(0), sent, [0])
    ensures Run(env, s, steps', t)
    ensures t == Stopping(3, false, false, GivingBack(3, 3, GoOn), sent, [0])
  {
    hide Run, Honest, Accepted, Covers, MergedInto;
    steps', t := Take(env, s, steps, u, Finish(0));
    assert t == Stopping(3, true, true, Releasing(0, GoOn), sent, [0]);
    steps', t := Take(env, s, steps', t, Deactivate(0));
    assert t == Stopping(3, false, true, Deactivated(0, GoOn), sent, [0]);
    steps', t := Take(env, s, steps', t, ReadBack(0));
  }

  lemma ThenLeaves(env: Env, s: State, steps: seq<Step>, u: State, sent: seq<Chunk>) returns (steps': seq<Step>, t: State)
    requires Run(env, s, steps, u) && u == Stopping(3, false, false, GivingBack(3, 3, GoOn), sent, [0])
    ensures Run(env, s, steps', t)
    ensures t == Stopping(3, false, false, Gone(Retired), sent, [0])
  {
    hide Run, Honest, Accepted, Covers;
    steps', t := Take(env, s, steps, u, GiveBack(0, [Span(0, 1)]));
    assert t == Stopping(3, false, false, Ready, sent, [0]);
    steps', t := Take(env, s, steps', t, Step.Leave(0, Retired));
  }

  /** A run from the start without a failure or a cancellation, in which everybody leaves because
      it was told to, and a byte stays free that nobody has sent. */
  lemma RetirementsLeaveAHole(source: nat -> byte) returns (env: Env, s: State, steps: seq<Step>, t: State)
    ensures Initial(env, s) && Run(env, s, steps, t)
    ensures !t.cancelled && |t.workers| > 0 && forall w :: 0 <= w < |t.workers| ==> t.workers[w] == Gone(Retired)
    ensures Covers(t.free, 0) && !Sent(t.sent, 0)
  {
    hide Run;
    env := Holed(source);
    s := Plain([Span(0, 1), Span(2, 1)], [], []);
    HoledIsInitial(source);
    steps, t := ToldToStop(env, s);
    var c := Chunk(2, [source(2)]);
    steps, t := LoadsItsHole(env, s, steps, t);
    steps, t := SendsItsHole(env, s, steps, t, c);
    steps, t := ReadsItBack(env, s, steps, t, [c]);
    steps, t := ThenLeaves(env, s, steps, t, [c]);
    assert t.free[0].Has(0);
  }
}
