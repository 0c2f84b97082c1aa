/** The workers and the plan as one interleaved machine (worker.rs, plan.rs).  Each step is one
    access to shared state: an access to a claim's atomics, a critical section of the plan's
    mutex that touches only what the mutex guards, or a send to the writer.  Steps of
    different workers may follow each other in any order. */
module Protocol {
  import opened Common
  import opened Spans
  import opened Chunks
  import opened Plans

  /** What a run is given: the file, its length and what was already there. */
  datatype Env = Env(total: nat, completed: seq<Span>, source: nat -> byte)

  // ----- responses -----

  datatype ContentRange = ContentRange(start: nat, end: nat, total: Option<nat>)

  datatype Response = Response(status: nat, range: Option<ContentRange>, transformed: bool, body: seq<byte>)

  /** The checks made before any byte of a body is used. */
  predicate Accepted(r: Response, start: nat, total: nat) {
    && r.status == 206
    && r.range.Some?
    && r.range.value.start == start
    && (r.range.value.total.Some? ==> r.range.value.total.value == total)
    && !r.transformed
  }

  /** The server is trusted this far: the body of an untransformed partial response holds the
      file's bytes from the offset it names.  The body may stop early, at any point. */
  ghost predicate Honest(r: Response, source: nat -> byte) {
    r.status == 206 && r.range.Some? && !r.transformed ==> Aligned(r.body, r.range.value.start, source)
  }

  // ----- state -----

  // `from` names, for every chunk in `sent`, the claim it was fetched under.

  /** A claim.  `lo`, `hi`, `owner` and `open` are bookkeeping: the range as granted, the worker
      it was granted to, and whether the owner still answers for it. */
  datatype Slot = Slot(lo: nat, hi: nat, owner: nat, cursor: nat, end: nat, active: bool, open: bool)

  datatype Exit = NoWork | Retired | Cancelled | Failed

  /** Why a claim is being given back: the worker goes on, or leaves for a reason. */
  datatype After = GoOn | Leave(exit: Exit)

  datatype Pc =
    | Ready
    | Picked(victim: nat)
    | Measured(victim: nat, remaining: nat)
    | Chosen(victim: nat, cursor: nat, split: nat, oldEnd: nat)
    | Fetching(slot: nat)
    | Streaming(slot: nat, rest: seq<byte>)
    | Loaded(slot: nat, chunk: Chunk, more: bool, rest: seq<byte>)
    | Handed(slot: nat, n: nat, more: bool, rest: seq<byte>)
    | BodyEnd(slot: nat)
    | Releasing(slot: nat, after: After)
    | Deactivated(slot: nat, after: After)
    | GivingBack(lo: nat, hi: nat, after: After)
    | Gone(exit: Exit)
  {
    /** The worker holds the plan's mutex. */
    predicate Locks() {
      Picked? || Measured? || Chosen?
    }

    /** The worker still answers for this claim. */
    predicate Owns(s: nat) {
      match this
      case Fetching(slot) => slot == s
      case Streaming(slot, _) => slot == s
      case Loaded(slot, _, _, _) => slot == s
      case Handed(slot, _, _, _) => slot == s
      case BodyEnd(slot) => slot == s
      case Releasing(slot, _) => slot == s
      case Deactivated(slot, _) => slot == s
      case _ => false
    }
  }

  datatype State = State(
    free: seq<Span>,
    slots: seq<Slot>,
    workers: seq<Pc>,
    sent: seq<Chunk>,
    from: seq<nat>,
    cancelled: bool,
    retiring: set<nat>)

  /** The plan covers exactly the holes; no worker has started. */
  ghost predicate Initial(env: Env, s: State) {
    && Ordered(s.free)
    && (forall p: nat :: Covers(s.free, p) <==> p < env.total && !Covers(env.completed, p))
    && s.slots == [] && s.workers == [] && s.sent == [] && s.from == [] && !s.cancelled && s.retiring == {}
  }

  predicate Unlocked(s: State) {
    forall w :: 0 <= w < |s.workers| ==> !s.workers[w].Locks()
  }

  // ----- steps -----

  datatype Step =
    | Spawn
    | CancelAll
    | Retire(w: nat)
    | Leave(w: nat, exit: Exit)
    | TakeFree(w: nat)
    | Pick(w: nat, v: nat)
    | NothingToSteal(w: nat)
    | Measure(w: nat)
    | Choose(w: nat)
    | GiveUp(w: nat)
    | Cut(w: nat)
    | Open(w: nat, response: Response)
    | Load(w: nat, n: nat)
    | Send(w: nat)
    | Advance(w: nat)
    | StopStreaming(w: nat)
    | Interrupt(w: nat)
    | Retry(w: nat)
    | Finish(w: nat)
    | Abandon(w: nat, exit: Exit)
    | Deactivate(w: nat)
    | ReadBack(w: nat)
    | GiveBack(w: nat, free: seq<Span>)

  predicate At(s: State, w: nat) {
    w < |s.workers|
  }

  /** Taking up a claim. */
  function Engaged(s: State, w: nat, lo: nat, hi: nat): State
    requires At(s, w)
  {
    s.(slots := s.slots + [Slot(lo, hi, w, lo, hi, true, true)],
       workers := s.workers[w := Fetching(|s.slots|)])
  }

  ghost predicate MergedInto(free: seq<Span>, lo: nat, hi: nat, merged: seq<Span>) {
    && (lo >= hi ==> merged == free)
    && (lo < hi ==> Canonical(merged))
    && forall p: nat :: Covers(merged, p) <==> Covers(free, p) || lo <= p < hi
  }

  ghost predicate Enabled(env: Env, s: State, step: Step) {
    match step
    case Spawn => true
    case CancelAll => true
    case Retire(w) => At(s, w)
    // Head of the worker's loop: look at the two tokens, or ask for work.
    case Leave(w, exit) => At(s, w) && s.workers[w] == Ready &&
      ((exit == Cancelled && s.cancelled) || (exit == Retired && w in s.retiring))
    case TakeFree(w) => At(s, w) && s.workers[w] == Ready && Unlocked(s) && |s.free| > 0
    case Pick(w, v) => At(s, w) && s.workers[w] == Ready && Unlocked(s) && s.free == [] &&
      v < |s.slots| && s.slots[v].active
    case NothingToSteal(w) => At(s, w) && s.workers[w] == Ready && Unlocked(s) && s.free == [] &&
      forall v :: 0 <= v < |s.slots| ==> !s.slots[v].active
    case Measure(w) => At(s, w) && s.workers[w].Picked? && s.workers[w].victim < |s.slots|
    case Choose(w) => At(s, w) && s.workers[w].Measured? && s.workers[w].remaining >= 2 * MIN_SEGMENT &&
      s.workers[w].victim < |s.slots|
    case GiveUp(w) => At(s, w) &&
      ((s.workers[w].Measured? && s.workers[w].remaining < 2 * MIN_SEGMENT) ||
       (s.workers[w].Chosen? &&
         (s.workers[w].split <= s.workers[w].cursor || s.workers[w].split >= s.workers[w].oldEnd)))
    case Cut(w) => At(s, w) && s.workers[w].Chosen? && s.workers[w].victim < |s.slots| &&
      s.workers[w].cursor < s.workers[w].split < s.workers[w].oldEnd
    // One request over `[cursor, end)`.
    case Open(w, response) => At(s, w) && s.workers[w].Fetching? && s.workers[w].slot < |s.slots| &&
      Honest(response, env.source) && Accepted(response, s.slots[s.workers[w].slot].cursor, env.total)
    // The next `n` bytes of the body arrive; cursor and end are read and the chunk is clipped.
    case Load(w, n) => At(s, w) && s.workers[w].Streaming? && s.workers[w].slot < |s.slots| &&
      n <= |s.workers[w].rest| && s.slots[s.workers[w].slot].cursor < s.slots[s.workers[w].slot].end
    case Send(w) => At(s, w) && s.workers[w].Loaded?
    case Advance(w) => At(s, w) && s.workers[w].Handed? && s.workers[w].slot < |s.slots|
    // End of body, or the claim was cut at or below the cursor.
    case StopStreaming(w) => At(s, w) && s.workers[w].Streaming? && s.workers[w].slot < |s.slots| &&
      (s.workers[w].rest == [] || s.slots[s.workers[w].slot].cursor >= s.slots[s.workers[w].slot].end)
    // Time-out, transport error or cancellation while streaming: retried from the cursor.
    case Interrupt(w) => At(s, w) && s.workers[w].Streaming?
    // The body stopped short of the claim.
    case Retry(w) => At(s, w) && s.workers[w].BodyEnd? && s.workers[w].slot < |s.slots| &&
      s.slots[s.workers[w].slot].cursor < s.slots[s.workers[w].slot].end && w !in s.retiring
    case Finish(w) => At(s, w) &&
      ((s.workers[w].BodyEnd? && s.workers[w].slot < |s.slots| &&
         (s.slots[s.workers[w].slot].cursor >= s.slots[s.workers[w].slot].end || w in s.retiring)) ||
       (s.workers[w].Fetching? && s.workers[w].slot < |s.slots| &&
         s.slots[s.workers[w].slot].cursor >= s.slots[s.workers[w].slot].end))
    // Out of attempts, a fatal answer, a cancelled run or a writer that is gone.
    case Abandon(w, exit) => At(s, w) &&
      ((exit == Failed && (s.workers[w].Fetching? || s.workers[w].Loaded?)) ||
       (exit == Cancelled && s.cancelled && s.workers[w].Fetching?))
    // `release`: the flag and the two reads happen outside the mutex.
    case Deactivate(w) => At(s, w) && s.workers[w].Releasing? && s.workers[w].slot < |s.slots|
    case ReadBack(w) => At(s, w) && s.workers[w].Deactivated? && s.workers[w].slot < |s.slots|
    // Push, sort, merge: the result is canonical, which leaves exactly one list.
    case GiveBack(w, free) =>
      At(s, w) && s.workers[w].GivingBack? && Unlocked(s) && MergedInto(s.free, s.workers[w].lo, s.workers[w].hi, free)
  }

  function Resume(after: After): Pc {
    match after
    case GoOn => Ready
    case Leave(exit) => Gone(exit)
  }

  ghost function Apply(env: Env, s: State, step: Step): State
    requires Enabled(env, s, step)
  {
    match step
    case Spawn => s.(workers := s.workers + [Ready])
    case CancelAll => s.(cancelled := true)
    case Retire(w) => s.(retiring := s.retiring + {w})
    case Leave(w, exit) => s.(workers := s.workers[w := Gone(exit)])
    case TakeFree(w) =>
      var i := LastMax(Lengths(s.free));
      Engaged(s.(free := s.free[..i] + s.free[i + 1..]), w, s.free[i].start, s.free[i].End())
    case Pick(w, v) => s.(workers := s.workers[w := Picked(v)])
    case NothingToSteal(w) => s.(workers := s.workers[w := Gone(NoWork)])
    case Measure(w) =>
      var v := s.slots[s.workers[w].victim];
      s.(workers := s.workers[w := Measured(s.workers[w].victim, if v.end > v.cursor then v.end - v.cursor else 0)])
    case Choose(w) =>
      var pc := s.workers[w];
      var v := s.slots[pc.victim];
      s.(workers := s.workers[w := Chosen(pc.victim, v.cursor, SplitPoint(v.cursor, pc.remaining), v.end)])
    case GiveUp(w) => s.(workers := s.workers[w := Gone(NoWork)])
    case Cut(w) =>
      var pc := s.workers[w];
      Engaged(s.(slots := s.slots[pc.victim := s.slots[pc.victim].(end := pc.split)]), w, pc.split, pc.oldEnd)
    case Open(w, response) => s.(workers := s.workers[w := Streaming(s.workers[w].slot, response.body)])
    case Load(w, n) =>
      var pc := s.workers[w];
      var slot := s.slots[pc.slot];
      var take := if slot.end - slot.cursor < n then slot.end - slot.cursor else n;
      s.(workers := s.workers[w := Loaded(pc.slot, Chunk(slot.cursor, pc.rest[..take]), take == n, pc.rest[n..])])
    case Send(w) =>
      var pc := s.workers[w];
      s.(sent := s.sent + [pc.chunk], from := s.from + [pc.slot],
         workers := s.workers[w := Handed(pc.slot, |pc.chunk.bytes|, pc.more, pc.rest)])
    case Advance(w) =>
      var pc := s.workers[w];
      s.(slots := s.slots[pc.slot := s.slots[pc.slot].(cursor := s.slots[pc.slot].cursor + pc.n)],
         workers := s.workers[w := if pc.more then Streaming(pc.slot, pc.rest) else BodyEnd(pc.slot)])
    case StopStreaming(w) => s.(workers := s.workers[w := BodyEnd(s.workers[w].slot)])
    case Interrupt(w) => s.(workers := s.workers[w := Fetching(s.workers[w].slot)])
    case Retry(w) => s.(workers := s.workers[w := Fetching(s.workers[w].slot)])
    case Finish(w) => s.(workers := s.workers[w := Releasing(s.workers[w].slot, GoOn)])
    case Abandon(w, exit) => s.(workers := s.workers[w := Releasing(s.workers[w].slot, After.Leave(exit))])
    case Deactivate(w) =>
      var pc := s.workers[w];
      s.(slots := s.slots[pc.slot := s.slots[pc.slot].(active := false)],
         workers := s.workers[w := Deactivated(pc.slot, pc.after)])
    case ReadBack(w) =>
      var pc := s.workers[w];
      var slot := s.slots[pc.slot];
      s.(slots := s.slots[pc.slot := slot.(open := false)],
         workers := s.workers[w := GivingBack(slot.cursor, slot.end, pc.after)])
    case GiveBack(w, free) => s.(free := free, workers := s.workers[w := Resume(s.workers[w].after)])
  }

  // ----- what every step keeps -----

  ghost predicate Mine(slots: seq<Slot>, w: nat, i: nat) {
    i < |slots| && slots[i].owner == w && slots[i].open
  }

  /** What a worker may rely on where it stands. */
  ghost predicate WorkerOk(env: Env, slots: seq<Slot>, sent: seq<Chunk>, w: nat, pc: Pc) {
    match pc
    case Ready => true
    case Picked(v) => v < |slots|
    case Measured(v, _) => v < |slots|
    case Chosen(v, cursor, _, oldEnd) => v < |slots| && slots[v].lo <= cursor && slots[v].end == oldEnd
    case Fetching(i) => Mine(slots, w, i)
    case Streaming(i, rest) => Mine(slots, w, i) && Aligned(rest, slots[i].cursor, env.source)
    case Loaded(i, chunk, more, rest) =>
      && Mine(slots, w, i) && chunk.off == slots[i].cursor && chunk.Agrees(env.source)
      && chunk.off + |chunk.bytes| <= slots[i].hi
      && (more ==> Aligned(rest, chunk.off + |chunk.bytes|, env.source))
    case Handed(i, n, more, rest) =>
      && Mine(slots, w, i) && slots[i].cursor + n <= slots[i].hi
      && (forall p: nat :: slots[i].cursor <= p < slots[i].cursor + n ==> Sent(sent, p))
      && (more ==> Aligned(rest, slots[i].cursor + n, env.source))
    case BodyEnd(i) => Mine(slots, w, i)
    case Releasing(i, _) => Mine(slots, w, i)
    case Deactivated(i, _) => Mine(slots, w, i)
    case GivingBack(_, hi, _) => hi <= env.total
    case Gone(_) => true
  }

  ghost predicate SlotOk(total: nat, slots: seq<Slot>, workers: seq<Pc>, i: nat)
    requires i < |slots|
  {
    var slot := slots[i];
    && slot.lo <= slot.cursor <= slot.hi && slot.lo <= slot.end <= slot.hi <= total
    && slot.owner < |workers|
    && (slot.open ==> workers[slot.owner].Owns(i))
  }

  /** At most one worker is inside the plan's critical section. */
  ghost predicate OneLock(workers: seq<Pc>) {
    forall w, x :: 0 <= w < x < |workers| && workers[w].Locks() ==> !workers[x].Locks()
  }

  ghost predicate SentOk(env: Env, s: State) {
    && |s.from| == |s.sent|
    && forall k :: 0 <= k < |s.sent| ==>
      && s.sent[k].Agrees(env.source)
      && s.from[k] < |s.slots|
      && s.slots[s.from[k]].lo <= s.sent[k].off
      && s.sent[k].off + |s.sent[k].bytes| <= s.slots[s.from[k]].hi
  }

  ghost predicate FreeOk(env: Env, s: State) {
    && Ordered(s.free)
    && forall p: nat :: Covers(s.free, p) ==> p < env.total
  }

  ghost predicate HeldOpen(slots: seq<Slot>, p: nat) {
    exists i :: 0 <= i < |slots| && slots[i].open && slots[i].cursor <= p < slots[i].end
  }

  ghost predicate OnTheWayBack(workers: seq<Pc>, p: nat) {
    exists w :: 0 <= w < |workers| && workers[w].GivingBack? && workers[w].lo <= p < workers[w].hi
  }

  /** Somebody answers for byte `p`. */
  ghost predicate Accounted(env: Env, s: State, p: nat) {
    || Covers(env.completed, p)
    || Sent(s.sent, p)
    || Covers(s.free, p)
    || HeldOpen(s.slots, p)
    || OnTheWayBack(s.workers, p)
  }

  ghost predicate NothingLost(env: Env, s: State) {
    forall p: nat :: p < env.total ==> Accounted(env, s, p)
  }

  ghost predicate Structure(env: Env, s: State) {
    && OneLock(s.workers)
    && (forall w :: 0 <= w < |s.workers| ==> WorkerOk(env, s.slots, s.sent, w, s.workers[w]))
    && (forall i :: 0 <= i < |s.slots| ==> SlotOk(env.total, s.slots, s.workers, i))
    && SentOk(env, s)
    && FreeOk(env, s)
  }

  ghost predicate Inv(env: Env, s: State) {
    Structure(env, s) && NothingLost(env, s)
  }
}
