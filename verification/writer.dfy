/** The single writer task (writer.rs): it owns the part file and decides when what it wrote may
    be recorded. */
module Writers {
  import opened Chunks
  import opened Spans
  import opened RangeSets
  import opened Media
  import opened Coalescing
  import opened Checkpoints

  const CHECKPOINT_BYTES: nat := 8 * 1024 * 1024

  datatype Msg = Data(chunk: Chunk) | Sync | Finish

  /** A reply to `Sync` or `Finish`. */
  datatype Answer = Done(ranges: seq<Span>) | IoError

  /** How the task ends: after `Finish`, when every sender is gone, or on an I/O error. */
  datatype Outcome = Finished(reply: Answer) | Drained | Broken

  /** What the system does with one call; a failing write may have written a prefix. */
  datatype Fault = Fine | Breaks(after: nat)

  /** The chunks carried by messages. */
  function DataOf(msgs: seq<Msg>): seq<Chunk> {
    if |msgs| == 0 then []
    else
      DataOf(msgs[..|msgs| - 1]) + (if msgs[|msgs| - 1].Data? then [msgs[|msgs| - 1].chunk] else [])
  }

  function Writes(chunks: seq<Chunk>): (events: seq<Event>)
    ensures |events| == |chunks|
    ensures forall i :: 0 <= i < |chunks| ==> events[i] == Wrote(chunks[i])
  {
    seq(|chunks|, i requires 0 <= i < |chunks| => Wrote(chunks[i]))
  }

  function Torn(chunk: Chunk, after: nat): Chunk {
    if after < |chunk.bytes| then Chunk(chunk.off, chunk.bytes[..after]) else chunk
  }

  /** The part file and the stored row behind one run. */
  class Disk {
    const base: Medium
    const faults: nat -> Fault
    var calls: nat
    var events: seq<Event>

    ghost predicate Healthy() {
      forall n :: faults(n).Fine?
    }

    constructor (base: Medium, faults: nat -> Fault)
      ensures this.base == base && this.faults == faults && events == []
    {
      this.base, this.faults, calls, events := base, faults, 0, [];
    }

    method WriteAt(chunk: Chunk) returns (ok: bool)
      modifies this
      ensures ok <==> faults(old(calls)).Fine?
      ensures ok ==> events == old(events) + [Wrote(chunk)]
      ensures !ok ==> events == old(events) + [Wrote(Torn(chunk, faults(old(calls)).after))]
    {
      var fault := faults(calls);
      calls := calls + 1;
      match fault
      case Fine =>
        events := events + [Wrote(chunk)];
        ok := true;
      case Breaks(after) =>
        events := events + [Wrote(Torn(chunk, after))];
        ok := false;
    }

    method SyncData() returns (ok: bool)
      modifies this
      ensures ok <==> faults(old(calls)).Fine?
      ensures events == old(events) + if ok then [Synced] else []
    {
      ok := faults(calls).Fine?;
      calls := calls + 1;
      events := events + if ok then [Synced] else [];
    }

    method Checkpoint(row: Row) returns (ok: bool)
      modifies this
      ensures ok <==> faults(old(calls)).Fine?
      ensures events == old(events) + if ok then [Committed(row)] else []
    {
      ok := faults(calls).Fine?;
      calls := calls + 1;
      events := events + if ok then [Committed(row)] else [];
    }
  }

  // ----- runs of writes -----

  lemma {:induction false} WrittenInWrites(events: seq<Event>, chunks: seq<Chunk>, p: nat)
    ensures WrittenIn(events + Writes(chunks), p) <==> WrittenIn(events, p) || Sent(chunks, p)
    decreases |chunks|
  {
    if |chunks| == 0 {
      assert events + Writes(chunks) == events;
    } else {
      var n := |chunks| - 1;
      WrittenInWrites(events, chunks[..n], p);
      assert events + Writes(chunks) == events + Writes(chunks[..n]) + [Wrote(chunks[n])];
      assert chunks == chunks[..n] + [chunks[n]];
      WrittenMore(events + Writes(chunks[..n]), Wrote(chunks[n]), p);
      SentMore(chunks[..n], chunks[n], p);
    }
  }

  lemma {:induction false} SoundAfterWrites(resumed: seq<Span>, done: seq<Span>, events: seq<Event>, chunks: seq<Chunk>,
                                            source: File)
    requires Sound(resumed, done, events, source) && AllAgree(chunks, source)
    ensures Sound(resumed, done, events + Writes(chunks), source)
    decreases |chunks|
  {
    if |chunks| == 0 {
      assert events + Writes(chunks) == events;
    } else {
      var n := |chunks| - 1;
      SoundAfterWrites(resumed, done, events, chunks[..n], source);
      assert events + Writes(chunks) == events + Writes(chunks[..n]) + [Wrote(chunks[n])];
      SoundAfterWrite(resumed, done, events + Writes(chunks[..n]), chunks[n], source);
    }
  }

  lemma {:induction false} ExposedAfterWrites(events: seq<Event>, chunks: seq<Chunk>, limit: nat)
    requires ExposedAtMost(events, limit) && Exposed(events) + TotalBytes(chunks) <= limit
    ensures ExposedAtMost(events + Writes(chunks), limit)
    ensures Exposed(events + Writes(chunks)) == Exposed(events) + TotalBytes(chunks)
    decreases |chunks|
  {
    if |chunks| == 0 {
      assert events + Writes(chunks) == events;
    } else {
      var n := |chunks| - 1;
      ExposedAfterWrites(events, chunks[..n], limit);
      assert events + Writes(chunks) == events + Writes(chunks[..n]) + [Wrote(chunks[n])];
      ExposedStep(events + Writes(chunks[..n]), Wrote(chunks[n]));
      ExposedAfter(events + Writes(chunks[..n]), Wrote(chunks[n]), limit);
    }
  }

  function RowOf(ranges: seq<Span>): Row {
    Row(ranges, TotalLen(ranges))
  }

  // ----- one flush -----

  lemma BufferFits(order: seq<Chunk>, j: nat)
    requires j <= |order| && AllWithin(order, U64_MAX)
    ensures Fold(order[..j]).buf.bytes != [] ==> Fold(order[..j]).buf.End() <= U64_MAX
  {
    CoalescingShape(order[..j], _ => 0, U64_MAX);
    var b := Fold(order[..j]);
    if b.buf.bytes != [] {
      assert Coalesced(order[..j])[|b.writes|] == b.buf;
    }
  }

  lemma SameChunksFit(a: seq<Chunk>, b: seq<Chunk>, limit: nat)
    requires SameChunks(a, b) && AllWithin(b, limit)
    ensures AllWithin(a, limit)
  {
    forall i | 0 <= i < |a|
      ensures a[i].End() <= limit
    {
      SameElements(a, b, i);
    }
  }

  /** `done` has grown by exactly these chunks. */
  ghost predicate Grown(now: seq<Span>, was: seq<Span>, chunks: seq<Chunk>) {
    forall p: nat :: Covers(now, p) <==> Covers(was, p) || Sent(chunks, p)
  }

  lemma ArrangementFits(order: seq<Chunk>, pending: seq<Chunk>)
    requires Arrangement(order, pending) && AllWithin(pending, U64_MAX)
    ensures AllWithin(order, U64_MAX)
  {
    SameChunksFit(order, pending, U64_MAX);
  }

  lemma ArrangementTotal(order: seq<Chunk>, pending: seq<Chunk>)
    requires Arrangement(order, pending)
    ensures TotalBytes(Coalesced(order)) == TotalBytes(pending)
  {
    CoalescingKeepsTotal(order);
    SameChunksTotal(order, pending);
  }

  lemma NothingFolded()
    ensures Fold([]) == Batch([], Chunk(0, [])) && Coalesced([]) == []
  {
  }

  lemma GrowIs(writes: seq<Chunk>, buf: Chunk, chunk: Chunk)
    ensures Grow(Batch(writes, buf), chunk) ==
      if buf.bytes == [] then Batch(writes, chunk)
      else if buf.End() == chunk.off && |buf.bytes| + |chunk.bytes| <= MAX_COALESCE then
        Batch(writes, Chunk(buf.off, buf.bytes + chunk.bytes))
      else Batch(writes + [buf], chunk)
  {
  }

  lemma WritesOf(order: seq<Chunk>, writes: seq<Chunk>, buf: Chunk)
    requires Fold(order) == Batch(writes, buf)
    ensures Coalesced(order) == if buf.bytes == [] then writes else writes + [buf]
  {
  }

  /** The write issued at step `j` is the next one of the whole flush. */
  lemma NextWrite(order: seq<Chunk>, j: nat, writes: seq<Chunk>, buf: Chunk)
    requires j < |order| && Fold(order[..j]) == Batch(writes, buf) && buf.bytes != []
    requires !(buf.End() == order[j].off && |buf.bytes| + |order[j].bytes| <= MAX_COALESCE)
    ensures |writes| < |Coalesced(order)| && Coalesced(order)[..|writes|] == writes && Coalesced(order)[|writes|] == buf
  {
    hide Fold, Coalesced;
    FoldStep(order, j);
    GrowIs(writes, buf, order[j]);
    FoldOnlyAppends(order, j + 1);
    assert writes + [buf] <= Coalesced(order);
  }

  lemma NothingArranged(order: seq<Chunk>, chunks: seq<Chunk>)
    requires Arrangement(order, chunks)
    ensures chunks == [] ==> Coalesced(order) == []
  {
    assert |order| == |multiset(order)| && |chunks| == |multiset(chunks)|;
    if chunks == [] {
      NothingFolded();
      assert order == [];
    }
  }

  lemma NothingToArrange()
    ensures Arrangement([], [])
  {
  }

  lemma GrownMore(now: seq<Span>, mid: seq<Span>, was: seq<Span>, chunks: seq<Chunk>, chunk: Chunk)
    requires Grown(mid, was, chunks)
    requires forall p: nat :: Covers(now, p) <==> Covers(mid, p) || chunk.Has(p)
    ensures Grown(now, was, chunks + [chunk])
  {
    forall p: nat
      ensures Covers(now, p) <==> Covers(was, p) || Sent(chunks + [chunk], p)
    {
      SentMore(chunks, chunk, p);
    }
  }

  // ----- what the loop of `run` keeps -----

  /** What a run is about: what it resumed with, the file it is fetching, and a bound on the
      size of a chunk. */
  datatype Context = Context(resumed: seq<Span>, source: File, biggest: nat) {
    /** More than this is never at stake: a full interval and one batch. */
    function Stake(): nat {
      CHECKPOINT_BYTES + MAX_COALESCE + biggest
    }
  }

  /** What the workers send: the file's bytes, at addressable places. */
  ghost predicate Honest(msgs: seq<Msg>, c: Context) {
    forall i :: 0 <= i < |msgs| && msgs[i].Data? ==>
      msgs[i].chunk.Agrees(c.source) && msgs[i].chunk.End() <= U64_MAX && |msgs[i].chunk.bytes| <= c.biggest
  }

  /** The size of the largest chunk. */
  function Largest(msgs: seq<Msg>): nat {
    if |msgs| == 0 then 0
    else
      var rest, last := Largest(msgs[..|msgs| - 1]), msgs[|msgs| - 1];
      if last.Data? && |last.chunk.bytes| > rest then |last.chunk.bytes| else rest
  }

  lemma {:induction false} LargestBounds(msgs: seq<Msg>, i: nat)
    requires i < |msgs| && msgs[i].Data?
    ensures |msgs[i].chunk.bytes| <= Largest(msgs)
    decreases |msgs|
  {
    if i < |msgs| - 1 {
      LargestBounds(msgs[..|msgs| - 1], i);
    }
  }

  lemma HonestAt(msgs: seq<Msg>, c: Context, i: nat)
    requires Honest(msgs, c) && i < |msgs| && msgs[i].Data?
    ensures msgs[i].chunk.Agrees(c.source) && msgs[i].chunk.End() <= U64_MAX && |msgs[i].chunk.bytes| <= c.biggest
  {
  }

  /** Between two messages, with `got` received so far: nothing is claimed that is not written,
      nothing written is forgotten, and everything received is written or pending. */
  ghost predicate Steady(c: Context, got: seq<Chunk>, done: seq<Span>, pending: seq<Chunk>, events: seq<Event>) {
    && Sound(c.resumed, done, events, c.source)
    && ClaimsAll(done, c.resumed, events)
    && AllAgree(pending, c.source)
    && forall p: nat :: Sent(got, p) <==> WrittenIn(events, p) || Sent(pending, p)
  }

  lemma TakenSteady(c: Context, got: seq<Chunk>, done: seq<Span>, pending: seq<Chunk>, events: seq<Event>, chunk: Chunk)
    requires Steady(c, got, done, pending, events) && chunk.Agrees(c.source)
    ensures Steady(c, got + [chunk], done, pending + [chunk], events)
  {
    forall p: nat
      ensures Sent(got + [chunk], p) <==> WrittenIn(events, p) || Sent(pending + [chunk], p)
    {
      SentMore(got, chunk, p);
      SentMore(pending, chunk, p);
    }
  }

  lemma ArrangementWrites(order: seq<Chunk>, pending: seq<Chunk>, source: File, p: nat)
    requires Arrangement(order, pending) && AllAgree(pending, source)
    ensures AllAgree(Coalesced(order), source)
    ensures Sent(Coalesced(order), p) <==> Sent(pending, p)
  {
    ArrangementAgrees(order, pending, source);
    CoalescingShape(order, source, 0);
    CoalescingKeepsBytes(order, p);
    if Sent(order, p) { SameChunksSend(order, pending, p); }
    if Sent(pending, p) { SameChunksSend(pending, order, p); }
  }

  lemma FlushedSteady(c: Context, got: seq<Chunk>, was: seq<Span>, now: seq<Span>, pending: seq<Chunk>, order: seq<Chunk>,
                      events: seq<Event>)
    requires Steady(c, got, was, pending, events) && Arrangement(order, pending)
    requires Grown(now, was, Coalesced(order))
    ensures Steady(c, got, now, [], events + Writes(Coalesced(order)))
  {
    var after := events + Writes(Coalesced(order));
    ArrangementWrites(order, pending, c.source, 0);
    SoundAfterWrites(c.resumed, was, events, Coalesced(order), c.source);
    forall p: nat
      ensures Covers(now, p) <==> Covers(c.resumed, p) || WrittenIn(after, p)
      ensures Sent(got, p) <==> WrittenIn(after, p)
    {
      ArrangementWrites(order, pending, c.source, p);
      WrittenInWrites(events, Coalesced(order), p);
    }
  }

  /** A failed flush: still nothing claimed that is not written. */
  lemma BrokenSound(c: Context, got: seq<Chunk>, was: seq<Span>, now: seq<Span>, pending: seq<Chunk>, order: seq<Chunk>,
                    k: nat, after: nat, events: seq<Event>)
    requires Steady(c, got, was, pending, events) && Arrangement(order, pending)
    requires k < |Coalesced(order)| && Grown(now, was, Coalesced(order)[..k])
    ensures Sound(c.resumed, now, events + Writes(Coalesced(order)[..k]) + [Wrote(Torn(Coalesced(order)[k], after))], c.source)
  {
    var writes, torn := Coalesced(order)[..k], Torn(Coalesced(order)[k], after);
    ArrangementWrites(order, pending, c.source, 0);
    assert AllAgree(writes, c.source);
    SoundAfterWrites(c.resumed, was, events, writes, c.source);
    forall p: nat | Covers(now, p)
      ensures Covers(c.resumed, p) || WrittenIn(events + Writes(writes), p)
    {
      WrittenInWrites(events, writes, p);
    }
    assert Sound(c.resumed, now, events + Writes(writes), c.source);
    SoundAfterWrite(c.resumed, now, events + Writes(writes), torn, c.source);
  }

  lemma FlushedExposure(order: seq<Chunk>, pending: seq<Chunk>, events: seq<Event>, limit: nat)
    requires Arrangement(order, pending)
    requires ExposedAtMost(events, limit) && Exposed(events) + TotalBytes(pending) <= limit
    ensures ExposedAtMost(events + Writes(Coalesced(order)), limit)
    ensures Exposed(events + Writes(Coalesced(order))) == Exposed(events) + TotalBytes(pending)
  {
    CoalescingKeepsTotal(order);
    SameChunksTotal(order, pending);
    ExposedAfterWrites(events, Coalesced(order), limit);
  }

  lemma BrokenExposure(order: seq<Chunk>, pending: seq<Chunk>, k: nat, after: nat, events: seq<Event>, limit: nat)
    requires Arrangement(order, pending) && k < |Coalesced(order)|
    requires ExposedAtMost(events, limit) && Exposed(events) + TotalBytes(pending) <= limit
    ensures ExposedAtMost(events + Writes(Coalesced(order)[..k]) + [Wrote(Torn(Coalesced(order)[k], after))], limit)
  {
    hide Exposed, ExposedAtMost, TotalBytes, Coalesced, Arrangement, Torn, Writes;
    var all := Coalesced(order);
    ArrangementTotal(order, pending);
    PrefixTotal(all, k);
    TornIsShorter(all[k], after);
    ExposedAfterWrites(events, all[..k], limit);
    ExposedStep(events + Writes(all[..k]), Wrote(Torn(all[k], after)));
    ExposedAfter(events + Writes(all[..k]), Wrote(Torn(all[k], after)), limit);
  }

  lemma TornIsShorter(chunk: Chunk, after: nat)
    ensures |Torn(chunk, after).bytes| <= |chunk.bytes|
  {
  }

  lemma PrefixTotal(all: seq<Chunk>, k: nat)
    requires k < |all|
    ensures TotalBytes(all[..k]) + |all[k].bytes| <= TotalBytes(all)
  {
    hide TotalBytes;
    assert all == all[..k + 1] + all[k + 1..];
    TotalBytesConcat(all[..k + 1], all[k + 1..]);
    assert all[..k + 1] == all[..k] + [all[k]];
    TotalBytesMore(all[..k], all[k]);
  }

  lemma TotalBytesMore(chunks: seq<Chunk>, chunk: Chunk)
    ensures TotalBytes(chunks + [chunk]) == TotalBytes(chunks) + |chunk.bytes|
  {
    assert (chunks + [chunk])[..|chunks|] == chunks;
  }

  lemma SteadyIsGrown(c: Context, got: seq<Chunk>, done: seq<Span>, events: seq<Event>)
    requires Steady(c, got, done, [], events)
    ensures Grown(done, c.resumed, got)
  {
    hide WrittenIn;
  }

  lemma CheckpointedSteady(c: Context, got: seq<Chunk>, done: seq<Span>, events: seq<Event>)
    requires Steady(c, got, done, [], events) && Spans.Valid(done)
    ensures Steady(c, got, done, [], events + [Synced, Committed(RowOf(done))])
  {
    SoundAfterCheckpoint(c.resumed, done, events, c.source);
    CheckpointWritesNothing(events, RowOf(done));
  }

  lemma CheckpointWritesNothing(events: seq<Event>, row: Row)
    ensures forall p: nat :: WrittenIn(events + [Synced, Committed(row)], p) <==> WrittenIn(events, p)
    ensures forall p: nat :: WrittenIn(events + [Synced], p) <==> WrittenIn(events, p)
  {
    assert events + [Synced, Committed(row)] == events + [Synced] + [Committed(row)];
    forall p: nat
      ensures WrittenIn(events + [Synced, Committed(row)], p) <==> WrittenIn(events, p)
      ensures WrittenIn(events + [Synced], p) <==> WrittenIn(events, p)
    {
      WrittenMore(events, Synced, p);
      WrittenMore(events + [Synced], Committed(row), p);
    }
  }

  /** Everything a checkpoint attempt may leave in the log. */
  ghost predicate Attempted(before: seq<Event>, after: seq<Event>, done: seq<Span>, ok: bool) {
    if ok then after == before + [Synced, Committed(RowOf(done))]
    else after == before || after == before + [Synced]
  }

  lemma AttemptedSteady(c: Context, got: seq<Chunk>, done: seq<Span>, before: seq<Event>, after: seq<Event>, ok: bool)
    requires Steady(c, got, done, [], before) && Spans.Valid(done) && Attempted(before, after, done, ok)
    ensures Steady(c, got, done, [], after) && before <= after
    ensures ok ==> Exposed(after) == 0 && Stored(after, done)
    ensures !ok ==> Exposed(after) == Exposed(before)
    ensures forall limit :: ExposedAtMost(before, limit) ==> ExposedAtMost(after, limit)
  {
    ExposedStep(before, Synced);
    if ok {
      CheckpointedSteady(c, got, done, before);
      assert after == before + [Synced] + [Committed(RowOf(done))];
      ExposedStep(before + [Synced], Committed(RowOf(done)));
      assert after[|after| - 1] == Committed(RowOf(done));
    } else if after != before {
      SoundAfterSync(c.resumed, done, before, c.source);
      CheckpointWritesNothing(before, RowOf(done));
    }
    forall limit | ExposedAtMost(before, limit)
      ensures ExposedAtMost(after, limit)
    {
      assert before[..|before|] == before;
      if after != before {
        ExposedAfter(before, Synced, limit);
      }
      if ok {
        ExposedAfter(before + [Synced], Committed(RowOf(done)), limit);
      }
    }
  }

  /** Some row of this run records exactly these ranges. */
  ghost predicate Stored(events: seq<Event>, ranges: seq<Span>) {
    Committed(RowOf(ranges)) in events
  }

  ghost predicate AllDone(answers: seq<Answer>) {
    forall i :: 0 <= i < |answers| ==> answers[i].Done?
  }

  lemma OneMoreAnswer(answers: seq<Answer>, answer: Answer)
    ensures AllDone(answers + [answer]) <==> AllDone(answers) && answer.Done?
  {
    var all := answers + [answer];
    assert all[|answers|] == answer;
    assert forall i :: 0 <= i < |answers| ==> all[i] == answers[i];
  }

  /** What was reported as synced is on record. */
  ghost predicate AnswersTrue(answers: seq<Answer>, events: seq<Event>) {
    forall i :: 0 <= i < |answers| && answers[i].Done? ==> Stored(events, answers[i].ranges)
  }

  lemma DataOfNext(msgs: seq<Msg>, i: nat)
    requires i < |msgs|
    ensures msgs[i].Data? ==> DataOf(msgs[..i + 1]) == DataOf(msgs[..i]) + [msgs[i].chunk]
    ensures !msgs[i].Data? ==> DataOf(msgs[..i + 1]) == DataOf(msgs[..i])
  {
    assert msgs[..i + 1][..i] == msgs[..i];
  }

  lemma ReceivedNext(msgs: seq<Msg>, i: nat)
    requires i < |msgs|
    ensures Received(msgs, i + 1) == Received(msgs, i) + if msgs[i].Data? then |msgs[i].chunk.bytes| else 0
  {
    DataOfNext(msgs, i);
    if msgs[i].Data? {
      TotalBytesMore(DataOf(msgs[..i]), msgs[i].chunk);
    }
  }

  lemma {:induction false} DataIsThere(msgs: seq<Msg>, i: nat) returns (k: nat)
    requires i < |msgs| && msgs[i].Data?
    ensures k < |DataOf(msgs)| && DataOf(msgs)[k] == msgs[i].chunk
    decreases |msgs|
  {
    if i == |msgs| - 1 {
      k := |DataOf(msgs)| - 1;
    } else {
      k := DataIsThere(msgs[..|msgs| - 1], i);
    }
  }

  // ----- where the task waits -----

  /** Bytes carried by the first `n` messages. */
  function Received(msgs: seq<Msg>, n: nat): nat
    requires n <= |msgs|
  {
    TotalBytes(DataOf(msgs[..n]))
  }

  /** The task waits for a message: how many it has taken, and how long the log is. */
  datatype Wait = Wait(taken: nat, logged: nat)

  /** Exactly the bytes of these chunks have been written. */
  ghost predicate WrittenExactly(got: seq<Chunk>, events: seq<Event>) {
    forall p: nat :: Sent(got, p) <==> WrittenIn(events, p)
  }

  /** All that was received is written, and if no `Sync` failed, less than a checkpoint interval
      of it was written after the last commit. */
  ghost predicate Settled(msgs: seq<Msg>, events: seq<Event>, clean: bool, w: Wait) {
    && w.taken <= |msgs| && w.logged <= |events|
    && WrittenExactly(DataOf(msgs[..w.taken]), events[..w.logged])
    && (clean ==> Exposed(events[..w.logged]) < CHECKPOINT_BYTES)
  }

  /** Less than one batch is received from `a` to `b`. */
  predicate OneBatch(msgs: seq<Msg>, a: nat, b: nat, biggest: nat) {
    a <= b <= |msgs| && Received(msgs, b) < Received(msgs, a) + MAX_COALESCE + biggest
  }

  /** Every wait of a run: the first is at the start, each is settled, and from one to the next,
      and from the last to the end, less than one batch is received. */
  ghost predicate Waits(c: Context, msgs: seq<Msg>, taken: nat, events: seq<Event>, clean: bool, waits: seq<Wait>) {
    && |waits| > 0 && waits[0] == Wait(0, 0)
    && (forall k :: 0 <= k < |waits| ==> Settled(msgs, events, clean, waits[k]))
    && (forall k :: 0 < k < |waits| ==> OneBatch(msgs, waits[k - 1].taken, waits[k].taken, c.biggest))
    && OneBatch(msgs, waits[|waits| - 1].taken, taken, c.biggest)
  }

  /** How many of the messages ask for a `Sync`. */
  function Syncs(msgs: seq<Msg>): nat {
    if |msgs| == 0 then 0 else Syncs(msgs[..|msgs| - 1]) + if msgs[|msgs| - 1].Sync? then 1 else 0
  }

  lemma SyncsNext(msgs: seq<Msg>, i: nat)
    requires i < |msgs|
    ensures Syncs(msgs[..i + 1]) == Syncs(msgs[..i]) + if msgs[i].Sync? then 1 else 0
  {
    assert msgs[..i + 1][..i] == msgs[..i];
  }

  lemma {:induction false} NoSyncs(msgs: seq<Msg>, a: nat, b: nat)
    requires a <= b <= |msgs| && forall j :: a <= j < b ==> !msgs[j].Sync?
    ensures Syncs(msgs[..b]) == Syncs(msgs[..a])
  {
    if a < b {
      NoSyncs(msgs, a, b - 1);
      SyncsNext(msgs, b - 1);
    }
  }

  /** The log ends with a row of exactly what was resumed with or came in these chunks. */
  ghost predicate EndsCommitted(c: Context, log: seq<Event>, got: seq<Chunk>) {
    |log| > 0 && log[|log| - 1].Committed? && Grown(log[|log| - 1].row.ranges, c.resumed, got)
  }

  ghost predicate CommittedAll(c: Context, msgs: seq<Msg>, log: seq<Event>, n: nat) {
    n <= |msgs| && EndsCommitted(c, log, DataOf(msgs[..n]))
  }

  ghost predicate OnlyWrites(events: seq<Event>, from: nat, to: nat) {
    forall k :: from <= k < to && k < |events| ==> events[k].Wrote?
  }

  /** A batch that starts with data at `a` goes on to `b`: every further message was queued already
      and the batch still small when it was taken; and at `b` something else came up, nothing is
      left or queued, or the batch is big enough. */
  ghost predicate DrainsQueue(msgs: seq<Msg>, ready: nat -> bool, a: nat, b: nat) {
    && a < b <= |msgs|
    && (forall j :: a < j < b ==> ready(j) && msgs[j - 1].Data? && Received(msgs, j) < Received(msgs, a) + MAX_COALESCE)
    && (!msgs[b - 1].Data? || b == |msgs| || !ready(b) || Received(msgs, b) >= Received(msgs, a) + MAX_COALESCE)
  }

  /** From one wait to the next.  One message that is not data is answered; with data the queue is
      drained, and then a row is stored if the interval has passed or enough was written, and only
      then. */
  ghost predicate OnTime(c: Context, msgs: seq<Msg>, events: seq<Event>, clean: bool, ready: nat -> bool, due: nat -> bool,
                         v: Wait, w: Wait)
  {
    && v.taken < w.taken <= |msgs| && v.logged <= w.logged <= |events|
    && (!msgs[v.taken].Data? ==> w.taken == v.taken + 1 && (clean ==> CommittedAll(c, msgs, events[..w.logged], w.taken)))
    && (msgs[v.taken].Data? ==>
          && DrainsQueue(msgs, ready, v.taken, w.taken)
          && (due(w.taken) ==> CommittedAll(c, msgs, events[..w.logged], w.taken))
          && (clean && msgs[w.taken - 1].Data? ==>
                if Exposed(events[..v.logged]) + Received(msgs, w.taken) >= CHECKPOINT_BYTES + Received(msgs, v.taken)
                then CommittedAll(c, msgs, events[..w.logged], w.taken)
                else due(w.taken) || OnlyWrites(events, v.logged, w.logged))
          && (clean && !msgs[w.taken - 1].Data? ==> CommittedAll(c, msgs, events[..w.logged], w.taken)))
  }

  lemma GatheredIsDrained(msgs: seq<Msg>, ready: nat -> bool, a: nat, b: nat, control: bool)
    requires a < b <= |msgs| && msgs[a].Data?
    requires control ==> b > a + 1 && !msgs[b - 1].Data?
    requires !control ==> Received(msgs, b) >= Received(msgs, a) + MAX_COALESCE || b == |msgs| || !ready(b)
    requires forall j :: a + 1 <= j < (if control then b - 1 else b) ==> msgs[j].Data?
    requires forall j :: a + 1 <= j < b ==> ready(j) && Received(msgs, j) < Received(msgs, a) + MAX_COALESCE
    ensures DrainsQueue(msgs, ready, a, b)
    ensures !control ==> msgs[b - 1].Data?
  {
    hide Received;
  }

  lemma LastIsDone(was: seq<Answer>, now: seq<Answer>)
    requires |now| == |was| + 1
    ensures AllDone(now) ==> now[|was|].Done?
  {
  }

  /** The replies after a batch that a message other than data ended. */
  lemma ControlReplied(c: Context, msgs: seq<Msg>, a: nat, b: nat, over: bool, outcome: Outcome, was: seq<Answer>,
                       now: seq<Answer>)
    requires AllReplied(c, msgs, a, was) && a < b <= |msgs| && !msgs[b - 1].Data?
    requires forall j :: a <= j < b - 1 ==> msgs[j].Data?
    requires over ==> now == was && (outcome.Finished? ==> msgs[b - 1].Finish?) && !outcome.Drained?
    requires !over ==> msgs[b - 1].Sync? && |now| == |was| + 1 && now[..|was|] == was
    requires !over && now[|was|].Done? ==> Grown(now[|was|].ranges, c.resumed, DataOf(msgs[..b]))
    ensures AllReplied(c, msgs, b, now) || (over && outcome.Broken? && AllReplied(c, msgs, b - 1, now))
  {
    hide AllReplied, Grown, DataOf;
    DataNeedsNoReply(c, msgs, a, b - 1, was);
    DataOfNext(msgs, b - 1);
    if !over {
      OneMoreReply(c, msgs, b - 1, was, now[|was|]);
      assert now == was + [now[|was|]];
    } else if outcome.Finished? {
      DataNeedsNoReply(c, msgs, b - 1, b, was);
    }
  }

  /** A batch that only data ended. */
  lemma DataIsOnTime(c: Context, msgs: seq<Msg>, log: seq<Event>, events: seq<Event>, clean: bool, ready: nat -> bool,
                     due: nat -> bool, a: nat, b: nat)
    requires log <= events && a < b <= |msgs| && DrainsQueue(msgs, ready, a, b) && msgs[a].Data? && msgs[b - 1].Data?
    requires due(b) ==> EndsCommitted(c, events, DataOf(msgs[..b]))
    requires clean ==>
      if Exposed(log) + Received(msgs, b) >= CHECKPOINT_BYTES + Received(msgs, a)
      then EndsCommitted(c, events, DataOf(msgs[..b]))
      else due(b) || OnlyWrites(events, |log|, |events|)
    ensures OnTime(c, msgs, events, clean, ready, due, Wait(a, |log|), Wait(b, |events|))
  {
    hide Exposed, DataOf, EndsCommitted, DrainsQueue, Received;
    assert events[..|events|] == events && events[..|log|] == log;
  }

  /** A batch that a `Sync` ended. */
  lemma SyncIsOnTime(c: Context, msgs: seq<Msg>, log: seq<Event>, events: seq<Event>, clean: bool, ready: nat -> bool,
                     due: nat -> bool, a: nat, b: nat)
    requires log <= events && a < b <= |msgs| && DrainsQueue(msgs, ready, a, b) && msgs[a].Data? && !msgs[b - 1].Data?
    requires due(b) || clean ==> EndsCommitted(c, events, DataOf(msgs[..b]))
    ensures OnTime(c, msgs, events, clean, ready, due, Wait(a, |log|), Wait(b, |events|))
  {
    hide Exposed, DataOf, EndsCommitted, DrainsQueue, Received;
    assert events[..|events|] == events && events[..|log|] == log;
  }

  lemma ControlIsOnTime(c: Context, msgs: seq<Msg>, log: seq<Event>, events: seq<Event>, clean: bool, ready: nat -> bool,
                        due: nat -> bool, a: nat)
    requires log <= events && a < |msgs| && !msgs[a].Data?
    requires clean ==> EndsCommitted(c, events, DataOf(msgs[..a + 1]))
    ensures OnTime(c, msgs, events, clean, ready, due, Wait(a, |log|), Wait(a + 1, |events|))
  {
    hide Exposed, DataOf, EndsCommitted, DrainsQueue, Received;
    assert events[..|events|] == events;
  }

  /** Every step from wait to wait. */
  ghost predicate Timely(c: Context, msgs: seq<Msg>, events: seq<Event>, clean: bool, ready: nat -> bool, due: nat -> bool,
                         waits: seq<Wait>)
  {
    forall k :: 0 < k < |waits| ==> OnTime(c, msgs, events, clean, ready, due, waits[k - 1], waits[k])
  }

  lemma FirstIsTimely(c: Context, msgs: seq<Msg>, ready: nat -> bool, due: nat -> bool)
    ensures Timely(c, msgs, [], true, ready, due, [Wait(0, 0)])
  {
  }

  lemma StaysOnTime(c: Context, msgs: seq<Msg>, log: seq<Event>, events: seq<Event>, clean: bool, still: bool,
                    ready: nat -> bool, due: nat -> bool, v: Wait, w: Wait)
    requires OnTime(c, msgs, log, clean, ready, due, v, w) && log <= events && (still ==> clean)
    ensures OnTime(c, msgs, events, still, ready, due, v, w)
  {
    hide CommittedAll, DrainsQueue, Received, Exposed;
    assert events[..w.logged] == log[..w.logged] && events[..v.logged] == log[..v.logged];
  }

  lemma StaysTimely(c: Context, msgs: seq<Msg>, log: seq<Event>, events: seq<Event>, clean: bool, still: bool,
                    ready: nat -> bool, due: nat -> bool, waits: seq<Wait>)
    requires Timely(c, msgs, log, clean, ready, due, waits) && log <= events && (still ==> clean)
    ensures Timely(c, msgs, events, still, ready, due, waits)
  {
    hide OnTime;
    forall k | 0 < k < |waits|
      ensures OnTime(c, msgs, events, still, ready, due, waits[k - 1], waits[k])
    {
      StaysOnTime(c, msgs, log, events, clean, still, ready, due, waits[k - 1], waits[k]);
    }
  }

  lemma TimelyMore(c: Context, msgs: seq<Msg>, events: seq<Event>, clean: bool, ready: nat -> bool, due: nat -> bool,
                   waits: seq<Wait>, w: Wait)
    requires Timely(c, msgs, events, clean, ready, due, waits) && |waits| > 0
    requires OnTime(c, msgs, events, clean, ready, due, waits[|waits| - 1], w)
    ensures Timely(c, msgs, events, clean, ready, due, waits + [w])
  {
    hide OnTime;
  }

  /** A crash right after such a row costs nothing. */
  lemma CrashAtACheckpoint(base: Medium, c: Context, msgs: seq<Msg>, log: seq<Event>, n: nat, now: seq<Span>)
    requires CommittedAll(c, msgs, log, n) && Grown(now, c.resumed, DataOf(msgs[..n]))
    ensures var stored := Replay(base, log).rows;
      |stored| > 0 && SameBytes(stored[|stored| - 1].ranges, now)
  {
    hide Sent, Covers, DataOf;
  }

  /** So a crash while the task waits, once the interval has passed when the last data came in, costs
      nothing, whatever failed before. */
  lemma CrashWhenDue(base: Medium, c: Context, msgs: seq<Msg>, events: seq<Event>, clean: bool, ready: nat -> bool,
                     due: nat -> bool, waits: seq<Wait>, k: nat, now: seq<Span>)
    requires Timely(c, msgs, events, clean, ready, due, waits) && 0 < k < |waits|
    requires waits[k - 1].taken < |msgs| && msgs[waits[k - 1].taken].Data? && due(waits[k].taken)
    requires waits[k].taken <= |msgs| && Grown(now, c.resumed, DataOf(msgs[..waits[k].taken]))
    ensures waits[k].logged <= |events|
    ensures var stored := Replay(base, events[..waits[k].logged]).rows;
      |stored| > 0 && SameBytes(stored[|stored| - 1].ranges, now)
  {
    hide EndsCommitted, DrainsQueue, Grown, DataOf, Exposed, Received, Replay, SameBytes;
    assert OnTime(c, msgs, events, clean, ready, due, waits[k - 1], waits[k]);
    CrashAtACheckpoint(base, c, msgs, events[..waits[k].logged], waits[k].taken, now);
  }

  /** What a reply to the `Sync` at message `j` lists: all that was resumed with or received before. */
  ghost predicate Replied(c: Context, msgs: seq<Msg>, answers: seq<Answer>, j: nat) {
    && j < |msgs| && Syncs(msgs[..j]) < |answers|
    && var answer := answers[Syncs(msgs[..j])];
       answer.Done? ==> Grown(answer.ranges, c.resumed, DataOf(msgs[..j]))
  }

  /** The first `n` messages have been answered in order: one reply to every `Sync`. */
  ghost predicate AllReplied(c: Context, msgs: seq<Msg>, n: nat, answers: seq<Answer>) {
    && n <= |msgs| && |answers| == Syncs(msgs[..n])
    && forall j: nat :: j < n && msgs[j].Sync? ==> Replied(c, msgs, answers, j)
  }

  lemma NobodyReplied(c: Context, msgs: seq<Msg>)
    ensures AllReplied(c, msgs, 0, [])
  {
    assert msgs[..0] == [];
  }

  lemma DataNeedsNoReply(c: Context, msgs: seq<Msg>, a: nat, b: nat, answers: seq<Answer>)
    requires AllReplied(c, msgs, a, answers) && a <= b <= |msgs|
    requires forall j :: a <= j < b ==> !msgs[j].Sync?
    ensures AllReplied(c, msgs, b, answers)
  {
    hide Replied;
    NoSyncs(msgs, a, b);
  }

  lemma {:induction false} SyncsRise(msgs: seq<Msg>, a: nat, b: nat)
    requires a < b <= |msgs| && msgs[a].Sync?
    ensures Syncs(msgs[..a]) < Syncs(msgs[..b])
    decreases b
  {
    SyncsNext(msgs, b - 1);
    if a < b - 1 {
      SyncsRise(msgs, a, b - 1);
    }
  }

  lemma OneMoreReply(c: Context, msgs: seq<Msg>, n: nat, answers: seq<Answer>, answer: Answer)
    requires AllReplied(c, msgs, n, answers) && n < |msgs| && msgs[n].Sync?
    requires answer.Done? ==> Grown(answer.ranges, c.resumed, DataOf(msgs[..n]))
    ensures AllReplied(c, msgs, n + 1, answers + [answer])
  {
    hide Grown, DataOf;
    SyncsNext(msgs, n);
    forall j: nat | j < n + 1 && msgs[j].Sync?
      ensures Replied(c, msgs, answers + [answer], j)
    {
      if j < n {
        assert Replied(c, msgs, answers, j);
        SyncsRise(msgs, j, n);
      }
    }
  }

  lemma NoBatch(msgs: seq<Msg>, n: nat, biggest: nat)
    requires n <= |msgs|
    ensures OneBatch(msgs, n, n, biggest)
  {
  }

  lemma ControlIsNoData(msgs: seq<Msg>, i: nat, c: Context)
    requires i < |msgs| && !msgs[i].Data?
    ensures DataOf(msgs[..i + 1]) == DataOf(msgs[..i]) && OneBatch(msgs, i, i + 1, c.biggest)
  {
    DataOfNext(msgs, i);
  }

  lemma FirstWait(c: Context, msgs: seq<Msg>)
    ensures Waits(c, msgs, 0, [], true, [Wait(0, 0)])
  {
    assert msgs[..0] == [];
  }

  /** The log has grown since the last wait. */
  lemma WaitsOn(c: Context, msgs: seq<Msg>, was: nat, taken: nat, log: seq<Event>, events: seq<Event>, clean: bool, still: bool,
                waits: seq<Wait>)
    requires Waits(c, msgs, was, log, clean, waits) && waits[|waits| - 1].taken == was
    requires log <= events && (still ==> clean) && OneBatch(msgs, was, taken, c.biggest)
    ensures Waits(c, msgs, taken, events, still, waits)
  {
    hide OneBatch, DataOf, Exposed, WrittenIn, Sent;
    forall k | 0 <= k < |waits|
      ensures Settled(msgs, events, still, waits[k])
    {
      assert Settled(msgs, log, clean, waits[k]);
      assert events[..waits[k].logged] == log[..waits[k].logged];
    }
  }

  lemma OneMoreWait(c: Context, msgs: seq<Msg>, taken: nat, events: seq<Event>, clean: bool, waits: seq<Wait>)
    requires Waits(c, msgs, taken, events, clean, waits)
    requires Settled(msgs, events, clean, Wait(taken, |events|))
    ensures Waits(c, msgs, taken, events, clean, waits + [Wait(taken, |events|)])
  {
    hide Settled, Received;
  }

  /** Of these bytes, which are resumed with or received by that wait, less than 8 MiB are missing
      from the row that is stored. */
  ghost predicate LosesLittle(base: Medium, resumed: seq<Span>, msgs: seq<Msg>, events: seq<Event>, w: Wait, now: seq<Span>) {
    && w.taken <= |msgs| && w.logged <= |events|
    && (Grown(now, resumed, DataOf(msgs[..w.taken])) ==>
          var stored := Replay(base, events[..w.logged]).rows;
          |stored| > 0 && |ByteSet(now) - ByteSet(stored[|stored| - 1].ranges)| < CHECKPOINT_BYTES)
  }

  lemma GrownIsClaimed(now: seq<Span>, resumed: seq<Span>, chunks: seq<Chunk>, events: seq<Event>)
    requires Grown(now, resumed, chunks) && WrittenExactly(chunks, events)
    ensures Claims(now, resumed, events)
  {
    hide Sent, WrittenIn;
  }

  /** A crash while the task waits, in a run in which no `Sync` failed, costs less than 8 MiB. */
  lemma CrashWhileWaiting(base: Medium, c: Context, msgs: seq<Msg>, taken: nat, events: seq<Event>, waits: seq<Wait>, k: nat,
                          now: seq<Span>)
    requires |base.rows| > 0 && Within(c.resumed, base.rows[|base.rows| - 1].ranges)
    requires RowsExact(c.resumed, events) && Waits(c, msgs, taken, events, true, waits) && k < |waits|
    ensures LosesLittle(base, c.resumed, msgs, events, waits[k], now)
  {
    hide OneBatch, DataOf, Exposed, Replay, Grown, Claims, RowsExact, ByteSet, Within, LastRow, WrittenExactly;
    var w := waits[k];
    assert Settled(msgs, events, true, w);
    if Grown(now, c.resumed, DataOf(msgs[..w.taken])) {
      GrownIsClaimed(now, c.resumed, DataOf(msgs[..w.taken]), events[..w.logged]);
      RowsExactCut(c.resumed, events, w.logged);
      LastRowIsStored(base, events[..w.logged]);
      CrashCosts(c.resumed, base.rows[|base.rows| - 1].ranges, now, events[..w.logged]);
    }
  }

  class Writer {
    const disk: Disk
    const done: RangeSet
    var pending: seq<Chunk>
    var pendingBytes: nat
    var sinceCheckpoint: nat

    ghost predicate Valid()
      reads this, done
    {
      done.Valid() && AllWithin(pending, U64_MAX) && pendingBytes == TotalBytes(pending)
    }

    constructor (disk: Disk, initial: RangeSet)
      requires initial.Valid()
      ensures Valid() && this.disk == disk && this.done == initial
      ensures pending == [] && pendingBytes == 0 && sinceCheckpoint == 0
    {
      this.disk, this.done, pending, pendingBytes, sinceCheckpoint := disk, initial, [], 0, 0;
    }

    /** Since the log was `log`, exactly these writes were issued, recorded and counted. */
    ghost predicate WroteOut(was: seq<Span>, log: seq<Event>, since: nat, writes: seq<Chunk>)
      reads this`sinceCheckpoint, disk, done
    {
      && done.Valid() && Grown(done.spans, was, writes)
      && disk.events == log + Writes(writes) && sinceCheckpoint == since + TotalBytes(writes)
    }

    /** Since the log was `log`, these writes were issued and recorded, and then `buf` failed with
        at most a prefix of it on the disk. */
    ghost predicate GaveUp(was: seq<Span>, log: seq<Event>, writes: seq<Chunk>, buf: Chunk)
      reads disk, done
    {
      && done.Valid() && Grown(done.spans, was, writes)
      && exists after :: disk.events == log + Writes(writes) + [Wrote(Torn(buf, after))]
    }

    /** Sort, merge neighbours, write.  If a write fails, the ones before it are done and `done`
        says so, and at most a prefix of the failed one is on the disk. */
    method FlushPending() returns (ok: bool, ghost order: seq<Chunk>, ghost k: nat)
      requires Valid()
      modifies this, disk, done
      ensures pending == [] && Arrangement(order, old(pending))
      ensures disk.Healthy() ==> ok
      ensures ok ==> k == |Coalesced(order)| && pendingBytes == 0
      ensures ok ==> WroteOut(old(done.spans), old(disk.events), old(sinceCheckpoint), Coalesced(order))
      ensures !ok ==> k < |Coalesced(order)|
      ensures !ok ==> GaveUp(old(done.spans), old(disk.events), Coalesced(order)[..k], Coalesced(order)[k])
    {
      hide Arrangement, AllWithin, WroteOut, GaveUp, Coalesced, Spans.Valid;
      order, k := [], 0;
      NothingToArrange();
      NothingFolded();
      NothingIssued();
      if |pending| == 0 {
        return true, order, k;
      }
      var sorted := SortUnstable(pending);
      order := sorted;
      ArrangementFits(order, pending);
      pending := [];
      ok, k := WriteMerged(sorted);
      if ok {
        pendingBytes := 0;
      }
    }

    ghost method NothingIssued()
      requires done.Valid()
      ensures WroteOut(done.spans, disk.events, sinceCheckpoint, [])
    {
      assert disk.events + Writes([]) == disk.events;
    }

    /** The loop over the sorted chunks. */
    method WriteMerged(sorted: seq<Chunk>) returns (ok: bool, ghost k: nat)
      requires done.Valid() && AllWithin(sorted, U64_MAX)
      modifies this`sinceCheckpoint, disk, done
      ensures disk.Healthy() ==> ok
      ensures ok ==> k == |Coalesced(sorted)|
      ensures ok ==> WroteOut(old(done.spans), old(disk.events), old(sinceCheckpoint), Coalesced(sorted))
      ensures !ok ==> k < |Coalesced(sorted)|
      ensures !ok ==> GaveUp(old(done.spans), old(disk.events), Coalesced(sorted)[..k], Coalesced(sorted)[k])
    {
      hide AllWithin, WroteOut, GaveUp, Coalesced, Fold, Grow, Spans.Valid;
      var buf := Chunk(0, []);
      ghost var writes: seq<Chunk> := [];
      NothingIssued();
      NothingFolded();
      for j := 0 to |sorted|
        invariant Fold(sorted[..j]) == Batch(writes, buf)
        invariant WroteOut(old(done.spans), old(disk.events), old(sinceCheckpoint), writes)
      {
        FoldStep(sorted, j);
        GrowIs(writes, buf, sorted[j]);
        BufferFits(sorted, j);
        var chunk := sorted[j];
        if |buf.bytes| == 0 {
          buf := chunk;
        } else if buf.End() == chunk.off && |buf.bytes| + |chunk.bytes| <= MAX_COALESCE {
          buf := Chunk(buf.off, buf.bytes + chunk.bytes);
        } else {
          NextWrite(sorted, j, writes, buf);
          ok := Emit(buf, writes, old(done.spans), old(disk.events), old(sinceCheckpoint));
          if !ok {
            return false, |writes|;
          }
          writes := writes + [buf];
          buf := chunk;
        }
      }
      assert sorted[..|sorted|] == sorted;
      BufferFits(sorted, |sorted|);
      WritesOf(sorted, writes, buf);
      k := |Coalesced(sorted)|;
      ok := true;
      if |buf.bytes| > 0 {
        ok := Emit(buf, writes, old(done.spans), old(disk.events), old(sinceCheckpoint));
        if !ok {
          k := |writes|;
          assert Coalesced(sorted)[..k] == writes;
        }
      }
    }

    /** One positional write, recorded in `done` only if it succeeded; `writes` went before. */
    method Emit(buf: Chunk, ghost writes: seq<Chunk>, ghost was: seq<Span>, ghost log: seq<Event>, ghost since: nat)
      returns (ok: bool)
      requires WroteOut(was, log, since, writes) && buf.End() <= U64_MAX
      modifies this`sinceCheckpoint, disk, done
      ensures disk.Healthy() ==> ok
      ensures ok ==> WroteOut(was, log, since, writes + [buf])
      ensures !ok ==> GaveUp(was, log, writes, buf)
    {
      ghost var mid := done.spans;
      ok := disk.WriteAt(buf);
      if ok {
        done.Insert(buf.off, |buf.bytes|);
        sinceCheckpoint := sinceCheckpoint + |buf.bytes|;
        GrownMore(done.spans, mid, was, writes, buf);
        assert Writes(writes + [buf]) == Writes(writes) + [Wrote(buf)];
        assert (writes + [buf])[..|writes|] == writes;
      }
    }

    /** Make the data durable, then record it. */
    method DurableCheckpoint() returns (ok: bool)
      requires done.Valid()
      modifies disk
      ensures disk.Healthy() ==> ok
      ensures ok ==> disk.events == old(disk.events) + [Synced, Committed(RowOf(done.spans))]
      ensures !ok ==> disk.events == old(disk.events) || disk.events == old(disk.events) + [Synced]
    {
      ok := disk.SyncData();
      if ok {
        ok := disk.Checkpoint(Row(done.spans, done.Total()));
      }
    }

    // ----- the message loop -----

    /** Between two messages; `clean` says that no `Sync` has failed so far. */
    ghost predicate Going(c: Context, got: seq<Chunk>, clean: bool)
      reads this, disk, done
    {
      && Valid()
      && Steady(c, got, done.spans, pending, disk.events)
      && (clean ==> Exposed(disk.events) == sinceCheckpoint && ExposedAtMost(disk.events, c.Stake()))
    }

    /** After an I/O error. */
    ghost predicate Halted(c: Context, clean: bool)
      reads this, disk, done
    {
      && done.Valid()
      && Sound(c.resumed, done.spans, disk.events, c.source)
      && (clean ==> ExposedAtMost(disk.events, c.Stake()))
    }

    method Flush(ghost c: Context, ghost got: seq<Chunk>, ghost clean: bool) returns (ok: bool)
      requires Going(c, got, clean) && sinceCheckpoint + pendingBytes <= c.Stake()
      modifies this, disk, done
      ensures disk.Healthy() ==> ok
      ensures ok ==> Going(c, got, clean) && pending == []
      ensures ok ==> sinceCheckpoint == old(sinceCheckpoint) + old(pendingBytes)
      ensures ok ==> OnlyWrites(disk.events, |old(disk.events)|, |disk.events|)
      ensures ok && old(pending) == [] ==> disk.events == old(disk.events)
      ensures !ok ==> Halted(c, clean)
      ensures old(disk.events) <= disk.events
    {
      ghost var was, chunks, events := done.spans, pending, disk.events;
      ghost var order, k;
      ok, order, k := FlushPending();
      if ok {
        ArrangementTotal(order, chunks);
        NothingArranged(order, chunks);
        FlushedSteady(c, got, was, done.spans, chunks, order, events);
        if clean {
          FlushedExposure(order, chunks, events, c.Stake());
        }
      } else {
        ghost var after: nat :|
          disk.events == events + Writes(Coalesced(order)[..k]) + [Wrote(Torn(Coalesced(order)[k], after))];
        BrokenSound(c, got, was, done.spans, chunks, order, k, after, events);
        if clean {
          BrokenExposure(order, chunks, k, after, events, c.Stake());
        }
      }
    }

    /** The periodic checkpoint. */
    method CheckpointNow(ghost c: Context, ghost got: seq<Chunk>, ghost clean: bool) returns (ok: bool)
      requires Going(c, got, clean) && pending == []
      modifies this`sinceCheckpoint, disk
      ensures disk.Healthy() ==> ok
      ensures ok ==> Going(c, got, clean) && sinceCheckpoint == 0
      ensures ok ==> |disk.events| > 0 && disk.events[|disk.events| - 1] == Committed(RowOf(done.spans))
      ensures !ok ==> Halted(c, clean)
      ensures old(disk.events) <= disk.events
    {
      ghost var events := disk.events;
      ok := DurableCheckpoint();
      AttemptedSteady(c, got, done.spans, events, disk.events, ok);
      if ok {
        sinceCheckpoint := 0;
      }
    }

    /** `Sync` and `Finish` get a reply either way; `Sync` restarts the count even if the
        checkpoint failed. */
    method HandleControl(msg: Msg, ghost c: Context, ghost got: seq<Chunk>, ghost clean: bool)
      returns (exit: bool, answer: Answer)
      requires !msg.Data? && Going(c, got, clean) && pending == []
      modifies this`sinceCheckpoint, disk
      ensures exit <==> msg.Finish?
      ensures disk.Healthy() ==> answer.Done?
      ensures Attempted(old(disk.events), disk.events, done.spans, answer.Done?)
      ensures answer.Done? ==> answer.ranges == done.spans && Stored(disk.events, done.spans)
      ensures answer.Done? ==> |disk.events| > 0 && disk.events[|disk.events| - 1] == Committed(RowOf(done.spans))
      ensures !exit ==> Going(c, got, clean && answer.Done?) && sinceCheckpoint == 0
      ensures exit ==> Halted(c, clean) && Steady(c, got, done.spans, pending, disk.events)
      ensures old(disk.events) <= disk.events
    {
      ghost var events := disk.events;
      var ok := DurableCheckpoint();
      AttemptedSteady(c, got, done.spans, events, disk.events, ok);
      answer := if ok then Done(done.spans) else IoError;
      match msg
      case Sync =>
        sinceCheckpoint := 0;
        exit := false;
      case Finish =>
        exit := true;
    }

    /** The inner loop: take whatever data is already queued, until the batch is large enough or
        something else turns up. */
    method Gather(msgs: seq<Msg>, from: nat, ready: nat -> bool, ghost c: Context, ghost clean: bool)
      returns (next: nat, control: bool)
      requires from <= |msgs| && Going(c, DataOf(msgs[..from]), clean)
      requires pendingBytes < MAX_COALESCE + c.biggest
      requires Honest(msgs, c)
      modifies this`pending, this`pendingBytes
      ensures from <= next <= |msgs| && Going(c, DataOf(msgs[..next]), clean)
      ensures pendingBytes < MAX_COALESCE + c.biggest
      ensures control ==> next > from && !msgs[next - 1].Data?
      ensures !control ==> pendingBytes >= MAX_COALESCE || next == |msgs| || !ready(next)
      ensures forall i :: from <= i < (if control then next - 1 else next) ==> msgs[i].Data?
      ensures pendingBytes + Received(msgs, from) == old(pendingBytes) + Received(msgs, next)
      ensures forall j :: from <= j < next ==>
        ready(j) && old(pendingBytes) + Received(msgs, j) < Received(msgs, from) + MAX_COALESCE
    {
      hide Going, DataOf, Honest, TotalBytes;
      next, control := from, false;
      while pendingBytes < MAX_COALESCE && next < |msgs| && ready(next)
        invariant from <= next <= |msgs| && Going(c, DataOf(msgs[..next]), clean)
        invariant pendingBytes < MAX_COALESCE + c.biggest
        invariant forall i :: from <= i < next ==> msgs[i].Data?
        invariant pendingBytes + Received(msgs, from) == old(pendingBytes) + Received(msgs, next)
        invariant forall j :: from <= j < next ==>
          ready(j) && old(pendingBytes) + Received(msgs, j) < Received(msgs, from) + MAX_COALESCE
        decreases |msgs| - next
      {
        ReceivedNext(msgs, next);
        DataOfNext(msgs, next);
        if !msgs[next].Data? {
          next, control := next + 1, true;
          return;
        }
        HonestAt(msgs, c, next);
        Push(msgs[next].chunk, c, DataOf(msgs[..next]), clean);
        next := next + 1;
      }
    }

    method Push(chunk: Chunk, ghost c: Context, ghost got: seq<Chunk>, ghost clean: bool)
      requires Going(c, got, clean)
      requires chunk.Agrees(c.source) && chunk.End() <= U64_MAX
      modifies this`pending, this`pendingBytes
      ensures Going(c, got + [chunk], clean)
      ensures pending == old(pending) + [chunk] && pendingBytes == old(pendingBytes) + |chunk.bytes|
    {
      hide Steady, Spans.Valid, ExposedAtMost;
      TakenSteady(c, got, done.spans, pending, disk.events, chunk);
      assert (pending + [chunk])[..|pending|] == pending;
      pendingBytes := pendingBytes + |chunk.bytes|;
      pending := pending + [chunk];
    }

    /** How the task leaves things, with `got` received. */
    ghost predicate Ended(c: Context, got: seq<Chunk>, outcome: Outcome, answers: seq<Answer>)
      reads this, disk, done
    {
      && Halted(c, AllDone(answers)) && AnswersTrue(answers, disk.events)
      && (!outcome.Broken? ==> Grown(done.spans, c.resumed, got) && WrittenExactly(got, disk.events))
      && (outcome.Drained? || (outcome.Finished? && outcome.reply.Done?) ==>
            |disk.events| > 0 && disk.events[|disk.events| - 1] == Committed(RowOf(done.spans)))
      && (outcome.Finished? && outcome.reply.Done? ==> outcome.reply.ranges == done.spans)
      && (disk.Healthy() ==> AllDone(answers) && !outcome.Broken? && (outcome.Finished? ==> outcome.reply.Done?))
    }

    /** At the head of the loop. */
    ghost predicate AtHead(c: Context, got: seq<Chunk>, answers: seq<Answer>)
      reads this, disk, done
    {
      && Going(c, got, AllDone(answers)) && AnswersTrue(answers, disk.events)
      && pending == [] && sinceCheckpoint < CHECKPOINT_BYTES
      && (disk.Healthy() ==> AllDone(answers))
    }

    /** Flush, then answer `Sync` or `Finish`. */
    method OnControl(msg: Msg, answers: seq<Answer>, ghost c: Context, ghost got: seq<Chunk>)
      returns (over: bool, outcome: Outcome, replies: seq<Answer>)
      requires !msg.Data? && Going(c, got, AllDone(answers)) && sinceCheckpoint + pendingBytes <= c.Stake()
      requires AnswersTrue(answers, disk.events) && (disk.Healthy() ==> AllDone(answers))
      modifies this, disk, done
      ensures over ==> Ended(c, got, outcome, replies) && !outcome.Drained? && (outcome.Finished? ==> msg.Finish?)
      ensures !over ==> AtHead(c, got, replies) && sinceCheckpoint == 0 && msg.Sync?
      ensures over && msg.Finish? && !outcome.Broken? ==> outcome.Finished?
      ensures old(disk.events) <= disk.events && (AllDone(replies) ==> AllDone(answers))
      ensures over ==> replies == answers
      ensures !over ==> pending == [] && |replies| == |answers| + 1 && replies[..|answers|] == answers
      ensures !over && replies[|answers|].Done? ==>
        EndsCommitted(c, disk.events, got) && Grown(replies[|answers|].ranges, c.resumed, got)
    {
      var ok := Flush(c, got, AllDone(answers));
      if !ok {
        return true, Broken, answers;
      }
      var exit, answer := HandleControl(msg, c, got, AllDone(answers));
      if exit {
        return true, Finished(answer), answers;
      }
      OneMoreAnswer(answers, answer);
      SteadyIsGrown(c, got, done.spans, disk.events);
      return false, Drained, answers + [answer];
    }

    /** Data is in: flush, and checkpoint when enough was written or enough time has passed. */
    method AfterData(due: bool, ghost c: Context, ghost got: seq<Chunk>, ghost answers: seq<Answer>) returns (ok: bool)
      requires Going(c, got, AllDone(answers)) && sinceCheckpoint + pendingBytes <= c.Stake()
      requires AnswersTrue(answers, disk.events) && (disk.Healthy() ==> AllDone(answers))
      modifies this, disk, done
      ensures ok ==> AtHead(c, got, answers)
      ensures ok && (due || old(sinceCheckpoint) + old(pendingBytes) >= CHECKPOINT_BYTES) ==> EndsCommitted(c, disk.events, got)
      ensures ok && !due && old(sinceCheckpoint) + old(pendingBytes) < CHECKPOINT_BYTES ==>
        OnlyWrites(disk.events, |old(disk.events)|, |disk.events|) && (old(pending) == [] ==> disk.events == old(disk.events))
      ensures !ok ==> Ended(c, got, Broken, answers)
      ensures old(disk.events) <= disk.events
    {
      ok := Flush(c, got, AllDone(answers));
      if ok && (sinceCheckpoint >= CHECKPOINT_BYTES || due) {
        ok := CheckpointNow(c, got, AllDone(answers));
        if ok {
          SteadyIsGrown(c, got, done.spans, disk.events);
        }
      }
    }

    /** Every sender is gone: flush and record. */
    method WindUp(ghost c: Context, ghost got: seq<Chunk>, ghost answers: seq<Answer>) returns (outcome: Outcome)
      requires AtHead(c, got, answers)
      modifies this, disk, done
      ensures Ended(c, got, outcome, answers) && !outcome.Finished?
      ensures old(disk.events) <= disk.events
    {
      var ok := Flush(c, got, AllDone(answers));
      if ok {
        ok := CheckpointNow(c, got, AllDone(answers));
      }
      outcome := if ok then Drained else Broken;
    }

    /** Message `i` is data: drain the queue behind it, handle what ended the draining, flush,
        checkpoint if due. */
    method OnData(msgs: seq<Msg>, i: nat, ready: nat -> bool, due: nat -> bool, answers: seq<Answer>, ghost c: Context)
      returns (over: bool, outcome: Outcome, replies: seq<Answer>, next: nat)
      requires i < |msgs| && msgs[i].Data? && Honest(msgs, c)
      requires AtHead(c, DataOf(msgs[..i]), answers) && AllReplied(c, msgs, i, answers)
      modifies this, disk, done
      ensures i < next <= |msgs|
      ensures over ==> Ended(c, DataOf(msgs[..next]), outcome, replies) && !outcome.Drained?
      ensures outcome.Finished? && over ==> msgs[next - 1].Finish?
      ensures forall j :: i <= j < next && msgs[j].Finish? ==> over && j == next - 1
      ensures !over ==> AtHead(c, DataOf(msgs[..next]), replies)
      ensures old(disk.events) <= disk.events && (AllDone(replies) ==> AllDone(answers))
      ensures OneBatch(msgs, i, next, c.biggest)
      ensures AllReplied(c, msgs, next, replies) || (over && outcome.Broken? && AllReplied(c, msgs, next - 1, replies))
      ensures !over ==> OnTime(c, msgs, disk.events, AllDone(replies), ready, due, Wait(i, |old(disk.events)|), Wait(next, |disk.events|))
    {
      hide Steady, DataOf, Honest, ExposedAtMost, Spans.Valid, AllReplied, OnTime, EndsCommitted, OnlyWrites, Replied, DrainsQueue, Ended;
      ghost var log := disk.events;
      ReceivedNext(msgs, i);
      DataOfNext(msgs, i);
      HonestAt(msgs, c, i);
      Push(msgs[i].chunk, c, DataOf(msgs[..i]), AllDone(answers));
      var control;
      next, control := Gather(msgs, i + 1, ready, c, AllDone(answers));
      GatheredIsDrained(msgs, ready, i, next, control);
      replies := answers;
      if control {
        over, outcome, replies := OnControl(msgs[next - 1], answers, c, DataOf(msgs[..next]));
        ControlReplied(c, msgs, i, next, over, outcome, answers, replies);
        if over {
          return;
        }
      } else {
        DataNeedsNoReply(c, msgs, i, next, answers);
      }
      var ok := AfterData(due(next), c, DataOf(msgs[..next]), replies);
      over, outcome := !ok, Broken;
      if ok {
        if control {
          LastIsDone(answers, replies);
          SyncIsOnTime(c, msgs, log, disk.events, AllDone(replies), ready, due, i, next);
        } else {
          DataIsOnTime(c, msgs, log, disk.events, AllDone(replies), ready, due, i, next);
        }
      }
    }

    /** The task.  `ready(i)` says whether message `i` is already queued when asked for without
        waiting, `due(n)` whether the checkpoint interval has passed when `n` messages are in. */
    method Run(msgs: seq<Msg>, ready: nat -> bool, due: nat -> bool, ghost c: Context)
      returns (outcome: Outcome, answers: seq<Answer>, ghost taken: nat, ghost waits: seq<Wait>)
      requires Valid() && pending == [] && sinceCheckpoint == 0 && disk.events == []
      requires c.resumed == done.spans && Honest(msgs, c)
      modifies this, disk, done
      ensures taken <= |msgs|
      ensures outcome.Finished? ==> taken > 0 && msgs[taken - 1].Finish?
      ensures forall i :: 0 <= i < taken && msgs[i].Finish? ==> i == taken - 1 && !outcome.Drained?
      ensures outcome.Drained? ==> taken == |msgs|
      ensures Ended(c, DataOf(msgs[..taken]), outcome, answers)
      ensures Waits(c, msgs, taken, disk.events, AllDone(answers), waits)
      ensures Timely(c, msgs, disk.events, AllDone(answers), ready, due, waits)
      ensures AllReplied(c, msgs, taken, answers) || (outcome.Broken? && taken > 0 && AllReplied(c, msgs, taken - 1, answers))
    {
      hide Waits, Steady, Ended, Spans.Valid, Honest, DataOf, OneBatch, ExposedAtMost, Timely, AllReplied, OnTime, EndsCommitted;
      NothingTaken(msgs, c);
      FirstIsTimely(c, msgs, ready, due);
      NobodyReplied(c, msgs);
      answers, taken, waits := [], 0, [Wait(0, 0)];
      var i: nat := 0;
      var over;
      while i < |msgs|
        invariant i == taken <= |msgs|
        invariant Waits(c, msgs, i, disk.events, AllDone(answers), waits)
        invariant |waits| > 0 && waits[|waits| - 1].taken == i
        invariant AtHead(c, DataOf(msgs[..i]), answers)
        invariant waits[|waits| - 1] == Wait(i, |disk.events|)
        invariant Timely(c, msgs, disk.events, AllDone(answers), ready, due, waits)
        invariant AllReplied(c, msgs, i, answers)
        invariant forall j :: 0 <= j < i ==> !msgs[j].Finish?
        decreases |msgs| - i
      {
        ghost var log, clean := disk.events, AllDone(answers);
        if msgs[i].Data? {
          over, outcome, answers, i := OnData(msgs, i, ready, due, answers, c);
        } else {
          ControlIsNoData(msgs, i, c);
          ghost var was := answers;
          over, outcome, answers := OnControl(msgs[i], answers, c, DataOf(msgs[..i + 1]));
          ControlReplied(c, msgs, i, i + 1, over, outcome, was, answers);
          if !over {
            LastIsDone(was, answers);
            ControlIsOnTime(c, msgs, log, disk.events, AllDone(answers), ready, due, i);
          }
          i := i + 1;
        }
        WaitsOn(c, msgs, taken, i, log, disk.events, clean, AllDone(answers), waits);
        StaysTimely(c, msgs, log, disk.events, clean, AllDone(answers), ready, due, waits);
        taken := i;
        if over {
          return;
        }
        HeadIsSettled(c, msgs, i, answers);
        OneMoreWait(c, msgs, i, disk.events, AllDone(answers), waits);
        TimelyMore(c, msgs, disk.events, AllDone(answers), ready, due, waits, Wait(i, |disk.events|));
        waits := waits + [Wait(i, |disk.events|)];
      }
      assert msgs[..|msgs|] == msgs;
      ghost var log := disk.events;
      outcome := WindUp(c, DataOf(msgs), answers);
      NoBatch(msgs, taken, c.biggest);
      WaitsOn(c, msgs, taken, taken, log, disk.events, AllDone(answers), AllDone(answers), waits);
      StaysTimely(c, msgs, log, disk.events, AllDone(answers), AllDone(answers), ready, due, waits);
    }

    ghost method HeadIsSettled(c: Context, msgs: seq<Msg>, i: nat, answers: seq<Answer>)
      requires i <= |msgs| && AtHead(c, DataOf(msgs[..i]), answers)
      ensures Settled(msgs, disk.events, AllDone(answers), Wait(i, |disk.events|))
    {
      assert disk.events[..|disk.events|] == disk.events;
    }

    ghost method NothingTaken(msgs: seq<Msg>, c: Context)
      requires Valid() && pending == [] && sinceCheckpoint == 0 && disk.events == [] && c.resumed == done.spans
      ensures AtHead(c, DataOf(msgs[..0]), []) && Waits(c, msgs, 0, disk.events, AllDone([]), [Wait(0, 0)])
    {
      assert msgs[..0] == [];
      FirstWait(c, msgs);
    }
  }
}
