/** What the log of one run says about its checkpoints: which bytes each row claims, that rows
    only grow, and how much a crash can cost. */
module Checkpoints {
  import opened Chunks
  import opened Spans
  import opened Media

  ghost predicate Within(a: seq<Span>, b: seq<Span>) {
    forall p: nat :: Covers(a, p) ==> Covers(b, p)
  }

  ghost predicate Claims(done: seq<Span>, resumed: seq<Span>, events: seq<Event>) {
    forall p: nat :: Covers(done, p) ==> Covers(resumed, p) || WrittenIn(events, p)
  }

  ghost predicate ClaimsAll(done: seq<Span>, resumed: seq<Span>, events: seq<Event>) {
    forall p: nat :: Covers(resumed, p) || WrittenIn(events, p) ==> Covers(done, p)
  }

  /** Every row claims exactly what the run resumed with and had written when it committed. */
  ghost predicate RowsExact(resumed: seq<Span>, events: seq<Event>) {
    forall k :: 0 <= k < |events| && events[k].Committed? ==>
      Claims(events[k].row.ranges, resumed, events[..k]) && ClaimsAll(events[k].row.ranges, resumed, events[..k])
  }

  /** What holds of a run at every moment, whatever failed. */
  ghost predicate Sound(resumed: seq<Span>, done: seq<Span>, events: seq<Event>, source: File) {
    Disciplined(resumed, events, source) && RowsExact(resumed, events) && Claims(done, resumed, events)
  }

  /** The stored ranges after these events, from what was stored before. */
  function LastRow(stored: seq<Span>, events: seq<Event>): seq<Span> {
    if |events| == 0 then stored
    else if events[|events| - 1].Committed? then events[|events| - 1].row.ranges
    else LastRow(stored, events[..|events| - 1])
  }

  /** Bytes written since the last commit, counted with repetition. */
  function Exposed(events: seq<Event>): nat {
    if |events| == 0 then 0
    else
      match events[|events| - 1]
      case Wrote(chunk) => Exposed(events[..|events| - 1]) + |chunk.bytes|
      case Synced => Exposed(events[..|events| - 1])
      case Committed(_) => 0
  }

  ghost predicate ExposedAtMost(events: seq<Event>, limit: nat) {
    forall k :: 0 <= k <= |events| ==> Exposed(events[..k]) <= limit
  }

  // ----- the log grows by one event -----

  lemma SoundAfter(resumed: seq<Span>, done: seq<Span>, events: seq<Event>, e: Event, source: File)
    requires Sound(resumed, done, events, source)
    requires DisciplinedAt(resumed, events + [e], |events|, source)
    requires e.Committed? ==> ClaimsAll(e.row.ranges, resumed, events)
    ensures Sound(resumed, done, events + [e], source)
  {
    var all := events + [e];
    forall k | 0 <= k < |all|
      ensures DisciplinedAt(resumed, all, k, source)
      ensures all[k].Committed? ==> Claims(all[k].row.ranges, resumed, all[..k]) && ClaimsAll(all[k].row.ranges, resumed, all[..k])
    {
      if k < |events| {
        assert DisciplinedAt(resumed, events, k, source);
        assert all[..k] == events[..k];
      } else {
        assert all[..k] == events;
      }
    }
    forall p: nat | Covers(done, p)
      ensures Covers(resumed, p) || WrittenIn(all, p)
    {
      WrittenMore(events, e, p);
    }
  }

  lemma SoundAfterWrite(resumed: seq<Span>, done: seq<Span>, events: seq<Event>, chunk: Chunk, source: File)
    requires Sound(resumed, done, events, source) && chunk.Agrees(source)
    ensures Sound(resumed, done, events + [Wrote(chunk)], source)
  {
    SoundAfter(resumed, done, events, Wrote(chunk), source);
  }

  lemma SoundAfterSync(resumed: seq<Span>, done: seq<Span>, events: seq<Event>, source: File)
    requires Sound(resumed, done, events, source)
    ensures Sound(resumed, done, events + [Synced], source)
  {
    SoundAfter(resumed, done, events, Synced, source);
  }

  lemma SoundAfterCheckpoint(resumed: seq<Span>, done: seq<Span>, events: seq<Event>, source: File)
    requires Sound(resumed, done, events, source) && ClaimsAll(done, resumed, events) && Spans.Valid(done)
    ensures Sound(resumed, done, events + [Synced, Committed(Row(done, TotalLen(done)))], source)
  {
    var synced, row := events + [Synced], Row(done, TotalLen(done));
    SoundAfterSync(resumed, done, events, source);
    forall p: nat
      ensures WrittenIn(synced, p) <==> WrittenIn(events, p)
    {
      WrittenMore(events, Synced, p);
    }
    assert (synced + [Committed(row)])[..|synced|] == synced;
    SoundAfter(resumed, done, synced, Committed(row), source);
    assert events + [Synced, Committed(row)] == synced + [Committed(row)];
  }

  lemma ExposedAfter(events: seq<Event>, e: Event, limit: nat)
    requires ExposedAtMost(events, limit)
    requires Exposed(events + [e]) <= limit
    ensures ExposedAtMost(events + [e], limit)
  {
    var all := events + [e];
    forall k | 0 <= k <= |all|
      ensures Exposed(all[..k]) <= limit
    {
      if k <= |events| {
        assert all[..k] == events[..k];
      } else {
        assert all[..k] == all;
      }
    }
  }

  lemma ExposedStep(events: seq<Event>, e: Event)
    ensures Exposed(events + [e]) ==
      match e
      case Wrote(chunk) => Exposed(events) + |chunk.bytes|
      case Synced => Exposed(events)
      case Committed(_) => 0
  {
    assert (events + [e])[..|events|] == events;
  }

  // ----- rows grow -----

  /** Checkpoints of a run only grow. */
  lemma RowsOnlyGrowInARun(resumed: seq<Span>, events: seq<Event>, j: nat, k: nat)
    requires RowsExact(resumed, events)
    requires j < k < |events| && events[j].Committed? && events[k].Committed?
    ensures Within(events[j].row.ranges, events[k].row.ranges)
    ensures Within(resumed, events[j].row.ranges)
  {
    forall p: nat | Covers(events[j].row.ranges, p)
      ensures Covers(events[k].row.ranges, p)
    {
    }
  }

  // ----- what a crash can cost -----

  /** The bytes written since the last commit, as a set. */
  ghost function ExposedBytes(events: seq<Event>): set<nat> {
    if |events| == 0 then {}
    else
      match events[|events| - 1]
      case Wrote(chunk) => ExposedBytes(events[..|events| - 1]) + Window(chunk.off, chunk.End())
      case Synced => ExposedBytes(events[..|events| - 1])
      case Committed(_) => {}
  }

  lemma {:induction false} ExposedCounts(events: seq<Event>)
    ensures |ExposedBytes(events)| <= Exposed(events)
    decreases |events|
  {
    if |events| > 0 {
      ExposedCounts(events[..|events| - 1]);
      if events[|events| - 1].Wrote? {
        var chunk := events[|events| - 1].chunk;
        WindowSize(chunk.off, chunk.End());
      }
    }
  }

  lemma RowsExactCut(resumed: seq<Span>, events: seq<Event>, n: nat)
    requires RowsExact(resumed, events) && n <= |events|
    ensures RowsExact(resumed, events[..n])
  {
    var before := events[..n];
    forall k | 0 <= k < n && before[k].Committed?
      ensures Claims(before[k].row.ranges, resumed, before[..k]) && ClaimsAll(before[k].row.ranges, resumed, before[..k])
    {
      assert before[..k] == events[..k];
    }
  }

  /** What is neither stored nor written since the last commit was never written. */
  lemma {:induction false} StoredOrExposed(resumed: seq<Span>, stored: seq<Span>, events: seq<Event>, p: nat)
    requires RowsExact(resumed, events) && Within(resumed, stored)
    requires Covers(resumed, p) || WrittenIn(events, p)
    ensures Covers(LastRow(stored, events), p) || p in ExposedBytes(events)
    decreases |events|
  {
    if |events| > 0 {
      var n := |events| - 1;
      assert events == events[..n] + [events[n]];
      WrittenMore(events[..n], events[n], p);
      RowsExactCut(resumed, events, n);
      if !events[n].Committed? && (Covers(resumed, p) || WrittenIn(events[..n], p)) {
        StoredOrExposed(resumed, stored, events[..n], p);
      }
    }
  }

  /** The progress a crash throws away is at most what was written since the last commit. */
  lemma {:induction false} CrashCosts(resumed: seq<Span>, stored: seq<Span>, done: seq<Span>, events: seq<Event>)
    requires RowsExact(resumed, events) && Within(resumed, stored) && Claims(done, resumed, events)
    ensures |ByteSet(done) - ByteSet(LastRow(stored, events))| <= Exposed(events)
  {
    var lost := ByteSet(done) - ByteSet(LastRow(stored, events));
    forall p | p in lost
      ensures p in ExposedBytes(events)
    {
      ByteSetCovers(done, p);
      ByteSetCovers(LastRow(stored, events), p);
      StoredOrExposed(resumed, stored, events, p);
    }
    SubsetSize(lost, ExposedBytes(events));
    ExposedCounts(events);
  }

  lemma SubsetSize(a: set<nat>, b: set<nat>)
    requires a <= b
    ensures |a| <= |b|
  {
    assert b == a + (b - a);
  }

  lemma {:induction false} LastRowIsStored(m: Medium, events: seq<Event>)
    requires |m.rows| > 0
    ensures |Replay(m, events).rows| > 0
    ensures Replay(m, events).rows[|Replay(m, events).rows| - 1].ranges == LastRow(m.rows[|m.rows| - 1].ranges, events)
    decreases |events|
  {
    if |events| > 0 {
      LastRowIsStored(m, events[..|events| - 1]);
    }
  }
}
