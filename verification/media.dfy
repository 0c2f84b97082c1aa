/** The part file and the stored row as a crash sees them. */
module Media {
  import opened Chunks
  import opened Spans
  import opened RangeSets

  // What is durable, what was written since the last sync, and every row ever committed: the order
  // write, sync, commit keeps every stored row true, over any number of runs and crashes.

  const PARANOID_REWIND: nat := 1024 * 1024

  /** Contents by offset; a preallocated file reads as zeros. */
  type File = nat -> byte

  datatype Row = Row(ranges: seq<Span>, bytesDone: nat)

  datatype Event = Wrote(chunk: Chunk) | Synced | Committed(row: Row)

  datatype Medium = Medium(durable: File, unsynced: seq<Chunk>, rows: seq<Row>)

  function Overlay(file: File, chunk: Chunk): File {
    (p: nat) => if chunk.Has(p) then chunk.At(p) else file(p)
  }

  /** The writes applied in order. */
  function WriteAll(file: File, chunks: seq<Chunk>): File {
    if |chunks| == 0 then file else Overlay(WriteAll(file, chunks[..|chunks| - 1]), chunks[|chunks| - 1])
  }

  /** What a read returns while the system is up. */
  function View(m: Medium): File {
    WriteAll(m.durable, m.unsynced)
  }

  function Happen(m: Medium, e: Event): Medium {
    match e
    case Wrote(chunk) => m.(unsynced := m.unsynced + [chunk])
    case Synced => Medium(View(m), [], m.rows)
    case Committed(row) => m.(rows := m.rows + [row])
  }

  function Replay(m: Medium, events: seq<Event>): Medium {
    if |events| == 0 then m else Happen(Replay(m, events[..|events| - 1]), events[|events| - 1])
  }

  /** What may be found after losing power: at every offset the durable byte or any byte
      written there since the last sync. */
  ghost predicate CrashImage(m: Medium, image: File) {
    forall p: nat :: image(p) == m.durable(p) || MayHold(m.unsynced, p, image(p))
  }

  ghost predicate MayHold(chunks: seq<Chunk>, p: nat, b: byte) {
    exists i :: 0 <= i < |chunks| && chunks[i].Has(p) && chunks[i].At(p) == b
  }

  // ----- what must never break -----

  ghost predicate TrueRow(durable: File, row: Row, source: File) {
    && Spans.Valid(row.ranges) && row.bytesDone == TotalLen(row.ranges)
    && forall p: nat :: Covers(row.ranges, p) ==> durable(p) == source(p)
  }

  ghost predicate AllAgree(chunks: seq<Chunk>, source: File) {
    forall i :: 0 <= i < |chunks| ==> chunks[i].Agrees(source)
  }

  /** Every row that was ever committed claims only durable bytes of the source. */
  ghost predicate Safe(m: Medium, source: File) {
    && AllAgree(m.unsynced, source)
    && forall i :: 0 <= i < |m.rows| ==> TrueRow(m.durable, m.rows[i], source)
  }

  ghost predicate WrittenIn(events: seq<Event>, p: nat) {
    exists i :: 0 <= i < |events| && events[i].Wrote? && events[i].chunk.Has(p)
  }

  /** The discipline of the writer: it writes the source's bytes, and commits a row only right
      after a sync, for bytes it resumed with or has written. */
  ghost predicate Disciplined(resumed: seq<Span>, events: seq<Event>, source: File) {
    forall k :: 0 <= k < |events| ==> DisciplinedAt(resumed, events, k, source)
  }

  ghost predicate DisciplinedAt(resumed: seq<Span>, events: seq<Event>, k: nat, source: File)
    requires k < |events|
  {
    match events[k]
    case Wrote(chunk) => chunk.Agrees(source)
    case Synced => true
    case Committed(row) =>
      && k > 0 && events[k - 1] == Synced
      && Spans.Valid(row.ranges) && row.bytesDone == TotalLen(row.ranges)
      && forall p: nat :: Covers(row.ranges, p) ==> Covers(resumed, p) || WrittenIn(events[..k], p)
  }

  // ----- one run -----

  lemma {:induction false} WriteAllAgrees(file: File, chunks: seq<Chunk>, source: File, p: nat)
    requires AllAgree(chunks, source)
    ensures WriteAll(file, chunks)(p) == if Sent(chunks, p) then source(p) else file(p)
  {
    if |chunks| > 0 {
      var rest, last := chunks[..|chunks| - 1], chunks[|chunks| - 1];
      WriteAllAgrees(file, rest, source, p);
      SentMore(rest, last, p);
      assert rest + [last] == chunks;
      if last.Has(p) {
        ChunkByte(last, source, p);
      }
    }
  }

  lemma WrittenMore(events: seq<Event>, e: Event, p: nat)
    ensures WrittenIn(events + [e], p) <==> WrittenIn(events, p) || (e.Wrote? && e.chunk.Has(p))
  {
    var all := events + [e];
    if WrittenIn(events, p) {
      var i :| 0 <= i < |events| && events[i].Wrote? && events[i].chunk.Has(p);
      assert all[i].Wrote? && all[i].chunk.Has(p);
    }
    if e.Wrote? && e.chunk.Has(p) {
      assert all[|events|].Wrote?;
    }
  }

  lemma DisciplinedPrefix(resumed: seq<Span>, events: seq<Event>, k: nat, source: File)
    requires Disciplined(resumed, events, source) && k <= |events|
    ensures Disciplined(resumed, events[..k], source)
  {
    forall j | 0 <= j < k
      ensures DisciplinedAt(resumed, events[..k], j, source)
    {
      assert DisciplinedAt(resumed, events, j, source);
      assert events[..k][..j] == events[..j];
    }
  }

  /** The bytes a run may claim read back as the source's. */
  ghost predicate Reads(m: Medium, resumed: seq<Span>, events: seq<Event>, source: File) {
    forall p: nat :: Covers(resumed, p) || WrittenIn(events, p) ==> View(m)(p) == source(p)
  }

  /** Every event but a write leaves what is read unchanged; a write shows through where it
      lies. */
  lemma ViewAfter(m: Medium, e: Event, p: nat)
    ensures View(Happen(m, e))(p) == if e.Wrote? && e.chunk.Has(p) then e.chunk.At(p) else View(m)(p)
  {
    if e.Wrote? {
      assert (m.unsynced + [e.chunk])[..|m.unsynced|] == m.unsynced;
    }
  }

  lemma ChunkByte(chunk: Chunk, source: File, p: nat)
    requires chunk.Agrees(source) && chunk.Has(p)
    ensures chunk.At(p) == source(p)
  {
    assert chunk.bytes[p - chunk.off] == source(chunk.off + (p - chunk.off));
  }

  lemma HappenSafe(m: Medium, e: Event, source: File)
    requires Safe(m, source)
    requires e.Wrote? ==> e.chunk.Agrees(source)
    requires e.Committed? ==> TrueRow(m.durable, e.row, source)
    ensures Safe(Happen(m, e), source)
  {
    if e.Synced? {
      forall i | 0 <= i < |m.rows|
        ensures TrueRow(View(m), m.rows[i], source)
      {
        forall p: nat | Covers(m.rows[i].ranges, p)
          ensures View(m)(p) == source(p)
        {
          WriteAllAgrees(m.durable, m.unsynced, source, p);
        }
      }
    }
  }

  /** Whatever the medium was like: after a disciplined run what it wrote reads back as the source,
      and everything else as before. */
  lemma {:induction false} ViewOfARun(m: Medium, resumed: seq<Span>, events: seq<Event>, source: File, p: nat)
    requires Disciplined(resumed, events, source)
    ensures View(Replay(m, events))(p) == if WrittenIn(events, p) then source(p) else View(m)(p)
    decreases |events|
  {
    hide View, WrittenIn;
    if |events| == 0 {
      NothingYet(m, events, p);
    } else {
      var n := |events| - 1;
      var e := events[n];
      DisciplinedPrefix(resumed, events, n, source);
      ViewOfARun(m, resumed, events[..n], source, p);
      assert DisciplinedAt(resumed, events, n, source);
      assert events[..n] + [e] == events;
      WrittenMore(events[..n], e, p);
      ViewAfter(Replay(m, events[..n]), e, p);
      if e.Wrote? && e.chunk.Has(p) {
        ChunkByte(e.chunk, source, p);
      }
    }
  }

  lemma NothingYet(m: Medium, events: seq<Event>, p: nat)
    requires |events| == 0
    ensures View(Replay(m, events))(p) == View(m)(p) && !WrittenIn(events, p)
  {
  }

  /** What a disciplined run resumed with or wrote reads back right, if what it resumed with
      did. */
  lemma {:induction false} ReadsThroughout(m: Medium, resumed: seq<Span>, events: seq<Event>, source: File)
    requires Disciplined(resumed, events, source)
    requires forall p: nat :: Covers(resumed, p) ==> View(m)(p) == source(p)
    ensures Reads(Replay(m, events), resumed, events, source)
  {
    forall p: nat | Covers(resumed, p) || WrittenIn(events, p)
      ensures View(Replay(m, events))(p) == source(p)
    {
      ViewOfARun(m, resumed, events, source, p);
    }
  }

  /** A disciplined run is safe at every moment. */
  lemma {:induction false} SafeThroughout(m: Medium, resumed: seq<Span>, events: seq<Event>, source: File)
    requires Safe(m, source) && Disciplined(resumed, events, source)
    requires forall p: nat :: Covers(resumed, p) ==> View(m)(p) == source(p)
    ensures Safe(Replay(m, events), source)
    decreases |events|
  {
    if |events| > 0 {
      var n := |events| - 1;
      var before, e := events[..n], events[n];
      DisciplinedPrefix(resumed, events, n, source);
      SafeThroughout(m, resumed, before, source);
      assert DisciplinedAt(resumed, events, n, source);
      if e.Committed? {
        ReadsThroughout(m, resumed, before, source);
        CommitIsTrue(m, resumed, before, e.row, source);
      }
      HappenSafe(Replay(m, before), e, source);
    }
  }

  /** Right after a sync, what reads back right is durable. */
  lemma CommitIsTrue(m: Medium, resumed: seq<Span>, before: seq<Event>, row: Row, source: File)
    requires |before| > 0 && before[|before| - 1] == Synced
    requires Reads(Replay(m, before), resumed, before, source)
    requires Spans.Valid(row.ranges) && row.bytesDone == TotalLen(row.ranges)
    requires forall p: nat :: Covers(row.ranges, p) ==> Covers(resumed, p) || WrittenIn(before, p)
    ensures TrueRow(Replay(m, before).durable, row, source)
  {
    var now := Replay(m, before);
    assert now.unsynced == [];
    forall p: nat | Covers(row.ranges, p)
      ensures now.durable(p) == source(p)
    {
      assert View(now)(p) == now.durable(p);
    }
  }

  // ----- any number of runs -----

  /** How a run ends: the process goes but the system stays up, or power is lost with some
      image on the medium and the row rolled back to one committed earlier. */
  datatype End = Stopped | PowerLoss(image: File, keep: nat)

  /** One run: whether the resume rewinds, everything that happened, and how it ended.  The
      events may stop anywhere, since a crash may come at any moment. */
  datatype Life = Life(rewind: bool, events: seq<Event>, end: End)

  /** `resume_state`: the last row, rewound after an unclean stop. */
  function ResumeState(m: Medium, rewind: bool): seq<Span>
    requires |m.rows| > 0
  {
    var ranges := m.rows[|m.rows| - 1].ranges;
    if rewind then Rewound(ranges, PARANOID_REWIND) else ranges
  }

  ghost predicate LifeOk(m: Medium, life: Life, source: File) {
    && |m.rows| > 0
    && Disciplined(ResumeState(m, life.rewind), life.events, source)
    && (life.end.PowerLoss? ==>
          && CrashImage(Replay(m, life.events), life.end.image)
          && 0 < life.end.keep <= |Replay(m, life.events).rows|)
  }

  function AfterLife(m: Medium, life: Life): Medium {
    var now := Replay(m, life.events);
    match life.end
    case Stopped => now
    case PowerLoss(image, keep) => if keep <= |now.rows| then Medium(image, [], now.rows[..keep]) else now
  }

  ghost predicate Lives(m: Medium, lives: seq<Life>, source: File, last: Medium)
    decreases |lives|
  {
    if |lives| == 0 then m == last
    else LifeOk(m, lives[0], source) && Lives(AfterLife(m, lives[0]), lives[1..], source, last)
  }

  lemma {:induction false} RowsOnlyGrow(m: Medium, events: seq<Event>)
    ensures |Replay(m, events).rows| >= |m.rows|
  {
    if |events| > 0 {
      RowsOnlyGrow(m, events[..|events| - 1]);
    }
  }

  /** What a run resumes with reads back right. */
  lemma ResumeReadsRight(m: Medium, rewind: bool, source: File)
    requires Safe(m, source) && |m.rows| > 0
    ensures Spans.Valid(ResumeState(m, rewind))
    ensures forall p: nat :: Covers(ResumeState(m, rewind), p) ==> View(m)(p) == source(p)
  {
    var row := m.rows[|m.rows| - 1];
    assert TrueRow(m.durable, row, source);
    RewoundKeeps(row.ranges, PARANOID_REWIND);
    RewindOnlyShrinks(row.ranges, PARANOID_REWIND);
    forall p: nat | Covers(ResumeState(m, rewind), p)
      ensures View(m)(p) == source(p)
    {
      WriteAllAgrees(m.durable, m.unsynced, source, p);
    }
  }

  lemma UnsyncedAgrees(chunks: seq<Chunk>, p: nat, b: byte, source: File)
    requires AllAgree(chunks, source) && MayHold(chunks, p, b)
    ensures b == source(p)
  {
    var j :| 0 <= j < |chunks| && chunks[j].Has(p) && chunks[j].At(p) == b;
    ChunkByte(chunks[j], source, p);
  }

  lemma {:induction false} ViewIsDurableOrWritten(m: Medium, p: nat)
    ensures View(m)(p) == m.durable(p) || MayHold(m.unsynced, p, View(m)(p))
    decreases |m.unsynced|
  {
    var n := |m.unsynced|;
    if n > 0 {
      var before, last := m.(unsynced := m.unsynced[..n - 1]), m.unsynced[n - 1];
      ViewIsDurableOrWritten(before, p);
      if !last.Has(p) && MayHold(before.unsynced, p, View(before)(p)) {
        var i :| 0 <= i < n - 1 && before.unsynced[i].Has(p) && before.unsynced[i].At(p) == View(before)(p);
        assert m.unsynced[i].Has(p);
      }
    }
  }

  /** A power loss may spare any of the bytes written since the last sync, and none of the others. */
  lemma AnyBytesMaySurvive(m: Medium, spared: nat -> bool)
    ensures CrashImage(m, (p: nat) => if spared(p) then View(m)(p) else m.durable(p))
  {
    forall p: nat
      ensures View(m)(p) == m.durable(p) || MayHold(m.unsynced, p, View(m)(p))
    {
      ViewIsDurableOrWritten(m, p);
    }
  }

  /** What it leaves: the image, nothing unsynced, and the rows up to one committed earlier. */
  lemma PowerLossLeaves(m: Medium, life: Life, source: File)
    requires LifeOk(m, life, source) && life.end.PowerLoss?
    ensures var r, rows := AfterLife(m, life), Replay(m, life.events).rows;
      && r.durable == life.end.image && r.unsynced == [] && |r.rows| == life.end.keep <= |rows| && r.rows <= rows
  {
    hide Replay, Disciplined, CrashImage;
  }

  lemma CrashKeepsSafe(m: Medium, image: File, keep: nat, source: File)
    requires Safe(m, source) && CrashImage(m, image) && keep <= |m.rows|
    ensures Safe(Medium(image, [], m.rows[..keep]), source)
  {
    forall i | 0 <= i < keep
      ensures TrueRow(image, m.rows[i], source)
    {
      assert TrueRow(m.durable, m.rows[i], source);
      forall p: nat | Covers(m.rows[i].ranges, p)
        ensures image(p) == source(p)
      {
        if MayHold(m.unsynced, p, image(p)) {
          UnsyncedAgrees(m.unsynced, p, image(p), source);
        }
      }
    }
  }

  lemma LifeKeepsSafe(m: Medium, life: Life, source: File)
    requires Safe(m, source) && LifeOk(m, life, source)
    ensures Safe(AfterLife(m, life), source) && |AfterLife(m, life).rows| > 0
  {
    ResumeReadsRight(m, life.rewind, source);
    SafeThroughout(m, ResumeState(m, life.rewind), life.events, source);
    RowsOnlyGrow(m, life.events);
    if life.end.PowerLoss? {
      CrashKeepsSafe(Replay(m, life.events), life.end.image, life.end.keep, source);
    }
  }

  /** A run that keeps the discipline to its end keeps it to wherever it is cut off. */
  lemma AnyCutIsALife(m: Medium, rewind: bool, events: seq<Event>, k: nat, end: End, source: File)
    requires LifeOk(m, Life(rewind, events, Stopped), source) && k <= |events|
    requires end.PowerLoss? ==>
      CrashImage(Replay(m, events[..k]), end.image) && 0 < end.keep <= |Replay(m, events[..k]).rows|
    ensures LifeOk(m, Life(rewind, events[..k], end), source)
  {
    DisciplinedPrefix(ResumeState(m, rewind), events, k, source);
  }

  /** Crash safety over any number of runs: whatever each run did in its discipline, wherever
      it was cut off, whichever unsynced bytes survived and however far the row rolled back,
      every byte in every stored row is durable and equals the source. */
  lemma {:induction false} CrashSafety(m: Medium, lives: seq<Life>, source: File, last: Medium)
    requires Safe(m, source) && |m.rows| > 0 && Lives(m, lives, source, last)
    ensures Safe(last, source) && |last.rows| > 0
    decreases |lives|
  {
    if |lives| > 0 {
      LifeKeepsSafe(m, lives[0], source);
      CrashSafety(AfterLife(m, lives[0]), lives[1..], source, last);
    }
  }

  /** A fresh download: nothing written, the inserted row claims nothing. */
  lemma FreshIsSafe(file: File, source: File)
    ensures Safe(Medium(file, [], [Row([], 0)]), source)
  {
  }

  // ----- a medium that lost synced bytes -----

  /** If a sync was not honoured, resuming after a rewind is right exactly when every wrong byte
      of the record lies within the margin of a byte the record does not claim. */
  lemma RewindCoversLostTails(ranges: seq<Span>, image: File, source: File, margin: nat)
    requires Spans.Valid(ranges)
    ensures (forall p: nat :: Covers(Rewound(ranges, margin), p) ==> image(p) == source(p)) <==>
      (forall p: nat :: Covers(ranges, p) && image(p) != source(p) ==> HoleWithin(ranges, p, margin))
  {
    RewoundKeeps(ranges, margin);
    forall p: nat
      ensures Covers(Rewound(ranges, margin), p) <==> !HoleWithin(ranges, p, margin)
    {
    }
    RewindOnlyShrinks(ranges, margin);
  }

  ghost predicate HoleWithin(ranges: seq<Span>, p: nat, margin: nat) {
    exists q: nat :: p <= q <= p + margin && !Covers(ranges, q)
  }

  // ----- a part file deleted between runs -----

  ghost predicate HasCommit(events: seq<Event>) {
    exists i :: 0 <= i < |events| && events[i].Committed?
  }

  ghost predicate LastRowTrue(m: Medium, source: File) {
    |m.rows| > 0 && TrueRow(m.durable, m.rows[|m.rows| - 1], source)
  }

  /** The file is gone and recreated as zeros; the row stays. */
  function Deleted(m: Medium): Medium {
    Medium((p: nat) => 0, [], m.rows)
  }

  /** The run after a deletion starts from nothing, but the stored row keeps its claims: one
      row, one byte, and the row is false. */
  lemma DeletedPartLeavesAFalseRow() returns (m: Medium, source: File)
    ensures Safe(m, source) && !LastRowTrue(Replay(Deleted(m), []), source)
  {
    source := (p: nat) => 1;
    m := Medium(source, [], [Row([Span(0, 1)], 1)]);
    assert Spans.Valid([Span(0, 1)]);
    assert TotalLen([Span(0, 1)]) == TotalLen([]) + 1;
    assert [Span(0, 1)][0].Has(0);
    assert Covers([Span(0, 1)], 0);
  }

  /** Bytes written by the run before its last sync. */
  ghost predicate SyncedIn(events: seq<Event>, p: nat) {
    exists i, j :: 0 <= i < j < |events| && events[i].Wrote? && events[i].chunk.Has(p) && events[j].Synced?
  }

  lemma SyncedMore(events: seq<Event>, e: Event, p: nat)
    ensures SyncedIn(events + [e], p) <==> SyncedIn(events, p) || (e.Synced? && WrittenIn(events, p))
    ensures SyncedIn(events, p) ==> WrittenIn(events, p)
  {
    var all := events + [e];
    if SyncedIn(events, p) {
      var i, j :| 0 <= i < j < |events| && events[i].Wrote? && events[i].chunk.Has(p) && events[j].Synced?;
      assert all[i].Wrote? && all[i].chunk.Has(p) && all[j].Synced?;
    }
    if e.Synced? && WrittenIn(events, p) {
      var i :| 0 <= i < |events| && events[i].Wrote? && events[i].chunk.Has(p);
      assert all[i].Wrote? && all[i].chunk.Has(p) && all[|events|].Synced?;
    }
    if SyncedIn(all, p) {
      var i, j :| 0 <= i < j < |all| && all[i].Wrote? && all[i].chunk.Has(p) && all[j].Synced?;
      assert events[i].Wrote? && events[i].chunk.Has(p);
      assert j < |events| ==> events[i].Wrote? && events[j].Synced?;
    }
  }

  lemma NothingHappened(m: Medium, p: nat)
    requires m.unsynced == []
    ensures View(Replay(m, []))(p) == m.durable(p) && !SyncedIn([], p) && !WrittenIn([], p)
  {
  }

  /** On a zeroed medium the durable bytes are the synced writes and zeros, the readable ones
      all writes and zeros. */
  lemma {:induction false} ZeroedContents(m: Medium, events: seq<Event>, source: File, p: nat)
    requires Disciplined([], events, source)
    requires m.durable(p) == 0 && m.unsynced == []
    ensures Replay(m, events).durable(p) == if SyncedIn(events, p) then source(p) else 0
    ensures View(Replay(m, events))(p) == if WrittenIn(events, p) then source(p) else 0
    decreases |events|
  {
    hide View, SyncedIn, WrittenIn;
    if |events| == 0 {
      assert events == [];
      NothingHappened(m, p);
    } else {
      var n := |events| - 1;
      var before, e := events[..n], events[n];
      DisciplinedPrefix([], events, n, source);
      ZeroedContents(m, before, source, p);
      assert before + [e] == events;
      WrittenMore(before, e, p);
      SyncedMore(before, e, p);
      assert DisciplinedAt([], events, n, source);
      ViewAfter(Replay(m, before), e, p);
      if e.Wrote? && e.chunk.Has(p) {
        ChunkByte(e.chunk, source, p);
      }
    }
  }

  lemma {:induction false} RowsAfter(m: Medium, events: seq<Event>)
    ensures Replay(m, events).rows == m.rows + Replay(m.(rows := []), events).rows
    ensures Replay(m, events).durable == Replay(m.(rows := []), events).durable
    ensures Replay(m, events).unsynced == Replay(m.(rows := []), events).unsynced
    ensures HasCommit(events) <==> |Replay(m.(rows := []), events).rows| > 0
    decreases |events|
  {
    if |events| > 0 {
      var n := |events| - 1;
      RowsAfter(m, events[..n]);
      assert events[..n] + [events[n]] == events;
      if HasCommit(events[..n]) {
        var i :| 0 <= i < n && events[..n][i].Committed?;
        assert events[i].Committed?;
      }
      if HasCommit(events) && !events[n].Committed? {
        var i :| 0 <= i < |events| && events[i].Committed?;
        assert events[..n][i].Committed?;
      }
    }
  }

  /** After a deletion the stored row is true again exactly when the run has committed a row of
      its own, or the stale one happens to claim only bytes since rewritten and synced or zero
      in the source. */
  lemma AfterDeletionIff(m: Medium, events: seq<Event>, source: File)
    requires Safe(m, source) && |m.rows| > 0 && Disciplined([], events, source)
    ensures LastRowTrue(Replay(Deleted(m), events), source) <==>
      HasCommit(events) ||
      forall p: nat :: Covers(m.rows[|m.rows| - 1].ranges, p) ==> SyncedIn(events, p) || source(p) == 0
  {
    var now, own := Replay(Deleted(m), events), Replay(Deleted(m).(rows := []), events);
    RowsAfter(Deleted(m), events);
    SafeThroughout(Deleted(m).(rows := []), [], events, source);
    if HasCommit(events) {
      assert now.rows[|now.rows| - 1] == own.rows[|own.rows| - 1];
      assert TrueRow(own.durable, own.rows[|own.rows| - 1], source);
    } else {
      var stale := m.rows[|m.rows| - 1];
      assert now.rows == m.rows;
      assert TrueRow(m.durable, stale, source);
      forall p: nat
        ensures now.durable(p) == if SyncedIn(events, p) then source(p) else 0
      {
        ZeroedContents(Deleted(m), events, source, p);
      }
    }
  }
}
