/** What `flush_pending` writes (writer.rs). */
module Coalescing {
  import opened Chunks
  import opened Media

  // Pending chunks go out in offset order, neighbours merged into one write as long as it stays
  // small; the writes leave the file as the chunks written one at a time would.

  const MAX_COALESCE: nat := 1024 * 1024

  // ----- sorting -----

  ghost predicate SortedByOffset(chunks: seq<Chunk>) {
    forall i, j :: 0 <= i < j < |chunks| ==> chunks[i].off <= chunks[j].off
  }

  ghost predicate SameChunks(a: seq<Chunk>, b: seq<Chunk>) {
    multiset(a) == multiset(b)
  }

  /** Some arrangement by offset; chunks at one offset come in any order. */
  ghost predicate Arrangement(order: seq<Chunk>, chunks: seq<Chunk>) {
    SortedByOffset(order) && SameChunks(order, chunks)
  }

  function InsertedAt(order: seq<Chunk>, i: nat, chunk: Chunk): seq<Chunk>
    requires i <= |order|
  {
    order[..i] + [chunk] + order[i..]
  }

  lemma InsertedIsSorted(order: seq<Chunk>, i: nat, chunk: Chunk)
    requires SortedByOffset(order) && i <= |order|
    requires forall j :: i <= j < |order| ==> chunk.off < order[j].off
    requires i > 0 ==> order[i - 1].off <= chunk.off
    ensures SortedByOffset(InsertedAt(order, i, chunk))
  {
    var r := InsertedAt(order, i, chunk);
    forall j | 0 <= j < |r|
      ensures r[j] == if j < i then order[j] else if j == i then chunk else order[j - 1]
    {
    }
  }

  lemma InsertedIsSame(order: seq<Chunk>, i: nat, chunk: Chunk)
    requires i <= |order|
    ensures SameChunks(InsertedAt(order, i, chunk), order + [chunk])
  {
    assert order == order[..i] + order[i..];
  }

  method InsertByOffset(order: seq<Chunk>, chunk: Chunk) returns (r: seq<Chunk>)
    requires SortedByOffset(order)
    ensures Arrangement(r, order + [chunk])
  {
    var i: nat := |order|;
    while i > 0 && chunk.off < order[i - 1].off
      invariant i <= |order|
      invariant forall j :: i <= j < |order| ==> chunk.off < order[j].off
    {
      i := i - 1;
    }
    r := InsertedAt(order, i, chunk);
    InsertedIsSorted(order, i, chunk);
    InsertedIsSame(order, i, chunk);
  }

  method SortUnstable(chunks: seq<Chunk>) returns (order: seq<Chunk>)
    ensures Arrangement(order, chunks)
  {
    order := [];
    for i := 0 to |chunks|
      invariant Arrangement(order, chunks[..i])
    {
      assert chunks[..i + 1] == chunks[..i] + [chunks[i]];
      order := InsertByOffset(order, chunks[i]);
    }
    assert chunks[..|chunks|] == chunks;
  }

  lemma SameElements(a: seq<Chunk>, b: seq<Chunk>, i: nat)
    requires SameChunks(a, b) && i < |a|
    ensures a[i] in b
  {
    assert a[i] in multiset(a);
    assert a[i] in multiset(b);
  }

  lemma SameChunksSend(a: seq<Chunk>, b: seq<Chunk>, p: nat)
    requires SameChunks(a, b) && Sent(a, p)
    ensures Sent(b, p)
  {
    var i :| 0 <= i < |a| && a[i].Has(p);
    SameElements(a, b, i);
    var j :| 0 <= j < |b| && b[j] == a[i];
    assert b[j].Has(p);
  }

  lemma WithoutOne(b: seq<Chunk>, j: nat)
    requires j < |b|
    ensures multiset(b) == multiset(b[..j] + b[j + 1..]) + multiset{b[j]}
  {
    assert b == b[..j] + ([b[j]] + b[j + 1..]);
  }

  lemma CancelOne(a: multiset<Chunk>, b: multiset<Chunk>, chunk: Chunk)
    requires a + multiset{chunk} == b + multiset{chunk}
    ensures a == b
  {
    assert a == (a + multiset{chunk}) - multiset{chunk};
    assert b == (b + multiset{chunk}) - multiset{chunk};
  }

  /** Dropping the last chunk of `a` and its twin in `b`. */
  lemma DropTwin(a: seq<Chunk>, b: seq<Chunk>) returns (j: nat)
    requires SameChunks(a, b) && |a| > 0
    ensures j < |b| && b[j] == a[|a| - 1]
    ensures SameChunks(a[..|a| - 1], b[..j] + b[j + 1..])
  {
    var n := |a| - 1;
    SameElements(a, b, n);
    j :| 0 <= j < |b| && b[j] == a[n];
    WithoutOne(a, n);
    WithoutOne(b, j);
    assert a[..n] + a[n + 1..] == a[..n];
    CancelOne(multiset(a[..n]), multiset(b[..j] + b[j + 1..]), a[n]);
  }

  lemma {:induction false} SameChunksTotal(a: seq<Chunk>, b: seq<Chunk>)
    requires SameChunks(a, b)
    ensures TotalBytes(a) == TotalBytes(b)
    decreases |a|
  {
    if |a| == 0 {
      assert |multiset(b)| == 0;
    } else {
      var j := DropTwin(a, b);
      SameChunksTotal(a[..|a| - 1], b[..j] + b[j + 1..]);
      TotalBytesConcat(b[..j], b[j + 1..]);
      TotalBytesConcat(b[..j] + [b[j]], b[j + 1..]);
      assert b == b[..j] + [b[j]] + b[j + 1..];
      assert (b[..j] + [b[j]])[..j] == b[..j];
    }
  }

  lemma {:induction false} TotalBytesConcat(a: seq<Chunk>, b: seq<Chunk>)
    ensures TotalBytes(a + b) == TotalBytes(a) + TotalBytes(b)
  {
    if |b| == 0 {
      assert a + b == a;
    } else {
      TotalBytesConcat(a, b[..|b| - 1]);
      assert (a + b)[..|a + b| - 1] == a + b[..|b| - 1];
    }
  }

  // ----- merging -----

  /** Writes already issued, and the buffer that may still grow. */
  datatype Batch = Batch(writes: seq<Chunk>, buf: Chunk)

  function Grow(b: Batch, chunk: Chunk): Batch {
    if b.buf.bytes == [] then Batch(b.writes, chunk)
    else if b.buf.End() == chunk.off && |b.buf.bytes| + |chunk.bytes| <= MAX_COALESCE then
      Batch(b.writes, Chunk(b.buf.off, b.buf.bytes + chunk.bytes))
    else Batch(b.writes + [b.buf], chunk)
  }

  function Fold(order: seq<Chunk>): Batch {
    if |order| == 0 then Batch([], Chunk(0, []))
    else Grow(Fold(order[..|order| - 1]), order[|order| - 1])
  }

  function Issued(b: Batch): seq<Chunk> {
    if b.buf.bytes == [] then b.writes else b.writes + [b.buf]
  }

  /** The writes issued for chunks in this order. */
  function Coalesced(order: seq<Chunk>): seq<Chunk> {
    Issued(Fold(order))
  }

  lemma WriteOneMore(file: File, writes: seq<Chunk>, chunk: Chunk, p: nat)
    ensures WriteAll(file, writes + [chunk])(p) == if chunk.Has(p) then chunk.At(p) else WriteAll(file, writes)(p)
  {
    assert (writes + [chunk])[..|writes|] == writes;
  }

  lemma GrowSameFile(file: File, b: Batch, chunk: Chunk, p: nat)
    ensures WriteAll(file, Issued(Grow(b, chunk)))(p) ==
      if chunk.Has(p) then chunk.At(p) else WriteAll(file, Issued(b))(p)
  {
    var g := Grow(b, chunk);
    if g.buf.bytes != [] {
      WriteOneMore(file, g.writes, g.buf, p);
    }
    if b.buf.bytes != [] {
      WriteOneMore(file, b.writes, b.buf, p);
    }
  }

  /** Coalescing leaves the file exactly as writing the chunks one at a time. */
  lemma {:induction false} CoalescingKeepsTheFile(file: File, order: seq<Chunk>, p: nat)
    ensures WriteAll(file, Coalesced(order))(p) == WriteAll(file, order)(p)
    decreases |order|
  {
    hide WriteAll, Grow, Issued;
    if |order| == 0 {
      NothingWritten(file);
    } else {
      var n := |order| - 1;
      CoalescingKeepsTheFile(file, order[..n], p);
      GrowSameFile(file, Fold(order[..n]), order[n], p);
      assert order == order[..n] + [order[n]];
      WriteOneMore(file, order[..n], order[n], p);
    }
  }

  lemma NothingWritten(file: File)
    ensures WriteAll(file, Coalesced([])) == WriteAll(file, [])
  {
  }

  lemma GrowSent(b: Batch, chunk: Chunk, p: nat)
    ensures Sent(Issued(Grow(b, chunk)), p) <==> Sent(Issued(b), p) || chunk.Has(p)
  {
    var g := Grow(b, chunk);
    SentMore(g.writes, g.buf, p);
    SentMore(b.writes, b.buf, p);
  }

  /** No byte is dropped and none invented. */
  lemma {:induction false} CoalescingKeepsBytes(order: seq<Chunk>, p: nat)
    ensures Sent(Coalesced(order), p) <==> Sent(order, p)
    decreases |order|
  {
    if |order| > 0 {
      var n := |order| - 1;
      CoalescingKeepsBytes(order[..n], p);
      GrowSent(Fold(order[..n]), order[n], p);
      assert order == order[..n] + [order[n]];
      SentMore(order[..n], order[n], p);
    }
  }

  lemma {:induction false} CoalescingKeepsTotal(order: seq<Chunk>)
    ensures TotalBytes(Coalesced(order)) == TotalBytes(order)
    decreases |order|
  {
    if |order| > 0 {
      CoalescingKeepsTotal(order[..|order| - 1]);
    }
  }

  // ----- what the writes look like -----

  ghost predicate AllWithin(chunks: seq<Chunk>, limit: nat) {
    forall i :: 0 <= i < |chunks| ==> chunks[i].End() <= limit
  }

  ghost predicate NoneEmpty(chunks: seq<Chunk>) {
    forall i :: 0 <= i < |chunks| ==> chunks[i].bytes != []
  }

  /** Small enough, or a chunk that came this big. */
  ghost predicate SizeOk(write: Chunk, order: seq<Chunk>) {
    |write.bytes| <= MAX_COALESCE || write in order
  }

  /** Neighbouring writes could not have been one. */
  ghost predicate NotMergeable(a: Chunk, b: Chunk) {
    a.End() != b.off || |a.bytes| + |b.bytes| > MAX_COALESCE
  }

  ghost predicate Maximal(writes: seq<Chunk>) {
    forall i :: 0 < i < |writes| ==> NotMergeable(writes[i - 1], writes[i])
  }

  lemma {:induction false} CoalescingShape(order: seq<Chunk>, source: File, limit: nat)
    ensures NoneEmpty(Coalesced(order))
    ensures forall i :: 0 <= i < |Coalesced(order)| ==> SizeOk(Coalesced(order)[i], order)
    ensures AllAgree(order, source) ==> AllAgree(Coalesced(order), source) && Fold(order).buf.Agrees(source)
    ensures AllWithin(order, limit) ==> AllWithin(Coalesced(order), limit)
    decreases |order|
  {
    if |order| > 0 {
      var n := |order| - 1;
      CoalescingShape(order[..n], source, limit);
      var b, chunk := Fold(order[..n]), order[n];
      assert forall i :: 0 <= i < |b.writes| ==> Issued(b)[i] == b.writes[i];
      assert b.buf.bytes != [] ==> Issued(b)[|b.writes|] == b.buf;
      if AllAgree(order, source) {
        assert AllAgree(order[..n], source);
        if b.buf.End() == chunk.off {
          JoinAgrees(b.buf, chunk, source);
        }
      }
    }
  }

  lemma JoinAgrees(a: Chunk, b: Chunk, source: File)
    requires a.Agrees(source) && b.Agrees(source) && a.End() == b.off
    ensures Chunk(a.off, a.bytes + b.bytes).Agrees(source)
  {
    var c := a.bytes + b.bytes;
    forall i | 0 <= i < |c|
      ensures c[i] == source(a.off + i)
    {
      assert i >= |a.bytes| ==> b.bytes[i - |a.bytes|] == source(b.off + (i - |a.bytes|));
    }
  }

  // ----- when the writes are as few as they could be -----

  lemma FoldStep(order: seq<Chunk>, j: nat)
    requires j < |order|
    ensures Fold(order[..j + 1]) == Grow(Fold(order[..j]), order[j])
  {
    assert order[..j + 1][..j] == order[..j];
  }

  /** The last of the first `n` chunks that is not empty, or -1. */
  function LastFull(order: seq<Chunk>, n: nat): (i: int)
    requires n <= |order|
    ensures -1 <= i < n
    ensures i >= 0 ==> order[i].bytes != []
    ensures forall m :: i < m < n ==> order[m].bytes == []
  {
    if n == 0 then -1 else if order[n - 1].bytes != [] then n - 1 else LastFull(order, n - 1)
  }

  /** Chunk `k` follows right on chunk `i`, with only empty chunks between them in the order, and
      one of those, `j`, lies elsewhere.  In a sorted order that is: inside chunk `i` or at its
      start. */
  ghost predicate Parted(order: seq<Chunk>, i: nat, j: nat, k: nat) {
    && i < j < k < |order| && order[i].bytes != [] && order[k].bytes != []
    && (forall m :: i < m < k ==> order[m].bytes == [])
    && order[j].off != order[i].End() == order[k].off
  }

  /** The writes that meet at chunk `k` would not have fitted into one. */
  ghost predicate TooBigTogether(order: seq<Chunk>, k: nat) {
    k <= |order| &&
    var before, after := Coalesced(order[..k]), Coalesced(order[k..]);
    |before| > 0 && |after| > 0 && |before[|before| - 1].bytes| + |after[0].bytes| > MAX_COALESCE
  }

  /** The reason for which the buffer was emptied. */
  ghost predicate Misplaced(order: seq<Chunk>, i: int, j: nat, write: Chunk)
    requires 0 <= i < |order|
  {
    i < j < |order| && (order[j].off != order[i].End() || |write.bytes| > MAX_COALESCE)
  }

  ghost predicate Emptied(order: seq<Chunk>, i: int, n: nat, write: Chunk)
    requires 0 <= i < |order|
  {
    exists j: nat :: j < n && Misplaced(order, i, j, write)
  }

  /** Where the buffer stands after `n` chunks: at the end of the last chunk that was not empty, or
      emptied because an empty chunk did not belong there. */
  ghost predicate Stands(order: seq<Chunk>, n: nat, b: Batch)
    requires n <= |order|
  {
    var i := LastFull(order, n);
    && (i == -1 ==> b.writes == [] && b.buf.bytes == [])
    && (i >= 0 && b.buf.bytes != [] ==>
          b.buf.End() == order[i].End() && forall j :: i < j < n ==> order[j].off == order[i].End())
    && (i >= 0 && b.buf.bytes == [] ==>
          && |b.writes| > 0 && b.writes[|b.writes| - 1].End() == order[i].End()
          && Emptied(order, i, n, b.writes[|b.writes| - 1]))
  }

  lemma FullStep(order: seq<Chunk>, n: nat, b: Batch)
    requires n < |order| && Stands(order, n, b) && order[n].bytes != []
    ensures Stands(order, n + 1, Grow(b, order[n]))
  {
    hide Misplaced;
  }

  lemma EmptyStep(order: seq<Chunk>, n: nat, b: Batch)
    requires n < |order| && Stands(order, n, b) && order[n].bytes == []
    ensures Stands(order, n + 1, Grow(b, order[n]))
  {
    var i, g := LastFull(order, n), Grow(b, order[n]);
    if i >= 0 && b.buf.bytes == [] {
      var j: nat :| j < n && Misplaced(order, i, j, b.writes[|b.writes| - 1]);
      assert j < n + 1;
    } else if i >= 0 && g.buf.bytes == [] {
      assert Misplaced(order, i, n, b.buf);
    }
  }

  lemma {:induction false} BufferStands(order: seq<Chunk>, n: nat)
    requires n <= |order|
    ensures Stands(order, n, Fold(order[..n]))
    decreases n
  {
    hide Stands, Grow;
    if n == 0 {
      NothingStands(order);
    } else {
      BufferStands(order, n - 1);
      FoldStep(order, n - 1);
      if order[n - 1].bytes == [] {
        EmptyStep(order, n - 1, Fold(order[..n - 1]));
      } else {
        FullStep(order, n - 1, Fold(order[..n - 1]));
      }
    }
  }

  lemma NothingStands(order: seq<Chunk>)
    ensures Stands(order, 0, Fold(order[..0]))
  {
  }

  /** Two writes could not have been one, or they meet where an empty chunk parted them. */
  ghost predicate Excused(order: seq<Chunk>, n: nat, writes: seq<Chunk>, m: nat)
    requires 0 < m < |writes|
  {
    || NotMergeable(writes[m - 1], writes[m])
    || exists i: nat, j: nat, k: nat :: Parted(order, i, j, k) && k < n && |Coalesced(order[..k])| == m
  }

  ghost predicate AllExcused(order: seq<Chunk>, n: nat, writes: seq<Chunk>) {
    forall m :: 0 < m < |writes| ==> Excused(order, n, writes, m)
  }

  /** The pair made by the first chunk after the buffer was emptied. */
  lemma FirstAfterAGap(order: seq<Chunk>, n: nat, w: Chunk)
    requires n < |order| && order[n].bytes != []
    requires var b := Fold(order[..n]);
      Stands(order, n, b) && b.buf.bytes == [] && |b.writes| > 0 && w == b.writes[|b.writes| - 1]
    ensures NotMergeable(w, order[n]) ||
      exists i: nat, j: nat, k: nat :: Parted(order, i, j, k) && k < n + 1 && |Coalesced(order[..k])| == |Fold(order[..n]).writes|
  {
    var i := LastFull(order, n);
    var j: nat :| j < n && Misplaced(order, i, j, w);
    if !NotMergeable(w, order[n]) {
      assert Parted(order, i, j, n);
    }
  }

  lemma ExcuseStays(order: seq<Chunk>, n: nat, was: seq<Chunk>, now: seq<Chunk>, m: nat)
    requires 0 < m < |was| && m < |now| && Excused(order, n, was, m)
    requires now[m - 1] == was[m - 1] && now[m].off == was[m].off && |now[m].bytes| >= |was[m].bytes|
    ensures Excused(order, n + 1, now, m)
  {
    if !NotMergeable(was[m - 1], was[m]) {
      var i: nat, j: nat, k: nat :| Parted(order, i, j, k) && k < n && |Coalesced(order[..k])| == m;
      assert k < n + 1;
    }
  }

  lemma {:induction false} WritesAreExcused(order: seq<Chunk>, n: nat)
    requires n <= |order|
    ensures AllExcused(order, n, Coalesced(order[..n]))
    decreases n
  {
    if n > 0 {
      WritesAreExcused(order, n - 1);
      FoldStep(order, n - 1);
      BufferStands(order, n - 1);
      StepIsExcused(order, n - 1);
    }
  }

  lemma StepIsExcused(order: seq<Chunk>, n: nat)
    requires n < |order| && AllExcused(order, n, Coalesced(order[..n])) && Stands(order, n, Fold(order[..n]))
    ensures AllExcused(order, n + 1, Issued(Grow(Fold(order[..n]), order[n])))
  {
    hide Fold, Stands, NotMergeable, Parted;
    var b := Fold(order[..n]);
    var was, now, next := Issued(b), Issued(Grow(b, order[n])), n + 1;
    forall m | 0 < m < |now|
      ensures Excused(order, next, now, m)
    {
      if m < |was| {
        ExcuseStays(order, n, was, now, m);
      } else if b.buf.bytes == [] {
        FirstAfterAGap(order, n, b.writes[|b.writes| - 1]);
      } else {
        FlushedApart(b.buf, order[n]);
      }
    }
  }

  lemma FlushedApart(buf: Chunk, chunk: Chunk)
    ensures NotMergeable(buf, chunk) <==> !(buf.End() == chunk.off && |buf.bytes| + |chunk.bytes| <= MAX_COALESCE)
  {
  }

  lemma GrowAfter(head: seq<Chunk>, b: Batch, chunk: Chunk)
    ensures Grow(Batch(head + b.writes, b.buf), chunk) ==
      Batch(head + Grow(b, chunk).writes, Grow(b, chunk).buf)
  {
    assert head + (b.writes + [b.buf]) == head + b.writes + [b.buf];
  }

  lemma GrowFromNothing(b: Batch, chunk: Chunk)
    requires b.buf.bytes == []
    ensures Grow(b, chunk) == Batch(b.writes + Fold([chunk]).writes, Fold([chunk]).buf)
  {
    assert [chunk][..0] == [];
    assert b.writes + [] == b.writes;
  }

  /** Where the buffer is empty the flush falls into two. */
  lemma {:induction false} FoldSplits(order: seq<Chunk>, k: nat, n: nat)
    requires k < n <= |order| && Fold(order[..k]).buf.bytes == []
    ensures Fold(order[..n]) == Batch(Fold(order[..k]).writes + Fold(order[k..][..n - k]).writes, Fold(order[k..][..n - k]).buf)
    decreases n
  {
    hide Fold, Grow;
    FoldStep(order, n - 1);
    if k < n - 1 {
      FoldSplits(order, k, n - 1);
      FoldStep(order[k..], n - 1 - k);
      GrowAfter(Fold(order[..k]).writes, Fold(order[k..][..n - 1 - k]), order[n - 1]);
    } else {
      assert order[k..][..1] == [order[k]];
      GrowFromNothing(Fold(order[..k]), order[k]);
    }
  }

  lemma CoalescedSplits(order: seq<Chunk>, k: nat)
    requires k < |order| && Fold(order[..k]).buf.bytes == []
    ensures Coalesced(order) == Coalesced(order[..k]) + Coalesced(order[k..])
  {
    hide Fold;
    FoldSplits(order, k, |order|);
    assert order[..|order|] == order && order[k..][..|order| - k] == order[k..];
  }

  lemma {:induction false} FirstWriteStarts(order: seq<Chunk>)
    requires |order| > 0 && order[0].bytes != []
    ensures |Coalesced(order)| > 0 && Coalesced(order)[0].off == order[0].off
    ensures Fold(order).writes == [] ==> Fold(order).buf.bytes != [] && Fold(order).buf.off == order[0].off
    ensures Fold(order).writes != [] ==> Fold(order).writes[0].off == order[0].off
    decreases |order|
  {
    if |order| == 1 {
      assert order[..0] == [];
    } else {
      FirstWriteStarts(order[..|order| - 1]);
    }
  }

  /** Where an empty chunk parts two others the buffer is empty, and the writes that meet there
      touch. */
  lemma PartedWritesMeet(order: seq<Chunk>, i: nat, j: nat, k: nat)
    requires Parted(order, i, j, k)
    ensures Fold(order[..k]).buf.bytes == []
    ensures var before, after := Coalesced(order[..k]), Coalesced(order[k..]);
      && Coalesced(order) == before + after
      && |before| > 0 && |after| > 0 && before[|before| - 1].End() == after[0].off
  {
    hide Fold, NotMergeable;
    BufferStands(order, k);
    assert LastFull(order, k) == i;
    CoalescedSplits(order, k);
    FirstWriteStarts(order[k..]);
  }

  ghost predicate PartedOnesAreTooBig(order: seq<Chunk>) {
    forall i: nat, j: nat, k: nat :: Parted(order, i, j, k) ==> TooBigTogether(order, k)
  }

  /** The writes are as few as their size allows, exactly when the writes that meet wherever an
      empty chunk parts two others were too big together. */
  lemma CoalescingIsMaximalIff(order: seq<Chunk>)
    ensures Maximal(Coalesced(order)) <==> PartedOnesAreTooBig(order)
  {
    hide Coalesced, Parted;
    var writes := Coalesced(order);
    if Maximal(writes) {
      forall i: nat, j: nat, k: nat | Parted(order, i, j, k)
        ensures TooBigTogether(order, k)
      {
        InOrder(order, i, j, k);
        PartedWritesMeet(order, i, j, k);
        assert NotMergeable(writes[|Coalesced(order[..k])| - 1], writes[|Coalesced(order[..k])|]);
      }
    }
    if PartedOnesAreTooBig(order) {
      WritesAreExcused(order, |order|);
      assert order[..|order|] == order;
      forall m | 0 < m < |writes|
        ensures NotMergeable(writes[m - 1], writes[m])
      {
        assert Excused(order, |order|, writes, m);
        if !NotMergeable(writes[m - 1], writes[m]) {
          var i: nat, j: nat, k: nat :| Parted(order, i, j, k) && k < |order| && |Coalesced(order[..k])| == m;
          MetTooBig(order, i, j, k);
        }
      }
    }
  }

  lemma MetTooBig(order: seq<Chunk>, i: nat, j: nat, k: nat)
    requires Parted(order, i, j, k) && TooBigTogether(order, k)
    ensures var writes, m := Coalesced(order), |Coalesced(order[..k])|;
      0 < m < |writes| && NotMergeable(writes[m - 1], writes[m])
  {
    hide Coalesced, Parted;
    PartedWritesMeet(order, i, j, k);
  }

  lemma InOrder(order: seq<Chunk>, i: nat, j: nat, k: nat)
    requires Parted(order, i, j, k)
    ensures i < j < k < |order|
  {
  }

  /** A batch that would fit into one write is as few writes as it could be exactly when no empty
      chunk parts two others. */
  lemma SmallBatchIsMaximalIff(order: seq<Chunk>)
    requires TotalBytes(order) <= MAX_COALESCE
    ensures Maximal(Coalesced(order)) <==> forall i: nat, j: nat, k: nat :: !Parted(order, i, j, k)
  {
    hide Coalesced, Parted, TotalBytes, Maximal;
    CoalescingIsMaximalIff(order);
    forall i: nat, j: nat, k: nat | Parted(order, i, j, k)
      ensures !TooBigTogether(order, k)
    {
      InOrder(order, i, j, k);
      PartedWritesMeet(order, i, j, k);
      CoalescingKeepsTotal(order);
      var before, after := Coalesced(order[..k]), Coalesced(order[k..]);
      NeighboursCount(before, after);
    }
  }

  lemma NeighboursCount(a: seq<Chunk>, b: seq<Chunk>)
    requires |a| > 0 && |b| > 0
    ensures |a[|a| - 1].bytes| + |b[0].bytes| <= TotalBytes(a + b)
  {
    hide TotalBytes;
    var head, tail := a[..|a| - 1], b[1..];
    TotalOfOne(a[|a| - 1]);
    TotalOfOne(b[0]);
    assert a + b == head + [a[|a| - 1]] + [b[0]] + tail;
    TotalBytesConcat(head + [a[|a| - 1]] + [b[0]], tail);
    TotalBytesConcat(head + [a[|a| - 1]], [b[0]]);
    TotalBytesConcat(head, [a[|a| - 1]]);
  }

  lemma TotalOfOne(chunk: Chunk)
    ensures TotalBytes([chunk]) == |chunk.bytes|
  {
    assert [chunk][..0] == [];
  }

  lemma NothingParted(order: seq<Chunk>)
    requires order == [Chunk(0, []), Chunk(0, [1, 2]), Chunk(2, [3])]
    ensures forall i: nat, j: nat, k: nat :: !Parted(order, i, j, k)
  {
  }

  lemma StartParted(order: seq<Chunk>)
    requires order == [Chunk(0, [1, 2]), Chunk(0, []), Chunk(2, [3])]
    ensures Parted(order, 0, 1, 2)
  {
  }

  lemma EitherWay(a: Chunk, b: Chunk, c: Chunk)
    requires a.off == b.off <= c.off
    ensures Arrangement([a, b, c], [a, b, c]) && Arrangement([b, a, c], [a, b, c])
  {
    hide SortedByOffset;
    InOffsetOrder(a, b, c);
    InOffsetOrder(b, a, c);
    assert multiset([a, b, c]) == multiset{a, b, c};
    assert multiset([b, a, c]) == multiset{b, a, c};
  }

  lemma InOffsetOrder(a: Chunk, b: Chunk, c: Chunk)
    requires a.off <= b.off <= c.off
    ensures SortedByOffset([a, b, c])
  {
  }

  /** What one claim sends in order: nothing, two bytes, one byte.  As they came they become one
      write; the sort may as well put the empty chunk after the two bytes, and then they become
      two. */
  lemma EmptyChunkSplits() returns (pending: seq<Chunk>, order: seq<Chunk>)
    ensures pending == [Chunk(0, []), Chunk(0, [1, 2]), Chunk(2, [3])]
    ensures Arrangement(pending, pending) && Maximal(Coalesced(pending))
    ensures Arrangement(order, pending) && !Maximal(Coalesced(order))
  {
    hide Coalesced, Parted, Maximal, Arrangement, TotalBytes;
    pending := [Chunk(0, []), Chunk(0, [1, 2]), Chunk(2, [3])];
    order := [Chunk(0, [1, 2]), Chunk(0, []), Chunk(2, [3])];
    EitherWay(Chunk(0, []), Chunk(0, [1, 2]), Chunk(2, [3]));
    ThreeBytes(pending);
    ThreeBytes(order);
    SmallBatchIsMaximalIff(pending);
    SmallBatchIsMaximalIff(order);
    NothingParted(pending);
    StartParted(order);
  }

  lemma ThreeBytes(chunks: seq<Chunk>)
    requires |chunks| == 3 && |chunks[0].bytes| + |chunks[1].bytes| + |chunks[2].bytes| == 3
    ensures TotalBytes(chunks) == 3
  {
    hide TotalBytes;
    assert chunks == [chunks[0]] + [chunks[1]] + [chunks[2]];
    TotalOfOne(chunks[0]);
    TotalOfOne(chunks[1]);
    TotalOfOne(chunks[2]);
    TotalBytesConcat([chunks[0]], [chunks[1]]);
    TotalBytesConcat([chunks[0]] + [chunks[1]], [chunks[2]]);
  }

  /** With one source behind them, chunks may arrive in any order: any arrangement of any
      permutation leaves the same file. */
  lemma ArrivalOrderDoesNotMatter(file: File, a: seq<Chunk>, b: seq<Chunk>, orderA: seq<Chunk>, orderB: seq<Chunk>,
                                  source: File, p: nat)
    requires SameChunks(a, b) && Arrangement(orderA, a) && Arrangement(orderB, b)
    requires AllAgree(a, source)
    ensures WriteAll(file, Coalesced(orderA))(p) == WriteAll(file, Coalesced(orderB))(p) == WriteAll(file, a)(p)
  {
    ArrangementAgrees(orderA, a, source);
    ArrangementAgrees(orderB, a, source);
    CoalescingKeepsTheFile(file, orderA, p);
    CoalescingKeepsTheFile(file, orderB, p);
    WriteAllAgrees(file, orderA, source, p);
    WriteAllAgrees(file, orderB, source, p);
    WriteAllAgrees(file, a, source, p);
    if Sent(orderA, p) || Sent(orderB, p) || Sent(a, p) {
      if Sent(orderA, p) { SameChunksSend(orderA, a, p); }
      if Sent(orderB, p) { SameChunksSend(orderB, a, p); }
      SameChunksSend(a, orderA, p);
      SameChunksSend(a, orderB, p);
    }
  }

  lemma ArrangementAgrees(order: seq<Chunk>, chunks: seq<Chunk>, source: File)
    requires SameChunks(order, chunks) && AllAgree(chunks, source)
    ensures AllAgree(order, source)
  {
    forall i | 0 <= i < |order|
      ensures order[i].Agrees(source)
    {
      SameElements(order, chunks, i);
    }
  }

  /** Without one source the order of equal offsets does matter: two chunks at one offset. */
  lemma ConflictingChunksDepend() returns (a: seq<Chunk>, orderA: seq<Chunk>, orderB: seq<Chunk>)
    ensures Arrangement(orderA, a) && Arrangement(orderB, a)
    ensures forall file: File :: WriteAll(file, Coalesced(orderA))(0) != WriteAll(file, Coalesced(orderB))(0)
  {
    var x, y := Chunk(0, [1]), Chunk(0, [2]);
    a, orderA, orderB := [x, y], [x, y], [y, x];
    forall file: File
      ensures WriteAll(file, Coalesced(orderA))(0) != WriteAll(file, Coalesced(orderB))(0)
    {
      CoalescingKeepsTheFile(file, orderA, 0);
      CoalescingKeepsTheFile(file, orderB, 0);
      WriteOneMore(file, [x], y, 0);
      WriteOneMore(file, [y], x, 0);
    }
  }

  /** The fold only ever appends to the writes already issued. */
  lemma {:induction false} FoldOnlyAppends(order: seq<Chunk>, j: nat)
    requires j <= |order|
    ensures |Fold(order[..j]).writes| <= |Fold(order).writes|
    ensures Fold(order[..j]).writes <= Fold(order).writes
    ensures Fold(order).writes <= Coalesced(order)
    decreases |order| - j
  {
    if j < |order| {
      FoldOnlyAppends(order, j + 1);
      assert order[..j + 1][..j] == order[..j];
    } else {
      assert order[..j] == order;
    }
  }
}
