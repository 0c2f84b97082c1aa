/** The completed-ranges record of intervals.rs: a mutable canonical list of spans.  Every
    operation is specified by what it does to the set of covered bytes. */
module RangeSets {
  import opened Spans

  /** End of an inserted range after the saturating addition. */
  function SaturatedEnd(start: nat, len: nat): nat {
    if start + len <= U64_MAX then start + len else U64_MAX
  }

  /** Some span overlaps or touches `[start, end]`. */
  ghost predicate Touches(spans: seq<Span>, start: nat, end: nat) {
    exists i :: 0 <= i < |spans| && start <= spans[i].End() && spans[i].start <= end
  }

  /** One past the last byte an insertion adds: merging saturates, plain insertion does not. */
  ghost function InsertedEnd(spans: seq<Span>, start: nat, len: nat): nat {
    if len > 0 && Touches(spans, start, SaturatedEnd(start, len)) then SaturatedEnd(start, len) else start + len
  }

  /** What `rewind_tails` leaves of a list of spans. */
  function Rewound(spans: seq<Span>, margin: nat): seq<Span> {
    if |spans| == 0 then []
    else
      var rest, last := Rewound(spans[..|spans| - 1], margin), spans[|spans| - 1];
      if last.len <= margin then rest else rest + [Span(last.start, last.len - margin)]
  }

  datatype Gap = Gap(start: nat, end: GapEnd)
  datatype GapEnd = OpenEnded | EndsAt(pos: nat)

  // The two ways an insertion can go.  `lo` and `hi` are the two partition points.

  ghost predicate PartitionedAt(spans: seq<Span>, start: nat, end: nat, lo: nat, hi: nat) {
    && lo <= |spans| && hi <= |spans|
    && (forall i :: 0 <= i < lo ==> spans[i].End() < start)
    && (forall i :: lo <= i < |spans| ==> start <= spans[i].End())
    && (forall i :: 0 <= i < hi ==> spans[i].start <= end)
    && (forall i :: hi <= i < |spans| ==> end < spans[i].start)
  }

  lemma ThreeParts(a: seq<Span>, m: Span, b: seq<Span>)
    ensures forall p: nat :: Covers(a + [m] + b, p) <==> Covers(a, p) || m.Has(p) || Covers(b, p)
  {
    forall p: nat
      ensures Covers(a + [m] + b, p) <==> Covers(a, p) || m.Has(p) || Covers(b, p)
    {
      CoversConcat(a + [m], b, p);
      CoversSplit(a, m, p);
    }
  }

  lemma CutAt(spans: seq<Span>, i: nat)
    requires i <= |spans|
    ensures forall p: nat :: Covers(spans, p) <==> Covers(spans[..i], p) || Covers(spans[i..], p)
  {
    forall p: nat
      ensures Covers(spans, p) <==> Covers(spans[..i], p) || Covers(spans[i..], p)
    {
      CoversConcat(spans[..i], spans[i..], p);
      assert spans[..i] + spans[i..] == spans;
    }
  }

  lemma PlainInsertion(was: seq<Span>, start: nat, len: nat, lo: nat, hi: nat)
    requires Spans.Valid(was) && len > 0
    requires PartitionedAt(was, start, SaturatedEnd(start, len), lo, hi) && lo >= hi
    ensures var r := was[..lo] + [Span(start, len)] + was[lo..];
      && Canonical(r)
      && (forall p: nat :: Covers(r, p) <==> Covers(was, p) || start <= p < start + len)
      && (start + len <= U64_MAX ==> Fits(r))
      && (start + len > U64_MAX ==> !Fits(r))
    ensures !Touches(was, start, SaturatedEnd(start, len))
  {
    var r := was[..lo] + [Span(start, len)] + was[lo..];
    ThreeParts(was[..lo], Span(start, len), was[lo..]);
    CutAt(was, lo);
    assert r[lo] == Span(start, len);
  }

  lemma MergedInsertion(was: seq<Span>, start: nat, end: nat, lo: nat, hi: nat, first: nat, last: nat)
    requires Spans.Valid(was) && start <= end <= U64_MAX
    requires PartitionedAt(was, start, end, lo, hi) && lo < hi
    requires first == (if start <= was[lo].start then start else was[lo].start)
    requires last == (if end >= was[hi - 1].End() then end else was[hi - 1].End())
    ensures first < last
    ensures Touches(was, start, end)
    ensures Spans.Valid(was[..lo] + [Span(first, last - first)] + was[hi..])
    ensures forall p: nat :: Covers(was[..lo] + [Span(first, last - first)] + was[hi..], p) <==>
      Covers(was, p) || start <= p < end
  {
    hide Covers;
    MergedIsValid(was, start, end, lo, hi, first, last);
    MergedCovers(was, start, end, lo, hi, Span(first, last - first));
  }

  lemma MergedIsValid(was: seq<Span>, start: nat, end: nat, lo: nat, hi: nat, first: nat, last: nat)
    requires Spans.Valid(was) && start <= end <= U64_MAX
    requires PartitionedAt(was, start, end, lo, hi) && lo < hi
    requires first == (if start <= was[lo].start then start else was[lo].start)
    requires last == (if end >= was[hi - 1].End() then end else was[hi - 1].End())
    ensures first < last
    ensures Touches(was, start, end)
    ensures Spans.Valid(was[..lo] + [Span(first, last - first)] + was[hi..])
  {
    assert start <= was[lo].End() && was[lo].start <= end;
    var m := Span(first, last - first);
    SuffixIsValid(was, hi);
    assert hi < |was| ==> m.End() < was[hi].start;
    assert lo > 0 ==> was[lo - 1].End() < m.start;
    hide Covers, Spans.Valid, Touches, PartitionedAt;
    JoinCanonical(was[..lo], [m]);
    JoinCanonical(was[..lo] + [m], was[hi..]);
  }

  lemma SuffixIsValid(spans: seq<Span>, i: nat)
    requires Spans.Valid(spans) && i <= |spans|
    ensures Spans.Valid(spans[i..])
  {
  }

  lemma MergedCovers(was: seq<Span>, start: nat, end: nat, lo: nat, hi: nat, m: Span)
    requires Spans.Valid(was) && start <= end
    requires PartitionedAt(was, start, end, lo, hi) && lo < hi
    requires m.start == (if start <= was[lo].start then start else was[lo].start)
    requires m.End() == (if end >= was[hi - 1].End() then end else was[hi - 1].End())
    ensures forall p: nat :: Covers(was[..lo] + [m] + was[hi..], p) <==> Covers(was, p) || start <= p < end
  {
    hide Covers, Spans.Valid;
    ThreeParts(was[..lo], m, was[hi..]);
    forall p: nat
      ensures Covers(was, p) || start <= p < end <==> Covers(was[..lo], p) || m.Has(p) || Covers(was[hi..], p)
    {
      CutAt(was, lo);
      CutAt(was[lo..], hi - lo);
      assert was[lo..][hi - lo..] == was[hi..];
      MergedMiddle(was, start, end, lo, hi, m, p);
    }
  }

  /** The merged span holds exactly the new bytes and those of the spans it replaces. */
  lemma MergedMiddle(was: seq<Span>, start: nat, end: nat, lo: nat, hi: nat, m: Span, p: nat)
    requires Spans.Valid(was) && start <= end
    requires PartitionedAt(was, start, end, lo, hi) && lo < hi
    requires m.start == (if start <= was[lo].start then start else was[lo].start)
    requires m.End() == (if end >= was[hi - 1].End() then end else was[hi - 1].End())
    ensures m.Has(p) <==> Covers(was[lo..][..hi - lo], p) || start <= p < end
  {
    var mid := was[lo..][..hi - lo];
    assert mid[0] == was[lo] && mid[hi - 1 - lo] == was[hi - 1];
    if Covers(mid, p) {
      var i :| 0 <= i < |mid| && mid[i].Has(p);
      assert mid[i] == was[lo + i];
      assert i > 0 ==> was[lo].End() < was[lo + i].start;
      assert lo + i < hi - 1 ==> was[lo + i].End() < was[hi - 1].start;
    }
    if m.Has(p) && !(start <= p < end) {
      if p < start {
        assert mid[0].Has(p);
      } else {
        assert mid[hi - 1 - lo].Has(p);
      }
    }
  }

  lemma HolesBefore(spans: seq<Span>, i: nat, cursor: nat)
    requires Canonical(spans) && i < |spans|
    requires forall j :: 0 <= j < i ==> spans[j].End() <= cursor
    ensures forall p: nat :: cursor <= p < spans[i].start ==> !Covers(spans, p)
  {
    assert forall j :: i < j < |spans| ==> spans[i].start < spans[j].start;
  }

  /** What removing `[start, end)` leaves of one span. */
  function Remains(s: Span, start: nat, end: nat): seq<Span> {
    if s.End() <= start || s.start >= end then [s]
    else
      (if s.start < start then [Span(s.start, start - s.start)] else []) +
      (if s.End() > end then [Span(end, s.End() - end)] else [])
  }

  lemma RemainsExactly(s: Span, start: nat, end: nat)
    requires start < end && s.len > 0 && s.End() <= U64_MAX
    ensures var r := Remains(s, start, end);
      && Spans.Valid(r)
      && (forall i :: 0 <= i < |r| ==> s.start <= r[i].start && r[i].End() <= s.End())
      && (forall p: nat :: Covers(r, p) <==> s.Has(p) && !(start <= p < end))
  {
    var r := Remains(s, start, end);
    forall p: nat
      ensures Covers(r, p) <==> s.Has(p) && !(start <= p < end)
    {
      if s.Has(p) && !(start <= p < end) {
        assert r[if p < end then 0 else |r| - 1].Has(p);
      }
    }
  }

  lemma JoinCanonical(a: seq<Span>, b: seq<Span>)
    requires Spans.Valid(a) && Spans.Valid(b)
    requires |a| > 0 && |b| > 0 ==> a[|a| - 1].End() < b[0].start
    ensures Spans.Valid(a + b)
    ensures forall p: nat :: Covers(a + b, p) <==> Covers(a, p) || Covers(b, p)
  {
    forall p: nat
      ensures Covers(a + b, p) <==> Covers(a, p) || Covers(b, p)
    {
      CoversConcat(a, b, p);
    }
    forall i, j | 0 <= i < j < |a + b|
      ensures (a + b)[i].End() < (a + b)[j].start
    {
      if i < |a| <= j {
        assert i < |a| - 1 ==> a[i].End() < a[|a| - 1].start;
        assert j > |a| ==> b[0].End() < b[j - |a|].start;
      }
    }
  }

  /** `out` is what removing `[start, end)` leaves of the first `i` spans. */
  ghost predicate RemovedSoFar(out: seq<Span>, spans: seq<Span>, i: nat, start: nat, end: nat)
    requires i <= |spans|
  {
    && Spans.Valid(out)
    && (|out| > 0 ==> i > 0 && out[|out| - 1].End() <= spans[i - 1].End())
    && (forall p: nat :: Covers(out, p) <==> Covers(spans[..i], p) && !(start <= p < end))
  }

  lemma NothingRemovedYet(spans: seq<Span>, start: nat, end: nat)
    ensures RemovedSoFar([], spans, 0, start, end)
  {
  }

  lemma AllRemoved(out: seq<Span>, spans: seq<Span>, start: nat, end: nat)
    requires RemovedSoFar(out, spans, |spans|, start, end)
    ensures Spans.Valid(out)
    ensures forall p: nat :: Covers(out, p) <==> Covers(spans, p) && !(start <= p < end)
  {
    assert spans[..|spans|] == spans;
  }

  lemma RemovedStep(out: seq<Span>, spans: seq<Span>, i: nat, start: nat, end: nat)
    requires Spans.Valid(spans) && i < |spans| && start < end
    requires RemovedSoFar(out, spans, i, start, end)
    ensures RemovedSoFar(out + Remains(spans[i], start, end), spans, i + 1, start, end)
  {
    var rem := Remains(spans[i], start, end);
    RemainsExactly(spans[i], start, end);
    RemovedStepJoins(out, spans, i, rem);
    forall p: nat
      ensures Covers(out + rem, p) <==> Covers(spans[..i + 1], p) && !(start <= p < end)
    {
      assert spans[..i] + [spans[i]] == spans[..i + 1];
      CoversSplit(spans[..i], spans[i], p);
      CoversConcat(out, rem, p);
    }
  }

  lemma RemovedStepJoins(out: seq<Span>, spans: seq<Span>, i: nat, rem: seq<Span>)
    requires Spans.Valid(spans) && i < |spans| && Spans.Valid(out) && Spans.Valid(rem)
    requires |out| > 0 ==> i > 0 && out[|out| - 1].End() <= spans[i - 1].End()
    requires forall k :: 0 <= k < |rem| ==> spans[i].start <= rem[k].start && rem[k].End() <= spans[i].End()
    ensures Spans.Valid(out + rem)
    ensures |out + rem| > 0 ==> (out + rem)[|out + rem| - 1].End() <= spans[i].End()
  {
    assert i > 0 ==> spans[i - 1].End() < spans[i].start;
    JoinCanonical(out, rem);
  }

  class RangeSet {
    var spans: seq<Span>

    ghost predicate Valid()
      reads this
    {
      Spans.Valid(spans)
    }

    constructor ()
      ensures Valid() && spans == []
    {
      spans := [];
    }

    /** A decoded or copied record. */
    constructor Of(spans: seq<Span>)
      ensures this.spans == spans
    {
      this.spans := spans;
    }

    constructor FromPairs(pairs: seq<Span>)
      requires Fits(pairs)
      ensures Valid()
      ensures SameBytes(spans, pairs)
    {
      spans := [];
      new;
      for i := 0 to |pairs|
        invariant Valid()
        invariant SameBytes(spans, pairs[..i])
      {
        NextSpan(pairs, i);
        Insert(pairs[i].start, pairs[i].len);
      }
      assert pairs[..|pairs|] == pairs;
    }

    /** `partition_point` for "ends before `start`". */
    method FirstEndingAtOrAfter(start: nat) returns (lo: nat)
      requires Canonical(spans)
      ensures lo <= |spans|
      ensures forall i :: 0 <= i < lo ==> spans[i].End() < start
      ensures forall i :: lo <= i < |spans| ==> start <= spans[i].End()
    {
      lo := 0;
      var hi := |spans|;
      while lo < hi
        invariant lo <= hi <= |spans|
        invariant forall i :: 0 <= i < lo ==> spans[i].End() < start
        invariant forall i :: hi <= i < |spans| ==> start <= spans[i].End()
      {
        var mid := (lo + hi) / 2;
        if spans[mid].End() < start {
          forall i | 0 <= i < mid ensures spans[i].End() < start {
            assert spans[i].End() < spans[mid].start;
          }
          lo := mid + 1;
        } else {
          forall i | mid < i < |spans| ensures start <= spans[i].End() {
            assert spans[mid].End() < spans[i].start;
          }
          hi := mid;
        }
      }
    }

    /** `partition_point` for "starts at or before `end`". */
    method FirstStartingAfter(end: nat) returns (lo: nat)
      requires Canonical(spans)
      ensures lo <= |spans|
      ensures forall i :: 0 <= i < lo ==> spans[i].start <= end
      ensures forall i :: lo <= i < |spans| ==> end < spans[i].start
    {
      lo := 0;
      var hi := |spans|;
      while lo < hi
        invariant lo <= hi <= |spans|
        invariant forall i :: 0 <= i < lo ==> spans[i].start <= end
        invariant forall i :: hi <= i < |spans| ==> end < spans[i].start
      {
        var mid := (lo + hi) / 2;
        if spans[mid].start <= end {
          forall i | 0 <= i < mid ensures spans[i].start <= end {
            assert spans[i].End() < spans[mid].start;
          }
          lo := mid + 1;
        } else {
          forall i | mid < i < |spans| ensures end < spans[i].start {
            assert spans[mid].End() < spans[i].start;
          }
          hi := mid;
        }
      }
    }

    /** Insertion is union.  An argument that runs past the last u64 is clipped when it merges
        with a span; otherwise the record itself stops fitting in 64 bits. */
    method Insert(start: nat, len: nat)
      requires Valid() && start <= U64_MAX && len <= U64_MAX
      modifies this
      ensures Canonical(spans)
      ensures forall p: nat :: Covers(spans, p) <==>
        Covers(old(spans), p) || start <= p < InsertedEnd(old(spans), start, len)
      ensures Fits(spans) <==>
        len == 0 || start + len <= U64_MAX || Touches(old(spans), start, U64_MAX)
    {
      hide Covers, Touches;
      if len == 0 {
        return;
      }
      ghost var was := spans;
      var end := SaturatedEnd(start, len);
      var lo := FirstEndingAtOrAfter(start);
      var hi := FirstStartingAfter(end);
      if lo >= hi {
        spans := spans[..lo] + [Span(start, len)] + spans[lo..];
        PlainInsertion(was, start, len, lo, hi);
        return;
      }
      var mergedStart := if start <= spans[lo].start then start else spans[lo].start;
      var last := spans[hi - 1].End();
      var mergedEnd := if end >= last then end else last;
      MergedInsertion(was, start, end, lo, hi, mergedStart, mergedEnd);
      spans := spans[..lo] + [Span(mergedStart, mergedEnd - mergedStart)] + spans[hi..];
    }

    function Total(): (t: nat)
      reads this
    {
      TotalLen(spans)
    }

    function End(): (e: nat)
      requires Canonical(spans)
      reads this
      ensures forall p: nat :: Covers(spans, p) ==> p < e
      ensures spans == [] <==> e == 0
      ensures e > 0 ==> Covers(spans, e - 1)
    {
      if |spans| == 0 then 0
      else
        assert spans[|spans| - 1].Has(spans[|spans| - 1].End() - 1);
        assert forall i :: 0 <= i < |spans| - 1 ==> spans[i].End() < spans[|spans| - 1].start;
        spans[|spans| - 1].End()
    }

    /** One span must hold the whole query, and that is enough. */
    method ContainsAll(start: nat, end: nat) returns (all: bool)
      requires Canonical(spans)
      ensures all <==> forall p: nat :: start <= p < end ==> Covers(spans, p)
    {
      if start >= end {
        return true;
      }
      for i := 0 to |spans|
        invariant forall j :: 0 <= j < i ==> !(spans[j].start <= start && end <= spans[j].End())
      {
        if spans[i].start <= start && end <= spans[i].End() {
          assert forall p: nat :: start <= p < end ==> spans[i].Has(p);
          return true;
        }
      }
      if forall p: nat :: start <= p < end ==> Covers(spans, p) {
        SolidStretchIsOneSpan(spans, start, end);
      }
      return false;
    }

    /** The first hole from `pos` on, and how far it reaches. */
    method FirstGapAtOrAfter(pos: nat) returns (gap: Gap)
      requires Canonical(spans)
      ensures pos <= gap.start && !Covers(spans, gap.start)
      ensures forall p: nat :: pos <= p < gap.start ==> Covers(spans, p)
      ensures gap.end.EndsAt? ==>
        && gap.start < gap.end.pos && Covers(spans, gap.end.pos)
        && forall p: nat :: gap.start <= p < gap.end.pos ==> !Covers(spans, p)
      ensures gap.end.OpenEnded? ==> forall p: nat :: gap.start <= p ==> !Covers(spans, p)
    {
      var cursor := pos;
      for i := 0 to |spans|
        invariant pos <= cursor
        invariant forall p: nat :: pos <= p < cursor ==> Covers(spans, p)
        invariant forall j :: 0 <= j < i ==> spans[j].End() <= cursor
      {
        if spans[i].End() <= cursor {
          continue;
        }
        if spans[i].start <= cursor {
          assert forall p: nat :: cursor <= p < spans[i].End() ==> spans[i].Has(p);
          cursor := spans[i].End();
          assert forall j :: 0 <= j < i ==> spans[j].End() < spans[i].start;
          continue;
        }
        assert forall j :: i < j < |spans| ==> spans[i].start < spans[j].start;
        assert spans[i].Has(spans[i].start);
        return Gap(cursor, EndsAt(spans[i].start));
      }
      return Gap(cursor, OpenEnded);
    }

    /** Exactly the holes of `[start, end)`: sorted, disjoint and maximal. */
    method GapsIn(start: nat, end: nat) returns (out: seq<Span>)
      requires Canonical(spans)
      ensures Canonical(out)
      ensures forall p: nat :: Covers(out, p) <==> start <= p < end && !Covers(spans, p)
    {
      out := [];
      if start >= end {
        return;
      }
      var cursor := start;
      for i := 0 to |spans|
        invariant start <= cursor < end
        invariant Canonical(out)
        invariant forall j :: 0 <= j < |out| ==> out[j].End() < cursor
        invariant forall p: nat :: Covers(out, p) <==> start <= p < cursor && !Covers(spans, p)
        invariant forall j :: 0 <= j < i ==> spans[j].End() <= cursor
      {
        var s := spans[i];
        if s.End() <= cursor {
          continue;
        }
        if s.start >= end {
          HolesBefore(spans, i, cursor);
          break;
        }
        if s.start > cursor {
          HolesBefore(spans, i, cursor);
          PushSpan(out, Span(cursor, s.start - cursor));
          out := out + [Span(cursor, s.start - cursor)];
        }
        assert forall p: nat :: s.start <= p < s.End() ==> s.Has(p);
        assert forall p: nat :: Covers(out, p) <==> start <= p < s.End() && !Covers(spans, p);
        cursor := s.End();
        if cursor >= end {
          assert forall j :: 0 <= j < i ==> spans[j].End() < s.start;
          return;
        }
      }
      if cursor < end {
        assert forall p: nat :: cursor <= p < end ==> !Covers(spans, p);
        PushSpan(out, Span(cursor, end - cursor));
        out := out + [Span(cursor, end - cursor)];
      }
    }

    /** Removal is set difference; a span may be split in two. */
    method Remove(start: nat, len: nat)
      requires Valid() && start + len <= U64_MAX
      modifies this
      ensures Valid()
      ensures forall p: nat :: Covers(spans, p) <==> Covers(old(spans), p) && !(start <= p < start + len)
    {
      hide RemovedSoFar, Covers, Spans.Valid;
      if len == 0 {
        return;
      }
      var end := start + len;
      var out: seq<Span> := [];
      NothingRemovedYet(spans, start, end);
      for i := 0 to |spans|
        invariant spans == old(spans)
        invariant RemovedSoFar(out, spans, i, start, end)
      {
        var s := spans[i];
        RemovedStep(out, spans, i, start, end);
        ghost var next := out + Remains(s, start, end);
        if s.End() <= start || s.start >= end {
          out := out + [s];
          continue;
        }
        if s.start < start {
          out := out + [Span(s.start, start - s.start)];
        }
        if s.End() > end {
          out := out + [Span(end, s.End() - end)];
        }
        assert out == next;
      }
      AllRemoved(out, spans, start, end);
      spans := out;
    }

    /** Keep only what lies below `limit`. */
    method TruncateTo(limit: nat)
      requires Valid()
      modifies this
      ensures Valid()
      ensures forall p: nat :: Covers(spans, p) <==> Covers(old(spans), p) && p < limit
    {
      var kept: seq<Span> := [];
      for i := 0 to |spans|
        invariant spans == old(spans)
        invariant Spans.Valid(kept)
        invariant forall j, k :: 0 <= j < |kept| && i <= k < |spans| ==> kept[j].End() < spans[k].start
        invariant forall p: nat :: Covers(kept, p) <==> Covers(spans[..i], p) && p < limit
      {
        var s := spans[i];
        NextSpan(spans, i);
        assert forall k :: i < k < |spans| ==> s.End() < spans[k].start;
        if s.start >= limit {
          continue;
        }
        if s.End() > limit {
          s := Span(s.start, limit - s.start);
        }
        PushSpan(kept, s);
        kept := kept + [s];
      }
      assert spans[..|spans|] == spans;
      spans := kept;
    }

    /** Shorten every span by `margin`, from its end. */
    method RewindTails(margin: nat)
      requires Valid()
      modifies this
      ensures spans == Rewound(old(spans), margin)
      ensures Valid()
      ensures forall p: nat :: Covers(spans, p) <==>
        forall q: nat :: p <= q <= p + margin ==> Covers(old(spans), q)
    {
      ghost var was := spans;
      RewoundKeeps(was, margin);
      if margin == 0 {
        RewoundByNothing(was);
        return;
      }
      var kept: seq<Span> := [];
      for i := 0 to |spans|
        invariant spans == was
        invariant kept == Rewound(was[..i], margin)
      {
        assert was[..i + 1][..i] == was[..i];
        if spans[i].len <= margin {
          continue;
        }
        kept := kept + [Span(spans[i].start, spans[i].len - margin)];
      }
      assert was[..|was|] == was;
      spans := kept;
    }
  }

  // What a rewind means.

  lemma {:induction false} RewoundByNothing(spans: seq<Span>)
    requires Canonical(spans)
    ensures Rewound(spans, 0) == spans
  {
    if |spans| > 0 {
      RewoundByNothing(spans[..|spans| - 1]);
    }
  }

  lemma ValidInit(spans: seq<Span>)
    requires Spans.Valid(spans) && |spans| > 0
    ensures Spans.Valid(spans[..|spans| - 1]) && spans[|spans| - 1].End() <= U64_MAX
    ensures |spans| > 1 ==> spans[|spans| - 2].End() < spans[|spans| - 1].start
  {
  }

  lemma ValidPush(spans: seq<Span>, s: Span)
    requires Spans.Valid(spans) && s.len > 0 && s.End() <= U64_MAX
    requires |spans| > 0 ==> spans[|spans| - 1].End() < s.start
    ensures Spans.Valid(spans + [s])
  {
  }

  lemma {:induction false} RewoundIsValid(spans: seq<Span>, margin: nat)
    requires Spans.Valid(spans)
    ensures Spans.Valid(Rewound(spans, margin))
    ensures |Rewound(spans, margin)| > 0 ==>
      |spans| > 0 && Rewound(spans, margin)[|Rewound(spans, margin)| - 1].End() <= spans[|spans| - 1].End()
  {
    hide Spans.Valid;
    if |spans| > 0 {
      var init, last := spans[..|spans| - 1], spans[|spans| - 1];
      ValidInit(spans);
      RewoundIsValid(init, margin);
      if last.len > margin {
        ValidPush(Rewound(init, margin), Span(last.start, last.len - margin));
      }
    }
  }

  /** Byte `p` and the `margin` bytes after it all lie in one span. */
  ghost predicate DeepIn(spans: seq<Span>, margin: nat, p: nat) {
    exists i :: 0 <= i < |spans| && spans[i].Has(p) && spans[i].Has(p + margin)
  }

  lemma {:induction false} RewoundCovers(spans: seq<Span>, margin: nat, p: nat)
    ensures Covers(Rewound(spans, margin), p) <==> DeepIn(spans, margin, p)
  {
    if |spans| > 0 {
      var init, last := spans[..|spans| - 1], spans[|spans| - 1];
      RewoundCovers(init, margin, p);
      CoversSplit(Rewound(init, margin), Span(last.start, if last.len <= margin then 0 else last.len - margin), p);
      if DeepIn(init, margin, p) {
        var i :| 0 <= i < |init| && init[i].Has(p) && init[i].Has(p + margin);
        assert spans[i].Has(p);
      }
      if DeepIn(spans, margin, p) {
        var i :| 0 <= i < |spans| && spans[i].Has(p) && spans[i].Has(p + margin);
        assert i < |init| ==> init[i].Has(p);
      }
      assert last.Has(p) && last.Has(p + margin) ==> DeepIn(spans, margin, p);
    }
  }

  lemma DeepInIff(spans: seq<Span>, margin: nat, p: nat)
    requires Canonical(spans)
    ensures DeepIn(spans, margin, p) <==> forall q: nat :: p <= q <= p + margin ==> Covers(spans, q)
  {
    if forall q: nat :: p <= q <= p + margin ==> Covers(spans, q) {
      SolidStretchIsOneSpan(spans, p, p + margin + 1);
      var i :| 0 <= i < |spans| && spans[i].start <= p && p + margin + 1 <= spans[i].End();
      assert spans[i].Has(p);
    }
    if DeepIn(spans, margin, p) {
      var i :| 0 <= i < |spans| && spans[i].Has(p) && spans[i].Has(p + margin);
      forall q: nat | p <= q <= p + margin
        ensures Covers(spans, q)
      {
        assert spans[i].Has(q);
      }
    }
  }

  /** A byte survives a rewind exactly when it and the `margin` bytes after it were all there. */
  lemma RewoundKeeps(spans: seq<Span>, margin: nat)
    requires Spans.Valid(spans)
    ensures Spans.Valid(Rewound(spans, margin))
    ensures forall p: nat :: Covers(Rewound(spans, margin), p) <==>
      forall q: nat :: p <= q <= p + margin ==> Covers(spans, q)
  {
    RewoundIsValid(spans, margin);
    forall p: nat
      ensures Covers(Rewound(spans, margin), p) <==>
        forall q: nat :: p <= q <= p + margin ==> Covers(spans, q)
    {
      RewoundCovers(spans, margin, p);
      DeepInIff(spans, margin, p);
    }
  }

  /** Rewinds compose additively. */
  lemma {:induction false} RewindsAdd(spans: seq<Span>, a: nat, b: nat)
    requires Spans.Valid(spans)
    ensures Rewound(Rewound(spans, a), b) == Rewound(spans, a + b)
  {
    hide Rewound, Covers, Canonical, Fits;
    RewoundKeeps(spans, a);
    RewoundKeeps(spans, a + b);
    RewoundKeeps(Rewound(spans, a), b);
    forall p: nat
      ensures Covers(Rewound(Rewound(spans, a), b), p) <==> Covers(Rewound(spans, a + b), p)
    {
      if Covers(Rewound(Rewound(spans, a), b), p) {
        forall q: nat | p <= q <= p + (a + b)
          ensures Covers(spans, q)
        {
          var m: nat := if q <= p + b then q else p + b;
          assert Covers(Rewound(spans, a), m);
        }
      }
      if Covers(Rewound(spans, a + b), p) {
        forall m: nat | p <= m <= p + b
          ensures Covers(Rewound(spans, a), m)
        {
        }
      }
    }
    CanonicalIsUnique(Rewound(Rewound(spans, a), b), Rewound(spans, a + b));
  }

  /** A rewind only ever gives bytes back. */
  lemma RewindOnlyShrinks(spans: seq<Span>, margin: nat)
    requires Spans.Valid(spans)
    ensures forall p: nat :: Covers(Rewound(spans, margin), p) ==> Covers(spans, p)
  {
    RewoundKeeps(spans, margin);
  }

  /** `from_pairs` builds the same record from the same bytes, whatever their order, and from its own spans. */
  lemma OrderIndependent(a: seq<Span>, b: seq<Span>, ra: seq<Span>, rb: seq<Span>)
    requires multiset(a) == multiset(b)
    requires Canonical(ra) && SameBytes(ra, a)
    requires Canonical(rb) && SameBytes(rb, b)
    ensures ra == rb
  {
    forall p: nat
      ensures Covers(ra, p) <==> Covers(rb, p)
    {
      PermutationCovers(a, b, p);
      PermutationCovers(b, a, p);
    }
    CanonicalIsUnique(ra, rb);
  }

  lemma PermutationCovers(a: seq<Span>, b: seq<Span>, p: nat)
    requires multiset(a) == multiset(b)
    ensures Covers(a, p) ==> Covers(b, p)
  {
    if Covers(a, p) {
      var i :| 0 <= i < |a| && a[i].Has(p);
      assert a[i] in multiset(b);
      var j :| 0 <= j < |b| && b[j] == a[i];
    }
  }
}
