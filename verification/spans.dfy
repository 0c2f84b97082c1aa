/** Byte spans, the canonical form of a list of spans, and what it says about the set of
    bytes it stands for.  A span is the `(start, len)` pair of intervals.rs. */
module Spans {

  const U64_MAX: nat := 0xFFFF_FFFF_FFFF_FFFF

  datatype Span = Span(start: nat, len: nat) {
    function End(): nat {
      start + len
    }

    predicate Has(p: nat) {
      start <= p < start + len
    }
  }

  /** The bytes a list of spans stands for. */
  ghost predicate Covers(spans: seq<Span>, p: nat) {
    exists i :: 0 <= i < |spans| && spans[i].Has(p)
  }

  /** Same set of bytes. */
  ghost predicate SameBytes(a: seq<Span>, b: seq<Span>) {
    forall p: nat :: Covers(a, p) <==> Covers(b, p)
  }

  /** Sorted, disjoint and without empty spans; neighbours may touch. */
  ghost predicate Ordered(spans: seq<Span>) {
    && (forall i :: 0 <= i < |spans| ==> spans[i].len > 0)
    && (forall i, j :: 0 <= i < j < |spans| ==> spans[i].End() <= spans[j].start)
  }

  /** Ordered, and touching neighbours are merged: the module invariant of intervals.rs. */
  ghost predicate Canonical(spans: seq<Span>) {
    && (forall i :: 0 <= i < |spans| ==> spans[i].len > 0)
    && (forall i, j :: 0 <= i < j < |spans| ==> spans[i].End() < spans[j].start)
  }

  /** No span runs past the largest u64. */
  ghost predicate Fits(spans: seq<Span>) {
    forall i :: 0 <= i < |spans| ==> spans[i].End() <= U64_MAX
  }

  ghost predicate Valid(spans: seq<Span>) {
    Canonical(spans) && Fits(spans)
  }

  /** Sum of the lengths. */
  function TotalLen(spans: seq<Span>): nat {
    if |spans| == 0 then 0 else TotalLen(spans[..|spans| - 1]) + spans[|spans| - 1].len
  }

  /** The bytes `[lo, hi)` as a finite set. */
  ghost function Window(lo: nat, hi: nat): (w: set<nat>)
    ensures forall p: nat :: p in w <==> lo <= p < hi
    decreases hi
  {
    if hi <= lo then {} else Window(lo, hi - 1) + {hi - 1}
  }

  /** The covered bytes as a finite set. */
  ghost function ByteSet(spans: seq<Span>): set<nat> {
    if |spans| == 0 then {}
    else
      var last := spans[|spans| - 1];
      ByteSet(spans[..|spans| - 1]) + Window(last.start, last.End())
  }

  lemma {:induction false} ByteSetCovers(spans: seq<Span>, p: nat)
    ensures p in ByteSet(spans) <==> Covers(spans, p)
  {
    if |spans| > 0 {
      var rest, last := spans[..|spans| - 1], spans[|spans| - 1];
      ByteSetCovers(rest, p);
      CoversSplit(rest, last, p);
      assert rest + [last] == spans;
    }
  }

  lemma {:induction false} WindowSize(lo: nat, hi: nat)
    requires lo <= hi
    ensures |Window(lo, hi)| == hi - lo
    decreases hi - lo
  {
    if lo < hi {
      WindowSize(lo, hi - 1);
    }
  }

  lemma {:induction false} TotalConcat(a: seq<Span>, b: seq<Span>)
    ensures TotalLen(a + b) == TotalLen(a) + TotalLen(b)
  {
    if |b| == 0 {
      assert a + b == a;
    } else {
      TotalConcat(a, b[..|b| - 1]);
      assert (a + b)[..|a + b| - 1] == a + b[..|b| - 1];
    }
  }

  /** `total` is the number of bytes in the set. */
  lemma {:induction false} TotalIsCardinality(spans: seq<Span>)
    requires Ordered(spans)
    ensures |ByteSet(spans)| == TotalLen(spans)
  {
    if |spans| > 0 {
      var rest, last := spans[..|spans| - 1], spans[|spans| - 1];
      TotalIsCardinality(rest);
      WindowSize(last.start, last.End());
      forall p | p in ByteSet(rest)
        ensures p !in Window(last.start, last.End())
      {
        ByteSetCovers(rest, p);
        var i :| 0 <= i < |rest| && rest[i].Has(p);
        assert spans[i].End() <= last.start;
      }
      assert ByteSet(rest) !! Window(last.start, last.End());
    }
  }

  lemma CoversSplit(rest: seq<Span>, last: Span, p: nat)
    ensures Covers(rest + [last], p) <==> Covers(rest, p) || last.Has(p)
  {
    var all := rest + [last];
    if Covers(rest, p) {
      var i :| 0 <= i < |rest| && rest[i].Has(p);
      assert all[i].Has(p);
    }
    if last.Has(p) {
      assert all[|rest|].Has(p);
    }
  }

  lemma CoversConcat(a: seq<Span>, b: seq<Span>, p: nat)
    ensures Covers(a + b, p) <==> Covers(a, p) || Covers(b, p)
  {
    if Covers(a, p) {
      var i :| 0 <= i < |a| && a[i].Has(p);
      assert (a + b)[i].Has(p);
    }
    if Covers(b, p) {
      var i :| 0 <= i < |b| && b[i].Has(p);
      assert (a + b)[|a| + i].Has(p);
    }
    if Covers(a + b, p) {
      var i :| 0 <= i < |a + b| && (a + b)[i].Has(p);
      if i < |a| {
        assert a[i].Has(p);
      } else {
        assert b[i - |a|].Has(p);
      }
    }
  }

  /** In a canonical list the byte just past a span is a hole. */
  lemma HoleAfterSpan(spans: seq<Span>, i: nat)
    requires Canonical(spans) && i < |spans|
    ensures !Covers(spans, spans[i].End())
  {
    forall j | 0 <= j < |spans|
      ensures !spans[j].Has(spans[i].End())
    {
      if j < i {
        assert spans[j].End() < spans[i].start;
      } else if i < j {
        assert spans[i].End() < spans[j].start;
      }
    }
  }

  /** A hole-free stretch of bytes lies inside one span: why `contains_all` may look at the
      spans one at a time. */
  lemma {:induction false} SolidStretchIsOneSpan(spans: seq<Span>, lo: nat, hi: nat)
    requires Canonical(spans) && lo < hi
    requires forall p: nat :: lo <= p < hi ==> Covers(spans, p)
    ensures exists i :: 0 <= i < |spans| && spans[i].start <= lo && hi <= spans[i].End()
  {
    assert Covers(spans, lo);
    var i :| 0 <= i < |spans| && spans[i].Has(lo);
    if spans[i].End() < hi {
      HoleAfterSpan(spans, i);
    }
  }

  /** Two canonical lists with the same bytes start with the same span. */
  lemma SameFirstSpan(a: seq<Span>, b: seq<Span>)
    requires Canonical(a) && Canonical(b) && SameBytes(a, b)
    requires |a| > 0
    ensures |b| > 0 && a[0] == b[0]
  {
    assert a[0].Has(a[0].start);
    assert Covers(a, a[0].start);
    assert Covers(b, a[0].start);
    var j :| 0 <= j < |b| && b[j].Has(a[0].start);
    assert b[0].start <= a[0].start;
    assert b[0].Has(b[0].start);
    assert Covers(b, b[0].start);
    assert Covers(a, b[0].start);
    var i :| 0 <= i < |a| && a[i].Has(b[0].start);
    assert a[0].start <= b[0].start;
    SameFirstEnd(a, b);
    SameFirstEnd(b, a);
  }

  lemma SameFirstEnd(a: seq<Span>, b: seq<Span>)
    requires Canonical(a) && Canonical(b) && SameBytes(a, b)
    requires |a| > 0 && |b| > 0 && a[0].start == b[0].start
    ensures a[0].End() >= b[0].End()
  {
    if a[0].End() < b[0].End() {
      assert b[0].Has(a[0].End());
      assert Covers(a, a[0].End());
      HoleAfterSpan(a, 0);
    }
  }

  lemma CoversTail(spans: seq<Span>, p: nat)
    requires Canonical(spans) && |spans| > 0
    ensures Covers(spans[1..], p) <==> Covers(spans, p) && !spans[0].Has(p)
  {
    if Covers(spans[1..], p) {
      var i :| 0 <= i < |spans[1..]| && spans[1..][i].Has(p);
      assert spans[i + 1].Has(p);
      assert spans[0].End() < spans[i + 1].start;
    }
    if Covers(spans, p) && !spans[0].Has(p) {
      var i :| 0 <= i < |spans| && spans[i].Has(p);
      assert spans[1..][i - 1].Has(p);
    }
  }

  /** The representation is canonical: equal byte sets have equal representations. */
  lemma {:induction false} CanonicalIsUnique(a: seq<Span>, b: seq<Span>)
    requires Canonical(a) && Canonical(b) && SameBytes(a, b)
    ensures a == b
    decreases |a|
  {
    if |a| == 0 {
      if |b| > 0 {
        SameFirstSpan(b, a);
      }
    } else {
      SameFirstSpan(a, b);
      forall p: nat
        ensures Covers(a[1..], p) <==> Covers(b[1..], p)
      {
        CoversTail(a, p);
        CoversTail(b, p);
      }
      CanonicalIsUnique(a[1..], b[1..]);
      assert a == [a[0]] + a[1..];
      assert b == [b[0]] + b[1..];
    }
  }

  /** The holes of a window, together with what is covered inside it, are the whole window. */
  lemma {:induction false} GapsComplementCoverage(spans: seq<Span>, gaps: seq<Span>, lo: nat, hi: nat)
    requires lo <= hi && Ordered(gaps)
    requires forall p: nat :: Covers(gaps, p) <==> lo <= p < hi && !Covers(spans, p)
    ensures TotalLen(gaps) + |ByteSet(spans) * Window(lo, hi)| == hi - lo
  {
    var g, c, w := ByteSet(gaps), ByteSet(spans) * Window(lo, hi), Window(lo, hi);
    forall p: nat
      ensures p in g <==> p in w && p !in c
    {
      ByteSetCovers(gaps, p);
      ByteSetCovers(spans, p);
    }
    assert g + c == w && g !! c;
    WindowSize(lo, hi);
    TotalIsCardinality(gaps);
  }

  /** `contains_all` over a window holds exactly when the window has no gaps. */
  lemma NoGapsIffCovered(spans: seq<Span>, gaps: seq<Span>, lo: nat, hi: nat)
    requires Ordered(gaps)
    requires forall p: nat :: Covers(gaps, p) <==> lo <= p < hi && !Covers(spans, p)
    ensures gaps == [] <==> forall p: nat :: lo <= p < hi ==> Covers(spans, p)
  {
    if |gaps| > 0 {
      assert gaps[0].Has(gaps[0].start);
      assert Covers(gaps, gaps[0].start);
    }
    if gaps == [] {
      forall p: nat | lo <= p < hi
        ensures Covers(spans, p)
      {
        assert !Covers(gaps, p);
      }
    }
  }

  // Steps shared by the loops that rebuild a list of spans.

  lemma PushSpan(out: seq<Span>, s: Span)
    ensures forall p: nat :: Covers(out + [s], p) <==> Covers(out, p) || s.Has(p)
    ensures Canonical(out) && s.len > 0 && (|out| > 0 ==> out[|out| - 1].End() < s.start) ==> Canonical(out + [s])
    ensures Ordered(out) && s.len > 0 && (|out| > 0 ==> out[|out| - 1].End() <= s.start) ==> Ordered(out + [s])
  {
    forall p: nat
      ensures Covers(out + [s], p) <==> Covers(out, p) || s.Has(p)
    {
      CoversSplit(out, s, p);
    }
  }

  lemma NextSpan(spans: seq<Span>, i: nat)
    requires i < |spans|
    ensures forall p: nat :: Covers(spans[..i + 1], p) <==> Covers(spans[..i], p) || spans[i].Has(p)
  {
    assert spans[..i] + [spans[i]] == spans[..i + 1];
    PushSpan(spans[..i], spans[i]);
  }
}
