/** Where the verification windows go (identity.rs): positions are counted over covered bytes
    only and then located in the file. */
module Windows {
  import opened Common
  import opened Spans
  import opened RangeSets

  const WINDOW: nat := 64 * 1024

  // ----- counting covered bytes -----

  /** Where a position past the end is put. */
  function LastByte(spans: seq<Span>): nat {
    if |spans| == 0 then 0
    else if spans[|spans| - 1].len == 0 then spans[|spans| - 1].start
    else spans[|spans| - 1].End() - 1
  }

  /** The file offset of the covered byte number `logical`. */
  function Locate(spans: seq<Span>, logical: nat): nat {
    if |spans| == 0 then 0
    else if logical < spans[0].len then spans[0].start + logical
    else if |spans| == 1 then LastByte(spans)
    else Locate(spans[1..], logical - spans[0].len)
  }

  /** How many covered bytes lie below `p`. */
  function Rank(spans: seq<Span>, p: nat): nat {
    if |spans| == 0 then 0
    else
      var last := spans[|spans| - 1];
      Rank(spans[..|spans| - 1], p) + Min(last.len, if p >= last.start then p - last.start else 0)
  }

  lemma {:induction false} RankConcat(a: seq<Span>, b: seq<Span>, p: nat)
    ensures Rank(a + b, p) == Rank(a, p) + Rank(b, p)
  {
    if |b| == 0 {
      assert a + b == a;
    } else {
      RankConcat(a, b[..|b| - 1], p);
      assert (a + b)[..|a + b| - 1] == a + b[..|b| - 1];
    }
  }

  lemma SplitHead(spans: seq<Span>, p: nat)
    requires |spans| > 0
    ensures TotalLen(spans) == spans[0].len + TotalLen(spans[1..])
    ensures Rank(spans, p) == Rank([spans[0]], p) + Rank(spans[1..], p)
    ensures Rank([spans[0]], p) == Min(spans[0].len, if p >= spans[0].start then p - spans[0].start else 0)
  {
    assert spans == [spans[0]] + spans[1..];
    TotalConcat([spans[0]], spans[1..]);
    RankConcat([spans[0]], spans[1..], p);
    assert [spans[0]][..0] == [];
  }

  lemma {:induction false} RankGrows(spans: seq<Span>, p: nat, q: nat)
    requires p <= q
    ensures Rank(spans, p) <= Rank(spans, q) <= TotalLen(spans)
  {
    if |spans| > 0 {
      RankGrows(spans[..|spans| - 1], p, q);
    }
  }

  lemma {:induction false} NothingBelow(spans: seq<Span>, p: nat)
    requires forall i :: 0 <= i < |spans| ==> p <= spans[i].start
    ensures Rank(spans, p) == 0
  {
    if |spans| > 0 {
      NothingBelow(spans[..|spans| - 1], p);
    }
  }

  /** A byte of a later span has the whole first span below it, and is not in it. */
  lemma BeyondHead(spans: seq<Span>, p: nat)
    requires Canonical(spans) && |spans| > 0 && Covers(spans[1..], p)
    ensures Covers(spans, p) && !spans[0].Has(p)
    ensures Rank(spans, p) == spans[0].len + Rank(spans[1..], p)
  {
    SplitHead(spans, p);
    var i :| 0 <= i < |spans[1..]| && spans[1..][i].Has(p);
    assert spans[i + 1].Has(p) && spans[0].End() < spans[i + 1].start;
  }

  lemma InHead(spans: seq<Span>, p: nat)
    requires Canonical(spans) && |spans| > 0 && spans[0].Has(p)
    ensures Covers(spans, p) && Rank(spans, p) == p - spans[0].start
  {
    SplitHead(spans, p);
    NothingBelow(spans[1..], p);
  }

  lemma CanonicalTail(spans: seq<Span>)
    requires Canonical(spans) && |spans| > 0
    ensures Canonical(spans[1..]) && spans[0].len > 0
    ensures TotalLen(spans) == spans[0].len + TotalLen(spans[1..])
    ensures |spans| == 1 ==> TotalLen(spans) == spans[0].len
  {
    SplitHead(spans, 0);
  }

  /** `Locate` finds a covered byte, and as many covered bytes lie below it as asked. */
  lemma {:induction false} LocateFinds(spans: seq<Span>, l: nat)
    requires Canonical(spans) && l < TotalLen(spans)
    ensures Covers(spans, Locate(spans, l)) && Rank(spans, Locate(spans, l)) == l
    decreases |spans|
  {
    hide Rank, Covers, Canonical;
    if |spans| > 0 {
      CanonicalTail(spans);
      if l < spans[0].len {
        InHead(spans, spans[0].start + l);
      } else {
        LocateFinds(spans[1..], l - spans[0].len);
        BeyondHead(spans, Locate(spans[1..], l - spans[0].len));
      }
    }
  }

  /** Every covered byte is located by its rank. */
  lemma {:induction false} RankLocates(spans: seq<Span>, p: nat)
    requires Canonical(spans) && Covers(spans, p)
    ensures Rank(spans, p) < TotalLen(spans) && Locate(spans, Rank(spans, p)) == p
    decreases |spans|
  {
    hide Rank, Covers, Canonical;
    SomeSpan(spans, p);
    CanonicalTail(spans);
    if spans[0].Has(p) {
      InHead(spans, p);
    } else {
      CoversTail(spans, p);
      RankLocates(spans[1..], p);
      BeyondHead(spans, p);
    }
  }

  lemma SomeSpan(spans: seq<Span>, p: nat)
    requires Covers(spans, p)
    ensures |spans| > 0
  {
  }

  /** `Locate` keeps order: with the two lemmas above, an order isomorphism onto the covered
      bytes. */
  lemma LocateGrows(spans: seq<Span>, l: nat, m: nat)
    requires Canonical(spans) && l < m < TotalLen(spans)
    ensures Locate(spans, l) < Locate(spans, m)
  {
    LocateFinds(spans, l);
    LocateFinds(spans, m);
    if Locate(spans, m) <= Locate(spans, l) {
      RankGrows(spans, Locate(spans, m), Locate(spans, l));
    }
  }

  function PartBelow(s: Span, p: nat): nat {
    Min(s.len, if p >= s.start then p - s.start else 0)
  }

  lemma PartOfSpan(s: Span, p: nat)
    ensures Window(s.start, s.End()) * Window(0, p) == Window(s.start, s.start + PartBelow(s, p))
    ensures |Window(s.start, s.start + PartBelow(s, p))| == PartBelow(s, p)
  {
    hide Window;
    WindowSize(s.start, s.start + PartBelow(s, p));
    forall q
      ensures q in Window(s.start, s.End()) * Window(0, p) <==> q in Window(s.start, s.start + PartBelow(s, p))
    {
    }
  }

  lemma DisjointParts(a: set<nat>, b: set<nat>, w: set<nat>)
    requires a !! b
    ensures |(a + b) * w| == |a * w| + |b * w|
  {
    assert (a + b) * w == a * w + b * w;
  }

  lemma ByteSetStep(rest: seq<Span>, last: Span)
    ensures ByteSet(rest + [last]) == ByteSet(rest) + Window(last.start, last.End())
  {
    assert (rest + [last])[..|rest|] == rest;
  }

  lemma RankStepLast(rest: seq<Span>, last: Span, p: nat)
    ensures Rank(rest + [last], p) == Rank(rest, p) + PartBelow(last, p)
  {
    assert (rest + [last])[..|rest|] == rest;
  }

  /** The rank is a count. */
  lemma {:induction false} RankCounts(spans: seq<Span>, p: nat)
    requires Ordered(spans)
    ensures |ByteSet(spans) * Window(0, p)| == Rank(spans, p)
    decreases |spans|, 0
  {
    hide Window;
    if |spans| == 0 {
      assert ByteSet(spans) * Window(0, p) == {};
    } else {
      var rest, last := spans[..|spans| - 1], spans[|spans| - 1];
      assert rest + [last] == spans;
      RankStepCounts(rest, last, p);
    }
  }

  lemma {:induction false} RankStepCounts(rest: seq<Span>, last: Span, p: nat)
    requires Ordered(rest + [last])
    ensures |ByteSet(rest + [last]) * Window(0, p)| == Rank(rest + [last], p)
    decreases |rest|, 1
  {
    hide ByteSet, Rank, Window, PartBelow, Ordered;
    OrderedPrefix(rest, last);
    RankCounts(rest, p);
    PartOfSpan(last, p);
    LastIsApart(rest, last);
    ByteSetStep(rest, last);
    RankStepLast(rest, last, p);
    DisjointParts(ByteSet(rest), Window(last.start, last.End()), Window(0, p));
  }

  lemma OrderedPrefix(rest: seq<Span>, last: Span)
    requires Ordered(rest + [last])
    ensures Ordered(rest)
  {
    var all := rest + [last];
    assert forall i :: 0 <= i < |rest| ==> all[i] == rest[i];
  }

  lemma LastIsApart(rest: seq<Span>, last: Span)
    requires Ordered(rest + [last])
    ensures ByteSet(rest) !! Window(last.start, last.End())
  {
    forall p | p in ByteSet(rest)
      ensures p !in Window(last.start, last.End())
    {
      ByteSetCovers(rest, p);
      var i :| 0 <= i < |rest| && rest[i].Has(p);
      assert (rest + [last])[i].End() <= (rest + [last])[|rest|].start;
    }
  }

  /** The covered bytes at or after `p`. */
  ghost function FromOn(spans: seq<Span>, p: nat): set<nat> {
    ByteSet(spans) - Window(0, p)
  }

  lemma CountFrom(spans: seq<Span>, p: nat)
    requires Ordered(spans)
    ensures |FromOn(spans, p)| == TotalLen(spans) - Rank(spans, p)
  {
    RankCounts(spans, p);
    TotalIsCardinality(spans);
    var s, w := ByteSet(spans), Window(0, p);
    assert s == (s * w) + (s - w);
    assert (s * w) !! (s - w);
  }

  /** How many covered bytes lie in `[p, q)`. */
  ghost function Count(spans: seq<Span>, p: nat, q: nat): nat {
    |ByteSet(spans) * Window(p, q)|
  }

  lemma CountIs(spans: seq<Span>, p: nat, q: nat)
    requires Ordered(spans) && p <= q
    ensures Count(spans, p, q) == Rank(spans, q) - Rank(spans, p)
  {
    RankCounts(spans, p);
    RankCounts(spans, q);
    var s := ByteSet(spans);
    assert s * Window(0, q) == s * Window(0, p) + s * Window(p, q);
    assert (s * Window(0, p)) !! (s * Window(p, q));
  }

  ghost predicate Solid(spans: seq<Span>, p: nat, q: nat) {
    forall x: nat :: p <= x < q ==> Covers(spans, x)
  }

  lemma FullCountIsSolid(spans: seq<Span>, p: nat, q: nat)
    requires p <= q
    ensures Count(spans, p, q) == q - p <==> Solid(spans, p, q)
  {
    var s, w := ByteSet(spans), Window(p, q);
    WindowSize(p, q);
    SubsetCount(s * w, w);
    forall x: nat | p <= x < q
      ensures x in s <==> Covers(spans, x)
    {
      ByteSetCovers(spans, x);
    }
    if Solid(spans, p, q) {
      assert s * w == w;
    }
    if s * w == w {
      forall x: nat | p <= x < q
        ensures Covers(spans, x)
      {
        assert x in w;
      }
    }
  }

  lemma SubsetCount(a: set<nat>, b: set<nat>)
    requires a <= b
    ensures |a| <= |b|
    ensures |a| == |b| ==> a == b
  {
    assert b == a + (b - a);
  }

  // ----- choosing -----

  /** A position from which a whole window of covered bytes is left. */
  ghost predicate RoomFor(spans: seq<Span>, p: nat, win: nat) {
    exists l: nat :: l + win <= TotalLen(spans) && p == Locate(spans, l)
  }

  /** The picks before sorting: the first covered byte, the last one with room for a window, and
      drawn ones in between. */
  ghost predicate Picked(spans: seq<Span>, draw: nat -> nat, count: nat, p: nat) {
    var total := TotalLen(spans);
    var win := Min(WINDOW, total);
    || p == Locate(spans, 0)
    || (total > win && p == Locate(spans, total - win))
    || (total > win && exists i :: 0 <= i && i + 2 < count && p == Locate(spans, draw(i) % (total - win)))
  }

  /** The picks by what lies below them: nothing; all but a window's worth; or a drawn number of
      covered bytes short of that. */
  lemma PickedByWhatIsBelow(spans: seq<Span>, draw: nat -> nat, count: nat, p: nat)
    requires Canonical(spans) && TotalLen(spans) > 0
    ensures var total, below := TotalLen(spans), |ByteSet(spans) * Window(0, p)|;
      var win := Min(64 * 1024, total);
      Picked(spans, draw, count, p) <==>
        Covers(spans, p) &&
        (below == 0 || (total > win && (below == total - win || exists i: nat :: i + 2 < count && below == draw(i) % (total - win))))
  {
    hide Locate, Rank, TotalLen, ByteSet, Covers, Window, Canonical;
    CanonicalIsOrdered(spans);
    RankCounts(spans, p);
    var total := TotalLen(spans);
    var win := Min(WINDOW, total);
    LocatedIff(spans, p, 0);
    if total > win {
      LocatedIff(spans, p, total - win);
      forall i: nat
        ensures p == Locate(spans, draw(i) % (total - win)) <==> Covers(spans, p) && Rank(spans, p) == draw(i) % (total - win)
      {
        LocatedIff(spans, p, draw(i) % (total - win));
      }
    }
  }

  lemma LocatedIff(spans: seq<Span>, p: nat, l: nat)
    requires Canonical(spans) && l < TotalLen(spans)
    ensures p == Locate(spans, l) <==> Covers(spans, p) && Rank(spans, p) == l
  {
    hide Locate, Rank, TotalLen, Covers;
    LocateFinds(spans, l);
    if Covers(spans, p) {
      RankLocates(spans, p);
    }
  }

  ghost predicate StrictlyIncreasing(s: seq<nat>) {
    forall i, j :: 0 <= i < j < |s| ==> s[i] < s[j]
  }

  /** Sorting and dropping repetitions. */
  method SortDedup(picks: seq<nat>) returns (r: seq<nat>)
    ensures StrictlyIncreasing(r)
    ensures forall p :: p in r <==> p in picks
    ensures |r| <= |picks|
  {
    r := [];
    for i := 0 to |picks|
      invariant StrictlyIncreasing(r) && |r| <= i
      invariant forall p :: p in r <==> p in picks[..i]
    {
      assert picks[..i + 1] == picks[..i] + [picks[i]];
      r := InsertNew(r, picks[i]);
    }
    assert picks[..|picks|] == picks;
  }

  method InsertNew(s: seq<nat>, p: nat) returns (r: seq<nat>)
    requires StrictlyIncreasing(s)
    ensures StrictlyIncreasing(r)
    ensures forall q :: q in r <==> q in s || q == p
    ensures |r| <= |s| + 1
  {
    var i: nat := 0;
    while i < |s| && s[i] < p
      invariant i <= |s|
      invariant forall j :: 0 <= j < i ==> s[j] < p
    {
      i := i + 1;
    }
    if i < |s| && s[i] == p {
      return s;
    }
    r := s[..i] + [p] + s[i..];
    InsertedHere(s, i, p);
  }

  lemma InsertedHere(s: seq<nat>, i: nat, p: nat)
    requires StrictlyIncreasing(s) && i <= |s|
    requires forall j :: 0 <= j < i ==> s[j] < p
    requires i < |s| ==> p < s[i]
    ensures StrictlyIncreasing(s[..i] + [p] + s[i..])
    ensures forall q :: q in s[..i] + [p] + s[i..] <==> q in s || q == p
  {
    assert s == s[..i] + s[i..];
    forall j | i <= j < |s|
      ensures p < s[j]
    {
      assert i < j ==> s[i] < s[j];
    }
  }

  method LocateIn(spans: seq<Span>, logical: nat) returns (p: nat)
    ensures p == Locate(spans, logical)
  {
    var left: nat := logical;
    for i := 0 to |spans|
      invariant i < |spans| ==> Locate(spans, logical) == Locate(spans[i..], left)
      invariant i == |spans| ==> Locate(spans, logical) == LastByte(spans)
    {
      if left < spans[i].len {
        return spans[i].start + left;
      }
      left := left - spans[i].len;
      assert spans[i..][1..] == spans[i + 1..];
      assert i == |spans| - 1 ==> spans[i..] == [spans[i]];
    }
    p := LastByte(spans);
  }

  /** `draw(n)` is the n-th number drawn from the hash chain. */
  method ChooseStarts(spans: seq<Span>, draw: nat -> nat, count: nat) returns (starts: seq<nat>)
    requires TotalLen(spans) > 0
    ensures StrictlyIncreasing(starts) && |starts| <= Max(count, 2)
    ensures forall p :: p in starts <==> Picked(spans, draw, count, p)
  {
    var total := TotalLen(spans);
    var win := Min(WINDOW, total);
    var first := LocateIn(spans, 0);
    var picks := [first];
    if total > win {
      var last := LocateIn(spans, total - win);
      picks := picks + [last];
    }
    var n: nat := 0;
    while |picks| < count && total > win
      invariant total > win ==> |picks| == n + 2 && (n > 0 ==> n + 2 <= count)
      invariant total <= win ==> |picks| == 1 && n == 0
      invariant forall p :: p in picks <==>
        p == first || (total > win && p == Locate(spans, total - win))
        || (total > win && exists i :: 0 <= i < n && p == Locate(spans, draw(i) % (total - win)))
      decreases count - |picks|
    {
      var next := LocateIn(spans, draw(n) % (total - win));
      picks := picks + [next];
      n := n + 1;
    }
    starts := SortDedup(picks);
  }

  method ChooseWindows(completed: RangeSet, draw: nat -> nat, count: nat) returns (windows: seq<Span>)
    requires completed.Valid()
    ensures windows == [] <==> completed.Total() == 0
    ensures |windows| <= Max(count, 2)
    ensures forall i :: 0 <= i < |windows| ==> windows[i].len == Min(WINDOW, completed.Total())
    ensures forall i, j :: 0 <= i < j < |windows| ==> windows[i].start < windows[j].start
    ensures forall i :: 0 <= i < |windows| ==> Picked(completed.spans, draw, count, windows[i].start)
    ensures forall p: nat :: completed.Total() > 0 && Picked(completed.spans, draw, count, p) ==>
      exists i :: 0 <= i < |windows| && windows[i].start == p
  {
    var total := completed.Total();
    if total == 0 {
      return [];
    }
    var win := Min(WINDOW, total);
    var starts := ChooseStarts(completed.spans, draw, count);
    windows := seq(|starts|, i requires 0 <= i < |starts| => Span(starts[i], win));
    assert Picked(completed.spans, draw, count, Locate(completed.spans, 0));
    forall p: nat | Picked(completed.spans, draw, count, p)
      ensures exists i :: 0 <= i < |windows| && windows[i].start == p
    {
      var i :| 0 <= i < |starts| && starts[i] == p;
      assert windows[i].start == p;
    }
  }

  // ----- what the windows are good for -----

  lemma PickedHasRoom(spans: seq<Span>, draw: nat -> nat, count: nat, p: nat)
    requires TotalLen(spans) > 0 && Picked(spans, draw, count, p)
    ensures RoomFor(spans, p, Min(WINDOW, TotalLen(spans)))
  {
    var total := TotalLen(spans);
    var win := Min(WINDOW, total);
    if p == Locate(spans, 0) {
      assert 0 + win <= total;
    } else if p == Locate(spans, total - win) {
      assert (total - win) + win <= total;
    } else {
      var i :| 0 <= i && i + 2 < count && p == Locate(spans, draw(i) % (total - win));
      assert draw(i) % (total - win) + win <= total;
    }
  }

  /** Every window starts at a covered byte and ends within the covered extent; no covered byte
      lies before the first pick and exactly a window's worth lies from the last one on. */
  lemma WindowsAreUseful(spans: seq<Span>, draw: nat -> nat, count: nat, p: nat, extent: nat)
    requires Canonical(spans) && TotalLen(spans) > 0 && Picked(spans, draw, count, p)
    requires forall q: nat :: Covers(spans, q) ==> q < extent
    ensures var win := Min(WINDOW, TotalLen(spans));
      && Covers(spans, p) && p + win <= extent
      && Locate(spans, 0) <= p <= Locate(spans, TotalLen(spans) - win)
      && (forall q: nat :: Covers(spans, q) ==> Locate(spans, 0) <= q)
      && |FromOn(spans, Locate(spans, TotalLen(spans) - win))| == win
  {
    hide Rank, Locate, ByteSet, TotalLen, Window, Canonical, Ordered, Covers, Picked, FromOn;
    PickedHasRoom(spans, draw, count, p);
    CanonicalIsOrdered(spans);
    var total := TotalLen(spans);
    var win := Min(WINDOW, total);
    var l: nat :| l + win <= total && p == Locate(spans, l);
    LocateFinds(spans, l);
    if l > 0 {
      LocateGrows(spans, 0, l);
    }
    if l < total - win {
      LocateGrows(spans, l, total - win);
    }
    LocateFinds(spans, total - win);
    CountFrom(spans, Locate(spans, total - win));
    FitsBelow(spans, p, win, extent);
    forall q: nat | Covers(spans, q)
      ensures Locate(spans, 0) <= q
    {
      FirstIsLeast(spans, q);
    }
  }

  lemma FirstIsLeast(spans: seq<Span>, q: nat)
    requires Canonical(spans) && Covers(spans, q)
    ensures Locate(spans, 0) <= q
  {
    RankLocates(spans, q);
    if Rank(spans, q) > 0 {
      LocateGrows(spans, 0, Rank(spans, q));
    }
  }

  lemma FitsBelow(spans: seq<Span>, p: nat, win: nat, extent: nat)
    requires Canonical(spans) && Rank(spans, p) + win <= TotalLen(spans)
    requires forall q: nat :: Covers(spans, q) ==> q < extent
    requires p <= extent
    ensures p + win <= extent
  {
    CountFrom(spans, p);
    WindowSize(p, extent);
    forall q | q in FromOn(spans, p)
      ensures q in Window(p, extent)
    {
      ByteSetCovers(spans, q);
    }
    SubsetCount(FromOn(spans, p), Window(p, extent));
  }

  /** A window holds downloaded bytes only, exactly when its last byte is as many covered bytes
      ahead as it is bytes ahead; with holes in between it reaches into them. */
  lemma WindowIsSolidIff(spans: seq<Span>, l: nat, win: nat)
    requires Canonical(spans) && win > 0 && l + win <= TotalLen(spans)
    ensures Solid(spans, Locate(spans, l), Locate(spans, l) + win) <==>
      Locate(spans, l + win - 1) == Locate(spans, l) + win - 1
  {
    hide Rank, Locate, TotalLen, Canonical, Covers, Solid;
    var p := Locate(spans, l);
    LocateFinds(spans, l);
    if Solid(spans, p, p + win) {
      SolidAdvances(spans, p, win - 1);
    }
    if Locate(spans, l + win - 1) == p + win - 1 {
      AdvancesSolid(spans, l, win);
    }
  }

  lemma CanonicalIsOrdered(spans: seq<Span>)
    requires Canonical(spans)
    ensures Ordered(spans)
  {
  }

  lemma SolidPart(spans: seq<Span>, p: nat, q: nat)
    requires p <= q && Solid(spans, p, q + 1)
    ensures Covers(spans, q) && Solid(spans, p, q)
  {
    hide Covers;
  }

  lemma OneIsSolid(spans: seq<Span>, p: nat)
    requires Covers(spans, p)
    ensures Solid(spans, p, p + 1)
  {
    hide Covers;
  }

  /** Over covered bytes the rank advances byte by byte. */
  lemma SolidAdvances(spans: seq<Span>, p: nat, n: nat)
    requires Canonical(spans) && Solid(spans, p, p + n + 1)
    ensures Locate(spans, Rank(spans, p) + n) == p + n
  {
    hide Rank, Locate, ByteSet, TotalLen, Window, Canonical, Ordered, Covers, Count, Solid;
    CanonicalIsOrdered(spans);
    SolidPart(spans, p, p + n);
    CountIs(spans, p, p + n);
    FullCountIsSolid(spans, p, p + n);
    RankLocates(spans, p + n);
  }

  lemma AdvancesSolid(spans: seq<Span>, l: nat, win: nat)
    requires Canonical(spans) && win > 0 && l + win <= TotalLen(spans)
    requires Locate(spans, l + win - 1) == Locate(spans, l) + win - 1
    ensures Solid(spans, Locate(spans, l), Locate(spans, l) + win)
  {
    hide Rank, Locate, ByteSet, TotalLen, Window, Canonical, Ordered, Covers, Count, Solid;
    CanonicalIsOrdered(spans);
    var p := Locate(spans, l);
    LocateFinds(spans, l);
    LocateFinds(spans, l + win - 1);
    RankStep(spans, p + win - 1);
    CountIs(spans, p, p + win);
    FullCountIsSolid(spans, p, p + win);
  }

  lemma RankStep(spans: seq<Span>, p: nat)
    requires Ordered(spans) && Covers(spans, p)
    ensures Rank(spans, p + 1) == Rank(spans, p) + 1
  {
    hide Rank, ByteSet, Window, Ordered, Covers, Count, Solid;
    OneIsSolid(spans, p);
    CountIs(spans, p, p + 1);
    FullCountIsSolid(spans, p, p + 1);
  }

  /** With a single span every window lies inside it. */
  lemma OneSpanWindowsAreSolid(span: Span, draw: nat -> nat, count: nat, p: nat)
    requires span.len > 0 && Picked([span], draw, count, p)
    ensures span.start <= p && p + Min(WINDOW, span.len) <= span.End()
  {
    var spans := [span];
    assert spans[..0] == [];
    assert TotalLen(spans) == span.len;
    forall q: nat | Covers(spans, q)
      ensures span.start <= q < span.End()
    {
    }
    WindowsAreUseful(spans, draw, count, p, span.End());
  }

  /** With several spans they need not: two spans a byte apart. */
  lemma WindowsMayStraddleHoles() returns (spans: seq<Span>)
    ensures Spans.Valid(spans) && TotalLen(spans) > 0
    ensures !Solid(spans, Locate(spans, 0), Locate(spans, 0) + Min(WINDOW, TotalLen(spans)))
  {
    spans := [Span(0, 1), Span(2, 1)];
    assert spans[..1] == [Span(0, 1)] && [Span(0, 1)][..0] == [];
    assert TotalLen(spans) == 2;
    assert !Covers(spans, 1);
    assert Locate(spans, 0) == 0;
  }
}
