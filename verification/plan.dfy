/** Work allocation (plan.rs): a list of unclaimed gaps and the live claims of the workers.
    Values first, then the class that is updated in place. */
module Plans {
  import opened Spans
  import opened RangeSets

  const MIN_SEGMENT: nat := 2 * 1024 * 1024
  const SPLIT_ALIGN: nat := 1024 * 1024

  /** Round up to the split boundary. */
  function AlignUp(v: nat): (r: nat)
    ensures v <= r < v + SPLIT_ALIGN && r % SPLIT_ALIGN == 0
  {
    ((v + SPLIT_ALIGN - 1) / SPLIT_ALIGN) * SPLIT_ALIGN
  }

  /** Index of the largest key, the last one if several are equal (`max_by_key`). */
  function LastMax(keys: seq<nat>): (m: nat)
    requires |keys| > 0
    ensures m < |keys|
    ensures forall j :: 0 <= j < |keys| ==> keys[j] <= keys[m]
    ensures forall j :: m < j < |keys| ==> keys[j] < keys[m]
  {
    var n := |keys| - 1;
    if n == 0 then 0
    else
      var m := LastMax(keys[..n]);
      assert forall j :: 0 <= j < n ==> keys[..n][j] == keys[j];
      if keys[n] >= keys[m] then n else m
  }

  function Lengths(free: seq<Span>): (r: seq<nat>)
    ensures |r| == |free|
    ensures forall i :: 0 <= i < |free| ==> r[i] == free[i].len
  {
    seq(|free|, i requires 0 <= i < |free| => free[i].len)
  }

  // ----- values -----

  /** What a worker still has to fetch. */
  datatype Claim = Claim(cursor: nat, end: nat, active: bool) {
    function Remaining(): nat {
      if end > cursor then end - cursor else 0
    }

    predicate Holds(p: nat) {
      active && cursor <= p < end
    }
  }

  datatype PlanState = PlanState(free: seq<Span>, claims: seq<Claim>)
  datatype Grant = Granted(start: nat, end: nat) | Exhausted

  /** The active claim with the most left to fetch, the last one if several are equal. */
  function Victim(claims: seq<Claim>): (v: int)
    ensures -1 <= v < |claims|
    ensures v == -1 <==> forall i :: 0 <= i < |claims| ==> !claims[i].active
    ensures v >= 0 ==> claims[v].active
    ensures v >= 0 ==> forall i :: 0 <= i < |claims| && claims[i].active ==> claims[i].Remaining() <= claims[v].Remaining()
    ensures v >= 0 ==> forall i :: v < i < |claims| && claims[i].active ==> claims[i].Remaining() < claims[v].Remaining()
  {
    if |claims| == 0 then -1
    else
      var n := |claims| - 1;
      var v := Victim(claims[..n]);
      assert forall j :: 0 <= j < n ==> claims[..n][j] == claims[j];
      if claims[n].active && (v == -1 || claims[n].Remaining() >= claims[v].Remaining()) then n else v
  }

  /** Where a claim with `remaining` bytes left at `cursor` would be cut. */
  function SplitPoint(cursor: nat, remaining: nat): nat {
    AlignUp(cursor + remaining / 2)
  }

  /** One undisturbed request for work. */
  function Requested(s: PlanState): (PlanState, Grant) {
    if |s.free| > 0 then
      var i := LastMax(Lengths(s.free));
      var g := s.free[i];
      (PlanState(s.free[..i] + s.free[i + 1..], s.claims + [Claim(g.start, g.End(), true)]), Granted(g.start, g.End()))
    else
      var v := Victim(s.claims);
      if v == -1 || s.claims[v].Remaining() < 2 * MIN_SEGMENT then (s, Exhausted)
      else
        var c := s.claims[v];
        var split := SplitPoint(c.cursor, c.Remaining());
        if split <= c.cursor || split >= c.end then (s, Exhausted)
        else
          (s.(claims := s.claims[v := c.(end := split)] + [Claim(split, c.end, true)]), Granted(split, c.end))
  }

  /** Some active claim holds byte `p`. */
  ghost predicate Claimed(claims: seq<Claim>, p: nat) {
    exists i :: 0 <= i < |claims| && claims[i].Holds(p)
  }

  /** Byte `p` is still to be fetched. */
  ghost predicate Pending(s: PlanState, p: nat) {
    Covers(s.free, p) || Claimed(s.claims, p)
  }

  /** No byte is planned twice. */
  ghost predicate Disjoint(s: PlanState) {
    && Ordered(s.free)
    && (forall i, p: nat :: 0 <= i < |s.claims| && s.claims[i].Holds(p) ==> !Covers(s.free, p))
    && (forall i, j, p: nat :: 0 <= i < j < |s.claims| && s.claims[i].Holds(p) ==> !s.claims[j].Holds(p))
  }

  /** Bytes the active claims still hold. */
  function Held(claims: seq<Claim>): nat {
    if |claims| == 0 then 0
    else
      var c := claims[|claims| - 1];
      Held(claims[..|claims| - 1]) + if c.active then c.Remaining() else 0
  }

  function Outstanding(s: PlanState): nat {
    TotalLen(s.free) + Held(s.claims)
  }

  // ----- what a request does -----

  /** The range is a free gap, none is longer and none after it as long; it is no longer free. */
  ghost predicate TakesLargest(was: seq<Span>, start: nat, end: nat, now: seq<Span>) {
    exists i: nat :: i < |was| && TakesGap(was, i, start, end, now)
  }

  ghost predicate TakesGap(was: seq<Span>, i: nat, start: nat, end: nat, now: seq<Span>)
    requires i < |was|
  {
    && start == was[i].start && end == was[i].End() && now == was[..i] + was[i + 1..]
    && (forall j :: 0 <= j < |was| ==> was[j].len <= was[i].len)
    && (forall j :: i < j < |was| ==> was[j].len < was[i].len)
  }

  /** With something free a request takes the largest gap, the last one if several are as large,
      and leaves every claim alone. */
  lemma LargestGapGoesFirst(s: PlanState)
    requires s.free != []
    ensures Requested(s).1.Granted?
    ensures var (t, g) := Requested(s);
      && TakesLargest(s.free, g.start, g.end, t.free)
      && t.claims == s.claims + [Claim(g.start, g.end, true)]
  {
    var i := LastMax(Lengths(s.free));
    assert Lengths(s.free)[i] == s.free[i].len;
    forall j | 0 <= j < |s.free|
      ensures s.free[j].len <= s.free[i].len && (i < j ==> s.free[j].len < s.free[i].len)
    {
      assert Lengths(s.free)[j] == s.free[j].len;
    }
    var (t, g) := Requested(s);
    assert TakesGap(s.free, i, g.start, g.end, t.free);
  }

  lemma RemovedAt(free: seq<Span>, i: nat)
    requires i < |free|
    ensures forall p: nat :: Covers(free, p) <==> Covers(free[..i] + free[i + 1..], p) || free[i].Has(p)
  {
    forall p: nat
      ensures Covers(free, p) <==> Covers(free[..i] + free[i + 1..], p) || free[i].Has(p)
    {
      assert free[..i] + [free[i]] + free[i + 1..] == free;
      CoversConcat(free[..i] + [free[i]], free[i + 1..], p);
      CoversSplit(free[..i], free[i], p);
      CoversConcat(free[..i], free[i + 1..], p);
    }
  }

  lemma OrderedSpansAreDisjoint(free: seq<Span>, i: nat, p: nat)
    requires Ordered(free) && i < |free| && free[i].Has(p)
    ensures Ordered(free[..i] + free[i + 1..])
    ensures !Covers(free[..i] + free[i + 1..], p)
  {
    var rest := free[..i] + free[i + 1..];
    forall k | 0 <= k < |rest|
      ensures !rest[k].Has(p)
    {
      var j := if k < i then k else k + 1;
      assert rest[k] == free[j];
      if j < i {
        assert free[j].End() <= free[i].start;
      } else {
        assert free[i].End() <= free[j].start;
      }
    }
  }

  lemma NewClaim(claims: seq<Claim>, c: Claim, p: nat)
    ensures Claimed(claims + [c], p) <==> Claimed(claims, p) || c.Holds(p)
  {
    var all := claims + [c];
    if i :| 0 <= i < |claims| && claims[i].Holds(p) {
      assert all[i].Holds(p);
    }
    if c.Holds(p) {
      assert all[|claims|].Holds(p);
    }
  }

  /** An undisturbed request moves work about without losing or inventing any. */
  lemma RequestKeepsBytes(s: PlanState, p: nat)
    ensures Pending(Requested(s).0, p) <==> Pending(s, p)
  {
    var (t, g) := Requested(s);
    if |s.free| > 0 {
      var i := LastMax(Lengths(s.free));
      RemovedAt(s.free, i);
      NewClaim(s.claims, Claim(s.free[i].start, s.free[i].End(), true), p);
    } else if g.Granted? {
      var v := Victim(s.claims);
      var c := s.claims[v];
      var cut := s.claims[v := c.(end := g.start)];
      NewClaim(cut, Claim(g.start, g.end, true), p);
      if i :| 0 <= i < |cut| && cut[i].Holds(p) {
        assert s.claims[i].Holds(p);
      }
      if i :| 0 <= i < |s.claims| && s.claims[i].Holds(p) {
        assert cut[i].Holds(p) || Claim(g.start, g.end, true).Holds(p);
      }
      if Claim(g.start, g.end, true).Holds(p) {
        assert s.claims[v].Holds(p);
      }
    }
  }

  /** And keeps the plan free of overlap. */
  lemma TakingAGapKeepsDisjoint(s: PlanState, i: nat)
    requires Disjoint(s) && i < |s.free|
    ensures Disjoint(PlanState(s.free[..i] + s.free[i + 1..], s.claims + [Claim(s.free[i].start, s.free[i].End(), true)]))
  {
    var rest, c := s.free[..i] + s.free[i + 1..], Claim(s.free[i].start, s.free[i].End(), true);
    RemovedAt(s.free, i);
    assert s.free[i].Has(s.free[i].start);
    OrderedSpansAreDisjoint(s.free, i, s.free[i].start);
    forall p: nat | c.Holds(p)
      ensures !Covers(rest, p)
      ensures Covers(s.free, p)
    {
      assert s.free[i].Has(p);
      OrderedSpansAreDisjoint(s.free, i, p);
    }
    forall k, p: nat | 0 <= k < |s.claims| && s.claims[k].Holds(p)
      ensures !Covers(rest, p) && !c.Holds(p)
    {
      assert !Covers(s.free, p);
    }
  }

  lemma CuttingAClaimKeepsDisjoint(s: PlanState, v: nat, split: nat)
    requires Disjoint(s) && s.free == [] && v < |s.claims| && s.claims[v].active
    requires s.claims[v].cursor < split < s.claims[v].end
    ensures var c := s.claims[v];
      Disjoint(PlanState([], s.claims[v := c.(end := split)] + [Claim(split, c.end, true)]))
  {
    var c := s.claims[v];
    var t := s.claims[v := c.(end := split)] + [Claim(split, c.end, true)];
    forall i, j, p: nat | 0 <= i < j < |t| && t[i].Holds(p)
      ensures !t[j].Holds(p)
    {
      assert i < |s.claims| && s.claims[i].Holds(p);
    }
  }

  lemma RequestKeepsDisjoint(s: PlanState)
    requires Disjoint(s)
    ensures Disjoint(Requested(s).0)
  {
    hide Disjoint, LastMax, Victim, SplitPoint;
    if |s.free| > 0 {
      TakingAGapKeepsDisjoint(s, LastMax(Lengths(s.free)));
    } else {
      var v := Victim(s.claims);
      if v >= 0 && s.claims[v].Remaining() >= 2 * MIN_SEGMENT {
        var split := SplitPoint(s.claims[v].cursor, s.claims[v].Remaining());
        if s.claims[v].cursor < split < s.claims[v].end {
          CuttingAClaimKeepsDisjoint(s, v, split);
        }
      }
    }
  }

  lemma {:induction false} HeldUpdate(claims: seq<Claim>, i: nat, c: Claim)
    requires i < |claims| && claims[i].active && c.active
    ensures Held(claims[i := c]) + claims[i].Remaining() == Held(claims) + c.Remaining()
  {
    var n := |claims| - 1;
    if i < n {
      HeldUpdate(claims[..n], i, c);
      assert claims[i := c][..n] == claims[..n][i := c];
    } else {
      assert claims[i := c][..n] == claims[..n];
    }
  }

  lemma TotalOfOne(s: Span)
    ensures TotalLen([s]) == s.len
  {
    assert [s][..0] == [];
  }

  lemma TotalWithout(free: seq<Span>, i: nat)
    requires i < |free|
    ensures TotalLen(free) == TotalLen(free[..i] + free[i + 1..]) + free[i].len
  {
    hide TotalLen;
    TotalOfOne(free[i]);
    var a, b, s := free[..i], free[i + 1..], [free[i]];
    assert free == a + (s + b);
    TotalConcat(a, s + b);
    TotalConcat(s, b);
    TotalConcat(a, b);
  }

  /** The outstanding byte count does not move when work changes hands. */
  lemma RequestConservesOutstanding(s: PlanState)
    ensures Outstanding(Requested(s).0) == Outstanding(s)
  {
    var (t, g) := Requested(s);
    if |s.free| > 0 {
      var i := LastMax(Lengths(s.free));
      TotalWithout(s.free, i);
    } else if g.Granted? {
      var v := Victim(s.claims);
      HeldUpdate(s.claims, v, s.claims[v].(end := g.start));
    }
  }

  /** An undisturbed steal cuts the busiest claim at the first 1 MiB boundary at or after its
      middle: the victim keeps what lies below and at least half, the thief gets what lies above,
      more than 1 MiB, and nobody else's claim changes. */
  lemma StealIsFair(s: PlanState)
    requires s.free == [] && Requested(s).1.Granted?
    ensures var (t, g) := Requested(s);
      exists v: nat :: v < |s.claims| && StealsFrom(s.claims, v, g.start, g.end, t.claims) && t.free == []
  {
    var v := Victim(s.claims);
    var (t, g) := Requested(s);
    assert StealsFrom(s.claims, v, g.start, g.end, t.claims);
  }

  ghost predicate StealsFrom(was: seq<Claim>, v: nat, start: nat, end: nat, now: seq<Claim>)
    requires v < |was|
  {
    var c := was[v];
    && Busiest(was, v) && c.Remaining() >= 2 * MIN_SEGMENT
    && end == c.end && start % SPLIT_ALIGN == 0
    && c.cursor + c.Remaining() / 2 <= start < c.cursor + c.Remaining() / 2 + SPLIT_ALIGN
    && start - c.cursor >= MIN_SEGMENT && end - start > SPLIT_ALIGN
    && |now| == |was| + 1 && now[v] == Claim(c.cursor, start, true) && now[|was|] == Claim(start, end, true)
    && forall i :: 0 <= i < |was| && i != v ==> now[i] == was[i]
  }

  /** Active, with the most left to fetch, and the last such claim. */
  ghost predicate Busiest(claims: seq<Claim>, v: nat)
    requires v < |claims|
  {
    && claims[v].active
    && (forall i :: 0 <= i < |claims| && claims[i].active ==> claims[i].Remaining() <= claims[v].Remaining())
    && (forall i :: v < i < |claims| && claims[i].active ==> claims[i].Remaining() < claims[v].Remaining())
  }

  /** A request finds nothing exactly when nothing is free and no active claim is worth
      splitting. */
  lemma ExhaustedIff(s: PlanState)
    ensures Requested(s).1.Exhausted? <==>
      s.free == [] && forall i :: 0 <= i < |s.claims| && s.claims[i].active ==> s.claims[i].Remaining() < 2 * MIN_SEGMENT
  {
    var v := Victim(s.claims);
    if s.free == [] && v >= 0 && s.claims[v].Remaining() >= 2 * MIN_SEGMENT {
      assert Requested(s).1.Granted?;
    }
  }

  /** The bytes the active claims hold. */
  ghost function HeldSet(claims: seq<Claim>): set<nat> {
    if |claims| == 0 then {}
    else
      HeldSet(claims[..|claims| - 1]) + HeldBy(claims[|claims| - 1])
  }

  lemma {:induction false} HeldSetHolds(claims: seq<Claim>, p: nat)
    ensures p in HeldSet(claims) <==> Claimed(claims, p)
  {
    if |claims| > 0 {
      var n := |claims| - 1;
      HeldSetHolds(claims[..n], p);
      assert claims == claims[..n] + [claims[n]];
      NewClaim(claims[..n], claims[n], p);
    }
  }

  ghost predicate Apart(claims: seq<Claim>) {
    forall i, j, p: nat :: 0 <= i < j < |claims| && claims[i].Holds(p) ==> !claims[j].Holds(p)
  }

  /** The bytes of one claim. */
  ghost function HeldBy(c: Claim): set<nat> {
    if c.active then Window(c.cursor, c.end) else {}
  }

  lemma HeldByCounts(c: Claim)
    ensures |HeldBy(c)| == if c.active then c.Remaining() else 0
  {
    if c.active && c.cursor < c.end {
      WindowSize(c.cursor, c.end);
    }
  }

  lemma LastHeldApart(claims: seq<Claim>)
    requires Apart(claims) && |claims| > 0
    ensures Apart(claims[..|claims| - 1]) && HeldSet(claims[..|claims| - 1]) !! HeldBy(claims[|claims| - 1])
  {
    hide HeldSet;
    var n := |claims| - 1;
    forall p: nat | p in HeldSet(claims[..n])
      ensures p !in HeldBy(claims[n])
    {
      HeldSetHolds(claims[..n], p);
      var i :| 0 <= i < n && claims[..n][i].Holds(p);
      assert claims[i].Holds(p);
    }
  }

  lemma {:induction false} HeldCounts(claims: seq<Claim>)
    requires Apart(claims)
    ensures |HeldSet(claims)| == Held(claims)
    decreases |claims|
  {
    hide Apart, HeldBy;
    if |claims| > 0 {
      var n := |claims| - 1;
      LastHeldApart(claims);
      HeldCounts(claims[..n]);
      HeldByCounts(claims[n]);
    }
  }

  /** What is outstanding is the number of bytes still to be fetched. */
  lemma OutstandingCounts(s: PlanState)
    requires Disjoint(s)
    ensures Outstanding(s) == |ByteSet(s.free) + HeldSet(s.claims)|
    ensures forall p: nat :: p in ByteSet(s.free) + HeldSet(s.claims) <==> Pending(s, p)
  {
    hide HeldSet, ByteSet, Covers, Claimed;
    forall p: nat
      ensures p in ByteSet(s.free) <==> Covers(s.free, p)
      ensures p in HeldSet(s.claims) <==> Claimed(s.claims, p)
    {
      ByteSetCovers(s.free, p);
      HeldSetHolds(s.claims, p);
    }
    ClaimsAreNotFree(s);
    HeldCounts(s.claims);
    TotalIsCardinality(s.free);
  }

  lemma ClaimsAreNotFree(s: PlanState)
    requires Disjoint(s)
    ensures Apart(s.claims) && ByteSet(s.free) !! HeldSet(s.claims)
  {
    hide HeldSet, ByteSet, Covers;
    forall p: nat | p in HeldSet(s.claims)
      ensures p !in ByteSet(s.free)
    {
      HeldSetHolds(s.claims, p);
      ByteSetCovers(s.free, p);
    }
  }

  // ----- giving work back -----

  /** Claim `i` is gone and what it had left is free again, merged with its neighbours. */
  ghost predicate Released(s: PlanState, i: nat, t: PlanState)
    requires i < |s.claims|
  {
    var c := s.claims[i];
    && t.claims == s.claims[..i] + s.claims[i + 1..]
    && (c.cursor < c.end ==>
          && Canonical(t.free)
          && forall p: nat :: Covers(t.free, p) <==> Covers(s.free, p) || c.cursor <= p < c.end)
    && (c.cursor >= c.end ==> t.free == s.free)
  }

  lemma OtherClaims(claims: seq<Claim>, i: nat, p: nat)
    requires i < |claims|
    ensures Claimed(claims, p) <==> claims[i].Holds(p) || Claimed(claims[..i] + claims[i + 1..], p)
  {
    var rest := claims[..i] + claims[i + 1..];
    if k :| 0 <= k < |claims| && claims[k].Holds(p) {
      assert k < i ==> rest[k] == claims[k];
      assert k > i ==> rest[k - 1] == claims[k];
    }
    if k :| 0 <= k < |claims| - 1 && rest[k].Holds(p) {
      assert claims[if k < i then k else k + 1].Holds(p);
    }
  }

  lemma ReleaseKeepsBytes(s: PlanState, i: nat, t: PlanState, p: nat)
    requires i < |s.claims| && s.claims[i].active && Released(s, i, t)
    ensures Pending(t, p) <==> Pending(s, p)
  {
    OtherClaims(s.claims, i, p);
  }

  lemma ReleaseKeepsDisjoint(s: PlanState, i: nat, t: PlanState)
    requires i < |s.claims| && s.claims[i].active && Released(s, i, t) && Disjoint(s)
    ensures Disjoint(t)
  {
    var rest := t.claims;
    forall k | 0 <= k < |rest|
      ensures rest[k] == s.claims[if k < i then k else k + 1]
    {
    }
    forall k, p: nat | 0 <= k < |rest| && rest[k].Holds(p)
      ensures !Covers(t.free, p)
    {
      var j := if k < i then k else k + 1;
      assert s.claims[j].Holds(p);
      ghost var alsoHeldBefore := s.claims[i].Holds(p);
    }
  }

  lemma {:induction false} HeldWithout(claims: seq<Claim>, i: nat)
    requires i < |claims| && claims[i].active
    ensures Held(claims) == Held(claims[..i] + claims[i + 1..]) + claims[i].Remaining()
  {
    var n := |claims| - 1;
    var rest := claims[..i] + claims[i + 1..];
    if i < n {
      HeldWithout(claims[..n], i);
      assert rest[..n - 1] == claims[..n][..i] + claims[..n][i + 1..];
    } else {
      assert rest == claims[..n];
    }
  }

  lemma ReleaseConservesOutstanding(s: PlanState, i: nat, t: PlanState)
    requires i < |s.claims| && s.claims[i].active && Released(s, i, t) && Disjoint(s)
    ensures Outstanding(t) == Outstanding(s)
  {
    var c := s.claims[i];
    HeldWithout(s.claims, i);
    if c.cursor < c.end {
      forall p: nat
        ensures p in ByteSet(t.free) <==> p in ByteSet(s.free) || p in Window(c.cursor, c.end)
      {
        ByteSetCovers(t.free, p);
        ByteSetCovers(s.free, p);
      }
      forall p: nat | p in ByteSet(s.free)
        ensures p !in Window(c.cursor, c.end)
      {
        ByteSetCovers(s.free, p);
        assert c.Holds(p) ==> !Covers(s.free, p);
      }
      assert ByteSet(t.free) == ByteSet(s.free) + Window(c.cursor, c.end);
      assert ByteSet(s.free) !! Window(c.cursor, c.end);
      WindowSize(c.cursor, c.end);
      TotalIsCardinality(t.free);
      TotalIsCardinality(s.free);
    }
  }

  // ----- sorting and merging the free list -----

  ghost predicate SortedByStart(free: seq<Span>) {
    forall i, j :: 0 <= i < j < |free| ==> free[i].start <= free[j].start
  }

  function InsertByStart(free: seq<Span>, s: Span): seq<Span> {
    if |free| == 0 then [s]
    else
      var last := free[|free| - 1];
      if last.start <= s.start then free + [s] else InsertByStart(free[..|free| - 1], s) + [last]
  }

  lemma {:induction false} InsertPermutes(free: seq<Span>, s: Span)
    ensures multiset(InsertByStart(free, s)) == multiset(free) + multiset{s}
  {
    if |free| > 0 {
      InsertPermutes(free[..|free| - 1], s);
      assert free == free[..|free| - 1] + [free[|free| - 1]];
    }
  }

  lemma {:induction false} InsertSorts(free: seq<Span>, s: Span)
    requires SortedByStart(free)
    ensures SortedByStart(InsertByStart(free, s)) && |InsertByStart(free, s)| == |free| + 1
    ensures InsertByStart(free, s)[|free|] == s || (|free| > 0 && InsertByStart(free, s)[|free|] == free[|free| - 1])
  {
    if |free| > 0 {
      InsertSorts(free[..|free| - 1], s);
    }
  }

  /** `sort_unstable_by_key` on the start; callers rely on its contract alone, so the order of
      equal starts stays open. */
  method SortByStart(free: seq<Span>) returns (r: seq<Span>)
    ensures multiset(r) == multiset(free) && SortedByStart(r)
  {
    r := [];
    for i := 0 to |free|
      invariant multiset(r) == multiset(free[..i]) && SortedByStart(r)
    {
      assert free[..i + 1] == free[..i] + [free[i]];
      InsertPermutes(r, free[i]);
      InsertSorts(r, free[i]);
      r := InsertByStart(r, free[i]);
    }
    assert free[..|free|] == free;
  }

  /** Merging a sorted list yields the canonical form of the same bytes. */
  method MergeFree(free: seq<Span>) returns (out: seq<Span>)
    requires SortedByStart(free)
    requires forall i :: 0 <= i < |free| ==> free[i].len > 0
    ensures Canonical(out) && SameBytes(out, free)
  {
    hide Covers;
    out := [];
    assert free[..0] == out;
    for i := 0 to |free|
      invariant Canonical(out) && SameBytes(out, free[..i])
      invariant |out| > 0 ==> i > 0 && out[|out| - 1].start <= free[i - 1].start
    {
      var s := free[i];
      NextSpan(free, i);
      if |out| > 0 && out[|out| - 1].End() >= s.start {
        var last := out[|out| - 1];
        var end := if last.End() >= s.End() then last.End() else s.End();
        MergeIntoLast(out, s, end);
        out := out[..|out| - 1] + [Span(last.start, end - last.start)];
      } else {
        PushSpan(out, s);
        out := out + [s];
      }
    }
    assert free[..|free|] == free;
  }

  lemma CanonicalInit(out: seq<Span>)
    requires Canonical(out) && |out| > 0
    ensures Canonical(out[..|out| - 1])
    ensures |out| > 1 ==> out[|out| - 2].End() < out[|out| - 1].start
    ensures out[|out| - 1].len > 0
    ensures out == out[..|out| - 1] + [out[|out| - 1]]
  {
  }

  lemma MergeIntoLast(out: seq<Span>, s: Span, end: nat)
    requires Canonical(out) && |out| > 0
    requires out[|out| - 1].start <= s.start <= out[|out| - 1].End()
    requires end == (if out[|out| - 1].End() >= s.End() then out[|out| - 1].End() else s.End())
    ensures var last := out[|out| - 1];
      var r := out[..|out| - 1] + [Span(last.start, end - last.start)];
      Canonical(r) && forall p: nat :: Covers(r, p) <==> Covers(out, p) || s.Has(p)
  {
    hide Canonical, Covers;
    CanonicalInit(out);
    var rest, last := out[..|out| - 1], out[|out| - 1];
    PushSpan(rest, last);
    PushSpan(rest, Span(last.start, end - last.start));
  }

  predicate StrictlySorted(a: seq<Span>) {
    forall i, j :: 0 <= i < j < |a| ==> a[i].start < a[j].start
  }

  lemma SortedInit(a: seq<Span>, b: seq<Span>)
    requires StrictlySorted(a) && SortedByStart(b) && |a| == |b| > 0
    ensures StrictlySorted(a[..|a| - 1]) && SortedByStart(b[..|b| - 1])
  {
  }

  lemma SameSize(a: seq<Span>, b: seq<Span>)
    requires multiset(a) == multiset(b)
    ensures |a| == |b|
  {
    assert |a| == |multiset(a)| && |b| == |multiset(b)|;
  }

  /** A strictly sorted list is the only sorted arrangement of its elements. */
  lemma {:induction false} SortedArrangementIsUnique(a: seq<Span>, b: seq<Span>)
    requires StrictlySorted(a) && SortedByStart(b) && multiset(a) == multiset(b)
    ensures a == b
    decreases |a|
  {
    hide StrictlySorted, SortedByStart;
    SameSize(a, b);
    if |a| > 0 {
      SameLast(a, b);
      SortedInit(a, b);
      WithoutLast(a);
      WithoutLast(b);
      SortedArrangementIsUnique(a[..|a| - 1], b[..|b| - 1]);
    }
  }

  lemma WithoutLast(a: seq<Span>)
    requires |a| > 0
    ensures multiset(a[..|a| - 1]) == multiset(a) - multiset{a[|a| - 1]}
  {
    assert a == a[..|a| - 1] + [a[|a| - 1]];
  }

  lemma SameLast(a: seq<Span>, b: seq<Span>)
    requires StrictlySorted(a) && SortedByStart(b) && multiset(a) == multiset(b) && |a| > 0
    ensures |b| == |a| && a[|a| - 1] == b[|a| - 1]
  {
    var n := |a| - 1;
    assert |a| == |multiset(a)| && |b| == |multiset(b)|;
    assert b[n] in multiset(a) && a[n] in multiset(b);
    var i :| 0 <= i < |a| && a[i] == b[n];
    var j :| 0 <= j < |b| && b[j] == a[n];
    assert b[j].start <= b[n].start;
  }

  // ----- the objects -----

  /** The claim of one worker, updated in place; another's request may lower `end`. */
  class ClaimSlot {
    var cursor: nat
    var end: nat
    var active: bool

    constructor (start: nat, end: nat)
      ensures View() == Claim(start, end, true)
    {
      this.cursor, this.end, this.active := start, end, true;
    }

    function View(): Claim
      reads this
    {
      Claim(cursor, end, active)
    }

    method Advance(n: nat)
      modifies this
      ensures View() == old(View()).(cursor := old(cursor) + n)
    {
      cursor := cursor + n;
    }
  }

  /** The slots as values. */
  function Views(slots: seq<ClaimSlot>): (r: seq<Claim>)
    reads slots
    ensures |r| == |slots|
    ensures forall i :: 0 <= i < |slots| ==> r[i] == slots[i].View()
  {
    if |slots| == 0 then [] else Views(slots[..|slots| - 1]) + [slots[|slots| - 1].View()]
  }

  lemma StaysSorted(free: seq<Span>, i: nat)
    requires SortedByStart(free) && i < |free|
    ensures SortedByStart(free[..i] + free[i + 1..])
  {
  }

  /** What a request does when some gap is. */
  lemma SomethingFree(s: PlanState)
    requires s.free != []
    ensures var i := LastMax(Lengths(s.free));
      Requested(s) ==
      (PlanState(s.free[..i] + s.free[i + 1..], s.claims + [Claim(s.free[i].start, s.free[i].End(), true)]),
       Granted(s.free[i].start, s.free[i].End()))
  {
    hide LastMax;
  }

  /** What a request does when no gap is free. */
  lemma NothingFree(s: PlanState)
    requires s.free == []
    ensures var v := Victim(s.claims);
      Requested(s) ==
      if v == -1 || s.claims[v].Remaining() < 2 * MIN_SEGMENT then (s, Exhausted)
      else
        var c := s.claims[v];
        var split := SplitPoint(c.cursor, c.Remaining());
        if split <= c.cursor || split >= c.end then (s, Exhausted)
        else
          (PlanState([], s.claims[v := c.(end := split)] + [Claim(split, c.end, true)]), Granted(split, c.end))
  {
    hide Victim, SplitPoint;
  }

  class Plan {
    const total: nat
    var free: seq<Span>
    var slots: seq<ClaimSlot>

    ghost predicate Valid()
      reads this
    {
      && SortedByStart(free)
      && (forall i :: 0 <= i < |free| ==> free[i].len > 0)
      && (forall i, j :: 0 <= i < j < |slots| ==> slots[i] != slots[j])
    }

    function State(): PlanState
      reads this, slots
    {
      PlanState(free, Views(slots))
    }

    /** A plan over the gaps of what is already there, never over the whole file. */
    constructor (total: nat, completed: RangeSet)
      requires completed.Valid()
      ensures Valid() && this.total == total && slots == []
      ensures Canonical(free)
      ensures forall p: nat :: Covers(free, p) <==> p < total && !Covers(completed.spans, p)
    {
      this.total := total;
      this.slots := [];
      var gaps := completed.GapsIn(0, total);
      this.free := gaps;
    }

    /** Split the largest gaps until there are `n` pieces or none is worth splitting.  How many of
        the pieces end up smaller than a minimum segment follows from the gaps and `n` alone. */
    method Seed(n: nat)
      requires Valid() && Ordered(free)
      modifies this`free
      ensures Valid() && SeededFrom(old(free), free)
      ensures n <= 1 || |old(free)| >= n ==> free == old(free)
      ensures n > 1 && |old(free)| < n ==> |free| == n || (|free| < n && NothingToSplit(free))
      ensures Sum(Small, free) == Sum(Small, old(free)) + Undercut(old(free), n)
    {
      PiecesAtLeast(free);
      NothingNothing(free);
      if n <= 1 || |free| >= n {
        return;
      }
      free := SplitLargestUntil(free, n);
    }

    /** The largest free gap, or else the upper half of the busiest claim. */
    method Request() returns (grant: Grant, slot: ClaimSlot?)
      requires Valid()
      modifies this, slots
      ensures Valid()
      ensures State() == Requested(old(State())).0 && grant == Requested(old(State())).1
      ensures old(free) != [] ==> grant.Granted? && TakesLargest(old(free), grant.start, grant.end, free)
      ensures grant.Granted? <==> slot != null
      ensures slot != null ==> fresh(slot) && slots == old(slots) + [slot]
      ensures slot != null ==> slot.View() == Claim(grant.start, grant.end, true)
      ensures slot == null ==> slots == old(slots)
    {
      hide Requested, TakesLargest, Valid, Views;
      if |free| > 0 {
        grant, slot := TakeGap();
      } else {
        assert free == [];
        grant, slot := Steal();
      }
    }

    /** Some gap is free: take the largest. */
    method TakeGap() returns (grant: Grant, slot: ClaimSlot)
      requires Valid() && free != []
      modifies this
      ensures Valid()
      ensures State() == Requested(old(State())).0 && grant == Requested(old(State())).1
      ensures grant.Granted? && TakesLargest(old(free), grant.start, grant.end, free)
      ensures fresh(slot) && slots == old(slots) + [slot]
      ensures slot.View() == Claim(grant.start, grant.end, true)
    {
      hide Requested, Victim, SplitPoint, TakesLargest, SortedByStart, Views;
      SomethingFree(State());
      LargestGapGoesFirst(State());
      var idx := LastMax(Lengths(free));
      var g := free[idx];
      StaysSorted(free, idx);
      free := free[..idx] + free[idx + 1..];
      slot := AddSlot(g.start, g.End());
      grant := Granted(g.start, g.End());
    }

    /** Nothing is free: take half of whatever the busiest worker has left. */
    method Steal() returns (grant: Grant, slot: ClaimSlot?)
      requires Valid() && free == []
      modifies this`slots, slots
      ensures Valid()
      ensures State() == Requested(old(State())).0 && grant == Requested(old(State())).1
      ensures grant.Granted? <==> slot != null
      ensures slot != null ==> fresh(slot) && slots == old(slots) + [slot]
      ensures slot != null ==> slot.View() == Claim(grant.start, grant.end, true)
      ensures slot == null ==> slots == old(slots)
    {
      hide Requested, Victim, SplitPoint, Views, SortedByStart;
      ghost var was := State();
      NothingFree(was);
      var v := Victim(Views(slots));
      if v == -1 {
        return Exhausted, null;
      }
      var victim := slots[v];
      var remaining := victim.View().Remaining();
      if remaining < 2 * MIN_SEGMENT {
        return Exhausted, null;
      }
      var split := SplitPoint(victim.cursor, remaining);
      var oldEnd := victim.end;
      if split <= victim.cursor || split >= oldEnd {
        return Exhausted, null;
      }
      LowerEnd(v, split);
      slot := AddSlot(split, oldEnd);
      grant := Granted(split, oldEnd);
    }

    method AddSlot(start: nat, end: nat) returns (slot: ClaimSlot)
      requires Valid()
      modifies this`slots
      ensures Valid() && fresh(slot) && slots == old(slots) + [slot]
      ensures slot.View() == Claim(start, end, true)
      ensures Views(slots) == old(Views(slots)) + [Claim(start, end, true)]
    {
      slot := new ClaimSlot(start, end);
      slots := slots + [slot];
    }

    method LowerEnd(v: nat, split: nat)
      requires Valid() && v < |slots|
      modifies slots[v]
      ensures slots[v].View() == old(slots[v].View()).(end := split)
      ensures Views(slots) == old(Views(slots))[v := old(slots[v].View()).(end := split)]
    {
      slots[v].end := split;
    }

    /** Claim `i` ends; whatever it had left becomes free. */
    method Release(ghost i: nat, slot: ClaimSlot)
      requires Valid() && i < |slots| && slots[i] == slot
      modifies this, slot
      ensures Valid()
      ensures Views(slots) == old(Views(slots))[..i] + old(Views(slots))[i + 1..]
      ensures slot.cursor < slot.end ==> Canonical(free)
      ensures forall p: nat :: Covers(free, p) <==> Covers(old(free), p) || slot.cursor <= p < slot.end
      ensures slot.cursor >= slot.end ==> free == old(free)
      ensures slots == old(slots)[..i] + old(slots)[i + 1..]
      ensures !slot.active && slot.cursor == old(slot.cursor) && slot.end == old(slot.end)
    {
      ghost var was := Views(slots);
      slot.active := false;
      ghost var deactivated := was[i := slot.View()];
      assert Views(slots) == deactivated;
      var cursor, end := slot.cursor, slot.end;
      if cursor < end {
        ReturnRange(cursor, end - cursor);
      }
      assert Views(slots) == deactivated;
      Forget(i, slot);
      UpdateThenDrop(was, i, slot.View());
    }

    /** `retain` all slots but one. */
    method Forget(ghost i: nat, slot: ClaimSlot)
      requires Valid() && i < |slots| && slots[i] == slot
      modifies this`slots
      ensures Valid()
      ensures slots == old(slots)[..i] + old(slots)[i + 1..]
      ensures Views(slots) == old(Views(slots))[..i] + old(Views(slots))[i + 1..]
    {
      hide Without, SortedByStart;
      WithoutDropsOne(slots, i);
      slots := Without(slots, slot);
    }

    /** Make a range free again. */
    method ReturnRange(start: nat, len: nat)
      requires Valid()
      modifies this`free
      ensures Valid()
      ensures len == 0 ==> free == old(free)
      ensures len > 0 ==> Canonical(free)
      ensures forall p: nat :: Covers(free, p) <==> Covers(old(free), p) || start <= p < start + len
    {
      if len == 0 {
        return;
      }
      ghost var was := free;
      var sorted := SortByStart(free + [Span(start, len)]);
      forall s | s in sorted
        ensures s.len > 0
      {
        assert s in multiset(was + [Span(start, len)]);
      }
      PushSpan(was, Span(start, len));
      forall p: nat
        ensures Covers(sorted, p) <==> Covers(was + [Span(start, len)], p)
      {
        PermutationCovers(sorted, was + [Span(start, len)], p);
        PermutationCovers(was + [Span(start, len)], sorted, p);
      }
      free := MergeFree(sorted);
    }

    /** As many workers as have a minimum segment each, one at least. */
    function UsefulWorkers(): (n: nat)
      reads this, slots
      ensures n >= 1 && (n > 1 ==> n * MIN_SEGMENT <= Outstanding(State()))
      ensures Outstanding(State()) < (n + 1) * MIN_SEGMENT
    {
      var n := Outstanding(State()) / MIN_SEGMENT;
      if n >= 1 then n else 1
    }
  }

  lemma UpdateThenDrop(claims: seq<Claim>, i: nat, c: Claim)
    requires i < |claims|
    ensures claims[i := c][..i] + claims[i := c][i + 1..] == claims[..i] + claims[i + 1..]
  {
  }

  /** `retain` of everything but one object. */
  function Without(slots: seq<ClaimSlot>, slot: ClaimSlot): seq<ClaimSlot> {
    if |slots| == 0 then []
    else
      var rest, last := Without(slots[..|slots| - 1], slot), slots[|slots| - 1];
      if last == slot then rest else rest + [last]
  }

  lemma {:induction false} WithoutDropsOne(slots: seq<ClaimSlot>, i: nat)
    requires i < |slots|
    requires forall j, k :: 0 <= j < k < |slots| ==> slots[j] != slots[k]
    ensures Without(slots, slots[i]) == slots[..i] + slots[i + 1..]
  {
    var n := |slots| - 1;
    if i < n {
      WithoutDropsOne(slots[..n], i);
    } else {
      WithoutKeeps(slots[..n], slots[n]);
    }
  }

  lemma {:induction false} WithoutKeeps(slots: seq<ClaimSlot>, slot: ClaimSlot)
    requires slot !in slots
    ensures Without(slots, slot) == slots
  {
    if |slots| > 0 {
      WithoutKeeps(slots[..|slots| - 1], slot);
    }
  }

  /** `free` tiles the same bytes as `was`, and every piece that is new is more than 1 MiB long. */
  ghost predicate SeededFrom(was: seq<Span>, free: seq<Span>) {
    && Ordered(free) && SameBytes(free, was) && TotalLen(free) == TotalLen(was)
    && (forall s :: s in free && s !in was ==> s.len > SPLIT_ALIGN)
    && AllCutFrom(was, free)
  }

  ghost predicate AllCutFrom(was: seq<Span>, free: seq<Span>) {
    forall s :: s in free ==> CutFrom(was, s)
  }

  /** Piece of some gap, starting a whole number of split boundaries into it. */
  ghost predicate CutFrom(was: seq<Span>, s: Span) {
    exists g :: g in was && CutOf(g, s)
  }

  ghost predicate CutOf(g: Span, s: Span) {
    g.start <= s.start && s.End() <= g.End() && (s.start - g.start) % SPLIT_ALIGN == 0
  }

  lemma CutTwice(g: Span, m: Span, s: Span)
    requires CutOf(g, m) && CutOf(m, s)
    ensures CutOf(g, s)
  {
    var a, b := m.start - g.start, s.start - m.start;
    assert a == SPLIT_ALIGN * (a / SPLIT_ALIGN) && b == SPLIT_ALIGN * (b / SPLIT_ALIGN);
    assert a + b == SPLIT_ALIGN * (a / SPLIT_ALIGN + b / SPLIT_ALIGN);
  }

  ghost predicate NothingToSplit(free: seq<Span>) {
    forall i :: 0 <= i < |free| ==> free[i].len < 2 * MIN_SEGMENT
  }

  // ----- when a new piece is smaller than a minimum segment -----

  /** Splitting a gap of this length leaves less than a minimum segment in the upper half. */
  predicate Awkward(len: nat) {
    2 * MIN_SEGMENT + 2 <= len < 2 * MIN_SEGMENT + SPLIT_ALIGN
  }

  lemma UndercutsIff(len: nat)
    requires len >= 2 * MIN_SEGMENT
    ensures var half := AlignUp(len / 2);
      && MIN_SEGMENT <= half < len && len - half > SPLIT_ALIGN
      && (len - half < MIN_SEGMENT <==> Awkward(len))
  {
  }

  function Small(len: nat): nat {
    if len < MIN_SEGMENT then 1 else 0
  }

  /** The pieces of one gap once everything of 5 MiB or more has been split. */
  function Coarse(len: nat): (r: nat)
    ensures r >= 1
    decreases len
  {
    if len < 2 * MIN_SEGMENT + SPLIT_ALIGN then 1
    else Coarse(AlignUp(len / 2)) + Coarse(len - AlignUp(len / 2))
  }

  /** How many of them have an awkward length. */
  function CoarseAwkward(len: nat): nat
    decreases len
  {
    if len < 2 * MIN_SEGMENT + SPLIT_ALIGN then (if Awkward(len) then 1 else 0)
    else CoarseAwkward(AlignUp(len / 2)) + CoarseAwkward(len - AlignUp(len / 2))
  }

  function Sum(f: nat -> nat, free: seq<Span>): nat {
    if |free| == 0 then 0 else Sum(f, free[..|free| - 1]) + f(free[|free| - 1].len)
  }

  /** How many pieces smaller than a minimum segment a call for `n` pieces makes: the largest gap
      goes first, so the awkward ones are reached only when nothing of 5 MiB is left, and then one
      after the other until there are `n`. */
  function Undercut(free: seq<Span>, n: nat): nat {
    var room := if n > Sum(Coarse, free) then n - Sum(Coarse, free) else 0;
    if room <= Sum(CoarseAwkward, free) then room else Sum(CoarseAwkward, free)
  }

  /** A single gap of 4 MiB and two bytes, for two workers: one of them gets less than 2 MiB. */
  lemma SeedMayUndercut(start: nat)
    ensures Undercut([Span(start, 2 * MIN_SEGMENT + 2)], 2) == 1
  {
    SumOfOne(Coarse, Span(start, 2 * MIN_SEGMENT + 2));
    SumOfOne(CoarseAwkward, Span(start, 2 * MIN_SEGMENT + 2));
  }

  lemma {:induction false} SumConcat(f: nat -> nat, a: seq<Span>, b: seq<Span>)
    ensures Sum(f, a + b) == Sum(f, a) + Sum(f, b)
  {
    if |b| == 0 {
      assert a + b == a;
    } else {
      SumConcat(f, a, b[..|b| - 1]);
      assert (a + b)[..|a + b| - 1] == a + b[..|b| - 1];
    }
  }

  lemma SumSplit(f: nat -> nat, free: seq<Span>, idx: nat, a: Span, b: Span)
    requires idx < |free|
    ensures Sum(f, Tiled(free, idx, a, b)) + f(free[idx].len) == Sum(f, free) + f(a.len) + f(b.len)
  {
    hide Sum;
    var head, s, tail := free[..idx], [free[idx]], free[idx + 1..];
    assert free == head + s + tail;
    assert Tiled(free, idx, a, b) == head + [a] + [b] + tail;
    SumConcat(f, head, s);
    SumConcat(f, head + s, tail);
    SumConcat(f, head, [a]);
    SumConcat(f, head + [a], [b]);
    SumConcat(f, head + [a] + [b], tail);
    SumOfOne(f, free[idx]);
    SumOfOne(f, a);
    SumOfOne(f, b);
  }

  lemma SumOfOne(f: nat -> nat, s: Span)
    ensures Sum(f, [s]) == f(s.len)
  {
    assert [s][..0] == [];
  }

  ghost predicate Below(free: seq<Span>, limit: nat) {
    forall i :: 0 <= i < |free| ==> free[i].len < limit
  }

  lemma {:induction false} PiecesAtLeast(free: seq<Span>)
    ensures Sum(Coarse, free) >= |free|
    ensures Sum(Coarse, free) == |free| <==> Below(free, 2 * MIN_SEGMENT + SPLIT_ALIGN)
  {
    if |free| > 0 {
      PiecesAtLeast(free[..|free| - 1]);
    }
  }

  lemma {:induction false} NothingAwkward(free: seq<Span>)
    requires Below(free, 2 * MIN_SEGMENT + 2)
    ensures Sum(CoarseAwkward, free) == 0
  {
    if |free| > 0 {
      NothingAwkward(free[..|free| - 1]);
    }
  }

  lemma NothingNothing(free: seq<Span>)
    ensures |free| == 0 ==> Sum(CoarseAwkward, free) == 0
  {
  }

  /** Where the splitting stands: `r` pieces have been made of `free`. */
  ghost predicate Halving(free: seq<Span>, r: seq<Span>) {
    var c, w := Sum(Coarse, free), Sum(CoarseAwkward, free);
    && Sum(Coarse, r) == (if c >= |r| then c else |r|)
    && Sum(CoarseAwkward, r) == (if |r| <= c then w else if |r| - c <= w then w - (|r| - c) else 0)
    && Sum(Small, r) + Sum(CoarseAwkward, r) == Sum(Small, free) + w
  }

  lemma HalvingStarts(free: seq<Span>)
    ensures Halving(free, free)
  {
    PiecesAtLeast(free);
  }

  lemma HalvingGoesOn(free: seq<Span>, r: seq<Span>, idx: nat, a: Span, b: Span)
    requires Halving(free, r) && idx < |r| && Below(r, r[idx].len + 1) && r[idx].len >= 2 * MIN_SEGMENT
    requires a.len == AlignUp(r[idx].len / 2) && a.len + b.len == r[idx].len
    ensures Halving(free, Tiled(r, idx, a, b))
  {
    hide Sum, AlignUp;
    UndercutsIff(r[idx].len);
    PiecesAtLeast(r);
    SumSplit(Coarse, r, idx, a, b);
    SumSplit(CoarseAwkward, r, idx, a, b);
    SumSplit(Small, r, idx, a, b);
    if r[idx].len < 2 * MIN_SEGMENT + 2 {
      NothingAwkward(r);
    }
  }

  lemma HalvingEnds(free: seq<Span>, r: seq<Span>, n: nat)
    requires Halving(free, r) && |free| < n
    requires |r| == n || (|r| < n && NothingToSplit(r))
    ensures Sum(Small, r) == Sum(Small, free) + Undercut(free, n)
  {
    if NothingToSplit(r) {
      NothingAwkward(r);
    }
  }

  lemma NothingCut(free: seq<Span>)
    ensures AllCutFrom(free, free)
  {
  }

  lemma CutMore(was: seq<Span>, mid: seq<Span>, now: seq<Span>)
    requires AllCutFrom(was, mid) && AllCutFrom(mid, now)
    ensures AllCutFrom(was, now)
  {
    hide CutOf;
    forall s | s in now
      ensures CutFrom(was, s)
    {
      var m :| m in mid && CutOf(m, s);
      assert CutFrom(was, m);
      var g :| g in was && CutOf(g, m);
      CutTwice(g, m, s);
    }
  }

  /** What was seeded from a seeded list was seeded from the original. */
  lemma SeedMore(was: seq<Span>, mid: seq<Span>, now: seq<Span>)
    requires SeededFrom(was, mid) && SeededFrom(mid, now)
    ensures SeededFrom(was, now)
  {
    hide AllCutFrom, Covers, Ordered, TotalLen;
    CutMore(was, mid, now);
  }

  lemma SeedsItself(free: seq<Span>)
    requires Ordered(free)
    ensures SeededFrom(free, free)
  {
    NothingCut(free);
  }

  lemma SeededIsOrdered(was: seq<Span>, now: seq<Span>)
    requires SeededFrom(was, now)
    ensures Ordered(now)
  {
  }

  lemma TiledIsCut(free: seq<Span>, idx: nat, a: Span, b: Span)
    requires idx < |free| && a.start == free[idx].start && a.End() == b.start && b.End() == free[idx].End()
    requires a.len % SPLIT_ALIGN == 0
    ensures AllCutFrom(free, Tiled(free, idx, a, b))
  {
    forall s | s in Tiled(free, idx, a, b)
      ensures CutFrom(free, s)
    {
      if s == a || s == b {
        assert free[idx] in free;
      } else {
        assert s in free;
      }
    }
  }

  /** The splitting loop of `Seed`. */
  method SplitLargestUntil(free: seq<Span>, n: nat) returns (r: seq<Span>)
    requires Ordered(free) && |free| < n
    ensures SeededFrom(free, r)
    ensures |r| == n || (|r| < n && NothingToSplit(r))
    ensures Sum(Small, r) == Sum(Small, free) + Undercut(free, n)
  {
    hide Halving, Sum, Undercut, SeededFrom;
    r := free;
    HalvingStarts(free);
    SeedsItself(free);
    while |r| < n
      invariant |r| <= n && SeededFrom(free, r) && Halving(free, r)
      decreases n - |r|
    {
      SeededIsOrdered(free, r);
      if |r| == 0 {
        HalvingEnds(free, r, n);
        return;
      }
      var idx := LastMax(Lengths(r));
      if r[idx].len < 2 * MIN_SEGMENT {
        HalvingEnds(free, r, n);
        return;
      }
      var half := AlignUp(r[idx].len / 2);
      UndercutsIff(r[idx].len);
      if half == 0 || half >= r[idx].len {
        break;
      }
      ghost var a, b := Span(r[idx].start, half), Span(r[idx].start + half, r[idx].len - half);
      HalvingGoesOn(free, r, idx, a, b);
      ghost var mid := r;
      r := SplitAndSort(r, idx, half);
      SeedMore(free, mid, r);
    }
    HalvingEnds(free, r, n);
  }

  ghost function Tiled(free: seq<Span>, idx: nat, a: Span, b: Span): seq<Span>
    requires idx < |free|
  {
    free[..idx] + [a, b] + free[idx + 1..]
  }

  /** One split of `Seed`: the gap becomes two touching pieces, in place. */
  method SplitAndSort(free: seq<Span>, idx: nat, half: nat) returns (sorted: seq<Span>)
    requires Ordered(free) && idx < |free| && SPLIT_ALIGN < half && half + SPLIT_ALIGN < free[idx].len
    requires half % SPLIT_ALIGN == 0
    ensures SeededFrom(free, sorted) && |sorted| == |free| + 1
    ensures sorted == Tiled(free, idx, Span(free[idx].start, half), Span(free[idx].start + half, free[idx].len - half))
  {
    var a := Span(free[idx].start, half);
    var b := Span(free[idx].start + half, free[idx].len - half);
    sorted := SortByStart(free[idx := a] + [b]);
    SplitIsPermutation(free, idx, a, b);
    SplitTiles(free, idx, a, b);
    SortedArrangementIsUnique(Tiled(free, idx, a, b), sorted);
  }

  lemma SplitTiles(free: seq<Span>, idx: nat, a: Span, b: Span)
    requires Ordered(free) && idx < |free| && a.len > SPLIT_ALIGN && b.len > SPLIT_ALIGN && a.len % SPLIT_ALIGN == 0
    requires a.start == free[idx].start && a.End() == b.start && b.End() == free[idx].End()
    ensures var t := Tiled(free, idx, a, b);
      SeededFrom(free, t) && forall i, j :: 0 <= i < j < |t| ==> t[i].start < t[j].start
  {
    hide AllCutFrom, Covers, Ordered, TotalLen, SameBytes;
    TiledIsCut(free, idx, a, b);
    SplitIsOrdered(free, idx, a, b);
    SplitCovers(free, idx, a, b);
    SplitTotal(free, idx, a, b);
  }

  lemma SplitIsPermutation(free: seq<Span>, idx: nat, a: Span, b: Span)
    requires idx < |free|
    ensures multiset(free[idx := a] + [b]) == multiset(Tiled(free, idx, a, b))
  {
    assert free[idx := a] + [b] == free[..idx] + [a] + free[idx + 1..] + [b];
    assert free[..idx] + [a, b] + free[idx + 1..] == free[..idx] + [a] + [b] + free[idx + 1..];
  }

  lemma SplitIsOrdered(free: seq<Span>, idx: nat, a: Span, b: Span)
    requires Ordered(free) && idx < |free| && a.len > 0 && b.len > 0
    requires a.start == free[idx].start && a.End() == b.start && b.End() == free[idx].End()
    ensures var t := Tiled(free, idx, a, b);
      Ordered(t) && forall i, j :: 0 <= i < j < |t| ==> t[i].start < t[j].start
  {
    var t := free[..idx] + [a, b] + free[idx + 1..];
    forall i, j | 0 <= i < j < |t|
      ensures t[i].End() <= t[j].start
    {
      var i' := if i <= idx then i else i - 1;
      var j' := if j <= idx then j else j - 1;
      if i' < j' {
        assert free[i'].End() <= free[j'].start;
      }
    }
  }

  lemma SplitCovers(free: seq<Span>, idx: nat, a: Span, b: Span)
    requires idx < |free|
    requires a.start == free[idx].start && a.End() == b.start && b.End() == free[idx].End()
    ensures SameBytes(free[..idx] + [a, b] + free[idx + 1..], free)
  {
    forall p: nat
      ensures Covers(free[..idx] + [a, b] + free[idx + 1..], p) <==> Covers(free, p)
    {
      assert free[..idx] + [free[idx]] + free[idx + 1..] == free;
      assert free[..idx] + [a, b] == free[..idx] + [a] + [b];
      CoversConcat(free[..idx] + [a, b], free[idx + 1..], p);
      CoversConcat(free[..idx] + [free[idx]], free[idx + 1..], p);
      CoversSplit(free[..idx] + [a], b, p);
      CoversSplit(free[..idx], a, p);
      CoversSplit(free[..idx], free[idx], p);
    }
  }

  lemma SplitTotal(free: seq<Span>, idx: nat, a: Span, b: Span)
    requires idx < |free| && a.len + b.len == free[idx].len
    ensures TotalLen(free[..idx] + [a, b] + free[idx + 1..]) == TotalLen(free)
  {
    var head, tail := free[..idx], free[idx + 1..];
    TotalWithout(free, idx);
    TotalConcat(head, tail);
    TotalConcat(head + [a, b], tail);
    TotalConcat(head, [a, b]);
    assert [a, b] == [a] + [b];
    TotalConcat([a], [b]);
  }
}
