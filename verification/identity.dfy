/** Is a replacement link the same file?  Headers first, then the bytes already on disk
    (identity.rs). */
module Identity {
  import opened Common
  import opened Chunks
  import opened Spans
  import opened RangeSets
  import opened Windows

  const WINDOW_COUNT: nat := 4

  datatype Etag = Strong(raw: string) | Weak(raw: string)

  datatype Signals = Signals(size: Option<nat>, etag: Option<Etag>, lastModified: Option<string>, ranges: bool)

  datatype Preliminary = Accept | VerifyThenAccept | VerifyThenConfirm | SizeMismatch(kept: nat, offered: nat) | CannotResume

  datatype Verdict = Resume | Confirm | WrongSize(kept: nat, offered: nat) | WrongContent(offset: nat) | RestartOnly

  // ----- headers -----

  predicate SizesMatch(kept: Signals, offered: Signals) {
    kept.size.Some? && offered.size.Some? && kept.size.value == offered.size.value
  }

  predicate EtagsMatch(kept: Signals, offered: Signals) {
    kept.etag.Some? && offered.etag.Some? && kept.etag.value.raw == offered.etag.value.raw
  }

  predicate DatesMatch(kept: Signals, offered: Signals) {
    kept.lastModified.Some? && offered.lastModified.Some? && kept.lastModified.value == offered.lastModified.value
  }

  function Compare(kept: Signals, offered: Signals): Preliminary {
    if kept.size.Some? && offered.size.Some? && kept.size.value != offered.size.value then
      SizeMismatch(kept.size.value, offered.size.value)
    else if !offered.ranges then CannotResume
    else if EtagsMatch(kept, offered) && kept.etag.value.Strong? && offered.etag.value.Strong? && SizesMatch(kept, offered) then Accept
    else if SizesMatch(kept, offered) && DatesMatch(kept, offered) && kept.etag.None? && offered.etag.None? then VerifyThenAccept
    else if EtagsMatch(kept, offered) && SizesMatch(kept, offered) then VerifyThenAccept
    else VerifyThenConfirm
  }

  /** A mismatch is never up for confirmation. */
  function Finalize(pre: Preliminary, mismatch: Option<nat>): Verdict {
    if mismatch.Some? then WrongContent(mismatch.value)
    else
      match pre
      case Accept => Resume
      case VerifyThenAccept => Resume
      case VerifyThenConfirm => Confirm
      case SizeMismatch(kept, offered) => WrongSize(kept, offered)
      case CannotResume => RestartOnly
  }

  /** Both sizes are known and they differ. */
  predicate SizesContradict(kept: Signals, offered: Signals) {
    kept.size.Some? && offered.size.Some? && kept.size.value != offered.size.value
  }

  /** Both sizes are known and equal and the validators agree: the same tag, be it weak or strong, or
      no tags at all and equal dates. */
  predicate HeadersAgree(kept: Signals, offered: Signals) {
    && kept.size.Some? && kept.size == offered.size
    && match (kept.etag, offered.etag)
       case (Some(a), Some(b)) => a.raw == b.raw
       case (None, None) => kept.lastModified.Some? && kept.lastModified == offered.lastModified
       case _ => false
  }

  /** A link is taken without asking exactly when nothing on disk contradicts it, it can resume
      and the headers agree. */
  lemma ResumesUnaskedIff(kept: Signals, offered: Signals, mismatch: Option<nat>)
    ensures Finalize(Compare(kept, offered), mismatch).Resume? <==>
      mismatch.None? && offered.ranges && HeadersAgree(kept, offered)
  {
  }

  /** Every verdict, by the signals and the mismatch alone.  A mismatch found in the content comes
      before everything, then a contradicting size, then a link that cannot resume; what is left is
      taken or put to the user. */
  lemma VerdictIff(kept: Signals, offered: Signals, mismatch: Option<nat>)
    ensures var v := Finalize(Compare(kept, offered), mismatch);
      && (mismatch.Some? ==> v == WrongContent(mismatch.value))
      && (v.WrongContent? <==> mismatch.Some?)
      && (mismatch.None? && SizesContradict(kept, offered) ==> v == WrongSize(kept.size.value, offered.size.value))
      && (v.WrongSize? <==> mismatch.None? && SizesContradict(kept, offered))
      && (v.RestartOnly? <==> mismatch.None? && !SizesContradict(kept, offered) && !offered.ranges)
      && (v.Confirm? <==>
            mismatch.None? && !SizesContradict(kept, offered) && offered.ranges && !HeadersAgree(kept, offered))
  {
  }

  // ----- bytes -----

  /** The offset reported for two buffers that differ. */
  function FirstDifference(offset: nat, local: seq<byte>, remote: seq<byte>): Option<nat> {
    if |local| != |remote| then Some(offset + Min(|local|, |remote|)) else FirstUnequal(offset, local, remote)
  }

  function FirstUnequal(offset: nat, local: seq<byte>, remote: seq<byte>): Option<nat>
    requires |local| == |remote|
    decreases |local|
  {
    if |local| == 0 then None
    else if local[0] != remote[0] then Some(offset)
    else FirstUnequal(offset + 1, local[1..], remote[1..])
  }

  /** They agree up to `n`, and part there. */
  ghost predicate PartAt(local: seq<byte>, remote: seq<byte>, n: nat) {
    && n <= |local| && n <= |remote| && local[..n] == remote[..n]
    && (n < |local| && n < |remote| ==> local[n] != remote[n])
    && !(n == |local| == |remote|)
  }

  lemma {:induction false} UnequalIsFirst(offset: nat, local: seq<byte>, remote: seq<byte>)
    requires |local| == |remote|
    ensures FirstUnequal(offset, local, remote).None? <==> local == remote
    ensures FirstUnequal(offset, local, remote).Some? ==>
      var at := FirstUnequal(offset, local, remote).value;
      at >= offset && PartAt(local, remote, at - offset)
    decreases |local|
  {
    if |local| > 0 {
      UnequalIsFirst(offset + 1, local[1..], remote[1..]);
      assert local == [local[0]] + local[1..] && remote == [remote[0]] + remote[1..];
      var rest := FirstUnequal(offset + 1, local[1..], remote[1..]);
      if local[0] == remote[0] && rest.Some? {
        var n := rest.value - (offset + 1);
        assert local[..n + 1] == [local[0]] + local[1..][..n];
        assert remote[..n + 1] == [remote[0]] + remote[1..][..n];
      }
    }
  }

  /** No difference is reported exactly for equal buffers.  The offset reported is the first
      difference exactly when the lengths agree or the shorter buffer is a prefix of the longer:
      a short buffer that also differs earlier is reported at its end. */
  lemma DifferenceIsReported(offset: nat, local: seq<byte>, remote: seq<byte>)
    ensures FirstDifference(offset, local, remote).None? <==> local == remote
    ensures FirstDifference(offset, local, remote).Some? ==>
      var at := FirstDifference(offset, local, remote).value;
      at >= offset &&
      (PartAt(local, remote, at - offset) <==> |local| == |remote| || local <= remote || remote <= local)
  {
    if |local| == |remote| {
      UnequalIsFirst(offset, local, remote);
    } else {
      var n := Min(|local|, |remote|);
      assert local[..n] == remote[..n] <==> local <= remote || remote <= local;
    }
  }

  /** One byte against two: the buffers differ in their first byte and the second is reported. */
  lemma DifferenceReportedLate()
    ensures FirstDifference(0, [1, 2], [3]) == Some(1)
    ensures PartAt([1, 2], [3], 0)
  {
  }

  // ----- the check -----

  /** One window of the replacement. */
  datatype Fetched = Partial(bytes: seq<byte>) | OtherStatus | TransportError

  datatype Outcome = Report(verdict: Verdict) | ClientError

  /** Reading stops at the end of the file. */
  function ReadAt(file: seq<byte>, offset: nat, len: nat): seq<byte> {
    if offset >= |file| then [] else file[offset..Min(offset + len, |file|)]
  }

  predicate WindowMatches(file: seq<byte>, serve: Span -> Fetched, w: Span) {
    serve(w).Partial? && serve(w).bytes == ReadAt(file, w.start, w.len)
  }

  /** Compare window by window; the first that does not match decides. */
  method CheckWindows(windows: seq<Span>, file: seq<byte>, serve: Span -> Fetched)
    returns (failed: bool, mismatch: Option<nat>, ghost at: nat)
    ensures !failed && mismatch.None? <==> forall i :: 0 <= i < |windows| ==> WindowMatches(file, serve, windows[i])
    ensures at <= |windows| && forall i :: 0 <= i < at ==> WindowMatches(file, serve, windows[i])
    ensures at == |windows| <==> !failed && mismatch.None?
    ensures at < |windows| ==> !WindowMatches(file, serve, windows[at])
    ensures failed <==> at < |windows| && serve(windows[at]).TransportError?
    ensures at < |windows| && serve(windows[at]).OtherStatus? ==> mismatch == Some(windows[at].start)
    ensures at < |windows| && serve(windows[at]).Partial? ==>
      var w := windows[at];
      mismatch == FirstDifference(w.start, ReadAt(file, w.start, w.len), serve(w).bytes)
  {
    failed, mismatch, at := false, None, 0;
    for i := 0 to |windows|
      invariant at == i && !failed && mismatch.None?
      invariant forall j :: 0 <= j < i ==> WindowMatches(file, serve, windows[j])
    {
      var w := windows[i];
      var local := ReadAt(file, w.start, w.len);
      match serve(w) {
        case TransportError =>
          failed := true;
          return;
        case OtherStatus =>
          mismatch := Some(w.start);
          return;
        case Partial(remote) =>
          DifferenceIsReported(w.start, local, remote);
          var difference := FirstDifference(w.start, local, remote);
          if difference.Some? {
            mismatch := difference;
            return;
          }
      }
      at := i + 1;
    }
  }

  predicate Verifiable(total: nat, kept: Signals, offered: Signals) {
    total > 0 && offered.ranges && !Compare(kept, offered).SizeMismatch? && !Compare(kept, offered).CannotResume?
  }

  /** Content is looked at exactly when there is some and the headers leave the question open. */
  lemma VerifiableIff(total: nat, kept: Signals, offered: Signals)
    ensures Verifiable(total, kept, offered) <==> total > 0 && offered.ranges && !SizesContradict(kept, offered)
  {
  }

  /** The verdict if every window matched or none was looked at. */
  ghost predicate ByHeaders(kept: Signals, offered: Signals, v: Verdict) {
    if SizesContradict(kept, offered) then v == WrongSize(kept.size.value, offered.size.value)
    else if !offered.ranges then v == RestartOnly
    else if HeadersAgree(kept, offered) then v == Resume
    else v == Confirm
  }

  /** The outcome if this window is the first that does not match. */
  ghost predicate ByWindow(file: seq<byte>, fetched: Fetched, w: Span, outcome: Outcome) {
    match fetched
    case TransportError => outcome == ClientError
    case OtherStatus => outcome == Report(WrongContent(w.start))
    case Partial(remote) =>
      && outcome.Report? && outcome.verdict.WrongContent?
      && FirstDifference(w.start, ReadAt(file, w.start, w.len), remote) == Some(outcome.verdict.offset)
  }

  /** Headers, then content; content is checked even when the headers agree. */
  method Validate(kept: Signals, offered: Signals, completed: RangeSet, draw: nat -> nat, file: seq<byte>, serve: Span -> Fetched)
    returns (outcome: Outcome, ghost windows: seq<Span>, ghost at: nat)
    requires completed.Valid()
    // Windows are fetched exactly if something is on disk and the headers leave the question open.
    ensures windows != [] <==> completed.Total() > 0 && offered.ranges && !SizesContradict(kept, offered)
    ensures windows != [] ==>
      forall p: nat :: Picked(completed.spans, draw, WINDOW_COUNT, p) ==>
        Span(p, Min(WINDOW, completed.Total())) in windows
    ensures forall i :: 0 <= i < |windows| ==>
      Picked(completed.spans, draw, WINDOW_COUNT, windows[i].start) && windows[i].len == Min(WINDOW, completed.Total())
    // `at` is the first that does not match, if one does not.
    ensures at <= |windows| && forall i :: 0 <= i < at ==> WindowMatches(file, serve, windows[i])
    ensures at < |windows| ==> !WindowMatches(file, serve, windows[at])
    ensures at == |windows| ==> outcome.Report? && ByHeaders(kept, offered, outcome.verdict)
    ensures at < |windows| ==> ByWindow(file, serve(windows[at]), windows[at], outcome)
  {
    var pre := Compare(kept, offered);
    windows, at := [], 0;
    VerifiableIff(completed.Total(), kept, offered);
    VerdictIff(kept, offered, None);
    ResumesUnaskedIff(kept, offered, None);
    if !Verifiable(completed.Total(), kept, offered) {
      return Report(Finalize(pre, None)), windows, at;
    }
    var chosen := ChooseWindows(completed, draw, WINDOW_COUNT);
    windows := chosen;
    forall p: nat | Picked(completed.spans, draw, WINDOW_COUNT, p)
      ensures Span(p, Min(WINDOW, completed.Total())) in chosen
    {
      var i :| 0 <= i < |chosen| && chosen[i].start == p;
      assert chosen[i] == Span(p, Min(WINDOW, completed.Total()));
    }
    var failed, mismatch;
    failed, mismatch, at := CheckWindows(chosen, file, serve);
    if at < |chosen| && serve(chosen[at]).Partial? {
      var w := chosen[at];
      DifferenceIsReported(w.start, ReadAt(file, w.start, w.len), serve(w).bytes);
    }
    VerdictIff(kept, offered, mismatch);
    outcome := if failed then ClientError else Report(Finalize(pre, mismatch));
  }

  /** A replacement that serves the same file never meets a mismatch, provided what is on disk in
      the windows is that file; and damage to any byte of a window is caught. */
  lemma SameFileMatchesIff(file: seq<byte>, source: nat -> byte, serve: Span -> Fetched, w: Span)
    requires w.End() <= |file|
    requires serve(w).Partial? && |serve(w).bytes| == w.len && Aligned(serve(w).bytes, w.start, source)
    ensures WindowMatches(file, serve, w) <==> forall p: nat :: w.start <= p < w.End() ==> file[p] == source(p)
  {
    var local, remote := ReadAt(file, w.start, w.len), serve(w).bytes;
    if w.len > 0 {
      assert |local| == w.len && forall i :: 0 <= i < w.len ==> local[i] == file[w.start + i];
      if local == remote {
        forall p: nat | w.start <= p < w.End()
          ensures file[p] == source(p)
        {
          assert local[p - w.start] == remote[p - w.start] == source(w.start + (p - w.start));
        }
      }
    }
  }
}
