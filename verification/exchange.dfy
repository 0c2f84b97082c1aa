/** The range exchange on the wire: the request the worker prints, what the test server makes of
    it, the `Content-Range` it prints, and what the worker makes of that (sections 14.1.2 and
    14.4 of RFC 9110). */
module Exchange {
  import opened Common
  import opened Spans
  import opened Chunks
  import P = Protocol

  // ----- strings -----

  predicate IsSpace(c: char) {
    c == ' ' || c == '\t' || c == '\n' || c == '\r'
  }

  predicate IsDigit(c: char) {
    '0' <= c <= '9'
  }

  function TrimStart(s: string): string {
    if |s| > 0 && IsSpace(s[0]) then TrimStart(s[1..]) else s
  }

  function TrimEnd(s: string): string {
    if |s| > 0 && IsSpace(s[|s| - 1]) then TrimEnd(s[..|s| - 1]) else s
  }

  function Trim(s: string): string {
    TrimEnd(TrimStart(s))
  }

  function StripPrefix(s: string, prefix: string): Option<string> {
    if prefix <= s then Some(s[|prefix|..]) else None
  }

  /** At the first `c`, which belongs to neither part. */
  function SplitOnce(s: string, c: char): Option<(string, string)> {
    if |s| == 0 then None
    else if s[0] == c then Some(("", s[1..]))
    else
      match SplitOnce(s[1..], c)
      case None => None
      case Some((a, b)) => Some(([s[0]] + a, b))
  }

  // ----- numbers -----

  function DigitChar(d: nat): (c: char)
    requires d < 10
    ensures IsDigit(c) && DigitValue(c) == d
  {
    '0' + d as char
  }

  function DigitValue(c: char): nat
    requires IsDigit(c)
  {
    (c - '0') as nat
  }

  function Decimal(n: nat): (s: string)
    ensures |s| > 0 && forall i :: 0 <= i < |s| ==> IsDigit(s[i])
  {
    if n < 10 then [DigitChar(n)] else Decimal(n / 10) + [DigitChar(n % 10)]
  }

  function DigitsValue(s: string): nat
    requires forall i :: 0 <= i < |s| ==> IsDigit(s[i])
  {
    if |s| == 0 then 0 else 10 * DigitsValue(s[..|s| - 1]) + DigitValue(s[|s| - 1])
  }

  /** Parsing an unsigned 64-bit number: an optional plus sign, then digits, no overflow. */
  function ParseU64(s: string): Option<nat> {
    var digits := if |s| > 1 && s[0] == '+' then s[1..] else s;
    if |digits| > 0 && (forall i :: 0 <= i < |digits| ==> IsDigit(digits[i])) && DigitsValue(digits) <= U64_MAX
    then Some(DigitsValue(digits))
    else None
  }

  lemma {:induction false} DecimalValue(n: nat)
    ensures DigitsValue(Decimal(n)) == n
  {
    if n >= 10 {
      DecimalValue(n / 10);
      var s := Decimal(n);
      assert s[..|s| - 1] == Decimal(n / 10) && s[|s| - 1] == DigitChar(n % 10);
    }
  }

  lemma ParsePrinted(n: nat)
    requires n <= U64_MAX
    ensures ParseU64(Decimal(n)) == Some(n)
    ensures Trim(Decimal(n)) == Decimal(n) && TrimStart(Decimal(n)) == Decimal(n)
  {
    DecimalValue(n);
    var s := Decimal(n);
    assert IsDigit(s[0]) && IsDigit(s[|s| - 1]);
  }

  /** A plus sign in front is read over. */
  lemma PlusIsReadOver(n: nat)
    requires n <= U64_MAX
    ensures ParseU64("+" + Decimal(n)) == ParseU64(Decimal(n)) == Some(n)
  {
    ParsePrinted(n);
    var s := "+" + Decimal(n);
    assert s[1..] == Decimal(n);
    DecimalValue(n);
  }

  lemma {:induction false} SplitAtFirst(a: string, c: char, b: string)
    requires c !in a
    ensures SplitOnce(a + [c] + b, c) == Some((a, b))
  {
    var s := a + [c] + b;
    if |a| == 0 {
      assert s[1..] == b;
    } else {
      SplitAtFirst(a[1..], c, b);
      assert s[1..] == a[1..] + [c] + b;
      assert [a[0]] + a[1..] == a;
    }
  }

  // ----- the client side -----

  /** First and last byte. */
  function Bounds(start: nat, end: nat): string {
    Decimal(start) + "-" + Decimal(end)
  }

  /** The request for `[start, end)`. */
  function RangeRequest(start: nat, end: nat): string
    requires start < end
  {
    "bytes=" + Bounds(start, end - 1)
  }

  function ParseBounds(range: string, total: string): Option<P.ContentRange> {
    match SplitOnce(Trim(range), '-')
    case None => None
    case Some((a, b)) =>
      match ParseU64(Trim(a))
      case None => None
      case Some(start) =>
        match ParseU64(Trim(b))
        case None => None
        case Some(end) =>
          if end < start then None
          else if Trim(total) == "*" then Some(P.ContentRange(start, end, None))
          else
            match ParseU64(Trim(total))
            case None => None
            case Some(t) => if end >= t then None else Some(P.ContentRange(start, end, Some(t)))
  }

  function ParseContentRange(v: string): Option<P.ContentRange> {
    match StripPrefix(Trim(v), "bytes")
    case None => None
    case Some(rest) =>
      match SplitOnce(TrimStart(rest), '/')
      case None => None
      case Some((range, total)) => ParseBounds(range, total)
  }

  /** What gets through is a range inside its stated total. */
  lemma ParsedIsConsistent(v: string)
    requires ParseContentRange(v).Some?
    ensures var cr := ParseContentRange(v).value;
      && cr.start <= cr.end <= U64_MAX
      && (cr.total.Some? ==> cr.end < cr.total.value <= U64_MAX)
  {
  }

  // ----- the server side -----

  function SizedBounds(start: nat, end: nat, size: nat): string {
    Bounds(start, end) + "/" + Decimal(size)
  }

  function PrintContentRange(start: nat, end: nat, size: nat): string {
    "bytes " + SizedBounds(start, end, size)
  }

  /** First and last byte asked for, clipped to the file. */
  function ParseRange(raw: string, size: nat): Option<(nat, nat)> {
    match StripPrefix(raw, "bytes=")
    case None => None
    case Some(spec) =>
      match SplitOnce(spec, '-')
      case None => None
      case Some((a, b)) =>
        match ParseU64(Trim(a))
        case None => None
        case Some(start) =>
          if Trim(b) == "" then (if start > Since(size, 1) then None else Some((start, Since(size, 1))))
          else
            match ParseU64(Trim(b))
            case None => None
            case Some(last) =>
              var end := Min(last, Since(size, 1));
              if start > end then None else Some((start, end))
  }

  /** How the server treats ranges: honours them, admits that it does not, or only pretends to. */
  datatype RangeMode = Yes | No | Lie

  /** What the server is set up to do: ranges, an encoding nobody asked for, and whether it has
      all the connections it wants. */
  datatype Scenario = Scenario(ranges: RangeMode, gzip: bool, full: bool)

  datatype Reply = Reply(status: nat, contentRange: Option<string>, gzip: bool, first: nat, length: nat)

  /** The reply to a request with or without a `Range` header. */
  function Serve(sc: Scenario, raw: Option<string>, size: nat): Reply {
    var requested := if raw.Some? then ParseRange(raw.value, size) else None;
    if sc.full then Reply(429, None, false, 0, 0)
    else if sc.ranges.Yes? && raw.Some? && "bytes=" <= raw.value && requested.None? then Reply(416, None, false, 0, 0)
    else if sc.ranges.Yes? && requested.Some? then
      var (start, end) := requested.value;
      Reply(206, Some(PrintContentRange(start, end, size)), sc.gzip, start, end + 1 - start)
    else Reply(200, None, sc.gzip, 0, Since(size, 1) + 1)
  }

  // ----- there and back -----

  lemma BoundsSplit(start: nat, end: nat)
    ensures var range := Bounds(start, end);
      |range| > 0 && IsDigit(range[0]) && Trim(range) == range && '/' !in range
      && SplitOnce(range, '-') == Some((Decimal(start), Decimal(end)))
  {
    var a, b := Decimal(start), Decimal(end);
    var range := a + "-" + b;
    assert range[0] == a[0] && range[|range| - 1] == b[|b| - 1];
    SplitAtFirst(a, '-', b);
  }

  lemma SizedBoundsSplit(start: nat, end: nat, size: nat)
    ensures var tail := SizedBounds(start, end, size);
      |tail| > 0 && IsDigit(tail[0]) && IsDigit(tail[|tail| - 1])
      && SplitOnce(tail, '/') == Some((Bounds(start, end), Decimal(size)))
  {
    BoundsSplit(start, end);
    var range, n := Bounds(start, end), Decimal(size);
    hide Bounds, Decimal, Trim, SplitOnce;
    var tail := SizedBounds(start, end, size);
    assert tail[0] == range[0] && tail[|tail| - 1] == n[|n| - 1];
    SplitAtFirst(range, '/', n);
  }

  lemma NothingToTrim(s: string)
    requires |s| > 0 && !IsSpace(s[0]) && !IsSpace(s[|s| - 1])
    ensures Trim(s) == s && TrimStart(s) == s
  {
  }

  lemma OneBlankGoes(s: string)
    requires |s| > 0 && !IsSpace(s[0])
    ensures TrimStart(" " + s) == s
  {
    assert (" " + s)[1..] == s;
  }

  lemma PrefixGoes(prefix: string, rest: string)
    ensures StripPrefix(prefix + rest, prefix) == Some(rest)
  {
    assert (prefix + rest)[|prefix|..] == rest;
  }

  lemma WordStrips(word: string, blank: string, tail: string)
    requires |word| > 0 && !IsSpace(word[0]) && |tail| > 0 && !IsSpace(tail[|tail| - 1])
    ensures var v := word + blank + tail; Trim(v) == v && StripPrefix(v, word) == Some(blank + tail)
  {
    hide Trim, StripPrefix;
    var v := word + blank + tail;
    assert v == word + (blank + tail);
    assert v[|v| - 1] == tail[|tail| - 1];
    NothingToTrim(v);
    PrefixGoes(word, blank + tail);
  }

  lemma HeaderStrips(tail: string)
    requires |tail| > 0 && !IsSpace(tail[0]) && !IsSpace(tail[|tail| - 1])
    ensures Trim("bytes " + tail) == "bytes " + tail
    ensures StripPrefix("bytes " + tail, "bytes") == Some(" " + tail)
    ensures TrimStart(" " + tail) == tail
  {
    hide Trim, TrimStart, StripPrefix;
    WordStrips("bytes", " ", tail);
    assert "bytes " == "bytes" + " ";
    OneBlankGoes(tail);
  }

  lemma RequestSplits(start: nat, end: nat)
    requires start < end
    ensures StripPrefix(RangeRequest(start, end), "bytes=") == Some(Bounds(start, end - 1))
  {
    assert RangeRequest(start, end) == "bytes=" + Bounds(start, end - 1);
  }

  /** The server understands the worker's request: the same first byte, the last byte clipped to
      the file, and a refusal exactly when the range starts past the end. */
  lemma RequestIsUnderstood(start: nat, end: nat, size: nat)
    requires start < end <= U64_MAX && size > 0
    ensures start < size ==> ParseRange(RangeRequest(start, end), size) == Some((start, Since(Min(end, size), 1)))
    ensures start >= size ==> ParseRange(RangeRequest(start, end), size) == None
  {
    hide Trim, SplitOnce, ParseU64, Bounds, StripPrefix, Decimal, RangeRequest;
    RequestSplits(start, end);
    BoundsSplit(start, end - 1);
    ParsePrinted(start);
    ParsePrinted(end - 1);
  }

  lemma BoundsRoundTrip(start: nat, end: nat, size: nat)
    requires start <= U64_MAX && end <= U64_MAX && size <= U64_MAX
    ensures ParseBounds(Bounds(start, end), Decimal(size)) ==
      if start <= end < size then Some(P.ContentRange(start, end, Some(size))) else None
  {
    BoundsSplit(start, end);
    ParsePrinted(start);
    ParsePrinted(end);
    ParsePrinted(size);
    assert Decimal(size)[0] != '*';
    hide Trim, SplitOnce, ParseU64, Decimal, Bounds;
  }

  /** What the server prints the worker reads back, if it is a range inside its total; anything
      else is not read at all. */
  lemma ContentRangeRoundTrip(start: nat, end: nat, size: nat)
    requires start <= U64_MAX && end <= U64_MAX && size <= U64_MAX
    ensures ParseContentRange(PrintContentRange(start, end, size)) ==
      if start <= end < size then Some(P.ContentRange(start, end, Some(size))) else None
  {
    hide Trim, TrimStart, SplitOnce, ParseBounds, SizedBounds, StripPrefix;
    BoundsRoundTrip(start, end, size);
    SizedBoundsSplit(start, end, size);
    HeaderStrips(SizedBounds(start, end, size));
  }

  lemma OpenBounds(start: nat)
    ensures SplitOnce(Decimal(start) + "-", '-') == Some((Decimal(start), ""))
    ensures StripPrefix("bytes=" + (Decimal(start) + "-"), "bytes=") == Some(Decimal(start) + "-")
  {
    SplitAtFirst(Decimal(start), '-', "");
    assert Decimal(start) + "-" + "" == Decimal(start) + "-";
  }

  /** A request may leave the last byte open: the rest of the file, or a refusal past its end. */
  lemma OpenRequestIsTheRest(start: nat, size: nat)
    requires start <= U64_MAX && size > 0
    ensures ParseRange("bytes=" + (Decimal(start) + "-"), size) ==
      if start < size then Some((start, Since(size, 1))) else None
  {
    hide SplitOnce, ParseU64, StripPrefix, Decimal;
    OpenBounds(start);
    ParsePrinted(start);
  }

  lemma UnsizedSplits(range: string)
    requires '/' !in range
    ensures SplitOnce(range + "/*", '/') == Some((range, "*"))
  {
    SplitAtFirst(range, '/', "*");
    assert range + "/" + "*" == range + "/*";
  }

  /** A reply may leave the total open: the worker reads the range, and no total. */
  lemma UnsizedReplyIsRead(start: nat, end: nat)
    requires start <= U64_MAX && end <= U64_MAX
    ensures ParseContentRange("bytes " + (Bounds(start, end) + "/*")) ==
      if start <= end then Some(P.ContentRange(start, end, None)) else None
  {
    BoundsSplit(start, end);
    var range := Bounds(start, end);
    ParsePrinted(start);
    ParsePrinted(end);
    UnsizedSplits(range);
    assert (range + "/*")[0] == range[0];
    HeaderStrips(range + "/*");
    assert Trim("*") == "*";
    hide Trim, TrimStart, SplitOnce, ParseU64, Decimal, Bounds, StripPrefix;
  }

  lemma PrintedNumbers()
    ensures Decimal(0) == "0" && Decimal(499) == "499" && Decimal(42) == "42" && Decimal(1233) == "1233" && Decimal(1234) == "1234"
  {
    assert Decimal(4) == "4" && Decimal(49) == "49" && Decimal(12) == "12" && Decimal(123) == "123";
  }

  lemma PrintedBounds()
    ensures Bounds(0, 499) == "0-499" && SizedBounds(42, 1233, 1234) == "42-1233/1234"
  {
    PrintedNumbers();
    hide Decimal;
    assert "0" + "-" + "499" == "0-499";
    assert "42" + "-" + "1233" == "42-1233";
    assert "42-1233" + "/" + "1234" == "42-1233/1234";
  }

  /** The forms of sections 14.1.2 and 14.4 of RFC 9110. */
  lemma WireFormats()
    ensures RangeRequest(0, 500) == "bytes=0-499"
    ensures ParseRange("bytes=0-499", 1234) == Some((0, 499))
    ensures PrintContentRange(42, 1233, 1234) == "bytes 42-1233/1234"
    ensures ParseContentRange("bytes 42-1233/1234") == Some(P.ContentRange(42, 1233, Some(1234)))
  {
    hide ParseRange, ParseContentRange, Bounds, SizedBounds;
    PrintedBounds();
    assert "bytes=" + "0-499" == "bytes=0-499";
    assert "bytes " + "42-1233/1234" == "bytes 42-1233/1234";
    RequestIsUnderstood(0, 500, 1234);
    ContentRangeRoundTrip(42, 1233, 1234);
  }

  // ----- the exchange as the protocol sees it -----

  /** The header as the worker's check sees it. */
  function Seen(header: Option<string>): Option<P.ContentRange> {
    if header.None? then None else ParseContentRange(header.value)
  }

  function Bytes(source: nat -> byte, first: nat, length: nat): seq<byte> {
    seq(length, i requires 0 <= i < length => source(first + i))
  }

  lemma BytesBelong(source: nat -> byte, first: nat, length: nat)
    ensures |Bytes(source, first, length)| == length && Aligned(Bytes(source, first, length), first, source)
  {
  }

  /** The reply as it arrives, the connection breaking after `cut` bytes of the body. */
  function Arrives(reply: Reply, cut: nat, source: nat -> byte): P.Response {
    P.Response(reply.status, Seen(reply.contentRange), reply.gzip,
               Bytes(source, reply.first, if reply.length <= cut then reply.length else cut))
  }

  /** The whole exchange for `[start, end)` of a file with a server that does as it says:
      accepted, honest, and exactly those bytes. */
  lemma ExchangeDeliversTheRange(start: nat, end: nat, size: nat, source: nat -> byte)
    requires start < end <= size <= U64_MAX
    ensures var r := Arrives(Serve(Scenario(Yes, false, false), Some(RangeRequest(start, end)), size), end - start, source);
      P.Accepted(r, start, size) && P.Honest(r, source) && |r.body| == end - start && Aligned(r.body, start, source)
  {
    hide ParseRange, ParseContentRange, PrintContentRange, RangeRequest, Bytes, Aligned;
    RequestIsUnderstood(start, end, size);
    ContentRangeRoundTrip(start, end - 1, size);
    BytesBelong(source, start, end - start);
  }

  /** What the worker's request for `[start, end)` gets: an error if no connection is to be had; the
      whole file from a server that does not honour ranges, or pretends to; otherwise what there is
      of the range, or a refusal if it starts past the end. */
  lemma RequestIsAnswered(sc: Scenario, start: nat, end: nat, size: nat)
    requires start < end <= U64_MAX && 0 < size <= U64_MAX
    ensures var r := Serve(sc, Some(RangeRequest(start, end)), size);
      && (sc.full ==> r.status == 429 && r.length == 0)
      && (!sc.full && !sc.ranges.Yes? ==>
            r.status == 200 && r.contentRange.None? && r.first == 0 && r.length == size && r.gzip == sc.gzip)
      && (!sc.full && sc.ranges.Yes? && start >= size ==> r.status == 416 && r.length == 0)
      && (!sc.full && sc.ranges.Yes? && start < size ==>
            && r.status == 206 && r.first == start && r.first + r.length == Min(end, size) && r.gzip == sc.gzip
            && r.contentRange.Some? && ParseContentRange(r.contentRange.value) == Some(P.ContentRange(start, Min(end, size) - 1, Some(size))))
  {
    hide ParseRange, ParseContentRange, PrintContentRange, Bounds;
    RequestIsUnderstood(start, end, size);
    if start < size {
      ContentRangeRoundTrip(start, Min(end, size) - 1, size);
    }
  }

  /** Without a range in bytes the whole file is sent; an empty one goes out as one byte. */
  lemma WholeFileIsServed(sc: Scenario, raw: Option<string>, size: nat)
    requires !sc.full && (raw.Some? ==> !("bytes=" <= raw.value))
    ensures var r := Serve(sc, raw, size);
      r.status == 200 && r.contentRange.None? && r.gzip == sc.gzip && r.first == 0 && r.length == Max(size, 1)
  {
    if raw.Some? {
      assert ParseRange(raw.value, size).None?;
    }
  }

  lemma ServedIsInFile(raw: string, size: nat)
    requires ParseRange(raw, size).Some?
    ensures var (start, end) := ParseRange(raw, size).value;
      start <= U64_MAX && start <= end <= Since(size, 1)
  {
    hide Trim, SplitOnce, StripPrefix;
  }

  /** Whatever the server is set up to do, whatever is asked of it, wherever the body breaks off and
      whatever length the worker expects: the reply is accepted exactly when the server honours
      ranges, does not transform the body, has a connection to spare, and the range asked for
      starts at the cursor of a file that is not empty and as long as expected; and then the body
      belongs where it is written. */
  lemma AcceptedRepliesAreHonest(sc: Scenario, raw: Option<string>, start: nat, total: nat, size: nat, cut: nat,
                                 source: nat -> byte)
    requires size <= U64_MAX
    ensures var r := Arrives(Serve(sc, raw, size), cut, source);
      && P.Honest(r, source)
      && (P.Accepted(r, start, total) <==>
          && sc.ranges.Yes? && !sc.gzip && !sc.full && 0 < size == total
          && raw.Some? && ParseRange(raw.value, size).Some? && ParseRange(raw.value, size).value.0 == start)
      && (P.Accepted(r, start, total) ==> Aligned(r.body, start, source) && start + |r.body| <= size)
  {
    hide ParseRange, ParseContentRange, PrintContentRange, Bytes, Aligned;
    var reply := Serve(sc, raw, size);
    BytesBelong(source, reply.first, if reply.length <= cut then reply.length else cut);
    if raw.Some? && ParseRange(raw.value, size).Some? {
      var (first, last) := ParseRange(raw.value, size).value;
      ServedIsInFile(raw.value, size);
      ContentRangeRoundTrip(first, last, size);
    }
  }
}
