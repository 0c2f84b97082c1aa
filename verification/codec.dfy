/** The compact encoding of a range record (intervals.rs): varint pairs of the gap since the
    previous end and the length. */
module Codec {
  import opened Chunks
  import opened Spans

  /** Number of 64-bit words. */
  const WORD: nat := U64_MAX + 1

  datatype DecodeError = Truncated | Overflow | ZeroLength
  datatype Result<+T> = Success(value: T) | Failure(error: DecodeError)

  function Pow2(n: nat): (r: nat)
    ensures r > 0
  {
    if n == 0 then 1 else 2 * Pow2(n - 1)
  }

  // ----- one varint -----

  /** The bytes of `v`, low seven bits first, the top bit of each marking that more follow. */
  function VarintBytes(v: nat): (r: seq<byte>)
    ensures |r| > 0
  {
    if v >= 128 then [(v % 128 + 128) as byte] + VarintBytes(v / 128) else [v as byte]
  }

  method PutVarint(out: seq<byte>, value: nat) returns (r: seq<byte>)
    ensures r == out + VarintBytes(value)
  {
    r := out;
    var v := value;
    while v >= 128
      invariant r + VarintBytes(v) == out + VarintBytes(value)
    {
      assert VarintBytes(v) == [(v % 128 + 128) as byte] + VarintBytes(v / 128);
      r := r + [(v % 128 + 128) as byte];
      v := v / 128;
    }
    r := r + [v as byte];
  }

  /** `x << shift` in 64 bits: the bits pushed past the top are lost. */
  function ShiftLeft(x: nat, shift: nat): (r: nat)
    requires shift < 64
    ensures r + Pow2(shift) <= WORD && r <= x * Pow2(shift)
    ensures x * Pow2(shift) < WORD ==> r == x * Pow2(shift)
  {
    ShiftFacts(x, shift);
    (x * Pow2(shift)) % WORD
  }

  lemma {:induction false} PowSplit(a: nat, b: nat)
    ensures Pow2(a + b) == Pow2(a) * Pow2(b)
  {
    if a > 0 {
      PowSplit(a - 1, b);
    }
  }

  lemma MulMono(a: nat, b: nat, c: nat)
    requires a <= b
    ensures a * c <= b * c
  {
  }

  lemma MulAdd(a: nat, b: nat, c: nat)
    ensures (a + b) * c == a * c + b * c
  {
  }

  lemma MulAssoc(a: nat, b: nat, c: nat)
    ensures a * (b * c) == (a * b) * c
  {
  }

  lemma ShiftFacts(x: nat, shift: nat)
    requires shift < 64
    ensures (x * Pow2(shift)) % WORD + Pow2(shift) <= WORD
    ensures (x * Pow2(shift)) % WORD <= x * Pow2(shift)
    ensures x * Pow2(shift) < WORD ==> (x * Pow2(shift)) % WORD == x * Pow2(shift)
  {
    WordSplit(64 - shift, shift);
    ScaleMod(x, Pow2(64 - shift), Pow2(shift), WORD);
  }

  lemma ScaleMod(x: nat, m: nat, w: nat, n: nat)
    requires m > 0 && w > 0 && n > 0 && m * w == n
    ensures (x * w) % n + w <= n
    ensures (x * w) % n <= x * w
    ensures x * w < n ==> (x * w) % n == x * w
  {
    ModFacts(x * w, n);
    DivMod(x, m);
    ScaleSplit(x, x / m, x % m, m, w);
    ModUnique(x * w, x / m, (x % m) * w, n);
  }

  lemma ScaleSplit(x: nat, q: nat, low: nat, m: nat, w: nat)
    requires x == q * m + low && low < m && w > 0
    ensures x * w == q * (m * w) + low * w
    ensures low * w + w <= m * w
  {
    MulAdd(q * m, low, w);
    MulAssoc(q, m, w);
    MulMono(low + 1, m, w);
    MulAdd(low, 1, w);
  }

  lemma DivMod(x: nat, m: nat)
    requires m > 0
    ensures x == (x / m) * m + x % m && x % m < m
  {
  }

  lemma ModUnique(a: nat, q: nat, r: nat, n: nat)
    requires n > 0 && r < n && a == q * n + r
    ensures a % n == r
  {
    DivMod(a, n);
    var d := a / n;
    if d < q {
      MulMono(d + 1, q, n);
      MulAdd(d, 1, n);
    } else if q < d {
      MulMono(q + 1, d, n);
      MulAdd(q, 1, n);
    }
  }

  lemma ModFacts(x: nat, m: nat)
    requires m > 0
    ensures x % m < m && x % m <= x
    ensures x < m ==> x % m == x
  {
  }

  /** `get_varint` from position `i` with `v` read so far.  The bits of `v` all lie below
      `shift`, so the source's bitwise or is an addition. */
  function ReadVarint(bytes: seq<byte>, i: nat, v: nat, shift: nat): (r: Result<(nat, nat)>)
    ensures r.Success? ==> i < r.value.1 <= |bytes|
    decreases |bytes| - i
  {
    if i >= |bytes| then Failure(Truncated)
    else if shift >= 64 then Failure(Overflow)
    else
      var b := bytes[i] as int;
      var v' := v + ShiftLeft(b % 128, shift);
      if b < 128 then Success((v', i + 1)) else ReadVarint(bytes, i + 1, v', shift + 7)
  }

  method GetVarint(bytes: seq<byte>, i: nat) returns (r: Result<(nat, nat)>)
    ensures r == ReadVarint(bytes, i, 0, 0)
  {
    var v: nat, shift: nat, at: nat := 0, 0, i;
    while true
      invariant ReadVarint(bytes, at, v, shift) == ReadVarint(bytes, i, 0, 0)
      decreases |bytes| - at
    {
      if at >= |bytes| {
        return Failure(Truncated);
      }
      var b := bytes[at] as int;
      at := at + 1;
      if shift >= 64 {
        return Failure(Overflow);
      }
      v := v + ShiftLeft(b % 128, shift);
      if b < 128 {
        return Success((v, at));
      }
      shift := shift + 7;
    }
  }

  lemma LowBits(x: nat, v: nat, shift: nat)
    requires x < 128 && shift < 64 && v < Pow2(shift)
    ensures v + ShiftLeft(x, shift) < Pow2(shift + 7)
  {
    PowSplit(shift, 7);
    assert Pow2(7) == 128;
    ShiftFacts(x, shift);
    MulMono(x, 127, Pow2(shift));
  }

  /** `bytes` holds the encoding of `n` at position `i`. */
  ghost predicate HoldsVarint(bytes: seq<byte>, i: nat, n: nat) {
    var enc := VarintBytes(n);
    i + |enc| <= |bytes| && bytes[i..i + |enc|] == enc
  }

  /** In a tenth byte only the lowest bit still fits; the others vanish without an error, so
      the value read is the value written exactly when that byte is 0 or 1. */
  lemma TenthByteLosesBits(bytes: seq<byte>, i: nat, v: nat)
    requires i < |bytes| && bytes[i] < 128
    ensures ReadVarint(bytes, i, v, 63).Success?
    ensures ReadVarint(bytes, i, v, 63).value.0 == v + bytes[i] as nat * Pow2(63) <==> bytes[i] < 2
  {
    var b, w := bytes[i] as nat, Pow2(63);
    assert b % 128 == b;
    WordSplit(1, 63);
    ShiftFacts(b, 63);
    if b >= 2 {
      MulMono(2, b, w);
    } else {
      MulMono(b, 1, w);
    }
  }

  /** What the bytes from `i` on say: seven bits each, low first. */
  function Base128(bytes: seq<byte>, i: nat): nat
    decreases |bytes| - i
  {
    if i >= |bytes| then 0
    else if bytes[i] < 128 then bytes[i] as nat
    else bytes[i] as nat % 128 + 128 * Base128(bytes, i + 1)
  }

  lemma {:induction false} ReadIsExactFrom(bytes: seq<byte>, i: nat, v: nat, n: nat)
    requires n <= 9 && v < Pow2(7 * n) && ReadVarint(bytes, i, v, 7 * n).Success?
    ensures var (value, j) := ReadVarint(bytes, i, v, 7 * n).value;
      && j <= i + 10 - n
      && (value == v + Base128(bytes, i) * Pow2(7 * n) <==> j < i + 10 - n || bytes[j - 1] < 2)
    decreases 10 - n
  {
    hide Pow2, ShiftLeft;
    var b := bytes[i] as nat;
    if n == 9 {
      TenthByteLosesBits(bytes, i, v);
    } else {
      GroupFits(b % 128, v, n);
      if b >= 128 {
        SplitGroups(Base128(bytes, i), b % 128, Base128(bytes, i + 1), 7 * n);
        ReadIsExactFrom(bytes, i + 1, v + ShiftLeft(b % 128, 7 * n), n + 1);
      }
    }
  }

  lemma GroupFits(x: nat, v: nat, n: nat)
    requires x < 128 && n < 9 && v < Pow2(7 * n)
    ensures ShiftLeft(x, 7 * n) == x * Pow2(7 * n)
    ensures v + ShiftLeft(x, 7 * n) < Pow2(7 * (n + 1))
  {
    LowBits(x, v, 7 * n);
    PowSplit(7 * n, 7);
    assert Pow2(7) == 128;
    MulMono(x, 127, Pow2(7 * n));
    PowGrows(7 * (n + 1), 64);
    WordSplit(0, 64);
  }

  lemma PowGrows(a: nat, b: nat)
    requires a <= b
    ensures Pow2(a) <= Pow2(b)
  {
    PowSplit(a, b - a);
    MulMono(1, Pow2(b - a), Pow2(a));
  }

  /** What is read is what the bytes say exactly when there is no tenth byte, or that byte is 0 or 1. */
  lemma ReadIsExactIff(bytes: seq<byte>, i: nat)
    requires ReadVarint(bytes, i, 0, 0).Success?
    ensures var (value, j) := ReadVarint(bytes, i, 0, 0).value;
      && j <= i + 10
      && (value == Base128(bytes, i) <==> j < i + 10 || bytes[j - 1] < 2)
  {
    ReadIsExactFrom(bytes, i, 0, 0);
  }

  /** The number of continuation bytes from `i` on. */
  function Continued(bytes: seq<byte>, i: nat): (n: nat)
    ensures i <= |bytes| ==> i + n <= |bytes|
    decreases |bytes| - i
  {
    if i >= |bytes| || bytes[i] < 128 then 0 else 1 + Continued(bytes, i + 1)
  }

  lemma {:induction false} ReadFrom(bytes: seq<byte>, i: nat, v: nat, n: nat)
    requires n <= 10 && i <= |bytes|
    ensures var m, r := Continued(bytes, i), ReadVarint(bytes, i, v, 7 * n);
      && (r.Success? <==> n + m < 10 && i + m < |bytes|)
      && (r.Success? ==> r.value.1 == i + m + 1)
      && (r.Failure? ==> r.error == if i + m == |bytes| && n + m <= 10 then Truncated else Overflow)
    decreases 10 - n
  {
    hide ShiftLeft;
    if i < |bytes| && n < 10 && bytes[i] >= 128 {
      ReadFrom(bytes, i + 1, v + ShiftLeft(bytes[i] as nat % 128, 7 * n), n + 1);
    }
  }

  /** When reading ends: at the first byte that does not continue, if it is one of the first ten; it
      fails for want of bytes if they run out before an eleventh is needed, and as too long
      otherwise. */
  lemma ReadEnds(bytes: seq<byte>, i: nat)
    requires i <= |bytes|
    ensures var m, r := Continued(bytes, i), ReadVarint(bytes, i, 0, 0);
      && (r.Success? <==> m < 10 && i + m < |bytes|)
      && (r.Success? ==> r.value.1 == i + m + 1)
      && (r.Failure? ==> r.error == if i + m == |bytes| && m <= 10 then Truncated else Overflow)
  {
    ReadFrom(bytes, i, 0, 0);
  }

  /** Ten bytes that are read without an error, and not as what they say. */
  lemma TenBytesMisread()
    ensures var bytes: seq<byte> := seq(9, _ => 128) + [2];
      ReadVarint(bytes, 0, 0, 0).Success? && ReadVarint(bytes, 0, 0, 0).value.0 != Base128(bytes, 0)
  {
    var bytes: seq<byte> := seq(9, _ => 128) + [2];
    ZerosThenTwo(bytes, 0);
    ReadIsExactIff(bytes, 0);
  }

  lemma {:induction false} ZerosThenTwo(bytes: seq<byte>, n: nat)
    requires bytes == seq(9, _ => 128) + [2] && n <= 9
    ensures ReadVarint(bytes, n, 0, 7 * n).Success? && ReadVarint(bytes, n, 0, 7 * n).value.1 == 10
    decreases 10 - n
  {
    if n < 9 {
      ZerosThenTwo(bytes, n + 1);
      assert bytes[n] == 128 && ShiftLeft(0, 7 * n) == 0;
    } else {
      assert bytes[n] == 2;
    }
  }

  /** Reading undoes writing and consumes exactly the bytes written. */
  lemma {:induction false} ReadUndoesPut(bytes: seq<byte>, i: nat, n: nat, v: nat, shift: nat)
    requires HoldsVarint(bytes, i, n)
    requires v < Pow2(shift) && v + n * Pow2(shift) < WORD && (n > 0 || shift == 0)
    ensures ReadVarint(bytes, i, v, shift) == Success((v + n * Pow2(shift), i + |VarintBytes(n)|))
    decreases n
  {
    ShiftIsSmall(n, shift);
    assert bytes[i] == bytes[i..i + |VarintBytes(n)|][0];
    if n >= 128 {
      var low, high := n % 128, n / 128;
      SplitGroups(n, low, high, shift);
      LowBits(low, v, shift);
      HoldsTail(bytes, i, n);
      ReadUndoesPut(bytes, i + 1, high, v + low * Pow2(shift), shift + 7);
    }
  }

  lemma ReadWhole(bytes: seq<byte>, i: nat, n: nat)
    requires HoldsVarint(bytes, i, n) && n < WORD
    ensures ReadVarint(bytes, i, 0, 0) == Success((n, i + |VarintBytes(n)|))
  {
    ReadUndoesPut(bytes, i, n, 0, 0);
  }

  lemma HoldsTail(bytes: seq<byte>, i: nat, n: nat)
    requires HoldsVarint(bytes, i, n) && n >= 128
    ensures HoldsVarint(bytes, i + 1, n / 128)
  {
    var enc, tail := VarintBytes(n), VarintBytes(n / 128);
    assert enc[1..] == tail;
    assert bytes[i + 1..i + 1 + |tail|] == bytes[i..i + |enc|][1..];
  }

  lemma SplitGroups(n: nat, low: nat, high: nat, shift: nat)
    requires n == high * 128 + low
    ensures n * Pow2(shift) == high * Pow2(shift + 7) + low * Pow2(shift)
    ensures low * Pow2(shift) <= n * Pow2(shift)
  {
    PowSplit(7, shift);
    assert Pow2(7) == 128;
    MulAdd(high * 128, low, Pow2(shift));
    MulAssoc(high, 128, Pow2(shift));
  }

  lemma FullShift(shift: nat)
    requires shift >= 64
    ensures Pow2(shift) >= WORD
  {
    hide Pow2;
    WordSplit(0, 64);
    PowSplit(shift - 64, 64);
    MulMono(1, Pow2(shift - 64), WORD);
  }

  lemma ShiftIsSmall(n: nat, shift: nat)
    requires n * Pow2(shift) < WORD && (n > 0 || shift == 0)
    ensures shift < 64
  {
    hide Pow2;
    if shift >= 64 {
      FullShift(shift);
      MulMono(1, n, Pow2(shift));
    }
  }

  /** A 64-bit value takes at most ten bytes. */
  lemma {:induction false} VarintLength(v: nat, groups: nat)
    requires groups > 0 && v < Pow2(7 * groups)
    ensures |VarintBytes(v)| <= groups
    decreases groups
  {
    assert Pow2(7) == 128;
    if v >= 128 {
      assert groups > 1;
      PowSplit(7, 7 * (groups - 1));
      assert v / 128 < Pow2(7 * (groups - 1));
      VarintLength(v / 128, groups - 1);
    }
  }

  lemma AtMostTenBytes(v: nat)
    requires v <= U64_MAX
    ensures |VarintBytes(v)| <= 10
  {
    WordSplit(0, 64);
    PowSplit(64, 6);
    VarintLength(v, 10);
  }

  /** 2^64 is the number of words. */
  lemma WordSplit(a: nat, b: nat)
    requires a + b == 64
    ensures Pow2(a) * Pow2(b) == WORD
  {
    PowSplit(a, b);
    PowDouble(8, 256);
    PowDouble(16, 0x1_0000);
    PowDouble(32, 0x1_0000_0000);
  }

  lemma PowDouble(n: nat, v: nat)
    requires Pow2(n) == v
    ensures Pow2(n + n) == v * v
  {
    PowSplit(n, n);
  }

  // ----- a whole record -----

  /** The spans come in order, none of them before `prevEnd`. */
  ghost predicate Follows(spans: seq<Span>, prevEnd: nat) {
    Ordered(spans) && (|spans| > 0 ==> prevEnd <= spans[0].start)
  }

  ghost function EncodeFrom(spans: seq<Span>, prevEnd: nat): seq<byte>
    requires Follows(spans, prevEnd)
  {
    if |spans| == 0 then []
    else
      VarintBytes(spans[0].start - prevEnd) + VarintBytes(spans[0].len) + EncodeFrom(spans[1..], spans[0].End())
  }

  method Encode(spans: seq<Span>) returns (out: seq<byte>)
    requires Ordered(spans)
    ensures out == EncodeFrom(spans, 0)
  {
    out := [];
    var prevEnd: nat := 0;
    assert spans[0..] == spans;
    for i := 0 to |spans|
      invariant Follows(spans[i..], prevEnd)
      invariant out + EncodeFrom(spans[i..], prevEnd) == EncodeFrom(spans, 0)
    {
      EncodeStep(out, spans, i, prevEnd);
      out := PutVarint(out, spans[i].start - prevEnd);
      out := PutVarint(out, spans[i].len);
      prevEnd := spans[i].End();
    }
  }

  lemma EncodeStep(out: seq<byte>, spans: seq<Span>, i: nat, prevEnd: nat)
    requires i < |spans| && Follows(spans[i..], prevEnd)
    ensures Follows(spans[i + 1..], spans[i].End())
    ensures out + EncodeFrom(spans[i..], prevEnd)
         == out + VarintBytes(spans[i].start - prevEnd) + VarintBytes(spans[i].len)
              + EncodeFrom(spans[i + 1..], spans[i].End())
  {
    assert spans[i..][0] == spans[i] && spans[i..][1..] == spans[i + 1..];
  }

  function Prepend(first: seq<Span>, rest: Result<seq<Span>>): Result<seq<Span>> {
    match rest
    case Success(spans) => Success(first + spans)
    case Failure(e) => Failure(e)
  }

  ghost function DecodeFrom(bytes: seq<byte>, i: nat, prevEnd: nat): Result<seq<Span>>
    decreases |bytes| - i
  {
    if i >= |bytes| then Success([])
    else
      match ReadVarint(bytes, i, 0, 0)
      case Failure(e) => Failure(e)
      case Success((gap, j)) =>
        match ReadVarint(bytes, j, 0, 0)
        case Failure(e) => Failure(e)
        case Success((len, k)) =>
          if len == 0 then Failure(ZeroLength)
          else if prevEnd + gap > U64_MAX || prevEnd + gap + len > U64_MAX then Failure(Overflow)
          else Prepend([Span(prevEnd + gap, len)], DecodeFrom(bytes, k, prevEnd + gap + len))
  }

  method Decode(bytes: seq<byte>) returns (r: Result<seq<Span>>)
    ensures r == DecodeFrom(bytes, 0, 0)
  {
    var spans: seq<Span> := [];
    PrependNothing(DecodeFrom(bytes, 0, 0));
    var i: nat, prevEnd: nat := 0, 0;
    while i < |bytes|
      invariant Prepend(spans, DecodeFrom(bytes, i, prevEnd)) == DecodeFrom(bytes, 0, 0)
      decreases |bytes| - i
    {
      var gap := GetVarint(bytes, i);
      if gap.Failure? {
        return Failure(gap.error);
      }
      var len := GetVarint(bytes, gap.value.1);
      if len.Failure? {
        return Failure(len.error);
      }
      if len.value.0 == 0 {
        return Failure(ZeroLength);
      }
      var start := prevEnd + gap.value.0;
      if start > U64_MAX {
        return Failure(Overflow);
      }
      var end := start + len.value.0;
      if end > U64_MAX {
        return Failure(Overflow);
      }
      PrependTwice(spans, Span(start, len.value.0), DecodeFrom(bytes, len.value.1, end));
      spans := spans + [Span(start, len.value.0)];
      i, prevEnd := len.value.1, end;
    }
    assert spans + [] == spans;
    r := Success(spans);
  }

  lemma PrependNothing(rest: Result<seq<Span>>)
    ensures Prepend([], rest) == rest
  {
    if rest.Success? {
      assert [] + rest.value == rest.value;
    }
  }

  lemma PrependTwice(spans: seq<Span>, s: Span, rest: Result<seq<Span>>)
    ensures Prepend(spans, Prepend([s], rest)) == Prepend(spans + [s], rest)
  {
    if rest.Success? {
      assert spans + ([s] + rest.value) == spans + [s] + rest.value;
    }
  }

  lemma {:induction false} DecodeUndoesEncodeFrom(spans: seq<Span>, prevEnd: nat, bytes: seq<byte>, i: nat)
    requires Follows(spans, prevEnd) && Fits(spans)
    requires i <= |bytes| && bytes[i..] == EncodeFrom(spans, prevEnd)
    ensures DecodeFrom(bytes, i, prevEnd) == Success(spans)
    decreases |spans|
  {
    if |spans| > 0 {
      var j, k := EncodeHead(spans, prevEnd, bytes, i);
      DecodeUndoesEncodeFrom(spans[1..], spans[0].End(), bytes, k);
      DecodeHead(spans, prevEnd, bytes, i, j, k);
    }
  }

  lemma DecodeHead(spans: seq<Span>, prevEnd: nat, bytes: seq<byte>, i: nat, j: nat, k: nat)
    requires Follows(spans, prevEnd) && Fits(spans) && |spans| > 0
    requires i < |bytes| && j < k
    requires ReadVarint(bytes, i, 0, 0) == Success((spans[0].start - prevEnd, j))
    requires ReadVarint(bytes, j, 0, 0) == Success((spans[0].len, k))
    requires DecodeFrom(bytes, k, spans[0].End()) == Success(spans[1..])
    ensures DecodeFrom(bytes, i, prevEnd) == Success(spans)
  {
    assert [Span(spans[0].start, spans[0].len)] + spans[1..] == spans;
  }

  lemma EncodeHead(spans: seq<Span>, prevEnd: nat, bytes: seq<byte>, i: nat) returns (j: nat, k: nat)
    requires Follows(spans, prevEnd) && Fits(spans) && |spans| > 0
    requires i <= |bytes| && bytes[i..] == EncodeFrom(spans, prevEnd)
    ensures Follows(spans[1..], spans[0].End())
    ensures i < j < k <= |bytes| && bytes[k..] == EncodeFrom(spans[1..], spans[0].End())
    ensures ReadVarint(bytes, i, 0, 0) == Success((spans[0].start - prevEnd, j))
    ensures ReadVarint(bytes, j, 0, 0) == Success((spans[0].len, k))
  {
    var gap, len := spans[0].start - prevEnd, spans[0].len;
    j := i + |VarintBytes(gap)|;
    k := j + |VarintBytes(len)|;
    HoldsParts(bytes, i, gap, len, EncodeFrom(spans[1..], spans[0].End()));
    ReadWhole(bytes, i, gap);
    ReadWhole(bytes, j, len);
  }

  lemma HoldsParts(bytes: seq<byte>, i: nat, a: nat, b: nat, rest: seq<byte>)
    requires i <= |bytes| && bytes[i..] == VarintBytes(a) + VarintBytes(b) + rest
    ensures HoldsVarint(bytes, i, a) && HoldsVarint(bytes, i + |VarintBytes(a)|, b)
    ensures i + |VarintBytes(a)| + |VarintBytes(b)| <= |bytes|
    ensures bytes[i + |VarintBytes(a)| + |VarintBytes(b)|..] == rest
  {
    hide VarintBytes;
    var m, n := |VarintBytes(a)|, |VarintBytes(b)|;
    ThreeSlices(VarintBytes(a), VarintBytes(b), rest);
    DropSlice(bytes, i, 0, m);
    DropSlice(bytes, i, m, m + n);
    DropSlice(bytes, i, m + n, |bytes| - i);
  }

  lemma ThreeSlices(x: seq<byte>, y: seq<byte>, z: seq<byte>)
    ensures var s := x + y + z;
      s[0..|x|] == x && s[|x|..|x| + |y|] == y && s[|x| + |y|..|s|] == z
  {
  }

  lemma DropSlice(s: seq<byte>, i: nat, a: nat, b: nat)
    requires a <= b && i + b <= |s|
    ensures s[i..][a..b] == s[i + a..i + b]
  {
  }

  /** A stored record reads back as itself. */
  lemma DecodeUndoesEncode(spans: seq<Span>)
    requires Spans.Valid(spans)
    ensures DecodeFrom(EncodeFrom(spans, 0), 0, 0) == Success(spans)
  {
    var bytes := EncodeFrom(spans, 0);
    assert bytes[0..] == bytes;
    DecodeUndoesEncodeFrom(spans, 0, bytes, 0);
  }

  lemma EncodeIsInjective(a: seq<Span>, b: seq<Span>)
    requires Spans.Valid(a) && Spans.Valid(b)
    requires EncodeFrom(a, 0) == EncodeFrom(b, 0)
    ensures a == b
  {
    DecodeUndoesEncode(a);
    DecodeUndoesEncode(b);
  }

  /** Whatever decodes is sorted and disjoint, has no empty span and fits in 64 bits. */
  lemma {:induction false} DecodedIsOrdered(bytes: seq<byte>, i: nat, prevEnd: nat)
    requires DecodeFrom(bytes, i, prevEnd).Success?
    ensures Follows(DecodeFrom(bytes, i, prevEnd).value, prevEnd)
    ensures Fits(DecodeFrom(bytes, i, prevEnd).value)
    decreases |bytes| - i
  {
    if i < |bytes| {
      var (gap, j) := ReadVarint(bytes, i, 0, 0).value;
      var (len, k) := ReadVarint(bytes, j, 0, 0).value;
      var start := prevEnd + gap;
      DecodedIsOrdered(bytes, k, start + len);
      var rest := DecodeFrom(bytes, k, start + len).value;
      assert DecodeFrom(bytes, i, prevEnd).value == [Span(start, len)] + rest;
      FollowedBy(Span(start, len), rest);
    }
  }

  lemma FollowedBy(s: Span, rest: seq<Span>)
    requires s.len > 0 && Follows(rest, s.End())
    ensures Ordered([s] + rest)
  {
    assert forall i :: 0 < i < |rest| ==> rest[0].End() <= rest[i].start;
  }

  /** From position `i` on, no pair of varints starts with a zero gap. */
  predicate NoZeroGap(bytes: seq<byte>, i: nat)
    decreases |bytes| - i
  {
    var gap := ReadVarint(bytes, i, 0, 0);
    gap.Success? ==>
      && gap.value.0 > 0
      && var len := ReadVarint(bytes, gap.value.1, 0, 0);
         len.Success? ==> NoZeroGap(bytes, len.value.1)
  }

  /** The same, but for the first pair: a record may start at byte 0. */
  predicate NoLaterZeroGap(bytes: seq<byte>) {
    var gap := ReadVarint(bytes, 0, 0, 0);
    gap.Success? ==>
      var len := ReadVarint(bytes, gap.value.1, 0, 0);
      len.Success? ==> NoZeroGap(bytes, len.value.1)
  }

  lemma {:induction false} RestIsCanonicalIff(bytes: seq<byte>, i: nat, prevEnd: nat)
    requires DecodeFrom(bytes, i, prevEnd).Success?
    ensures var rest := DecodeFrom(bytes, i, prevEnd).value;
      NoZeroGap(bytes, i) <==> Canonical(rest) && (|rest| > 0 ==> prevEnd < rest[0].start)
    decreases |bytes| - i
  {
    if i < |bytes| {
      var (gap, j) := ReadVarint(bytes, i, 0, 0).value;
      var (len, k) := ReadVarint(bytes, j, 0, 0).value;
      var s := Span(prevEnd + gap, len);
      var rest := DecodeFrom(bytes, k, s.End()).value;
      assert DecodeFrom(bytes, i, prevEnd).value == [s] + rest;
      RestIsCanonicalIff(bytes, k, s.End());
      CanonicalCons(s, rest);
    }
  }

  lemma CanonicalCons(s: Span, rest: seq<Span>)
    requires s.len > 0
    ensures Canonical([s] + rest) <==> Canonical(rest) && (|rest| > 0 ==> s.End() < rest[0].start)
  {
    var all := [s] + rest;
    if Canonical(all) {
      forall i, j | 0 <= i < j < |rest|
        ensures rest[i].End() < rest[j].start
      {
        assert all[i + 1].End() < all[j + 1].start;
      }
      assert forall i :: 0 <= i < |rest| ==> rest[i] == all[i + 1];
      assert |rest| > 0 ==> all[0].End() < all[1].start;
    }
    if Canonical(rest) && (|rest| > 0 ==> s.End() < rest[0].start) {
      forall i, j | 0 <= i < j < |all|
        ensures all[i].End() < all[j].start
      {
        assert i > 0 ==> rest[i - 1].End() < rest[j - 1].start;
        assert j > 1 ==> rest[0].End() < rest[j - 1].start;
      }
    }
  }

  /** But it need not be canonical: a zero gap between spans is accepted.  The record is canonical
      exactly when the bytes have no zero gap after the first pair. */
  lemma DecodedIsCanonicalIff(bytes: seq<byte>)
    requires DecodeFrom(bytes, 0, 0).Success?
    ensures Canonical(DecodeFrom(bytes, 0, 0).value) <==> NoLaterZeroGap(bytes)
  {
    if |bytes| > 0 {
      var (gap, j) := ReadVarint(bytes, 0, 0, 0).value;
      var (len, k) := ReadVarint(bytes, j, 0, 0).value;
      var rest := DecodeFrom(bytes, k, gap + len).value;
      assert DecodeFrom(bytes, 0, 0).value == [Span(gap, len)] + rest;
      RestIsCanonicalIff(bytes, k, gap + len);
      CanonicalCons(Span(gap, len), rest);
    }
  }

  /** What is refused: an empty span, half a pair, and a span past the last u64. */
  lemma DecodeRefuses()
    ensures DecodeFrom([3, 0], 0, 0) == Failure(ZeroLength)
    ensures DecodeFrom([3], 0, 0) == Failure(Truncated)
    ensures forall rest: seq<byte> :: DecodeFrom(VarintBytes(U64_MAX) + [1] + rest, 0, 0) == Failure(Overflow)
  {
    ReadWhole([3, 0], 0, 3);
    ReadWhole([3, 0], 1, 0);
    ReadWhole([3], 0, 3);
    forall rest: seq<byte>
      ensures DecodeFrom(VarintBytes(U64_MAX) + [1] + rest, 0, 0) == Failure(Overflow)
    {
      var big, bytes := VarintBytes(U64_MAX), VarintBytes(U64_MAX) + [1] + rest;
      assert bytes[0..0 + |big|] == big;
      ReadWhole(bytes, 0, U64_MAX);
      assert bytes[|big|] == 1;
      ReadWhole(bytes, |big|, 1);
    }
  }

  /** Four bytes that decode to two touching spans. */
  lemma DecodeAcceptsTouchingSpans()
    ensures DecodeFrom([0, 1, 0, 1], 0, 0) == Success([Span(0, 1), Span(1, 1)])
    ensures !Canonical([Span(0, 1), Span(1, 1)])
  {
    var bytes: seq<byte> := [0, 1, 0, 1];
    ReadWhole(bytes, 0, 0);
    ReadWhole(bytes, 1, 1);
    ReadWhole(bytes, 2, 0);
    ReadWhole(bytes, 3, 1);
    assert DecodeFrom(bytes, 4, 2) == Success([]);
    assert [Span(1, 1)] + [] == [Span(1, 1)];
    assert [Span(0, 1)] + [Span(1, 1)] == [Span(0, 1), Span(1, 1)];
    assert [Span(0, 1), Span(1, 1)][0].End() == [Span(0, 1), Span(1, 1)][1].start;
  }
}
