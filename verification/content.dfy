/** The test server's synthetic file (content.rs): any byte is a function of its offset, and the
    blocked fast form agrees with it everywhere. */
module Contents {
  import opened Chunks
  import opened Media

  /** One output word of the generator, least significant byte first. */
  type Word8 = w: seq<byte> | |w| == 8 witness [0, 0, 0, 0, 0, 0, 0, 0]

  /** `words(b)` is the generator's word for block `b` under some seed. */
  function ByteAt(words: nat -> Word8, offset: nat): byte {
    words(offset / 8)[offset % 8]
  }

  /** The whole synthetic file. */
  function Stream(words: nat -> Word8): File {
    (p: nat) => ByteAt(words, p)
  }

  /** The eight bytes of a block are its word, lowest byte first. */
  lemma BlockIsWord(words: nat -> Word8, block: nat)
    ensures seq(8, (k: nat) => ByteAt(words, 8 * block + k)) == words(block)
  {
    forall k: nat | k < 8
      ensures ByteAt(words, 8 * block + k) == words(block)[k]
    {
      InWord(8 * block, k);
    }
  }

  ghost predicate FilledTo(words: nat -> Word8, start: nat, buf: array<byte>, i: nat)
    requires i <= buf.Length
    reads buf
  {
    forall k :: 0 <= k < i ==> buf[k] == ByteAt(words, start + k)
  }

  lemma NothingFilled(words: nat -> Word8, start: nat, buf: array<byte>)
    ensures FilledTo(words, start, buf, 0)
  {
  }

  /** One byte by itself. */
  method FillByte(words: nat -> Word8, start: nat, buf: array<byte>, i: nat)
    requires i < buf.Length && FilledTo(words, start, buf, i)
    modifies buf
    ensures FilledTo(words, start, buf, i + 1)
  {
    hide ByteAt;
    buf[i] := ByteAt(words, start + i);
  }

  /** One whole word. */
  method FillWord(words: nat -> Word8, start: nat, buf: array<byte>, i: nat)
    requires i + 8 <= buf.Length && (start + i) % 8 == 0 && FilledTo(words, start, buf, i)
    modifies buf
    ensures FilledTo(words, start, buf, i + 8)
  {
    CopyWord(words((start + i) / 8), buf, i);
    forall k | i <= k < i + 8
      ensures buf[k] == ByteAt(words, start + k)
    {
      InWord(start + i, k - i);
    }
  }

  /** Unaligned head, whole words, unaligned tail. */
  method Fill(words: nat -> Word8, start: nat, buf: array<byte>)
    modifies buf
    ensures FilledTo(words, start, buf, buf.Length)
  {
    hide ByteAt, FilledTo;
    NothingFilled(words, start, buf);
    var off, i: nat := start, 0;
    while i < buf.Length && off % 8 != 0
      invariant i <= buf.Length && off == start + i
      invariant FilledTo(words, start, buf, i)
    {
      FillByte(words, start, buf, i);
      i, off := i + 1, off + 1;
    }
    while i + 8 <= buf.Length
      invariant i <= buf.Length && off == start + i
      invariant off % 8 == 0 || i == buf.Length
      invariant FilledTo(words, start, buf, i)
    {
      FillWord(words, start, buf, i);
      i, off := i + 8, off + 8;
    }
    while i < buf.Length
      invariant i <= buf.Length && off == start + i
      invariant FilledTo(words, start, buf, i)
    {
      FillByte(words, start, buf, i);
      i, off := i + 1, off + 1;
    }
  }

  lemma InWord(off: nat, j: nat)
    requires off % 8 == 0 && j < 8
    ensures (off + j) / 8 == off / 8 && (off + j) % 8 == j
  {
  }

  method CopyWord(word: Word8, buf: array<byte>, i: nat)
    requires i + 8 <= buf.Length
    modifies buf
    ensures forall k :: 0 <= k < buf.Length ==> buf[k] == if i <= k < i + 8 then word[k - i] else old(buf[k])
  {
    for j := 0 to 8
      invariant forall k :: 0 <= k < buf.Length ==> buf[k] == if i <= k < i + j then word[k - i] else old(buf[k])
    {
      buf[i + j] := word[j];
    }
  }

  /** The bytes from `start` on. */
  method ChunkAt(words: nat -> Word8, start: nat, len: nat) returns (chunk: Chunk)
    ensures chunk.off == start && |chunk.bytes| == len
    ensures chunk.Agrees(Stream(words))
  {
    var buf := new byte[len](_ => 0);
    Fill(words, start, buf);
    chunk := Chunk(start, buf[..]);
  }

  /** Chunks generated anywhere, assembled in any order, rebuild the stream wherever some chunk
      lies, and touch nothing else. */
  lemma OutOfOrderAssembly(words: nat -> Word8, file: File, chunks: seq<Chunk>, p: nat)
    requires AllAgree(chunks, Stream(words))
    ensures WriteAll(file, chunks)(p) == if Sent(chunks, p) then ByteAt(words, p) else file(p)
  {
    WriteAllAgrees(file, chunks, Stream(words), p);
  }
}
