/** Bytes at a place in the file. */
module Chunks {

  newtype byte = b: int | 0 <= b < 256

  /** Bytes fetched for offset `off`, on their way to the writer. */
  datatype Chunk = Chunk(off: nat, bytes: seq<byte>) {
    function End(): nat {
      off + |bytes|
    }

    predicate Has(p: nat) {
      off <= p < off + |bytes|
    }

    function At(p: nat): byte
      requires Has(p)
    {
      bytes[p - off]
    }

    ghost predicate Agrees(source: nat -> byte) {
      Aligned(bytes, off, source)
    }
  }

  /** `bytes` is what the file holds from `off` on. */
  ghost predicate Aligned(bytes: seq<byte>, off: nat, source: nat -> byte) {
    forall i :: 0 <= i < |bytes| ==> bytes[i] == source(off + i)
  }

  /** Some chunk holds byte `p`. */
  ghost predicate Sent(chunks: seq<Chunk>, p: nat) {
    exists i :: 0 <= i < |chunks| && chunks[i].Has(p)
  }

  function TotalBytes(chunks: seq<Chunk>): nat {
    if |chunks| == 0 then 0 else TotalBytes(chunks[..|chunks| - 1]) + |chunks[|chunks| - 1].bytes|
  }

  lemma SentMore(sent: seq<Chunk>, chunk: Chunk, p: nat)
    ensures Sent(sent + [chunk], p) <==> Sent(sent, p) || chunk.Has(p)
  {
    var all := sent + [chunk];
    if Sent(sent, p) {
      var i :| 0 <= i < |sent| && sent[i].Has(p);
      assert all[i].Has(p);
    }
    if chunk.Has(p) {
      assert all[|sent|].Has(p);
    }
  }
}
