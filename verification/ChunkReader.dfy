/** A buffered byte source: the bytes arrive in non-empty chunks of any size. */
module ChunkReader {
  import opened Bytes
  import opened Sequences

  /** What the readers see of an AsyncBufRead. Read failures are not part of this model. */
  class Reader {
    var chunks: seq<Bytes>

    ghost predicate Valid()
      reads this
    {
      forall i :: 0 <= i < |chunks| ==> chunks[i] != []
    }

    /** Every byte not consumed yet, however it will be cut. */
    ghost function Remaining(): Bytes
      reads this
    {
      Flatten(chunks)
    }

    constructor (chunks: seq<Bytes>)
      requires forall i :: 0 <= i < |chunks| ==> chunks[i] != []
      ensures Valid() && this.chunks == chunks
    {
      this.chunks := chunks;
    }

    /** The buffered bytes; empty exactly at the end of the input. */
    method FillBuf() returns (buf: Bytes)
      requires Valid()
      ensures buf == if chunks == [] then [] else chunks[0]
      ensures buf <= Remaining()
      ensures buf == [] <==> Remaining() == []
    {
      buf := if chunks == [] then [] else chunks[0];
    }

    /** Drops the first n buffered bytes. */
    method Consume(n: nat)
      requires Valid()
      requires chunks != [] && n <= |chunks[0]|
      modifies this
      ensures Valid()
      ensures n <= |old(Remaining())| && Remaining() == old(Remaining())[n..]
    {
      var rest := chunks[0][n..];
      chunks := if rest == [] then chunks[1..] else [rest] + chunks[1..];
      assert rest != [] ==> chunks[1..] == old(chunks)[1..];
    }
  }
}
