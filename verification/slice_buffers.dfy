/** The gRPC slice buffer the unary-call hook inspects and, on a rewrite, rebuilds.
    Memory is modelled as byte sequences: the reference-counter block is the
    allocation holding the counter header followed by the payload, and the data
    pointer is the offset `dataOffset` into that block (`data - ref_counter`). */
module SliceBuffers {

  newtype byte = x: int | 0 <= x < 256

  /** `refCounted` is false when the `ref_counter` pointer is null; `block` is the
      memory `ref_counter` points at, `dataOffset` is `data - ref_counter`, and
      `length` is the payload length. */
  datatype SliceBuffer = SliceBuffer(refCounted: bool, block: seq<byte>, dataOffset: nat, length: nat)
  {
    /** The data pointer lies inside the block and the payload fits in it. */
    predicate Valid()
    {
      dataOffset + length <= |block|
    }

    /** The `length` bytes at `data`: what the callback is shown and what is sent. */
    function Payload(): (p: seq<byte>)
      requires Valid()
      ensures |p| == length
    {
      block[dataOffset..dataOffset + length]
    }

    /** The counter header: the bytes between `ref_counter` and `data`. */
    function Header(): (h: seq<byte>)
      requires Valid()
      ensures |h| == dataOffset
    {
      block[..dataOffset]
    }
  }

  /** The rewrite: a new block holding the first `headerSize` bytes of the old block
      followed by the replacement, with `data` pointing just past the copied header
      and `length` set to the replacement's length. */
  function Rebuild(buf: SliceBuffer, headerSize: nat, replacement: seq<byte>): (r: SliceBuffer)
    requires headerSize <= |buf.block|
    ensures r.refCounted
    ensures r.Valid()
    ensures |r.block| == headerSize + |replacement|
    ensures r.dataOffset == headerSize && r.length == |replacement|
    ensures r.Header() == buf.block[..headerSize]
    ensures r.Payload() == replacement
  {
    SliceBuffer(true, buf.block[..headerSize] + replacement, headerSize, |replacement|)
  }

  /** With the buffer's own header size, the rebuilt buffer keeps the old header. */
  lemma RebuildKeepsHeader(buf: SliceBuffer, replacement: seq<byte>)
    requires buf.Valid()
    ensures Rebuild(buf, buf.dataOffset, replacement).Header() == buf.Header()
  {
  }

  /** Rewriting a rewritten buffer with the same header size keeps the first rewrite's
      header and only the last replacement: the rewrites do not accumulate. */
  lemma RebuildTwice(buf: SliceBuffer, headerSize: nat, first: seq<byte>, second: seq<byte>)
    requires headerSize <= |buf.block|
    ensures Rebuild(Rebuild(buf, headerSize, first), headerSize, second) == Rebuild(buf, headerSize, second)
  {
  }

  /** Replacing the payload of a counted buffer whose block is exactly header plus
      payload by that same payload rebuilds the buffer unchanged. */
  lemma RebuildSamePayload(buf: SliceBuffer)
    requires buf.Valid() && buf.refCounted && |buf.block| == buf.dataOffset + buf.length
    ensures Rebuild(buf, buf.dataOffset, buf.Payload()) == buf
  {
  }
}
