/**
 * The receiver's reassembly buffer for one peer: the chunks received so far,
 * the file size the peer declared in its request, and the running byte count.
 */
module Reassembly {
  import opened Chunking

  datatype Buffer = Buffer(chunks: seq<Bytes>, fileSize: nat, receivedDataSize: nat)
  {
    /** The running count is the total length of the chunks held. */
    predicate Consistent()
    {
      receivedDataSize == TotalLength(chunks)
    }

    /** The receiver's completion test: the count is no longer below the declared size. */
    predicate Complete()
    {
      !(receivedDataSize < fileSize)
    }
  }

  /** The buffer `acceptRequest` allocates for a declared size. */
  function Empty(fileSize: nat): (b: Buffer)
    ensures b.Consistent() && b.fileSize == fileSize
    ensures b.receivedDataSize == 0 && Flatten(b.chunks) == []
  {
    Buffer([], fileSize, 0)
  }

  /**
   * One binary chunk arriving: it is appended and the count rises by exactly
   * its length. Nothing is checked against the declared size.
   */
  function Append(b: Buffer, chunk: Bytes): (r: Buffer)
    ensures r.fileSize == b.fileSize
    ensures r.receivedDataSize == b.receivedDataSize + |chunk| >= b.receivedDataSize
    ensures Flatten(r.chunks) == Flatten(b.chunks) + chunk
    ensures b.Consistent() ==> r.Consistent()
  {
    FlattenSnoc(b.chunks, chunk);
    Buffer(b.chunks + [chunk], b.fileSize, b.receivedDataSize + |chunk|)
  }

  /** In a consistent buffer the count is the length of the file image it would hand off. */
  lemma ReceivedIsImageLength(b: Buffer)
    requires b.Consistent()
    ensures b.receivedDataSize == |Flatten(b.chunks)|
  {
    FlattenLength(b.chunks);
  }

  /** Appending several chunks in turn, from a given buffer. */
  function AppendAll(b: Buffer, cs: seq<Bytes>): Buffer
  {
    if cs == [] then b else Append(AppendAll(b, cs[..|cs| - 1]), cs[|cs| - 1])
  }

  /**
   * Whatever the chunks, appending them never lowers the count, and from the
   * empty buffer the count equals the sum of their lengths and the image is
   * their concatenation.
   */
  lemma {:induction false} AppendAllCounts(b: Buffer, cs: seq<Bytes>)
    ensures AppendAll(b, cs).receivedDataSize == b.receivedDataSize + TotalLength(cs)
    ensures AppendAll(b, cs).chunks == b.chunks + cs
    ensures AppendAll(b, cs).fileSize == b.fileSize
  {
    if cs != [] {
      var init := cs[..|cs| - 1];
      AppendAllCounts(b, init);
      assert cs == init + [cs[|cs| - 1]];
      FlattenSnoc(init, cs[|cs| - 1]);
    }
  }

  /**
   * The receiver trusts the declared size: a chunk that carries the count past
   * it is appended like any other, and the buffer is then reported complete.
   */
  lemma OverLengthAccepted(b: Buffer, chunk: Bytes)
    requires b.receivedDataSize + |chunk| > b.fileSize
    ensures Append(b, chunk).receivedDataSize > Append(b, chunk).fileSize
    ensures Append(b, chunk).Complete()
  {
  }
}
