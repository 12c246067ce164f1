/**
 * One accepted transfer between an honest sender and a receiver, as the two
 * peers' handlers play it out once the request is accepted: the sender
 * transmits the slice at its offset and advances the offset by
 * MAX_CHUNK_SIZE; the receiver appends it and answers with an ack while its
 * count is below the declared size, and with `transfer-finished` otherwise;
 * each ack makes the sender transmit the next slice.
 */
module Exchange {
  import opened Chunking
  import opened Reassembly

  /** The receiver's answer to one chunk. */
  datatype Reply = Ack | Finished

  /** One stop-and-wait round: a single chunk, then the single answer to it. */
  datatype Round = Round(chunk: Bytes, reply: Reply)

  datatype Session = Session(receiver: Buffer, rounds: seq<Round>, sent: nat)

  /**
   * The rest of a transfer from the moment the sender is about to transmit
   * its chunk number `k` (counted from 0), with the receiver holding `b`.
   * The declared size is the file's real length, as `sendFile` declares it.
   * The exchange ends: one round per chunk sent, the last one answered by
   * `transfer-finished` and every earlier one by an ack, with the receiver
   * complete.
   */
  function Run(file: Bytes, b: Buffer, k: nat): (s: Session)
    requires b.fileSize == |file| && b.receivedDataSize == k * MAX_CHUNK_SIZE
    requires k == 0 || k * MAX_CHUNK_SIZE < |file|
    ensures s.sent > k && |s.rounds| == s.sent - k
    ensures s.rounds[|s.rounds| - 1].reply == Finished
    ensures forall i :: 0 <= i < |s.rounds| - 1 ==> s.rounds[i].reply == Ack
    ensures s.receiver.fileSize == |file| && s.receiver.Complete()
    decreases |file| - k * MAX_CHUNK_SIZE
  {
    var c := NextChunk(file, k * MAX_CHUNK_SIZE);
    var b' := Append(b, c);
    if b'.receivedDataSize < b'.fileSize then
      var rest := Run(file, b', k + 1);
      Session(rest.receiver, [Round(c, Ack)] + rest.rounds, rest.sent)
    else
      Session(b', [Round(c, Finished)], k + 1)
  }

  /** The rounds from chunk number `k` on: slice k + i in round i, an ack for all but the last. */
  ghost predicate StopAndWait(file: Bytes, rounds: seq<Round>, k: nat, n: nat)
  {
    && k < n
    && |rounds| == n - k
    && forall i :: 0 <= i < |rounds| ==>
         rounds[i].chunk == NextChunk(file, (k + i) * MAX_CHUNK_SIZE) &&
         rounds[i].reply == (if k + i + 1 < n then Ack else Finished)
  }

  /** Two ceilings of the same size are the same count. */
  lemma ChunkCountUnique(size: nat, n: nat)
    requires size > 0 && (n - 1) * MAX_CHUNK_SIZE < size <= n * MAX_CHUNK_SIZE
    ensures n == ChunkCount(size)
  {
  }

  lemma {:induction false} RunFrom(file: Bytes, b: Buffer, k: nat)
    requires b.fileSize == |file| && b.receivedDataSize == k * MAX_CHUNK_SIZE
    requires k == 0 || k * MAX_CHUNK_SIZE < |file|
    requires b.chunks == Chunks(file, k)
    ensures Run(file, b, k).sent == ChunkCount(|file|)
    ensures Run(file, b, k).receiver == Buffer(Chunks(file, ChunkCount(|file|)), |file|, |file|)
    ensures StopAndWait(file, Run(file, b, k).rounds, k, ChunkCount(|file|))
    decreases |file| - k * MAX_CHUNK_SIZE
  {
    var c := NextChunk(file, k * MAX_CHUNK_SIZE);
    var b' := Append(b, c);
    assert b'.chunks == Chunks(file, k + 1);
    assert |c| == Min((k + 1) * MAX_CHUNK_SIZE, |file|) - k * MAX_CHUNK_SIZE;
    if b'.receivedDataSize < b'.fileSize {
      assert (k + 1) * MAX_CHUNK_SIZE < |file|;
      RunFrom(file, b', k + 1);
      PrependRound(file, c, Run(file, b', k + 1).rounds, k);
    } else {
      assert |file| <= (k + 1) * MAX_CHUNK_SIZE;
      if |file| > 0 {
        ChunkCountUnique(|file|, k + 1);
      }
    }
  }

  /** An acknowledged round in front of the stop-and-wait rounds that follow it. */
  lemma PrependRound(file: Bytes, c: Bytes, rest: seq<Round>, k: nat)
    requires c == NextChunk(file, k * MAX_CHUNK_SIZE)
    requires StopAndWait(file, rest, k + 1, ChunkCount(|file|))
    ensures StopAndWait(file, [Round(c, Ack)] + rest, k, ChunkCount(|file|))
  {
    var n := ChunkCount(|file|);
    var rounds := [Round(c, Ack)] + rest;
    forall i | 0 <= i < |rounds|
      ensures rounds[i].chunk == NextChunk(file, (k + i) * MAX_CHUNK_SIZE)
      ensures rounds[i].reply == (if k + i + 1 < n then Ack else Finished)
    {
      if i > 0 {
        assert rounds[i] == rest[i - 1];
        assert (k + 1) + (i - 1) == k + i;
      }
    }
  }

  /**
   * A whole transfer: starting at offset 0 with the buffer `acceptRequest`
   * allocates, the sender transmits exactly ChunkCount(|file|) slices, each
   * answered by one ack except the last, answered by `transfer-finished`;
   * the receiver's count ends at the file's length, and the image it hands
   * off is the file, byte for byte.
   */
  lemma TransferDeliversFile(file: Bytes)
    ensures Run(file, Empty(|file|), 0).sent == ChunkCount(|file|)
    ensures StopAndWait(file, Run(file, Empty(|file|), 0).rounds, 0, ChunkCount(|file|))
    ensures Run(file, Empty(|file|), 0).receiver.receivedDataSize == |file|
    ensures Flatten(Run(file, Empty(|file|), 0).receiver.chunks) == file
  {
    RunFrom(file, Empty(|file|), 0);
    ChunksCoverFile(file);
  }
}
