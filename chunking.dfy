/**
 * The sender's side of SwiftSend's file transfer: a file is a byte sequence,
 * cut into slices of at most MAX_CHUNK_SIZE bytes, one slice per step, with
 * the offset advanced by MAX_CHUNK_SIZE after each step.
 */
module Chunking {

  newtype Byte = b: int | 0 <= b < 256

  type Bytes = seq<Byte>

  /** 200 KiB: the largest payload of one binary data-channel message. */
  const MAX_CHUNK_SIZE: nat := 200 * 1024

  function Min(a: nat, b: nat): nat { if a <= b then a else b }

  /**
   * `Blob.slice(start, end)` for non-negative positions: both ends are clamped
   * to the length, and a range that is empty after clamping gives no bytes.
   */
  function Slice(s: Bytes, start: nat, end: nat): (r: Bytes)
    ensures |r| == if start < end && start < |s| then Min(end, |s|) - start else 0
    ensures forall i :: 0 <= i < |r| ==> r[i] == s[start + i]
  {
    var lo := Min(start, |s|);
    var hi := Min(end, |s|);
    if lo < hi then s[lo..hi] else []
  }

  /** The slice one sender step transmits: `[offset, offset + MAX_CHUNK_SIZE)`. */
  function NextChunk(file: Bytes, offset: nat): (r: Bytes)
    ensures |r| <= MAX_CHUNK_SIZE
    ensures offset <= |file| ==> r == file[offset..Min(offset + MAX_CHUNK_SIZE, |file|)]
    ensures |file| <= offset ==> r == []
  {
    Slice(file, offset, offset + MAX_CHUNK_SIZE)
  }

  /**
   * How many binary messages one transfer of a file of `size` bytes takes:
   * ceil(size / MAX_CHUNK_SIZE), except that an empty file still takes one
   * (empty) message, since the receiver decides completion only on arrival.
   */
  function ChunkCount(size: nat): (n: nat)
    ensures n >= 1
    ensures size == 0 ==> n == 1
    ensures size > 0 ==> (n - 1) * MAX_CHUNK_SIZE < size <= n * MAX_CHUNK_SIZE
  {
    if size == 0 then 1 else (size + MAX_CHUNK_SIZE - 1) / MAX_CHUNK_SIZE
  }

  /** The slices sent by the first `n` steps, starting at offset 0. */
  function Chunks(file: Bytes, n: nat): (cs: seq<Bytes>)
    ensures |cs| == n
    ensures forall k :: 0 <= k < n ==> cs[k] == NextChunk(file, k * MAX_CHUNK_SIZE)
  {
    if n == 0 then [] else Chunks(file, n - 1) + [NextChunk(file, (n - 1) * MAX_CHUNK_SIZE)]
  }

  /** The concatenation of chunks in receipt order, as `new Blob(chunks)` builds it. */
  function Flatten(cs: seq<Bytes>): Bytes
  {
    if cs == [] then [] else Flatten(cs[..|cs| - 1]) + cs[|cs| - 1]
  }

  /** The sum of the chunks' byte lengths. */
  function TotalLength(cs: seq<Bytes>): nat
  {
    if cs == [] then 0 else TotalLength(cs[..|cs| - 1]) + |cs[|cs| - 1]|
  }

  lemma {:induction false} FlattenLength(cs: seq<Bytes>)
    ensures |Flatten(cs)| == TotalLength(cs)
  {
    if cs != [] {
      FlattenLength(cs[..|cs| - 1]);
    }
  }

  lemma FlattenSnoc(cs: seq<Bytes>, c: Bytes)
    ensures Flatten(cs + [c]) == Flatten(cs) + c
    ensures TotalLength(cs + [c]) == TotalLength(cs) + |c|
  {
    assert (cs + [c])[..|cs|] == cs;
  }

  /**
   * The first `n` slices, in order, concatenate to the file's first
   * min(n * MAX_CHUNK_SIZE, |file|) bytes: the slices are contiguous,
   * disjoint and in order.
   */
  lemma {:induction false} ChunksReassemble(file: Bytes, n: nat)
    ensures Flatten(Chunks(file, n)) == file[..Min(n * MAX_CHUNK_SIZE, |file|)]
  {
    if n > 0 {
      var m := n - 1;
      var off := m * MAX_CHUNK_SIZE;
      var prev := Chunks(file, m);
      var c := NextChunk(file, off);
      assert n * MAX_CHUNK_SIZE == off + MAX_CHUNK_SIZE;
      calc {
        Flatten(Chunks(file, n));
        Flatten(prev + [c]);
        { FlattenSnoc(prev, c); }
        Flatten(prev) + c;
        { ChunksReassemble(file, m); }
        file[..Min(off, |file|)] + c;
        { PrefixExtend(file, off); }
        file[..Min(n * MAX_CHUNK_SIZE, |file|)];
      }
    }
  }

  /** The prefix up to an offset, followed by the slice at that offset, is the longer prefix. */
  lemma PrefixExtend(file: Bytes, off: nat)
    ensures file[..Min(off, |file|)] + NextChunk(file, off) == file[..Min(off + MAX_CHUNK_SIZE, |file|)]
  {
    if off <= |file| {
      var b := Min(off + MAX_CHUNK_SIZE, |file|);
      assert file[..off] + file[off..b] == file[..b];
    }
  }

  /** After ChunkCount(|file|) steps the slices concatenate to the whole file. */
  lemma ChunksCoverFile(file: Bytes)
    ensures Flatten(Chunks(file, ChunkCount(|file|))) == file
  {
    var n := ChunkCount(|file|);
    ChunksReassemble(file, n);
    assert Min(n * MAX_CHUNK_SIZE, |file|) == |file|;
    assert file[..|file|] == file;
  }

  /**
   * Every slice of a transfer is full except the last, which holds the
   * remaining 1..MAX_CHUNK_SIZE bytes (none for an empty file).
   */
  lemma ChunkSizes(file: Bytes, k: nat)
    requires k < ChunkCount(|file|)
    ensures k + 1 < ChunkCount(|file|) ==> |NextChunk(file, k * MAX_CHUNK_SIZE)| == MAX_CHUNK_SIZE
    ensures k + 1 == ChunkCount(|file|) ==>
      |NextChunk(file, k * MAX_CHUNK_SIZE)| == |file| - k * MAX_CHUNK_SIZE
    ensures |file| > 0 ==> |NextChunk(file, k * MAX_CHUNK_SIZE)| > 0
  {
  }
}
