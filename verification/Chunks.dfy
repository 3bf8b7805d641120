/**
 The chunk stager: a payload arrives as stream pieces of any sizes and is cut into chunks of given lengths, each
 stored and then enqueued, while at most about one chunk is buffered.
 */
module Chunks {
  newtype Byte = x: int | 0 <= x < 256

  type Bytes = seq<Byte>

  function Flatten(pieces: seq<Bytes>): Bytes {
    if pieces == [] then [] else pieces[0] + Flatten(pieces[1..])
  }

  /** Where chunk `i` starts. */
  function Offset(lengths: seq<nat>, i: nat): nat
    requires i <= |lengths|
  {
    if i == 0 then 0 else Offset(lengths, i - 1) + lengths[i - 1]
  }

  function Min(a: nat, b: nat): nat { if a <= b then a else b }

  /** Chunk `i` of a payload; short or empty where the payload ends early. */
  function Chunk(payload: Bytes, lengths: seq<nat>, i: nat): Bytes
    requires i < |lengths|
  {
    payload[Min(Offset(lengths, i), |payload|)..Min(Offset(lengths, i + 1), |payload|)]
  }

  /** What is left of a payload when chunk `i` is due. */
  function Rest(payload: Bytes, lengths: seq<nat>, i: nat): Bytes
    requires i <= |lengths|
  {
    payload[Min(Offset(lengths, i), |payload|)..]
  }

  ghost predicate PiecesWithin(pieces: seq<Bytes>, largest: nat) { forall p :: p in pieces ==> |p| <= largest }

  ghost predicate LengthsWithin(lengths: seq<nat>, largest: nat) { forall n :: n in lengths ==> n <= largest }

  datatype Stored = Stored(index: nat, bytes: Bytes)

  /** What storing and enqueuing a chunk answer. */
  datatype Answer = Answer(stored: bool, enqueued: bool)

  predicate Good(a: Answer) { a.stored && a.enqueued }

  class Stager {
    var pieces: seq<Bytes>        // what the stream has still to deliver
    var buffered: Bytes
    var stored: seq<Stored>
    var enqueued: seq<nat>
    ghost var peak: nat           // the largest size `buffered` has had

    constructor (stream: seq<Bytes>)
      ensures pieces == stream && buffered == [] && stored == [] && enqueued == [] && peak == 0
    {
      pieces, buffered, stored, enqueued, peak := stream, [], [], [], 0;
    }

    /** The bytes not yet cut. */
    ghost function Ahead(): Bytes
      reads `pieces, `buffered
    {
      buffered + Flatten(pieces)
    }

    /** fillBuffer: reads pieces until enough is buffered or the stream ends. */
    method FillBuffer(minBytes: nat, ghost largest: nat)
      requires PiecesWithin(pieces, largest) && |buffered| <= peak
      modifies `pieces, `buffered, `peak
      ensures Ahead() == old(Ahead())
      ensures |buffered| >= minBytes || pieces == []
      ensures |buffered| <= peak && PiecesWithin(pieces, largest)
      ensures peak <= old(peak) || (minBytes > 0 && peak <= minBytes - 1 + largest)
    {
      while |buffered| < minBytes
        invariant Ahead() == old(Ahead())
        invariant |buffered| <= peak && PiecesWithin(pieces, largest)
        invariant peak <= old(peak) || (minBytes > 0 && peak <= minBytes - 1 + largest)
        decreases |pieces|
      {
        if pieces == [] { break; }
        var next := pieces[0];
        assert buffered + Flatten(pieces) == (buffered + next) + Flatten(pieces[1..]);
        pieces := pieces[1..];
        buffered := if |buffered| == 0 then next else buffered + next;
        peak := if |buffered| > peak then |buffered| else peak;
      }
    }

    /** createChunkStream: cuts the next chunk off the front. */
    method CreateChunk(byteLength: nat, ghost largest: nat) returns (chunk: Bytes)
      requires PiecesWithin(pieces, largest) && |buffered| <= peak
      modifies `pieces, `buffered, `peak
      ensures chunk + Ahead() == old(Ahead())
      ensures |chunk| == Min(byteLength, |old(Ahead())|)
      ensures |buffered| <= peak && PiecesWithin(pieces, largest)
      ensures peak <= old(peak) || (byteLength > 0 && peak <= byteLength - 1 + largest)
    {
      FillBuffer(byteLength, largest);
      var cut := Min(byteLength, |buffered|);
      chunk := buffered[..cut];
      assert buffered + Flatten(pieces) == chunk + (buffered[cut..] + Flatten(pieces));
      buffered := buffered[cut..];
    }

    /** The chunks stored so far are the payload's first slices, in order; so are the enqueued ones. */
    ghost predicate Sliced(payload: Bytes, lengths: seq<nat>)
      reads `stored, `enqueued
    {
      && |enqueued| <= |stored| <= |lengths|
      && (forall i :: 0 <= i < |stored| ==> stored[i] == Stored(i, Chunk(payload, lengths, i)))
      && (forall i :: 0 <= i < |enqueued| ==> enqueued[i] == i)
    }

    /** Storing a chunk, then enqueuing it. */
    method StoreAndEnqueue(i: nat, chunk: Bytes, answer: Answer, ghost payload: Bytes, ghost lengths: seq<nat>) returns (ok: bool)
      requires Sliced(payload, lengths) && |stored| == |enqueued| == i < |lengths| && chunk == Chunk(payload, lengths, i)
      modifies `stored, `enqueued
      ensures Sliced(payload, lengths)
      ensures ok <==> Good(answer)
      ensures ok ==> |stored| == |enqueued| == i + 1
      ensures !ok ==> |enqueued| == i && |stored| == i + (if answer.stored then 1 else 0)
    {
      if !answer.stored { return false; }
      stored := stored + [Stored(i, chunk)];
      if !answer.enqueued { return false; }
      enqueued := enqueued + [i];
      return true;
    }

    /** Chunk `i` of the payload is due: what lies ahead is the payload from there on. */
    ghost predicate Due(payload: Bytes, lengths: seq<nat>, i: nat)
      requires i <= |lengths|
      reads `pieces, `buffered
    {
      Ahead() == Rest(payload, lengths, i)
    }

    /** The next chunk: cut, stored, enqueued. */
    method PersistOne(i: nat, answer: Answer, ghost payload: Bytes, lengths: seq<nat>, ghost largest: nat) returns (ok: bool)
      requires i < |lengths| && Due(payload, lengths, i)
      requires Sliced(payload, lengths) && |stored| == |enqueued| == i
      requires PiecesWithin(pieces, largest) && |buffered| <= peak
      modifies this
      ensures Sliced(payload, lengths) && Due(payload, lengths, i + 1)
      ensures ok <==> Good(answer)
      ensures ok ==> |stored| == |enqueued| == i + 1
      ensures !ok ==> |enqueued| == i && |stored| == i + (if answer.stored then 1 else 0)
      ensures PiecesWithin(pieces, largest) && |buffered| <= peak
      ensures peak <= old(peak) || (lengths[i] > 0 && peak <= lengths[i] - 1 + largest)
    {
      ghost var ahead := Ahead();
      var chunk := CreateChunk(lengths[i], largest);
      CutIsChunk(payload, lengths, i, ahead, chunk, Ahead());
      ok := StoreAndEnqueue(i, chunk, answer, payload, lengths);
    }

    /** All buffered sizes stayed within the bound. */
    ghost predicate Bounded(longest: nat, largest: nat)
      reads `peak
    {
      if longest == 0 then peak == 0 else peak <= longest - 1 + largest
    }

    /**
     persistChunksFromPayloadStream, storing and then enqueuing each chunk. The store or the enqueue of chunk
     `failAt`, if there is such a chunk, is the first to fail, and ends the run. Whatever happens, the chunks stored
     are the payload's slices in order, only stored chunks are enqueued, and no more than one byte less than the
     longest chunk plus the largest piece is ever buffered.
     */
    method PersistChunks(lengths: seq<nat>, failAt: nat, failing: Answer, ghost longest: nat, ghost largest: nat) returns (ok: bool)
      requires !Good(failing) && buffered == [] && stored == [] && enqueued == [] && peak == 0
      requires PiecesWithin(pieces, largest) && LengthsWithin(lengths, longest)
      modifies this
      ensures Sliced(old(Ahead()), lengths) && Bounded(longest, largest)
      ensures ok <==> failAt >= |lengths|
      ensures ok ==> |stored| == |enqueued| == |lengths|
      ensures !ok ==> |enqueued| == failAt && |stored| == failAt + (if failing.stored then 1 else 0)
    {
      ghost var payload := Ahead();
      assert Due(payload, lengths, 0);
      var i := 0;
      while i < |lengths|
        invariant i <= |lengths| && i <= failAt
        invariant Due(payload, lengths, i)
        invariant |stored| == |enqueued| == i && Sliced(payload, lengths)
        invariant PiecesWithin(pieces, largest) && |buffered| <= peak && Bounded(longest, largest)
      {
        assert lengths[i] in lengths;
        var done := PersistOne(i, if i == failAt then failing else Answer(true, true), payload, lengths, largest);
        if !done { return false; }
        i := i + 1;
      }
      return true;
    }
  }

  /** Cutting `lengths[i]` bytes off what is ahead of chunk `i` yields chunk `i`. */
  lemma CutIsChunk(payload: Bytes, lengths: seq<nat>, i: nat, before: Bytes, chunk: Bytes, after: Bytes)
    requires i < |lengths| && before == Rest(payload, lengths, i)
    requires chunk + after == before && |chunk| == Min(lengths[i], |before|)
    ensures chunk == Chunk(payload, lengths, i)
    ensures after == Rest(payload, lengths, i + 1)
  {
    assert chunk == before[..|chunk|];
    assert after == before[|chunk|..];
  }

  // ---------- What the slices are ----------

  function Concat(payload: Bytes, lengths: seq<nat>, i: nat): Bytes
    requires i <= |lengths|
  {
    if i == 0 then [] else Concat(payload, lengths, i - 1) + Chunk(payload, lengths, i - 1)
  }

  lemma {:induction false} OffsetMonotone(lengths: seq<nat>, i: nat, j: nat)
    requires i <= j <= |lengths|
    ensures Offset(lengths, i) <= Offset(lengths, j)
  {
    if i < j { OffsetMonotone(lengths, i, j - 1); }
  }

  lemma PrefixGrows(payload: Bytes, m: nat, n: nat)
    requires m <= n <= |payload|
    ensures payload[..m] + payload[m..n] == payload[..n]
  {
  }

  lemma {:induction false} ConcatIsPrefix(payload: Bytes, lengths: seq<nat>, i: nat)
    requires i <= |lengths|
    ensures Concat(payload, lengths, i) == payload[..Min(Offset(lengths, i), |payload|)]
  {
    if i > 0 {
      ConcatIsPrefix(payload, lengths, i - 1);
      OffsetMonotone(lengths, i - 1, i);
      PrefixGrows(payload, Min(Offset(lengths, i - 1), |payload|), Min(Offset(lengths, i), |payload|));
    }
  }

  /**
   When the lengths sum to the payload's size, the chunks put together are the payload, however it was split into
   pieces; and only if the lengths reach that size.
   */
  lemma ChunksAreThePayload(payload: Bytes, lengths: seq<nat>)
    ensures Concat(payload, lengths, |lengths|) == payload <==> Offset(lengths, |lengths|) >= |payload|
  {
    ConcatIsPrefix(payload, lengths, |lengths|);
    if Offset(lengths, |lengths|) < |payload| {
      assert |Concat(payload, lengths, |lengths|)| < |payload|;
    }
  }

  lemma OffsetsEnd(lengths: seq<nat>, i: nat)
    requires i < |lengths|
    ensures Offset(lengths, i) + lengths[i] == Offset(lengths, i + 1) <= Offset(lengths, |lengths|)
  {
    OffsetMonotone(lengths, i + 1, |lengths|);
  }

  lemma ChunkWithin(payload: Bytes, lengths: seq<nat>, i: nat)
    requires i < |lengths| && Offset(lengths, i) + lengths[i] <= |payload|
    ensures Chunk(payload, lengths, i) == payload[Offset(lengths, i)..Offset(lengths, i) + lengths[i]]
  {
  }

  /** Then every chunk has exactly its length, and its bytes are the payload's from its offset on. */
  lemma ChunkIsSlice(payload: Bytes, lengths: seq<nat>, i: nat)
    requires Offset(lengths, |lengths|) == |payload| && i < |lengths|
    ensures Offset(lengths, i) + lengths[i] <= |payload|
    ensures Chunk(payload, lengths, i) == payload[Offset(lengths, i)..Offset(lengths, i) + lengths[i]]
  {
    OffsetsEnd(lengths, i);
    ChunkWithin(payload, lengths, i);
  }
}
