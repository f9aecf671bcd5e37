/**
 Splitting a transfer manifest into size-limited messages.

 `fits` stands for "the encoded message respects the transport limit" between two fixed
 devices.  Byte sums wrap at 64 bits and the entry count saturates at 32 bits, as the source's
 `u64` sums (in a release build) and `u32::try_from(..).unwrap_or(u32::MAX)` do.
*/
module Manifest {
  import opened Wrappers

  type TransferId = nat
  type DeviceId = nat

  const U32_MAX: nat := 0xFFFF_FFFF
  const U64_RANGE: nat := 0x1_0000_0000_0000_0000
  const INITIAL_CHUNK_ENTRIES: nat := 4_096
  const SEND_PAYLOAD_VERSION: nat := 1

  datatype FileEntry = FileEntry(name: string, size: nat)

  datatype SendPayload = SendPayload(
    version: nat, id: TransferId, senderName: string, collection: string, entries: seq<FileEntry>)

  datatype Header = Header(
    version: nat, id: TransferId, senderName: string, collection: string, bytesTotal: nat, entryCount: nat)

  datatype Envelope =
    | Transfer(payload: SendPayload)
    | TransferHeader(header: Header)
    | TransferChunk(id: TransferId, index: nat, entries: seq<FileEntry>)
    | TransferEnd(id: TransferId, count: nat)

  function Min(a: nat, b: nat): nat {
    if a < b then a else b
  }

  /** A `u32` counter that saturates. */
  function Cap(n: nat): nat {
    Min(n, U32_MAX)
  }

  function ByteSum(entries: seq<FileEntry>): nat {
    if entries == [] then 0 else (ByteSum(entries[..|entries| - 1]) + entries[|entries| - 1].size) % U64_RANGE
  }

  method SumBytes(entries: seq<FileEntry>) returns (total: nat)
    ensures total == ByteSum(entries)
  {
    total := 0;
    for i := 0 to |entries|
      invariant total == ByteSum(entries[..i])
    {
      assert entries[..i + 1][..i] == entries[..i];
      total := (total + entries[i].size) % U64_RANGE;
    }
    assert entries[..|entries|] == entries;
  }

  function HeaderOf(p: SendPayload): Header {
    Header(SEND_PAYLOAD_VERSION, p.id, p.senderName, p.collection, ByteSum(p.entries), Cap(|p.entries|))
  }

  // ---------------------------------------------------------------- the planner

  function Concat<T>(chunks: seq<seq<T>>): seq<T> {
    if chunks == [] then [] else Concat(chunks[..|chunks| - 1]) + chunks[|chunks| - 1]
  }

  function ChunkEnvelope(id: TransferId, i: nat, entries: seq<FileEntry>): Envelope {
    TransferChunk(id, Cap(i), entries)
  }

  /** Header, the chunks in index order, end marker. */
  ghost predicate IsPlan(payload: SendPayload, chunks: seq<seq<FileEntry>>, envelopes: seq<Envelope>) {
    && |envelopes| == |chunks| + 2
    && envelopes[0] == TransferHeader(HeaderOf(payload))
    && (forall i :: 0 <= i < |chunks| ==> envelopes[i + 1] == ChunkEnvelope(payload.id, i, chunks[i]))
    && envelopes[|chunks| + 1] == TransferEnd(payload.id, Cap(|chunks|))
    && IsSplit(payload.entries, chunks)
  }

  ghost predicate IsSplit(entries: seq<FileEntry>, chunks: seq<seq<FileEntry>>) {
    && Concat(chunks) == entries
    && forall i :: 0 <= i < |chunks| ==> 1 <= |chunks[i]| <= INITIAL_CHUNK_ENTRIES
  }

  /** The longest chunk that may be tried at an offset. */
  function Room(entries: seq<FileEntry>, offset: nat): nat
    requires offset <= |entries|
  {
    Min(INITIAL_CHUNK_ENTRIES, |entries| - offset)
  }

  /** The candidate of `r` entries at `offset` does not fit. */
  ghost predicate Rejected(fits: Envelope -> bool, id: TransferId, i: nat, entries: seq<FileEntry>, offset: nat, r: nat)
    requires offset <= |entries|
  {
    1 <= r <= Room(entries, offset) && !fits(ChunkEnvelope(id, i, entries[offset..offset + r]))
  }

  /** A chunk that fits, or a single entry that was already refused; and some candidate of at most
      `2 * n + 1` entries was refused unless the longest one was taken. */
  ghost predicate WellChosen(fits: Envelope -> bool, id: TransferId, i: nat, entries: seq<FileEntry>, offset: nat,
                             n: nat) {
    && 1 <= n && offset + n <= |entries| && n <= Room(entries, offset)
    && (fits(ChunkEnvelope(id, i, entries[offset..offset + n])) || n == 1)
    && (n == Room(entries, offset) || exists r: nat :: r <= 2 * n + 1 && Rejected(fits, id, i, entries, offset, r))
  }

  ghost predicate ChosenAt(fits: Envelope -> bool, payload: SendPayload, chunks: seq<seq<FileEntry>>, i: nat)
    requires i < |chunks|
  {
    WellChosen(fits, payload.id, i, payload.entries, |Concat(chunks[..i])|, |chunks[i]|)
  }

  ghost predicate AllWellChosen(fits: Envelope -> bool, payload: SendPayload, chunks: seq<seq<FileEntry>>) {
    forall i :: 0 <= i < |chunks| ==> ChosenAt(fits, payload, chunks, i)
  }

  method PlanTransferEnvelopes(payload: SendPayload, fits: Envelope -> bool)
    returns (envelopes: seq<Envelope>, ghost chunks: seq<seq<FileEntry>>)
    ensures fits(Transfer(payload)) ==> envelopes == [Transfer(payload)]
    ensures !fits(Transfer(payload)) ==> IsPlan(payload, chunks, envelopes) && AllWellChosen(fits, payload, chunks)
  {
    chunks := [];
    if fits(Transfer(payload)) {
      return [Transfer(payload)], chunks;
    }
    var bytesTotal := SumBytes(payload.entries);
    envelopes := [TransferHeader(Header(SEND_PAYLOAD_VERSION, payload.id, payload.senderName, payload.collection,
                                        bytesTotal, Cap(|payload.entries|)))];
    var chunkIndex, offset := 0, 0;
    while offset < |payload.entries|
      invariant offset <= |payload.entries| && chunkIndex == Cap(|chunks|)
      invariant PartialPlan(payload, chunks, envelopes, offset)
      invariant AllWellChosen(fits, payload, chunks)
    {
      var chunkLen := ChooseLength(payload.id, payload.entries, offset, chunkIndex, fits, |chunks|);
      var chunk := payload.entries[offset..offset + chunkLen];
      ChosenNext(fits, payload, chunks, envelopes, offset, chunkLen);
      envelopes := envelopes + [TransferChunk(payload.id, chunkIndex, chunk)];
      chunks := chunks + [chunk];
      offset := offset + chunkLen;
      chunkIndex := if chunkIndex < U32_MAX then chunkIndex + 1 else U32_MAX;
    }
    assert payload.entries[..offset] == payload.entries;
    envelopes := envelopes + [TransferEnd(payload.id, chunkIndex)];
  }

  /** The header and the chunks of the entries before `offset`. */
  ghost predicate PartialPlan(payload: SendPayload, chunks: seq<seq<FileEntry>>, envelopes: seq<Envelope>,
                              offset: nat) {
    && offset <= |payload.entries|
    && |envelopes| == |chunks| + 1
    && envelopes[0] == TransferHeader(HeaderOf(payload))
    && (forall i :: 0 <= i < |chunks| ==> envelopes[i + 1] == ChunkEnvelope(payload.id, i, chunks[i]))
    && IsSplit(payload.entries[..offset], chunks)
  }

  /** The inner loop: halve until the candidate fits, and fall back to one entry. */
  method ChooseLength(id: TransferId, entries: seq<FileEntry>, offset: nat, chunkIndex: nat, fits: Envelope -> bool,
                      ghost i: nat)
    returns (n: nat)
    requires offset < |entries| && chunkIndex == Cap(i)
    ensures WellChosen(fits, id, i, entries, offset, n)
  {
    n := Min(INITIAL_CHUNK_ENTRIES, |entries| - offset);
    ghost var refused: nat := 0;
    while n > 0
      invariant n <= Room(entries, offset)
      invariant n == Room(entries, offset) || (Rejected(fits, id, i, entries, offset, refused) && refused / 2 == n)
    {
      if fits(TransferChunk(id, chunkIndex, entries[offset..offset + n])) {
        return;
      }
      refused := n;
      n := n / 2;
    }
    n := 1;
  }

  lemma PartialPlanNext(payload: SendPayload, chunks: seq<seq<FileEntry>>, envelopes: seq<Envelope>, offset: nat,
                        n: nat)
    requires PartialPlan(payload, chunks, envelopes, offset)
    requires 1 <= n <= INITIAL_CHUNK_ENTRIES && offset + n <= |payload.entries|
    ensures var chunk := payload.entries[offset..offset + n];
            PartialPlan(payload, chunks + [chunk], envelopes + [ChunkEnvelope(payload.id, |chunks|, chunk)], offset + n)
  {
    var next := chunks + [payload.entries[offset..offset + n]];
    assert next[..|next| - 1] == chunks;
    assert payload.entries[..offset] + payload.entries[offset..offset + n] == payload.entries[..offset + n];
  }

  lemma WellChosenNext(fits: Envelope -> bool, payload: SendPayload, chunks: seq<seq<FileEntry>>, chunk: seq<FileEntry>)
    requires AllWellChosen(fits, payload, chunks)
    requires WellChosen(fits, payload.id, |chunks|, payload.entries, |Concat(chunks)|, |chunk|)
    ensures AllWellChosen(fits, payload, chunks + [chunk])
  {
    var next := chunks + [chunk];
    forall i | 0 <= i < |next| ensures ChosenAt(fits, payload, next, i) {
      if i == |chunks| {
        assert next[..i] == chunks;
      } else {
        assert ChosenAt(fits, payload, chunks, i);
        assert next[..i] == chunks[..i] && next[i] == chunks[i];
      }
    }
  }

  lemma ChosenNext(fits: Envelope -> bool, payload: SendPayload, chunks: seq<seq<FileEntry>>, envelopes: seq<Envelope>,
                   offset: nat, n: nat)
    requires PartialPlan(payload, chunks, envelopes, offset) && AllWellChosen(fits, payload, chunks)
    requires WellChosen(fits, payload.id, |chunks|, payload.entries, offset, n)
    ensures var chunk := payload.entries[offset..offset + n];
            && PartialPlan(payload, chunks + [chunk], envelopes + [ChunkEnvelope(payload.id, |chunks|, chunk)],
                           offset + n)
            && AllWellChosen(fits, payload, chunks + [chunk])
  {
    assert |Concat(chunks)| == offset;
    PartialPlanNext(payload, chunks, envelopes, offset, n);
    WellChosenNext(fits, payload, chunks, payload.entries[offset..offset + n]);
  }

  /** Where a chunk lies in the manifest, and that it fits unless it is a single entry. */
  lemma ChunkPlace(fits: Envelope -> bool, payload: SendPayload, chunks: seq<seq<FileEntry>>, i: nat)
    requires IsSplit(payload.entries, chunks) && AllWellChosen(fits, payload, chunks) && i < |chunks|
    ensures var o, n := |Concat(chunks[..i])|, |chunks[i]|;
            o + n <= |payload.entries| && chunks[i] == payload.entries[o..o + n] &&
            (fits(ChunkEnvelope(payload.id, i, chunks[i])) || n == 1)
  {
    ChunkAt(chunks, i);
    assert ChosenAt(fits, payload, chunks, i);
  }

  /** Every chunk respects the transport limit as soon as every single-entry chunk does. */
  lemma ChunksFit(fits: Envelope -> bool, payload: SendPayload, chunks: seq<seq<FileEntry>>, i: nat)
    requires IsSplit(payload.entries, chunks) && AllWellChosen(fits, payload, chunks) && i < |chunks|
    requires forall e :: e in payload.entries ==> fits(ChunkEnvelope(payload.id, i, [e]))
    ensures fits(ChunkEnvelope(payload.id, i, chunks[i]))
  {
    ChunkPlace(fits, payload, chunks, i);
    if |chunks[i]| == 1 {
      var e := payload.entries[|Concat(chunks[..i])|];
      assert chunks[i] == [e];
    }
  }

  /** A prefix of a chunk that fits, fits. */
  ghost predicate PrefixesFit(fits: Envelope -> bool, id: TransferId, i: nat) {
    forall a: seq<FileEntry>, b: seq<FileEntry> ::
      a <= b && fits(ChunkEnvelope(id, i, b)) ==> fits(ChunkEnvelope(id, i, a))
  }

  lemma PrefixRefused(fits: Envelope -> bool, id: TransferId, i: nat, entries: seq<FileEntry>, o: nat, r: nat, m: nat)
    requires PrefixesFit(fits, id, i) && o <= |entries| && Rejected(fits, id, i, entries, o, r) && m <= Room(entries, o)
    ensures r <= m ==> !fits(ChunkEnvelope(id, i, entries[o..o + m]))
  {
    if r <= m {
      assert entries[o..o + r] <= entries[o..o + m];
    }
  }

  /** Where fitting is monotone, no chunk is less than half as long as the longest that fits there. */
  lemma ChunksAtLeastHalfOptimal(fits: Envelope -> bool, payload: SendPayload, chunks: seq<seq<FileEntry>>, i: nat,
                                 m: nat)
    requires IsSplit(payload.entries, chunks) && AllWellChosen(fits, payload, chunks) && i < |chunks|
    requires PrefixesFit(fits, payload.id, i)
    requires |Concat(chunks[..i])| <= |payload.entries| && m <= Room(payload.entries, |Concat(chunks[..i])|)
    requires fits(ChunkEnvelope(payload.id, i, payload.entries[|Concat(chunks[..i])|..|Concat(chunks[..i])| + m]))
    ensures m <= 2 * |chunks[i]|
  {
    var o, n := |Concat(chunks[..i])|, |chunks[i]|;
    assert ChosenAt(fits, payload, chunks, i);
    if n != Room(payload.entries, o) {
      var r: nat :| r <= 2 * n + 1 && Rejected(fits, payload.id, i, payload.entries, o, r);
      PrefixRefused(fits, payload.id, i, payload.entries, o, r, m);
    }
  }

  lemma {:induction false} ChunkAt<T>(chunks: seq<seq<T>>, i: nat)
    requires i < |chunks|
    ensures |Concat(chunks[..i])| + |chunks[i]| <= |Concat(chunks)|
    ensures Concat(chunks)[|Concat(chunks[..i])|..|Concat(chunks[..i])| + |chunks[i]|] == chunks[i]
  {
    var front := chunks[..|chunks| - 1];
    if i < |front| {
      ChunkAt(front, i);
      assert front[..i] == chunks[..i];
    }
  }
}
