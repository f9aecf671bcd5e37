/**
 The receiver's side of a chunked manifest: chunks and the end marker arrive on independent
 streams, in any order and possibly repeatedly, after the header has been stored.
*/
module Reassembly {
  import opened Manifest
  import opened Wrappers

  // ---------------------------------------------------------------- one pending transfer

  datatype Pending = Pending(header: Header, chunks: map<nat, seq<FileEntry>>, endReceived: bool, expected: Option<nat>)

  function NewPending(header: Header): Pending {
    Pending(header, map[], false, None)
  }

  /** The chunks below `bound`, concatenated in index order. */
  function InOrder<T>(chunks: map<nat, seq<T>>, bound: nat): seq<T> {
    if bound == 0 then [] else InOrder(chunks, bound - 1) + (if bound - 1 in chunks then chunks[bound - 1] else [])
  }

  ghost predicate Bounds(keys: set<nat>, bound: nat) {
    forall k :: k in keys ==> k < bound
  }

  ghost function KeyBound(keys: set<nat>): (bound: nat)
    ensures Bounds(keys, bound)
  {
    if keys == {} then 0
    else
      var k :| k in keys;
      var rest := KeyBound(keys - {k});
      assert forall j :: j in keys ==> j == k || j in keys - {k};
      if k < rest then rest else k + 1
  }

  ghost function Assemble<T>(chunks: map<nat, seq<T>>): seq<T> {
    InOrder(chunks, KeyBound(chunks.Keys))
  }

  lemma {:induction false} GapAddsNothing<T>(chunks: map<nat, seq<T>>, low: nat, high: nat)
    requires low <= high && forall k :: low <= k < high ==> k !in chunks
    ensures InOrder(chunks, high) == InOrder(chunks, low)
  {
    if low < high {
      GapAddsNothing(chunks, low, high - 1);
    }
  }

  lemma AnyBoundWorks<T>(chunks: map<nat, seq<T>>, bound: nat)
    requires Bounds(chunks.Keys, bound)
    ensures InOrder(chunks, bound) == Assemble(chunks)
  {
    var own := KeyBound(chunks.Keys);
    if own <= bound {
      GapAddsNothing(chunks, own, bound);
    } else {
      GapAddsNothing(chunks, bound, own);
    }
  }

  /** Taking one chunk away shortens the whole by exactly that chunk. */
  lemma {:induction false} WithoutOne<T>(chunks: map<nat, seq<T>>, k: nat, bound: nat)
    requires k in chunks
    ensures |InOrder(chunks, bound)| == |InOrder(chunks - {k}, bound)| + (if k < bound then |chunks[k]| else 0)
  {
    if bound > 0 {
      WithoutOne(chunks, k, bound - 1);
    }
  }

  ghost predicate IsComplete(p: Pending) {
    && |Assemble(p.chunks)| == p.header.entryCount
    && (p.expected.Some? ==> |p.chunks| == p.expected.value)
  }

  ghost function Rebuild(p: Pending): Result<SendPayload, string> {
    if !IsComplete(p) then Err("manifest incomplete")
    else if ByteSum(Assemble(p.chunks)) != p.header.bytesTotal then Err("manifest size mismatch")
    else Ok(SendPayload(p.header.version, p.header.id, p.header.senderName, p.header.collection, Assemble(p.chunks)))
  }

  class ChunkedTransfer {
    const header: Header
    var chunks: map<nat, seq<FileEntry>>
    var endReceived: bool
    var expectedChunkCount: Option<nat>

    ghost function View(): Pending
      reads this
    {
      Pending(header, chunks, endReceived, expectedChunkCount)
    }

    constructor (header: Header)
      ensures View() == NewPending(header)
    {
      this.header := header;
      chunks, endReceived, expectedChunkCount := map[], false, None;
    }

    method PushChunk(index: nat, entries: seq<FileEntry>)
      modifies this
      ensures View() == old(View()).(chunks := old(chunks)[index := entries])
    {
      chunks := chunks[index := entries];
    }

    method MarkEnd(count: nat)
      modifies this
      ensures View() == old(View()).(endReceived := true, expected := Some(count))
    {
      endReceived := true;
      expectedChunkCount := Some(count);
    }

    /** Sums the chunk lengths in the map's arbitrary order. */
    method EntriesReceived() returns (n: nat)
      ensures n == |Assemble(chunks)|
    {
      var left := chunks;
      n := 0;
      ghost var bound := KeyBound(chunks.Keys);
      while left.Keys != {}
        invariant left.Keys <= chunks.Keys
        invariant n + |InOrder(left, bound)| == |Assemble(chunks)|
        decreases left.Keys
      {
        var k :| k in left.Keys;
        WithoutOne(left, k, bound);
        n := n + |left[k]|;
        left := left - {k};
      }
      GapAddsNothing(left, 0, bound);
    }

    method Complete() returns (b: bool)
      ensures b == IsComplete(View())
    {
      var n := EntriesReceived();
      b := n == header.entryCount && (expectedChunkCount.Some? ==> |chunks| == expectedChunkCount.value);
    }

    /** Sorts the indices and concatenates; the source's second length test can never fire. */
    method IntoPayload() returns (r: Result<SendPayload, string>)
      ensures r == Rebuild(View())
    {
      var complete := Complete();
      if !complete {
        return Err("manifest incomplete");
      }
      var left := chunks.Keys;
      var entries: seq<FileEntry> := [];
      ghost var cursor := 0;
      while left != {}
        invariant left <= chunks.Keys && forall k :: k in chunks ==> (k in left <==> cursor <= k)
        invariant entries == InOrder(chunks, cursor)
        decreases left
      {
        var k := Least(left);
        GapAddsNothing(chunks, cursor, k);
        entries := entries + chunks[k];
        cursor := k + 1;
        left := left - {k};
      }
      AnyBoundWorks(chunks, cursor);
      var bytesTotal := SumBytes(entries);
      if bytesTotal != header.bytesTotal {
        return Err("manifest size mismatch");
      }
      return Ok(SendPayload(header.version, header.id, header.senderName, header.collection, entries));
    }
  }

  method Least(keys: set<nat>) returns (least: nat)
    requires keys != {}
    ensures least in keys && forall k :: k in keys ==> least <= k
  {
    least :| least in keys;
    var left := keys - {least};
    while left != {}
      invariant left <= keys && least in keys
      invariant forall k :: k in keys && k !in left ==> least <= k
      decreases left
    {
      var k :| k in left;
      if k < least {
        least := k;
      }
      left := left - {k};
    }
  }

  // ---------------------------------------------------------------- the receiver

  datatype Started = Started(from: DeviceId, payload: SendPayload)

  datatype Receiver = Receiver(pending: map<TransferId, Pending>, handlers: seq<Started>)

  function EnvelopeId(m: Envelope): TransferId {
    match m
    case Transfer(p) => p.id
    case TransferHeader(h) => h.id
    case TransferChunk(id, _, _) => id
    case TransferEnd(id, _) => id
  }

  ghost function TryFinalize(r: Receiver, from: DeviceId, id: TransferId): (Receiver, bool)
    requires id in r.pending
  {
    if !IsComplete(r.pending[id]) then (r, true)
    else
      var rest := r.(pending := r.pending - {id});
      match Rebuild(r.pending[id])
      case Ok(payload) => (rest.(handlers := r.handlers + [Started(from, payload)]), true)
      case Err(_) => (rest, false)
  }

  /** The new state, and whether the message was accepted. */
  ghost function Receive(r: Receiver, from: DeviceId, m: Envelope): (Receiver, bool) {
    match m
    case Transfer(p) => (r.(handlers := r.handlers + [Started(from, p)]), true)
    case TransferHeader(h) => (r.(pending := r.pending[h.id := NewPending(h)]), true)
    case TransferChunk(id, index, entries) =>
      if id !in r.pending then (r, false)
      else
        var p := r.pending[id];
        TryFinalize(r.(pending := r.pending[id := p.(chunks := p.chunks[index := entries])]), from, id)
    case TransferEnd(id, count) =>
      if id !in r.pending then (r, false)
      else
        var p := r.pending[id].(endReceived := true, expected := Some(count));
        TryFinalize(r.(pending := r.pending[id := p]), from, id)
  }

  class SendReceiver {
    var pending: map<TransferId, ChunkedTransfer>
    var handlers: seq<Started>

    ghost predicate Valid()
      reads this
    {
      forall i, j :: i in pending && j in pending && i != j ==> pending[i] != pending[j]
    }

    ghost function View(): Receiver
      reads this, pending.Values
    {
      Receiver(map id | id in pending :: pending[id].View(), handlers)
    }

    constructor ()
      ensures Valid() && View() == Receiver(map[], []) && fresh(pending.Values)
    {
      pending, handlers := map[], [];
    }

    method TryFinalizeChunkedTransfer(from: DeviceId, id: TransferId) returns (ok: bool)
      requires Valid() && id in pending
      modifies this
      ensures Valid() && pending.Values <= old(pending.Values)
      ensures View() == TryFinalize(old(View()), from, id).0 && ok == TryFinalize(old(View()), from, id).1
    {
      ghost var before := View();
      var transfer := pending[id];
      var complete := transfer.Complete();
      if !complete {
        return true;
      }
      pending := pending - {id};
      assert View().pending == before.pending - {id};
      var payload := transfer.IntoPayload();
      match payload {
        case Ok(p) =>
          handlers := handlers + [Started(from, p)];
          assert View() == Receiver(before.pending - {id}, before.handlers + [Started(from, p)]);
          return true;
        case Err(_) =>
          return false;
      }
    }

    /** The arm of `handle_message` for a chunk. */
    method HandleChunk(from: DeviceId, id: TransferId, index: nat, entries: seq<FileEntry>) returns (ok: bool)
      requires Valid()
      modifies this, pending.Values
      ensures Valid() && pending.Values <= old(pending.Values)
      ensures var next := Receive(old(View()), from, TransferChunk(id, index, entries));
              View() == next.0 && ok == next.1
    {
      ghost var before := View();
      if id !in pending {
        return false;
      }
      var transfer := pending[id];
      assert forall k :: k in pending && k != id ==> pending[k] != transfer;
      transfer.PushChunk(index, entries);
      assert View().pending == before.pending[id := transfer.View()];
      ok := TryFinalizeChunkedTransfer(from, id);
    }

    /** The arm of `handle_message` for an end marker. */
    method HandleEnd(from: DeviceId, id: TransferId, count: nat) returns (ok: bool)
      requires Valid()
      modifies this, pending.Values
      ensures Valid() && pending.Values <= old(pending.Values)
      ensures var next := Receive(old(View()), from, TransferEnd(id, count)); View() == next.0 && ok == next.1
    {
      ghost var before := View();
      if id !in pending {
        return false;
      }
      var transfer := pending[id];
      assert forall k :: k in pending && k != id ==> pending[k] != transfer;
      transfer.MarkEnd(count);
      assert View() == Receiver(before.pending[id := transfer.View()], before.handlers) by {
        assert View().pending == before.pending[id := transfer.View()];
      }
      ok := TryFinalizeChunkedTransfer(from, id);
    }

    method HandleMessage(from: DeviceId, m: Envelope) returns (ok: bool)
      requires Valid()
      modifies this, pending.Values
      ensures Valid() && fresh(pending.Values - old(pending.Values))
      ensures View() == Receive(old(View()), from, m).0 && ok == Receive(old(View()), from, m).1
      ensures m.Transfer? ==> ok && handlers == old(handlers) + [Started(from, m.payload)]
      ensures m.Transfer? ==> pending == old(pending) && View().pending == old(View()).pending
      ensures m.TransferHeader? ==> ok && handlers == old(handlers)
      ensures m.TransferHeader? ==> View().pending == old(View()).pending[m.header.id := NewPending(m.header)]
      ensures (m.TransferChunk? || m.TransferEnd?) && EnvelopeId(m) !in old(pending) ==> !ok && View() == old(View())
    {
      match m {
        case Transfer(p) =>
          handlers := handlers + [Started(from, p)];
          ok := true;
        case TransferHeader(h) =>
          ghost var before := View();
          var transfer := new ChunkedTransfer(h);
          pending := pending[h.id := transfer];
          assert View().pending == before.pending[h.id := NewPending(h)];
          ok := true;
        case TransferChunk(id, index, entries) =>
          ok := HandleChunk(from, id, index, entries);
        case TransferEnd(id, count) =>
          ok := HandleEnd(from, id, count);
      }
    }

    /** The 60-second timer of an end marker: drops what is left; its `unwrap_err` cannot panic. */
    method ManifestTimeout(id: TransferId) returns (unwrapped: bool)
      requires Valid()
      modifies this
      ensures Valid() && View() == old(View()).(pending := old(View()).pending - {id})
      ensures unwrapped <==> id in old(View()).pending && !IsComplete(old(View()).pending[id])
      ensures unwrapped ==> Rebuild(old(View()).pending[id]).Err?
    {
      if id !in pending {
        return false;
      }
      var transfer := pending[id];
      pending := pending - {id};
      var complete := transfer.Complete();
      unwrapped := !complete;
    }
  }

  // ---------------------------------------------------------------- any order, any repetition

  datatype Delivery = Delivery(from: DeviceId, m: Envelope)

  ghost function Deliver(r: Receiver, ds: seq<Delivery>): Receiver {
    if ds == [] then r
    else Receive(Deliver(r, ds[..|ds| - 1]), ds[|ds| - 1].from, ds[|ds| - 1].m).0
  }

  /** The handlers started for one transfer: for which sender, with which payload. */
  function HandledFor(handlers: seq<Started>, id: TransferId): seq<Started> {
    if handlers == [] then []
    else
      var last := handlers[|handlers| - 1];
      HandledFor(handlers[..|handlers| - 1], id) + (if last.payload.id == id then [last] else [])
  }

  /** Chunks and the end marker of the plan; other transfers may send whatever they like. */
  ghost predicate Admissible(payload: SendPayload, chunks: seq<seq<FileEntry>>, m: Envelope) {
    EnvelopeId(m) == payload.id ==>
      || (m.TransferChunk? && m.index < |chunks| && m == ChunkEnvelope(payload.id, m.index, chunks[m.index]))
      || m == TransferEnd(payload.id, |chunks|)
  }

  ghost predicate Seen(payload: SendPayload, ds: seq<Delivery>, i: nat) {
    exists k :: 0 <= k < |ds| && ds[k].m.TransferChunk? && ds[k].m.id == payload.id && ds[k].m.index == i
  }

  ghost predicate AllSeen(payload: SendPayload, chunks: seq<seq<FileEntry>>, ds: seq<Delivery>) {
    forall i :: 0 <= i < |chunks| ==> Seen(payload, ds, i)
  }

  ghost predicate EndSeen(payload: SendPayload, ds: seq<Delivery>) {
    exists k :: 0 <= k < |ds| && ds[k].m.TransferEnd? && ds[k].m.id == payload.id
  }

  /** Nothing is missing: every chunk is in, or the end marker of a plan without chunks. */
  ghost predicate Covered(payload: SendPayload, chunks: seq<seq<FileEntry>>, ds: seq<Delivery>) {
    AllSeen(payload, chunks, ds) && (chunks == [] ==> EndSeen(payload, ds))
  }

  /** Who sent the message that was missing last. */
  ghost function Completer(payload: SendPayload, chunks: seq<seq<FileEntry>>, ds: seq<Delivery>): (from: DeviceId)
    requires ds != []
  {
    var front := ds[..|ds| - 1];
    if front != [] && Covered(payload, chunks, front) then Completer(payload, chunks, front) else ds[|ds| - 1].from
  }

  /** What a plan starts, once it is covered. */
  ghost function StartedBy(payload: SendPayload, chunks: seq<seq<FileEntry>>, ds: seq<Delivery>): seq<Started> {
    if ds != [] && Covered(payload, chunks, ds) then [Started(Completer(payload, chunks, ds), Restored(payload))]
    else []
  }

  /** The header carries the current version, whatever the payload's own. */
  function Restored(payload: SendPayload): SendPayload {
    payload.(version := SEND_PAYLOAD_VERSION)
  }

  ghost predicate KeyedByHeader(r: Receiver) {
    forall id :: id in r.pending ==> r.pending[id].header.id == id
  }

  /** The plan the sender made and the receiver that has stored its header. */
  ghost predicate Planned(payload: SendPayload, chunks: seq<seq<FileEntry>>, r: Receiver) {
    && IsSplit(payload.entries, chunks) && |payload.entries| <= U32_MAX
    && KeyedByHeader(r)
    && payload.id in r.pending && r.pending[payload.id] == NewPending(HeaderOf(payload))
  }

  /** The chunks of the plan seen so far. */
  ghost predicate Holds(p: Pending, payload: SendPayload, chunks: seq<seq<FileEntry>>, ds: seq<Delivery>) {
    && p.header == HeaderOf(payload)
    && (forall i: nat :: i in p.chunks <==> i < |chunks| && Seen(payload, ds, i))
    && (forall i :: i in p.chunks ==> p.chunks[i] == chunks[i])
    && (p.expected.Some? ==> p.expected.value == |chunks|)
  }

  lemma {:induction false} ConcatPrefix<T>(chunks: seq<seq<T>>, b: nat)
    requires b < |chunks|
    ensures Concat(chunks[..b + 1]) == Concat(chunks[..b]) + chunks[b]
  {
    assert chunks[..b + 1][..b] == chunks[..b];
  }

  /** A sub-map of the plan reaches the full length exactly when nothing is missing. */
  lemma {:induction false} PartialLength<T>(m: map<nat, seq<T>>, chunks: seq<seq<T>>, b: nat)
    requires b <= |chunks| && (forall i :: i in m ==> i < |chunks| && m[i] == chunks[i])
    requires forall i :: 0 <= i < |chunks| ==> |chunks[i]| > 0
    ensures |InOrder(m, b)| <= |Concat(chunks[..b])|
    ensures |InOrder(m, b)| == |Concat(chunks[..b])| <==> forall i :: 0 <= i < b ==> i in m
    ensures (forall i :: 0 <= i < b ==> i in m) ==> InOrder(m, b) == Concat(chunks[..b])
  {
    if b > 0 {
      PartialLength(m, chunks, b - 1);
      ConcatPrefix(chunks, b - 1);
    }
  }

  ghost function Below(n: nat): (r: set<nat>)
    ensures |r| == n && forall i: nat :: i in r <==> i < n
  {
    if n == 0 then {} else Below(n - 1) + {n - 1}
  }

  lemma {:induction false} FewerChunksThanEntries<T>(chunks: seq<seq<T>>)
    requires forall i :: 0 <= i < |chunks| ==> |chunks[i]| > 0
    ensures |chunks| <= |Concat(chunks)|
  {
    if chunks != [] {
      FewerChunksThanEntries(chunks[..|chunks| - 1]);
    }
  }

  lemma CompleteExactlyWhenCovered(p: Pending, payload: SendPayload, chunks: seq<seq<FileEntry>>, ds: seq<Delivery>)
    requires IsSplit(payload.entries, chunks) && |payload.entries| <= U32_MAX && Holds(p, payload, chunks, ds)
    ensures IsComplete(p) <==> AllSeen(payload, chunks, ds)
    ensures IsComplete(p) ==> Rebuild(p) == Ok(Restored(payload))
  {
    AnyBoundWorks(p.chunks, |chunks|);
    PartialLength(p.chunks, chunks, |chunks|);
    assert chunks[..|chunks|] == chunks;
    if AllSeen(payload, chunks, ds) {
      assert p.chunks.Keys == Below(|chunks|);
      assert |p.chunks| == |p.chunks.Keys|;
    }
  }

  ghost predicate Tracks(payload: SendPayload, chunks: seq<seq<FileEntry>>, ds: seq<Delivery>, start: Receiver,
                         r: Receiver) {
    && KeyedByHeader(r)
    && HandledFor(r.handlers, payload.id) == HandledFor(start.handlers, payload.id) + StartedBy(payload, chunks, ds)
    && (if Covered(payload, chunks, ds) then payload.id !in r.pending
        else payload.id in r.pending && Holds(r.pending[payload.id], payload, chunks, ds))
  }

  lemma SeenAfter(payload: SendPayload, ds: seq<Delivery>, d: Delivery, i: nat)
    ensures Seen(payload, ds + [d], i) <==>
            Seen(payload, ds, i) || (d.m.TransferChunk? && d.m.id == payload.id && d.m.index == i)
  {
    var next := ds + [d];
    if Seen(payload, ds, i) {
      var k :| 0 <= k < |ds| && ds[k].m.TransferChunk? && ds[k].m.id == payload.id && ds[k].m.index == i;
      assert next[k] == ds[k];
    }
    if d.m.TransferChunk? && d.m.id == payload.id && d.m.index == i {
      assert next[|ds|] == d;
    }
  }

  lemma EndSeenAfter(payload: SendPayload, ds: seq<Delivery>, d: Delivery)
    ensures EndSeen(payload, ds + [d]) <==> EndSeen(payload, ds) || (d.m.TransferEnd? && d.m.id == payload.id)
  {
    var next := ds + [d];
    if EndSeen(payload, ds) {
      var k :| 0 <= k < |ds| && ds[k].m.TransferEnd? && ds[k].m.id == payload.id;
      assert next[k] == ds[k];
    }
    if d.m.TransferEnd? && d.m.id == payload.id {
      assert next[|ds|] == d;
    }
  }

  lemma HandledAfter(handlers: seq<Started>, started: Started, id: TransferId)
    ensures HandledFor(handlers + [started], id) ==
            HandledFor(handlers, id) + (if started.payload.id == id then [started] else [])
  {
    assert (handlers + [started])[..|handlers|] == handlers;
  }

  lemma FinalizeKeyed(r: Receiver, from: DeviceId, id: TransferId)
    requires KeyedByHeader(r) && id in r.pending
    ensures var next := TryFinalize(r, from, id).0;
            && KeyedByHeader(next)
            && (forall k :: k != id ==> (k in next.pending <==> k in r.pending))
            && (forall k :: k != id && k in r.pending ==> next.pending[k] == r.pending[k])
            && (forall k :: k != id ==> HandledFor(next.handlers, k) == HandledFor(r.handlers, k))
  {
    var next := TryFinalize(r, from, id).0;
    if next.handlers != r.handlers {
      forall k | k != id ensures HandledFor(next.handlers, k) == HandledFor(r.handlers, k) {
        HandledAfter(r.handlers, next.handlers[|r.handlers|], k);
      }
    }
  }

  /** A message of another transfer concerns this one in no way. */
  lemma OtherTransfer(r: Receiver, d: Delivery, id: TransferId)
    requires KeyedByHeader(r) && EnvelopeId(d.m) != id
    ensures var next := Receive(r, d.from, d.m).0;
            && KeyedByHeader(next)
            && (id in next.pending <==> id in r.pending) && (id in r.pending ==> next.pending[id] == r.pending[id])
            && HandledFor(next.handlers, id) == HandledFor(r.handlers, id)
  {
    match d.m {
      case Transfer(p) => HandledAfter(r.handlers, Started(d.from, p), id);
      case TransferHeader(_) =>
      case TransferChunk(k, index, entries) =>
        if k in r.pending {
          var p := r.pending[k];
          FinalizeKeyed(r.(pending := r.pending[k := p.(chunks := p.chunks[index := entries])]), d.from, k);
        }
      case TransferEnd(k, count) =>
        if k in r.pending {
          var p := r.pending[k].(endReceived := true, expected := Some(count));
          FinalizeKeyed(r.(pending := r.pending[k := p]), d.from, k);
        }
    }
  }

  lemma NothingIsCovered(payload: SendPayload, chunks: seq<seq<FileEntry>>)
    ensures !Covered(payload, chunks, [])
  {
    assert !Seen(payload, [], 0) && !EndSeen(payload, []);
  }

  /** What one more message adds to the account. */
  lemma CoveredNext(payload: SendPayload, chunks: seq<seq<FileEntry>>, ds: seq<Delivery>, d: Delivery)
    ensures Covered(payload, chunks, ds) ==> Covered(payload, chunks, ds + [d])
    ensures Covered(payload, chunks, ds + [d]) && !Covered(payload, chunks, ds) ==> EnvelopeId(d.m) == payload.id
    ensures StartedBy(payload, chunks, ds + [d]) ==
            StartedBy(payload, chunks, ds) +
            if Covered(payload, chunks, ds + [d]) && !Covered(payload, chunks, ds)
            then [Started(d.from, Restored(payload))] else []
  {
    forall i: nat {
      SeenAfter(payload, ds, d, i);
    }
    EndSeenAfter(payload, ds, d);
    NothingIsCovered(payload, chunks);
    assert (ds + [d])[..|ds|] == ds;
  }

  /** The receiver's part: the handlers of the transfer, and what it keeps of it. */
  lemma OwnMessageTracks(payload: SendPayload, chunks: seq<seq<FileEntry>>, ds: seq<Delivery>, d: Delivery, r: Receiver)
    requires IsSplit(payload.entries, chunks) && |payload.entries| <= U32_MAX && KeyedByHeader(r)
    requires Admissible(payload, chunks, d.m) && EnvelopeId(d.m) == payload.id
    requires !Covered(payload, chunks, ds) && payload.id in r.pending
    requires Holds(r.pending[payload.id], payload, chunks, ds)
    ensures var next := Receive(r, d.from, d.m).0;
            && KeyedByHeader(next)
            && (if Covered(payload, chunks, ds + [d]) then
                  && payload.id !in next.pending
                  && HandledFor(next.handlers, payload.id) ==
                     HandledFor(r.handlers, payload.id) + [Started(d.from, Restored(payload))]
                else
                  && payload.id in next.pending && Holds(next.pending[payload.id], payload, chunks, ds + [d])
                  && next.handlers == r.handlers)
  {
    var id := payload.id;
    forall i: nat {
      SeenAfter(payload, ds, d, i);
    }
    EndSeenAfter(payload, ds, d);
    var p := if d.m.TransferChunk? then r.pending[id].(chunks := r.pending[id].chunks[d.m.index := d.m.entries])
             else r.pending[id].(endReceived := true, expected := Some(d.m.count));
    FewerChunksThanEntries(chunks);
    assert Holds(p, payload, chunks, ds + [d]);
    CompleteExactlyWhenCovered(p, payload, chunks, ds + [d]);
    FinalizeKeyed(r.(pending := r.pending[id := p]), d.from, id);
    HandledAfter(r.handlers, Started(d.from, Restored(payload)), id);
  }

  /** Messages of other transfers do not count for what has been seen. */
  lemma HoldsAfterOthers(p: Pending, payload: SendPayload, chunks: seq<seq<FileEntry>>, ds: seq<Delivery>, d: Delivery)
    requires Holds(p, payload, chunks, ds) && EnvelopeId(d.m) != payload.id
    ensures Holds(p, payload, chunks, ds + [d])
  {
    forall i: nat {
      SeenAfter(payload, ds, d, i);
    }
  }

  /** A message of another transfer, or a late one, leaves the account as it is. */
  lemma OtherTracks(payload: SendPayload, chunks: seq<seq<FileEntry>>, ds: seq<Delivery>, d: Delivery, start: Receiver,
                    r: Receiver, next: Receiver)
    requires Tracks(payload, chunks, ds, start, r) && KeyedByHeader(next)
    requires EnvelopeId(d.m) != payload.id || Covered(payload, chunks, ds)
    requires payload.id in next.pending <==> payload.id in r.pending
    requires payload.id in r.pending ==> next.pending[payload.id] == r.pending[payload.id]
    requires HandledFor(next.handlers, payload.id) == HandledFor(r.handlers, payload.id)
    ensures Tracks(payload, chunks, ds + [d], start, next)
  {
    CoveredNext(payload, chunks, ds, d);
    if !Covered(payload, chunks, ds) {
      HoldsAfterOthers(r.pending[payload.id], payload, chunks, ds, d);
    }
  }

  lemma StepTracks(payload: SendPayload, chunks: seq<seq<FileEntry>>, ds: seq<Delivery>, d: Delivery, start: Receiver,
                   r: Receiver)
    requires Planned(payload, chunks, start) && Tracks(payload, chunks, ds, start, r)
    requires Admissible(payload, chunks, d.m)
    ensures Tracks(payload, chunks, ds + [d], start, Receive(r, d.from, d.m).0)
  {
    if EnvelopeId(d.m) != payload.id {
      OtherTransfer(r, d, payload.id);
      OtherTracks(payload, chunks, ds, d, start, r, Receive(r, d.from, d.m).0);
    } else if Covered(payload, chunks, ds) {
      OtherTracks(payload, chunks, ds, d, start, r, Receive(r, d.from, d.m).0);
    } else {
      OwnMessageTracks(payload, chunks, ds, d, r);
      CoveredNext(payload, chunks, ds, d);
    }
  }

  /** Whatever the order and the repetitions, the chunks and the end marker of a plan start exactly one
      handler, with the planned payload at the current version, for the sender of the message that was missing
      last (a chunk or, without chunks, the end marker), and none before it is in. */
  lemma {:induction false} ReassembledExactlyOnce(payload: SendPayload, chunks: seq<seq<FileEntry>>, ds: seq<Delivery>,
                                                  start: Receiver)
    requires Planned(payload, chunks, start)
    requires forall k :: 0 <= k < |ds| ==> Admissible(payload, chunks, ds[k].m)
    ensures Tracks(payload, chunks, ds, start, Deliver(start, ds))
    ensures HandledFor(Deliver(start, ds).handlers, payload.id) ==
            HandledFor(start.handlers, payload.id) + StartedBy(payload, chunks, ds)
  {
    if ds == [] {
      assert !Seen(payload, ds, 0) && !EndSeen(payload, ds);
    } else {
      var front, d := ds[..|ds| - 1], ds[|ds| - 1];
      assert front + [d] == ds;
      ReassembledExactlyOnce(payload, chunks, front, start);
      StepTracks(payload, chunks, front, d, start, Deliver(start, front));
    }
  }

  // ---------------------------------------------------------------- from the planner to the handler

  /** The message is one of the plan, after the header. */
  ghost predicate InPlan(envelopes: seq<Envelope>, m: Envelope) {
    exists i :: 1 <= i < |envelopes| && envelopes[i] == m
  }

  ghost predicate Occurs(ds: seq<Delivery>, m: Envelope) {
    exists k :: 0 <= k < |ds| && ds[k].m == m
  }

  /** Of this transfer only chunks and end markers of the plan are delivered; others send what they like. */
  ghost predicate FromPlan(envelopes: seq<Envelope>, id: TransferId, ds: seq<Delivery>) {
    forall k :: 0 <= k < |ds| && EnvelopeId(ds[k].m) == id ==> InPlan(envelopes, ds[k].m)
  }

  ghost predicate AllDelivered(envelopes: seq<Envelope>, ds: seq<Delivery>) {
    forall i :: 1 <= i < |envelopes| ==> Occurs(ds, envelopes[i])
  }

  lemma PlanIsAdmissible(payload: SendPayload, chunks: seq<seq<FileEntry>>, envelopes: seq<Envelope>, i: nat)
    requires IsPlan(payload, chunks, envelopes) && |payload.entries| <= U32_MAX && 1 <= i < |envelopes|
    ensures Admissible(payload, chunks, envelopes[i])
  {
    FewerChunksThanEntries(chunks);
    if i <= |chunks| {
      assert envelopes[(i - 1) + 1] == ChunkEnvelope(payload.id, i - 1, chunks[i - 1]);
    }
  }

  /** All messages of the transfer come from one device. */
  ghost predicate SentBy(id: TransferId, ds: seq<Delivery>, from: DeviceId) {
    forall k :: 0 <= k < |ds| && EnvelopeId(ds[k].m) == id ==> ds[k].from == from
  }

  lemma {:induction false} CompletedBySender(payload: SendPayload, chunks: seq<seq<FileEntry>>, ds: seq<Delivery>,
                                             from: DeviceId)
    requires ds != [] && Covered(payload, chunks, ds) && SentBy(payload.id, ds, from)
    ensures Completer(payload, chunks, ds) == from
  {
    var front, d := ds[..|ds| - 1], ds[|ds| - 1];
    assert front + [d] == ds;
    if front != [] && Covered(payload, chunks, front) {
      CompletedBySender(payload, chunks, front, from);
    } else {
      NothingIsCovered(payload, chunks);
      CoveredNext(payload, chunks, front, d);
    }
  }

  lemma DeliveredIsCovered(payload: SendPayload, chunks: seq<seq<FileEntry>>, envelopes: seq<Envelope>,
                           ds: seq<Delivery>)
    requires IsPlan(payload, chunks, envelopes) && |payload.entries| <= U32_MAX && AllDelivered(envelopes, ds)
    ensures Covered(payload, chunks, ds)
  {
    FewerChunksThanEntries(chunks);
    forall i | 0 <= i < |chunks| ensures Seen(payload, ds, i) {
      assert envelopes[i + 1] == ChunkEnvelope(payload.id, i, chunks[i]);
      assert Occurs(ds, envelopes[i + 1]);
      var k :| 0 <= k < |ds| && ds[k].m == envelopes[i + 1];
      assert ds[k].m.TransferChunk? && ds[k].m.id == payload.id && ds[k].m.index == i;
    }
    assert Occurs(ds, envelopes[|chunks| + 1]);
    var k :| 0 <= k < |ds| && ds[k].m == envelopes[|chunks| + 1];
    assert ds[k].m.TransferEnd? && ds[k].m.id == payload.id;
  }

  /** The planner and the receiver fit together: once the header of a plan of at most 2^32 - 1 entries is in,
      its other messages, in any order and repetition among the messages of other transfers, start at most
      one handler, and exactly one when all have been delivered. */
  lemma PlanReassembles(payload: SendPayload, chunks: seq<seq<FileEntry>>, envelopes: seq<Envelope>,
                        r: Receiver, from: DeviceId, ds: seq<Delivery>)
    requires IsPlan(payload, chunks, envelopes) && |payload.entries| <= U32_MAX
    requires KeyedByHeader(r) && FromPlan(envelopes, payload.id, ds)
    ensures var end := Deliver(Receive(r, from, envelopes[0]).0, ds);
            && HandledFor(end.handlers, payload.id) ==
               HandledFor(r.handlers, payload.id) + StartedBy(payload, chunks, ds)
            && (AllDelivered(envelopes, ds) ==> ds != [] && Covered(payload, chunks, ds))
            && (AllDelivered(envelopes, ds) && SentBy(payload.id, ds, from) ==>
                  StartedBy(payload, chunks, ds) == [Started(from, Restored(payload))])
  {
    forall k | 0 <= k < |ds| ensures Admissible(payload, chunks, ds[k].m) {
      if EnvelopeId(ds[k].m) == payload.id {
        assert InPlan(envelopes, ds[k].m);
        var i :| 1 <= i < |envelopes| && envelopes[i] == ds[k].m;
        PlanIsAdmissible(payload, chunks, envelopes, i);
      }
    }
    ReassembledExactlyOnce(payload, chunks, ds, Receive(r, from, envelopes[0]).0);
    if AllDelivered(envelopes, ds) {
      DeliveredIsCovered(payload, chunks, envelopes, ds);
      assert Occurs(ds, envelopes[|chunks| + 1]);
      if SentBy(payload.id, ds, from) {
        CompletedBySender(payload, chunks, ds, from);
      }
    }
  }

  /** Chunks and end markers of one transfer, right or wrong ones, rebuild payloads with the entry count
      and the version of its header only. */
  ghost predicate AgreesWithHeader(header: Header, start: Receiver, r: Receiver) {
    && KeyedByHeader(r)
    && (header.id in r.pending ==> r.pending[header.id].header == header)
    && HandledFor(start.handlers, header.id) <= HandledFor(r.handlers, header.id)
    && forall i :: |HandledFor(start.handlers, header.id)| <= i < |HandledFor(r.handlers, header.id)| ==>
         |HandledFor(r.handlers, header.id)[i].payload.entries| == header.entryCount
  }

  lemma AgreementStep(header: Header, start: Receiver, r: Receiver, d: Delivery)
    requires AgreesWithHeader(header, start, r)
    requires EnvelopeId(d.m) == header.id ==> d.m.TransferChunk? || d.m.TransferEnd?
    ensures AgreesWithHeader(header, start, Receive(r, d.from, d.m).0)
  {
    var id := header.id;
    if EnvelopeId(d.m) != id {
      OtherTransfer(r, d, id);
    } else if id in r.pending {
      var p := if d.m.TransferChunk? then r.pending[id].(chunks := r.pending[id].chunks[d.m.index := d.m.entries])
               else r.pending[id].(endReceived := true, expected := Some(d.m.count));
      FinalizeKeyed(r.(pending := r.pending[id := p]), d.from, id);
      if IsComplete(p) && Rebuild(p).Ok? {
        HandledAfter(r.handlers, Started(d.from, Rebuild(p).value), id);
      }
    }
  }

  lemma {:induction false} DeliveriesAgree(header: Header, start: Receiver, ds: seq<Delivery>)
    requires KeyedByHeader(start) && header.id in start.pending && start.pending[header.id].header == header
    requires forall k :: 0 <= k < |ds| && EnvelopeId(ds[k].m) == header.id ==>
               ds[k].m.TransferChunk? || ds[k].m.TransferEnd?
    ensures AgreesWithHeader(header, start, Deliver(start, ds))
  {
    if ds != [] {
      var front, d := ds[..|ds| - 1], ds[|ds| - 1];
      DeliveriesAgree(header, start, front);
      AgreementStep(header, start, Deliver(start, front), d);
    }
  }

  /** The header drops the payload's own version and saturates the count.  When all messages of a plan have
      been delivered, the receiver has started one handler with the planned payload exactly when neither
      matters; it works for the one who sent them. */
  lemma ReassemblyExactlyWhen(payload: SendPayload, chunks: seq<seq<FileEntry>>, envelopes: seq<Envelope>,
                              r: Receiver, from: DeviceId, ds: seq<Delivery>)
    requires IsPlan(payload, chunks, envelopes) && KeyedByHeader(r)
    requires FromPlan(envelopes, payload.id, ds) && AllDelivered(envelopes, ds) && SentBy(payload.id, ds, from)
    ensures HandledFor(Deliver(Receive(r, from, envelopes[0]).0, ds).handlers, payload.id) ==
            HandledFor(r.handlers, payload.id) + [Started(from, payload)]
       <==> payload.version == SEND_PAYLOAD_VERSION && |payload.entries| <= U32_MAX
  {
    if |payload.entries| <= U32_MAX {
      PlanReassembles(payload, chunks, envelopes, r, from, ds);
      var before := HandledFor(r.handlers, payload.id);
      assert (before + [Started(from, payload)])[|before|].payload == payload;
      assert (before + [Started(from, Restored(payload))])[|before|].payload == Restored(payload);
    } else {
      OversizedNeverReassembles(payload, chunks, envelopes, r, from, from, ds);
    }
  }

  lemma OversizedNeverReassembles(payload: SendPayload, chunks: seq<seq<FileEntry>>, envelopes: seq<Envelope>,
                                  r: Receiver, from: DeviceId, sender: DeviceId, ds: seq<Delivery>)
    requires IsPlan(payload, chunks, envelopes) && KeyedByHeader(r) && |payload.entries| > U32_MAX
    requires FromPlan(envelopes, payload.id, ds)
    ensures HandledFor(Deliver(Receive(r, from, envelopes[0]).0, ds).handlers, payload.id) !=
            HandledFor(r.handlers, payload.id) + [Started(sender, payload)]
  {
    var start := Receive(r, from, envelopes[0]).0;
    forall k | 0 <= k < |ds| && EnvelopeId(ds[k].m) == payload.id
      ensures ds[k].m.TransferChunk? || ds[k].m.TransferEnd?
    {
      assert InPlan(envelopes, ds[k].m);
      var i :| 1 <= i < |envelopes| && envelopes[i] == ds[k].m;
      if i <= |chunks| {
        assert envelopes[(i - 1) + 1] == ChunkEnvelope(payload.id, i - 1, chunks[i - 1]);
      }
    }
    DeliveriesAgree(HeaderOf(payload), start, ds);
    var before, after := HandledFor(r.handlers, payload.id), HandledFor(Deliver(start, ds).handlers, payload.id);
    assert (before + [Started(sender, payload)])[|before|].payload == payload;
  }

  // ---------------------------------------------------------------- manifests of either shape

  /** A manifest that fits one message starts one handler when that message arrives, whatever other transfers
      send before and after. */
  lemma {:induction false} SingleMessageStartsOne(payload: SendPayload, r: Receiver, ds: seq<Delivery>, k: nat)
    requires KeyedByHeader(r) && k < |ds| && ds[k].m == Transfer(payload)
    requires forall j :: 0 <= j < |ds| && j != k ==> EnvelopeId(ds[j].m) != payload.id
    ensures HandledFor(Deliver(r, ds).handlers, payload.id) ==
            HandledFor(r.handlers, payload.id) + [Started(ds[k].from, payload)]
    ensures KeyedByHeader(Deliver(r, ds))
  {
    var front, d := ds[..|ds| - 1], ds[|ds| - 1];
    if k < |front| {
      SingleMessageStartsOne(payload, r, front, k);
      OtherTransfer(Deliver(r, front), d, payload.id);
    } else {
      OthersStartNothing(payload.id, r, front);
      HandledAfter(Deliver(r, front).handlers, Started(d.from, payload), payload.id);
    }
  }

  lemma {:induction false} OthersStartNothing(id: TransferId, r: Receiver, ds: seq<Delivery>)
    requires KeyedByHeader(r) && forall j :: 0 <= j < |ds| ==> EnvelopeId(ds[j].m) != id
    ensures KeyedByHeader(Deliver(r, ds)) && HandledFor(Deliver(r, ds).handlers, id) == HandledFor(r.handlers, id)
  {
    if ds != [] {
      OthersStartNothing(id, r, ds[..|ds| - 1]);
      OtherTransfer(Deliver(r, ds[..|ds| - 1]), ds[|ds| - 1], id);
    }
  }

  function AllFrom(from: DeviceId, envelopes: seq<Envelope>): (ds: seq<Delivery>)
    ensures |ds| == |envelopes|
  {
    seq(|envelopes|, i requires 0 <= i < |envelopes| => Delivery(from, envelopes[i]))
  }

  lemma DeliverLast(r: Receiver, ds: seq<Delivery>)
    requires ds != []
    ensures Deliver(r, ds) == Receive(Deliver(r, ds[..|ds| - 1]), ds[|ds| - 1].from, ds[|ds| - 1].m).0
  {
  }

  lemma {:induction false} DeliverFirst(r: Receiver, d: Delivery, rest: seq<Delivery>)
    ensures Deliver(r, [d] + rest) == Deliver(Receive(r, d.from, d.m).0, rest)
  {
    var ds := [d] + rest;
    DeliverLast(r, ds);
    if rest == [] {
      assert ds[..|ds| - 1] == [];
    } else {
      DeliverFirst(r, d, rest[..|rest| - 1]);
      assert ds[..|ds| - 1] == [d] + rest[..|rest| - 1];
      DeliverLast(Receive(r, d.from, d.m).0, rest);
    }
  }

  /** From one end to the other: what the planner returns, in one message or in many, delivered as it is sent,
      starts exactly one handler, for the sender: with the payload itself where one message does, with the
      payload at the current version where chunks do. */
  lemma PlannedManifestArrives(payload: SendPayload, fits: Envelope -> bool, chunks: seq<seq<FileEntry>>,
                               envelopes: seq<Envelope>, r: Receiver, from: DeviceId)
    requires fits(Transfer(payload)) ==> envelopes == [Transfer(payload)]
    requires !fits(Transfer(payload)) ==> IsPlan(payload, chunks, envelopes) && |payload.entries| <= U32_MAX
    requires KeyedByHeader(r)
    ensures HandledFor(Deliver(r, AllFrom(from, envelopes)).handlers, payload.id) ==
            HandledFor(r.handlers, payload.id) +
            [Started(from, if fits(Transfer(payload)) then payload else Restored(payload))]
  {
    if fits(Transfer(payload)) {
      SingleMessageStartsOne(payload, r, AllFrom(from, envelopes), 0);
    } else {
      PlanInOrderArrives(payload, chunks, envelopes, r, from);
    }
  }

  lemma PlanInOrderArrives(payload: SendPayload, chunks: seq<seq<FileEntry>>, envelopes: seq<Envelope>, r: Receiver,
                           from: DeviceId)
    requires IsPlan(payload, chunks, envelopes) && |payload.entries| <= U32_MAX && KeyedByHeader(r)
    ensures HandledFor(Deliver(r, AllFrom(from, envelopes)).handlers, payload.id) ==
            HandledFor(r.handlers, payload.id) + [Started(from, Restored(payload))]
  {
    var ds := AllFrom(from, envelopes);
    var rest := ds[1..];
    assert ds == [ds[0]] + rest;
    DeliverFirst(r, ds[0], rest);
    RestIsPlan(envelopes, from);
    assert FromPlan(envelopes, payload.id, rest) && SentBy(payload.id, rest, from) && AllDelivered(envelopes, rest);
    PlanReassembles(payload, chunks, envelopes, r, from, rest);
  }

  lemma RestIsPlan(envelopes: seq<Envelope>, from: DeviceId)
    requires envelopes != []
    ensures var rest := AllFrom(from, envelopes)[1..];
            && AllDelivered(envelopes, rest)
            && forall k :: 0 <= k < |rest| ==> InPlan(envelopes, rest[k].m) && rest[k].from == from
  {
    var rest := AllFrom(from, envelopes)[1..];
    forall i | 1 <= i < |envelopes| ensures Occurs(rest, envelopes[i]) {
      assert rest[i - 1].m == envelopes[i];
    }
    forall k | 0 <= k < |rest| ensures InPlan(envelopes, rest[k].m) && rest[k].from == from {
      assert rest[k].m == envelopes[k + 1];
    }
  }

  // ---------------------------------------------------------------- manifests that do not add up

  /** Full in number but not in bytes: the transfer is dropped, rejected, and starts nothing. */
  lemma WrongByteSumIsRejected(r: Receiver, from: DeviceId, id: TransferId, index: nat, entries: seq<FileEntry>)
    requires id in r.pending
    requires var p := r.pending[id];
             var all := Assemble(p.chunks[index := entries]);
             && |all| == p.header.entryCount && ByteSum(all) != p.header.bytesTotal
             && (p.expected.Some? ==> |p.chunks[index := entries]| == p.expected.value)
    ensures Receive(r, from, TransferChunk(id, index, entries)) == (r.(pending := r.pending - {id}), false)
  {
    var p := r.pending[id];
    assert r.pending[id := p.(chunks := p.chunks[index := entries])] - {id} == r.pending - {id};
  }

  /** While the number of entries or chunks is not the announced one, a chunk is kept and nothing starts. */
  lemma PartWaits(r: Receiver, from: DeviceId, id: TransferId, index: nat, entries: seq<FileEntry>)
    requires id in r.pending
    requires var p := r.pending[id];
             || |Assemble(p.chunks[index := entries])| != p.header.entryCount
             || (p.expected.Some? && |p.chunks[index := entries]| != p.expected.value)
    ensures var (next, ok) := Receive(r, from, TransferChunk(id, index, entries));
            && ok && next.handlers == r.handlers && id in next.pending
            && next.pending[id] == r.pending[id].(chunks := r.pending[id].chunks[index := entries])
            && next.pending - {id} == r.pending - {id}
  {
  }
}
