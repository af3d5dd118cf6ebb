/**
 Chunked blob transfer: the BLOB_CHUNK header and the receiver of
 clients/js/catalog.js, its use by clients/js/session.js, and the independent
 receiver of clients/mfp/SlopSync.cs.
 */
module Blob {
  import opened Wire

  const CHUNK: nat := 192
  const CHUNK_HEADER: nat := 14
  const REPAIR_MAX: nat := 32

  datatype Chunk = Chunk(
    ns: nat, storeId: nat, slot: nat, generation: nat, index: nat, count: nat, total: nat, bytes: Bytes)

  // ---- the chunk header ----------------------------------------------------------

  /** The payload a hub sends for a chunk; the reserved byte may hold anything. */
  function ChunkPayload(c: Chunk, reserved: byte): Bytes {
    [c.ns % 256, c.storeId % 256, c.slot % 256, reserved]
    + U16(c.generation) + U16(c.index) + U16(c.count) + U32(c.total) + c.bytes
  }

  function ParseChunk(payload: Bytes): Option<Chunk> {
    if |payload| < CHUNK_HEADER then None
    else Some(Chunk(payload[0], payload[1], payload[2], ReadU16(payload, 4), ReadU16(payload, 6),
                    ReadU16(payload, 8), ReadU32(payload, 10), payload[CHUNK_HEADER..]))
  }

  predicate ChunkFits(c: Chunk) {
    && c.ns < 256 && c.storeId < 256 && c.slot < 256
    && c.generation < 0x1_0000 && c.index < 0x1_0000 && c.count < 0x1_0000 && c.total < 0x1_0000_0000
  }

  lemma ChunkRoundTrip(c: Chunk, reserved: byte)
    requires ChunkFits(c)
    ensures ParseChunk(ChunkPayload(c, reserved)) == Some(c)
  {
    hide U16, U32, ReadU16, ReadU32;
    var p := ChunkPayload(c, reserved);
    var front := [c.ns % 256, c.storeId % 256, c.slot % 256, reserved];
    assert p[..4] == front;
    assert p[0] == front[0] && p[1] == front[1] && p[2] == front[2];
    assert p[4..6] == U16(c.generation);
    assert p[6..8] == U16(c.index);
    assert p[8..10] == U16(c.count);
    assert p[10..14] == U32(c.total);
    assert p[14..] == c.bytes;
    U16RoundTrip(p, 4, c.generation);
    U16RoundTrip(p, 6, c.index);
    U16RoundTrip(p, 8, c.count);
    U32RoundTrip(p, 10, c.total);
  }

  /** Where each field of the header lies, low byte first. */
  lemma ChunkLayout(c: Chunk, reserved: byte)
    requires ChunkFits(c)
    ensures var p := ChunkPayload(c, reserved);
            && |p| == 14 + |c.bytes| && p[0] == c.ns && p[1] == c.storeId && p[2] == c.slot
            && Pair(p[4], p[5]) == c.generation && Pair(p[6], p[7]) == c.index && Pair(p[8], p[9]) == c.count
            && Pair(p[10], p[11]) + 65536 * Pair(p[12], p[13]) == c.total
  {
    hide U16, U32, ReadU16, Pair;
    ChunkRoundTrip(c, reserved);
    var p := ChunkPayload(c, reserved);
    LowFirst(p, 4);
    LowFirst(p, 6);
    LowFirst(p, 8);
    LowFirst(p, 10);
    LowFirst(p, 12);
  }

  // ---- the receiver's state --------------------------------------------------------

  datatype Target = Target(ns: nat, storeId: nat, slot: nat)

  datatype Transfer =
    | Idle
    | Active(target: Target, received: seq<bool>, buf: Bytes, startMs: int, progressMs: int)

  function TargetOf(c: Chunk): Target { Target(c.ns, c.storeId, c.slot) }

  function Zeros(n: nat): (b: Bytes)
    ensures |b| == n
  {
    seq(n, i => 0)
  }

  function NoneReceived(n: nat): (r: seq<bool>)
    ensures |r| == n && forall i | 0 <= i < n :: !r[i]
  {
    seq(n, i => false)
  }

  /** A header that announces nothing, or more than the cap, leaves the receiver idle. */
  predicate Beginnable(c: Chunk, cap: nat) {
    c.count > 0 && 0 < c.total <= cap
  }

  function Begin(c: Chunk, now: int, cap: nat): Transfer {
    if Beginnable(c, cap) then Active(TargetOf(c), NoneReceived(c.count), Zeros(c.total), now, now) else Idle
  }

  predicate Accepts(t: Transfer, c: Chunk) {
    && t.Active?
    && TargetOf(c) == t.target
    && c.count == |t.received| && c.index < c.count
    && c.index * CHUNK + |c.bytes| <= |t.buf|
  }

  function Insert(t: Transfer, c: Chunk, now: int): Transfer {
    if Accepts(t, c) then
      t.(buf := Overwrite(t.buf, c.index * CHUNK, c.bytes), received := t.received[c.index := true], progressMs := now)
    else t
  }

  function CountTrue(r: seq<bool>): (n: nat)
    ensures n <= |r|
  {
    if r == [] then 0 else CountTrue(r[..|r| - 1]) + (if r[|r| - 1] then 1 else 0)
  }

  predicate Complete(t: Transfer) {
    t.Active? && CountTrue(t.received) == |t.received|
  }

  /** The indices below `n` not yet received, ascending. */
  function MissingBelow(r: seq<bool>, n: nat): seq<nat>
    requires n <= |r|
  {
    if n == 0 then [] else MissingBelow(r, n - 1) + (if r[n - 1] then [] else [n - 1])
  }

  function Missing(t: Transfer): seq<nat> {
    if t.Active? then MissingBelow(t.received, |t.received|) else []
  }

  lemma {:induction false} CountsMissing(r: seq<bool>, n: nat)
    requires n <= |r|
    ensures CountTrue(r[..n]) + |MissingBelow(r, n)| == n
  {
    if n > 0 {
      assert r[..n][..n - 1] == r[..n - 1];
      CountsMissing(r, n - 1);
    }
  }

  /** While active, the counter says complete exactly when no index is missing. */
  lemma CompleteIffNoneMissing(t: Transfer)
    requires t.Active?
    ensures Complete(t) <==> Missing(t) == []
  {
    CountsMissing(t.received, |t.received|);
    assert t.received[..|t.received|] == t.received;
  }

  lemma {:induction false} MissingMembers(r: seq<bool>, n: nat)
    requires n <= |r|
    ensures forall i: nat :: i in MissingBelow(r, n) <==> i < n && !r[i]
    ensures forall j, k | 0 <= j < k < |MissingBelow(r, n)| :: MissingBelow(r, n)[j] < MissingBelow(r, n)[k]
  {
    if n > 0 {
      MissingMembers(r, n - 1);
      var m := MissingBelow(r, n - 1);
      assert forall j | 0 <= j < |m| :: m[j] in m;
    }
  }

  // ---- an honest sender --------------------------------------------------------------

  function ChunkCount(blob: Bytes): nat { (|blob| + CHUNK - 1) / CHUNK }

  function SliceEnd(size: nat, i: nat): nat {
    if CHUNK * (i + 1) <= size then CHUNK * (i + 1) else size
  }

  function Slice(blob: Bytes, i: nat): (s: Bytes)
    requires i < ChunkCount(blob)
  {
    blob[CHUNK * i..SliceEnd(|blob|, i)]
  }

  function HonestChunk(blob: Bytes, generation: nat, i: nat): Chunk
    requires i < ChunkCount(blob)
  {
    Chunk(0, 0, 0, generation, i, ChunkCount(blob), |blob|, Slice(blob, i))
  }

  /** Everything received so far is where the blob has it. */
  ghost predicate Partial(t: Transfer, blob: Bytes) {
    && t.Active? && t.target == Target(0, 0, 0)
    && |t.received| == ChunkCount(blob) && |t.buf| == |blob|
    && forall i | 0 <= i < |t.received| && t.received[i] :: Slice(t.buf, i) == Slice(blob, i)
  }

  lemma SlicesApart(i: nat, j: nat, size: nat)
    requires i != j && CHUNK * i < size && CHUNK * j < size
    ensures SliceEnd(size, i) <= CHUNK * j || SliceEnd(size, j) <= CHUNK * i
  {
  }

  lemma SliceAfterOverwrite(buf: Bytes, j: nat, part: Bytes, i: nat)
    requires i < ChunkCount(buf) && j < ChunkCount(buf)
    requires CHUNK * j + |part| == SliceEnd(|buf|, j)
    ensures Slice(Overwrite(buf, CHUNK * j, part), i) == if i == j then part else Slice(buf, i)
  {
    var b := Overwrite(buf, CHUNK * j, part);
    if i == j {
      assert b[CHUNK * j..CHUNK * j + |part|] == part;
    } else {
      SlicesApart(i, j, |buf|);
      assert Slice(b, i) == Slice(buf, i);
    }
  }

  /** An honest chunk is accepted and keeps the transfer right. */
  lemma InsertHonest(t: Transfer, blob: Bytes, g: nat, j: nat, now: int)
    requires Partial(t, blob) && j < ChunkCount(blob)
    ensures Accepts(t, HonestChunk(blob, g, j))
    ensures Partial(Insert(t, HonestChunk(blob, g, j), now), blob)
  {
    var c := HonestChunk(blob, g, j);
    var t' := Insert(t, c, now);
    forall i | 0 <= i < |t'.received| && t'.received[i] ensures Slice(t'.buf, i) == Slice(blob, i) {
      SliceAfterOverwrite(t.buf, j, c.bytes, i);
    }
  }

  lemma BeginHonest(blob: Bytes, g: nat, j: nat, now: int, cap: nat)
    requires 0 < |blob| <= cap && j < ChunkCount(blob)
    ensures Partial(Begin(HonestChunk(blob, g, j), now, cap), blob)
  {
  }

  lemma {:induction false} AllCounted(r: seq<bool>)
    requires CountTrue(r) == |r|
    ensures forall i | 0 <= i < |r| :: r[i]
  {
    if r != [] {
      AllCounted(r[..|r| - 1]);
    }
  }

  /** A transfer that reports complete has assembled the blob, byte for byte. */
  lemma CompleteAssembles(t: Transfer, blob: Bytes)
    requires Partial(t, blob) && Complete(t)
    ensures t.buf == blob
  {
    AllCounted(t.received);
    SlicesDecide(t.buf, blob);
  }

  // ---- what the session does with each chunk -------------------------------------------

  /** The reassembler afterwards, the bytes handed on when the transfer completed, and a cap refusal. */
  datatype Received = Received(transfer: Transfer, done: Option<Bytes>, refused: bool)

  predicate SameTransfer(t: Transfer, c: Chunk) {
    t.Active? && |t.received| == c.count && |t.buf| == c.total
  }

  function Receive(t: Transfer, c: Chunk, now: int, cap: nat): Received {
    if c.ns != 0 || c.count == 0 || c.index >= c.count then Received(t, None, false)
    else if !SameTransfer(t, c) && c.total > cap then Received(t, None, true)
    else
      var begun := if SameTransfer(t, c) then t else Begin(c, now, cap);
      var t' := Insert(begun, c, now);
      if Accepts(begun, c) && Complete(t') then Received(Idle, Some(t'.buf), false) else Received(t', None, false)
  }

  /** A chunk of another namespace or out of its own range, or of another store while a transfer is under way, changes nothing. */
  lemma ForeignIgnored(t: Transfer, c: Chunk, now: int, cap: nat)
    requires c.ns != 0 || c.index >= c.count || (SameTransfer(t, c) && TargetOf(c) != t.target)
    ensures Receive(t, c, now, cap) == Received(t, None, false)
  {
    hide Complete;
  }

  /** A chunk taken in is progress, be it a duplicate; the transfer's age is counted from its first chunk. */
  lemma TakenIsProgress(t: Transfer, c: Chunk, now: int, cap: nat)
    requires c.ns == 0 && c.index < c.count && 0 < c.total <= cap && c.index * CHUNK + |c.bytes| <= c.total
    requires SameTransfer(t, c) ==> TargetOf(c) == t.target
    ensures var r := Receive(t, c, now, cap);
            && !r.refused
            && (r.done.None? ==> r.transfer.Active? && r.transfer.progressMs == now && r.transfer.received[c.index]
                                 && r.transfer.startMs == if SameTransfer(t, c) then t.startMs else now)
            && (r.done.Some? ==> r.transfer.Idle?)
  {
    hide Complete, Overwrite;
  }

  /** Chunks cut from the blobs on offer, one blob for each total size. */
  predicate HonestIn(content: map<nat, Bytes>, c: Chunk) {
    && c.total in content && |content[c.total]| == c.total
    && c.index < ChunkCount(content[c.total])
    && c == HonestChunk(content[c.total], c.generation, c.index)
  }

  ghost predicate OnCourse(t: Transfer, content: map<nat, Bytes>) {
    t.Idle? || (|t.buf| in content && Partial(t, content[|t.buf|]))
  }

  lemma ReceiveHonest(t: Transfer, c: Chunk, content: map<nat, Bytes>, now: int, cap: nat)
    requires OnCourse(t, content) && HonestIn(content, c)
    ensures var r := Receive(t, c, now, cap);
            && OnCourse(r.transfer, content)
            && (r.done.Some? ==> |r.done.value| in content && r.done.value == content[|r.done.value|])
            && (r.refused ==> c.total > cap)
  {
    var blob := content[c.total];
    if !SameTransfer(t, c) && c.total <= cap {
      BeginHonest(blob, c.generation, c.index, now, cap);
    }
    var begun := if SameTransfer(t, c) then t else Begin(c, now, cap);
    if SameTransfer(t, c) || c.total <= cap {
      InsertHonest(begun, blob, c.generation, c.index, now);
      if Complete(Insert(begun, c, now)) {
        CompleteAssembles(Insert(begun, c, now), blob);
      }
    }
  }

  /** The blobs handed on, in order, by a receiver fed a stream of timed chunks. */
  function Handed(t: Transfer, stream: seq<(Chunk, int)>, cap: nat): seq<Bytes>
    decreases |stream|
  {
    if stream == [] then []
    else
      var r := Receive(t, stream[0].0, stream[0].1, cap);
      (if r.done.Some? then [r.done.value] else []) + Handed(r.transfer, stream[1..], cap)
  }

  /**
   Under any loss, duplication, reordering, interleaving or restart of transfers
   of blobs that differ in size, only whole blobs on offer are handed on.
   */
  lemma {:induction false} OnlyWholeBlobs(t: Transfer, stream: seq<(Chunk, int)>, content: map<nat, Bytes>, cap: nat)
    requires OnCourse(t, content)
    requires forall k | 0 <= k < |stream| :: HonestIn(content, stream[k].0)
    ensures forall k | 0 <= k < |Handed(t, stream, cap)| ::
              var b := Handed(t, stream, cap)[k]; |b| in content && b == content[|b|]
    decreases |stream|
  {
    if stream != [] {
      ReceiveHonest(t, stream[0].0, content, stream[0].1, cap);
      OnlyWholeBlobs(Receive(t, stream[0].0, stream[0].1, cap).transfer, stream[1..], content, cap);
    }
  }

  // ---- two blobs of one size -----------------------------------------------------------

  /** A chunk cut from one of two blobs of the same size. */
  predicate FromEither(a: Bytes, b: Bytes, c: Chunk)
    requires |a| == |b|
  {
    && c.index < ChunkCount(a)
    && (c == HonestChunk(a, c.generation, c.index) || c == HonestChunk(b, c.generation, c.index))
  }

  /** Everything received so far is where one of the two has it. */
  ghost predicate Mixed(t: Transfer, a: Bytes, b: Bytes)
    requires |a| == |b|
  {
    t.Idle? || (
      && t.target == Target(0, 0, 0)
      && |t.received| == ChunkCount(a) && |t.buf| == |a|
      && forall i | 0 <= i < |t.received| && t.received[i] :: Slice(t.buf, i) == Slice(a, i) || Slice(t.buf, i) == Slice(b, i)
    )
  }

  lemma SlicesDecide(x: Bytes, y: Bytes)
    requires |x| == |y| && forall i | 0 <= i < ChunkCount(x) :: Slice(x, i) == Slice(y, i)
    ensures x == y
  {
    forall p | 0 <= p < |x| ensures x[p] == y[p] {
      var i := p / CHUNK;
      assert Slice(x, i)[p - CHUNK * i] == Slice(y, i)[p - CHUNK * i];
    }
  }

  lemma InsertMixed(t: Transfer, a: Bytes, b: Bytes, c: Chunk, now: int)
    requires |a| == |b| && t.Active? && Mixed(t, a, b) && FromEither(a, b, c)
    ensures Accepts(t, c) && Mixed(Insert(t, c, now), a, b)
  {
    var t' := Insert(t, c, now);
    forall i | 0 <= i < |t'.received| && t'.received[i]
      ensures Slice(t'.buf, i) == Slice(a, i) || Slice(t'.buf, i) == Slice(b, i)
    {
      SliceAfterOverwrite(t.buf, c.index, c.bytes, i);
    }
  }

  /** The blobs differ in one slice at most. */
  predicate NearlyAlike(a: Bytes, b: Bytes)
    requires |a| == |b|
  {
    forall i, j | 0 <= i < j < ChunkCount(a) :: Slice(a, i) == Slice(b, i) || Slice(a, j) == Slice(b, j)
  }

  lemma MixedComplete(t: Transfer, a: Bytes, b: Bytes)
    requires |a| == |b| && Mixed(t, a, b) && Complete(t) && NearlyAlike(a, b)
    ensures t.buf == a || t.buf == b
  {
    hide Slice;
    AllCounted(t.received);
    if d :| 0 <= d < ChunkCount(a) && Slice(t.buf, d) != Slice(a, d) {
      forall i | 0 <= i < ChunkCount(a) ensures Slice(t.buf, i) == Slice(b, i) {
        if i != d {
          var lo, hi := if i < d then i else d, if i < d then d else i;
          assert Slice(a, lo) == Slice(b, lo) || Slice(a, hi) == Slice(b, hi);
        }
      }
      SlicesDecide(t.buf, b);
    } else {
      SlicesDecide(t.buf, a);
    }
  }

  lemma ReceiveMixed(t: Transfer, a: Bytes, b: Bytes, c: Chunk, now: int, cap: nat)
    requires |a| == |b| && Mixed(t, a, b) && FromEither(a, b, c) && NearlyAlike(a, b)
    ensures var r := Receive(t, c, now, cap);
            Mixed(r.transfer, a, b) && (r.done.Some? ==> r.done.value == a || r.done.value == b)
  {
    hide NearlyAlike, Slice, CountTrue;
    if SameTransfer(t, c) || c.total <= cap {
      var begun := if SameTransfer(t, c) then t else Begin(c, now, cap);
      InsertMixed(begun, a, b, c, now);
      if Complete(Insert(begun, c, now)) {
        MixedComplete(Insert(begun, c, now), a, b);
      }
    }
  }

  ghost predicate AllFromEither(a: Bytes, b: Bytes, stream: seq<(Chunk, int)>)
    requires |a| == |b|
  {
    forall k | 0 <= k < |stream| :: FromEither(a, b, stream[k].0)
  }

  ghost predicate OnlyEither(a: Bytes, b: Bytes, handed: seq<Bytes>) {
    forall k | 0 <= k < |handed| :: handed[k] == a || handed[k] == b
  }

  lemma {:induction false} NeverBlends(t: Transfer, a: Bytes, b: Bytes, stream: seq<(Chunk, int)>, cap: nat)
    requires |a| == |b| && Mixed(t, a, b) && NearlyAlike(a, b) && AllFromEither(a, b, stream)
    ensures OnlyEither(a, b, Handed(t, stream, cap))
    decreases |stream|
  {
    hide Mixed, NearlyAlike, FromEither, Receive;
    if stream != [] {
      ReceiveMixed(t, a, b, stream[0].0, stream[0].1, cap);
      NeverBlends(Receive(t, stream[0].0, stream[0].1, cap).transfer, a, b, stream[1..], cap);
    }
  }

  /** The chunks of a blob from `k` on, in order. */
  function InOrder(blob: Bytes, k: nat): seq<(Chunk, int)>
    requires k <= ChunkCount(blob)
  {
    seq(ChunkCount(blob) - k, i requires 0 <= i < ChunkCount(blob) - k => (HonestChunk(blob, 0, k + i), 0))
  }

  /** The first `k` chunks are in, and no others. */
  ghost predicate FirstIn(t: Transfer, blob: Bytes, k: nat) {
    if k == 0 then t.Idle?
    else Partial(t, blob) && forall i | 0 <= i < |t.received| :: t.received[i] <==> i < k
  }

  /** All the chunks of a blob, in order, hand it on. */
  lemma {:induction false} InOrderHands(t: Transfer, blob: Bytes, k: nat, cap: nat)
    requires 0 < |blob| <= cap && k < ChunkCount(blob) && FirstIn(t, blob, k)
    ensures Handed(t, InOrder(blob, k), cap) == [blob]
    decreases ChunkCount(blob) - k
  {
    hide Partial, Slice, CountTrue, Missing;
    var stream := InOrder(blob, k);
    var c := HonestChunk(blob, 0, k);
    NextChunk(t, blob, k, cap);
    var r := Receive(t, c, 0, cap);
    assert stream[0] == (c, 0);
    assert stream[1..] == InOrder(blob, k + 1);
    if k + 1 < ChunkCount(blob) {
      InOrderHands(r.transfer, blob, k + 1, cap);
    }
  }

  lemma NextChunk(t: Transfer, blob: Bytes, k: nat, cap: nat)
    requires 0 < |blob| <= cap && k < ChunkCount(blob) && FirstIn(t, blob, k)
    ensures var r := Receive(t, HonestChunk(blob, 0, k), 0, cap);
            if k + 1 < ChunkCount(blob) then r.done.None? && FirstIn(r.transfer, blob, k + 1) else r.done == Some(blob)
  {
    hide Slice, CountTrue;
    var c := HonestChunk(blob, 0, k);
    if k == 0 { BeginHonest(blob, 0, k, 0, cap); }
    var begun := if k == 0 then Begin(c, 0, cap) else t;
    InsertHonest(begun, blob, 0, k, 0);
    var t' := Insert(begun, c, 0);
    assert k + 1 < ChunkCount(blob) ==> !t'.received[k + 1];
    if k + 1 == ChunkCount(blob) {
      AllCountedBack(t'.received);
      CompleteAssembles(t', blob);
    } else if Complete(t') {
      AllCounted(t'.received);
    }
  }

  /** Slice `i` of one blob among the slices of another. */
  function Blend(a: Bytes, b: Bytes, i: nat): (m: Bytes)
    requires |a| == |b| && i < ChunkCount(a)
    ensures |m| == |a|
  {
    Overwrite(b, CHUNK * i, Slice(a, i))
  }

  lemma BlendChunks(a: Bytes, b: Bytes, i: nat)
    requires |a| == |b| && i < ChunkCount(a)
    ensures AllFromEither(a, b, InOrder(Blend(a, b, i), 0))
    ensures forall k | 0 <= k < ChunkCount(a) :: Slice(Blend(a, b, i), k) == if k == i then Slice(a, i) else Slice(b, k)
  {
    forall k | 0 <= k < ChunkCount(a)
      ensures Slice(Blend(a, b, i), k) == if k == i then Slice(a, i) else Slice(b, k)
      ensures FromEither(a, b, HonestChunk(Blend(a, b, i), 0, k))
    {
      SliceAfterOverwrite(b, i, Slice(a, i), k);
    }
  }

  /**
   The header does not separate two blobs of one size. Whatever the loss, order
   and repetition of their chunks, only one or the other is handed on exactly when
   they differ in one slice at most; otherwise some stream completes a third.
   */
  lemma BlendsExactly(a: Bytes, b: Bytes, cap: nat)
    requires 0 < |a| == |b| <= cap
    ensures (forall stream | AllFromEither(a, b, stream) :: OnlyEither(a, b, Handed(Idle, stream, cap))) <==> NearlyAlike(a, b)
  {
    hide Slice, Handed, AllFromEither;
    if NearlyAlike(a, b) {
      forall stream | AllFromEither(a, b, stream) ensures OnlyEither(a, b, Handed(Idle, stream, cap)) {
        NeverBlends(Idle, a, b, stream, cap);
      }
    } else {
      var i, j :| 0 <= i < j < ChunkCount(a) && Slice(a, i) != Slice(b, i) && Slice(a, j) != Slice(b, j);
      var m := Blend(a, b, i);
      BlendChunks(a, b, i);
      InOrderHands(Idle, m, 0, cap);
      assert Slice(m, i) == Slice(a, i) && Slice(m, j) == Slice(b, j);
      assert !OnlyEither(a, b, [m]) by { assert [m][0] == m; }
    }
  }

  // ---- completion and repair -------------------------------------------------------------

  predicate InRange(indices: seq<nat>, n: nat) {
    forall k | 0 <= k < |indices| :: indices[k] < n
  }

  /** Chunks of one blob, in the order given. */
  function Feed(t: Transfer, blob: Bytes, g: nat, indices: seq<nat>, now: int): Transfer
    requires InRange(indices, ChunkCount(blob))
  {
    if indices == [] then t
    else
      var last := |indices| - 1;
      Insert(Feed(t, blob, g, indices[..last], now), HonestChunk(blob, g, indices[last]), now)
  }

  lemma {:induction false} FeedHonest(t: Transfer, blob: Bytes, g: nat, indices: seq<nat>, now: int)
    requires Partial(t, blob)
    requires InRange(indices, ChunkCount(blob))
    ensures Partial(Feed(t, blob, g, indices, now), blob)
    ensures forall i | 0 <= i < ChunkCount(blob) ::
              Feed(t, blob, g, indices, now).received[i] <==> t.received[i] || i in indices
  {
    if indices != [] {
      var last := |indices| - 1;
      assert indices == indices[..last] + [indices[last]];
      FeedHonest(t, blob, g, indices[..last], now);
      InsertHonest(Feed(t, blob, g, indices[..last], now), blob, g, indices[last], now);
    }
  }

  lemma {:induction false} AllCountedBack(r: seq<bool>)
    requires forall i | 0 <= i < |r| :: r[i]
    ensures CountTrue(r) == |r|
  {
    if r != [] {
      AllCountedBack(r[..|r| - 1]);
    }
  }

  /** A fresh transfer is complete once every index has arrived at least once, and not before. */
  lemma CompleteIffAllArrived(blob: Bytes, g: nat, indices: seq<nat>, now: int, cap: nat)
    requires 0 < |blob| <= cap && indices != []
    requires InRange(indices, ChunkCount(blob))
    ensures var t := Feed(Begin(HonestChunk(blob, g, indices[0]), now, cap), blob, g, indices, now);
            && (Complete(t) <==> forall i | 0 <= i < ChunkCount(blob) :: i in indices)
            && (Complete(t) ==> t.buf == blob)
  {
    BeginHonest(blob, g, indices[0], now, cap);
    var t0 := Begin(HonestChunk(blob, g, indices[0]), now, cap);
    var t := Feed(t0, blob, g, indices, now);
    FeedHonest(t0, blob, g, indices, now);
    if Complete(t) {
      AllCounted(t.received);
      CompleteAssembles(t, blob);
    } else if forall i | 0 <= i < ChunkCount(blob) :: t.received[i] {
      AllCountedBack(t.received);
      assert false;
    }
  }

  lemma {:induction false} MissingAbove(r: seq<bool>, n: nat, m: nat)
    requires n <= m < |r|
    ensures MissingBelow(r[m := true], n) == MissingBelow(r, n)
  {
    if n > 0 {
      MissingAbove(r, n - 1, m);
    }
  }

  lemma {:induction false} FirstMissingArrives(r: seq<bool>, n: nat)
    requires n <= |r| && MissingBelow(r, n) != []
    ensures MissingBelow(r, n)[0] < n
    ensures MissingBelow(r[MissingBelow(r, n)[0] := true], n) == MissingBelow(r, n)[1..]
  {
    if MissingBelow(r, n - 1) == [] {
      MissingAbove(r, n - 1, n - 1);
    } else {
      FirstMissingArrives(r, n - 1);
    }
  }

  lemma MissingInRange(t: Transfer, blob: Bytes)
    requires Partial(t, blob)
    ensures InRange(Missing(t), ChunkCount(blob))
  {
    MissingMembers(t.received, |t.received|);
    assert forall k | 0 <= k < |Missing(t)| :: Missing(t)[k] in Missing(t);
  }

  /** The chunk of the first missing index removes that index. */
  lemma InsertRemovesFirst(t: Transfer, blob: Bytes, g: nat, now: int)
    requires Partial(t, blob) && Missing(t) != []
    ensures Missing(t)[0] < ChunkCount(blob)
    ensures Missing(Insert(t, HonestChunk(blob, g, Missing(t)[0]), now)) == Missing(t)[1..]
  {
    hide Slice, MissingBelow;
    MissingInRange(t, blob);
    InsertHonest(t, blob, g, Missing(t)[0], now);
    FirstMissingArrives(t.received, |t.received|);
  }

  lemma FeedOneMore(t: Transfer, blob: Bytes, g: nat, indices: seq<nat>, k: nat, now: int)
    requires k < |indices| && InRange(indices, ChunkCount(blob))
    ensures InRange(indices[..k], ChunkCount(blob)) && InRange(indices[..k + 1], ChunkCount(blob))
    ensures Feed(t, blob, g, indices[..k + 1], now)
              == Insert(Feed(t, blob, g, indices[..k], now), HonestChunk(blob, g, indices[k]), now)
  {
    hide Insert;
    assert indices[..k + 1][..k] == indices[..k];
  }

  /** Answering the first `k` missing indices removes exactly those. */
  lemma {:induction false} AnswersRemove(t: Transfer, blob: Bytes, g: nat, k: nat, now: int)
    requires Partial(t, blob) && k <= |Missing(t)|
    ensures InRange(Missing(t)[..k], ChunkCount(blob))
    ensures Missing(Feed(t, blob, g, Missing(t)[..k], now)) == Missing(t)[k..]
  {
    MissingInRange(t, blob);
    if k > 0 {
      hide Missing, Partial, Feed, Insert;
      var m := Missing(t);
      AnswersRemove(t, blob, g, k - 1, now);
      FeedOneMore(t, blob, g, m, k - 1, now);
      FeedHonest(t, blob, g, m[..k - 1], now);
      InsertRemovesFirst(Feed(t, blob, g, m[..k - 1], now), blob, g, now);
      assert m[k - 1..][0] == m[k - 1] && m[k - 1..][1..] == m[k..];
    } else {
      FeedNothing(t, blob, g, now);
      assert Missing(t)[..0] == [];
    }
  }

  lemma FeedNothing(t: Transfer, blob: Bytes, g: nat, now: int)
    ensures Feed(t, blob, g, [], now) == t
  {
  }

  /** What one repair request names. */
  function RepairRequest(t: Transfer): seq<nat> {
    if |Missing(t)| <= REPAIR_MAX then Missing(t) else Missing(t)[..REPAIR_MAX]
  }

  /** `r` repairs, each answered in full. */
  ghost function Repaired(t: Transfer, blob: Bytes, g: nat, r: nat, now: int): (t': Transfer)
    requires Partial(t, blob)
    ensures Partial(t', blob)
  {
    if r == 0 then t
    else
      var t1 := Repaired(t, blob, g, r - 1, now);
      MissingInRange(t1, blob);
      FeedHonest(t1, blob, g, RepairRequest(t1), now);
      Feed(t1, blob, g, RepairRequest(t1), now)
  }

  /** Each answered repair removes min(32, missing) indices. */
  lemma {:induction false} RepairsRemove(t: Transfer, blob: Bytes, g: nat, r: nat, now: int)
    requires Partial(t, blob)
    ensures var n := |Missing(t)|;
            |Missing(Repaired(t, blob, g, r, now))| == if n <= REPAIR_MAX * r then 0 else n - REPAIR_MAX * r
  {
    hide Missing, Feed, Partial;
    if r > 0 {
      RepairsRemove(t, blob, g, r - 1, now);
      var t1 := Repaired(t, blob, g, r - 1, now);
      var k := if |Missing(t1)| <= REPAIR_MAX then |Missing(t1)| else REPAIR_MAX;
      assert RepairRequest(t1) == Missing(t1)[..k];
      AnswersRemove(t1, blob, g, k, now);
    }
  }

  /** So ceil(n / 32) answered repairs finish any transfer, and it holds the blob. */
  lemma RepairsSuffice(t: Transfer, blob: Bytes, g: nat, now: int)
    requires Partial(t, blob)
    ensures var t' := Repaired(t, blob, g, (|Missing(t)| + REPAIR_MAX - 1) / REPAIR_MAX, now);
            Complete(t') && t'.buf == blob
  {
    var r := (|Missing(t)| + REPAIR_MAX - 1) / REPAIR_MAX;
    RepairsRemove(t, blob, g, r, now);
    var t' := Repaired(t, blob, g, r, now);
    CompleteIffNoneMissing(t');
    CompleteAssembles(t', blob);
  }
}
