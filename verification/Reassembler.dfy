/**
 The two receivers as the objects they are: the browser client's buffer with a
 received-flag per chunk, and the MFP plugin's dictionary of chunks.
 */
module Reassembler {
  import opened Wire
  import opened Blob

  lemma {:induction false} CountMark(r: seq<bool>, i: nat)
    requires i < |r|
    ensures CountTrue(r[i := true]) == CountTrue(r) + if r[i] then 0 else 1
  {
    var last := |r| - 1;
    if i == last {
      assert r[i := true][..last] == r[..last];
    } else {
      assert r[i := true][..last] == r[..last][i := true];
      CountMark(r[..last], i);
    }
  }

  lemma {:induction false} CountNone(n: nat)
    ensures CountTrue(NoneReceived(n)) == 0
  {
    if n > 0 {
      assert NoneReceived(n)[..n - 1] == NoneReceived(n - 1);
      CountNone(n - 1);
    }
  }

  /** `BlobReassembler` of clients/js/catalog.js. */
  class BufferReassembler {
    const cap: nat
    var active: bool
    var target: Target
    var received: array<bool>
    var receivedCount: nat
    var buf: array<byte>
    var startMs: int
    var progressMs: int

    ghost predicate Valid()
      reads this, received
    {
      active ==> receivedCount == CountTrue(received[..])
    }

    ghost function State(): Transfer
      reads this, received, buf
    {
      if active then Active(target, received[..], buf[..], startMs, progressMs) else Idle
    }

    constructor (cap: nat)
      ensures Valid() && fresh(received) && fresh(buf) && this.cap == cap
      ensures State() == Idle
    {
      this.cap := cap;
      active, target, receivedCount, startMs, progressMs := false, Target(0, 0, 0), 0, 0, 0;
      received := new bool[0];
      buf := new byte[0];
    }

    method Reset()
      modifies this
      ensures Valid() && State() == Idle
      ensures fresh(received) && fresh(buf)
    {
      active, receivedCount, startMs, progressMs := false, 0, 0, 0;
      received := new bool[0];
      buf := new byte[0];
    }

    method Start(c: Chunk, now: int) returns (ok: bool)
      modifies this
      ensures Valid() && fresh(received) && fresh(buf)
      ensures State() == Begin(c, now, cap)
      ensures ok == State().Active?
    {
      ok := c.count > 0 && 0 < c.total <= cap;
      Reset();
      if !ok { return; }
      active, target := true, TargetOf(c);
      received := new bool[c.count](i => false);
      receivedCount := 0;
      buf := new byte[c.total](i => 0);
      startMs, progressMs := now, now;
      CountNone(c.count);
      assert received[..] == NoneReceived(c.count);
      assert buf[..] == Zeros(c.total);
    }

    method Put(c: Chunk, now: int) returns (ok: bool)
      requires Valid()
      modifies this`receivedCount, this`progressMs, received, buf
      ensures Valid()
      ensures State() == Insert(old(State()), c, now)
      ensures ok == Accepts(old(State()), c)
    {
      if !active || TargetOf(c) != target { return false; }
      if c.count != received.Length || c.index >= received.Length { return false; }
      var offset := c.index * CHUNK;
      if offset + |c.bytes| > buf.Length { return false; }
      ghost var flags := received[..];
      CopyIn(buf, offset, c.bytes);
      CountMark(received[..], c.index);
      if !received[c.index] {
        received[c.index] := true;
        receivedCount := receivedCount + 1;
      }
      assert received[..] == flags[c.index := true];
      progressMs := now;
      return true;
    }

    method IsComplete() returns (r: bool)
      requires Valid()
      ensures r == Complete(State())
    {
      r := active && receivedCount == received.Length;
    }

    method MissingIndices() returns (out: seq<nat>)
      ensures out == Missing(State())
    {
      out := [];
      if active {
        for i := 0 to received.Length
          invariant out == MissingBelow(received[..], i)
        {
          if !received[i] { out := out + [i]; }
        }
      }
    }
  }

  // ---- the dictionary receiver ------------------------------------------------------

  const CATALOG_MAX_BYTES: nat := 262144

  datatype Dictionary = Dictionary(active: bool, count: nat, total: nat, chunks: map<nat, Bytes>)

  const EMPTY := Dictionary(false, 0, 0, map[])

  function Restarted(d: Dictionary, c: Chunk): Dictionary {
    if !d.active || d.count != c.count || d.total != c.total then Dictionary(true, c.count, c.total, map[]) else d
  }

  function DictInsert(d: Dictionary, c: Chunk): Dictionary {
    if c.total > CATALOG_MAX_BYTES || c.count == 0 then d
    else
      var d' := Restarted(d, c);
      if c.index >= d'.count then d' else d'.(chunks := d'.chunks[c.index := c.bytes])
  }

  predicate DictComplete(d: Dictionary) { d.active && |d.chunks| == d.count }

  function Present(chunks: map<nat, Bytes>, n: nat): (flags: seq<bool>)
    ensures |flags| == n && forall i | 0 <= i < n :: flags[i] == (i in chunks)
  {
    seq(n, i => i in chunks)
  }

  /** The chunks below `n`, joined in index order. */
  function Joined(chunks: map<nat, Bytes>, n: nat): Bytes
    requires forall i | 0 <= i < n :: i in chunks
  {
    if n == 0 then [] else Joined(chunks, n - 1) + chunks[n - 1]
  }

  /** A key for each index and no others. */
  ghost predicate Keyed(d: Dictionary) {
    forall i | i in d.chunks :: i < d.count
  }

  function Below(n: nat): (s: set<nat>)
    ensures |s| == n && forall i: nat :: i in s <==> i < n
  {
    if n == 0 then {} else Below(n - 1) + {n - 1}
  }

  lemma SubsetEqual(s: set<nat>, n: nat)
    requires forall i | i in s :: i < n
    ensures |s| == n <==> s == Below(n)
  {
    var rest := Below(n) - s;
    assert Below(n) == s + rest;
    assert |Below(n)| == |s| + |rest|;
    if rest == {} {
      assert s == Below(n);
    }
  }

  lemma CompleteHasAll(d: Dictionary)
    requires Keyed(d) && DictComplete(d)
    ensures forall i | 0 <= i < d.count :: i in d.chunks
  {
    assert |d.chunks.Keys| == |d.chunks|;
    SubsetEqual(d.chunks.Keys, d.count);
  }

  /** What Assemble returns: nothing while chunks are missing or when the sizes do not add up. */
  ghost function DictAssemble(d: Dictionary): Option<Bytes>
    requires Keyed(d)
  {
    if !DictComplete(d) then None
    else
      CompleteHasAll(d);
      var b := Joined(d.chunks, d.count);
      if |b| == d.total then Some(b) else None
  }

  /** `BlobReassembler` of clients/mfp/SlopSync.cs. */
  class DictionaryReassembler {
    var chunks: map<nat, Bytes>
    var chunkCount: nat
    var totalBytes: nat
    var active: bool

    ghost predicate Valid()
      reads this
    {
      Keyed(State())
    }

    ghost function State(): Dictionary
      reads this
    {
      Dictionary(active, chunkCount, totalBytes, chunks)
    }

    constructor ()
      ensures Valid() && State() == EMPTY
    {
      active, chunkCount, totalBytes, chunks := false, 0, 0, map[];
    }

    method Insert(c: Chunk) returns (ok: bool)
      requires Valid()
      modifies this
      ensures Valid()
      ensures State() == DictInsert(old(State()), c)
      ensures ok <==> c.total <= CATALOG_MAX_BYTES && c.index < c.count
    {
      if c.total > CATALOG_MAX_BYTES || c.count == 0 { return false; }
      if !active || chunkCount != c.count || totalBytes != c.total {
        chunks := map[];
        chunkCount, totalBytes, active := c.count, c.total, true;
      }
      if c.index >= chunkCount { return false; }
      chunks := chunks[c.index := c.bytes];
      return true;
    }

    method MissingIndices() returns (missing: seq<nat>)
      ensures active ==> missing == MissingBelow(Present(chunks, chunkCount), chunkCount)
      ensures !active ==> missing == []
    {
      missing := [];
      if !active { return; }
      ghost var flags := Present(chunks, chunkCount);
      for i := 0 to chunkCount
        invariant missing == MissingBelow(flags, i)
      {
        if i !in chunks { missing := missing + [i]; }
      }
    }

    method Assemble() returns (r: Option<Bytes>)
      requires Valid()
      ensures r == DictAssemble(State())
    {
      if !active || |chunks| != chunkCount { return None; }
      CompleteHasAll(State());
      var len := 0;
      for i := 0 to chunkCount
        invariant len == |Joined(chunks, i)|
      {
        len := len + |chunks[i]|;
      }
      if len != totalBytes { return None; }
      var out: Bytes := [];
      for i := 0 to chunkCount
        invariant out == Joined(chunks, i)
      {
        out := out + chunks[i];
      }
      return Some(out);
    }
  }

  // ---- the two receivers agree -------------------------------------------------------

  function DictFeed(d: Dictionary, blob: Bytes, g: nat, indices: seq<nat>): Dictionary
    requires InRange(indices, ChunkCount(blob))
  {
    if indices == [] then d
    else
      var last := |indices| - 1;
      DictInsert(DictFeed(d, blob, g, indices[..last]), HonestChunk(blob, g, indices[last]))
  }

  ghost predicate DictPartial(d: Dictionary, blob: Bytes, seen: seq<nat>) {
    && d.active && d.count == ChunkCount(blob) && d.total == |blob|
    && (forall i: nat :: i in d.chunks <==> i in seen)
    && (forall i | i in d.chunks :: i < d.count && d.chunks[i] == Slice(blob, i))
  }

  lemma DictInsertHonest(d: Dictionary, blob: Bytes, g: nat, seen: seq<nat>, i: nat)
    requires 0 < |blob| <= CATALOG_MAX_BYTES && i < ChunkCount(blob)
    requires DictPartial(d, blob, seen) || (d == EMPTY && seen == [])
    ensures DictPartial(DictInsert(d, HonestChunk(blob, g, i)), blob, seen + [i])
  {
    hide Slice;
    forall k: nat ensures k in seen + [i] <==> k in seen || k == i {
    }
  }

  lemma {:induction false} DictFeedHonest(blob: Bytes, g: nat, indices: seq<nat>)
    requires 0 < |blob| <= CATALOG_MAX_BYTES && indices != []
    requires InRange(indices, ChunkCount(blob))
    ensures DictPartial(DictFeed(EMPTY, blob, g, indices), blob, indices)
  {
    hide Slice, DictPartial, DictInsert;
    var last := |indices| - 1;
    assert indices == indices[..last] + [indices[last]];
    if last > 0 {
      DictFeedHonest(blob, g, indices[..last]);
    }
    DictInsertHonest(DictFeed(EMPTY, blob, g, indices[..last]), blob, g, indices[..last], indices[last]);
  }

  lemma {:induction false} JoinedSlices(d: Dictionary, blob: Bytes, seen: seq<nat>, n: nat)
    requires DictPartial(d, blob, seen) && n <= ChunkCount(blob)
    requires forall i | 0 <= i < n :: i in d.chunks
    ensures Joined(d.chunks, n) == blob[..if CHUNK * n <= |blob| then CHUNK * n else |blob|]
  {
    if n > 0 {
      JoinedSlices(d, blob, seen, n - 1);
    }
  }

  /** A dictionary fed some chunks of a blob is complete exactly when all are in, and then joins to the blob. */
  lemma DictIsWhole(d: Dictionary, blob: Bytes, seen: seq<nat>)
    requires DictPartial(d, blob, seen)
    ensures Keyed(d) && (DictComplete(d) <==> forall i | 0 <= i < ChunkCount(blob) :: i in seen)
    ensures DictAssemble(d) == if DictComplete(d) then Some(blob) else None
  {
    hide Slice;
    assert |d.chunks.Keys| == |d.chunks|;
    SubsetEqual(d.chunks.Keys, d.count);
    if DictComplete(d) {
      CompleteHasAll(d);
      JoinedSlices(d, blob, seen, d.count);
      assert blob[..|blob|] == blob;
    } else {
      var i :| i in Below(d.count) && i !in d.chunks;
      assert i !in seen;
    }
  }

  /**
   Fed the same chunks of one blob, in any order and with any repeats, both
   receivers complete together, and then both hold exactly the blob.
   */
  lemma ReceiversAgree(blob: Bytes, g: nat, indices: seq<nat>, now: int, cap: nat)
    requires 0 < |blob| <= cap <= CATALOG_MAX_BYTES && indices != []
    requires InRange(indices, ChunkCount(blob))
    ensures Keyed(DictFeed(EMPTY, blob, g, indices))
    ensures var t := Feed(Begin(HonestChunk(blob, g, indices[0]), now, cap), blob, g, indices, now);
            var d := DictFeed(EMPTY, blob, g, indices);
            && (Complete(t) <==> DictComplete(d))
            && DictAssemble(d) == if Complete(t) then Some(t.buf) else None
  {
    hide Feed, DictFeed, DictPartial, DictAssemble, DictComplete, Complete, Keyed;
    CompleteIffAllArrived(blob, g, indices, now, cap);
    DictFeedHonest(blob, g, indices);
    DictIsWhole(DictFeed(EMPTY, blob, g, indices), blob, indices);
  }
}
