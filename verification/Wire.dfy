/** Bytes and fixed-width integers, as every codec of the client lays them out. */
module Wire {

  type byte = b: int | 0 <= b < 256

  type Bytes = seq<byte>

  datatype Option<+T> = None | Some(value: T)

  /** `part` is what `buf` holds at position `pos`. */
  predicate Holds(buf: Bytes, pos: nat, part: Bytes) {
    pos + |part| <= |buf| && buf[pos..pos + |part|] == part
  }

  lemma HoldsParts(buf: Bytes, pos: nat, a: Bytes, b: Bytes)
    requires Holds(buf, pos, a + b)
    ensures Holds(buf, pos, a)
    ensures Holds(buf, pos + |a|, b)
  {
    var whole := buf[pos..pos + |a + b|];
    assert whole[..|a|] == a;
    assert whole[|a|..] == b;
    assert buf[pos..pos + |a|] == whole[..|a|];
    assert buf[pos + |a|..pos + |a| + |b|] == whole[|a|..];
  }

  lemma Regroup<T>(a: seq<T>, b: seq<T>, c: seq<T>)
    ensures a + b + c == a + (b + c)
  {
  }

  /** A tail of a sequence, and the tail one further on. */
  lemma NextTail<T>(s: seq<T>, i: nat)
    requires i < |s|
    ensures s[i..] != [] && s[i..][0] == s[i] && s[i..][1..] == s[i + 1..]
  {
  }

  // ---- big-endian integers -------------------------------------------------

  function Pow256(n: nat): (p: nat)
    ensures p >= 1
  {
    if n == 0 then 1 else 256 * Pow256(n - 1)
  }

  /** The low `n` bytes of `v`, most significant first. */
  function BigEndian(v: nat, n: nat): (b: Bytes)
    ensures |b| == n
  {
    if n == 0 then [] else BigEndian(v / 256, n - 1) + [v % 256]
  }

  function ReadBigEndian(b: Bytes): (v: nat)
    ensures v < Pow256(|b|)
  {
    if |b| == 0 then 0 else ReadBigEndian(b[..|b| - 1]) * 256 + b[|b| - 1]
  }

  lemma {:induction false} BigEndianRoundTrip(v: nat, n: nat)
    requires v < Pow256(n)
    ensures ReadBigEndian(BigEndian(v, n)) == v
  {
    if n > 0 {
      BigEndianRoundTrip(v / 256, n - 1);
      var b := BigEndian(v, n);
      assert b[..n - 1] == BigEndian(v / 256, n - 1);
    }
  }

  /** `v` shifted right by `i` whole bytes. */
  function ShiftRight8(v: nat, i: nat): nat {
    if i == 0 then v else ShiftRight8(v, i - 1) / 256
  }

  // ---- little-endian integers ----------------------------------------------

  /** What `setUint16(v, true)` stores: only the low sixteen bits survive. */
  function U16(v: nat): (b: Bytes)
    ensures |b| == 2
  {
    [v % 256, v / 256 % 256]
  }

  function U32(v: nat): (b: Bytes)
    ensures |b| == 4
  {
    U16(v) + U16(v / 65536)
  }

  function ReadU16(b: Bytes, off: nat): (v: nat)
    requires off + 2 <= |b|
    ensures v < 65536
  {
    (b[off] as int) + 256 * (b[off + 1] as int)
  }

  function ReadU32(b: Bytes, off: nat): (v: nat)
    requires off + 4 <= |b|
    ensures v < 0x1_0000_0000
  {
    ReadU16(b, off) + 65536 * ReadU16(b, off + 2)
  }

  /** Two bytes as a number, the low one first. */
  function Pair(lo: byte, hi: byte): nat { (lo as int) + 256 * (hi as int) }

  lemma LowFirst(b: Bytes, off: nat)
    requires off + 2 <= |b|
    ensures ReadU16(b, off) == Pair(b[off], b[off + 1])
  {
  }

  lemma U16RoundTrip(buf: Bytes, off: nat, v: nat)
    requires Holds(buf, off, U16(v))
    ensures ReadU16(buf, off) == v % 65536
  {
    var part := buf[off..off + 2];
    assert part[0] == buf[off] && part[1] == buf[off + 1];
    LowByteAndHigh(v);
  }

  lemma LowByteAndHigh(v: nat)
    ensures v % 256 + 256 * (v / 256 % 256) == v % 65536
  {
    var q := v / 256;
    assert v == 65536 * (q / 256) + (256 * (q % 256) + v % 256);
    Residue16(v, q / 256, 256 * (q % 256) + v % 256);
  }

  lemma Residue16(v: nat, k: nat, r: nat)
    requires v == 65536 * k + r && r < 65536
    ensures v % 65536 == r
  {
  }

  lemma U32RoundTrip(buf: Bytes, off: nat, v: nat)
    requires Holds(buf, off, U32(v))
    ensures ReadU32(buf, off) == v % 0x1_0000_0000
  {
    hide U16, ReadU16, Holds;
    HoldsParts(buf, off, U16(v), U16(v / 65536));
    U16RoundTrip(buf, off, v);
    U16RoundTrip(buf, off + 2, v / 65536);
    LowAndHigh(v);
  }

  lemma LowAndHigh(v: nat)
    ensures v % 65536 + 65536 * (v / 65536 % 65536) == v % 0x1_0000_0000
  {
    var q := v / 65536;
    assert v == 0x1_0000_0000 * (q / 65536) + (65536 * (q % 65536) + v % 65536);
    Residue32(v, q / 65536, 65536 * (q % 65536) + v % 65536);
  }

  lemma Residue32(v: nat, k: nat, r: nat)
    requires v == 0x1_0000_0000 * k + r && r < 0x1_0000_0000
    ensures v % 0x1_0000_0000 == r
  {
  }

  lemma U16Again(buf: Bytes, off: nat)
    requires off + 2 <= |buf|
    ensures U16(ReadU16(buf, off)) == buf[off..off + 2]
  {
  }

  // ---- buffers ---------------------------------------------------------------

  function Overwrite(buf: Bytes, off: nat, part: Bytes): (b: Bytes)
    requires off + |part| <= |buf|
    ensures |b| == |buf|
  {
    buf[..off] + part + buf[off + |part|..]
  }

  /** `Uint8Array.set`: copy a part into a buffer in place. */
  method CopyIn(buf: array<byte>, off: nat, part: Bytes)
    requires off + |part| <= buf.Length
    modifies buf
    ensures buf[..] == Overwrite(old(buf[..]), off, part)
    ensures buf[..off + |part|] == old(buf[..off]) + part
    ensures buf[off + |part|..] == old(buf[off + |part|..])
  {
    ghost var before := buf[..];
    for j := 0 to |part|
      invariant forall k | off <= k < off + j :: buf[k] == part[k - off]
      invariant forall k | 0 <= k < buf.Length && !(off <= k < off + j) :: buf[k] == before[k]
    {
      buf[off + j] := part[j];
    }
  }
}
