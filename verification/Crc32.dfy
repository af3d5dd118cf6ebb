/**
 CRC-32/IEEE and the raw ESTOP frame of clients/js/frames.js. The register is a
 32-bit word; the word operations carry names so that proofs about whole runs
 can work from their laws instead of from their bits.
 */
module Crc32 {

  function Xor(a: bv32, b: bv32): bv32 { a ^ b }

  function Low8(x: bv32): bv32 { x & 0xff }

  function High24(x: bv32): bv32 { x & 0xffff_ff00 }

  function Right8(x: bv32): bv32 { x >> 8 }

  function Left8(x: bv32): bv32 { x << 8 }

  function Wide(b: bv8): bv32 { b as bv32 }

  predicate Odd(x: bv32) { x & 1 != 0 }

  function Right1(x: bv32): bv32 { x >> 1 }

  /** The reflected polynomial of CRC-32/IEEE. */
  function Poly(): bv32 { 0xedb88320 }

  /** One step of the reflected, bit-by-bit CRC. */
  function Step(c: bv32): bv32 {
    if Odd(c) then Xor(Poly(), Right1(c)) else Right1(c)
  }

  function Steps(c: bv32, n: nat): bv32 {
    if n == 0 then c else Step(Steps(c, n - 1))
  }

  /** The register after a message: XOR each byte in, then clock it eight times. */
  function Register(c: bv32, bytes: seq<bv8>): bv32 {
    if bytes == [] then c
    else Steps(Xor(Register(c, bytes[..|bytes| - 1]), Wide(bytes[|bytes| - 1])), 8)
  }

  function Crc(bytes: seq<bv8>): bv32 {
    Xor(Register(0xffff_ffff, bytes), 0xffff_ffff)
  }

  // ---- laws of the word operations ----------------------------------------------

  lemma XorCancels(x: bv32, y: bv32, b: bv32)
    requires Xor(x, b) == Xor(y, b)
    ensures x == y
  {
    assert Xor(Xor(x, b), b) == x;
    assert Xor(Xor(y, b), b) == y;
  }

  lemma XorSame(x: bv32, b: bv32, d: bv32)
    requires Xor(x, b) == Xor(x, d)
    ensures b == d
  {
    assert Xor(x, Xor(x, b)) == b;
    assert Xor(x, Xor(x, d)) == d;
  }

  lemma XorAssociates(a: bv32, b: bv32, c: bv32)
    ensures Xor(Xor(a, b), c) == Xor(a, Xor(b, c))
  {
  }

  lemma XorCommutes(a: bv32, b: bv32)
    ensures Xor(a, b) == Xor(b, a)
  {
  }

  lemma XorTwice(p: bv32, b: bv32)
    ensures Xor(p, Xor(p, b)) == b
  {
  }

  lemma SplitWord(x: bv32)
    ensures Xor(Low8(x), High24(x)) == x
    ensures Low8(High24(x)) == 0
    ensures Right8(High24(x)) == Right8(x)
  {
  }

  lemma ByteShiftsOut(c: bv32, b: bv8)
    ensures Right8(Xor(c, Wide(b))) == Right8(c)
  {
  }

  lemma IndexExact(x: bv32)
    ensures 0 <= Low8(x) as int < 256
    ensures (Low8(x) as int) as bv32 == Low8(x)
  {
  }

  // ---- a step is linear and invertible -----------------------------------------

  lemma XorBits(a: bv32, b: bv32)
    ensures Odd(Xor(a, b)) <==> Odd(a) != Odd(b)
    ensures Right1(Xor(a, b)) == Xor(Right1(a), Right1(b))
  {
  }

  lemma XorPoly(p: bv32, a: bv32, b: bv32)
    ensures Xor(Xor(p, a), Xor(p, b)) == Xor(a, b)
    ensures Xor(Xor(p, a), b) == Xor(p, Xor(a, b))
    ensures Xor(a, Xor(p, b)) == Xor(p, Xor(a, b))
  {
    hide Xor;
    XorAssociates(p, a, b);
    XorAssociates(a, p, b);
    XorCommutes(a, p);
    XorAssociates(Xor(p, a), p, b);
    XorCommutes(Xor(p, a), p);
    XorTwice(p, a);
  }

  lemma StepLinear(a: bv32, b: bv32)
    ensures Step(Xor(a, b)) == Xor(Step(a), Step(b))
  {
    hide Xor, Odd, Right1, Poly;
    XorBits(a, b);
    XorPoly(Poly(), Right1(a), Right1(b));
  }

  lemma {:induction false} StepsLinear(a: bv32, b: bv32, n: nat)
    ensures Steps(Xor(a, b), n) == Xor(Steps(a, n), Steps(b, n))
  {
    hide Step, Xor;
    if n > 0 {
      StepsLinear(a, b, n - 1);
      StepLinear(Steps(a, n - 1), Steps(b, n - 1));
    }
  }

  /** The polynomial's top bit tells which way a step went. */
  function Unstep(c: bv32): bv32 {
    if c & 0x8000_0000 != 0 then ((c ^ 0xedb88320) << 1) | 1 else c << 1
  }

  lemma UnstepStep(c: bv32)
    ensures Unstep(Step(c)) == c
  {
  }

  lemma {:induction false} StepsInjective(a: bv32, b: bv32, n: nat)
    requires Steps(a, n) == Steps(b, n)
    ensures a == b
  {
    hide Step, Unstep;
    if n > 0 {
      UnstepStep(Steps(a, n - 1));
      UnstepStep(Steps(b, n - 1));
      StepsInjective(a, b, n - 1);
    }
  }

  lemma {:induction false} StepsAdd(c: bv32, m: nat, n: nat)
    ensures Steps(Steps(c, m), n) == Steps(c, m + n)
  {
    hide Step;
    if n > 0 {
      StepsAdd(c, m, n - 1);
    }
  }

  lemma StepEight(c: bv32)
    requires Low8(c) == 0
    ensures Step(Step(Step(Step(Step(Step(Step(Step(c)))))))) == Right8(c)
  {
  }

  /** Eight steps of a register whose low byte is zero only shift it. */
  lemma StepsShift(c: bv32)
    requires Low8(c) == 0
    ensures Steps(c, 8) == Right8(c)
  {
    hide Step, Low8, Right8;
    StepEight(c);
    assert Steps(c, 1) == Step(c);
    assert Steps(c, 2) == Step(Step(c));
    assert Steps(c, 3) == Step(Step(Step(c)));
    assert Steps(c, 4) == Step(Steps(c, 3));
    assert Steps(c, 5) == Step(Steps(c, 4));
    assert Steps(c, 6) == Step(Steps(c, 5));
    assert Steps(c, 7) == Step(Steps(c, 6));
  }

  // ---- the table-driven form -----------------------------------------------------

  /** Entry `n` of the table is eight steps of `n`. */
  ghost predicate IsTable(t: seq<bv32>) {
    |t| == 256 && forall n | 0 <= n < 256 :: t[n] == Steps(n as bv32, 8)
  }

  method BuildTable() returns (t: array<bv32>)
    ensures fresh(t)
    ensures IsTable(t[..])
  {
    hide Step;
    t := new bv32[256];
    for n := 0 to 256
      invariant forall m | 0 <= m < n :: t[m] == Steps(m as bv32, 8)
    {
      var c := n as bv32;
      for k := 0 to 8
        invariant c == Steps(n as bv32, k)
        invariant forall m | 0 <= m < n :: t[m] == Steps(m as bv32, 8)
      {
        c := Step(c);
      }
      t[n] := c;
    }
  }

  /** One table lookup does the work of eight bit steps. */
  lemma TableStep(t: seq<bv32>, c: bv32, b: bv8)
    requires IsTable(t)
    ensures var i := Low8(Xor(c, Wide(b))) as int;
            0 <= i < 256 && Xor(t[i], Right8(c)) == Steps(Xor(c, Wide(b)), 8)
  {
    hide Steps, Xor, Low8, High24, Right8, Wide;
    var x := Xor(c, Wide(b));
    IndexExact(x);
    SplitWord(x);
    ByteShiftsOut(c, b);
    StepsLinear(Low8(x), High24(x), 8);
    StepsShift(High24(x));
  }

  /** `crc32`: the byte-at-a-time loop computes the bit-by-bit CRC. */
  method ComputeCrc(t: array<bv32>, bytes: seq<bv8>) returns (r: bv32)
    requires IsTable(t[..])
    ensures r == Crc(bytes)
  {
    hide Steps, Xor, Low8, Right8, Wide;
    var c: bv32 := 0xffff_ffff;
    for i := 0 to |bytes|
      invariant c == Register(0xffff_ffff, bytes[..i])
    {
      TableStep(t[..], c, bytes[i]);
      var k := Low8(Xor(c, Wide(bytes[i]))) as int;
      assert t[..][k] == t[k];
      assert bytes[..i + 1][..i] == bytes[..i];
      c := Xor(t[k], Right8(c));
    }
    assert bytes[..|bytes|] == bytes;
    r := Xor(c, 0xffff_ffff);
  }

  // ---- what the CRC tells apart ---------------------------------------------------

  lemma {:induction false} RegisterConcat(c: bv32, a: seq<bv8>, b: seq<bv8>)
    ensures Register(c, a + b) == Register(Register(c, a), b)
  {
    hide Steps, Xor, Wide;
    if b == [] {
      assert a + b == a;
    } else {
      var last := |b| - 1;
      assert (a + b)[..|a| + last] == a + b[..last];
      RegisterConcat(c, a, b[..last]);
    }
  }

  lemma {:induction false} RegisterInjective(c: bv32, d: bv32, bytes: seq<bv8>)
    requires Register(c, bytes) == Register(d, bytes)
    ensures c == d
  {
    hide Steps, Xor, Wide;
    if bytes != [] {
      var last := |bytes| - 1;
      var x, y, b := Register(c, bytes[..last]), Register(d, bytes[..last]), Wide(bytes[last]);
      StepsInjective(Xor(x, b), Xor(y, b), 8);
      XorCancels(x, y, b);
      RegisterInjective(c, d, bytes[..last]);
    }
  }

  /** Up to four bytes as the word they XOR into the register, first byte lowest. */
  function Word(w: seq<bv8>): bv32 {
    if w == [] then 0 else Xor(Wide(w[0]), Left8(Word(w[1..])))
  }

  /** The word leaves its top `n` bytes free. */
  predicate Room(x: bv32, n: nat) {
    match n
    case 0 => true
    case 1 => x & 0xff00_0000 == 0
    case 2 => x & 0xffff_0000 == 0
    case 3 => x & 0xffff_ff00 == 0
    case _ => x == 0
  }

  lemma RoomIs(x: bv32, n: nat)
    ensures n == 1 ==> (Room(x, n) <==> x & 0xff00_0000 == 0)
    ensures n == 2 ==> (Room(x, n) <==> x & 0xffff_0000 == 0)
    ensures n == 3 ==> (Room(x, n) <==> x & 0xffff_ff00 == 0)
    ensures n == 0 ==> Room(x, n)
    ensures n >= 4 ==> (Room(x, n) <==> x == 0)
  {
  }

  lemma OneFree(x: bv32)
    requires x & 0xff00_0000 == 0
    ensures Right8(Left8(x)) == x && Low8(Left8(x)) == 0
  {
  }

  lemma TwoFree(b: bv8, x: bv32)
    requires x & 0xffff_0000 == 0
    ensures Xor(Wide(b), Left8(x)) & 0xff00_0000 == 0
  {
  }

  lemma ThreeFree(b: bv8, x: bv32)
    requires x & 0xffff_ff00 == 0
    ensures Xor(Wide(b), Left8(x)) & 0xffff_0000 == 0
  {
  }

  lemma AllFree(b: bv8)
    ensures Xor(Wide(b), Left8(0)) & 0xffff_ff00 == 0
  {
  }

  lemma Narrower(x: bv32)
    requires x & 0xffff_0000 == 0 || x & 0xffff_ff00 == 0
    ensures x & 0xff00_0000 == 0
  {
  }

  /** Each byte uses up one byte of room. */
  lemma {:induction false} WordFits(w: seq<bv8>)
    requires |w| <= 4
    ensures Room(Word(w), 4 - |w|)
  {
    hide Room, Xor, Left8, Wide;
    if w == [] {
      RoomIs(0, 4);
    } else {
      var b, x := w[0], Word(w[1..]);
      WordFits(w[1..]);
      RoomIs(x, 5 - |w|);
      RoomIs(Word(w), 4 - |w|);
      match |w|
      case 1 => AllFree(b);
      case 2 => ThreeFree(b, x);
      case 3 => TwoFree(b, x);
      case _ =>
    }
  }

  /** Three bytes or fewer can be moved up by one and back. */
  lemma TopFree(w: seq<bv8>)
    requires |w| < 4
    ensures Right8(Left8(Word(w))) == Word(w) && Low8(Left8(Word(w))) == 0
  {
    hide Word, Room, Left8, Right8, Low8;
    WordFits(w);
    RoomIs(Word(w), 4 - |w|);
    if |w| == 1 || |w| == 2 { Narrower(Word(w)); }
    OneFree(Word(w));
  }

  lemma SplitJoined(a: bv8, x: bv32, b: bv8, y: bv32)
    requires Xor(Wide(a), Left8(x)) == Xor(Wide(b), Left8(y))
    requires Right8(Left8(x)) == x && Right8(Left8(y)) == y
    ensures a == b && x == y
  {
    JoinedParts(a, x);
    JoinedParts(b, y);
  }

  lemma JoinedParts(a: bv8, x: bv32)
    ensures Right8(Xor(Wide(a), Left8(x))) == Right8(Left8(x))
    ensures Low8(Xor(Wide(a), Left8(x))) as bv8 == a
  {
  }

  lemma {:induction false} WordInjective(v: seq<bv8>, w: seq<bv8>)
    requires |v| == |w| <= 4 && Word(v) == Word(w)
    ensures v == w
  {
    hide Room, Xor, Left8, Right8, Low8, Wide;
    if v != [] {
      TopFree(v[1..]);
      TopFree(w[1..]);
      SplitJoined(v[0], Word(v[1..]), w[0], Word(w[1..]));
      WordInjective(v[1..], w[1..]);
      assert v == [v[0]] + v[1..] && w == [w[0]] + w[1..];
    }
  }

  /** A word XORed in eight steps later is the word XORed in now, eight places higher. */
  lemma XorEarlier(c: bv32, x: bv32, n: nat)
    requires Right8(Left8(x)) == x && Low8(Left8(x)) == 0
    ensures Steps(Xor(Steps(c, 8), x), n) == Steps(Xor(c, Left8(x)), 8 + n)
  {
    hide Steps, Xor, Left8, Right8, Low8;
    StepsShift(Left8(x));
    StepsLinear(c, Left8(x), 8);
    StepsAdd(Xor(c, Left8(x)), 8, n);
  }

  /** Feeding up to four bytes is one XOR of their word followed by all their steps. */
  lemma {:induction false} RegisterIsWord(c: bv32, w: seq<bv8>)
    requires |w| <= 4
    ensures Register(c, w) == Steps(Xor(c, Word(w)), 8 * |w|)
    decreases |w|
  {
    hide Steps, Xor, Left8, Right8, Low8, Wide, Room;
    if w == [] {
      NoBytes(c);
    } else {
      var rest := w[1..];
      assert w == [w[0]] + rest;
      RegisterConcat(c, [w[0]], rest);
      RegisterOne(c, w[0]);
      var d := Xor(c, Wide(w[0]));
      RegisterIsWord(Steps(d, 8), rest);
      TopFree(rest);
      XorEarlier(d, Word(rest), 8 * |rest|);
      XorAssociates(c, Wide(w[0]), Left8(Word(rest)));
    }
  }

  lemma NoBytes(c: bv32)
    ensures Steps(Xor(c, 0), 0) == c
  {
  }

  lemma RegisterOne(c: bv32, b: bv8)
    ensures Register(c, [b]) == Steps(Xor(c, Wide(b)), 8)
  {
    hide Steps, Xor, Wide;
    assert [b][..0] == [];
  }

  /**
   Two messages that differ only within four consecutive bytes never share a
   CRC, whatever surrounds those bytes.
   */
  lemma WindowDetected(before: seq<bv8>, v: seq<bv8>, w: seq<bv8>, after: seq<bv8>)
    requires |v| == |w| <= 4
    requires Crc(before + v + after) == Crc(before + w + after)
    ensures v == w
  {
    hide Register, Steps, Xor, Word;
    var c := Register(0xffff_ffff, before);
    RegisterConcat(0xffff_ffff, before + v, after);
    RegisterConcat(0xffff_ffff, before + w, after);
    RegisterConcat(0xffff_ffff, before, v);
    RegisterConcat(0xffff_ffff, before, w);
    XorCancels(Register(Register(c, v), after), Register(Register(c, w), after), 0xffff_ffff);
    RegisterInjective(Register(c, v), Register(c, w), after);
    RegisterIsWord(c, v);
    RegisterIsWord(c, w);
    StepsInjective(Xor(c, Word(v)), Xor(c, Word(w)), 8 * |v|);
    XorSame(c, Word(v), Word(w));
    WordInjective(v, w);
  }

  // ---- the ESTOP frame ------------------------------------------------------------

  const MAGIC: seq<bv8> := [0xe5, 0xe5, 0xe5, 0xe5]

  /** cause, origin and seq as stored: the first two cut to a byte, seq to two, low byte first. */
  function Body(cause: bv32, origin: bv32, seqNo: bv32): (b: seq<bv8>)
    ensures |b| == 4
  {
    [(cause & 0xff) as bv8, (origin & 0xff) as bv8, (seqNo & 0xff) as bv8, ((seqNo >> 8) & 0xff) as bv8]
  }

  function LittleEndian(x: bv32): (b: seq<bv8>)
    ensures |b| == 4
  {
    [(x & 0xff) as bv8, ((x >> 8) & 0xff) as bv8, ((x >> 16) & 0xff) as bv8, ((x >> 24) & 0xff) as bv8]
  }

  lemma LittleEndianInjective(x: bv32, y: bv32)
    requires LittleEndian(x) == LittleEndian(y)
    ensures x == y
  {
    var p, q := LittleEndian(x), LittleEndian(y);
    assert p[0] == q[0] && p[1] == q[1] && p[2] == q[2] && p[3] == q[3];
    LittleEndianJoins(x);
    LittleEndianJoins(y);
  }

  lemma LittleEndianJoins(x: bv32)
    ensures x == (((x & 0xff) as bv8) as bv32) | (((((x >> 8) & 0xff) as bv8) as bv32) << 8)
              | (((((x >> 16) & 0xff) as bv8) as bv32) << 16) | (((((x >> 24) & 0xff) as bv8) as bv32) << 24)
  {
  }

  /** `encodeEstopFrame`: magic, body and the CRC of both, written in place. */
  method EncodeEstop(t: array<bv32>, cause: bv32, origin: bv32, seqNo: bv32) returns (out: array<bv8>)
    requires IsTable(t[..])
    ensures fresh(out)
    ensures out[..] == MAGIC + Body(cause, origin, seqNo) + LittleEndian(Crc(MAGIC + Body(cause, origin, seqNo)))
  {
    hide IsTable, Crc;
    out := new bv8[12];
    out[0], out[1], out[2], out[3] := 0xe5, 0xe5, 0xe5, 0xe5;
    out[4], out[5] := (cause & 0xff) as bv8, (origin & 0xff) as bv8;
    out[6], out[7] := (seqNo & 0xff) as bv8, ((seqNo >> 8) & 0xff) as bv8;
    assert out[..8] == MAGIC + Body(cause, origin, seqNo);
    var c := ComputeCrc(t, out[..8]);
    ghost var first := out[..8];
    out[8], out[9] := (c & 0xff) as bv8, ((c >> 8) & 0xff) as bv8;
    out[10], out[11] := ((c >> 16) & 0xff) as bv8, ((c >> 24) & 0xff) as bv8;
    assert out[..8] == first;
    assert out[..] == out[..8] + LittleEndian(c);
  }

  /** What the receiver of an ESTOP frame reads: cause and origin cut to a byte, the sequence number to two. */
  lemma BodyReadsBack(cause: bv32, origin: bv32, seqNo: bv32)
    ensures var b := Body(cause, origin, seqNo);
            && b[0] as bv32 == cause & 0xff && b[1] as bv32 == origin & 0xff
            && (b[2] as bv32) | ((b[3] as bv32) << 8) == seqNo & 0xffff
  {
  }

  /** Two ESTOP bodies that carry the same check bytes are the same body. */
  lemma EstopChecksDiffer(a: seq<bv8>, b: seq<bv8>)
    requires |a| == |b| == 4
    requires LittleEndian(Crc(MAGIC + a)) == LittleEndian(Crc(MAGIC + b))
    ensures a == b
  {
    hide Crc, LittleEndian;
    LittleEndianInjective(Crc(MAGIC + a), Crc(MAGIC + b));
    assert MAGIC + a + [] == MAGIC + a && MAGIC + b + [] == MAGIC + b;
    WindowDetected(MAGIC, a, b, []);
  }
}
