/**
 The CRC of clients/js/frames.js as section 3.2.9 of IEEE 802.3 defines it: the
 remainder of a division of polynomials over the field of two elements.
 */
module CrcDivision {
  import opened Crc32

  /** The coefficients of a polynomial, highest degree first. */
  type Polynomial = seq<bool>

  /** The powers in the generator x^32 + x^26 + x^23 + ... + x + 1, below the leading one. */
  const POWERS: set<nat> := {26, 23, 22, 16, 12, 11, 10, 8, 7, 5, 4, 2, 1, 0}

  /** The generator without its leading term. */
  function Generator(): (g: Polynomial)
    ensures |g| == 32 && forall k | 0 <= k < 32 :: g[k] == ((31 - k) in POWERS)
  {
    seq(32, k requires 0 <= k < 32 => (31 - k) in POWERS)
  }

  function Zeros(n: nat): (z: Polynomial)
    ensures |z| == n && forall i | 0 <= i < n :: !z[i]
  {
    seq(n, i => false)
  }

  /** `r` added to the leading coefficients of `m`. */
  function AddFront(m: Polynomial, r: Polynomial): (s: Polynomial)
    requires |r| <= |m|
    ensures |s| == |m| && forall i | 0 <= i < |m| :: s[i] == (m[i] != (i < |r| && r[i]))
  {
    seq(|m|, i requires 0 <= i < |m| => m[i] != (i < |r| && r[i]))
  }

  /** Long division by the generator: cancel the leading term while the degree is 32 or more. */
  function Remainder(m: Polynomial): (r: Polynomial)
    requires |m| >= 32
    ensures |r| == 32
    decreases |m|
  {
    if |m| == 32 then m
    else Remainder(if m[0] then AddFront(m[1..], Generator()) else m[1..])
  }

  /** The bits of a message in the order they are sent: each byte's lowest first. */
  function ByteBits(b: bv8): (s: Polynomial)
    ensures |s| == 8
  {
    [b & 1 != 0, b & 2 != 0, b & 4 != 0, b & 8 != 0, b & 16 != 0, b & 32 != 0, b & 64 != 0, b & 128 != 0]
  }

  function MessageBits(bytes: seq<bv8>): Polynomial {
    if bytes == [] then [] else ByteBits(bytes[0]) + MessageBits(bytes[1..])
  }

  function Complement(p: Polynomial): (r: Polynomial)
    ensures |r| == |p| && forall i | 0 <= i < |p| :: r[i] == !p[i]
  {
    seq(|p|, i requires 0 <= i < |p| => !p[i])
  }

  /** The check sequence of the standard. */
  function CheckSequence(bytes: seq<bv8>): Polynomial {
    var m := MessageBits(bytes) + Zeros(32);
    Complement(Remainder(Complement(m[..32]) + m[32..]))
  }

  // ---- the register as a polynomial ----------------------------------------------------------

  /** The low `n` bits of a word, lowest first. */
  function LowBits(c: bv32, n: nat): (s: Polynomial)
    ensures |s| == n
  {
    if n == 0 then [] else [Odd(c)] + LowBits(Right1(c), n - 1)
  }

  function Bits(c: bv32): (s: Polynomial)
    ensures |s| == 32
  {
    LowBits(c, 32)
  }

  lemma {:induction false} LowBitsXor(a: bv32, b: bv32, n: nat)
    ensures LowBits(Xor(a, b), n) == AddFront(LowBits(a, n), LowBits(b, n))
    decreases n
  {
    hide Xor, Odd, Right1;
    if n > 0 {
      XorBits(a, b);
      LowBitsXor(Right1(a), Right1(b), n - 1);
    }
  }

  function Shifted(c: bv32, n: nat): bv32 { if n == 0 then c else Shifted(Right1(c), n - 1) }

  lemma {:induction false} LowBitsSnoc(c: bv32, n: nat)
    ensures LowBits(c, n + 1) == LowBits(c, n) + [Odd(Shifted(c, n))]
    decreases n
  {
    hide Odd, Right1;
    if n > 0 { LowBitsSnoc(Right1(c), n - 1); }
  }

  lemma {:induction false} ShiftedTwice(c: bv32, m: nat, n: nat)
    ensures Shifted(Shifted(c, m), n) == Shifted(c, m + n)
    decreases m
  {
    hide Right1;
    if m > 0 { ShiftedTwice(Right1(c), m - 1, n); }
  }

  lemma ShiftedTwo(c: bv32)
    ensures Shifted(c, 2) == Right1(Right1(c))
  {
    hide Right1;
    assert Shifted(Right1(c), 1) == Shifted(Right1(Right1(c)), 0);
  }

  lemma FourShifts(c: bv32)
    ensures Right1(Right1(Right1(Right1(c)))) == c >> 4
    ensures (c >> 4) >> 4 == Right8(c)
  {
  }

  lemma Nibble(c: bv32)
    ensures Shifted(c, 4) == c >> 4
  {
    hide Shifted, Right1;
    ShiftedTwo(c);
    ShiftedTwo(Right1(Right1(c)));
    ShiftedTwice(c, 2, 2);
    FourShifts(c);
  }

  lemma ShiftedByte(c: bv32)
    ensures Shifted(c, 8) == Right8(c)
  {
    hide Shifted, Right8;
    Nibble(c);
    Nibble(c >> 4);
    ShiftedTwice(c, 4, 4);
    FourShifts(c);
  }

  lemma AllOut(c: bv32)
    ensures Right8(Right8(Right8(Right8(c)))) == 0 && !Odd(0)
  {
  }

  lemma ShiftedOut(c: bv32)
    ensures !Odd(Shifted(c, 32))
  {
    hide Shifted, Right8, Odd;
    ShiftedByte(c);
    ShiftedByte(Right8(c));
    ShiftedByte(Right8(Right8(c)));
    ShiftedByte(Right8(Right8(Right8(c))));
    ShiftedTwice(c, 8, 8);
    ShiftedTwice(c, 16, 8);
    ShiftedTwice(c, 24, 8);
    AllOut(c);
  }

  /** A shift of the register multiplies by x. */
  lemma BitsShift(c: bv32)
    ensures Bits(Right1(c)) == Bits(c)[1..] + [false]
  {
    hide Odd, Right1, Shifted;
    LowBitsSnoc(c, 32);
    ShiftedOut(c);
    FirstBit(c, 33);
    FirstBit(c, 32);
  }

  lemma FirstBit(c: bv32, n: nat)
    requires n > 0
    ensures LowBits(c, n)[0] == Odd(c) && LowBits(c, n)[1..] == LowBits(Right1(c), n - 1)
  {
  }

  lemma {:induction false} LowBitsSplit(c: bv32, m: nat, n: nat)
    ensures LowBits(c, m + n) == LowBits(c, m) + LowBits(Shifted(c, m), n)
    decreases m
  {
    hide Odd, Right1;
    if m > 0 { LowBitsSplit(Right1(c), m - 1, n); }
  }

  lemma FourBits(c: bv32)
    ensures LowBits(c, 4) == [c & 1 != 0, c & 2 != 0, c & 4 != 0, c & 8 != 0]
  {
    assert LowBits(Right1(Right1(Right1(Right1(c)))), 0) == [];
    assert LowBits(Right1(Right1(Right1(c))), 1) == [Odd(Right1(Right1(Right1(c))))];
    assert LowBits(Right1(Right1(c)), 2) == [Odd(Right1(Right1(c))), Odd(Right1(Right1(Right1(c))))];
    assert LowBits(Right1(c), 3) == [Odd(Right1(c)), Odd(Right1(Right1(c))), Odd(Right1(Right1(Right1(c))))];
  }

  lemma EightBits(c: bv32)
    ensures LowBits(c, 8) == [c & 1 != 0, c & 2 != 0, c & 4 != 0, c & 8 != 0, c & 16 != 0, c & 32 != 0, c & 64 != 0, c & 128 != 0]
  {
    hide LowBits, Shifted;
    LowBitsSplit(c, 4, 4);
    Nibble(c);
    FourBits(c);
    FourBits(c >> 4);
  }

  /** Four bytes joined, first to last. */
  function Join(a: Polynomial, b: Polynomial, c: Polynomial, d: Polynomial): Polynomial { a + (b + (c + d)) }

  lemma FourBytes(c: bv32)
    ensures Bits(c) == Join(LowBits(c, 8), LowBits(Right8(c), 8), LowBits(Right8(Right8(c)), 8), LowBits(Right8(Right8(Right8(c))), 8))
  {
    hide LowBits, Shifted, Right8;
    LowBitsSplit(c, 8, 24);
    LowBitsSplit(Right8(c), 8, 16);
    LowBitsSplit(Right8(Right8(c)), 8, 8);
    ShiftedByte(c);
    ShiftedByte(Right8(c));
    ShiftedByte(Right8(Right8(c)));
  }

  const FIRST: Polynomial := [false, false, false, false, false, true, false, false]
  const SECOND: Polynomial := [true, true, false, false, false, false, false, true]
  const THIRD: Polynomial := [false, false, false, true, true, true, false, true]
  const FOURTH: Polynomial := [true, false, true, true, false, true, true, true]

  lemma PolyBytes()
    ensures LowBits(Poly(), 8) == FIRST && LowBits(Right8(Poly()), 8) == SECOND
    ensures LowBits(Right8(Right8(Poly())), 8) == THIRD && LowBits(Right8(Right8(Right8(Poly()))), 8) == FOURTH
  {
    hide LowBits;
    EightBits(Poly());
    EightBits(Right8(Poly()));
    EightBits(Right8(Right8(Poly())));
    EightBits(Right8(Right8(Right8(Poly()))));
  }

  lemma Quarters(p: Polynomial)
    requires |p| == 32
    ensures p == Join(p[..8], p[8..16], p[16..24], p[24..])
  {
  }

  lemma GeneratorBytes()
    ensures Generator()[..8] == FIRST && Generator()[8..16] == SECOND
    ensures Generator()[16..24] == THIRD && Generator()[24..] == FOURTH
  {
  }

  /** The reflected constant of the source is the standard's generator. */
  lemma PolyIsGenerator()
    ensures Bits(Poly()) == Generator()
  {
    hide LowBits, Poly, Generator, Join, Right8;
    FourBytes(Poly());
    PolyBytes();
    GeneratorBytes();
    Quarters(Generator());
  }

  /** Multiply by x and take the remainder. */
  function TimesX(r: Polynomial): (s: Polynomial)
    requires |r| == 32
    ensures |s| == 32
  {
    if r[0] then AddFront(r[1..] + [false], Generator()) else r[1..] + [false]
  }

  lemma StepIsTimesX(c: bv32)
    ensures Bits(Step(c)) == TimesX(Bits(c))
  {
    hide Odd, Right1, Xor, Poly, LowBits;
    FirstBit(c, 32);
    BitsShift(c);
    PolyIsGenerator();
    XorCommutes(Poly(), Right1(c));
    LowBitsXor(Right1(c), Poly(), 32);
  }

  // ---- dividing a message --------------------------------------------------------------------

  /** What is left of the message `m` times x^32, with the register `r` added in front. */
  function Divided(r: Polynomial, m: Polynomial): (d: Polynomial)
    requires |r| == 32
    ensures |d| == 32
  {
    Remainder(AddFront(m + Zeros(32), r))
  }

  lemma DividedEmpty(r: Polynomial)
    requires |r| == 32
    ensures Divided(r, []) == r
  {
    assert AddFront([] + Zeros(32), r) == r;
  }

  /** Dividing off a leading zero of the message is one step of the register. */
  lemma ZeroStep(r: Polynomial, m: Polynomial)
    requires |r| == 32
    ensures Divided(r, [false] + m) == Divided(TimesX(r), m)
  {
    hide Generator, Remainder;
    var rest := m + Zeros(32);
    assert [false] + m + Zeros(32) == [false] + rest;
    ZeroInFront(rest, r);
    ShiftIn(rest, r);
    RemainderStep(AddFront([false] + rest, r));
  }

  lemma ZeroInFront(m: Polynomial, r: Polynomial)
    requires |r| == 32 && |m| >= 32
    ensures var d := AddFront([false] + m, r); d[0] == r[0] && d[1..] == AddFront(m, r[1..])
  {
    var d, e := AddFront([false] + m, r), AddFront(m, r[1..]);
    forall i | 0 <= i < |m| ensures d[1..][i] == e[i] {
      assert ([false] + m)[i + 1] == m[i];
      assert i + 1 < 32 ==> r[1..][i] == r[i + 1];
    }
  }

  lemma RemainderStep(d: Polynomial)
    requires |d| > 32
    ensures Remainder(d) == Remainder(if d[0] then AddFront(d[1..], Generator()) else d[1..])
  {
  }

  lemma ShiftIn(m: Polynomial, r: Polynomial)
    requires |r| == 32 && |m| >= 32
    ensures AddFront(m, r[1..]) == AddFront(m, r[1..] + [false])
    ensures r[0] ==> AddFront(AddFront(m, r[1..]), Generator()) == AddFront(m, TimesX(r))
  {
    hide Generator;
  }

  lemma {:induction false} ZeroSteps(c: bv32, n: nat, m: Polynomial)
    ensures Divided(Bits(c), Zeros(n) + m) == Divided(Bits(Steps(c, n)), m)
    decreases n
  {
    hide Bits, Step, Divided, TimesX;
    if n == 0 {
      assert Zeros(0) + m == m;
    } else {
      assert Zeros(n) + m == Zeros(n - 1) + ([false] + m);
      ZeroSteps(c, n - 1, [false] + m);
      ZeroStep(Bits(Steps(c, n - 1)), m);
      StepIsTimesX(Steps(c, n - 1));
    }
  }

  /** Leading bits of the message may as well stand in the register. */
  lemma MoveFront(r: Polynomial, b: Polynomial, m: Polynomial)
    requires |r| == 32 && |b| == 8
    ensures Divided(r, b + m) == Divided(AddFront(r, b), Zeros(8) + m)
  {
    assert AddFront(b + m + Zeros(32), r) == AddFront(Zeros(8) + m + Zeros(32), AddFront(r, b));
  }

  lemma WideBits(b: bv8)
    ensures LowBits(Wide(b), 8) == ByteBits(b)
    ensures LowBits(Right8(Wide(b)), 24) == Zeros(24)
  {
    hide LowBits;
    EightBits(Wide(b));
    NoBits(24);
    WideIsByte(b);
  }

  lemma WideIsByte(b: bv8)
    ensures Right8(Wide(b)) == 0
    ensures Wide(b) & 1 != 0 <==> b & 1 != 0
    ensures Wide(b) & 2 != 0 <==> b & 2 != 0
    ensures Wide(b) & 4 != 0 <==> b & 4 != 0
    ensures Wide(b) & 8 != 0 <==> b & 8 != 0
    ensures Wide(b) & 16 != 0 <==> b & 16 != 0
    ensures Wide(b) & 32 != 0 <==> b & 32 != 0
    ensures Wide(b) & 64 != 0 <==> b & 64 != 0
    ensures Wide(b) & 128 != 0 <==> b & 128 != 0
  {
  }

  lemma {:induction false} NoBits(n: nat)
    ensures LowBits(0, n) == Zeros(n)
  {
    if n > 0 { NoBits(n - 1); }
  }

  /** XORing a byte into the register adds its bits in front. */
  lemma XorByte(c: bv32, b: bv8)
    ensures Bits(Xor(c, Wide(b))) == AddFront(Bits(c), ByteBits(b))
  {
    hide LowBits, Xor, Wide, ByteBits, Right8, Shifted;
    LowBitsXor(c, Wide(b), 32);
    LowBitsSplit(Wide(b), 8, 24);
    ShiftedByte(Wide(b));
    WideBits(b);
    assert Bits(Wide(b)) == ByteBits(b) + Zeros(24);
  }

  lemma ByteStep(c: bv32, b: bv8, m: Polynomial)
    ensures Divided(Bits(c), ByteBits(b) + m) == Divided(Bits(Steps(Xor(c, Wide(b)), 8)), m)
  {
    hide Bits, Steps, Xor, Wide, ByteBits, Divided;
    MoveFront(Bits(c), ByteBits(b), m);
    XorByte(c, b);
    ZeroSteps(Xor(c, Wide(b)), 8, m);
  }

  lemma {:induction false} RegisterIsRemainder(c: bv32, bytes: seq<bv8>)
    ensures Bits(Register(c, bytes)) == Divided(Bits(c), MessageBits(bytes))
    decreases |bytes|
  {
    hide Bits, Steps, Xor, Wide, ByteBits, Divided, Register;
    if bytes == [] {
      DividedEmpty(Bits(c));
      NoneFed(c);
    } else {
      var b, rest := bytes[0], bytes[1..];
      assert bytes == [b] + rest;
      RegisterConcat(c, [b], rest);
      RegisterOne(c, b);
      RegisterIsRemainder(Register(c, [b]), rest);
      ByteStep(c, b, MessageBits(rest));
    }
  }

  lemma NoneFed(c: bv32)
    ensures Register(c, []) == c
  {
  }

  lemma {:induction false} Ones(c: bv32)
    requires c == 0xffff_ffff
    ensures Bits(c) == Complement(Zeros(32))
  {
    hide LowBits, Right8, Join;
    FourBytes(c);
    EightBits(c);
    EightBits(Right8(c));
    EightBits(Right8(Right8(c)));
    EightBits(Right8(Right8(Right8(c))));
    OnesShift(c);
    Quarters(Complement(Zeros(32)));
    OnesQuarters();
  }

  const BYTE_OF_ONES: Polynomial := [true, true, true, true, true, true, true, true]

  lemma OnesQuarters()
    ensures var p := Complement(Zeros(32)); p[..8] == p[8..16] == p[16..24] == p[24..] == BYTE_OF_ONES
  {
  }

  lemma OnesShift(c: bv32)
    requires c == 0xffff_ffff
    ensures Right8(c) == 0xff_ffff && Right8(Right8(c)) == 0xffff && Right8(Right8(Right8(c))) == 0xff
  {
  }

  lemma XorOnes(c: bv32)
    ensures Bits(Xor(c, 0xffff_ffff)) == Complement(Bits(c))
  {
    hide LowBits, Xor;
    LowBitsXor(c, 0xffff_ffff, 32);
    Ones(0xffff_ffff);
  }

  lemma OnesInFront(m: Polynomial)
    requires |m| >= 32
    ensures AddFront(m, Complement(Zeros(32))) == Complement(m[..32]) + m[32..]
  {
  }

  /**
   For every message, the source's CRC, lowest bit first, is the check sequence of the
   standard: the first 32 bits complemented, times x^32, divided by the generator,
   and the remainder complemented.
   */
  lemma CrcIsCheckSequence(bytes: seq<bv8>)
    ensures Bits(Crc(bytes)) == CheckSequence(bytes)
  {
    hide Bits, Register, Xor, MessageBits, Remainder;
    RegisterIsRemainder(0xffff_ffff, bytes);
    Ones(0xffff_ffff);
    OnesInFront(MessageBits(bytes) + Zeros(32));
    XorOnes(Register(0xffff_ffff, bytes));
  }
}
