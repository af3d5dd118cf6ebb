/**
 Packed STATE payloads read against a catalog's layout: the browser client's
 scan with a moving offset (clients/js/catalog.js) and the MFP plugin's
 precomputed offsets (clients/mfp/SlopSync.cs).
 */
module Packed {
  import opened Wire

  // ---- layouts -------------------------------------------------------------------------

  /** `bits` names the bits of a bitfield8, an empty name meaning none. */
  datatype Field = Field(name: string, ty: int, scale: real, declared: Option<nat>, bits: Option<seq<string>>)

  const SIZES: seq<nat> := [1, 1, 2, 2, 4, 4, 4, 1, 16, 32, 64]

  const F32: int := 6
  const BITFIELD8: int := 7

  predicate Known(ty: int) { 0 <= ty < |SIZES| }

  predicate Numeric(ty: int) { 0 <= ty <= BITFIELD8 }

  /** The bytes a field occupies: its type's width, else the declared size. */
  function Width(f: Field): Option<nat> {
    if Known(f.ty) then Some(SIZES[f.ty]) else f.declared
  }

  /** What a field reads as: flags and texts keep their bytes. */
  datatype Value = Number(r: real) | Flags(raw: byte) | Text(bytes: Bytes)

  function Signed(raw: nat, half: nat): int {
    if raw >= half then raw - 2 * half else raw
  }

  function Scaled(raw: real, scale: real): real {
    if scale == 0.0 then raw else raw / scale
  }

  /** Bytes without their trailing zeros. */
  function Trimmed(b: Bytes): Bytes {
    if b != [] && b[|b| - 1] == 0 then Trimmed(b[..|b| - 1]) else b
  }

  /** A fixed-width integer; four bytes of a float32 go through `float`. */
  function Raw(float: Bytes -> real, p: Bytes, off: nat, ty: int): real
    requires 0 <= ty <= F32 && off + SIZES[ty] <= |p|
  {
    match ty
    case 0 => p[off] as real
    case 1 => Signed(p[off], 0x80) as real
    case 2 => ReadU16(p, off) as real
    case 3 => Signed(ReadU16(p, off), 0x8000) as real
    case 4 => ReadU32(p, off) as real
    case 5 => Signed(ReadU32(p, off), 0x8000_0000) as real
    case _ => float(p[off..off + 4])
  }

  /** What the bytes at `off` say under a field; a hole says nothing. */
  function Read(float: Bytes -> real, p: Bytes, off: nat, f: Field): Option<Value>
    requires Width(f).Some? && off + Width(f).value <= |p|
  {
    if !Known(f.ty) then None
    else if f.ty == BITFIELD8 then Some(Flags(p[off]))
    else if f.ty > BITFIELD8 then Some(Text(Trimmed(p[off..off + SIZES[f.ty]])))
    else Some(Number(Scaled(Raw(float, p, off, f.ty), f.scale)))
  }

  /** The range of an integer type. */
  predicate Fits(ty: int, v: int) {
    match ty
    case 0 => 0 <= v < 0x100
    case 1 => -0x80 <= v < 0x80
    case 2 => 0 <= v < 0x1_0000
    case 3 => -0x8000 <= v < 0x8000
    case 4 => 0 <= v < 0x1_0000_0000
    case 5 => -0x8000_0000 <= v < 0x8000_0000
    case _ => false
  }

  /** How a hub packs an integer: little-endian, two's complement. */
  function PackInt(ty: int, v: int): (b: Bytes)
    requires Fits(ty, v)
    ensures |b| == SIZES[ty]
  {
    var u := if v >= 0 then v else v + (if ty == 1 then 0x100 else if ty == 3 then 0x1_0000 else 0x1_0000_0000);
    if ty <= 1 then [u] else if ty <= 3 then U16(u) else U32(u)
  }

  /** Every integer a hub packs is read back, wherever it lies in the payload. */
  lemma IntReadsBack(float: Bytes -> real, front: Bytes, back: Bytes, ty: int, v: int)
    requires Fits(ty, v)
    ensures Raw(float, front + PackInt(ty, v) + back, |front|, ty) == v as real
  {
    hide U16, U32, ReadU16, ReadU32;
    var part := PackInt(ty, v);
    var p := front + part + back;
    assert p[|front|..|front| + |part|] == part;
    assert p[|front|] == part[0];
    var u: nat := if v >= 0 then v else v + (if ty == 1 then 0x100 else if ty == 3 then 0x1_0000 else 0x1_0000_0000);
    if ty == 2 || ty == 3 {
      U16RoundTrip(p, |front|, u);
    } else if ty == 4 || ty == 5 {
      U32RoundTrip(p, |front|, u);
    }
  }

  /** What a number field says, times its scale, is the integer packed; a scale of zero counts as one. */
  lemma IntFieldReads(float: Bytes -> real, front: Bytes, back: Bytes, f: Field, v: int)
    requires Fits(f.ty, v)
    ensures var r := Read(float, front + PackInt(f.ty, v) + back, |front|, f);
            && r.Some? && r.value.Number?
            && r.value.r * (if f.scale == 0.0 then 1.0 else f.scale) == v as real
  {
    hide Raw, PackInt;
    IntReadsBack(float, front, back, f.ty, v);
  }

  // ---- the scan --------------------------------------------------------------------------

  /** What each field reached says, in layout order, from offset `off` on. */
  function Scan(float: Bytes -> real, p: Bytes, layout: seq<Field>, off: nat): seq<Option<Value>>
    decreases |layout|
  {
    if layout == [] || Width(layout[0]).None? || off + Width(layout[0]).value > |p| then []
    else [Read(float, p, off, layout[0])] + Scan(float, p, layout[1..], off + Width(layout[0]).value)
  }

  /** Every field has a width. */
  predicate Sized(layout: seq<Field>) {
    forall i | 0 <= i < |layout| :: Width(layout[i]).Some?
  }

  /** The bytes a layout occupies, which is where the next field would start. */
  function Extent(layout: seq<Field>): nat
    requires Sized(layout)
  {
    if layout == [] then 0
    else Extent(layout[..|layout| - 1]) + Width(layout[|layout| - 1]).value
  }

  /** Field `i` lies within the payload: all widths up to it are known and it ends in time. */
  predicate Reached(p: Bytes, layout: seq<Field>, i: nat) {
    i < |layout| && Sized(layout[..i + 1]) && Extent(layout[..i + 1]) <= |p|
  }

  lemma {:induction false} ExtentSplit(a: seq<Field>, b: seq<Field>)
    requires Sized(a) && Sized(b)
    ensures Sized(a + b) && Extent(a + b) == Extent(a) + Extent(b)
  {
    if b == [] {
      assert a + b == a;
    } else {
      var last := |b| - 1;
      ExtentSplit(a, b[..last]);
      assert (a + b)[..|a + b| - 1] == a + b[..last];
    }
  }

  /** From any offset: which fields are reached, and where each is read. */
  lemma {:induction false} ScanFrom(float: Bytes -> real, p: Bytes, layout: seq<Field>, off: nat, i: nat)
    ensures |Scan(float, p, layout, off)| <= |layout|
    ensures i < |Scan(float, p, layout, off)| <==>
              i < |layout| && Sized(layout[..i + 1]) && off + Extent(layout[..i + 1]) <= |p|
    ensures i < |Scan(float, p, layout, off)| ==>
              && Sized(layout[..i]) && Sized(layout[..i + 1])
              && off + Extent(layout[..i]) + Width(layout[i]).value <= |p|
              && Scan(float, p, layout, off)[i] == Read(float, p, off + Extent(layout[..i]), layout[i])
    decreases |layout|
  {
    hide Read, Extent;
    if layout == [] {
    } else if Width(layout[0]).None? {
      if i < |layout| { assert layout[..i + 1][0] == layout[0]; }
    } else {
      var w := Width(layout[0]).value;
      var rest := layout[1..];
      NothingBefore(layout);
      NothingBefore(rest);
      if i < |layout| { Peel(layout, i); }
      if off + w <= |p| {
        ScanFrom(float, p, rest, off + w, if i == 0 then 0 else i - 1);
        if 0 < i < |layout| { Peel(layout, i - 1); }
      }
    }
  }

  /** The extent of a prefix, counted from the front. */
  lemma Peel(layout: seq<Field>, i: nat)
    requires i < |layout| && Width(layout[0]).Some?
    ensures Sized(layout[..i + 1]) <==> Sized(layout[1..][..i])
    ensures Sized(layout[..i + 1]) ==> Extent(layout[..i + 1]) == Width(layout[0]).value + Extent(layout[1..][..i])
  {
    var first, rest := layout[..1], layout[1..][..i];
    assert layout[..i + 1] == first + rest;
    if Sized(layout[..i + 1]) {
      assert forall k | 0 <= k < i :: rest[k] == layout[..i + 1][k + 1];
      ExtentSplit(first, rest);
      assert first[..0] == [];
    }
  }

  /**
   The scan reads exactly the fields that lie within the payload, each at the sum
   of the widths before it.
   */
  lemma ScanAt(float: Bytes -> real, p: Bytes, layout: seq<Field>, i: nat)
    ensures i < |Scan(float, p, layout, 0)| <==> Reached(p, layout, i)
    ensures Reached(p, layout, i) ==>
              && Sized(layout[..i]) && Width(layout[i]).Some? && Extent(layout[..i]) + Width(layout[i]).value <= |p|
              && Scan(float, p, layout, 0)[i] == Read(float, p, Extent(layout[..i]), layout[i])
  {
    hide Read;
    ScanFrom(float, p, layout, 0, i);
  }

  /** A field reads the same from a longer payload. */
  lemma ReadPrefix(float: Bytes -> real, p: Bytes, more: Bytes, off: nat, f: Field)
    requires Width(f).Some? && off + Width(f).value <= |p|
    ensures Read(float, p + more, off, f) == Read(float, p, off, f)
  {
    assert (p + more)[..|p|] == p;
    assert forall k | 0 <= k < |p| :: (p + more)[k] == p[k];
    if Known(f.ty) {
      assert (p + more)[off..off + SIZES[f.ty]] == p[off..off + SIZES[f.ty]];
    }
  }

  /** Lengthening the payload or the layout or both never changes what an earlier field says. */
  lemma {:induction false} AppendOnly(float: Bytes -> real, p: Bytes, more: Bytes, layout: seq<Field>, fields: seq<Field>, off: nat)
    ensures Scan(float, p, layout, off) <= Scan(float, p + more, layout + fields, off)
    decreases |layout|
  {
    hide Read, Width;
    if layout != [] && Width(layout[0]).Some? && off + Width(layout[0]).value <= |p| {
      ReadPrefix(float, p, more, off, layout[0]);
      assert (layout + fields)[1..] == layout[1..] + fields;
      AppendOnly(float, p, more, layout[1..], fields, off + Width(layout[0]).value);
    }
  }

  /** A field reads the same wherever its bytes lie. */
  lemma ReadShift(float: Bytes -> real, front: Bytes, p: Bytes, off: nat, f: Field)
    requires Width(f).Some? && off + Width(f).value <= |p|
    ensures Read(float, front + p, |front| + off, f) == Read(float, p, off, f)
  {
    var whole := front + p;
    assert forall k | 0 <= k < |p| :: whole[|front| + k] == p[k];
    if Known(f.ty) {
      assert whole[|front| + off..|front| + off + SIZES[f.ty]] == p[off..off + SIZES[f.ty]];
    }
  }

  lemma {:induction false} ScanShift(float: Bytes -> real, front: Bytes, p: Bytes, layout: seq<Field>, off: nat)
    ensures Scan(float, front + p, layout, |front| + off) == Scan(float, p, layout, off)
    decreases |layout|
  {
    hide Read, Width;
    if layout != [] && Width(layout[0]).Some? && off + Width(layout[0]).value <= |p| {
      ReadShift(float, front, p, off, layout[0]);
      ScanShift(float, front, p, layout[1..], off + Width(layout[0]).value);
    }
  }

  /** A payload that fills a layout exactly, followed by another payload and layout, reads as the two do apart. */
  lemma {:induction false} ScanConcat(float: Bytes -> real, p: Bytes, q: Bytes, layout: seq<Field>, rest: seq<Field>, off: nat)
    requires Sized(layout) && off + Extent(layout) == |p|
    ensures |Scan(float, p, layout, off)| == |layout|
    ensures Scan(float, p + q, layout + rest, off) == Scan(float, p, layout, off) + Scan(float, q, rest, 0)
    decreases |layout|
  {
    hide Read, Width;
    if layout == [] {
      assert layout + rest == rest;
      ScanShift(float, p, q, rest, 0);
    } else {
      var w := Width(layout[0]).value;
      FrontWidth(layout);
      ReadPrefix(float, p, q, off, layout[0]);
      assert (layout + rest)[1..] == layout[1..] + rest;
      ScanConcat(float, p, q, layout[1..], rest, off + w);
    }
  }

  lemma FrontWidth(layout: seq<Field>)
    requires Sized(layout) && layout != []
    ensures Sized(layout[1..]) && Extent(layout) == Width(layout[0]).value + Extent(layout[1..])
  {
    ExtentSplit(layout[..1], layout[1..]);
    assert layout[..1] + layout[1..] == layout;
    assert layout[..1][..0] == [];
  }

  /**
   A field of unknown type with a declared size is a hole of exactly that width:
   it says nothing, and the fields after it read as if neither it nor its bytes
   were there.
   */
  lemma HoleIsTransparent(float: Bytes -> real, p: Bytes, hole: Bytes, q: Bytes, layout: seq<Field>, f: Field, rest: seq<Field>)
    requires Sized(layout) && Extent(layout) == |p|
    requires !Known(f.ty) && f.declared == Some(|hole|)
    ensures Scan(float, p + hole + q, layout + [f] + rest, 0)
              == Scan(float, p, layout, 0) + [None] + Scan(float, q, rest, 0)
    ensures Scan(float, p + q, layout + rest, 0) == Scan(float, p, layout, 0) + Scan(float, q, rest, 0)
  {
    ScanConcat(float, p, q, layout, rest, 0);
    ScanConcat(float, hole, q, [f], rest, 0);
    assert Scan(float, hole, [f], 0) == [None];
    ScanConcat(float, p, hole + q, layout, [f] + rest, 0);
    assert p + hole + q == p + (hole + q);
    assert layout + [f] + rest == layout + ([f] + rest);
    assert Scan(float, p, layout, 0) + ([None] + Scan(float, q, rest, 0))
        == Scan(float, p, layout, 0) + [None] + Scan(float, q, rest, 0);
  }

  /** Without a declared size nothing from such a field on is read, whatever the payload. */
  lemma UnsizedStops(float: Bytes -> real, p: Bytes, layout: seq<Field>, f: Field, rest: seq<Field>)
    requires !Known(f.ty) && f.declared.None?
    ensures |Scan(float, p, layout + [f] + rest, 0)| <= |layout|
  {
    var all := layout + [f] + rest;
    ScanAt(float, p, all, |layout|);
    assert all[..|layout| + 1][|layout|] == f;
  }

  /** On a known type a declared size, right or wrong, changes nothing. */
  lemma {:induction false} DeclarationIgnored(float: Bytes -> real, p: Bytes, layout: seq<Field>, i: nat, size: Option<nat>, off: nat)
    requires i < |layout| && Known(layout[i].ty)
    ensures Scan(float, p, layout[i := layout[i].(declared := size)], off) == Scan(float, p, layout, off)
    decreases |layout|
  {
    var layout' := layout[i := layout[i].(declared := size)];
    if i == 0 {
      assert layout'[1..] == layout[1..];
    } else if Width(layout[0]).Some? && off + Width(layout[0]).value <= |p| {
      assert layout'[1..] == layout[1..][i - 1 := layout[1..][i - 1].(declared := size)];
      DeclarationIgnored(float, p, layout[1..], i - 1, size, off + Width(layout[0]).value);
    }
  }

  // ---- the object returned -------------------------------------------------------------------

  datatype Item = Plain(value: Value) | Bits(named: map<string, bool>)

  function Pow2(n: nat): (r: nat)
    ensures r > 0
  {
    if n == 0 then 1 else 2 * Pow2(n - 1)
  }

  /** The named bits below `n`; a name given twice keeps the higher bit. */
  function BitsBelow(names: seq<string>, raw: byte, n: nat): map<string, bool> {
    if n == 0 then map[]
    else
      var below := BitsBelow(names, raw, n - 1);
      if n - 1 < |names| && names[n - 1] != "" then below[names[n - 1] := raw / Pow2(n - 1) % 2 == 1] else below
  }

  /** The byte in which bit `b` is `flags[b]`. */
  function PackFlags(flags: seq<bool>): (r: nat)
    ensures r < Pow2(|flags|)
  {
    if flags == [] then 0 else (if flags[0] then 1 else 0) + 2 * PackFlags(flags[1..])
  }

  lemma HalveTwice(x: nat, y: nat, q: nat)
    requires x < 2 && q > 0
    ensures (x + 2 * y) / (2 * q) == y / q
  {
    var k, m := y / q, y % q;
    assert y == k * q + m;
    assert x + 2 * y == k * (2 * q) + (x + 2 * m);
    QuotientIs(x + 2 * y, 2 * q, k, x + 2 * m);
  }

  lemma QuotientIs(a: nat, b: nat, k: nat, rest: nat)
    requires b > 0 && a == k * b + rest && rest < b
    ensures a / b == k
  {
    var d := a / b - k;
    assert a == (a / b) * b + a % b;
    assert d * b == (a / b) * b - k * b;
    assert d >= 1 ==> d * b >= b;
    assert d <= -1 ==> d * b + b <= 0;
  }

  lemma {:induction false} FlagBit(flags: seq<bool>, b: nat)
    requires b < |flags|
    ensures PackFlags(flags) / Pow2(b) % 2 == if flags[b] then 1 else 0
  {
    var y := PackFlags(flags[1..]);
    if b > 0 {
      FlagBit(flags[1..], b - 1);
      HalveTwice(if flags[0] then 1 else 0, y, Pow2(b - 1));
    }
  }

  /** `names[b]` is a name, and no later one below `n` is the same. */
  predicate LastNamed(names: seq<string>, b: nat, n: nat) {
    b < n && b < |names| && names[b] != "" && forall c | b < c < n && c < |names| :: names[c] != names[b]
  }

  /** Each name stands for its own bit. */
  lemma {:induction false} BitsAre(names: seq<string>, raw: byte, n: nat, b: nat)
    requires LastNamed(names, b, n)
    ensures var m := BitsBelow(names, raw, n); names[b] in m && m[names[b]] == (raw / Pow2(b) % 2 == 1)
  {
    if b < n - 1 { BitsAre(names, raw, n - 1, b); }
  }

  lemma {:induction false} OnlyNames(names: seq<string>, raw: byte, n: nat, key: string)
    ensures key in BitsBelow(names, raw, n) <==> exists b :: 0 <= b < n && b < |names| && names[b] == key && key != ""
  {
    if n > 0 {
      OnlyNames(names, raw, n - 1, key);
      if n - 1 < |names| && names[n - 1] == key && key != "" { assert names[n - 1] == key; }
    }
  }

  function Write(out: map<string, Item>, f: Field, v: Option<Value>): map<string, Item> {
    match v
    case None => out
    case Some(Flags(raw)) =>
      var out1 := out[f.name := Plain(Flags(raw))];
      if f.bits.Some? then out1[f.name + "_bits" := Bits(BitsBelow(f.bits.value, raw, 8))] else out1
    case Some(value) => out[f.name := Plain(value)]
  }

  function Collected(layout: seq<Field>, values: seq<Option<Value>>): map<string, Item>
    requires |values| <= |layout|
  {
    if values == [] then map[]
    else
      var last := |values| - 1;
      Write(Collected(layout[..last], values[..last]), layout[last], values[last])
  }

  function Decoded(float: Bytes -> real, p: Bytes, layout: seq<Field>): map<string, Item> {
    ScanFrom(float, p, layout, 0, 0);
    Collected(layout, Scan(float, p, layout, 0))
  }

  /** The keys a field may set. */
  function Keys(f: Field): set<string> { {f.name, f.name + "_bits"} }

  /** No two fields may set the same key. */
  predicate Separate(layout: seq<Field>) {
    forall i, j | 0 <= i < j < |layout| :: Keys(layout[i]) !! Keys(layout[j])
  }

  lemma {:induction false} CollectedFrom(layout: seq<Field>, values: seq<Option<Value>>, key: string)
    requires |values| <= |layout| && key in Collected(layout, values)
    ensures exists i :: 0 <= i < |values| && key in Keys(layout[i])
  {
    var last := |values| - 1;
    if key !in Keys(layout[last]) {
      CollectedFrom(layout[..last], values[..last], key);
      var i :| 0 <= i < last && key in Keys(layout[..last][i]);
      assert key in Keys(layout[i]);
    }
  }

  /** Fields that come later leave what is collected alone, if the names are separate. */
  lemma {:induction false} CollectedGrows(layout: seq<Field>, few: seq<Option<Value>>, many: seq<Option<Value>>, key: string)
    requires Separate(layout) && few <= many && |many| <= |layout|
    requires key in Collected(layout, few)
    ensures key in Collected(layout, many) && Collected(layout, many)[key] == Collected(layout, few)[key]
    decreases |many|
  {
    hide Keys;
    if |many| == |few| {
      assert many == few;
    } else {
      var last := |many| - 1;
      CollectedLocal(layout, few, last);
      CollectedGrows(layout[..last], few, many[..last], key);
      CollectedFrom(layout, few, key);
      var i :| 0 <= i < |few| && key in Keys(layout[i]);
      assert key !in Keys(layout[last]);
      WriteElsewhere(Collected(layout[..last], many[..last]), layout[last], many[last], key);
    }
  }

  lemma WriteElsewhere(out: map<string, Item>, f: Field, v: Option<Value>, key: string)
    requires key in out && key !in Keys(f)
    ensures key in Write(out, f, v) && Write(out, f, v)[key] == out[key]
  {
  }

  /** Only the fields with values matter. */
  lemma CollectedLocal(layout: seq<Field>, values: seq<Option<Value>>, n: nat)
    requires |values| <= n <= |layout|
    ensures Collected(layout[..n], values) == Collected(layout, values)
  {
    if values != [] {
      var last := |values| - 1;
      assert layout[..n][..last] == layout[..last];
    }
  }

  /** By name too: with separate names, an older hub's or a newer hub's snapshot agrees wherever both speak. */
  lemma NamesAppendOnly(float: Bytes -> real, p: Bytes, more: Bytes, layout: seq<Field>, fields: seq<Field>, key: string)
    requires Separate(layout + fields) && key in Decoded(float, p, layout)
    ensures var after := Decoded(float, p + more, layout + fields);
            key in after && after[key] == Decoded(float, p, layout)[key]
  {
    var few, many := Scan(float, p, layout, 0), Scan(float, p + more, layout + fields, 0);
    AppendOnly(float, p, more, layout, fields, 0);
    ScanFrom(float, p, layout, 0, 0);
    ScanFrom(float, p + more, layout + fields, 0, 0);
    CollectedLocal(layout + fields, few, |layout|);
    assert (layout + fields)[..|layout|] == layout;
    CollectedGrows(layout + fields, few, many, key);
  }

  /** What a field puts into the object, and under which keys. */
  ghost predicate Says(out: map<string, Item>, f: Field, v: Value) {
    && f.name in out && out[f.name] == Plain(v)
    && (v.Flags? && f.bits.Some? ==>
          && f.name + "_bits" in out && out[f.name + "_bits"].Bits?
          && forall b: nat | LastNamed(f.bits.value, b, 8) ::
               var m := out[f.name + "_bits"].named;
               f.bits.value[b] in m && m[f.bits.value[b]] == (v.raw / Pow2(b) % 2 == 1))
  }

  lemma WriteSays(out: map<string, Item>, f: Field, v: Value)
    ensures Says(Write(out, f, Some(v)), f, v)
  {
    assert f.name + "_bits" != f.name;
    if v.Flags? && f.bits.Some? {
      forall b: nat | LastNamed(f.bits.value, b, 8)
        ensures f.bits.value[b] in BitsBelow(f.bits.value, v.raw, 8)
        ensures BitsBelow(f.bits.value, v.raw, 8)[f.bits.value[b]] == (v.raw / Pow2(b) % 2 == 1)
      {
        BitsAre(f.bits.value, v.raw, 8, b);
      }
    }
  }

  /** The object says of every field that lies within the payload what its bytes say, when no two fields share a key. */
  lemma DecodedSays(float: Bytes -> real, p: Bytes, layout: seq<Field>, i: nat)
    requires Separate(layout) && Reached(p, layout, i) && Known(layout[i].ty)
    ensures Sized(layout[..i]) && Extent(layout[..i]) + SIZES[layout[i].ty] <= |p|
    ensures var v := Read(float, p, Extent(layout[..i]), layout[i]);
            v.Some? && Says(Decoded(float, p, layout), layout[i], v.value)
  {
    hide Read, Says, Separate, Scan, Collected;
    var scan := Scan(float, p, layout, 0);
    ScanAt(float, p, layout, i);
    ScanFrom(float, p, layout, 0, 0);
    KnownReads(float, p, Extent(layout[..i]), layout[i]);
    KeepWriting(layout, scan[..i], scan[i]);
    assert scan[..i] + [scan[i]] == scan[..i + 1];
    WriteSays(Collected(layout, scan[..i]), layout[i], scan[i].value);
    SaysGrows(layout, scan[..i + 1], scan, layout[i], scan[i].value);
  }

  lemma KnownReads(float: Bytes -> real, p: Bytes, off: nat, f: Field)
    requires Known(f.ty) && off + SIZES[f.ty] <= |p|
    ensures Read(float, p, off, f).Some?
  {
  }

  lemma SaysGrows(layout: seq<Field>, few: seq<Option<Value>>, many: seq<Option<Value>>, f: Field, v: Value)
    requires Separate(layout) && few <= many && |many| <= |layout| && Says(Collected(layout, few), f, v)
    ensures Says(Collected(layout, many), f, v)
  {
    hide Collected, Separate, LastNamed;
    CollectedGrows(layout, few, many, f.name);
    if v.Flags? && f.bits.Some? { CollectedGrows(layout, few, many, f.name + "_bits"); }
  }

  /** The field puts something under this key. */
  predicate Puts(f: Field, v: Option<Value>, key: string) {
    v.Some? && (key == f.name || (v.value.Flags? && f.bits.Some? && key == f.name + "_bits"))
  }

  /** Nothing else is in the object: every key comes from a field that lies within the payload and is no hole. */
  lemma {:induction false} CollectedOnly(layout: seq<Field>, values: seq<Option<Value>>, key: string)
    requires |values| <= |layout|
    ensures key in Collected(layout, values) <==> exists i :: 0 <= i < |values| && Puts(layout[i], values[i], key)
  {
    if values != [] {
      var last := |values| - 1;
      CollectedOnly(layout[..last], values[..last], key);
      forall i | 0 <= i < last ensures Puts(layout[..last][i], values[..last][i], key) <==> Puts(layout[i], values[i], key) {
      }
      PutsLast(Collected(layout[..last], values[..last]), layout[last], values[last], key);
      if i :| 0 <= i < last && Puts(layout[..last][i], values[..last][i], key) {
        assert Puts(layout[i], values[i], key);
      }
    }
  }

  lemma PutsLast(out: map<string, Item>, f: Field, v: Option<Value>, key: string)
    ensures key in Write(out, f, v) <==> key in out || Puts(f, v, key)
  {
  }

  lemma DecodedOnly(float: Bytes -> real, p: Bytes, layout: seq<Field>, key: string)
    ensures var scan := Scan(float, p, layout, 0);
            |scan| <= |layout| && (key in Decoded(float, p, layout) <==> exists i :: 0 <= i < |scan| && Puts(layout[i], scan[i], key))
  {
    ScanFrom(float, p, layout, 0, 0);
    CollectedOnly(layout, Scan(float, p, layout, 0), key);
  }

  /** Flags packed by the hub arrive under their names, wherever in the payload their byte lies. */
  lemma FlagsArrive(float: Bytes -> real, p: Bytes, layout: seq<Field>, i: nat, flags: seq<bool>, b: nat)
    requires Separate(layout) && Reached(p, layout, i) && layout[i].ty == BITFIELD8 && layout[i].bits.Some?
    requires |flags| == 8 && LastNamed(layout[i].bits.value, b, 8)
    ensures Sized(layout[..i]) && Extent(layout[..i]) < |p|
    ensures var out, key := Decoded(float, p, layout), layout[i].name + "_bits";
            p[Extent(layout[..i])] == PackFlags(flags) ==>
              && key in out && out[key].Bits?
              && layout[i].bits.value[b] in out[key].named && out[key].named[layout[i].bits.value[b]] == flags[b]
  {
    hide Separate, PackFlags, LastNamed, Decoded;
    DecodedSays(float, p, layout, i);
    NamedIsName(layout[i].bits.value, b, 8);
    FlagBit(flags, b);
  }

  lemma NamedIsName(names: seq<string>, b: nat, n: nat)
    requires LastNamed(names, b, n)
    ensures b < n && b < |names|
  {
  }

  // ---- the browser client's loop ------------------------------------------------------------------

  lemma {:induction false} TrimmedIs(b: Bytes, end: nat)
    requires end <= |b| && (forall k | end <= k < |b| :: b[k] == 0) && (end > 0 ==> b[end - 1] != 0)
    ensures Trimmed(b) == b[..end]
    decreases |b|
  {
    if end < |b| {
      TrimmedIs(b[..|b| - 1], end);
      assert b[..|b| - 1][..end] == b[..end];
    }
  }

  /** A text padded with zeros to its field's width reads back, if it does not itself end in zero. */
  lemma PaddedTextReads(text: Bytes, pad: nat)
    requires text != [] ==> text[|text| - 1] != 0
    ensures Trimmed(text + seq(pad, i => 0)) == text
  {
    var b: Bytes := text + seq(pad, i => 0);
    TrimmedIs(b, |text|);
  }

  method TrimZeros(b: Bytes) returns (r: Bytes)
    ensures r == Trimmed(b)
  {
    var end: nat := |b|;
    while end > 0 && b[end - 1] == 0
      invariant end <= |b| && forall k | end <= k < |b| :: b[k] == 0
    {
      end := end - 1;
    }
    TrimmedIs(b, end);
    r := b[..end];
  }

  method NameBits(names: seq<string>, raw: byte) returns (out: map<string, bool>)
    ensures out == BitsBelow(names, raw, 8)
  {
    out := map[];
    for b := 0 to 8
      invariant out == BitsBelow(names, raw, b)
    {
      if b < |names| && names[b] != "" {
        out := out[names[b] := raw / Pow2(b) % 2 == 1];
      }
    }
  }

  method ReadValue(float: Bytes -> real, p: Bytes, off: nat, f: Field) returns (v: Value)
    requires Known(f.ty) && off + SIZES[f.ty] <= |p|
    ensures Read(float, p, off, f) == Some(v)
  {
    if f.ty == BITFIELD8 {
      v := Flags(p[off]);
    } else if f.ty > BITFIELD8 {
      var text := TrimZeros(p[off..off + SIZES[f.ty]]);
      v := Text(text);
    } else {
      var scale := if f.scale == 0.0 then 1.0 else f.scale;
      var raw := Raw(float, p, off, f.ty);
      v := Number(if scale != 1.0 then raw / scale else raw);
    }
  }

  /** What is done and what is to come make up the whole. */
  ghost predicate Joins<T>(all: seq<T>, done: seq<T>, rest: seq<T>) { all == done + rest }

  lemma JoinsNext<T>(all: seq<T>, done: seq<T>, x: T, rest: seq<T>)
    requires Joins(all, done, [x] + rest)
    ensures Joins(all, done + [x], rest)
  {
    Regroup(done, [x], rest);
  }

  lemma JoinsEnds<T>(all: seq<T>, done: seq<T>)
    ensures Joins(all, [], all) && (Joins(all, done, []) ==> all == done)
  {
    assert done + [] == done;
  }

  lemma ScanFirst(float: Bytes -> real, p: Bytes, layout: seq<Field>, off: nat)
    requires layout != []
    ensures var f := layout[0];
            Scan(float, p, layout, off) ==
              if Width(f).Some? && off + Width(f).value <= |p|
              then [Read(float, p, off, f)] + Scan(float, p, layout[1..], off + Width(f).value) else []
  {
    hide Read, Width;
  }

  method DecodePacked(float: Bytes -> real, p: Bytes, layout: seq<Field>) returns (out: map<string, Item>)
    ensures out == Decoded(float, p, layout)
  {
    hide Read, Write, Collected, Scan, Joins;
    NothingCollected(layout);
    ghost var all := Scan(float, p, layout, 0);
    JoinsEnds(all, []);
    assert layout[0..] == layout;
    out := map[];
    var off: nat := 0;
    ghost var values: seq<Option<Value>> := [];
    for i := 0 to |layout|
      invariant i == |values|
      invariant Joins(all, values, Scan(float, p, layout[i..], off))
      invariant out == Collected(layout, values)
    {
      var f := layout[i];
      NextTail(layout, i);
      ScanFirst(float, p, layout[i..], off);
      JoinsEnds(all, values);
      if !Known(f.ty) {
        if f.declared.None? { return; }
        if off + f.declared.value > |p| { return; }
        HoleSaysNothing(float, p, off, f, out);
        KeepWriting(layout, values, None);
        JoinsNext(all, values, None, Scan(float, p, layout[i + 1..], off + f.declared.value));
        values := values + [None];
        off := off + f.declared.value;
      } else {
        if off + SIZES[f.ty] > |p| { return; }
        var value := ReadValue(float, p, off, f);
        KeepWriting(layout, values, Some(value));
        JoinsNext(all, values, Some(value), Scan(float, p, layout[i + 1..], off + SIZES[f.ty]));
        values := values + [Some(value)];
        off := off + SIZES[f.ty];
        out := WriteItem(out, f, value);
      }
    }
    NothingScanned(float, p, off);
    JoinsEnds(all, values);
  }

  lemma NothingScanned(float: Bytes -> real, p: Bytes, off: nat)
    ensures Scan(float, p, [], off) == []
  {
  }

  method WriteItem(before: map<string, Item>, f: Field, v: Value) returns (out: map<string, Item>)
    ensures out == Write(before, f, Some(v))
  {
    out := before[f.name := Plain(v)];
    if v.Flags? && f.bits.Some? {
      var named := NameBits(f.bits.value, v.raw);
      out := out[f.name + "_bits" := Bits(named)];
    }
  }

  lemma HoleSaysNothing(float: Bytes -> real, p: Bytes, off: nat, f: Field, out: map<string, Item>)
    requires !Known(f.ty) && f.declared.Some? && off + f.declared.value <= |p|
    ensures Read(float, p, off, f) == None && Write(out, f, None) == out
  {
  }

  lemma NothingCollected(layout: seq<Field>)
    ensures Collected(layout, []) == map[]
  {
  }

  lemma KeepWriting(layout: seq<Field>, values: seq<Option<Value>>, v: Option<Value>)
    requires |values| < |layout|
    ensures Collected(layout, values + [v]) == Write(Collected(layout, values), layout[|values|], v)
  {
    assert (values + [v])[..|values|] == values;
    CollectedLocal(layout, values, |values|);
  }

  // ---- the plugin's precomputed offsets ----------------------------------------------------------

  datatype Placed = Placed(offset: nat, size: nat, ty: int, scale: real)

  /** How many fields precede the first of unknown type. */
  function KnownCount(layout: seq<Field>): (n: nat)
    ensures n <= |layout|
    ensures forall i | 0 <= i < n :: Known(layout[i].ty)
    ensures n < |layout| ==> !Known(layout[n].ty)
  {
    if layout == [] || !Known(layout[0].ty) then 0 else 1 + KnownCount(layout[1..])
  }

  lemma KnownSized(layout: seq<Field>, n: nat)
    requires n <= KnownCount(layout)
    ensures Sized(layout[..n])
  {
  }

  /** A field where the widths before it put it. */
  function PlacedAt(layout: seq<Field>, i: nat): Placed
    requires i < KnownCount(layout)
  {
    KnownSized(layout, i);
    var f := layout[i];
    Placed(Extent(layout[..i]), SIZES[f.ty], f.ty, if f.scale == 0.0 then 1.0 else f.scale)
  }

  lemma ExtentStep(layout: seq<Field>, i: nat)
    requires i < KnownCount(layout)
    ensures Sized(layout[..i]) && Sized(layout[..i + 1])
    ensures Extent(layout[..i + 1]) == Extent(layout[..i]) + SIZES[layout[i].ty]
  {
    KnownSized(layout, i + 1);
    assert layout[..i + 1][..i] == layout[..i];
  }

  /** Offsets accumulate in declaration order and stop at an unknown type, sized or not. */
  method PlaceFields(layout: seq<Field>) returns (fields: seq<Placed>)
    ensures |fields| == KnownCount(layout)
    ensures forall i | 0 <= i < |fields| :: fields[i] == PlacedAt(layout, i)
  {
    hide KnownCount, Extent, Sized;
    fields := [];
    var off: nat := 0;
    var i := 0;
    NothingBefore(layout);
    while i < |layout| && Known(layout[i].ty)
      invariant i == |fields| <= KnownCount(layout)
      invariant Sized(layout[..i]) && off == Extent(layout[..i])
      invariant forall k | 0 <= k < i :: fields[k] == PlacedAt(layout, k)
    {
      var f := layout[i];
      ExtentStep(layout, i);
      fields := fields + [Placed(off, SIZES[f.ty], f.ty, if f.scale == 0.0 then 1.0 else f.scale)];
      assert fields[i] == PlacedAt(layout, i);
      off := off + SIZES[f.ty];
      i := i + 1;
    }
  }

  lemma NothingBefore(layout: seq<Field>)
    ensures Sized(layout[..0]) && Extent(layout[..0]) == 0
  {
  }

  /** One field out of a payload; none for a short frame or a text. */
  function ReadField(float: Bytes -> real, p: Bytes, f: Placed): Option<real>
    requires Known(f.ty) && f.size == SIZES[f.ty]
  {
    if f.offset + f.size > |p| then None
    else if f.ty == BITFIELD8 then Some(p[f.offset] as real)
    else if f.ty > BITFIELD8 then None
    else
      var raw := Raw(float, p, f.offset, f.ty);
      Some(if f.scale != 1.0 && f.scale != 0.0 then raw / f.scale else raw)
  }

  /** A value as the plugin would give it. */
  function AsNumber(v: Value): Option<real> {
    match v
    case Number(r) => Some(r)
    case Flags(raw) => Some(raw as real)
    case Text(_) => None
  }

  /** Field `i` by the plugin's precomputed offset. */
  function Lookup(float: Bytes -> real, p: Bytes, layout: seq<Field>, i: nat): Option<real>
    requires i < KnownCount(layout)
  {
    ReadField(float, p, PlacedAt(layout, i))
  }

  /**
   For every layout and payload, on the fields before the first unknown type: the
   plugin reads a number exactly when the browser's scan reaches the field and it
   is not a text, and then the same number.
   */
  lemma ReadersAgree(float: Bytes -> real, p: Bytes, layout: seq<Field>, i: nat)
    requires i < KnownCount(layout)
    ensures var scan := Scan(float, p, layout, 0);
            Lookup(float, p, layout, i) == if i < |scan| && scan[i].Some? then AsNumber(scan[i].value) else None
    ensures Lookup(float, p, layout, i).Some? <==> Reached(p, layout, i) && Numeric(layout[i].ty)
  {
    ScanAt(float, p, layout, i);
    ExtentStep(layout, i);
  }

  /** Past a sized hole the two part: the scan reads on, the plugin has no field there. */
  lemma HoleDivides(float: Bytes -> real, p: Bytes, hole: Bytes, q: Bytes, layout: seq<Field>, f: Field, rest: seq<Field>)
    requires Sized(layout) && Extent(layout) == |p| && KnownCount(layout) == |layout|
    requires !Known(f.ty) && f.declared == Some(|hole|)
    ensures KnownCount(layout + [f] + rest) == |layout|
    ensures |Scan(float, p + hole + q, layout + [f] + rest, 0)| == |layout| + 1 + |Scan(float, q, rest, 0)|
  {
    HoleIsTransparent(float, p, hole, q, layout, f, rest);
    ScanConcat(float, p, [], layout, [], 0);
    var all := layout + [f] + rest;
    assert all[|layout|] == f;
    assert forall k | 0 <= k < |layout| :: all[k] == layout[k];
  }
}
