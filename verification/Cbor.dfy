/**
 The deterministic CBOR profile of clients/js/cbor.js: definite lengths,
 shortest-form heads, integer map keys in ascending order, binary32 floats.
 */
module Cbor {
  import opened Wire

  /** Text is carried as its UTF-8 bytes and a float as its four bytes. */
  datatype Value =
    | Int(i: int)
    | Bstr(bytes: Bytes)
    | Tstr(text: Bytes)
    | Arr(items: seq<Value>)
    | Map(entries: seq<Entry>)
    | F32(bits: Bytes)
    | Bool(flag: bool)
    | Null

  /** One map entry; a decoded map lists its entries in insertion order. */
  datatype Entry = Entry(key: Value, value: Value)

  datatype Error = OutOfBounds | TagForbidden | OutsideProfile | ReservedLength

  datatype Result<+T> = Ok(value: T) | Err(error: Error) {
    predicate IsFailure() { Err? }

    function PropagateFailure<U>(): Result<U>
      requires Err?
    {
      Err(error)
    }

    function Extract(): T
      requires Ok?
    {
      value
    }
  }

  /** Integers a JavaScript number carries exactly. */
  const SAFE: int := 0x20_0000_0000_0000

  /** The values the wire profile covers. */
  predicate Profile(v: Value)
    decreases v, 0
  {
    match v
    case Int(i) => -SAFE <= i < SAFE
    case Bstr(b) => |b| < SAFE
    case Tstr(b) => |b| < SAFE
    case Arr(items) => |items| < SAFE && ProfileItems(items)
    case Map(entries) => |entries| < SAFE && ProfileEntries(entries, -1)
    case F32(bits) => |bits| == 4
    case Bool(_) => true
    case Null => true
  }

  predicate ProfileItems(items: seq<Value>)
    decreases items, 1
  {
    items == [] || (Profile(items[0]) && ProfileItems(items[1..]))
  }

  /** Integer keys above `floor`, each greater than the one before it. */
  predicate ProfileEntries(entries: seq<Entry>, floor: int)
    decreases entries, 1
  {
    entries == [] || (
      && ProfileEntry(entries[0], floor)
      && ProfileEntries(entries[1..], entries[0].key.i)
    )
  }

  predicate ProfileEntry(e: Entry, floor: int)
    decreases e, 1
  {
    e.key.Int? && floor < e.key.i < SAFE && Profile(e.value)
  }

  // ---- encoding --------------------------------------------------------------

  /** Initial byte and argument, in the shortest form that holds the argument. */
  function Head(major: nat, v: nat): (h: Bytes)
    requires major < 8
    ensures |h| >= 1
  {
    if v <= 23 then [32 * major + v]
    else if v <= 0xff then [32 * major + 24] + BigEndian(v, 1)
    else if v <= 0xffff then [32 * major + 25] + BigEndian(v, 2)
    else if v <= 0xffff_ffff then [32 * major + 26] + BigEndian(v, 4)
    else [32 * major + 27] + BigEndian(v, 8)
  }

  function Encode(v: Value): (b: Bytes)
    ensures |b| >= 1
    decreases v, 0
  {
    match v
    case Int(i) => if i >= 0 then Head(0, i) else Head(1, -1 - i)
    case Bstr(b) => Head(2, |b|) + b
    case Tstr(b) => Head(3, |b|) + b
    case Arr(items) => Head(4, |items|) + EncodeItems(items)
    case Map(entries) => Head(5, |entries|) + EncodeEntries(entries)
    case F32(bits) => [0xfa] + bits
    case Bool(flag) => [if flag then 0xf5 else 0xf4]
    case Null => [0xf6]
  }

  function EncodeItems(items: seq<Value>): Bytes
    decreases items, 1
  {
    if items == [] then [] else Encode(items[0]) + EncodeItems(items[1..])
  }

  function EncodeEntries(entries: seq<Entry>): Bytes
    decreases entries, 1
  {
    if entries == [] then []
    else EncodeEntry(entries[0]) + EncodeEntries(entries[1..])
  }

  function EncodeEntry(e: Entry): Bytes
    decreases e, 1
  {
    Encode(e.key) + Encode(e.value)
  }

  function Concat(parts: seq<Bytes>): Bytes {
    if parts == [] then [] else parts[0] + Concat(parts[1..])
  }

  lemma {:induction false} ConcatSnoc(parts: seq<Bytes>, last: Bytes)
    ensures Concat(parts + [last]) == Concat(parts) + last
  {
    if parts == [] {
      assert parts + [last] == [last];
      assert Concat([last]) == last + Concat([last][1..]) == last;
    } else {
      assert (parts + [last])[1..] == parts[1..] + [last];
      ConcatSnoc(parts[1..], last);
    }
  }

  /** `concatBytes`: size one buffer for all the parts, then copy each in turn. */
  method ConcatBytes(parts: seq<Bytes>) returns (out: array<byte>)
    ensures fresh(out)
    ensures out[..] == Concat(parts)
  {
    var total := 0;
    for k := 0 to |parts|
      invariant total == |Concat(parts[..k])|
    {
      assert parts[..k + 1] == parts[..k] + [parts[k]];
      ConcatSnoc(parts[..k], parts[k]);
      total := total + |parts[k]|;
    }
    assert parts[..|parts|] == parts;
    out := new byte[total];
    var off := 0;
    for k := 0 to |parts|
      invariant off == |Concat(parts[..k])|
      invariant off + |Concat(parts[k..])| == total
      invariant out[..off] == Concat(parts[..k])
    {
      assert parts[..k + 1] == parts[..k] + [parts[k]];
      assert parts[k..][1..] == parts[k + 1..];
      ConcatSnoc(parts[..k], parts[k]);
      CopyIn(out, off, parts[k]);
      off := off + |parts[k]|;
    }
  }

  function ToEntries(pairs: seq<(nat, Value)>): (entries: seq<Entry>)
    ensures |entries| == |pairs|
    ensures forall k | 0 <= k < |pairs| :: entries[k] == Entry(Int(pairs[k].0), pairs[k].1)
  {
    seq(|pairs|, k requires 0 <= k < |pairs| => Entry(Int(pairs[k].0), pairs[k].1))
  }

  lemma {:induction false} EncodeEntriesSnoc(entries: seq<Entry>, e: Entry)
    ensures EncodeEntries(entries + [e]) == EncodeEntries(entries) + EncodeEntry(e)
  {
    if entries == [] {
      assert entries + [e] == [e] && [e][1..] == [];
      assert EncodeEntries([e]) == EncodeEntry(e) + EncodeEntries([]) == EncodeEntry(e);
    } else {
      assert (entries + [e])[1..] == entries[1..] + [e];
      EncodeEntriesSnoc(entries[1..], e);
    }
  }

  lemma MapEncoding(pairs: seq<(nat, Value)>)
    ensures Encode(Map(ToEntries(pairs))) == Head(5, |pairs|) + EncodeEntries(ToEntries(pairs))
  {
  }

  /** `cbMap`: refuse keys that do not strictly ascend, then lay out head, keys and values. */
  method CbMap(pairs: seq<(nat, Value)>) returns (r: Option<Bytes>)
    ensures r.Some? <==> forall j, k | 0 <= j < k < |pairs| :: pairs[j].0 < pairs[k].0
    ensures r.Some? ==> r.value == Encode(Map(ToEntries(pairs)))
  {
    var i := 1;
    while i < |pairs|
      invariant 1 <= i
      invariant forall j, k | 0 <= j < k < i && k < |pairs| :: pairs[j].0 < pairs[k].0
    {
      if pairs[i].0 <= pairs[i - 1].0 { return None; }
      i := i + 1;
    }
    r := LayOutMap(pairs);
  }

  lemma LayOutStart(head: Bytes, entries: seq<Entry>)
    ensures Concat([head]) == head + EncodeEntries(entries[..0])
  {
    ConcatSnoc([], head);
    assert [] + [head] == [head];
  }

  lemma LayOutNext(parts: seq<Bytes>, head: Bytes, entries: seq<Entry>, i: nat)
    requires i < |entries| && Concat(parts) == head + EncodeEntries(entries[..i])
    ensures Concat(parts + [Encode(entries[i].key)] + [Encode(entries[i].value)]) == head + EncodeEntries(entries[..i + 1])
  {
    hide Encode, EncodeEntries, Concat;
    var key, value := Encode(entries[i].key), Encode(entries[i].value);
    ConcatSnoc(parts, key);
    ConcatSnoc(parts + [key], value);
    EncodeEntriesSnoc(entries[..i], entries[i]);
    assert entries[..i + 1] == entries[..i] + [entries[i]];
  }

  method LayOutMap(pairs: seq<(nat, Value)>) returns (r: Option<Bytes>)
    ensures r == Some(Encode(Map(ToEntries(pairs))))
  {
    var entries := ToEntries(pairs);
    hide Encode, Head, EncodeEntries, Concat;
    var parts := [Head(5, |pairs|)];
    LayOutStart(parts[0], entries);
    for i := 0 to |pairs|
      invariant Concat(parts) == Head(5, |pairs|) + EncodeEntries(entries[..i])
    {
      var key, value := Encode(Int(pairs[i].0)), Encode(pairs[i].1);
      LayOutNext(parts, Head(5, |pairs|), entries, i);
      parts := parts + [key] + [value];
    }
    assert entries[..|pairs|] == entries;
    var out := ConcatBytes(parts);
    MapEncoding(pairs);
    return Some(out[..]);
  }

  // ---- decoding --------------------------------------------------------------

  /** Width of the argument that follows an initial byte with this additional info. */
  function ArgumentBytes(ai: nat): (n: nat)
    requires 24 <= ai <= 27
    ensures n <= 8
  {
    if ai == 24 then 1 else if ai == 25 then 2 else if ai == 26 then 4 else 8
  }

  datatype HeadInfo = HeadInfo(major: nat, arg: nat, next: nat)

  /** Read the head at `pos` of an item of major type 0 to 5. */
  function DecodeHead(buf: Bytes, pos: nat): (r: Result<HeadInfo>)
    ensures r.Ok? ==> pos < r.value.next <= |buf| && r.value.major == buf[pos] / 32
  {
    if pos >= |buf| then Err(OutOfBounds)
    else
      var ai := buf[pos] % 32;
      if ai <= 23 then Ok(HeadInfo(buf[pos] / 32, ai, pos + 1))
      else if ai > 27 then Err(ReservedLength)
      else
        var n := ArgumentBytes(ai);
        if pos + 1 + n > |buf| then Err(OutOfBounds)
        else Ok(HeadInfo(buf[pos] / 32, ReadBigEndian(buf[pos + 1..pos + 1 + n]), pos + 1 + n))
  }

  /** `Map.set`: an existing key keeps its place and takes the new value. */
  function MapSet(entries: seq<Entry>, key: Value, value: Value): (r: seq<Entry>)
  {
    if entries == [] then [Entry(key, value)]
    else if entries[0].key == key then [Entry(key, value)] + entries[1..]
    else [entries[0]] + MapSet(entries[1..], key, value)
  }

  function DecodeSimple(buf: Bytes, pos: nat): (r: Result<(Value, nat)>)
    requires pos < |buf|
    ensures r.Ok? ==> pos < r.value.1 <= |buf|
  {
    var ai := buf[pos] % 32;
    if ai == 20 then Ok((Bool(false), pos + 1))
    else if ai == 21 then Ok((Bool(true), pos + 1))
    else if ai == 22 then Ok((Null, pos + 1))
    else if ai != 26 then Err(OutsideProfile)
    else if pos + 5 > |buf| then Err(OutOfBounds)
    else Ok((F32(buf[pos + 1..pos + 5]), pos + 5))
  }

  /** The item at `pos` and the position after it. */
  function Decode(buf: Bytes, pos: nat): (r: Result<(Value, nat)>)
    ensures r.Ok? ==> pos < r.value.1 <= |buf|
    decreases |buf| - pos, 0, 0
  {
    if pos >= |buf| then Err(OutOfBounds)
    else if buf[pos] / 32 == 7 then DecodeSimple(buf, pos)
    else if buf[pos] / 32 == 6 then Err(TagForbidden)
    else
      var h :- DecodeHead(buf, pos);
      DecodeBody(buf, h)
  }

  /** What follows the head of an item of major type 0 to 5. */
  function DecodeBody(buf: Bytes, h: HeadInfo): (r: Result<(Value, nat)>)
    requires h.next <= |buf|
    ensures r.Ok? ==> h.next <= r.value.1 <= |buf|
    decreases |buf| - h.next, 2, 0
  {
    if h.major == 0 then Ok((Int(h.arg), h.next))
    else if h.major == 1 then Ok((Int(-1 - h.arg), h.next))
    else if h.major == 4 then
      var items :- DecodeItems(buf, h.next, h.arg, []);
      Ok((Arr(items.0), items.1))
    else if h.major == 5 then
      var entries :- DecodeEntries(buf, h.next, h.arg, []);
      Ok((Map(entries.0), entries.1))
    else if h.next + h.arg > |buf| then Err(OutOfBounds)
    else if h.major == 2 then Ok((Bstr(buf[h.next..h.next + h.arg]), h.next + h.arg))
    else Ok((Tstr(buf[h.next..h.next + h.arg]), h.next + h.arg))
  }

  /** `n` more items from `p`, appended to those already read. */
  function DecodeItems(buf: Bytes, p: nat, n: nat, done: seq<Value>): (r: Result<(seq<Value>, nat)>)
    ensures r.Ok? ==> p <= r.value.1 && (p <= |buf| ==> r.value.1 <= |buf|)
    decreases |buf| - p, 1, n
  {
    if n == 0 then Ok((done, p))
    else
      var item :- Decode(buf, p);
      DecodeItems(buf, item.1, n - 1, done + [item.0])
  }

  /** `n` more key-value pairs from `p`, set into the map read so far. */
  function DecodeEntries(buf: Bytes, p: nat, n: nat, done: seq<Entry>): (r: Result<(seq<Entry>, nat)>)
    ensures r.Ok? ==> p <= r.value.1 && (p <= |buf| ==> r.value.1 <= |buf|)
    decreases |buf| - p, 1, n
  {
    if n == 0 then Ok((done, p))
    else
      var key :- Decode(buf, p);
      var value :- Decode(buf, key.1);
      DecodeEntries(buf, value.1, n - 1, MapSet(done, key.0, value.0))
  }

  // ---- round trip --------------------------------------------------------------

  /** The item at `pos` is `v`, and it ends at `q`. */
  ghost predicate Reads(buf: Bytes, pos: nat, v: Value, q: nat) {
    Decode(buf, pos) == Ok((v, q))
  }

  ghost predicate ReadsItems(buf: Bytes, p: nat, n: nat, done: seq<Value>, all: seq<Value>, q: nat) {
    DecodeItems(buf, p, n, done) == Ok((all, q))
  }

  ghost predicate ReadsEntries(buf: Bytes, p: nat, n: nat, done: seq<Entry>, all: seq<Entry>, q: nat) {
    DecodeEntries(buf, p, n, done) == Ok((all, q))
  }

  lemma Pow256Values()
    ensures Pow256(1) == 0x100
    ensures Pow256(2) == 0x1_0000
    ensures Pow256(4) == 0x1_0000_0000
    ensures Pow256(8) == 0x1_0000_0000_0000_0000
  {
    assert Pow256(3) == 0x100_0000;
    assert Pow256(4) == 256 * Pow256(3);
    assert Pow256(5) == 256 * Pow256(4);
    assert Pow256(6) == 256 * Pow256(5);
    assert Pow256(7) == 256 * Pow256(6);
  }

  lemma WideHead(buf: Bytes, pos: nat, major: nat, ai: nat, v: nat)
    requires major < 8 && 24 <= ai <= 27 && v < Pow256(ArgumentBytes(ai))
    requires Holds(buf, pos, [32 * major + ai] + BigEndian(v, ArgumentBytes(ai)))
    ensures DecodeHead(buf, pos) == Ok(HeadInfo(major, v, pos + 1 + ArgumentBytes(ai)))
  {
    hide BigEndian, ReadBigEndian, Pow256;
    var n := ArgumentBytes(ai);
    HoldsParts(buf, pos, [32 * major + ai], BigEndian(v, n));
    assert buf[pos] == buf[pos..pos + 1][0];
    BigEndianRoundTrip(v, n);
  }

  lemma ShortHead(buf: Bytes, pos: nat, major: nat, v: nat)
    requires major < 8 && v <= 23 && Holds(buf, pos, [32 * major + v])
    ensures DecodeHead(buf, pos) == Ok(HeadInfo(major, v, pos + 1))
  {
    hide ReadBigEndian;
    assert buf[pos] == buf[pos..pos + 1][0];
  }

  /** The additional info of the head that carries an argument past 23. */
  function Info(v: nat): (ai: nat)
    ensures 24 <= ai <= 27
  {
    if v <= 0xff then 24 else if v <= 0xffff then 25 else if v <= 0xffff_ffff then 26 else 27
  }

  lemma HeadIs(major: nat, v: nat)
    requires major < 8 && v < 0x1_0000_0000_0000_0000
    ensures v <= 23 ==> Head(major, v) == [32 * major + v]
    ensures v > 23 ==> v < Pow256(ArgumentBytes(Info(v))) && Head(major, v) == [32 * major + Info(v)] + BigEndian(v, ArgumentBytes(Info(v)))
  {
    hide BigEndian, Pow256;
    Pow256Values();
  }

  lemma HeadRoundTrip(buf: Bytes, pos: nat, major: nat, v: nat)
    requires major < 8 && v < 0x1_0000_0000_0000_0000
    requires Holds(buf, pos, Head(major, v))
    ensures DecodeHead(buf, pos) == Ok(HeadInfo(major, v, pos + |Head(major, v)|))
  {
    hide DecodeHead, BigEndian, Holds, Pow256, Head, Info, ArgumentBytes;
    HeadIs(major, v);
    if v <= 23 {
      ShortHead(buf, pos, major, v);
    } else {
      WideHead(buf, pos, major, Info(v), v);
    }
  }

  /** Decoding an encoding finds the value again and stops exactly behind it. */
  lemma {:induction false} RoundTripAt(buf: Bytes, pos: nat, v: Value)
    requires Profile(v) && Holds(buf, pos, Encode(v))
    ensures Reads(buf, pos, v, pos + |Encode(v)|)
    decreases v, 2
  {
    hide Decode, Holds, Head, Reads;
    match v
    case Arr(items) => ArrayRoundTrip(buf, pos, items);
    case Map(entries) => MapRoundTrip(buf, pos, entries);
    case Int(i) => IntRoundTrip(buf, pos, i);
    case Bstr(b) => StringRoundTrip(buf, pos, 2, b);
    case Tstr(b) => StringRoundTrip(buf, pos, 3, b);
    case _ => SimpleRoundTrip(buf, pos, v);
  }

  lemma IntRoundTrip(buf: Bytes, pos: nat, i: int)
    requires -SAFE <= i < SAFE && Holds(buf, pos, Encode(Int(i)))
    ensures Reads(buf, pos, Int(i), pos + |Encode(Int(i))|)
  {
    HeadRoundTrip(buf, pos, if i >= 0 then 0 else 1, if i >= 0 then i else -1 - i);
  }

  lemma StringRoundTrip(buf: Bytes, pos: nat, major: nat, b: Bytes)
    requires 2 <= major <= 3 && |b| < SAFE && Holds(buf, pos, Head(major, |b|) + b)
    ensures Reads(buf, pos, if major == 2 then Bstr(b) else Tstr(b), pos + |Head(major, |b|) + b|)
  {
    hide Decode, Head, DecodeHead;
    SafeIsSmall(|b|);
    HoldsParts(buf, pos, Head(major, |b|), b);
    HeadRoundTrip(buf, pos, major, |b|);
    ReadsString(buf, pos, major, b, pos + |Head(major, |b|)|);
  }

  lemma ReadsString(buf: Bytes, pos: nat, major: nat, b: Bytes, p: nat)
    requires 2 <= major <= 3 && DecodeHead(buf, pos) == Ok(HeadInfo(major, |b|, p)) && Holds(buf, p, b)
    ensures Reads(buf, pos, if major == 2 then Bstr(b) else Tstr(b), p + |b|)
  {
  }

  lemma SimpleRoundTrip(buf: Bytes, pos: nat, v: Value)
    requires v.F32? || v.Bool? || v.Null?
    requires Profile(v) && Holds(buf, pos, Encode(v))
    ensures Reads(buf, pos, v, pos + |Encode(v)|)
  {
    assert buf[pos] == buf[pos..pos + |Encode(v)|][0] == Encode(v)[0];
    if v.F32? {
      HoldsParts(buf, pos, [0xfa], v.bits);
    }
  }

  lemma {:induction false} ArrayRoundTrip(buf: Bytes, pos: nat, items: seq<Value>)
    requires |items| < SAFE && ProfileItems(items)
    requires Holds(buf, pos, Head(4, |items|) + EncodeItems(items))
    ensures Reads(buf, pos, Arr(items), pos + |Head(4, |items|) + EncodeItems(items)|)
    decreases items, 2
  {
    hide *;
    SafeIsSmall(|items|);
    HoldsParts(buf, pos, Head(4, |items|), EncodeItems(items));
    HeadRoundTrip(buf, pos, 4, |items|);
    var p := pos + |Head(4, |items|)|;
    ItemsRoundTrip(buf, p, items, []);
    FromNothing(items);
    ReadsArray(buf, pos, |items|, p, items, p + |EncodeItems(items)|);
  }

  lemma SafeIsSmall(n: nat)
    requires n < SAFE
    ensures n < 0x1_0000_0000_0000_0000
  {
  }

  lemma NoKeys()
    ensures KeysUpTo([], -1)
  {
  }

  lemma ReadsArray(buf: Bytes, pos: nat, n: nat, p: nat, items: seq<Value>, q: nat)
    requires DecodeHead(buf, pos) == Ok(HeadInfo(4, n, p)) && ReadsItems(buf, p, n, [], items, q)
    ensures Reads(buf, pos, Arr(items), q)
  {
  }

  lemma {:induction false} ItemsRoundTrip(buf: Bytes, p: nat, items: seq<Value>, done: seq<Value>)
    requires ProfileItems(items)
    requires Holds(buf, p, EncodeItems(items))
    ensures ReadsItems(buf, p, |items|, done, done + items, p + |EncodeItems(items)|)
    decreases items, 1
  {
    hide *;
    if items == [] {
      NothingEncodes();
      ReadsNoItem(buf, p, done);
    } else {
      var x, rest := items[0], items[1..];
      FirstItem(items);
      HoldsParts(buf, p, Encode(x), EncodeItems(rest));
      RoundTripAt(buf, p, x);
      var q := p + |Encode(x)|;
      ItemsRoundTrip(buf, q, rest, done + [x]);
      MoveFirst(done, items);
      ReadsOneItem(buf, p, |items|, done, x, q, done + items, q + |EncodeItems(rest)|);
    }
  }

  lemma NothingEncodes()
    ensures EncodeItems([]) == [] && EncodeEntries([]) == []
  {
  }

  lemma FirstItem(items: seq<Value>)
    requires items != [] && ProfileItems(items)
    ensures EncodeItems(items) == Encode(items[0]) + EncodeItems(items[1..])
    ensures Profile(items[0]) && ProfileItems(items[1..])
  {
    hide Encode, Profile;
  }

  lemma ReadsOneItem(buf: Bytes, p: nat, n: nat, done: seq<Value>, x: Value, q: nat, all: seq<Value>, end: nat)
    requires n > 0 && Reads(buf, p, x, q) && ReadsItems(buf, q, n - 1, done + [x], all, end)
    ensures ReadsItems(buf, p, n, done, all, end)
  {
    hide Decode;
  }

  lemma {:induction false} MapRoundTrip(buf: Bytes, pos: nat, entries: seq<Entry>)
    requires |entries| < SAFE && ProfileEntries(entries, -1)
    requires Holds(buf, pos, Head(5, |entries|) + EncodeEntries(entries))
    ensures Reads(buf, pos, Map(entries), pos + |Head(5, |entries|) + EncodeEntries(entries)|)
    decreases entries, 2
  {
    hide *;
    SafeIsSmall(|entries|);
    NoKeys();
    HoldsParts(buf, pos, Head(5, |entries|), EncodeEntries(entries));
    HeadRoundTrip(buf, pos, 5, |entries|);
    var p := pos + |Head(5, |entries|)|;
    EntriesRoundTrip(buf, p, entries, -1, []);
    FromNothing(entries);
    ReadsMap(buf, pos, |entries|, p, entries, p + |EncodeEntries(entries)|);
  }

  lemma ReadsMap(buf: Bytes, pos: nat, n: nat, p: nat, entries: seq<Entry>, q: nat)
    requires DecodeHead(buf, pos) == Ok(HeadInfo(5, n, p)) && ReadsEntries(buf, p, n, [], entries, q)
    ensures Reads(buf, pos, Map(entries), q)
  {
  }

  lemma FromNothing<T>(all: seq<T>)
    ensures [] + all == all
  {
  }

  lemma ReadsNoItem(buf: Bytes, p: nat, done: seq<Value>)
    ensures ReadsItems(buf, p, 0, done, done + [], p)
  {
    assert done + [] == done;
  }

  lemma ReadsNoEntry(buf: Bytes, p: nat, done: seq<Entry>)
    ensures ReadsEntries(buf, p, 0, done, done + [], p)
  {
    assert done + [] == done;
  }

  lemma MoveFirst<T>(done: seq<T>, rest: seq<T>)
    requires rest != []
    ensures done + [rest[0]] + rest[1..] == done + rest
  {
  }

  ghost predicate KeysUpTo(entries: seq<Entry>, bound: int) {
    forall e | e in entries :: e.key.Int? && e.key.i <= bound
  }

  lemma {:induction false} MapSetAppends(entries: seq<Entry>, key: Value, value: Value)
    requires forall e | e in entries :: e.key != key
    ensures MapSet(entries, key, value) == entries + [Entry(key, value)]
  {
    if entries != [] {
      MapSetAppends(entries[1..], key, value);
    }
  }

  lemma MapSetAbove(entries: seq<Entry>, e: Entry, bound: int)
    requires KeysUpTo(entries, bound) && e.key.Int? && bound < e.key.i
    ensures MapSet(entries, e.key, e.value) == entries + [e]
    ensures KeysUpTo(entries + [e], e.key.i)
  {
    MapSetAppends(entries, e.key, e.value);
  }

  lemma {:induction false} EntriesRoundTrip(buf: Bytes, p: nat, entries: seq<Entry>, floor: int, done: seq<Entry>)
    requires floor >= -1 && ProfileEntries(entries, floor) && KeysUpTo(done, floor)
    requires Holds(buf, p, EncodeEntries(entries))
    ensures ReadsEntries(buf, p, |entries|, done, done + entries, p + |EncodeEntries(entries)|)
    decreases entries, 1
  {
    hide *;
    if entries == [] {
      NothingEncodes();
      ReadsNoEntry(buf, p, done);
    } else {
      var e, rest := entries[0], entries[1..];
      FirstEntry(entries, floor);
      HoldsParts(buf, p, EncodeEntry(e), EncodeEntries(rest));
      EntryRoundTrip(buf, p, e);
      MapSetAbove(done, e, floor);
      var q := p + |EncodeEntry(e)|;
      EntriesRoundTrip(buf, q, rest, e.key.i, done + [e]);
      MoveFirst(done, entries);
      ReadsOneEntry(buf, p, |entries|, done, e, p + |Encode(e.key)|, q, done + entries, q + |EncodeEntries(rest)|);
    }
  }

  lemma FirstEntry(entries: seq<Entry>, floor: int)
    requires entries != [] && floor >= -1 && ProfileEntries(entries, floor)
    ensures EncodeEntries(entries) == EncodeEntry(entries[0]) + EncodeEntries(entries[1..])
    ensures ProfileEntry(entries[0], -1) && entries[0].key.Int? && floor < entries[0].key.i
    ensures ProfileEntries(entries[1..], entries[0].key.i)
  {
    hide EncodeEntry, Profile;
  }

  lemma {:induction false} EntryRoundTrip(buf: Bytes, p: nat, e: Entry)
    requires ProfileEntry(e, -1)
    requires Holds(buf, p, EncodeEntry(e))
    ensures Reads(buf, p, e.key, p + |Encode(e.key)|)
    ensures Reads(buf, p + |Encode(e.key)|, e.value, p + |EncodeEntry(e)|)
    decreases e, 1
  {
    hide Encode, Decode, Holds, Reads;
    HoldsParts(buf, p, Encode(e.key), Encode(e.value));
    RoundTripAt(buf, p, e.key);
    RoundTripAt(buf, p + |Encode(e.key)|, e.value);
  }

  lemma ReadsOneEntry(buf: Bytes, p: nat, n: nat, done: seq<Entry>, e: Entry, mid: nat, q: nat,
                      all: seq<Entry>, end: nat)
    requires n > 0 && Reads(buf, p, e.key, mid) && Reads(buf, mid, e.value, q)
    requires ReadsEntries(buf, q, n - 1, MapSet(done, e.key, e.value), all, end)
    ensures ReadsEntries(buf, p, n, done, all, end)
  {
    hide Decode, MapSet;
  }

  /** The round trip inside any message: what precedes and follows does not matter. */
  lemma RoundTrip(before: Bytes, v: Value, after: Bytes)
    requires Profile(v)
    ensures Decode(before + Encode(v) + after, |before|) == Ok((v, |before| + |Encode(v)|))
  {
    hide Encode, Decode, Profile;
    var buf := before + Encode(v) + after;
    assert buf[|before|..|before| + |Encode(v)|] == Encode(v);
    RoundTripAt(buf, |before|, v);
  }

  /** No encoding is a proper prefix of another, and distinct values encode apart. */
  lemma PrefixFree(v: Value, w: Value)
    requires Profile(v) && Profile(w)
    requires Encode(v) <= Encode(w)
    ensures v == w
  {
    hide Encode, Decode, Profile;
    RoundTrip([], v, Encode(w)[|Encode(v)|..]);
    RoundTrip([], w, []);
    PrefixSplit(Encode(v), Encode(w));
  }

  lemma PrefixSplit(a: Bytes, b: Bytes)
    requires a <= b
    ensures [] + a + b[|a|..] == b && [] + b + [] == b
  {
  }

  // ---- examples of the standard ----------------------------------------------------

  /** Integers of Appendix A of RFC 8949. */
  lemma StandardIntegers()
    ensures Encode(Int(0)) == [0x00] && Encode(Int(23)) == [0x17] && Encode(Int(24)) == [0x18, 0x18]
    ensures Encode(Int(1000)) == [0x19, 0x03, 0xe8] && Encode(Int(1000000)) == [0x1a, 0x00, 0x0f, 0x42, 0x40]
    ensures Encode(Int(-1)) == [0x20] && Encode(Int(-100)) == [0x38, 0x63]
  {
    hide BigEndian;
    BigEndianOne(24);
    BigEndianOne(99);
    BigEndianTwo(1000);
    BigEndianFour(1000000);
  }

  lemma StandardLong()
    ensures Encode(Int(1000000000000)) == [0x1b, 0x00, 0x00, 0x00, 0xe8, 0xd4, 0xa5, 0x10, 0x00]
  {
    hide BigEndian;
    BigEndianEight(1000000000000);
    BigEndianFour(1000000000000);
  }

  lemma BigEndianOne(v: nat)
    ensures BigEndian(v, 1) == [v % 256]
  {
    assert BigEndian(v / 256, 0) == [];
  }

  lemma BigEndianTwo(v: nat)
    ensures BigEndian(v, 2) == [v / 256 % 256, v % 256]
  {
    BigEndianOne(v / 256);
  }

  lemma BigEndianFour(v: nat)
    ensures BigEndian(v, 4) == [v / 256 / 256 / 256 % 256, v / 256 / 256 % 256, v / 256 % 256, v % 256]
  {
    BigEndianTwo(v / 256 / 256);
    assert BigEndian(v / 256, 3) == BigEndian(v / 256 / 256, 2) + [v / 256 % 256];
  }

  lemma BigEndianEight(v: nat)
    ensures BigEndian(v, 8) == BigEndian(v / 256 / 256 / 256 / 256, 4) + BigEndian(v, 4)
    ensures var w := v / 256 / 256 / 256 / 256;
            BigEndian(w, 4) == [w / 256 / 256 / 256 % 256, w / 256 / 256 % 256, w / 256 % 256, w % 256]
  {
    BigEndianFour(v);
    BigEndianFour(v / 256 / 256 / 256 / 256);
    var a, b, c := v / 256, v / 256 / 256, v / 256 / 256 / 256;
    assert BigEndian(v, 8) == BigEndian(a, 7) + [v % 256];
    assert BigEndian(a, 7) == BigEndian(b, 6) + [a % 256];
    assert BigEndian(b, 6) == BigEndian(c, 5) + [b % 256];
    assert BigEndian(c, 5) == BigEndian(c / 256, 4) + [c % 256];
  }

  /** Strings, arrays, maps, floats and simple values of the same appendix. */
  lemma StandardItems()
    ensures Encode(Bstr([1, 2, 3, 4])) == [0x44, 0x01, 0x02, 0x03, 0x04]
    ensures Encode(Tstr([0x49, 0x45, 0x54, 0x46])) == [0x64, 0x49, 0x45, 0x54, 0x46]
    ensures Encode(Arr([Int(1), Int(2)])) == [0x82, 0x01, 0x02]
    ensures Encode(Map([Entry(Int(1), Int(2))])) == [0xa1, 0x01, 0x02]
    ensures Encode(F32([0x47, 0xc3, 0x50, 0x00])) == [0xfa, 0x47, 0xc3, 0x50, 0x00]
    ensures Encode(Bool(false)) == [0xf4] && Encode(Bool(true)) == [0xf5] && Encode(Null) == [0xf6]
  {
    assert [Int(1), Int(2)][1..] == [Int(2)] && [Int(2)][1..] == [];
    assert EncodeItems([Int(2)]) == [2];
    assert EncodeItems([Int(1), Int(2)]) == [1, 2];
    assert [Entry(Int(1), Int(2))][1..] == [];
    assert EncodeEntries([Entry(Int(1), Int(2))]) == [1, 2];
  }

  // ---- the encoder's bytes are the fewest the decoder would accept -------------

  lemma HeadShortest(buf: Bytes, pos: nat)
    requires DecodeHead(buf, pos).Ok?
    ensures |Head(buf[pos] / 32, DecodeHead(buf, pos).value.arg)| <= DecodeHead(buf, pos).value.next - pos
  {
    Pow256Values();
  }

  lemma {:induction false} MapSetSize(entries: seq<Entry>, key: Value, value: Value)
    ensures |MapSet(entries, key, value)| <= |entries| + 1
    ensures |EncodeEntries(MapSet(entries, key, value))|
         <= |EncodeEntries(entries)| + |Encode(key)| + |Encode(value)|
  {
    var r := MapSet(entries, key, value);
    if entries == [] {
      assert r[1..] == [];
    } else if entries[0].key == key {
      assert r[1..] == entries[1..];
    } else {
      MapSetSize(entries[1..], key, value);
      assert r[1..] == MapSet(entries[1..], key, value);
    }
  }

  lemma {:induction false} EncodeItemsSnoc(items: seq<Value>, x: Value)
    ensures EncodeItems(items + [x]) == EncodeItems(items) + Encode(x)
  {
    if items == [] {
      assert items + [x] == [x] && [x][1..] == [];
      assert EncodeItems([x]) == Encode(x) + EncodeItems([]) == Encode(x);
    } else {
      assert (items + [x])[1..] == items[1..] + [x];
      EncodeItemsSnoc(items[1..], x);
    }
  }

  lemma HeadMonotone(major: nat, a: nat, b: nat)
    requires major < 8 && a <= b
    ensures |Head(major, a)| <= |Head(major, b)|
  {
  }

  /** Whatever bytes the decoder reads a value from, the encoder needs no more of them. */
  lemma {:induction false} EncodingShortest(buf: Bytes, pos: nat)
    requires Decode(buf, pos).Ok?
    ensures |Encode(Decode(buf, pos).value.0)| <= Decode(buf, pos).value.1 - pos
    decreases |buf| - pos, 0, 0
  {
    hide Encode, DecodeHead, DecodeBody, DecodeSimple, Head;
    if buf[pos] / 32 < 6 {
      HeadShortest(buf, pos);
      BodyShortest(buf, DecodeHead(buf, pos).value);
    } else {
      SimpleShortest(buf, pos);
    }
  }

  lemma SimpleShortest(buf: Bytes, pos: nat)
    requires pos < |buf| && DecodeSimple(buf, pos).Ok?
    ensures |Encode(DecodeSimple(buf, pos).value.0)| <= DecodeSimple(buf, pos).value.1 - pos
  {
  }

  lemma {:induction false} BodyShortest(buf: Bytes, h: HeadInfo)
    requires h.next <= |buf| && h.major < 6 && DecodeBody(buf, h).Ok?
    ensures |Encode(DecodeBody(buf, h).value.0)| <= |Head(h.major, h.arg)| + DecodeBody(buf, h).value.1 - h.next
    decreases |buf| - h.next, 2, 1
  {
    hide Head;
    if h.major == 4 {
      ArrayShortest(buf, h);
    } else if h.major == 5 {
      MapShortest(buf, h);
    }
  }

  lemma {:induction false} ArrayShortest(buf: Bytes, h: HeadInfo)
    requires h.next <= |buf| && h.major == 4 && DecodeBody(buf, h).Ok?
    ensures |Encode(DecodeBody(buf, h).value.0)| <= |Head(4, h.arg)| + DecodeBody(buf, h).value.1 - h.next
    decreases |buf| - h.next, 2, 0
  {
    ItemsShortest(buf, h.next, h.arg, []);
  }

  lemma {:induction false} MapShortest(buf: Bytes, h: HeadInfo)
    requires h.next <= |buf| && h.major == 5 && DecodeBody(buf, h).Ok?
    ensures |Encode(DecodeBody(buf, h).value.0)| <= |Head(5, h.arg)| + DecodeBody(buf, h).value.1 - h.next
    decreases |buf| - h.next, 2, 0
  {
    EntriesShortest(buf, h.next, h.arg, []);
    HeadMonotone(5, |DecodeEntries(buf, h.next, h.arg, []).value.0|, h.arg);
  }

  lemma {:induction false} ItemsShortest(buf: Bytes, p: nat, n: nat, done: seq<Value>)
    requires DecodeItems(buf, p, n, done).Ok?
    ensures var (items, q) := DecodeItems(buf, p, n, done).value;
            |items| == |done| + n && |EncodeItems(items)| <= |EncodeItems(done)| + q - p
    decreases |buf| - p, 1, n
  {
    if n > 0 {
      var (x, q) := Decode(buf, p).value;
      EncodingShortest(buf, p);
      EncodeItemsSnoc(done, x);
      ItemsShortest(buf, q, n - 1, done + [x]);
    }
  }

  lemma {:induction false} EntriesShortest(buf: Bytes, p: nat, n: nat, done: seq<Entry>)
    requires DecodeEntries(buf, p, n, done).Ok?
    ensures var (entries, q) := DecodeEntries(buf, p, n, done).value;
            |entries| <= |done| + n && |EncodeEntries(entries)| <= |EncodeEntries(done)| + q - p
    decreases |buf| - p, 1, n
  {
    hide Decode, Encode, EncodeEntries, MapSet;
    if n > 0 {
      var (key, q) := Decode(buf, p).value;
      var (value, q') := Decode(buf, q).value;
      EncodingShortest(buf, p);
      EncodingShortest(buf, q);
      MapSetSize(done, key, value);
      EntriesShortest(buf, q', n - 1, MapSet(done, key, value));
    }
  }
}
