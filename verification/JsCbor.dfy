/**
 The decoder of clients/js/cbor.js as JavaScript runs it. A byte past the end is
 `undefined`, which shifts and masks to 0 and makes sums NaN, so the decoder goes
 on where `Cbor.Decode` gives up.
 */
module JsCbor {
  import opened Wire
  import opened Cbor

  /**
   What the buffer does not say: the bytes that follow it in the memory it is a
   view of, which only a float is read from, and how `undefined` and NaN appear
   as values. Every result holds for any of them.
   */
  datatype Js = Js(behind: Bytes, undef: Value, nan: Value)

  /** A position; `None` is NaN. */
  type Pos = Option<nat>

  function Sum(p: nat, n: Option<nat>): Pos { if n.Some? then Some(p + n.value) else None }

  /** What is still to be read, as far as it is in the buffer. */
  function Left(buf: Bytes, pos: Pos): nat {
    if pos.Some? && pos.value < |buf| then |buf| - pos.value else 0
  }

  predicate Within(buf: Bytes, pos: Pos) { pos.Some? && pos.value <= |buf| }

  /** Reading never comes back: not from NaN and not from a later position. */
  predicate NotBefore(p: Pos, q: Pos) { q.None? || (p.Some? && p.value <= q.value) }

  predicate After(p: Pos, q: Pos) { q.None? || (p.Some? && p.value < q.value) }

  function OrZero(buf: Bytes, i: nat): byte { if i < |buf| then buf[i] else 0 }

  /** The argument behind an initial byte; `None` where it comes out `undefined` or NaN. */
  function Argument(buf: Bytes, pos: nat, ai: nat): Option<nat>
    requires pos < |buf| && ai <= 27
  {
    if ai <= 23 then Some(ai)
    else if ai == 25 then Some(256 * OrZero(buf, pos + 1) + OrZero(buf, pos + 2))
    else
      var n := ArgumentBytes(ai);
      if pos + 1 + n <= |buf| then Some(ReadBigEndian(buf[pos + 1..pos + 1 + n])) else None
  }

  function AfterHead(pos: nat, ai: nat): (next: nat)
    requires ai <= 27
    ensures pos < next
  {
    if ai <= 23 then pos + 1 else pos + 1 + ArgumentBytes(ai)
  }

  /** `slice` and `subarray`: cut to the buffer, and empty up to NaN. */
  function Slice(buf: Bytes, p: nat, n: Option<nat>): Bytes {
    if n.None? || p > |buf| then [] else if p + n.value <= |buf| then buf[p..p + n.value] else buf[p..]
  }

  function Number(js: Js, ai: nat, arg: Option<nat>): Value {
    if arg.Some? then Int(arg.value) else if ai == 24 then js.undef else js.nan
  }

  function Negative(js: Js, arg: Option<nat>): Value { if arg.Some? then Int(-1 - arg.value) else js.nan }

  function ReadSimple(js: Js, buf: Bytes, pos: nat): (r: Result<(Value, Pos)>)
    requires pos < |buf|
    ensures r.Ok? ==> r.value.1.Some? && pos < r.value.1.value
  {
    var ai := buf[pos] % 32;
    if ai == 20 then Ok((Bool(false), Some(pos + 1)))
    else if ai == 21 then Ok((Bool(true), Some(pos + 1)))
    else if ai == 22 then Ok((Null, Some(pos + 1)))
    else if ai != 26 then Err(OutsideProfile)
    else if pos + 5 > |buf + js.behind| then Err(OutOfBounds)
    else Ok((F32((buf + js.behind)[pos + 1..pos + 5]), Some(pos + 5)))
  }

  /** `cbDecode`. */
  function Read(js: Js, buf: Bytes, pos: Pos): (r: Result<(Value, Pos)>)
    ensures r.Ok? ==> After(pos, r.value.1)
    decreases Left(buf, pos), 0, 0
  {
    if pos.None? then Ok((Int(0), None))
    else if pos.value >= |buf| then Ok((Int(0), Some(pos.value + 1)))
    else if buf[pos.value] / 32 == 7 then ReadSimple(js, buf, pos.value)
    else if buf[pos.value] / 32 == 6 then Err(TagForbidden)
    else if buf[pos.value] % 32 > 27 then Err(ReservedLength)
    else
      var ai := buf[pos.value] % 32;
      ReadBody(js, buf, buf[pos.value] / 32, ai, Argument(buf, pos.value, ai), AfterHead(pos.value, ai))
  }

  function ReadBody(js: Js, buf: Bytes, major: nat, ai: nat, arg: Option<nat>, p: nat): (r: Result<(Value, Pos)>)
    ensures r.Ok? ==> NotBefore(Some(p), r.value.1)
    decreases Left(buf, Some(p)), 2, 0
  {
    if major == 0 then Ok((Number(js, ai, arg), Some(p)))
    else if major == 1 then Ok((Negative(js, arg), Some(p)))
    else if major == 2 then Ok((Bstr(Slice(buf, p, arg)), Sum(p, arg)))
    else if major == 3 then Ok((Tstr(Slice(buf, p, arg)), Sum(p, arg)))
    else if major == 4 then
      var items :- ReadItems(js, buf, Some(p), Times(arg), []);
      Ok((Arr(items.0), items.1))
    else
      var entries :- ReadEntries(js, buf, Some(p), Times(arg), []);
      Ok((Map(entries.0), entries.1))
  }

  /** How often a loop up to `arg` runs. */
  function Times(arg: Option<nat>): nat { if arg.Some? then arg.value else 0 }

  function ReadItems(js: Js, buf: Bytes, p: Pos, n: nat, done: seq<Value>): (r: Result<(seq<Value>, Pos)>)
    ensures r.Ok? ==> NotBefore(p, r.value.1)
    decreases Left(buf, p), 1, n
  {
    if n == 0 then Ok((done, p))
    else
      var item :- Read(js, buf, p);
      ReadItems(js, buf, item.1, n - 1, done + [item.0])
  }

  function ReadEntries(js: Js, buf: Bytes, p: Pos, n: nat, done: seq<Entry>): (r: Result<(seq<Entry>, Pos)>)
    ensures r.Ok? ==> NotBefore(p, r.value.1)
    decreases Left(buf, p), 1, n
  {
    if n == 0 then Ok((done, p))
    else
      var key :- Read(js, buf, p);
      var value :- Read(js, buf, key.1);
      ReadEntries(js, buf, value.1, n - 1, MapSet(done, key.0, value.0))
  }

  // ---- the decoder itself -----------------------------------------------------------------------

  method CbDecode(js: Js, buf: Bytes, pos: Pos) returns (r: Result<(Value, Pos)>)
    ensures r == Read(js, buf, pos)
    decreases Left(buf, pos), 0
  {
    if pos.None? { return Ok((Int(0), None)); }
    if pos.value >= |buf| { return Ok((Int(0), Some(pos.value + 1))); }
    var major, ai := buf[pos.value] / 32, buf[pos.value] % 32;
    if major == 7 { return ReadSimple(js, buf, pos.value); }
    if major == 6 { return Err(TagForbidden); }
    if ai > 27 { return Err(ReservedLength); }
    var val := ReadArgument(buf, pos.value, ai);
    var p := AfterHead(pos.value, ai);
    if major == 0 { return Ok((Number(js, ai, val), Some(p))); }
    if major == 1 { return Ok((Negative(js, val), Some(p))); }
    if major == 2 { return Ok((Bstr(Slice(buf, p, val)), Sum(p, val))); }
    if major == 3 { return Ok((Tstr(Slice(buf, p, val)), Sum(p, val))); }
    if major == 4 {
      var items := DecodeArray(js, buf, Some(p), Times(val));
      return if items.Err? then Err(items.error) else Ok((Arr(items.value.0), items.value.1));
    }
    var entries := DecodeMap(js, buf, Some(p), Times(val));
    return if entries.Err? then Err(entries.error) else Ok((Map(entries.value.0), entries.value.1));
  }

  method ReadArgument(buf: Bytes, pos: nat, ai: nat) returns (val: Option<nat>)
    requires pos < |buf| && ai <= 27
    ensures val == Argument(buf, pos, ai)
  {
    if ai <= 23 { return Some(ai); }
    if ai == 25 { return Some(256 * OrZero(buf, pos + 1) + OrZero(buf, pos + 2)); }
    var n := ArgumentBytes(ai);
    if pos + 1 + n > |buf| { return None; }
    var sum: nat := 0;
    for i := 0 to n
      invariant sum == ReadBigEndian(buf[pos + 1..pos + 1 + i])
    {
      assert buf[pos + 1..pos + 1 + i + 1][..i] == buf[pos + 1..pos + 1 + i];
      sum := sum * 256 + buf[pos + 1 + i];
    }
    return Some(sum);
  }

  method DecodeArray(js: Js, buf: Bytes, p: Pos, n: nat) returns (r: Result<(seq<Value>, Pos)>)
    ensures r == ReadItems(js, buf, p, n, [])
    decreases Left(buf, p), 1
  {
    hide Read;
    var arr: seq<Value>, q := [], p;
    for i := 0 to n
      invariant Left(buf, q) <= Left(buf, p)
      invariant ReadItems(js, buf, p, n, []) == ReadItems(js, buf, q, n - i, arr)
    {
      var item := CbDecode(js, buf, q);
      if item.Err? { return Err(item.error); }
      arr, q := arr + [item.value.0], item.value.1;
    }
    return Ok((arr, q));
  }

  method DecodeMap(js: Js, buf: Bytes, p: Pos, n: nat) returns (r: Result<(seq<Entry>, Pos)>)
    ensures r == ReadEntries(js, buf, p, n, [])
    decreases Left(buf, p), 1
  {
    hide Read, MapSet;
    var m: seq<Entry>, q := [], p;
    for i := 0 to n
      invariant Left(buf, q) <= Left(buf, p)
      invariant ReadEntries(js, buf, p, n, []) == ReadEntries(js, buf, q, n - i, m)
    {
      var key := CbDecode(js, buf, q);
      if key.Err? { return Err(key.error); }
      var value := CbDecode(js, buf, key.value.1);
      if value.Err? { return Err(value.error); }
      m, q := MapSet(m, key.value.0, value.value.0), value.value.1;
    }
    return Ok((m, q));
  }

  // ---- past the end ---------------------------------------------------------------------------

  /** Once past the end the loops read zeros, and are never refused. */
  lemma {:induction false} ItemsPast(js: Js, buf: Bytes, p: Pos, n: nat, done: seq<Value>)
    requires !Within(buf, p)
    ensures ReadItems(js, buf, p, n, done).Ok? && !Within(buf, ReadItems(js, buf, p, n, done).value.1)
    decreases n
  {
    if n > 0 { ItemsPast(js, buf, Read(js, buf, p).value.1, n - 1, done + [Int(0)]); }
  }

  lemma {:induction false} EntriesPast(js: Js, buf: Bytes, p: Pos, n: nat, done: seq<Entry>)
    requires !Within(buf, p)
    ensures ReadEntries(js, buf, p, n, done).Ok? && !Within(buf, ReadEntries(js, buf, p, n, done).value.1)
    decreases n
  {
    hide MapSet;
    if n > 0 {
      var q := Read(js, buf, p).value.1;
      EntriesPast(js, buf, Read(js, buf, q).value.1, n - 1, MapSet(done, Int(0), Int(0)));
    }
  }

  lemma BodyPast(js: Js, buf: Bytes, major: nat, ai: nat, arg: Option<nat>, p: nat)
    requires p > |buf|
    ensures var r := ReadBody(js, buf, major, ai, arg, p); r.Ok? && !Within(buf, r.value.1)
  {
    hide ReadItems, ReadEntries;
    ItemsPast(js, buf, Some(p), Times(arg), []);
    EntriesPast(js, buf, Some(p), Times(arg), []);
  }

  // ---- against the strict decoder ---------------------------------------------------------------

  /**
   The same value at the same position, or the same refusal; only where the strict
   decoder misses bytes may the browser's return something, and it then says that
   it ended outside the buffer. It misses them too when a float has nothing behind it.
   */
  predicate Agrees<T(==)>(js: Js, buf: Bytes, strict: Result<(T, nat)>, r: Result<(T, Pos)>) {
    match strict
    case Ok(x) => r == Ok((x.0, Some(x.1)))
    case Err(OutOfBounds) => if r.Ok? then !Within(buf, r.value.1) else r.error == OutOfBounds && |js.behind| < 4
    case Err(e) => r == Err(e)
  }

  lemma HeadAgrees(buf: Bytes, pos: nat)
    requires pos < |buf| && buf[pos] % 32 <= 27
    ensures var ai := buf[pos] % 32;
            var arg, next := Argument(buf, pos, ai), AfterHead(pos, ai);
            if next <= |buf| then arg.Some? && DecodeHead(buf, pos) == Ok(HeadInfo(buf[pos] / 32, arg.value, next))
            else DecodeHead(buf, pos) == Err(OutOfBounds)
  {
    if buf[pos] % 32 == 25 && pos + 3 <= |buf| {
      var two := buf[pos + 1..pos + 3];
      assert two[..1] == [two[0]];
      assert ReadBigEndian(two[..1]) == two[0];
    }
  }

  lemma SimpleAgrees(js: Js, buf: Bytes, pos: nat)
    requires pos < |buf|
    ensures Agrees(js, buf, DecodeSimple(buf, pos), ReadSimple(js, buf, pos))
  {
    if pos + 5 <= |buf| { assert (buf + js.behind)[pos + 1..pos + 5] == buf[pos + 1..pos + 5]; }
  }

  lemma {:induction false} ReadAgrees(js: Js, buf: Bytes, pos: nat)
    ensures Agrees(js, buf, Decode(buf, pos), Read(js, buf, Some(pos)))
    decreases |buf| - pos, 0, 0
  {
    hide DecodeHead, DecodeBody, DecodeSimple, ReadSimple, ReadBody, Argument, AfterHead;
    if pos < |buf| {
      var ai := buf[pos] % 32;
      if buf[pos] / 32 == 7 {
        SimpleAgrees(js, buf, pos);
      } else if buf[pos] / 32 < 6 && ai <= 27 {
        var arg, next := Argument(buf, pos, ai), AfterHead(pos, ai);
        HeadAgrees(buf, pos);
        if next <= |buf| {
          BodyAgrees(js, buf, HeadInfo(buf[pos] / 32, arg.value, next), ai);
        } else {
          BodyPast(js, buf, buf[pos] / 32, ai, arg, next);
        }
      } else if ai > 27 {
        ReservedRefused(buf, pos);
      }
    }
  }

  lemma ReservedRefused(buf: Bytes, pos: nat)
    requires pos < |buf| && buf[pos] % 32 > 27
    ensures DecodeHead(buf, pos) == Err(ReservedLength)
  {
  }

  lemma {:induction false} BodyAgrees(js: Js, buf: Bytes, h: HeadInfo, ai: nat)
    requires h.next <= |buf| && h.major < 6
    ensures Agrees(js, buf, DecodeBody(buf, h), ReadBody(js, buf, h.major, ai, Some(h.arg), h.next))
    decreases |buf| - h.next, 2, 0
  {
    hide DecodeItems, DecodeEntries, ReadItems, ReadEntries;
    if h.major == 4 {
      ItemsAgree(js, buf, h.next, h.arg, []);
    } else if h.major == 5 {
      EntriesAgree(js, buf, h.next, h.arg, []);
    }
  }

  lemma {:induction false} ItemsAgree(js: Js, buf: Bytes, p: nat, n: nat, done: seq<Value>)
    requires p <= |buf|
    ensures Agrees(js, buf, DecodeItems(buf, p, n, done), ReadItems(js, buf, Some(p), n, done))
    decreases |buf| - p, 1, n
  {
    hide Decode, Read;
    if n > 0 {
      ReadAgrees(js, buf, p);
      var strict, r := Decode(buf, p), Read(js, buf, Some(p));
      if strict.Ok? {
        ItemsAgree(js, buf, strict.value.1, n - 1, done + [strict.value.0]);
      } else if r.Ok? {
        ItemsPast(js, buf, r.value.1, n - 1, done + [r.value.0]);
      }
    }
  }

  lemma {:induction false} EntriesAgree(js: Js, buf: Bytes, p: nat, n: nat, done: seq<Entry>)
    requires p <= |buf|
    ensures Agrees(js, buf, DecodeEntries(buf, p, n, done), ReadEntries(js, buf, Some(p), n, done))
    decreases |buf| - p, 1, n
  {
    hide Decode, Read, MapSet;
    if n > 0 {
      ReadAgrees(js, buf, p);
      var strict, r := Decode(buf, p), Read(js, buf, Some(p));
      if strict.Ok? {
        ValueAgrees(js, buf, strict.value.0, strict.value.1, n, done);
      } else if r.Ok? {
        ValuePast(js, buf, r.value.0, r.value.1, n, done);
      }
    }
  }

  lemma ValuePast(js: Js, buf: Bytes, key: Value, q: Pos, n: nat, done: seq<Entry>)
    requires n > 0 && !Within(buf, q)
    ensures var value := Read(js, buf, q);
            value.Ok? && var r := ReadEntries(js, buf, value.value.1, n - 1, MapSet(done, key, value.value.0));
            r.Ok? && !Within(buf, r.value.1)
  {
    hide MapSet, ReadEntries;
    EntriesPast(js, buf, Read(js, buf, q).value.1, n - 1, MapSet(done, key, Int(0)));
  }

  lemma {:induction false} ValueAgrees(js: Js, buf: Bytes, key: Value, q: nat, n: nat, done: seq<Entry>)
    requires n > 0 && q <= |buf|
    ensures Agrees(js, buf, ThenEntries(buf, key, q, n, done), ThenReadEntries(js, buf, key, Some(q), n, done))
    decreases |buf| - q, 1, n
  {
    hide Decode, Read, MapSet;
    ReadAgrees(js, buf, q);
    var strict, r := Decode(buf, q), Read(js, buf, Some(q));
    if strict.Ok? {
      EntriesAgree(js, buf, strict.value.1, n - 1, MapSet(done, key, strict.value.0));
    } else if r.Ok? {
      EntriesPast(js, buf, r.value.1, n - 1, MapSet(done, key, r.value.0));
    }
  }

  /** A map's loop from behind a key. */
  function ThenEntries(buf: Bytes, key: Value, q: nat, n: nat, done: seq<Entry>): Result<(seq<Entry>, nat)>
    requires n > 0
  {
    var value :- Decode(buf, q);
    DecodeEntries(buf, value.1, n - 1, MapSet(done, key, value.0))
  }

  function ThenReadEntries(js: Js, buf: Bytes, key: Value, q: Pos, n: nat, done: seq<Entry>): Result<(seq<Entry>, Pos)>
    requires n > 0
  {
    var value :- Read(js, buf, q);
    ReadEntries(js, buf, value.1, n - 1, MapSet(done, key, value.0))
  }

  /**
   What the browser's decoder returns is what the strict one reads if and only if it
   ends within the buffer. It refuses what the strict one refuses for any reason but
   missing bytes, and with four bytes behind the buffer it refuses nothing else.
   */
  lemma BrowserExactly(js: Js, buf: Bytes, pos: nat, v: Value, q: nat)
    ensures Read(js, buf, Some(pos)) == Ok((v, Some(q))) && q <= |buf| <==> Decode(buf, pos) == Ok((v, q))
    ensures forall e | e != OutOfBounds :: Read(js, buf, Some(pos)) == Err(e) <==> Decode(buf, pos) == Err(e)
    ensures |js.behind| >= 4 ==> Read(js, buf, Some(pos)) != Err(OutOfBounds)
  {
    hide Read, Decode;
    ReadAgrees(js, buf, pos);
  }

  /** The round trip through the browser's own decoder. */
  lemma BrowserRoundTrip(js: Js, before: Bytes, v: Value, after: Bytes)
    requires Profile(v)
    ensures Read(js, before + Encode(v) + after, Some(|before|)) == Ok((v, Some(|before| + |Encode(v)|)))
  {
    hide Read, Decode, Encode, Profile;
    RoundTrip(before, v, after);
    BrowserExactly(js, before + Encode(v) + after, |before|, v, |before| + |Encode(v)|);
  }

  // ---- a message cut short --------------------------------------------------------------------------

  /** What reading a cut buffer gives, given what the whole one gives. */
  function Cut<T>(whole: (T, nat), size: nat): Result<(T, nat)> {
    if whole.1 <= size then Ok(whole) else Err(OutOfBounds)
  }

  lemma HeadCut(whole: Bytes, buf: Bytes, pos: nat)
    requires buf <= whole && DecodeHead(whole, pos).Ok? && pos < |buf|
    ensures var h := DecodeHead(whole, pos).value;
            DecodeHead(buf, pos) == if h.next <= |buf| then Ok(h) else Err(OutOfBounds)
  {
    var n := DecodeHead(whole, pos).value.next;
    if n <= |buf| { assert whole[pos + 1..n] == buf[pos + 1..n]; }
  }

  lemma SimpleCut(whole: Bytes, buf: Bytes, pos: nat)
    requires buf <= whole && pos < |buf| && DecodeSimple(whole, pos).Ok?
    ensures DecodeSimple(buf, pos) == Cut(DecodeSimple(whole, pos).value, |buf|)
  {
    if pos + 5 <= |buf| { assert whole[pos + 1..pos + 5] == buf[pos + 1..pos + 5]; }
  }

  /** The strict decoder reads from a cut buffer the items that end before the cut, and misses the others. */
  lemma {:induction false} CutRefused(whole: Bytes, buf: Bytes, pos: nat)
    requires buf <= whole && Decode(whole, pos).Ok?
    ensures Decode(buf, pos) == Cut(Decode(whole, pos).value, |buf|)
    decreases |whole| - pos, 0, 0
  {
    hide DecodeHead, DecodeBody, DecodeSimple;
    if pos < |buf| {
      if buf[pos] / 32 == 7 {
        SimpleCut(whole, buf, pos);
      } else {
        HeadCut(whole, buf, pos);
        var h := DecodeHead(whole, pos).value;
        if h.next <= |buf| { BodyCut(whole, buf, h); }
      }
    }
  }

  lemma {:induction false} BodyCut(whole: Bytes, buf: Bytes, h: HeadInfo)
    requires buf <= whole && h.next <= |buf| && DecodeBody(whole, h).Ok?
    ensures DecodeBody(buf, h) == Cut(DecodeBody(whole, h).value, |buf|)
    decreases |whole| - h.next, 2, 0
  {
    hide DecodeItems, DecodeEntries;
    if h.major == 4 {
      ItemsCut(whole, buf, h.next, h.arg, []);
    } else if h.major == 5 {
      EntriesCut(whole, buf, h.next, h.arg, []);
    } else if h.major >= 2 && h.next + h.arg <= |buf| {
      assert whole[h.next..h.next + h.arg] == buf[h.next..h.next + h.arg];
    }
  }

  lemma {:induction false} ItemsCut(whole: Bytes, buf: Bytes, p: nat, n: nat, done: seq<Value>)
    requires buf <= whole && p <= |buf| && DecodeItems(whole, p, n, done).Ok?
    ensures DecodeItems(buf, p, n, done) == Cut(DecodeItems(whole, p, n, done).value, |buf|)
    decreases |whole| - p, 1, n
  {
    hide Decode;
    if n > 0 {
      CutRefused(whole, buf, p);
      var (x, q) := Decode(whole, p).value;
      if q <= |buf| { ItemsCut(whole, buf, q, n - 1, done + [x]); }
    }
  }

  lemma {:induction false} EntriesCut(whole: Bytes, buf: Bytes, p: nat, n: nat, done: seq<Entry>)
    requires buf <= whole && p <= |buf| && DecodeEntries(whole, p, n, done).Ok?
    ensures DecodeEntries(buf, p, n, done) == Cut(DecodeEntries(whole, p, n, done).value, |buf|)
    decreases |whole| - p, 1, n
  {
    hide Decode, MapSet;
    if n > 0 {
      CutRefused(whole, buf, p);
      var (key, q) := Decode(whole, p).value;
      if q <= |buf| {
        CutRefused(whole, buf, q);
        var (value, end) := Decode(whole, q).value;
        if end <= |buf| { EntriesCut(whole, buf, end, n - 1, MapSet(done, key, value)); }
      }
    }
  }

  /**
   Every message cut short is missed by the strict decoder and, unless the cut is in
   a float at the very end of memory, read by the browser's, which only the position
   it returns gives away.
   */
  lemma CutGoesUnnoticed(js: Js, v: Value, k: nat)
    requires Profile(v) && k < |Encode(v)|
    ensures var buf := Encode(v)[..k];
            && Decode(buf, 0) == Err(OutOfBounds)
            && var r := Read(js, buf, Some(0));
            && (|js.behind| >= 4 ==> r.Ok?)
            && (r.Ok? ==> !Within(buf, r.value.1))
  {
    hide Encode, Decode, Read, Profile;
    var whole, buf := Encode(v), Encode(v)[..k];
    RoundTrip([], v, []);
    assert [] + whole + [] == whole;
    CutRefused(whole, buf, 0);
    ReadAgrees(js, buf, 0);
  }

  /** A map of one entry, cut before its value, reads as a map with the value 0. */
  lemma CutReadsZero(js: Js)
    ensures CUT <= Encode(Map([Entry(Int(1), Int(7))]))
    ensures Read(js, CUT, Some(0)) == Ok((Map([Entry(Int(1), Int(0))]), Some(3)))
  {
    hide Encode, ReadEntries, BigEndian, ReadBigEndian;
    CutIsPrefix();
    ZeroEntry(js);
  }

  const CUT: Bytes := [0xA1, 0x01]

  lemma CutIsPrefix()
    ensures CUT <= Encode(Map([Entry(Int(1), Int(7))]))
  {
    assert Encode(Int(1)) == [1];
  }

  lemma ZeroEntry(js: Js)
    ensures ReadEntries(js, CUT, Some(1), 1, []) == Ok(([Entry(Int(1), Int(0))], Some(3)))
  {
    hide Read, MapSet;
    KeyThenZero(js);
    NothingMore(js, [Entry(Int(1), Int(0))]);
    SetFirst(Int(1), Int(0));
  }

  lemma KeyThenZero(js: Js)
    ensures Read(js, CUT, Some(1)) == Ok((Int(1), Some(2)))
    ensures Read(js, CUT, Some(2)) == Ok((Int(0), Some(3)))
  {
    hide ReadItems, ReadEntries, ReadBigEndian;
  }

  lemma NothingMore(js: Js, done: seq<Entry>)
    ensures ReadEntries(js, CUT, Some(3), 0, done) == Ok((done, Some(3)))
  {
  }

  lemma SetFirst(key: Value, value: Value)
    ensures MapSet([], key, value) == [Entry(key, value)]
  {
  }
}
