/**
 HELLO as clients/mfp/SlopSync.cs builds it: a stream writer that emits map
 counts before it emits the entries, with the two counts computed separately.
 */
module Hello {
  import opened Wire
  import opened Cbor

  const K_PROTO_VER := 1
  const K_CLIENT_KIND := 2
  const K_CLIENT_NAME := 3
  const K_INSTANCE_ID := 4
  const K_TOKEN := 5
  const K_CATALOG_ETAG := 8
  const K_SUBSCRIPTIONS := 10
  const K_PUBLISHES := 11
  const K_RATE_HZ := 12
  const K_PRIORITY := 13
  const K_CHANNEL_ID := 15
  const K_BURST := 42
  const K_CURVE_FAMILY := 45
  const PROTOCOL_VERSION := 1
  const CURVE_UNSPECIFIED := 0

  /** The four bytes of a binary32. */
  type Bits = b: Bytes | |b| == 4 witness [0, 0, 0, 0]

  type UShort = v: int | 0 <= v < 0x1_0000

  type Blob = b: Bytes | |b| < 0x8000_0000

  datatype PublishWish = PublishWish(channel: UShort, rate: real, burst: real, curve: byte)

  datatype SubscribeWish = SubscribeWish(channel: UShort, rate: real, priority: byte)

  type Publishes = s: seq<PublishWish> | |s| < 0x8000_0000

  type Subscribes = s: seq<SubscribeWish> | |s| < 0x8000_0000

  /** The arguments of BuildHello; a null list and an empty list ask for the same. */
  datatype Request = Request(
    kind: Blob, name: Blob, instanceId: Blob,
    publishes: Publishes, token: Option<Blob>, subscribes: Subscribes, etag: Option<Blob>,
    f32: real -> Bits)

  // ---- what each request asks for, key by key ----------------------------------

  function PublishField(f32: real -> Bits, w: PublishWish, key: int): Option<Value> {
    if key == K_RATE_HZ then Some(F32(f32(w.rate)))
    else if key == K_CHANNEL_ID then Some(Int(w.channel))
    else if key == K_BURST && w.burst > 0.0 then Some(F32(f32(w.burst)))
    else if key == K_CURVE_FAMILY && w.curve != CURVE_UNSPECIFIED then Some(Int(w.curve))
    else None
  }

  function SubscribeField(f32: real -> Bits, w: SubscribeWish, key: int): Option<Value> {
    if key == K_RATE_HZ then Some(F32(f32(w.rate)))
    else if key == K_PRIORITY then Some(Int(w.priority))
    else if key == K_CHANNEL_ID then Some(Int(w.channel))
    else None
  }

  /** The value a map holds under an integer key. */
  function Find(entries: seq<Entry>, key: int): Option<Value> {
    if entries == [] then None
    else if entries[0].key == Int(key) then Some(entries[0].value)
    else Find(entries[1..], key)
  }

  ghost predicate IsPublish(v: Value, f32: real -> Bits, w: PublishWish) {
    v.Map? && forall key :: Find(v.entries, key) == PublishField(f32, w, key)
  }

  ghost predicate IsSubscribe(v: Value, f32: real -> Bits, w: SubscribeWish) {
    v.Map? && forall key :: Find(v.entries, key) == SubscribeField(f32, w, key)
  }

  predicate HasEtag(r: Request) { r.etag.Some? && |r.etag.value| > 0 }

  /** The scalar fields of HELLO that the request fixes; the two lists are stated apart. */
  function ScalarField(r: Request, key: int): Option<Value> {
    if key == K_PROTO_VER then Some(Int(PROTOCOL_VERSION))
    else if key == K_CLIENT_KIND then Some(Tstr(r.kind))
    else if key == K_CLIENT_NAME then Some(Tstr(r.name))
    else if key == K_INSTANCE_ID then Some(Bstr(r.instanceId))
    else if key == K_TOKEN && r.token.Some? then Some(Bstr(r.token.value))
    else if key == K_CATALOG_ETAG && HasEtag(r) then Some(Bstr(r.etag.value))
    else None
  }

  /** A decoded HELLO carries what was asked for, and nothing else. */
  ghost predicate Carries(v: Value, r: Request) {
    && v.Map?
    && (forall key | key != K_SUBSCRIPTIONS && key != K_PUBLISHES :: Find(v.entries, key) == ScalarField(r, key))
    && (r.subscribes == [] ==> Find(v.entries, K_SUBSCRIPTIONS) == None)
    && (r.subscribes != [] ==>
      match Find(v.entries, K_SUBSCRIPTIONS)
      case Some(Arr(items)) =>
        |items| == |r.subscribes| && forall i | 0 <= i < |items| :: IsSubscribe(items[i], r.f32, r.subscribes[i])
      case _ => false)
    && (match Find(v.entries, K_PUBLISHES)
        case Some(Arr(items)) =>
          |items| == |r.publishes| && forall i | 0 <= i < |items| :: IsPublish(items[i], r.f32, r.publishes[i])
        case _ => false)
  }

  // ---- the writer ----------------------------------------------------------------

  class CborWriter {
    var ms: Bytes

    constructor ()
      ensures ms == []
    {
      ms := [];
    }

    method WriteBE(v: nat, n: nat)
      modifies this
      ensures ms == old(ms) + BigEndian(v, n)
    {
      ghost var before := ms;
      var i := n;
      while i > 0
        invariant 0 <= i <= n
        invariant ms == before + BigEndian(ShiftRight8(v, i), n - i)
      {
        i := i - 1;
        assert ShiftRight8(v, i + 1) == ShiftRight8(v, i) / 256;
        assert BigEndian(ShiftRight8(v, i), n - i)
            == BigEndian(ShiftRight8(v, i + 1), n - i - 1) + [ShiftRight8(v, i) % 256];
        ms := ms + [ShiftRight8(v, i) % 256];
      }
    }

    method WriteHead(major: nat, v: nat)
      requires major < 8
      modifies this
      ensures ms == old(ms) + Head(major, v)
    {
      hide BigEndian;
      if v <= 23 {
        ms := ms + [32 * major + v];
      } else {
        var ai, n := 27, 8;
        if v <= 0xff { ai, n := 24, 1; }
        else if v <= 0xffff { ai, n := 25, 2; }
        else if v <= 0xffff_ffff { ai, n := 26, 4; }
        ms := ms + [32 * major + ai];
        WriteBE(v, n);
        assert Head(major, v) == [32 * major + ai] + BigEndian(v, n);
      }
    }

    method WriteUInt(v: nat)
      modifies this
      ensures ms == old(ms) + Encode(Int(v))
    {
      WriteHead(0, v);
    }

    method WriteFloat32(bits: Bits)
      modifies this
      ensures ms == old(ms) + Encode(F32(bits))
    {
      ms := ms + [0xfa];
      ms := ms + bits;
    }

    method WriteTextString(b: Bytes)
      modifies this
      ensures ms == old(ms) + Encode(Tstr(b))
    {
      WriteHead(3, |b|);
      ms := ms + b;
    }

    method WriteByteString(b: Bytes)
      modifies this
      ensures ms == old(ms) + Encode(Bstr(b))
    {
      WriteHead(2, |b|);
      ms := ms + b;
    }

    method WriteArrayHeader(count: nat)
      modifies this
      ensures ms == old(ms) + Head(4, count)
    {
      WriteHead(4, count);
    }

    method WriteMapHeader(count: nat)
      modifies this
      ensures ms == old(ms) + Head(5, count)
    {
      WriteHead(5, count);
    }
  }

  // ---- the bytes, as one CBOR value ------------------------------------------------

  function Pair(key: nat, value: Value): Entry { Entry(Int(key), value) }

  function PublishMap(f32: real -> Bits, w: PublishWish): seq<Entry> {
    [Pair(K_RATE_HZ, F32(f32(w.rate))), Pair(K_CHANNEL_ID, Int(w.channel))]
    + (if w.burst > 0.0 then [Pair(K_BURST, F32(f32(w.burst)))] else [])
    + (if w.curve != CURVE_UNSPECIFIED then [Pair(K_CURVE_FAMILY, Int(w.curve))] else [])
  }

  function SubscribeMap(f32: real -> Bits, w: SubscribeWish): seq<Entry> {
    [Pair(K_RATE_HZ, F32(f32(w.rate))), Pair(K_PRIORITY, Int(w.priority)), Pair(K_CHANNEL_ID, Int(w.channel))]
  }

  function PublishMaps(f32: real -> Bits, ws: seq<PublishWish>): (items: seq<Value>)
    ensures |items| == |ws|
    ensures forall i | 0 <= i < |ws| :: items[i] == Map(PublishMap(f32, ws[i]))
  {
    if ws == [] then [] else PublishMaps(f32, ws[..|ws| - 1]) + [Map(PublishMap(f32, ws[|ws| - 1]))]
  }

  function SubscribeMaps(f32: real -> Bits, ws: seq<SubscribeWish>): (items: seq<Value>)
    ensures |items| == |ws|
    ensures forall i | 0 <= i < |ws| :: items[i] == Map(SubscribeMap(f32, ws[i]))
  {
    if ws == [] then [] else SubscribeMaps(f32, ws[..|ws| - 1]) + [Map(SubscribeMap(f32, ws[|ws| - 1]))]
  }

  function IdentityMap(r: Request): seq<Entry> {
    [Pair(K_PROTO_VER, Int(PROTOCOL_VERSION)), Pair(K_CLIENT_KIND, Tstr(r.kind)),
     Pair(K_CLIENT_NAME, Tstr(r.name)), Pair(K_INSTANCE_ID, Bstr(r.instanceId))]
  }

  function TokenMap(r: Request): seq<Entry> {
    if r.token.Some? then [Pair(K_TOKEN, Bstr(r.token.value))] else []
  }

  function EtagMap(r: Request): seq<Entry> {
    if HasEtag(r) then [Pair(K_CATALOG_ETAG, Bstr(r.etag.value))] else []
  }

  function SubscriptionsMap(r: Request): seq<Entry> {
    if r.subscribes != [] then [Pair(K_SUBSCRIPTIONS, Arr(SubscribeMaps(r.f32, r.subscribes)))] else []
  }

  function PublishesMap(r: Request): seq<Entry> {
    [Pair(K_PUBLISHES, Arr(PublishMaps(r.f32, r.publishes)))]
  }

  function HelloMap(r: Request): seq<Entry> {
    IdentityMap(r) + TokenMap(r) + EtagMap(r) + SubscriptionsMap(r) + PublishesMap(r)
  }

  lemma {:induction false} EncodeEntriesConcat(a: seq<Entry>, b: seq<Entry>)
    ensures EncodeEntries(a + b) == EncodeEntries(a) + EncodeEntries(b)
  {
    if a == [] {
      FromNothing(b);
    } else {
      hide EncodeEntry;
      assert (a + b)[1..] == a[1..] + b;
      EncodeEntriesConcat(a[1..], b);
    }
  }

  lemma EncodeOneEntry(e: Entry)
    ensures EncodeEntries([e]) == EncodeEntry(e)
  {
    hide EncodeEntry;
    assert [e][1..] == [];
  }

  method WriteKeyed(w: CborWriter, key: nat, value: Value)
    requires value.Int? ==> value.i >= 0
    requires value.F32? ==> |value.bits| == 4
    requires value.Int? || value.F32? || value.Tstr? || value.Bstr?
    modifies w
    ensures w.ms == old(w.ms) + EncodeEntries([Pair(key, value)])
  {
    hide Head, EncodeEntries, EncodeItems;
    EncodeOneEntry(Pair(key, value));
    w.WriteUInt(key);
    match value
    case Int(i) => w.WriteUInt(i);
    case F32(bits) => w.WriteFloat32(bits);
    case Tstr(b) => w.WriteTextString(b);
    case Bstr(b) => w.WriteByteString(b);
  }

  method WritePublish(w: CborWriter, f32: real -> Bits, p: PublishWish)
    modifies w
    ensures w.ms == old(w.ms) + Encode(Map(PublishMap(f32, p)))
  {
    hide Head, EncodeEntries;
    var hasBurst, hasCurve := p.burst > 0.0, p.curve != CURVE_UNSPECIFIED;
    var entries := 2 + (if hasBurst then 1 else 0) + (if hasCurve then 1 else 0);
    w.WriteMapHeader(entries);
    ghost var start := w.ms;
    WriteKeyed(w, K_RATE_HZ, F32(f32(p.rate)));
    WriteKeyed(w, K_CHANNEL_ID, Int(p.channel));
    ghost var done := [Pair(K_RATE_HZ, F32(f32(p.rate)))] + [Pair(K_CHANNEL_ID, Int(p.channel))];
    EncodeEntriesConcat([Pair(K_RATE_HZ, F32(f32(p.rate)))], [Pair(K_CHANNEL_ID, Int(p.channel))]);
    if hasBurst {
      WriteKeyed(w, K_BURST, F32(f32(p.burst)));
      EncodeEntriesConcat(done, [Pair(K_BURST, F32(f32(p.burst)))]);
      done := done + [Pair(K_BURST, F32(f32(p.burst)))];
    }
    assert w.ms == start + EncodeEntries(done);
    if hasCurve {
      WriteKeyed(w, K_CURVE_FAMILY, Int(p.curve));
      EncodeEntriesConcat(done, [Pair(K_CURVE_FAMILY, Int(p.curve))]);
      done := done + [Pair(K_CURVE_FAMILY, Int(p.curve))];
    }
    assert w.ms == start + EncodeEntries(done);
    assert done == PublishMap(f32, p);
  }

  method WriteSubscribe(w: CborWriter, f32: real -> Bits, p: SubscribeWish)
    modifies w
    ensures w.ms == old(w.ms) + Encode(Map(SubscribeMap(f32, p)))
  {
    hide Head, EncodeEntries;
    w.WriteMapHeader(3);
    var rate, prio, ch := Pair(K_RATE_HZ, F32(f32(p.rate))), Pair(K_PRIORITY, Int(p.priority)), Pair(K_CHANNEL_ID, Int(p.channel));
    WriteKeyed(w, K_RATE_HZ, rate.value);
    WriteKeyed(w, K_PRIORITY, prio.value);
    WriteKeyed(w, K_CHANNEL_ID, ch.value);
    EncodeEntriesConcat([rate], [prio]);
    EncodeEntriesConcat([rate] + [prio], [ch]);
    assert [rate] + [prio] + [ch] == SubscribeMap(f32, p);
  }

  method WritePublishes(w: CborWriter, r: Request)
    modifies w
    ensures w.ms == old(w.ms) + EncodeEntries(PublishesMap(r))
  {
    hide Head, EncodeItems, EncodeEntries;
    w.WriteUInt(K_PUBLISHES);
    w.WriteArrayHeader(|r.publishes|);
    ghost var start := w.ms;
    NothingEncodes();
    for i := 0 to |r.publishes|
      invariant w.ms == start + EncodeItems(PublishMaps(r.f32, r.publishes[..i]))
    {
      WritePublish(w, r.f32, r.publishes[i]);
      assert r.publishes[..i + 1][..i] == r.publishes[..i];
      EncodeItemsSnoc(PublishMaps(r.f32, r.publishes[..i]), Map(PublishMap(r.f32, r.publishes[i])));
    }
    assert r.publishes[..|r.publishes|] == r.publishes;
    EncodeOneEntry(PublishesMap(r)[0]);
  }

  method WriteSubscriptions(w: CborWriter, r: Request)
    requires r.subscribes != []
    modifies w
    ensures w.ms == old(w.ms) + EncodeEntries(SubscriptionsMap(r))
  {
    hide Head, EncodeItems, EncodeEntries;
    w.WriteUInt(K_SUBSCRIPTIONS);
    w.WriteArrayHeader(|r.subscribes|);
    ghost var start := w.ms;
    NothingEncodes();
    for i := 0 to |r.subscribes|
      invariant w.ms == start + EncodeItems(SubscribeMaps(r.f32, r.subscribes[..i]))
    {
      WriteSubscribe(w, r.f32, r.subscribes[i]);
      assert r.subscribes[..i + 1][..i] == r.subscribes[..i];
      EncodeItemsSnoc(SubscribeMaps(r.f32, r.subscribes[..i]), Map(SubscribeMap(r.f32, r.subscribes[i])));
    }
    assert r.subscribes[..|r.subscribes|] == r.subscribes;
    EncodeOneEntry(SubscriptionsMap(r)[0]);
  }

  method WriteIdentity(w: CborWriter, r: Request)
    modifies w
    ensures w.ms == old(w.ms) + EncodeEntries(IdentityMap(r))
  {
    hide EncodeEntries;
    var id := IdentityMap(r);
    WriteKeyed(w, K_PROTO_VER, id[0].value);
    WriteKeyed(w, K_CLIENT_KIND, id[1].value);
    WriteKeyed(w, K_CLIENT_NAME, id[2].value);
    WriteKeyed(w, K_INSTANCE_ID, id[3].value);
    EncodeEntriesConcat([id[0]], [id[1]]);
    EncodeEntriesConcat([id[0]] + [id[1]], [id[2]]);
    EncodeEntriesConcat([id[0]] + [id[1]] + [id[2]], [id[3]]);
    assert [id[0]] + [id[1]] + [id[2]] + [id[3]] == id;
  }

  /**
   Build HELLO. A reader of the deterministic profile gets back exactly the
   fields the request asked for, and reads to the end of the bytes.
   */
  method BuildHello(r: Request) returns (bytes: Bytes)
    ensures Decode(bytes, 0).Ok?
    ensures Decode(bytes, 0).value.1 == |bytes|
    ensures Carries(Decode(bytes, 0).value.0, r)
  {
    hide Head, Encode, Decode, EncodeEntries, PublishMaps, SubscribeMaps, Carries;
    NothingEncodes();
    var w := new CborWriter();
    var n := 4 + (if r.token.Some? then 1 else 0) + (if HasEtag(r) then 1 else 0)
               + (if r.subscribes != [] then 1 else 0) + 1;
    w.WriteMapHeader(n);
    WriteIdentity(w, r);
    if r.token.Some? { WriteKeyed(w, K_TOKEN, Bstr(r.token.value)); }
    if HasEtag(r) { WriteKeyed(w, K_CATALOG_ETAG, Bstr(r.etag.value)); }
    if r.subscribes != [] { WriteSubscriptions(w, r); }
    WritePublishes(w, r);
    bytes := w.ms;
    HelloLayout(r, n);
    HelloRoundTrip(r, []);
    assert Encode(Map(HelloMap(r))) + [] == bytes;
  }

  /** The separately computed count is the number of entries written. */
  lemma HelloLayout(r: Request, n: nat)
    requires n == 4 + (if r.token.Some? then 1 else 0) + (if HasEtag(r) then 1 else 0)
                    + (if r.subscribes != [] then 1 else 0) + 1
    ensures Encode(Map(HelloMap(r)))
         == Head(5, n) + EncodeEntries(IdentityMap(r)) + EncodeEntries(TokenMap(r)) + EncodeEntries(EtagMap(r))
          + EncodeEntries(SubscriptionsMap(r)) + EncodeEntries(PublishesMap(r))
  {
    hide Head, EncodeEntries;
    var a, b, c, d, e := IdentityMap(r), TokenMap(r), EtagMap(r), SubscriptionsMap(r), PublishesMap(r);
    EncodeEntriesConcat(a, b);
    EncodeEntriesConcat(a + b, c);
    EncodeEntriesConcat(a + b + c, d);
    EncodeEntriesConcat(a + b + c + d, e);
    assert |HelloMap(r)| == n;
  }

  // ---- what the bytes say --------------------------------------------------------

  lemma {:induction false} FindConcat(a: seq<Entry>, b: seq<Entry>, key: int)
    ensures Find(a + b, key) == if Find(a, key).Some? then Find(a, key) else Find(b, key)
  {
    if a == [] {
      FromNothing(b);
    } else {
      assert (a + b)[1..] == a[1..] + b;
      FindConcat(a[1..], b, key);
    }
  }

  lemma FindOne(e: Entry, key: int)
    ensures Find([e], key) == if e.key == Int(key) then Some(e.value) else None
  {
    assert [e][1..] == [];
  }

  lemma {:induction false} ProfileLower(entries: seq<Entry>, floor: int, lower: int)
    requires ProfileEntries(entries, floor) && lower <= floor
    ensures ProfileEntries(entries, lower)
  {
  }

  lemma {:induction false} ProfileConcat(a: seq<Entry>, b: seq<Entry>, floor: int, mid: int)
    requires ProfileEntries(a, floor) && floor <= mid && KeysUpTo(a, mid) && ProfileEntries(b, mid)
    ensures ProfileEntries(a + b, floor)
  {
    if a == [] {
      FromNothing(b);
      ProfileLower(b, mid, floor);
    } else {
      assert (a + b)[1..] == a[1..] + b;
      ProfileConcat(a[1..], b, a[0].key.i, mid);
    }
  }

  /** Every key answers as the table `field` says. */
  ghost predicate Answers(entries: seq<Entry>, field: int -> Option<Value>) {
    forall key :: Find(entries, key) == field(key)
  }

  function With(field: int -> Option<Value>, key: int, value: Value): int -> Option<Value> {
    k => if field(k).Some? then field(k) else if k == key then Some(value) else None
  }

  /** Appending a pair under a new, greater key. */
  lemma AppendPair(entries: seq<Entry>, field: int -> Option<Value>, top: int, key: nat, value: Value)
    requires ProfileEntries(entries, -1) && KeysUpTo(entries, top) && Answers(entries, field)
    requires -1 <= top < key < SAFE && Profile(value)
    ensures ProfileEntries(entries + [Pair(key, value)], -1)
    ensures KeysUpTo(entries + [Pair(key, value)], key)
    ensures Answers(entries + [Pair(key, value)], With(field, key, value))
  {
    hide Profile, ProfileEntry;
    var one := [Pair(key, value)];
    assert ProfileEntries(one, top) by {
      assert ProfileEntry(one[0], top) by { ProfilePair(key, value, top); }
      assert one[1..] == [];
    }
    ProfileConcat(entries, one, -1, top);
    forall k ensures Find(entries + one, k) == With(field, key, value)(k) {
      FindConcat(entries, one, k);
      FindOne(Pair(key, value), k);
    }
  }

  lemma ProfilePair(key: nat, value: Value, floor: int)
    requires floor < key < SAFE && Profile(value)
    ensures ProfileEntry(Pair(key, value), floor)
  {
  }

  lemma NoPairs()
    ensures ProfileEntries([], -1) && KeysUpTo([], -1) && Answers([], k => None)
  {
  }

  lemma PublishCarries(f32: real -> Bits, w: PublishWish)
    ensures Profile(Map(PublishMap(f32, w))) && IsPublish(Map(PublishMap(f32, w)), f32, w)
  {
    hide ProfileEntries, KeysUpTo, Find;
    NoPairs();
    var entries, field, top := [], (k: int) => None, -1;
    AppendPair(entries, field, top, K_RATE_HZ, F32(f32(w.rate)));
    entries, field, top := entries + [Pair(K_RATE_HZ, F32(f32(w.rate)))], With(field, K_RATE_HZ, F32(f32(w.rate))), K_RATE_HZ;
    AppendPair(entries, field, top, K_CHANNEL_ID, Int(w.channel));
    entries, field, top := entries + [Pair(K_CHANNEL_ID, Int(w.channel))], With(field, K_CHANNEL_ID, Int(w.channel)), K_CHANNEL_ID;
    if w.burst > 0.0 {
      AppendPair(entries, field, top, K_BURST, F32(f32(w.burst)));
      entries, field, top := entries + [Pair(K_BURST, F32(f32(w.burst)))], With(field, K_BURST, F32(f32(w.burst))), K_BURST;
    }
    if w.curve != CURVE_UNSPECIFIED {
      AppendPair(entries, field, top, K_CURVE_FAMILY, Int(w.curve));
      entries, field := entries + [Pair(K_CURVE_FAMILY, Int(w.curve))], With(field, K_CURVE_FAMILY, Int(w.curve));
    }
    assert entries == PublishMap(f32, w);
    forall key ensures Find(PublishMap(f32, w), key) == PublishField(f32, w, key) {
      assert Find(entries, key) == field(key);
    }
  }

  lemma SubscribeCarries(f32: real -> Bits, w: SubscribeWish)
    ensures Profile(Map(SubscribeMap(f32, w))) && IsSubscribe(Map(SubscribeMap(f32, w)), f32, w)
  {
    hide ProfileEntries, KeysUpTo, Find;
    NoPairs();
    var rate, prio, ch := F32(f32(w.rate)), Int(w.priority), Int(w.channel);
    var none := (k: int) => None;
    AppendPair([], none, -1, K_RATE_HZ, rate);
    var one := With(none, K_RATE_HZ, rate);
    AppendPair([] + [Pair(K_RATE_HZ, rate)], one, K_RATE_HZ, K_PRIORITY, prio);
    var two := With(one, K_PRIORITY, prio);
    AppendPair([] + [Pair(K_RATE_HZ, rate)] + [Pair(K_PRIORITY, prio)], two, K_PRIORITY, K_CHANNEL_ID, ch);
    assert [] + [Pair(K_RATE_HZ, rate)] + [Pair(K_PRIORITY, prio)] + [Pair(K_CHANNEL_ID, ch)] == SubscribeMap(f32, w);
    forall key ensures Find(SubscribeMap(f32, w), key) == SubscribeField(f32, w, key) {
      assert Find(SubscribeMap(f32, w), key) == With(two, K_CHANNEL_ID, ch)(key);
    }
  }

  lemma {:induction false} AllItemsProfile(items: seq<Value>)
    requires forall i | 0 <= i < |items| :: Profile(items[i])
    ensures ProfileItems(items)
  {
    if items != [] {
      hide Profile;
      assert forall i | 0 <= i < |items[1..]| :: items[1..][i] == items[i + 1];
      AllItemsProfile(items[1..]);
    }
  }

  lemma PublishesCarry(r: Request)
    ensures Profile(Arr(PublishMaps(r.f32, r.publishes)))
    ensures forall i | 0 <= i < |r.publishes| :: IsPublish(PublishMaps(r.f32, r.publishes)[i], r.f32, r.publishes[i])
  {
    hide IsPublish, ProfileEntries, PublishMap;
    var items := PublishMaps(r.f32, r.publishes);
    forall i | 0 <= i < |r.publishes| ensures Profile(items[i]) && IsPublish(items[i], r.f32, r.publishes[i]) {
      PublishCarries(r.f32, r.publishes[i]);
    }
    AllItemsProfile(items);
  }

  lemma SubscribesCarry(r: Request)
    ensures Profile(Arr(SubscribeMaps(r.f32, r.subscribes)))
    ensures forall i | 0 <= i < |r.subscribes| ::
              IsSubscribe(SubscribeMaps(r.f32, r.subscribes)[i], r.f32, r.subscribes[i])
  {
    hide IsSubscribe, ProfileEntries, SubscribeMap;
    var items := SubscribeMaps(r.f32, r.subscribes);
    forall i | 0 <= i < |r.subscribes| ensures Profile(items[i]) && IsSubscribe(items[i], r.f32, r.subscribes[i]) {
      SubscribeCarries(r.f32, r.subscribes[i]);
    }
    AllItemsProfile(items);
  }

  /** The table HELLO's top-level map answers from. */
  function HelloField(r: Request): int -> Option<Value> {
    k => if k == K_SUBSCRIPTIONS && r.subscribes != [] then Some(Arr(SubscribeMaps(r.f32, r.subscribes)))
         else if k == K_PUBLISHES then Some(Arr(PublishMaps(r.f32, r.publishes)))
         else ScalarField(r, k)
  }

  lemma IdentityAnswers(r: Request) returns (field: int -> Option<Value>)
    ensures ProfileEntries(IdentityMap(r), -1) && KeysUpTo(IdentityMap(r), K_INSTANCE_ID) && Answers(IdentityMap(r), field)
    ensures forall k :: field(k) == if k <= K_INSTANCE_ID then ScalarField(r, k) else None
  {
    hide ProfileEntries, KeysUpTo, Answers;
    NoPairs();
    var id := IdentityMap(r);
    field := (k: int) => None;
    AppendPair([], field, -1, K_PROTO_VER, id[0].value);
    field := With(field, K_PROTO_VER, id[0].value);
    AppendPair([] + [id[0]], field, K_PROTO_VER, K_CLIENT_KIND, id[1].value);
    field := With(field, K_CLIENT_KIND, id[1].value);
    AppendPair([] + [id[0]] + [id[1]], field, K_CLIENT_KIND, K_CLIENT_NAME, id[2].value);
    field := With(field, K_CLIENT_NAME, id[2].value);
    AppendPair([] + [id[0]] + [id[1]] + [id[2]], field, K_CLIENT_NAME, K_INSTANCE_ID, id[3].value);
    field := With(field, K_INSTANCE_ID, id[3].value);
    assert [] + [id[0]] + [id[1]] + [id[2]] + [id[3]] == id;
  }

  lemma HelloAnswers(r: Request)
    ensures ProfileEntries(HelloMap(r), -1) && Answers(HelloMap(r), HelloField(r))
  {
    hide ProfileEntries, KeysUpTo, PublishMaps, SubscribeMaps;
    PublishesCarry(r);
    SubscribesCarry(r);
    var field := IdentityAnswers(r);
    var entries, top := IdentityMap(r), K_INSTANCE_ID;
    if r.token.Some? {
      AppendPair(entries, field, top, K_TOKEN, Bstr(r.token.value));
      field, top := With(field, K_TOKEN, Bstr(r.token.value)), K_TOKEN;
    } else {
      assert entries + [] == entries;
    }
    entries := entries + TokenMap(r);
    assert Answers(entries, field) && KeysUpTo(entries, top) && ProfileEntries(entries, -1);
    if HasEtag(r) {
      AppendPair(entries, field, top, K_CATALOG_ETAG, Bstr(r.etag.value));
      field, top := With(field, K_CATALOG_ETAG, Bstr(r.etag.value)), K_CATALOG_ETAG;
    } else {
      assert entries + [] == entries;
    }
    entries := entries + EtagMap(r);
    assert Answers(entries, field) && KeysUpTo(entries, top) && ProfileEntries(entries, -1);
    if r.subscribes != [] {
      AppendPair(entries, field, top, K_SUBSCRIPTIONS, Arr(SubscribeMaps(r.f32, r.subscribes)));
      field, top := With(field, K_SUBSCRIPTIONS, Arr(SubscribeMaps(r.f32, r.subscribes))), K_SUBSCRIPTIONS;
    } else {
      assert entries + [] == entries;
    }
    entries := entries + SubscriptionsMap(r);
    assert Answers(entries, field) && KeysUpTo(entries, top) && ProfileEntries(entries, -1);
    AppendPair(entries, field, top, K_PUBLISHES, Arr(PublishMaps(r.f32, r.publishes)));
    field := With(field, K_PUBLISHES, Arr(PublishMaps(r.f32, r.publishes)));
    forall key ensures Find(HelloMap(r), key) == HelloField(r)(key) {
      assert Find(HelloMap(r), key) == field(key);
    }
  }

  /** Whatever follows HELLO in the buffer, decoding it yields the request's fields. */
  lemma HelloRoundTrip(r: Request, after: Bytes)
    ensures Decode(Encode(Map(HelloMap(r))) + after, 0) == Ok((Map(HelloMap(r)), |Encode(Map(HelloMap(r)))|))
    ensures Carries(Map(HelloMap(r)), r)
  {
    hide Encode, Decode, ProfileEntries, PublishMaps, SubscribeMaps, IsPublish, IsSubscribe, Find;
    var v := Map(HelloMap(r));
    HelloAnswers(r);
    PublishesCarry(r);
    SubscribesCarry(r);
    assert Profile(v);
    RoundTrip([], v, after);
    assert [] + Encode(v) + after == Encode(v) + after;
    assert forall key :: Find(v.entries, key) == HelloField(r)(key);
  }
}
