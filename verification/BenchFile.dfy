/** A configuration written out as lines, and read back. */
module BenchFile {
  import opened Wire
  import opened Bench
  import opened BenchText

  /** How numbers are written; `bare` is for a minimum or maximum, which stands alone on the line. */
  datatype Printer = Printer(uint: nat -> string, float: real -> string, bare: real -> string)

  ghost predicate PrintsUint(lex: Lex, pr: Printer, n: nat) {
    ReadsUint(lex, n) ==> Token(pr.uint(n)) && Uint(lex, pr.uint(n)) == Some(n)
  }

  ghost predicate PrintsFloat(lex: Lex, pr: Printer, r: real) {
    && (ReadsFloat(lex, r) ==> Token(pr.float(r)) && Float(lex, pr.float(r)) == Some(r))
    && (ReadsBare(lex, r) ==> Token(pr.bare(r)) && '=' !in pr.bare(r) && Float(lex, pr.bare(r)) == Some(r))
  }

  /** Every number that some token reads as is written as such a token. */
  ghost predicate Prints(lex: Lex, pr: Printer) {
    (forall n: nat :: PrintsUint(lex, pr, n)) && (forall r: real :: PrintsFloat(lex, pr, r))
  }

  ghost function UintToken(lex: Lex, n: nat): (s: string)
    ensures ReadsUint(lex, n) ==> Token(s) && Uint(lex, s) == Some(n)
  {
    if ReadsUint(lex, n) then var s :| Token(s) && Uint(lex, s) == Some(n); s else ""
  }

  ghost function FloatToken(lex: Lex, r: real): (s: string)
    ensures ReadsFloat(lex, r) ==> Token(s) && Float(lex, s) == Some(r)
  {
    if ReadsFloat(lex, r) then var s :| Token(s) && Float(lex, s) == Some(r); s else ""
  }

  ghost function BareToken(lex: Lex, r: real): (s: string)
    ensures ReadsBare(lex, r) ==> Token(s) && '=' !in s && Float(lex, s) == Some(r)
  {
    if ReadsBare(lex, r) then var s :| Token(s) && '=' !in s && Float(lex, s) == Some(r); s else ""
  }

  /** Every lexer has such a printer. */
  ghost function PrinterFor(lex: Lex): (pr: Printer)
    ensures Prints(lex, pr)
  {
    var pr := Printer((n: nat) => UintToken(lex, n), r => FloatToken(lex, r), r => BareToken(lex, r));
    assert forall n: nat :: PrintsUint(lex, pr, n);
    assert forall r: real :: PrintsFloat(lex, pr, r);
    pr
  }

  lemma UintBack(lex: Lex, pr: Printer, n: nat, limit: nat)
    requires Prints(lex, pr) && ReadsUint(lex, n)
    ensures Token(pr.uint(n)) && Uint(lex, pr.uint(n)) == Some(n)
    ensures n <= limit ==> Bounded(lex, pr.uint(n), limit) == Some(n)
  {
    assert PrintsUint(lex, pr, n);
  }

  lemma FloatBack(lex: Lex, pr: Printer, r: real)
    requires Prints(lex, pr)
    ensures ReadsFloat(lex, r) ==> Token(pr.float(r)) && Float(lex, pr.float(r)) == Some(r)
    ensures ReadsBare(lex, r) ==> Token(pr.bare(r)) && '=' !in pr.bare(r) && Float(lex, pr.bare(r)) == Some(r)
  {
    assert PrintsFloat(lex, pr, r);
  }

  // ---- a field's lines -------------------------------------------------------------------

  function RangeTokens(pr: Printer, f: Field): seq<string> {
    if f.min.Some? && f.max.Some? then [pr.bare(f.min.value), pr.bare(f.max.value)] else []
  }

  function KeyTokens(pr: Printer, f: Field): seq<string> {
    if f.key.Some? then ["key" + "=" + pr.uint(f.key.value)] else []
  }

  function DefaultTokens(pr: Printer, f: Field): seq<string> {
    if f.default.Some? then ["default" + "=" + pr.float(f.default.value)] else []
  }

  function FieldTokens(pr: Printer, f: Field): seq<string> {
    ["field", f.name, f.ty.name, if f.unit == "" then "-" else f.unit]
    + (RangeTokens(pr, f) + (KeyTokens(pr, f) + DefaultTokens(pr, f)))
  }

  function AnimTokens(pr: Printer, f: Field): seq<seq<string>> {
    if f.anim.Some? then
      var a := f.anim.value;
      [["animate", f.name, if a.kind == Sine then "sine" else "ramp", pr.float(a.hz), pr.float(a.a), pr.float(a.b)]]
    else []
  }

  function FieldLines(pr: Printer, f: Field): seq<seq<string>> {
    [FieldTokens(pr, f)] + AnimTokens(pr, f)
  }

  lemma {:induction false} FindEqNone(t: string)
    requires '=' !in t
    ensures FindEq(t) == |t|
  {
    if t != "" { FindEqNone(t[1..]); }
  }

  lemma {:induction false} FindEqAt(a: string, b: string)
    requires '=' !in a
    ensures FindEq(a + "=" + b) == |a|
  {
    var t := a + "=" + b;
    if a != "" {
      assert t[1..] == a[1..] + "=" + b;
      FindEqAt(a[1..], b);
    }
  }

  lemma SplitsAt(a: string, b: string)
    requires '=' !in a
    ensures var t := a + "=" + b; FindEq(t) < |t| && t[..FindEq(t)] == a && t[FindEq(t) + 1..] == b
  {
    FindEqAt(a, b);
  }

  lemma RangeBack(lex: Lex, pr: Printer, f: Field, g: Field, rest: seq<string>)
    requires Prints(lex, pr) && f.min.Some? == f.max.Some? && g.min.None? && g.max.None? && NumbersRead(lex, f)
    ensures Attributes(lex, g, RangeTokens(pr, f) + rest) == Attributes(lex, g.(min := f.min, max := f.max), rest)
  {
    if f.min.Some? {
      var lo, hi := pr.bare(f.min.value), pr.bare(f.max.value);
      FloatBack(lex, pr, f.min.value);
      FloatBack(lex, pr, f.max.value);
      FindEqNone(lo);
      FindEqNone(hi);
      var toks := [lo, hi] + rest;
      assert toks[1..][1..] == rest;
      assert toks[1..][0] == hi;
      assert Attribute(lex, g, lo) == Some(g.(min := f.min));
      assert Attribute(lex, g.(min := f.min), hi) == Some(g.(min := f.min, max := f.max));
    } else {
      assert [] + rest == rest;
    }
  }

  lemma KeyBack(lex: Lex, pr: Printer, f: Field, g: Field, rest: seq<string>)
    requires Prints(lex, pr) && g.key.None? && NumbersRead(lex, f)
    ensures Attributes(lex, g, KeyTokens(pr, f) + rest) == Attributes(lex, g.(key := f.key), rest)
  {
    if f.key.Some? {
      UintBack(lex, pr, f.key.value, 0xFF);
      SplitsAt("key", pr.uint(f.key.value));
      var t := "key" + "=" + pr.uint(f.key.value);
      assert Attribute(lex, g, t) == Some(g.(key := f.key));
      assert ([t] + rest)[1..] == rest;
    } else {
      assert [] + rest == rest;
    }
  }

  lemma DefaultBack(lex: Lex, pr: Printer, f: Field, g: Field)
    requires Prints(lex, pr) && g.default.None? && NumbersRead(lex, f)
    ensures Attributes(lex, g, DefaultTokens(pr, f)) == Some(g.(default := f.default))
  {
    if f.default.Some? {
      FloatBack(lex, pr, f.default.value);
      SplitsAt("default", pr.float(f.default.value));
      var t := "default" + "=" + pr.float(f.default.value);
      assert Attribute(lex, g, t) == Some(g.(default := f.default));
      assert [t][1..] == [];
    }
  }

  lemma {:induction false} NamedFresh(fields: seq<Field>, name: string)
    requires forall i | 0 <= i < |fields| :: fields[i].name != name
    ensures Named(fields, name) == |fields|
  {
    if fields != [] { NamedFresh(fields[1..], name); }
  }

  /** A field's line appends the field, not yet animated. */
  lemma FieldLineBack(lex: Lex, pr: Printer, ch: Channel, f: Field)
    requires Prints(lex, pr) && FieldOk(lex, ch.cls, f) && ch.cls != Store
    requires forall i | 0 <= i < |ch.fields| :: ch.fields[i].name != f.name
    ensures FieldLine(lex, ch, FieldTokens(pr, f)) == Some(ch.(fields := ch.fields + [f.(anim := None)]))
  {
    hide Attributes, Attribute, Named, RangeTokens, KeyTokens, DefaultTokens, NumbersRead, Prints;
    var tok := FieldTokens(pr, f);
    var rest := RangeTokens(pr, f) + (KeyTokens(pr, f) + DefaultTokens(pr, f));
    assert tok[4..] == rest;
    NamedFresh(ch.fields, f.name);
    var g := NewField(f.name, f.ty, tok[3]);
    RangeBack(lex, pr, f, g, KeyTokens(pr, f) + DefaultTokens(pr, f));
    var g1 := g.(min := f.min, max := f.max);
    KeyBack(lex, pr, f, g1, DefaultTokens(pr, f));
    DefaultBack(lex, pr, f, g1.(key := f.key));
    assert g1.(key := f.key).(default := f.default) == f.(anim := None);
  }

  /** The animate line that follows gives the last field its animation. */
  lemma AnimateLineBack(lex: Lex, pr: Printer, ch: Channel, f: Field)
    requires Prints(lex, pr) && FieldOk(lex, ch.cls, f) && f.anim.Some?
    requires forall i | 0 <= i < |ch.fields| :: ch.fields[i].name != f.name
    ensures AnimateLine(lex, ch.(fields := ch.fields + [f.(anim := None)]), AnimTokens(pr, f)[0])
              == Some(ch.(fields := ch.fields + [f]))
  {
    var fields := ch.fields + [f.(anim := None)];
    assert fields[|ch.fields|].name == f.name;
    assert Named(fields, f.name) == |ch.fields|;
    var a := f.anim.value;
    FloatBack(lex, pr, a.hz);
    FloatBack(lex, pr, a.a);
    FloatBack(lex, pr, a.b);
    assert fields[|ch.fields| := f] == ch.fields + [f];
  }

  // ---- lines within a channel ---------------------------------------------------------------------

  /** Reading channel lines one after another. */
  function Props(lex: Lex, ch: Channel, lines: seq<seq<string>>): Option<Channel>
    requires forall k | 0 <= k < |lines| :: lines[k] != []
    decreases |lines|
  {
    if lines == [] then Some(ch)
    else
      var ch1 := ChannelProp(lex, ch, lines[0]);
      if ch1.None? then None else Props(lex, ch1.value, lines[1..])
  }

  predicate Spoken(lines: seq<seq<string>>) { forall k | 0 <= k < |lines| :: lines[k] != [] }

  lemma {:induction false} PropsConcat(lex: Lex, ch: Channel, a: seq<seq<string>>, b: seq<seq<string>>)
    requires Spoken(a) && Spoken(b) && Props(lex, ch, a).Some?
    ensures Spoken(a + b) && Props(lex, ch, a + b) == Props(lex, Props(lex, ch, a).value, b)
    decreases |a|
  {
    hide ChannelProp;
    if a == [] {
      assert a + b == b;
    } else {
      assert (a + b)[1..] == a[1..] + b;
      PropsConcat(lex, ChannelProp(lex, ch, a[0]).value, a[1..], b);
    }
  }

  lemma PropsOne(lex: Lex, ch: Channel, tok: seq<string>)
    requires tok != []
    ensures Props(lex, ch, [tok]) == ChannelProp(lex, ch, tok)
  {
    hide ChannelProp;
    assert [tok][1..] == [];
  }

  lemma FieldLinesBack(lex: Lex, pr: Printer, ch: Channel, f: Field)
    requires Prints(lex, pr) && FieldOk(lex, ch.cls, f) && ch.cls != Store
    requires forall i | 0 <= i < |ch.fields| :: ch.fields[i].name != f.name
    ensures Spoken(FieldLines(pr, f)) && Props(lex, ch, FieldLines(pr, f)) == Some(ch.(fields := ch.fields + [f]))
  {
    hide FieldLine, AnimateLine, Prints, RangeTokens, KeyTokens, DefaultTokens;
    var ch1 := ch.(fields := ch.fields + [f.(anim := None)]);
    FieldLineBack(lex, pr, ch, f);
    PropsOne(lex, ch, FieldTokens(pr, f));
    if f.anim.Some? {
      AnimateLineBack(lex, pr, ch, f);
      PropsOne(lex, ch1, AnimTokens(pr, f)[0]);
      PropsConcat(lex, ch, [FieldTokens(pr, f)], AnimTokens(pr, f));
    } else {
      assert f.(anim := None) == f;
      assert FieldLines(pr, f) == [FieldTokens(pr, f)];
    }
  }

  function AllFieldLines(pr: Printer, fields: seq<Field>): seq<seq<string>> {
    if fields == [] then []
    else AllFieldLines(pr, fields[..|fields| - 1]) + FieldLines(pr, fields[|fields| - 1])
  }

  lemma {:induction false} AllFieldsBack(lex: Lex, pr: Printer, ch: Channel, fields: seq<Field>)
    requires Prints(lex, pr) && FieldsOk(lex, ch.cls, fields) && ch.fields == [] && (ch.cls == Store ==> fields == [])
    ensures Spoken(AllFieldLines(pr, fields))
    ensures Props(lex, ch, AllFieldLines(pr, fields)) == Some(ch.(fields := fields))
  {
    hide FieldOk, Prints, FieldLines, ChannelProp;
    if fields != [] {
      var last := |fields| - 1;
      AllFieldsBack(lex, pr, ch, fields[..last]);
      var ch1 := ch.(fields := fields[..last]);
      FieldLinesBack(lex, pr, ch1, fields[last]);
      PropsConcat(lex, ch, AllFieldLines(pr, fields[..last]), FieldLines(pr, fields[last]));
      assert fields[..last] + [fields[last]] == fields;
    }
  }

  // ---- a channel's lines ------------------------------------------------------------------------------

  function ClassName(cls: Class): string {
    match cls
    case State => "state"
    case Intent => "intent"
    case Event => "event"
    case Stream => "stream"
    case Store => "store"
  }

  function AccessName(a: Access): string {
    match a
    case Watch => "watch"
    case Control => "control"
    case Configure => "configure"
  }

  /** A property left at its initial value has no line. */
  function GivenLines(kw: string, v: string): seq<seq<string>> {
    if v != "" then [[kw, v]] else []
  }

  function PlainLines(ch: Channel): seq<seq<string>> {
    GivenLines("category", ch.category) + [["access", AccessName(ch.access)]]
  }

  function RateLines(pr: Printer, ch: Channel): seq<seq<string>> {
    if ch.rateHz != 0.0 then [["rate_hz", pr.float(ch.rateHz)]] else []
  }

  function CountLines(pr: Printer, kw: string, n: nat): seq<seq<string>> {
    if n != 0 then [[kw, pr.uint(n)]] else []
  }

  function WritesLines(pr: Printer, ch: Channel): seq<seq<string>> {
    if ch.writes.Some? then [["writes", pr.uint(ch.writes.value)]] else []
  }

  function DelayLines(pr: Printer, ch: Channel): seq<seq<string>> {
    if ch.echoDelay.Some? then [["echo_delay_ms", pr.uint(ch.echoDelay.value)]] else []
  }

  function StoreLines(pr: Printer, ch: Channel): seq<seq<string>> {
    if ch.cls == Store then
      GivenLines("kind", ch.store.kind)
      + (CountLines(pr, "capacity", ch.store.capacity)
         + (CountLines(pr, "per_item_max", ch.store.perItemMax) + CountLines(pr, "name_max", ch.store.nameMax)))
    else []
  }

  function PropLines(pr: Printer, ch: Channel): seq<seq<string>> {
    PlainLines(ch) + (RateLines(pr, ch) + (WritesLines(pr, ch) + (DelayLines(pr, ch)
      + (StoreLines(pr, ch) + AllFieldLines(pr, ch.fields)))))
  }

  function Header(pr: Printer, ch: Channel): seq<string> {
    [ClassName(ch.cls), pr.uint(ch.id), ch.name]
  }

  lemma PlainBack(lex: Lex, ch: Channel, g: Channel)
    requires g.category == ""
    ensures Spoken(PlainLines(ch))
    ensures Props(lex, g, PlainLines(ch)) == Some(g.(category := ch.category, access := ch.access))
  {
    hide FieldLine, AnimateLine, StoreProp;
    var g1 := g.(category := ch.category);
    var last := ["access", AccessName(ch.access)];
    assert ChannelProp(lex, g1, last) == Some(g1.(access := ch.access));
    PropsOne(lex, g1, last);
    if ch.category != "" {
      PropsOne(lex, g, ["category", ch.category]);
    }
    PropsConcat(lex, g, GivenLines("category", ch.category), [last]);
  }

  lemma RateBack(lex: Lex, pr: Printer, ch: Channel, g: Channel)
    requires Prints(lex, pr) && ChannelOk(lex, ch) && g.rateHz == 0.0
    ensures Spoken(RateLines(pr, ch))
    ensures Props(lex, g, RateLines(pr, ch)) == Some(g.(rateHz := ch.rateHz))
  {
    hide FieldLine, AnimateLine, StoreProp, Prints, FieldsOk, StoreOk;
    if ch.rateHz != 0.0 {
      FloatBack(lex, pr, ch.rateHz);
      PropsOne(lex, g, ["rate_hz", pr.float(ch.rateHz)]);
    }
  }

  lemma WritesBack(lex: Lex, pr: Printer, ch: Channel, g: Channel)
    requires Prints(lex, pr) && ChannelOk(lex, ch) && g.cls == ch.cls && g.writes.None?
    ensures Spoken(WritesLines(pr, ch))
    ensures Props(lex, g, WritesLines(pr, ch)) == Some(g.(writes := ch.writes))
  {
    hide FieldLine, AnimateLine, StoreProp, Prints;
    if ch.writes.Some? {
      UintBack(lex, pr, ch.writes.value, 0xFFFF);
      PropsOne(lex, g, ["writes", pr.uint(ch.writes.value)]);
    }
  }

  lemma DelayBack(lex: Lex, pr: Printer, ch: Channel, g: Channel)
    requires Prints(lex, pr) && ChannelOk(lex, ch) && g.cls == ch.cls && g.echoDelay.None?
    ensures Spoken(DelayLines(pr, ch))
    ensures Props(lex, g, DelayLines(pr, ch)) == Some(g.(echoDelay := ch.echoDelay))
  {
    hide FieldLine, AnimateLine, StoreProp, Prints;
    if ch.echoDelay.Some? {
      UintBack(lex, pr, ch.echoDelay.value, 0);
      PropsOne(lex, g, ["echo_delay_ms", pr.uint(ch.echoDelay.value)]);
    }
  }

  /** A count of a store, when its line is written. */
  lemma CountBack(lex: Lex, pr: Printer, kw: string, n: nat, limit: nat, g: Channel, g1: Channel)
    requires Prints(lex, pr) && ZeroOrRead(lex, n, limit) && limit < 0x1_0000_0000 && g.cls == Store
    requires kw != "field" && kw != "animate" && ClassProp(kw)
    requires n == 0 ==> g1 == g
    requires Bounded(lex, pr.uint(n), limit) == Some(n) ==>
               var info := StoreProp(lex, g.store, kw, pr.uint(n)); info.Some? && g1 == g.(store := info.value)
    ensures Spoken(CountLines(pr, kw, n)) && Props(lex, g, CountLines(pr, kw, n)) == Some(g1)
  {
    hide FieldLine, AnimateLine, StoreProp, Prints;
    if n != 0 {
      UintBack(lex, pr, n, limit);
      PropsOne(lex, g, [kw, pr.uint(n)]);
    }
  }

  /** None of the properties that any channel may have. */
  predicate ClassProp(kw: string) {
    kw != "category" && kw != "rate_hz" && kw != "access" && kw != "writes" && kw != "echo_delay_ms"
  }

  lemma StoreBack(lex: Lex, pr: Printer, ch: Channel, g: Channel)
    requires Prints(lex, pr) && ChannelOk(lex, ch) && g.cls == ch.cls && g.store == NO_STORE
    ensures Spoken(StoreLines(pr, ch))
    ensures Props(lex, g, StoreLines(pr, ch)) == Some(g.(store := ch.store))
  {
    hide FieldLine, AnimateLine, Prints, FieldsOk, Props, CountLines, ReadsUint;
    if ch.cls == Store {
      var info := ch.store;
      var g1 := g.(store := StoreInfo(info.kind, 0, 0, 0));
      var g2 := g.(store := StoreInfo(info.kind, info.capacity, 0, 0));
      var g3 := g.(store := StoreInfo(info.kind, info.capacity, info.perItemMax, 0));
      KindBack(lex, info.kind, g);
      CountBack(lex, pr, "capacity", info.capacity, 0xFFFF, g1, g2);
      CountBack(lex, pr, "per_item_max", info.perItemMax, 0xFFFF_FFFF, g2, g3);
      CountBack(lex, pr, "name_max", info.nameMax, 0xFFFF, g3, g.(store := info));
      var c, i, n := CountLines(pr, "capacity", info.capacity), CountLines(pr, "per_item_max", info.perItemMax),
                     CountLines(pr, "name_max", info.nameMax);
      PropsConcat(lex, g2, i, n);
      PropsConcat(lex, g1, c, i + n);
      PropsConcat(lex, g, GivenLines("kind", info.kind), c + (i + n));
    } else {
      PropsNone(lex, g);
    }
  }

  lemma KindBack(lex: Lex, kind: string, g: Channel)
    requires g.cls == Store && g.store == NO_STORE
    ensures Spoken(GivenLines("kind", kind))
    ensures Props(lex, g, GivenLines("kind", kind)) == Some(g.(store := StoreInfo(kind, 0, 0, 0)))
  {
    hide FieldLine, AnimateLine;
    if kind != "" { PropsOne(lex, g, ["kind", kind]); }
  }

  lemma PropsNone(lex: Lex, g: Channel)
    ensures Props(lex, g, []) == Some(g)
  {
  }

  /** The lines under a channel's header build the channel. */
  lemma PropLinesBack(lex: Lex, pr: Printer, ch: Channel)
    requires Prints(lex, pr) && ChannelOk(lex, ch)
    ensures Spoken(PropLines(pr, ch))
    ensures Props(lex, NewChannel(ch.id, ch.name, ch.cls), PropLines(pr, ch)) == Some(ch)
  {
    hide Props, Prints, FieldsOk, PlainLines, RateLines, WritesLines, DelayLines, StoreLines, AllFieldLines, StoreOk;
    var g := NewChannel(ch.id, ch.name, ch.cls);
    var g1 := g.(category := ch.category, access := ch.access);
    var g2 := g1.(rateHz := ch.rateHz);
    var g3 := g2.(writes := ch.writes);
    var g4 := g3.(echoDelay := ch.echoDelay);
    var g5 := g4.(store := ch.store);
    var fields := AllFieldLines(pr, ch.fields);
    AllFieldsBack(lex, pr, g5, ch.fields);
    StoreBack(lex, pr, ch, g4);
    PropsConcat(lex, g4, StoreLines(pr, ch), fields);
    var afterDelay := StoreLines(pr, ch) + fields;
    DelayBack(lex, pr, ch, g3);
    PropsConcat(lex, g3, DelayLines(pr, ch), afterDelay);
    var afterWrites := DelayLines(pr, ch) + afterDelay;
    WritesBack(lex, pr, ch, g2);
    PropsConcat(lex, g2, WritesLines(pr, ch), afterWrites);
    var afterRate := WritesLines(pr, ch) + afterWrites;
    RateBack(lex, pr, ch, g1);
    PropsConcat(lex, g1, RateLines(pr, ch), afterRate);
    PlainBack(lex, ch, g);
    PropsConcat(lex, g, PlainLines(ch), RateLines(pr, ch) + afterRate);
  }

  // ---- a whole file --------------------------------------------------------------------------------------

  /** Lines that open no block of their own. */
  predicate Inner(lines: seq<seq<string>>) {
    forall k | 0 <= k < |lines| :: lines[k] != [] && lines[k][0] != "hub" && ClassOf(lines[k][0]).None?
  }

  lemma InnerConcat(a: seq<seq<string>>, b: seq<seq<string>>)
    requires Inner(a) && Inner(b)
    ensures Inner(a + b)
  {
    hide ClassOf;
  }

  lemma FieldInner(pr: Printer, f: Field)
    ensures Inner(FieldLines(pr, f))
  {
  }

  lemma {:induction false} FieldsInner(pr: Printer, fields: seq<Field>)
    ensures Inner(AllFieldLines(pr, fields))
  {
    hide FieldLines, Inner;
    if fields == [] {
      NothingInner();
    } else {
      var last := |fields| - 1;
      FieldsInner(pr, fields[..last]);
      FieldInner(pr, fields[last]);
      InnerConcat(AllFieldLines(pr, fields[..last]), FieldLines(pr, fields[last]));
    }
  }

  lemma NothingInner()
    ensures Inner([])
  {
  }

  lemma StoreInner(pr: Printer, ch: Channel)
    ensures Inner(StoreLines(pr, ch))
  {
  }

  lemma OptionalInner(pr: Printer, ch: Channel)
    ensures Inner(PlainLines(ch)) && Inner(RateLines(pr, ch)) && Inner(WritesLines(pr, ch)) && Inner(DelayLines(pr, ch))
  {
  }

  lemma PropsInner(pr: Printer, ch: Channel)
    ensures Inner(PropLines(pr, ch))
  {
    hide AllFieldLines, PlainLines, RateLines, WritesLines, DelayLines, StoreLines, ClassOf;
    FieldsInner(pr, ch.fields);
    StoreInner(pr, ch);
    OptionalInner(pr, ch);
  }

  lemma {:induction false} LinesConcat(lex: Lex, p: Progress, a: seq<seq<string>>, b: seq<seq<string>>)
    requires Placed(p) && Lines(lex, p, a).Some?
    ensures Lines(lex, p, a + b) == Lines(lex, Lines(lex, p, a).value, b)
    decreases |a|
  {
    hide Line;
    if a == [] {
      assert a + b == b;
    } else {
      assert (a + b)[1..] == a[1..] + b;
      LinesConcat(lex, Line(lex, p, a[0]).value, a[1..], b);
    }
  }

  /** Within a channel's block the lines are its properties. */
  lemma {:induction false} LinesAreProps(lex: Lex, p: Progress, lines: seq<seq<string>>)
    requires p.mode.InChannel? && Placed(p) && Inner(lines) && Spoken(lines)
    requires Props(lex, p.hub.channels[p.mode.current], lines).Some?
    ensures var ch := Props(lex, p.hub.channels[p.mode.current], lines).value;
            Lines(lex, p, lines) == Some(p.(hub := p.hub.(channels := p.hub.channels[p.mode.current := ch])))
    decreases |lines|
  {
    hide ChannelProp, HubProp, ClassOf;
    var k := p.mode.current;
    if lines == [] {
      assert p.hub.channels[k := p.hub.channels[k]] == p.hub.channels;
    } else {
      var ch1 := ChannelProp(lex, p.hub.channels[k], lines[0]).value;
      var p1 := p.(hub := p.hub.(channels := p.hub.channels[k := ch1]));
      assert lines[0] != [] && lines[0][0] != "hub" && ClassOf(lines[0][0]).None?;
      assert Line(lex, p, lines[0]) == Some(p1);
      LinesAreProps(lex, p1, lines[1..]);
      var ch := Props(lex, ch1, lines[1..]).value;
      assert p.hub.channels[k := ch1][k := ch] == p.hub.channels[k := ch];
    }
  }

  function ChannelLines(pr: Printer, ch: Channel): seq<seq<string>> {
    [Header(pr, ch)] + PropLines(pr, ch)
  }

  lemma HeaderBack(lex: Lex, pr: Printer, p: Progress, ch: Channel)
    requires Prints(lex, pr) && Placed(p) && ReadsUint(lex, ch.id) && ch.id <= 0xFFFF
    ensures Line(lex, p, Header(pr, ch))
              == Some(Progress(InChannel(|p.hub.channels|),
                               p.hub.(channels := p.hub.channels + [NewChannel(ch.id, ch.name, ch.cls)])))
  {
    UintBack(lex, pr, ch.id, 0xFFFF);
  }

  lemma ChannelBack(lex: Lex, pr: Printer, p: Progress, ch: Channel)
    requires Prints(lex, pr) && Placed(p) && ChannelOk(lex, ch)
    ensures Lines(lex, p, ChannelLines(pr, ch))
              == Some(Progress(InChannel(|p.hub.channels|), p.hub.(channels := p.hub.channels + [ch])))
  {
    hide Prints, Line, PropLines, Props, FieldsOk, Header;
    HeaderBack(lex, pr, p, ch);
    var g := NewChannel(ch.id, ch.name, ch.cls);
    var n := |p.hub.channels|;
    var p1 := Progress(InChannel(n), p.hub.(channels := p.hub.channels + [g]));
    assert ChannelLines(pr, ch)[1..] == PropLines(pr, ch);
    PropLinesBack(lex, pr, ch);
    PropsInner(pr, ch);
    assert p1.hub.channels[n] == g;
    LinesAreProps(lex, p1, PropLines(pr, ch));
    assert p1.hub.channels[n := ch] == p.hub.channels + [ch];
  }

  function AllChannelLines(pr: Printer, channels: seq<Channel>): seq<seq<string>> {
    if channels == [] then []
    else AllChannelLines(pr, channels[..|channels| - 1]) + ChannelLines(pr, channels[|channels| - 1])
  }

  lemma {:induction false} AllChannelsBack(lex: Lex, pr: Printer, p: Progress, channels: seq<Channel>)
    requires Prints(lex, pr) && Placed(p) && p.hub.channels == []
    requires forall k | 0 <= k < |channels| :: ChannelOk(lex, channels[k])
    ensures var r := Lines(lex, p, AllChannelLines(pr, channels));
            r.Some? && r.value.hub == p.hub.(channels := channels)
  {
    hide Prints, ChannelOk, Line, ChannelLines;
    if channels == [] {
      assert p.hub.(channels := []) == p.hub;
    } else {
      var last := |channels| - 1;
      AllChannelsBack(lex, pr, p, channels[..last]);
      var p1 := Lines(lex, p, AllChannelLines(pr, channels[..last])).value;
      ChannelBack(lex, pr, p1, channels[last]);
      LinesConcat(lex, p, AllChannelLines(pr, channels[..last]), ChannelLines(pr, channels[last]));
      assert channels[..last] + [channels[last]] == channels;
    }
  }

  function NameLines(hub: Hub): seq<seq<string>> {
    [["hub"], ["name", hub.name], ["fw_version", hub.fwVersion], ["product", hub.product]]
  }

  function HubLines(pr: Printer, hub: Hub): seq<seq<string>> {
    NameLines(hub) + CountLines(pr, "echo_delay_ms", hub.echoDelay)
  }

  lemma HubBack(lex: Lex, pr: Printer, hub: Hub)
    requires Prints(lex, pr) && ZeroOrRead(lex, hub.echoDelay, 0xFFFF_FFFF)
    ensures Lines(lex, BEGIN, HubLines(pr, hub)) == Some(Progress(InHub, hub.(channels := [])))
  {
    hide Lines, ChannelProp, Prints, Uint;
    var ls := NameLines(hub);
    var h0 := Progress(InHub, DEFAULTS);
    var h1 := h0.(hub := h0.hub.(name := hub.name));
    var h2 := h1.(hub := h1.hub.(fwVersion := hub.fwVersion));
    var h3 := h2.(hub := h2.hub.(product := hub.product));
    var h4 := h3.(hub := h3.hub.(echoDelay := hub.echoDelay));
    assert Line(lex, BEGIN, ls[0]) == Some(h0);
    assert Line(lex, h0, ls[1]) == Some(h1);
    assert Line(lex, h1, ls[2]) == Some(h2);
    assert Line(lex, h2, ls[3]) == Some(h3);
    LinesThrough(lex, ls, [BEGIN, h0, h1, h2, h3]);
    var last := CountLines(pr, "echo_delay_ms", hub.echoDelay);
    if hub.echoDelay != 0 {
      UintBack(lex, pr, hub.echoDelay, 0);
      assert Line(lex, h3, last[0]) == Some(h4);
      LinesThrough(lex, last, [h3, h4]);
    } else {
      LinesThrough(lex, last, [h3]);
    }
    LinesConcat(lex, BEGIN, ls, last);
  }

  predicate Leads(lex: Lex, p: Progress, tok: seq<string>, q: Progress) {
    Placed(p) && Line(lex, p, tok) == Some(q)
  }

  lemma {:induction false} LinesThrough(lex: Lex, lines: seq<seq<string>>, ps: seq<Progress>)
    requires |ps| == |lines| + 1 && Placed(ps[0])
    requires forall i, j | 0 <= i < |lines| && j == i + 1 :: Leads(lex, ps[i], lines[i], ps[j])
    ensures Lines(lex, ps[0], lines) == Some(ps[|lines|])
    decreases |lines|
  {
    hide Line;
    if lines != [] {
      assert Leads(lex, ps[0], lines[0], ps[1]);
      forall i, j | 0 <= i < |lines| - 1 && j == i + 1 ensures Leads(lex, ps[1..][i], lines[1..][i], ps[1..][j]) {
        assert Leads(lex, ps[j], lines[j], ps[j + 1]);
      }
      LinesThrough(lex, lines[1..], ps[1..]);
    }
  }

  function Render(pr: Printer, hub: Hub): seq<seq<string>> {
    HubLines(pr, hub) + AllChannelLines(pr, hub.channels)
  }

  // ---- every line is a line of tokens -------------------------------------------------------------

  lemma TokenLinesConcat(a: seq<seq<string>>, b: seq<seq<string>>)
    requires TokenLines(a) && TokenLines(b)
    ensures TokenLines(a + b)
  {
    hide AllTokens;
  }

  lemma HubWordsAreTokens()
    ensures Token("hub") && Token("name") && Token("fw_version") && Token("product") && Token("echo_delay_ms")
  {
  }

  lemma ChannelWordsAreTokens()
    ensures Token("category") && Token("access") && Token("rate_hz") && Token("writes")
    ensures forall cls :: Token(ClassName(cls))
    ensures forall a :: Token(AccessName(a))
  {
  }

  lemma StoreWordsAreTokens()
    ensures Token("kind") && Token("capacity") && Token("per_item_max") && Token("name_max")
  {
  }

  lemma FieldWordsAreTokens()
    ensures Token("field") && Token("animate") && Token("sine") && Token("ramp")
    ensures Token("-") && Token("key") && Token("default")
  {
  }

  lemma KindsAreTokens(name: string)
    requires name in LAYOUT_KINDS || name in SCHEMA_KINDS
    ensures Token(name)
  {
  }

  lemma JoinedToken(a: string, b: string)
    requires Token(a) && Token(b)
    ensures Token(a + "=" + b)
  {
  }

  lemma FieldTokensAre(lex: Lex, pr: Printer, cls: Class, f: Field)
    requires Prints(lex, pr) && FieldOk(lex, cls, f)
    ensures TokenLines(FieldLines(pr, f))
  {
    hide Prints, Token, ReadsUint, ReadsFloat, ReadsBare, LAYOUT_KINDS, SCHEMA_KINDS;
    FieldWordsAreTokens();
    KindsAreTokens(f.ty.name);
    if f.min.Some? {
      FloatBack(lex, pr, f.min.value);
      FloatBack(lex, pr, f.max.value);
    }
    if f.key.Some? {
      UintBack(lex, pr, f.key.value, 0xFF);
      JoinedToken("key", pr.uint(f.key.value));
    }
    if f.default.Some? {
      FloatBack(lex, pr, f.default.value);
      JoinedToken("default", pr.float(f.default.value));
    }
    if f.anim.Some? {
      FloatBack(lex, pr, f.anim.value.hz);
      FloatBack(lex, pr, f.anim.value.a);
      FloatBack(lex, pr, f.anim.value.b);
    }
    assert AllTokens(RangeTokens(pr, f)) && AllTokens(KeyTokens(pr, f)) && AllTokens(DefaultTokens(pr, f));
    assert AllTokens(FieldTokens(pr, f));
  }

  lemma {:induction false} AllFieldTokensAre(lex: Lex, pr: Printer, cls: Class, fields: seq<Field>)
    requires Prints(lex, pr) && FieldsOk(lex, cls, fields)
    ensures TokenLines(AllFieldLines(pr, fields))
  {
    hide Prints, FieldOk, FieldLines, AllTokens;
    if fields != [] {
      var last := |fields| - 1;
      AllFieldTokensAre(lex, pr, cls, fields[..last]);
      FieldTokensAre(lex, pr, cls, fields[last]);
      TokenLinesConcat(AllFieldLines(pr, fields[..last]), FieldLines(pr, fields[last]));
    }
  }

  lemma CountTokensAre(lex: Lex, pr: Printer, kw: string, n: nat, limit: nat)
    requires Prints(lex, pr) && Token(kw) && ZeroOrRead(lex, n, limit)
    ensures TokenLines(CountLines(pr, kw, n))
  {
    hide Prints, Token, ReadsUint;
    if n != 0 { UintBack(lex, pr, n, limit); }
  }

  lemma StoreTokensAre(lex: Lex, pr: Printer, ch: Channel)
    requires Prints(lex, pr) && ChannelOk(lex, ch)
    ensures TokenLines(StoreLines(pr, ch))
  {
    hide Prints, Token, ReadsUint, ReadsFloat, FieldsOk, CountLines;
    StoreWordsAreTokens();
    if ch.cls == Store {
      CountTokensAre(lex, pr, "capacity", ch.store.capacity, 0xFFFF);
      CountTokensAre(lex, pr, "per_item_max", ch.store.perItemMax, 0xFFFF_FFFF);
      CountTokensAre(lex, pr, "name_max", ch.store.nameMax, 0xFFFF);
      assert TokenLines(GivenLines("kind", ch.store.kind));
    }
  }

  lemma PairTokensAre(kw: string, v: string)
    requires Token(kw) && Token(v)
    ensures TokenLines([[kw, v]])
  {
    hide Token;
  }

  lemma PlainTokensAre(lex: Lex, ch: Channel)
    requires ChannelOk(lex, ch)
    ensures TokenLines(PlainLines(ch))
  {
    hide Token, TokenLines, FieldsOk, StoreOk, ReadsUint, ReadsFloat, AccessName;
    ChannelWordsAreTokens();
    PairTokensAre("access", AccessName(ch.access));
    var last := [["access", AccessName(ch.access)]];
    if ch.category == "" {
      assert PlainLines(ch) == last;
    } else {
      PairTokensAre("category", ch.category);
      TokenLinesConcat([["category", ch.category]], last);
    }
  }

  lemma NoTokenLines()
    ensures TokenLines([])
  {
  }

  lemma OptionalTokensAre(lex: Lex, pr: Printer, ch: Channel)
    requires Prints(lex, pr) && ChannelOk(lex, ch)
    ensures TokenLines(RateLines(pr, ch)) && TokenLines(WritesLines(pr, ch)) && TokenLines(DelayLines(pr, ch))
  {
    hide Prints, Token, TokenLines, ReadsUint, ReadsFloat, FieldsOk, StoreOk;
    HubWordsAreTokens();
    ChannelWordsAreTokens();
    NoTokenLines();
    if ch.rateHz != 0.0 {
      FloatBack(lex, pr, ch.rateHz);
      PairTokensAre("rate_hz", pr.float(ch.rateHz));
    }
    if ch.writes.Some? {
      UintBack(lex, pr, ch.writes.value, 0xFFFF);
      PairTokensAre("writes", pr.uint(ch.writes.value));
    }
    if ch.echoDelay.Some? {
      UintBack(lex, pr, ch.echoDelay.value, 0);
      PairTokensAre("echo_delay_ms", pr.uint(ch.echoDelay.value));
    }
  }

  lemma PropTokensAre(lex: Lex, pr: Printer, ch: Channel)
    requires Prints(lex, pr) && ChannelOk(lex, ch)
    ensures TokenLines(PropLines(pr, ch))
  {
    hide Prints, TokenLines, FieldsOk, StoreOk, PlainLines, RateLines, WritesLines, DelayLines, StoreLines, AllFieldLines;
    var fields := AllFieldLines(pr, ch.fields);
    AllFieldTokensAre(lex, pr, ch.cls, ch.fields);
    StoreTokensAre(lex, pr, ch);
    OptionalTokensAre(lex, pr, ch);
    PlainTokensAre(lex, ch);
    TokenLinesConcat(StoreLines(pr, ch), fields);
    var afterDelay := StoreLines(pr, ch) + fields;
    TokenLinesConcat(DelayLines(pr, ch), afterDelay);
    var afterWrites := DelayLines(pr, ch) + afterDelay;
    TokenLinesConcat(WritesLines(pr, ch), afterWrites);
    var afterRate := WritesLines(pr, ch) + afterWrites;
    TokenLinesConcat(RateLines(pr, ch), afterRate);
    TokenLinesConcat(PlainLines(ch), RateLines(pr, ch) + afterRate);
  }

  lemma HeaderTokensAre(lex: Lex, pr: Printer, ch: Channel)
    requires Prints(lex, pr) && ChannelOk(lex, ch)
    ensures TokenLines([Header(pr, ch)])
  {
    hide Prints, Token, FieldsOk, StoreOk, ReadsUint, ReadsFloat, ClassName;
    ChannelWordsAreTokens();
    UintBack(lex, pr, ch.id, 0xFFFF);
  }

  lemma ChannelTokensAre(lex: Lex, pr: Printer, ch: Channel)
    requires Prints(lex, pr) && ChannelOk(lex, ch)
    ensures TokenLines(ChannelLines(pr, ch))
  {
    hide Prints, ChannelOk, TokenLines, PropLines, Header;
    HeaderTokensAre(lex, pr, ch);
    PropTokensAre(lex, pr, ch);
    TokenLinesConcat([Header(pr, ch)], PropLines(pr, ch));
  }

  lemma {:induction false} AllChannelTokensAre(lex: Lex, pr: Printer, channels: seq<Channel>)
    requires Prints(lex, pr) && forall k | 0 <= k < |channels| :: ChannelOk(lex, channels[k])
    ensures TokenLines(AllChannelLines(pr, channels))
  {
    hide Prints, ChannelOk, ChannelLines, AllTokens;
    if channels != [] {
      var last := |channels| - 1;
      AllChannelTokensAre(lex, pr, channels[..last]);
      ChannelTokensAre(lex, pr, channels[last]);
      TokenLinesConcat(AllChannelLines(pr, channels[..last]), ChannelLines(pr, channels[last]));
    }
  }

  lemma RenderTokensAre(lex: Lex, pr: Printer, hub: Hub)
    requires Prints(lex, pr) && HubOk(lex, hub)
    ensures TokenLines(Render(pr, hub))
  {
    hide Prints, ChannelOk, Token, AllChannelLines, CountLines;
    HubWordsAreTokens();
    CountTokensAre(lex, pr, "echo_delay_ms", hub.echoDelay, 0xFFFF_FFFF);
    AllChannelTokensAre(lex, pr, hub.channels);
    assert TokenLines(NameLines(hub));
    TokenLinesConcat(NameLines(hub), CountLines(pr, "echo_delay_ms", hub.echoDelay));
    TokenLinesConcat(HubLines(pr, hub), AllChannelLines(pr, hub.channels));
  }

  // ---- the round trip -------------------------------------------------------------------------------

  lemma LinesRoundTrip(lex: Lex, pr: Printer, hub: Hub)
    requires Prints(lex, pr) && HubOk(lex, hub) && ValidHub(hub)
    ensures Load(lex, Render(pr, hub)) == Some(hub)
  {
    hide Prints, ValidHub, Lines, HubLines, AllChannelLines, Token;
    HubBack(lex, pr, hub);
    var p := Progress(InHub, hub.(channels := []));
    AllChannelsBack(lex, pr, p, hub.channels);
    LinesConcat(lex, BEGIN, HubLines(pr, hub), AllChannelLines(pr, hub.channels));
    assert p.hub.(channels := hub.channels) == hub;
  }

  /** Lines as `getline` gives them. */
  predicate FileLines(text: seq<string>) { forall k | 0 <= k < |text| :: '\n' !in text[k] }

  /**
   Every well-formed valid configuration, written out as the text of a file by any
   printer that writes each number as a token which reads as it, is read back as
   it was.
   */
  lemma RoundTrip(lex: Lex, pr: Printer, hub: Hub)
    requires Prints(lex, pr) && HubOk(lex, hub) && ValidHub(hub)
    ensures LoadText(lex, Written(Render(pr, hub))) == Some(hub)
    ensures FileLines(Written(Render(pr, hub)))
  {
    hide Prints, ValidHub, HubOk, Load, Render;
    LinesRoundTrip(lex, pr, hub);
    RenderTokensAre(lex, pr, hub);
    WrittenBack(Render(pr, hub));
  }

  /**
   For every lexer, what the parser can return for the text of some file is
   exactly the well-formed valid configurations whose names are tokens and whose
   numbers the lexer can return.
   */
  lemma AcceptsExactly(lex: Lex, hub: Hub)
    ensures (exists text :: FileLines(text) && LoadText(lex, text) == Some(hub)) <==> HubOk(lex, hub) && ValidHub(hub)
  {
    hide Load, HubOk, ValidHub, Render;
    if HubOk(lex, hub) && ValidHub(hub) {
      RoundTrip(lex, PrinterFor(lex), hub);
    }
    if text :| LoadText(lex, text) == Some(hub) {
      TextGivesTokens(text);
      AcceptedIsValid(lex, TextLines(text));
    }
  }
}
