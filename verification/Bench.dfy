/**
 The bench hub's configuration files (hub/slopbench/src/config): the lines, as
 tokens, and what each does to the configuration being built.
 */
module Bench {
  import opened Wire

  // ---- the configuration ---------------------------------------------------------------

  datatype Class = State | Intent | Event | Stream | Store

  datatype Access = Watch | Control | Configure

  /** A field's type by its name in the file: packed for STATE and STREAM, CBOR for INTENT and EVENT. */
  datatype FieldType = Packed(name: string) | Cbor(name: string)

  datatype AnimKind = Sine | Ramp

  datatype Anim = Anim(kind: AnimKind, hz: real, a: real, b: real)

  datatype Field = Field(
    name: string, ty: FieldType, unit: string,
    min: Option<real>, max: Option<real>, key: Option<nat>, default: Option<real>, anim: Option<Anim>)

  datatype StoreInfo = StoreInfo(kind: string, capacity: nat, perItemMax: nat, nameMax: nat)

  datatype Channel = Channel(
    id: nat, name: string, cls: Class, category: string, rateHz: real, access: Access,
    writes: Option<nat>, echoDelay: Option<nat>, store: StoreInfo, fields: seq<Field>)

  datatype Hub = Hub(name: string, fwVersion: string, product: string, echoDelay: nat, channels: seq<Channel>)

  const NO_STORE := StoreInfo("", 0, 0, 0)

  const DEFAULTS := Hub("slopbench", "0.1.0", "SlopBench", 0, [])

  const LAYOUT_KINDS: set<string> :=
    {"u8", "i8", "u16", "i16", "u32", "i32", "f32", "bitfield8", "str16", "str32", "str64"}

  const SCHEMA_KINDS: set<string> := {"uint", "int", "f32", "bool", "tstr", "bstr"}

  predicate IsLayout(cls: Class) { cls == State || cls == Stream }

  // ---- tokens ------------------------------------------------------------------------------

  /** What `operator>>` skips between tokens. */
  predicate Blank(c: char) {
    c == ' ' || c == '\t' || c == '\n' || c == '\U{000B}' || c == '\U{000C}' || c == '\r'
  }

  /** What a line, cut at its comment, can be split into. */
  predicate Token(s: string) {
    s != "" && forall i | 0 <= i < |s| :: !Blank(s[i]) && s[i] != '#'
  }

  predicate AllTokens(tok: seq<string>) { forall k | 0 <= k < |tok| :: Token(tok[k]) }

  predicate TokenLines(lines: seq<seq<string>>) { forall k | 0 <= k < |lines| :: AllTokens(lines[k]) }

  /** A name left at its initial emptiness, or given. */
  predicate EmptyOrToken(s: string) { s == "" || Token(s) }

  // ---- numbers -----------------------------------------------------------------------------

  /** How the C library reads a whole token, in the base its prefix asks for; `None` if it does not. */
  datatype Lex = Lex(uint: string -> Option<nat>, float: string -> Option<real>)

  /** `parseUintTok`: the value is cut to 32 bits before any range check. */
  function Uint(lex: Lex, s: string): (r: Option<nat>)
    ensures r.Some? ==> r.value < 0x1_0000_0000
  {
    if s == "" || lex.uint(s).None? then None else Some(lex.uint(s).value % 0x1_0000_0000)
  }

  function Bounded(lex: Lex, s: string, limit: nat): (r: Option<nat>)
    ensures r.Some? ==> r.value <= limit
  {
    var v := Uint(lex, s);
    if v.Some? && v.value <= limit then v else None
  }

  function Float(lex: Lex, s: string): Option<real> {
    if s == "" then None else lex.float(s)
  }

  // ---- field lines ----------------------------------------------------------------------------

  /** The position of the first `=`, or the length. */
  function FindEq(t: string): (n: nat)
    ensures n <= |t|
  {
    if t == "" || t[0] == '=' then 0 else 1 + FindEq(t[1..])
  }

  /** One attribute of a field: `key=`, `default=`, or a bare number for min and then max. */
  function Attribute(lex: Lex, f: Field, t: string): Option<Field> {
    var eq := FindEq(t);
    if eq < |t| then
      var key, val := t[..eq], t[eq + 1..];
      if key == "key" then
        var v := Bounded(lex, val, 0xFF);
        if v.Some? then Some(f.(key := v)) else None
      else if key == "default" then
        var v := Float(lex, val);
        if v.Some? then Some(f.(default := v)) else None
      else None
    else
      var v := Float(lex, t);
      if v.None? then None
      else if f.min.None? then Some(f.(min := v))
      else if f.max.None? then Some(f.(max := v))
      else None
  }

  function Attributes(lex: Lex, f: Field, toks: seq<string>): Option<Field>
    decreases |toks|
  {
    if toks == [] then Some(f)
    else
      var f1 := Attribute(lex, f, toks[0]);
      if f1.None? then None else Attributes(lex, f1.value, toks[1..])
  }

  function TypeOf(cls: Class, name: string): Option<FieldType> {
    if IsLayout(cls) then if name in LAYOUT_KINDS then Some(Packed(name)) else None
    else if name in SCHEMA_KINDS then Some(Cbor(name)) else None
  }

  /** The index of the first field of that name, or how many there are. */
  function Named(fields: seq<Field>, name: string): (n: nat)
    ensures n <= |fields|
    ensures n < |fields| ==> fields[n].name == name
    ensures forall i | 0 <= i < n :: fields[i].name != name
  {
    if fields == [] || fields[0].name == name then 0 else 1 + Named(fields[1..], name)
  }

  function NewField(name: string, ty: FieldType, unit: string): Field {
    Field(name, ty, if unit == "-" then "" else unit, None, None, None, None, None)
  }

  predicate Finished(cls: Class, f: Field) {
    f.min.Some? == f.max.Some? && f.key.Some? == !IsLayout(cls)
  }

  function FieldLine(lex: Lex, ch: Channel, tok: seq<string>): Option<Channel> {
    if ch.cls == Store || |tok| < 4 || Named(ch.fields, tok[1]) < |ch.fields| || TypeOf(ch.cls, tok[2]).None? then None
    else
      var f := Attributes(lex, NewField(tok[1], TypeOf(ch.cls, tok[2]).value, tok[3]), tok[4..]);
      if f.None? || !Finished(ch.cls, f.value) then None else Some(ch.(fields := ch.fields + [f.value]))
  }

  function AnimateLine(lex: Lex, ch: Channel, tok: seq<string>): Option<Channel> {
    if ch.cls != State || |tok| != 6 then None
    else
      var i := Named(ch.fields, tok[1]);
      if i == |ch.fields| || (tok[2] != "sine" && tok[2] != "ramp") then None
      else
        var hz, a, b := Float(lex, tok[3]), Float(lex, tok[4]), Float(lex, tok[5]);
        if hz.None? || a.None? || b.None? then None
        else
          var anim := Anim(if tok[2] == "sine" then Sine else Ramp, hz.value, a.value, b.value);
          Some(ch.(fields := ch.fields[i := ch.fields[i].(anim := Some(anim))]))
  }

  // ---- the other lines ---------------------------------------------------------------------------

  function AccessOf(v: string): Option<Access> {
    if v == "watch" then Some(Watch) else if v == "control" then Some(Control)
    else if v == "configure" then Some(Configure) else None
  }

  /** A store's property. */
  function StoreProp(lex: Lex, info: StoreInfo, kw: string, v: string): Option<StoreInfo> {
    match kw
    case "kind" => Some(info.(kind := v))
    case "capacity" => var n := Bounded(lex, v, 0xFFFF); if n.Some? then Some(info.(capacity := n.value)) else None
    case "per_item_max" => var n := Uint(lex, v); if n.Some? then Some(info.(perItemMax := n.value)) else None
    case "name_max" => var n := Bounded(lex, v, 0xFFFF); if n.Some? then Some(info.(nameMax := n.value)) else None
    case _ => None
  }

  function ChannelProp(lex: Lex, ch: Channel, tok: seq<string>): Option<Channel>
    requires tok != []
  {
    if tok[0] == "field" then FieldLine(lex, ch, tok)
    else if tok[0] == "animate" then AnimateLine(lex, ch, tok)
    else if |tok| != 2 then None
    else
      var v := tok[1];
      match tok[0]
      case "category" => Some(ch.(category := v))
      case "rate_hz" => var r := Float(lex, v); if r.Some? then Some(ch.(rateHz := r.value)) else None
      case "access" => var a := AccessOf(v); if a.Some? then Some(ch.(access := a.value)) else None
      case "writes" =>
        var id := Bounded(lex, v, 0xFFFF);
        if ch.cls == Intent && id.Some? then Some(ch.(writes := id)) else None
      case "echo_delay_ms" =>
        var ms := Uint(lex, v);
        if ch.cls == Intent && ms.Some? then Some(ch.(echoDelay := ms)) else None
      case kw =>
        var info := StoreProp(lex, ch.store, kw, v);
        if ch.cls == Store && info.Some? then Some(ch.(store := info.value)) else None
  }

  function HubProp(lex: Lex, hub: Hub, tok: seq<string>): (r: Option<Hub>)
    requires tok != []
    ensures r.Some? ==> r.value.channels == hub.channels
  {
    if |tok| != 2 then None
    else
      match tok[0]
      case "name" => Some(hub.(name := tok[1]))
      case "fw_version" => Some(hub.(fwVersion := tok[1]))
      case "product" => Some(hub.(product := tok[1]))
      case "echo_delay_ms" => var ms := Uint(lex, tok[1]); if ms.Some? then Some(hub.(echoDelay := ms.value)) else None
      case _ => None
  }

  function ClassOf(kw: string): Option<Class> {
    match kw
    case "state" => Some(State)
    case "intent" => Some(Intent)
    case "event" => Some(Event)
    case "stream" => Some(Stream)
    case "store" => Some(Store)
    case _ => None
  }

  datatype Mode = Outside | InHub | InChannel(current: nat)

  datatype Progress = Progress(mode: Mode, hub: Hub)

  function NewChannel(id: nat, name: string, cls: Class): Channel {
    Channel(id, name, cls, "", 0.0, Watch, None, None, NO_STORE, [])
  }

  predicate Placed(p: Progress) {
    p.mode.InChannel? ==> p.mode.current < |p.hub.channels|
  }

  /** One line; an empty one, or one with nothing but a comment, has no tokens. */
  function Line(lex: Lex, p: Progress, tok: seq<string>): (r: Option<Progress>)
    requires Placed(p)
    ensures r.Some? ==> Placed(r.value)
  {
    if tok == [] then Some(p)
    else if tok[0] == "hub" then Some(p.(mode := InHub))
    else if ClassOf(tok[0]).Some? then
      if |tok| != 3 || Bounded(lex, tok[1], 0xFFFF).None? then None
      else
        var ch := NewChannel(Bounded(lex, tok[1], 0xFFFF).value, tok[2], ClassOf(tok[0]).value);
        Some(Progress(InChannel(|p.hub.channels|), p.hub.(channels := p.hub.channels + [ch])))
    else
      match p.mode
      case Outside => None
      case InHub =>
        var hub := HubProp(lex, p.hub, tok);
        if hub.Some? then Some(p.(hub := hub.value)) else None
      case InChannel(k) =>
        var ch := ChannelProp(lex, p.hub.channels[k], tok);
        if ch.Some? then Some(p.(hub := p.hub.(channels := p.hub.channels[k := ch.value]))) else None
  }

  function Lines(lex: Lex, p: Progress, lines: seq<seq<string>>): (r: Option<Progress>)
    requires Placed(p)
    ensures r.Some? ==> Placed(r.value)
    decreases |lines|
  {
    if lines == [] then Some(p)
    else
      var p1 := Line(lex, p, lines[0]);
      if p1.None? then None else Lines(lex, p1.value, lines[1..])
  }

  // ---- validation ------------------------------------------------------------------------------------

  predicate KeysAscend(fields: seq<Field>) {
    forall i, j | 0 <= i < j < |fields| :: KeyOf(fields[i]) < KeyOf(fields[j])
  }

  /** An absent key is stored as zero. */
  function KeyOf(f: Field): nat { if f.key.Some? then f.key.value else 0 }

  predicate Keyed(cls: Class) { cls == Intent || cls == Event }

  predicate IdsDistinct(channels: seq<Channel>) {
    forall i, j | 0 <= i < j < |channels| :: channels[i].id != channels[j].id
  }

  /** `writes` names a STATE channel. */
  predicate Resolves(channels: seq<Channel>, ch: Channel) {
    ch.cls == Intent && ch.writes.Some? ==>
      exists k :: 0 <= k < |channels| && channels[k].id == ch.writes.value && channels[k].cls == State
  }

  predicate ValidHub(hub: Hub) {
    && (forall k | 0 <= k < |hub.channels| :: hub.channels[k].id >= 0x80)
    && IdsDistinct(hub.channels)
    && (forall k | 0 <= k < |hub.channels| && Keyed(hub.channels[k].cls) :: KeysAscend(hub.channels[k].fields))
    && (forall k | 0 <= k < |hub.channels| :: Resolves(hub.channels, hub.channels[k]))
  }

  const BEGIN := Progress(Outside, DEFAULTS)

  /** `loadConfigFile`, on the tokens of each line. */
  function Load(lex: Lex, lines: seq<seq<string>>): Option<Hub> {
    var p := Lines(lex, BEGIN, lines);
    if p.Some? && ValidHub(p.value.hub) then Some(p.value.hub) else None
  }

  // ---- what an accepted file guarantees ----------------------------------------------------------------

  /** Some token reads as the number. */
  ghost predicate ReadsUint(lex: Lex, n: nat) {
    exists s :: Token(s) && Uint(lex, s) == Some(n)
  }

  ghost predicate ReadsFloat(lex: Lex, r: real) {
    exists s :: Token(s) && Float(lex, s) == Some(r)
  }

  /** Some token without an `=` reads as the number, as a bare minimum or maximum must. */
  ghost predicate ReadsBare(lex: Lex, r: real) {
    exists s :: Token(s) && '=' !in s && Float(lex, s) == Some(r)
  }

  /** Every number a field holds is one the lexer can return. */
  ghost predicate NumbersRead(lex: Lex, f: Field) {
    && (f.min.Some? ==> ReadsBare(lex, f.min.value))
    && (f.max.Some? ==> ReadsBare(lex, f.max.value))
    && (f.key.Some? ==> ReadsUint(lex, f.key.value) && f.key.value <= 0xFF)
    && (f.default.Some? ==> ReadsFloat(lex, f.default.value))
    && (f.anim.Some? ==>
          ReadsFloat(lex, f.anim.value.hz) && ReadsFloat(lex, f.anim.value.a) && ReadsFloat(lex, f.anim.value.b))
  }

  ghost predicate FieldOk(lex: Lex, cls: Class, f: Field) {
    && f.min.Some? == f.max.Some?
    && (if IsLayout(cls) then f.ty.Packed? && f.ty.name in LAYOUT_KINDS && f.key.None?
        else f.ty.Cbor? && f.ty.name in SCHEMA_KINDS && f.key.Some?)
    && (f.anim.Some? ==> cls == State)
    && Token(f.name) && EmptyOrToken(f.unit) && f.unit != "-"
    && NumbersRead(lex, f)
  }

  predicate NamesDistinct(fields: seq<Field>) {
    forall i, j | 0 <= i < j < |fields| :: fields[i].name != fields[j].name
  }

  ghost predicate FieldsOk(lex: Lex, cls: Class, fields: seq<Field>) {
    NamesDistinct(fields) && forall k | 0 <= k < |fields| :: FieldOk(lex, cls, fields[k])
  }

  /** A number left at its initial zero, or read within the limit. */
  ghost predicate ZeroOrRead(lex: Lex, n: nat, limit: nat) {
    n == 0 || (ReadsUint(lex, n) && n <= limit)
  }

  ghost predicate StoreOk(lex: Lex, info: StoreInfo) {
    && EmptyOrToken(info.kind)
    && ZeroOrRead(lex, info.capacity, 0xFFFF)
    && ZeroOrRead(lex, info.perItemMax, 0xFFFF_FFFF)
    && ZeroOrRead(lex, info.nameMax, 0xFFFF)
  }

  ghost predicate ChannelOk(lex: Lex, ch: Channel) {
    && ReadsUint(lex, ch.id) && ch.id <= 0xFFFF && Token(ch.name) && EmptyOrToken(ch.category)
    && FieldsOk(lex, ch.cls, ch.fields)
    && (ch.cls == Store ==> ch.fields == [])
    && (ch.rateHz == 0.0 || ReadsFloat(lex, ch.rateHz))
    && (ch.writes.Some? ==> ch.cls == Intent && ReadsUint(lex, ch.writes.value) && ch.writes.value <= 0xFFFF)
    && (ch.echoDelay.Some? ==> ch.cls == Intent && ReadsUint(lex, ch.echoDelay.value))
    && (if ch.cls == Store then StoreOk(lex, ch.store) else ch.store == NO_STORE)
  }

  /** What the lines alone guarantee: every field and channel well formed, every name a token, every number one the lexer returns. */
  ghost predicate HubOk(lex: Lex, hub: Hub) {
    && Token(hub.name) && Token(hub.fwVersion) && Token(hub.product)
    && ZeroOrRead(lex, hub.echoDelay, 0xFFFF_FFFF)
    && forall k | 0 <= k < |hub.channels| :: ChannelOk(lex, hub.channels[k])
  }

  lemma {:induction false} FindEqAbsent(t: string)
    requires FindEq(t) == |t|
    ensures '=' !in t
  {
    if t != "" { FindEqAbsent(t[1..]); }
  }

  /** What follows the `=` of a token is empty or a token itself. */
  lemma TokenTail(t: string, n: nat)
    requires Token(t) && n <= |t|
    ensures EmptyOrToken(t[n..])
  {
  }

  lemma ReadsToken(lex: Lex, s: string)
    requires EmptyOrToken(s)
    ensures Uint(lex, s).Some? ==> ReadsUint(lex, Uint(lex, s).value)
    ensures Float(lex, s).Some? ==> ReadsFloat(lex, Float(lex, s).value)
    ensures Float(lex, s).Some? && '=' !in s ==> ReadsBare(lex, Float(lex, s).value)
  {
  }

  lemma AttributeKeeps(lex: Lex, f: Field, t: string)
    requires NumbersRead(lex, f) && Token(t)
    ensures var r := Attribute(lex, f, t);
            r.Some? ==> NumbersRead(lex, r.value)
                        && r.value.name == f.name && r.value.ty == f.ty && r.value.unit == f.unit && r.value.anim == f.anim
  {
    hide FindEq, Uint, Float, Token, ReadsUint, ReadsFloat, ReadsBare;
    var eq := FindEq(t);
    if eq == |t| {
      FindEqAbsent(t);
      ReadsToken(lex, t);
    } else {
      TokenTail(t, eq + 1);
      ReadsToken(lex, t[eq + 1..]);
    }
  }

  lemma {:induction false} AttributesKeep(lex: Lex, f: Field, toks: seq<string>)
    requires NumbersRead(lex, f) && AllTokens(toks)
    ensures var r := Attributes(lex, f, toks);
            r.Some? ==> NumbersRead(lex, r.value)
                        && r.value.name == f.name && r.value.ty == f.ty && r.value.unit == f.unit && r.value.anim == f.anim
    decreases |toks|
  {
    hide NumbersRead, Attribute, Token;
    if toks != [] {
      AttributeKeeps(lex, f, toks[0]);
      var f1 := Attribute(lex, f, toks[0]);
      if f1.Some? { AttributesKeep(lex, f1.value, toks[1..]); }
    }
  }

  lemma FieldLineKeeps(lex: Lex, ch: Channel, tok: seq<string>)
    requires ChannelOk(lex, ch) && AllTokens(tok)
    ensures var r := FieldLine(lex, ch, tok); r.Some? ==> ChannelOk(lex, r.value)
  {
    hide ReadsUint, ReadsFloat, ReadsBare, StoreOk, Attributes, Token;
    if FieldLine(lex, ch, tok).Some? {
      var g := NewField(tok[1], TypeOf(ch.cls, tok[2]).value, tok[3]);
      AttributesKeep(lex, g, tok[4..]);
      NewFieldOk(lex, ch.cls, g, Attributes(lex, g, tok[4..]).value);
      hide NumbersRead, FieldOk;
    }
  }

  lemma NewFieldOk(lex: Lex, cls: Class, g: Field, f: Field)
    requires f.name == g.name && f.ty == g.ty && f.unit == g.unit && f.anim == g.anim && NumbersRead(lex, f)
    requires Token(g.name) && EmptyOrToken(g.unit) && g.unit != "-" && g.anim.None? && Finished(cls, f) && cls != Store
    requires if IsLayout(cls) then g.ty.Packed? && g.ty.name in LAYOUT_KINDS else g.ty.Cbor? && g.ty.name in SCHEMA_KINDS
    ensures FieldOk(lex, cls, f)
  {
  }

  lemma AnimateLineKeeps(lex: Lex, ch: Channel, tok: seq<string>)
    requires ChannelOk(lex, ch) && AllTokens(tok)
    ensures var r := AnimateLine(lex, ch, tok); r.Some? ==> ChannelOk(lex, r.value)
  {
    hide ReadsUint, ReadsBare, ReadsFloat, StoreOk, LAYOUT_KINDS, SCHEMA_KINDS, Token, Float;
    if |tok| == 6 {
      ReadsToken(lex, tok[3]);
      ReadsToken(lex, tok[4]);
      ReadsToken(lex, tok[5]);
    }
  }

  lemma StorePropKeeps(lex: Lex, info: StoreInfo, kw: string, v: string)
    requires StoreOk(lex, info) && Token(v)
    ensures var r := StoreProp(lex, info, kw, v); r.Some? ==> StoreOk(lex, r.value)
  {
    hide ReadsUint, Token, Uint;
    ReadsToken(lex, v);
  }

  lemma PlainPropKeeps(lex: Lex, ch: Channel, tok: seq<string>)
    requires |tok| == 2 && tok[0] != "field" && tok[0] != "animate" && ChannelOk(lex, ch) && AllTokens(tok)
    ensures var r := ChannelProp(lex, ch, tok); r.Some? ==> ChannelOk(lex, r.value)
  {
    hide FieldLine, AnimateLine, FieldsOk, StoreOk, StoreProp, AccessOf, Uint, Float, ReadsUint, ReadsFloat, Token;
    ReadsToken(lex, tok[1]);
    if ch.cls == Store { StorePropKeeps(lex, ch.store, tok[0], tok[1]); }
  }

  lemma ChannelPropKeeps(lex: Lex, ch: Channel, tok: seq<string>)
    requires tok != [] && ChannelOk(lex, ch) && AllTokens(tok)
    ensures var r := ChannelProp(lex, ch, tok); r.Some? ==> ChannelOk(lex, r.value)
  {
    hide FieldLine, AnimateLine, ChannelOk, AllTokens;
    if tok[0] == "field" {
      FieldLineKeeps(lex, ch, tok);
    } else if tok[0] == "animate" {
      AnimateLineKeeps(lex, ch, tok);
    } else if |tok| == 2 {
      PlainPropKeeps(lex, ch, tok);
    }
  }

  lemma HeaderKeeps(lex: Lex, p: Progress, tok: seq<string>)
    requires HubOk(lex, p.hub) && AllTokens(tok) && |tok| == 3 && Bounded(lex, tok[1], 0xFFFF).Some? && ClassOf(tok[0]).Some?
    ensures ChannelOk(lex, NewChannel(Bounded(lex, tok[1], 0xFFFF).value, tok[2], ClassOf(tok[0]).value))
  {
    hide ClassOf, Uint, ReadsUint, Token;
    ReadsToken(lex, tok[1]);
  }

  lemma HubPropKeeps(lex: Lex, hub: Hub, tok: seq<string>)
    requires tok != [] && HubOk(lex, hub) && AllTokens(tok)
    ensures var r := HubProp(lex, hub, tok); r.Some? ==> HubOk(lex, r.value)
  {
    hide Uint, ReadsUint, Token, ChannelOk;
    if |tok| == 2 { ReadsToken(lex, tok[1]); }
  }

  lemma LineKeeps(lex: Lex, p: Progress, tok: seq<string>)
    requires Placed(p) && HubOk(lex, p.hub) && AllTokens(tok)
    ensures var r := Line(lex, p, tok); r.Some? ==> HubOk(lex, r.value.hub)
  {
    hide ChannelProp, HubProp, ClassOf, Bounded, ChannelOk, Token;
    if tok != [] && ClassOf(tok[0]).Some? {
      if |tok| == 3 && Bounded(lex, tok[1], 0xFFFF).Some? { HeaderKeeps(lex, p, tok); }
    } else if tok != [] && p.mode.InChannel? {
      ChannelPropKeeps(lex, p.hub.channels[p.mode.current], tok);
    } else if tok != [] && p.mode.InHub? {
      HubPropKeeps(lex, p.hub, tok);
    }
  }

  lemma {:induction false} LinesKeep(lex: Lex, p: Progress, lines: seq<seq<string>>)
    requires Placed(p) && HubOk(lex, p.hub) && TokenLines(lines)
    ensures var r := Lines(lex, p, lines); r.Some? ==> HubOk(lex, r.value.hub)
    decreases |lines|
  {
    hide Line, HubOk, AllTokens;
    if lines != [] {
      LineKeeps(lex, p, lines[0]);
      var p1 := Line(lex, p, lines[0]);
      if p1.Some? { LinesKeep(lex, p1.value, lines[1..]); }
    }
  }

  /** Whatever the lines, an accepted configuration is well formed and valid. */
  lemma AcceptedIsValid(lex: Lex, lines: seq<seq<string>>)
    requires TokenLines(lines)
    ensures var r := Load(lex, lines); r.Some? ==> HubOk(lex, r.value) && ValidHub(r.value)
  {
    hide Lines, ValidHub, TokenLines;
    LinesKeep(lex, BEGIN, lines);
  }

  // ---- numbers cut to 32 bits ------------------------------------------------------------------

  /**
   A range check on a token that reads as `v` looks at the low 32 bits only, and
   what is kept is the number written exactly when it was in range itself.
   */
  lemma BoundedExactly(lex: Lex, s: string, v: nat, limit: nat)
    requires s != "" && lex.uint(s) == Some(v) && limit < 0x1_0000_0000
    ensures Bounded(lex, s, limit).Some? <==> v % 0x1_0000_0000 <= limit
    ensures Bounded(lex, s, limit).Some? ==> (Bounded(lex, s, limit).value == v <==> v <= limit)
    ensures Uint(lex, s).Some? && (Uint(lex, s).value == v <==> v < 0x1_0000_0000)
  {
  }

  /** A channel's header: which ids are accepted, and which of them are stored as written. */
  lemma HeaderIdExactly(lex: Lex, p: Progress, tok: seq<string>, v: nat)
    requires Placed(p) && |tok| == 3 && ClassOf(tok[0]).Some? && tok[1] != "" && lex.uint(tok[1]) == Some(v)
    ensures var r := Line(lex, p, tok);
            && (r.Some? <==> v % 0x1_0000_0000 <= 0xFFFF)
            && (r.Some? ==>
                  var channels := r.value.hub.channels;
                  channels != [] && (channels[|channels| - 1].id == v <==> v <= 0xFFFF))
  {
    hide ClassOf, Bounded, Uint;
    BoundedExactly(lex, tok[1], v, 0xFFFF);
    assert tok[0] != "hub" by { HubIsNoClass(tok[0]); }
  }

  lemma HubIsNoClass(kw: string)
    requires ClassOf(kw).Some?
    ensures kw != "hub"
  {
  }

  // ---- what is refused -----------------------------------------------------------------------------

  /** The keywords of the block a file is in. */
  function Keywords(p: Progress): set<string>
    requires Placed(p)
  {
    match p.mode
    case Outside => {}
    case InHub => {"name", "fw_version", "product", "echo_delay_ms"}
    case InChannel(k) =>
      {"category", "rate_hz", "access"} +
      match p.hub.channels[k].cls
      case State => {"field", "animate"}
      case Intent => {"field", "writes", "echo_delay_ms"}
      case Store => {"kind", "capacity", "per_item_max", "name_max"}
      case _ => {"field"}
  }

  /** The keywords that open a block, in any place. */
  const OPENERS: set<string> := {"hub", "state", "intent", "event", "stream", "store"}

  /** A line whose keyword neither opens a block nor belongs to the current one is refused, and so is a property without exactly one value. */
  lemma StrayRefused(lex: Lex, p: Progress, tok: seq<string>)
    requires Placed(p) && tok != [] && tok[0] !in OPENERS
    requires tok[0] !in Keywords(p) || (tok[0] != "field" && tok[0] != "animate" && |tok| != 2)
    ensures Line(lex, p, tok).None?
  {
    hide AnimateLine, FieldLine;
    if p.mode.InChannel? { StrayProp(lex, p.hub.channels[p.mode.current], tok); }
  }

  lemma StrayProp(lex: Lex, ch: Channel, tok: seq<string>)
    requires tok != [] && tok[0] !in OPENERS
    requires tok[0] !in Keywords(Progress(InChannel(0), DEFAULTS.(channels := [ch]))) || (tok[0] != "field" && tok[0] != "animate" && |tok| != 2)
    ensures ChannelProp(lex, ch, tok).None?
  {
    hide Uint, Float;
  }

  /** One line refused refuses the file. */
  lemma {:induction false} RefusalEnds(lex: Lex, p: Progress, lines: seq<seq<string>>, k: nat)
    requires Placed(p) && k < |lines| && Lines(lex, p, lines[..k]).Some?
    requires Line(lex, Lines(lex, p, lines[..k]).value, lines[k]).None?
    ensures Lines(lex, p, lines).None?
    decreases k
  {
    hide Line;
    if k > 0 {
      assert lines[..k][1..] == lines[1..][..k - 1];
      RefusalEnds(lex, Line(lex, p, lines[0]).value, lines[1..], k - 1);
    }
  }

  /** What acceptance says of a channel's fields, class by class. */
  lemma AcceptedMeans(lex: Lex, lines: seq<seq<string>>, k: nat)
    requires TokenLines(lines) && Load(lex, lines).Some? && k < |Load(lex, lines).value.channels|
    ensures var ch := Load(lex, lines).value.channels[k];
            && 0x80 <= ch.id <= 0xFFFF
            && (ch.cls == State || ch.cls == Stream ==> forall i | 0 <= i < |ch.fields| :: ch.fields[i].ty.Packed? && ch.fields[i].key.None?)
            && (ch.cls == Intent || ch.cls == Event ==>
                  && (forall i | 0 <= i < |ch.fields| :: ch.fields[i].ty.Cbor? && ch.fields[i].key.Some? && ch.fields[i].key.value <= 0xFF)
                  && (forall i, j | 0 <= i < j < |ch.fields| :: ch.fields[i].key.value < ch.fields[j].key.value))
            && (ch.cls == Store ==> ch.fields == [])
            && (forall i | 0 <= i < |ch.fields| :: ch.fields[i].min.Some? == ch.fields[i].max.Some?
                                                   && (ch.fields[i].anim.Some? ==> ch.cls == State))
  {
    hide Load, ReadsBare, StoreOk, Token, ReadsUint, ReadsFloat;
    AcceptedIsValid(lex, lines);
  }

  /** So a header that writes 0x100000080 is taken for channel 0x80. */
  lemma WideIdStored(lex: Lex, p: Progress, tok: seq<string>)
    requires Placed(p) && |tok| == 3 && ClassOf(tok[0]).Some? && tok[1] != "" && lex.uint(tok[1]) == Some(0x1_0000_0080)
    ensures var r := Line(lex, p, tok);
            r.Some? && r.value.hub.channels == p.hub.channels + [NewChannel(0x80, tok[2], ClassOf(tok[0]).value)]
  {
    hide ClassOf;
    assert tok[0] != "hub" by { HubIsNoClass(tok[0]); }
  }

  /** The same for every other number with a range; those without one are always taken, cut to 32 bits. */
  lemma RangesExactly(lex: Lex, hub: Hub, ch: Channel, f: Field, info: StoreInfo, s: string, v: nat)
    requires s != "" && lex.uint(s) == Some(v)
    ensures var r := Attribute(lex, f, "key=" + s);
            (r.Some? <==> v % 0x1_0000_0000 <= 0xFF) && (r.Some? ==> (r.value.key == Some(v) <==> v <= 0xFF))
    ensures var r := ChannelProp(lex, ch, ["writes", s]);
            && (r.Some? <==> ch.cls == Intent && v % 0x1_0000_0000 <= 0xFFFF)
            && (r.Some? ==> (r.value.writes == Some(v) <==> v <= 0xFFFF))
    ensures var r := StoreProp(lex, info, "capacity", s);
            (r.Some? <==> v % 0x1_0000_0000 <= 0xFFFF) && (r.Some? ==> (r.value.capacity == v <==> v <= 0xFFFF))
    ensures var r := StoreProp(lex, info, "name_max", s);
            (r.Some? <==> v % 0x1_0000_0000 <= 0xFFFF) && (r.Some? ==> (r.value.nameMax == v <==> v <= 0xFFFF))
    ensures var r := StoreProp(lex, info, "per_item_max", s); r.Some? && (r.value.perItemMax == v <==> v < 0x1_0000_0000)
    ensures var r := ChannelProp(lex, ch, ["echo_delay_ms", s]);
            (r.Some? <==> ch.cls == Intent) && (r.Some? ==> (r.value.echoDelay == Some(v) <==> v < 0x1_0000_0000))
    ensures var r := HubProp(lex, hub, ["echo_delay_ms", s]); r.Some? && (r.value.echoDelay == v <==> v < 0x1_0000_0000)
  {
    hide Bounded, Uint, FieldLine, AnimateLine;
    BoundedExactly(lex, s, v, 0xFF);
    BoundedExactly(lex, s, v, 0xFFFF);
    KeyEquals(s);
  }

  lemma KeyEquals(s: string)
    ensures var t := "key=" + s; FindEq(t) == 3 && t[..3] == "key" && t[4..] == s
  {
    var t := "key=" + s;
    assert t[1..][1..] == t[2..] && t[2..][1..] == t[3..];
    assert t[3..][0] == '=' && FindEq(t[3..]) == 0;
    assert t[2..][0] == 'y' && FindEq(t[2..]) == 1;
    assert t[1..][0] == 'e' && FindEq(t[1..]) == 2;
  }
}
