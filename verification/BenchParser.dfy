/** The parser object of hub/slopbench/src/config/ConfigParser.cpp, line by line. */
module BenchParser {
  import opened Wire
  import opened Bench
  import opened BenchText

  /** `validate`: two passes over the channels, with a set of ids seen and the last key. */
  method Validate(hub: Hub) returns (ok: bool)
    ensures ok <==> ValidHub(hub)
  {
    var seen: set<nat> := {};
    for k := 0 to |hub.channels|
      invariant forall i | 0 <= i < k :: hub.channels[i].id >= 0x80
      invariant IdsDistinct(hub.channels[..k])
      invariant seen == set i | 0 <= i < k :: hub.channels[i].id
      invariant forall i | 0 <= i < k && Keyed(hub.channels[i].cls) :: KeysAscend(hub.channels[i].fields)
    {
      var ch := hub.channels[k];
      if ch.id < 0x80 { return false; }
      if ch.id in seen {
        var i :| 0 <= i < k && hub.channels[i].id == ch.id;
        return false;
      }
      seen := seen + {ch.id};
      if Keyed(ch.cls) && ch.fields != [] {
        var ascend := CheckKeys(ch.fields);
        if !ascend { return false; }
      }
    }
    assert hub.channels[..|hub.channels|] == hub.channels;
    for k := 0 to |hub.channels|
      invariant forall i | 0 <= i < k :: Resolves(hub.channels, hub.channels[i])
    {
      var ch := hub.channels[k];
      if ch.cls == Intent && ch.writes.Some? {
        var i := Find(hub.channels, ch.writes.value);
        if i == |hub.channels| { return false; }
        if hub.channels[i].cls != State {
          OnlyOne(hub.channels, i, ch);
          return false;
        }
      }
    }
    return true;
  }

  lemma OnlyOne(channels: seq<Channel>, i: nat, ch: Channel)
    requires IdsDistinct(channels) && i < |channels| && ch.cls == Intent && ch.writes == Some(channels[i].id)
    requires channels[i].cls != State
    ensures !Resolves(channels, ch)
  {
  }

  method CheckKeys(fields: seq<Field>) returns (ok: bool)
    ensures ok <==> KeysAscend(fields)
  {
    var lastKey := 0;
    var first := true;
    for k := 0 to |fields|
      invariant first <==> k == 0
      invariant k > 0 ==> lastKey == KeyOf(fields[k - 1])
      invariant forall i, j | 0 <= i < j < k :: KeyOf(fields[i]) < KeyOf(fields[j])
    {
      if !first && KeyOf(fields[k]) <= lastKey {
        assert KeyOf(fields[k - 1]) >= KeyOf(fields[k]);
        return false;
      }
      lastKey := KeyOf(fields[k]);
      first := false;
    }
    return true;
  }

  /** `HubConfig::find`. */
  method Find(channels: seq<Channel>, id: nat) returns (k: nat)
    ensures k <= |channels|
    ensures k < |channels| ==> channels[k].id == id
    ensures forall i | 0 <= i < k :: channels[i].id != id
  {
    k := 0;
    while k < |channels| && channels[k].id != id
      invariant k <= |channels| && forall i | 0 <= i < k :: channels[i].id != id
    {
      k := k + 1;
    }
  }

  lemma NamedIs(fields: seq<Field>, name: string, n: nat)
    requires n <= |fields| && (n < |fields| ==> fields[n].name == name)
    requires forall i | 0 <= i < n :: fields[i].name != name
    ensures Named(fields, name) == n
  {
  }

  method FindField(fields: seq<Field>, name: string) returns (k: nat)
    ensures k == Named(fields, name)
  {
    k := 0;
    while k < |fields| && fields[k].name != name
      invariant k <= |fields| && forall i | 0 <= i < k :: fields[i].name != name
    {
      k := k + 1;
    }
    NamedIs(fields, name, k);
  }

  /** `std::string::find('=')`. */
  method FindEquals(t: string) returns (n: nat)
    ensures n == FindEq(t)
  {
    n := 0;
    while n < |t| && t[n] != '='
      invariant n <= |t| && FindEq(t) == n + FindEq(t[n..])
    {
      n := n + 1;
    }
  }

  class Parser {
    const lex: Lex
    var mode: Mode
    var hub: Hub

    ghost function View(): Progress
      reads this
    {
      Progress(mode, hub)
    }

    constructor (lex: Lex)
      ensures this.lex == lex && View() == BEGIN
    {
      this.lex := lex;
      mode := Outside;
      hub := DEFAULTS;
    }

    /** The attributes after a field's name, type and unit, one token at a time. */
    method ParseAttributes(start: Field, toks: seq<string>) returns (r: Option<Field>)
      ensures r == Attributes(lex, start, toks)
    {
      var f := start;
      for i := 0 to |toks|
        invariant Attributes(lex, start, toks) == Attributes(lex, f, toks[i..])
      {
        var t := toks[i];
        assert toks[i..][0] == t && toks[i..][1..] == toks[i + 1..];
        var eq := FindEquals(t);
        if eq < |t| {
          var key, val := t[..eq], t[eq + 1..];
          if key == "key" {
            var v := Uint(lex, val);
            if v.None? || v.value > 0xFF { return None; }
            f := f.(key := v);
          } else if key == "default" {
            var v := Float(lex, val);
            if v.None? { return None; }
            f := f.(default := v);
          } else {
            return None;
          }
        } else {
          var v := Float(lex, t);
          if v.None? { return None; }
          if f.min.None? {
            f := f.(min := v);
          } else if f.max.None? {
            f := f.(max := v);
          } else {
            return None;
          }
        }
      }
      return Some(f);
    }

    method ParseFieldLine(ch: Channel, tok: seq<string>) returns (r: Option<Channel>)
      ensures r == FieldLine(lex, ch, tok)
    {
      if ch.cls == Store { return None; }
      if |tok| < 4 { return None; }
      var existing := FindField(ch.fields, tok[1]);
      if existing < |ch.fields| { return None; }
      var ty := TypeOf(ch.cls, tok[2]);
      if ty.None? { return None; }
      var f := ParseAttributes(NewField(tok[1], ty.value, tok[3]), tok[4..]);
      if f.None? { return None; }
      if f.value.min.Some? != f.value.max.Some? { return None; }
      if !IsLayout(ch.cls) && f.value.key.None? { return None; }
      if IsLayout(ch.cls) && f.value.key.Some? { return None; }
      return Some(ch.(fields := ch.fields + [f.value]));
    }

    method ParseAnimateLine(ch: Channel, tok: seq<string>) returns (r: Option<Channel>)
      ensures r == AnimateLine(lex, ch, tok)
    {
      if ch.cls != State { return None; }
      if |tok| != 6 { return None; }
      var i := FindField(ch.fields, tok[1]);
      if i == |ch.fields| { return None; }
      var kind;
      if tok[2] == "sine" {
        kind := Sine;
      } else if tok[2] == "ramp" {
        kind := Ramp;
      } else {
        return None;
      }
      var hz, p2, p3 := Float(lex, tok[3]), Float(lex, tok[4]), Float(lex, tok[5]);
      if hz.None? || p2.None? || p3.None? { return None; }
      var f := ch.fields[i].(anim := Some(Anim(kind, hz.value, p2.value, p3.value)));
      return Some(ch.(fields := ch.fields[i := f]));
    }

    method ParseChannelProp(ch: Channel, tok: seq<string>) returns (r: Option<Channel>)
      requires tok != []
      ensures r == ChannelProp(lex, ch, tok)
    {
      hide FieldLine, AnimateLine;
      var kw := tok[0];
      if kw == "field" {
        r := ParseFieldLine(ch, tok);
        return;
      }
      if kw == "animate" {
        r := ParseAnimateLine(ch, tok);
        return;
      }
      if |tok| != 2 { return None; }
      var v := tok[1];
      if kw == "category" { return Some(ch.(category := v)); }
      if kw == "rate_hz" {
        var hz := Float(lex, v);
        return if hz.None? then None else Some(ch.(rateHz := hz.value));
      }
      if kw == "access" {
        var a := AccessOf(v);
        return if a.None? then None else Some(ch.(access := a.value));
      }
      if kw == "writes" {
        if ch.cls != Intent { return None; }
        var id := Uint(lex, v);
        return if id.None? || id.value > 0xFFFF then None else Some(ch.(writes := id));
      }
      if kw == "echo_delay_ms" {
        if ch.cls != Intent { return None; }
        var ms := Uint(lex, v);
        return if ms.None? then None else Some(ch.(echoDelay := ms));
      }
      if ch.cls != Store { return None; }
      var info := StoreProp(lex, ch.store, kw, v);
      return if info.None? then None else Some(ch.(store := info.value));
    }

    /** One line of the file, without its comment, as tokens. */
    method ParseLine(tok: seq<string>) returns (ok: bool)
      requires Placed(View())
      modifies this
      ensures ok == Line(lex, old(View()), tok).Some?
      ensures ok ==> View() == Line(lex, old(View()), tok).value
    {
      if tok == [] { return true; }
      if tok[0] == "hub" {
        mode := InHub;
        return true;
      }
      var cls := ClassOf(tok[0]);
      if cls.Some? {
        if |tok| != 3 { return false; }
        var id := Uint(lex, tok[1]);
        if id.None? || id.value > 0xFFFF { return false; }
        mode := InChannel(|hub.channels|);
        hub := hub.(channels := hub.channels + [NewChannel(id.value, tok[2], cls.value)]);
        return true;
      }
      match mode
      case Outside => return false;
      case InHub =>
        var h := HubProp(lex, hub, tok);
        if h.None? { return false; }
        hub := h.value;
        return true;
      case InChannel(k) =>
        var ch := ParseChannelProp(hub.channels[k], tok);
        if ch.None? { return false; }
        hub := hub.(channels := hub.channels[k := ch.value]);
        return true;
    }

    /** The lines of a file, one after another; the first that is refused ends it. */
    method LoadConfig(text: seq<string>) returns (r: Option<Hub>)
      requires View() == BEGIN
      modifies this
      ensures r == LoadText(lex, text)
      ensures r.Some? ==> HubOk(lex, r.value) && ValidHub(r.value)
    {
      hide Line, ValidHub, HubOk, TokensOf;
      ghost var lines := TextLines(text);
      TextGivesTokens(text);
      AcceptedIsValid(lex, lines);
      assert lines[0..] == lines;
      for n := 0 to |text|
        invariant Placed(View())
        invariant Lines(lex, BEGIN, lines) == Lines(lex, View(), lines[n..])
      {
        NextTail(lines, n);
        var tok := Tokenize(text[n]);
        var ok := ParseLine(tok);
        if !ok { return None; }
      }
      var valid := Validate(hub);
      r := if valid then Some(hub) else None;
    }
  }
}
