/**
 What each event puts on the wire: an account of the session's traffic in its own
 terms, and the proof that the frames of every run are exactly those.
 */
module Traffic {
  import opened Wire
  import opened Session
  import opened Adoption
  import SessionRuns
  import Blob
  import Intents

  function Frames(log: seq<Entry>): seq<Frame> {
    if log == [] then []
    else Frames(log[..|log| - 1]) + (if log[|log| - 1].Sent? then [log[|log| - 1].frame] else [])
  }

  // ---- what is to be sent ---------------------------------------------------------------------

  function If(condition: bool, f: Frame): seq<Frame> { if condition then [f] else [] }

  /** A chunk of a catalog larger than the cap, unless it belongs to the transfer under way. */
  predicate Oversized(s: Session, cfg: Config, payload: Bytes) {
    var chunk := Blob.ParseChunk(payload);
    && chunk.Some? && chunk.value.ns == 0 && chunk.value.index < chunk.value.count && chunk.value.total > cfg.cap
    && !(s.core.blob.Active? && |s.core.blob.received| == chunk.value.count && |s.core.blob.buf| == chunk.value.total)
  }

  /** The declaration is unanswered, there are attempts left, and the last is a gap ago. */
  predicate DeclarationDue(c: Core, cfg: Config, now: int) {
    c.readyPending && c.readyAttempts < cfg.readyMax && now - c.lastReadyMs >= cfg.gapMs
  }

  predicate Unfinished(t: Blob.Transfer) { t.Active? && Blob.Missing(t) != [] }

  predicate Abandoned(c: Core, cfg: Config, now: int) {
    Unfinished(c.blob) && now - c.blob.startMs >= cfg.abandonMs
  }

  /** Chunks are missing, the transfer is not too old, and nothing arrived or was asked for within a gap. */
  predicate RepairDue(c: Core, cfg: Config, now: int) {
    Unfinished(c.blob) && now - c.blob.startMs < cfg.abandonMs && now - c.blob.progressMs >= cfg.gapMs
  }

  predicate EstopDue(c: Core, now: int) { c.alarm.active && c.alarm.attempts < 20 && now - c.alarm.lastMs >= 50 }

  /** What a tick has to send other than a PING. */
  function PumpFrames(c: Core, cfg: Config, now: int): seq<Frame> {
    If(DeclarationDue(c, cfg, now), CatalogReady(c.readyEtag))
    + If(Abandoned(c, cfg, now), BlobRequest(None))
    + If(RepairDue(c, cfg, now), BlobRequest(Some(Blob.RepairRequest(c.blob))))
    + If(EstopDue(c, now), Estop(c.alarm.seqNo))
  }

  /** A tick sends what is due, and a PING exactly when nothing is and the wire has been silent for the interval. */
  function TickFrames(c: Core, cfg: Config, now: int): seq<Frame> {
    var due := PumpFrames(c, cfg, now);
    due + If(due == [] && now - c.lastTxMs >= PingInterval(c.deadmanMs), Ping)
  }

  /** An INTENT leaves when the session may act on the channel, the values fit and the names are schema keys without repetition. */
  predicate IntentLeaves(s: Session, channel: nat, names: seq<int>, fits: bool) {
    && s.core.phase == Live && s.core.ring.Some? && channel in s.core.ring.value.catalog
    && s.core.ring.value.catalog[channel].intent && fits
    && |SessionRuns.SetOf(names)| == |names| && SessionRuns.SetOf(names) <= s.core.ring.value.catalog[channel].keys
  }

  function IntentFrames(s: Session, channel: nat, names: seq<int>, fits: bool): seq<Frame> {
    var id := Intents.NextId(s.core.intents.ledger);
    If(IntentLeaves(s, channel, names, fits), Intent(channel, id, id, SortKeys(names)))
  }

  function Expected(s: Session, cfg: Config, e: Event): seq<Frame> {
    if !e.env.open then []
    else
      match e.what
      case SocketOpened => [Hello(if s.core.cached.Some? then Some(s.core.cached.value.etag) else None)]
      case GotWelcome(etag, _, _) =>
        If(cfg.autoCatalog && !Hit(s, cfg, etag), BlobRequest(None)) + [Clock] + If(cfg.subscribes, Subscribe)
      case GotChunk(payload) =>
        if Oversized(s, cfg, payload) then [Goodbye]
        else
          var bytes := HandedOn(s, cfg, e.env, payload);
          if bytes.Some? then [CatalogReady(Some(cfg.etagOf(bytes.value)))] else []
      case GotPing => [Pong]
      case PumpTick => if s.core.pumping then TickFrames(s.core, cfg, e.env.now) else []
      case CallIntent(channel, names, fits) => IntentFrames(s, channel, names, fits)
      case CallRequestCatalog => [BlobRequest(None)]
      case CallEstop => [Estop(s.core.alarm.next)]
      case CallSend(frame) => If(Plain(frame), frame)
      case CallClose => [Goodbye]
      case _ => []
  }

  // ---- that it is sent --------------------------------------------------------------------------

  /** The log grew by entries that carry exactly these frames. */
  ghost predicate Adds(s: Session, s': Session, frames: seq<Frame>) {
    s.log <= s'.log && Frames(s'.log[|s.log|..]) == frames
  }

  lemma {:induction false} FramesJoin(a: seq<Entry>, b: seq<Entry>)
    ensures Frames(a + b) == Frames(a) + Frames(b)
  {
    if b == [] {
      assert a + b == a;
    } else {
      var last := |b| - 1;
      assert (a + b)[..|a + b| - 1] == a + b[..last];
      FramesJoin(a, b[..last]);
    }
  }

  lemma AddsThen(s: Session, s1: Session, s2: Session, f: seq<Frame>, g: seq<Frame>)
    requires Adds(s, s1, f) && Adds(s1, s2, g)
    ensures Adds(s, s2, f + g)
  {
    assert s2.log[|s.log|..] == s1.log[|s.log|..] + s2.log[|s1.log|..];
    FramesJoin(s1.log[|s.log|..], s2.log[|s1.log|..]);
  }

  lemma SameLogAdds(s: Session, s': Session)
    requires s'.log == s.log
    ensures Adds(s, s', [])
  {
    assert s'.log[|s.log|..] == [];
  }

  lemma FramesOne(e: Entry)
    ensures Frames([e]) == if e.Sent? then [e.frame] else []
  {
    assert [e][..0] == [];
  }

  /** Sending after the state was changed without sending. */
  lemma SendAdds(s: Session, s0: Session, env: Env, f: Frame)
    requires s0.log == s.log
    ensures Adds(s, Send(s0, env, f), If(env.open, f))
  {
    if env.open {
      var e := Sent(f, s0.core, env.now);
      assert (s.log + [e])[|s.log|..] == [e];
      FramesOne(e);
    } else {
      SameLogAdds(s, Send(s0, env, f));
    }
  }

  lemma FetchAdds(s: Session, s0: Session, cfg: Config, env: Env)
    requires s0.log == s.log
    ensures Adds(s, Fetch(s0, cfg, env), If(env.open && cfg.autoCatalog, BlobRequest(None)))
  {
    if cfg.autoCatalog {
      SendAdds(s, s0.(core := s0.core.(blob := Blob.Idle)), env, BlobRequest(None));
    } else {
      SameLogAdds(s, s0);
    }
  }

  lemma GateAdds(s: Session, cfg: Config, env: Env)
    ensures Adds(s, Gate(s, cfg, env), If(env.open && cfg.autoCatalog && !Hit(s, cfg, s.core.hubEtag), BlobRequest(None)))
  {
    hide Fetch, Adds;
    var c := s.core;
    if Hit(s, cfg, c.hubEtag) {
      SameLogAdds(s, Gate(s, cfg, env));
    } else if c.cached.Some? && c.hubEtag == Some(c.cached.value.etag) {
      FetchAdds(s, s.(core := c.(readyEtag := Some(c.cached.value.etag), ready := false, cached := None)), cfg, env);
    } else {
      FetchAdds(s, s.(core := c.(ready := false, cached := None)), cfg, env);
    }
  }

  lemma GreetAdds(s: Session, cfg: Config, env: Env)
    ensures Adds(s, CheckLive(Greet(s, cfg, env)), If(env.open, Clock) + If(env.open && cfg.subscribes, Subscribe))
  {
    hide Send, Adds;
    var s0 := s.(core := s.core.(pumping := true));
    var s1 := Send(s0, env, Clock);
    SendAdds(s, s0, env, Clock);
    var s2 := Greet(s, cfg, env);
    if cfg.subscribes { SendAdds(s1, s1, env, Subscribe); } else { SameLogAdds(s1, s2); }
    SameLogAdds(s2, CheckLive(s2));
    AddsThen(s, s1, s2, If(env.open, Clock), If(env.open && cfg.subscribes, Subscribe));
    AddsThen(s, s2, CheckLive(s2), If(env.open, Clock) + If(env.open && cfg.subscribes, Subscribe), []);
    NoMore(If(env.open, Clock) + If(env.open && cfg.subscribes, Subscribe));
  }

  lemma NoMore(f: seq<Frame>)
    ensures f + [] == f && [] + f == f
  {
  }

  lemma WelcomeAdds(s: Session, cfg: Config, e: Event)
    requires e.what.GotWelcome?
    ensures Adds(s, Step(s, cfg, e), Expected(s, cfg, e))
  {
    hide Gate, Greet, CheckLive, Adds;
    var env, etag := e.env, e.what.etag;
    var c := s.core.(hubEtag := etag, deadmanMs := e.what.deadmanMs, adopted := {}, required := e.what.retained,
                     phase := Syncing, readyPending := false, readyAttempts := 0, blob := Blob.Idle);
    var s0 := s.(core := c);
    var s1 := Gate(s0, cfg, env);
    var ask := If(env.open && cfg.autoCatalog && !Hit(s, cfg, etag), BlobRequest(None));
    var greet := If(env.open, Clock) + If(env.open && cfg.subscribes, Subscribe);
    GateAdds(s0, cfg, env);
    GreetAdds(s1, cfg, env);
    SameStart(s, s0, s1, ask);
    AddsThen(s, s1, Step(s, cfg, e), ask, greet);
    assert ask + greet == Expected(s, cfg, e);
  }

  lemma SameStart(s: Session, s0: Session, s1: Session, f: seq<Frame>)
    requires s0.log == s.log && Adds(s0, s1, f)
    ensures Adds(s, s1, f)
  {
  }

  lemma SaveAdds(s: Session, s0: Session, e: Entry)
    requires s0.log == s.log + [e] && !e.Sent?
    ensures Adds(s, s0, [])
  {
    assert s0.log[|s.log|..] == [e];
    FramesOne(e);
  }

  lemma ReadyAdds(s: Session, s0: Session, env: Env, etag: Bytes)
    requires s0.log == s.log
    ensures Adds(s, CheckLive(SendReady(s0, env, etag)), If(env.open, CatalogReady(Some(etag))))
  {
    SendAdds(s, s0.(core := s0.core.(readyEtag := Some(etag))), env, CatalogReady(Some(etag)));
  }

  lemma AdoptAdds(s: Session, cfg: Config, env: Env, bytes: Bytes)
    ensures Adds(s, Adopt(s, cfg, env, bytes), If(env.open && cfg.decode(bytes).Some?, CatalogReady(Some(cfg.etagOf(bytes)))))
  {
    hide SendReady, CheckLive, Adds;
    if cfg.decode(bytes).Some? {
      var digest := cfg.etagOf(bytes);
      var s1 := s.(core := s.core.(ring := Some(Ring(bytes, cfg.decode(bytes).value))));
      var kept := Saved(Stored(digest, bytes), s1.core);
      var s2 := if s.core.hubEtag == Some(digest) then s1.(log := s1.log + [kept]) else s1;
      if s.core.hubEtag == Some(digest) { SaveAdds(s, s2, kept); } else { SameLogAdds(s, s2); }
      ReadyAdds(s2, s2, env, digest);
      AddsThen(s, s2, Adopt(s, cfg, env, bytes), [], If(env.open, CatalogReady(Some(digest))));
      NoMore(If(env.open, CatalogReady(Some(digest))));
    } else {
      SameLogAdds(s, s);
    }
  }

  lemma ChunkAdds(s: Session, cfg: Config, e: Event)
    requires e.what.GotChunk?
    ensures Adds(s, Step(s, cfg, e), Expected(s, cfg, e))
  {
    hide Adopt, Send, Adds, Blob.ParseChunk, Blob.Insert, Blob.Begin, Blob.Complete, Blob.Accepts;
    var chunk := Blob.ParseChunk(e.what.payload);
    if chunk.Some? {
      var r := Blob.Receive(s.core.blob, chunk.value, e.env.now, cfg.cap);
      var s1 := s.(core := s.core.(blob := r.transfer));
      if r.refused {
        SendAdds(s, s1, e.env, Goodbye);
      } else if r.done.Some? {
        AdoptAdds(s1, cfg, e.env, r.done.value);
        SameStart(s, s1, Adopt(s1, cfg, e.env, r.done.value), If(e.env.open && cfg.decode(r.done.value).Some?, CatalogReady(Some(cfg.etagOf(r.done.value)))));
      } else {
        SameLogAdds(s, s1);
      }
    } else {
      SameLogAdds(s, s);
    }
  }

  lemma IntentAdds(s: Session, cfg: Config, e: Event)
    requires e.what.CallIntent?
    ensures Adds(s, Step(s, cfg, e), Expected(s, cfg, e))
  {
    hide Send, Adds, SortKeys, Known, Ascending, Intents.Extend, SessionRuns.SetOf;
    var channel, keys := e.what.channel, SortKeys(e.what.names);
    if Permits(s.core, channel) {
      KeysLeave(s, channel, e.what.names);
      var encodes := e.what.fits && Known(keys, s.core.ring.value.catalog[channel].keys) && Ascending(keys);
      var id := Intents.NextId(s.core.intents.ledger);
      var s1 := s.(core := s.core.(intents := Intents.Extend(s.core.intents, Intents.Issue(channel, encodes, e.env.open))));
      if encodes { SendAdds(s, s1, e.env, Intent(channel, id, id, keys)); } else { SameLogAdds(s, s1); }
    } else {
      SameLogAdds(s, s);
    }
  }

  lemma KeysLeave(s: Session, channel: nat, names: seq<int>)
    requires Permits(s.core, channel)
    ensures var keys, schema := SortKeys(names), s.core.ring.value.catalog[channel].keys;
            Known(keys, schema) && Ascending(keys) <==> |SessionRuns.SetOf(names)| == |names| && SessionRuns.SetOf(names) <= schema
  {
    hide SortKeys;
    var keys, schema := SortKeys(names), s.core.ring.value.catalog[channel].keys;
    SessionRuns.SortKeysFacts(names);
    SessionRuns.StrictMeansNoRepeats(keys);
    SessionRuns.SameNames(keys, names);
    assert Known(keys, schema) <==> SessionRuns.SetOf(keys) <= schema;
  }

  // ---- a tick ------------------------------------------------------------------------------------

  /** What one part of the pump did: it sent these frames, and the wire was used now if there are any. */
  ghost predicate Pumps(s: Session, s': Session, env: Env, frames: seq<Frame>) {
    && Adds(s, s', frames) && s'.core.deadmanMs == s.core.deadmanMs
    && s'.core.lastTxMs == if frames == [] then s.core.lastTxMs else env.now
  }

  lemma PumpReadyAdds(s: Session, cfg: Config, env: Env)
    requires env.open
    ensures var s' := PumpReady(s, cfg, env);
            && Pumps(s, s', env, If(DeclarationDue(s.core, cfg, env.now), CatalogReady(s.core.readyEtag)))
            && s'.core.blob == s.core.blob && s'.core.alarm == s.core.alarm
  {
    hide Adds;
    SendAdds(s, s, env, CatalogReady(s.core.readyEtag));
    var s1 := Send(s, env, CatalogReady(s.core.readyEtag));
    if DeclarationDue(s.core, cfg, env.now) {
      AddsLog(s, s1, PumpReady(s, cfg, env), [CatalogReady(s.core.readyEtag)]);
    } else {
      SameLogAdds(s, PumpReady(s, cfg, env));
    }
  }

  lemma AddsLog(s: Session, s1: Session, s2: Session, f: seq<Frame>)
    requires Adds(s, s1, f) && s2.log == s1.log
    ensures Adds(s, s2, f)
  {
  }

  lemma PumpRepairAdds(s: Session, cfg: Config, env: Env)
    requires env.open
    ensures var s' := PumpRepair(s, cfg, env);
            && Pumps(s, s', env, If(Abandoned(s.core, cfg, env.now), BlobRequest(None))
                                 + If(RepairDue(s.core, cfg, env.now), BlobRequest(Some(Blob.RepairRequest(s.core.blob)))))
            && s'.core.alarm == s.core.alarm
  {
    hide Adds, Blob.Missing, Blob.Complete;
    var t, s' := s.core.blob, PumpRepair(s, cfg, env);
    if t.Active? { Blob.CompleteIffNoneMissing(t); }
    NoMore([]);
    NoMore([BlobRequest(None)]);
    NoMore([BlobRequest(Some(Blob.RepairRequest(t)))]);
    if Abandoned(s.core, cfg, env.now) {
      SendAdds(s, s.(core := s.core.(blob := Blob.Idle)), env, BlobRequest(None));
    } else if RepairDue(s.core, cfg, env.now) {
      SendAdds(s, s, env, BlobRequest(Some(Blob.RepairRequest(t))));
      AddsLog(s, Send(s, env, BlobRequest(Some(Blob.RepairRequest(t)))), s', [BlobRequest(Some(Blob.RepairRequest(t)))]);
    } else {
      SameLogAdds(s, s');
    }
  }

  lemma PumpEstopAdds(s: Session, env: Env)
    requires env.open
    ensures Pumps(s, PumpEstop(s, env), env, If(EstopDue(s.core, env.now), Estop(s.core.alarm.seqNo)))
  {
    hide Adds;
    var f := Estop(s.core.alarm.seqNo);
    SendAdds(s, s, env, f);
    if EstopDue(s.core, env.now) { AddsLog(s, Send(s, env, f), PumpEstop(s, env), [f]); } else { SameLogAdds(s, PumpEstop(s, env)); }
  }

  lemma PumpsThen(s: Session, s1: Session, s2: Session, env: Env, f: seq<Frame>, g: seq<Frame>)
    requires Pumps(s, s1, env, f) && Pumps(s1, s2, env, g)
    ensures Pumps(s, s2, env, f + g)
  {
    hide Adds;
    AddsThen(s, s1, s2, f, g);
  }

  lemma TickAdds(s: Session, cfg: Config, env: Env)
    requires env.open && s.core.pumping
    ensures Adds(s, Tick(s, cfg, env), TickFrames(s.core, cfg, env.now))
  {
    hide Adds, PumpReady, PumpRepair, PumpEstop, Send, DeclarationDue, Abandoned, RepairDue, EstopDue, Blob.RepairRequest, If;
    var c, now := s.core, env.now;
    var s1 := PumpReady(s, cfg, env);
    var s2 := PumpRepair(s1, cfg, env);
    var s3 := PumpEstop(s2, env);
    var ready := If(DeclarationDue(c, cfg, now), CatalogReady(c.readyEtag));
    var again, repair := If(Abandoned(c, cfg, now), BlobRequest(None)), If(RepairDue(c, cfg, now), BlobRequest(Some(Blob.RepairRequest(c.blob))));
    var estop := If(EstopDue(c, now), Estop(c.alarm.seqNo));
    PumpReadyAdds(s, cfg, env);
    SameBlobDue(c, s1.core, cfg, now);
    PumpRepairAdds(s1, cfg, env);
    SameAlarmDue(c, s2.core, now);
    PumpEstopAdds(s2, env);
    PumpsThen(s, s1, s2, env, ready, again + repair);
    PumpsThen(s, s2, s3, env, ready + (again + repair), estop);
    Regroup(ready, again, repair);
    var due := PumpFrames(c, cfg, now);
    assert due == ready + (again + repair) + estop;
    PingAdds(s, s3, env, due);
  }

  lemma SameBlobDue(c: Core, c': Core, cfg: Config, now: int)
    requires c'.blob == c.blob
    ensures Abandoned(c', cfg, now) == Abandoned(c, cfg, now) && RepairDue(c', cfg, now) == RepairDue(c, cfg, now)
  {
  }

  lemma SameAlarmDue(c: Core, c': Core, now: int)
    requires c'.alarm == c.alarm
    ensures EstopDue(c', now) == EstopDue(c, now)
  {
  }

  /** A PING follows exactly when nothing else was sent and the wire has been silent. */
  lemma PingAdds(s: Session, s1: Session, env: Env, due: seq<Frame>)
    requires env.open && Pumps(s, s1, env, due)
    ensures Adds(s, PumpPing(s1, env), due + If(due == [] && env.now - s.core.lastTxMs >= PingInterval(s.core.deadmanMs), Ping))
  {
    hide Adds, Send;
    SendAdds(s1, s1, env, Ping);
    SameLogAdds(s1, s1);
    var ping := If(due == [] && env.now - s.core.lastTxMs >= PingInterval(s.core.deadmanMs), Ping);
    AddsThen(s, s1, PumpPing(s1, env), due, ping);
  }

  // ---- every event, every run -----------------------------------------------------------------------

  lemma StepAdds(s: Session, cfg: Config, e: Event)
    ensures Adds(s, Step(s, cfg, e), Expected(s, cfg, e))
  {
    hide Adds, Welcome, BlobChunk, Tick, SendIntent, TickFrames, IntentFrames, CheckLive, Intents.Extend, HandedOn, Oversized, Hit, Send;
    match e.what
    case GotWelcome(_, _, _) => WelcomeAdds(s, cfg, e);
    case GotChunk(_) => ChunkAdds(s, cfg, e);
    case CallIntent(_, _, _) => IntentAdds(s, cfg, e);
    case PumpTick =>
      if e.env.open && s.core.pumping { TickAdds(s, cfg, e.env); } else { IdleTickAdds(s, cfg, e.env); }
    case _ => PlainAdds(s, cfg, e);
  }

  lemma IdleTickAdds(s: Session, cfg: Config, env: Env)
    requires !env.open || !s.core.pumping
    ensures Adds(s, Tick(s, cfg, env), [])
  {
    SameLogAdds(s, s);
  }

  lemma PlainAdds(s: Session, cfg: Config, e: Event)
    requires !e.what.GotWelcome? && !e.what.GotChunk? && !e.what.CallIntent? && !e.what.PumpTick?
    ensures Adds(s, Step(s, cfg, e), Expected(s, cfg, e))
  {
    hide Adds, Send, Intents.Extend;
    var s', c := Step(s, cfg, e), s.core;
    match e.what
    case SocketOpened =>
      SendAdds(s, s.(core := c.(lastTxMs := e.env.now, phase := HelloSent)), e.env,
               Hello(if c.cached.Some? then Some(c.cached.value.etag) else None));
    case GotPing => SendAdds(s, s, e.env, Pong);
    case CallRequestCatalog => SendAdds(s, s.(core := c.(blob := Blob.Idle)), e.env, BlobRequest(None));
    case CallEstop =>
      SendAdds(s, s.(core := c.(alarm := Alarm(true, c.alarm.next, c.alarm.next + 1, 1, e.env.now))), e.env, Estop(c.alarm.next));
    case CallSend(frame) => if Plain(frame) { SendAdds(s, s, e.env, frame); } else { SameLogAdds(s, s); }
    case CallClose => SendAdds(s, s.(core := c.(pumping := false)), e.env, Goodbye);
    case _ => SameLogAdds(s, s');
  }

  /** The frames a run is to send, event by event. */
  function Trace(s: Session, cfg: Config, events: seq<Event>): seq<Frame> {
    if events == [] then []
    else
      var last := |events| - 1;
      Trace(s, cfg, events[..last]) + Expected(RunFrom(s, cfg, events[..last]), cfg, events[last])
  }

  /** In every run the wire carries exactly the frames expected, in order and none besides. */
  lemma {:induction false} RunAdds(s: Session, cfg: Config, events: seq<Event>)
    ensures Adds(s, RunFrom(s, cfg, events), Trace(s, cfg, events))
  {
    hide Adds, Step, Expected;
    if events == [] {
      SameLogAdds(s, s);
    } else {
      var last := |events| - 1;
      RunAdds(s, cfg, events[..last]);
      var s1 := RunFrom(s, cfg, events[..last]);
      StepAdds(s1, cfg, events[last]);
      AddsThen(s, s1, Step(s1, cfg, events[last]), Trace(s, cfg, events[..last]), Expected(s1, cfg, events[last]));
    }
  }

  // ---- what follows ---------------------------------------------------------------------------------

  /**
   A WELCOME on an open socket asks for the catalog first of all, once, exactly when the
   client fetches on its own and has no decodable catalog of the announced hash; the
   cache is then forgotten, and any transfer with it.
   */
  lemma WelcomeAsksExactly(s: Session, cfg: Config, env: Env, etag: Option<Bytes>, retained: nat, deadmanMs: int)
    requires env.open
    ensures var s' := Welcome(s, cfg, env, etag, retained, deadmanMs);
            var frames, asks := Frames(s'.log[|s.log|..]), cfg.autoCatalog && !Hit(s, cfg, etag);
            && s.log <= s'.log && frames != [] && (frames[0] == BlobRequest(None) <==> asks)
            && (forall k | 1 <= k < |frames| :: !frames[k].BlobRequest?)
            && (frames[0].BlobRequest? ==> asks)
            && s'.core.blob.Idle? && s'.core.ready == Hit(s, cfg, etag)
            && s'.core.cached == if Hit(s, cfg, etag) then s.core.cached else None
  {
    hide Welcome;
    var e := Event(env, GotWelcome(etag, retained, deadmanMs));
    StepAdds(s, cfg, e);
    WelcomeLeaves(s, cfg, env, etag, retained, deadmanMs);
    WelcomeCache(s, cfg, env, etag, retained, deadmanMs);
  }

  lemma WelcomeCache(s: Session, cfg: Config, env: Env, etag: Option<Bytes>, retained: nat, deadmanMs: int)
    ensures var s' := Welcome(s, cfg, env, etag, retained, deadmanMs);
            s'.core.ready == Hit(s, cfg, etag) && s'.core.cached == if Hit(s, cfg, etag) then s.core.cached else None
  {
  }

  /** The HELLO of a new socket names the stored catalog exactly when that hashes to its own etag. */
  lemma HelloClaims(s: Session, cfg: Config, env: Env, stored: Option<Stored>)
    requires env.open
    ensures var s0 := OpenSocket(s, cfg, stored);
            var good := stored.Some? && cfg.etagOf(stored.value.bytes) == stored.value.etag;
            Adds(s, Opened(s0, env), [Hello(if good then Some(stored.value.etag) else None)])
  {
    hide Adds;
    StepAdds(OpenSocket(s, cfg, stored), cfg, Event(env, SocketOpened));
    var s0 := OpenSocket(s, cfg, stored);
    SameStart(s, s0, Opened(s0, env), Expected(s0, cfg, Event(env, SocketOpened)));
  }

  function Stores(log: seq<Entry>): seq<Stored> {
    if log == [] then []
    else Stores(log[..|log| - 1]) + (if log[|log| - 1].Saved? then [log[|log| - 1].stored] else [])
  }

  /** A catalog is stored exactly when a chunk completes decodable bytes of the announced hash, and then those bytes. */
  lemma StoresExactly(s: Session, cfg: Config, e: Event)
    ensures var bytes := if e.what.GotChunk? then HandedOn(s, cfg, e.env, e.what.payload) else None;
            Stores(Step(s, cfg, e).log) == Stores(s.log)
              + (if bytes.Some? && s.core.hubEtag == Some(cfg.etagOf(bytes.value)) then [Stored(cfg.etagOf(bytes.value), bytes.value)] else [])
  {
    hide Welcome, Tick, SendIntent, Intents.Extend, CheckLive, Stores, Send, BlobChunk, Adopt;
    match e.what
    case GotWelcome(etag, retained, deadmanMs) => WelcomeStores(s, cfg, e.env, etag, retained, deadmanMs);
    case PumpTick => TickStores(s, cfg, e.env);
    case CallIntent(channel, names, fits) => IntentStores(s, e.env, channel, names, fits);
    case GotChunk(payload) => ChunkStores(s, cfg, e.env, payload);
    case _ => PlainStores(s, cfg, e);
  }

  lemma SendStores(s: Session, env: Env, f: Frame)
    ensures Stores(Send(s, env, f).log) == Stores(s.log)
  {
    var e := Sent(f, s.core, env.now);
    assert (s.log + [e])[..|s.log|] == s.log;
  }

  lemma WelcomeStores(s: Session, cfg: Config, env: Env, etag: Option<Bytes>, retained: nat, deadmanMs: int)
    ensures Stores(Welcome(s, cfg, env, etag, retained, deadmanMs).log) == Stores(s.log)
  {
    hide Stores, Send;
    var s1 := Gate(s.(core := s.core.(hubEtag := etag, deadmanMs := deadmanMs, adopted := {}, required := retained,
                                      phase := Syncing, readyPending := false, readyAttempts := 0, blob := Blob.Idle)), cfg, env);
    var s0 := s1.(core := s1.core.(pumping := true));
    assert Stores(s1.log) == Stores(s.log) by {
      forall s1: Session ensures Stores(Send(s1, env, BlobRequest(None)).log) == Stores(s1.log) { SendStores(s1, env, BlobRequest(None)); }
    }
    SendStores(s0, env, Clock);
    SendStores(Send(s0, env, Clock), env, Subscribe);
  }

  lemma TickStores(s: Session, cfg: Config, env: Env)
    ensures Stores(Tick(s, cfg, env).log) == Stores(s.log)
  {
    hide Stores, Send, Blob.Complete, Blob.Missing;
    SendStores(s, env, CatalogReady(s.core.readyEtag));
    var s1 := PumpReady(s, cfg, env);
    SendStores(s1.(core := s1.core.(blob := Blob.Idle)), env, BlobRequest(None));
    SendStores(s1, env, BlobRequest(Some(Blob.RepairRequest(s1.core.blob))));
    var s2 := PumpRepair(s1, cfg, env);
    SendStores(s2, env, Estop(s2.core.alarm.seqNo));
    SendStores(PumpEstop(s2, env), env, Ping);
  }

  lemma IntentStores(s: Session, env: Env, channel: nat, names: seq<int>, fits: bool)
    ensures Stores(SendIntent(s, env, channel, names, fits).log) == Stores(s.log)
  {
    hide Stores, Send, SortKeys, Known, Ascending, Intents.Extend;
    forall s1: Session, f: Frame ensures Stores(Send(s1, env, f).log) == Stores(s1.log) { SendStores(s1, env, f); }
  }

  lemma ChunkStores(s: Session, cfg: Config, env: Env, payload: Bytes)
    ensures var bytes := HandedOn(s, cfg, env, payload);
            Stores(BlobChunk(s, cfg, env, payload).log) == Stores(s.log)
              + (if bytes.Some? && s.core.hubEtag == Some(cfg.etagOf(bytes.value)) then [Stored(cfg.etagOf(bytes.value), bytes.value)] else [])
  {
    hide Stores, Send, Adopt, Blob.Receive, Blob.ParseChunk;
    var chunk := Blob.ParseChunk(payload);
    assert Stores(s.log) + [] == Stores(s.log);
    if chunk.Some? {
      var r := Blob.Receive(s.core.blob, chunk.value, env.now, cfg.cap);
      RefusedHandsNothing(s.core.blob, chunk.value, env.now, cfg.cap);
      var s1 := s.(core := s.core.(blob := r.transfer));
      SendStores(s1, env, Goodbye);
      if r.done.Some? { AdoptStores(s1, cfg, env, r.done.value); }
    }
  }

  lemma AdoptStores(s: Session, cfg: Config, env: Env, bytes: Bytes)
    ensures Stores(Adopt(s, cfg, env, bytes).log) == Stores(s.log)
              + (if cfg.decode(bytes).Some? && s.core.hubEtag == Some(cfg.etagOf(bytes)) then [Stored(cfg.etagOf(bytes), bytes)] else [])
  {
    hide Stores, Send;
    assert Stores(s.log) + [] == Stores(s.log);
    if cfg.decode(bytes).Some? {
      var digest := cfg.etagOf(bytes);
      var s1 := s.(core := s.core.(ring := Some(Ring(bytes, cfg.decode(bytes).value))));
      var kept := Saved(Stored(digest, bytes), s1.core);
      SavedStores(s.log, kept);
      var s2 := if s.core.hubEtag == Some(digest) then s1.(log := s1.log + [kept]) else s1;
      SendStores(s2.(core := s2.core.(readyEtag := Some(digest))), env, CatalogReady(Some(digest)));
    }
  }

  lemma SavedStores(log: seq<Entry>, e: Entry)
    requires e.Saved?
    ensures Stores(log + [e]) == Stores(log) + [e.stored]
  {
    assert (log + [e])[..|log|] == log;
  }

  lemma PlainStores(s: Session, cfg: Config, e: Event)
    requires !e.what.GotWelcome? && !e.what.GotChunk? && !e.what.CallIntent? && !e.what.PumpTick?
    ensures Stores(Step(s, cfg, e).log) == Stores(s.log) + []
  {
    hide Stores, Send, Intents.Extend;
    assert Stores(s.log) + [] == Stores(s.log);
    forall s1: Session, f: Frame ensures Stores(Send(s1, e.env, f).log) == Stores(s1.log) { SendStores(s1, e.env, f); }
  }

  /** A tick gives up a transfer exactly when it is too old, and then starts over; a repair counts as progress. */
  lemma TickTransfers(s: Session, cfg: Config, env: Env)
    requires env.open && s.core.pumping
    ensures Tick(s, cfg, env).core.blob ==
              if Abandoned(s.core, cfg, env.now) then Blob.Idle
              else if RepairDue(s.core, cfg, env.now) then s.core.blob.(progressMs := env.now)
              else s.core.blob
  {
    hide Blob.Missing, Blob.Complete, Blob.RepairRequest;
    if s.core.blob.Active? { Blob.CompleteIffNoneMissing(s.core.blob); }
    var s1 := PumpReady(s, cfg, env);
    assert s1.core.blob == s.core.blob;
    EstopApart(PumpRepair(s1, cfg, env), env);
    SendApart(PumpEstop(PumpRepair(s1, cfg, env), env), env, Ping);
  }

  /** The interval is six tenths of the deadman window, within 150 and 400 ms. */
  lemma PingIntervalIs(deadmanMs: int)
    ensures var r := PingInterval(deadmanMs);
            && (deadmanMs <= 250 ==> r == 150) && (deadmanMs >= 667 ==> r == 400)
            && (250 <= deadmanMs <= 667 ==> 10 * r <= 6 * deadmanMs < 10 * r + 10)
  {
  }

  /** The data plane counts as open from a cache hit or a STATE frame on, until the next WELCOME or close. */
  lemma ReadyFollows(s: Session, cfg: Config, e: Event)
    ensures Step(s, cfg, e).core.ready ==
              match e.what
              case SocketGone => false
              case GotWelcome(etag, _, _) => Hit(s, cfg, etag)
              case GotState(_, _) => true
              case _ => s.core.ready
  {
    hide Welcome, BlobChunk, Tick, SendIntent, Hit, Intents.Extend;
    match e.what
    case GotWelcome(etag, retained, deadmanMs) => WelcomeCache(s, cfg, e.env, etag, retained, deadmanMs);
    case GotChunk(payload) => ChunkReady(s, cfg, e.env, payload);
    case PumpTick => TickReady(s, cfg, e.env);
    case CallIntent(channel, names, fits) => IntentReady(s, e.env, channel, names, fits);
    case _ =>
  }

  lemma ChunkReady(s: Session, cfg: Config, env: Env, payload: Bytes)
    ensures BlobChunk(s, cfg, env, payload).core.ready == s.core.ready
  {
    hide Blob.Receive, Blob.ParseChunk;
  }

  lemma TickReady(s: Session, cfg: Config, env: Env)
    ensures Tick(s, cfg, env).core.ready == s.core.ready
  {
    hide Blob.Missing, Blob.Complete, Blob.RepairRequest;
    var s1 := PumpReady(s, cfg, env);
    var s2 := PumpRepair(s1, cfg, env);
    assert s1.core.ready == s.core.ready && s2.core.ready == s1.core.ready;
  }

  lemma IntentReady(s: Session, env: Env, channel: nat, names: seq<int>, fits: bool)
    ensures SendIntent(s, env, channel, names, fits).core.ready == s.core.ready
  {
    hide SortKeys, Known, Ascending, Intents.Extend;
  }

  // ---- conservation ------------------------------------------------------------------------------------

  /** How many of the frames are `f`. */
  function Count(frames: seq<Frame>, f: Frame): nat {
    if frames == [] then 0 else Count(frames[..|frames| - 1], f) + (if frames[|frames| - 1] == f then 1 else 0)
  }

  lemma {:induction false} CountJoin(a: seq<Frame>, b: seq<Frame>, f: Frame)
    ensures Count(a + b, f) == Count(a, f) + Count(b, f)
  {
    if b == [] {
      assert a + b == a;
    } else {
      var last := |b| - 1;
      assert (a + b)[..|a + b| - 1] == a + b[..last];
      CountJoin(a, b[..last], f);
    }
  }

  /** PINGs the hub sent while the socket was open. */
  function PingsSeen(events: seq<Event>): nat {
    if events == [] then 0
    else PingsSeen(events[..|events| - 1]) + (if events[|events| - 1].what.GotPing? && events[|events| - 1].env.open then 1 else 0)
  }

  lemma OnePong(s: Session, cfg: Config, e: Event)
    ensures Count(Expected(s, cfg, e), Pong) == if e.what.GotPing? && e.env.open then 1 else 0
  {
    hide HandedOn, Oversized, Hit, SortKeys, IntentLeaves, Count;
    NoneCounted([], Pong);
    if e.env.open && e.what.GotPing? {
      assert [Pong][..0] == [];
      CountOne(Pong);
    } else {
      NoneCounted(Expected(s, cfg, e), Pong);
    }
  }

  lemma CountOne(f: Frame)
    ensures Count([f], f) == 1
  {
    assert [f][..0] == [];
  }

  lemma {:induction false} NoneCounted(frames: seq<Frame>, f: Frame)
    requires f !in frames
    ensures Count(frames, f) == 0
  {
    if frames != [] { NoneCounted(frames[..|frames| - 1], f); }
  }

  /** In every run each PING of the hub that found the socket open is answered, once. */
  lemma {:induction false} PingsAnswered(s: Session, cfg: Config, events: seq<Event>)
    ensures Count(Trace(s, cfg, events), Pong) == PingsSeen(events)
  {
    hide Expected, Count, RunFrom;
    if events == [] {
      NoneCounted([], Pong);
    } else {
      var last := |events| - 1;
      PingsAnswered(s, cfg, events[..last]);
      var s1 := RunFrom(s, cfg, events[..last]);
      OnePong(s1, cfg, events[last]);
      CountJoin(Trace(s, cfg, events[..last]), Expected(s1, cfg, events[last]), Pong);
    }
  }
}
