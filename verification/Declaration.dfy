/** The readiness declaration: CATALOG_READY, repeated until a STATE frame answers it. */
module Declaration {
  import opened Wire
  import opened Session
  import opened KeepAlive
  import opened Traffic
  import Adoption
  import Blob
  import Intents

  /** How many declarations have left. */
  function Declared(frames: seq<Frame>): nat {
    if frames == [] then 0 else Declared(frames[..|frames| - 1]) + (if frames[|frames| - 1].CatalogReady? then 1 else 0)
  }

  lemma {:induction false} DeclaredJoin(a: seq<Frame>, b: seq<Frame>)
    ensures Declared(a + b) == Declared(a) + Declared(b)
  {
    if b == [] {
      assert a + b == a;
    } else {
      var last := |b| - 1;
      assert (a + b)[..|a + b| - 1] == a + b[..last];
      DeclaredJoin(a, b[..last]);
    }
  }

  lemma {:induction false} NoneDeclared(frames: seq<Frame>)
    requires forall k | 0 <= k < |frames| :: !frames[k].CatalogReady?
    ensures Declared(frames) == 0
  {
    if frames != [] { NoneDeclared(frames[..|frames| - 1]); }
  }

  function Sends(s: Session): nat { Declared(Frames(s.log)) }

  lemma StepSends(s: Session, cfg: Config, e: Event)
    ensures Sends(Step(s, cfg, e)) == Sends(s) + Declared(Expected(s, cfg, e))
  {
    hide Step, Expected, Frames;
    StepAdds(s, cfg, e);
    var s' := Step(s, cfg, e);
    assert s'.log == s.log + s'.log[|s.log|..];
    FramesJoin(s.log, s'.log[|s.log|..]);
    DeclaredJoin(Frames(s.log), Frames(s'.log[|s.log|..]));
  }

  // ---- one tick ----------------------------------------------------------------------------------

  /** The loop's own fields. */
  predicate SameLoop(c: Core, c': Core) {
    && c'.readyPending == c.readyPending && c'.readyEtag == c.readyEtag
    && c'.readyAttempts == c.readyAttempts && c'.lastReadyMs == c.lastReadyMs
  }

  lemma TickLoop(s: Session, cfg: Config, env: Env)
    requires env.open && s.core.pumping
    ensures var c, c' := s.core, Tick(s, cfg, env).core;
            if DeclarationDue(c, cfg, env.now) then
              c'.readyAttempts == c.readyAttempts + 1 && c'.lastReadyMs == env.now && c'.readyPending && c'.readyEtag == c.readyEtag
            else SameLoop(c.(readyPending := c'.readyPending), c') && (c'.readyPending <==> c.readyPending && c.readyAttempts < cfg.readyMax)
  {
    hide PumpRepair, PumpEstop;
    var s1 := PumpReady(s, cfg, env);
    RestOfTick(s1, cfg, env);
  }

  lemma RestOfTick(s: Session, cfg: Config, env: Env)
    ensures SameLoop(s.core, PumpPing(PumpEstop(PumpRepair(s, cfg, env), env), env).core)
  {
    hide Blob.Missing, Blob.Complete, Blob.RepairRequest;
    var s1 := PumpRepair(s, cfg, env);
    assert SameLoop(s.core, s1.core);
    assert SameLoop(s1.core, PumpEstop(s1, env).core);
  }

  lemma DeclaredIf(condition: bool, f: Frame)
    ensures Declared(If(condition, f)) == if condition && f.CatalogReady? then 1 else 0
  {
    assert [f][..0] == [];
  }

  lemma TickDeclares(c: Core, cfg: Config, now: int)
    ensures Declared(TickFrames(c, cfg, now)) == if DeclarationDue(c, cfg, now) then 1 else 0
  {
    hide DeclarationDue, Abandoned, RepairDue, EstopDue, Blob.RepairRequest, PingInterval, Declared, If;
    var ready, again := If(DeclarationDue(c, cfg, now), CatalogReady(c.readyEtag)), If(Abandoned(c, cfg, now), BlobRequest(None));
    var repair := If(RepairDue(c, cfg, now), BlobRequest(Some(Blob.RepairRequest(c.blob))));
    var estop := If(EstopDue(c, now), Estop(c.alarm.seqNo));
    var silent := PumpFrames(c, cfg, now) == [] && now - c.lastTxMs >= PingInterval(c.deadmanMs);
    DeclaredIf(DeclarationDue(c, cfg, now), CatalogReady(c.readyEtag));
    DeclaredIf(Abandoned(c, cfg, now), BlobRequest(None));
    DeclaredIf(RepairDue(c, cfg, now), BlobRequest(Some(Blob.RepairRequest(c.blob))));
    DeclaredIf(EstopDue(c, now), Estop(c.alarm.seqNo));
    DeclaredIf(silent, Ping);
    DeclaredJoin(ready, again);
    DeclaredJoin(ready + again, repair);
    DeclaredJoin(ready + again + repair, estop);
    DeclaredJoin(PumpFrames(c, cfg, now), If(silent, Ping));
  }

  // ---- the loop stops ------------------------------------------------------------------------------

  /** Nothing among the events that could make the session adopt a catalog. */
  predicate NoChunks(events: seq<Event>) { forall k | 0 <= k < |events| :: !events[k].what.GotChunk? }

  lemma StepStopped(s: Session, cfg: Config, e: Event)
    requires !s.core.readyPending && !e.what.GotChunk?
    ensures !Step(s, cfg, e).core.readyPending && Sends(Step(s, cfg, e)) == Sends(s)
  {
    hide Sends, TickFrames, IntentFrames, Adoption.Hit, Blob.Missing, Tick, Welcome, SortKeys, Known, Ascending, Intents.Extend;
    StepSends(s, cfg, e);
    if e.what.PumpTick? {
      if e.env.open && s.core.pumping {
        TickDeclares(s.core, cfg, e.env.now);
        TickLoop(s, cfg, e.env);
      } else {
        IdleTick(s, cfg, e.env);
      }
    } else {
      OthersDeclareNothing(s, cfg, e);
      if e.what.GotWelcome? { WelcomeLeaves(s, cfg, e.env, e.what.etag, e.what.retained, e.what.deadmanMs); }
    }
    NoneDeclared([]);
  }

  lemma IdleTick(s: Session, cfg: Config, env: Env)
    requires !env.open || !s.core.pumping
    ensures Tick(s, cfg, env) == s
  {
  }

  lemma OthersDeclareNothing(s: Session, cfg: Config, e: Event)
    requires !e.what.GotChunk? && !e.what.PumpTick?
    ensures Declared(Expected(s, cfg, e)) == 0
  {
    hide Declared, IntentLeaves, SortKeys, Adoption.Hit;
    NoneDeclared(Expected(s, cfg, e));
  }

  lemma {:induction false} StaysStopped(s: Session, cfg: Config, events: seq<Event>)
    requires !s.core.readyPending && NoChunks(events)
    ensures !RunFrom(s, cfg, events).core.readyPending && Sends(RunFrom(s, cfg, events)) == Sends(s)
  {
    hide Step, Sends;
    if events != [] {
      var last := |events| - 1;
      StaysStopped(s, cfg, events[..last]);
      StepStopped(RunFrom(s, cfg, events[..last]), cfg, events[last]);
    }
  }

  /** Once a STATE frame or a new WELCOME has come, nothing is declared until another catalog is adopted. */
  lemma StateStops(s: Session, cfg: Config, e: Event, events: seq<Event>)
    requires (e.what.GotState? || e.what.GotWelcome?) && NoChunks(events)
    ensures Sends(RunFrom(Step(s, cfg, e), cfg, events)) == Sends(s)
  {
    hide Sends, RunFrom, Welcome, Step;
    StateClears(s, cfg, e);
    StepSends(s, cfg, e);
    OthersDeclareNothing(s, cfg, e);
    StaysStopped(Step(s, cfg, e), cfg, events);
  }

  lemma StateClears(s: Session, cfg: Config, e: Event)
    requires e.what.GotState? || e.what.GotWelcome?
    ensures !Step(s, cfg, e).core.readyPending
  {
    hide Welcome;
    if e.what.GotWelcome? { WelcomeLeaves(s, cfg, e.env, e.what.etag, e.what.retained, e.what.deadmanMs); }
  }

  // ---- until then it repeats --------------------------------------------------------------------------

  /** Neither a STATE frame, nor another WELCOME, nor another catalog. */
  predicate Unanswered(events: seq<Event>) {
    forall k | 0 <= k < |events| :: !events[k].what.GotState? && !events[k].what.GotWelcome? && !events[k].what.GotChunk?
  }

  function Gap(cfg: Config): int { if cfg.gapMs > 0 then cfg.gapMs else 1 }

  /** Where the loop of a declaration made at `t` stands at a tick at `point`; `sent` frames of it have left. */
  ghost predicate Repeating(s: Session, cfg: Config, etag: Bytes, base: nat, attempts: nat, t: int, point: int, sent: nat) {
    var c := s.core;
    && c.pumping && c.readyEtag == Some(etag) && 1 <= sent
    && Sends(s) == base + sent && c.readyAttempts == attempts + sent
    && (sent > 1 ==> c.readyAttempts <= cfg.readyMax)
    && c.lastReadyMs <= t + Late(cfg, sent - 1)
    && (c.readyAttempts < cfg.readyMax ==> c.readyPending && point < c.lastReadyMs + Gap(cfg))
  }

  /** The latest that `n` further frames can take: a gap and the rest of a tick's period each. */
  function Late(cfg: Config, n: nat): int { (Gap(cfg) + 49) * n }

  lemma LateNext(cfg: Config, n: nat)
    ensures Late(cfg, n + 1) == Late(cfg, n) + Gap(cfg) + 49
  {
  }

  lemma TickRepeats(s: Session, cfg: Config, e: Event, etag: Bytes, base: nat, attempts: nat, t: int, point: int, sent: nat)
    requires Repeating(s, cfg, etag, base, attempts, t, point, sent) && e.what.PumpTick? && e.env.open && e.env.now <= point + PERIOD
    ensures Repeating(Step(s, cfg, e), cfg, etag, base, attempts, t, e.env.now,
                      if DeclarationDue(s.core, cfg, e.env.now) then sent + 1 else sent)
  {
    hide Sends, TickFrames, Tick, Late, Declared;
    StepSends(s, cfg, e);
    TickDeclares(s.core, cfg, e.env.now);
    TickLoop(s, cfg, e.env);
    TickApart(s, cfg, e.env);
    LateNext(cfg, sent - 1);
  }

  lemma OtherRepeats(s: Session, cfg: Config, e: Event, etag: Bytes, base: nat, attempts: nat, t: int, point: int, sent: nat)
    requires Repeating(s, cfg, etag, base, attempts, t, point, sent)
    requires !Point(e.what) && !e.what.SocketGone? && !e.what.CallClose? && !e.what.GotState? && !e.what.GotChunk?
    ensures Repeating(Step(s, cfg, e), cfg, etag, base, attempts, t, point, sent)
  {
    hide Sends, Step, Late, Declared;
    StepSends(s, cfg, e);
    OthersDeclareNothing(s, cfg, e);
    StepLively(s, cfg, e);
    OtherLoop(s, cfg, e);
  }

  lemma OtherLoop(s: Session, cfg: Config, e: Event)
    requires !Point(e.what) && !e.what.GotState? && !e.what.GotChunk?
    ensures SameLoop(s.core, Step(s, cfg, e).core)
  {
    hide Intents.Extend, Welcome, BlobChunk, Tick, StateFrame, SendIntent, Send;
    match e.what
    case CallIntent(channel, names, fits) => IntentLoop(s, e.env, channel, names, fits);
    case SocketOpened =>
      SendLoop(s.(core := s.core.(lastTxMs := e.env.now, phase := HelloSent)), e.env,
               Hello(if s.core.cached.Some? then Some(s.core.cached.value.etag) else None));
    case GotPing => SendLoop(s, e.env, Pong);
    case CallRequestCatalog => SendLoop(s.(core := s.core.(blob := Blob.Idle)), e.env, BlobRequest(None));
    case CallEstop =>
      var n := s.core.alarm.next;
      SendLoop(s.(core := s.core.(alarm := Alarm(true, n, n + 1, 1, e.env.now))), e.env, Estop(n));
    case CallSend(frame) => SendLoop(s, e.env, frame);
    case CallClose => SendLoop(s.(core := s.core.(pumping := false)), e.env, Goodbye);
    case _ =>
  }

  lemma IntentLoop(s: Session, env: Env, channel: nat, names: seq<int>, fits: bool)
    ensures SameLoop(s.core, SendIntent(s, env, channel, names, fits).core)
  {
    hide SortKeys, Known, Ascending, Intents.Extend;
  }

  lemma SendLoop(s: Session, env: Env, f: Frame)
    ensures SameLoop(s.core, Send(s, env, f).core)
  {
  }

  lemma {:induction false} RunRepeats(s: Session, cfg: Config, etag: Bytes, base: nat, attempts: nat, t: int, sent0: nat, events: seq<Event>)
    returns (sent: nat)
    requires Repeating(s, cfg, etag, base, attempts, t, t, sent0) && Paced(t, 0, events) && Unanswered(events)
    ensures Repeating(RunFrom(s, cfg, events), cfg, etag, base, attempts, t, LastPoint(t, events), sent)
  {
    hide Repeating, Step;
    sent := sent0;
    if events != [] {
      var last := |events| - 1;
      var before, e := events[..last], events[last];
      PacedPrefix(t, 0, events);
      sent := RunRepeats(s, cfg, etag, base, attempts, t, sent0, before);
      var s1 := RunFrom(s, cfg, before);
      if e.what.PumpTick? {
        TickRepeats(s1, cfg, e, etag, base, attempts, t, LastPoint(t, before), sent);
        sent := if DeclarationDue(s1.core, cfg, e.env.now) then sent + 1 else sent;
      } else {
        OtherRepeats(s1, cfg, e, etag, base, attempts, t, LastPoint(t, before), sent);
      }
    }
  }

  /**
   A declaration made while the pump runs is repeated, always naming the same etag, at
   least every gap + 49 ms while ticks come at most 50 ms apart and no STATE frame
   answers it, until the attempts allowed since the WELCOME are used up; and no further.
   */
  lemma RepeatedUntilState(s: Session, cfg: Config, env: Env, etag: Bytes, events: seq<Event>)
    requires s.core.pumping && env.open && Paced(env.now, 0, events) && Unanswered(events)
    ensures var end := RunFrom(SendReady(s, env, etag), cfg, events);
            var sent := Sends(end) - Sends(s);
            && 1 <= sent && end.core.readyEtag == Some(etag)
            && end.core.readyAttempts == s.core.readyAttempts + sent
            && (sent > 1 ==> s.core.readyAttempts + sent <= cfg.readyMax)
            && (s.core.readyAttempts + sent < cfg.readyMax ==>
                  LastPoint(env.now, events) - env.now < Late(cfg, sent) - 49)
  {
    hide RunFrom, Sends, Late;
    var s1 := SendReady(s, env, etag);
    FirstDeclared(s, env, etag);
    LateFirst(cfg);
    var sent := RunRepeats(s1, cfg, etag, Sends(s), s.core.readyAttempts, env.now, 1, events);
    LateNext(cfg, sent - 1);
  }

  lemma LateFirst(cfg: Config)
    ensures Late(cfg, 0) == 0
  {
  }

  lemma FirstDeclared(s: Session, env: Env, etag: Bytes)
    requires env.open
    ensures Sends(SendReady(s, env, etag)) == Sends(s) + 1
  {
    var e := Sent(CatalogReady(Some(etag)), s.core.(readyEtag := Some(etag)), env.now);
    FramesJoin(s.log, [e]);
    FramesOne(e);
    DeclaredJoin(Frames(s.log), [e.frame]);
    assert [e.frame][..0] == [];
  }

  /** A declaration that could not be sent arms nothing. */
  lemma UnsentArmsNothing(s: Session, env: Env, etag: Bytes)
    requires !env.open
    ensures var s' := SendReady(s, env, etag); s'.log == s.log && s'.core == s.core.(readyEtag := Some(etag))
  {
  }

  // ---- how many there can be --------------------------------------------------------------------------------

  lemma AdoptAttempts(s: Session, cfg: Config, env: Env, bytes: Bytes)
    ensures Adopt(s, cfg, env, bytes).core.readyAttempts
              == s.core.readyAttempts + if env.open && cfg.decode(bytes).Some? then 1 else 0
  {
  }

  lemma ChunkAttempts(s: Session, cfg: Config, e: Event)
    requires e.what.GotChunk?
    ensures Step(s, cfg, e).core.readyAttempts == s.core.readyAttempts + Declared(Expected(s, cfg, e))
    ensures Declared(Expected(s, cfg, e)) <= 1
  {
    hide Adopt, Blob.ParseChunk, Blob.Insert, Blob.Begin, Blob.Complete, Blob.Accepts, Declared;
    NoneDeclared([]);
    NoneDeclared([Goodbye]);
    OneDeclared();
    var chunk := Blob.ParseChunk(e.what.payload);
    if chunk.Some? {
      var r := Blob.Receive(s.core.blob, chunk.value, e.env.now, cfg.cap);
      if r.done.Some? { AdoptAttempts(s.(core := s.core.(blob := r.transfer)), cfg, e.env, r.done.value); }
    }
  }

  lemma OneDeclared()
    ensures forall etag :: Declared([CatalogReady(etag)]) == 1
  {
    forall etag ensures Declared([CatalogReady(etag)]) == 1 {
      assert [CatalogReady(etag)][..0] == [];
    }
  }

  /** The attempts counted are the declarations sent. */
  lemma StepAttempts(s: Session, cfg: Config, e: Event)
    requires !e.what.GotWelcome?
    ensures Step(s, cfg, e).core.readyAttempts == s.core.readyAttempts + Declared(Expected(s, cfg, e))
    ensures e.what.PumpTick? && Declared(Expected(s, cfg, e)) > 0 ==> s.core.readyAttempts < cfg.readyMax
    ensures Declared(Expected(s, cfg, e)) <= 1
  {
    hide TickFrames, Tick, Declared, Step;
    if e.what.PumpTick? {
      TickIs(s, cfg, e);
      if e.env.open && s.core.pumping {
        TickDeclares(s.core, cfg, e.env.now);
        TickLoop(s, cfg, e.env);
      } else {
        IdleTick(s, cfg, e.env);
        NoneDeclared([]);
      }
    } else if e.what.GotChunk? {
      ChunkAttempts(s, cfg, e);
    } else {
      OthersDeclareNothing(s, cfg, e);
      if e.what.GotState? { StateAttempts(s, cfg, e); } else { OtherLoop(s, cfg, e); }
    }
  }

  lemma TickIs(s: Session, cfg: Config, e: Event)
    requires e.what.PumpTick?
    ensures Step(s, cfg, e) == Tick(s, cfg, e.env)
  {
  }

  lemma StateAttempts(s: Session, cfg: Config, e: Event)
    requires e.what.GotState?
    ensures Step(s, cfg, e).core.readyAttempts == s.core.readyAttempts
  {
  }

  function Chunks(events: seq<Event>): nat {
    if events == [] then 0 else Chunks(events[..|events| - 1]) + (if events[|events| - 1].what.GotChunk? then 1 else 0)
  }

  predicate NoWelcome(events: seq<Event>) { forall k | 0 <= k < |events| :: !events[k].what.GotWelcome? }

  /** From one WELCOME to the next at most the allowed number of declarations leave, and one more for each catalog adopted. */
  lemma {:induction false} BoundedSinceWelcome(s: Session, cfg: Config, welcome: Event, events: seq<Event>)
    requires welcome.what.GotWelcome? && NoWelcome(events)
    ensures var end := RunFrom(Step(s, cfg, welcome), cfg, events);
            Sends(end) - Sends(s) == end.core.readyAttempts <= cfg.readyMax + Chunks(events)
  {
    hide Step, Sends, Expected;
    var s0 := Step(s, cfg, welcome);
    if events == [] {
      StepSends(s, cfg, welcome);
      OthersDeclareNothing(s, cfg, welcome);
      WelcomeAttempts(s, cfg, welcome);
    } else {
      var last := |events| - 1;
      BoundedSinceWelcome(s, cfg, welcome, events[..last]);
      var s1 := RunFrom(s0, cfg, events[..last]);
      StepAttempts(s1, cfg, events[last]);
      StepSends(s1, cfg, events[last]);
      if !events[last].what.GotChunk? && !events[last].what.PumpTick? { OthersDeclareNothing(s1, cfg, events[last]); }
    }
  }

  lemma WelcomeAttempts(s: Session, cfg: Config, e: Event)
    requires e.what.GotWelcome?
    ensures Step(s, cfg, e).core.readyAttempts == 0
  {
    hide CheckLive, Greet;
    var c := s.core.(hubEtag := e.what.etag, deadmanMs := e.what.deadmanMs, adopted := {}, required := e.what.retained,
                     phase := Syncing, readyPending := false, readyAttempts := 0, blob := Blob.Idle);
    GreetAttempts(Gate(s.(core := c), cfg, e.env), cfg, e.env);
  }

  lemma GreetAttempts(s: Session, cfg: Config, env: Env)
    ensures CheckLive(Greet(s, cfg, env)).core.readyAttempts == s.core.readyAttempts
  {
  }
}
