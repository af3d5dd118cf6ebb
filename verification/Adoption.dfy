/** Which catalog a session is on: the last one it adopted, whatever the hub has announced since. */
module Adoption {
  import opened Wire
  import opened Session
  import SessionRuns
  import Blob
  import Intents

  // ---- what is adopted, and when ------------------------------------------------------------

  /** The cache holds the announced catalog in a form that decodes. */
  predicate Hit(s: Session, cfg: Config, etag: Option<Bytes>) {
    var cached := s.core.cached;
    cached.Some? && etag == Some(cached.value.etag) && cfg.decode(cached.value.bytes).Some?
  }

  /** The bytes a chunk completes, if they decode. */
  function HandedOn(s: Session, cfg: Config, env: Env, payload: Bytes): Option<Bytes> {
    match Blob.ParseChunk(payload)
    case None => None
    case Some(chunk) =>
      var done := Blob.Receive(s.core.blob, chunk, env.now, cfg.cap).done;
      if done.Some? && cfg.decode(done.value).Some? then done else None
  }

  /** The bytes an event makes the session adopt, if any. */
  function AdoptedBy(s: Session, cfg: Config, e: Event): Option<Bytes> {
    match e.what
    case GotWelcome(etag, _, _) => if Hit(s, cfg, etag) then Some(s.core.cached.value.bytes) else None
    case GotChunk(payload) => HandedOn(s, cfg, e.env, payload)
    case _ => None
  }

  function RingAfter(s: Session, cfg: Config, adopted: Option<Bytes>): Option<Ring> {
    if adopted.Some? && cfg.decode(adopted.value).Some?
    then Some(Ring(adopted.value, cfg.decode(adopted.value).value)) else s.core.ring
  }

  lemma AdoptRing(s: Session, cfg: Config, env: Env, bytes: Bytes)
    ensures Adopt(s, cfg, env, bytes).core.ring == RingAfter(s, cfg, Some(bytes))
  {
  }

  lemma ChunkRing(s: Session, cfg: Config, env: Env, payload: Bytes)
    ensures BlobChunk(s, cfg, env, payload).core.ring == RingAfter(s, cfg, HandedOn(s, cfg, env, payload))
    ensures BlobChunk(s, cfg, env, payload).core.hubEtag == s.core.hubEtag
  {
    hide Adopt, Blob.Receive, Blob.ParseChunk;
    ChunkApart(s, cfg, env, payload);
    var chunk := Blob.ParseChunk(payload);
    if chunk.Some? {
      var r := Blob.Receive(s.core.blob, chunk.value, env.now, cfg.cap);
      RefusedHandsNothing(s.core.blob, chunk.value, env.now, cfg.cap);
      if r.done.Some? { AdoptRing(s.(core := s.core.(blob := r.transfer)), cfg, env, r.done.value); }
    }
  }

  lemma RefusedHandsNothing(t: Blob.Transfer, c: Blob.Chunk, now: int, cap: nat)
    ensures Blob.Receive(t, c, now, cap).refused ==> Blob.Receive(t, c, now, cap).done.None?
  {
  }

  /** The catalog held changes by adoption alone, and the announced etag by a WELCOME alone. */
  lemma StepAdopts(s: Session, cfg: Config, e: Event)
    ensures var c := Step(s, cfg, e).core;
            && c.ring == RingAfter(s, cfg, AdoptedBy(s, cfg, e))
            && c.hubEtag == if e.what.GotWelcome? then e.what.etag else s.core.hubEtag
  {
    hide Welcome, BlobChunk, Tick, HandedOn, SortKeys, Intents.Extend, Known, Ascending;
    match e.what
    case GotWelcome(etag, retained, deadmanMs) => WelcomeLeaves(s, cfg, e.env, etag, retained, deadmanMs);
    case PumpTick => TickApart(s, cfg, e.env);
    case GotChunk(payload) => ChunkRing(s, cfg, e.env, payload);
    case _ =>
  }

  // ---- a catalog other than the announced one ---------------------------------------------------

  /** A catalog is held that does not hash to the etag the hub announced. */
  predicate HoldsOther(cfg: Config, c: Core) {
    c.ring.Some? && c.hubEtag != Some(cfg.etagOf(c.ring.value.bytes))
  }

  /**
   Step by step, exactly when another catalog is held: after a WELCOME, if the one
   held already has another hash and the cache has no hit; after a chunk that
   completes bytes which decode, if those have another hash; and otherwise as before.
   */
  lemma OtherStep(s: Session, cfg: Config, e: Event)
    requires Inv(cfg, s)
    ensures HoldsOther(cfg, Step(s, cfg, e).core) <==>
              match e.what
              case GotWelcome(etag, _, _) =>
                s.core.ring.Some? && etag != Some(cfg.etagOf(s.core.ring.value.bytes)) && !Hit(s, cfg, etag)
              case GotChunk(payload) =>
                var bytes := HandedOn(s, cfg, e.env, payload);
                if bytes.Some? then s.core.hubEtag != Some(cfg.etagOf(bytes.value)) else HoldsOther(cfg, s.core)
              case _ => HoldsOther(cfg, s.core)
  {
    hide Step, AllHonest, Intents.RunInv;
    StepAdopts(s, cfg, e);
    if e.what.GotChunk? { HandedOnDecodes(s, cfg, e.env, e.what.payload); }
  }

  lemma HandedOnDecodes(s: Session, cfg: Config, env: Env, payload: Bytes)
    ensures var bytes := HandedOn(s, cfg, env, payload); bytes.Some? ==> cfg.decode(bytes.value).Some?
  {
  }

  /** The etag of the last WELCOME. */
  function Announced(events: seq<Event>): Option<Bytes> {
    if events == [] then None
    else
      var e := events[|events| - 1].what;
      if e.GotWelcome? then e.etag else Announced(events[..|events| - 1])
  }

  /** The bytes last adopted in a run, from the cache or from a transfer. */
  function LastAdopted(cfg: Config, deadmanMs: int, events: seq<Event>): Option<Bytes> {
    if events == [] then None
    else
      var before := events[..|events| - 1];
      var bytes := AdoptedBy(SessionRuns.Run(cfg, deadmanMs, before), cfg, events[|events| - 1]);
      if bytes.Some? then bytes else LastAdopted(cfg, deadmanMs, before)
  }

  lemma {:induction false} RunAdopts(cfg: Config, deadmanMs: int, events: seq<Event>)
    ensures var c := SessionRuns.Run(cfg, deadmanMs, events).core;
            && c.hubEtag == Announced(events)
            && LastAdopted(cfg, deadmanMs, events) == if c.ring.Some? then Some(c.ring.value.bytes) else None
  {
    hide Step, AdoptedBy;
    if events != [] {
      var before, e := events[..|events| - 1], events[|events| - 1];
      RunAdopts(cfg, deadmanMs, before);
      StepAdopts(SessionRuns.Run(cfg, deadmanMs, before), cfg, e);
      AdoptedDecodes(SessionRuns.Run(cfg, deadmanMs, before), cfg, e);
    }
  }

  lemma AdoptedDecodes(s: Session, cfg: Config, e: Event)
    ensures var bytes := AdoptedBy(s, cfg, e); bytes.Some? ==> cfg.decode(bytes.value).Some?
  {
    if e.what.GotChunk? { HandedOnDecodes(s, cfg, e.env, e.what.payload); }
  }

  /**
   In every run, the session is LIVE on a catalog that does not hash to the etag of
   the last WELCOME exactly when that WELCOME still stands, the STATE channels it
   promised have arrived, and the bytes last adopted, whether before that WELCOME,
   from the cache or from a transfer since, have another hash.
   */
  lemma LiveOnOtherExactly(cfg: Config, deadmanMs: int, events: seq<Event>)
    ensures var c := SessionRuns.Run(cfg, deadmanMs, events).core;
            var last := LastAdopted(cfg, deadmanMs, events);
            c.phase == Live && HoldsOther(cfg, c) <==>
              && SessionRuns.Welcomed(events) && |SessionRuns.Arrived(events)| >= SessionRuns.Promised(events)
              && last.Some? && Announced(events) != Some(cfg.etagOf(last.value))
  {
    SessionRuns.LiveExactly(cfg, deadmanMs, events);
    RunAdopts(cfg, deadmanMs, events);
  }

  /**
   A new session, too, can be LIVE on another catalog than the announced one: bytes
   that do not verify are adopted all the same, and honestly declared.
   */
  lemma LiveOnUnverified(cfg: Config, env: Env, deadmanMs: int, etag: Bytes, blob: Bytes, payload: Bytes)
    requires 0 < |blob| <= Blob.CHUNK && |blob| <= cfg.cap && cfg.decode(blob).Some? && cfg.etagOf(blob) != etag
    requires Blob.ParseChunk(payload) == Some(Blob.HonestChunk(blob, 0, 0))
    ensures var events := [Event(env, GotWelcome(Some(etag), 0, deadmanMs)), Event(env, GotChunk(payload))];
            var c := SessionRuns.Run(cfg, deadmanMs, events).core;
            c.phase == Live && c.hubEtag == Some(etag) && c.ring.Some? && c.ring.value.bytes == blob
  {
    hide Step, Blob.ParseChunk;
    var welcome, chunk := Event(env, GotWelcome(Some(etag), 0, deadmanMs)), Event(env, GotChunk(payload));
    var events := [welcome, chunk];
    var s0 := Start(deadmanMs);
    assert events[..1] == [welcome] && [welcome][..0] == [];
    WelcomeLeaves(s0, cfg, env, Some(etag), 0, deadmanMs);
    var s1 := Step(s0, cfg, welcome);
    StepAdopts(s0, cfg, welcome);
    StepIsWelcome(s0, cfg, welcome);
    StepAdopts(s1, cfg, chunk);
    OneChunk(s1, cfg, env, blob, payload);
    SessionRuns.LiveExactly(cfg, deadmanMs, events);
    assert RunFrom(s0, cfg, [welcome][..0]) == s0;
    assert SessionRuns.Run(cfg, deadmanMs, [welcome]) == s1;
    assert SessionRuns.Run(cfg, deadmanMs, events) == Step(s1, cfg, chunk);
    assert SessionRuns.Welcomed([welcome]) && SessionRuns.Promised([welcome]) == 0;
  }

  lemma StepIsWelcome(s: Session, cfg: Config, e: Event)
    requires e.what.GotWelcome?
    ensures Step(s, cfg, e) == Welcome(s, cfg, e.env, e.what.etag, e.what.retained, e.what.deadmanMs)
  {
  }

  /** A blob of one chunk is handed on as soon as that chunk arrives. */
  lemma OneChunk(s: Session, cfg: Config, env: Env, blob: Bytes, payload: Bytes)
    requires s.core.blob.Idle? && 0 < |blob| <= Blob.CHUNK && |blob| <= cfg.cap && cfg.decode(blob).Some?
    requires Blob.ParseChunk(payload) == Some(Blob.HonestChunk(blob, 0, 0))
    ensures HandedOn(s, cfg, env, payload) == Some(blob)
  {
    hide Blob.ParseChunk;
    var c := Blob.HonestChunk(blob, 0, 0);
    Blob.BeginHonest(blob, 0, 0, env.now, cfg.cap);
    var begun := Blob.Begin(c, env.now, cfg.cap);
    Blob.InsertHonest(begun, blob, 0, 0, env.now);
    var t' := Blob.Insert(begun, c, env.now);
    Blob.AllCountedBack(t'.received);
    Blob.CompleteAssembles(t', blob);
  }

  // ---- across a reconnect -----------------------------------------------------------------------

  /**
   LIVE does not mean that the catalog is the hub's current one: a session that
   has ever adopted a catalog and reconnects without a stored one is LIVE on the
   old catalog at once, whatever etag the new WELCOME announces.
   */
  lemma LiveOnOldCatalog(s: Session, cfg: Config, env: Env, etag: Bytes, deadmanMs: int)
    requires s.core.ring.Some?
    ensures var again := [Event(env, SocketGone), Event(env, SocketOpening(None)), Event(env, SocketOpened),
                          Event(env, GotWelcome(Some(etag), 0, deadmanMs))];
            var c := RunFrom(s, cfg, again).core;
            c.phase == Live && c.hubEtag == Some(etag) && c.ring == s.core.ring
  {
    hide Intents.Extend;
    var again := [Event(env, SocketGone), Event(env, SocketOpening(None)), Event(env, SocketOpened),
                  Event(env, GotWelcome(Some(etag), 0, deadmanMs))];
    var s1 := SocketClosed(s);
    var s2 := OpenSocket(s1, cfg, None);
    var s3 := Opened(s2, env);
    var s4 := Welcome(s3, cfg, env, Some(etag), 0, deadmanMs);
    assert s3.core.ring == s.core.ring && s3.core.cached.None?;
    assert s4.core.phase == Live && s4.core.hubEtag == Some(etag) && s4.core.ring == s.core.ring;
    FourSteps(s, cfg, again);
  }

  /**
   Exactly when a WELCOME leaves the session on a catalog other than the one it
   announces: an earlier catalog of another hash is held, and the cache does not
   hold the announced one in decodable form. It is then LIVE at once exactly when
   no retained push was promised.
   */
  lemma StaleExactly(s: Session, cfg: Config, env: Env, etag: Bytes, retained: nat, deadmanMs: int)
    requires Inv(cfg, s)
    ensures var c := Welcome(s, cfg, env, Some(etag), retained, deadmanMs).core;
            var hit := s.core.cached.Some? && s.core.cached.value.etag == etag && cfg.decode(s.core.cached.value.bytes).Some?;
            var stale := s.core.ring.Some? && cfg.etagOf(s.core.ring.value.bytes) != etag && !hit;
            && (c.ring.Some? && cfg.etagOf(c.ring.value.bytes) != etag <==> stale)
            && (c.phase == Live && cfg.etagOf(c.ring.value.bytes) != etag <==> stale && retained == 0)
  {
    hide Welcome, AllHonest, Intents.RunInv;
    WelcomeLeaves(s, cfg, env, Some(etag), retained, deadmanMs);
    WelcomeKeeps(s, cfg, env, Some(etag), retained, deadmanMs);
  }

  lemma FourSteps(s: Session, cfg: Config, es: seq<Event>)
    requires |es| == 4
    ensures RunFrom(s, cfg, es) == Step(Step(Step(Step(s, cfg, es[0]), cfg, es[1]), cfg, es[2]), cfg, es[3])
  {
    hide Step;
    assert es[..3][..2] == es[..2] && es[..2][..1] == es[..1] && es[..1][..0] == [];
    assert RunFrom(s, cfg, es[..1]) == Step(s, cfg, es[0]);
    assert RunFrom(s, cfg, es[..2]) == Step(Step(s, cfg, es[0]), cfg, es[1]);
    assert RunFrom(s, cfg, es[..3]) == Step(RunFrom(s, cfg, es[..2]), cfg, es[2]);
  }
}
