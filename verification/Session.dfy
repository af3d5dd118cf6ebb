/**
 The client session of clients/js/session.js as a state machine: one transition
 for each frame handler, timer and call. The hash, the catalog decoder, the
 stored cache and the socket's readiness are whatever the environment makes
 them. Everything that leaves the client is logged with the state it left in.
 */
module Session {
  import opened Wire
  import Blob
  import Intents

  // ---- the data ---------------------------------------------------------------------

  /** A catalog entry, as far as a session acts on it: is its class INTENT, and its schema's keys. */
  datatype Channel = Channel(intent: bool, keys: set<int>)

  type Catalog = map<nat, Channel>

  datatype Stored = Stored(etag: Bytes, bytes: Bytes)

  /** The catalog a session decodes by, with the bytes it was decoded from. */
  datatype Ring = Ring(bytes: Bytes, catalog: Catalog)

  datatype Config = Config(
    etagOf: Bytes -> Bytes, decode: Bytes -> Option<Catalog>, autoCatalog: bool, subscribes: bool,
    cap: nat, readyMax: nat, gapMs: nat, abandonMs: nat)

  datatype Phase = Closed | HelloSent | Syncing | Live

  datatype Core = Core(
    phase: Phase,
    cached: Option<Stored>, hubEtag: Option<Bytes>, ring: Option<Ring>, blob: Blob.Transfer,
    ready: bool, readyEtag: Option<Bytes>, readyPending: bool, readyAttempts: nat, lastReadyMs: int,
    required: nat, adopted: set<nat>,
    lastTxMs: int, pumping: bool, deadmanMs: int,
    intents: Intents.Run, alarm: Alarm)

  /** The raw e-stop frame, repeated until the safety channel shows the latch. */
  datatype Alarm = Alarm(active: bool, seqNo: nat, next: nat, attempts: nat, lastMs: int)

  const NO_ALARM: Alarm := Alarm(false, 0, 1, 0, 0)
  const ESTOP_MAX: nat := 20
  const ESTOP_GAP_MS: int := 50
  const CH_SAFETY: nat := 3

  datatype Frame =
    | Hello(claim: Option<Bytes>)
    | CatalogReady(etag: Option<Bytes>)
    | BlobRequest(missing: Option<seq<nat>>)
    | Intent(channel: nat, seqNo: nat, id: nat, keys: seq<int>)
    | Ping | Pong | Clock | Subscribe | Goodbye | Estop(raised: nat) | Other

  /** A frame sent, or a catalog written to the store, and the state at that moment. */
  datatype Entry = Sent(frame: Frame, at: Core, now: int) | Saved(stored: Stored, at: Core)

  datatype Session = Session(core: Core, log: seq<Entry>)

  function Start(deadmanMs: int): Session {
    Session(Core(Closed, None, None, None, Blob.Idle, false, None, false, 0, 0, 0, {}, 0, false, deadmanMs, Intents.EMPTY, NO_ALARM), [])
  }

  /** When a handler runs, and whether the socket can send then. */
  datatype Env = Env(now: int, open: bool)

  // ---- sending ------------------------------------------------------------------------

  function Send(s: Session, env: Env, f: Frame): Session {
    if env.open then Session(s.core.(lastTxMs := env.now), s.log + [Sent(f, s.core, env.now)]) else s
  }

  function RequestCatalog(s: Session, env: Env): Session {
    Send(s.(core := s.core.(blob := Blob.Idle)), env, BlobRequest(None))
  }

  function SendReady(s: Session, env: Env, etag: Bytes): Session {
    var s1 := Send(s.(core := s.core.(readyEtag := Some(etag))), env, CatalogReady(Some(etag)));
    if env.open then
      s1.(core := s1.core.(readyPending := true, lastReadyMs := env.now, readyAttempts := s1.core.readyAttempts + 1))
    else s1
  }

  function CheckLive(s: Session): Session {
    if s.core.phase == Syncing && s.core.ring.Some? && |s.core.adopted| >= s.core.required then
      s.(core := s.core.(phase := Live))
    else s
  }

  // ---- socket lifecycle -----------------------------------------------------------------

  /** A stored catalog is trusted only if it hashes to its own etag. */
  function OpenSocket(s: Session, cfg: Config, stored: Option<Stored>): Session {
    var good := stored.Some? && cfg.etagOf(stored.value.bytes) == stored.value.etag;
    s.(core := s.core.(cached := if good then stored else None))
  }

  function Opened(s: Session, env: Env): Session {
    var claim := if s.core.cached.Some? then Some(s.core.cached.value.etag) else None;
    Send(s.(core := s.core.(lastTxMs := env.now, phase := HelloSent)), env, Hello(claim))
  }

  function SocketClosed(s: Session): Session {
    s.(core := s.core.(ready := false, phase := Closed, pumping := false,
                       intents := Intents.Extend(s.core.intents, Intents.Close), alarm := s.core.alarm.(active := false)))
  }

  function Close(s: Session, env: Env): Session {
    Send(s.(core := s.core.(pumping := false)), env, Goodbye)
  }

  // ---- WELCOME ----------------------------------------------------------------------------

  function Fetch(s: Session, cfg: Config, env: Env): Session {
    if cfg.autoCatalog then RequestCatalog(s, env) else s
  }

  function Gate(s: Session, cfg: Config, env: Env): Session {
    var c := s.core;
    if c.cached.Some? && c.hubEtag == Some(c.cached.value.etag) then
      var claimed := c.(readyEtag := Some(c.cached.value.etag));
      match cfg.decode(c.cached.value.bytes)
      case Some(catalog) => s.(core := claimed.(ready := true, ring := Some(Ring(c.cached.value.bytes, catalog))))
      case None => Fetch(s.(core := claimed.(ready := false, cached := None)), cfg, env)
    else Fetch(s.(core := c.(ready := false, cached := None)), cfg, env)
  }

  function Greet(s: Session, cfg: Config, env: Env): Session {
    var s1 := Send(s.(core := s.core.(pumping := true)), env, Clock);
    if cfg.subscribes then Send(s1, env, Subscribe) else s1
  }

  function Welcome(s: Session, cfg: Config, env: Env, etag: Option<Bytes>, retained: nat, deadmanMs: int): Session {
    var c := s.core.(hubEtag := etag, deadmanMs := deadmanMs, adopted := {}, required := retained, phase := Syncing,
                     readyPending := false, readyAttempts := 0, blob := Blob.Idle);
    CheckLive(Greet(Gate(s.(core := c), cfg, env), cfg, env))
  }

  // ---- the catalog transfer ------------------------------------------------------------------

  /** A whole blob arrived: adopt it if it decodes, store it if it verifies, declare what is held. */
  function Adopt(s: Session, cfg: Config, env: Env, bytes: Bytes): Session {
    match cfg.decode(bytes)
    case None => s
    case Some(catalog) =>
      var digest := cfg.etagOf(bytes);
      var s1 := s.(core := s.core.(ring := Some(Ring(bytes, catalog))));
      var s2 := if s.core.hubEtag == Some(digest) then s1.(log := s1.log + [Saved(Stored(digest, bytes), s1.core)]) else s1;
      CheckLive(SendReady(s2, env, digest))
  }

  function BlobChunk(s: Session, cfg: Config, env: Env, payload: Bytes): Session {
    match Blob.ParseChunk(payload)
    case None => s
    case Some(chunk) =>
      var r := Blob.Receive(s.core.blob, chunk, env.now, cfg.cap);
      var s1 := s.(core := s.core.(blob := r.transfer));
      if r.refused then Send(s1, env, Goodbye)
      else if r.done.Some? then Adopt(s1, cfg, env, r.done.value)
      else s1
  }

  /** `latch`: the decoded snapshot shows the e-stop latch. */
  function StateFrame(s: Session, channel: nat, latch: bool): Session {
    var alarm := s.core.alarm.(active := s.core.alarm.active && !(channel == CH_SAFETY && latch));
    var s1 := s.(core := s.core.(readyPending := false, ready := true, alarm := alarm));
    if channel in s.core.adopted then s1
    else CheckLive(s1.(core := s1.core.(adopted := s1.core.adopted + {channel})))
  }

  // ---- intents -----------------------------------------------------------------------------------

  function InsertKey(k: int, keys: seq<int>): seq<int> {
    if keys == [] || k <= keys[0] then [k] + keys else [keys[0]] + InsertKey(k, keys[1..])
  }

  /** Ascending numeric order. */
  function SortKeys(names: seq<int>): seq<int> {
    if names == [] then [] else InsertKey(names[0], SortKeys(names[1..]))
  }

  predicate Ascending(keys: seq<int>) {
    forall j, k | 0 <= j < k < |keys| :: keys[j] < keys[k]
  }

  predicate Known(keys: seq<int>, schema: set<int>) {
    forall k | 0 <= k < |keys| :: keys[k] in schema
  }

  /** An intent may be drawn: the session is live and the adopted catalog has the channel, as an INTENT channel. */
  predicate Permits(c: Core, channel: nat) {
    c.phase == Live && c.ring.Some? && channel in c.ring.value.catalog && c.ring.value.catalog[channel].intent
  }

  /** `fits`: every value given encodes under its field's type. */
  function SendIntent(s: Session, env: Env, channel: nat, names: seq<int>, fits: bool): Session {
    if !Permits(s.core, channel) then s
    else
      var keys := SortKeys(names);
      var encodes := fits && Known(keys, s.core.ring.value.catalog[channel].keys) && Ascending(keys);
      var id := Intents.NextId(s.core.intents.ledger);
      var s1 := s.(core := s.core.(intents := Intents.Extend(s.core.intents, Intents.Issue(channel, encodes, env.open))));
      if encodes then Send(s1, env, Intent(channel, id, id, keys)) else s1
  }

  function Settle(s: Session, step: Intents.Step): Session {
    s.(core := s.core.(intents := Intents.Extend(s.core.intents, step)))
  }

  // ---- the pump -------------------------------------------------------------------------------------

  function PingInterval(deadmanMs: int): (r: int)
    ensures 150 <= r <= 400
  {
    var share := deadmanMs * 6 / 10;
    var capped := if share < 400 then share else 400;
    if capped > 150 then capped else 150
  }

  function PumpReady(s: Session, cfg: Config, env: Env): Session {
    if !s.core.readyPending then s
    else if s.core.readyAttempts >= cfg.readyMax then s.(core := s.core.(readyPending := false))
    else if env.now - s.core.lastReadyMs < cfg.gapMs then s
    else
      var s1 := Send(s, env, CatalogReady(s.core.readyEtag));
      s1.(core := s1.core.(lastReadyMs := env.now, readyAttempts := s1.core.readyAttempts + 1))
  }

  function PumpRepair(s: Session, cfg: Config, env: Env): Session {
    var t := s.core.blob;
    if !t.Active? || Blob.Complete(t) then s
    else if env.now - t.startMs >= cfg.abandonMs then RequestCatalog(s, env)
    else if env.now - t.progressMs < cfg.gapMs || Blob.Missing(t) == [] then s
    else
      var s1 := Send(s, env, BlobRequest(Some(Blob.RepairRequest(t))));
      s1.(core := s1.core.(blob := t.(progressMs := env.now)))
  }

  function PumpPing(s: Session, env: Env): Session {
    if env.now - s.core.lastTxMs >= PingInterval(s.core.deadmanMs) then Send(s, env, Ping) else s
  }

  function PumpEstop(s: Session, env: Env): Session {
    var a := s.core.alarm;
    if !a.active then s
    else if a.attempts >= ESTOP_MAX then s.(core := s.core.(alarm := a.(active := false)))
    else if env.now - a.lastMs < ESTOP_GAP_MS then s
    else
      var s1 := Send(s, env, Estop(a.seqNo));
      s1.(core := s1.core.(alarm := a.(attempts := a.attempts + 1, lastMs := env.now)))
  }

  function Tick(s: Session, cfg: Config, env: Env): Session {
    if !s.core.pumping || !env.open then s
    else PumpPing(PumpEstop(PumpRepair(PumpReady(s, cfg, env), cfg, env), env), env)
  }

  /** `assertEstopRaw`. */
  function RaiseEstop(s: Session, env: Env): Session {
    var n := s.core.alarm.next;
    Send(s.(core := s.core.(alarm := Alarm(true, n, n + 1, 1, env.now))), env, Estop(n))
  }

  // ---- runs --------------------------------------------------------------------------------------------

  /** Frames the hub sends, timers, and calls of the application. */
  datatype What =
    | SocketOpening(stored: Option<Stored>) | SocketOpened | SocketGone
    | GotWelcome(etag: Option<Bytes>, retained: nat, deadmanMs: int)
    | GotChunk(payload: Bytes) | GotState(channel: nat, latch: bool) | GotPing
    | GotEcho(id: nat) | GotNack(channel: nat, named: Option<nat>, seqNo: Option<nat>)
    | IntentTimer(ticket: nat) | PumpTick
    | CallIntent(channel: nat, names: seq<int>, fits: bool)
    | CallRequestCatalog | CallEstop | CallSend(frame: Frame) | CallClose

  /** What the remaining calls of the interface put on the wire. */
  predicate Plain(f: Frame) { f.Clock? || f.Subscribe? || f.Other? }

  datatype Event = Event(env: Env, what: What)

  function Step(s: Session, cfg: Config, e: Event): Session {
    match e.what
    case SocketOpening(stored) => OpenSocket(s, cfg, stored)
    case SocketOpened => Opened(s, e.env)
    case SocketGone => SocketClosed(s)
    case GotWelcome(etag, retained, deadmanMs) => Welcome(s, cfg, e.env, etag, retained, deadmanMs)
    case GotChunk(payload) => BlobChunk(s, cfg, e.env, payload)
    case GotState(channel, latch) => StateFrame(s, channel, latch)
    case GotPing => Send(s, e.env, Pong)
    case GotEcho(id) => Settle(s, Intents.Echo(id))
    case GotNack(channel, named, seqNo) => Settle(s, Intents.Nack(channel, named, seqNo))
    case IntentTimer(ticket) => Settle(s, Intents.TimerFires(ticket))
    case PumpTick => Tick(s, cfg, e.env)
    case CallIntent(channel, names, fits) => SendIntent(s, e.env, channel, names, fits)
    case CallRequestCatalog => RequestCatalog(s, e.env)
    case CallEstop => RaiseEstop(s, e.env)
    case CallSend(frame) => if Plain(frame) then Send(s, e.env, frame) else s
    case CallClose => Close(s, e.env)
  }

  function RunFrom(s: Session, cfg: Config, events: seq<Event>): Session {
    if events == [] then s
    else Step(RunFrom(s, cfg, events[..|events| - 1]), cfg, events[|events| - 1])
  }

  // ---- what every reachable state keeps --------------------------------------------------------------------

  predicate Enough(c: Core) { c.ring.Some? && |c.adopted| >= c.required }

  /** The etag is the hash of catalog bytes held, and those bytes decoded to the catalog held. */
  predicate Declares(cfg: Config, c: Core, etag: Option<Bytes>) {
    c.ring.Some? && etag == Some(cfg.etagOf(c.ring.value.bytes)) && cfg.decode(c.ring.value.bytes) == Some(c.ring.value.catalog)
  }

  predicate Honest(cfg: Config, e: Entry) {
    match e
    case Saved(stored, at) =>
      stored.etag == cfg.etagOf(stored.bytes) && at.hubEtag == Some(stored.etag) && cfg.decode(stored.bytes).Some?
    case Sent(Hello(claim), at, _) =>
      claim.Some? ==> at.cached.Some? && claim.value == cfg.etagOf(at.cached.value.bytes)
    case Sent(CatalogReady(etag), at, _) => Declares(cfg, at, etag)
    case Sent(Intent(channel, seqNo, id, keys), at, _) =>
      && Permits(at, channel)
      && Known(keys, at.ring.value.catalog[channel].keys) && Ascending(keys)
      && seqNo == id && 1 <= id <= Intents.ID_SPACE
      && at.intents.ledger.drawn > 0
      && Intents.Find(at.intents.ledger.pending, id) == Some(Intents.Pending(id, channel, at.intents.ledger.drawn - 1))
    case Sent(BlobRequest(missing), at, _) =>
      missing.Some? ==> at.blob.Active? && missing.value == Blob.RepairRequest(at.blob) && missing.value != []
    case _ => true
  }

  predicate AllHonest(cfg: Config, log: seq<Entry>) {
    forall k | 0 <= k < |log| :: Honest(cfg, log[k])
  }

  /** Holds throughout, also between the steps of one handler. */
  predicate Sound(cfg: Config, c: Core) {
    && (c.ring.Some? ==> cfg.decode(c.ring.value.bytes) == Some(c.ring.value.catalog))
    && (c.cached.Some? ==> c.cached.value.etag == cfg.etagOf(c.cached.value.bytes))
    && (c.readyPending ==> Declares(cfg, c, c.readyEtag))
    && (c.phase == Live ==> Enough(c))
  }

  ghost predicate Mid(cfg: Config, s: Session) {
    Sound(cfg, s.core) && Intents.RunInv(s.core.intents) && AllHonest(cfg, s.log)
  }

  ghost predicate Inv(cfg: Config, s: Session) {
    Mid(cfg, s) && (s.core.phase == Syncing ==> !Enough(s.core))
  }

  lemma SendKeeps(s: Session, cfg: Config, env: Env, f: Frame)
    requires Mid(cfg, s) && Honest(cfg, Sent(f, s.core, env.now))
    ensures Mid(cfg, Send(s, env, f))
  {
    hide Honest, Intents.RunInv;
  }

  lemma CheckLiveKeeps(s: Session, cfg: Config)
    requires Mid(cfg, s)
    ensures Inv(cfg, CheckLive(s))
  {
    hide AllHonest, Intents.RunInv;
  }

  lemma FetchKeeps(s: Session, cfg: Config, env: Env)
    requires Mid(cfg, s)
    ensures Mid(cfg, Fetch(s, cfg, env)) && Mid(cfg, RequestCatalog(s, env))
    ensures Fetch(s, cfg, env).core.phase == RequestCatalog(s, env).core.phase == s.core.phase
  {
    hide AllHonest, Intents.RunInv;
    SendKeeps(s.(core := s.core.(blob := Blob.Idle)), cfg, env, BlobRequest(None));
  }

  lemma GateKeeps(s: Session, cfg: Config, env: Env)
    requires Mid(cfg, s) && !s.core.readyPending && s.core.phase == Syncing
    ensures Mid(cfg, Gate(s, cfg, env))
  {
    hide AllHonest, Intents.RunInv, Fetch;
    var c := s.core;
    if c.cached.Some? && c.hubEtag == Some(c.cached.value.etag) {
      if cfg.decode(c.cached.value.bytes).None? {
        FetchKeeps(s.(core := c.(readyEtag := Some(c.cached.value.etag), ready := false, cached := None)), cfg, env);
      }
    } else {
      FetchKeeps(s.(core := c.(ready := false, cached := None)), cfg, env);
    }
  }

  lemma GreetKeeps(s: Session, cfg: Config, env: Env)
    requires Mid(cfg, s)
    ensures Mid(cfg, Greet(s, cfg, env))
  {
    hide AllHonest, Intents.RunInv, Send;
    var s0 := s.(core := s.core.(pumping := true));
    SendKeeps(s0, cfg, env, Clock);
    SendKeeps(Send(s0, env, Clock), cfg, env, Subscribe);
  }

  lemma WelcomeKeeps(s: Session, cfg: Config, env: Env, etag: Option<Bytes>, retained: nat, deadmanMs: int)
    requires Inv(cfg, s)
    ensures Inv(cfg, Welcome(s, cfg, env, etag, retained, deadmanMs))
  {
    hide AllHonest, Intents.RunInv, Gate, Greet, CheckLive;
    var c := s.core.(hubEtag := etag, deadmanMs := deadmanMs, adopted := {}, required := retained, phase := Syncing,
                     readyPending := false, readyAttempts := 0, blob := Blob.Idle);
    var s1 := s.(core := c);
    GateKeeps(s1, cfg, env);
    GreetKeeps(Gate(s1, cfg, env), cfg, env);
    CheckLiveKeeps(Greet(Gate(s1, cfg, env), cfg, env), cfg);
  }

  lemma LogKeeps(cfg: Config, log: seq<Entry>, e: Entry)
    requires AllHonest(cfg, log) && Honest(cfg, e)
    ensures AllHonest(cfg, log + [e])
  {
    hide Honest;
  }

  /** The readiness declaration that follows an adoption: the old one may be out of date until it is made. */
  lemma ReadyKeeps(s: Session, cfg: Config, env: Env, etag: Bytes)
    requires Mid(cfg, s.(core := s.core.(readyPending := false))) && Declares(cfg, s.core, Some(etag))
    ensures Mid(cfg, SendReady(s, env, etag))
  {
    hide AllHonest, Intents.RunInv, Honest;
    var c := s.core.(readyEtag := Some(etag));
    ReadyHonest(cfg, c, env.now, etag);
    LogKeeps(cfg, s.log, Sent(CatalogReady(Some(etag)), c, env.now));
  }

  lemma ReadyHonest(cfg: Config, c: Core, now: int, etag: Bytes)
    requires Declares(cfg, c, Some(etag))
    ensures Honest(cfg, Sent(CatalogReady(Some(etag)), c, now))
  {
  }

  lemma AdoptKeeps(s: Session, cfg: Config, env: Env, bytes: Bytes)
    requires Inv(cfg, s)
    ensures Inv(cfg, Adopt(s, cfg, env, bytes))
  {
    hide AllHonest, Intents.RunInv, SendReady, CheckLive;
    match cfg.decode(bytes)
    case None =>
    case Some(catalog) =>
      var digest := cfg.etagOf(bytes);
      var s1 := s.(core := s.core.(ring := Some(Ring(bytes, catalog))));
      var kept := Saved(Stored(digest, bytes), s1.core);
      var s2 := if s.core.hubEtag == Some(digest) then s1.(log := s1.log + [kept]) else s1;
      if s.core.hubEtag == Some(digest) { LogKeeps(cfg, s1.log, kept); }
      ReadyKeeps(s2, cfg, env, digest);
      CheckLiveKeeps(SendReady(s2, env, digest), cfg);
  }

  lemma ChunkKeeps(s: Session, cfg: Config, env: Env, payload: Bytes)
    requires Inv(cfg, s)
    ensures Inv(cfg, BlobChunk(s, cfg, env, payload))
  {
    hide AllHonest, Intents.RunInv, Adopt, Send, Blob.Receive, Blob.ParseChunk;
    match Blob.ParseChunk(payload)
    case None =>
    case Some(chunk) =>
      var r := Blob.Receive(s.core.blob, chunk, env.now, cfg.cap);
      var s1 := s.(core := s.core.(blob := r.transfer));
      SendKeeps(s1, cfg, env, Goodbye);
      SendPhase(s1, env, Goodbye);
      if r.done.Some? { AdoptKeeps(s1, cfg, env, r.done.value); }
  }

  /** Sending touches nothing but the wire and the time it was last used. */
  lemma SendPhase(s: Session, env: Env, f: Frame)
    ensures Send(s, env, f).core == s.core.(lastTxMs := Send(s, env, f).core.lastTxMs) && (!env.open ==> Send(s, env, f) == s)
  {
  }

  lemma StateKeeps(s: Session, cfg: Config, channel: nat, latch: bool)
    requires Inv(cfg, s)
    ensures Inv(cfg, StateFrame(s, channel, latch))
  {
    hide AllHonest, Intents.RunInv, CheckLive;
    var alarm := s.core.alarm.(active := s.core.alarm.active && !(channel == CH_SAFETY && latch));
    var s1 := s.(core := s.core.(readyPending := false, ready := true, alarm := alarm));
    if channel !in s.core.adopted {
      CheckLiveKeeps(s1.(core := s1.core.(adopted := s1.core.adopted + {channel})), cfg);
    }
  }

  lemma SettleKeeps(s: Session, cfg: Config, step: Intents.Step)
    requires Inv(cfg, s)
    ensures Inv(cfg, Settle(s, step))
  {
    hide AllHonest, Intents.RunInv, Intents.Extend;
    Intents.ExtendRun(s.core.intents, step);
  }

  lemma IssuedIsPending(r: Intents.Run, channel: nat)
    requires Intents.RunInv(r)
    ensures var id, l := Intents.NextId(r.ledger), Intents.Extend(r, Intents.Issue(channel, true, true)).ledger;
            l.drawn > 0 && Intents.Find(l.pending, id) == Some(Intents.Pending(id, channel, l.drawn - 1))
  {
    Intents.PutFinds(r.ledger.pending, Intents.Pending(Intents.NextId(r.ledger), channel, r.ledger.drawn));
  }

  lemma IntentKeeps(s: Session, cfg: Config, env: Env, channel: nat, names: seq<int>, fits: bool)
    requires Inv(cfg, s)
    ensures Inv(cfg, SendIntent(s, env, channel, names, fits))
  {
    hide AllHonest, Intents.RunInv, Intents.Extend, Intents.Find, Known, Ascending, SortKeys, Send;
    if Permits(s.core, channel) {
      var keys := SortKeys(names);
      var encodes := fits && Known(keys, s.core.ring.value.catalog[channel].keys) && Ascending(keys);
      var id := Intents.NextId(s.core.intents.ledger);
      var s1 := s.(core := s.core.(intents := Intents.Extend(s.core.intents, Intents.Issue(channel, encodes, env.open))));
      Intents.ExtendRun(s.core.intents, Intents.Issue(channel, encodes, env.open));
      IssuedIsPending(s.core.intents, channel);
      SendPhase(s1, env, Intent(channel, id, id, keys));
      if encodes && env.open {
        SendKeeps(s1, cfg, env, Intent(channel, id, id, keys));
      } else {
        SendPhase(s1, env, Intent(channel, id, id, keys));
      }
    }
  }

  lemma PumpReadyKeeps(s: Session, cfg: Config, env: Env)
    requires Inv(cfg, s)
    ensures Inv(cfg, PumpReady(s, cfg, env))
  {
    hide AllHonest, Intents.RunInv, Send;
    SendPhase(s, env, CatalogReady(s.core.readyEtag));
    if s.core.readyPending {
      SendKeeps(s, cfg, env, CatalogReady(s.core.readyEtag));
    }
  }

  lemma PumpRepairKeeps(s: Session, cfg: Config, env: Env)
    requires Inv(cfg, s)
    ensures Inv(cfg, PumpRepair(s, cfg, env))
  {
    hide AllHonest, Intents.RunInv, Send, RequestCatalog, Blob.Missing, Blob.Complete;
    FetchKeeps(s, cfg, env);
    FetchLeaves(s, env);
    var t := s.core.blob;
    if t.Active? && Blob.Missing(t) != [] {
      var ask := BlobRequest(Some(Blob.RepairRequest(t)));
      SendPhase(s, env, ask);
      SendKeeps(s, cfg, env, ask);
    }
  }

  lemma FetchLeaves(s: Session, env: Env)
    ensures var s' := RequestCatalog(s, env); s'.core == s.core.(blob := Blob.Idle, lastTxMs := s'.core.lastTxMs)
  {
  }

  lemma TickKeeps(s: Session, cfg: Config, env: Env)
    requires Inv(cfg, s)
    ensures Inv(cfg, Tick(s, cfg, env))
  {
    hide AllHonest, Intents.RunInv, Send, PumpRepair, PumpReady, PumpEstop, Sound, Enough;
    PumpReadyKeeps(s, cfg, env);
    PumpRepairKeeps(PumpReady(s, cfg, env), cfg, env);
    var s1 := PumpRepair(PumpReady(s, cfg, env), cfg, env);
    PumpEstopKeeps(s1, cfg, env);
    PlainKeeps(PumpEstop(s1, env), cfg, env, Ping);
  }

  lemma PumpEstopKeeps(s: Session, cfg: Config, env: Env)
    requires Inv(cfg, s)
    ensures Inv(cfg, PumpEstop(s, env))
  {
    hide AllHonest, Intents.RunInv, Send;
    PlainKeeps(s, cfg, env, Estop(s.core.alarm.seqNo));
  }

  lemma RaiseKeeps(s: Session, cfg: Config, env: Env)
    requires Inv(cfg, s)
    ensures Inv(cfg, RaiseEstop(s, env))
  {
    hide AllHonest, Intents.RunInv, Send;
    var n := s.core.alarm.next;
    PlainKeeps(s.(core := s.core.(alarm := Alarm(true, n, n + 1, 1, env.now))), cfg, env, Estop(n));
  }

  lemma PlainKeeps(s: Session, cfg: Config, env: Env, f: Frame)
    requires Inv(cfg, s) && (Plain(f) || f.Ping? || f.Pong? || f.Goodbye? || f.Estop?)
    ensures Inv(cfg, Send(s, env, f))
  {
    hide AllHonest, Intents.RunInv, Send;
    SendPhase(s, env, f);
    SendKeeps(s, cfg, env, f);
  }

  lemma OpenedKeeps(s: Session, cfg: Config, env: Env)
    requires Inv(cfg, s)
    ensures Inv(cfg, Opened(s, env))
  {
    hide AllHonest, Intents.RunInv, Send;
    var claim := if s.core.cached.Some? then Some(s.core.cached.value.etag) else None;
    var s1 := s.(core := s.core.(lastTxMs := env.now, phase := HelloSent));
    SendPhase(s1, env, Hello(claim));
    SendKeeps(s1, cfg, env, Hello(claim));
  }

  lemma StepKeeps(s: Session, cfg: Config, e: Event)
    requires Inv(cfg, s)
    ensures Inv(cfg, Step(s, cfg, e))
  {
    hide AllHonest, Intents.RunInv, Intents.Extend, Opened, Welcome, BlobChunk, StateFrame, Send, Settle, Tick, SendIntent, RequestCatalog, RaiseEstop;
    match e.what
    case SocketOpening(stored) =>
    case SocketOpened => OpenedKeeps(s, cfg, e.env);
    case SocketGone => Intents.ExtendRun(s.core.intents, Intents.Close);
    case GotWelcome(etag, retained, deadmanMs) => WelcomeKeeps(s, cfg, e.env, etag, retained, deadmanMs);
    case GotChunk(payload) => ChunkKeeps(s, cfg, e.env, payload);
    case GotState(channel, latch) => StateKeeps(s, cfg, channel, latch);
    case GotPing => PlainKeeps(s, cfg, e.env, Pong);
    case GotEcho(id) => SettleKeeps(s, cfg, Intents.Echo(id));
    case GotNack(channel, named, seqNo) => SettleKeeps(s, cfg, Intents.Nack(channel, named, seqNo));
    case IntentTimer(ticket) => SettleKeeps(s, cfg, Intents.TimerFires(ticket));
    case PumpTick => TickKeeps(s, cfg, e.env);
    case CallIntent(channel, names, fits) => IntentKeeps(s, cfg, e.env, channel, names, fits);
    case CallRequestCatalog => FetchKeeps(s, cfg, e.env); FetchLeaves(s, e.env);
    case CallEstop => RaiseKeeps(s, cfg, e.env);
    case CallSend(frame) => if Plain(frame) { PlainKeeps(s, cfg, e.env, frame); }
    case CallClose => PlainKeeps(s.(core := s.core.(pumping := false)), cfg, e.env, Goodbye);
  }

  lemma {:induction false} RunKeeps(s: Session, cfg: Config, events: seq<Event>)
    requires Inv(cfg, s)
    ensures Inv(cfg, RunFrom(s, cfg, events))
  {
    hide Inv, Step;
    if events != [] {
      RunKeeps(s, cfg, events[..|events| - 1]);
      StepKeeps(RunFrom(s, cfg, events[..|events| - 1]), cfg, events[|events| - 1]);
    }
  }

  // ---- what the handlers leave alone ------------------------------------------------------

  predicate Greeted(c: Core) { c.phase == Syncing || c.phase == Live }

  /** What sending, fetching, adopting and pumping never touch; the log only grows. */
  predicate Apart(s: Session, s': Session, env: Env) {
    && s.log <= s'.log
    && s'.core.required == s.core.required && s'.core.adopted == s.core.adopted
    && s'.core.intents == s.core.intents && s'.core.hubEtag == s.core.hubEtag
    && s'.core.pumping == s.core.pumping && s'.core.deadmanMs == s.core.deadmanMs
    && (s'.core.lastTxMs == s.core.lastTxMs || s'.core.lastTxMs == env.now)
    && Greeted(s'.core) == Greeted(s.core) && (s'.core.phase == Closed <==> s.core.phase == Closed)
  }

  lemma AdoptApart(s: Session, cfg: Config, env: Env, bytes: Bytes)
    ensures Apart(s, Adopt(s, cfg, env, bytes), env) && Adopt(s, cfg, env, bytes).core.blob == s.core.blob
  {
  }

  lemma ChunkApart(s: Session, cfg: Config, env: Env, payload: Bytes)
    ensures Apart(s, BlobChunk(s, cfg, env, payload), env)
  {
    hide Adopt, Blob.Receive, Blob.ParseChunk;
    var chunk := Blob.ParseChunk(payload);
    if chunk.Some? {
      var r := Blob.Receive(s.core.blob, chunk.value, env.now, cfg.cap);
      if r.done.Some? { AdoptApart(s.(core := s.core.(blob := r.transfer)), cfg, env, r.done.value); }
    }
  }

  /** A tick may note progress or abandon a transfer that is too old, and leaves the catalog alone. */
  lemma TickApart(s: Session, cfg: Config, env: Env)
    ensures var s' := Tick(s, cfg, env);
            var t, t' := s.core.blob, s'.core.blob;
            && Apart(s, s', env) && s'.core.ring == s.core.ring
            && (t' == t || (t.Active? && (t' == t.(progressMs := env.now) || (t'.Idle? && env.now - t.startMs >= cfg.abandonMs))))
  {
    hide PumpReady, PumpRepair, PumpEstop, Send;
    var s1 := PumpReady(s, cfg, env);
    ReadyApart(s, cfg, env);
    RepairApart(s1, cfg, env);
    var s2 := PumpRepair(s1, cfg, env);
    EstopApart(s2, env);
    var s3 := PumpEstop(s2, env);
    SendApart(s3, env, Ping);
  }

  lemma SendApart(s: Session, env: Env, f: Frame)
    ensures Apart(s, Send(s, env, f), env) && SameBlob(s, Send(s, env, f))
  {
  }

  predicate SameBlob(s: Session, s': Session) { s'.core.ring == s.core.ring && s'.core.blob == s.core.blob }

  lemma ReadyApart(s: Session, cfg: Config, env: Env)
    ensures Apart(s, PumpReady(s, cfg, env), env) && SameBlob(s, PumpReady(s, cfg, env))
  {
  }

  lemma EstopApart(s: Session, env: Env)
    ensures Apart(s, PumpEstop(s, env), env) && SameBlob(s, PumpEstop(s, env))
  {
  }

  lemma RepairApart(s: Session, cfg: Config, env: Env)
    ensures var s' := PumpRepair(s, cfg, env);
            var t, t' := s.core.blob, s'.core.blob;
            && Apart(s, s', env) && s'.core.ring == s.core.ring
            && (t' == t || (t.Active? && (t' == t.(progressMs := env.now) || (t'.Idle? && env.now - t.startMs >= cfg.abandonMs))))
  {
    hide Blob.Complete, Blob.Missing, Blob.RepairRequest;
  }

  /** Both sides of the readiness gate: the cached catalog is taken, or nothing is. */
  lemma GateApart(s: Session, cfg: Config, env: Env)
    ensures var s', cached := Gate(s, cfg, env), s.core.cached;
            && Apart(s, s', env) && s'.core.readyPending == s.core.readyPending && (s.core.blob.Idle? ==> s'.core.blob.Idle?)
            && s'.core.ring ==
                 if cached.Some? && s.core.hubEtag == Some(cached.value.etag) && cfg.decode(cached.value.bytes).Some?
                 then Some(Ring(cached.value.bytes, cfg.decode(cached.value.bytes).value)) else s.core.ring
  {
    hide Fetch;
    var c := s.core;
    if c.cached.Some? && c.hubEtag == Some(c.cached.value.etag) {
      FetchApart(s.(core := c.(readyEtag := Some(c.cached.value.etag), ready := false, cached := None)), cfg, env);
    } else {
      FetchApart(s.(core := c.(ready := false, cached := None)), cfg, env);
    }
  }

  lemma FetchApart(s: Session, cfg: Config, env: Env)
    ensures var s' := Fetch(s, cfg, env);
            && Apart(s, s', env) && s'.core.ring == s.core.ring && s'.core.readyPending == s.core.readyPending
            && (s.core.blob.Idle? ==> s'.core.blob.Idle?)
  {
  }

  /** Where a WELCOME leaves the session. */
  lemma WelcomeLeaves(s: Session, cfg: Config, env: Env, etag: Option<Bytes>, retained: nat, deadmanMs: int)
    ensures var s', cached := Welcome(s, cfg, env, etag, retained, deadmanMs), s.core.cached;
            && s.log <= s'.log && s'.core.intents == s.core.intents
            && s'.core.hubEtag == etag && s'.core.required == retained && s'.core.adopted == {} && Greeted(s'.core)
            && s'.core.blob.Idle? && !s'.core.readyPending
            && s'.core.pumping && s'.core.deadmanMs == deadmanMs && (env.open ==> s'.core.lastTxMs == env.now)
            && s'.core.ring ==
                 if cached.Some? && etag == Some(cached.value.etag) && cfg.decode(cached.value.bytes).Some?
                 then Some(Ring(cached.value.bytes, cfg.decode(cached.value.bytes).value)) else s.core.ring
  {
    hide Gate;
    var c := s.core.(hubEtag := etag, deadmanMs := deadmanMs, adopted := {}, required := retained, phase := Syncing,
                     readyPending := false, readyAttempts := 0, blob := Blob.Idle);
    GateApart(s.(core := c), cfg, env);
    var s1 := Gate(s.(core := c), cfg, env);
    var s2 := Greet(s1, cfg, env);
    assert s1.log <= s2.log && s2.core == s1.core.(pumping := true, lastTxMs := s2.core.lastTxMs);
  }
}
