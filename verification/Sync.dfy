/** A whole synchronisation: WELCOME, a catalog sent in chunks, the retained state, LIVE. */
module Sync {
  import opened Wire
  import opened Session
  import SessionRuns
  import Blob
  import Intents

  // ---- the log only grows ------------------------------------------------------------------

  lemma LogGrows(s: Session, cfg: Config, e: Event)
    ensures s.log <= Step(s, cfg, e).log
  {
    hide Welcome, BlobChunk, Tick, SortKeys, Intents.Extend, Known, Ascending;
    match e.what
    case GotWelcome(etag, retained, deadmanMs) => WelcomeLeaves(s, cfg, e.env, etag, retained, deadmanMs);
    case PumpTick => TickApart(s, cfg, e.env);
    case GotChunk(payload) => ChunkApart(s, cfg, e.env, payload);
    case _ =>
  }

  // ---- the catalog on offer ------------------------------------------------------------------

  /** A chunk of `blob`, of any generation. */
  predicate HonestPayload(blob: Bytes, payload: Bytes) {
    var c := Blob.ParseChunk(payload);
    && c.Some? && c.value.index < Blob.ChunkCount(blob)
    && c.value == Blob.HonestChunk(blob, c.value.generation, c.value.index)
  }

  /** What a hub puts on the wire for a chunk of a blob is such a payload, whatever its reserved byte. */
  lemma SentPayloadIsHonest(blob: Bytes, g: nat, i: nat, reserved: byte)
    requires i < Blob.ChunkCount(blob) && Blob.ChunkFits(Blob.HonestChunk(blob, g, i))
    ensures HonestPayload(blob, Blob.ChunkPayload(Blob.HonestChunk(blob, g, i), reserved))
  {
    Blob.ChunkRoundTrip(Blob.HonestChunk(blob, g, i), reserved);
  }

  /** A payload the session drops: too short, for another namespace, or with an index out of range. */
  predicate Dropped(payload: Bytes) {
    var c := Blob.ParseChunk(payload);
    c.None? || c.value.ns != 0 || c.value.count == 0 || c.value.index >= c.value.count
  }

  /**
   The socket stays up, nothing restarts the fetch, no tick finds it older than the
   abandon limit, and only chunks of `blob` or payloads that are dropped arrive.
   */
  predicate Calm(cfg: Config, since: int, blob: Bytes, e: Event) {
    && since <= e.env.now
    && match e.what
       case GotWelcome(_, _, _) => false
       case SocketOpened => false
       case SocketGone => false
       case CallRequestCatalog => false
       case PumpTick => e.env.now < since + cfg.abandonMs
       case GotChunk(payload) => Dropped(payload) || HonestPayload(blob, payload)
       case _ => true
  }

  /** The chunk indices that arrived, in any order and number. */
  function Indices(events: seq<Event>): set<nat> {
    if events == [] then {}
    else Indices(events[..|events| - 1]) + IndexOf(events[|events| - 1].what)
  }

  function IndexOf(e: What): set<nat> {
    if e.GotChunk? && !Dropped(e.payload) then {Blob.ParseChunk(e.payload).value.index} else {}
  }

  /** The STATE channels that arrived. */
  function States(events: seq<Event>): set<nat> {
    if events == [] then {}
    else
      States(events[..|events| - 1])
      + (if events[|events| - 1].what.GotState? then {events[|events| - 1].what.channel} else {})
  }

  /** A transfer of `blob` under way, not abandoned before `since + abandonMs`. */
  ghost predicate UnderWay(t: Blob.Transfer, since: int, blob: Bytes) {
    t.Idle? || (Blob.Partial(t, blob) && !Blob.Complete(t) && t.startMs >= since)
  }

  /** Which indices a transfer holds. */
  function Held(t: Blob.Transfer): set<nat> {
    if t.Idle? then {} else set i | 0 <= i < |t.received| && t.received[i]
  }

  lemma ReceiveChunk(t: Blob.Transfer, since: int, blob: Bytes, c: Blob.Chunk, now: int, cap: nat)
    requires UnderWay(t, since, blob) && since <= now && 0 < |blob| <= cap
    requires c.index < Blob.ChunkCount(blob) && c == Blob.HonestChunk(blob, c.generation, c.index)
    ensures var r := Blob.Receive(t, c, now, cap);
            && !r.refused && UnderWay(r.transfer, since, blob)
            && (r.done.None? ==> r.transfer.Active? && Held(r.transfer) == Held(t) + {c.index})
            && (r.done.Some? ==> r.done.value == blob && r.transfer.Idle?)
  {
    hide Blob.Partial, Blob.CountTrue, Blob.Slice;
    PartialShape(t, blob);
    if t.Idle? {
      Blob.BeginHonest(blob, c.generation, c.index, now, cap);
    }
    var begun := if t.Idle? then Blob.Begin(c, now, cap) else t;
    assert Held(begun) == Held(t);
    PartialShape(begun, blob);
    Blob.InsertHonest(begun, blob, c.generation, c.index, now);
    var t' := Blob.Insert(begun, c, now);
    PartialShape(t', blob);
    assert Held(t') == Held(begun) + {c.index};
    if Blob.Complete(t') {
      Blob.CompleteAssembles(t', blob);
    }
  }

  lemma PartialShape(t: Blob.Transfer, blob: Bytes)
    ensures Blob.Partial(t, blob) ==>
              t.Active? && |t.received| == Blob.ChunkCount(blob) && |t.buf| == |blob| && t.target == Blob.Target(0, 0, 0)
  {
  }

  // ---- events that are not chunks ---------------------------------------------------------------

  /** The same transfer; the time of its last progress aside. */
  ghost predicate Alike(t: Blob.Transfer, t': Blob.Transfer) {
    if t.Idle? then t' == t else t'.Active? && t' == t.(progressMs := t'.progressMs)
  }

  ghost predicate SameFetch(c: Core, c': Core) {
    c'.ring == c.ring && c'.hubEtag == c.hubEtag && Alike(c.blob, c'.blob)
  }

  lemma QuietLeaves(s: Session, cfg: Config, since: int, blob: Bytes, e: Event)
    requires Calm(cfg, since, blob, e) && !e.what.GotChunk?
    requires s.core.blob.Active? ==> s.core.blob.startMs >= since
    ensures SameFetch(s.core, Step(s, cfg, e).core)
  {
    hide Welcome, Tick, BlobChunk, SortKeys, Intents.Extend, Known, Ascending;
    match e.what
    case PumpTick => TickApart(s, cfg, e.env);
    case _ =>
  }

  lemma AlikeUnderWay(t: Blob.Transfer, t': Blob.Transfer, since: int, blob: Bytes)
    requires Alike(t, t') && UnderWay(t, since, blob)
    ensures UnderWay(t', since, blob) && Held(t') == Held(t)
  {
  }

  // ---- adopting the blob ----------------------------------------------------------------------------

  ghost predicate Stores(log: seq<Entry>, stored: Stored) {
    exists k :: 0 <= k < |log| && log[k].Saved? && log[k].stored == stored
  }

  ghost predicate Declared(log: seq<Entry>, etag: Bytes) {
    exists k :: 0 <= k < |log| && log[k].Sent? && log[k].frame == CatalogReady(Some(etag))
  }

  /** The blob is the session's catalog, stored, and declared to the hub. */
  ghost predicate Fetched(s: Session, cfg: Config, blob: Bytes, catalog: Catalog) {
    && s.core.ring == Some(Ring(blob, catalog))
    && Stores(s.log, Stored(cfg.etagOf(blob), blob))
    && Declared(s.log, cfg.etagOf(blob))
  }

  lemma Grown(log: seq<Entry>, log': seq<Entry>, stored: Stored, etag: Bytes)
    requires log <= log'
    ensures Stores(log, stored) ==> Stores(log', stored)
    ensures Declared(log, etag) ==> Declared(log', etag)
  {
    if Stores(log, stored) {
      var k :| 0 <= k < |log| && log[k].Saved? && log[k].stored == stored;
      assert log'[k] == log[k];
    }
    if Declared(log, etag) {
      var k :| 0 <= k < |log| && log[k].Sent? && log[k].frame == CatalogReady(Some(etag));
      assert log'[k] == log[k];
    }
  }

  lemma AdoptFetches(s: Session, cfg: Config, env: Env, blob: Bytes, catalog: Catalog)
    requires cfg.decode(blob) == Some(catalog) && s.core.hubEtag == Some(cfg.etagOf(blob)) && env.open
    ensures var s' := Adopt(s, cfg, env, blob);
            Fetched(s', cfg, blob, catalog) && s'.core.blob == s.core.blob && s'.core.hubEtag == s.core.hubEtag
  {
    var s' := Adopt(s, cfg, env, blob);
    assert s'.log[|s.log|].Saved? && s'.log[|s.log|].stored == Stored(cfg.etagOf(blob), blob);
    assert s'.log[|s.log| + 1].Sent? && s'.log[|s.log| + 1].frame == CatalogReady(Some(cfg.etagOf(blob)));
  }

  // ---- the whole fetch ----------------------------------------------------------------------------------

  /** Either the catalog is in, or the transfer holds exactly what has arrived. */
  ghost predicate OnTheWay(s: Session, cfg: Config, since: int, blob: Bytes, catalog: Catalog, arrived: set<nat>) {
    && s.core.hubEtag == Some(cfg.etagOf(blob))
    && UnderWay(s.core.blob, since, blob)
    && (Fetched(s, cfg, blob, catalog) || Held(s.core.blob) == arrived)
  }

  lemma StepOnTheWay(s: Session, cfg: Config, since: int, blob: Bytes, catalog: Catalog, arrived: set<nat>, e: Event)
    requires OnTheWay(s, cfg, since, blob, catalog, arrived)
    requires 0 < |blob| <= cfg.cap && cfg.decode(blob) == Some(catalog)
    requires Calm(cfg, since, blob, e) && e.env.open
    ensures OnTheWay(Step(s, cfg, e), cfg, since, blob, catalog, arrived + IndexOf(e.what))
    ensures Fetched(s, cfg, blob, catalog) ==> Fetched(Step(s, cfg, e), cfg, blob, catalog)
  {
    hide Adopt, Blob.Receive, Blob.ParseChunk, Blob.Partial, Blob.Complete, Held, Stores, Declared, Send;
    var s' := Step(s, cfg, e);
    LogGrows(s, cfg, e);
    Grown(s.log, s'.log, Stored(cfg.etagOf(blob), blob), cfg.etagOf(blob));
    if e.what.GotChunk? && Dropped(e.what.payload) {
      DroppedLeaves(s, cfg, e.env, e.what.payload);
      assert arrived + {} == arrived;
    } else if e.what.GotChunk? {
      var c := Blob.ParseChunk(e.what.payload).value;
      ReceiveChunk(s.core.blob, since, blob, c, e.env.now, cfg.cap);
      var r := Blob.Receive(s.core.blob, c, e.env.now, cfg.cap);
      if r.done.Some? {
        AdoptFetches(s.(core := s.core.(blob := r.transfer)), cfg, e.env, blob, catalog);
      }
    } else {
      hide Step;
      QuietLeaves(s, cfg, since, blob, e);
      AlikeUnderWay(s.core.blob, s'.core.blob, since, blob);
      assert arrived + {} == arrived;
    }
  }

  lemma DroppedLeaves(s: Session, cfg: Config, env: Env, payload: Bytes)
    requires Dropped(payload)
    ensures BlobChunk(s, cfg, env, payload) == s
  {
  }

  lemma {:induction false} RunOnTheWay(s: Session, cfg: Config, since: int, blob: Bytes, catalog: Catalog, arrived: set<nat>,
                                       events: seq<Event>)
    requires OnTheWay(s, cfg, since, blob, catalog, arrived)
    requires 0 < |blob| <= cfg.cap && cfg.decode(blob) == Some(catalog)
    requires forall k | 0 <= k < |events| :: Calm(cfg, since, blob, events[k]) && events[k].env.open
    ensures OnTheWay(RunFrom(s, cfg, events), cfg, since, blob, catalog, arrived + Indices(events))
    ensures Fetched(s, cfg, blob, catalog) ==> Fetched(RunFrom(s, cfg, events), cfg, blob, catalog)
  {
    hide Step, OnTheWay, Calm, IndexOf, Fetched;
    if events == [] {
      assert arrived + {} == arrived;
    } else {
      var last := |events| - 1;
      RunOnTheWay(s, cfg, since, blob, catalog, arrived, events[..last]);
      StepOnTheWay(RunFrom(s, cfg, events[..last]), cfg, since, blob, catalog, arrived + Indices(events[..last]), events[last]);
      assert arrived + Indices(events[..last]) + IndexOf(events[last].what) == arrived + Indices(events);
    }
  }

  lemma {:induction false} RunTrack(s: Session, cfg: Config, since: int, blob: Bytes, events: seq<Event>)
    requires forall k | 0 <= k < |events| :: Calm(cfg, since, blob, events[k])
    ensures SessionRuns.TrackOf(RunFrom(s, cfg, events).core)
              == SessionRuns.TrackOf(s.core).(adopted := s.core.adopted + States(events))
  {
    hide Step;
    if events != [] {
      var last := |events| - 1;
      RunTrack(s, cfg, since, blob, events[..last]);
      SessionRuns.StepTracks(RunFrom(s, cfg, events[..last]), cfg, events[last]);
      assert Calm(cfg, since, blob, events[last]);
    }
  }

  lemma FullTransferIsComplete(t: Blob.Transfer, blob: Bytes)
    requires 0 < |blob|
    requires t.Idle? || Blob.Partial(t, blob)
    requires forall i | 0 <= i < Blob.ChunkCount(blob) :: i in Held(t)
    ensures t.Active? && Blob.Complete(t)
  {
    assert 0 < Blob.ChunkCount(blob);
    assert 0 in Held(t);
    if t.Active? {
      forall i | 0 <= i < |t.received| ensures t.received[i] {
        assert i in Held(t);
      }
      Blob.AllCountedBack(t.received);
    }
  }

  /**
   From any reachable state, after a WELCOME whose etag is the hash of a catalog
   that decodes and fits the cap: once every chunk of it has arrived, in any order,
   with any duplicates, among any other traffic on the open socket, and as many
   STATE channels as were promised, the session is LIVE on exactly that catalog,
   which it has stored and declared.
   */
  lemma SyncCompletes(s: Session, cfg: Config, env: Env, blob: Bytes, catalog: Catalog, retained: nat, deadmanMs: int,
                      events: seq<Event>)
    requires Inv(cfg, s)
    requires 0 < |blob| <= cfg.cap && cfg.decode(blob) == Some(catalog)
    requires forall k | 0 <= k < |events| :: Calm(cfg, env.now, blob, events[k]) && events[k].env.open
    requires forall i | 0 <= i < Blob.ChunkCount(blob) :: i in Indices(events)
    requires |States(events)| >= retained
    ensures var s' := RunFrom(Welcome(s, cfg, env, Some(cfg.etagOf(blob)), retained, deadmanMs), cfg, events);
            && s'.core.phase == Live
            && s'.core.ring == Some(Ring(blob, catalog))
            && Stores(s'.log, Stored(cfg.etagOf(blob), blob)) && Declared(s'.log, cfg.etagOf(blob))
  {
    hide Welcome, Calm, Step, Stores, Declared, Blob.Complete, Blob.Partial, Honest;
    var etag := cfg.etagOf(blob);
    var s0 := Welcome(s, cfg, env, Some(etag), retained, deadmanMs);
    var s' := RunFrom(s0, cfg, events);
    WelcomeKeeps(s, cfg, env, Some(etag), retained, deadmanMs);
    WelcomeLeaves(s, cfg, env, Some(etag), retained, deadmanMs);
    RunKeeps(s0, cfg, events);
    RunTrack(s0, cfg, env.now, blob, events);
    assert s0.core.adopted + States(events) == States(events);
    RunOnTheWay(s0, cfg, env.now, blob, catalog, {}, events);
    assert {} + Indices(events) == Indices(events);
    if !Fetched(s', cfg, blob, catalog) {
      FullTransferIsComplete(s'.core.blob, blob);
    }
  }

  // ---- repair rounds -----------------------------------------------------------------------

  /** A tick of the pump, and what arrives after it up to the time `until`. */
  datatype Round = Round(tick: Event, answers: seq<Event>, until: int)

  function AfterRound(s: Session, cfg: Config, round: Round): Session {
    RunFrom(Step(s, cfg, round.tick), cfg, round.answers)
  }

  /** The tick comes a gap after the last progress, and every index it asks for arrives, in any order, among any traffic. */
  ghost predicate Answered(s: Session, cfg: Config, since: int, blob: Bytes, round: Round, quiet: int) {
    && round.tick.what.PumpTick? && Calm(cfg, since, blob, round.tick) && round.tick.env.open
    && quiet + cfg.gapMs <= round.tick.env.now <= round.until
    && (forall k | 0 <= k < |round.answers| ::
          Calm(cfg, since, blob, round.answers[k]) && round.answers[k].env.open && round.answers[k].env.now <= round.until)
    && (forall i | i in Blob.RepairRequest(s.core.blob) :: i in Indices(round.answers))
  }

  ghost predicate AllAnswered(s: Session, cfg: Config, since: int, blob: Bytes, rounds: seq<Round>, quiet: int)
    decreases |rounds|
  {
    rounds == [] || (
      && Answered(s, cfg, since, blob, rounds[0], quiet)
      && AllAnswered(AfterRound(s, cfg, rounds[0]), cfg, since, blob, rounds[1..], rounds[0].until)
    )
  }

  function AfterRounds(s: Session, cfg: Config, rounds: seq<Round>): Session
    decreases |rounds|
  {
    if rounds == [] then s else AfterRounds(AfterRound(s, cfg, rounds[0]), cfg, rounds[1..])
  }

  ghost predicate ProgressBy(t: Blob.Transfer, time: int) { t.Active? ==> t.progressMs <= time }

  /** A tick puts on the wire a request for what the transfer misses first. */
  ghost predicate Asks(s: Session, cfg: Config, tick: Event) {
    var s' := Step(s, cfg, tick);
    exists k :: |s.log| <= k < |s'.log| && s'.log[k].Sent?
                && s'.log[k].frame == BlobRequest(Some(Blob.RepairRequest(s.core.blob)))
  }

  /** The tick of a round asks for exactly the first missing indices, up to 32 of them. */
  lemma RoundAsks(s: Session, cfg: Config, since: int, blob: Bytes, round: Round, quiet: int)
    requires Answered(s, cfg, since, blob, round, quiet) && s.core.pumping && s.core.blob.Active?
    requires UnderWay(s.core.blob, since, blob) && ProgressBy(s.core.blob, quiet)
    ensures Asks(s, cfg, round.tick)
  {
    hide Blob.RepairRequest, Blob.Missing, Blob.Complete, Blob.Partial;
    var env := round.tick.env;
    var s1 := PumpReady(s, cfg, env);
    assert s1.core.blob == s.core.blob && s.log <= s1.log;
    Blob.CompleteIffNoneMissing(s.core.blob);
    var s2 := PumpRepair(s1, cfg, env);
    assert s2.log == s1.log + [Sent(BlobRequest(Some(Blob.RepairRequest(s.core.blob))), s1.core, env.now)];
    var s' := Tick(s, cfg, env);
    assert s2.log <= s'.log;
    var k := |s1.log|;
    assert s'.log[k] == s2.log[k];
    assert Step(s, cfg, round.tick) == s';
    assert s'.log[k].Sent? && s'.log[k].frame == BlobRequest(Some(Blob.RepairRequest(s.core.blob)));
  }

  lemma ReceiveProgress(t: Blob.Transfer, c: Blob.Chunk, now: int, cap: nat, time: int)
    requires ProgressBy(t, time) && now <= time
    ensures ProgressBy(Blob.Receive(t, c, now, cap).transfer, time)
  {
  }

  lemma StepProgress(s: Session, cfg: Config, since: int, blob: Bytes, e: Event, time: int)
    requires Calm(cfg, since, blob, e) && ProgressBy(s.core.blob, time) && e.env.now <= time
    ensures ProgressBy(Step(s, cfg, e).core.blob, time)
  {
    hide Welcome, Tick, Adopt, SortKeys, Intents.Extend, Known, Ascending, Blob.Receive, Blob.ParseChunk;
    match e.what
    case PumpTick => TickApart(s, cfg, e.env);
    case GotChunk(payload) =>
      var chunk := Blob.ParseChunk(payload);
      if chunk.Some? {
        ReceiveProgress(s.core.blob, chunk.value, e.env.now, cfg.cap, time);
        var r := Blob.Receive(s.core.blob, chunk.value, e.env.now, cfg.cap);
        if r.done.Some? { AdoptApart(s.(core := s.core.(blob := r.transfer)), cfg, e.env, r.done.value); }
      }
    case _ =>
  }

  lemma {:induction false} RunProgress(s: Session, cfg: Config, since: int, blob: Bytes, events: seq<Event>, time: int)
    requires ProgressBy(s.core.blob, time)
    requires forall k | 0 <= k < |events| :: Calm(cfg, since, blob, events[k]) && events[k].env.now <= time
    ensures ProgressBy(RunFrom(s, cfg, events).core.blob, time)
  {
    hide Step, Calm;
    if events != [] {
      var last := |events| - 1;
      RunProgress(s, cfg, since, blob, events[..last], time);
      StepProgress(RunFrom(s, cfg, events[..last]), cfg, since, blob, events[last], time);
    }
  }

  /** The indices of a blob that a set of indices lacks. */
  function Lacking(blob: Bytes, arrived: set<nat>): set<nat> {
    set i: nat | i < Blob.ChunkCount(blob) && i !in arrived
  }

  function SetOf(indices: seq<nat>): set<nat> { set i | i in indices }

  lemma {:induction false} AscendingCount(indices: seq<nat>)
    requires forall j, k | 0 <= j < k < |indices| :: indices[j] < indices[k]
    ensures |SetOf(indices)| == |indices|
  {
    if indices != [] {
      var last := |indices| - 1;
      AscendingCount(indices[..last]);
      assert SetOf(indices) == SetOf(indices[..last]) + {indices[last]};
      assert indices[last] !in SetOf(indices[..last]);
    }
  }

  /** A transfer's missing list names exactly what it lacks, so its request names the first 32 of that. */
  lemma RequestCovers(t: Blob.Transfer, blob: Bytes)
    requires Blob.Partial(t, blob)
    ensures var lack := Lacking(blob, Held(t));
            var ask := SetOf(Blob.RepairRequest(t));
            ask <= lack && |ask| == if |lack| <= Blob.REPAIR_MAX then |lack| else Blob.REPAIR_MAX
  {
    var m := Blob.Missing(t);
    Blob.MissingMembers(t.received, |t.received|);
    hide Blob.MissingBelow, Blob.Slice;
    assert SetOf(m) == Lacking(blob, Held(t));
    AscendingCount(m);
    var ask := Blob.RepairRequest(t);
    assert forall k | 0 <= k < |ask| :: ask[k] == m[k];
    AscendingCount(ask);
    forall i | i in SetOf(ask) ensures i in SetOf(m) {
    }
  }

  lemma AskedShrinks(lack: set<nat>, ask: set<nat>, rest: set<nat>, n: nat)
    requires |lack| <= n && ask <= lack && |ask| == (if |lack| <= Blob.REPAIR_MAX then |lack| else Blob.REPAIR_MAX)
    requires rest <= lack - ask
    ensures |rest| <= if n <= Blob.REPAIR_MAX then 0 else n - Blob.REPAIR_MAX
  {
    assert |lack - ask| == |lack| - |ask|;
    Subset(rest, lack - ask);
  }

  lemma {:induction false} Subset(a: set<nat>, b: set<nat>)
    requires a <= b
    ensures |a| <= |b|
    decreases |a|
  {
    if a != {} {
      var x :| x in a;
      Subset(a - {x}, b - {x});
    }
  }

  /** The fetch is done, or under way with at most `n` indices to come. */
  ghost predicate AtMostLacks(s: Session, cfg: Config, blob: Bytes, catalog: Catalog, arrived: set<nat>, n: nat) {
    Fetched(s, cfg, blob, catalog) || (s.core.blob.Active? && |Lacking(blob, arrived)| <= n)
  }

  function Fewer(n: nat): nat { if n <= Blob.REPAIR_MAX then 0 else n - Blob.REPAIR_MAX }

  /** One answered round leaves up to 32 indices fewer to come. */
  lemma RoundOnTheWay(s: Session, cfg: Config, since: int, blob: Bytes, catalog: Catalog, arrived: set<nat>, n: nat,
                      round: Round, quiet: int)
    requires OnTheWay(s, cfg, since, blob, catalog, arrived) && AtMostLacks(s, cfg, blob, catalog, arrived, n)
    requires 0 < |blob| <= cfg.cap && cfg.decode(blob) == Some(catalog)
    requires Answered(s, cfg, since, blob, round, quiet)
    ensures var s', arrived' := AfterRound(s, cfg, round), arrived + Indices(round.answers);
            OnTheWay(s', cfg, since, blob, catalog, arrived') && AtMostLacks(s', cfg, blob, catalog, arrived', Fewer(n))
  {
    hide Step, Calm, Held, Fetched, Blob.Partial, Blob.Complete, Blob.RepairRequest, Lacking, Indices;
    var s1, s' := Step(s, cfg, round.tick), AfterRound(s, cfg, round);
    StepOnTheWay(s, cfg, since, blob, catalog, arrived, round.tick);
    assert arrived + {} == arrived;
    RunOnTheWay(s1, cfg, since, blob, catalog, arrived, round.answers);
    if !Fetched(s', cfg, blob, catalog) {
      var ask, got := SetOf(Blob.RepairRequest(s.core.blob)), Indices(round.answers);
      RequestCovers(s.core.blob, blob);
      RequestNames(s.core.blob, blob);
      LackingLess(blob, arrived, ask, got);
      AskedShrinks(Lacking(blob, arrived), ask, Lacking(blob, arrived + got), n);
      HeldIsActive(s'.core.blob);
    }
  }

  /** A transfer that is not complete asks for something. */
  lemma RequestNames(t: Blob.Transfer, blob: Bytes)
    requires Blob.Partial(t, blob) && !Blob.Complete(t)
    ensures Blob.RepairRequest(t) != [] && Blob.RepairRequest(t)[0] in Blob.RepairRequest(t)
  {
    hide Blob.Missing, Blob.Complete;
    Blob.CompleteIffNoneMissing(t);
  }

  lemma HeldIsActive(t: Blob.Transfer)
    ensures Held(t) != {} ==> t.Active?
  {
  }

  lemma LackingLess(blob: Bytes, arrived: set<nat>, ask: set<nat>, got: set<nat>)
    requires ask <= got
    ensures Lacking(blob, arrived + got) <= Lacking(blob, arrived) - ask
  {
  }

  /** Nothing to come means nothing under way: the fetch is done. */
  lemma NothingLacking(s: Session, cfg: Config, since: int, blob: Bytes, catalog: Catalog, arrived: set<nat>)
    requires OnTheWay(s, cfg, since, blob, catalog, arrived) && AtMostLacks(s, cfg, blob, catalog, arrived, 0) && 0 < |blob|
    ensures Fetched(s, cfg, blob, catalog)
  {
    hide Fetched, Blob.Partial, Blob.Complete;
    if !Fetched(s, cfg, blob, catalog) {
      assert Lacking(blob, arrived) == {};
      forall i | 0 <= i < Blob.ChunkCount(blob) ensures i in Held(s.core.blob) {
        assert i !in Lacking(blob, arrived);
      }
      FullTransferIsComplete(s.core.blob, blob);
    }
  }

  lemma {:induction false} RoundsFetch(s: Session, cfg: Config, since: int, blob: Bytes, catalog: Catalog, arrived: set<nat>,
                                       n: nat, rounds: seq<Round>, quiet: int)
    requires OnTheWay(s, cfg, since, blob, catalog, arrived) && AtMostLacks(s, cfg, blob, catalog, arrived, n)
    requires 0 < |blob| <= cfg.cap && cfg.decode(blob) == Some(catalog)
    requires AllAnswered(s, cfg, since, blob, rounds, quiet) && n <= Blob.REPAIR_MAX * |rounds|
    ensures Fetched(AfterRounds(s, cfg, rounds), cfg, blob, catalog)
    decreases |rounds|
  {
    hide OnTheWay, AtMostLacks, Answered, AfterRound, Fetched;
    if rounds == [] {
      NothingLacking(s, cfg, since, blob, catalog, arrived);
    } else {
      RoundOnTheWay(s, cfg, since, blob, catalog, arrived, n, rounds[0], quiet);
      RoundsFetch(AfterRound(s, cfg, rounds[0]), cfg, since, blob, catalog, arrived + Indices(rounds[0].answers), Fewer(n),
                  rounds[1..], rounds[0].until);
    }
  }

  /** As many indices are missing as the transfer lacks. */
  lemma MissingCount(t: Blob.Transfer, blob: Bytes)
    requires Blob.Partial(t, blob)
    ensures |Lacking(blob, Held(t))| == |Blob.Missing(t)|
  {
    Blob.MissingMembers(t.received, |t.received|);
    hide Blob.MissingBelow, Blob.Slice;
    assert SetOf(Blob.Missing(t)) == Lacking(blob, Held(t));
    AscendingCount(Blob.Missing(t));
  }

  /** Between rounds the last progress is never later than the last answer, so a gap later the next tick does ask. */
  lemma RoundProgress(s: Session, cfg: Config, since: int, blob: Bytes, round: Round, quiet: int)
    requires Answered(s, cfg, since, blob, round, quiet) && ProgressBy(s.core.blob, quiet)
    ensures ProgressBy(AfterRound(s, cfg, round).core.blob, round.until)
  {
    hide Step, Calm;
    StepProgress(s, cfg, since, blob, round.tick, round.until);
    RunProgress(Step(s, cfg, round.tick), cfg, since, blob, round.answers, round.until);
  }

  predicate NoClose(events: seq<Event>) {
    forall k | 0 <= k < |events| :: !events[k].what.CallClose?
  }

  lemma StaysPumping(s: Session, cfg: Config, since: int, blob: Bytes, e: Event)
    requires Calm(cfg, since, blob, e) && !e.what.CallClose?
    ensures Step(s, cfg, e).core.pumping == s.core.pumping
  {
    hide Welcome, BlobChunk, Tick, SortKeys, Intents.Extend, Known, Ascending;
    match e.what
    case PumpTick => TickApart(s, cfg, e.env);
    case GotChunk(payload) => ChunkApart(s, cfg, e.env, payload);
    case _ =>
  }

  lemma {:induction false} RunStaysPumping(s: Session, cfg: Config, since: int, blob: Bytes, events: seq<Event>)
    requires NoClose(events) && forall k | 0 <= k < |events| :: Calm(cfg, since, blob, events[k])
    ensures RunFrom(s, cfg, events).core.pumping == s.core.pumping
  {
    hide Step, Calm;
    if events != [] {
      var last := |events| - 1;
      RunStaysPumping(s, cfg, since, blob, events[..last]);
      StaysPumping(RunFrom(s, cfg, events[..last]), cfg, since, blob, events[last]);
    }
  }

  /** Every round that finds the transfer under way asks for what is missing. */
  ghost predicate AllAsk(s: Session, cfg: Config, rounds: seq<Round>)
    decreases |rounds|
  {
    rounds == [] || (
      && (s.core.blob.Active? ==> Asks(s, cfg, rounds[0].tick))
      && AllAsk(AfterRound(s, cfg, rounds[0]), cfg, rounds[1..])
    )
  }

  lemma {:induction false} RoundsAsk(s: Session, cfg: Config, since: int, blob: Bytes, catalog: Catalog, arrived: set<nat>, n: nat,
                                     rounds: seq<Round>, quiet: int)
    requires OnTheWay(s, cfg, since, blob, catalog, arrived) && AtMostLacks(s, cfg, blob, catalog, arrived, n)
    requires 0 < |blob| <= cfg.cap && cfg.decode(blob) == Some(catalog)
    requires AllAnswered(s, cfg, since, blob, rounds, quiet)
    requires s.core.pumping && ProgressBy(s.core.blob, quiet) && forall k | 0 <= k < |rounds| :: NoClose(rounds[k].answers)
    ensures AllAsk(s, cfg, rounds)
    decreases |rounds|
  {
    hide Fetched, AtMostLacks, Step, Calm, Asks, NoClose, Blob.Partial, Blob.Complete, Blob.RepairRequest, Held, Indices;
    if rounds != [] {
      var round := rounds[0];
      if s.core.blob.Active? { RoundAsks(s, cfg, since, blob, round, quiet); }
      RoundOnTheWay(s, cfg, since, blob, catalog, arrived, n, round, quiet);
      RoundProgress(s, cfg, since, blob, round, quiet);
      StaysPumping(s, cfg, since, blob, round.tick);
      RunStaysPumping(Step(s, cfg, round.tick), cfg, since, blob, round.answers);
      RoundsAsk(AfterRound(s, cfg, round), cfg, since, blob, catalog, arrived + Indices(round.answers), Fewer(n), rounds[1..], round.until);
    }
  }

  /**
   A transfer with `n` chunks missing, and ceil(n / 32) ticks, each a gap after the
   last progress and within the abandon limit. If the pump runs and is not stopped,
   every tick that finds the transfer under way puts on the wire a request for the
   first missing indices, 32 at most; and once what each asks for has arrived, in
   any order and among any traffic, the session has adopted exactly that catalog,
   stored it, and declared it.
   */
  lemma RepairsFetch(s: Session, cfg: Config, since: int, blob: Bytes, catalog: Catalog, rounds: seq<Round>, quiet: int)
    requires s.core.hubEtag == Some(cfg.etagOf(blob)) && s.core.blob.Active? && UnderWay(s.core.blob, since, blob)
    requires 0 < |blob| <= cfg.cap && cfg.decode(blob) == Some(catalog)
    requires AllAnswered(s, cfg, since, blob, rounds, quiet)
    requires |rounds| == (|Blob.Missing(s.core.blob)| + Blob.REPAIR_MAX - 1) / Blob.REPAIR_MAX
    ensures s.core.pumping && ProgressBy(s.core.blob, quiet) && (forall k | 0 <= k < |rounds| :: NoClose(rounds[k].answers)) ==>
              AllAsk(s, cfg, rounds)
    ensures Fetched(AfterRounds(s, cfg, rounds), cfg, blob, catalog)
  {
    hide Fetched, AllAnswered, AllAsk, NoClose, ProgressBy, Blob.Missing, Blob.Partial, Blob.Complete, Lacking, Held;
    var n := |Blob.Missing(s.core.blob)|;
    MissingCount(s.core.blob, blob);
    RoundsFetch(s, cfg, since, blob, catalog, Held(s.core.blob), n, rounds, quiet);
    if s.core.pumping && ProgressBy(s.core.blob, quiet) && forall k | 0 <= k < |rounds| :: NoClose(rounds[k].answers) {
      RoundsAsk(s, cfg, since, blob, catalog, Held(s.core.blob), n, rounds, quiet);
    }
  }
}
