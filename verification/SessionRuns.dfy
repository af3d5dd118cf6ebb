/** What holds over every run of the client session, and what a whole synchronisation achieves. */
module SessionRuns {
  import opened Wire
  import opened Session
  import Intents

  lemma StartInv(cfg: Config, deadmanMs: int)
    ensures Inv(cfg, Start(deadmanMs))
  {
    Intents.SettledExactlyOnce([]);
  }

  /** A whole run from a new session object: any events, in any order, across any number of sockets. */
  function Run(cfg: Config, deadmanMs: int, events: seq<Event>): Session {
    RunFrom(Start(deadmanMs), cfg, events)
  }

  // ---- honesty -------------------------------------------------------------------------

  /**
   In every run, each etag sent in a HELLO or in a first or repeated CATALOG_READY
   is the hash of catalog bytes held at that moment; CATALOG_READY is sent only for
   bytes that decoded; and only bytes that hash to the hub's etag are stored.
   */
  lemma EtagsHonest(cfg: Config, deadmanMs: int, events: seq<Event>, k: nat)
    requires k < |Run(cfg, deadmanMs, events).log|
    ensures match Run(cfg, deadmanMs, events).log[k]
            case Sent(Hello(Some(etag)), at, _) => at.cached.Some? && etag == cfg.etagOf(at.cached.value.bytes)
            case Sent(CatalogReady(etag), at, _) =>
              && at.ring.Some? && etag == Some(cfg.etagOf(at.ring.value.bytes))
              && cfg.decode(at.ring.value.bytes) == Some(at.ring.value.catalog)
            case Saved(stored, at) => stored.etag == cfg.etagOf(stored.bytes) && at.hubEtag == Some(stored.etag)
            case _ => true
  {
    StartInv(cfg, deadmanMs);
    RunKeeps(Start(deadmanMs), cfg, events);
    assert Honest(cfg, Run(cfg, deadmanMs, events).log[k]);
  }

  /**
   In every run, an INTENT frame leaves only in LIVE, for an INTENT channel of the
   adopted catalog, with keys of that channel's schema in strictly ascending order,
   under a 16-bit header seq equal to its id, and with its promise pending.
   */
  lemma IntentsHonest(cfg: Config, deadmanMs: int, events: seq<Event>, k: nat)
    requires k < |Run(cfg, deadmanMs, events).log|
    ensures match Run(cfg, deadmanMs, events).log[k]
            case Sent(Intent(channel, seqNo, id, keys), at, _) =>
              && at.phase == Live && at.ring.Some? && channel in at.ring.value.catalog
              && at.ring.value.catalog[channel].intent
              && (forall j | 0 <= j < |keys| :: keys[j] in at.ring.value.catalog[channel].keys)
              && (forall i, j | 0 <= i < j < |keys| :: keys[i] < keys[j])
              && seqNo == id && 1 <= id < 0x1_0000
              && exists p :: p in at.intents.ledger.pending && p.id == id && p.channel == channel
            case _ => true
  {
    StartInv(cfg, deadmanMs);
    RunKeeps(Start(deadmanMs), cfg, events);
    var e := Run(cfg, deadmanMs, events).log[k];
    assert Honest(cfg, e);
    if e.Sent? && e.frame.Intent? {
      Intents.FindFacts(e.at.intents.ledger.pending, e.frame.id);
    }
  }

  // ---- LIVE -----------------------------------------------------------------------------

  /** The retained pushes the last WELCOME promised. */
  function Promised(events: seq<Event>): nat {
    if events == [] then 0
    else
      var e := events[|events| - 1].what;
      if e.GotWelcome? then e.retained else Promised(events[..|events| - 1])
  }

  /** The channels whose STATE has arrived since the last WELCOME. */
  function Arrived(events: seq<Event>): set<nat> {
    if events == [] then {}
    else
      var e := events[|events| - 1].what;
      if e.GotWelcome? then {}
      else if e.GotState? then Arrived(events[..|events| - 1]) + {e.channel}
      else Arrived(events[..|events| - 1])
  }

  /** The last of the socket's openings and closings and the WELCOMEs was a WELCOME. */
  function Welcomed(events: seq<Event>): bool {
    if events == [] then false
    else
      var e := events[|events| - 1].what;
      if e.GotWelcome? then true
      else if e.SocketOpened? || e.SocketGone? then false
      else Welcomed(events[..|events| - 1])
  }

  /** No socket has opened or WELCOME come since the last close, if there was one. */
  function Shut(events: seq<Event>): bool {
    if events == [] then true
    else
      var e := events[|events| - 1].what;
      if e.SocketGone? then true
      else if e.SocketOpened? || e.GotWelcome? then false
      else Shut(events[..|events| - 1])
  }

  datatype Track = Track(required: nat, adopted: set<nat>, welcomed: bool, closed: bool)

  function TrackOf(c: Core): Track {
    Track(c.required, c.adopted, Greeted(c), c.phase == Closed)
  }

  function TrackStep(t: Track, e: What): Track {
    match e
    case GotWelcome(_, retained, _) => Track(retained, {}, true, false)
    case GotState(channel, _) => t.(adopted := t.adopted + {channel})
    case SocketOpened => t.(welcomed := false, closed := false)
    case SocketGone => t.(welcomed := false, closed := true)
    case _ => t
  }

  lemma StepTracks(s: Session, cfg: Config, e: Event)
    ensures TrackOf(Step(s, cfg, e).core) == TrackStep(TrackOf(s.core), e.what)
  {
    hide Welcome, BlobChunk, Tick, SortKeys, Known, Ascending, Intents.Extend;
    match e.what
    case GotWelcome(etag, retained, deadmanMs) => WelcomeLeaves(s, cfg, e.env, etag, retained, deadmanMs);
    case PumpTick => TickApart(s, cfg, e.env);
    case GotChunk(payload) => ChunkApart(s, cfg, e.env, payload);
    case GotState(channel, _) => assert channel in s.core.adopted ==> s.core.adopted + {channel} == s.core.adopted;
    case _ =>
  }

  lemma {:induction false} RunTracks(cfg: Config, deadmanMs: int, events: seq<Event>)
    ensures TrackOf(Run(cfg, deadmanMs, events).core) == Track(Promised(events), Arrived(events), Welcomed(events), Shut(events))
  {
    hide Step;
    if events != [] {
      RunTracks(cfg, deadmanMs, events[..|events| - 1]);
      StepTracks(Run(cfg, deadmanMs, events[..|events| - 1]), cfg, events[|events| - 1]);
    }
  }

  /**
   In every run the phase is LIVE exactly when the last WELCOME still stands, some
   catalog has been adopted, and at least as many distinct STATE channels as that
   WELCOME promised have arrived since.
   */
  lemma LiveExactly(cfg: Config, deadmanMs: int, events: seq<Event>)
    ensures var c := Run(cfg, deadmanMs, events).core;
            c.phase == Live <==> Welcomed(events) && c.ring.Some? && |Arrived(events)| >= Promised(events)
  {
    StartInv(cfg, deadmanMs);
    RunKeeps(Start(deadmanMs), cfg, events);
    RunTracks(cfg, deadmanMs, events);
  }

  // ---- the intent call ---------------------------------------------------------------------

  predicate InOrder(keys: seq<int>) {
    forall i, j | 0 <= i < j < |keys| :: keys[i] <= keys[j]
  }

  lemma {:induction false} InsertKeyOrders(k: int, keys: seq<int>)
    requires InOrder(keys)
    ensures var r := InsertKey(k, keys); r != [] && InOrder(r) && (r[0] == k || (keys != [] && r[0] == keys[0]))
  {
    if keys != [] && k > keys[0] {
      InsertKeyOrders(k, keys[1..]);
    }
  }

  lemma {:induction false} InsertKeyKeeps(k: int, keys: seq<int>)
    ensures multiset(InsertKey(k, keys)) == multiset(keys) + multiset{k}
  {
    if keys != [] && k > keys[0] {
      InsertKeyKeeps(k, keys[1..]);
      assert keys == [keys[0]] + keys[1..];
    }
  }

  lemma {:induction false} SortKeysFacts(names: seq<int>)
    ensures InOrder(SortKeys(names)) && multiset(SortKeys(names)) == multiset(names)
  {
    if names != [] {
      SortKeysFacts(names[1..]);
      InsertKeyOrders(names[0], SortKeys(names[1..]));
      InsertKeyKeeps(names[0], SortKeys(names[1..]));
      assert names == [names[0]] + names[1..];
    }
  }

  function SetOf(names: seq<int>): set<int> { set n | n in names }

  lemma {:induction false} StrictMeansNoRepeats(keys: seq<int>)
    requires InOrder(keys)
    ensures |SetOf(keys)| <= |keys|
    ensures Ascending(keys) <==> |SetOf(keys)| == |keys|
  {
    if keys != [] {
      var rest := keys[1..];
      StrictMeansNoRepeats(rest);
      assert SetOf(keys) == {keys[0]} + SetOf(rest);
      assert Ascending(keys) <==> Ascending(rest) && keys[0] !in rest;
    }
  }

  lemma SameNames(keys: seq<int>, names: seq<int>)
    requires multiset(keys) == multiset(names)
    ensures SetOf(keys) == SetOf(names) && |keys| == |names|
  {
    forall n ensures n in keys <==> n in names {
      assert n in keys <==> n in multiset(keys);
    }
    assert |keys| == |multiset(keys)| == |multiset(names)| == |names|;
  }

  /**
   sendIntent puts a frame on the wire exactly when the session may act on the
   channel, the socket is open, every value fits, and the names given are keys of
   the schema without repetition; the frame then carries exactly those keys.
   */
  lemma IntentLeavesExactly(s: Session, env: Env, channel: nat, names: seq<int>, fits: bool)
    ensures var s' := SendIntent(s, env, channel, names, fits);
            var leaves := s.core.phase == Live && s.core.ring.Some? && channel in s.core.ring.value.catalog
                          && s.core.ring.value.catalog[channel].intent && env.open && fits
                          && |SetOf(names)| == |names| && SetOf(names) <= s.core.ring.value.catalog[channel].keys;
            if leaves then
              && |s'.log| == |s.log| + 1 && s'.log[..|s.log|] == s.log && s'.log[|s.log|].Sent?
              && s'.log[|s.log|].frame.Intent?
              && s'.log[|s.log|].frame.channel == channel
              && multiset(s'.log[|s.log|].frame.keys) == multiset(names)
            else s'.log == s.log
  {
    if Permits(s.core, channel) {
      SortKeysFacts(names);
      var keys := SortKeys(names);
      StrictMeansNoRepeats(keys);
      SameNames(keys, names);
      assert Known(keys, s.core.ring.value.catalog[channel].keys) <==> SetOf(keys) <= s.core.ring.value.catalog[channel].keys;
    }
  }

  // ---- the ledger inside the session -----------------------------------------------------------

  /** What an event asks of the intent ledger, if anything. */
  function LedgerSteps(s: Session, e: Event): seq<Intents.Step> {
    match e.what
    case SocketGone => [Intents.Close]
    case GotEcho(id) => [Intents.Echo(id)]
    case GotNack(channel, named, seqNo) => [Intents.Nack(channel, named, seqNo)]
    case IntentTimer(ticket) => [Intents.TimerFires(ticket)]
    case CallIntent(channel, names, fits) =>
      if Permits(s.core, channel) then
        var keys := SortKeys(names);
        [Intents.Issue(channel, fits && Known(keys, s.core.ring.value.catalog[channel].keys) && Ascending(keys), e.env.open)]
      else []
    case _ => []
  }

  lemma StepOnLedger(s: Session, cfg: Config, e: Event)
    ensures var steps := LedgerSteps(s, e);
            Step(s, cfg, e).core.intents == if steps == [] then s.core.intents else Intents.Extend(s.core.intents, steps[0])
  {
    hide Welcome, BlobChunk, Tick, SortKeys, Intents.Extend, Known, Ascending;
    match e.what
    case GotWelcome(etag, retained, deadmanMs) => WelcomeLeaves(s, cfg, e.env, etag, retained, deadmanMs);
    case PumpTick => TickApart(s, cfg, e.env);
    case GotChunk(payload) => ChunkApart(s, cfg, e.env, payload);
    case _ =>
  }

  /** Everything a session's run asks of its ledger, in order. */
  function AllLedgerSteps(cfg: Config, deadmanMs: int, events: seq<Event>): seq<Intents.Step> {
    if events == [] then []
    else
      var before := events[..|events| - 1];
      AllLedgerSteps(cfg, deadmanMs, before) + LedgerSteps(Run(cfg, deadmanMs, before), events[|events| - 1])
  }

  lemma {:induction false} LedgerFollows(cfg: Config, deadmanMs: int, events: seq<Event>)
    ensures Run(cfg, deadmanMs, events).core.intents == Intents.RunSteps(AllLedgerSteps(cfg, deadmanMs, events))
  {
    hide Step, LedgerSteps, Intents.Extend;
    if events != [] {
      var before, e := events[..|events| - 1], events[|events| - 1];
      LedgerFollows(cfg, deadmanMs, before);
      var s := Run(cfg, deadmanMs, before);
      StepOnLedger(s, cfg, e);
      var steps, more := AllLedgerSteps(cfg, deadmanMs, before), LedgerSteps(s, e);
      AtMostOne(s, e);
      if more == [] {
        assert steps + more == steps;
      } else {
        assert more == [more[0]];
        assert (steps + more)[..|steps|] == steps;
      }
    }
  }

  lemma AtMostOne(s: Session, e: Event)
    ensures |LedgerSteps(s, e)| <= 1
  {
  }

  /** Nothing but an intent issued in LIVE adds to what is pending. */
  lemma {:induction false} ClosedIsEmpty(cfg: Config, deadmanMs: int, events: seq<Event>)
    ensures var c := Run(cfg, deadmanMs, events).core; c.phase == Closed ==> c.intents.ledger.pending == []
  {
    hide Step;
    if events != [] {
      var before, e := events[..|events| - 1], events[|events| - 1];
      var s := Run(cfg, deadmanMs, before);
      ClosedIsEmpty(cfg, deadmanMs, before);
      StepTracks(s, cfg, e);
      StepOnLedger(s, cfg, e);
      EmptyStays(s, e);
    }
  }

  lemma EmptyStays(s: Session, e: Event)
    ensures var steps := LedgerSteps(s, e);
            steps != [] ==>
              && (steps[0].Close? ==> Intents.Extend(s.core.intents, steps[0]).ledger.pending == [])
              && (s.core.phase == Closed && s.core.intents.ledger.pending == [] ==>
                    Intents.Extend(s.core.intents, steps[0]).ledger.pending == [])
  {
  }

  /**
   In every run of the session each registered intent is settled at most once,
   registered = settled + waiting, and nothing is pending while it is closed.
   */
  lemma SessionSettlesOnce(cfg: Config, deadmanMs: int, events: seq<Event>)
    ensures var c := Run(cfg, deadmanMs, events).core;
            var r := c.intents;
            && Intents.DistinctTickets(r.settled)
            && (forall k | 0 <= k < |r.settled| :: r.settled[k].ticket in r.registered)
            && |r.registered| == |r.settled| + |r.ledger.armed|
            && (c.phase == Closed ==> r.ledger.pending == [])
  {
    hide RunFrom;
    LedgerFollows(cfg, deadmanMs, events);
    Intents.SettledExactlyOnce(AllLedgerSteps(cfg, deadmanMs, events));
    ClosedIsEmpty(cfg, deadmanMs, events);
  }
}
