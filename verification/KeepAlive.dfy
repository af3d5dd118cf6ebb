/** The session's transmit silence against the hub's deadman window. */
module KeepAlive {
  import opened Wire
  import opened Session
  import Blob
  import Intents

  const PERIOD: int := 50

  /** A point the pump's schedule is counted from: a tick, or the WELCOME that restarts it. */
  predicate Point(e: What) { e.PumpTick? || e.GotWelcome? }

  /** The time of the last such point. */
  function LastPoint(since: int, events: seq<Event>): int {
    if events == [] then since
    else if Point(events[|events| - 1].what) then events[|events| - 1].env.now
    else LastPoint(since, events[..|events| - 1])
  }

  /**
   An open socket on which the pump is never stopped and ticks at most 50 ms
   apart, among any other events; each WELCOME grants a window of at least `window`.
   */
  predicate Paced(since: int, window: int, events: seq<Event>) {
    forall k | 0 <= k < |events| ::
      && events[k].env.open
      && LastPoint(since, events[..k]) <= events[k].env.now <= LastPoint(since, events[..k]) + PERIOD
      && !events[k].what.SocketGone? && !events[k].what.CallClose?
      && (events[k].what.GotWelcome? ==> events[k].what.deadmanMs >= window)
  }

  ghost predicate Pumped(c: Core, point: int) {
    c.pumping && c.deadmanMs >= 200 && point - c.lastTxMs < PingInterval(c.deadmanMs)
  }

  /** The pump runs on, the window stays, and the wire was last used no earlier than before, unless now. */
  ghost predicate Lively(c: Core, c': Core, now: int) {
    c'.pumping == c.pumping && c'.deadmanMs == c.deadmanMs && (c'.lastTxMs == c.lastTxMs || c'.lastTxMs == now)
  }

  lemma StepLively(s: Session, cfg: Config, e: Event)
    requires !Point(e.what) && !e.what.SocketGone? && !e.what.CallClose?
    ensures Lively(s.core, Step(s, cfg, e).core, e.env.now)
  {
    hide BlobChunk, Tick, Welcome, SortKeys, Intents.Extend, Known, Ascending;
    if e.what.GotChunk? { ChunkApart(s, cfg, e.env, e.what.payload); }
  }

  /** After a tick the wire has been used within the ping interval. */
  lemma TickPumps(s: Session, cfg: Config, e: Event)
    requires e.what == PumpTick && e.env.open && s.core.pumping
    ensures var c := Step(s, cfg, e).core;
            c.pumping && c.deadmanMs == s.core.deadmanMs && e.env.now - c.lastTxMs < PingInterval(c.deadmanMs)
  {
    hide Blob.Complete, Blob.Missing, Blob.RepairRequest;
    var s1 := PumpReady(s, cfg, e.env);
    assert Lively(s.core, s1.core, e.env.now);
    var s2 := PumpRepair(s1, cfg, e.env);
    assert Lively(s1.core, s2.core, e.env.now);
  }

  lemma WelcomePumps(s: Session, cfg: Config, e: Event)
    requires e.what.GotWelcome? && e.env.open
    ensures var c := Step(s, cfg, e).core;
            c.pumping && c.deadmanMs == e.what.deadmanMs && c.lastTxMs == e.env.now
  {
    hide Welcome;
    WelcomeLeaves(s, cfg, e.env, e.what.etag, e.what.retained, e.what.deadmanMs);
  }

  lemma {:induction false} StaysPumped(s: Session, cfg: Config, since: int, events: seq<Event>)
    requires Pumped(s.core, since) && Paced(since, 200, events)
    ensures Pumped(RunFrom(s, cfg, events).core, LastPoint(since, events))
  {
    hide Step;
    if events != [] {
      var last := |events| - 1;
      var before, e := events[..last], events[last];
      PacedPrefix(since, 200, events);
      StaysPumped(s, cfg, since, before);
      var s1 := RunFrom(s, cfg, before);
      match e.what
      case PumpTick => TickPumps(s1, cfg, e);
      case GotWelcome(etag, retained, deadmanMs) => WelcomePumps(s1, cfg, e);
      case _ => StepLively(s1, cfg, e);
    }
  }

  lemma PacedPrefix(since: int, window: int, events: seq<Event>)
    requires Paced(since, window, events) && events != []
    ensures Paced(since, window, events[..|events| - 1])
    ensures var e := events[|events| - 1];
            LastPoint(since, events[..|events| - 1]) <= e.env.now <= LastPoint(since, events[..|events| - 1]) + PERIOD
  {
    var before := events[..|events| - 1];
    forall k | 0 <= k < |before| ensures before[..k] == events[..k] {
    }
  }

  /** How long the wire has been silent when the `k`th event comes. */
  function Silence(s: Session, cfg: Config, events: seq<Event>, k: nat): int
    requires k < |events|
  {
    events[k].env.now - RunFrom(s, cfg, events[..k]).core.lastTxMs
  }

  /** The window the hub holds the client to when the `k`th event comes. */
  function Window(s: Session, cfg: Config, events: seq<Event>, k: nat): int
    requires k < |events|
  {
    RunFrom(s, cfg, events[..k]).core.deadmanMs
  }

  /**
   After a WELCOME on an open socket, whatever else happens and however the ticks
   jitter within their 50 ms, the client is never silent for the whole of a
   deadman window of at least 200 ms.
   */
  lemma NeverSilentTooLong(s: Session, cfg: Config, env: Env, etag: Option<Bytes>, retained: nat, deadmanMs: int,
                           events: seq<Event>, k: nat)
    requires env.open && deadmanMs >= 200
    requires Paced(env.now, 200, events) && k < |events|
    ensures var s0 := Welcome(s, cfg, env, etag, retained, deadmanMs);
            Silence(s0, cfg, events, k) < Window(s0, cfg, events, k)
  {
    hide Welcome, RunFrom;
    WelcomeLeaves(s, cfg, env, etag, retained, deadmanMs);
    forall j | 0 <= j < k ensures events[..k][..j] == events[..j] {
    }
    StaysPumped(Welcome(s, cfg, env, etag, retained, deadmanMs), cfg, env.now, events[..k]);
  }

  // ---- the bound is exact -------------------------------------------------------------------

  /** The e-stop latch shown, and ticks 49, 99, 149 and 199 ms after a WELCOME. */
  function LateTicks(t: int): seq<Event> {
    [Event(Env(t, true), GotState(CH_SAFETY, true)),
     Event(Env(t + 49, true), PumpTick), Event(Env(t + 99, true), PumpTick),
     Event(Env(t + 149, true), PumpTick), Event(Env(t + 199, true), PumpTick)]
  }

  /** A tick with nothing to declare, repair, repeat or ping. */
  lemma IdleTick(s: Session, cfg: Config, e: Event)
    requires e.what == PumpTick && !s.core.alarm.active && !s.core.readyPending && s.core.blob.Idle?
    requires e.env.now - s.core.lastTxMs < 150
    ensures Step(s, cfg, e) == s
  {
  }

  lemma LateTicksPoints(t: int)
    ensures var es := LateTicks(t);
            && LastPoint(t, es[..0]) == LastPoint(t, es[..1]) == t && LastPoint(t, es[..2]) == t + 49
            && LastPoint(t, es[..3]) == t + 99 && LastPoint(t, es[..4]) == t + 149
  {
    var es := LateTicks(t);
    assert es[..1][..0] == [];
  }

  lemma LateTicksPaced(t: int, window: int)
    ensures Paced(t, window, LateTicks(t))
  {
    hide LastPoint;
    LateTicksPoints(t);
    var es := LateTicks(t);
    forall k | 0 <= k < 5 ensures LastPoint(t, es[..k]) <= es[k].env.now <= LastPoint(t, es[..k]) + PERIOD {
      assert k == 0 || k == 1 || k == 2 || k == 3 || k == 4;
    }
  }

  /** The latch stops the e-stop frame, and nothing else that the pump sends. */
  lemma LatchQuiets(s: Session, cfg: Config, e: Event)
    requires e.what == GotState(CH_SAFETY, true) && !s.core.readyPending
    ensures var c := Step(s, cfg, e).core;
            && !c.alarm.active && !c.readyPending && c.blob == s.core.blob
            && c.lastTxMs == s.core.lastTxMs && c.deadmanMs == s.core.deadmanMs
  {
  }

  lemma LateTicksSilent(s: Session, cfg: Config, env: Env, etag: Option<Bytes>, retained: nat, deadmanMs: int)
    requires env.open
    ensures var s0 := Welcome(s, cfg, env, etag, retained, deadmanMs);
            Silence(s0, cfg, LateTicks(env.now), 4) == 199 && Window(s0, cfg, LateTicks(env.now), 4) == deadmanMs
  {
    hide Welcome, Step;
    var s0 := Welcome(s, cfg, env, etag, retained, deadmanMs);
    var es := LateTicks(env.now);
    WelcomeLeaves(s, cfg, env, etag, retained, deadmanMs);
    LatchQuiets(s0, cfg, es[0]);
    var s1 := Step(s0, cfg, es[0]);
    IdleTick(s1, cfg, es[1]);
    IdleTick(s1, cfg, es[2]);
    IdleTick(s1, cfg, es[3]);
    assert es[..1][..0] == [] && es[..2][..1] == es[..1] && es[..3][..2] == es[..2] && es[..4][..3] == es[..3];
    assert RunFrom(s0, cfg, es[..1]) == s1;
    assert RunFrom(s0, cfg, es[..2]) == s1;
    assert RunFrom(s0, cfg, es[..3]) == s1;
    assert RunFrom(s0, cfg, es[..4]) == s1;
  }

  /** A schedule on which the client outlasts its window in silence. */
  ghost predicate CanFall(s: Session, cfg: Config, t: int, window: int) {
    exists events: seq<Event>, k: nat ::
      k < |events| && Paced(t, window, events) && Silence(s, cfg, events, k) >= Window(s, cfg, events, k)
  }

  /** 200 ms is exactly the least window that the pump keeps under every schedule. */
  lemma KeptAliveExactly(s: Session, cfg: Config, env: Env, etag: Option<Bytes>, retained: nat, deadmanMs: int)
    requires env.open
    ensures CanFall(Welcome(s, cfg, env, etag, retained, deadmanMs), cfg, env.now, deadmanMs) <==> deadmanMs < 200
  {
    hide Welcome, RunFrom;
    var s0 := Welcome(s, cfg, env, etag, retained, deadmanMs);
    if deadmanMs < 200 {
      LateTicksPaced(env.now, deadmanMs);
      LateTicksSilent(s, cfg, env, etag, retained, deadmanMs);
    } else if CanFall(s0, cfg, env.now, deadmanMs) {
      var events: seq<Event>, k: nat :|
        k < |events| && Paced(env.now, deadmanMs, events) && Silence(s0, cfg, events, k) >= Window(s0, cfg, events, k);
      NeverSilentTooLong(s, cfg, env, etag, retained, deadmanMs, events, k);
    }
  }
}
