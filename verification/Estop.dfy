/** The raw e-stop frame: how often it is repeated, how far apart, and until when. */
module Estop {
  import opened Wire
  import opened Session
  import opened KeepAlive
  import Blob
  import Intents

  /** The assertion an entry of the log belongs to, if it is an e-stop frame. */
  function Raised(e: Entry): Option<nat> {
    if e.Sent? && e.frame.Estop? then Some(e.frame.raised) else None
  }

  /** How many frames of the `n`th assertion have left. */
  function FramesOf(log: seq<Entry>, n: nat): nat {
    if log == [] then 0
    else FramesOf(log[..|log| - 1], n) + (if Raised(log[|log| - 1]) == Some(n) then 1 else 0)
  }

  predicate Spaced(log: seq<Entry>) {
    forall j, k | 0 <= j < k < |log| && Raised(log[j]).Some? && Raised(log[j]) == Raised(log[k]) ::
      log[k].now - log[j].now >= ESTOP_GAP_MS
  }

  /** No frame of the assertion is later than `lastMs`. */
  predicate By(log: seq<Entry>, n: nat, lastMs: int) {
    forall k | 0 <= k < |log| && Raised(log[k]) == Some(n) :: log[k].now <= lastMs
  }

  /** The loop's own bookkeeping of its frames. */
  ghost predicate Counted(s: Session) {
    var a := s.core.alarm;
    && a.seqNo < a.next && FramesOf(s.log, a.seqNo) <= a.attempts <= ESTOP_MAX
    && By(s.log, a.seqNo, a.lastMs) && Spaced(s.log)
    && (forall n :: FramesOf(s.log, n) <= ESTOP_MAX)
    && (forall n | n >= a.next :: FramesOf(s.log, n) == 0)
  }

  // ---- steps that send no e-stop frame --------------------------------------------------------

  /** The log grew by none of these frames, and the loop is as it was or stopped. */
  ghost predicate Quiet(s: Session, s': Session) {
    && s.log <= s'.log
    && (forall k | |s.log| <= k < |s'.log| :: Raised(s'.log[k]).None?)
    && (s'.core.alarm == s.core.alarm || s'.core.alarm == s.core.alarm.(active := false))
  }

  lemma QuietThen(s: Session, s1: Session, s2: Session)
    requires Quiet(s, s1) && Quiet(s1, s2)
    ensures Quiet(s, s2)
  {
  }

  lemma SendQuiet(s: Session, env: Env, f: Frame)
    requires !f.Estop?
    ensures Quiet(s, Send(s, env, f))
  {
  }

  lemma AdoptQuiet(s: Session, cfg: Config, env: Env, bytes: Bytes)
    ensures Quiet(s, Adopt(s, cfg, env, bytes)) && Adopt(s, cfg, env, bytes).core.alarm == s.core.alarm
  {
  }

  lemma ChunkQuiet(s: Session, cfg: Config, env: Env, payload: Bytes)
    ensures Quiet(s, BlobChunk(s, cfg, env, payload)) && BlobChunk(s, cfg, env, payload).core.alarm == s.core.alarm
  {
    hide Adopt, Blob.Receive, Blob.ParseChunk;
    var chunk := Blob.ParseChunk(payload);
    if chunk.Some? {
      var r := Blob.Receive(s.core.blob, chunk.value, env.now, cfg.cap);
      AdoptQuiet(s.(core := s.core.(blob := r.transfer)), cfg, env, if r.done.Some? then r.done.value else []);
    }
  }

  lemma GateQuiet(s: Session, cfg: Config, env: Env)
    ensures Quiet(s, Gate(s, cfg, env)) && Gate(s, cfg, env).core.alarm == s.core.alarm
  {
  }

  lemma GreetQuiet(s: Session, cfg: Config, env: Env)
    ensures Quiet(s, CheckLive(Greet(s, cfg, env)))
  {
    hide Send;
    var s0 := s.(core := s.core.(pumping := true));
    SendQuiet(s0, env, Clock);
    SendQuiet(Send(s0, env, Clock), env, Subscribe);
  }

  lemma WelcomeQuiet(s: Session, cfg: Config, env: Env, etag: Option<Bytes>, retained: nat, deadmanMs: int)
    ensures Quiet(s, Welcome(s, cfg, env, etag, retained, deadmanMs))
  {
    hide Gate, Greet, CheckLive;
    var s1 := s.(core := s.core.(hubEtag := etag, deadmanMs := deadmanMs, adopted := {}, required := retained,
                                 phase := Syncing, readyPending := false, readyAttempts := 0, blob := Blob.Idle));
    GateQuiet(s1, cfg, env);
    GreetQuiet(Gate(s1, cfg, env), cfg, env);
    QuietThen(s1, Gate(s1, cfg, env), Welcome(s, cfg, env, etag, retained, deadmanMs));
  }

  lemma PumpsQuiet(s: Session, cfg: Config, env: Env)
    ensures var s' := PumpRepair(PumpReady(s, cfg, env), cfg, env);
            Quiet(s, s') && s'.core.alarm == s.core.alarm && s'.core.pumping == s.core.pumping
  {
    hide Blob.Complete, Blob.Missing, Blob.RepairRequest;
    var s1 := PumpReady(s, cfg, env);
    assert Quiet(s, s1) && s1.core.alarm == s.core.alarm;
    var s2 := PumpRepair(s1, cfg, env);
    assert Quiet(s1, s2) && s2.core.alarm == s1.core.alarm;
    QuietThen(s, s1, s2);
  }

  lemma StepQuiet(s: Session, cfg: Config, e: Event)
    requires !e.what.CallEstop? && !e.what.PumpTick?
    ensures Quiet(s, Step(s, cfg, e))
  {
    hide BlobChunk, Tick, Welcome, SortKeys, Intents.Extend, Known, Ascending;
    match e.what
    case GotChunk(payload) => ChunkQuiet(s, cfg, e.env, payload);
    case GotWelcome(etag, retained, deadmanMs) => WelcomeQuiet(s, cfg, e.env, etag, retained, deadmanMs);
    case _ =>
  }

  // ---- counting -------------------------------------------------------------------------------------

  lemma {:induction false} FramesOfQuiet(log: seq<Entry>, log': seq<Entry>, n: nat)
    requires log <= log' && forall k | |log| <= k < |log'| :: Raised(log'[k]).None?
    ensures FramesOf(log', n) == FramesOf(log, n)
  {
    if |log'| > |log| {
      FramesOfQuiet(log, log'[..|log'| - 1], n);
    } else {
      assert log' == log;
    }
  }

  lemma QuietCounted(s: Session, s': Session)
    requires Counted(s) && Quiet(s, s')
    ensures Counted(s')
  {
    hide FramesOf;
    forall n: nat ensures FramesOf(s'.log, n) == FramesOf(s.log, n) {
      FramesOfQuiet(s.log, s'.log, n);
    }
    assert forall k | 0 <= k < |s.log| :: s'.log[k] == s.log[k];
  }

  lemma FramesOfMore(log: seq<Entry>, e: Entry, n: nat)
    ensures FramesOf(log + [e], n) == FramesOf(log, n) + (if Raised(e) == Some(n) then 1 else 0)
  {
    assert (log + [e])[..|log|] == log;
  }

  lemma SpacedMore(log: seq<Entry>, e: Entry, n: nat, lastMs: int)
    requires Spaced(log) && Raised(e) == Some(n) && By(log, n, lastMs) && e.now - lastMs >= ESTOP_GAP_MS
    ensures Spaced(log + [e]) && By(log + [e], n, e.now)
  {
  }

  /** Of a count that is zero there is none in the log. */
  lemma {:induction false} NoneOf(log: seq<Entry>, n: nat)
    requires FramesOf(log, n) == 0
    ensures forall k | 0 <= k < |log| :: Raised(log[k]) != Some(n)
  {
    if log != [] {
      NoneOf(log[..|log| - 1], n);
      assert forall k | 0 <= k < |log| - 1 :: log[..|log| - 1][k] == log[k];
    }
  }

  lemma PumpEstopCounted(s: Session, env: Env)
    requires Counted(s)
    ensures Counted(PumpEstop(s, env))
  {
    hide FramesOf, Spaced, By;
    var a := s.core.alarm;
    if a.active && a.attempts < ESTOP_MAX && env.now - a.lastMs >= ESTOP_GAP_MS {
      var e := Sent(Estop(a.seqNo), s.core, env.now);
      SpacedMore(s.log, e, a.seqNo, a.lastMs);
      Later(s.log, a.seqNo, a.lastMs, env.now);
      forall n: nat ensures FramesOf(s.log + [e], n) == FramesOf(s.log, n) + (if n == a.seqNo then 1 else 0) {
        FramesOfMore(s.log, e, n);
      }
    }
  }

  lemma Later(log: seq<Entry>, n: nat, lastMs: int, now: int)
    requires By(log, n, lastMs) && lastMs <= now
    ensures By(log, n, now)
  {
  }

  /** A new assertion's first frame has no earlier ones to keep away from. */
  lemma FirstFrame(log: seq<Entry>, e: Entry, n: nat)
    requires Spaced(log) && Raised(e) == Some(n) && FramesOf(log, n) == 0
    ensures Spaced(log + [e]) && By(log + [e], n, e.now) && By(log, n, e.now)
  {
    NoneOf(log, n);
  }

  lemma RaiseCounted(s: Session, env: Env)
    requires Counted(s)
    ensures Counted(RaiseEstop(s, env))
  {
    hide FramesOf, Spaced, By;
    var n0 := s.core.alarm.next;
    var c := s.core.(alarm := Alarm(true, n0, n0 + 1, 1, env.now));
    var e := Sent(Estop(n0), c, env.now);
    FirstFrame(s.log, e, n0);
    forall n: nat ensures FramesOf(s.log + [e], n) == FramesOf(s.log, n) + (if n == n0 then 1 else 0) {
      FramesOfMore(s.log, e, n);
    }
  }

  lemma TickCounted(s: Session, cfg: Config, env: Env)
    requires Counted(s)
    ensures Counted(Tick(s, cfg, env))
  {
    hide Counted, PumpReady, PumpRepair, PumpEstop, Send, Quiet;
    if s.core.pumping && env.open {
      PumpsQuiet(s, cfg, env);
      var s1 := PumpRepair(PumpReady(s, cfg, env), cfg, env);
      QuietCounted(s, s1);
      PumpEstopCounted(s1, env);
      SendQuiet(PumpEstop(s1, env), env, Ping);
      QuietCounted(PumpEstop(s1, env), Send(PumpEstop(s1, env), env, Ping));
    }
  }

  lemma StepCounted(s: Session, cfg: Config, e: Event)
    requires Counted(s)
    ensures Counted(Step(s, cfg, e))
  {
    hide Counted, Quiet, Tick, RaiseEstop;
    if e.what.CallEstop? {
      RaiseCounted(s, e.env);
    } else if e.what.PumpTick? {
      TickCounted(s, cfg, e.env);
    } else {
      StepQuiet(s, cfg, e);
      QuietCounted(s, Step(s, cfg, e));
    }
  }

  lemma {:induction false} RunCounted(s: Session, cfg: Config, events: seq<Event>)
    requires Counted(s)
    ensures Counted(RunFrom(s, cfg, events))
  {
    hide Counted, Step;
    if events != [] {
      RunCounted(s, cfg, events[..|events| - 1]);
      StepCounted(RunFrom(s, cfg, events[..|events| - 1]), cfg, events[|events| - 1]);
    }
  }

  /** In every run, no assertion sends more than twenty frames, and they are at least 50 ms apart. */
  lemma BoundedAndSpaced(cfg: Config, deadmanMs: int, events: seq<Event>, n: nat)
    ensures var log := RunFrom(Start(deadmanMs), cfg, events).log; FramesOf(log, n) <= ESTOP_MAX && Spaced(log)
  {
    hide FramesOf;
    StartCounted(deadmanMs);
    RunCounted(Start(deadmanMs), cfg, events);
  }

  lemma StartCounted(deadmanMs: int)
    ensures Counted(Start(deadmanMs))
  {
  }

  // ---- the latch stops it ------------------------------------------------------------------------------

  predicate NoCall(events: seq<Event>) { forall k | 0 <= k < |events| :: !events[k].what.CallEstop? }

  lemma TickStopped(s: Session, cfg: Config, env: Env)
    requires !s.core.alarm.active
    ensures Quiet(s, Tick(s, cfg, env))
  {
    hide PumpReady, PumpRepair, Send, Quiet;
    if s.core.pumping && env.open {
      PumpsQuiet(s, cfg, env);
      var s1 := PumpRepair(PumpReady(s, cfg, env), cfg, env);
      SendQuiet(s1, env, Ping);
      QuietThen(s, s1, Send(s1, env, Ping));
    } else {
      SameQuiet(s);
    }
  }

  lemma SameQuiet(s: Session)
    ensures Quiet(s, s)
  {
  }

  lemma {:induction false} StaysStopped(s: Session, cfg: Config, events: seq<Event>)
    requires !s.core.alarm.active && NoCall(events)
    ensures Quiet(s, RunFrom(s, cfg, events))
  {
    hide Step;
    if events != [] {
      var last := |events| - 1;
      StaysStopped(s, cfg, events[..last]);
      StopsAt(s, RunFrom(s, cfg, events[..last]), cfg, events[last]);
    }
  }

  lemma StopsAt(s: Session, s1: Session, cfg: Config, e: Event)
    requires Quiet(s, s1) && !s.core.alarm.active && !e.what.CallEstop?
    ensures Quiet(s, Step(s1, cfg, e))
  {
    hide Tick;
    if e.what.PumpTick? { TickStopped(s1, cfg, e.env); } else { StepQuiet(s1, cfg, e); }
    QuietThen(s, s1, Step(s1, cfg, e));
  }

  /** Once the safety channel has shown the latch, or the socket has gone, no frame leaves until the next assertion. */
  lemma LatchStops(s: Session, cfg: Config, e: Event, events: seq<Event>, n: nat)
    requires e.what == GotState(CH_SAFETY, true) || e.what.SocketGone?
    requires NoCall(events)
    ensures FramesOf(RunFrom(Step(s, cfg, e), cfg, events).log, n) == FramesOf(s.log, n)
  {
    hide RunFrom, FramesOf, Intents.Extend;
    var s1 := Step(s, cfg, e);
    StaysStopped(s1, cfg, events);
    FramesOfQuiet(s1.log, RunFrom(s1, cfg, events).log, n);
    assert s1.log == s.log;
  }

  // ---- until then it is repeated -------------------------------------------------------------------------

  /** Neither the latch, nor another assertion, nor another WELCOME. */
  predicate Unanswered(events: seq<Event>) {
    forall k | 0 <= k < |events| ::
      !events[k].what.GotWelcome? && !events[k].what.CallEstop? && events[k].what != GotState(CH_SAFETY, true)
  }

  /** Where the loop of an assertion made at `t` stands at a tick at `point`. */
  ghost predicate Repeating(s: Session, n: nat, t: int, point: int) {
    var a := s.core.alarm;
    && s.core.pumping && a.seqNo == n && FramesOf(s.log, n) == a.attempts && 1 <= a.attempts <= ESTOP_MAX
    && a.lastMs <= t + 99 * (a.attempts - 1)
    && (a.attempts < ESTOP_MAX ==> a.active && point < a.lastMs + ESTOP_GAP_MS)
  }

  lemma OtherRepeats(s: Session, cfg: Config, e: Event, n: nat, t: int, point: int)
    requires Repeating(s, n, t, point) && !Point(e.what) && !e.what.CallEstop? && !e.what.SocketGone? && !e.what.CallClose?
    requires e.what != GotState(CH_SAFETY, true)
    ensures Repeating(Step(s, cfg, e), n, t, point)
  {
    hide Step, FramesOf;
    StepQuiet(s, cfg, e);
    StepLively(s, cfg, e);
    StaysActive(s, cfg, e);
    FramesOfQuiet(s.log, Step(s, cfg, e).log, n);
  }

  lemma StaysActive(s: Session, cfg: Config, e: Event)
    requires !Point(e.what) && !e.what.CallEstop? && !e.what.SocketGone? && e.what != GotState(CH_SAFETY, true)
    ensures Step(s, cfg, e).core.alarm == s.core.alarm
  {
    hide BlobChunk, Tick, Welcome, SortKeys, Intents.Extend, Known, Ascending;
    if e.what.GotChunk? { ChunkQuiet(s, cfg, e.env, e.what.payload); }
  }

  lemma TickRepeats(s: Session, cfg: Config, env: Env, n: nat, t: int, point: int)
    requires Repeating(s, n, t, point) && env.open && env.now <= point + PERIOD
    ensures Repeating(Tick(s, cfg, env), n, t, env.now)
  {
    hide PumpReady, PumpRepair, Send, FramesOf;
    PumpsQuiet(s, cfg, env);
    var s1 := PumpRepair(PumpReady(s, cfg, env), cfg, env);
    FramesOfQuiet(s.log, s1.log, n);
    EstopRepeats(s1, env, n, t, point);
    var s2 := PumpEstop(s1, env);
    SendQuiet(s2, env, Ping);
    SendPhase(s2, env, Ping);
    FramesOfQuiet(s2.log, Send(s2, env, Ping).log, n);
  }

  lemma EstopRepeats(s: Session, env: Env, n: nat, t: int, point: int)
    requires Repeating(s, n, t, point) && env.open && env.now <= point + PERIOD
    ensures Repeating(PumpEstop(s, env), n, t, env.now)
  {
    hide FramesOf;
    FramesOfMore(s.log, Sent(Estop(n), s.core, env.now), n);
  }

  lemma {:induction false} RunRepeats(s: Session, cfg: Config, n: nat, t: int, events: seq<Event>)
    requires Repeating(s, n, t, t) && Paced(t, 0, events) && Unanswered(events)
    ensures Repeating(RunFrom(s, cfg, events), n, t, LastPoint(t, events))
  {
    hide Repeating, Step, Tick;
    if events != [] {
      var last := |events| - 1;
      var before, e := events[..last], events[last];
      PacedPrefix(t, 0, events);
      RunRepeats(s, cfg, n, t, before);
      var s1 := RunFrom(s, cfg, before);
      if e.what.PumpTick? {
        TickRepeats(s1, cfg, e.env, n, t, LastPoint(t, before));
        TickIsStep(s1, cfg, e);
      } else {
        OtherRepeats(s1, cfg, e, n, t, LastPoint(t, before));
      }
    }
  }

  lemma TickIsStep(s: Session, cfg: Config, e: Event)
    requires e.what.PumpTick?
    ensures Step(s, cfg, e) == Tick(s, cfg, e.env)
  {
  }

  /**
   While ticks come at most 50 ms apart and no latch is shown, a frame leaves at
   least every 99 ms: all twenty have left by a tick 1832 ms after the assertion.
   */
  lemma RepeatedUntilLatch(s: Session, cfg: Config, env: Env, events: seq<Event>)
    requires Counted(s) && s.core.pumping && env.open && Paced(env.now, 0, events) && Unanswered(events)
    ensures var n := s.core.alarm.next;
            var sent := FramesOf(RunFrom(RaiseEstop(s, env), cfg, events).log, n);
            && 1 <= sent <= ESTOP_MAX
            && (sent < ESTOP_MAX ==> LastPoint(env.now, events) - env.now <= 99 * sent - 50)
            && (LastPoint(env.now, events) - env.now >= 1832 ==> sent == ESTOP_MAX)
  {
    hide FramesOf, RunFrom, Spaced, By;
    var n := s.core.alarm.next;
    var c := s.core.(alarm := Alarm(true, n, n + 1, 1, env.now));
    FramesOfMore(s.log, Sent(Estop(n), c, env.now), n);
    RunRepeats(RaiseEstop(s, env), cfg, n, env.now, events);
  }

  // ---- before a WELCOME it is not --------------------------------------------------------------------------

  predicate NoWelcome(events: seq<Event>) { forall k | 0 <= k < |events| :: !events[k].what.GotWelcome? }

  lemma UnpumpedStep(s: Session, cfg: Config, e: Event)
    requires !s.core.pumping && !e.what.GotWelcome? && !e.what.CallEstop?
    ensures Quiet(s, Step(s, cfg, e)) && !Step(s, cfg, e).core.pumping
  {
    hide Step;
    if e.what.PumpTick? {
      TickIsStep(s, cfg, e);
      SameQuiet(s);
    } else {
      StepQuiet(s, cfg, e);
      if e.what.SocketGone? || e.what.CallClose? { StopsPump(s, cfg, e); } else { StepLively(s, cfg, e); }
    }
  }

  lemma StopsPump(s: Session, cfg: Config, e: Event)
    requires e.what.SocketGone? || e.what.CallClose?
    ensures !Step(s, cfg, e).core.pumping
  {
    hide Intents.Extend;
  }

  lemma {:induction false} UnpumpedRun(s: Session, cfg: Config, events: seq<Event>)
    requires !s.core.pumping && NoWelcome(events) && NoCall(events)
    ensures Quiet(s, RunFrom(s, cfg, events)) && !RunFrom(s, cfg, events).core.pumping
  {
    hide Step, Quiet;
    if events == [] {
      SameQuiet(s);
    } else {
      var last := |events| - 1;
      UnpumpedRun(s, cfg, events[..last]);
      var s1 := RunFrom(s, cfg, events[..last]);
      UnpumpedStep(s1, cfg, events[last]);
      QuietThen(s, s1, Step(s1, cfg, events[last]));
    }
  }

  /**
   The pump starts with the WELCOME. An assertion made while it does not run sends
   one frame, or none if the socket is not open, whatever follows short of a WELCOME.
   */
  lemma OnceBeforeWelcome(s: Session, cfg: Config, env: Env, events: seq<Event>)
    requires Counted(s) && !s.core.pumping && NoWelcome(events) && NoCall(events)
    ensures FramesOf(RunFrom(RaiseEstop(s, env), cfg, events).log, s.core.alarm.next) == if env.open then 1 else 0
  {
    hide FramesOf, RunFrom, Spaced, By;
    var n, s1 := s.core.alarm.next, RaiseEstop(s, env);
    var c := s.core.(alarm := Alarm(true, n, n + 1, 1, env.now));
    FramesOfMore(s.log, Sent(Estop(n), c, env.now), n);
    UnpumpedRun(s1, cfg, events);
    FramesOfQuiet(s1.log, RunFrom(s1, cfg, events).log, n);
  }
}
