/**
 The segment emitter of clients/mfp/SlopSync.cs: the cursor over a script's
 spans, the token bucket and the wire schedule of each span, over the reals.
 */
module Emitter {
  import opened Wire
  import opened Handoff
  import Hermite

  const LOOKAHEAD_MS := 120.0
  const SEEK_FORWARD_SEC := 0.25
  const SEEK_BACKWARD_SEC := 0.05
  const FROZEN_IDLE_MS := 60.0
  const MAX_EMIT_PER_TICK: nat := 4
  const MAX_SCAN_PER_TICK: nat := 4096
  const MIN_DURATION_MS := 10
  const MAX_DURATION_MS := 65535
  const SEGMENT_WISH_HZ := 20.0

  /** A script: its keyframes and which spans between them carry no motion. */
  datatype Script = Script(kf: seq<Keyframe>, gap: nat -> bool)

  // ---- the walk over due spans ---------------------------------------------------------

  /** The last keyframe at or before `pos`, or -1 before the script starts. */
  function SearchBefore(kf: seq<Keyframe>, pos: real): (i: int)
    ensures -1 <= i < |kf|
    ensures i >= 0 ==> kf[i].pos <= pos
    ensures i + 1 < |kf| ==> kf[i + 1].pos > pos
  {
    if kf == [] then -1
    else if kf[|kf| - 1].pos <= pos then |kf| - 1
    else SearchBefore(kf[..|kf| - 1], pos)
  }

  /** What one tick looks at: the script, the media position and the lookahead horizon. */
  datatype View = View(script: Script, pos: real, horizon: real)

  datatype Cursor = Cursor(emitted: int, tokens: real, sent: seq<nat>)

  predicate Due(v: View, i: nat)
    requires i + 1 < |v.script.kf|
  {
    v.script.kf[i].pos <= v.horizon
  }

  /** A span that carries motion still ahead of the media clock. */
  predicate Live(v: View, i: nat)
    requires i + 1 < |v.script.kf|
  {
    !v.script.gap(i) && v.script.kf[i + 1].pos > v.pos
  }

  predicate Continues(v: View, i: nat, c: Cursor, scanned: nat) {
    && i + 1 < |v.script.kf| && |c.sent| < MAX_EMIT_PER_TICK && scanned < MAX_SCAN_PER_TICK
    && Due(v, i) && (Live(v, i) ==> c.tokens >= 1.0)
  }

  function Advance(v: View, i: nat, c: Cursor): Cursor
    requires i + 1 < |v.script.kf|
  {
    if Live(v, i) then Cursor(i, c.tokens - 1.0, c.sent + [i]) else c.(emitted := i)
  }

  /** The emit loop of one tick, from span `i` on. */
  function Walk(v: View, i: nat, c: Cursor, scanned: nat): Cursor
    decreases |v.script.kf| - i
  {
    if Continues(v, i, c, scanned) then Walk(v, i + 1, Advance(v, i, c), scanned + 1) else c
  }

  /** Spans this tick sent: ascending, each due, live, and within the walk. */
  ghost predicate SentInOrder(v: View, first: nat, c: Cursor) {
    && (forall k | 0 <= k < |c.sent| ::
          first <= c.sent[k] <= c.emitted && c.sent[k] + 1 < |v.script.kf| && Due(v, c.sent[k]) && Live(v, c.sent[k]))
    && (forall j, k | 0 <= j < k < |c.sent| :: c.sent[j] < c.sent[k])
  }

  /** Every span the cursor has passed was sent, is a gap, or ended by the media position. */
  ghost predicate PassedFairly(v: View, first: nat, c: Cursor) {
    forall j: nat | first <= j <= c.emitted && j + 1 < |v.script.kf| :: j in c.sent || !Live(v, j)
  }

  ghost predicate WalkInvariant(v: View, first: nat, i: nat, c: Cursor, budget: real) {
    && first <= i && (c.emitted == i - 1 || (i == first && c.emitted == -1 && c.sent == []))
    && (i > first ==> i < |v.script.kf|)
    && c.tokens >= 0.0 && c.tokens + |c.sent| as real == budget
    && |c.sent| <= MAX_EMIT_PER_TICK
    && SentInOrder(v, first, c) && PassedFairly(v, first, c)
  }

  lemma AdvanceKeeps(v: View, first: nat, i: nat, c: Cursor, scanned: nat, budget: real)
    requires WalkInvariant(v, first, i, c, budget) && Continues(v, i, c, scanned)
    ensures WalkInvariant(v, first, i + 1, Advance(v, i, c), budget)
  {
    var c' := Advance(v, i, c);
    forall j: nat | first <= j <= c'.emitted && j + 1 < |v.script.kf| ensures j in c'.sent || !Live(v, j) {
      if j == i && Live(v, i) {
        assert c'.sent[|c.sent|] == i;
      }
    }
  }

  /** Why the loop stopped at span `i`. */
  ghost predicate StoppedAt(v: View, i: nat, c: Cursor, scanned: nat) {
    || i + 1 >= |v.script.kf|
    || |c.sent| >= MAX_EMIT_PER_TICK
    || scanned >= MAX_SCAN_PER_TICK
    || !Due(v, i)
    || (Live(v, i) && c.tokens < 1.0)
  }

  /**
   One tick's loop: it sends live spans in increasing order, at most four; it
   leaves a span behind only if that span was sent, is a gap or has ended; it
   spends one token per span; and it stops only at the end of the script, at a
   per-tick limit, at a span not yet due, or at a live span without a token.
   */
  lemma {:induction false} WalkFair(v: View, first: nat, i: nat, c: Cursor, scanned: nat, budget: real) returns (end: nat)
    requires WalkInvariant(v, first, i, c, budget)
    ensures i <= end && WalkInvariant(v, first, end, Walk(v, i, c, scanned), budget)
    ensures StoppedAt(v, end, Walk(v, i, c, scanned), scanned + (end - i))
    decreases |v.script.kf| - i
  {
    if Continues(v, i, c, scanned) {
      AdvanceKeeps(v, first, i, c, scanned, budget);
      end := WalkFair(v, first, i + 1, Advance(v, i, c), scanned + 1, budget);
    } else {
      end := i;
    }
  }

  // ---- one tick ------------------------------------------------------------------------

  /** `emitted` is -1 while the cursor is to be found from the media position. */
  datatype State = State(
    script: Option<Script>, emitted: int, havePos: bool, lastPos: real, needsResync: bool,
    frozenMs: real, tokens: real, rate: real, depth: real)

  /**
   What a tick reads: the time since the last one, the media position (none when
   it cannot be read), the speed, the script a re-anchor would load, and whether
   a message asked for one.
   */
  datatype Tick = Tick(dtMs: real, pos: Option<real>, speed: real, loaded: Option<Script>, messaged: bool)

  datatype Outcome = Outcome(state: State, sent: seq<nat>, anchored: bool)

  predicate Usable(s: Option<Script>) { s.Some? && |s.value.kf| >= 2 }

  function NonNegative(x: real): (r: real)
    ensures r >= 0.0
  {
    if x < 0.0 then 0.0 else x
  }

  predicate Jumped(s: State, pos: real) {
    !s.havePos || pos - s.lastPos > SEEK_FORWARD_SEC || s.lastPos - pos > SEEK_BACKWARD_SEC
  }

  /** Note the position, and count how long it has stood still. */
  function Noted(s: State, pos: real, dtMs: real): State {
    var still := s.havePos && -0.000000001 <= pos - s.lastPos <= 0.000000001;
    s.(frozenMs := if still then s.frozenMs + NonNegative(dtMs) else 0.0, lastPos := pos, havePos := true)
  }

  function Anchored(s: State, loaded: Option<Script>): State {
    s.(emitted := -1, script := loaded, needsResync := !Usable(loaded))
  }

  function Refill(depth: real, tokens: real, rate: real, dtMs: real): real {
    Min(depth, tokens + rate * (NonNegative(dtMs) / 1000.0))
  }

  function Refilled(s: State, dtMs: real): real { Refill(s.depth, s.tokens, s.rate, dtMs) }

  function FirstSpan(kf: seq<Keyframe>, emitted: int, pos: real): nat
    requires emitted >= -1
  {
    if emitted >= 0 then emitted + 1
    else if SearchBefore(kf, pos) < 0 then 0 else SearchBefore(kf, pos)
  }

  function Horizon(pos: real, speed: real): real { pos + LOOKAHEAD_MS / 1000.0 * speed }

  /** The tick finds its place in the script anew: the media jumped, or that was asked for. */
  predicate Anchors(s: State, t: Tick)
    requires t.pos.Some?
  {
    Jumped(s, t.pos.value) || s.needsResync || t.messaged
  }

  /** The state a tick with a position emits from. */
  function Begun(s: State, t: Tick): State
    requires t.pos.Some?
  {
    var s1 := Noted(s, t.pos.value, t.dtMs);
    if Anchors(s, t) then Anchored(s1, t.loaded) else s1
  }

  /** A tick gets to its loop: there is a script, and the media has not stood still for long. */
  predicate Emits(s: State) { Usable(s.script) && s.frozenMs < FROZEN_IDLE_MS }

  function ViewOf(s: State, t: Tick): View
    requires s.script.Some? && t.pos.Some?
  {
    View(s.script.value, t.pos.value, Horizon(t.pos.value, t.speed))
  }

  /** Where the loop of a tick leaves the cursor. */
  function Walked(s: State, t: Tick): Cursor
    requires s.script.Some? && t.pos.Some? && s.emitted >= -1
  {
    Walk(ViewOf(s, t), FirstSpan(s.script.value.kf, s.emitted, t.pos.value), Cursor(s.emitted, Refilled(s, t.dtMs), []), 0)
  }

  function TickStep(s: State, t: Tick): Outcome
    requires s.emitted >= -1
  {
    if t.pos.None? then Outcome(if t.messaged then s.(needsResync := true) else s, [], false)
    else
      var s1 := Begun(s, t);
      if !Usable(s1.script) then Outcome(s1.(needsResync := true), [], Anchors(s, t))
      else if !Emits(s1) then Outcome(s1, [], Anchors(s, t))
      else
        var c := Walked(s1, t);
        Outcome(s1.(emitted := c.emitted, tokens := c.tokens), c.sent, Anchors(s, t))
  }

  ghost predicate Inv(s: State) {
    && s.emitted >= -1 && s.rate > 0.0 && 0.0 <= s.tokens <= s.depth
    && (s.script.Some? ==> Sorted(s.script.value.kf))
    && (s.emitted >= 0 ==> s.script.Some? && s.emitted + 1 < |s.script.value.kf|)
  }

  predicate TickOk(t: Tick) {
    t.speed > 0.0 && (t.loaded.Some? ==> Sorted(t.loaded.value.kf))
  }

  lemma RefillBounds(s: State, dtMs: real)
    requires s.rate > 0.0 && 0.0 <= s.tokens <= s.depth
    ensures 0.0 <= Refilled(s, dtMs) <= s.depth
    ensures Refilled(s, dtMs) <= s.tokens + s.rate * (NonNegative(dtMs) / 1000.0)
  {
    var x := NonNegative(dtMs) / 1000.0;
    assert x >= 0.0;
    assert s.rate * x >= 0.0;
  }

  /** Before the first span a search finds, every span has ended. */
  lemma BeforeFirstEnded(kf: seq<Keyframe>, pos: real, j: nat)
    requires Sorted(kf) && j < FirstSpan(kf, -1, pos)
    ensures j + 1 < |kf| && kf[j + 1].pos <= pos
  {
  }

  /** A span sent was a span of the script, due within the lookahead. */
  predicate SentDue(t: Tick, o: Outcome, i: nat) {
    && t.pos.Some? && o.state.script.Some? && i + 1 < |o.state.script.value.kf|
    && o.state.script.value.kf[i].pos <= Horizon(t.pos.value, t.speed)
  }

  /** What a tick did to the cursor, relative to where it stood (-1 after a re-anchor). */
  ghost predicate TickFair(base: int, t: Tick, o: Outcome) {
    && o.state.emitted >= base && |o.sent| <= 4
    && (forall k | 0 <= k < |o.sent| :: base < o.sent[k] <= o.state.emitted)
    && (forall j, k | 0 <= j < k < |o.sent| :: o.sent[j] < o.sent[k])
    && (forall k | 0 <= k < |o.sent| :: SentDue(t, o, o.sent[k]))
    && (forall j: nat | base < j <= o.state.emitted && o.state.script.Some? && j + 1 < |o.state.script.value.kf| ::
          j in o.sent || o.state.script.value.gap(j)
          || (t.pos.Some? && o.state.script.value.kf[j + 1].pos <= t.pos.value))
  }

  lemma TickKeeps(s: State, t: Tick)
    requires Inv(s) && TickOk(t)
    ensures var o := TickStep(s, t);
            && Inv(o.state) && o.state.rate == s.rate && o.state.depth == s.depth
            && TickFair(if o.anchored then -1 else s.emitted, t, o)
            && o.state.tokens + |o.sent| as real <= s.tokens + s.rate * (NonNegative(t.dtMs) / 1000.0)
            && o.state.tokens + |o.sent| as real <= s.depth
            && (!o.anchored ==> o.state.script == s.script)
  {
    hide Walked, Horizon, Sorted;
    RefillBounds(s, t.dtMs);
    var grown := s.rate * (NonNegative(t.dtMs) / 1000.0);
    assert grown >= 0.0;
    if t.pos.Some? && Emits(Begun(s, t)) {
      WalkTick(Begun(s, t), t);
    }
  }

  lemma {:induction false} WalkRises(v: View, i: nat, c: Cursor, scanned: nat)
    requires -1 <= c.emitted <= i
    ensures Walk(v, i, c, scanned).emitted >= c.emitted
    decreases |v.script.kf| - i
  {
    if Continues(v, i, c, scanned) {
      WalkRises(v, i + 1, Advance(v, i, c), scanned + 1);
    }
  }

  lemma WalkTick(s: State, t: Tick)
    requires Inv(s) && Usable(s.script) && t.pos.Some?
    ensures var r, c := Refilled(s, t.dtMs), Walked(s, t);
            && 0.0 <= c.tokens && c.tokens + |c.sent| as real == r
            && Inv(s.(emitted := c.emitted, tokens := c.tokens))
            && TickFair(s.emitted, t, Outcome(s.(emitted := c.emitted, tokens := c.tokens), c.sent, false))
  {
    hide Refilled, Horizon, Walk, Sorted;
    RefillBounds(s, t.dtMs);
    var v := ViewOf(s, t);
    var r := Refilled(s, t.dtMs);
    var first := FirstSpan(v.script.kf, s.emitted, t.pos.value);
    var c0 := Cursor(s.emitted, r, []);
    assert WalkInvariant(v, first, first, c0, r);
    var end := WalkFair(v, first, first, c0, 0, r);
    WalkRises(v, first, c0, 0);
    var c := Walk(v, first, c0, 0);
    forall j: nat | s.emitted < j <= c.emitted && j + 1 < |v.script.kf|
      ensures j in c.sent || v.script.gap(j) || v.script.kf[j + 1].pos <= t.pos.value
    {
      if j < first {
        BeforeFirstEnded(v.script.kf, t.pos.value, j);
      }
    }
  }

  // ---- whole runs --------------------------------------------------------------------------

  /**
   A run, seen since its last re-anchor: the spans sent, and for each span the
   cursor has passed the media position of the tick that passed it.
   */
  datatype History = History(state: State, sent: seq<nat>, passed: seq<real>)

  function Repeat(x: real, n: nat): (r: seq<real>)
    ensures |r| == n && forall k | 0 <= k < n :: r[k] == x
  {
    seq(n, k => x)
  }

  ghost function Extend(h: History, t: Tick): History
    requires Inv(h.state) && TickOk(t) && |h.passed| == h.state.emitted + 1
  {
    var o := TickStep(h.state, t);
    TickKeeps(h.state, t);
    var pos := if t.pos.Some? then t.pos.value else 0.0;
    if o.anchored then History(o.state, o.sent, Repeat(pos, o.state.emitted + 1))
    else History(o.state, h.sent + o.sent, h.passed + Repeat(pos, o.state.emitted - h.state.emitted))
  }

  ghost predicate RunInv(h: History) {
    && Inv(h.state) && |h.passed| == h.state.emitted + 1
    && (forall k | 0 <= k < |h.sent| :: h.sent[k] <= h.state.emitted)
    && (forall j, k | 0 <= j < k < |h.sent| :: h.sent[j] < h.sent[k])
    && (forall j: nat | j <= h.state.emitted ::
          j in h.sent || h.state.script.value.gap(j) || h.state.script.value.kf[j + 1].pos <= h.passed[j])
  }

  lemma ExtendKeeps(h: History, t: Tick)
    requires RunInv(h) && TickOk(t)
    ensures RunInv(Extend(h, t))
  {
    hide TickStep, Sorted;
    TickKeeps(h.state, t);
    var o, h' := TickStep(h.state, t), Extend(h, t);
    forall j: nat | j <= h'.state.emitted
      ensures j in h'.sent || h'.state.script.value.gap(j) || h'.state.script.value.kf[j + 1].pos <= h'.passed[j]
    {
      if o.anchored || j > h.state.emitted {
        assert j in o.sent ==> j in h'.sent;
        if t.pos.None? { NoPositionNoSpans(h.state, t); }
      }
    }
  }

  lemma NoPositionNoSpans(s: State, t: Tick)
    requires s.emitted >= -1 && t.pos.None?
    ensures TickStep(s, t).state.emitted == s.emitted && !TickStep(s, t).anchored
  {
  }

  ghost function RunHistory(h: History, ticks: seq<Tick>): (r: History)
    requires RunInv(h) && forall k | 0 <= k < |ticks| :: TickOk(ticks[k])
    ensures RunInv(r)
  {
    if ticks == [] then h
    else
      var before := RunHistory(h, ticks[..|ticks| - 1]);
      ExtendKeeps(before, ticks[|ticks| - 1]);
      Extend(before, ticks[|ticks| - 1])
  }

  /** The state a connection starts from, with the bucket full. */
  function Initial(rate: real, depth: real): State {
    State(None, -1, false, 0.0, true, 0.0, depth, rate, depth)
  }

  /**
   For every run of ticks, whatever positions, speeds, scripts, stalls and
   messages they bring: since the last re-anchor spans went out in strictly
   increasing order, hence at most once each, and every span at or below the
   cursor was sent, is a gap, or had ended by the media position of the very
   tick that passed it.
   */
  lemma RunFair(rate: real, depth: real, ticks: seq<Tick>)
    requires rate > 0.0 && depth >= 0.0 && forall k | 0 <= k < |ticks| :: TickOk(ticks[k])
    ensures RunInv(History(Initial(rate, depth), [], []))
    ensures var h := RunHistory(History(Initial(rate, depth), [], []), ticks);
            && (forall j, k | 0 <= j < k < |h.sent| :: h.sent[j] < h.sent[k])
            && |h.passed| == h.state.emitted + 1
            && (forall j: nat | j <= h.state.emitted ::
                  && h.state.script.Some? && j + 1 < |h.state.script.value.kf|
                  && (j in h.sent || h.state.script.value.gap(j) || h.state.script.value.kf[j + 1].pos <= h.passed[j]))
  {
    var h := RunHistory(History(Initial(rate, depth), [], []), ticks);
    assert RunInv(h);
  }

  // ---- nothing is missed -----------------------------------------------------------------------

  /** The tick had room to spare: no re-anchor, no freeze, under both limits, and a token left. */
  predicate Roomy(s: State, t: Tick)
    requires s.emitted >= -1
  {
    var o := TickStep(s, t);
    && t.pos.Some? && !o.anchored && Usable(s.script) && o.state.frozenMs < FROZEN_IDLE_MS
    && |o.sent| < MAX_EMIT_PER_TICK && o.state.tokens >= 1.0
    && o.state.emitted + 1 < FirstSpan(s.script.value.kf, s.emitted, t.pos.value) + MAX_SCAN_PER_TICK
  }

  /** A loop with room to spare has left nothing due behind it. */
  lemma WalkCatchesUp(v: View, first: nat, c0: Cursor, i: nat, budget: real)
    requires Sorted(v.script.kf) && WalkInvariant(v, first, first, c0, budget)
    requires var c := Walk(v, first, c0, 0);
             |c.sent| < MAX_EMIT_PER_TICK && c.tokens >= 1.0 && c.emitted + 1 < first + MAX_SCAN_PER_TICK
    requires first <= i && i + 1 < |v.script.kf| && Due(v, i)
    ensures i <= Walk(v, first, c0, 0).emitted
  {
    hide Walk;
    var end := WalkFair(v, first, first, c0, 0, budget);
  }

  /** After such a tick the cursor is past every span that has come due and not yet begun. */
  lemma TickCatchesUp(s: State, t: Tick, i: nat)
    requires Inv(s) && TickOk(t) && Roomy(s, t) && i + 1 < |s.script.value.kf|
    requires t.pos.value < s.script.value.kf[i].pos <= Horizon(t.pos.value, t.speed)
    ensures i <= TickStep(s, t).state.emitted
  {
    hide Walk, Horizon, Refilled;
    var o, kf := TickStep(s, t), s.script.value.kf;
    TickKeeps(s, t);
    var s1 := Noted(s, t.pos.value, t.dtMs);
    RefillBounds(s1, t.dtMs);
    var v := View(s.script.value, t.pos.value, Horizon(t.pos.value, t.speed));
    var first := FirstSpan(kf, s.emitted, t.pos.value);
    var c0 := Cursor(s.emitted, Refilled(s1, t.dtMs), []);
    assert WalkInvariant(v, first, first, c0, c0.tokens);
    if first <= i {
      WalkCatchesUp(v, first, c0, i, c0.tokens);
    } else if s.emitted < 0 {
      BeforeFirstEnded(kf, t.pos.value, i);
    }
  }

  /** Every tick has room, and the next finds the media no further on than this one looked ahead. */
  ghost predicate Steady(s: State, ticks: seq<Tick>)
    requires s.emitted >= -1
    decreases |ticks|
  {
    ticks == [] || (
      && TickOk(ticks[0]) && Roomy(s, ticks[0])
      && (|ticks| > 1 ==> ticks[1].pos.Some? && ticks[1].pos.value <= Horizon(ticks[0].pos.value, ticks[0].speed))
      && TickStep(s, ticks[0]).state.emitted >= -1 && Steady(TickStep(s, ticks[0]).state, ticks[1..])
    )
  }

  /** Some tick that finds the media before `start` sends span `i`. */
  ghost predicate SentBefore(s: State, ticks: seq<Tick>, i: nat, start: real)
    requires s.emitted >= -1
    decreases |ticks|
  {
    && ticks != [] && ticks[0].pos.Some?
    && ((ticks[0].pos.value < start && i in TickStep(s, ticks[0]).sent)
        || (TickStep(s, ticks[0]).state.emitted >= -1 && SentBefore(TickStep(s, ticks[0]).state, ticks[1..], i, start)))
  }

  /**
   While ticks have room and come no further apart than the lookahead, every span
   with motion ahead of the cursor is sent before the media reaches its start.
   */
  lemma {:induction false} SpansSentAhead(s: State, ticks: seq<Tick>, i: nat)
    requires Inv(s) && s.script.Some? && s.emitted < i && i + 1 < |s.script.value.kf| && !s.script.value.gap(i)
    requires ticks != [] && Steady(s, ticks) && ticks[|ticks| - 1].pos.Some?
    requires ticks[0].pos.value < s.script.value.kf[i].pos <= ticks[|ticks| - 1].pos.value
    ensures SentBefore(s, ticks, i, s.script.value.kf[i].pos)
    decreases |ticks|
  {
    hide TickStep, Horizon, FirstSpan;
    var t, start := ticks[0], s.script.value.kf[i].pos;
    TickKeeps(s, t);
    var o := TickStep(s, t);
    if i !in o.sent {
      assert s.script.value.kf[i + 1].pos > start;
      assert o.state.emitted < i;
      if start <= Horizon(t.pos.value, t.speed) {
        TickCatchesUp(s, t, i);
      } else {
        SpansSentAhead(o.state, ticks[1..], i);
      }
    }
  }

  // ---- the token bucket ----------------------------------------------------------------------

  /** Final state and number of segments sent by a run of ticks. */
  function Total(s: State, ticks: seq<Tick>): (r: (State, nat))
    requires s.emitted >= -1
    ensures r.0.emitted >= -1
  {
    if ticks == [] then (s, 0)
    else
      var (s', n) := Total(s, ticks[..|ticks| - 1]);
      var o := TickStep(s', ticks[|ticks| - 1]);
      WalkFloor(s', ticks[|ticks| - 1]);
      (o.state, n + |o.sent|)
  }

  lemma WalkFloor(s: State, t: Tick)
    requires s.emitted >= -1
    ensures TickStep(s, t).state.emitted >= -1
  {
    if t.pos.Some? && Emits(Begun(s, t)) {
      var s1 := Begun(s, t);
      WalkRises(ViewOf(s1, t), FirstSpan(s1.script.value.kf, s1.emitted, t.pos.value), Cursor(s1.emitted, Refilled(s1, t.dtMs), []), 0);
    }
  }

  /** Wall-clock seconds a run of ticks covers. */
  function Elapsed(ticks: seq<Tick>): (r: real)
    ensures r >= 0.0
  {
    if ticks == [] then 0.0 else Elapsed(ticks[..|ticks| - 1]) + NonNegative(ticks[|ticks| - 1].dtMs) / 1000.0
  }

  /** Credit stays within the bucket, and what is sent is paid for by what was held plus the refill. */
  lemma {:induction false} CreditConserved(s: State, ticks: seq<Tick>)
    requires Inv(s) && forall k | 0 <= k < |ticks| :: TickOk(ticks[k])
    ensures var (s', n) := Total(s, ticks);
            && Inv(s') && s'.rate == s.rate && s'.depth == s.depth
            && n as real + s'.tokens <= s.tokens + s.rate * Elapsed(ticks)
  {
    hide TickStep, Inv, TickOk;
    Positive(s);
    if ticks != [] {
      var last := |ticks| - 1;
      CreditConserved(s, ticks[..last]);
      var (s', n) := Total(s, ticks[..last]);
      TickCredit(s', ticks[last]);
      Distribute(s.rate, Elapsed(ticks[..last]), NonNegative(ticks[last].dtMs) / 1000.0);
    } else {
      assert s.rate * 0.0 == 0.0;
    }
  }

  lemma TickCredit(s: State, t: Tick)
    requires Inv(s) && TickOk(t)
    ensures s.emitted >= -1
    ensures var o := TickStep(s, t);
            && Inv(o.state) && o.state.rate == s.rate && o.state.depth == s.depth
            && o.state.tokens + |o.sent| as real <= s.tokens + s.rate * (NonNegative(t.dtMs) / 1000.0)
  {
    hide TickStep;
    TickKeeps(s, t);
  }

  lemma Distribute(r: real, a: real, b: real)
    ensures r * (a + b) == r * a + r * b
  {
  }

  /** A run of ticks is its first tick and then the rest. */
  lemma {:induction false} TotalFirst(s: State, ticks: seq<Tick>)
    requires s.emitted >= -1 && ticks != [] && TickStep(s, ticks[0]).state.emitted >= -1
    ensures Total(s, ticks).0 == Total(TickStep(s, ticks[0]).state, ticks[1..]).0
    ensures Total(s, ticks).1 == |TickStep(s, ticks[0]).sent| + Total(TickStep(s, ticks[0]).state, ticks[1..]).1
  {
    hide TickStep;
    var last := |ticks| - 1;
    if last == 0 {
      assert ticks[..0] == [] && ticks[1..] == [];
    } else {
      TotalFirst(s, ticks[..last]);
      assert ticks[..last][1..] == ticks[1..][..last - 1];
    }
  }

  function Seconds(fromMs: real, toMs: real): real { (toMs - fromMs) / 1000.0 }

  lemma InSeconds(a: real, b: real, c: real, d: real)
    requires a <= b && c <= d
    ensures Seconds(b, c) <= Seconds(a, d)
    ensures a <= d ==> Seconds(a, d) >= 0.0
  {
  }

  /** Tick `k` comes at `times[k]`, and its refill covers the time since the tick before it. */
  predicate Follows(ticks: seq<Tick>, times: seq<real>, k: nat)
    requires 0 < k < |ticks| == |times|
  {
    times[k - 1] <= times[k] && ticks[k].dtMs == times[k] - times[k - 1]
  }

  /**
   Between any two instants `from` and `to`, in milliseconds, whatever the jitter
   of the ticks that fall between them and however long the wait before the first,
   at most depth + rate * (to - from) segments are sent.
   */
  lemma TokenWindow(s: State, ticks: seq<Tick>, times: seq<real>, from: real, to: real)
    requires Inv(s) && |times| == |ticks| && from <= to
    requires forall k | 0 <= k < |ticks| :: TickOk(ticks[k]) && from <= times[k] <= to
    requires forall k | 0 < k < |ticks| :: Follows(ticks, times, k)
    ensures Total(s, ticks).1 as real <= s.depth + s.rate * Seconds(from, to)
  {
    hide Follows, Seconds, Total, Elapsed, Inv, TickOk;
    InSeconds(from, from, to, to);
    Positive(s);
    if ticks == [] {
      NothingSent(s);
      SentWithin(s.rate, s.depth, 0.0, 0.0, Seconds(from, to));
    } else {
      var elapsed := Elapsed(ticks[1..]);
      AfterFirst(s, ticks);
      ElapsedSpan(ticks, times);
      InSeconds(from, times[0], times[|ticks| - 1], to);
      SentWithin(s.rate, s.depth, Total(s, ticks).1 as real, elapsed, Seconds(from, to));
    }
  }

  lemma NothingSent(s: State)
    requires s.emitted >= -1
    ensures Total(s, []).1 == 0
  {
  }

  lemma SentWithin(rate: real, depth: real, sent: real, elapsed: real, span: real)
    requires rate > 0.0 && depth >= 0.0 && elapsed <= span && sent <= depth + rate * elapsed
    ensures sent <= depth + rate * span
  {
    Grows(rate, elapsed, span);
  }

  lemma Positive(s: State)
    requires Inv(s)
    ensures s.rate > 0.0 && s.depth >= 0.0 && s.emitted >= -1
  {
  }

  /** The first tick leaves no more than a full bucket's worth of sending and credit; the rest is refill. */
  lemma AfterFirst(s: State, ticks: seq<Tick>)
    requires Inv(s) && ticks != [] && forall k | 0 <= k < |ticks| :: TickOk(ticks[k])
    ensures Total(s, ticks).1 as real <= s.depth + s.rate * Elapsed(ticks[1..])
  {
    hide TickStep, Total, Elapsed, TickOk, Sorted;
    FirstTick(s, ticks[0]);
    TotalFirst(s, ticks);
    var o := TickStep(s, ticks[0]);
    CreditConserved(o.state, ticks[1..]);
    var (end, later) := Total(o.state, ticks[1..]);
    SumUp(|o.sent|, later, s.depth, o.state.tokens, end.tokens, s.rate * Elapsed(ticks[1..]));
  }

  lemma SumUp(first: nat, later: nat, depth: real, held: real, left: real, refill: real)
    requires held + first as real <= depth && later as real + left <= held + refill && left >= 0.0
    ensures (first + later) as real <= depth + refill
  {
  }

  lemma FirstTick(s: State, t: Tick)
    requires Inv(s) && TickOk(t)
    ensures var o := TickStep(s, t);
            && Inv(o.state) && o.state.rate == s.rate && o.state.depth == s.depth
            && o.state.tokens + |o.sent| as real <= s.depth
  {
    hide TickStep;
    TickKeeps(s, t);
  }

  lemma Grows(r: real, a: real, b: real)
    requires r > 0.0 && a <= b
    ensures r * a <= r * b
  {
    assert r * (b - a) >= 0.0;
    assert r * (b - a) == r * b - r * a;
  }

  lemma {:induction false} ElapsedSpan(ticks: seq<Tick>, times: seq<real>)
    requires |times| == |ticks| > 0 && forall k | 0 < k < |ticks| :: Follows(ticks, times, k)
    ensures Elapsed(ticks[1..]) == Seconds(times[0], times[|times| - 1])
    decreases |ticks|
  {
    var last := |ticks| - 1;
    if last > 0 {
      forall k | 0 < k < last ensures Follows(ticks[..last], times[..last], k) {
        assert Follows(ticks, times, k);
      }
      ElapsedSpan(ticks[..last], times[..last]);
      assert ticks[1..][..last - 1] == ticks[..last][1..];
      assert Follows(ticks, times, last);
    }
  }

  /** The bucket a grant gives: the hub's rate unless it is negligible, its burst when it sent a usable one. */
  function Grant(rate: real, burst: Option<real>): (real, real) {
    var r := if rate > 0.5 then rate else SEGMENT_WISH_HZ;
    (r, if burst.Some? && burst.value >= 1.0 then burst.value else r)
  }

  /** A bucket shallower than one token never sends anything, in any run. */
  lemma {:induction false} ShallowBucketSilent(s: State, ticks: seq<Tick>)
    requires Inv(s) && s.depth < 1.0 && forall k | 0 <= k < |ticks| :: TickOk(ticks[k])
    ensures Total(s, ticks).1 == 0
  {
    hide TickStep;
    if ticks != [] {
      var last := |ticks| - 1;
      ShallowBucketSilent(s, ticks[..last]);
      CreditConserved(s, ticks[..last]);
      OneTickSilent(Total(s, ticks[..last]).0, ticks[last]);
    }
  }

  lemma OneTickSilent(s: State, t: Tick)
    requires Inv(s) && s.depth < 1.0
    ensures TickStep(s, t).sent == []
  {
    if t.pos.Some? && Emits(Begun(s, t)) {
      var s1 := Begun(s, t);
      RefillBounds(s1, t.dtMs);
      WalkUnfunded(ViewOf(s1, t), FirstSpan(s1.script.value.kf, s1.emitted, t.pos.value), Cursor(s1.emitted, Refilled(s1, t.dtMs), []), 0);
    }
  }

  lemma {:induction false} WalkUnfunded(v: View, i: nat, c: Cursor, scanned: nat)
    requires c.tokens < 1.0
    ensures Walk(v, i, c, scanned).sent == c.sent
    decreases |v.script.kf| - i
  {
    if Continues(v, i, c, scanned) {
      WalkUnfunded(v, i + 1, Advance(v, i, c), scanned + 1);
    }
  }

  /** Some run of ticks sends something. */
  ghost predicate CanSend(s: State)
    requires s.emitted >= -1
  {
    exists ticks :: AllOk(ticks) && Total(s, ticks).1 > 0
  }

  predicate AllOk(ticks: seq<Tick>) { forall k | 0 <= k < |ticks| :: TickOk(ticks[k]) }

  /** A script of one span, met at its start. */
  const ONE_SPAN := Tick(0.0, Some(0.0), 1.0, Some(Script([Keyframe(0.0, 0.0), Keyframe(1.0, 0.0)], i => false)), false)

  lemma OneSpanSends(rate: real, depth: real)
    requires rate > 0.0 && depth >= 1.0
    ensures TickStep(Initial(rate, depth), ONE_SPAN).sent != []
  {
    var s, t := Initial(rate, depth), ONE_SPAN;
    var kf := t.loaded.value.kf;
    var s2 := Anchored(Noted(s, 0.0, 0.0), t.loaded);
    var v := View(t.loaded.value, 0.0, Horizon(0.0, 1.0));
    assert SearchBefore(kf[..1], 0.0) == 0;
    assert FirstSpan(kf, -1, 0.0) == 0;
    assert rate * (NonNegative(0.0) / 1000.0) == 0.0;
    assert Refilled(s2, 0.0) == depth;
    var c := Cursor(-1, depth, []);
    assert Continues(v, 0, c, 0) && Live(v, 0);
    assert Walk(v, 0, c, 0) == Walk(v, 1, Advance(v, 0, c), 1) == Advance(v, 0, c);
  }

  /** A fresh bucket can send exactly when it holds at least one token. */
  lemma SendsExactly(rate: real, depth: real)
    requires rate > 0.0 && depth >= 0.0
    ensures CanSend(Initial(rate, depth)) <==> depth >= 1.0
  {
    hide TickStep;
    var s := Initial(rate, depth);
    if depth >= 1.0 {
      OneSpanSends(rate, depth);
      var ticks := [ONE_SPAN];
      assert ticks[..0] == [];
      assert Total(s, ticks).1 == |TickStep(s, ONE_SPAN).sent|;
      assert AllOk(ticks);
    } else {
      forall ticks | AllOk(ticks) ensures Total(s, ticks).1 == 0 {
        ShallowBucketSilent(s, ticks);
      }
    }
  }

  /** Which grants are that shallow: a rate between a half and one per second, without a usable burst. */
  lemma ShallowGrant(rate: real, burst: Option<real>)
    ensures Grant(rate, burst).1 < 1.0 <==> 0.5 < rate < 1.0 && !(burst.Some? && burst.value >= 1.0)
  {
  }

  /**
   A grant never lets anything out exactly when its rate is between a half and one
   per second and it brings no usable burst.
   */
  lemma GrantSendsExactly(rate: real, burst: Option<real>)
    ensures CanSend(Initial(Grant(rate, burst).0, Grant(rate, burst).1)) <==>
              !(0.5 < rate < 1.0 && !(burst.Some? && burst.value >= 1.0))
  {
    hide CanSend;
    SendsExactly(Grant(rate, burst).0, Grant(rate, burst).1);
    ShallowGrant(rate, burst);
  }

  // ---- the wire schedule ------------------------------------------------------------------------

  /** Round to the nearest integer, ties to even. */
  function Round(x: real): (r: int)
    ensures r as real - 0.5 <= x <= r as real + 0.5
  {
    var f := x.Floor;
    var d := x - f as real;
    if d < 0.5 then f else if d > 0.5 then f + 1 else if f % 2 == 0 then f else f + 1
  }

  function ClampInt(x: int, lo: int, hi: int): int { if x < lo then lo else if x > hi then hi else x }

  /** Seconds until the span starts, zero once it has. */
  function Ahead(kf: seq<Keyframe>, i: nat, pos: real, speed: real): real
    requires i + 1 < |kf| && speed > 0.0
  {
    NonNegative((kf[i].pos - pos) / speed)
  }

  /** Seconds the segment is to take: the whole span when it lies ahead, what is left of it otherwise. */
  function Duration(kf: seq<Keyframe>, i: nat, pos: real, speed: real): real
    requires i + 1 < |kf| && speed > 0.0
  {
    if (kf[i].pos - pos) / speed > 0.0 then (kf[i + 1].pos - kf[i].pos) / speed else (kf[i + 1].pos - pos) / speed
  }

  /** Start offset in microseconds and duration in milliseconds, as sent. */
  function Schedule(kf: seq<Keyframe>, i: nat, pos: real, speed: real): (int, int)
    requires i + 1 < |kf| && speed > 0.0
  {
    (ClampInt(Round(Ahead(kf, i, pos, speed) * 1000000.0), 0, 120000),
     ClampInt(Round(Duration(kf, i, pos, speed) * 1000.0), MIN_DURATION_MS, MAX_DURATION_MS))
  }

  lemma QuotientBound(x: real, y: real, b: real)
    requires y > 0.0 && x <= b * y
    ensures x / y <= b
  {
    var q := x / y;
    assert q * y == x;
    if q > b {
      Hermite.PositiveProduct(q - b, y);
    }
  }

  lemma RoundWithin(x: real, lo: int, hi: int)
    requires lo as real <= x <= hi as real
    ensures lo <= Round(x) <= hi
  {
  }

  /** The horizon test already bounds the start offset, so its clamp never changes a value. */
  lemma OffsetNeverClamped(v: View, i: nat, speed: real)
    requires speed > 0.0 && i + 1 < |v.script.kf| && v.horizon == Horizon(v.pos, speed) && Due(v, i)
    ensures 0 <= Round(Ahead(v.script.kf, i, v.pos, speed) * 1000000.0) <= 120000
    ensures Schedule(v.script.kf, i, v.pos, speed).0 == Round(Ahead(v.script.kf, i, v.pos, speed) * 1000000.0)
  {
    hide Round;
    QuotientBound(v.script.kf[i].pos - v.pos, speed, 0.12);
    RoundWithin(Ahead(v.script.kf, i, v.pos, speed) * 1000000.0, 0, 120000);
  }

  lemma QuotientSum(a: real, b: real, y: real)
    requires y > 0.0
    ensures a / y + b / y == (a + b) / y
  {
    assert (a / y) * y == a;
    assert (b / y) * y == b;
    assert (a / y + b / y) * y == a + b;
  }

  /** Start plus duration is when the media reaches the span's end, whether the span has begun or not. */
  lemma StartPlusDuration(kf: seq<Keyframe>, i: nat, pos: real, speed: real)
    requires i + 1 < |kf| && speed > 0.0
    ensures Ahead(kf, i, pos, speed) + Duration(kf, i, pos, speed) == (kf[i + 1].pos - pos) / speed
  {
    QuotientSum(kf[i].pos - pos, kf[i + 1].pos - kf[i].pos, speed);
  }

  /** Seconds until the media reaches the span's start, none once it has. */
  lemma AheadIs(kf: seq<Keyframe>, i: nat, pos: real, speed: real)
    requires i + 1 < |kf| && speed > 0.0
    ensures Ahead(kf, i, pos, speed) == NonNegative(kf[i].pos - pos) / speed
  {
    var x := kf[i].pos - pos;
    QuotientSum(x, -x, speed);
    if x > 0.0 { Hermite.PositiveQuotient(x, speed); } else if x < 0.0 { Hermite.PositiveQuotient(-x, speed); }
  }

  /**
   The schedule is in phase with the media: the offset is within half a microsecond
   of the media's arrival at the span's start, and offset plus duration, in
   milliseconds, within 0.5005 of its arrival at the span's end, unless the
   duration had to be clamped; a clamp up to 10 ms only makes the segment end
   late, a clamp down to 65535 ms only makes it end early.
   */
  predicate InPhase(kf: seq<Keyframe>, i: nat, pos: real, speed: real)
    requires i + 1 < |kf| && speed > 0.0
  {
    var (offUs, durMs) := Schedule(kf, i, pos, speed);
    var want := (kf[i + 1].pos - pos) / speed * 1000.0;
    var have := offUs as real / 1000.0 + durMs as real;
    var r := Round(Duration(kf, i, pos, speed) * 1000.0);
    && -0.5 <= offUs as real - NonNegative(kf[i].pos - pos) / speed * 1000000.0 <= 0.5
    && (10 <= r <= 65535 ==> -0.5005 <= have - want <= 0.5005)
    && (r < 10 ==> have - want >= -0.5005)
    && (r > 65535 ==> have - want <= 0.5005)
  }

  lemma DueInPhase(v: View, i: nat, speed: real)
    requires speed > 0.0 && i + 1 < |v.script.kf| && v.horizon == Horizon(v.pos, speed) && Due(v, i)
    ensures InPhase(v.script.kf, i, v.pos, speed)
  {
    hide Ahead, Duration;
    OffsetNeverClamped(v, i, speed);
    StartPlusDuration(v.script.kf, i, v.pos, speed);
    AheadIs(v.script.kf, i, v.pos, speed);
    hide Round;
  }

  /** Every span any tick sends is in phase, and its start-offset clamp changed nothing. */
  lemma SentInPhase(s: State, t: Tick, k: nat)
    requires Inv(s) && TickOk(t) && k < |TickStep(s, t).sent|
    ensures var o := TickStep(s, t);
            && SentDue(t, o, o.sent[k])
            && InPhase(o.state.script.value.kf, o.sent[k], t.pos.value, t.speed)
            && Schedule(o.state.script.value.kf, o.sent[k], t.pos.value, t.speed).0
                 == Round(Ahead(o.state.script.value.kf, o.sent[k], t.pos.value, t.speed) * 1000000.0)
  {
    hide TickStep, InPhase, Round, Horizon;
    TickKeeps(s, t);
    var o := TickStep(s, t);
    assert SentDue(t, o, o.sent[k]);
    var v := View(o.state.script.value, t.pos.value, Horizon(t.pos.value, t.speed));
    DueInPhase(v, o.sent[k], t.speed);
    OffsetNeverClamped(v, o.sent[k], t.speed);
  }

  /** Asking for a resync by the flag or by a message comes to the same. */
  lemma AskedBegins(s: State, t: Tick)
    requires t.pos.Some? && t.messaged
    ensures Begun(s.(needsResync := true), t) == Begun(s, t)
  {
  }

  // ---- the emitter object -------------------------------------------------------------------------

  class SegmentEmitter {
    var script: Option<Script>
    var emitted: int
    var havePos: bool
    var lastPos: real
    var needsResync: bool
    var frozenMs: real
    var tokens: real
    const rate: real
    const depth: real

    ghost function Abstract(): State
      reads this
    {
      State(script, emitted, havePos, lastPos, needsResync, frozenMs, tokens, rate, depth)
    }

    /** A new session: the bucket is sized by the grant and starts full. */
    constructor (segRate: real, burst: Option<real>)
      ensures Abstract() == Initial(Grant(segRate, burst).0, Grant(segRate, burst).1)
    {
      var (r, d) := Grant(segRate, burst);
      rate, depth, tokens := r, d, d;
      script, emitted, havePos, lastPos, needsResync, frozenMs := None, -1, false, 0.0, true, 0.0;
    }

    /** One tick of the emitter; returns the spans handed to the socket, in order. */
    method SegTick(t: Tick) returns (sent: seq<nat>)
      requires emitted >= -1
      modifies this
      ensures Abstract() == TickStep(old(Abstract()), t).state
      ensures sent == TickStep(old(Abstract()), t).sent
      ensures emitted >= -1
    {
      hide Walk, FirstSpan, Horizon, Refill, Begun;
      sent := [];
      WalkFloor(Abstract(), t);
      if t.pos.Some? && t.messaged { AskedBegins(Abstract(), t); }
      if t.messaged { needsResync := true; }
      if t.pos.None? { return; }
      var emits := TakePlace(t);
      if !emits { return; }
      tokens := Refill(depth, tokens, rate, t.dtMs);
      sent := EmitDue(View(script.value, t.pos.value, Horizon(t.pos.value, t.speed)));
    }

    /** Notes the position and, where needed, finds its place anew; tells whether there is anything to walk. */
    method TakePlace(t: Tick) returns (emits: bool)
      requires t.pos.Some? && (t.messaged ==> needsResync) && emitted >= -1
      modifies this
      ensures emitted >= -1
      ensures var s := Begun(old(Abstract()), t);
              Abstract() == (if Usable(s.script) then s else s.(needsResync := true)) && emits == Emits(s)
    {
      var jump := Observe(t.pos.value, t.dtMs);
      if jump || needsResync {
        needsResync, emitted, script := false, -1, t.loaded;
      }
      if script.None? || |script.value.kf| < 2 {
        needsResync := true;
        return false;
      }
      emits := frozenMs < FROZEN_IDLE_MS;
    }

    /** Notes the position, and tells whether it jumped from the one before. */
    method Observe(axisPos: real, dtMs: real) returns (jump: bool)
      modifies this`frozenMs, this`lastPos, this`havePos
      ensures jump == Jumped(old(Abstract()), axisPos) && Abstract() == Noted(old(Abstract()), axisPos, dtMs)
    {
      jump := !havePos || axisPos - lastPos > SEEK_FORWARD_SEC || lastPos - axisPos > SEEK_BACKWARD_SEC;
      var still := havePos && -0.000000001 <= axisPos - lastPos <= 0.000000001;
      frozenMs := if still then frozenMs + NonNegative(dtMs) else 0.0;
      lastPos, havePos := axisPos, true;
    }

    /** The loop of a tick: walk from the cursor, sending what has come due. */
    method EmitDue(v: View) returns (sent: seq<nat>)
      requires emitted >= -1
      modifies this`emitted, this`tokens
      ensures var c := Walk(v, FirstSpan(v.script.kf, old(emitted), v.pos), Cursor(old(emitted), old(tokens), []), 0);
              emitted == c.emitted && tokens == c.tokens && sent == c.sent
    {
      var i := emitted + 1;
      if emitted < 0 {
        i := SearchBefore(v.script.kf, v.pos);
        if i < 0 { i := 0; }
      }
      ghost var first, c0 := i, Cursor(emitted, tokens, []);
      sent := [];
      var scanned := 0;
      while i + 1 < |v.script.kf| && |sent| < MAX_EMIT_PER_TICK && scanned < MAX_SCAN_PER_TICK
        invariant 0 <= i
        invariant Walk(v, first, c0, 0) == Walk(v, i, Cursor(emitted, tokens, sent), scanned)
      {
        if v.script.kf[i].pos > v.horizon { break; }
        if !v.script.gap(i) && v.script.kf[i + 1].pos > v.pos {
          if tokens < 1.0 { break; }
          tokens := tokens - 1.0;
          sent := sent + [i];
        }
        emitted := i;
        i, scanned := i + 1, scanned + 1;
      }
    }
  }
}
