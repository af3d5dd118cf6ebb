/**
 What a tick of the segment emitter does send: where it takes its place in the
 script, when it stands still, what it owes, and how soon it pays.
 */
module Pacing {
  import opened Wire
  import opened Handoff
  import opened Emitter

  // ---- where the cursor starts ------------------------------------------------------------------

  /**
   A tick takes its place anew exactly when there was no position before, the media
   moved on by more than 0.25 s or back by more than 0.05 s, or it was asked to; and
   then, and only then, it takes up the script loaded. It asks again until there is one.
   */
  lemma AnchorsExactly(s: State, t: Tick)
    requires s.emitted >= -1
    ensures var o := TickStep(s, t);
            && (o.anchored <==> t.pos.Some? && (!s.havePos || t.pos.value - s.lastPos > 0.25 || s.lastPos - t.pos.value > 0.05
                                                || s.needsResync || t.messaged))
            && o.state.script == (if o.anchored then t.loaded else s.script)
            && (t.pos.Some? ==> o.state.havePos && o.state.lastPos == t.pos.value && (o.state.needsResync <==> !Usable(o.state.script)))
            && (t.pos.None? ==> o.state.needsResync == (s.needsResync || t.messaged) && o.sent == [] && o.state.lastPos == s.lastPos)
  {
    hide Walked;
  }

  /** The span the media is in. */
  predicate Within(kf: seq<Keyframe>, i: nat, pos: real) {
    i + 1 < |kf| && kf[i].pos <= pos < kf[i + 1].pos
  }

  lemma SearchFinds(kf: seq<Keyframe>, i: nat, pos: real)
    requires Sorted(kf) && Within(kf, i, pos)
    ensures SearchBefore(kf, pos) == i
  {
  }

  // ---- credit -------------------------------------------------------------------------------------

  /** What a bucket holds after `dtMs`: all that flowed in, up to its depth. */
  function Funds(s: State, dtMs: real): real {
    var full := s.tokens + s.rate * NonNegative(dtMs) / 1000.0;
    if full <= s.depth then full else s.depth
  }

  lemma FundsAre(s: State, dtMs: real)
    ensures Refilled(s, dtMs) == Funds(s, dtMs)
  {
    assert s.rate * (NonNegative(dtMs) / 1000.0) == s.rate * NonNegative(dtMs) / 1000.0;
  }

  /** The tick gets as far as its loop. */
  predicate Runs(s: State, t: Tick)
    requires s.emitted >= -1
  {
    t.pos.Some? && Usable(TickStep(s, t).state.script) && TickStep(s, t).state.frozenMs < 60.0
  }

  /**
   The books balance to the token: a tick that runs its loop holds and sends exactly
   what it held and what flowed in, up to the depth; any other changes nothing.
   */
  lemma CreditExact(s: State, t: Tick)
    requires Inv(s) && TickOk(t)
    ensures var o := TickStep(s, t);
            if Runs(s, t) then o.state.tokens + |o.sent| as real == Funds(s, t.dtMs)
            else o.sent == [] && o.state.tokens == s.tokens
  {
    hide Walked, Horizon, Sorted, Refilled, Funds;
    if t.pos.Some? && Emits(Begun(s, t)) {
      WalkTick(Begun(s, t), t);
      SameBucket(s, t);
    }
  }

  lemma SameBucket(s: State, t: Tick)
    requires t.pos.Some?
    ensures Refilled(Begun(s, t), t.dtMs) == Funds(s, t.dtMs)
  {
    FundsAre(s, t.dtMs);
  }

  // ---- what is owed -------------------------------------------------------------------------------

  /** Span `i` is the first that the loop, starting at `first`, has to send. */
  predicate Next(v: View, first: nat, i: nat) {
    && first <= i < first + 4096 && i + 1 < |v.script.kf| && Due(v, i) && Live(v, i)
    && forall j | first <= j < i :: !Live(v, j)
  }

  lemma {:induction false} WalkExtends(v: View, i: nat, c: Cursor, scanned: nat)
    ensures c.sent <= Walk(v, i, c, scanned).sent
    decreases |v.script.kf| - i
  {
    if Continues(v, i, c, scanned) { WalkExtends(v, i + 1, Advance(v, i, c), scanned + 1); }
  }

  lemma {:induction false} WalkPays(v: View, first: nat, c: Cursor, scanned: nat, i: nat)
    requires Sorted(v.script.kf) && Next(v, first, i) && c.sent == []
    requires scanned + (i - first) < 4096
    ensures var w := Walk(v, first, c, scanned);
            if c.tokens >= 1.0 then w.sent != [] && w.sent[0] == i else w.sent == [] && w.tokens == c.tokens
    decreases i - first
  {
    if first < i {
      assert v.script.kf[first].pos < v.script.kf[i].pos;
      WalkPays(v, first + 1, Advance(v, first, c), scanned + 1, i);
    } else if c.tokens >= 1.0 {
      WalkExtends(v, i + 1, Advance(v, i, c), scanned + 1);
    }
  }

  /** The state and the place from which the loop of a tick starts. */
  function Place(s: State, t: Tick): nat
    requires s.emitted >= -1 && t.pos.Some? && TickStep(s, t).state.script.Some?
  {
    var o := TickStep(s, t);
    FirstSpan(o.state.script.value.kf, if o.anchored then -1 else s.emitted, t.pos.value)
  }

  /** The tick has span `i` to send before any other. */
  predicate Owes(s: State, t: Tick, i: nat)
    requires s.emitted >= -1
  {
    Runs(s, t) && Next(ViewOf(TickStep(s, t).state, t), Place(s, t), i)
  }

  /** With a token the span owed is the first one sent; without, nothing is. */
  lemma OwedIsPaid(s: State, t: Tick, i: nat)
    requires Inv(s) && TickOk(t) && Owes(s, t, i)
    ensures var o := TickStep(s, t);
            if Funds(s, t.dtMs) >= 1.0 then o.sent != [] && o.sent[0] == i else o.sent == [] && o.state.tokens == Funds(s, t.dtMs)
  {
    hide Walk, Horizon, Refilled, FirstSpan, Next, Funds;
    var s1 := Begun(s, t);
    SameBucket(s, t);
    NextInScan(ViewOf(s1, t), Place(s, t), i);
    WalkPays(ViewOf(s1, t), Place(s, t), Cursor(s1.emitted, Refilled(s1, t.dtMs), []), 0, i);
  }

  lemma NextInScan(v: View, first: nat, i: nat)
    requires Next(v, first, i)
    ensures first <= i < first + 4096
  {
  }

  /**
   Wherever the media jumps to, the span it lands in goes out at once, if it is no
   gap, the media has not stood still and the bucket holds a token.
   */
  lemma JumpSendsHere(s: State, t: Tick, i: nat)
    requires Inv(s) && TickOk(t) && TickStep(s, t).anchored && Runs(s, t) && Funds(s, t.dtMs) >= 1.0
    requires var script := TickStep(s, t).state.script.value; Within(script.kf, i, t.pos.value) && !script.gap(i)
    ensures var o := TickStep(s, t); o.sent != [] && o.sent[0] == i
  {
    hide Walked, Funds;
    var script := TickStep(s, t).state.script.value;
    SearchFinds(script.kf, i, t.pos.value);
    PositiveLookahead(t.pos.value, t.speed);
    OwedIsPaid(s, t, i);
  }

  lemma PositiveLookahead(pos: real, speed: real)
    requires speed > 0.0
    ensures pos < Horizon(pos, speed)
  {
  }

  // ---- how soon it is paid ----------------------------------------------------------------------------

  /** Tick after tick, until one sends it, the emitter owes span `i`. */
  ghost predicate Owing(s: State, ticks: seq<Tick>, i: nat)
    requires s.emitted >= -1
    decreases |ticks|
  {
    ticks == [] || (
      && TickOk(ticks[0]) && Owes(s, ticks[0], i)
      && (i in TickStep(s, ticks[0]).sent
          || (TickStep(s, ticks[0]).state.emitted >= -1 && Owing(TickStep(s, ticks[0]).state, ticks[1..], i)))
    )
  }

  ghost predicate SentBy(s: State, ticks: seq<Tick>, i: nat)
    requires s.emitted >= -1
    decreases |ticks|
  {
    ticks != [] && (
      i in TickStep(s, ticks[0]).sent
      || (TickStep(s, ticks[0]).state.emitted >= -1 && SentBy(TickStep(s, ticks[0]).state, ticks[1..], i)))
  }

  lemma {:induction false} ElapsedFirst(ticks: seq<Tick>)
    requires ticks != []
    ensures Elapsed(ticks) == NonNegative(ticks[0].dtMs) / 1000.0 + Elapsed(ticks[1..])
  {
    var last := |ticks| - 1;
    if last > 0 {
      ElapsedFirst(ticks[..last]);
      assert ticks[..last][1..] == ticks[1..][..last - 1];
    }
  }

  /**
   A span owed is sent once what the bucket held and what has flowed in since make a
   token, however the ticks are spaced: from an empty bucket, within 1 / rate seconds.
   */
  lemma {:induction false} PaidInTime(s: State, ticks: seq<Tick>, i: nat)
    requires Inv(s) && s.depth >= 1.0 && ticks != [] && Owing(s, ticks, i)
    requires s.tokens + s.rate * Elapsed(ticks) >= 1.0
    ensures SentBy(s, ticks, i)
    decreases |ticks|
  {
    hide TickStep, Owes, Funds, Elapsed;
    var t, rest := ticks[0], ticks[1..];
    var o := TickStep(s, t);
    if i !in o.sent {
      OwedIsPaid(s, t, i);
      TickKeeps(s, t);
      ElapsedFirst(ticks);
      Distribute(s.rate, NonNegative(t.dtMs) / 1000.0, Elapsed(rest));
      NotFull(s, t.dtMs);
      if rest == [] {
        NoTime();
      } else {
        PaidInTime(o.state, rest, i);
      }
    }
  }

  lemma NoTime()
    ensures Elapsed([]) == 0.0
  {
  }

  lemma NotFull(s: State, dtMs: real)
    ensures Funds(s, dtMs) < 1.0 <= s.depth ==> Funds(s, dtMs) == s.tokens + s.rate * (NonNegative(dtMs) / 1000.0)
  {
    assert s.rate * (NonNegative(dtMs) / 1000.0) == s.rate * NonNegative(dtMs) / 1000.0;
  }

  // ---- exactly what is sent ------------------------------------------------------------------------------

  /** The tick ran its loop and no limit stopped it. */
  predicate Unhindered(s: State, t: Tick)
    requires s.emitted >= -1
  {
    var o := TickStep(s, t);
    Runs(s, t) && |o.sent| < 4 && o.state.tokens >= 1.0 && o.state.emitted + 1 < Place(s, t) + 4096
  }

  /**
   An unhindered tick sends exactly the spans from its place on that are no gap, end
   after the media position and start within the next 120 ms of playback.
   */
  lemma SendsExactlyDue(s: State, t: Tick, i: nat)
    requires Inv(s) && TickOk(t) && Unhindered(s, t)
    ensures var o := TickStep(s, t);
            var script, pos := o.state.script.value, t.pos.value;
            i in o.sent <==>
              && Place(s, t) <= i && i + 1 < |script.kf| && !script.gap(i)
              && pos < script.kf[i + 1].pos && script.kf[i].pos <= pos + 0.12 * t.speed
  {
    hide Walk, FirstSpan, Refilled;
    var s1 := Begun(s, t);
    var v, first := ViewOf(s1, t), Place(s, t);
    RefillBounds(s1, t.dtMs);
    var c0 := Cursor(s1.emitted, Refilled(s1, t.dtMs), []);
    StartsWalk(v, first, s1.emitted, c0);
    var end := WalkFair(v, first, first, c0, 0, c0.tokens);
    if first <= i && i + 1 < |v.script.kf| && Due(v, i) {
      WalkCatchesUp(v, first, c0, i, c0.tokens);
    }
  }

  lemma StartsWalk(v: View, first: nat, emitted: int, c0: Cursor)
    requires emitted >= -1 && first == FirstSpan(v.script.kf, emitted, v.pos) && c0 == Cursor(emitted, c0.tokens, []) && c0.tokens >= 0.0
    ensures WalkInvariant(v, first, first, c0, c0.tokens)
  {
  }

  // ---- standing still ----------------------------------------------------------------------------------------

  /** The media has moved since the last tick, by more than the tolerance. */
  predicate Moved(s: State, t: Tick)
    requires t.pos.Some?
  {
    !s.havePos || t.pos.value - s.lastPos > 0.000000001 || s.lastPos - t.pos.value > 0.000000001
  }

  lemma FrozenExactly(s: State, t: Tick)
    requires s.emitted >= -1 && t.pos.Some?
    ensures TickStep(s, t).state.frozenMs == if Moved(s, t) then 0.0 else s.frozenMs + NonNegative(t.dtMs)
  {
    hide Walked;
  }

  predicate StandsAt(ticks: seq<Tick>, pos: real) { forall k | 0 <= k < |ticks| :: TickOk(ticks[k]) && ticks[k].pos == Some(pos) }

  /** Over ticks that all find the media in one place the time adds up. */
  lemma {:induction false} StillAddsUp(s: State, ticks: seq<Tick>, pos: real)
    requires Inv(s) && StandsAt(ticks, pos) && s.havePos && s.lastPos == pos
    ensures var s' := Total(s, ticks).0;
            s'.havePos && s'.lastPos == pos && s'.frozenMs == s.frozenMs + 1000.0 * Elapsed(ticks) && Inv(s')
  {
    hide TickStep;
    if ticks != [] {
      var last := |ticks| - 1;
      StillAddsUp(s, ticks[..last], pos);
      var s1 := Total(s, ticks[..last]).0;
      AnchorsExactly(s1, ticks[last]);
      FrozenExactly(s1, ticks[last]);
      TickKeeps(s1, ticks[last]);
    }
  }

  /**
   Once the media has stood still for 60 ms nothing is sent until it moves; until
   then, and once it has moved, no tick is held back.
   */
  lemma PausedExactly(s: State, ticks: seq<Tick>, pos: real, t: Tick)
    requires Inv(s) && StandsAt(ticks, pos) && TickOk(t) && s.havePos && s.lastPos == pos && t.pos.Some?
    ensures var s' := Total(s, ticks).0;
            var o := TickStep(s', t);
            && (!Moved(s', t) && s.frozenMs + 1000.0 * Elapsed(ticks) + NonNegative(t.dtMs) >= 60.0 ==> o.sent == [])
            && (Moved(s', t) && Usable(o.state.script) ==> Runs(s', t))
            && (s.frozenMs + 1000.0 * Elapsed(ticks) + NonNegative(t.dtMs) < 60.0 && Usable(o.state.script) ==> Runs(s', t))
  {
    hide TickStep, Elapsed, Total;
    StillAddsUp(s, ticks, pos);
    var s' := Total(s, ticks).0;
    FrozenExactly(s', t);
    CreditExact(s', t);
  }

  // ---- the grant ------------------------------------------------------------------------------------------------

  /** Whatever the ticks, a session sends no more than the hub granted: burst + rate * time between any two instants. */
  lemma GrantKept(rate: real, burst: real, ticks: seq<Tick>, times: seq<real>, from: real, to: real)
    requires rate > 0.5 && burst >= 1.0 && |times| == |ticks| && from <= to
    requires forall k | 0 <= k < |ticks| :: TickOk(ticks[k]) && from <= times[k] <= to
    requires forall k | 0 < k < |ticks| :: Follows(ticks, times, k)
    ensures var (r, d) := Grant(rate, Some(burst)); Total(Initial(r, d), ticks).1 as real <= burst + rate * Seconds(from, to)
    ensures var (r, d) := Grant(rate, None); Total(Initial(r, d), ticks).1 as real <= rate + rate * Seconds(from, to)
  {
    hide Total, Seconds;
    TokenWindow(Initial(rate, burst), ticks, times, from, to);
    TokenWindow(Initial(rate, rate), ticks, times, from, to);
  }

  /**
   And it uses what was granted: at any point of any session whose bucket can hold a
   token, a span owed is sent within 1 / rate seconds of the granted rate, which is
   20 per second where the grant was negligible.
   */
  lemma GrantPaid(rate: real, burst: Option<real>, before: seq<Tick>, ticks: seq<Tick>, i: nat)
    requires !(0.5 < rate < 1.0) || (burst.Some? && burst.value >= 1.0)
    requires AllOk(before) && ticks != []
    requires (if rate > 0.5 then rate else 20.0) * Elapsed(ticks) >= 1.0
    ensures var (r, d) := Grant(rate, burst);
            var s := Total(Initial(r, d), before).0;
            Owing(s, ticks, i) ==> SentBy(s, ticks, i)
  {
    hide Total, Elapsed, Owing, SentBy;
    var (r, d) := Grant(rate, burst);
    CreditConserved(Initial(r, d), before);
    var s := Total(Initial(r, d), before).0;
    if Owing(s, ticks, i) { PaidInTime(s, ticks, i); }
  }
}
