/**
 The clock exchange of clients/js/session.js, with the offset and delay formulas
 of section 8 of RFC 5905, over counters of 32-bit microseconds that wrap.
 */
module Clock {

  const SPAN: int := 0x1_0000_0000
  const HALF: int := 0x8000_0000

  /** A time as the 32-bit counters show it. */
  function Wrap(t: int): (r: int)
    ensures 0 <= r < SPAN
  {
    t % SPAN
  }

  /** The signed difference of two counter readings, in the window around zero. */
  function WrapDiff(a: int, b: int): (d: int)
    ensures -HALF <= d < HALF
  {
    var d := Wrap(a - b);
    if d >= HALF then d - SPAN else d
  }

  datatype Estimate = Estimate(offset: int, rtt: int)

  /** The client's estimate from its own send and receive readings and the hub's. */
  function Estimated(t0: int, t1: int, t2: int, t3: int): Estimate {
    Estimate((WrapDiff(t1, t0) + WrapDiff(t2, t3)) / 2, WrapDiff(t3, t0) - WrapDiff(t2, t1))
  }

  /** `hubNowUs`. */
  function HubNow(clientReading: int, offset: int): int { Wrap(clientReading + offset) }

  // ---- the two clocks ------------------------------------------------------------------

  /** Two times that the counters cannot tell apart. */
  ghost predicate Same(a: int, b: int) { exists k: int :: a == b + Turns(k) }

  function Turns(k: int): int { k * SPAN }

  lemma {:induction false} TurnsInRange(k: int, lo: int, hi: int)
    requires 0 <= lo < SPAN && 0 <= hi < SPAN && lo == hi + Turns(k)
    ensures k == 0
  {
  }

  /** A reading is decided by the time modulo a turn, and decides it. */
  lemma SameIffWrap(a: int, b: int)
    ensures Same(a, b) <==> Wrap(a) == Wrap(b)
  {
    assert a == Wrap(a) + Turns(a / SPAN) && b == Wrap(b) + Turns(b / SPAN);
    if Same(a, b) {
      var k :| a == b + Turns(k);
      TurnsInRange(b / SPAN - a / SPAN + k, Wrap(a), Wrap(b));
    }
    if Wrap(a) == Wrap(b) {
      assert a == b + Turns(a / SPAN - b / SPAN);
    }
  }

  /** The windowed difference of two readings is the one representative of the true difference in the window. */
  lemma WrapDiffIs(x: int, y: int, d: int)
    requires -HALF <= d < HALF && Same(x - y, d)
    ensures WrapDiff(Wrap(x), Wrap(y)) == d
  {
    var k :| x - y == d + Turns(k);
    assert Wrap(x) - Wrap(y) == d + Turns(k - x / SPAN + y / SPAN);
    assert Same(Wrap(x) - Wrap(y), d);
    SameIffWrap(Wrap(x) - Wrap(y), d);
    SmallWrap(d);
  }

  lemma SmallWrap(d: int)
    requires -HALF <= d < HALF
    ensures Wrap(d) == if d >= 0 then d else d + SPAN
  {
  }

  // ---- one exchange -----------------------------------------------------------------------

  /**
   An exchange: sent at client time `sent`, `out` to the hub, held there for
   `held`, `back` to the client. The hub's clock is `theta` ahead of the client's.
   */
  datatype Exchange = Exchange(sent: int, out: nat, held: nat, back: nat, theta: int)

  function Reply(x: Exchange): Estimate {
    Estimated(Wrap(x.sent), Wrap(x.sent + x.out + x.theta), Wrap(x.sent + x.out + x.held + x.theta),
              Wrap(x.sent + x.out + x.held + x.back))
  }

  /** The exchange ends before the client's own counter is ambiguous. */
  predicate Timely(x: Exchange) { x.out + x.held + x.back < HALF }

  /** The offset as the window shows it. */
  function Windowed(theta: int): (w: int)
    ensures -HALF <= w < HALF
  {
    WrapDiff(theta, 0)
  }

  /** The offset lies at least the one-way delays inside the window. */
  predicate InWindow(x: Exchange) {
    Windowed(x.theta) + x.out < HALF && Windowed(x.theta) - x.back >= -HALF
  }

  /** Twice the error is at most the round trip and one: for some offset the counters cannot tell from the true one. */
  ghost predicate Accurate(x: Exchange, e: Estimate) {
    exists o: int :: Same(o, x.theta) && Near(o, e)
  }

  predicate Near(o: int, e: Estimate) { -(e.rtt + 1) <= 2 * (e.offset - o) <= e.rtt + 1 }

  lemma WindowedSame(theta: int)
    ensures Same(theta, Windowed(theta)) && Same(Windowed(theta), theta)
  {
    var w := Windowed(theta);
    assert theta == Wrap(theta) + Turns(theta / SPAN);
    assert Wrap(theta) == w + Turns(0) || Wrap(theta) == w + Turns(1);
    assert theta == w + Turns(theta / SPAN) || theta == w + Turns(theta / SPAN + 1);
    assert w == theta + Turns(-(theta / SPAN)) || w == theta + Turns(-(theta / SPAN) - 1);
  }

  /** The round trip is exact whatever the offset. */
  lemma RttExact(x: Exchange)
    requires Timely(x)
    ensures Reply(x).rtt == x.out + x.back
  {
    var t3 := x.sent + x.out + x.held + x.back;
    assert t3 - x.sent == (x.out + x.held + x.back) + Turns(0);
    WrapDiffIs(t3, x.sent, x.out + x.held + x.back);
    var t1, t2 := x.sent + x.out + x.theta, x.sent + x.out + x.held + x.theta;
    assert t2 - t1 == x.held + Turns(0);
    WrapDiffIs(t2, t1, x.held);
  }

  /** The sum of the two one-way differences, as the windows show them. */
  lemma OneWays(x: Exchange)
    requires Timely(x)
    ensures var w := Windowed(x.theta);
            var there := if w + x.out < HALF then w + x.out else w + x.out - SPAN;
            var back := if w - x.back >= -HALF then w - x.back else w - x.back + SPAN;
            Reply(x).offset == (there + back) / 2
  {
    hide WrapDiff, Wrap;
    var w := Windowed(x.theta);
    WindowedSame(x.theta);
    var k :| x.theta == w + Turns(k);
    var there := if w + x.out < HALF then w + x.out else w + x.out - SPAN;
    var back := if w - x.back >= -HALF then w - x.back else w - x.back + SPAN;
    var t1, t2, t3 := x.sent + x.out + x.theta, x.sent + x.out + x.held + x.theta, x.sent + x.out + x.held + x.back;
    assert t1 - x.sent == there + Turns(k) || t1 - x.sent == there + Turns(k + 1);
    WrapDiffIs(t1, x.sent, there);
    assert t2 - t3 == back + Turns(k) || t2 - t3 == back + Turns(k - 1);
    WrapDiffIs(t2, t3, back);
  }

  /** Inside the window the error is the halved asymmetry of the delays. */
  lemma OffsetInWindow(x: Exchange)
    requires Timely(x) && InWindow(x)
    ensures Accurate(x, Reply(x)) && Near(Windowed(x.theta), Reply(x))
  {
    OneWays(x);
    RttExact(x);
    WindowedSame(x.theta);
  }

  /** Outside it the estimate is wrong by half a turn, more than any round trip accounts for. */
  lemma OffsetOutside(x: Exchange, o: int)
    requires Timely(x) && !InWindow(x) && x.back < HALF - 1 && Same(o, x.theta)
    ensures !Near(o, Reply(x))
  {
    hide WrapDiff, Wrap;
    OneWays(x);
    RttExact(x);
    WindowedSame(x.theta);
    var w := Windowed(x.theta);
    var k :| o == x.theta + Turns(k);
    var j :| x.theta == w + Turns(j);
    assert o == w + Turns(k + j);
    FarFromAllTurns(w, Reply(x).offset, x.out, x.back, k + j);
  }

  lemma FarFromAllTurns(w: int, offset: int, out: nat, back: nat, k: int)
    requires out + back < HALF && back < HALF - 1
    requires offset == (2 * w + out - back - SPAN) / 2 || offset == (2 * w + out - back + SPAN) / 2
    ensures var e := 2 * (offset - (w + Turns(k))); e < -(out + back + 1) || e > out + back + 1
  {
    if k >= 1 { assert Turns(k) >= SPAN; }
    if k <= -1 { assert Turns(k) <= -SPAN; }
  }

  /** One exchange outside the window passes all the same: its error is exactly the round trip and one. */
  lemma EdgeIsAccurate(x: Exchange)
    requires Timely(x) && !InWindow(x) && x.back == HALF - 1
    ensures Accurate(x, Reply(x))
  {
    hide WrapDiff, Wrap, Turns;
    OneWays(x);
    RttExact(x);
    WindowedSame(x.theta);
    assert Near(Windowed(x.theta), Reply(x));
  }

  /**
   Twice the error of the estimate is at most the round trip and one exactly when
   the offset is inside the window, or the reply alone took 2^31 - 1 microseconds.
   */
  lemma AccurateExactly(x: Exchange)
    requires Timely(x)
    ensures Accurate(x, Reply(x)) <==> InWindow(x) || x.back == HALF - 1
  {
    if InWindow(x) {
      OffsetInWindow(x);
    } else if x.back == HALF - 1 {
      EdgeIsAccurate(x);
    } else if Accurate(x, Reply(x)) {
      var o :| Same(o, x.theta) && Near(o, Reply(x));
      OffsetOutside(x, o);
    }
  }

  /** At any later moment, across any number of wraps, the hub time shown is that close to the hub's own reading. */
  lemma HubNowClose(x: Exchange, now: int)
    requires Timely(x) && InWindow(x)
    ensures var shown, hub := HubNow(Wrap(now), Reply(x).offset), Wrap(now + x.theta);
            -(x.out + x.back + 1) <= 2 * WrapDiff(shown, hub) <= x.out + x.back + 1
  {
    hide WrapDiff;
    OffsetInWindow(x);
    RttExact(x);
    var w, offset := Windowed(x.theta), Reply(x).offset;
    WindowedSame(x.theta);
    var k :| x.theta == w + Turns(k);
    var d := offset - w;
    assert now == Wrap(now) + Turns(now / SPAN);
    assert (Wrap(now) + offset) - (now + x.theta) == d + Turns(-(now / SPAN) - k);
    WrapDiffIs(Wrap(now) + offset, now + x.theta, d);
  }
}
