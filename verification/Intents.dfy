/**
 The ledger of intents a session is waiting on (clients/js/session.js): a
 pending map keyed by a 16-bit id, and one timer per intent issued. A ticket
 numbers the promise an intent was issued with; ids repeat, tickets do not.
 */
module Intents {
  import opened Wire

  const ID_SPACE: nat := 65535

  datatype Pending = Pending(id: nat, channel: nat, ticket: nat)

  /** `pending` lists the map's entries in insertion order; `armed` holds the timers still running. */
  datatype Ledger = Ledger(intentSeq: nat, drawn: nat, pending: seq<Pending>, armed: set<nat>)

  const FRESH := Ledger(0, 0, [], {})

  datatype How = Echoed | Nacked | TimedOut | NotSent | SocketClosed

  datatype Settlement = Settlement(ticket: nat, how: How)

  /** The id a ticket was issued under. */
  function IdOf(ticket: nat): (id: nat)
    ensures 1 <= id <= ID_SPACE
  {
    ticket % ID_SPACE + 1
  }

  // ---- the pending map ----------------------------------------------------------------

  function Find(pending: seq<Pending>, id: nat): Option<Pending> {
    if pending == [] then None
    else if pending[0].id == id then Some(pending[0])
    else Find(pending[1..], id)
  }

  /** `Map.set`: an existing key keeps its place. */
  function Put(pending: seq<Pending>, p: Pending): seq<Pending> {
    if pending == [] then [p]
    else if pending[0].id == p.id then [p] + pending[1..]
    else [pending[0]] + Put(pending[1..], p)
  }

  /** `Map.delete`. */
  function Without(pending: seq<Pending>, id: nat): seq<Pending> {
    if pending == [] then []
    else if pending[0].id == id then pending[1..]
    else [pending[0]] + Without(pending[1..], id)
  }

  /** The oldest pending intent on a channel. */
  function OldestOn(pending: seq<Pending>, channel: nat): Option<nat> {
    if pending == [] then None
    else if pending[0].channel == channel then Some(pending[0].id)
    else OldestOn(pending[1..], channel)
  }

  /** Which pending intent a NACK refuses: the id it names, else the header seq it names, else the oldest on its channel. */
  function NackTarget(pending: seq<Pending>, channel: nat, named: Option<nat>, seqNo: Option<nat>): Option<nat> {
    if named.Some? && Find(pending, named.value).Some? then named
    else if seqNo.Some? && Find(pending, seqNo.value).Some? then seqNo
    else OldestOn(pending, channel)
  }

  // ---- one step ---------------------------------------------------------------------------

  /** What can happen to the ledger. `Issue` draws an id; it registers only if the value map encodes. */
  datatype Step =
    | Issue(channel: nat, encodes: bool, open: bool)
    | Echo(id: nat)
    | Nack(channel: nat, named: Option<nat>, seqNo: Option<nat>)
    | TimerFires(ticket: nat)
    | Close

  datatype Effect = Effect(ledger: Ledger, registered: seq<nat>, settled: seq<Settlement>)

  function NextId(l: Ledger): nat { l.intentSeq % ID_SPACE + 1 }

  function SettleId(l: Ledger, id: nat, how: How): Effect {
    match Find(l.pending, id)
    case None => Effect(l, [], [])
    case Some(p) =>
      Effect(l.(pending := Without(l.pending, id), armed := l.armed - {p.ticket}), [], [Settlement(p.ticket, how)])
  }

  function AllClosed(pending: seq<Pending>): (r: seq<Settlement>)
    ensures |r| == |pending|
    ensures forall k | 0 <= k < |r| :: r[k] == Settlement(pending[k].ticket, SocketClosed)
  {
    seq(|pending|, k requires 0 <= k < |pending| => Settlement(pending[k].ticket, SocketClosed))
  }

  function Tickets(pending: seq<Pending>): set<nat> {
    set p | p in pending :: p.ticket
  }

  function Take(l: Ledger, step: Step): Effect {
    match step
    case Issue(channel, encodes, open) =>
      var id, ticket := NextId(l), l.drawn;
      var l' := l.(intentSeq := id, drawn := ticket + 1);
      if !encodes then Effect(l', [], [])
      else if open then Effect(l'.(pending := Put(l.pending, Pending(id, channel, ticket)), armed := l.armed + {ticket}), [ticket], [])
      else Effect(l'.(pending := Without(Put(l.pending, Pending(id, channel, ticket)), id)), [ticket], [Settlement(ticket, NotSent)])
    case Echo(id) => SettleId(l, id, Echoed)
    case Nack(channel, named, seqNo) =>
      var target := NackTarget(l.pending, channel, named, seqNo);
      if target.Some? then SettleId(l, target.value, Nacked) else Effect(l, [], [])
    case TimerFires(ticket) =>
      if ticket in l.armed then
        Effect(l.(pending := Without(l.pending, IdOf(ticket)), armed := l.armed - {ticket}), [], [Settlement(ticket, TimedOut)])
      else Effect(l, [], [])
    case Close =>
      Effect(l.(pending := [], armed := l.armed - Tickets(l.pending)), [], AllClosed(l.pending))
  }

  /** Every pending intent has its timer running and stands under its own id; no id stands twice. */
  ghost predicate Inv(l: Ledger) {
    && l.intentSeq == (if l.drawn == 0 then 0 else IdOf(l.drawn - 1))
    && (forall t | t in l.armed :: t < l.drawn)
    && (forall k | 0 <= k < |l.pending| :: l.pending[k].ticket in l.armed && l.pending[k].id == IdOf(l.pending[k].ticket))
    && Distinct(l.pending)
  }

  ghost predicate Distinct(pending: seq<Pending>) {
    forall j, k | 0 <= j < k < |pending| :: pending[j].id != pending[k].id
  }

  lemma NextIdIs(l: Ledger)
    requires Inv(l)
    ensures NextId(l) == IdOf(l.drawn)
  {
    if l.drawn > 0 {
      ModStep(l.drawn - 1);
    }
  }

  lemma ModStep(n: nat)
    ensures (n % ID_SPACE + 1) % ID_SPACE == (n + 1) % ID_SPACE
  {
  }

  // ---- facts about the map ------------------------------------------------------------------

  lemma {:induction false} FindFacts(pending: seq<Pending>, id: nat)
    ensures Find(pending, id).Some? ==> Find(pending, id).value in pending && Find(pending, id).value.id == id
    ensures Find(pending, id).None? ==> forall p | p in pending :: p.id != id
  {
    if pending != [] && pending[0].id != id {
      FindFacts(pending[1..], id);
    }
  }

  lemma {:induction false} WithoutFacts(pending: seq<Pending>, id: nat)
    requires Distinct(pending)
    ensures Distinct(Without(pending, id))
    ensures forall p :: p in Without(pending, id) <==> p in pending && p.id != id
  {
    if pending != [] {
      if pending[0].id == id {
        assert forall p | p in pending[1..] :: p.id != id;
        assert forall p | p in pending :: p == pending[0] || p in pending[1..];
      } else {
        WithoutFacts(pending[1..], id);
        var r := Without(pending[1..], id);
        forall k | 0 <= k < |r| ensures r[k].id != pending[0].id {
          assert r[k] in r;
        }
      }
    }
  }

  lemma {:induction false} PutFacts(pending: seq<Pending>, q: Pending)
    requires Distinct(pending)
    ensures Distinct(Put(pending, q))
    ensures forall p :: p in Put(pending, q) <==> p == q || (p in pending && p.id != q.id)
  {
    if pending != [] {
      if pending[0].id == q.id {
        assert forall p | p in pending[1..] :: p.id != q.id;
        assert forall p | p in pending :: p == pending[0] || p in pending[1..];
      } else {
        PutFacts(pending[1..], q);
        var r := Put(pending[1..], q);
        forall k | 0 <= k < |r| ensures r[k].id != pending[0].id {
          assert r[k] in r;
        }
      }
    }
  }

  lemma {:induction false} PutFinds(pending: seq<Pending>, q: Pending)
    ensures Find(Put(pending, q), q.id) == Some(q)
  {
    if pending != [] && pending[0].id != q.id {
      PutFinds(pending[1..], q);
      assert Put(pending, q)[1..] == Put(pending[1..], q);
    }
  }

  // ---- what every step keeps ------------------------------------------------------------------

  function SettledTickets(settled: seq<Settlement>): set<nat> {
    set s | s in settled :: s.ticket
  }

  ghost predicate DistinctTickets(settled: seq<Settlement>) {
    forall j, k | 0 <= j < k < |settled| :: settled[j].ticket != settled[k].ticket
  }

  /** Timers run for exactly what was registered and is not settled; a step settles nothing twice. */
  ghost predicate Balanced(l: Ledger, e: Effect) {
    && Inv(e.ledger)
    && e.registered == (if e.ledger.drawn > l.drawn && e.registered != [] then [l.drawn] else [])
    && l.drawn <= e.ledger.drawn
    && DistinctTickets(e.settled)
    && (forall k | 0 <= k < |e.settled| :: e.settled[k].ticket in l.armed || e.settled[k].ticket in e.registered)
    && (forall t :: t in e.ledger.armed <==> (t in l.armed || t in e.registered) && t !in SettledTickets(e.settled))
    && |e.ledger.armed| + |e.settled| == |l.armed| + |e.registered|
  }

  lemma SettleBalanced(l: Ledger, id: nat, how: How)
    requires Inv(l)
    ensures Balanced(l, SettleId(l, id, how))
  {
    FindFacts(l.pending, id);
    if Find(l.pending, id).Some? {
      var p := Find(l.pending, id).value;
      WithoutFacts(l.pending, id);
      var r := Without(l.pending, id);
      forall k | 0 <= k < |r| ensures r[k].ticket in l.armed - {p.ticket} && r[k].id == IdOf(r[k].ticket) {
        assert r[k] in r;
      }
      assert l.armed == (l.armed - {p.ticket}) + {p.ticket};
    }
  }

  /** The pending map after issuing `q`, whether or not the frame left. */
  lemma IssueEntries(l: Ledger, q: Pending, open: bool)
    requires Inv(l) && q.id == IdOf(q.ticket)
    ensures var r := if open then Put(l.pending, q) else Without(Put(l.pending, q), q.id);
            && Distinct(r)
            && (forall k | 0 <= k < |r| ::
                  r[k].id == IdOf(r[k].ticket) && (r[k].ticket in l.armed || (open && r[k].ticket == q.ticket)))
  {
    hide IdOf;
    PutFacts(l.pending, q);
    WithoutFacts(Put(l.pending, q), q.id);
    var r := if open then Put(l.pending, q) else Without(Put(l.pending, q), q.id);
    forall k | 0 <= k < |r|
      ensures r[k].id == IdOf(r[k].ticket) && (r[k].ticket in l.armed || (open && r[k].ticket == q.ticket))
    {
      assert r[k] in r;
    }
  }

  lemma IssueBalanced(l: Ledger, channel: nat, encodes: bool, open: bool)
    requires Inv(l)
    ensures Balanced(l, Take(l, Issue(channel, encodes, open)))
  {
    hide Put, Without, Find, Distinct, IdOf;
    NextIdIs(l);
    IssueEntries(l, Pending(NextId(l), channel, l.drawn), open);
    assert l.drawn !in l.armed;
  }

  lemma TimerBalanced(l: Ledger, ticket: nat)
    requires Inv(l)
    ensures Balanced(l, Take(l, TimerFires(ticket)))
  {
    WithoutFacts(l.pending, IdOf(ticket));
    var r := Without(l.pending, IdOf(ticket));
    forall k | 0 <= k < |r| ensures r[k].ticket in l.armed && r[k].ticket != ticket && r[k].id == IdOf(r[k].ticket) {
      assert r[k] in r;
    }
    if ticket in l.armed {
      assert l.armed == (l.armed - {ticket}) + {ticket};
    }
  }

  lemma {:induction false} TicketsCount(pending: seq<Pending>)
    requires forall j, k | 0 <= j < k < |pending| :: pending[j].ticket != pending[k].ticket
    ensures |Tickets(pending)| == |pending|
  {
    if pending != [] {
      var last := |pending| - 1;
      TicketsCount(pending[..last]);
      assert Tickets(pending) == Tickets(pending[..last]) + {pending[last].ticket};
      assert pending[last].ticket !in Tickets(pending[..last]);
    }
  }

  lemma CloseBalanced(l: Ledger)
    requires Inv(l)
    ensures Balanced(l, Take(l, Close))
  {
    hide Find, Put, Without, IdOf, OldestOn, NackTarget, Tickets, SettledTickets, AllClosed, DistinctTickets;
    ClosedTickets(l.pending);
    CloseCounts(l);
  }

  lemma ClosedTickets(pending: seq<Pending>)
    ensures SettledTickets(AllClosed(pending)) == Tickets(pending)
  {
    var settled := AllClosed(pending);
    forall t ensures t in SettledTickets(settled) <==> t in Tickets(pending) {
      if t in Tickets(pending) {
        var k :| 0 <= k < |pending| && pending[k].ticket == t;
        assert settled[k] in settled;
      }
    }
  }

  lemma CloseCounts(l: Ledger)
    requires Inv(l)
    ensures DistinctTickets(AllClosed(l.pending))
    ensures Tickets(l.pending) <= l.armed && |l.armed - Tickets(l.pending)| + |l.pending| == |l.armed|
    ensures forall k | 0 <= k < |l.pending| :: l.pending[k].ticket in l.armed
  {
    hide Find, Put, Without;
    TicketsCount(l.pending);
    var gone := Tickets(l.pending);
    assert l.armed == (l.armed - gone) + gone;
  }

  lemma TakeBalanced(l: Ledger, step: Step)
    requires Inv(l)
    ensures Balanced(l, Take(l, step))
  {
    hide Balanced;
    match step
    case Issue(channel, encodes, open) => IssueBalanced(l, channel, encodes, open);
    case Echo(id) => SettleBalanced(l, id, Echoed);
    case Nack(channel, named, seqNo) =>
      var target := NackTarget(l.pending, channel, named, seqNo);
      if target.Some? { SettleBalanced(l, target.value, Nacked); } else { IdleBalanced(l); }
    case TimerFires(ticket) => TimerBalanced(l, ticket);
    case Close => CloseBalanced(l);
  }

  lemma IdleBalanced(l: Ledger)
    requires Inv(l)
    ensures Balanced(l, Effect(l, [], []))
  {
  }

  // ---- whole runs --------------------------------------------------------------------------------

  /** All that a run registered and settled, in order. */
  datatype Run = Run(ledger: Ledger, registered: seq<nat>, settled: seq<Settlement>)

  const EMPTY := Run(FRESH, [], [])

  function Extend(r: Run, step: Step): Run {
    var e := Take(r.ledger, step);
    Run(e.ledger, r.registered + e.registered, r.settled + e.settled)
  }

  function RunSteps(steps: seq<Step>): Run {
    if steps == [] then EMPTY else Extend(RunSteps(steps[..|steps| - 1]), steps[|steps| - 1])
  }

  ghost predicate RunInv(r: Run) {
    && Inv(r.ledger)
    && (forall k | 0 <= k < |r.registered| :: r.registered[k] < r.ledger.drawn)
    && (forall j, k | 0 <= j < k < |r.registered| :: r.registered[j] < r.registered[k])
    && DistinctTickets(r.settled)
    && (forall t :: t in r.ledger.armed <==> t in r.registered && t !in SettledTickets(r.settled))
    && (forall k | 0 <= k < |r.settled| :: r.settled[k].ticket in r.registered)
    && |r.registered| == |r.settled| + |r.ledger.armed|
  }

  /**
   In every run each intent registered is settled at most once, every settlement
   is of a registered intent, and the ones not yet settled are exactly those
   whose timer still runs: registered = settled + waiting. Nothing is assumed
   about how often the ids have wrapped.
   */
  lemma {:induction false} SettledExactlyOnce(steps: seq<Step>)
    ensures RunInv(RunSteps(steps))
  {
    if steps != [] {
      SettledExactlyOnce(steps[..|steps| - 1]);
      var r := RunSteps(steps[..|steps| - 1]);
      ExtendRun(r, steps[|steps| - 1]);
    }
  }

  lemma ExtendRun(r: Run, step: Step)
    requires RunInv(r)
    ensures RunInv(Extend(r, step))
  {
    hide Take, Inv;
    TakeBalanced(r.ledger, step);
    var e := Take(r.ledger, step);
    var r' := Extend(r, step);
    JoinSettled(r.settled, e.settled);
    ArmedBelow(r.ledger);
    forall j, k | 0 <= j < k < |r'.settled| ensures r'.settled[j].ticket != r'.settled[k].ticket {
      if j < |r.settled| <= k {
        assert r'.settled[j] == r.settled[j] && r'.settled[k] == e.settled[k - |r.settled|];
        assert r.settled[j] in r.settled;
        assert r.settled[j].ticket in SettledTickets(r.settled);
        assert r.settled[j].ticket in r.registered;
      }
    }
  }

  lemma ArmedBelow(l: Ledger)
    requires Inv(l)
    ensures forall t | t in l.armed :: t < l.drawn
  {
  }

  lemma JoinSettled(a: seq<Settlement>, b: seq<Settlement>)
    ensures forall t :: t in SettledTickets(a + b) <==> t in SettledTickets(a) || t in SettledTickets(b)
  {
    forall t | t in SettledTickets(a) || t in SettledTickets(b) ensures t in SettledTickets(a + b) {
      if t in SettledTickets(a) {
        var s :| s in a && s.ticket == t;
        assert s in a + b;
      } else {
        var s :| s in b && s.ticket == t;
        assert s in a + b;
      }
    }
  }

  // ---- ids that wrap ---------------------------------------------------------------------------------

  /** Every intent still waiting can be found in the pending map. */
  ghost predicate Tight(l: Ledger) { l.armed == Tickets(l.pending) }

  /** The id about to be issued still stands for an older intent. */
  predicate Collides(l: Ledger, step: Step) {
    step.Issue? && step.encodes && Find(l.pending, NextId(l)).Some?
  }

  lemma RemovedTicket(l: Ledger, p: Pending)
    requires Inv(l) && p in l.pending
    ensures Tickets(Without(l.pending, p.id)) == Tickets(l.pending) - {p.ticket}
  {
    WithoutFacts(l.pending, p.id);
    forall t ensures t in Tickets(Without(l.pending, p.id)) <==> t in Tickets(l.pending) - {p.ticket} {
      if t in Tickets(l.pending) {
        var q :| q in l.pending && q.ticket == t;
        FindUnique(l, p, q);
        assert t != p.ticket ==> q in Without(l.pending, p.id);
      }
    }
  }

  lemma FindUnique(l: Ledger, p: Pending, q: Pending)
    requires Inv(l) && p in l.pending && q in l.pending
    ensures p.id == q.id <==> p == q
    ensures p.ticket == q.ticket <==> p == q
  {
    var j :| 0 <= j < |l.pending| && l.pending[j] == p;
    var k :| 0 <= k < |l.pending| && l.pending[k] == q;
  }

  lemma SettleTight(l: Ledger, id: nat, how: How)
    requires Inv(l) && Tight(l)
    ensures Tight(SettleId(l, id, how).ledger)
  {
    FindFacts(l.pending, id);
    if Find(l.pending, id).Some? {
      RemovedTicket(l, Find(l.pending, id).value);
    }
  }

  lemma IssueTight(l: Ledger, channel: nat, encodes: bool, open: bool)
    requires Inv(l) && Tight(l)
    ensures Tight(Take(l, Issue(channel, encodes, open)).ledger) <==> !Collides(l, Issue(channel, encodes, open))
  {
    var id := NextId(l);
    var q := Pending(id, channel, l.drawn);
    var r := Put(l.pending, q);
    PutFacts(l.pending, q);
    WithoutFacts(r, id);
    FindFacts(l.pending, id);
    if encodes {
      var kept := if open then r else Without(r, id);
      var armed := if open then l.armed + {l.drawn} else l.armed;
      if Find(l.pending, id).Some? {
        var p := Find(l.pending, id).value;
        LostTicket(l, p, kept, l.drawn);
        assert p.ticket in armed;
      } else {
        forall t ensures t in Tickets(kept) <==> t in armed {
          if t in l.armed {
            var p :| p in l.pending && p.ticket == t;
            assert p in kept;
          }
          if open && t == l.drawn { assert q in kept; }
        }
      }
    }
  }

  lemma LostTicket(l: Ledger, p: Pending, kept: seq<Pending>, drawn: nat)
    requires Inv(l) && p in l.pending && drawn == l.drawn
    requires forall q | q in kept :: q.ticket == drawn || (q in l.pending && q.id != p.id)
    ensures p.ticket !in Tickets(kept)
  {
    forall q | q in kept ensures q.ticket != p.ticket {
      if q in l.pending { FindUnique(l, p, q); }
    }
  }

  lemma TimerTight(l: Ledger, ticket: nat)
    requires Inv(l) && Tight(l)
    ensures Tight(Take(l, TimerFires(ticket)).ledger)
  {
    if ticket in l.armed {
      var p :| p in l.pending && p.ticket == ticket;
      var k :| 0 <= k < |l.pending| && l.pending[k] == p;
      RemovedTicket(l, p);
    }
  }

  /**
   The map loses sight of a waiting intent at exactly one kind of step: issuing
   an intent while its id is still pending.
   */
  lemma TightExactly(l: Ledger, step: Step)
    requires Inv(l) && Tight(l)
    ensures Tight(Take(l, step).ledger) <==> !Collides(l, step)
  {
    match step
    case Issue(channel, encodes, open) => IssueTight(l, channel, encodes, open);
    case Echo(id) => SettleTight(l, id, Echoed);
    case Nack(channel, named, seqNo) =>
      var target := NackTarget(l.pending, channel, named, seqNo);
      if target.Some? { SettleTight(l, target.value, Nacked); }
    case TimerFires(ticket) => TimerTight(l, ticket);
    case Close =>
  }

  /** No id collides while nothing has stayed pending for 65535 later draws. */
  lemma RecentNeverCollides(l: Ledger, step: Step)
    requires Inv(l) && forall k | 0 <= k < |l.pending| :: l.drawn - l.pending[k].ticket < ID_SPACE
    ensures !Collides(l, step)
  {
    NextIdIs(l);
    FindFacts(l.pending, NextId(l));
    if Find(l.pending, NextId(l)).Some? {
      var p := Find(l.pending, NextId(l)).value;
      var k :| 0 <= k < |l.pending| && l.pending[k] == p;
      Congruent(l.drawn, p.ticket);
    }
  }

  lemma Congruent(a: nat, b: nat)
    requires b < a && a % ID_SPACE == b % ID_SPACE
    ensures a - b >= ID_SPACE
  {
  }

  /** After a collision the older intent outlives even a close: only its own timer can still settle it. */
  lemma CollisionOutlivesClose(l: Ledger, channel: nat, open: bool)
    requires Inv(l) && Collides(l, Issue(channel, true, open))
    ensures var old' := Find(l.pending, NextId(l)).value.ticket;
            var closed := Take(Take(l, Issue(channel, true, open)).ledger, Close);
            old' in closed.ledger.armed && closed.ledger.pending == [] && old' !in SettledTickets(closed.settled)
  {
    FindFacts(l.pending, NextId(l));
    var p := Find(l.pending, NextId(l)).value;
    hide Take, Put, Without, Find, Inv, IdOf;
    Displaced(l, p, channel, open);
    CloseLeaves(Take(l, Issue(channel, true, open)).ledger, p.ticket);
  }

  /** Issuing over a pending id drops the older entry and leaves its timer running. */
  lemma Displaced(l: Ledger, p: Pending, channel: nat, open: bool)
    requires Inv(l) && p in l.pending && p.id == NextId(l)
    ensures var l1 := Take(l, Issue(channel, true, open)).ledger; p.ticket in l1.armed && p.ticket !in Tickets(l1.pending)
  {
    var q := Pending(p.id, channel, l.drawn);
    PutFacts(l.pending, q);
    WithoutFacts(Put(l.pending, q), p.id);
    hide Put, Without, Find, IdOf;
    var kept := if open then Put(l.pending, q) else Without(Put(l.pending, q), p.id);
    LostTicket(l, p, kept, l.drawn);
    var k :| 0 <= k < |l.pending| && l.pending[k] == p;
  }

  lemma CloseLeaves(l: Ledger, ticket: nat)
    requires ticket in l.armed && ticket !in Tickets(l.pending)
    ensures var e := Take(l, Close); ticket in e.ledger.armed && e.ledger.pending == [] && ticket !in SettledTickets(e.settled)
  {
    var e := Take(l, Close);
    forall k | 0 <= k < |e.settled| ensures e.settled[k].ticket != ticket {
      TicketStands(l.pending, k);
    }
  }

  lemma TicketStands(pending: seq<Pending>, k: nat)
    requires k < |pending|
    ensures pending[k].ticket in Tickets(pending)
  {
  }

  /** One intent sent and then `n` more drawn that do not encode. */
  function Draws(channel: nat, n: nat): seq<Step> {
    if n == 0 then [Issue(channel, true, true)] else Draws(channel, n - 1) + [Issue(channel, false, true)]
  }

  lemma {:induction false} DrawsLeave(channel: nat, n: nat)
    ensures RunSteps(Draws(channel, n)) == Run(Ledger(IdOf(n), n + 1, [Pending(IdOf(0), channel, 0)], {0}), [0], [])
  {
    hide IdOf, RunSteps, Extend, Take;
    if n == 0 {
      FirstDraw(channel);
    } else {
      DrawsLeave(channel, n - 1);
      RunSnoc(Draws(channel, n - 1), Issue(channel, false, true));
      DrawOnly(RunSteps(Draws(channel, n - 1)), channel);
      NextDraw(n - 1);
    }
  }

  lemma DrawOnly(r: Run, channel: nat)
    ensures Extend(r, Issue(channel, false, true))
         == r.(ledger := r.ledger.(intentSeq := NextId(r.ledger), drawn := r.ledger.drawn + 1))
  {
    hide Put, Without, Find;
  }

  lemma FirstDraw(channel: nat)
    ensures RunSteps([Issue(channel, true, true)]) == Run(Ledger(IdOf(0), 1, [Pending(IdOf(0), channel, 0)], {0}), [0], [])
  {
    assert RunSteps([Issue(channel, true, true)][..0]) == EMPTY;
    assert {} + {0} == {0 as nat};
  }

  lemma NextDraw(n: nat)
    ensures IdOf(n) % ID_SPACE + 1 == IdOf(n + 1)
    ensures IdOf(ID_SPACE) == IdOf(0)
  {
    ModStep(n);
  }

  /**
   Such a run exists: one intent, `n` = 65534 draws that do not encode while it waits,
   and one more intent under the same id. When the socket then closes nothing is
   pending, yet one of the two registered is unsettled, its timer still running.
   */
  lemma CollisionReached(channel: nat, open: bool, n: nat)
    requires n + 1 == ID_SPACE
    ensures var before := RunSteps(Draws(channel, n)).ledger;
            Inv(before) && Collides(before, Issue(channel, true, open))
    ensures var r := RunSteps(Draws(channel, n) + [Issue(channel, true, open)] + [Close]);
            && r.ledger.pending == [] && 0 in r.ledger.armed
            && |r.registered| == 2 && 0 !in SettledTickets(r.settled)
  {
    hide Take, Put, Without;
    var steps, issue := Draws(channel, n), Issue(channel, true, open);
    var l := RunSteps(steps).ledger;
    DrawsLeave(channel, n);
    SettledExactlyOnce(steps);
    NextDraw(n);
    assert NextId(l) == IdOf(0);
    assert Find(l.pending, IdOf(0)) == Some(l.pending[0]);
    CollisionOutlivesClose(l, channel, open);
    assert (steps + [issue])[..|steps|] == steps;
    assert (steps + [issue] + [Close])[..|steps| + 1] == steps + [issue];
    SettledExactlyOnce(steps + [issue] + [Close]);
    Registers(l, channel, open);
  }

  lemma Registers(l: Ledger, channel: nat, open: bool)
    ensures Take(l, Issue(channel, true, open)).registered == [l.drawn] && forall l' :: Take(l', Close).registered == []
  {
  }

  // ---- timers settle what is left -----------------------------------------------------

  function Timers(tickets: seq<nat>): seq<Step> {
    if tickets == [] then [] else Timers(tickets[..|tickets| - 1]) + [TimerFires(tickets[|tickets| - 1])]
  }

  lemma FiresOne(l: Ledger, ticket: nat)
    ensures Take(l, TimerFires(ticket)).ledger.armed == l.armed - {ticket}
  {
  }

  lemma RunSnoc(steps: seq<Step>, step: Step)
    ensures RunSteps(steps + [step]) == Extend(RunSteps(steps), step)
  {
    hide Extend;
    assert (steps + [step])[..|steps|] == steps;
  }

  function SetOf(tickets: seq<nat>): set<nat> { set t | t in tickets }

  lemma SetOfSnoc(tickets: seq<nat>)
    requires tickets != []
    ensures SetOf(tickets) == SetOf(tickets[..|tickets| - 1]) + {tickets[|tickets| - 1]}
  {
    var last := |tickets| - 1;
    assert tickets == tickets[..last] + [tickets[last]];
  }

  lemma {:induction false} TimersDisarm(steps: seq<Step>, tickets: seq<nat>)
    ensures RunSteps(steps + Timers(tickets)).ledger.armed == RunSteps(steps).ledger.armed - SetOf(tickets)
    decreases |tickets|
  {
    hide Take, RunSteps, SetOf;
    if tickets == [] {
      assert steps + Timers(tickets) == steps;
      NoTickets();
    } else {
      var last := |tickets| - 1;
      var fewer, step := steps + Timers(tickets[..last]), TimerFires(tickets[last]);
      TimersDisarm(steps, tickets[..last]);
      assert steps + Timers(tickets) == fewer + [step];
      RunSnoc(fewer, step);
      FiresOne(RunSteps(fewer).ledger, tickets[last]);
      SetOfSnoc(tickets);
    }
  }

  lemma NoTickets()
    ensures SetOf([]) == {}
  {
  }

  /** After any run, collisions or not, once every timer still running has fired everything registered is settled. */
  lemma TimersSettleAll(steps: seq<Step>, tickets: seq<nat>)
    requires RunSteps(steps).ledger.armed <= SetOf(tickets)
    ensures var r := RunSteps(steps + Timers(tickets)); r.ledger.armed == {} && |r.registered| == |r.settled|
  {
    hide Take, RunSteps;
    TimersDisarm(steps, tickets);
    SettledExactlyOnce(steps + Timers(tickets));
  }

  /**
   In a run without such a collision, what waits is what is pending; so once the
   socket closes everything registered has been settled.
   */
  lemma {:induction false} CloseSettlesAll(steps: seq<Step>)
    requires forall k | 0 <= k < |steps| :: !Collides(RunSteps(steps[..k]).ledger, steps[k])
    ensures Tight(RunSteps(steps).ledger)
    ensures var r := RunSteps(steps + [Close]);
            r.ledger.pending == [] && r.ledger.armed == {} && |r.registered| == |r.settled|
  {
    hide Take;
    NoCollisionTight(steps);
    var r := RunSteps(steps);
    SettledExactlyOnce(steps);
    SettledExactlyOnce(steps + [Close]);
    assert (steps + [Close])[..|steps|] == steps;
    TightClose(r.ledger);
  }

  lemma TightClose(l: Ledger)
    requires Tight(l)
    ensures Take(l, Close).ledger.pending == [] && Take(l, Close).ledger.armed == {}
  {
  }

  lemma {:induction false} NoCollisionTight(steps: seq<Step>)
    requires forall k | 0 <= k < |steps| :: !Collides(RunSteps(steps[..k]).ledger, steps[k])
    ensures Tight(RunSteps(steps).ledger)
  {
    hide Take;
    if steps != [] {
      var last := |steps| - 1;
      forall k | 0 <= k < last ensures !Collides(RunSteps(steps[..last][..k]).ledger, steps[..last][k]) {
        assert steps[..last][..k] == steps[..k];
      }
      NoCollisionTight(steps[..last]);
      SettledExactlyOnce(steps[..last]);
      TightExactly(RunSteps(steps[..last]).ledger, steps[last]);
    }
  }

  /**
   A close at any point of a run settles everything registered so far exactly when
   the run has no such collision.
   */
  lemma CloseSettlesExactly(steps: seq<Step>)
    ensures (forall k | 0 <= k <= |steps| :: RunSteps(steps[..k] + [Close]).ledger.armed == {}) <==>
            (forall k | 0 <= k < |steps| :: !Collides(RunSteps(steps[..k]).ledger, steps[k]))
  {
    hide Take, RunSteps, Collides;
    if forall k | 0 <= k < |steps| :: !Collides(RunSteps(steps[..k]).ledger, steps[k]) {
      forall k | 0 <= k <= |steps| ensures RunSteps(steps[..k] + [Close]).ledger.armed == {} {
        forall j | 0 <= j < k ensures !Collides(RunSteps(steps[..k][..j]).ledger, steps[..k][j]) {
          assert steps[..k][..j] == steps[..j];
        }
        CloseSettlesAll(steps[..k]);
      }
    } else {
      var k :| 0 <= k < |steps| && Collides(RunSteps(steps[..k]).ledger, steps[k]);
      CollisionLeavesArmed(steps, k);
    }
  }

  lemma CollisionLeavesArmed(steps: seq<Step>, k: nat)
    requires k < |steps| && Collides(RunSteps(steps[..k]).ledger, steps[k])
    ensures RunSteps(steps[..k + 1] + [Close]).ledger.armed != {}
  {
    hide Take, RunSteps;
    var l := RunSteps(steps[..k]).ledger;
    SettledExactlyOnce(steps[..k]);
    CollisionOutlivesClose(l, steps[k].channel, steps[k].open);
    assert steps[..k + 1] == steps[..k] + [steps[k]];
    RunSnoc(steps[..k], steps[k]);
    RunSnoc(steps[..k + 1], Close);
  }

  /**
   Worse, when the displaced intent's timer fires it takes the newer intent's
   entry with it: the newer one still waits, but no ECHO finds it any more.
   */
  lemma LateTimerOrphans(l: Ledger, channel: nat)
    requires Inv(l) && Collides(l, Issue(channel, true, true))
    ensures var older := Find(l.pending, NextId(l)).value.ticket;
            var fired := Take(Take(l, Issue(channel, true, true)).ledger, TimerFires(older));
            && fired.settled == [Settlement(older, TimedOut)]
            && l.drawn in fired.ledger.armed && l.drawn != older
            && Find(fired.ledger.pending, NextId(l)).None?
            && Take(fired.ledger, Echo(NextId(l))).settled == []
  {
    NextIdIs(l);
    FindFacts(l.pending, NextId(l));
    var p := Find(l.pending, NextId(l)).value;
    var k :| 0 <= k < |l.pending| && l.pending[k] == p;
    var q := Pending(NextId(l), channel, l.drawn);
    PutFacts(l.pending, q);
    var r := Put(l.pending, q);
    WithoutFacts(r, q.id);
    FindFacts(Without(r, q.id), q.id);
    hide Put, Without, Find, IdOf;
  }

  // ---- which intent an answer settles -----------------------------------------------------------------

  /** Exactly this intent is settled, in this way, and exactly its entry is gone. */
  ghost predicate HitsOnly(l: Ledger, e: Effect, p: Pending, how: How) {
    && e.settled == [Settlement(p.ticket, how)] && e.registered == [] && e.ledger.armed == l.armed - {p.ticket}
    && (forall q :: q in e.ledger.pending <==> q in l.pending && q != p)
  }

  lemma SettlesOnly(l: Ledger, p: Pending, how: How)
    requires Inv(l) && p in l.pending
    ensures HitsOnly(l, SettleId(l, p.id, how), p, how)
  {
    FindFacts(l.pending, p.id);
    FindUnique(l, Find(l.pending, p.id).value, p);
    WithoutFacts(l.pending, p.id);
    forall q | q in l.pending ensures q.id != p.id <==> q != p {
      FindUnique(l, p, q);
    }
  }

  /**
   An intent draws an id even when it does not encode, is registered exactly when it
   encodes, waits exactly when the frame could leave, and is withdrawn otherwise; of
   the others only one that stood under the same id loses its entry.
   */
  lemma IssueExactly(l: Ledger, channel: nat, encodes: bool, open: bool)
    requires Inv(l)
    ensures var e, q := Take(l, Issue(channel, encodes, open)), Pending(IdOf(l.drawn), channel, l.drawn);
            && e.ledger.drawn == l.drawn + 1
            && e.registered == (if encodes then [l.drawn] else [])
            && e.settled == (if encodes && !open then [Settlement(l.drawn, NotSent)] else [])
            && (forall p :: p in e.ledger.pending <==>
                  (p == q && encodes && open) || (p in l.pending && (encodes ==> p.id != q.id)))
  {
    NextIdIs(l);
    var q := Pending(IdOf(l.drawn), channel, l.drawn);
    PutFacts(l.pending, q);
    WithoutFacts(Put(l.pending, q), q.id);
    hide Put, Without, IdOf;
  }

  /** An ECHO resolves the pending intent it names and touches no other; naming none, it changes nothing. */
  lemma EchoHitsNamed(l: Ledger, id: nat)
    requires Inv(l)
    ensures forall p | p in l.pending && p.id == id :: HitsOnly(l, Take(l, Echo(id)), p, Echoed)
    ensures (forall p | p in l.pending :: p.id != id) ==> Take(l, Echo(id)) == Effect(l, [], [])
  {
    hide HitsOnly;
    FindFacts(l.pending, id);
    forall p | p in l.pending && p.id == id ensures HitsOnly(l, Take(l, Echo(id)), p, Echoed) {
      SettlesOnly(l, p, Echoed);
    }
  }

  predicate Names(pending: seq<Pending>, id: Option<nat>) { id.Some? && exists p :: p in pending && p.id == id.value }

  lemma NamesFinds(pending: seq<Pending>, id: Option<nat>)
    ensures Names(pending, id) <==> id.Some? && Find(pending, id.value).Some?
  {
    if id.Some? { FindFacts(pending, id.value); }
  }

  /** A NACK that names a pending intent, by id or else by header seq, settles that one and touches no other. */
  lemma NackHitsNamed(l: Ledger, channel: nat, named: Option<nat>, seqNo: Option<nat>, p: Pending)
    requires Inv(l) && p in l.pending
    requires named == Some(p.id) || (seqNo == Some(p.id) && !Names(l.pending, named))
    ensures HitsOnly(l, Take(l, Nack(channel, named, seqNo)), p, Nacked)
  {
    hide HitsOnly;
    NamesFinds(l.pending, named);
    NamesFinds(l.pending, Some(p.id));
    SettlesOnly(l, p, Nacked);
  }

  /** Entry `k` is the first on the channel. */
  predicate FirstOn(pending: seq<Pending>, channel: nat, k: nat) {
    k < |pending| && pending[k].channel == channel && forall j | 0 <= j < k :: pending[j].channel != channel
  }

  lemma {:induction false} OldestIs(pending: seq<Pending>, channel: nat, k: nat)
    requires FirstOn(pending, channel, k)
    ensures OldestOn(pending, channel) == Some(pending[k].id)
  {
    if k > 0 { OldestIs(pending[1..], channel, k - 1); }
  }

  lemma {:induction false} NoneOldest(pending: seq<Pending>, channel: nat)
    requires forall p | p in pending :: p.channel != channel
    ensures OldestOn(pending, channel).None?
  {
    if pending != [] { NoneOldest(pending[1..], channel); }
  }

  /** A NACK that names nothing pending refuses the oldest on its channel, and with none there changes nothing. */
  lemma NackFallsBack(l: Ledger, channel: nat, named: Option<nat>, seqNo: Option<nat>)
    requires Inv(l) && !Names(l.pending, named) && !Names(l.pending, seqNo)
    ensures forall k: nat | FirstOn(l.pending, channel, k) ::
              HitsOnly(l, Take(l, Nack(channel, named, seqNo)), l.pending[k], Nacked)
    ensures (forall p | p in l.pending :: p.channel != channel) ==> Take(l, Nack(channel, named, seqNo)) == Effect(l, [], [])
  {
    hide HitsOnly, SettleId;
    NamesFinds(l.pending, named);
    NamesFinds(l.pending, seqNo);
    forall k: nat | FirstOn(l.pending, channel, k)
      ensures HitsOnly(l, Take(l, Nack(channel, named, seqNo)), l.pending[k], Nacked)
    {
      OldestIs(l.pending, channel, k);
      SettlesOnly(l, l.pending[k], Nacked);
    }
    if forall p | p in l.pending :: p.channel != channel { NoneOldest(l.pending, channel); }
  }

  // ---- how each promise came to be settled --------------------------------------------------------------

  /** The step is of the kind that settles an intent this way. */
  predicate Causes(step: Step, s: Settlement) {
    match s.how
    case Echoed => step == Echo(IdOf(s.ticket))
    case Nacked => step.Nack?
    case TimedOut => step == TimerFires(s.ticket)
    case NotSent => step.Issue? && step.encodes && !step.open
    case SocketClosed => step == Close
  }

  lemma StepCauses(l: Ledger, step: Step)
    requires Inv(l)
    ensures forall s | s in Take(l, step).settled :: Causes(step, s)
  {
    hide Without, Put, NackTarget, Tickets;
    if step.Echo? {
      FindFacts(l.pending, step.id);
      if Find(l.pending, step.id).Some? {
        var k :| 0 <= k < |l.pending| && l.pending[k] == Find(l.pending, step.id).value;
      }
    }
  }

  /** Step `k` of the run settles the intent this way, for that reason. */
  ghost predicate SettledAt(steps: seq<Step>, k: nat, s: Settlement)
    requires k < |steps|
  {
    Causes(steps[k], s) && s in Take(RunSteps(steps[..k]).ledger, steps[k]).settled
  }

  /**
   In every run each settlement has its cause: resolved only by an ECHO of its id,
   timed out only by its own timer, refused by a NACK, withdrawn when it could not
   be sent, or rejected by a close.
   */
  lemma {:induction false} SettledForReason(steps: seq<Step>, s: Settlement)
    requires s in RunSteps(steps).settled
    ensures exists k | 0 <= k < |steps| :: SettledAt(steps, k, s)
  {
    hide Take;
    var last := |steps| - 1;
    var before := steps[..last];
    if s in RunSteps(before).settled {
      SettledForReason(before, s);
      var k :| 0 <= k < last && SettledAt(before, k, s);
      assert before[..k] == steps[..k];
      assert SettledAt(steps, k, s);
    } else {
      SettledExactlyOnce(before);
      StepCauses(RunSteps(before).ledger, steps[last]);
      assert SettledAt(steps, last, s);
    }
  }

  // ---- the table itself ---------------------------------------------------------------------------------

  /** The session's pending map, its timers, and everything they have settled. */
  class IntentTable {
    var intentSeq: nat
    var drawn: nat
    var pending: seq<Pending>
    var armed: set<nat>
    var registered: seq<nat>
    var settled: seq<Settlement>

    ghost function View(): Run
      reads this
    {
      Run(Ledger(intentSeq, drawn, pending, armed), registered, settled)
    }

    ghost predicate Valid()
      reads this
    {
      RunInv(View())
    }

    constructor ()
      ensures Valid() && View() == EMPTY
    {
      intentSeq, drawn, pending, armed, registered, settled := 0, 0, [], {}, [], [];
    }

    /** The id is drawn before the value map is encoded; an unsent intent is withdrawn and settled at once. */
    method Issue(channel: nat, encodes: bool, open: bool) returns (id: nat)
      requires Valid()
      modifies this
      ensures Valid() && View() == Extend(old(View()), Step.Issue(channel, encodes, open))
      ensures id == NextId(old(View()).ledger)
    {
      hide RunInv, Put, Without;
      ExtendRun(View(), Step.Issue(channel, encodes, open));
      TimersBelow(View());
      var ticket := drawn;
      drawn := drawn + 1;
      intentSeq := intentSeq % ID_SPACE + 1;
      id := intentSeq;
      if encodes {
        pending := Put(pending, Pending(id, channel, ticket));
        armed := armed + {ticket};
        registered := registered + [ticket];
        if !open {
          armed := armed - {ticket};
          pending := Without(pending, id);
          settled := settled + [Settlement(ticket, NotSent)];
          assert armed == old(armed);
        }
      }
      Padded(registered, settled);
    }

    method Settle(id: nat, how: How)
      requires Valid() && (how == Echoed || how == Nacked)
      modifies this
      ensures var e := SettleId(old(View()).ledger, id, how);
              View() == Run(e.ledger, old(registered), old(settled) + e.settled)
    {
      var p := Find(pending, id);
      if p.Some? {
        armed := armed - {p.value.ticket};
        pending := Without(pending, id);
        settled := settled + [Settlement(p.value.ticket, how)];
      }
    }

    method Echo(id: nat)
      requires Valid()
      modifies this
      ensures Valid() && View() == Extend(old(View()), Step.Echo(id))
    {
      hide RunInv;
      ExtendRun(View(), Step.Echo(id));
      Settle(id, Echoed);
      Padded(registered, settled);
    }

    /** Best evidence first: the id named, the header seq named, else the oldest pending intent on the channel. */
    method Nack(channel: nat, named: Option<nat>, seqNo: Option<nat>)
      requires Valid()
      modifies this
      ensures Valid() && View() == Extend(old(View()), Step.Nack(channel, named, seqNo))
    {
      hide RunInv;
      ExtendRun(View(), Step.Nack(channel, named, seqNo));
      var target: Option<nat> := None;
      if named.Some? && Find(pending, named.value).Some? {
        target := named;
      } else if seqNo.Some? && Find(pending, seqNo.value).Some? {
        target := seqNo;
      } else {
        target := Oldest(channel);
      }
      if target.Some? {
        Settle(target.value, Nacked);
      }
      Padded(registered, settled);
    }

    method Oldest(channel: nat) returns (id: Option<nat>)
      ensures id == OldestOn(pending, channel)
    {
      id := None;
      var k := 0;
      while k < |pending|
        invariant k <= |pending| && id.None?
        invariant OldestOn(pending, channel) == OldestOn(pending[k..], channel)
      {
        if pending[k].channel == channel {
          id := Some(pending[k].id);
          break;
        }
        k := k + 1;
      }
    }

    /** The timer of an intent: a no-op once it was cleared. */
    method TimerFires(ticket: nat)
      requires Valid()
      modifies this
      ensures Valid() && View() == Extend(old(View()), Step.TimerFires(ticket))
    {
      hide RunInv;
      ExtendRun(View(), Step.TimerFires(ticket));
      if ticket in armed {
        armed := armed - {ticket};
        pending := Without(pending, IdOf(ticket));
        settled := settled + [Settlement(ticket, TimedOut)];
      }
      Padded(registered, settled);
    }

    /** The socket closed: every pending intent is rejected, oldest first. */
    method CloseAll()
      requires Valid()
      modifies this
      ensures Valid() && View() == Extend(old(View()), Step.Close)
    {
      hide RunInv;
      ExtendRun(View(), Step.Close);
      ghost var all, before := pending, armed;
      var k := 0;
      while pending != []
        invariant k <= |all| && pending == all[k..]
        invariant armed == before - Tickets(all[..k])
        invariant settled == old(settled) + AllClosed(all[..k])
        invariant registered == old(registered) && drawn == old(drawn) && intentSeq == old(intentSeq)
        decreases |pending|
      {
        ClosedSoFar(all, k);
        settled := settled + [Settlement(pending[0].ticket, SocketClosed)];
        armed := armed - {pending[0].ticket};
        pending := pending[1..];
        k := k + 1;
      }
      assert all[..k] == all;
      Padded(registered, settled);
    }
  }

  lemma ClosedSoFar(all: seq<Pending>, k: nat)
    requires k < |all|
    ensures Tickets(all[..k + 1]) == Tickets(all[..k]) + {all[k].ticket}
    ensures AllClosed(all[..k + 1]) == AllClosed(all[..k]) + [Settlement(all[k].ticket, SocketClosed)]
  {
    assert all[..k + 1] == all[..k] + [all[k]];
  }

  lemma Padded(registered: seq<nat>, settled: seq<Settlement>)
    ensures registered + [] == registered && settled + [] == settled
  {
  }

  lemma TimersBelow(r: Run)
    requires RunInv(r)
    ensures r.ledger.drawn !in r.ledger.armed
  {
  }
}
