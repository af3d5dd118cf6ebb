/**
 The session object of clients/js/session.js: its closure's variables as fields,
 its handlers as methods. Each is proved to do to the whole state what the state
 machine's transition does, and to keep the invariant of every run.
 */
module Client {
  import opened Wire
  import S = Session
  import Blob
  import Intents
  import Reassembler

  class ClientSession {
    const cfg: S.Config
    const blob: Reassembler.BufferReassembler
    const table: Intents.IntentTable

    var phase: S.Phase
    var cached: Option<S.Stored>
    var hubEtag: Option<Bytes>
    var ring: Option<S.Ring>
    var ready: bool
    var readyEtag: Option<Bytes>
    var readyPending: bool
    var readyAttempts: nat
    var lastReadyMs: int
    var requiredRetained: nat
    var adoptedChannels: set<nat>
    var lastTxMs: int
    var pumping: bool
    var deadmanMs: int
    var alarm: S.Alarm
    /** What has left the client; the socket and the store themselves are outside. */
    ghost var log: seq<S.Entry>

    ghost predicate Shape()
      reads this, blob, blob.received, table
    {
      blob.Valid() && blob.cap == cfg.cap && table.Valid()
    }

    ghost function Core(): S.Core
      reads this, blob, blob.received, blob.buf, table
    {
      S.Core(phase, cached, hubEtag, ring, blob.State(), ready, readyEtag, readyPending, readyAttempts, lastReadyMs,
             requiredRetained, adoptedChannels, lastTxMs, pumping, deadmanMs, table.View(), alarm)
    }

    ghost function View(): S.Session
      reads this, blob, blob.received, blob.buf, table
    {
      S.Session(Core(), log)
    }

    ghost predicate Valid()
      reads this, blob, blob.received, blob.buf, table
    {
      Shape() && S.Inv(cfg, View())
    }

    constructor (cfg: S.Config, deadmanDefault: int)
      ensures Valid() && View() == S.Start(deadmanDefault) && this.cfg == cfg
    {
      this.cfg := cfg;
      blob := new Reassembler.BufferReassembler(cfg.cap);
      table := new Intents.IntentTable();
      phase, cached, hubEtag, ring := S.Closed, None, None, None;
      ready, readyEtag, readyPending, readyAttempts, lastReadyMs := false, None, false, 0, 0;
      requiredRetained, adoptedChannels := 0, {};
      lastTxMs, pumping, deadmanMs, alarm, log := 0, false, deadmanDefault, S.NO_ALARM, [];
    }

    // ---- sending ------------------------------------------------------------------------

    /** `now` and `open` are what the clock and the socket's ready state say. */
    method SendFrame(env: S.Env, f: S.Frame) returns (sent: bool)
      modifies this`lastTxMs, this`log
      ensures sent == env.open && View() == S.Send(old(View()), env, f)
    {
      if !env.open { return false; }
      log := log + [S.Sent(f, Core(), env.now)];
      lastTxMs := env.now;
      return true;
    }

    method RequestCatalog(env: S.Env)
      requires Shape()
      modifies this, blob
      ensures Shape() && fresh(blob.received) && fresh(blob.buf)
      ensures View() == S.RequestCatalog(old(View()), env)
    {
      blob.Reset();
      var _ := SendFrame(env, S.BlobRequest(None));
    }

    method Fetch(env: S.Env)
      requires Shape()
      modifies this, blob
      ensures Shape() && (fresh(blob.received) || blob.received == old(blob.received))
      ensures fresh(blob.buf) || blob.buf == old(blob.buf)
      ensures View() == S.Fetch(old(View()), cfg, env)
    {
      if cfg.autoCatalog { RequestCatalog(env); }
    }

    method SendCatalogReady(env: S.Env, etag: Bytes)
      modifies this
      ensures View() == S.SendReady(old(View()), env, etag)
    {
      hide Intents.RunInv, Blob.CountTrue;
      readyEtag := Some(etag);
      var sent := SendFrame(env, S.CatalogReady(Some(etag)));
      if sent {
        readyPending := true;
        lastReadyMs := env.now;
        readyAttempts := readyAttempts + 1;
      }
    }

    method CheckLiveTransition()
      modifies this`phase
      ensures View() == S.CheckLive(old(View()))
    {
      if phase != S.Syncing { return; }
      if ring.None? { return; }
      if |adoptedChannels| < requiredRetained { return; }
      phase := S.Live;
    }

    // ---- the socket ------------------------------------------------------------------------

    method OpenSocket(stored: Option<S.Stored>)
      requires Valid()
      modifies this`cached
      ensures Valid() && View() == S.OpenSocket(old(View()), cfg, stored)
    {
      S.StepKeeps(View(), cfg, S.Event(S.Env(0, false), S.SocketOpening(stored)));
      cached := None;
      if stored.Some? && cfg.etagOf(stored.value.bytes) == stored.value.etag {
        cached := stored;
      }
    }

    method OnOpen(env: S.Env)
      requires Valid()
      modifies this
      ensures Valid() && View() == S.Opened(old(View()), env)
    {
      hide S.Inv;
      S.OpenedKeeps(View(), cfg, env);
      lastTxMs := env.now;
      phase := S.HelloSent;
      var claim := if cached.Some? then Some(cached.value.etag) else None;
      var _ := SendFrame(env, S.Hello(claim));
    }

    method OnClose()
      requires Valid()
      modifies this, table
      ensures Valid() && View() == S.SocketClosed(old(View()))
    {
      hide S.Inv;
      S.StepKeeps(View(), cfg, S.Event(S.Env(0, false), S.SocketGone));
      ready := false;
      phase := S.Closed;
      pumping := false;
      alarm := alarm.(active := false);
      table.CloseAll();
    }

    method Close(env: S.Env)
      requires Valid()
      modifies this
      ensures Valid() && View() == S.Close(old(View()), env)
    {
      hide S.Inv;
      S.StepKeeps(View(), cfg, S.Event(env, S.CallClose));
      pumping := false;
      var _ := SendFrame(env, S.Goodbye);
    }

    // ---- frames ------------------------------------------------------------------------------

    method HandleWelcome(env: S.Env, etag: Option<Bytes>, retained: nat, deadman: int)
      requires Valid()
      modifies this, blob
      ensures Valid() && fresh(blob.received) && fresh(blob.buf)
      ensures View() == S.Welcome(old(View()), cfg, env, etag, retained, deadman)
    {
      hide S.Inv, S.Gate, S.Greet, S.CheckLive, Intents.RunInv, Blob.CountTrue;
      S.WelcomeKeeps(View(), cfg, env, etag, retained, deadman);
      StartOver(etag, retained, deadman);
      blob.Reset();
      PassGate(env);
      BringUp(env);
      CheckLiveTransition();
    }

    /** Everything is discarded that must come again after this WELCOME. */
    method StartOver(etag: Option<Bytes>, retained: nat, deadman: int)
      modifies this`hubEtag, this`deadmanMs, this`adoptedChannels, this`requiredRetained, this`phase, this`readyPending, this`readyAttempts
      ensures View() == S.Session(
                old(Core()).(hubEtag := etag, deadmanMs := deadman, adopted := {}, required := retained, phase := S.Syncing,
                             readyPending := false, readyAttempts := 0), log)
    {
      hide Intents.RunInv, Blob.CountTrue;
      NoteWelcome(etag, retained, deadman);
      phase, readyPending, readyAttempts := S.Syncing, false, 0;
    }

    method NoteWelcome(etag: Option<Bytes>, retained: nat, deadman: int)
      modifies this`hubEtag, this`deadmanMs, this`adoptedChannels, this`requiredRetained
      ensures View() == S.Session(
                old(Core()).(hubEtag := etag, deadmanMs := deadman, adopted := {}, required := retained), log)
    {
      hide Intents.RunInv, Blob.CountTrue;
      hubEtag, deadmanMs := etag, deadman;
      adoptedChannels, requiredRetained := {}, retained;
    }

    /** The pump starts, the clock is asked for, and the wishes are subscribed to. */
    method BringUp(env: S.Env)
      modifies this
      ensures View() == S.Greet(old(View()), cfg, env)
    {
      pumping := true;
      var _ := SendFrame(env, S.Clock);
      if cfg.subscribes {
        var _ := SendFrame(env, S.Subscribe);
      }
    }

    /** The readiness gate: adopt the stored catalog if the hub names its etag and it decodes, else fetch. */
    method PassGate(env: S.Env)
      requires Shape()
      modifies this, blob
      ensures Shape() && (fresh(blob.received) || blob.received == old(blob.received))
      ensures fresh(blob.buf) || blob.buf == old(blob.buf)
      ensures View() == S.Gate(old(View()), cfg, env)
    {
      hide S.Fetch, Intents.RunInv, Blob.CountTrue;
      if cached.Some? && hubEtag == Some(cached.value.etag) {
        ready := true;
        readyEtag := Some(cached.value.etag);
        var catalog := cfg.decode(cached.value.bytes);
        if catalog.Some? {
          ring := Some(S.Ring(cached.value.bytes, catalog.value));
        } else {
          cached := None;
          ready := false;
          Fetch(env);
        }
      } else {
        ready := false;
        cached := None;
        Fetch(env);
      }
    }

    method HandleBlobChunk(env: S.Env, payload: Bytes)
      requires Valid()
      modifies this, blob, blob.received, blob.buf
      ensures Valid()
      ensures View() == S.BlobChunk(old(View()), cfg, env, payload)
    {
      hide S.Inv, S.Adopt, Blob.ParseChunk, Blob.CountTrue;
      S.ChunkKeeps(View(), cfg, env, payload);
      var parsed := Blob.ParseChunk(payload);
      if parsed.None? { return; }
      var done, refused := ReceiveChunk(parsed.value, env.now);
      if refused {
        var _ := SendFrame(env, S.Goodbye);
      } else if done.Some? {
        Adopt(env, done.value);
      }
    }

    method ReceiveChunk(c: Blob.Chunk, now: int) returns (done: Option<Bytes>, refused: bool)
      requires Shape()
      modifies blob, blob.received, blob.buf
      ensures Shape()
      ensures blob.received == old(blob.received) || fresh(blob.received)
      ensures blob.buf == old(blob.buf) || fresh(blob.buf)
      ensures var r := Blob.Receive(old(blob.State()), c, now, cfg.cap);
              blob.State() == r.transfer && done == r.done && refused == r.refused
    {
      hide Blob.CountTrue;
      done, refused := None, false;
      if c.ns != 0 { return; }
      if c.count == 0 || c.index >= c.count { return; }
      if !blob.active || blob.received.Length != c.count || blob.buf.Length != c.total {
        if c.total > cfg.cap {
          refused := true;
          return;
        }
        var begun := blob.Start(c, now);
        if !begun { return; }
      }
      var accepted := blob.Put(c, now);
      if !accepted { return; }
      var complete := blob.IsComplete();
      if complete {
        done := Some(blob.buf[..]);
        blob.Reset();
      }
    }

    /** A whole catalog arrived. */
    method Adopt(env: S.Env, bytes: Bytes)
      modifies this
      ensures View() == S.Adopt(old(View()), cfg, env, bytes)
    {
      hide S.SendReady, S.CheckLive, Intents.RunInv, Blob.CountTrue;
      var digest := cfg.etagOf(bytes);
      var verified := hubEtag == Some(digest);
      var catalog := cfg.decode(bytes);
      if catalog.None? { return; }
      ring := Some(S.Ring(bytes, catalog.value));
      if verified {
        log := log + [S.Saved(S.Stored(digest, bytes), Core())];
      }
      SendCatalogReady(env, digest);
      CheckLiveTransition();
    }

    /** `latch`: the decoded snapshot shows the e-stop latch. */
    method HandleState(channel: nat, latch: bool)
      requires Valid()
      modifies this
      ensures Valid() && View() == S.StateFrame(old(View()), channel, latch)
    {
      hide S.Inv, S.CheckLive, Intents.RunInv, Blob.CountTrue;
      S.StateKeeps(View(), cfg, channel, latch);
      readyPending := false;
      ready := true;
      if channel == S.CH_SAFETY && alarm.active && latch {
        alarm := alarm.(active := false);
      }
      if channel !in adoptedChannels {
        adoptedChannels := adoptedChannels + {channel};
        CheckLiveTransition();
      }
    }

    // ---- intents ---------------------------------------------------------------------------------

    method SendIntent(env: S.Env, channel: nat, names: seq<int>, fits: bool)
      requires Valid()
      modifies this, table
      ensures Valid() && View() == S.SendIntent(old(View()), env, channel, names, fits)
    {
      hide S.Inv, S.SortKeys, S.Known, S.Ascending, Intents.Extend;
      S.IntentKeeps(View(), cfg, env, channel, names, fits);
      if phase != S.Live { return; }
      if ring.None? || channel !in ring.value.catalog { return; }
      var entry := ring.value.catalog[channel];
      if !entry.intent { return; }
      var keys := S.SortKeys(names);
      var encodes := fits && S.Known(keys, entry.keys) && S.Ascending(keys);
      var id := table.Issue(channel, encodes, env.open);
      if encodes {
        var _ := SendFrame(env, S.Intent(channel, id, id, keys));
      }
    }

    method HandleEcho(id: nat)
      requires Valid()
      modifies table
      ensures Valid() && View() == S.Settle(old(View()), Intents.Echo(id))
    {
      hide S.Inv, Intents.Extend;
      S.SettleKeeps(View(), cfg, Intents.Echo(id));
      table.Echo(id);
    }

    method HandleNack(channel: nat, named: Option<nat>, seqNo: Option<nat>)
      requires Valid()
      modifies table
      ensures Valid() && View() == S.Settle(old(View()), Intents.Nack(channel, named, seqNo))
    {
      hide S.Inv, Intents.Extend;
      S.SettleKeeps(View(), cfg, Intents.Nack(channel, named, seqNo));
      table.Nack(channel, named, seqNo);
    }

    method OnIntentTimeout(ticket: nat)
      requires Valid()
      modifies table
      ensures Valid() && View() == S.Settle(old(View()), Intents.TimerFires(ticket))
    {
      hide S.Inv, Intents.Extend;
      S.SettleKeeps(View(), cfg, Intents.TimerFires(ticket));
      table.TimerFires(ticket);
    }

    // ---- the pump -----------------------------------------------------------------------------------

    method PumpCatalogReady(env: S.Env)
      modifies this
      ensures View() == S.PumpReady(old(View()), cfg, env)
    {
      if !readyPending { return; }
      if readyAttempts >= cfg.readyMax {
        readyPending := false;
        return;
      }
      if env.now - lastReadyMs < cfg.gapMs { return; }
      var _ := SendFrame(env, S.CatalogReady(readyEtag));
      lastReadyMs := env.now;
      readyAttempts := readyAttempts + 1;
    }

    method PumpBlobRepair(env: S.Env)
      requires Shape()
      modifies this, blob
      ensures Shape() && (blob.received == old(blob.received) || fresh(blob.received))
      ensures blob.buf == old(blob.buf) || fresh(blob.buf)
      ensures View() == S.PumpRepair(old(View()), cfg, env)
    {
      hide Blob.CountTrue, Blob.Missing;
      var complete := blob.IsComplete();
      if !blob.active || complete { return; }
      if env.now - blob.startMs >= cfg.abandonMs {
        RequestCatalog(env);
        return;
      }
      if env.now - blob.progressMs < cfg.gapMs { return; }
      var missing := blob.MissingIndices();
      if |missing| > 0 {
        var ask := if |missing| <= Blob.REPAIR_MAX then missing else missing[..Blob.REPAIR_MAX];
        var _ := SendFrame(env, S.BlobRequest(Some(ask)));
        blob.progressMs := env.now;
      }
    }

    method AssertEstopRaw(env: S.Env)
      requires Valid()
      modifies this
      ensures Valid() && View() == S.RaiseEstop(old(View()), env)
    {
      hide S.Inv, Intents.RunInv, Blob.CountTrue;
      S.RaiseKeeps(View(), cfg, env);
      var seqNo := alarm.next;
      alarm := S.Alarm(true, seqNo, seqNo + 1, 1, env.now);
      var _ := SendFrame(env, S.Estop(seqNo));
    }

    method PumpEstopRepeat(env: S.Env)
      modifies this
      ensures View() == S.PumpEstop(old(View()), env)
    {
      hide Intents.RunInv, Blob.CountTrue;
      if !alarm.active { return; }
      if alarm.attempts >= S.ESTOP_MAX {
        alarm := alarm.(active := false);
        return;
      }
      if env.now - alarm.lastMs < S.ESTOP_GAP_MS { return; }
      var _ := SendFrame(env, S.Estop(alarm.seqNo));
      alarm := alarm.(attempts := alarm.attempts + 1, lastMs := env.now);
    }

    method PumpTick(env: S.Env)
      requires Valid()
      modifies this, blob
      ensures Valid()
      ensures View() == S.Tick(old(View()), cfg, env)
    {
      hide S.Inv, S.PumpReady, S.PumpRepair, S.PumpEstop, S.PingInterval;
      S.TickKeeps(View(), cfg, env);
      if !pumping || !env.open { return; }
      PumpCatalogReady(env);
      PumpBlobRepair(env);
      PumpEstopRepeat(env);
      if env.now - lastTxMs >= S.PingInterval(deadmanMs) {
        var _ := SendFrame(env, S.Ping);
      }
    }
  }
}
