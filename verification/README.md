# SlopSync client, verified

A Dafny model of the client half of SlopSync, a protocol by which a browser or a
MultiFunPlayer plugin talks to a motion-control hub, and of the configuration
parser of the bench hub. `dafny verify dfyconfig.toml` checks the whole project.

| file | what it models |
|---|---|
| `Session.dfy`, `SessionRuns.dfy`, `Sync.dfy`, `Adoption.dfy`, `Traffic.dfy`, `Declaration.dfy`, `KeepAlive.dfy`, `Estop.dfy` | the session of `clients/js/session.js` as a state machine over frames, timers and calls; what every run keeps; a whole synchronisation; which catalog is held; what every event puts on the wire; the repeated readiness declaration; transmit silence; the repeated e-stop frame |
| `Client.dfy` | the same session as the object it is, each handler proved to be the machine's transition and to keep its invariant |
| `Intents.dfy` | the ledger of pending intents and the table that implements it |
| `Blob.dfy`, `Reassembler.dfy` | chunked transfer with selective repair, and the two reassemblers |
| `Cbor.dfy`, `JsCbor.dfy`, `Hello.dfy`, `Frames.dfy`, `Crc32.dfy`, `CrcDivision.dfy`, `Packed.dfy` | the wire codecs |
| `Emitter.dfy`, `Pacing.dfy`, `Handoff.dfy`, `Hermite.dfy` | the segment emitter of `clients/mfp/SlopSync.cs`: cursor, token bucket, schedule, tangent limiter |
| `Clock.dfy` | the clock exchange over wrapping counters |
| `Bench.dfy`, `BenchText.dfy`, `BenchFile.dfy`, `BenchParser.dfy` | the `.bench` configuration parser |
| `Wire.dfy` | bytes and fixed-width integers |

What is outside the program is a parameter: SHA-256 truncated to an etag and
`decodeCatalog` are arbitrary functions of the session's `Config`; the stored
cache, the clock and the socket's ready state come with each event and may be
anything; float32 conversion, `strtoul` and `strtof` are arbitrary functions.
A handler is one atomic step. A session run is any sequence of events, so it
includes reconnects, corrupted caches, failed decodes, late frames and frames on
a socket that is not open. Everything that leaves the session is logged with the
state it left in, which is what "at that moment" means below.

Some properties one might expect are false of the code. Each has a lemma that
shows it, with the condition under which the property does hold:

- LIVE does not mean that the catalog is the hub's current one
  (`Adoption.LiveOnOldCatalog`: the catalog survives a reconnect;
  `Adoption.LiveOnUnverified`: bytes of another hash are adopted all the same).
  `Adoption.OtherStep` gives the exact condition for every step and
  `Adoption.LiveOnOtherExactly` for every run; `Adoption.StaleExactly` is the case
  of a WELCOME.
- The blob header does not tell two blobs of one size apart, so their chunks can
  blend; `Blob.BlendsExactly`: if and only if the blobs differ in two slices or
  more. Blobs that differ in size never blend (`Blob.OnlyWholeBlobs`). The session
  then declares the digest of the blend, so its claim stays honest.
- An intent issued while its 16-bit id is still pending displaces the older one
  from the map. The older then outlives even a close
  (`Intents.CollisionOutlivesClose`, reached from a new session in
  `Intents.CollisionReached`), and its own timer, when it fires, takes the newer
  one's entry from the map, so that no ECHO finds the newer one any more
  (`Intents.LateTimerOrphans`). `Intents.TightExactly` and
  `Intents.CloseSettlesExactly` give the condition.
- The magnitude limiter keeps wrong-signed tangents, so with linear
  interpolation every reversal overshoots, clamped to the stops or not
  (`Handoff.LinearReversalOvershoots`);
  and where ScriptScale pushes one end or both ends of a span against a stop, the
  velocities no longer fit the travel left (`Handoff.OneStopOvershoots`,
  `Handoff.SaturatedSpanLeaves`). `Handoff.WireSpanPreserved` gives the exact
  tangents for every span.
- A grant between a half and one segment per second without a burst gives a bucket
  that never fills, and nothing is ever sent: `Emitter.GrantSendsExactly`.
- The browser's decoder does not refuse a message cut short: a byte past the end
  reads as 0 or NaN (`JsCbor.CutReadsZero`), and with four bytes of memory behind the
  message no cut is refused at all (`JsCbor.CutGoesUnnoticed`). Its value is right if
  and only if the position it returns is within the buffer (`JsCbor.BrowserExactly`);
  `cbDecodeFull` drops that position.
- The raw e-stop frame is repeated until the latch shows only while the pump runs:
  asserted before a WELCOME it is sent once (`Estop.OnceBeforeWelcome`). With the pump
  running it is repeated up to twenty times (`Estop.RepeatedUntilLatch`).
- The deadman window is kept from 200 ms up, and from no less
  (`KeepAlive.KeptAliveExactly`).
- The clock estimate is half a turn off when the offset is within one delay of
  the edge of the 32-bit window (`Clock.AccurateExactly`).
- The bench parser cuts a number to 32 bits before it checks the number's range,
  so an id past 32 bits can pass and is then stored as another: 0x100000080 as 0x80
  (`Bench.WideIdStored`, `Bench.HeaderIdExactly`, `Bench.RangesExactly`). Its message says that ids
  0x0001 to 0x007F are reserved; the code refuses 0 as well, and the model follows
  the code.

## Model

| member | source | states |
|---|---|---|
| `SessionRuns.EtagsHonest` | clients/js/session.js:340-426 | in every run each etag in a HELLO or a first or repeated CATALOG_READY is the hash of catalog bytes held at that moment; CATALOG_READY only for bytes that decoded; only bytes hashing to the hub's etag are stored |
| `SessionRuns.IntentsHonest` | clients/js/session.js:650-705 | in every run an INTENT frame leaves only in LIVE, for an INTENT channel of the adopted catalog, with schema keys strictly ascending, header seq equal to its 16-bit id, and its promise pending |
| `SessionRuns.LiveExactly` | clients/js/session.js:891-941 | in every run the phase is LIVE if and only if the last WELCOME still stands, a catalog has been adopted, and at least the promised number of distinct STATE channels has arrived since that WELCOME |
| `SessionRuns.IntentLeavesExactly` | clients/js/session.js:650-705 | sendIntent sends if and only if the channel permits it, the socket is open, values fit and the names are distinct schema keys; the frame carries exactly those keys |
| `SessionRuns.LedgerFollows` | clients/js/session.js:943-993 | the session's ledger after any run is the ledger after the intent steps that run asked for |
| `SessionRuns.SessionSettlesOnce` | clients/js/session.js:1142-1155 | in every session run no intent is settled twice, every settlement is of a registered intent, registered = settled + waiting, and nothing is pending while the phase is CLOSED |
| `Session.RunKeeps` | clients/js/session.js:278-300 | the session invariant (held bytes decode to the held catalog, the cache hashes to its etag, a pending declaration names the held bytes, LIVE exactly when enough has arrived, all log entries honest, the ledger balanced) survives every run from any state that has it |
| `Session.StepKeeps` | clients/js/session.js:1027-1057 | every frame, timer and call keeps that invariant |
| `Session.WelcomeKeeps` | clients/js/session.js:774-889 | a WELCOME keeps it through both sides of the readiness gate, including a cached catalog that no longer decodes |
| `Session.AdoptKeeps` | clients/js/session.js:493-508 | adopting, storing and declaring a fetched catalog keeps it, verified or not, sent or not |
| `Session.TickKeeps` | clients/js/session.js:1060-1070 | a pump tick keeps it: a repeated CATALOG_READY still names the bytes held |
| `Session.IntentKeeps` | clients/js/session.js:650-705 | issuing an intent keeps it, whether or not the values encode and the socket is open |
| `Sync.SyncCompletes` | clients/js/session.js:476-509 | from any reachable state, after a WELCOME naming the hash of a decodable catalog: once all its chunks have arrived in any order, with duplicates, among any other traffic and any payloads the session drops, and the promised STATE channels too, before any tick finds the transfer as old as the abandon limit, the session is LIVE on exactly that catalog, stored and declared |
| `Sync.RepairsFetch` | clients/js/session.js:428-437 | a transfer with n chunks missing and ceil(n / 32) ticks, each a gap after the last progress and within the abandon limit: while the pump runs every tick that finds the transfer under way puts its repair request on the wire, and once each is answered, in any order among any traffic, exactly that catalog is adopted, stored and declared |
| `Sync.RoundAsks` | clients/js/session.js:428-437 | such a tick does put on the wire a request for exactly the first missing indices, 32 at most |
| `Sync.SentPayloadIsHonest` | clients/js/catalog.js:104-118 | the payload a hub sends for a chunk of a blob is read as that chunk |
| `Sync.ReceiveChunk` | clients/js/session.js:476-494 | each honest chunk either adds its index to what the transfer holds or completes it with exactly the blob |
| `Adoption.OtherStep` | clients/js/session.js:493-508 | for every step of every reachable session, exactly when it then holds a catalog other than the announced one: at a WELCOME, if it held one of another hash and the cache has no decodable catalog of the announced hash; at a chunk that completes decodable bytes, if those have another hash; otherwise as before |
| `Adoption.LiveOnOtherExactly` | clients/js/session.js:891-896 | in every run the session is LIVE on a catalog other than the announced one if and only if the WELCOME stands, enough STATE channels arrived, and the catalog last adopted has another hash than the last WELCOME announced |
| `Adoption.LiveOnUnverified` | clients/js/session.js:493-508 | a new session that is sent one chunk of a decodable catalog of another hash is LIVE on it |
| `Adoption.LiveOnOldCatalog` | clients/js/session.js:824-847 | after any adoption, a reconnect without a stored catalog is LIVE at once on the old catalog whatever etag the hub announces |
| `Adoption.StaleExactly` | clients/js/session.js:850-896 | after a WELCOME the session holds a catalog other than the announced one if and only if it already held one of another hash and the cache has no decodable catalog of the announced hash; it is then LIVE at once if and only if nothing was promised |
| `Traffic.RunAdds` | clients/js/session.js:774-1178 | in every run the frames on the wire are exactly those an independent account of the protocol expects, event by event, in order and none besides |
| `Traffic.StepAdds` | clients/js/session.js:1060-1070 | the same for one event: which frames every handler, tick and call sends, and that nothing leaves a socket that is not open; a PING exactly when a tick has nothing else to send and the wire was silent for the interval |
| `Traffic.WelcomeAsksExactly` | clients/js/session.js:850-889 | a WELCOME asks for the catalog, first and once, if and only if the client fetches on its own and its cache has no decodable catalog of the announced hash; the cache is kept only on a hit |
| `Traffic.HelloClaims` | clients/js/session.js:1098-1124 | the HELLO of a new socket names the stored etag if and only if the stored bytes hash to it |
| `Traffic.StoresExactly` | clients/js/session.js:493-508 | a catalog is stored if and only if a chunk completes decodable bytes of the announced hash |
| `Traffic.TickTransfers` | clients/js/session.js:428-437 | a tick gives up a transfer if and only if it is too old; a repair request counts as progress |
| `Traffic.PingIntervalIs` | clients/js/session.js:311-314 | the ping interval is six tenths of the deadman window, rounded down, within 150 and 400 ms |
| `Traffic.PingsAnswered` | clients/js/session.js:1038 | in every run there are as many PONGs as PINGs that found the socket open |
| `Traffic.ReadyFollows` | clients/js/session.js:850-916 | the data plane counts as open from a cache hit or a STATE frame on, until the next WELCOME or close |
| `Declaration.RepeatedUntilState` | clients/js/session.js:405-426 | a declaration made while the pump runs is repeated with the same etag at least every gap + 49 ms while ticks come at most 50 ms apart and no STATE frame answers, until the attempts allowed are used up and no further |
| `Declaration.StateStops` | clients/js/session.js:913-916 | once a STATE frame or a WELCOME has come nothing is declared until another catalog is adopted |
| `Declaration.BoundedSinceWelcome` | clients/js/session.js:415-426 | since a WELCOME the attempts counted are the declarations sent, at most the number allowed and one more for each chunk |
| `Declaration.UnsentArmsNothing` | clients/js/session.js:405-413 | a declaration that could not be sent starts no repetition |
| `Estop.BoundedAndSpaced` | clients/js/session.js:747-764 | in every run no assertion of the e-stop sends more than twenty frames, and any two of one assertion are at least 50 ms apart |
| `Estop.RepeatedUntilLatch` | clients/js/session.js:757-764 | from any reachable state with the pump running: while ticks come at most 50 ms apart and no latch shows, a frame leaves at least every 99 ms, and all twenty have left by a tick 1832 ms after the assertion |
| `Estop.LatchStops` | clients/js/session.js:930-934 | once the safety channel shows the latch, or the socket is gone, no e-stop frame leaves until the next assertion |
| `Estop.OnceBeforeWelcome` | clients/js/session.js:747-755 | asserted while the pump does not run, exactly one frame leaves, or none if the socket is not open, whatever follows short of a WELCOME |
| `KeepAlive.NeverSilentTooLong` | clients/js/session.js:311-328 | after a WELCOME on an open socket, for every window of at least 200 ms and every schedule of ticks at most 50 ms apart among any events, transmit silence stays below the window |
| `KeepAlive.KeptAliveExactly` | clients/js/session.js:1060-1070 | some such schedule outlasts the window if and only if the window is below 200 ms |
| `KeepAlive.TickPumps` | clients/js/session.js:1060-1070 | after any tick the wire was used within the ping interval |
| `Client.ClientSession.constructor` | clients/js/session.js:246-306 | a new session object is in the machine's start state and satisfies the invariant |
| `Client.ClientSession.SendFrame` | clients/js/session.js:323-328 | sends exactly when the socket is open, and then records the time |
| `Client.ClientSession.RequestCatalog` | clients/js/session.js:385-388 | resets the transfer and asks for the catalog |
| `Client.ClientSession.SendCatalogReady` | clients/js/session.js:405-413 | the etag is declared always, the repeat loop armed only if the frame left |
| `Client.ClientSession.CheckLiveTransition` | clients/js/session.js:891-896 | is the machine's test for LIVE |
| `Client.ClientSession.OpenSocket` | clients/js/session.js:1098-1110 | keeps a stored catalog only if it hashes to its own etag; keeps the invariant |
| `Client.ClientSession.OnOpen` | clients/js/session.js:1117-1124 | sends HELLO with the cached etag if there is one; keeps the invariant |
| `Client.ClientSession.OnClose` | clients/js/session.js:1142-1155 | closes the phase, stops the pump and rejects every pending intent; keeps the invariant |
| `Client.ClientSession.Close` | clients/js/session.js:1172-1178 | stops the pump and says GOODBYE; keeps the invariant |
| `Client.ClientSession.HandleWelcome` | clients/js/session.js:774-889 | the whole new state is the machine's WELCOME transition; keeps the invariant |
| `Client.ClientSession.PassGate` | clients/js/session.js:850-879 | adopts the cached catalog if the hub names its etag and it decodes, else forgets it and fetches |
| `Client.ClientSession.HandleBlobChunk` | clients/js/session.js:476-509 | the whole new state, over the reassembler object, is the machine's chunk transition; keeps the invariant |
| `Client.ClientSession.ReceiveChunk` | clients/js/session.js:476-494 | filter, refuse over the cap, begin, insert, and hand on a complete blob, as the value model does |
| `Client.ClientSession.Adopt` | clients/js/session.js:493-508 | adopt if it decodes, store if it verifies, declare what is held |
| `Client.ClientSession.HandleState` | clients/js/session.js:913-941 | stops the declaration loop, and the e-stop loop if the latch shows, records the channel once, and may go LIVE; keeps the invariant |
| `Client.ClientSession.SendIntent` | clients/js/session.js:650-705 | checks, draws the id, encodes, registers and sends as the machine does; keeps the invariant |
| `Client.ClientSession.HandleEcho` | clients/js/session.js:943-955 | settles the intent named, if pending; keeps the invariant |
| `Client.ClientSession.HandleNack` | clients/js/session.js:957-993 | settles by id, else header seq, else the oldest on the channel; keeps the invariant |
| `Client.ClientSession.OnIntentTimeout` | clients/js/session.js:689-692 | settles the intent whose timer fires, once; keeps the invariant |
| `Client.ClientSession.PumpCatalogReady` | clients/js/session.js:415-426 | bounded, spaced repetition of the declaration |
| `Client.ClientSession.AssertEstopRaw` | clients/js/session.js:747-755 | a new sequence number, the loop armed, the frame sent; keeps the invariant |
| `Client.ClientSession.PumpEstopRepeat` | clients/js/session.js:757-764 | stops after twenty, waits 50 ms, or repeats the frame of the same assertion |
| `Client.ClientSession.PumpBlobRepair` | clients/js/session.js:428-437 | abandons, waits, or asks for the first 32 missing indices |
| `Client.ClientSession.PumpTick` | clients/js/session.js:1060-1070 | one tick over an open socket, in the source's order; keeps the invariant |
| `Intents.SettledExactlyOnce` | clients/js/session.js:688-705 | in every run of ledger steps tickets are registered in order, none is settled twice, and those waiting are exactly the registered and unsettled: registered = settled + waiting, however often ids wrap |
| `Intents.TakeBalanced` | clients/js/session.js:943-993 | each step (issue, echo, nack, timer, close) keeps that balance and the id of every pending entry |
| `Intents.TightExactly` | clients/js/session.js:665-698 | the pending map loses sight of a waiting intent if and only if the step issues an id that is still pending |
| `Intents.RecentNeverCollides` | clients/js/session.js:665 | no such collision while nothing stays pending for 65535 later draws |
| `Intents.CollisionOutlivesClose` | clients/js/session.js:1142-1155 | after a collision a close leaves the older intent waiting on its timer |
| `Intents.CollisionReached` | clients/js/session.js:665-705 | one intent, 65534 draws that do not encode and one more intent collide; after a close nothing is pending and the first of the two registered is unsettled |
| `Intents.TimersSettleAll` | clients/js/session.js:689-692 | after any run, collisions or not, once every running timer has fired everything registered is settled |
| `Intents.CloseSettlesAll` | clients/js/session.js:1142-1155 | in a run without collisions everything registered is settled once the socket closes |
| `Intents.CloseSettlesExactly` | clients/js/session.js:1142-1155 | a close at any point of a run settles everything registered by then if and only if no intent of the run was issued with an id still pending |
| `Intents.LateTimerOrphans` | clients/js/session.js:689-692 | after a collision the older intent's timer settles the older one and removes the newer one's entry: the newer one still waits, and an ECHO naming it settles nothing |
| `Intents.EchoHitsNamed` | clients/js/session.js:943-955 | an ECHO resolves exactly the pending intent it names and removes no other; naming none it changes nothing |
| `Intents.NackHitsNamed` | clients/js/session.js:957-993 | a NACK naming a pending intent by id, or by header seq when the id names none, settles that one and removes no other |
| `Intents.NackFallsBack` | clients/js/session.js:978-992 | a NACK naming nothing pending refuses the oldest pending intent on its channel, or none |
| `Intents.IssueExactly` | clients/js/session.js:665-705 | an id is drawn always, the promise registered if and only if the values encode, pending if and only if the frame left, withdrawn otherwise; only an entry under the same id is displaced |
| `Intents.SettledForReason` | clients/js/session.js:688-705 | in every run each settlement has its cause: resolved only by an ECHO of its id, timed out only by its own timer, and likewise for NACK, failed send and close |
| `Intents.IntentTable.Issue` | clients/js/session.js:665-705 | draws the next id in 1..65535 and registers, or withdraws at once when the frame could not leave |
| `Intents.IntentTable.Nack` | clients/js/session.js:981-992 | best evidence first, with the loop for the oldest on the channel |
| `Intents.IntentTable.TimerFires` | clients/js/session.js:689-692 | a cleared timer does nothing; otherwise its intent is settled |
| `Intents.IntentTable.CloseAll` | clients/js/session.js:1149-1151 | the loop rejects every pending intent |
| `Intents.IntentTable.Oldest` | clients/js/session.js:984-986 | finds the oldest pending intent on a channel |
| `Blob.OnlyWholeBlobs` | clients/js/session.js:476-494 | under any loss, duplication, reordering, interleaving and restart, only whole blobs on offer are handed on, when blobs differ in size |
| `Blob.BlendsExactly` | clients/js/session.js:486-494 | for two blobs of one size, every stream of their chunks hands on only the one or the other if and only if they differ in one slice at most |
| `Blob.CompleteIffAllArrived` | clients/js/catalog.js:165-200 | a transfer is complete if and only if every index arrived, and then holds the blob |
| `Blob.CompleteIffNoneMissing` | clients/js/catalog.js:200-208 | while active, complete if and only if no index is missing |
| `Blob.CompleteAssembles` | clients/js/catalog.js:200-225 | a complete transfer of honest chunks holds the blob byte for byte |
| `Blob.ChunkLayout` | clients/js/catalog.js:104-118 | where each field of the chunk header lies, low byte first |
| `Blob.ForeignIgnored` | clients/js/session.js:476-494 | a chunk of another namespace, out of range, or of another store during a transfer changes nothing |
| `Blob.TakenIsProgress` | clients/js/catalog.js:165-200 | a chunk within bounds is taken in and counts as progress, duplicates included; the age counts from the first chunk |
| `Blob.RepairsRemove` | clients/js/session.js:428-437 | r fully answered repairs remove min(32 r, missing) indices |
| `Blob.RepairsSuffice` | clients/js/session.js:428-437 | ceil(missing / 32) answered repairs complete any transfer, and it holds the blob |
| `Blob.AnswersRemove` | clients/js/session.js:433-436 | answering the first k missing indices removes exactly those |
| `Blob.ChunkRoundTrip` | clients/js/catalog.js:104-118 | a chunk header that fits its fields is read back, whatever the reserved byte |
| `Reassembler.ReceiversAgree` | clients/mfp/SlopSync.cs:3118-3167 | fed the same chunks in any order with any repeats, both receivers complete together and assemble the same bytes |
| `Reassembler.BufferReassembler.Start` | clients/js/catalog.js:165-179 | begins a transfer, or leaves the receiver idle on a refused header |
| `Reassembler.BufferReassembler.Put` | clients/js/catalog.js:185-198 | copies an accepted chunk in place and counts its index once |
| `Reassembler.BufferReassembler.IsComplete` | clients/js/catalog.js:200 | the counter agrees with the flags |
| `Reassembler.BufferReassembler.MissingIndices` | clients/js/catalog.js:203-208 | the ascending indices not received |
| `Reassembler.DictionaryReassembler.Insert` | clients/mfp/SlopSync.cs:3129-3142 | restarts on another shape, then stores the chunk under its index |
| `Reassembler.DictionaryReassembler.MissingIndices` | clients/mfp/SlopSync.cs:3146-3152 | the ascending indices without a chunk |
| `Reassembler.DictionaryReassembler.Assemble` | clients/mfp/SlopSync.cs:3156-3166 | joins the chunks in index order, or nothing if incomplete or of the wrong length |
| `Cbor.RoundTrip` | clients/js/cbor.js:121-178 | every nested value of the profile, anywhere in a message, decodes to itself and to the exact end position |
| `Cbor.PrefixFree` | clients/js/cbor.js:27-109 | no encoding is a proper prefix of another, and distinct values encode apart |
| `Cbor.EncodingShortest` | clients/js/cbor.js:27-109 | from whatever bytes the decoder reads a value, the encoder needs no more of them |
| `Cbor.HeadShortest` | clients/js/cbor.js:27-43 | no head that decodes to an argument is shorter than the encoder's |
| `Cbor.StandardIntegers` | clients/js/cbor.js:27-43 | the encodings of integers in Appendix A of RFC 8949 |
| `Cbor.StandardLong` | clients/js/cbor.js:27-43 | and of one of eight bytes |
| `Cbor.StandardItems` | clients/js/cbor.js:55-109 | and of strings, arrays, maps, floats and simple values |
| `Cbor.CbMap` | clients/js/cbor.js:99-109 | accepts if and only if keys strictly ascend, and lays out the map's encoding |
| `Cbor.ConcatBytes` | clients/js/cbor.js:46-53 | fills one buffer with the parts in order |
| `JsCbor.BrowserExactly` | clients/js/cbor.js:121-178 | for any bytes, whatever lies behind them in memory: the browser's decoder returns a value and an end within the buffer if and only if the strict decoder reads that value up to there; it refuses for another reason than missing bytes if and only if the strict one does |
| `JsCbor.BrowserRoundTrip` | clients/js/cbor.js:121-178 | the round trip anywhere in a message, through the browser's own decoder |
| `JsCbor.CutRefused` | clients/mfp/SlopSync.cs:2754-2823 | the strict decoder reads from a buffer cut short exactly the items that end before the cut, and misses bytes for every other |
| `JsCbor.CutGoesUnnoticed` | clients/js/cbor.js:181-184 | every profile value cut short anywhere is refused by the strict decoder and, with four bytes behind it, read by the browser's, to a position outside the buffer |
| `JsCbor.CutReadsZero` | clients/js/cbor.js:121-178 | the map {1: 7} cut before its value reads as {1: 0} |
| `JsCbor.CbDecode` | clients/js/cbor.js:121-178 | the recursive decoder with its loops computes that reading, NaN positions and errors included |
| `JsCbor.DecodeArray` | clients/js/cbor.js:162-166 | the array loop |
| `JsCbor.DecodeMap` | clients/js/cbor.js:167-176 | the map loop, where a repeated key keeps its place |
| `Hello.BuildHello` | clients/mfp/SlopSync.cs:2453-2495 | for every combination of options the bytes decode, to their last byte, to a map that answers every key exactly as the request asks |
| `Hello.HelloLayout` | clients/mfp/SlopSync.cs:2459-2464 | the separately computed count is the number of entries written |
| `Hello.HelloRoundTrip` | clients/mfp/SlopSync.cs:2754-2823 | the HELLO map is in the profile and decodes to itself before any suffix |
| `Hello.PublishCarries` | clients/mfp/SlopSync.cs:2485-2493 | each publish map has ascending keys and answers exactly the wish, with burst and curve present or absent |
| `Hello.SubscribeCarries` | clients/mfp/SlopSync.cs:2475-2481 | each subscription map likewise |
| `Hello.WritePublish` | clients/mfp/SlopSync.cs:2487-2492 | the entry count written ahead matches the entries written |
| `Hello.CborWriter.WriteHead` | clients/mfp/SlopSync.cs:2696-2709 | the plugin's head is the browser client's head |
| `Frames.SplitInvertsPack` | clients/js/frames.js:253-266 | any concatenation of encoded frames followed by anything splits into exactly those frames and then the rest |
| `Frames.PackInvertsSplit` | clients/js/frames.js:253-266 | for any buffer the re-encoded frames are a prefix whose remainder is shorter than a header or declares more than remains |
| `Frames.RoundTripExactly` | clients/js/frames.js:172-182 | a frame survives the wire if and only if every field and the payload length fit |
| `Frames.HeaderLayout` | clients/js/frames.js:172-182 | where each field of the header lies, low byte first |
| `Frames.EncodeFrame` | clients/js/frames.js:172-182 | writes the frame's bytes in place |
| `Frames.ParseFrames` | clients/js/frames.js:253-266 | the walking loop computes the split |
| `CrcDivision.CrcIsCheckSequence` | clients/js/frames.js:193-208 | for every message the CRC is the frame check sequence of section 3.2.9 of IEEE 802.3: a remainder of long division by x^32 + x^26 + ... + 1 |
| `CrcDivision.PolyIsGenerator` | clients/js/frames.js:193-201 | the reflected constant is that generator |
| `Crc32.BodyReadsBack` | clients/js/frames.js:217-226 | the receiver of an ESTOP frame reads the cause, origin and sequence number cut to their widths |
| `Crc32.ComputeCrc` | clients/js/frames.js:204-208 | the table-driven loop is the bit-by-bit reflected CRC for every byte sequence |
| `Crc32.BuildTable` | clients/js/frames.js:193-201 | entry n is eight steps of n |
| `Crc32.TableStep` | clients/js/frames.js:206 | one lookup is eight bit steps |
| `Crc32.WindowDetected` | clients/js/frames.js:204-208 | messages that differ only within four consecutive bytes never share a CRC |
| `Crc32.EstopChecksDiffer` | clients/js/frames.js:217-226 | ESTOP bodies with equal check bytes are equal |
| `Crc32.EncodeEstop` | clients/js/frames.js:217-226 | magic, cut fields and the CRC of both, in place |
| `Packed.ScanAt` | clients/js/catalog.js:553-612 | the scan reads exactly the fields that lie within the payload, each at the sum of the widths before it |
| `Packed.AppendOnly` | clients/js/catalog.js:553-612 | lengthening payload or layout never changes what an earlier field says |
| `Packed.NamesAppendOnly` | clients/js/catalog.js:553-612 | nor what a name says, when no two fields share a key |
| `Packed.HoleIsTransparent` | clients/js/catalog.js:559-565 | a sized field of unknown type is a hole of exactly that width: later fields read as if it were not there |
| `Packed.UnsizedStops` | clients/js/catalog.js:559-565 | without a size nothing from it on is read |
| `Packed.DeclarationIgnored` | clients/js/catalog.js:566-574 | on a known type a declared size changes nothing |
| `Packed.IntReadsBack` | clients/js/catalog.js:576-583 | every integer a hub packs in range is read back from any position |
| `Packed.IntFieldReads` | clients/js/catalog.js:606-609 | what a number field says, times its scale, is the integer packed |
| `Packed.FlagsArrive` | clients/js/catalog.js:595-603 | eight flags packed by the hub arrive under their names, wherever in the payload their byte lies |
| `Packed.OnlyNames` | clients/js/catalog.js:600-602 | the named bits have exactly the nonempty names of the layout as keys |
| `Packed.DecodedSays` | clients/js/catalog.js:553-612 | with separate keys the object says of every known field within the payload what its bytes say |
| `Packed.DecodedOnly` | clients/js/catalog.js:553-612 | and has no other key |
| `Packed.PaddedTextReads` | clients/js/catalog.js:585-592 | a zero-padded text is read back |
| `Packed.DecodePacked` | clients/js/catalog.js:553-612 | the loop with the moving offset returns the object of the scan |
| `Packed.PlaceFields` | clients/mfp/SlopSync.cs:3000-3028 | offsets accumulate and stop at the first unknown type |
| `Packed.ReadersAgree` | clients/mfp/SlopSync.cs:3069-3090 | before the first unknown type the plugin reads a number if and only if the browser's scan reaches the field and it is numeric, and then the same number |
| `Packed.HoleDivides` | clients/mfp/SlopSync.cs:3023 | past a sized hole only the browser client reads on |
| `Hermite.ShapePreservedExactly` | clients/mfp/SlopSync.cs:1338-1347 | with both tangents capped at 1.5 chords, monotone, never leaving the interval, and neither tangent opposing the chord are one |
| `Hermite.MonotoneExactly` | clients/mfp/SlopSync.cs:1338-1347 | for any tangents, p and q in chord units: the span is monotone if and only if p, q >= 0 and p + q <= 3 or (p + q - 3)^2 <= p q |
| `Hermite.StaysExactly` | clients/mfp/SlopSync.cs:1338-1347 | for any tangents: the span stays between its values if and only if p, q >= 0, q <= 3 or (q - 3)^2 <= 4 p, and p <= 3 or (p - 3)^2 <= 4 q |
| `Hermite.FlatSpan` | clients/mfp/SlopSync.cs:1927-1929 | on a plateau only resting tangents stay |
| `Handoff.WireSpanPreserved` | clients/mfp/SlopSync.cs:1812-1827 | for any keyframes, tangents, speed, scale and inversion, after limiting, the clamp to 32.767 and the clamp of both targets to 0..1: the exact chord-unit regions in which the played span is monotone and in which it stays between its targets; where the target clamp changes nothing both hold if and only if neither tangent opposes the chord |
| `Handoff.LimitCaps` | clients/mfp/SlopSync.cs:1933-1950 | the limited tangent fits the cap of both spans that meet at the knot |
| `Handoff.LimitSign` | clients/mfp/SlopSync.cs:1933-1950 | limiting keeps a tangent's direction, and stops it exactly at knots that cannot carry motion |
| `Handoff.LimitNearest` | clients/mfp/SlopSync.cs:1933-1950 | of all tangents within 1.5 chords of both spans the limiter takes the one nearest to the script's own |
| `Handoff.TangentIs` | clients/mfp/SlopSync.cs:1892-1919 | the tangent is the spline's where there is one, none for a stepped script or a span too short, else the chord |
| `Handoff.EndVelExactly` | clients/mfp/SlopSync.cs:1812-1827 | no end velocity if and only if the span is the last or precedes a gap; otherwise the limited tangent per wall-clock second, scaled and turned over, within 32.767; rest for a stepped script |
| `Handoff.TargetFacts` | clients/mfp/SlopSync.cs:1536-1541 | targets lie in 0..1, the default stays put, inversion is a reflection |
| `Handoff.LinearReversalOvershoots` | clients/mfp/SlopSync.cs:1892-1919 | with linear interpolation the span after every reversal leaves its interval, whether or not the 0..1 clamp touches its ends |
| `Handoff.SaturatedSpanLeaves` | clients/mfp/SlopSync.cs:1536-1541 | a span flattened against a stop stays there if and only if at each end the script tangent is zero or the knot cannot carry motion |
| `Handoff.OneStopOvershoots` | clients/mfp/SlopSync.cs:1818-1823 | a script with one end at a stop, no tangent opposing, that overshoots |
| `Emitter.RunFair` | clients/mfp/SlopSync.cs:1612-1707 | in every run, since the last re-anchor, spans went out in strictly increasing order, and every span behind the cursor was sent, is a gap, or had ended by the media position of the tick that passed it |
| `Emitter.WalkFair` | clients/mfp/SlopSync.cs:1661-1707 | one tick sends at most four live spans in order, one token each, and stops only for a stated reason |
| `Emitter.TickKeeps` | clients/mfp/SlopSync.cs:1564-1718 | every tick, early returns included, keeps credit in bounds and the cursor fair |
| `Emitter.TickCatchesUp` | clients/mfp/SlopSync.cs:1661-1707 | after a tick with room to spare the cursor is past every span that has come due and not begun |
| `Emitter.SpansSentAhead` | clients/mfp/SlopSync.cs:1612-1707 | over any ticks with room to spare, each finding the media within what the last looked ahead to, every span that is no gap and begins between the first and the last position is sent by a tick that finds the media before its start |
| `Pacing.AnchorsExactly` | clients/mfp/SlopSync.cs:1594-1633 | a tick takes its place anew if and only if there was no position, the media moved on by more than 0.25 s or back by more than 0.05 s, or a resync was pending or asked for; then and only then it takes up the script loaded, and it asks again while there is none |
| `Pacing.JumpSendsHere` | clients/mfp/SlopSync.cs:1612-1661 | after a re-anchor the span the media landed in is the first sent, if it is no gap, the media moves and there is a token |
| `Pacing.SendsExactlyDue` | clients/mfp/SlopSync.cs:1656-1707 | a tick no limit stops sends exactly the spans from its place on that are no gap, end after the position and start within 120 ms of playback |
| `Pacing.CreditExact` | clients/mfp/SlopSync.cs:1654 | tokens left + segments sent equals the smaller of the depth and tokens held + rate times elapsed; a tick that does not emit changes nothing |
| `Pacing.OwedIsPaid` | clients/mfp/SlopSync.cs:1679-1703 | with a token the first span owed is the first sent; without one nothing is sent |
| `Pacing.PaidInTime` | clients/mfp/SlopSync.cs:1654-1703 | however ticks are spaced, a span owed is sent once the tokens held and what flowed in since make one: from an empty bucket within 1 / rate seconds |
| `Pacing.FrozenExactly` | clients/mfp/SlopSync.cs:1606-1607 | the standstill is the time since the media last moved by more than a nanosecond of playback |
| `Pacing.PausedExactly` | clients/mfp/SlopSync.cs:1651 | after 60 ms of standstill nothing is sent until the media moves, and then at once |
| `Pacing.GrantKept` | clients/mfp/SlopSync.cs:1401-1403 | under any ticks a session sends at most burst + rate times the distance of any two instants, by the hub's own grant |
| `Pacing.GrantPaid` | clients/mfp/SlopSync.cs:1401-1403 | and a span owed at any point of it is sent within 1 / rate seconds of that grant |
| `Emitter.CreditConserved` | clients/mfp/SlopSync.cs:1654 | over any ticks, sent + credit left is at most credit held + rate times elapsed time, credit within the bucket |
| `Emitter.TokenWindow` | clients/mfp/SlopSync.cs:1681-1703 | between any two instants, whatever ticks fall between them and however long the wait before the first, at most depth + rate times their distance segments are sent |
| `Emitter.ShallowBucketSilent` | clients/mfp/SlopSync.cs:1401-1403 | a bucket shallower than one token never sends |
| `Emitter.ShallowGrant` | clients/mfp/SlopSync.cs:1401-1403 | a grant gives such a bucket if and only if its rate is between a half and one without a usable burst |
| `Emitter.SendsExactly` | clients/mfp/SlopSync.cs:1681-1703 | some run of a fresh bucket sends if and only if its depth is at least one token |
| `Emitter.GrantSendsExactly` | clients/mfp/SlopSync.cs:1401-1403 | some run under a grant sends if and only if its rate is not between a half and one or it has a usable burst |
| `Emitter.OffsetNeverClamped` | clients/mfp/SlopSync.cs:1791 | the start-offset clamp never alters a due span's offset |
| `Emitter.StartPlusDuration` | clients/mfp/SlopSync.cs:1786-1788 | start plus duration is the media's arrival at the span's end, entered or not |
| `Emitter.SentInPhase` | clients/mfp/SlopSync.cs:1786-1791 | for every span any tick sends: the offset is within half a microsecond of the media's arrival at the span's start; offset plus duration is within 0.5005 ms of the media's arrival at the span's end unless the duration was clamped, and then off in one direction only; the start-offset clamp changed nothing |
| `Emitter.SegmentEmitter.SegTick` | clients/mfp/SlopSync.cs:1564-1718 | the method's new state and the spans it sends are those of the tick function |
| `Emitter.SegmentEmitter.EmitDue` | clients/mfp/SlopSync.cs:1661-1707 | the loop with its early exits is the walk |
| `Clock.AccurateExactly` | clients/js/session.js:517-541 | twice the offset error is at most rtt + 1 if and only if the offset lies the delays inside the signed 32-bit window, or the reply alone took 2^31 - 1 microseconds |
| `Clock.RttExact` | clients/js/session.js:533 | the round trip is exactly the two delays, whatever the offset and the wraps |
| `Clock.HubNowClose` | clients/js/session.js:544-546 | at any later time, across wraps, hubNowUs is within that error of the hub's counter |
| `Clock.WrapDiffIs` | clients/js/session.js:109-113 | the windowed difference of two readings is the one representative of the true difference |
| `BenchFile.AcceptsExactly` | hub/slopbench/src/config/ConfigParser.cpp:306-361 | for every lexer, what the parser can return for the text of some file is exactly the well-formed valid configurations whose names are tokens and whose numbers that lexer can return |
| `BenchFile.RoundTrip` | hub/slopbench/src/config/ConfigParser.cpp:97-257 | every such configuration, written out as the text of a file with each number as a token that reads as it, is read back as it was |
| `BenchText.TextGivesTokens` | hub/slopbench/src/config/ConfigParser.cpp:17-30 | whatever the text, each line gives only tokens: nonempty, without blanks or `#` |
| `BenchText.BlankSeparates` | hub/slopbench/src/config/ConfigParser.cpp:24-30 | a blank of whatever kind separates: the words before it, then the words after it |
| `BenchText.WordIsWhole` | hub/slopbench/src/config/ConfigParser.cpp:24-30 | a text without blanks is one word |
| `BenchText.CommentIgnored` | hub/slopbench/src/config/ConfigParser.cpp:323-324 | a comment is as good as the end of the line |
| `BenchText.TokensBack` | hub/slopbench/src/config/ConfigParser.cpp:24-30 | a line written from tokens is split into those tokens |
| `BenchText.Tokenize` | hub/slopbench/src/config/ConfigParser.cpp:321-329 | cutting the comment and splitting at blanks gives the tokens of the line |
| `Bench.AcceptedIsValid` | hub/slopbench/src/config/ConfigParser.cpp:306-361 | whatever the lines of tokens: ids distinct and at least 0x80, names tokens and distinct per channel, keys strictly ascending on INTENT and EVENT and absent on STATE and STREAM, min and max together, animation only on STATE, no fields on STORE, `writes` resolving to a STATE channel, every number one the lexer returned for some token |
| `Bench.AcceptedMeans` | hub/slopbench/src/config/ConfigParser.cpp:97-302 | the same spelt out for every channel, class by class |
| `Bench.StrayRefused` | hub/slopbench/src/config/ConfigParser.cpp:185-256 | a line whose keyword neither opens a block nor belongs to the current one is refused, and so is a property without exactly one value |
| `Bench.RefusalEnds` | hub/slopbench/src/config/ConfigParser.cpp:320-359 | one line refused refuses the file |
| `Bench.FieldLineKeeps` | hub/slopbench/src/config/ConfigParser.cpp:97-156 | a field line keeps a channel well formed |
| `Bench.ChannelPropKeeps` | hub/slopbench/src/config/ConfigParser.cpp:185-241 | so does every other line of a channel |
| `Bench.HeaderIdExactly` | hub/slopbench/src/config/ConfigParser.cpp:340-348 | a channel header whose id token reads as v is accepted if and only if v mod 2^32 fits 16 bits, and the id stored is v if and only if v itself fits |
| `Bench.RangesExactly` | hub/slopbench/src/config/ConfigParser.cpp:127-238 | the same for `key=`, `writes`, `capacity` and `name_max`, each with its range; `per_item_max` and both `echo_delay_ms` are always accepted, and stored as written if and only if they fit 32 bits |
| `Bench.WideIdStored` | hub/slopbench/src/config/ConfigParser.cpp:340-348 | a channel header whose id reads as 0x100000080 opens channel 0x80 |
| `BenchParser.Validate` | hub/slopbench/src/config/ConfigParser.cpp:261-302 | the two passes accept if and only if the configuration is valid |
| `BenchParser.CheckKeys` | hub/slopbench/src/config/ConfigParser.cpp:274-285 | comparing each key with the last accepts exactly strictly ascending keys |
| `BenchParser.Parser.ParseAttributes` | hub/slopbench/src/config/ConfigParser.cpp:121-148 | the attribute loop reads what the attribute grammar says |
| `BenchParser.Parser.ParseFieldLine` | hub/slopbench/src/config/ConfigParser.cpp:97-156 | appends the field or refuses, as specified |
| `BenchParser.Parser.ParseAnimateLine` | hub/slopbench/src/config/ConfigParser.cpp:158-183 | animates the first field of that name or refuses |
| `BenchParser.Parser.ParseChannelProp` | hub/slopbench/src/config/ConfigParser.cpp:185-241 | sets the property or refuses |
| `BenchParser.Parser.ParseLine` | hub/slopbench/src/config/ConfigParser.cpp:321-358 | one line's effect on mode and configuration |
| `BenchParser.Parser.LoadConfig` | hub/slopbench/src/config/ConfigParser.cpp:306-361 | returns, for the text of a file, what the specification loads, which is then well formed and valid |

## Left out

- SHA-256, UTF-8 and IEEE float rounding: the hash is any function, text is bytes, a float32 is four bytes or goes through a function parameter; NaN and infinity do not occur.
- The emitter works over reals, and so does `pingIntervalMs`, whose factor 0.6 is taken exactly.
- `JsCbor.CbDecode`: an eight-byte argument is read exactly, where a JavaScript number rounds past 2^53; running out of memory or stack is not modelled.
- `Hello.HelloRoundTrip`: uses the one decoder model for the C# reader too; the two differ only on map keys that are not integers, which HELLO does not have.
- `Packed.ReadersAgree`: says nothing past the first unknown type, where the plugin has no field.
- `BenchParser.Parser.LoadConfig`: opening the file and the error texts are not modelled; a line of nothing but vertical tabs or form feeds, which the source's trimming keeps and for which it then indexes an empty token list, is skipped.
- `Client.ClientSession.AssertEstopRaw`: whether a STATE frame shows the latch is an input of its handler; the escalation of a refused safety intent is a call any run may make.
- Each handler reads the clock once; the source may read it several times within one handler.
- The catalog decoder: `decodeCatalog` either yields channels or fails, and that is all the session uses.
- HELLO as the browser client builds it, beyond its etag: a smaller instance of the map encoder.
- Grants, roles, identity, endpoint, pairing, events, option access and logging: recorded and reported, never fed back into what is modelled.
- Reconnect backoff and token fetching: they only decide when a socket is opened, which any run may do at any time.
- The store's own effects: what is loaded later is arbitrary, so clearing it changes nothing.
- MultiFunPlayer's `KeyframeCollection`: sorted keyframes, any gap predicate, any spline tangent.
- The divergence probe, heartbeat and sample mode of the plugin.
- The hub: it appears only as a sender of honest chunks, a clock that echoes, and a writer of integers.
- Transports, discovery, probe, scope and soak tools, rendering, the registry generator and the golden-byte checks.
