# Live-event pipeline and ban-list replica

This project models how a live-room moderation tool moves events from Bilibili's live socket to many browsers, and how
every browser keeps a copy of the room's ban list. The backend is written in Python (asyncio), the browser stores in
TypeScript; both are modelled here in Dafny, and what they promise is proved over whole runs.

| file | what it models |
|---|---|
| `Protocol.dfy` | the 16-byte frame header and the parser that descends into compressed and nested frames |
| `MessageBuffer.dfy` | the bounded three-lane buffer that sheds the least important messages |
| `DanmakuClient.dfy` | the counters around that buffer, and the reconnect loop |
| `Session.dfy` | the window of recently seen message ids |
| `Bridge.dfy` | fan-out: one upstream callback, a bounded queue and a sender for every browser |
| `Replay.dfy` | what a browser that joins late is sent, and what it shows from it |
| `ChatStore.dfy` | the browser's chat list and its pinned super chats with their expiry timers |
| `BanEntry.dfy` | normalizing ban-list rows |
| `BanList.dfy` | the ban-list manager with its subscribers |
| `BanStore.dfy` | the browser's ban store, which folds snapshots and deltas |
| `Pagination.dfy` | reading a list page by page |
| `EnvFile.dfy` | rewriting login cookies in the lines of a `.env` file |
| `OrderedDict.dfy` | insertion-ordered dictionaries, shared by the others |

Objects that the source changes in place are classes here. Each of their methods is proved against a step function on an
abstract value (`Abs()`, or the fields themselves), and the theorems about whole runs are lemmas about sequences of those
steps. `dafny verify dfyconfig.toml` checks everything.

## How the model stands for the source

* **Steps.** asyncio runs one task at a time between two awaits, and the bridge's lock makes a registration and an
  event atomic with respect to each other, so one step of `Bridge.dfy` is one critical section together with the
  sentinels posted right after it. What a socket does is a step label: a send returns (`Deliver`), or raises or times
  out (`Break`). Every registration has a number of its own, which stands for the socket, its queue and its task.
* **Waiting.** `get` on an empty buffer is an attempt that parks and changes nothing.
* **Clocks** are parameters: one reading of the clock for each step, in whole seconds in the backend and in milliseconds
  in the browser.
* **Foreign code** (zlib, brotli, JSON, date parsing, `str.strip`) is a record of partial functions. The laws assumed
  of it are `Protocol.Lawful` and `BanEntry.StripsOnce` (stripping twice is stripping once, and the empty string
  stays empty), and appear in the `requires` of the lemmas that use them. The law that keeps frames and JSON documents apart is RFC 8259, sections 2 and 7: a JSON text is not empty and holds no
  NUL byte. A packed frame always holds one, because the upper byte of its header length is 0, whatever its size.
* **Decompression.** The parser has no measure for recursion through decompressed data, so `Unpack` takes a fuel that
  counts nested decompressions only, and `MoreFuel` shows that the answer does not depend on it. Recursion without
  decompression needs none: a nested payload is at least 16 bytes shorter, so exactly the streams without a payload that
  decompresses are parsed without fuel (`UncompressedTerminates`).
* **Ids of super chats.** The session never emits one without an id: backend/app/room/session.py:493-496 makes one up, for
  live events and for the initial ones. The bridge's own test for an id is only defensive; it is modelled all the same,
  and `EmptyIdDiverges` shows what would happen behind it.
* **Browsers.** `Replay.Watch` is a browser that hears events at any times of its own clock, with timers that go off at
  any time after their cards are over. `ChatStore.WatchCapped` is the same with the cap of 20 cards, and
  `ChatStore.Follow` proves the store's methods against it.
* **Durations** are computed over reals, and Python's rounding (half to even) is written out.

## Where the code does not keep a promise, or its documentation disagrees

The model follows the code. Each of these is stated exactly, as a condition that can be checked beforehand, with an input
that shows the failure where it is not visible at once.

* **Late joiners.** backend/app/room/bridge.py:355-361 keeps a super chat only if it is not over. One that arrives over,
  while a card with the same id is still active, leaves the bridge's card in place but takes it off the browser. All late
  joiners converge if and only if every super chat met the guard `Coherent` when it arrived
  (`Replay.LateJoinersConverge`, with `ChangedEndTimeDiverges` as a run). Ids that keep one end time are enough
  (`OneEndTimeCoherent`).
* **Reconnecting.** A browser that is cut off keeps its cards and connects again (frontend/src/api/ws.ts:136-144); it only
  starts afresh when it leaves the room (frontend/src/App.vue:115-124). The history is meant to outlive a typical reconnect
  burst (backend/app/room/bridge.py:53). When it has caught up it agrees with the bridge if and only if every card that it
  still shows, and that the bridge no longer had when it joined, is spoken of in the last 50 events of that moment or later
  (`Replay.JoinerStaysInStep`, `Bridge.ConnectedClientsConverge`). A gap of at most 50 events is always covered
  (`Replay.ShortGapConverges`); a deletion that is followed by 50 other events is not (`Replay.LongGapDiverges`, with
  `MissedDeletionStays` as a run), and that card stays until its end.
* **Replies to own requests.** A browser also writes its ban store when the reply to its own request comes
  (frontend/src/components/BanControls.vue:112-124, frontend/src/components/DanmakuList.vue:301-310,
  frontend/src/components/BanList.vue:86 and 122). It still agrees afterwards if and only if the reply says what is the case
  at that moment (`BanList.LocalWriteAgrees`); a reply to a ban that is handled after somebody else's unban puts the uid back
  (`BanList.LateReplyDiverges`). The next snapshot repairs it.
* **Silent refresh.** backend/app/room/banlist.py:507-508 writes the row of an unchanged uid without telling anybody.
  Which uids are banned still agrees if and only if the uid is still cached at the moment of the write
  (`BanList.ApplyRowAgrees`). An unban that comes in while a new row is being broadcast is the failing
  case: at the end of that turn a listener agrees unless the unbanned uid was cached at its beginning and its row was still
  to be written (`BanList.UnbanBetweenDiverges`). The rows agree if and only if the row is the one already cached
  (`BanList.SilentWriteExact`, with `SilentRefreshDrifts` as a run).
* **Duplicate keys.** The docstring at backend/app/bilibili/auth.py:507-510 says that later occurrences of a key are
  dropped; the code rewrites them (`EnvFile.DuplicatesStay`, `EnvFile.DuplicateExample`). It also says that missing keys
  are appended in the order of the updates (lines 511-512); the code appends them in the fixed order of the owned keys.
* **Fresh window.** backend/app/room/session.py:293 calls reconnecting a fresh observation window. It is one only through
  a disconnect of a session that has a client; connecting to another room directly keeps the window
  (`Session.FreshWindow`).
* **Long lists.** `get_ban_list` returns the whole list of a consistent server if and only if it has at most 100 pages
  (`Pagination.ConsistentRead`).

## Model

| member | source | states |
|---|---|---|
| `Bridge.FanOutExact` | backend/app/room/bridge.py:213-407 | in every reachable state what went over a client's socket is a gap-free, duplicate-free prefix of its replay followed by every later event in order; while it is registered and its sender has not failed, sent, in flight and queued make up all of it |
| `Bridge.Isolation` | backend/app/room/bridge.py:332-407 | a client's queue, sends and registration are the same in the run without the other clients' sends, failures and detachments: a slow browser holds up nobody else |
| `Bridge.StepTidy` | backend/app/room/bridge.py:213-426 | every step keeps the registries equal, every queue within its bound, and the sentinel alone in the queue of an unregistered client |
| `Bridge.ExecTidy` | backend/app/room/bridge.py:213-426 | so does every run |
| `Bridge.QueuesBounded` | backend/app/room/bridge.py:227-231 | in every reachable state the three registries agree, and a client's queue has room for the larger of the configured size and its own replay plus one, and never holds more |
| `Bridge.WhyUnregistered` | backend/app/room/bridge.py:251-262 | a registered client leaves if and only if it is detached, its failed sender removes it, an event finds its queue full, or a close ends |
| `Bridge.HistoryIsTail` | backend/app/room/bridge.py:56-61 | the history is always the last 100 events, and a replay ends with the last 50 of all |
| `Bridge.StoppedSender` | backend/app/room/bridge.py:264-311 | once unregistered, a client never comes back, nothing is put behind its sentinel any more, and its sender sends at most what is already in flight |
| `Bridge.ClosedForGood` | backend/app/room/bridge.py:409-426 | after close has begun nobody registers; after it has ended nobody is registered, and every sender that did not fail has ended or has the sentinel as its next item |
| `Bridge.ReplayState` | backend/app/room/bridge.py:178-207 | the history and the active super chats of a bridge depend on its events and registrations alone |
| `Bridge.NewClientsConverge` | backend/app/room/bridge.py:184-245 | whoever registers in any run, on a clock that never goes back and with super chats that met the guard, is queued a replay from which a browser without its cap of 20 shows exactly the bridge's super chats that are not over, each once |
| `Bridge.ConnectedClientsConverge` | backend/app/room/bridge.py:184-407 | in any run on a clock that never goes back and with super chats that met the guard: whoever is registered and has been sent everything shows exactly the bridge's super chats that are not over, each once, if and only if the cards that its browser had when it joined are covered; a browser that joined without any always does, however late it heard the events and whenever its timers went off (the cap of 20 left aside) |
| `Bridge.CappedClientsConverge` | frontend/src/stores/danmaku.ts:42-61 | the same browser with its cap of 20, joining without cards or with covered ones, never shows anything else, and shows all of them if there were never more than 20 cards |
| `Bridge.JoinPoint` | backend/app/room/bridge.py:213-245 | what a client is owed is the replay of the moment it joined, followed by every event that arrived later |
| `Bridge.ReplayContents` | backend/app/room/bridge.py:184-245 | over any run, what is queued for a new client is the last 50 of all events, each once and in order, and in front of them exactly the active super chats that are not over and that those events do not have, each once and in the bridge's order |
| `Bridge.ActiveFresh` | backend/app/room/bridge.py:199-207 | after any event and any registration the bridge keeps no super chat that is over |
| `Bridge.SenderDrains` | backend/app/room/bridge.py:289-301 | the sender of a registered client, left alone, sends everything that is queued, in order, and then waits |
| `Bridge.RoomBridge.Create` | backend/app/room/bridge.py:88-116 | a queue size that is not positive is refused; otherwise the bridge starts out without clients and with the initial super chats |
| `Bridge.RoomBridge.FillQueue` | backend/app/room/bridge.py:229-233 | a queue of that size holds the whole snapshot, in order, and does not overflow |
| `Bridge.RoomBridge.RegisterWs` | backend/app/room/bridge.py:213-245 | the client gets a queue filled from the snapshot, without overflow; after close nothing happens |
| `Bridge.RoomBridge.SignalSenderStop` | backend/app/room/bridge.py:264-282 | the queue is drained and holds the sentinel alone; posting it cannot overflow |
| `Bridge.RoomBridge.SignalAll` | backend/app/room/bridge.py:399-407 | so is every queue of a set of clients, and no other |
| `Bridge.RoomBridge.DetachClient` | backend/app/room/bridge.py:251-262 | the client leaves all three registries, and its sender is told to stop |
| `Bridge.RoomBridge.EnqueueOne` | backend/app/room/bridge.py:369-389 | a client with room has the event as its last item; one without leaves the three registries |
| `Bridge.RoomBridge.EnqueueAll` | backend/app/room/bridge.py:366-389 | every client with room has the event as its last item; exactly those without are dropped |
| `Bridge.RoomBridge.OnEvent` | backend/app/room/bridge.py:332-407 | history, active super chats, queues and registries after an event |
| `Bridge.RoomBridge.SenderTake` | backend/app/room/bridge.py:289-294 | the next item goes into flight; the sentinel ends the sender |
| `Bridge.RoomBridge.SenderReturn` | backend/app/room/bridge.py:295-311 | a send that returned is recorded as sent; one that raised fails the sender |
| `Bridge.RoomBridge.BeginToClose` | backend/app/room/bridge.py:411-413 | from here on the bridge is closed |
| `Bridge.RoomBridge.FinishClosing` | backend/app/room/bridge.py:417-426 | the registries are empty, and every sender that was registered is told to stop |
| `Replay.LateJoinersConverge` | backend/app/room/bridge.py:184-207 | on a clock that never goes back, everyone who joins at any point converges to the bridge's super chats if and only if every super chat met the guard when it arrived; also long after its event left the history |
| `Replay.FaithfulConverges` | frontend/src/stores/danmaku.ts:42-74 | where the history never contradicts the active super chats, folding the replay without the cap of 20 shows exactly those that are not over |
| `Replay.EventFaithful` | backend/app/room/bridge.py:355-364 | an event that meets the guard never makes the history contradict the active super chats |
| `Replay.IncoherentDiverges` | backend/app/room/bridge.py:356-358 | an event that does not meet it makes the very next joiner show something else |
| `Replay.RunFaithful` | backend/app/room/bridge.py:352-364 | the agreement of history and active super chats holds over whole runs |
| `Replay.NewStoreFaithful` | backend/app/room/bridge.py:99-106 | a new bridge starts out in agreement, whatever super chats it is given |
| `Replay.InitialLookup` | backend/app/room/bridge.py:99-106 | a new bridge keeps, under every id but the empty one, the last of the listed super chats that is not over |
| `Replay.ReplayHolds` | backend/app/room/bridge.py:184-197 | a replay is the last 50 events of the history behind the active super chats that those events do not have |
| `Replay.OneEndTimeCoherent` | backend/app/room/bridge.py:356-358 | the guard is met by every run in which ids are not empty and every id keeps one end time |
| `Replay.StaysInStep` | frontend/src/stores/danmaku.ts:42-74 | a browser that agrees with the bridge and then hears every event of a run that meets the guard, however late, agrees with it at any time after that (the cap of 20 left aside) |
| `Replay.JoinerStaysInStep` | backend/app/room/bridge.py:184-207 | whoever joins at any point of such a run, with any cards from before, and hears its replay and every later event agrees with the bridge at the end if and only if those cards are covered; without any it always does |
| `Replay.ReplaySays` | backend/app/room/bridge.py:184-197 | for every id, a replay leaves a browser in agreement if and only if it speaks of the id in its last 50 events, or the bridge still has the card, or the browser shows none |
| `Replay.ShortGapConverges` | backend/app/room/bridge.py:53-61 | a browser that agreed when it was cut off, and joins again before more than 50 events have passed, agrees again, whatever the events were |
| `Replay.LongGapDiverges` | backend/app/room/bridge.py:53-61 | a browser that missed a deletion followed by 50 events that do not mention the card goes on showing it |
| `Replay.MissedDeletionStays` | backend/app/room/bridge.py:53-61 | such a run: a card, its deletion, and 50 or more chat messages |
| `Replay.WatchFacts` | frontend/src/stores/danmaku.ts:42-74 | whenever events are heard and timers go off: of the cards that are not over, exactly the last word on every id is shown |
| `Replay.RunSays` | backend/app/room/bridge.py:352-361 | the bridge's active super chats that are not over are the last word of the run on every id, if it meets the guard |
| `Replay.ChangedEndTimeDiverges` | backend/app/room/bridge.py:356-358 | a run in which an id comes again with an end that is over: the bridge still has the card, a joiner does not |
| `Replay.EmptyIdDiverges` | backend/app/room/bridge.py:356 | what the test for an id guards against, on an input that the session never emits: the bridge would not have the card, a joiner would show it |
| `ChatStore.Store.AddDanmaku` | frontend/src/stores/danmaku.ts:34-40 | the list is the last 1000 messages added since clear |
| `ChatStore.LastThousand` | frontend/src/stores/danmaku.ts:26-40 | that is everything up to 1000 messages, and the newest 1000 of more |
| `ChatStore.Store.AddSc` | frontend/src/stores/danmaku.ts:42-61 | the card replaces one with its id and comes first, at most 20 stay, ids stay unique, and the live timers stay exactly one for each card shown, set for its own end |
| `ChatStore.Store.DropTimers` | frontend/src/stores/danmaku.ts:49-55 | the timers of cards that are no longer shown are cleared, and no others |
| `ChatStore.Store.RemoveSc` | frontend/src/stores/danmaku.ts:63-74 | all named cards go, with their timers |
| `ChatStore.Store.Fire` | frontend/src/stores/danmaku.ts:57-60 | a timer that goes off takes off the card it was set for, whose own end it is due at, and leaves all other timers alone: an old timer never removes a newer card |
| `ChatStore.Store.Clear` | frontend/src/stores/danmaku.ts:76-81 | nothing is shown and no timer is left |
| `ChatStore.Follow` | frontend/src/stores/danmaku.ts:34-74 | over any sequence of events and timers the store shows what the browser with its cap of 20 is defined to show |
| `ChatStore.CapUnnoticed` | frontend/src/stores/danmaku.ts:48 | the cap makes no difference at any point if and only if there would never be more than 20 cards without it |
| `ChatStore.CapOnlyHides` | frontend/src/stores/danmaku.ts:48 | even where it does, it only hides cards: what is shown is shown without it too, unchanged |
| `ChatStore.DueTimers` | frontend/src/stores/danmaku.ts:45-60 | at any time the cards that a due timer is about to take off are exactly those whose end has come |
| `ChatStore.RetainedFacts` | frontend/src/stores/danmaku.ts:48-49 | putting a card in front and cutting off after 20 keeps ids unique and shows the new card and old ones with unchanged content |
| `MessageBuffer.NonInterference` | backend/app/bilibili/message_buffer.py:103-149 | for every interleaving and every priority q, lanes 0..q and the messages of priority 0..q delivered or dropped are those of the run with all less important puts erased |
| `MessageBuffer.Conservation` | backend/app/bilibili/message_buffer.py:97-155 | every offered message is exactly one of delivered, evicted, rejected, cleared or queued |
| `MessageBuffer.Fifo` | backend/app/bilibili/message_buffer.py:97-155 | lane by lane, what was accepted leaves in the order of acceptance |
| `MessageBuffer.OptimalShedding` | backend/app/bilibili/message_buffer.py:109-131 | after puts alone, the number kept of priority q or better is the smaller of the maximum and the number offered, for every q at once |
| `MessageBuffer.CriticalLane` | backend/app/bilibili/message_buffer.py:109-131 | the critical lane then holds the first critical messages offered, up to the maximum |
| `MessageBuffer.ShedsTheLeast` | backend/app/bilibili/message_buffer.py:30-131 | after any traffic, on the text of the commands: a put drops nothing while there is room; otherwise it drops a waiting message less important than the new one, or else the new one, and never one while a less important one waits |
| `MessageBuffer.CriticalNeverEvicted` | backend/app/bilibili/message_buffer.py:30-131 | over any traffic, none of the seven critical commands, with or without a protocol variant, is ever evicted |
| `MessageBuffer.TakesTheMost` | backend/app/bilibili/message_buffer.py:133-149 | after any traffic the consumer is handed the oldest of the most important messages that wait |
| `MessageBuffer.ClassifiedByText` | backend/app/bilibili/message_buffer.py:30-68 | the priority of every payload, by the text of its command: seven names are critical, six are normal, and everything else is low |
| `MessageBuffer.UnknownName` | backend/app/bilibili/message_buffer.py:57-59 | a message without a command is counted as `<unknown>` |
| `MessageBuffer.StepProject` | backend/app/bilibili/message_buffer.py:103-149 | one less important put changes nothing at or above q, and every other step acts on lanes 0..q as if the rest were not there |
| `MessageBuffer.StepFits` | backend/app/bilibili/message_buffer.py:103-155 | every step keeps the size within the maximum and every message in the lane of its priority |
| `MessageBuffer.VariantSuffix` | backend/app/bilibili/message_buffer.py:57-68 | a protocol variant after a colon never changes how a command is treated |
| `MessageBuffer.BeforeColon` | backend/app/bilibili/message_buffer.py:57-59 | the text before the first colon |
| `MessageBuffer.PriorityMessageBuffer.Create` | backend/app/bilibili/message_buffer.py:87-95 | a maximum that is not positive is refused |
| `MessageBuffer.PriorityMessageBuffer.PutNowait` | backend/app/bilibili/message_buffer.py:103-131 | the new lanes and the result; the size stays the sum of the lanes, and the event is set exactly when it is positive |
| `MessageBuffer.PriorityMessageBuffer.Get` | backend/app/bilibili/message_buffer.py:133-149 | the oldest message of the most important lane, and no message exactly when there is none: no wake-up is lost and the RuntimeError is unreachable |
| `MessageBuffer.PriorityMessageBuffer.Clear` | backend/app/bilibili/message_buffer.py:151-155 | the buffer is empty and its event is not set |
| `DanmakuClient.ClientBalance` | backend/app/bilibili/danmaku_ws.py:610-699 | between start and stop: enqueued = processed + evicted + depth, and dropped = evicted + rejected |
| `DanmakuClient.CountersBalance` | backend/app/bilibili/danmaku_ws.py:673-688 | the same balance for the buffer itself, over any run of puts and gets from any state |
| `DanmakuClient.Client.Enqueue` | backend/app/bilibili/danmaku_ws.py:673-699 | all counters, in total, by priority and by command, go on saying what became of the messages; the peak is the greatest depth after a put |
| `DanmakuClient.Client.ProcessOne` | backend/app/bilibili/danmaku_ws.py:615-632 | the same for a delivered message |
| `DanmakuClient.Connector.ConnectLoop` | backend/app/bilibili/danmaku_ws.py:313-417 | at most (M-1)*s+M attempts with s sessions; attempt k goes to endpoint k mod n; between two attempts there is the pause for the streak since the last session; a rejected auth is followed by no attempt; and nothing but the limit, a rejected auth or the end of the run stops it |
| `DanmakuClient.StreakBound` | backend/app/bilibili/danmaku_ws.py:326-407 | the bound on attempts for any sequence of outcomes in which no streak used them up |
| `DanmakuClient.AttemptsFrom` | backend/app/bilibili/danmaku_ws.py:326-400 | the streak that the limit and the pauses are about is counted from the last session on |
| `DanmakuClient.Connector.BackoffSleep` | backend/app/bilibili/danmaku_ws.py:409-417 | the index of the delay is always in range; the last delay is repeated |
| `DanmakuClient.EveryEndpointTried` | backend/app/bilibili/danmaku_ws.py:330-331 | any n consecutive attempts reach all n endpoints |
| `Session.RepeatsFarApart` | backend/app/room/session.py:328-341 | between two forwards of one id without a reset lie at least N others, pairwise different |
| `Session.WindowsDistinct` | backend/app/room/session.py:328-341 | any N forwarded ids in a row are pairwise different |
| `Session.FreshWindow` | backend/app/room/session.py:285-295 | a message just heard goes through again after a disconnect if and only if the session had a client, and never after a direct change of rooms, however the start of the new client went |
| `Session.ForwardsExactly` | backend/app/room/session.py:328-341 | spelled out: a message is held back if and only if it has an id and one of the last N forwarded ids is the same; the window never holds more than N |
| `Session.ClientAfter` | backend/app/room/session.py:112-171 | there is a client after connecting unless its start reported a failure, also where it raised |
| `Session.NoWindow` | backend/app/room/session.py:335-340 | with N <= 0 every message is forwarded |
| `Session.RoomSession.OnMessage` | backend/app/room/session.py:328-343 | a message is forwarded exactly when it has no id or its id is not among the last N forwarded since the reset; deque and set hold those same distinct ids |
| `Session.RoomSession.ConnectRoom` | backend/app/room/session.py:112-171 | connecting leaves the window as it is; there is a client afterwards unless its start reported a failure, also where it raised |
| `Session.RoomSession.DisconnectRoom` | backend/app/room/session.py:285-297 | the window is reset, unless the session is not connected |
| `Session.Replay` | backend/app/room/session.py:321-343 | over any sequence of inputs the object does what the run-level statements are about |
| `Protocol.RoundTrip` | backend/app/bilibili/protocol.py:53-174 | parsing the printed form of any tree of plain, zlib and brotli frames gives its leaves from left to right, and then whatever follows |
| `Protocol.PackedHeader` | backend/app/bilibili/protocol.py:53-71 | the header fields are read back from the printed bytes, whatever follows; the length stands in the first four bytes, the most significant one first; and every frame holds a NUL byte |
| `Protocol.OnTheWire` | backend/app/bilibili/protocol.py:30-146 | byte by byte: a frame with any length, version 0 to 3 and type, in front of any bytes, is read as its type says, from the payload that the version byte says how to decode |
| `Protocol.ZlibDocument` | backend/app/bilibili/protocol.py:111-116 | the commonest frame, with all 12 fixed header bytes written out |
| `Protocol.UndecodedOnTheWire` | backend/app/bilibili/protocol.py:111-130 | a version byte over 3 and broken zlib or brotli data are skipped |
| `Protocol.StopsAt` | backend/app/bilibili/protocol.py:96-107 | the parse stops at fewer than 16 bytes, at a header length other than 16, and at a total length under 16 or beyond the data |
| `Protocol.PacksOnTheWire` | backend/app/bilibili/protocol.py:53-71 | the 16 bytes that are written, including the sequence number 1 |
| `Protocol.PacksWhenInRange` | backend/app/bilibili/protocol.py:64-70 | a payload is packed if and only if its length, version and type fit their fields |
| `Protocol.UnpackData` | backend/app/bilibili/protocol.py:77-146 | the loop computes the recursive specification, in one turn for each whole frame and so at most one for each 16 bytes |
| `Protocol.FramePayload` | backend/app/bilibili/protocol.py:112-130 | a payload is decompressed where its version says so; one that does not decompress, or of an unknown version, yields nothing |
| `Protocol.DispatchPayload` | backend/app/bilibili/protocol.py:132-142 | what a payload says by the type of its packet |
| `Protocol.ParseNormalPayload` | backend/app/bilibili/protocol.py:163-174 | one JSON object, or else the messages of the nested frames |
| `Protocol.UnpackPacked` | backend/app/bilibili/protocol.py:96-146 | a frame in front of any bytes is parsed off, and the rest is parsed as if it stood alone |
| `Protocol.BadFrameSkipped` | backend/app/bilibili/protocol.py:112-146 | a frame is skipped, and nothing behind it lost, if and only if it is unreadable: of an unknown version, not to be decompressed, or with a content, compressed or not, that is an auth reply without a JSON object, too short a heartbeat reply, of a kind that says nothing, or neither JSON nor a stream with a readable frame in it |
| `Protocol.TruncationMonotone` | backend/app/bilibili/protocol.py:96-146 | for every byte string and every cut, the messages of the prefix are a prefix of the messages |
| `Protocol.AppendOnly` | backend/app/bilibili/protocol.py:96-146 | bytes after whole frames only append messages |
| `Protocol.MoreFuel` | backend/app/bilibili/protocol.py:77-146 | what is parsed with some bound on nested decompressions is parsed the same with any larger one |
| `Protocol.UncompressedTerminates` | backend/app/bilibili/protocol.py:96-146 | for any codec and any bytes, the parser terminates without decompressing anything if and only if no frame that it reaches, however deeply nested, has a payload that decompresses |
| `BanList.ReplicaAgreement` | backend/app/room/banlist.py:374-513 | over every run each subscribed browser store that is written by the socket alone holds exactly the manager's uids, each once |
| `BanList.SnapshotExact` | backend/app/room/banlist.py:374-440 | right after a snapshot the browsers it went to show the dictionary row by row, in its order |
| `BanList.DictionaryAfter` | backend/app/room/banlist.py:319-513 | what is cached for every uid after every operation: an accepted ban as given, nothing after an unban, and after a fetch the last fetched row or else a pending row from before |
| `BanList.ToldAfter` | backend/app/room/banlist.py:374-441 | what every browser is sent by every operation, once for each of its subscriptions |
| `BanList.ReconcileTold` | backend/app/room/banlist.py:488-513 | what one turn of the reconcile loop sends: the fetched rows of new uids as they are, and a removal for each confirmed uid that is gone |
| `BanList.LifecycleAfter` | backend/app/room/banlist.py:319-391 | the room, the loop and the subscribers after every operation |
| `BanList.RefreshOrder` | backend/app/room/banlist.py:432-438 | after a refresh the fetched rows come first, in their order, and the kept rows behind them in theirs |
| `BanList.BanShown` | backend/app/room/banlist.py:397-413 | a browser that does not have the uid shows an accepted ban field by field |
| `BanList.ApplyRowAgrees` | backend/app/room/banlist.py:500-508 | the write of one fetched row keeps the agreement if and only if the row is broadcast, or its uid is still cached, or nobody listens |
| `BanList.UnbanBetweenDiverges` | backend/app/room/banlist.py:488-513 | for every agreeing state, every fetch and every point of the turn at which an unban comes in: at its end a listener agrees if and only if the uid was not cached at the beginning or its row had been written before |
| `BanList.LocalWriteAgrees` | frontend/src/components/BanControls.vue:109-124 | an agreeing browser that writes its store from the reply to its own request still agrees if and only if the reply is a ban of a cached uid, an unban of one that is not cached, or a list of exactly the cached uids |
| `BanList.LateReplyDiverges` | frontend/src/components/BanControls.vue:109-124 | in every state, a reply to a ban that is handled after an unban of the same uid makes the browser disagree |
| `BanList.SilentWriteExact` | backend/app/room/banlist.py:507-508 | a silent write keeps an exact browser exact if and only if the row is the one already cached |
| `BanList.SilentRefreshDrifts` | backend/app/room/banlist.py:497-508 | a run after which the manager and a browser have different rows |
| `BanList.PendingPersists` | backend/app/room/banlist.py:424-513 | a pending row stays, unchanged, until a fetch returns its uid, a ban or unban names it, or the manager is started or stopped |
| `BanList.PendingBanPersists` | backend/app/room/banlist.py:397-513 | from an accepted pending ban on, its row is in every later state of a run that is not about its uid |
| `BanList.FetchSettles` | backend/app/room/banlist.py:424-513 | after a completed fetch whoever is listed was fetched, or is a pending row from before |
| `BanList.FetchedWins` | backend/app/room/banlist.py:424-513 | a fetched row always wins over the cached one, and every fetched uid is listed |
| `BanList.StepAgrees` | backend/app/room/banlist.py:319-513 | every operation keeps the agreement |
| `BanList.BanListManager.Start` | backend/app/room/banlist.py:319-344 | the state after a start, also where the fetch fails: then no reconcile task runs |
| `BanList.BanListManager.Stop` | backend/app/room/banlist.py:346-368 | no bans, no room, no task and no subscribers |
| `BanList.BanListManager.Subscribe` | backend/app/room/banlist.py:374-385 | the new subscriber is sent the dictionary, even when it is empty |
| `BanList.BanListManager.Unsubscribe` | backend/app/room/banlist.py:387-391 | one registration of the callback goes, if there is one |
| `BanList.WithoutOne` | backend/app/room/banlist.py:387-391 | exactly the first subscription of that callback goes, and the others keep their order |
| `BanList.BanListManager.OnBan` | backend/app/room/banlist.py:397-413 | a row that does not normalize, or is about somebody else, is refused and changes nothing; any other is cached and broadcast |
| `BanList.BanListManager.OnUnban` | backend/app/room/banlist.py:415-422 | the uid goes and everyone is told, also where it was not cached |
| `BanList.BanListManager.Refresh` | backend/app/room/banlist.py:424-441 | fetched rows in order, then the pending rows that the fetch does not know; a snapshot to everyone; nothing changes where the fetch raises |
| `BanList.BanListManager.ReconcileOnce` | backend/app/room/banlist.py:462-513 | one turn of the loop: new uids are written and broadcast, known ones written silently, confirmed uids that are gone dropped and broadcast |
| `BanList.BanListManager.SendAll` | backend/app/room/banlist.py:519-528 | everyone subscribed gets the message once for each subscription |
| `BanStore.ApplyUids` | frontend/src/stores/ban.ts:95-131 | each message changes the shown uids by exactly what it says, and they stay unique |
| `BanStore.SparseDelta` | frontend/src/stores/ban.ts:104-127 | a delta changes exactly what it gives: a given field is taken over as given, a field left out is kept, a block id is never taken away, and a confirmed row never becomes pending again |
| `BanStore.FirstDelta` | frontend/src/stores/ban.ts:80-108 | a uid that is new is shown as given, and with nothing in the fields that are left out |
| `BanStore.OthersKept` | frontend/src/stores/ban.ts:104-131 | a delta changes no row of another uid |
| `BanStore.SnapshotLast` | frontend/src/stores/ban.ts:95-102 | after a snapshot the row of a uid is its last entry there, and there is none without an entry |
| `BanStore.SnapshotShown` | frontend/src/stores/ban.ts:95-102 | a snapshot of a dictionary is shown row by row, whatever was shown before |
| `BanStore.FoldUnique` | frontend/src/stores/ban.ts:95-131 | no uid is ever shown twice |
| `BanStore.Store.ApplySnapshot` | frontend/src/stores/ban.ts:95-102 | the last row of each uid, in the order of first appearance |
| `BanStore.Store.AddBan` | frontend/src/stores/ban.ts:104-127 | the row is merged in place, or appended |
| `BanStore.Store.RemoveBan` | frontend/src/stores/ban.ts:129-131 | no row with this uid is left |
| `OrderedDict.RemoveConcat` | frontend/src/stores/ban.ts:129-131 | removing a uid does not change the order of the other rows |
| `BanEntry.NormalizeIdempotent` | backend/app/room/banlist.py:138-224 | a row that was accepted once is given back unchanged |
| `BanEntry.NormalizeSettles` | backend/app/room/banlist.py:138-224 | every accepted row has positive ids, stripped texts, stable stamps, and a duration and an expiry that are not to be filled in any more |
| `BanEntry.WhoIsMuted` | backend/app/room/banlist.py:149-184 | where a row names its target, replacing `uid` and `name` by anything changes nothing but the moderator; where it does not, its user is never taken for the moderator and `name` changes nothing |
| `BanEntry.ReadFrom` | backend/app/room/banlist.py:149-191 | from which raw fields, and in which order, the uid, the block id, both names, the moderator, the reason and the pending flag are read |
| `BanEntry.StampsFrom` | backend/app/room/banlist.py:186-210 | from which raw fields both stamps and the duration are read, and how an expiry or a duration that is missing is filled in |
| `BanEntry.SpellingsAgree` | backend/app/room/banlist.py:138-224 | a row spelled with the raw aliases is the same ban as one spelled with the public names |
| `BanEntry.ReadsInt` | backend/app/room/banlist.py:82-93 | exactly what is read as an integer; a flag never is |
| `BanEntry.ReadsStamp` | backend/app/room/banlist.py:100-105 | exactly what is read as a stamp |
| `BanEntry.DurationTable` | backend/app/room/banlist.py:108-135 | the labels for good and for this stream, the spans that give no duration, and the shortest ones |
| `BanEntry.DurationExact` | backend/app/room/banlist.py:108-135 | the expiry filled in for h >= 1 hours gives back h, and a derived hour is within 1800 seconds of any span of at least 1800 |
| `Pagination.GetBanList` | backend/app/bilibili/client.py:684-763 | the result is always pages 1..k with k <= 100, and exactly why the read stopped there |
| `Pagination.PageAt` | backend/app/bilibili/client.py:739 | every item stands behind the pages before its own, at its place in its page |
| `Pagination.ReadsOn` | backend/app/bilibili/client.py:687-760 | the read goes on exactly while a page is not empty and says that there is more, up to page 100 |
| `Pagination.ConsistentRead` | backend/app/bilibili/client.py:684-763 | a consistent server is read completely if and only if it has at most 100 pages, in one request for each |
| `Pagination.IsRoomAdmin` | backend/app/bilibili/client.py:312-366 | yes if and only if the last page read lists the uid, no if and only if it is the reported end or empty; nothing before it said either |
| `Pagination.AnswersMembership` | backend/app/bilibili/client.py:312-366 | on a consistent server "yes" means membership in the first 100 pages and "no" means that nobody of that uid is listed; below 100 pages there is always an answer |
| `EnvFile.UpdateOwnedLines` | backend/app/bilibili/auth.py:504-545 | the loops compute the specification that the lemmas below are about |
| `EnvFile.LineByLine` | backend/app/bilibili/auth.py:504-545 | on the text: a line that assigns to an updated key becomes `key=value`, every other line stays where it is to the letter, and behind them come the updated keys that no line assigned to, in the order SESSDATA, BILI_JCT, BUVID3 |
| `EnvFile.KeyIffAssigns` | backend/app/bilibili/auth.py:520-527 | a line is taken to set a key if and only if it is blanks, that key, blanks, an equals sign and anything |
| `EnvFile.ForeignLine` | backend/app/bilibili/auth.py:513-527 | a line that sets another variable, a line without an equals sign and a comment set none of the three keys |
| `EnvFile.ForeignVerbatim` | backend/app/bilibili/auth.py:513-538 | the lines that assign to no updated key, on the text, are the same before and after, in the same order |
| `EnvFile.OtherVariableStays` | backend/app/bilibili/auth.py:504-545 | a file that sets one other variable keeps it, and the cookie comes behind it |
| `EnvFile.BlanksAndText` | backend/app/bilibili/auth.py:521 | spaces and tabs are stripped; letters, digits, underscores, `=` and `#` are not |
| `EnvFile.RewriteLines` | backend/app/bilibili/auth.py:520-538 | every line that sets an updated key is rewritten, and the keys seen are exactly those on some line |
| `EnvFile.AppendMissing` | backend/app/bilibili/auth.py:540-543 | the updated keys that are on no line, each once and in the order of the owned keys |
| `EnvFile.Idempotent` | backend/app/bilibili/auth.py:504-545 | rewriting twice is rewriting once |
| `EnvFile.OthersVerbatim` | backend/app/bilibili/auth.py:513-514 | the lines that set no updated key are kept verbatim and in order |
| `EnvFile.NewValues` | backend/app/bilibili/auth.py:528-529 | every line that sets an updated key carries the new value |
| `EnvFile.Occurrences` | backend/app/bilibili/auth.py:540-543 | an updated key is on as many lines as before, and on one if it was on none |
| `EnvFile.DuplicatesStay` | backend/app/bilibili/auth.py:508-510 | a key ends up on at most one line if and only if it was on at most one |
| `EnvFile.DuplicateExample` | backend/app/bilibili/auth.py:528-530 | a key that is there twice is still there twice |
| `EnvFile.AssignKey` | backend/app/bilibili/auth.py:521-529 | a line that was written is recognised as setting its key, whatever the value |
| `EnvFile.PaddedKey` | backend/app/bilibili/auth.py:521-527 | blanks before the line and around the key do not matter |
| `EnvFile.CommentNoKey` | backend/app/bilibili/auth.py:524 | a comment sets no key |

## Left out

- Sockets, HTTP, FastAPI routing, task creation, cancellation and sleeping; they are step labels, scripts of outcomes or
  functions from page numbers to answers.
- FanOutExact: it is about one registration; after a reconnect the chat list repeats lines that the browser already had.
  Two overlapping registrations of one socket are not modelled. The unregistration that `register_ws` begins with is a
  `Detach` step of its own.
- The bridge's counters, the closing of sockets, and the branches for a client that is registered without a queue, which
  `StepTidy` shows cannot be reached.
- LateJoinersConverge: the browser's cap of 20 cards is not part of it, and a replay is folded at one time of the browser,
  which is not behind the backend's. `CappedClientsConverge` has the cap and lets every event be heard at a time of its own.
- ConnectedClientsConverge: a user who clears the panel by hand (frontend/src/components/DanmakuList.vue:253-257) sees no
  cards until the next ones arrive; that is not part of `Watch`.
- ReplicaAgreement: what a browser writes by itself is not part of a run; `LocalWriteAgrees` is about one such write. Each
  operation of the manager is one step, so interleavings inside a broadcast or inside backend/app/room/banlist.py:488-513
  are not steps of a run; `ApplyRowAgrees` says exactly when the write of one row is safe after any of them, and
  `UnbanBetweenDiverges` follows an unban to the end of the turn. A subscriber that raises is not distinguished from one
  that takes the message.
- ReconcileOnce: the set of removed uids is visited in dictionary order; Python leaves the order open. The teardown
  after an expired login is a `StopAll` step.
- RoundTrip: Python's limit on recursion and the memory that decompressed data may need are not modelled, and neither is
  what JSON objects say. The parser's `{"online_count": n}` is told apart from a document.
- NormalizeIdempotent: `int` raising on a digit string such as `--5`, which passes the test at
  backend/app/room/banlist.py:91, is not modelled; `TextOps.parse` is None or a number.
- DurationExact: rounding errors of floating point are not modelled.
- Fire: timers may go off at any time; that browsers fire delays of more than 2^31-1 milliseconds at once is one case of
  this.
- ClientBalance: the dispatch lag, the counters for frames and the clearing of the buffer by `stop` are not modelled.
- ConnectLoop: the loop runs against any finite stretch of outcomes; `stop` shows in them as `alive`.
- OnMessage: messages other than chat messages, which are never filtered, and the normalizing of raw messages are not
  modelled.
- ConsistentRead: servers whose list changes during a read are only covered by `GetBanList`.
- UpdateOwnedLines: reading and atomically writing the file, and values that hold a line break, are not modelled.
- Easy neighbours: the WebSocket retry timers of the frontend, the room, login and quick-room stores, the table of public
  paths, the mapping of errors to HTTP codes, QR login, WBI signing, launchers, generated code and Vue components.
