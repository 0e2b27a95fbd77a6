# ESP32-Web-Chat: a verified model

ESP32-Web-Chat is a chat server on a microcontroller: bounded tables, a message ring, a counter in flash, and a
browser client that must resynchronise with it after every interruption. This project models the logic of the server
and the data part of the client, and proves what they guarantee over every run: every order of events, every pattern
of failing sends, flash calls, storage reads and writes, every power cut and page reload.

`dafny verify dfyconfig.toml` checks everything.

## How it is organised

Code that changes state is written twice: as functions on values, which lemmas reason about, and as classes whose
methods do what the source does statement by statement, each proved to compute its function. What the outside decides
(the result of a send, a flash call, an allocation, a clock reading) is a parameter or an oracle that every statement
quantifies over.

| files | part of the system |
|---|---|
| `Utf8.dfy`, `JsonGuard.dfy`, `ClockConsensus.dfy` | decoding and arithmetic in `utils.c` |
| `Transport.dfy` | the socket send callback |
| `MessageIdStore.dfy`, `MessageLog.dfy`, `DeviceRuns.dfy` | durable id counter, ring and replay, runs over boots |
| `SessionTable.dfy`, `ChatServer.dfy` | the client table, handlers and sweep: functions, and the code over the slot array |
| `SessionFacts.dfy`, `SessionSteps.dfy`, `SessionRuns.dfy`, `Heartbeat.dfy`, `SessionDelivery.dfy` | what operations, handlers and runs keep, and who gets a message |
| `SessionSends.dfy`, `SessionClosing.dfy` | who is sent what, over the record of every send, and who is closed, exactly |
| `SweepScheduling.dfy` | the two tasks that schedule sweeps |
| `ChatProtocol.dfy`, `ChatFrames.dfy` | message validation on both sides, and the frames that messages arrive in |
| `ClientStore.dfy`, `Outbox.dfy` | the browser's cache, cursor and outgoing queue |
| `EndToEnd.dfy` | device and browser together |
| `KeptMessages.dfy`, `EvictedMessage.dfy` | when the browser keeps what it received, exactly, and a run in which it does not |
| `ConnectedSystem.dfy` | device, client table and browser together: its runs are runs of `EndToEnd` |
| `Arithmetic.dfy`, `Bytes.dfy`, `ChatTypes.dfy`, `Json.dfy` | shared definitions |

Limits that are configured (client slots, ring size, heartbeat interval, text length) are parameters of the
statements, so the results hold for every configuration unless a precondition says otherwise.

## Where a guarantee has a condition

- The browser accepts all that the server stores if and only if at most 256 bytes of text are configured, or WebSocket
  payloads under 322 bytes, the shortest frame for a longer text (`ChatFrames.BrowserAcceptsExactly`). The firmware can
  be configured up to 1024 bytes of text and payloads from 128 to 4096 bytes (`main/Kconfig.projbuild:56-68`), while the
  script hard-codes 256 (`main/web/js/script.js:384`); `ChatFrames.LongTextIsDiscarded` is a text of 257 bytes that is
  received, stored and discarded. The end-to-end results are for at most 256 bytes of text and 16 clients.
- Each message received for the user up to the stored cursor is to be stored, or pushed out by the cap. That holds
  whichever writes fail, as long as pages read the cache under the same or a new user id and no join finds the ring
  without a message that the browser had received and then lost (`KeptMessages.ReceivedIsKept`). With reads that fail, or
  a user id that comes back, it holds over every run of safe events (`SafeRunIsKept`), and these conditions are exact:
  after an unsafe join the next message breaks it, if there is an id left for one, though nothing else fails
  (`UnsafeJoinLoses`, `LostForGood`); an unsafe page load breaks it at once or then (`UnsafeReadsLose`), an unsafe
  delivery at once (`UnsafeDeliveryLoses`).
  `EvictedMessage.EvictedMessageIsLost` is a whole run with an unsafe join.
- What storage owes of all that the server assigned, received or not, starts anew above the cursors when a page cannot
  read the cache, or goes by a user id that messages named already (`owedAbove` in `EndToEnd.StoredCursorIsHonest`).
- A message the ring has forgotten can be restored from other browsers, unless its id is 2^53 - 1: after a reboot the
  boundary is one above the counter, but not above that (`DeviceRuns.ForgottenIsRestorable`).
- Outgoing messages go out in order and at most once over a reload if and only if the new page takes the whole queue
  over from storage (`Outbox.ReloadKeepsOrderExactly`); after a successful write of the queue that is the case exactly
  if it is empty, or can be read and each entry passes the page's filter (`ReloadAfterGoodSaveExactly`). Inputs that fail
  it: a flush whose storage write fails is sent again after a reload (`ReloadAfterFailedSaveResends`); if the generated
  user id could not be stored (`main/web/js/script.js:215-219`), or cannot be read again, the next page drops the stored
  queue (`LostUserIdLosesQueue`, `UnreadUserIdLosesQueue`).

## Model

| member | source | states |
|---|---|---|
| `EndToEnd.NoMessageIsSkipped` | main/src/chat/history.c:160-221 | Gap freedom over every run of posts, joins, failed sends, cut streams, power cuts, failing storage and reloads: each id the server assigned up to the browser's replay cursor was received by it, or had left the ring when it joined with a cursor below that id. |
| `EndToEnd.StoredCursorIsHonest` | main/web/js/script.js:476-503 | The same up to the cursor in storage, for each message for the user, that is sent by the user or by the server, or to everyone, or to users among which the user is named: in every run, with imports, reloads and failing reads and writes at any point, one with an id up to it is in the stored snapshot, pushed out by the cap, or had left the ring at a join below it. Where a page could not read the cache, or went by an id that messages named already, this starts anew above the cursors of that moment. |
| `EndToEnd.CaughtUp` | main/src/chat/protocol.c:182-220 | While the server keeps sending, a browser with nothing in flight has every id ever assigned, but for those that had left the ring at a join. |
| `EndToEnd.StepIsValid` | main/src/chat/history.c:160-221 | Each step keeps the joint invariant of device, stream and browser: ids in flight ascend above the cursor with the payloads the server stored, and below anything delivered nothing is missing from the page without excuse, and below the stored cursor nothing from storage. |
| `ConnectedSystem.RunSimulates` | main/src/server/websocket_server.c:47-79 | With the client table in the system, a connection live exactly while its slot is joined, and its stream made of what the chat and join handlers send on its descriptor: every run with one join per connection of the browser is a run of the end-to-end model. So a failed send, a replaced session, a missed heartbeat or a protocol error ends the stream, and none leaves a gap in it. |
| `ConnectedSystem.NothingIsMissed` | main/src/chat/protocol.c:182-272 | The three guarantees above hold in every run of device, client table and browser, over boots each with its own pattern of failing sends; a joined connection with nothing in flight has everything that was not gone from the ring at a join. |
| `EvictedMessage.EvictedMessageIsLost` | main/web/js/script.js:241-270 | Any first message to everyone can be received while the cache cannot be written, be forgotten by a reload and leave the ring before the next join; then a second one moves the stored cursor past it. It is excused as evicted, and neither stored nor pushed out, so the promise to keep what was received is broken. |
| `EndToEnd.ReloadOwes` | main/web/js/script.js:241-270 | After a reload that reads the cache under the present user id or a fresh one, neither memory nor storage misses a message below a cursor without excuse, although the cursor is recomputed from storage and may be unreadable; after any other, none above the cursors that storage could give. |
| `EndToEnd.ReloadIsSound` | main/web/js/script.js:241-270 | After any reload, whichever reads and writes fail, both cursors and all live messages come from ids that were delivered. |
| `KeptMessages.ReceivedIsKept` | main/web/js/script.js:241-270 | Over every run in which pages read the cache under the same or a new user id, and no join finds gone from the ring what the browser received and lacks: each message received for the user up to the stored cursor is stored or was pushed out by the cap. Eviction is no excuse. |
| `KeptMessages.SafeRunIsKept` | main/web/js/script.js:241-312 | The same over every run of safe events, with any reads failing and any user id: a page load is safe if what it misses of the messages received for its user is above both cursors, a delivery if it is written, above the stored cursor, or accounted for. |
| `KeptMessages.RecallIsSafe` | main/web/js/script.js:241-270 | A page load that reads the cache under the same or a new user id is safe. |
| `KeptMessages.LostForGood` | main/src/chat/history.c:160-221 | If the browser lacks a message it received that is below its cursor or gone from the ring, then connecting, joining, one post and one delivery, all without a failure (there must be an id left to assign), leave it below the stored cursor and neither stored nor pushed out. |
| `KeptMessages.UnsafeJoinLoses` | main/src/chat/history.c:160-221 | So after every join that is not safe, in every run. |
| `KeptMessages.UnsafeReadsLose` | main/web/js/script.js:177-206 | And after every page load whose reads are not safe, for one outcome of its writes, if the load does not break the promise at once. |
| `KeptMessages.UnsafeDeliveryLoses` | main/web/js/script.js:476-503 | A delivery that is not safe breaks the promise at once. |
| `EndToEnd.RelayedHistoryIsBelowRing` | main/src/chat/protocol.c:369-417 | At any moment of any device run, a relayed history response is older than every message in the ring. |
| `DeviceRuns.PublishedIdsStrictlyIncrease` | main/src/chat/history.c:253-312 | Over any boots, power cuts at any point and failing flash calls, published ids strictly increase, and whatever value the flash settles on is at least every one of them. |
| `DeviceRuns.RingRefinesLog` | main/src/chat/history.c:46-74 | In every reachable state the ring holds exactly the newest messages stored since the counter was loaded, and the bounds are their number, counter - count + 1 and the counter. |
| `DeviceRuns.RestoreBoundaryNeverFalls` | main/src/chat/history.c:72-88 | Between any two moments with the counter loaded the restore boundary does not fall, over appends, evictions, failed stores and reboots, and it never exceeds an id in the ring. |
| `DeviceRuns.ForgottenIsRestorable` | main/src/chat/history.c:72-88 | In every run with the counter loaded an id ever published is in the ring, or below the restore boundary, so that clients may restore it, exactly unless it is the last safe id of all. |
| `DeviceRuns.StepIsSound` | main/src/main.c:39-46 | Every event, a power cut inside a store included, keeps ring, counter and flash consistent and never lowers the durable counter. |
| `DeviceRuns.StoreIsSound` | main/src/chat/history.c:253-312 | A store publishes only an id that is committed and above all earlier ones; any failure leaves ring and counter as they were. |
| `MessageIdStore.Flash.PersistIds` | main/src/storage/message_id_store.c:11-29 | Success means the id is committed; after any failure the committed value is unchanged and the id may at most be pending. |
| `MessageIdStore.Flash.LoadIds` | main/src/storage/message_id_store.c:31-71 | The state filled in comes from the value flash shows, clamped to the safe range, with the boot boundary one above it; a failed read loads nothing. |
| `MessageIdStore.Persist` | main/src/storage/message_id_store.c:11-29 | Exactly one of: committed with nothing pending, unchanged, or the new id pending. |
| `MessageLog.PublishRefines` | main/src/chat/history.c:296-303 | Overwriting the slot at the head appends to the abstract log and drops the oldest message from the ring, for every ring size. |
| `MessageLog.ServerLog.constructor` | main/src/main.c:32-46 | Start-up yields an empty ring that refines the empty log at the counter flash gave. |
| `MessageLog.ServerLog.EnsureIdState` | main/src/chat/history.c:223-238 | A late load of the counter succeeds exactly when flash can be read, and keeps the refinement. |
| `MessageLog.ServerLog.FinalizeAndStore` | main/src/chat/history.c:253-312 | The message is appended to the log exactly when the result says stored, under the next id; all five failures leave the log alone. |
| `MessageLog.ServerLog.Append` | main/src/chat/history.c:296-303 | The ring step over the array keeps the refinement of the append-only log. |
| `MessageLog.ServerLog.FillBounds` | main/src/chat/history.c:46-74 | The scan over slots in ring order finds the count, the smallest and the largest id of the messages the log says are kept. |
| `MessageLog.ServerLog.SelectNext` | main/src/chat/history.c:177-185 | One locked section of the replay finds the message of the log with the smallest id after the cursor that is still in the ring, or none. |
| `MessageLog.ServerLog.SendToClient` | main/src/chat/history.c:160-221 | With arbitrary stores between locked sections: sent ids strictly ascend within (since, until]; an id is passed over only if the ring, as the stores before that turn left it, no longer held it; on success no id of the range still in the ring is unsent despite the iteration cap; without stores exactly a prefix of the ring's messages after `since` is sent, and all of them on success. |
| `MessageLog.ServerLog.ReplayLoop` | main/src/chat/history.c:172-217 | The loop behind it, with its three exits and the iteration cap: each turn's message is the first after the cursor in the ring of that turn. |
| `MessageLog.ServerLog.Unlock` | main/src/chat/history.c:200-216 | What a replay has achieved so far stands, whatever is stored while it does not hold the lock. |
| `MessageLog.QuietReplay` | main/src/chat/history.c:160-221 | A replay outcome without interference is a prefix of the messages after `since`, all of them on success. |
| `MessageLog.TraceStep` | main/src/chat/history.c:172-217 | Sending the smallest id after the cursor that the ring of this turn holds extends an exact replay; the ids skipped had left the ring when the turn came. |
| `MessageLog.StillThere` | main/src/chat/history.c:160-221 | After a successful replay, whatever was stored meanwhile, no id of the range that is still in the ring is unsent. |
| `SessionRuns.TableHoldsAlways` | main/src/chat/sessions.c:285-307 | In every run each connection has at most one active slot and each user at most one joined slot, and joined means a user id is set; so the duplicate-slot warning is unreachable. |
| `SessionRuns.PresenceHoldsAlways` | main/src/chat/sessions.c:362-383 | After every step of every run, some slot is closing, or every joined connection's last delivered user list holds an id and a name exactly if a joined slot has that id and that name, or no name and the name listed is the default one; no id is in it twice, and it is in slot order. |
| `SessionFacts.ListedExactly` | main/src/chat/sessions.c:309-360 | A list made of the joined slots, in slot order, lists an id and a name exactly if a joined slot shows them, and no id twice. |
| `SessionFacts.RosterLists` | main/src/chat/sessions.c:331-352 | The list that is sent is such a list: one entry for each joined slot, in slot order. |
| `SessionRuns.IdentityIsStable` | main/src/chat/protocol.c:195-204 | Until its close callback a connection keeps its slot; closing is absorbing, and a joined connection keeps its user id until it closes. |
| `SessionRuns.JoinFindsItsSlot` | main/src/chat/sessions.c:60-96 | After admission a join always finds the connection's own slot, so neither the missing-slot recovery nor the error for it is reachable. |
| `Heartbeat.MissedOnlyWhenSilent` | main/src/chat/sessions.c:448-534 | In every run a client is closed as missed only by a sweep that is not delayed, at least the heartbeat interval after a ping that was really sent to it, without a failure, with no frame from it in between. |
| `Heartbeat.SweepSendsPings` | main/src/chat/sessions.c:522-529 | The first sends of a sweep are its pings, one for each slot judged so, in slot order; a connection whose ping fails is not joined afterwards. |
| `Heartbeat.RecordedPingIsSent` | main/src/chat/sessions.c:500-529 | Each ping that a sweep records is the send it names, on the connection it names, at the time of the sweep; whoever is still joined afterwards got it. |
| `Heartbeat.SilentClientIsClosed` | main/src/chat/sessions.c:448-534 | With sweeps at most g apart, g not above the interval h, a client silent since a is not joined at a + 2h + 2g, and one that never joined is closed when its join time and g are over too. A frame's admission and its handler may read different times. |
| `SessionFacts.FailingRoundShrinks` | main/src/server/websocket_server.c:47-79 | A broadcast round with a failed send strictly lowers the number of joined slots; one without leaves the table alone and gives everyone the current list. |
| `SessionFacts.PresenceBroadcastConverges` | main/src/chat/sessions.c:362-383 | For every pattern of send failures a failure-free round comes within one more attempt than there are slots, so the "did not converge" exit is unreachable. |
| `SessionFacts.RoundsConverge` | main/src/chat/sessions.c:362-383 | More attempts than joined slots are enough. |
| `SessionFacts.CloseMakesClosing` | main/src/server/websocket_server.c:105-131 | Closing a connection without telling anyone leaves a closing slot, which is what makes its silence acceptable. |
| `SessionDelivery.ChatReachesEveryMember` | main/src/chat/protocol.c:222-272 | Whoever was joined when a chat message was stored and is still joined after its handler got the send made to it. |
| `SessionDelivery.JoinedMeansReplayed` | main/src/chat/protocol.c:182-220 | A connection that is joined after its join got every message of the replay. |
| `SessionDelivery.EachGetsOneSend` | main/src/server/websocket_server.c:47-79 | A broadcast sends its text once to each descriptor, in slot order, and closes exactly the connections whose send fails. |
| `SessionDelivery.ChatIsSentInOrder` | main/src/server/websocket_server.c:47-79 | The handler's k-th send brings the message to the k-th joined connection. |
| `SessionSends.ChatGoesToJoined` | main/src/chat/protocol.c:222-272 | A stored chat message is sent once to each joined connection, and to no other. |
| `SessionSends.ChatBringsBounds` | main/src/chat/protocol.c:266-271 | Whoever is still joined after a chat message was sent the new history bounds too, without a failure. |
| `SessionSends.RequestGoesToJoined` | main/src/chat/protocol.c:326-367 | A history request is sent once to each joined connection, and to no other. |
| `SessionSends.ResponseGoesToNamed` | main/src/chat/protocol.c:116-164 | A relayed history response is sent once to each joined connection of a user it names, and to no other. |
| `SessionSends.RejectedResponseIsTold` | main/src/chat/protocol.c:390-417 | A rejected response is sent to nobody; its sender, and no one else, gets an error. |
| `SessionSends.ListIsAnswered` | main/src/chat/protocol.c:419-464 | A request for the user list is answered by one send on the same connection, with a list of exactly the joined slots. |
| `SessionSends.JoinTellsReplaced` | main/src/chat/sessions.c:51-126 | A join tells each other open session of the user, once, that it is replaced, and nobody else. |
| `SessionSends.JoinedIsSynchronized` | main/src/chat/protocol.c:182-220 | A connection that is joined after its join was sent, in this order and without a failure, the replay, the history bounds and the list of joined users; every joined connection has the current list. |
| `SessionSends.HandlerTells` | main/src/chat/protocol.c:222-272 | If handling a chat message, a history request or a response closes any connection, every joined one has the current list afterwards. |
| `SessionSends.CloseIsTold` | main/src/server/websocket_server.c:105-131 | So it is after a joined connection is closed for a frame of its own, |
| `SessionSends.CallbackIsTold` | main/src/server/websocket_server.c:153-165 | after the close callback of a connection that had a slot, |
| `SessionSends.SweepTells` | main/src/chat/sessions.c:448-534 | and after a sweep that closes a joined connection. |
| `SessionClosing.HandlerClosesByFailure` | main/src/server/websocket_server.c:47-79 | A chat message, a history request or a response, accepted or not, closes a connection if and only if a text sent on it failed, error replies aside; slots change in no other way. |
| `SessionClosing.OnlyOwnUserActs` | main/src/chat/protocol.c:166-180 | A message other than a join, on a connection that has not joined as the user the message names, gets one error and closes that connection; nothing else is sent, closed or changed. |
| `SessionClosing.OwnUserActs` | main/src/chat/protocol.c:166-180 | For the joined user of the connection at most the time sample is taken before the message is handled. |
| `SessionClosing.BadJoinIsShutOut` | main/src/chat/protocol.c:182-202 | A join without a valid user, name or cursor, or without a loaded counter, or on a connection joined as another user, gets one error and closes that connection; nothing else is sent, closed or changed. |
| `SessionClosing.JoinSucceedsExactly` | main/src/chat/protocol.c:182-220 | After a join its connection is joined if and only if the join is none of these, all its texts could be built, and no text sent on it failed, the user lists that follow included. |
| `SessionClosing.FrameClosesSender` | main/src/server/websocket_server.c:183-275 | Which frames without a message close an open connection: broken, oversize, close and binary ones always, a broken pong or an empty binary frame too, and pongs, empty texts and bad JSON exactly if the connection has not joined. Only errors on that connection, and user lists, are sent. |
| `SessionClosing.SweepPingsDue` | main/src/chat/sessions.c:493-529 | A sweep sends one ping to each joined connection heard of since its last ping at least the interval ago, or not heard of if the sweep is delayed, and none to any other. |
| `SessionClosing.SweepClosesExactly` | main/src/chat/sessions.c:463-534 | A sweep closes an open slot if and only if a text it sent on that connection failed, or the sweep is not delayed and the slot is joined, silent and pinged at least the interval ago, or not joined after 10 seconds. |
| `SessionSteps.UpdateIdentityJoins` | main/src/chat/sessions.c:51-126 | A join binds the connection's own slot to the user and name, alive and with the time of the join, and keeps the slot's time sample only for the same user; it closes exactly the user's other sessions, and touches no other slot, although the replaced ones are notified by sends that may fail. |
| `SessionSteps.SampleIsRecorded` | main/src/chat/sessions.c:219-244 | A valid time sample ends up in the connection's joined slot and changes nothing else. |
| `SessionSteps.MarkAliveExactly` | main/src/chat/sessions.c:246-265 | A pong revives the connection's joined slot and changes nothing else. |
| `SessionSteps.IdentityExactly` | main/src/chat/sessions.c:193-217 | The identity check says not joined exactly if the connection has no joined slot, and matching exactly if that slot's user is the one claimed. |
| `SessionSteps.AdmitExactly` | main/src/chat/sessions.c:128-172 | A connection is admitted exactly if it has an open slot, or none at all and some slot is free. |
| `SessionSteps.JoinGood` | main/src/chat/protocol.c:182-220 | Every outcome of a join keeps the table and presence invariants and closes at most other slots. |
| `SessionSteps.MessageGood` | main/src/chat/protocol.c:419-464 | So does every other message, whoever sent it. |
| `SessionSteps.DispatchGood` | main/src/server/websocket_server.c:167-275 | So does every kind of frame, broken and oversize ones included. |
| `SessionSteps.AdmitGood` | main/src/chat/sessions.c:128-172 | Admission touches only the connection's own slot or a free one, and shows the connection alive. |
| `SessionSteps.SessionClosedGood` | main/src/server/websocket_server.c:153-165 | After the close callback no slot is on the descriptor, other identities stay, and presence is consistent. |
| `SessionSteps.SweepGood` | main/src/chat/sessions.c:448-534 | After its locked section a sweep only closes slots; identities stay and presence is consistent. |
| `ChatServer.Server.constructor` | main/src/main.c:32-34 | The zeroed table, from which every run starts; it satisfies the table and presence invariants (`Valid`). |
| `ChatServer.Server.MarkClosing` | main/src/chat/sessions.c:267-283 | Closes every slot on the descriptor and no other, and says whether one had joined. |
| `ChatServer.Server.RemoveByFd` | main/src/chat/sessions.c:285-307 | Frees every slot on the descriptor and no other, and says whether there was one. |
| `ChatServer.Server.EnsureSlot` | main/src/chat/sessions.c:128-172 | The two loops give a known open connection a sign of life, refuse a closing one, and register an unknown one in the first free slot. |
| `ChatServer.Server.IsJoined` | main/src/chat/sessions.c:174-191 | Whether the first open slot on the descriptor has a joined user. |
| `ChatServer.Server.CheckIdentity` | main/src/chat/sessions.c:193-217 | Not joined, matching or different, by the first open slot on the descriptor. |
| `ChatServer.Server.UpdateTimeSample` | main/src/chat/sessions.c:219-244 | A valid sample reaches the connection's joined slot and nothing else. |
| `ChatServer.Server.MarkAlive` | main/src/chat/sessions.c:246-265 | A pong revives the connection's joined slot and nothing else. |
| `ChatServer.Server.BuildOnlineUsers` | main/src/chat/sessions.c:309-360 | The loop builds the list that the presence lemmas are about: id and name of each joined slot, in slot order, with the default name for an empty one. |
| `ChatServer.Server.FindTarget` | main/src/chat/sessions.c:60-73 | The connection's open slot, else the first free one. |
| `ChatServer.Server.CloseOtherSessions` | main/src/chat/sessions.c:99-111 | The loop closes the user's other slots in place and collects their descriptors in slot order. |
| `ChatServer.Server.UpdateIdentity` | main/src/chat/sessions.c:51-126 | The whole operation has the effect that the lemmas about joins use. |
| `ChatServer.Server.Broadcast` | main/src/server/websocket_server.c:47-79 | Sends to the members as collected before the first send, closes those that fail, and says whether there was one. |
| `ChatServer.Server.SendToAll` | main/src/chat/protocol.c:152-163 | Every descriptor gets one send; a failed one closes that connection and the loop goes on. |
| `ChatServer.Server.CloseClient` | main/src/server/websocket_server.c:105-131 | On the HTTP task a close marks the slot and leaves its removal to the callback. |
| `ChatServer.Server.BroadcastOnlineUsers` | main/src/chat/sessions.c:362-383 | The loop always ends in a round without failure. |
| `ChatServer.Server.HandleJoin` | main/src/chat/protocol.c:182-220 | All exits of a join: refusals, replay, history info, user list, close on failure, presence. |
| `ChatServer.Server.RequireJoinedIdentity` | main/src/chat/protocol.c:166-180 | Anyone but the joined user of the connection is told so and closed. |
| `ChatServer.Server.HandleChat` | main/src/chat/protocol.c:222-272 | A stored message and the new bounds go to everyone; a failure of either is followed by presence. |
| `ChatServer.Server.HandleHistoryRequest` | main/src/chat/protocol.c:326-367 | A valid request goes to everyone, a failure is followed by presence. |
| `ChatServer.Server.HandleHistoryResponse` | main/src/chat/protocol.c:116-164 | The loop collects the joined slots of the named users, the response is sent to each of them once, a failure is followed by presence and an error: the sends are those of `SessionSends.ResponseGoesToNamed`. |
| `ChatServer.Server.HandleMessage` | main/src/chat/protocol.c:419-464 | The dispatch on the message type, with the identity check in front of all but joins. |
| `ChatServer.Server.Dispatch` | main/src/server/websocket_server.c:183-275 | The dispatch on the frame, with its closes and errors. |
| `ChatServer.Server.PreHandshake` | main/src/server/websocket_server.c:133-151 | A handshake is admitted exactly when a slot can be had; `Valid` is kept. |
| `ChatServer.Server.Register` | main/src/server/websocket_server.c:175-178 | The slot guard in front of handshakes and frames, with the sign of life it records. |
| `ChatServer.Server.HandleFrame` | main/src/server/websocket_server.c:167-178 | Every frame keeps `Valid`: one active slot per connection, one joined slot per user, and current presence or a closing slot. Nothing happens to a frame whose connection has no slot. |
| `ChatServer.Server.SessionClosed` | main/src/server/websocket_server.c:153-165 | Frees the slot and, if there was one, tells the others; the descriptor's last user list is forgotten, and `Valid` is kept. |
| `ChatServer.Server.Sweep` | main/src/chat/sessions.c:448-534 | Judging all slots under the lock, then closing, pinging and telling, has the effect and the sends of the sweep that the heartbeat lemmas speak of; `Valid` is kept. |
| `ChatServer.Server.SweepLocked` | main/src/chat/sessions.c:463-520 | The loop judges each slot once, in place, and collects whom to close and whom to ping. |
| `ChatServer.Server.JudgeSlot` | main/src/chat/sessions.c:470-518 | The branches for one slot, including the grace that a delayed sweep gives. |
| `SweepScheduling.PendingMeansInFlight` | main/src/chat/sessions.c:536-564 | Under every interleaving of timer and HTTP task at most one sweep is in flight, and the flag is set exactly while one is queued, about to be queued, about to be undone, or started and not past its clear. |
| `SweepScheduling.FlagNeverSticks` | main/src/chat/sessions.c:448-464 | From every reachable state with the flag set some task can move, and enough moves of the tasks pass through a moment with the flag clear. |
| `Transport.Connection.SendComplete` | main/src/server/socket_transport.c:11-46 | The loop over short writes, interruptions, errors and timeouts computes the outcome that the lemmas below are about, on the wire and in its result, and shuts the socket on a runtime failure. |
| `Transport.SendExactly` | main/src/server/socket_transport.c:11-46 | On an open socket a buffer that is not empty is sent, all of it, if and only if the calls made before one stops the callback accept it all. Otherwise exactly what they accept is written, the socket is shut, and the result is a timeout if time ran out or the socket would block, and a failure after any other call. Stated over the results of the calls. |
| `Transport.SendIsPrefix` | main/src/server/socket_transport.c:11-46 | One call writes an exact prefix of its buffer, the whole of it exactly on success; only runtime failures shut the socket. |
| `Transport.StreamFraming` | main/src/server/socket_transport.c:11-51 | Over every run of calls the peer sees the whole buffers reported as sent, back to back, then at most one strict prefix of the buffer whose failure shut the socket. |
| `ClientStore.RetentionKeepsNewestLive` | main/web/js/script.js:278-295 | Retention keeps exactly min(n, 2000) of the n messages, sorted by id. The live ones are a newest suffix of all live ones: all, or at least 1000. Of the restored ones it keeps the newest, and drops some only if no more than 1000 live ones stay. |
| `ClientStore.StorageIsInOrder` | main/web/js/script.js:476-503 | In every run of the page whose messages arrive above the stored cursor and whose reloads read the cache, whichever writes fail and also between two writes: each message received up to the stored cursor is in the stored snapshot or pushed out by the cap. |
| `ClientStore.ReloadIsSoundExactly` | main/web/js/script.js:241-270 | A reload keeps the page's accounts (`Sound`: nothing received is missing from memory, or from storage up to its cursor) if and only if the new page reads every received message that the cap has not pushed out. |
| `ClientStore.ReloadAfterNewMessageExactly` | main/web/js/script.js:476-503 | After a message that storage has not seen, a reload keeps these accounts (`Sound`) if and only if the last write of the cache succeeded and the read of it does. |
| `ClientStore.GoodSaveFindsCache` | main/web/js/script.js:278-295 | After a successful write of the cache, a page that can read it finds everything it should. |
| `ClientStore.RestoredStaysValid` | main/web/js/script.js:969-1000 | A message restored from another browser, reduced to its known fields, passes the check of the next page load under the same id, and is visible to the same users. |
| `ClientStore.StepIsSound` | main/web/js/script.js:241-312 | Receiving, importing and reloading each keep the accounts (`Sound`) of every message received. |
| `ClientStore.Page.Save` | main/web/js/script.js:278-295 | The method over the globals is the retention above, and writes what it kept or nothing. |
| `ClientStore.Page.Remember` | main/web/js/script.js:306-312 | The cursor in memory only rises, and storage follows it or stays. |
| `ClientStore.Page.SaveIncomingMessage` | main/web/js/script.js:476-503 | The method does what the lemmas below are about, and the message counts as new exactly if it is valid, its id is not cached, and its fields say it is for this user: sent by the user or the server, to everyone, or to the user by name. |
| `ClientStore.ForUserIsStored` | main/web/js/script.js:476-503 | A valid message for the user by its fields is in the cache and in storage once the cache has been written, or was pushed out by the cap, which takes a full cache. |
| `ClientStore.ForOthersIsNotStored` | main/web/js/script.js:481-485 | Nothing else adds a message to the cache or to storage, whichever writes fail. |
| `ClientStore.CursorFollows` | main/web/js/script.js:497-503 | The cursor moves to the id of a valid message above it exactly if the cache has been written, and the stored one exactly if its own write succeeds too. |
| `ClientStore.IsForMeansVisible` | main/web/js/script.js:332-340 | For valid messages, for the user means visible to the user by the server's rule, or sent by the server. |
| `ClientStore.Page.Load` | main/web/js/script.js:241-270 | The cache is read, or empty, and filtered; the cursor becomes the larger of the stored one, if it can be read, and the largest live id, and is stored only after the snapshot. |
| `ClientStore.GoodLoadReachesAll` | main/web/js/script.js:241-270 | A page whose reads succeed has every stored message but those that the cap cuts, and its cursor is the larger of the stored one and the largest live id stored. |
| `ClientStore.Page.Import` | main/web/js/script.js:1000-1022 | Only a valid message for this user, below the boundary and not cached, is added, reduced to its known fields and marked with its source; the cursors stay. |
| `ClientStore.ImportedExactly` | main/web/js/script.js:1000-1022 | A message from another browser is added if and only if it is valid, for the user, below the boundary and not cached; otherwise nothing changes, and the cursors never do. |
| `ClientStore.Page.LoadUser` | main/web/js/script.js:215-219 | The user id is the stored one, or a generated one if there is none or it cannot be read; a generated one replaces what was stored if its write succeeds. |
| `ClientStore.Page.constructor` | main/web/js/script.js:215-276 | A page starts from what storage lets it read. |
| `Outbox.OutboxOrder` | main/web/js/script.js:843-922 | Over every run whose reloads take the queue over: messages reach sockets in composition order, each at most once; each is sent, queued or dropped by the 30-entry cap; and a joined open socket implies an empty queue. |
| `Outbox.ReloadKeepsOrderExactly` | main/web/js/script.js:257-259 | A reload keeps these guarantees if and only if what the new page reads of the queue and keeps of it is the queue. |
| `Outbox.ReloadAfterGoodSaveExactly` | main/web/js/script.js:257-259 | After a successful write of the queue that is so if and only if the queue is empty, or can be read and each message in it is valid and was composed under the user id of the new page. |
| `Outbox.ReloadTakesOverExactly` | main/web/js/script.js:257-259 | Of the stored queue a page takes over, if it can read it, exactly the messages that are valid and composed under its user id, in order. |
| `Outbox.LostUserIdLosesQueue` | main/web/js/script.js:215-219 | If the first page's user id could not be stored, a message queued and stored by it is neither queued, sent nor dropped by the cap after a reload. |
| `Outbox.UnreadUserIdLosesQueue` | main/web/js/script.js:177-184 | If the user id cannot be read, a page with a new one takes over nothing of a stored queue. |
| `Outbox.ReloadAfterFailedSaveResends` | main/web/js/script.js:898-922 | After a flush whose storage write fails, a reload that reads and keeps the stored queue queues every message just sent once more. |
| `Outbox.UnsavedFlushReachable` | main/web/js/script.js:888-896 | A state in which that can happen is reached by composing before the first connection, for every later load whose reads succeed. |
| `Outbox.Page.constructor` | main/web/js/script.js:215-219 | The first page of a browser: nothing stored, and a generated user id whose write may fail. |
| `Outbox.Page.Load` | main/web/js/script.js:257-259 | The user id comes from storage or, if there is none or it cannot be read, is generated; the loop keeps exactly the stored entries that are valid and from this user, in order, and none if the queue cannot be read. |
| `Outbox.Page.Save` | main/web/js/script.js:301-304 | The queue is cut to its newest 30 entries, and storage follows or stays. |
| `Outbox.Page.ReleaseSocket` | main/web/js/script.js:789-807 | A released socket is gone together with its join. |
| `Outbox.Page.Transmit` | main/web/js/script.js:725-766 | A message goes out only on an open socket; a throwing one is released. |
| `Outbox.Page.Compose` | main/web/js/script.js:1471-1484 | A composed message goes out, or else into the queue, as the next lemmas say. |
| `Outbox.ComposedIsSent` | main/web/js/script.js:1471-1484 | On a joined open socket that does not throw, a composed message is sent at once, and socket, join and queue stay. |
| `Outbox.ComposedIsQueued` | main/web/js/script.js:1471-1484 | Otherwise it is not sent but joins the end of the queue, of which the newest 30 stay; a joined open socket that threw is released, any other stays. |
| `Outbox.Page.Queue` | main/web/js/script.js:888-896 | Queueing appends, then saves. |
| `Outbox.Page.Flush` | main/web/js/script.js:898-922 | The loop sends the front of the queue up to the first failure and keeps the rest. |
| `Outbox.Page.Confirm` | main/web/js/script.js:843-863 | The first sign of a join on an open socket flushes the queue, later ones do nothing. |
| `Outbox.JoinFlushes` | main/web/js/script.js:843-922 | A first confirmation sends the queue in order, all of it if no send throws, and else what is before the first that does; the rest stays and that socket is released. |
| `ChatProtocol.StoredMessagePassesClient` | main/src/chat/protocol.c:222-272 | Everything the server stores passes the browser's check, so no stored message can stall or skip the cursor, within 256 bytes of text and 16 clients. |
| `ChatFrames.BrowserAcceptsExactly` | main/web/js/script.js:371-395 | For the configurable numbers of clients, everything the server receives, accepts and stores passes the browser's check if and only if at most 256 bytes of text are configured or payloads of less than 322 bytes. |
| `ChatFrames.LongMessageLength` | main/src/server/websocket_server.c:213-221 | However it is written and spaced, a frame with an accepted message of more than 256 bytes of text has at least 322 bytes. |
| `ChatFrames.LongTextIsDiscarded` | main/web/js/script.js:384 | With more configured, a frame with 257 bytes of text is received and stored by the server and discarded by every browser. |
| `ChatProtocol.RelayedHistoryIsOld` | main/src/chat/protocol.c:369-417 | A relayed response carries a valid message below the boundary which every user it names may see. |
| `ChatProtocol.RelayReachesOnlyViewers` | main/src/chat/protocol.c:116-164 | Whatever the client table holds, the handler sends a response only to joined connections whose user may see its message, and once to each joined connection of a user it names; a rejected one it sends to nobody. |
| `ChatProtocol.ResponseAcceptedExactly` | main/src/chat/protocol.c:369-417 | A response is accepted if and only if it names users by name, not everyone, all of whom may see its message, and that is a message the browser would keep, below the boundary and within the configured limits. |
| `ChatProtocol.AcceptedExactly` | main/src/chat/protocol.c:222-272 | The server accepts a chat message if and only if its stored form passes the browser's check and is within the configured text length and number of targets. |
| `ChatProtocol.AudienceStays` | main/src/chat/protocol.c:16-53 | Accepting and storing a message changes nobody's right to see it. |
| `SessionFacts.RecipientFdsMeaning` | main/src/chat/protocol.c:134-148 | The relay collects exactly the joined slots of the users named. |
| `ChatProtocol.DefaultsAreStable` | main/src/chat/protocol.c:16-53 | Filling in target defaults twice is filling them in once, so a relayed message validates unchanged. |
| `ChatProtocol.VisibilityAgrees` | main/src/chat/protocol.c:66-88 | Server and browser agree on who may see a message. |
| `ChatProtocol.WsDataSize` | main/web/js/script.js:112-122 | The browser's count by code point is the length of the UTF-8 encoding that the server measures. |
| `ClockConsensus.CollectSamples` | main/src/common/utils.c:207-218 | The offsets of the joined slots that have one, in slot order. |
| `ClockConsensus.SumCluster` | main/src/common/utils.c:228-237 | Sum and size of the samples in one window. |
| `ClockConsensus.ConsensusOffset` | main/src/common/utils.c:195-252 | Succeeds if and only if some 120-second window, anywhere, holds two thirds of the samples, and returns the truncated mean of a largest cluster. |
| `ClockConsensus.SamplesAreListed` | main/src/common/utils.c:207-218 | The samples are one for each active joined slot with a valid offset, in slot order. |
| `ClockConsensus.ThresholdIsTwoThirds` | main/src/common/utils.c:187-193 | The threshold is the least number that is two thirds of the samples. |
| `ClockConsensus.TotalCountsEachOnce` | main/src/common/utils.c:228-237 | The sum of a cluster is made of one share for each sample: the sample itself if it is within 120 seconds above the anchor, and nothing otherwise. |
| `ClockConsensus.MeanIsTruncated` | main/src/common/utils.c:250 | The mean is exact up to one divisor and rounded toward zero, for sums of either sign. |
| `ClockConsensus.AnchoredWindowsSuffice` | main/src/common/utils.c:195-252 | Trying only windows that start at a sample misses none. |
| `ClockConsensus.ConsensusNearHonest` | main/src/common/utils.c:187-252 | If two thirds of the samples are within 120 s of each other there is a consensus, and whatever the others say it is within 120 s of one of them and 240 s of all. |
| `ClockConsensus.QuorumsIntersect` | main/src/common/utils.c:187-193 | Any two groups of two thirds share a sample. |
| `Utf8.ValidUtf8` | main/src/common/utils.c:78-117 | Accepts a byte string if and only if it is the concatenation of encodings of Unicode scalar values, which is also the syntax of section 4 of RFC 3629. |
| `Utf8.AcceptUtf8` | main/src/common/utils.c:78-117 | The acceptor's loops decide that syntax. |
| `Utf8.DecodingUnique` | main/src/common/utils.c:78-117 | A text has at most one decoding. |
| `Utf8.Decode` | main/src/common/utils.c:78-117 | A well-formed text has a decoding that encodes back to it. |
| `Utf8.EncodedIsWellFormed` | main/src/common/utils.c:78-117 | Every sequence of scalar values encodes to a well-formed text. |
| `JsonGuard.PreScan` | main/src/common/utils.c:125-166 | The loop over bytes computes the scan. |
| `JsonGuard.PreScanDecidesDepthAndNul` | main/src/common/utils.c:125-166 | On every text of the RFC 8259 grammar, whatever its whitespace, the scan accepts if and only if objects and arrays nest at most 16 deep and no string holds an escaped NUL. |
| `JsonGuard.BadStringIsRefused` | main/src/common/utils.c:135-148 | A string that does not end, or with a raw control byte in it, is refused. |
| `JsonGuard.StrayByteIsRefused` | main/src/common/utils.c:156-162 | So is, after a text, a control byte that is no white space, or a bracket that closes nothing, |
| `JsonGuard.UnclosedIsRefused` | main/src/common/utils.c:164-166 | and a bracket that is never closed. |
| `JsonGuard.HasDuplicateKeys` | main/src/common/utils.c:45-76 | True if and only if some object anywhere in the tree repeats a key or has a member without one. |

## Left out

- Wi-Fi, DNS, static pages, the settings API and its storage, passwords, logging, previews and everything on screen: no state that the properties above depend on.
- cJSON, NVS, FreeRTOS, lwIP and the HTTP server: parsed values are datatypes, flash is a cell whose uncommitted write may survive a power cut, locked sections are atomic, handlers and sweeps run one at a time on the HTTP task.
- The WebSocket and TCP formats: a connection is a stream of whole messages in order that may be cut at any prefix. `Transport` covers the bytes of one send.
- Which number a JSON numeral stands for: the values a frame denotes agree with its text in everything else.
- Double arithmetic and JavaScript's coercions: ids are naturals up to 2^53 - 1 and timestamps integers, so the integer-exactness tests and a numeric id given as a string are not modelled.
- Allocation failure while a user list is built, which the source turns into a skipped round; allocation failures in replay, storing and history info are modelled.
- The work queue for presence broadcasts from other tasks, mutex timeouts, and the closing of clients off the HTTP task.
- The parsing of `since_id` and the clamp of the boundary in a history request: the browser only sends cursors that are safe integers, and the clamp is one comparison.
- The reset of the cursor to 0 after a `bad_since_id` error: the cursor is always a safe id, so the server never sends that error to this client.
- Two tabs of one browser sharing storage, and storage changed or filled by others.
- The JSON root that the server edits in place is modelled on values: the result of each edit is captured, aliasing of the tree is not.
- `ClockConsensus.ConsensusOffset`: does not model 64-bit wrap-around of the sum, because reported times are limited to a range that keeps sums of 16 of them far below it.
- Flash that is erased while messages with higher ids are still in browsers: the counter would start over, and the results assume it does not.
