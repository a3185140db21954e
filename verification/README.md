# hermes-dms, verified

A Dafny model of `hermes-dms`, the daemon that connects a desktop panel to a Hermes gateway, and of
the panel code that shows the conversation. The model covers

- the **bridge**: one adapter slot and one route per chat id, shared by every chat turn
  (`Bridge`, `Turns`, `Readiness`, `ChatLoop`);
- the **client connections**: request dispatch, cancellation tokens, the bounded queue and the
  writer that merges it with broadcasts (`Connection`, `Delivery`);
- the **daemon** as the composition of both (`Daemon`, `Composition`, `Asking`, `Cancelling`,
  `Broadcasting`), and the one-shot command line client that consumes a chat (`Ctl`, `Wire`), with the
  reachability loop (`Health`);
- the **JSON-lines protocol** down to characters (`Json`, `JsonPrefix`, `JsonSpelling`, `Words`,
  `Codec`, `Wording`, `Lines`);
- the **panel** as a reactive machine over user actions and daemon lines (`Panel`, `Transcript`,
  `Requests`), and at the end of a daemon connection (`Conversation`);
- the panel's **Markdown converter** with its NUL-delimited placeholders (`Marks`, `Rules`,
  `Scanning`, `Rewriting`, `Sweeping`, `Restoring`, `Extraction`, `Escaping`, `Markdown`, `Conversion`,
  `Counting`, `PlainText`, `Mishaps`, `Rendering`, `Showing`);
- the **adapter's supervisor** with its backoff (`Supervisor`).

Check everything with `dafny verify dfyconfig.toml`.

## How concurrency is modelled

A run is the sequence of its atomic steps: a critical section, a channel operation, or an `await`
that completes. `Exec` gives the state after a run, if every step was possible; the theorems hold
for every run. What a run *did* is read off its labels by separate functions (`Turns.AccountOf`,
`Connection.Sent`, `Connection.Wire`, `Registry.Table`, ...), so that a theorem connects the state
that the steps produce with what the labels say. Channels are known by handles, and keep what is queued
when the map entry that led to them is gone. `Readiness.EveryStepIsTold`, `Delivery.EveryStepIsTold` and
`Composition.EveryStepIsTold` say which step can come next in terms of the labels alone. The classes (`Bridge.BridgeHub`,
`Connection.ClientConnection`, `Panel.HermesService`, `Supervisor.DesktopAdapter`,
`Lines.IpcClient`) update fields in place as the source does; each method is proved to take the
object's `View()` to what the step functions say, and the theorems are about those.

## What the code does, where its comments say otherwise

- A departing adapter does not end waiting turns. The comment at `src/daemon.rs:147` says that the
  end of a turn's stream means that the adapter has disconnected; `clear_adapter` only empties the
  slot. `Turns.EndOfStreamMeansChatIdReused` gives the exact condition: the chat id was used again.
- `open_chat` replaces an earlier route and `close_chat` removes whatever is there, so some theorems
  require distinct live chat ids; `Registry.HeldUntilKeyReused` says exactly what holds without.
  `in_flight` has the same shape and the same theorems.
- A history reply that arrives while an answer streams can take the panel's bubble away
  (`Panel.BubbleStep` is an equivalence). If it leaves the transcript too short, the completion is
  lost and the panel stays busy: `Panel.CompletionLostAfterShortHistory` is a run of four events from
  the start, and `Panel.CompletionIdlesExactlyInRange` says when a completion does make the panel idle.
- A message that waits for a session is lost if the user starts over and sends another one before the
  session is there: `_pendingMessage` is overwritten (`Transcript.MessageLostByStartingOver` is such a
  run). `Transcript.NothingIsLost` is the exact condition for every message to be sent once.
- A code block inside inline code is never restored: its placeholder stays in the converted text, NULs
  and all (`Mishaps.EnclosedBlockStaysMarked` gives a text). `Conversion.NothingLeftOver` shows that
  this is the only way for that to happen.
- A piece of code inside an address is restored twice, once in the address and once in what is shown
  of it (`Mishaps.CodeInAddressComesTwice` gives a text, `Counting.TimesRestored` the law).
  `Counting.RestoredOnce` is the exact condition for every piece to be restored once.
- Text that spells a placeholder's name, alone between two placeholders of another kind, is taken for
  one (`Restoring.TextMistakenForTag`). With the name of an address between two code blocks the
  converter looks up an address that it never stored, which throws
  (`Mishaps.NameBetweenBlocksIsLookedUp`); with the name of a block between two pieces of inline code
  it shows a missing block, and both pieces are lost (`Mishaps.NameBetweenCodesIsLookedUp`).
  `Conversion.PassesRestoreExactly` gives the exact condition for every text without a NUL: nothing is
  mistaken in the pass for addresses, nor in the one for blocks. The theorems about restoring require
  it; plain text, in which no `URL`, `CODEBLOCK` or `INLINECODE` is directly followed by a digit, always
  meets it (`PlainText.PlainIsUnmistaken`).

## Model

| member | source | states |
|---|---|---|
| Registry.EntriesBelongToLiveOwners | src/bridge.rs:97-108 | Whatever keys are used, an entry of the shared map belongs to an owner that inserted it under that key and has not cleaned up yet. |
| Registry.ExactWhenDistinct | src/bridge.rs:97-108 | With distinct live keys the map is exactly the live owners: nobody's entry is displaced or removed by another. |
| Registry.HeldUntilKeyReused | src/bridge.rs:97-108 | In every case an owner holds its entry if and only if its insertion is the latest event on the key. |
| Bridge.BridgeHub.IsConnected | src/bridge.rs:84-87 | True exactly if the slot holds an adapter. |
| Bridge.BridgeHub.SetAdapter | src/bridge.rs:89-91 | A new socket takes the slot, with an empty queue; the old one's queue and all routes stay as they are. |
| Bridge.BridgeHub.ClearAdapter | src/bridge.rs:93-95 | The slot is emptied, whichever socket it holds; routes and queues stay. |
| Bridge.BridgeHub.OpenChat | src/bridge.rs:97-103 | A fresh channel under the chat id, displacing any earlier route of it. |
| Bridge.BridgeHub.CloseChat | src/bridge.rs:105-108 | The route of the chat id is removed, whoever owns it. |
| Bridge.BridgeHub.SendInbound | src/bridge.rs:110-124 | The frame is queued and the answer is yes exactly if the slot holds an adapter whose writer still reads; `Readiness.PushAnswersForTheAdapter` says when that is. |
| Bridge.BridgeHub.Dispatch | src/bridge.rs:126-135 | The frame is appended to the channel routed for its chat id, or dropped. |
| Turns.RoutingRefinement | src/daemon.rs:106-155 | In every run, what a turn has emitted and is about to emit is exactly the relay of a prefix of the frames dispatched for its chat id while its route was installed, then its failure if it had one; the rest of those frames is what its channel holds. |
| Turns.EveryTurnAgrees | src/daemon.rs:115-154 | The inductive invariant behind it: phase, queue, emissions and receipts of every turn agree with the run's labels. |
| Readiness.EveryStepIsTold | src/daemon.rs:107-160 | The runs of turns and adapters are exactly those in which each step is told by the labels before it: a turn receives what was dispatched for it, ends on a final frame, a cancellation or the reuse of its chat id, emits what it owes and closes its route once. |
| Readiness.PushAnswersForTheAdapter | src/bridge.rs:110-126 | A push answers yes if and only if an adapter is in the slot, the last to have connected with no departure since, and its writer is not gone. |
| Readiness.CancelledMeansFired | src/daemon.rs:124-127 | A turn fails as cancelled only if its token was cancelled before. |
| Readiness.FiredTurnCanEnd | src/daemon.rs:122-159 | A waiting turn whose token was cancelled can answer so at once, close its route and be done. |
| Readiness.DoneSaysWhy | src/daemon.rs:116-157 | A turn that is done has said last why: "desktop platform offline" if the adapter did not take its frame, "desktop platform disconnected" if its stream ended, "cancelled" if it was cancelled, and otherwise the first final text it heard. |
| Turns.OneShot | src/daemon.rs:116-154 | Every turn emits drafts and then at most one terminal message, nothing after it; a turn that left its loop has emitted one; a completion carries the text of the first final frame. |
| Turns.RouteOwnership | src/bridge.rs:99-108 | With any chat ids, each installed route was opened under that id by a turn that has not closed yet. |
| Turns.RoutesAreTheOpenTurns | src/daemon.rs:115-154 | With distinct live chat ids the route keys are exactly the chat ids of the turns between open and close, each leading to its own turn, so no route outlives its turn. |
| Turns.RoutesAreTheTable | src/bridge.rs:97-108 | The route map is at all times what the opens and closes of the run leave behind. |
| Turns.EndOfStreamMeansChatIdReused | src/daemon.rs:146-149 | A waiting turn with nothing queued sees the end of its stream if and only if another turn has opened or closed its chat id since. |
| Turns.NoTurnSeesADisconnect | src/daemon.rs:146-149 | With distinct live chat ids no turn ever reports that the platform disconnected. |
| Turns.ReusingAChatIdCutsOffTheEarlierTurn | src/bridge.rs:97-103 | A second turn on a waiting turn's chat id ends the first one's stream, the adapter being as connected as before. |
| Turns.AdaptersDoNotReachTurns | src/bridge.rs:147-184 | No sequence of adapter connects, replacements, departures and transmissions changes a turn, a route or a turn's queue. |
| Turns.LaterAdapterStillReachesTheTurn | src/bridge.rs:126-135 | With distinct live chat ids, a final frame from whatever adapter connection is up is queued for the waiting turn. |
| Turns.QueuedSendEndsTheTurn | src/daemon.rs:122-153 | A final frame queued at position p moves one place forward with each receive and is moved by nothing else; after at most p + 1 receives the turn has met its end. |
| Turns.InboundConservation | src/bridge.rs:112-124 | What an adapter connection has sent and still queues is exactly, in order, what was accepted while that connection was in the slot, across replacements and departures. |
| Turns.EachTurnPushesOnce | src/daemon.rs:116-121 | A turn pushes at most one inbound frame, and only its own, whatever becomes of it; it waits only if that frame was accepted. |
| ChatLoop.ChatViaBridge | src/daemon.rs:106-155 | The select loop sends the answer to each outcome in order and stops at the first final frame, cancellation or end of stream; a refused push sends the offline error and nothing else. |
| ChatLoop.TheLoopAnswersAsTheTurnsDo | src/daemon.rs:122-153 | Those answers are the relay of the frames received followed by the failure, which is what the interleaved turns are proved to emit. |
| Connection.ConnectionStream | src/ipc/server.rs:138-174 | Direct lines are a prefix of what was queued, all of it once the writer finished; broadcasts are an in-order, at-most-once selection of those sent since accept, none before Subscribe was read; the queue never exceeds 128. |
| Delivery.EveryStepIsTold | src/ipc/server.rs:131-241 | The runs of a connection are exactly those in which each step is told by the labels before it: who may send and when there is room, what the writer puts out next, when it can finish, and when a broadcast is heard, ignored or skipped. |
| Delivery.SubscriberHearsEverything | src/ipc/server.rs:153-168 | A client that subscribed before anything was broadcast, and was never skipped, has heard exactly the broadcasts up to the last one it heard; while its writer works and does not lag, the next one can be heard at once. |
| Delivery.EveryBroadcastHasItsFate | src/ipc/server.rs:153-168 | In every run each broadcast below the next one to read was put on the wire, or read before the client subscribed, or lost to a lag of more than 256. |
| Connection.EveryDrainWritesTheQueue | src/ipc/server.rs:143-156 | Once nobody is left to send, every continuation without a failed write puts out the queue from its front: what it has written and what it still holds are exactly the queue there was. |
| Connection.WriterDrains | src/ipc/server.rs:143-156 | And from there the writer can always finish, after writing exactly the queued lines. |
| Connection.EachTaskStaysInOrder | src/ipc/server.rs:143-156 | The messages of one request reach the wire in the order it sent them. |
| Connection.InFlightIsTheTable | src/ipc/server.rs:218-234 | `in_flight` is at all times what the insertions and cleanups of the run leave behind, and their live owners are the unfinished requests. |
| Connection.TokensBelongToUnfinishedRequests | src/ipc/server.rs:218-234 | With any ids, a token belongs to a request of that id not yet cleaned up, so the map is empty when all have finished. |
| Connection.InFlightIsExact | src/ipc/server.rs:218-234 | With distinct live ids the map is exactly the unfinished requests, each with its own token. |
| Connection.CancelHitsExactlyItsRequest | src/ipc/server.rs:213-216 | With distinct live ids, Cancel cancels the unfinished request of that id and no other. |
| Connection.CancelReaches | src/ipc/server.rs:213-216 | In every case Cancel reaches a request if and only if its id has not been used again since. |
| Connection.RequestIsRead | src/ipc/server.rs:208-234 | With distinct live ids: `Subscribe` turns the broadcasts on, `Cancel` cancels the unfinished request of its id and no other, anything else becomes a running task, unfinished under its own id. |
| Connection.ClientConnection.Read | src/ipc/server.rs:208-236 | A request subscribes, cancels the token its id leads to, or becomes a new task whose token is entered under its id. |
| Connection.ClientConnection.Enqueue | src/ipc/server.rs:48-52 | The message goes to the end of the queue, or nowhere once the writer has gone. |
| Connection.ClientConnection.Finish | src/ipc/server.rs:229-234 | A finished handler gives up its handle and then the entry of its id. |
| Connection.ClientConnection.WriterTurn | src/ipc/server.rs:145-172 | One turn of the writer loop is one of the steps the theorems range over, whichever arm it takes. |
| Ctl.RunChatLoop | src/bin/ctl.rs:86-127 | The command prints the deltas of its request up to its completion or a relevant error, and fails if the stream closes first. |
| Ctl.PrintsUpToTheEnd | src/bin/ctl.rs:86-127 | The command prints every delta of its request up to the first message that ends it, and then, if that is a completion, its text and a newline; the verdict is what that message says. |
| Ctl.RunChatSeesOnlyTheRelevant | src/bin/ctl.rs:88-125 | Messages of other requests, broadcasts and tool progress have no effect. |
| Ctl.RunChatOnAStream | src/bin/ctl.rs:103-124 | On drafts followed by a terminal it prints exactly the final text and a newline, or nothing. |
| Daemon.ProjectsToTheBridge | src/daemon.rs:85-97 | Seen from the bridge, every run of the daemon is one of the runs of turns. |
| Daemon.ProjectsToEachConnection | src/ipc/server.rs:132-240 | Seen from a connection, every run of the daemon is one of the runs of a connection. |
| Composition.EveryStepIsTold | src/daemon.rs:178-290 | The runs of the whole daemon are exactly those in which each step is told by the labels before it. |
| Asking.FramesAreAsked | src/daemon.rs:85-117 | Every frame that an adapter was sent carries the text and the id of a chat request that some client made, under the session it named. |
| Cancelling.FireIsCancelOrShutdown | src/ipc/server.rs:213-218 | A chat's token is cancelled if and only if some step of the run cancels that chat: a `Cancel` read on its own connection while `in_flight` led from the id to it, or the shutdown of the connection. |
| Cancelling.CancelledMeansAsked | src/daemon.rs:124-127 | A chat answers "cancelled" only if its own client, or its connection's shutdown, cancelled it. |
| Cancelling.CancelReachesTheChat | src/ipc/server.rs:213-218 | With distinct live ids, cancelling the id of a waiting chat reaches that chat, which can answer "cancelled" at once. |
| Broadcasting.EveryConnectionIsTold | src/ipc/server.rs:88-95 | Every broadcast of the daemon is put to every connection that was accepted before it. |
| Broadcasting.SubscriberHearsTheDaemon | src/ipc/server.rs:153-168 | A client that subscribed in time and never lagged has heard the daemon's broadcasts since its accept, in order, up to the last one it heard. |
| Broadcasting.SubscriberKnowsTheFlag | src/daemon.rs:292-323 | Such a client believes what the health loop found at some probe, and, once it has heard everything, at the last one. |
| Daemon.RepliesAreEmissions | src/daemon.rs:122-153 | What a chat's task puts on its connection's queue is exactly what its turn emits. |
| Daemon.EveryReplyIsAddressed | src/daemon.rs:169-175 | Every message on a connection answers the request of the task that sent it. |
| Daemon.OneShotEndToEnd | src/bin/ctl.rs:75-127 | For every run: `ctl chat` succeeds only with exactly the first final text that the adapter sent for its chat, plus a newline, as its output; otherwise it prints nothing; and when the daemon's writer has finished, it has a verdict. |
| Wire.ReceivedIsPrefix | src/ipc/client.rs:37-48 | However much of the daemon's output arrives, the client reads a prefix of the messages, and all of them from all of it. |
| Ctl.OnlySuccessPrints | src/bin/ctl.rs:88-125 | Where no delta of its request occurs, the command prints nothing unless it succeeds. |
| Daemon.NoDeltas | src/daemon.rs:129-145 | No delta of a chat's request is ever on its connection's wire. |
| Wire.OneShotOverText | src/bin/ctl.rs:75-127 | The same on characters, for any part of the daemon's output: success means the first final text and a newline were printed, anything else that nothing was; on all the output of a finished writer there is a verdict. |
| Health.HealthLoop | src/daemon.rs:291-323 | The stored flag is the last probe and the broadcasts are those of the specification. |
| Health.StatusesTellTheFlag | src/daemon.rs:299-317 | One status per change from the initial false state, alternating and starting with connected; replaying them gives the stored flag. |
| Health.StatusesAreBroadcastable | src/daemon.rs:300-317 | Every status of the loop says that the daemon is ready, and answers no request. |
| Supervisor.DesktopAdapter.Dial | hermes-plugin/desktop/adapter.py:120-131 | The socket is up exactly if the dial succeeded. |
| Supervisor.DesktopAdapter.Connect | hermes-plugin/desktop/adapter.py:88-100 | Closing is reset, one dial is made, a failed one is left to the supervisor, and there is a supervisor. |
| Supervisor.DesktopAdapter.Disconnect | hermes-plugin/desktop/adapter.py:102-118 | Closing is set, the supervisor is cancelled and the socket is gone. |
| Supervisor.DesktopAdapter.Supervise | hermes-plugin/desktop/adapter.py:141-159 | The acts of the loop for every course of its awaits: a pump while the socket is up and a mark when it drops, dials with the results of the course in order, a mark after a successful one and a sleep of exactly min(5 * 2^k, 60) seconds after the k-th failure in a row, none of them while closing is set, and nothing missing at the end. |
| Supervisor.OneTrace | hermes-plugin/desktop/adapter.py:141-159 | That contract admits one sequence of acts for each course, and every trace is a beginning of it. |
| Supervisor.TraceEnds | hermes-plugin/desktop/adapter.py:145-157 | The loop ends only when closing is set or its course is used up, and never between a failed dial and its sleep. |
| Supervisor.DialsFollowTheCourse | hermes-plugin/desktop/adapter.py:150-157 | A dial starts only while closing is unset, and comes out as its await did. |
| Supervisor.MarksTellTheSocket | hermes-plugin/desktop/adapter.py:145-154 | The platform is marked connected exactly while the socket is up, but right behind a successful dial or a pump; it is pumped only while up and dialled only while down. |
| Supervisor.TotalDelay | hermes-plugin/desktop/adapter.py:143-157 | Every delay is between 5 and 60 seconds; the sum of the first n delays in closed form. |
| Supervisor.FailuresWait | hermes-plugin/desktop/adapter.py:143-157 | Over every course, n failed dials in a row have cost exactly that sum of sleeps, at most 60 n seconds. |
| Panel.AlwaysConsistent | dms-plugins/hermesPanel/HermesService.qml:62-125 | Over every run: busy implies a non-empty request id, and a streaming index implies a non-empty request id and session id. |
| Panel.BusyCanBeCancelledOrCleared | dms-plugins/hermesPanel/HermesService.qml:89-103 | A busy panel whose relay runs can always cancel exactly its request; a new conversation always clears busy. |
| Panel.BubbleStep | dms-plugins/hermesPanel/HermesService.qml:152-250 | One event leaves the streaming index on an assistant entry of the transcript if and only if it is not a matching history reply that has no assistant entry there. |
| Panel.BubbleStaysInPlace | dms-plugins/hermesPanel/HermesService.qml:212-220 | Over every run without such a reply the index is within the transcript and points at an assistant entry. |
| Panel.RangeStep | dms-plugins/hermesPanel/HermesService.qml:152-250 | One event takes the streaming index past the transcript if and only if it is a matching history reply that is too short. |
| Panel.CompletionIdlesExactlyInRange | dms-plugins/hermesPanel/HermesService.qml:177-190 | After every run, the completion of the current request makes the panel idle if and only if the index is within the transcript; otherwise it changes nothing. It always does when no history reply of the run was too short. |
| Panel.CompletionLostAfterShortHistory | dms-plugins/hermesPanel/HermesService.qml:212-220 | Such a run from the start: the session is created, a message sent, an empty history arrives; the panel is busy with an empty transcript, and the completion leaves it so. |
| Panel.OnlyTheBubbleChanges | dms-plugins/hermesPanel/HermesService.qml:161-190 | Between clears an event changes no transcript entry but the bubble, and that one only by a message of its own request. |
| Panel.BubbleMoves | dms-plugins/hermesPanel/HermesService.qml:82-87 | Between clears a bubble is given up, kept with its request, or replaced by a new entry at the end. |
| Panel.OpeningABubble | dms-plugins/hermesPanel/HermesService.qml:62-87 | Whichever event sends a chat request, typing or the creation of a session, the new last entry is empty and is the bubble of the new request. |
| Transcript.HistoryIsShown | dms-plugins/hermesPanel/HermesService.qml:212-220 | After a history reply for the current session the transcript is that history, role and content of every message, and goes on to begin with it until something clears it, but for the entry that an answer streams into. |
| Transcript.AppendedIsShown | dms-plugins/hermesPanel/HermesService.qml:62-66 | A message that is taken, an error that concerns the panel and the notice of a new session each append their entry, and it stays as it is until the transcript is cleared. |
| Transcript.FlagsAreToldLast | dms-plugins/hermesPanel/HermesService.qml:222-226 | After every run the panel takes Hermes for connected exactly if the last status since the last exit said so; whether the relay process runs and which sessions there are is what it was told last, too. |
| Transcript.EveryMessageOnce | dms-plugins/hermesPanel/HermesService.qml:62-80 | Over every run each message that was taken was begun as a chat exactly once, or waits for its session, or was displaced by a later one that has to wait. |
| Transcript.NothingIsLost | dms-plugins/hermesPanel/HermesService.qml:62-80 | From the start, no message is lost and none is sent twice if and only if none is displaced. |
| Transcript.MessageLostByStartingOver | dms-plugins/hermesPanel/HermesService.qml:94-103 | A run of four events in which a message is displaced. |
| Transcript.ChatsAreWritten | dms-plugins/hermesPanel/HermesService.qml:82-87 | The chat requests written to the daemon are the chats begun, each once and in order, if the relay process runs whenever one is begun. |
| Requests.SessionIsToldLast | dms-plugins/hermesPanel/HermesService.qml:110-125 | After every run the current session is the one that the events told last. |
| Requests.BusyStep | dms-plugins/hermesPanel/HermesService.qml:62-66 | A panel is busy exactly from a message it takes to a completion that is not lost, an error that concerns it, a change of the conversation, or the exit of the relay process. |
| Requests.OutIsAsked | dms-plugins/hermesPanel/HermesService.qml:82-125 | Over every run what was written to the daemon is what each event asks for, in order; what is asked while the relay process is down is lost. |
| Requests.ResumedIsShown | dms-plugins/hermesPanel/HermesService.qml:110-125 | Changing over to a session clears the transcript and asks for its history, and when that arrives while the session is still current it is what the transcript shows. |
| Panel.BubbleOfARun | dms-plugins/hermesPanel/HermesService.qml:152-250 | Over every run from the start, the entry opened for a chat request shows the fold, from nothing, of the messages handled while it was the bubble, until something clears the transcript. |
| Panel.StreamFolds | dms-plugins/hermesPanel/HermesService.qml:161-190 | The fold of what a turn of the daemon emits is its last draft, or, if that is empty or there is none, its final text. |
| Conversation.BubbleOfAChat | dms-plugins/hermesPanel/HermesService.qml:161-190 | The entry opened for a chat request that a daemon run serves, over every panel run whose lines from then on are any stretch of that connection's wire: it shows the last draft it attended to, which the adapter sent on the chat's route, or else the final text, which is the first one the adapter sent there. |
| Conversation.AnswersAreEmissions | src/daemon.rs:122-153 | With an id of its own on its connection, what answers a chat's request on the wire is a beginning of what its turn emitted. |
| Conversation.AttendedIsAStream | dms-plugins/hermesPanel/HermesService.qml:152-250 | Whatever the bubble misses, also by the exit of the relay process, what it attends to is a turn's output again: drafts, then at most one terminal message. |
| Panel.MostRecent | dms-plugins/hermesPanel/HermesService.qml:252-260 | The first of the sessions with the latest activity. |
| Panel.BubbleIsTheFold | dms-plugins/hermesPanel/HermesService.qml:161-190 | The bubble's text is the fold of its own request's messages handled while it was the bubble: deltas append, drafts replace, the completion text is used only when nothing was shown. |
| Panel.HermesService.StartChat | dms-plugins/hermesPanel/HermesService.qml:82-87 | The object moves as the step function says: new id, new bubble, chat request written. |
| Panel.HermesService.SendMessage | dms-plugins/hermesPanel/HermesService.qml:62-80 | Ignored when busy or blank; otherwise the message is shown, and sent at once or after a session was created. |
| Panel.HermesService.CancelRequest | dms-plugins/hermesPanel/HermesService.qml:89-92 | The current request, if any, is cancelled by its id. |
| Panel.HermesService.StartConversation | dms-plugins/hermesPanel/HermesService.qml:94-103 | Everything about the conversation is reset and a session is requested. |
| Panel.HermesService.ResumeSession | dms-plugins/hermesPanel/HermesService.qml:110-125 | Another session is adopted and its history requested; the request id is kept. |
| Panel.HermesService.HandleComplete | dms-plugins/hermesPanel/HermesService.qml:177-190 | The final text fills an empty bubble only, and the panel becomes idle, unless the index is past the transcript. |
| Panel.HermesService.HandleDelta | dms-plugins/hermesPanel/HermesService.qml:163-168 | The text is appended to the bubble. |
| Panel.HermesService.HandleCreated | dms-plugins/hermesPanel/HermesService.qml:191-199 | The session is adopted and a message that waited for it is sent, once. |
| Panel.HermesService.HandleReset | dms-plugins/hermesPanel/HermesService.qml:200-203 | The new id is adopted if it is not empty, and a notice is appended. |
| Panel.HermesService.HandleSessions | dms-plugins/hermesPanel/HermesService.qml:204-211 | The list is stored and, on the first list after connecting without a session, the most recent session of it is resumed. |
| Panel.HermesService.ReplayHistory | dms-plugins/hermesPanel/HermesService.qml:212-220 | The transcript becomes the history, role and content of each message; the streaming index is kept. |
| Panel.HermesService.HandleError | dms-plugins/hermesPanel/HermesService.qml:240-248 | The error is shown and the panel becomes idle. |
| Panel.HermesService.HandleLine | dms-plugins/hermesPanel/HermesService.qml:152-250 | Every daemon message takes the object to the state the step function says, with the most recent session as the pick wherever there is one. |
| Panel.HermesService.OnRunning | dms-plugins/hermesPanel/HermesService.qml:277-289 | Status, models and sessions are requested; a session is adopted only if there is none. |
| Panel.HermesService.OnExited | dms-plugins/hermesPanel/HermesService.qml:290-298 | The panel becomes idle and disconnected; transcript and session stay. |
| Json.ParsePrint | src/ipc/client.rs:52-53 | A reader for JSON recovers every value from its compact text. |
| Json.PrintedParses | src/ipc/server.rs:247-248 | The same with any text behind it that cannot continue a number. |
| Json.PrintedIsOneLine | src/ipc/protocol.rs:241-243 | Compact JSON text has no control character, so no newline, whatever its strings hold (section 7 of RFC 8259). |
| JsonSpelling.AnySpellingReads | src/ipc/client.rs:52-53 | However the characters of a string are spelt, as they are, by a short escape, by a code unit or by the two halves of a surrogate pair, the string is read (section 7 of RFC 8259). |
| JsonSpelling.WrittenEscapes | src/ipc/server.rs:247-248 | How the writer spells the characters that it escapes. |
| JsonPrefix.CutObjectIsNotJson | src/ipc/client.rs:41-44 | No proper part of an object's text, cut off at the end, parses. |
| Decimal.ValueOfShow | src/ipc/protocol.rs:184-185 | Decimal text of a count reads back as the count. |
| Words.ClientTagFound | src/ipc/protocol.rs:10-12 | Every client tag is recovered from its snake-case name. |
| Words.DaemonTagFound | src/ipc/protocol.rs:84-86 | Every daemon tag is recovered from its snake-case name. |
| Codec.ObjectRoundTrip | src/ipc/protocol.rs:169-188 | Read back, an object has every field that was written, and a field that was absent is missing, not null. |
| Codec.HeldOnce | src/ipc/protocol.rs:10-12 | Whatever else an object holds, in whatever order: it has nothing under a name, one value, or more than one, as its fields say. |
| Codec.SessionRoundTrip | src/ipc/protocol.rs:172-188 | A session descriptor is recovered from its JSON, absent optional fields as absent. |
| Codec.ClientRoundTrip | src/ipc/protocol.rs:10-63 | Every client message is recovered from its tagged JSON. |
| Codec.DecodesExactly | src/ipc/protocol.rs:10-63 | A client message decodes from exactly those objects that hold its type and its fields, each once, in any order and among any others; an optional field that it lacks may also be there as null. |
| Codec.DaemonRoundTrip | src/ipc/protocol.rs:84-158 | Every daemon message is recovered from its tagged JSON, lists included. |
| Codec.AnswerDecodesExactly | src/ipc/protocol.rs:84-158 | The same for every daemon message that carries no list. |
| Codec.ClientRequestId | src/ipc/protocol.rs:65-81 | The `request_id` on the wire is the correlation id of the message, and is left out if there is none. |
| Codec.DaemonRequestId | src/ipc/protocol.rs:3-5 | Broadcasts carry no `request_id`; every other message carries its own. |
| Wording.ClientLineSays | src/ipc/protocol.rs:10-63 | The text of every client message, field by field: names, order, quotes, and which fields are left out. |
| Wording.DaemonLineSays | src/ipc/protocol.rs:84-158 | The text of every daemon message, field by field, with the entries of its lists. |
| Wording.DraftLine | src/ipc/protocol.rs:91-93 | For instance the line of a draft, in full. |
| Lines.ClientLineIsFramed | src/ipc/client.rs:50-56 | The line of a client message has no newline, is not blank and decodes to the message. |
| Lines.DaemonLineIsFramed | src/ipc/server.rs:243-251 | The same for a daemon message. |
| Lines.TakesOne | src/ipc/client.rs:37-48 | A line is cut at its newline, and a carriage return right before that goes with it. |
| Lines.Recovered | src/ipc/client.rs:37-48 | Whatever follows on the stream, the pieces before it are read back exactly. |
| Lines.ClientStreamRoundTrip | src/ipc/server.rs:183-206 | Any sequence of client messages, with blank lines interspersed, is recovered exactly by splitting at newlines. |
| Lines.DaemonStreamRoundTrip | src/ipc/client.rs:37-48 | The same for daemon messages. |
| Lines.DaemonStreamBrokenOff | src/ipc/client.rs:37-48 | Wherever the stream is cut, what is read is a beginning of what was written, but for at most one last line that fails to decode: no message is made up. |
| Lines.ClientStreamBrokenOff | src/ipc/server.rs:183-206 | The same for the requests of a client that breaks off. |
| Lines.IpcClient.Send | src/ipc/client.rs:33-35 | Exactly the message's line and a newline are added to what was written. |
| Lines.IpcClient.NextMessage | src/ipc/client.rs:37-48 | The first entry of the decoded stream, blank lines skipped, and the reader left behind it; closed only when nothing is left. |
| Escaping.EscapedIsMapped | dms-plugins/hermesPanel/markdown2html.js:43-46 | The three whole-text replacements are one pass over the characters. |
| Showing.EscapedIsSafe | dms-plugins/hermesPanel/markdown2html.js:18-20 | That pass in so many words: the three characters become their entities, all others stay. |
| Escaping.NoRawBrackets | dms-plugins/hermesPanel/markdown2html.js:43-46 | No raw angle bracket is left. |
| Escaping.UnescapeUndoes | dms-plugins/hermesPanel/markdown2html.js:18-20 | Replacing the entities in reverse order gives back the text. |
| Escaping.EscapeIsInjective | dms-plugins/hermesPanel/markdown2html.js:28-30 | Different texts are never escaped to the same. |
| Rules.BlockIsNearest | dms-plugins/hermesPanel/markdown2html.js:14 | A code block match is the stretch to the nearest closing marks. |
| Rules.InlineIsUnbroken | dms-plugins/hermesPanel/markdown2html.js:26 | An inline match is a non-empty stretch between two back quotes with none in between. |
| Rules.UrlIsUnbroken | dms-plugins/hermesPanel/markdown2html.js:38 | An address is a scheme and at least one more character, up to the next white space. |
| Rules.PairedIsNearest | dms-plugins/hermesPanel/markdown2html.js:53-59 | An emphasis match reaches to the nearest closing mark, on one line. |
| Scanning.PrefixedIsALine | dms-plugins/hermesPanel/markdown2html.js:48-51 | A header or a dashed item is a whole line, from the mark at its beginning to its end, on the first line and on every other. |
| Scanning.NumberedIsALine | dms-plugins/hermesPanel/markdown2html.js:67 | A numbered item is a whole line, from the first digit of its number. |
| Scanning.NumberedNeedsANumber | dms-plugins/hermesPanel/markdown2html.js:67 | Nothing else is a numbered item. |
| Scanning.ItemsAreAll | dms-plugins/hermesPanel/markdown2html.js:70-72 | A list is all the items that follow each other with nothing but white space between them. |
| Scanning.AddressIsFound | dms-plugins/hermesPanel/markdown2html.js:38 | An address is found at the beginning of a line and behind a white space, which stays. |
| Sweeping.LinkIsUnbroken | dms-plugins/hermesPanel/markdown2html.js:62 | A link is a caption without a closing bracket and an address without a closing parenthesis, neither empty. |
| Rules.MatchIsFair | dms-plugins/hermesPanel/markdown2html.js:14-72 | In a text whose placeholders all close, every match of every rule lies between placeholders, and what replaces it holds the same placeholders. |
| Rewriting.RewriteConserves | dms-plugins/hermesPanel/markdown2html.js:14-72 | Replacing every match of a rule keeps the text well marked and conserves the multiset of placeholders, but for those that an extraction trades. |
| Extraction.PullConserves | dms-plugins/hermesPanel/markdown2html.js:13-41 | After an extraction pass, the placeholders of the text and of the matches are the old ones and the new ones together. |
| Extraction.PullUndone | dms-plugins/hermesPanel/markdown2html.js:13-41 | Putting the matches of one pass back for its placeholders gives exactly the text it started from if and only if the scan mistakes no text for one of them. |
| Extraction.ExtractionRoundTrip | dms-plugins/hermesPanel/markdown2html.js:13-41 | For every text without a NUL: undoing the three passes, last first, gives back what each started from, and so the input, if and only if no text is mistaken for a placeholder of addresses or of inline code. |
| Extraction.ExtractionNumbersInOrder | dms-plugins/hermesPanel/markdown2html.js:22-40 | For every text without a NUL each pass numbers its placeholders 0 to n-1 in the order of the text. |
| Restoring.RestoresUnlessMistaken | dms-plugins/hermesPanel/markdown2html.js:75-88 | The exact condition for one restoring pass: whatever is stored, its scan replaces the placeholders of its kind and nothing else, if and only if no placeholder of another kind is followed, up to the next NUL, by just the name of one of its kind. |
| Restoring.RestoreIsSubstitute | dms-plugins/hermesPanel/markdown2html.js:75-88 | Where nothing is mistaken the scan of a restoring pass replaces exactly the placeholders of its kind. |
| Restoring.SubstituteTwice | dms-plugins/hermesPanel/markdown2html.js:75-88 | Two substitutions in a row are one. |
| Restoring.LookupsAreNumbers | dms-plugins/hermesPanel/markdown2html.js:75-88 | Where nothing is mistaken the scan of a restoring pass looks up the numbers of exactly the placeholders of its kind, in order. |
| Restoring.RestoreUsesLookups | dms-plugins/hermesPanel/markdown2html.js:75-88 | A restoring pass depends on the stored pieces only at the numbers it looks up. |
| Restoring.TextMistakenForTag | dms-plugins/hermesPanel/markdown2html.js:75 | Between two placeholders, text that spells a name is replaced by the stored piece of that number. |
| Mishaps.NameBetweenBlocksIsLookedUp | dms-plugins/hermesPanel/markdown2html.js:75-79 | Two code blocks, whatever they hold, with the name of any address between them, and no address: the address is looked up although none is stored, and both blocks are lost. |
| Mishaps.NameBetweenCodesIsLookedUp | dms-plugins/hermesPanel/markdown2html.js:82-88 | Two pieces of inline code, whatever they hold, with the name of any block between them, and no block: the block is looked up although none is stored, and both pieces are lost. |
| Mishaps.MissingAddressMatters | dms-plugins/hermesPanel/markdown2html.js:75-79 | For such a text the outcome depends on what a missing address yields. |
| Markdown.FormattingConserves | dms-plugins/hermesPanel/markdown2html.js:43-72 | The escape, header, emphasis, link and list passes keep every placeholder whole and exactly as often as it was there. |
| Rendering.ParagraphIsShown | dms-plugins/hermesPanel/markdown2html.js:43-72 | A line with any number of emphasised pieces and links in it, one to three stars or underscores each: every piece is shown with the tags of its own marks, and the text between them stays. |
| Rendering.HeaderIsShown | dms-plugins/hermesPanel/markdown2html.js:48-51 | A line behind one, two or three number signs is a header of that level, with its pieces shown. |
| Rendering.DashItemIsShown | dms-plugins/hermesPanel/markdown2html.js:65-72 | A line behind a dash is a list of one item, with its pieces shown. |
| Rendering.NumberItemIsShown | dms-plugins/hermesPanel/markdown2html.js:67-72 | A line behind a number of any length and a dot is a list of one item. |
| Rendering.StarsAreShown | dms-plugins/hermesPanel/markdown2html.js:53-56 | Words between one, two and three stars become italic, bold, and both. |
| Rendering.LinesAreShown | dms-plugins/hermesPanel/markdown2html.js:57-59 | Words between one, two and three underscores become italic, bold, and both. |
| Rendering.LinkIsShown | dms-plugins/hermesPanel/markdown2html.js:62 | A caption and its address become an anchor. |
| Rendering.HeadersAreShown | dms-plugins/hermesPanel/markdown2html.js:48-51 | Words behind the marks of the three headers. |
| Rendering.ItemsAreShown | dms-plugins/hermesPanel/markdown2html.js:64-72 | Words behind a dash, a number or a star and a space become a list. |
| Conversion.Ledger | dms-plugins/hermesPanel/markdown2html.js:13-72 | For every text without a NUL, every placeholder given out is exactly once in the text when restoring begins, in an extracted address, or in an extracted piece of inline code. |
| Conversion.EachPieceOnce | dms-plugins/hermesPanel/markdown2html.js:13-72 | For every text without a NUL, the text when restoring begins holds every placeholder exactly once if and only if no extracted piece holds the placeholder of another. |
| Conversion.PassesRestoreExactly | dms-plugins/hermesPanel/markdown2html.js:74-88 | The exact condition for the converter, for every text without a NUL: each of the three restoring passes replaces the placeholders of its kind and nothing else, if and only if the first two mistake nothing. |
| Counting.UrlPassCounts | dms-plugins/hermesPanel/markdown2html.js:74-79 | After the pass for addresses, a piece of code is there as often as before, and twice more for each time it is inside an address. |
| Counting.TimesRestored | dms-plugins/hermesPanel/markdown2html.js:74-88 | Where nothing is mistaken, over the three restoring passes a stored piece is looked up twice if its placeholder is inside an address, never if it is inside inline code, and otherwise once. |
| Counting.RestoredOnce | dms-plugins/hermesPanel/markdown2html.js:74-88 | Where nothing is mistaken, every stored piece is looked up exactly once over the three restoring passes if and only if no piece holds the placeholder of another. |
| Counting.ConvertedHoldsEachPieceOnce | dms-plugins/hermesPanel/markdown2html.js:74-88 | Where nothing is mistaken and the pieces are separate, the text after the restoring passes is the formatted text with each placeholder replaced by the HTML of its piece, every piece in it exactly once, and no NUL. |
| PlainText.PlainIsUnmistaken | dms-plugins/hermesPanel/markdown2html.js:74-88 | In text without a NUL and without the name of a placeholder, nothing is ever mistaken, whatever the converter makes of it. |
| PlainText.PlainExtractionRoundTrip | dms-plugins/hermesPanel/markdown2html.js:13-41 | For plain text, undoing the three extraction passes, last first, gives back the input exactly. |
| PlainText.PlainConversion | dms-plugins/hermesPanel/markdown2html.js:74-88 | For plain text with separate pieces, the converted text holds the HTML of every piece exactly once and no NUL. |
| Mishaps.CodeInAddressComesTwice | dms-plugins/hermesPanel/markdown2html.js:38-41 | A plain text whose only piece of code is restored twice. |
| Mishaps.EnclosedBlockStaysMarked | dms-plugins/hermesPanel/markdown2html.js:26-33 | A plain text whose code block is never restored. |
| Conversion.NothingLeftOver | dms-plugins/hermesPanel/markdown2html.js:74-88 | Where nothing is mistaken, the restored text has no NUL if and only if no inline code encloses a code block. |
| Conversion.RestoredInOneGo | dms-plugins/hermesPanel/markdown2html.js:74-88 | Where nothing is mistaken, restoring addresses, blocks and inline code one after the other replaces every placeholder of the formatted text on the spot. |
| Conversion.ShownAsStored | dms-plugins/hermesPanel/markdown2html.js:74-88 | A piece that holds no placeholder is shown exactly as its HTML was stored. |
| Conversion.MissingMatters | dms-plugins/hermesPanel/markdown2html.js:75-88 | For any text, what a missing piece yields makes no difference to a pass if and only if it looks up only numbers that were given out. |
| Conversion.NothingIsMissing | dms-plugins/hermesPanel/markdown2html.js:75-88 | Where nothing is mistaken, every number that a restoring pass looks up was given out, so the outcome does not depend on what a missing piece yields. |
| Conversion.Pull | dms-plugins/hermesPanel/markdown2html.js:13-41 | One pass with its callback: the text with placeholders, and the list with the stored form of each match at its number. |
| Conversion.MarkdownToHtml | dms-plugins/hermesPanel/markdown2html.js:4-88 | The function up to its last restoring pass yields the specified text; `Rendering` and `Showing` say what that is. |
| Showing.BlockIsShown | dms-plugins/hermesPanel/markdown2html.js:14-23 | Code between three back quotes, whatever else it holds, is shown as preformatted code, without the newlines at its ends and made safe for HTML. |
| Showing.InlineIsShown | dms-plugins/hermesPanel/markdown2html.js:26-33 | Code between single back quotes is shown as code, made safe for HTML. |
| Showing.UrlIsShown | dms-plugins/hermesPanel/markdown2html.js:37-41 | An address with one of the three schemes becomes a link to itself. |

## Left out

- The Hermes REST client, the ollama-router client and the MCP server (`src/hermes/`, `src/ollama.rs`, `src/mcp/`): network plumbing with easy filters. Replies to session, model and status requests are messages of their tasks with arbitrary contents.
- Screenshots, launching and desktop notifications (`src/desktop/`); a launcher chat's notification before its completion is not an event of the model.
- Configuration, command line parsing, signals and the set-up of the socket file.
- The QML views, and of the panel's properties the model labels, the status text, toasts, the popout flag and the model list.
- Liveness that needs a fair scheduler: a cancelled turn ends only if its select eventually takes the cancellation. `Turns.QueuedSendEndsTheTurn` and `Connection.WriterDrains` are the measures that hold without.
- A write that fails part of the way ends the stream in the middle of a line. `Connection` counts such a line as not written; `Lines.DaemonStreamBrokenOff` says what a client makes of one.
- WebSocket frames that do not parse are ignored by the source and are not steps of the model; the adapter's frames arrive as values.
- Characters, not UTF-8 bytes: invalid UTF-8, which ends a reader, is not modelled.
- JSON numbers are kept as written: the grammar of numbers is not enforced by the reader, a float is an opaque number token, floats that are not finite are not modelled, and there is no limit on nesting.
- Arrays in place of objects, which the derived decoders also accept, are refused by `Codec`.
- Conversion.MarkdownToHtml: stops before the line break and clean-up passes that follow the last restoring pass; the heading clean-up there writes a literal `$1`, so the final HTML is not claimed to be well formed.
- Conversion.Converted: where text is mistaken for a placeholder an index can be out of range; the exception (addresses) and the text `undefined` (code) that it gives are both the parameter `missing`.
- Supervisor.DesktopAdapter.Supervise: cancellation of the supervisor's task is the end of its course; frames read by `_pump` are not part of it.
- Panel.MostRecent: how a time of last activity reads as a number is its parameter `time`; an event of the runs carries any pick, and the theorems hold whatever it is.
- Panel.AlwaysConsistent: requires non-empty ids from `_uuid` and non-empty session ids from the daemon, as the source assumes.
