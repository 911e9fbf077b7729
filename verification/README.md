# Verification of the Copilot SDK session engine

A Dafny model of the client side of the Copilot SDKs, with proofs about it. The SDKs start a CLI server, speak
JSON-RPC to it, and run sessions on that connection: events come in on one read loop, user handlers are called by
one consumer, broadcast requests (tools, permissions, commands, elicitations) are answered by a goroutine each, and
applications subscribe, wait, disconnect and stop from any thread. The Go SDK is the core; the .NET and Node SDKs
are modelled where they do something harder or different.

`dafny verify dfyconfig.toml` checks everything.

## How the model is built

* **Step systems.** The concurrent parts are step systems (`EventBus`, `BroadcastDesk`, `MultiClient`,
  `SendAndWait`, `SessionRegistry`, `ClientLifecycle`). A run is any sequence of actions, one action per atomic
  step of one goroutine, and an action that would block leaves the state alone; so a lemma about `Exec(Init(),
  actions)` for all `actions` speaks of every interleaving. Trace fields (what was dispatched, received,
  called, sent, killed) are part of the state, and the main lemmas relate them.
* **Objects.** What the source changes in place is a class with the same fields (`GoSession.Session`,
  `GoClient.Client`, `ModelsCache.Client`, `LifecycleSubscriptions.CopilotClient` and `ActionDisposable`,
  `NodeStop.CopilotClient`, `SendAndWaitAsync.SendAndWaitCall`, `SystemMessageTransform.Session`). The Go session
  keeps its handler slice in a real array and deletes from it in place while the consumer works on a copy. The Go
  session and client objects record the steps they perform and prove that their fields mirror the step system after
  those steps, so what holds of every run holds of every object.
* **Data.** The conversions (system message split, MCP results, elicitation content, CLI URLs, process arguments)
  are loops or functions proved against independent readings: a prompt semantics, an argument parser, a line
  splitter, a decimal printer.

The environment appears as parameters: the outcome of every RPC, spawn, dial, ping and kill, what user handlers do,
and what the server sends. The server is assumed to do only what each module header says, for instance to emit
events for a session id only after it has the create request for it.

## What came out

* An unsubscribed handler may be called once more, never twice. Some continuation does call it if and only if the
  delivery in progress still owes it an event (`FurtherCallExactly`), and `UnsubscribeDuringDelivery` is a run that
  gets there. Events that arrive after the channel is closed, and
  one the read loop is blocked on at that moment, are dropped; every accepted event can still be consumed.
* .NET argument escaping does not double backslashes before quotes. `ArgumentEscaper.RoundTripExactly` gives the
  exact set of argument lists that survive: every argument but the last is safe (quoted ones have no backslash before
  a quote or at the end, unquoted ones have no tab), and the last is safe or ends in backslash-quote and is clean
  before that. Lists without backslashes and tabs always survive. Every clean argument with a space, followed by one
  backslash, comes back with a quote in its place; `DirectoryIsLost` is a Windows directory to which this happens.
* Splitting joined MCP texts back into lines gives the parts back exactly when there is a part and no part has a
  newline of its own.
* A CLI URL prints and parses back exactly when its host has no colon.
* Elicitation content loses a key exactly when its value is a nil string list.
* A Go `Start` that fails after the server came up, and whose kill reports an error, leaves the process field set
  although nothing is tracked any more, and no other failing Start does. `FailedStartLeavesNothingTracked` states
  this as an equivalence, and `FailedStartKeepsProcess` is a run that ends so.
* `Stop` documents that it terminates a server this client spawned, but it goes by the process field. A restart whose
  spawn fails unsets the field while the old process is still tracked, and the following `Stop` leaves that process
  running (`StopMissesTracked`). A restart after a lost connection overwrites the handle of the old process, which
  nothing can kill any more (`RestartOverwritesHandle`); only such a restart does (`LostOnlyByRestart`).
  `StopKillsExactly` says of every process whether a stop leaves it killed, whatever strikes while the stop holds the
  lock.
* A connection reports the exit of the process that was the newest when it was made, for good. After a restart over
  TCP that fails before the dial, the client keeps its old connection and goes on reporting the old process
  (`StaleReport`); `ReportsNewestExactly` says when the newest is reported, and a connected client always reports it.
* A session that was removed, or whose create call failed, may still be given one event, the one the read loop had
  looked it up for before, and never a second (`AtMostOneAfterRemoval`, with the run `ServedAfterRemoval`).
* A failing create call on an id that is already registered removes the earlier entry; it leaves the registry as it
  was if and only if the id was fresh (`SessionRegistry.Client.Create`).

## Model

| member | source | states |
|---|---|---|
| EventBus.EventsFlowInOrder | go/session.go:842-879 | In every interleaving of subscribe, unsubscribe, dispatch, consume and disconnect: accepted events are the consumed ones followed by the queued ones, at most 128 are queued, and what is accepted is a prefix of what was dispatched, all of it but the event being sent until the channel is closed. |
| EventBus.NothingAcceptedAfterClose | go/session.go:1121-1151 | After the channel is closed no run adds an event to it. |
| EventBus.HandlerSeesOneBlock | go/session.go:257-277 | Every registration has been called with one contiguous block of the consumed events, in order and each once: those offered while it was registered, less at most the one whose delivery is in progress; every call ran the registered function. |
| EventBus.CallsFollowRegistrationOrder | go/session.go:859-879 | Handler calls come in event order and, within an event, in registration order; none is repeated. |
| EventBus.AtMostOneCallAfterUnsubscribe | go/session.go:257-277 | After unsubscribe the entry is gone and the handler is called at most once more, with the event whose snapshot was already taken. |
| EventBus.FurtherCallExactly | go/session.go:859-879 | After unsubscribe some continuation calls the handler again if and only if the delivery in progress still owes it an event. |
| EventBus.PendingCallComes | go/session.go:859-879 | Once a registration has ended, the consumer's own steps make the call that is owed. |
| EventBus.UnsubscribeDuringDelivery | go/session.go:859-879 | A run that unsubscribes with one call still to come. |
| EventBus.ConsumerCanDrain | go/session.go:859-879 | From every reachable state the consumer's own steps suffice to receive everything accepted, after which every live handler has seen every event since it subscribed. |
| EventBus.RemoveIdHas | go/session.go:267-276 | Removing an id from the ordered list removes that id and no other. |
| GoSession.Session.constructor | go/session.go:94-108 | A new session has an empty bus and no pending request; its handler tables bind exactly the names with a usable definition, each to its last one. |
| GoSession.Session.On | go/session.go:257-277 | Appends one entry under the next id, in the old array or a larger copy, and is the subscribe step of the bus. |
| GoSession.Session.Unsubscribe | go/session.go:267-276 | Deletes in place the entry with that id, if there is one, and is the unsubscribe step of the bus. |
| GoSession.DeleteAt | go/session.go:267-276 | Shifting the cells down leaves the live cells without the deleted one, in order. |
| GoSession.RemoveIdSplit | go/session.go:267-276 | Cutting the list at the first matching entry is removal of the id. |
| GoSession.BuildTable | go/session.go:285-296 | The handler table has exactly the names with a usable definition, each bound to its last one. |
| GoSession.Session.Dispatch | go/session.go:842-853 | Spawns one broadcast task, then queues the event, blocks on a full channel, or drops it on a closed one. |
| GoSession.Session.ResumeSend | go/session.go:842-853 | A blocked send completes in order once there is room and loses only its own event when the channel is closed. |
| GoSession.Session.ProcessEvent | go/session.go:859-879 | One turn of the consumer calls the handlers registered when the event was taken, each once and in order, whatever they do to the handler list meanwhile. |
| GoSession.Session.HandleBroadcastEvent | go/session.go:888-960 | The goroutine of an event sends exactly the answer its registrations and handler outcome call for, spelled out field by field, and nothing when there is none; for a permission a hook has resolved nothing is sent at all. |
| GoSession.Session.ExecuteToolAndRespond | go/session.go:963-1022 | The code of one tool call sends the one reply that the broadcast step system gives it: the result with its default text and type, or the failure for an error or a panic. |
| GoSession.Session.ExecutePermissionAndRespond | go/session.go:1025-1063 | The code of one permission call sends the decision that the broadcast step system gives it: the denial for an error or a panic, none for "no-result". |
| GoSession.Session.Disconnect | go/session.go:1121-1151 | Changes nothing when the RPC fails; otherwise closes the channel, keeps queued events and clears all handlers, and may be repeated. |
| GoSession.Session.EventsInOrder | go/session.go:842-879 | After any calls, the events a session accepted are those consumed followed by its channel, at most 128, a prefix of those dispatched, and all of them but a blocked one until it is closed. |
| GoSession.Session.HandlerSawOneBlock | go/session.go:257-277 | After any calls, each registration of a session has been called with one contiguous block of its consumed events. |
| GoSession.Session.RepliesOnce | go/session.go:888-1063 | After any calls, every event dispatched to a session has one goroutine, which has sent at most one reply; a finished one has sent the reply its handler's outcome calls for, and without a Disconnect exactly the answer of the registered handlers. |
| BroadcastDesk.AtMostOneReply | go/session.go:888-1063 | In every run, with Disconnect clearing handlers at any point, each request gets at most one reply, a finished command exactly one, and each reply is its handler's outcome or a default. |
| BroadcastDesk.ExactlyOneReply | go/session.go:888-1063 | Without a Disconnect a finished request got exactly one reply if and only if a handler for it was registered (see `CalledExactly`) and did not answer "no-result", or it is an unknown command; the reply is the one called for. |
| BroadcastDesk.CalledExactly | go/session.go:888-960 | In every run a handler is only called for a tool that has one, a permission request no hook has resolved, a known command or an elicitation, and without a Disconnect it was called for every such finished request; for a permission a hook has resolved no handler is called and nothing is ever sent. |
| BroadcastDesk.RepliesSpelledOut | go/session.go:963-1063 | In every run the replies to a finished request are, field by field, those its handler outcome calls for: the tool result with "success" or "failure" by default, the decision or the denial, the error of a failed command, the cancel of a failed elicitation. |
| BroadcastDesk.ApprovedOnlyIfReturned | go/session.go:1025-1063 | "approved" is sent only for a permission request whose handler returned it. |
| BroadcastDesk.TaskCanFinish | go/session.go:531-612 | Whatever its state, a request's own steps finish it once its handler, if one is called, comes back. |
| BroadcastDesk.WholeTaskAnswers | go/session.go:888-960 | Run on its own a request finishes and adds exactly its answer to what was sent. |
| MultiClient.FirstResponseWins | go/rpc/generated_rpc.go:747-758 | With any number of clients and any delivery order: a request is acknowledged as resolved exactly once if it is resolved and never otherwise, by the handler outcome or default of one client that was asked, and no sent answer is lost before that. |
| MultiClient.CanBeResolved | go/session.go:888-1063 | From every reachable state an issued request is resolved by some continuation, as long as there is a client that answers it for some handler outcome. |
| MultiClient.ResolvedForGood | nodejs/README.md:936-940 | The decision of a resolved request never changes. |
| MultiClient.IssuedExactly | go/session.go:888-960 | In every run a request stands exactly if the server has broadcast one of the four kinds of request under its id, as the first event that did. |
| MultiClient.EveryArrivalIsAcknowledged | go/rpc/generated_rpc.go:747-758 | In every run each reply that arrives is acknowledged, as a success exactly if it is the first one for its request, and every reply ever sent has been acknowledged or is on its way. |
| SendAndWait.ReturnedOutcome | go/session.go:184-233 | In every run, a call that returned has unsubscribed for good; success means an idle event came after its subscription and carries the last message at some point after it, a session error is the first one delivered. The other exits are those of `ExitDecidesOutcome`. |
| SendAndWait.ExitDecidesOutcome | go/session.go:217-232 | In every run, a call that returned tells which exit it took: the send's own error if and only if the send failed, the deadline if and only if that struck after the send had worked, a reply for an idle event, a session error for an error event. |
| SendAndWait.FailedSendIsReturned | go/session.go:217-220 | A run whose send fails with an error can return nothing but that error, whatever events come meanwhile. |
| SendAndWait.BusRunsBeside | go/session.go:184-233 | Every run of the call is, on the session, a run of the event bus in which the call registers once and unregisters that registration as it leaves. |
| SendAndWait.SubscribedBeforeSending | go/session.go:192-217 | The call registers its handler under the next id before it sends, so every event offered from then on is one it is to see. |
| SendAndWait.ReplyNoOlderThanFirstIdle | go/session.go:184-233 | The returned message is the last one before the first idle or a later one; nil means there was none before that idle. |
| SendAndWait.CallCanReturn | go/session.go:184-233 | From any point the call's own steps make it return, at worst through the deadline, and a settled outcome stays. |
| SendAndWait.RepliesExactly | go/session.go:218-232 | A waiting call can return success by its own steps if and only if an idle event has been delivered to it. |
| SendAndWait.WaitingCallReplies | go/session.go:218-232 | In every run, a waiting call can return success by its own steps if and only if an idle event is among those its subscription was handed. |
| SendAndWait.IdleCallReplies | go/session.go:218-232 | With an idle event delivered, taking it, reading the result and unsubscribing returns the latest message. |
| SendAndWait.LastMessageIsLast | go/session.go:195-200 | The tracked message is a message after which no other was delivered. |
| SendAndWait.FirstErrorIsFirst | go/session.go:208-212 | The reported error has the text of a session error before which no other was delivered. |
| SendAndWaitAsync.SendAndWaitCall.Handler | dotnet/src/Session.cs:240-257 | The code for one event performs one step of the fold that `FirstTerminalDecides` is about. |
| SendAndWaitAsync.SendAndWaitCall.OnTokenFired | dotnet/src/Session.cs:262-271 | So does the code for the timeout or the caller's cancellation. |
| SendAndWaitAsync.Observe | dotnet/src/Session.cs:231-274 | A call completes if and only if a terminal signal arrives, with the meaning of the first one; an idle gives exactly the last message before it. |
| SendAndWaitAsync.FirstTerminalDecides | dotnet/src/Session.cs:231-274 | The fold over any signals is decided by the first terminal one. |
| SendAndWaitAsync.LaterSignalsChangeNothing | dotnet/src/Session.cs:231-274 | A completion is never changed by later events, errors or timeouts. |
| SessionRegistry.RegisterBeforeSendLosesNothing | go/client.go:637-696 | With any number of concurrent creates on fresh ids, whether or not a call gives up before its request arrives: what the server emitted for a pending or live call is what its session was given, in order, followed by the event looked up for it but not dispatched yet and by what is still unread. `VerdictDecides` says which calls those are. |
| SessionRegistry.SessionsSeeAPrefix | go/client.go:1603-1615 | Of every call, failed and removed ones included: what its session was given is a prefix of what the server emitted for its id. |
| SessionRegistry.AtMostOneAfterRemoval | go/client.go:1603-1615 | Once a call has failed or its session was removed, the session is given at most one more event, the one it had been looked up for. |
| SessionRegistry.ServedAfterRemoval | go/client.go:1603-1615 | A run in which that happens. |
| SessionRegistry.EventsReachOnlyTheirSession | go/client.go:1603-1615 | No session is given an event of another id. |
| SessionRegistry.RegistryHoldsTheLiveCalls | go/client.go:637-696 | The registry maps an id to a session if and only if that call registered it and neither failed nor was removed; by `VerdictDecides` a call fails exactly when it was refused or failed locally. |
| SessionRegistry.VerdictDecides | go/client.go:675-696 | In every run, read off its actions: a call succeeds only if the response read for it accepted it, and fails only if that refused it or it failed locally. An accepted call keeps its entry unless it is removed; a refused one has no entry once its own steps are done. |
| SessionRegistry.VerdictIsTheServers | go/client.go:675-696 | The verdict of a response is the one the server gave first on that call. |
| SessionRegistry.Client.Create | go/client.go:637-696 | Create and resume: success registers the session; every failure removes the id, which restores the registry if and only if the id was fresh; each failure, of the request, the response or the missing file-system handler, returns its own error. |
| ArgumentEscaper.RoundTripExactly | dotnet/src/Client.cs:1613-1621 | Parsing the space-joined escaped arguments returns the list if and only if every argument but the last is safe and the last is safe or odd at its end. |
| ArgumentEscaper.PlainListsRoundTrip | dotnet/src/Client.cs:1193 | Every list without backslashes and tabs is returned, with empty arguments, spaces and quotes. |
| ArgumentEscaper.TrailingBackslashIsLost | dotnet/src/Client.cs:1613-1621 | Every clean argument with a space, followed by one backslash, is read back with a quote in place of that backslash. |
| ArgumentEscaper.DirectoryIsLost | dotnet/src/Client.cs:1613-1621 | A quoted Windows directory that does not survive. |
| ArgumentEscaper.BodyReadBack | dotnet/src/Client.cs:1613-1621 | A quoted argument is read back if and only if it has no backslash before a quote or its end, or ends in one backslash-quote at the end of the line. |
| ArgumentEscaper.NeverCatchesUp | dotnet/src/Client.cs:1613-1621 | Once the reader has dropped a mark it reads something else for good, so no unsafe argument is repaired by what follows it. |
| SystemMessageTransform.ExtractTransformCallbacks | go/client.go:539-565 | In any map order: the wire config keeps every section id, marks exactly the sections with callbacks, and the callbacks are exactly theirs; a config without any is passed on as it is. |
| SystemMessageTransform.Session.HandleSystemMessageTransform | go/session.go:483-506 | In any map order: answers every requested section, through its callback or, when that is missing or fails, unchanged. |
| SystemMessageTransform.Session.Register | go/session.go:462-466 | Keeps the callbacks for the transform handler. |
| SystemMessageTransform.Deliver | go/client.go:539-565 | Split, transform and reassemble give the prompt the config means with its callbacks inline, for every config, server, base prompt and callback; no callback crosses the wire. |
| SystemMessageTransform.SplitPreservesMeaning | go/client.go:539-565 | The same equation on the values. |
| ClientLifecycle.ConnectedMeansReady | go/client.go:298-347 | In every interleaving of Start, Stop, ForceStop and close callbacks: when the lock is free and the client is connected, client and facade belong to one connection, the version is supported, and the provider is registered on that connection if configured. |
| ClientLifecycle.KilledAtMostOnce | go/client.go:1497-1505 | In every run the right to kill a process is in exactly one place, so no process is killed twice. |
| ClientLifecycle.FailedStartLeavesNothingTracked | go/client.go:298-347 | The step by which a Start fails leaves a process tracked if and only if the spawn failed and an older one was tracked, never when the Start began untracked, and no orphan; the process field stays set if and only if the kill failed after the server had come up. |
| ClientLifecycle.FailedStartKeepsProcess | go/client.go:1497-1505 | A run in which it stays set. |
| ClientLifecycle.FailedOnlyForCause | go/client.go:298-347 | In every run a client is in its failed state only after a spawn, ping or version check failed, a port or dial over TCP, or the registration of a configured provider. |
| ClientLifecycle.ExitErrorIsOwn | go/client.go:1512-1528 | A process's exit error is written by its own exit only and stays; other generations never touch it. |
| ClientLifecycle.ConnectionReportsItsOwn | go/internal/jsonrpc2/jsonrpc2.go:94-114 | In every run a connection reports the exit of one process for good, the newest when it was made: only that exit shows on it, and it stays. |
| ClientLifecycle.ReportedExitIsNewest | go/client.go:1560-1564 | While the lock is free and the client is connected, the exit of a process shows in what the client reports if and only if it is the newest one. |
| ClientLifecycle.ReportsNewestExactly | go/client.go:1435-1437 | In every state of every run, a client with a connection reports its newest process if and only if a connection was made since that was spawned. |
| ClientLifecycle.StaleReport | go/client.go:1560-1564 | A run that ends with the lock free and the client reporting an older process. |
| ClientLifecycle.SecondStopChangesNothing | go/client.go:367-425 | Stop leaves the client quiet, and stopping a quiet client changes nothing at all. |
| ClientLifecycle.StopKillsExactly | go/client.go:389-425 | In every run, with anything interleaved while a stop holds the lock: after it the client is quiet, and a process has been killed, or is about to be by a racing ForceStop, if and only if its handle was not overwritten and it was not the tracked one of a client whose process field is unset, unless a ForceStop took it during the stop. |
| ClientLifecycle.StopMissesTracked | go/client.go:311-315 | A run in which a failed respawn makes the stop leave a tracked process running. |
| ClientLifecycle.RestartOverwritesHandle | go/client.go:1512-1516 | A run in which a restart overwrites the handle of a process that is never killed. |
| ClientLifecycle.LostOnlyByRestart | go/client.go:298-308 | In every run a handle is overwritten only by a Start that began while its process was tracked and the client was not connected: starting a connected client loses nothing. |
| ClientLifecycle.ForceStopFromAnywhere | go/client.go:449-495 | From any state of any run, with any steps of others between its swap, its kill, its wait for the lock and its locked steps: the process tracked at its start is out of everyone else's reach after the swap, killed exactly once after the kill, and the client is quiet at the end. |
| ClientLifecycle.TakenStays | go/client.go:1497-1505 | A handle once taken is used exactly once, however the run goes on, and is never tracked or held by the lock holder again. |
| ClientLifecycle.StopCanFinish | go/client.go:389-425 | From wherever a stop holds the lock, its own steps release it. |
| GoClient.Client.Start | go/client.go:298-347 | Succeeds if and only if the world's answers allow it, wherever a concurrent ForceStop strikes; success means ready, failure from an untracked state leaves nothing tracked. |
| GoClient.Client.Launch | go/client.go:298-347 | The server comes up if and only if the spawn works and, over TCP, a port is reported; otherwise nothing stays tracked that was not. |
| GoClient.Client.StartCLIServer | go/client.go:1332-1495 | The process field, the exit cell and, unless a concurrent ForceStop takes it, the handle are the new process's; over stdio it connects at once with that cell, over TCP it waits for the port. |
| GoClient.Client.SpawnProcess | go/client.go:1420-1444 | Tracks the new process with an exit cell of its own; over stdio the connection made at once reports that cell. |
| GoClient.Client.OnClose | go/client.go:1438-1446 | When a connection closes, whichever it was, the client is disconnected and keeps everything else. |
| GoClient.Client.Handshake | go/client.go:325-347 | On the new connection Start succeeds if and only if the reported version is 2 or 3 and a configured provider could be registered. |
| GoClient.Client.ConnectToServer | go/client.go:1531-1577 | Connected if and only if over stdio, or the port is known and the dial works. |
| GoClient.Client.VerifyProtocolVersion | go/client.go:1308-1326 | Accepts exactly a reported version from 2 to 3 and stores it. |
| GoClient.Client.SetProvider | go/client.go:332-343 | The client is connected if and only if the provider was registered. |
| GoClient.Client.FinishStart | go/client.go:318-347 | What follows the launch fails if and only if a connection, version or provider check does, and then leaves nothing tracked. |
| GoClient.Client.KillProcess | go/client.go:1497-1505 | Takes the handle exactly once and clears the process field unless the kill fails. |
| GoClient.Client.StopSessions | go/client.go:367-386 | Before it takes the lock, in whatever state the lock holder is: lists the errors of the failing sessions in order and forgets all sessions; with no session there is no error. |
| GoClient.ErrorsListFailing | go/client.go:367-386 | Those errors are one for each failing session, in session order, each naming its own. |
| GoClient.Client.StopLocked | go/client.go:387-425 | Lists a failed kill, then a failed close; leaves the client quiet and its models cache empty; on a quiet client returns no error and changes nothing. |
| GoClient.Client.ForceStopUnlocked | go/client.go:449-461 | In whatever state the lock holder is: a tracked process is killed exactly once, nothing stays tracked, and the sessions are forgotten. |
| GoClient.Client.ForceStopLocked | go/client.go:463-495 | Once it has the lock: kills a process started in between if its field is set, and leaves the client quiet and its models cache empty. |
| GoClient.Client.FailStart | go/client.go:311-343 | A failing Start kills a tracked process exactly once, tracks none afterwards, and keeps the process field if and only if that kill failed after the launch. |
| GoClient.Client.StopServer | go/client.go:389-425 | The locked half of stopping kills a tracked process exactly once if the process field of a client of its own server is set, and otherwise kills nothing and leaves it tracked; the models cache is empty afterwards. |
| ModelsCache.Client.ListModels | go/client.go:1255-1301 | Fetches if and only if nothing is cached, caches success and not failure, and returns a fresh array equal to the cache. |
| ModelsCache.Client.Clear | go/client.go:413-416 | Empties the cache; every stop of the client calls it. |
| ModelsCache.Drive | go/client.go:1255-1301 | Over any uses, with callers overwriting slots of every array they ever got or gave, each call answers as a cache nobody can touch. |
| ModelsCache.OneFetchBetweenStops | go/client.go:1255-1301 | Between two stops there is at most one successful fetch and every success returns its list, an empty one included. |
| McpConversion.ConvertMCPCallToolResult | go/definetool.go:108-200 | Succeeds if and only if the content is an array of objects with string types; the second loop's casts are safe; text, payloads and result type are those of the blocks (see `TextsMean`, `BinariesMean` and `ConvertWritten`). |
| McpConversion.ConvertWritten | go/definetool.go:108-200 | Writing texts, images and resources as blocks and converting the value returns exactly those texts, joined, and those payloads, in order, with the octet-stream default and the URI; blocks of other types and empty payloads leave nothing. |
| McpConversion.TextsMean | go/definetool.go:145-170 | For any block at all: what text it contributes, if any. |
| McpConversion.BinariesMean | go/definetool.go:154-185 | For any block at all: whether it contributes a payload, and that payload's data, MIME type, kind and description. |
| McpConversion.TextsInBlockOrder | go/definetool.go:140-190 | Every text part comes from one block, in block order, and no block with a text is passed over. |
| McpConversion.BinariesInBlockOrder | go/definetool.go:140-190 | The same for the binary payloads. |
| McpConversion.JoinLength | go/definetool.go:190-200 | The joined text is as long as its parts plus one separator between each two. |
| McpConversion.LinesOfJoin | go/definetool.go:190-200 | Splitting the joined text gives the parts back if and only if there is a part and none has a newline. |
| LifecycleSubscriptions.CopilotClient.On | dotnet/src/Client.cs:963-1015 | Appends one occurrence under its key and nothing under another; returns an armed disposable. |
| LifecycleSubscriptions.CopilotClient.Remove | dotnet/src/Client.cs:963-1015 | Takes out the first occurrence of the handler under its key and keeps the others in their order; nothing changes if it does not occur. |
| LifecycleSubscriptions.CopilotClient.DispatchLifecycleEvent | dotnet/src/Client.cs:1017-1039 | Calls the handlers of the event's type, then those of all types, as registered before the first call, each once and in order, whatever subscriptions and disposals handlers perform meanwhile, all of which take effect. |
| LifecycleSubscriptions.ActionDisposable.Dispose | dotnet/src/ActionDisposable.cs:10-19 | Takes out the first occurrence of its handler under its key on the first call, keeping the others in order, and changes nothing afterwards. |
| LifecycleSubscriptions.Drive | dotnet/src/Client.cs:963-1015 | Over any subscriptions and repeated disposals, a handler occurs under a key as often as it has subscriptions there that were never disposed, and the handlers stand in the order of their latest such subscriptions: one that occurs once, where it subscribed last. |
| LifecycleSubscriptions.LatestPicks | dotnet/src/Client.cs:963-1015 | What that order means: each handler left is picked from the latest of its subscriptions, at rising positions. |
| LifecycleSubscriptions.OpenIsUndisposed | dotnet/src/ActionDisposable.cs:10-19 | The open subscriptions after any operations are those whose disposal never came. |
| CliUrl.RoundTripExactly | go/client.go:252-279 | With no scheme, either scheme, or https before http, host and port are parsed back, "localhost" for an empty host, if and only if the host has no colon. |
| CliUrl.AcceptedExactly | go/client.go:252-279 | A URL yields a host and port if and only if it is spelled that way: an optional scheme, an optional name without a colon before a colon, and a decimal port from 1 to 65535 with or without a plus sign; everything else is rejected. |
| CliUrl.BarePort | go/client.go:252-279 | A bare port means that port on the local host. |
| CliUrl.AcceptedUrlIsUsable | go/client.go:252-279 | An accepted URL yields a host that is not empty and a port from 1 to 65535. |
| NodeStop.CopilotClient.DisconnectWithRetries | nodejs/src/client.ts:470-492 | A session is tried until its first success or three times, with its pauses; an error remains exactly when all three failed, and it is the third. |
| NodeStop.CopilotClient.DisconnectAll | nodejs/src/client.ts:469-498 | The attempts, pauses and errors of all sessions in order. |
| NodeStop.CopilotClient.Stop | nodejs/src/client.ts:466-556 | Session errors, then those of the clean-up calls that were due; nothing is left but the handle of an external server. |
| NodeStop.EffortIsBounded | nodejs/src/client.ts:474-491 | For n sessions between n and 3n attempts and at most 300n ms of pauses, and exactly when the bounds are met. |
| NodeStop.PausesExactly | nodejs/src/client.ts:474-491 | 100 ms are waited for each session whose first attempt failed and 200 ms more for each whose second failed too, and nothing else. |
| NodeStop.TriedExactly | nodejs/src/client.ts:474-491 | An attempt is made if and only if it is one of the first three and all earlier ones failed. |
| NodeStop.ErrorsListFailures | nodejs/src/client.ts:493-498 | The disconnect errors are those of exactly the sessions whose three attempts failed, one each, in order, each with the session id and the cause of the third attempt in its text. |
| Elicitation.ToRPCContent | go/session.go:615-645 | The union field stands for the normal form of the value, is nil exactly for nil, and has at most one member set. |
| Elicitation.HandleElicitationRequest | go/session.go:580-612 | No reply without a handler, a bare cancel on its error, otherwise its action with every key standing for its value, in any map order. |
| Elicitation.FromRPCContent | go/session.go:809-833 | In any map order: keeps exactly the keys whose field is nil or set, with what the field stands for. |
| Elicitation.Answer | go/session.go:580-645 | Content sent by a handler and read back, key by key: an int arrives as a float, a list of strings or a mixed list as its strings, a value of any other kind as its print, and nil, bools, floats and strings as they are. |
| Elicitation.SecondTripChangesNothing | go/session.go:615-645 | Converting a second time changes nothing. |
| Elicitation.UnchangedExactly | go/session.go:615-645 | A trip keeps the content if and only if every value is nil, a bool, a float, a string or a non-nil string list. |
| Elicitation.KeysLostExactly | go/session.go:809-833 | A key is lost if and only if its value is a nil string list. |
| Elicitation.StringsInOrder | go/session.go:629-637 | A mixed list becomes its strings, in order, none passed over. |

## Left out

- Process spawning, pipes, sockets, timers, JSON encoding and the JSON-RPC libraries: every call to them is a step or parameter that succeeds or fails.
- Panics in command and elicitation handlers, which the source does not recover: those handlers are assumed to return. A reply RPC is assumed not to panic.
- The order and the content of `capabilities.changed` updates, each of which has its own goroutine.
- Hook and user-input dispatch, the UI dialogs Confirm, Select and Input, and the copying of request fields: flat branching.
- Unsubscribing from Go `Client.On` and `OnEventType`: it compares addresses of different variables, so no removal is claimed.
- Node `listModels` locking, Node registry rollback, and the .NET tool and permission goroutines, which answer as the Go ones do.
- The clearing of .NET session handlers on dispose.
- The protocol version 2 adapters and `getEnvValue`.
- Whether the state stays Connected after a restart: a late close callback of an old connection may clear it, and the model lets it.
- Arguments to `SendAndWait` beyond the event flow: the default timeout and the composition of contexts.
- ArgumentEscaper.RoundTripExactly: the reader is the quoting convention of the .NET runtime on Unix; a program that reads its own command line differently is not covered.
- ModelsCache.Client.ListModels: elements are copied as values; memory shared inside one model entry is not modelled.
- SessionRegistry.Client.Create: concurrent calls on one id are not modelled; the step system has one call per id.
- GoClient.Client.StopSessions: a session's own Disconnect is one parameter here; its effect is `GoSession.Session.Disconnect`.
- GoClient.Client.ForceStopUnlocked: on the object only the atomic swap of a concurrent ForceStop is interleaved, and only at the waiting points of Start; `ClientLifecycle.ForceStopFromAnywhere` and `ClientLifecycle.StopKillsExactly` cover every interleaving of the steps of `ClientLifecycle`.
- GoSession.Session.HandleBroadcastEvent: on the object a goroutine runs without interruption; `BroadcastDesk` covers a Disconnect between its steps.
- ClientLifecycle.ConnectionReportsItsOwn: the goroutine that copies the exit error into a connection is taken as one step with the exit.
- Elicitation.ToRPCContent: floats are real numbers and the conversion of an int to a float is any function, so NaN and rounding are not told apart; the JSON encoding between the two ends is not modelled.
- NodeStop.CopilotClient.Stop: sessions added while it runs, and the fields that only hold timers and buffers, are not modelled.
- CliUrl.RoundTripExactly: the overflow error of the number parser is one of its rejections, as every such value is out of range anyway; a rejected URL is `None` where the source panics.
