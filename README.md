# PrepWise interview room: a Dafny model

PrepWise is a mock-interview application. This project models four pieces of its logic and proves properties about them.

- **The signalling relay** (`server/signaling-server.js`) keeps a process-wide table from room ids to sets of WebSocket connections. Its three handlers work as follows:
  - The connection handler admits a socket into the room named by its `room` query parameter, or closes it with code 1008 (policy violation, RFC 6455 section 7.4.1).
  - The message handler relays each well-formed JSON message to the other open sockets of the sender's room.
  - The close handler removes the socket, deleting the room once it is empty.

  A `/health` endpoint reports the number of rooms and of connections.
- **The client session negotiator** (`hooks/useWebRTC.ts`) is a React hook over a few pieces of state:
  - the local and remote media streams
  - the peer connection's state
  - a screen-sharing flag
  - references to the peer connection and to the signalling socket

  It does the following:
  - dispatches offer, answer and ICE-candidate messages
  - sends outbound messages only while the socket is open
  - toggles the first audio or video track
  - swaps the outgoing video track between the camera and the screen
  - tears the call down
- **The interview flow** (`src/pages/Interview.jsx`) runs five questions, each with a 60-second answer timer. Its transitions are:
  - start the interview
  - start recording
  - stop recording, which moves to the next question or finishes after the last one
  - a once-a-second timer that stops the recording at zero
- **User creation** (`convex/users.ts`) inserts a user row unless a row with the same email exists. In that case it returns the first such row.

Modules:

| file | module | contents |
|---|---|---|
| `wrappers.dfy` | `Wrappers` | `Option`, used for JavaScript's `null`/`undefined` and for a browser call that failed |
| `signaling.dfy` | `Signaling` | pure room-table operations `Join`, `Leave`, `FanOut` and `TotalConnections`, with lemmas; the registry invariant; class `Server` with the handlers |
| `negotiation.dfy` | `Negotiation` | `Session` value; one function per handler stating its effect; lemmas over handler sequences; class `Negotiator` whose methods update the hook's fields |
| `interview.dfy` | `InterviewFlow` | `Page` value; one function per transition; lemmas over tick and answer sequences; class `InterviewPage` |
| `users.dfy` | `Users` | the email query `WithEmail`; the handler `Create` as a function; lemmas; class `UserTable` with the `CreateNewUser` mutation |

Each class method states its new state as the matching pure function applied to the old state. The properties are proved about those functions.

How the source's entities are represented:
- **Signalling sockets** are connection ids. `readyState === OPEN` is membership of the set `open`, and `ws.send` appends to the socket's outbox.
- **Parsing.** `JSON.parse` becomes an `Option<Json>` input, where `None` means the frame did not parse.
- **The peer connection** is a record with these fields:
  - its local and remote descriptions
  - its candidate pool
  - the track each sender sends
  - its connection state
  - whether it was closed
- **The hook's WebSocket** is a ready state plus the log of messages written to it.
- **Media tracks** are values. The set of disabled tracks stands for each track's `enabled` flag, and the set of stopped tracks stands for `stop()`.
- **The server's registry invariant** (`Signaling.Registry`) says three things:
  - no room is stored empty
  - each stored room holds exactly the admitted, not-yet-closed sockets that named it
  - the room of every such socket is stored

  It follows that the close handler's `rooms.has(roomId)` guard is always true.

## Model

| member | source | states |
|---|---|---|
| Signaling.Join | server/signaling-server.js:22-28 | The room exists afterwards and holds its old occupants plus the joiner. Other rooms are unchanged. "No room is empty" is preserved. |
| Signaling.Leave | server/signaling-server.js:68-75 | The room loses exactly the leaver. It stays stored iff someone remains. Other rooms are unchanged. "No room is empty" is preserved. |
| Signaling.LeaveUndoesJoin | server/signaling-server.js:22-75 | Joining and then leaving a room one was not in restores the table exactly, including deleting a room the join created. |
| Signaling.TotalConnectionsRemove | server/signaling-server.js:102 | The health sum equals one room's size plus the sum over the other rooms, whichever room is taken first, so the reduce order does not matter. |
| Signaling.TotalConnectionsCountsOccupants | server/signaling-server.js:102 | When no socket is in two rooms, the health sum equals the number of distinct sockets in all rooms. |
| Signaling.JoinCountsOne | server/signaling-server.js:23-28 | A join of a new occupant raises the total connection count by exactly one. |
| Signaling.LeaveCountsOne | server/signaling-server.js:68-73 | A leave of an occupant lowers the total connection count by exactly one. |
| Signaling.RegistryOccupants | server/signaling-server.js:11-87 | Under the registry invariant, rooms are disjoint and their union is exactly the live, admitted and not yet closed, sockets. |
| Signaling.TotalConnectionsAreLive | server/signaling-server.js:101-102 | Under the registry invariant, the reported total equals the number of live sockets. |
| Signaling.JoinKeepsRegistry | server/signaling-server.js:22-28 | Admitting a new socket keeps the registry invariant. |
| Signaling.RefuseKeepsRegistry | server/signaling-server.js:15-18 | Refusing a socket keeps the registry invariant and changes no room. |
| Signaling.CloseKeepsRegistry | server/signaling-server.js:68-75 | Removing a closed socket from its room keeps the registry invariant. |
| Signaling.FanOut | server/signaling-server.js:54-58 | Each open socket of the room outside the skip set receives the message exactly once at the end of its outbox. No other socket's outbox changes. |
| Signaling.FanOutStep | server/signaling-server.js:54-58 | Adding one socket to the visited set extends the fan-out by that socket's delivery alone, whatever order the set is visited in. |
| Signaling.Server.constructor | server/signaling-server.js:9 | The registry starts with no rooms, no sockets and empty outboxes, and satisfies the invariant. |
| Signaling.Server.Broadcast | server/signaling-server.js:38-45 | The loop over a room's sockets leaves the outboxes equal to `FanOut` of the old ones. |
| Signaling.Server.Connect | server/signaling-server.js:11-45 | Admitted iff the room id is present and non-empty. A refusal carries code 1008 and "Room ID required" and changes no room or outbox. On admission the room is joined. The joiner's outbox is exactly one `room-joined` whose count includes the joiner. Every other open occupant gets one `participant-joined`. The invariant is kept. |
| Signaling.Server.Admit | server/signaling-server.js:22-45 | Joins the room, then greets and notifies. The joiner's outbox is exactly one `room-joined` counting the joiner. Every other open occupant gets one `participant-joined`. |
| Signaling.Server.Enroll | server/signaling-server.js:22-35 | The socket joins the room, created on first use, and its outbox starts with one `room-joined` carrying the new size. The room grows by exactly one. The invariant is kept. |
| Signaling.Server.Relay | server/signaling-server.js:48-62 | A parsed message other than `null` goes unchanged to every other open socket in the sender's room and to no one else. Two kinds of frame change nothing: one that does not parse, and `null`, where reading `data.type` throws inside the `try`. Either way the sender stays in its room. |
| Signaling.Server.StartClosing | server/signaling-server.js:55 | A socket that starts closing is no longer open, so no later send reaches it. |
| Signaling.Server.Close | server/signaling-server.js:65-87 | The socket leaves its room. The room is deleted iff the socket was its only occupant. Otherwise every remaining open occupant gets one `participant-left`. The invariant is kept. |
| Signaling.Server.Withdraw | server/signaling-server.js:68-75 | The socket is no longer open and counts as closed. It leaves its room, which is deleted iff the socket was its only occupant. The invariant is kept. |
| Signaling.Server.Health | server/signaling-server.js:96-103 | Reports the number of stored rooms and the sum of their sizes. That sum equals the number of live sockets. |
| Negotiation.FirstOfKind | hooks/useWebRTC.ts:162-165 | Returns the index of the first track of the kind, or none when no track has it. |
| Negotiation.Send | hooks/useWebRTC.ts:86-90 | The message is appended to the socket's log iff the socket is open. Otherwise nothing changes. |
| Negotiation.HandleSignal | hooks/useWebRTC.ts:64-83 | With no peer connection, or with an unknown type, nothing changes. An offer sets the remote description and then the local answer, and sends exactly that answer when the socket is open. An answer only sets the remote description. A candidate only joins the pool. Only an offer sends. Whether the socket exists, and its ready state, never change. |
| Negotiation.SignalingStarted | hooks/useWebRTC.ts:41-43 | A fresh socket that is still connecting and has sent nothing. |
| Negotiation.SocketOpened | hooks/useWebRTC.ts:45-47 | A connecting socket becomes open. A socket in any other state, or no socket, is left exactly as it was, so a closing or closed socket never reopens. Nothing is sent. |
| Negotiation.SocketDropped | hooks/useWebRTC.ts:54-56 | After the close event the socket is CLOSED with its log kept, and nothing else changes. Later sends are dropped. |
| Negotiation.CloseSocket | hooks/useWebRTC.ts:254-256 | After `close()` the socket is closing or closed, never open or connecting, and its log is intact. An already closing or closed socket is left alone. |
| Negotiation.InitPeerConnection | hooks/useWebRTC.ts:93-130 | A new peer connection in state `new` with no descriptions or candidates and one sender per local track, in order. |
| Negotiation.OnTrack | hooks/useWebRTC.ts:98-105 | The remote stream becomes the arriving stream. Nothing else changes. |
| Negotiation.OnIceCandidate | hooks/useWebRTC.ts:108-112 | A candidate is sent iff there is one and the socket is open. The end-of-candidates event sends nothing. Whether the socket exists, and its ready state, do not change. |
| Negotiation.ConnectionStateChanged | hooks/useWebRTC.ts:115-120 | The reported state equals the peer connection's new state. "Connected" is reported iff that state is `connected`. The peer connection keeps its descriptions, candidates and senders. Nothing else in the session changes. |
| Negotiation.OfferMade | hooks/useWebRTC.ts:212-222 | With a peer connection and a created offer, the offer becomes the local description and is sent when the socket is open. Without either, nothing changes. Whether the socket exists, and its ready state, do not change. |
| Negotiation.LocalMediaStarted | hooks/useWebRTC.ts:133-150 | A stream from `getUserMedia` becomes the local stream. A failure changes nothing. |
| Negotiation.LocalStreamEffect | hooks/useWebRTC.ts:274-282 | With a local stream, a fresh peer connection is created. It sends the local tracks. It has no remote description and no candidates, is in state `new` and is not closed. It has a local description only when the initiator's offer was created, and then that description is the offer. The initiator also sends that offer when the socket is open. Nothing is sent by a non-initiator, or when creating the offer failed. Only the peer connection and the socket's log change. |
| Negotiation.Toggle | hooks/useWebRTC.ts:225-242 | Exactly the first local track of the kind changes its disabled flag. Without a local stream or such a track nothing changes. Nothing is sent. |
| Negotiation.ToggleTwiceRestores | hooks/useWebRTC.ts:225-242 | Toggling the same kind twice restores the session exactly. |
| Negotiation.ScreenShareStarted | hooks/useWebRTC.ts:153-189 | Only with a peer connection and a local stream: the first video sender switches to the screen's video track and sharing is reported. Every other sender, both descriptions, the candidates, the state and the closed flag are kept. Otherwise nothing changes. |
| Negotiation.ScreenShareStopped | hooks/useWebRTC.ts:192-209 | Only with a local stream and a peer connection: the first video sender switches back to the camera track and sharing is no longer reported. Every other sender and the rest of the peer connection are kept. Otherwise nothing changes. |
| Negotiation.CallEnded | hooks/useWebRTC.ts:245-262 | The following hold after the call ends: <br>• every local track is stopped <br>• the peer connection is closed and in state `closed`, otherwise unchanged <br>• the socket is exactly `close()` of the old one, so it is closing or closed <br>• both streams are gone <br>• neither a connection nor sharing is reported <br>• nothing is sent |
| Negotiation.EndCallIdempotent | hooks/useWebRTC.ts:245-262 | A second `endCall` leaves the state unchanged. |
| Negotiation.UnmountAsWritten | hooks/useWebRTC.ts:265-271 | On unmount, the cleanup runs the mount render's `endCall`, which sees no local stream. No track is stopped. The peer connection is closed, and the socket is exactly `close()` of the old one. Nothing is sent. |
| Negotiation.UnmountLeavesTracksLive | hooks/useWebRTC.ts:245-271 | After unmount as written, every local track that was live is still live. |
| Negotiation.UnmountStopsTracks | hooks/useWebRTC.ts:245-262 | A cleanup reaching the current `endCall` stops every local track and closes the peer connection. The socket is exactly `close()` of the old one. |
| Negotiation.NoSendAfterEndCall | hooks/useWebRTC.ts:86-90 | After `endCall`, a later `open` event does not reopen the socket, with or without the `close` event first. A later send leaves the log as it was before the call ended. |
| Negotiation.InitSendsCamera | hooks/useWebRTC.ts:122-127 | A new peer connection's video sender sends the camera track. |
| Negotiation.ScreenShareEndRestoresCamera | hooks/useWebRTC.ts:179-181 | Starting and then ending a screen share leaves the camera on the video sender and sharing cleared. The connection state is untouched. |
| Negotiation.ScreenShareRoundTrip | hooks/useWebRTC.ts:161-207 | When the camera is being sent and the screen is not shared, starting and then stopping a share restores the session exactly. |
| Negotiation.OfferAnswerExchange | hooks/useWebRTC.ts:68-76 | Offer, answer and handling the answer give the following: <br>• each side sends exactly one message <br>• each side ends with its own description as local and the other side's as remote |
| Negotiation.RenderAsWritten | hooks/useWebRTC.ts:274-282 | Each render with a local stream replaces the peer connection with a fresh, unconnected one. |
| Negotiation.RerenderDiscardsConnection | hooks/useWebRTC.ts:115-130 | The render after a `connected` event leaves "connected" reported over a fresh peer connection in state `new` with no remote description. |
| Negotiation.Render | hooks/useWebRTC.ts:274-282 | With the effect keyed on the local stream, a render with an unchanged stream changes nothing. |
| Negotiation.RerenderKeepsConnection | hooks/useWebRTC.ts:115-120 | With the keyed effect, a state event and the render after it keep the peer connection, its descriptions and its new state. |
| Negotiation.Negotiator.constructor | hooks/useWebRTC.ts:21-28 | The hook's initial state: no streams, not connected, state `new`, not sharing, no peer connection or socket. |
| Negotiation.Negotiator.SendSignalingMessage | hooks/useWebRTC.ts:86-90 | The new state is `Send` of the old one. |
| Negotiation.Negotiator.HandleSignalingMessage | hooks/useWebRTC.ts:64-83 | The new state is `HandleSignal` of the old one. |
| Negotiation.Negotiator.InitializeSignaling | hooks/useWebRTC.ts:41-61 | The new state is `SignalingStarted` of the old one. |
| Negotiation.Negotiator.OnSocketOpen | hooks/useWebRTC.ts:45-47 | The new state is `SocketOpened` of the old one. |
| Negotiation.Negotiator.OnSocketClose | hooks/useWebRTC.ts:54-56 | The new state is `SocketDropped` of the old one. |
| Negotiation.Negotiator.InitializePeerConnection | hooks/useWebRTC.ts:93-130 | The `addTrack` loop leaves the new state equal to `InitPeerConnection` of the old one. |
| Negotiation.Negotiator.HandleTrack | hooks/useWebRTC.ts:98-105 | The new state is `OnTrack` of the old one. |
| Negotiation.Negotiator.HandleIceCandidate | hooks/useWebRTC.ts:108-112 | The new state is `OnIceCandidate` of the old one. |
| Negotiation.Negotiator.HandleConnectionStateChange | hooks/useWebRTC.ts:115-120 | The new state is `ConnectionStateChanged` of the old one. |
| Negotiation.Negotiator.CreateOffer | hooks/useWebRTC.ts:212-222 | The new state is `OfferMade` of the old one. |
| Negotiation.Negotiator.StartLocalMedia | hooks/useWebRTC.ts:133-150 | The new state is `LocalMediaStarted` of the old one. It succeeds iff `getUserMedia` produced a stream. |
| Negotiation.Negotiator.OnLocalStreamChange | hooks/useWebRTC.ts:274-282 | The new state is `LocalStreamEffect` of the old one. |
| Negotiation.Negotiator.ToggleAudio | hooks/useWebRTC.ts:225-232 | The new state is `Toggle(_, Audio)` of the old one. |
| Negotiation.Negotiator.ToggleVideo | hooks/useWebRTC.ts:235-242 | The new state is `Toggle(_, Video)` of the old one. |
| Negotiation.Negotiator.ToggleFirst | hooks/useWebRTC.ts:226-230 | The new state is `Toggle` of the old one. |
| Negotiation.Negotiator.StartScreenShare | hooks/useWebRTC.ts:153-189 | The new state is `ScreenShareStarted` of the old one. It succeeds iff `getDisplayMedia` produced a stream. |
| Negotiation.Negotiator.StopScreenShare | hooks/useWebRTC.ts:192-209 | The new state is `ScreenShareStopped` of the old one. |
| Negotiation.Negotiator.OnScreenTrackEnded | hooks/useWebRTC.ts:179-181 | The screen track's end has the effect of `stopScreenShare`. |
| Negotiation.Negotiator.EndCall | hooks/useWebRTC.ts:245-262 | The track-stopping loop leaves the new state equal to `CallEnded` of the old one. |
| InterviewFlow.StartInterview | src/pages/Interview.jsx:37-42 | Started, on question 0, with 60 seconds and no feedback. |
| InterviewFlow.StartRecording | src/pages/Interview.jsx:44-50 | Recording with 60 seconds on the same question. The bounds are kept. |
| InterviewFlow.StopRecording | src/pages/Interview.jsx:52-65 | Recording always stops. Before the last question the page moves to the next question with 60 seconds. On the last it finishes with the completion feedback. The question index stays in 0..4 and the timer in 0..60. |
| InterviewFlow.Tick | src/pages/Interview.jsx:24-35 | Counts down by exactly one second only when started, recording and time is left. At zero it performs the stop. Otherwise it does nothing. The bounds are kept. |
| InterviewFlow.TicksCountDown | src/pages/Interview.jsx:26-28 | While time is left, k ticks take exactly k seconds off and change nothing else. |
| InterviewFlow.TimerStopsRecording | src/pages/Interview.jsx:24-35 | A recording never stopped by hand is stopped by the timer on the 61st tick. |
| InterviewFlow.AnswersAdvance | src/pages/Interview.jsx:58-60 | Fewer answers than remaining questions keep the interview running, on the next question. |
| InterviewFlow.FiveAnswersFinish | src/pages/Interview.jsx:58-64 | From a fresh start, fewer than five answers leave the interview running on question k. Exactly five end it with the completion feedback. |
| InterviewFlow.InterviewPage.constructor | src/pages/Interview.jsx:14-18 | The page's initial state, within bounds. |
| InterviewFlow.InterviewPage.HandleStartInterview | src/pages/Interview.jsx:37-42 | The new state is `StartInterview` of the old one. The bounds are kept. |
| InterviewFlow.InterviewPage.HandleStartRecording | src/pages/Interview.jsx:44-50 | The new state is `StartRecording` of the old one. The bounds are kept. |
| InterviewFlow.InterviewPage.HandleStopRecording | src/pages/Interview.jsx:52-65 | The new state is `StopRecording` of the old one. The bounds are kept. |
| InterviewFlow.InterviewPage.TimerTick | src/pages/Interview.jsx:24-35 | The new state is `Tick` of the old one. The bounds are kept. |
| Users.WithEmail | convex/users.ts:12-14 | Exactly the rows with the email. Empty iff no row has it. Its first element is the first such row in table order. |
| Users.WithEmailAppend | convex/users.ts:12-14 | The query distributes over appended rows. |
| Users.Create | convex/users.ts:10-33 | With no row for the email, exactly one row built from the arguments is appended and the arguments are returned with the new id. Otherwise the table is unchanged and the first matching row is returned. Existing rows are never modified. |
| Users.CreateKeepsEmailsUnique | convex/users.ts:12-22 | If no two rows share an email before, none do after. |
| Users.CreateTwiceAddsAtMostOne | convex/users.ts:12-32 | A second call with the same arguments changes nothing and returns the row the first call inserted or found. Two calls add at most one row. |
| Users.UserTable.constructor | convex/schema.ts:5-9 | An empty table. |
| Users.UserTable.CreateNewUser | convex/users.ts:10-33 | The new table and the result are `Create` of the old table. An inserted id differs from every existing id. |

## Left out

- Transport: the HTTP server, `listen`, SIGINT shutdown, the HTML status page and console logging. These are I/O. The health endpoint is modelled by its two counts only.
- Server concurrency and the interleaving of awaited calls: each handler is one atomic step.
- A `room` query parameter given twice arrives as an array. The model takes the room id as an optional string.
- Browser media and WebRTC internals (`getUserMedia`, `getDisplayMedia`, ICE gathering, SDP contents, `replaceTrack`) are abstract:
  - a created description is a string
  - an acquired stream is an `Option` input
  - `setRemoteDescription`, `setLocalDescription`, `createAnswer`, `addIceCandidate` and `replaceTrack` are taken to succeed, including on a closed peer connection, where a browser rejects them
- Negotiation.ScreenShareStarted: requires the display stream to contain a video track. `getDisplayMedia` with a video constraint always provides one.
- React mechanics: `useCallback` closures, video element `srcObject`, the `onRemoteStream` and `onConnectionStateChange` callbacks, and the ICE server list.
  - `Negotiator.OnLocalStreamChange` runs the initiator effect once per local-stream change, as the Findings correction intends.
  - The screen track's `ended` handler is modelled with the current local stream, not the one its closure captured.
- The signalling effect (hooks/useWebRTC.ts:265-271):
  - On mount it runs `InitializeSignaling`.
  - Its cleanup is `UnmountAsWritten` (see Findings).
  - `Negotiator.EndCall` is the `endCall` returned to callers, over the current local stream. The class has no separate unmount method.
- Negotiation.ConnectionStateChanged: the model keeps only the connection the ref holds and applies every state event to it. When a render replaces the connection (hooks/useWebRTC.ts:94-95), the source leaves the old connection open. Its `connectionstatechange`, `icecandidate` and `track` handlers keep reaching the hook, and `endCall` never closes it (lines 250-251). Those replaced connections are not modelled.
- The recorder and webcam components of the interview page, and its rendering.
- `convex/Interview.ts`, the API routes and the other pages. These are an unconditional insert, network calls and UI.
- The store's id generation is a counter. Convex ids are opaque strings.

## Findings

| source | as written | input that shows it | evidently intended | confidence | as-written member | corrected member |
|---|---|---|---|---|---|---|
| hooks/useWebRTC.ts:274-282 | The initiator effect depends on `initializePeerConnection`, whose dependency `config` is a new object on every render. The effect therefore creates a fresh peer connection after every render with a local stream. The replaced connection is never closed, and its events still reach the hook. | A session with a local stream and a peer connection receives a `connected` state event. The re-render then reports "connected" over a new peer connection in state `new` with no remote description. | The effect runs once per local stream, keeping the negotiated connection. | not executed | Negotiation.RerenderDiscardsConnection | Negotiation.RerenderKeepsConnection |
| hooks/useWebRTC.ts:265-271 | The cleanup of the effect keyed on the room id calls the `endCall` captured at mount. That `endCall` closes over `localStream === null` (line 21), so lines 246-248 stop no track on unmount. | A session with a live camera track unmounts. The track is not stopped, while the peer connection and the socket are closed. | Leaving the page stops the camera and microphone tracks. | not executed | Negotiation.UnmountLeavesTracksLive | Negotiation.UnmountStopsTracks |
