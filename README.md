# Room signaling and link buffering, modelled in Dafny

This project models two pieces of a live-streaming application.

- **The room signaling server** (`apps/wss-server/src/index.ts`). It keeps one process-wide table of rooms. Each room has:
  - an admin (a stable id plus the connection currently bound to it);
  - a room code and a lock flag;
  - maps of admitted peers, pending peers and viewers, plus name tables.

  One `switch` handles each incoming message. It covers these cases:
  - create a room, or take over an unlocked one;
  - join with a room code;
  - lock and unlock;
  - the admin accepts or rejects a pending peer;
  - relay of `offer`, `answer` and `ice-candidate` to the target's connection;
  - leave, which closes the room when the admin leaves;
  - viewer subscribe and unsubscribe.
- **The browser's negotiation-link table** (`apps/frontend/src/components/stream-room.tsx`). Every remote peer id maps to a `TrackedPC`: a peer connection, a buffer of ICE candidates, and a `remoteDescSet` flag. Candidates that arrive before `setRemoteDesc` are buffered. `setRemoteDesc` raises the flag and applies the buffer in arrival order. Offers and answers are gated on the signaling state.

## Layout

| file | module | what it holds |
|---|---|---|
| `wire.dfy` | `Wire` | ids, connections (`ConnId`), session descriptions, and the client and server messages as datatypes |
| `rooms.dfy` | `Rooms` | the `Room` record, the role-separation invariant `WellFormed`, and relay target resolution |
| `broadcast.dfy` | `Broadcast` | plans of emissions. `Fanout` is the exact bag a `forEach` send produces. `SendToAll` and `KeyList` are the loops over a Map |
| `handlers.dfy` | `Handlers` | one pure function per `case`: `Step(rooms, ws, msg, …)` returns the new table and the plan of messages |
| `server.dfy` | `Server` | class `SignalingServer` with fields `rooms` and `outbox`. Each handler changes them in place and is proved to do what its `Handlers` function says |
| `server_properties.dfy` | `ServerProperties` | relay-once, leave notifications, accept notifications, idempotence, the viewer snapshot |
| `scenarios.dfy` | `Scenarios` | end-to-end traces on room "alpha" |
| `server_findings.dfy` | `ServerFindings` | three server findings: each as written, and corrected |
| `links.dfy` | `Links` | the peer-connection abstraction (signaling state, descriptions, `applied` candidates), `TrackedPC`, the buffer functions and the flush loop |
| `client.dfy` | `Client` | the peers-list updaters and class `StreamRoom`, whose handlers change its tables in place |

### Conventions

- **Sent messages.** A handler's sent messages are the suffix it appends to `outbox`. `Appended(before, after, plan)` says that suffix meets the plan:
  - a `One` emission is exactly one envelope;
  - an `All(map, msg)` emission is one envelope per entry of the map, in any order;
  - a `Listing` emission is a `room-info` whose peer list names the admin first and then every peer key once.
- **Fresh values.** `uuidv4()`, `generateRoomCode()`, `createOffer()` and `createAnswer()` become parameters. A fresh participant or viewer id must be `Unused` in its room.

## Model

| member | source | states |
|---|---|---|
| Rooms.Resolve | apps/wss-server/src/index.ts:221-229 | a relay target resolves to the admin's connection when the id is the admin id, else to the peer's connection, else to the viewer's; it resolves to nothing exactly when the id holds none of these roles |
| Rooms.ResolveByRole | apps/wss-server/src/index.ts:221-229 | in a well-formed room each id has one role: a peer or viewer id resolves to its own connection, and a pending peer never resolves. A standalone lemma: the order of Resolve's lookups never matters |
| Handlers.CreateRoomStep | apps/wss-server/src/index.ts:32-86 | an unseen id gets a locked room stored under that id, with the fresh admin id, the sender as admin, the given admin name, the generated code, and empty peer, pending, viewer and name maps, and one `room-created` to the sender. A locked room: table unchanged, one `join-room-error` "Room is locked by another admin". An unlocked room: the admin connection is rebound, it is relocked, `adminId` is kept, and `room-created` carries the new code. No other room changes |
| Handlers.CreateRoomStoringCodeStep | apps/wss-server/src/index.ts:32-86 | corrected `create-room`, used by `Step`: exactly CreateRoomStep for a new room and for a locked one (which is left untouched). On a takeover it sends the same plan and builds the same room, except that the stored code is the code sent |
| Handlers.JoinRoomStep | apps/wss-server/src/index.ts:87-119 | missing room gives "Room not found" and an inexact code gives "Invalid room code", both leaving the table unchanged. Otherwise the fresh id and name are added to the pending maps, and one `participant-request` goes to the admin connection |
| Handlers.LockRoomStep | apps/wss-server/src/index.ts:121-135 | with a matching admin id: locked, admin rebound, one ack to the sender. Otherwise nothing changes and nothing is sent |
| Handlers.UnlockRoomStep | apps/wss-server/src/index.ts:137-150 | with a matching admin id: unlocked, admin connection kept, one ack. Otherwise a no-op |
| Handlers.AcceptPeerStep | apps/wss-server/src/index.ts:152-197 | a no-op unless the target is pending. Otherwise it moves from the pending maps to the peer maps. The plan is `join-accepted` to its connection, `participant-joined` to every other peer, `peer-joined` to every viewer, and `accept-peer-success` to the sender. The sender is not checked |
| Handlers.AdminAcceptPeerStep | apps/wss-server/src/index.ts:152-197 | corrected `accept-peer`, used by `Step`: exactly AcceptPeerStep from the room's admin connection, and a no-op (nothing changed or sent) from any other connection or for a missing room |
| Handlers.RejectPeerStep | apps/wss-server/src/index.ts:199-214 | a no-op unless the target is pending. Otherwise it is dropped from `pendingPeers` (its name entry stays), `join-rejected` goes to it and `reject-peer-success` to the sender |
| Handlers.AdminRejectPeerStep | apps/wss-server/src/index.ts:199-214 | corrected `reject-peer`, used by `Step`: exactly RejectPeerStep from the room's admin connection, and a no-op from any other connection or for a missing room |
| Handlers.RelayStep | apps/wss-server/src/index.ts:216-297 | the table never changes. The plan is empty exactly when the room is missing or the target does not resolve; otherwise it is one forward to the resolved connection |
| Handlers.Without | apps/wss-server/src/index.ts:326 | deleting a possibly-missing peer id removes exactly that key and keeps every other entry |
| Handlers.LeaveRoomStep | apps/wss-server/src/index.ts:299-357 | when the sender is the admin connection, `room-closed` goes to peers and viewers and the room is deleted. Otherwise the peer id is removed, then `participant-left` goes to the admin and the remaining peers and `peer-left` to the viewers |
| Handlers.JoinAsViewerStep | apps/wss-server/src/index.ts:359-383 | a missing room gives one "Room not found" error to the sender. Otherwise the fresh viewer is added and sent a `room-info` snapshot listing the admin id and then the peer keys |
| Handlers.ViewerLeaveStep | apps/wss-server/src/index.ts:385-393 | removes only that viewer, sends nothing, and changes nothing for a missing room |
| Handlers.Step | apps/wss-server/src/index.ts:31-394 | the switch, with the corrected `create-room`, `accept-peer` and `reject-peer` cases: every case keeps every room well formed: the admin id is in no peer, pending or viewer map, the peer, pending and viewer key sets are pairwise disjoint, and every peer and pending peer has a name |
| Broadcast.SendToAll | apps/wss-server/src/index.ts:307-313 | the `forEach` send loop produces exactly one envelope per Map entry, all of them carrying the message (`Fanout`) |
| Broadcast.FanoutCount | apps/wss-server/src/index.ts:307-321 | a connection receives a broadcast once for every id it is registered under |
| Broadcast.FanoutShape | apps/wss-server/src/index.ts:307-321 | a broadcast reaches only connections of the Map, and only with the broadcast message |
| Broadcast.KeyList | apps/wss-server/src/index.ts:379 | `Array.from(room.peers.keys())` lists every key exactly once |
| Broadcast.EmitsSent | apps/wss-server/src/index.ts:299-357 | whatever meets a plan without snapshots sends exactly the plan's envelopes (as a bag) |
| Broadcast.EmitsOnlyTargets | apps/wss-server/src/index.ts:31-394 | whatever meets a plan sends only to the plan's connections. A standalone lemma for any plan; the leave and accept lemmas state their recipients directly |
| Server.SignalingServer.CreateRoom | apps/wss-server/src/index.ts:32-86 | the in-place handler leaves the table equal to CreateRoomStoringCodeStep's, and appends outbox messages meeting its plan |
| Server.SignalingServer.JoinRoom | apps/wss-server/src/index.ts:87-119 | as above, for JoinRoomStep |
| Server.SignalingServer.LockRoom | apps/wss-server/src/index.ts:121-135 | as above, for LockRoomStep |
| Server.SignalingServer.UnlockRoom | apps/wss-server/src/index.ts:137-150 | as above, for UnlockRoomStep |
| Server.SignalingServer.AcceptPeer | apps/wss-server/src/index.ts:152-197 | as above, for AdminAcceptPeerStep, with the two `forEach` loops |
| Server.SignalingServer.RejectPeer | apps/wss-server/src/index.ts:199-214 | as above, for AdminRejectPeerStep |
| Server.SignalingServer.Relay | apps/wss-server/src/index.ts:216-297 | the shared relay body leaves the table alone and appends what RelayStep plans |
| Server.SignalingServer.LeaveRoom | apps/wss-server/src/index.ts:299-357 | as above, for LeaveRoomStep |
| Server.SignalingServer.CloseRoom | apps/wss-server/src/index.ts:305-323 | the admin branch sends `room-closed` to every peer and every viewer, then deletes the room |
| Server.SignalingServer.DepartPeer | apps/wss-server/src/index.ts:324-354 | the other branch removes the peer and sends the three notifications |
| Server.SignalingServer.JoinAsViewer | apps/wss-server/src/index.ts:359-383 | as above, for JoinAsViewerStep, with the key listing loop |
| Server.SignalingServer.ViewerLeave | apps/wss-server/src/index.ts:385-393 | as ViewerLeaveStep, with the outbox unchanged |
| Server.SignalingServer.HandleMessage | apps/wss-server/src/index.ts:28-394 | one message on connection `ws` leaves the table equal to `Step`'s, appends messages meeting `Step`'s plan, and keeps the table well formed |
| ServerProperties.AcceptTwiceIsNoop | apps/wss-server/src/index.ts:156 | after an as-written `accept-peer` (which the corrected step runs from the admin connection), a second one for the same target from any connection returns an unchanged table and an empty plan |
| ServerProperties.AdminAcceptTwiceIsNoop | apps/wss-server/src/index.ts:156 | the corrected `accept-peer` sent twice from the same connection: the second returns an unchanged table and an empty plan, whether or not the first was honoured |
| ServerProperties.RejectTwiceIsNoop | apps/wss-server/src/index.ts:203 | after an as-written `reject-peer` (which the corrected step runs from the admin connection), a second one for the same target from any connection does nothing and sends nothing |
| ServerProperties.AdminRejectTwiceIsNoop | apps/wss-server/src/index.ts:203 | the corrected `reject-peer` sent twice from the same connection: the second returns an unchanged table and an empty plan, whether or not the first was honoured |
| ServerProperties.UnknownRoomChangesNothing | apps/wss-server/src/index.ts:91-99 | any message naming a missing room leaves the table unchanged and at most answers the sender "Room not found" |
| ServerProperties.RelayForwardsOnce | apps/wss-server/src/index.ts:216-297 | `offer`, `answer` and `ice-candidate` send at most one message. It goes out exactly when the room exists and the target resolves, goes to the resolved connection, and carries the payload, source and target unchanged; the ice forward has no room id |
| ServerProperties.AdminLeaveClosesRoom | apps/wss-server/src/index.ts:305-323 | the admin's leave deletes the room and sends exactly as many messages as there are peer and viewer entries, all `room-closed`, all to peer or viewer connections (never to a pending peer otherwise unregistered), and each connection once per entry it holds |
| ServerProperties.PeerLeaveBag | apps/wss-server/src/index.ts:324-354 | a non-admin leave sends exactly one `participant-left` to the admin, plus the remaining peers' and the viewers' fanouts |
| ServerProperties.PeerLeaveNotifies | apps/wss-server/src/index.ts:324-354 | a non-admin leave sends one message more than there are remaining peer and viewer entries. Each is `participant-left` to the admin or a remaining peer, or `peer-left` to a viewer; the admin always gets one, and each viewer connection gets one per entry |
| ServerProperties.DepartureShape | apps/wss-server/src/index.ts:329-354 | the counting behind a non-admin leave: size, recipients and one `peer-left` per viewer entry |
| ServerProperties.AcceptBag | apps/wss-server/src/index.ts:164-194 | a successful as-written accept (the corrected step from the admin connection) sends `join-accepted` first, and as a bag exactly the four emissions of the plan |
| ServerProperties.AcceptNotifies | apps/wss-server/src/index.ts:152-197 | a successful as-written accept (the corrected step from the admin connection) sends two messages more than there are earlier peer and viewer entries: `join-accepted` first to the accepted connection, `participant-joined` once per earlier peer entry (the accepted id is never among them), `peer-joined` once per viewer entry, and `accept-peer-success` to the sender |
| ServerProperties.AdmissionShape | apps/wss-server/src/index.ts:164-194 | the counting behind AcceptNotifies |
| ServerProperties.ViewerSnapshot | apps/wss-server/src/index.ts:359-383 | the new viewer alone receives one `room-info` with its id. Its list starts with the admin id, then holds every peer id exactly once, with no repeats, and one entry more than there are peers |
| Scenarios.AlphaWithPeer | apps/wss-server/src/index.ts:32-197 | after create, correct-code join and accept, "alpha" has admin A, the single peer P with its name, and no pending peers or viewers |
| Scenarios.ScenarioA | apps/wss-server/src/index.ts:32-197 | the admin hears P's request. On acceptance the only messages are `join-accepted` with P's id to P and `accept-peer-success` to the admin |
| Scenarios.ScenarioB | apps/wss-server/src/index.ts:87-108 | a wrong code earns P "Invalid room code" as the only message, and P is never pending |
| Scenarios.ScenarioCSnapshot | apps/wss-server/src/index.ts:359-383 | a viewer subscribing after P's admission is sent exactly `room-info` listing `[A, P]` |
| Scenarios.ScenarioCLeave | apps/wss-server/src/index.ts:324-354 | when P then leaves, P is no longer a peer and the viewer is sent `peer-left` with P's id and name |
| ServerFindings.TakeoverAdvertisesUnusableCode | apps/wss-server/src/index.ts:33-57 | as written, a takeover whose fresh code differs from the stored one sends the fresh code, yet a join with that code is answered "Invalid room code" |
| ServerFindings.AdvertisedCodeAdmits | apps/wss-server/src/index.ts:33-119 | with the correction, a join carrying the code in any `room-created` reaches the admin as a `participant-request` |
| ServerFindings.PendingPeerAdmitsItself | apps/wss-server/src/index.ts:152-162 | as written, a pending participant's own connection can send `accept-peer` for itself and become a peer |
| ServerFindings.OnlyAdminAdmits | apps/wss-server/src/index.ts:152-197 | with the correction, an id becomes a peer only through the admin connection, and only the id named |
| ServerFindings.AnyoneRejectsPending | apps/wss-server/src/index.ts:199-214 | as written, a connection other than the admin's can send `reject-peer` for a pending id: the participant leaves the queue and is sent `join-rejected` |
| ServerFindings.OnlyAdminRejects | apps/wss-server/src/index.ts:199-214 | with the correction, a pending id leaves the queue by rejection only through the admin connection, and only the id named |
| Links.SetRemoteDescription | apps/frontend/src/components/stream-room.tsx:252 | an offer is accepted only in `stable` (then `have-remote-offer`), an answer only in `have-local-offer` (then `stable`); otherwise the call rejects |
| Links.SetLocalDescription | apps/frontend/src/components/stream-room.tsx:270 | an own offer only in `stable` (then `have-local-offer`), an own answer only in `have-remote-offer` (then `stable`) |
| Links.OfferAnswerExchange | apps/frontend/src/components/stream-room.tsx:261-307 | a full exchange brings both sides back to `stable` holding each other's descriptions. In this model, which has no rollback, a second offer while one is outstanding and an unsolicited answer are both refused |
| Links.AddIceCandidate | apps/frontend/src/components/stream-room.tsx:328 | appends the candidate to the applied ones and changes nothing else |
| Links.FlushCandidates | apps/frontend/src/components/stream-room.tsx:255-257 | the flush loop applies every buffered candidate once, in order, after those already applied |
| Links.NewLink | apps/frontend/src/components/stream-room.tsx:201-206 | a new entry has an empty buffer, a clear flag and a fresh `stable` connection with no descriptions and nothing applied, and keeps the buffer invariant |
| Links.ReceiveCandidate | apps/frontend/src/components/stream-room.tsx:321-332 | with the flag clear the candidate goes to the end of the buffer, unapplied. With it set, it is applied through `addIceCandidate`, which leaves the signaling state and both descriptions alone, and the buffer is untouched. Under the invariant it is delivered exactly once, after all earlier ones |
| Links.ReceiveAllDelivers | apps/frontend/src/components/stream-room.tsx:321-332 | any sequence of candidates is delivered in order and once each; the flag does not move, and while it is clear nothing is applied |
| Links.SetRemote | apps/frontend/src/components/stream-room.tsx:248-259 | fails exactly when the connection refuses the description. Otherwise it raises the flag and applies the buffer in arrival order after earlier candidates. It empties the buffer and keeps the invariant. The signaling state and the descriptions are those `setRemoteDescription` gives |
| Links.BufferedThenApplied | apps/frontend/src/components/stream-room.tsx:248-259 | candidates that arrive before the answer are not applied until it is set, then applied once each in arrival order; later ones are applied behind them |
| Links.AnsweredLink | apps/frontend/src/components/stream-room.tsx:261-270 | as written, `handleOffer` leaves a `stable` link holding the offer and its answer, an empty buffer and a clear flag; the function yields None if the offer is refused |
| Links.AnsweringSideNeverApplies | apps/frontend/src/components/stream-room.tsx:261-270 | as written, on the answering side every later candidate stays buffered and none is ever applied |
| Links.AnsweredLinkViaSetRemote | apps/frontend/src/components/stream-room.tsx:248-270 | corrected `handleOffer` entry, used by StreamRoom.HandleOffer: the same descriptions and an empty buffer, with the flag raised |
| Links.AnsweringSideApplies | apps/frontend/src/components/stream-room.tsx:248-270 | with the correction, every candidate the offerer sends is applied, in order |
| Client.Dedup | apps/frontend/src/components/stream-room.tsx:303 | `[...new Set(list)]` holds exactly the list's ids with no repeats and is no longer than the list |
| Client.DedupKeepsFirstOrder | apps/frontend/src/components/stream-room.tsx:303 | `new Set` keeps insertion order: the deduplicated ids are in the order of their first occurrences |
| Client.DedupDistinct | apps/frontend/src/components/stream-room.tsx:303 | a list without repeats is unchanged by `new Set` |
| Client.AddPeerOnce | apps/frontend/src/components/stream-room.tsx:303 | on a repeat-free `peers`, `handleAnswer` appends the source unless it is already listed |
| Client.OfferCanRepeatPeer | apps/frontend/src/components/stream-room.tsx:282 | `handleOffer`'s append creates a repeat when the source is already listed |
| Client.Remove | apps/frontend/src/components/stream-room.tsx:389 | the filter keeps exactly the other ids, never grows the list, changes nothing when the id is absent, and keeps a repeat-free list repeat-free. A one-element list is kept or emptied |
| Client.RemoveCounts | apps/frontend/src/components/stream-room.tsx:389 | the filter drops every copy of the id and keeps every copy of every other id |
| Client.RemoveDistributes | apps/frontend/src/components/stream-room.tsx:389 | filtering a concatenation filters each part and keeps the parts in order. With the one-element case, this fixes the result, order included |
| Client.StreamRoom.CreatePeerConnection | apps/frontend/src/components/stream-room.tsx:201-206 | installs NewLink under the peer id, replacing any earlier entry |
| Client.StreamRoom.SetRemoteDesc | apps/frontend/src/components/stream-room.tsx:248-259 | fails and changes nothing for an unknown peer or a refused description; otherwise the entry becomes SetRemote of the old one |
| Client.StreamRoom.HandleOffer | apps/frontend/src/components/stream-room.tsx:261-283 | corrected `handleOffer`: installs AnsweredLinkViaSetRemote for the source, sends the answer when the socket exists, and appends the source to `peers`. A refused offer leaves a fresh entry and sends nothing |
| Client.StreamRoom.HandleAnswer | apps/frontend/src/components/stream-room.tsx:285-307 | acts only when addressed to this client, from a known source in `have-local-offer`, with an answer the connection takes. Then the entry becomes SetRemote's and the source is added to `peers` without repeats; otherwise nothing changes |
| Client.StreamRoom.HandleIceCandidate | apps/frontend/src/components/stream-room.tsx:310-333 | a misaddressed candidate, or one from an unknown source, changes nothing. Otherwise the entry becomes ReceiveCandidate's |
| Client.StreamRoom.HandleParticipantJoined | apps/frontend/src/components/stream-room.tsx:335-349 | installs a link in `have-local-offer` holding the new offer and sends that offer |
| Client.StreamRoom.HandleParticipantLeft | apps/frontend/src/components/stream-room.tsx:351-389 | removes that id from the connection, stream and video tables and from `peers`; every other entry is unchanged |
| Client.StreamRoom.HandleLeaveRoom | apps/frontend/src/components/stream-room.tsx:475-522 | sends `leave-room` with the room and client id when the socket exists. Empties the connection and stream tables and `peers`, and forgets the room and client id |
| Client.StreamRoom.CleanupConnections | apps/frontend/src/components/stream-room.tsx:152-172 | empties the connection, stream and video tables and drops the socket |
| Client.StreamRoom.Emit | apps/frontend/src/components/stream-room.tsx:272 | `ws.current?.send` records the message only while the socket exists |
| Client.StreamRoom.BindClientId | apps/frontend/src/components/stream-room.tsx:49 | `join-accepted` records the assigned id |
| Client.StreamRoom.OnTrack | apps/frontend/src/components/stream-room.tsx:233 | the peer's stream is recorded under its id |
| Client.StreamRoom.AttachVideo | apps/frontend/src/components/stream-room.tsx:650 | the video element is recorded under the peer id |

Every `StreamRoom` handler also keeps `Valid()`. That is, every table entry keeps the buffer invariant: once the flag is set the buffer is empty and a remote description exists; before that, nothing has been applied.

### Where the model departs from the code

- **Disconnects.** The server registers no `close` handler, so a dropped connection cleans nothing up. Only explicit `leave-room` and `viewer-leave` change membership.
- **Video refs on leaving.** `handleLeaveRoom` does not clear `remoteVideoRefs`; only `cleanupConnections` does. `HandleLeaveRoom` leaves that table as it was.
- **Corrections.** Four defects are modelled both as written and corrected (see Findings). The handlers that `Step` and the classes use are the corrected ones.
- **The signaling-state gate in `handleOffer`** (line 264) tests a connection the function has just created, so it always passes. The model goes straight on.

## Left out

- **Rooms are records.** `Room` is a value that each handler replaces in the table, while the source assigns its fields in place. A room is reachable only through the table, so no aliasing is lost.
- **TrackedPC entries are records too.** They are replaced in `peerConnections`. The source pushes onto the buffer and sets the flag in place; only the table holds the object, so no aliasing is lost.
- **Map order.** The order in which `forEach` visits a Map, and the key order of `Array.from(room.peers.keys())`, are not modelled. A broadcast is specified as an exact bag, and the snapshot as "each key once".
- **JSON.** Parsing and serialising are not modelled, and neither are missing or mistyped fields, beyond ids a client may leave null (`Option`). The `success`/`isAdmin` constants are implied by the message constructor.
- **Randomness and browser calls.** `uuidv4`, `generateRoomCode`, `createOffer` and `createAnswer` are parameters.
- **addIceCandidate** failures (a rejected promise) are not modelled. `AddIceCandidate` always appends.
- **Concurrency.** async/await interleavings and cross-connection concurrency are left out. Each handler is one atomic step, which also ignores React's stale-closure reads of `roomId`.
- **UI and media.** The component's other messages and state are left out: toasts, React flags, media capture and track stopping, `room-closed`'s UI reset, and the `onicecandidate` sender. Messages the server ignores (for example `get-router-capabilities`) are not modelled.
- **Other files.** The mediasoup client and server, the viewer page, the video player and the socket hook are not part of this model.

## Findings

| source | as written | input that shows it | evidently intended | confidence | as-written member | corrected member |
|---|---|---|---|---|---|---|
| apps/wss-server/src/index.ts:33-57 | a takeover of an unlocked room sends a newly generated `roomCode` in `room-created` but keeps the old code stored | room "r" unlocked with stored code "AAAAAA"; `create-room` on "r" with generated code "BBBBBB"; a `join-room` with "BBBBBB" | the code sent to the new admin is the room's code (a takeover regenerates it) | high, not executed | ServerFindings.TakeoverAdvertisesUnusableCode | Handlers.CreateRoomStoringCodeStep |
| apps/wss-server/src/index.ts:152-162 | `accept-peer` never compares the sender with the admin connection | a pending participant that has learnt its own pending id sends `accept-peer` naming it. The server sends that id only to the admin, so the id must be learnt or guessed | only the admin connection may admit a pending peer | medium, not executed | ServerFindings.PendingPeerAdmitsItself | Handlers.AdminAcceptPeerStep |
| apps/wss-server/src/index.ts:199-214 | `reject-peer` never compares the sender with the admin connection either | any connection other than the admin's sends `reject-peer` naming a pending id | only the admin connection may turn a pending peer away | medium, not executed | ServerFindings.AnyoneRejectsPending | Handlers.AdminRejectPeerStep |
| apps/frontend/src/components/stream-room.tsx:261-270 | `handleOffer` sets the remote description directly, so `remoteDescSet` stays false on the answering side | A offers to P; A's ICE candidates then reach P | candidates that arrive before the remote description are applied once it is set, on both sides | high, not executed | Links.AnsweringSideNeverApplies | Links.AnsweredLinkViaSetRemote |

The as-written behaviour is kept in `Handlers.CreateRoomStep`, `Handlers.AcceptPeerStep`, `Handlers.RejectPeerStep` and `Links.AnsweredLink`. The findings lemmas exhibit each discrepancy on them. `Handlers.Step`, `SignalingServer` and `StreamRoom.HandleOffer` use the corrected definitions.
