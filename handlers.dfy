/**
 * What each `case` of the signaling server's message switch does, stated as
 * a function from the room table (and the sender's connection and the
 * message fields) to the new table and the plan of messages sent.  Fresh
 * values (`uuidv4()`, `generateRoomCode()`) are parameters.
 */
module Handlers {
  import opened Wire
  import opened Rooms
  import opened Broadcast

  datatype Outcome = Outcome(rooms: map<Id, Room>, plan: seq<Emission>)

  /** `create-room`: build a new room, take over an unlocked one, or refuse a locked one. */
  function CreateRoomStep(rooms: map<Id, Room>, ws: ConnId, roomId: Id, name: string,
                          freshAdminId: Id, roomCode: string): (o: Outcome)
    requires TableWellFormed(rooms)
    ensures TableWellFormed(o.rooms)
    ensures o.rooms - {roomId} == rooms - {roomId}
    ensures roomId in o.rooms
    ensures roomId !in rooms ==>
      var r := o.rooms[roomId];
      && r.id == roomId && r.adminId == freshAdminId && r.admin == ws && r.roomCode == roomCode && r.isLocked
      && r.adminName == name
      && r.peers == map[] && r.pendingPeers == map[] && r.viewers == map[]
      && r.peerNames == map[] && r.pendingPeerNames == map[]
      && o.plan == [One(ws, RoomCreated(roomId, freshAdminId, roomCode, name))]
    ensures roomId in rooms && rooms[roomId].isLocked ==>
      o == Outcome(rooms, [One(ws, JoinRoomError(LockedByAnotherAdmin))])
    ensures roomId in rooms && !rooms[roomId].isLocked ==>
      var r, r' := rooms[roomId], o.rooms[roomId];
      && r' == r.(admin := ws, isLocked := true, adminName := name)
      && o.plan == [One(ws, RoomCreated(roomId, r.adminId, roomCode, name))]
  {
    if roomId in rooms then
      var existing := rooms[roomId];
      if existing.isLocked then
        Outcome(rooms, [One(ws, JoinRoomError(LockedByAnotherAdmin))])
      else
        var taken := existing.(admin := ws, isLocked := true, adminName := name);
        Outcome(rooms[roomId := taken], [One(ws, RoomCreated(roomId, existing.adminId, roomCode, name))])
    else
      Outcome(rooms[roomId := NewRoom(roomId, freshAdminId, ws, roomCode, name)],
              [One(ws, RoomCreated(roomId, freshAdminId, roomCode, name))])
  }

  /**
   * Corrected `create-room`: as CreateRoomStep, except that a takeover also
   * stores the code it advertises (see ServerFindings).
   */
  function CreateRoomStoringCodeStep(rooms: map<Id, Room>, ws: ConnId, roomId: Id, name: string,
                                     freshAdminId: Id, roomCode: string): (o: Outcome)
    requires TableWellFormed(rooms)
    ensures TableWellFormed(o.rooms)
    ensures o.plan == CreateRoomStep(rooms, ws, roomId, name, freshAdminId, roomCode).plan
    ensures roomId in o.rooms && o.rooms - {roomId} == rooms - {roomId}
    ensures o.rooms[roomId] == CreateRoomStep(rooms, ws, roomId, name, freshAdminId, roomCode).rooms[roomId]
                                 .(roomCode := o.rooms[roomId].roomCode)
    ensures o.plan[0].msg.RoomCreated? ==> o.rooms[roomId].roomCode == roomCode
    ensures !(roomId in rooms && !rooms[roomId].isLocked) ==>
      o == CreateRoomStep(rooms, ws, roomId, name, freshAdminId, roomCode)
  {
    if roomId in rooms && !rooms[roomId].isLocked then
      var existing := rooms[roomId];
      var taken := existing.(admin := ws, isLocked := true, adminName := name, roomCode := roomCode);
      Outcome(rooms[roomId := taken], [One(ws, RoomCreated(roomId, existing.adminId, roomCode, name))])
    else
      CreateRoomStep(rooms, ws, roomId, name, freshAdminId, roomCode)
  }

  /** `join-room`: queue a fresh pending peer after the room-code check. */
  function JoinRoomStep(rooms: map<Id, Room>, ws: ConnId, roomId: Id, roomCode: string, name: string,
                        freshPeerId: Id): (o: Outcome)
    requires TableWellFormed(rooms)
    requires roomId in rooms ==> rooms[roomId].Unused(freshPeerId)
    ensures TableWellFormed(o.rooms)
    ensures o.rooms - {roomId} == rooms - {roomId}
    ensures roomId !in rooms ==> o == Outcome(rooms, [One(ws, JoinRoomError(RoomNotFound))])
    ensures roomId in rooms && rooms[roomId].roomCode != roomCode ==>
      o == Outcome(rooms, [One(ws, JoinRoomError(InvalidRoomCode))])
    ensures roomId in rooms && rooms[roomId].roomCode == roomCode ==>
      var r := rooms[roomId];
      && roomId in o.rooms
      && o.rooms[roomId] == r.(pendingPeers := r.pendingPeers[freshPeerId := ws],
                               pendingPeerNames := r.pendingPeerNames[freshPeerId := name])
      && o.plan == [One(r.admin, ParticipantRequest(freshPeerId, name))]
  {
    if roomId !in rooms then
      Outcome(rooms, [One(ws, JoinRoomError(RoomNotFound))])
    else
      var r := rooms[roomId];
      if r.roomCode != roomCode then
        Outcome(rooms, [One(ws, JoinRoomError(InvalidRoomCode))])
      else
        var r' := r.(pendingPeers := r.pendingPeers[freshPeerId := ws],
                     pendingPeerNames := r.pendingPeerNames[freshPeerId := name]);
        Outcome(rooms[roomId := r'], [One(r.admin, ParticipantRequest(freshPeerId, name))])
  }

  /** `lock-room`: relock and rebind the admin connection, when the admin id matches. */
  function LockRoomStep(rooms: map<Id, Room>, ws: ConnId, roomId: Id, adminId: Id): (o: Outcome)
    requires TableWellFormed(rooms)
    ensures TableWellFormed(o.rooms)
    ensures o.rooms - {roomId} == rooms - {roomId}
    ensures !(roomId in rooms && rooms[roomId].adminId == adminId) ==> o == Outcome(rooms, [])
    ensures roomId in rooms && rooms[roomId].adminId == adminId ==>
      && o.rooms == rooms[roomId := rooms[roomId].(isLocked := true, admin := ws)]
      && o.plan == [One(ws, RoomLockedAck)]
  {
    if roomId in rooms && rooms[roomId].adminId == adminId then
      Outcome(rooms[roomId := rooms[roomId].(isLocked := true, admin := ws)], [One(ws, RoomLockedAck)])
    else
      Outcome(rooms, [])
  }

  /** `unlock-room`: clear the lock (the admin connection stays), when the admin id matches. */
  function UnlockRoomStep(rooms: map<Id, Room>, ws: ConnId, roomId: Id, adminId: Id): (o: Outcome)
    requires TableWellFormed(rooms)
    ensures TableWellFormed(o.rooms)
    ensures o.rooms - {roomId} == rooms - {roomId}
    ensures !(roomId in rooms && rooms[roomId].adminId == adminId) ==> o == Outcome(rooms, [])
    ensures roomId in rooms && rooms[roomId].adminId == adminId ==>
      && o.rooms == rooms[roomId := rooms[roomId].(isLocked := false)]
      && o.plan == [One(ws, RoomUnlockedAck)]
  {
    if roomId in rooms && rooms[roomId].adminId == adminId then
      Outcome(rooms[roomId := rooms[roomId].(isLocked := false)], [One(ws, RoomUnlockedAck)])
    else
      Outcome(rooms, [])
  }

  /** `room.pendingPeers.has(targetId)` for the named room. */
  predicate IsPending(rooms: map<Id, Room>, roomId: Id, targetId: Id) {
    roomId in rooms && targetId in rooms[roomId].pendingPeers
  }

  /**
   * `accept-peer`: move a pending peer to the admitted peers and announce it.
   * The sender's connection is not checked against the admin's.
   */
  function AcceptPeerStep(rooms: map<Id, Room>, ws: ConnId, roomId: Id, targetId: Id): (o: Outcome)
    requires TableWellFormed(rooms)
    ensures TableWellFormed(o.rooms)
    ensures o.rooms - {roomId} == rooms - {roomId}
    ensures !IsPending(rooms, roomId, targetId) ==> o == Outcome(rooms, [])
    ensures IsPending(rooms, roomId, targetId) ==>
      var r := rooms[roomId];
      var conn, name := r.pendingPeers[targetId], r.pendingPeerNames[targetId];
      && roomId in o.rooms
      && o.rooms[roomId] == r.(peers := r.peers[targetId := conn],
                               peerNames := r.peerNames[targetId := name],
                               pendingPeers := r.pendingPeers - {targetId},
                               pendingPeerNames := r.pendingPeerNames - {targetId})
      && targetId in o.rooms[roomId].peers && targetId !in o.rooms[roomId].pendingPeers
      && o.plan == [One(conn, JoinAccepted(targetId, roomId, name)),
                    All(r.peers, ParticipantJoined(targetId, roomId, name)),
                    All(r.viewers, PeerJoined(roomId, targetId, name)),
                    One(ws, AcceptPeerSuccess(targetId, roomId, name))]
  {
    if IsPending(rooms, roomId, targetId) then
      var r := rooms[roomId];
      var conn, name := r.pendingPeers[targetId], r.pendingPeerNames[targetId];
      var r' := r.(peers := r.peers[targetId := conn],
                   peerNames := r.peerNames[targetId := name],
                   pendingPeers := r.pendingPeers - {targetId},
                   pendingPeerNames := r.pendingPeerNames - {targetId});
      assert r'.peers - {targetId} == r.peers;
      Outcome(rooms[roomId := r'],
              [One(conn, JoinAccepted(targetId, roomId, name)),
               All(r'.peers - {targetId}, ParticipantJoined(targetId, roomId, name)),
               All(r'.viewers, PeerJoined(roomId, targetId, name)),
               One(ws, AcceptPeerSuccess(targetId, roomId, name))])
    else
      Outcome(rooms, [])
  }

  /**
   * Corrected `accept-peer`: honoured only from the room's admin connection
   * (see ServerFindings).
   */
  function AdminAcceptPeerStep(rooms: map<Id, Room>, ws: ConnId, roomId: Id, targetId: Id): (o: Outcome)
    requires TableWellFormed(rooms)
    ensures TableWellFormed(o.rooms)
    ensures roomId in rooms && ws == rooms[roomId].admin ==> o == AcceptPeerStep(rooms, ws, roomId, targetId)
    ensures !(roomId in rooms && ws == rooms[roomId].admin) ==> o == Outcome(rooms, [])
  {
    if roomId in rooms && ws == rooms[roomId].admin then AcceptPeerStep(rooms, ws, roomId, targetId)
    else Outcome(rooms, [])
  }

  /** `reject-peer`: drop a pending peer (its name entry stays) and tell both sides. */
  function RejectPeerStep(rooms: map<Id, Room>, ws: ConnId, roomId: Id, targetId: Id): (o: Outcome)
    requires TableWellFormed(rooms)
    ensures TableWellFormed(o.rooms)
    ensures o.rooms - {roomId} == rooms - {roomId}
    ensures !IsPending(rooms, roomId, targetId) ==> o == Outcome(rooms, [])
    ensures IsPending(rooms, roomId, targetId) ==>
      var r := rooms[roomId];
      && roomId in o.rooms
      && o.rooms[roomId] == r.(pendingPeers := r.pendingPeers - {targetId})
      && targetId in o.rooms[roomId].pendingPeerNames
      && o.plan == [One(r.pendingPeers[targetId], JoinRejected), One(ws, RejectPeerSuccess(targetId))]
  {
    if IsPending(rooms, roomId, targetId) then
      var r := rooms[roomId];
      Outcome(rooms[roomId := r.(pendingPeers := r.pendingPeers - {targetId})],
              [One(r.pendingPeers[targetId], JoinRejected), One(ws, RejectPeerSuccess(targetId))])
    else
      Outcome(rooms, [])
  }

  /**
   * Corrected `reject-peer`: honoured only from the room's admin connection
   * (see ServerFindings).
   */
  function AdminRejectPeerStep(rooms: map<Id, Room>, ws: ConnId, roomId: Id, targetId: Id): (o: Outcome)
    requires TableWellFormed(rooms)
    ensures TableWellFormed(o.rooms)
    ensures roomId in rooms && ws == rooms[roomId].admin ==> o == RejectPeerStep(rooms, ws, roomId, targetId)
    ensures !(roomId in rooms && ws == rooms[roomId].admin) ==> o == Outcome(rooms, [])
  {
    if roomId in rooms && ws == rooms[roomId].admin then RejectPeerStep(rooms, ws, roomId, targetId)
    else Outcome(rooms, [])
  }

  /**
   * `offer`, `answer`, `ice-candidate`: forward `fwd` to the connection the
   * target id resolves to, or drop it.  The table never changes.
   */
  function RelayStep(rooms: map<Id, Room>, roomId: Id, targetId: Id, fwd: ServerMsg): (o: Outcome)
    ensures o.rooms == rooms
    ensures o.plan == [] <==> roomId !in rooms || Resolve(rooms[roomId], targetId).None?
    ensures o.plan != [] ==> o.plan == [One(Resolve(rooms[roomId], targetId).value, fwd)]
  {
    if roomId !in rooms then Outcome(rooms, [])
    else
      match Resolve(rooms[roomId], targetId)
      case None => Outcome(rooms, [])
      case Some(conn) => Outcome(rooms, [One(conn, fwd)])
  }

  /** `room?.peerNames.get(peerId)`. */
  function NameOf(names: map<Id, string>, peerId: Option<Id>): Option<string> {
    if peerId.Some? && peerId.value in names then Some(names[peerId.value]) else None
  }

  /** `room.peers.delete(peerId)`, a no-op for a null id. */
  function Without(peers: map<Id, ConnId>, peerId: Option<Id>): (m: map<Id, ConnId>)
    ensures m.Keys <= peers.Keys
    ensures forall id :: id in m ==> m[id] == peers[id]
    ensures forall id :: id in peers ==> (id in m <==> peerId != Some(id))
  {
    if peerId.Some? then peers - {peerId.value} else peers
  }

  /**
   * `leave-room`: when the sender is the admin connection, tell every peer
   * and viewer and delete the room; otherwise drop `peerId` from the peers
   * and tell the admin, the remaining peers and the viewers.
   */
  function LeaveRoomStep(rooms: map<Id, Room>, ws: ConnId, roomId: Id, peerId: Option<Id>): (o: Outcome)
    requires TableWellFormed(rooms)
    ensures TableWellFormed(o.rooms)
    ensures o.rooms - {roomId} == rooms - {roomId}
    ensures roomId !in rooms ==> o == Outcome(rooms, [])
    ensures roomId in rooms && rooms[roomId].admin == ws ==>
      var r, name := rooms[roomId], NameOf(rooms[roomId].peerNames, peerId);
      && roomId !in o.rooms
      && o.plan == [All(r.peers, RoomClosed(roomId, name)), All(r.viewers, RoomClosed(roomId, name))]
    ensures roomId in rooms && rooms[roomId].admin != ws ==>
      var r, name := rooms[roomId], NameOf(rooms[roomId].peerNames, peerId);
      && roomId in o.rooms
      && o.rooms[roomId] == r.(peers := Without(r.peers, peerId))
      && o.plan == [One(r.admin, ParticipantLeft(peerId, roomId, name)),
                    All(Without(r.peers, peerId), ParticipantLeft(peerId, roomId, name)),
                    All(r.viewers, PeerLeft(peerId, name))]
  {
    if roomId !in rooms then Outcome(rooms, [])
    else
      var r := rooms[roomId];
      var name := NameOf(r.peerNames, peerId);
      if r.admin == ws then
        Outcome(rooms - {roomId},
                [All(r.peers, RoomClosed(roomId, name)), All(r.viewers, RoomClosed(roomId, name))])
      else
        var r' := r.(peers := Without(r.peers, peerId));
        Outcome(rooms[roomId := r'],
                [One(r.admin, ParticipantLeft(peerId, roomId, name)),
                 All(r'.peers, ParticipantLeft(peerId, roomId, name)),
                 All(r.viewers, PeerLeft(peerId, name))])
  }

  /** `join-as-viewer`: register a fresh viewer and send it the room's membership. */
  function JoinAsViewerStep(rooms: map<Id, Room>, ws: ConnId, roomId: Id, freshViewerId: Id): (o: Outcome)
    requires TableWellFormed(rooms)
    requires roomId in rooms ==> rooms[roomId].Unused(freshViewerId)
    ensures TableWellFormed(o.rooms)
    ensures o.rooms - {roomId} == rooms - {roomId}
    ensures roomId !in rooms ==> o == Outcome(rooms, [One(ws, ViewerError(RoomNotFound))])
    ensures roomId in rooms ==>
      var r := rooms[roomId];
      && roomId in o.rooms
      && o.rooms[roomId] == r.(viewers := r.viewers[freshViewerId := ws])
      && o.plan == [Listing(ws, roomId, freshViewerId, r.adminId, r.peers.Keys)]
  {
    if roomId !in rooms then
      Outcome(rooms, [One(ws, ViewerError(RoomNotFound))])
    else
      var r := rooms[roomId];
      Outcome(rooms[roomId := r.(viewers := r.viewers[freshViewerId := ws])],
              [Listing(ws, roomId, freshViewerId, r.adminId, r.peers.Keys)])
  }

  /** `viewer-leave`: forget one viewer, tell nobody. */
  function ViewerLeaveStep(rooms: map<Id, Room>, roomId: Id, viewerId: Id): (o: Outcome)
    requires TableWellFormed(rooms)
    ensures TableWellFormed(o.rooms)
    ensures o.plan == []
    ensures o.rooms - {roomId} == rooms - {roomId}
    ensures roomId in rooms ==>
      roomId in o.rooms && o.rooms[roomId] == rooms[roomId].(viewers := rooms[roomId].viewers - {viewerId})
    ensures roomId !in rooms ==> o.rooms == rooms
  {
    if roomId in rooms then
      Outcome(rooms[roomId := rooms[roomId].(viewers := rooms[roomId].viewers - {viewerId})], [])
    else
      Outcome(rooms, [])
  }

  /** The fresh id a message consumes is unused in the room it names. */
  predicate FreshFor(rooms: map<Id, Room>, msg: ClientMsg, freshId: Id) {
    match msg
    case JoinRoom(roomId, _, _) => roomId in rooms ==> rooms[roomId].Unused(freshId)
    case JoinAsViewer(roomId) => roomId in rooms ==> rooms[roomId].Unused(freshId)
    case _ => true
  }

  /**
   * The whole switch: one message from connection `ws`, with the corrected
   * `create-room`, `accept-peer` and `reject-peer` cases.
   */
  function Step(rooms: map<Id, Room>, ws: ConnId, msg: ClientMsg, freshId: Id, roomCode: string): (o: Outcome)
    requires TableWellFormed(rooms)
    requires FreshFor(rooms, msg, freshId)
    ensures TableWellFormed(o.rooms)
  {
    match msg
    case CreateRoom(roomId, name) => CreateRoomStoringCodeStep(rooms, ws, roomId, name, freshId, roomCode)
    case JoinRoom(roomId, code, name) => JoinRoomStep(rooms, ws, roomId, code, name, freshId)
    case LockRoom(roomId, adminId) => LockRoomStep(rooms, ws, roomId, adminId)
    case UnlockRoom(roomId, adminId) => UnlockRoomStep(rooms, ws, roomId, adminId)
    case AcceptPeer(roomId, targetId) => AdminAcceptPeerStep(rooms, ws, roomId, targetId)
    case RejectPeer(roomId, targetId) => AdminRejectPeerStep(rooms, ws, roomId, targetId)
    case Offer(roomId, targetId, offer, sourceId) =>
      RelayStep(rooms, roomId, targetId, OfferFwd(offer, roomId, targetId, sourceId))
    case Answer(roomId, targetId, sourceId, answer) =>
      RelayStep(rooms, roomId, targetId, AnswerFwd(answer, roomId, sourceId, targetId))
    case IceCandidate(roomId, targetId, sourceId, candidate) =>
      RelayStep(rooms, roomId, targetId, IceCandidateFwd(sourceId, targetId, candidate))
    case LeaveRoom(roomId, peerId) => LeaveRoomStep(rooms, ws, roomId, peerId)
    case JoinAsViewer(roomId) => JoinAsViewerStep(rooms, ws, roomId, freshId)
    case ViewerLeave(roomId, viewerId) => ViewerLeaveStep(rooms, roomId, viewerId)
    case Other(_) => Outcome(rooms, [])
  }
}
