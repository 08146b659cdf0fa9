/**
 * Three behaviours of the signaling server that contradict what the server's
 * own messages promise: the code in `room-created` should admit a joiner,
 * and `participant-request` goes to the admin alone, so only the admin
 * should decide on a pending peer.  Each is shown on the as-written handler
 * (CreateRoomStep, AcceptPeerStep, RejectPeerStep), and the promised
 * property is proved of the corrected one (CreateRoomStoringCodeStep,
 * AdminAcceptPeerStep, AdminRejectPeerStep) that Handlers.Step uses.
 */
module ServerFindings {
  import opened Wire
  import opened Rooms
  import opened Broadcast
  import opened Handlers

  /**
   * As written: taking over an unlocked room answers with the freshly
   * generated code but keeps the old one stored, so a participant who joins
   * with the advertised code is turned away.
   */
  lemma TakeoverAdvertisesUnusableCode(rooms: map<Id, Room>, ws: ConnId, roomId: Id, name: string,
                                       freshAdminId: Id, code: string,
                                       wsP: ConnId, nameP: string, freshPeerId: Id)
    requires TableWellFormed(rooms) && roomId in rooms && !rooms[roomId].isLocked
    requires code != rooms[roomId].roomCode && rooms[roomId].Unused(freshPeerId)
    ensures var o := CreateRoomStep(rooms, ws, roomId, name, freshAdminId, code);
      && o.plan == [One(ws, RoomCreated(roomId, rooms[roomId].adminId, code, name))]
      && JoinRoomStep(o.rooms, wsP, roomId, code, nameP, freshPeerId).plan == [One(wsP, JoinRoomError(InvalidRoomCode))]
  {
  }

  /**
   * With the correction, whenever `room-created` goes out, a `join-room`
   * carrying the advertised code reaches the admin as a `participant-request`.
   */
  lemma AdvertisedCodeAdmits(rooms: map<Id, Room>, ws: ConnId, roomId: Id, name: string,
                             freshAdminId: Id, code: string,
                             wsP: ConnId, nameP: string, freshPeerId: Id)
    requires TableWellFormed(rooms) && freshPeerId != freshAdminId
    requires roomId in rooms ==> rooms[roomId].Unused(freshPeerId)
    ensures var o := CreateRoomStoringCodeStep(rooms, ws, roomId, name, freshAdminId, code);
      o.plan[0].msg.RoomCreated? ==>
        && o.rooms[roomId].Unused(freshPeerId)
        && JoinRoomStep(o.rooms, wsP, roomId, o.plan[0].msg.roomCode, nameP, freshPeerId).plan
           == [One(ws, ParticipantRequest(freshPeerId, nameP))]
  {
  }

  /**
   * As written: `accept-peer` never compares the sender with the admin
   * connection, so a pending participant can admit itself.
   */
  lemma PendingPeerAdmitsItself(rooms: map<Id, Room>, roomId: Id, targetId: Id)
    requires TableWellFormed(rooms) && IsPending(rooms, roomId, targetId)
    requires rooms[roomId].pendingPeers[targetId] != rooms[roomId].admin
    ensures var o := AcceptPeerStep(rooms, rooms[roomId].pendingPeers[targetId], roomId, targetId);
      roomId in o.rooms && targetId in o.rooms[roomId].peers
  {
  }

  /**
   * With the correction, an id becomes an admitted peer only through the
   * admin connection, and only the id that was asked for.
   */
  lemma OnlyAdminAdmits(rooms: map<Id, Room>, ws: ConnId, roomId: Id, targetId: Id, id: Id)
    requires TableWellFormed(rooms) && roomId in rooms && id !in rooms[roomId].peers
    ensures var o := AdminAcceptPeerStep(rooms, ws, roomId, targetId);
      roomId in o.rooms && id in o.rooms[roomId].peers ==> ws == rooms[roomId].admin && id == targetId
  {
  }

  /**
   * As written: `reject-peer` never compares the sender with the admin
   * connection either, so any connection that knows a pending id can turn
   * that participant away.
   */
  lemma AnyoneRejectsPending(rooms: map<Id, Room>, ws: ConnId, roomId: Id, targetId: Id)
    requires TableWellFormed(rooms) && IsPending(rooms, roomId, targetId)
    requires ws != rooms[roomId].admin
    ensures var o := RejectPeerStep(rooms, ws, roomId, targetId);
      && roomId in o.rooms && targetId !in o.rooms[roomId].pendingPeers
      && o.plan[0] == One(rooms[roomId].pendingPeers[targetId], JoinRejected)
  {
  }

  /**
   * With the correction, a pending peer leaves the queue by rejection only
   * through the admin connection, and only the id named.
   */
  lemma OnlyAdminRejects(rooms: map<Id, Room>, ws: ConnId, roomId: Id, targetId: Id, id: Id)
    requires TableWellFormed(rooms) && roomId in rooms && id in rooms[roomId].pendingPeers
    ensures var o := AdminRejectPeerStep(rooms, ws, roomId, targetId);
      roomId in o.rooms && id !in o.rooms[roomId].pendingPeers ==> ws == rooms[roomId].admin && id == targetId
  {
  }
}
