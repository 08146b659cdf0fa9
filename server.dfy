/**
 * The signaling server process: the process-wide `rooms` table and the
 * connections' outgoing messages, updated in place by one handler per
 * message tag.  Each handler is proved to do what the matching function of
 * module Handlers describes; `create-room`, `accept-peer` and
 * `reject-peer` follow the corrected functions (see ServerFindings).
 */
module Server {
  import opened Wire
  import opened Rooms
  import opened Broadcast
  import opened Handlers

  class SignalingServer {
    /** `rooms`: every live room by id. */
    var rooms: map<Id, Room>
    /** Every `send` made so far, in order. */
    var outbox: seq<Envelope>

    ghost predicate Valid()
      reads this
    {
      TableWellFormed(rooms)
    }

    constructor ()
      ensures Valid() && rooms == map[] && outbox == []
    {
      rooms := map[];
      outbox := [];
    }

    /** `ws.send(...)` */
    method Send(to: ConnId, msg: ServerMsg)
      modifies this`outbox
      ensures outbox == old(outbox) + [Envelope(to, msg)]
    {
      outbox := outbox + [Envelope(to, msg)];
    }

    /** `map.forEach(c => c.send(...))` */
    method SendEach(recipients: map<Id, ConnId>, msg: ServerMsg) returns (ghost sent: seq<Envelope>)
      modifies this`outbox
      ensures outbox == old(outbox) + sent
      ensures |sent| == Width(All(recipients, msg)) && Chunk(sent, All(recipients, msg))
    {
      var s := SendToAll(recipients, msg);
      outbox := outbox + s;
      sent := s;
    }

    method CreateRoom(ws: ConnId, roomId: Id, name: string, freshAdminId: Id, roomCode: string)
      requires Valid()
      modifies this
      ensures Valid()
      ensures rooms == CreateRoomStoringCodeStep(old(rooms), ws, roomId, name, freshAdminId, roomCode).rooms
      ensures Appended(old(outbox), outbox, CreateRoomStoringCodeStep(old(rooms), ws, roomId, name, freshAdminId, roomCode).plan)
    {
      ghost var o := CreateRoomStoringCodeStep(rooms, ws, roomId, name, freshAdminId, roomCode);
      ghost var before := outbox;
      var msg: ServerMsg;
      if roomId in rooms {
        var existing := rooms[roomId];
        if existing.isLocked {
          msg := JoinRoomError(LockedByAnotherAdmin);
        } else {
          existing := existing.(admin := ws);
          existing := existing.(isLocked := true);
          existing := existing.(adminName := name);
          existing := existing.(roomCode := roomCode);
          rooms := rooms[roomId := existing];
          msg := RoomCreated(roomId, existing.adminId, roomCode, name);
        }
      } else {
        rooms := rooms[roomId := NewRoom(roomId, freshAdminId, ws, roomCode, name)];
        msg := RoomCreated(roomId, freshAdminId, roomCode, name);
      }
      Send(ws, msg);
      EmitsSingle([Envelope(ws, msg)], One(ws, msg));
      AppendedOf(before, [Envelope(ws, msg)], o.plan);
    }

    method JoinRoom(ws: ConnId, roomId: Id, roomCode: string, name: string, freshPeerId: Id)
      requires Valid()
      requires roomId in rooms ==> rooms[roomId].Unused(freshPeerId)
      modifies this
      ensures Valid()
      ensures rooms == JoinRoomStep(old(rooms), ws, roomId, roomCode, name, freshPeerId).rooms
      ensures Appended(old(outbox), outbox, JoinRoomStep(old(rooms), ws, roomId, roomCode, name, freshPeerId).plan)
    {
      ghost var o := JoinRoomStep(rooms, ws, roomId, roomCode, name, freshPeerId);
      ghost var before := outbox;
      var to: ConnId, msg: ServerMsg;
      if roomId !in rooms {
        to, msg := ws, JoinRoomError(RoomNotFound);
      } else if rooms[roomId].roomCode != roomCode {
        to, msg := ws, JoinRoomError(InvalidRoomCode);
      } else {
        var room := rooms[roomId];
        room := room.(pendingPeers := room.pendingPeers[freshPeerId := ws]);
        room := room.(pendingPeerNames := room.pendingPeerNames[freshPeerId := name]);
        rooms := rooms[roomId := room];
        to, msg := room.admin, ParticipantRequest(freshPeerId, name);
      }
      Send(to, msg);
      EmitsSingle([Envelope(to, msg)], One(to, msg));
      AppendedOf(before, [Envelope(to, msg)], o.plan);
    }

    method LockRoom(ws: ConnId, roomId: Id, adminId: Id)
      requires Valid()
      modifies this
      ensures Valid()
      ensures rooms == LockRoomStep(old(rooms), ws, roomId, adminId).rooms
      ensures Appended(old(outbox), outbox, LockRoomStep(old(rooms), ws, roomId, adminId).plan)
    {
      ghost var before := outbox;
      if roomId in rooms && rooms[roomId].adminId == adminId {
        var room := rooms[roomId];
        room := room.(isLocked := true);
        room := room.(admin := ws);
        rooms := rooms[roomId := room];
        Send(ws, RoomLockedAck);
        EmitsSingle([Envelope(ws, RoomLockedAck)], One(ws, RoomLockedAck));
        AppendedOf(before, [Envelope(ws, RoomLockedAck)], [One(ws, RoomLockedAck)]);
      } else {
        AppendedNothing(before);
      }
    }

    method UnlockRoom(ws: ConnId, roomId: Id, adminId: Id)
      requires Valid()
      modifies this
      ensures Valid()
      ensures rooms == UnlockRoomStep(old(rooms), ws, roomId, adminId).rooms
      ensures Appended(old(outbox), outbox, UnlockRoomStep(old(rooms), ws, roomId, adminId).plan)
    {
      ghost var before := outbox;
      if roomId in rooms && rooms[roomId].adminId == adminId {
        rooms := rooms[roomId := rooms[roomId].(isLocked := false)];
        Send(ws, RoomUnlockedAck);
        EmitsSingle([Envelope(ws, RoomUnlockedAck)], One(ws, RoomUnlockedAck));
        AppendedOf(before, [Envelope(ws, RoomUnlockedAck)], [One(ws, RoomUnlockedAck)]);
      } else {
        AppendedNothing(before);
      }
    }

    method AcceptPeer(ws: ConnId, roomId: Id, targetId: Id)
      requires Valid()
      modifies this
      ensures Valid()
      ensures rooms == AdminAcceptPeerStep(old(rooms), ws, roomId, targetId).rooms
      ensures Appended(old(outbox), outbox, AdminAcceptPeerStep(old(rooms), ws, roomId, targetId).plan)
    {
      ghost var o := AdminAcceptPeerStep(rooms, ws, roomId, targetId);
      ghost var before := outbox;
      if roomId in rooms && ws == rooms[roomId].admin && targetId in rooms[roomId].pendingPeers {
        var room := rooms[roomId];
        var peer := room.pendingPeers[targetId];
        var peerName := room.pendingPeerNames[targetId];
        room := room.(peers := room.peers[targetId := peer]);
        room := room.(peerNames := room.peerNames[targetId := peerName]);
        room := room.(pendingPeers := room.pendingPeers - {targetId});
        room := room.(pendingPeerNames := room.pendingPeerNames - {targetId});
        rooms := rooms[roomId := room];
        assert rooms == o.rooms;

        var e1 := One(peer, JoinAccepted(targetId, roomId, peerName));
        var e2 := All(room.peers - {targetId}, ParticipantJoined(targetId, roomId, peerName));
        var e3 := All(room.viewers, PeerJoined(roomId, targetId, peerName));
        var e4 := One(ws, AcceptPeerSuccess(targetId, roomId, peerName));
        assert o.plan == [e1, e2, e3, e4];
        Send(peer, e1.msg);
        ghost var s2 := SendEach(room.peers - {targetId}, e2.msg);
        ghost var s3 := SendEach(room.viewers, e3.msg);
        Send(ws, e4.msg);
        ghost var sent := [Envelope(peer, e1.msg)] + s2 + s3 + [Envelope(ws, e4.msg)];
        Assoc4(before, [Envelope(peer, e1.msg)], s2, s3, [Envelope(ws, e4.msg)]);
        Emits4([Envelope(peer, e1.msg)], e1, s2, e2, s3, e3, [Envelope(ws, e4.msg)], e4);
        AppendedOf(before, sent, [e1, e2, e3, e4]);
      } else {
        AppendedNothing(before);
      }
    }

    method RejectPeer(ws: ConnId, roomId: Id, targetId: Id)
      requires Valid()
      modifies this
      ensures Valid()
      ensures rooms == AdminRejectPeerStep(old(rooms), ws, roomId, targetId).rooms
      ensures Appended(old(outbox), outbox, AdminRejectPeerStep(old(rooms), ws, roomId, targetId).plan)
    {
      ghost var o := AdminRejectPeerStep(rooms, ws, roomId, targetId);
      ghost var before := outbox;
      if roomId in rooms && ws == rooms[roomId].admin && targetId in rooms[roomId].pendingPeers {
        var room := rooms[roomId];
        var peer := room.pendingPeers[targetId];
        rooms := rooms[roomId := room.(pendingPeers := room.pendingPeers - {targetId})];
        Send(peer, JoinRejected);
        Send(ws, RejectPeerSuccess(targetId));
        Emits2([Envelope(peer, JoinRejected)], One(peer, JoinRejected),
               [Envelope(ws, RejectPeerSuccess(targetId))], One(ws, RejectPeerSuccess(targetId)));
        assert outbox == before + ([Envelope(peer, JoinRejected)] + [Envelope(ws, RejectPeerSuccess(targetId))]);
        AppendedOf(before, [Envelope(peer, JoinRejected)] + [Envelope(ws, RejectPeerSuccess(targetId))], o.plan);
      } else {
        AppendedNothing(before);
      }
    }

    /** The body shared by the `offer`, `answer` and `ice-candidate` cases. */
    method Relay(roomId: Id, targetId: Id, fwd: ServerMsg)
      requires Valid()
      modifies this
      ensures Valid()
      ensures rooms == old(rooms)
      ensures Appended(old(outbox), outbox, RelayStep(old(rooms), roomId, targetId, fwd).plan)
    {
      ghost var before := outbox;
      if roomId !in rooms {
        AppendedNothing(before);
        return;
      }
      var room := rooms[roomId];
      var socketTo: Option<ConnId> := None;
      if targetId == room.adminId {
        socketTo := Some(room.admin);
      } else if targetId in room.peers {
        socketTo := Some(room.peers[targetId]);
      } else if targetId in room.viewers {
        socketTo := Some(room.viewers[targetId]);
      }
      if socketTo.Some? {
        Send(socketTo.value, fwd);
        EmitsSingle([Envelope(socketTo.value, fwd)], One(socketTo.value, fwd));
        AppendedOf(before, [Envelope(socketTo.value, fwd)], [One(socketTo.value, fwd)]);
      } else {
        AppendedNothing(before);
      }
    }

    method LeaveRoom(ws: ConnId, roomId: Id, peerId: Option<Id>)
      requires Valid()
      modifies this
      ensures Valid()
      ensures rooms == LeaveRoomStep(old(rooms), ws, roomId, peerId).rooms
      ensures Appended(old(outbox), outbox, LeaveRoomStep(old(rooms), ws, roomId, peerId).plan)
    {
      if roomId !in rooms {
        AppendedNothing(outbox);
        return;
      }
      var room := rooms[roomId];
      var peerName := NameOf(room.peerNames, peerId);
      if room.admin == ws {
        CloseRoom(roomId, peerName);
      } else {
        DepartPeer(roomId, peerId, peerName);
      }
    }

    /** The admin's branch of `leave-room`: tell every peer and viewer, then delete the room. */
    method CloseRoom(roomId: Id, peerName: Option<string>)
      requires Valid() && roomId in rooms
      modifies this
      ensures Valid()
      ensures rooms == old(rooms) - {roomId}
      ensures Appended(old(outbox), outbox,
                       [All(old(rooms)[roomId].peers, RoomClosed(roomId, peerName)),
                        All(old(rooms)[roomId].viewers, RoomClosed(roomId, peerName))])
    {
      ghost var before := outbox;
      var room := rooms[roomId];
      var e1 := All(room.peers, RoomClosed(roomId, peerName));
      var e2 := All(room.viewers, RoomClosed(roomId, peerName));
      ghost var s1 := SendEach(room.peers, e1.msg);
      ghost var s2 := SendEach(room.viewers, e2.msg);
      rooms := rooms - {roomId};
      Assoc2(before, s1, s2);
      Emits2(s1, e1, s2, e2);
      AppendedOf(before, s1 + s2, [e1, e2]);
    }

    /** The other branch of `leave-room`: drop `peerId` and tell the admin, the peers and the viewers. */
    method DepartPeer(roomId: Id, peerId: Option<Id>, peerName: Option<string>)
      requires Valid() && roomId in rooms
      modifies this
      ensures Valid()
      ensures var r := old(rooms)[roomId];
        && rooms == old(rooms)[roomId := r.(peers := Without(r.peers, peerId))]
        && Appended(old(outbox), outbox,
                    [One(r.admin, ParticipantLeft(peerId, roomId, peerName)),
                     All(Without(r.peers, peerId), ParticipantLeft(peerId, roomId, peerName)),
                     All(r.viewers, PeerLeft(peerId, peerName))])
    {
      ghost var before := outbox;
      var room := rooms[roomId];
      room := room.(peers := Without(room.peers, peerId));
      StoreKeepsTable(rooms, roomId, room);
      rooms := rooms[roomId := room];
      var e1 := One(room.admin, ParticipantLeft(peerId, roomId, peerName));
      var e2 := All(room.peers, ParticipantLeft(peerId, roomId, peerName));
      var e3 := All(room.viewers, PeerLeft(peerId, peerName));
      Send(room.admin, e1.msg);
      ghost var s2 := SendEach(room.peers, e2.msg);
      ghost var s3 := SendEach(room.viewers, e3.msg);
      ghost var sent := [Envelope(room.admin, e1.msg)] + s2 + s3;
      Assoc3(before, [Envelope(room.admin, e1.msg)], s2, s3);
      Emits3([Envelope(room.admin, e1.msg)], e1, s2, e2, s3, e3);
      AppendedOf(before, sent, [e1, e2, e3]);
    }

    method JoinAsViewer(ws: ConnId, roomId: Id, freshViewerId: Id)
      requires Valid()
      requires roomId in rooms ==> rooms[roomId].Unused(freshViewerId)
      modifies this
      ensures Valid()
      ensures rooms == JoinAsViewerStep(old(rooms), ws, roomId, freshViewerId).rooms
      ensures Appended(old(outbox), outbox, JoinAsViewerStep(old(rooms), ws, roomId, freshViewerId).plan)
    {
      ghost var o := JoinAsViewerStep(rooms, ws, roomId, freshViewerId);
      ghost var before := outbox;
      if roomId !in rooms {
        Send(ws, ViewerError(RoomNotFound));
        EmitsSingle([Envelope(ws, ViewerError(RoomNotFound))], One(ws, ViewerError(RoomNotFound)));
        AppendedOf(before, [Envelope(ws, ViewerError(RoomNotFound))], o.plan);
        return;
      }
      var room := rooms[roomId];
      room := room.(viewers := room.viewers[freshViewerId := ws]);
      rooms := rooms[roomId := room];
      var peerIds := KeyList(room.peers);
      var info := RoomInfo(roomId, freshViewerId, [room.adminId] + peerIds);
      Send(ws, info);
      assert info.peers[1..] == peerIds;
      EmitsSingle([Envelope(ws, info)], o.plan[0]);
      AppendedOf(before, [Envelope(ws, info)], o.plan);
    }

    method ViewerLeave(roomId: Id, viewerId: Id)
      requires Valid()
      modifies this
      ensures Valid()
      ensures rooms == ViewerLeaveStep(old(rooms), roomId, viewerId).rooms
      ensures outbox == old(outbox)
    {
      if roomId in rooms {
        var room := rooms[roomId];
        rooms := rooms[roomId := room.(viewers := room.viewers - {viewerId})];
      }
    }

    /**
     * The message handler: one message `msg` arriving on connection `ws`.
     * `freshId` is what `uuidv4()` returns and `roomCode` what
     * `generateRoomCode()` returns, should the case call them.
     */
    method HandleMessage(ws: ConnId, msg: ClientMsg, freshId: Id, roomCode: string)
      requires Valid()
      requires FreshFor(rooms, msg, freshId)
      modifies this
      ensures Valid()
      ensures rooms == Step(old(rooms), ws, msg, freshId, roomCode).rooms
      ensures Appended(old(outbox), outbox, Step(old(rooms), ws, msg, freshId, roomCode).plan)
    {
      match msg
      case CreateRoom(roomId, name) => CreateRoom(ws, roomId, name, freshId, roomCode);
      case JoinRoom(roomId, code, name) => JoinRoom(ws, roomId, code, name, freshId);
      case LockRoom(roomId, adminId) => LockRoom(ws, roomId, adminId);
      case UnlockRoom(roomId, adminId) => UnlockRoom(ws, roomId, adminId);
      case AcceptPeer(roomId, targetId) => AcceptPeer(ws, roomId, targetId);
      case RejectPeer(roomId, targetId) => RejectPeer(ws, roomId, targetId);
      case Offer(roomId, targetId, offer, sourceId) =>
        Relay(roomId, targetId, OfferFwd(offer, roomId, targetId, sourceId));
      case Answer(roomId, targetId, sourceId, answer) =>
        Relay(roomId, targetId, AnswerFwd(answer, roomId, sourceId, targetId));
      case IceCandidate(roomId, targetId, sourceId, candidate) =>
        Relay(roomId, targetId, IceCandidateFwd(sourceId, targetId, candidate));
      case LeaveRoom(roomId, peerId) => LeaveRoom(ws, roomId, peerId);
      case JoinAsViewer(roomId) => JoinAsViewer(ws, roomId, freshId);
      case ViewerLeave(roomId, viewerId) =>
        ViewerLeave(roomId, viewerId);
        AppendedNothing(outbox);
      case Other(_) =>
        AppendedNothing(outbox);
    }
  }
}
