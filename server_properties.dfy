/**
 * What the signaling server's handlers guarantee beyond one case at a time:
 * the messages a relay or a leave actually produces, idempotence of the
 * admin's decisions, the viewer snapshot, and the end-to-end join scenarios.
 * Every lemma is about the Handlers functions, which the SignalingServer
 * methods are proved to implement.
 */
module ServerProperties {
  import opened Wire
  import opened Rooms
  import opened Broadcast
  import opened Handlers

  /** A second `accept-peer` for the same target does nothing and sends nothing. */
  lemma AcceptTwiceIsNoop(rooms: map<Id, Room>, ws: ConnId, ws': ConnId, roomId: Id, targetId: Id)
    requires TableWellFormed(rooms)
    ensures var o := AcceptPeerStep(rooms, ws, roomId, targetId);
            AcceptPeerStep(o.rooms, ws', roomId, targetId) == Outcome(o.rooms, [])
  {
  }

  /**
   * The corrected `accept-peer` sent twice from the same connection: the
   * second does nothing and sends nothing, whether or not the first was
   * honoured.
   */
  lemma AdminAcceptTwiceIsNoop(rooms: map<Id, Room>, ws: ConnId, roomId: Id, targetId: Id)
    requires TableWellFormed(rooms)
    ensures var o := AdminAcceptPeerStep(rooms, ws, roomId, targetId);
            AdminAcceptPeerStep(o.rooms, ws, roomId, targetId) == Outcome(o.rooms, [])
  {
  }

  /** A second `reject-peer` for the same target does nothing and sends nothing. */
  lemma RejectTwiceIsNoop(rooms: map<Id, Room>, ws: ConnId, ws': ConnId, roomId: Id, targetId: Id)
    requires TableWellFormed(rooms)
    ensures var o := RejectPeerStep(rooms, ws, roomId, targetId);
            RejectPeerStep(o.rooms, ws', roomId, targetId) == Outcome(o.rooms, [])
  {
  }

  /**
   * The corrected `reject-peer` sent twice from the same connection: the
   * second does nothing and sends nothing, whether or not the first was
   * honoured.
   */
  lemma AdminRejectTwiceIsNoop(rooms: map<Id, Room>, ws: ConnId, roomId: Id, targetId: Id)
    requires TableWellFormed(rooms)
    ensures var o := AdminRejectPeerStep(rooms, ws, roomId, targetId);
            AdminRejectPeerStep(o.rooms, ws, roomId, targetId) == Outcome(o.rooms, [])
  {
  }

  /**
   * A message naming a room that does not exist changes no room and at most
   * answers the sender with "Room not found".
   */
  lemma UnknownRoomChangesNothing(rooms: map<Id, Room>, ws: ConnId, msg: ClientMsg, freshId: Id, roomCode: string)
    requires TableWellFormed(rooms) && FreshFor(rooms, msg, freshId)
    requires !msg.CreateRoom? && !msg.Other? && msg.roomId !in rooms
    ensures var o := Step(rooms, ws, msg, freshId, roomCode);
      && o.rooms == rooms
      && (o.plan == [] || o.plan == [One(ws, JoinRoomError(RoomNotFound))]
          || o.plan == [One(ws, ViewerError(RoomNotFound))])
  {
  }

  /**
   * `offer`, `answer` and `ice-candidate`: nothing in the table changes, and
   * exactly one message goes out when the target resolves (none otherwise),
   * to the resolved connection, carrying the payload unchanged.  The
   * forwarded ice candidate has no room id.
   */
  lemma RelayForwardsOnce(rooms: map<Id, Room>, ws: ConnId, msg: ClientMsg, freshId: Id, roomCode: string,
                          out: seq<Envelope>)
    requires TableWellFormed(rooms)
    requires msg.Offer? || msg.Answer? || msg.IceCandidate?
    requires Emits(out, Step(rooms, ws, msg, freshId, roomCode).plan)
    ensures Step(rooms, ws, msg, freshId, roomCode).rooms == rooms
    ensures |out| <= 1
    ensures |out| == 1 <==> msg.roomId in rooms && Resolve(rooms[msg.roomId], msg.targetId).Some?
    ensures |out| == 1 ==> out[0].to == Resolve(rooms[msg.roomId], msg.targetId).value
    ensures |out| == 1 && msg.Offer? ==>
      out[0].msg == OfferFwd(msg.offer, msg.roomId, msg.targetId, msg.sourceId)
    ensures |out| == 1 && msg.Answer? ==>
      out[0].msg == AnswerFwd(msg.answer, msg.roomId, msg.sourceId, msg.targetId)
    ensures |out| == 1 && msg.IceCandidate? ==>
      out[0].msg == IceCandidateFwd(msg.sourceId, msg.targetId, msg.candidate)
  {
    var plan := Step(rooms, ws, msg, freshId, roomCode).plan;
    if plan != [] {
      assert out[1..] == [];
    }
  }

  /**
   * `leave-room` from the admin connection deletes the room and sends
   * `room-closed` once for every peer entry and every viewer entry, and to
   * no other connection (so a pending peer is told nothing).
   */
  lemma AdminLeaveClosesRoom(rooms: map<Id, Room>, ws: ConnId, roomId: Id, peerId: Option<Id>, out: seq<Envelope>)
    requires TableWellFormed(rooms) && roomId in rooms && rooms[roomId].admin == ws
    requires Emits(out, LeaveRoomStep(rooms, ws, roomId, peerId).plan)
    ensures LeaveRoomStep(rooms, ws, roomId, peerId).rooms == rooms - {roomId}
    ensures |out| == |rooms[roomId].peers| + |rooms[roomId].viewers|
    ensures forall e :: e in out ==>
      && e.msg == RoomClosed(roomId, NameOf(rooms[roomId].peerNames, peerId))
      && (e.to in rooms[roomId].peers.Values || e.to in rooms[roomId].viewers.Values)
    ensures forall c :: multiset(out)[Envelope(c, RoomClosed(roomId, NameOf(rooms[roomId].peerNames, peerId)))]
                        == |IdsOn(rooms[roomId].peers, c)| + |IdsOn(rooms[roomId].viewers, c)|
  {
    var r := rooms[roomId];
    var m := RoomClosed(roomId, NameOf(r.peerNames, peerId));
    var plan := LeaveRoomStep(rooms, ws, roomId, peerId).plan;
    assert plan == [All(r.peers, m), All(r.viewers, m)];
    Sent2(All(r.peers, m), All(r.viewers, m));
    EmitsSent(out, plan);
    FanoutSize(r.peers, m);
    FanoutSize(r.viewers, m);
    assert |out| == |multiset(out)|;
    forall e | e in out
      ensures e.msg == m && (e.to in r.peers.Values || e.to in r.viewers.Values)
    {
      assert e in multiset(out);
      if e in Fanout(r.peers, m) {
        FanoutShape(r.peers, m, e);
      } else {
        FanoutShape(r.viewers, m, e);
      }
    }
    forall c
      ensures multiset(out)[Envelope(c, m)] == |IdsOn(r.peers, c)| + |IdsOn(r.viewers, c)|
    {
      FanoutCount(r.peers, m, c);
      FanoutCount(r.viewers, m, c);
    }
  }

  /** The envelopes a non-admin `leave-room` sends, as a bag. */
  lemma PeerLeaveBag(rooms: map<Id, Room>, ws: ConnId, roomId: Id, peerId: Option<Id>, out: seq<Envelope>)
    requires TableWellFormed(rooms) && roomId in rooms && rooms[roomId].admin != ws
    requires Emits(out, LeaveRoomStep(rooms, ws, roomId, peerId).plan)
    ensures var r := rooms[roomId];
            var name := NameOf(r.peerNames, peerId);
      multiset(out) == multiset{Envelope(r.admin, ParticipantLeft(peerId, roomId, name))}
                       + Fanout(Without(r.peers, peerId), ParticipantLeft(peerId, roomId, name))
                       + Fanout(r.viewers, PeerLeft(peerId, name))
  {
    var r := rooms[roomId];
    var name := NameOf(r.peerNames, peerId);
    var e1 := One(r.admin, ParticipantLeft(peerId, roomId, name));
    var e2 := All(Without(r.peers, peerId), ParticipantLeft(peerId, roomId, name));
    var e3 := All(r.viewers, PeerLeft(peerId, name));
    assert LeaveRoomStep(rooms, ws, roomId, peerId).plan == [e1, e2, e3];
    Sent3(e1, e2, e3);
    EmitsSent(out, [e1, e2, e3]);
  }

  /**
   * `leave-room` from any other connection removes that peer id and sends
   * `participant-left` to the admin and once per remaining peer entry, and
   * `peer-left` once per viewer entry; nothing else is sent.
   */
  lemma PeerLeaveNotifies(rooms: map<Id, Room>, ws: ConnId, roomId: Id, peerId: Option<Id>, out: seq<Envelope>)
    requires TableWellFormed(rooms) && roomId in rooms && rooms[roomId].admin != ws
    requires Emits(out, LeaveRoomStep(rooms, ws, roomId, peerId).plan)
    ensures |out| == 1 + |Without(rooms[roomId].peers, peerId)| + |rooms[roomId].viewers|
    ensures var r := rooms[roomId];
            var name := NameOf(r.peerNames, peerId);
      forall e :: e in out ==>
        || (e.msg == ParticipantLeft(peerId, roomId, name)
            && (e.to == r.admin || e.to in Without(r.peers, peerId).Values))
        || (e.msg == PeerLeft(peerId, name) && e.to in r.viewers.Values)
    ensures var r := rooms[roomId];
            var name := NameOf(r.peerNames, peerId);
      && Envelope(r.admin, ParticipantLeft(peerId, roomId, name)) in out
      && forall c :: multiset(out)[Envelope(c, PeerLeft(peerId, name))] == |IdsOn(r.viewers, c)|
  {
    var r := rooms[roomId];
    var name := NameOf(r.peerNames, peerId);
    PeerLeaveBag(rooms, ws, roomId, peerId, out);
    DepartureShape(out, r.admin, Without(r.peers, peerId), r.viewers,
                   ParticipantLeft(peerId, roomId, name), PeerLeft(peerId, name));
  }

  /**
   * The counting behind PeerLeaveNotifies: `left` once to the admin and once
   * per remaining peer, `gone` once per viewer.
   */
  lemma DepartureShape(out: seq<Envelope>, admin: ConnId, rest: map<Id, ConnId>, viewers: map<Id, ConnId>,
                       left: ServerMsg, gone: ServerMsg)
    requires left != gone
    requires multiset(out) == multiset{Envelope(admin, left)} + Fanout(rest, left) + Fanout(viewers, gone)
    ensures |out| == 1 + |rest| + |viewers|
    ensures forall e :: e in out ==>
      || (e.msg == left && (e.to == admin || e.to in rest.Values))
      || (e.msg == gone && e.to in viewers.Values)
    ensures Envelope(admin, left) in out
    ensures forall c :: multiset(out)[Envelope(c, gone)] == |IdsOn(viewers, c)|
  {
    FanoutSize(rest, left);
    FanoutSize(viewers, gone);
    assert |out| == |multiset(out)|;
    assert Envelope(admin, left) in multiset(out);
    forall e | e in out
      ensures || (e.msg == left && (e.to == admin || e.to in rest.Values))
              || (e.msg == gone && e.to in viewers.Values)
    {
      assert e in multiset(out);
      if e in Fanout(rest, left) {
        FanoutShape(rest, left, e);
      } else if e in Fanout(viewers, gone) {
        FanoutShape(viewers, gone, e);
      }
    }
    forall c
      ensures multiset(out)[Envelope(c, gone)] == |IdsOn(viewers, c)|
    {
      FanoutCount(viewers, gone, c);
      FanoutMiss(rest, left, Envelope(c, gone));
    }
  }

  /** The envelopes a successful `accept-peer` sends, as a bag. */
  lemma AcceptBag(rooms: map<Id, Room>, ws: ConnId, roomId: Id, targetId: Id, out: seq<Envelope>)
    requires TableWellFormed(rooms) && IsPending(rooms, roomId, targetId)
    requires Emits(out, AcceptPeerStep(rooms, ws, roomId, targetId).plan)
    ensures var r := rooms[roomId];
            var name := r.pendingPeerNames[targetId];
      && out[0] == Envelope(r.pendingPeers[targetId], JoinAccepted(targetId, roomId, name))
      && multiset(out) == multiset{Envelope(r.pendingPeers[targetId], JoinAccepted(targetId, roomId, name))}
                          + Fanout(r.peers, ParticipantJoined(targetId, roomId, name))
                          + Fanout(r.viewers, PeerJoined(roomId, targetId, name))
                          + multiset{Envelope(ws, AcceptPeerSuccess(targetId, roomId, name))}
  {
    var r := rooms[roomId];
    var name := r.pendingPeerNames[targetId];
    var e1 := One(r.pendingPeers[targetId], JoinAccepted(targetId, roomId, name));
    var e2 := All(r.peers, ParticipantJoined(targetId, roomId, name));
    var e3 := All(r.viewers, PeerJoined(roomId, targetId, name));
    var e4 := One(ws, AcceptPeerSuccess(targetId, roomId, name));
    assert AcceptPeerStep(rooms, ws, roomId, targetId).plan == [e1, e2, e3, e4];
    Sent4(e1, e2, e3, e4);
    EmitsSent(out, [e1, e2, e3, e4]);
    assert out[..1] == [out[0]];
  }

  /**
   * A successful `accept-peer` sends `join-accepted` first, to the accepted
   * connection; `participant-joined` once per peer already admitted (the
   * accepted id is never one of them); `peer-joined` once per viewer; and
   * `accept-peer-success` to the sender.  Nothing else is sent.
   */
  lemma AcceptNotifies(rooms: map<Id, Room>, ws: ConnId, roomId: Id, targetId: Id, out: seq<Envelope>)
    requires TableWellFormed(rooms) && IsPending(rooms, roomId, targetId)
    requires Emits(out, AcceptPeerStep(rooms, ws, roomId, targetId).plan)
    ensures targetId !in rooms[roomId].peers
    ensures |out| == 2 + |rooms[roomId].peers| + |rooms[roomId].viewers|
    ensures var r := rooms[roomId];
            var name := r.pendingPeerNames[targetId];
      && out[0] == Envelope(r.pendingPeers[targetId], JoinAccepted(targetId, roomId, name))
      && Envelope(ws, AcceptPeerSuccess(targetId, roomId, name)) in out
      && (forall c :: multiset(out)[Envelope(c, ParticipantJoined(targetId, roomId, name))] == |IdsOn(r.peers, c)|)
      && (forall c :: multiset(out)[Envelope(c, PeerJoined(roomId, targetId, name))] == |IdsOn(r.viewers, c)|)
  {
    var r := rooms[roomId];
    var name := r.pendingPeerNames[targetId];
    AcceptBag(rooms, ws, roomId, targetId, out);
    AdmissionShape(out, r.pendingPeers[targetId], ws, r.peers, r.viewers,
                   JoinAccepted(targetId, roomId, name), ParticipantJoined(targetId, roomId, name),
                   PeerJoined(roomId, targetId, name), AcceptPeerSuccess(targetId, roomId, name));
  }

  /** The counting behind AcceptNotifies. */
  lemma AdmissionShape(out: seq<Envelope>, peer: ConnId, ws: ConnId, peers: map<Id, ConnId>, viewers: map<Id, ConnId>,
                       accepted: ServerMsg, joined: ServerMsg, seen: ServerMsg, success: ServerMsg)
    requires accepted != joined && accepted != seen && joined != seen && joined != success && seen != success
    requires multiset(out) == multiset{Envelope(peer, accepted)} + Fanout(peers, joined)
                              + Fanout(viewers, seen) + multiset{Envelope(ws, success)}
    ensures |out| == 2 + |peers| + |viewers|
    ensures Envelope(ws, success) in out
    ensures forall c :: multiset(out)[Envelope(c, joined)] == |IdsOn(peers, c)|
    ensures forall c :: multiset(out)[Envelope(c, seen)] == |IdsOn(viewers, c)|
  {
    FanoutSize(peers, joined);
    FanoutSize(viewers, seen);
    assert |out| == |multiset(out)|;
    assert Envelope(ws, success) in multiset(out);
    forall c
      ensures multiset(out)[Envelope(c, joined)] == |IdsOn(peers, c)|
      ensures multiset(out)[Envelope(c, seen)] == |IdsOn(viewers, c)|
    {
      FanoutCount(peers, joined, c);
      FanoutCount(viewers, seen, c);
      FanoutMiss(peers, joined, Envelope(c, seen));
      FanoutMiss(viewers, seen, Envelope(c, joined));
    }
  }

  /**
   * `join-as-viewer` on a live room answers the new viewer alone with one
   * `room-info`: the admin id first, then every admitted peer id exactly
   * once, so the list has no repeats and one entry per member.
   */
  lemma ViewerSnapshot(rooms: map<Id, Room>, ws: ConnId, roomId: Id, freshViewerId: Id, out: seq<Envelope>)
    requires TableWellFormed(rooms) && roomId in rooms && rooms[roomId].Unused(freshViewerId)
    requires Emits(out, JoinAsViewerStep(rooms, ws, roomId, freshViewerId).plan)
    ensures |out| == 1 && out[0].to == ws
    ensures out[0].msg.RoomInfo? && out[0].msg.roomId == roomId && out[0].msg.viewerId == freshViewerId
    ensures var ids := out[0].msg.peers;
      && |ids| == 1 + |rooms[roomId].peers|
      && ids[0] == rooms[roomId].adminId
      && (forall x :: x in ids[1..] <==> x in rooms[roomId].peers)
      && (forall i, j :: 0 <= i < j < |ids| ==> ids[i] != ids[j])
  {
    var r := rooms[roomId];
    var e := Listing(ws, roomId, freshViewerId, r.adminId, r.peers.Keys);
    assert JoinAsViewerStep(rooms, ws, roomId, freshViewerId).plan == [e];
    assert [e][1..] == [];
    var ids := out[0].msg.peers;
    EnumeratesSize(ids[1..], r.peers.Keys);
    forall i, j | 0 <= i < j < |ids|
      ensures ids[i] != ids[j]
    {
      assert ids[j] == ids[1..][j - 1];
      if i > 0 {
        assert ids[i] == ids[1..][i - 1];
      }
    }
  }

  /** A fanout of `msg` holds no envelope with another message. */
  lemma FanoutMiss(m: map<Id, ConnId>, msg: ServerMsg, e: Envelope)
    requires e.msg != msg
    ensures Fanout(m, msg)[e] == 0
  {
    if e in Fanout(m, msg) {
      FanoutShape(m, msg, e);
    }
  }
}
