/**
 * End-to-end traces of the signaling server on room "alpha": an admin A
 * creates it, a peer P asks to join and is admitted, a viewer V subscribes,
 * and P leaves.  Connections, ids, names and the room code are arbitrary.
 */
module Scenarios {
  import opened Wire
  import opened Rooms
  import opened Broadcast
  import opened Handlers

  const Alpha: Id := "alpha"

  /** The table after A creates "alpha" and P, having asked with the right code, is accepted. */
  ghost function AlphaWithPeer(wsA: ConnId, wsP: ConnId, idA: Id, idP: Id, code: string,
                               nameA: string, nameP: string): (rooms: map<Id, Room>)
    requires idA != idP
    ensures TableWellFormed(rooms) && Alpha in rooms
    ensures var r := rooms[Alpha];
      && r.adminId == idA && r.admin == wsA && r.roomCode == code
      && r.peers == map[idP := wsP] && r.pendingPeers == map[] && r.viewers == map[]
      && idP in r.peerNames && r.peerNames[idP] == nameP
  {
    var o1 := CreateRoomStoringCodeStep(map[], wsA, Alpha, nameA, idA, code);
    var o2 := JoinRoomStep(o1.rooms, wsP, Alpha, code, nameP, idP);
    AdminAcceptPeerStep(o2.rooms, wsA, Alpha, idP).rooms
  }

  /**
   * Scenario A: the admin hears of P's request; on acceptance P receives
   * `join-accepted` with its id and the admin `accept-peer-success`, and
   * nobody else hears anything (there are no other peers or viewers yet).
   */
  lemma ScenarioA(wsA: ConnId, wsP: ConnId, idA: Id, idP: Id, code: string, nameA: string, nameP: string,
                  out: seq<Envelope>)
    requires idA != idP
    ensures var o1 := CreateRoomStoringCodeStep(map[], wsA, Alpha, nameA, idA, code);
            var o2 := JoinRoomStep(o1.rooms, wsP, Alpha, code, nameP, idP);
            var o3 := AdminAcceptPeerStep(o2.rooms, wsA, Alpha, idP);
      && o1.plan == [One(wsA, RoomCreated(Alpha, idA, code, nameA))]
      && o2.plan == [One(wsA, ParticipantRequest(idP, nameP))]
      && (Emits(out, o3.plan) ==>
            out == [Envelope(wsP, JoinAccepted(idP, Alpha, nameP)), Envelope(wsA, AcceptPeerSuccess(idP, Alpha, nameP))])
  {
    var o1 := CreateRoomStoringCodeStep(map[], wsA, Alpha, nameA, idA, code);
    var o2 := JoinRoomStep(o1.rooms, wsP, Alpha, code, nameP, idP);
    var o3 := AdminAcceptPeerStep(o2.rooms, wsA, Alpha, idP);
    if Emits(out, o3.plan) {
      var e1 := One(wsP, JoinAccepted(idP, Alpha, nameP));
      var e2 := All(map[], ParticipantJoined(idP, Alpha, nameP));
      var e3 := All(map[], PeerJoined(Alpha, idP, nameP));
      var e4 := One(wsA, AcceptPeerSuccess(idP, Alpha, nameP));
      assert o3.plan == [e1, e2, e3, e4];
      Sent4(e1, e2, e3, e4);
      EmitsSent(out, o3.plan);
      assert multiset(out) == multiset{Envelope(wsP, e1.msg), Envelope(wsA, e4.msg)};
      assert |out| == 2 by {
        assert |out| == |multiset(out)|;
      }
      assert out[..1] == [out[0]];
      assert out[1] in multiset(out);
    }
  }

  /**
   * Scenario B: asking with the wrong code earns P "Invalid room code" and
   * leaves the table, and so the pending peers, as they were.
   */
  lemma ScenarioB(wsA: ConnId, wsP: ConnId, idA: Id, idP: Id, code: string, wrong: string,
                  nameA: string, nameP: string, out: seq<Envelope>)
    requires idA != idP && wrong != code
    ensures var o1 := CreateRoomStoringCodeStep(map[], wsA, Alpha, nameA, idA, code);
            var o2 := JoinRoomStep(o1.rooms, wsP, Alpha, wrong, nameP, idP);
      && o2.rooms == o1.rooms
      && idP !in o2.rooms[Alpha].pendingPeers
      && (Emits(out, o2.plan) ==> out == [Envelope(wsP, JoinRoomError(InvalidRoomCode))])
  {
    var o1 := CreateRoomStoringCodeStep(map[], wsA, Alpha, nameA, idA, code);
    var o2 := JoinRoomStep(o1.rooms, wsP, Alpha, wrong, nameP, idP);
    if Emits(out, o2.plan) {
      EmitsOne(out, wsP, JoinRoomError(InvalidRoomCode));
    }
  }

  /** Scenario C, first half: a viewer subscribing after P is admitted is sent the list [A, P]. */
  lemma ScenarioCSnapshot(wsA: ConnId, wsP: ConnId, wsV: ConnId, idA: Id, idP: Id, idV: Id, code: string,
                          nameA: string, nameP: string, out: seq<Envelope>)
    requires idA != idP && idV != idA && idV != idP
    requires Emits(out, JoinAsViewerStep(AlphaWithPeer(wsA, wsP, idA, idP, code, nameA, nameP), wsV, Alpha, idV).plan)
    ensures out == [Envelope(wsV, RoomInfo(Alpha, idV, [idA, idP]))]
  {
    var rooms := AlphaWithPeer(wsA, wsP, idA, idP, code, nameA, nameP);
    var e := Listing(wsV, Alpha, idV, idA, {idP});
    assert rooms[Alpha].peers.Keys == {idP};
    assert JoinAsViewerStep(rooms, wsV, Alpha, idV).plan == [e];
    assert [e][1..] == [];
    var ids := out[0].msg.peers;
    EnumeratesSize(ids[1..], {idP});
    assert ids[1..][0] in {idP};
    assert ids == [idA, idP];
    assert out == [out[0]];
  }

  /**
   * Scenario C, second half: when P then leaves, the viewer is sent
   * `peer-left` with P's id and name, and P is no longer a peer.
   */
  lemma ScenarioCLeave(wsA: ConnId, wsP: ConnId, wsV: ConnId, idA: Id, idP: Id, idV: Id, code: string,
                       nameA: string, nameP: string, out: seq<Envelope>)
    requires idA != idP && idV != idA && idV != idP && wsP != wsA
    ensures var rooms := JoinAsViewerStep(AlphaWithPeer(wsA, wsP, idA, idP, code, nameA, nameP), wsV, Alpha, idV).rooms;
            var o := LeaveRoomStep(rooms, wsP, Alpha, Some(idP));
      && Alpha in o.rooms && idP !in o.rooms[Alpha].peers
      && (Emits(out, o.plan) ==> Envelope(wsV, PeerLeft(Some(idP), Some(nameP))) in out)
  {
    var rooms := JoinAsViewerStep(AlphaWithPeer(wsA, wsP, idA, idP, code, nameA, nameP), wsV, Alpha, idV).rooms;
    var r := rooms[Alpha];
    assert r.viewers == map[idV := wsV];
    assert NameOf(r.peerNames, Some(idP)) == Some(nameP);
    var o := LeaveRoomStep(rooms, wsP, Alpha, Some(idP));
    if Emits(out, o.plan) {
      var e1 := One(wsA, ParticipantLeft(Some(idP), Alpha, Some(nameP)));
      var e2 := All(Without(r.peers, Some(idP)), ParticipantLeft(Some(idP), Alpha, Some(nameP)));
      var e3 := All(r.viewers, PeerLeft(Some(idP), Some(nameP)));
      assert o.plan == [e1, e2, e3];
      Sent3(e1, e2, e3);
      EmitsSent(out, o.plan);
      FanoutCount(r.viewers, PeerLeft(Some(idP), Some(nameP)), wsV);
      assert IdsOn(r.viewers, wsV) == {idV};
      assert Envelope(wsV, PeerLeft(Some(idP), Some(nameP))) in multiset(out);
    }
  }
}
