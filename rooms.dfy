/**
 * The server's view of one room (the `Room` record of the signaling server)
 * and the role-separation invariant that every handler keeps.
 */
module Rooms {
  import opened Wire

  /**
   * One live room.  The per-room Maps of the server are Dafny maps from
   * participant ids to connections (`peers`, `pendingPeers`, `viewers`) or
   * display names (`peerNames`, `pendingPeerNames`).
   */
  datatype Room = Room(
    id: Id,
    adminId: Id,
    admin: ConnId,
    roomCode: string,
    peers: map<Id, ConnId>,
    pendingPeers: map<Id, ConnId>,
    isLocked: bool,
    viewers: map<Id, ConnId>,
    adminName: string,
    peerNames: map<Id, string>,
    pendingPeerNames: map<Id, string>)
  {
    /**
     * The admin, the admitted peers, the pending peers and the viewers are
     * four disjoint roles, and every admitted or pending peer has a name.
     * (Name entries may outlive their peer: neither `reject-peer` nor
     * `leave-room` deletes them.)
     */
    predicate WellFormed() {
      && adminId !in peers && adminId !in pendingPeers && adminId !in viewers
      && peers.Keys !! pendingPeers.Keys
      && peers.Keys !! viewers.Keys
      && pendingPeers.Keys !! viewers.Keys
      && pendingPeers.Keys <= pendingPeerNames.Keys
      && peers.Keys <= peerNames.Keys
    }

    /** `x` names nobody in this room: what a freshly generated uuid is assumed to satisfy. */
    predicate Unused(x: Id) {
      x != adminId && x !in peers && x !in pendingPeers && x !in viewers
    }
  }

  /** The record `create-room` builds for an unseen room id. */
  function NewRoom(roomId: Id, adminId: Id, admin: ConnId, roomCode: string, adminName: string): Room {
    Room(roomId, adminId, admin, roomCode, map[], map[], true, map[], adminName, map[], map[])
  }

  /** Every room of the table is well formed and stored under its own id. */
  ghost predicate TableWellFormed(rooms: map<Id, Room>) {
    forall id :: id in rooms ==> rooms[id].WellFormed() && rooms[id].id == id
  }

  /** Storing a well-formed room under its own id keeps the table well formed. */
  lemma StoreKeepsTable(rooms: map<Id, Room>, id: Id, r: Room)
    requires TableWellFormed(rooms) && r.WellFormed() && r.id == id
    ensures TableWellFormed(rooms[id := r])
  {
  }

  /**
   * The connection a relayed message for `targetId` goes to: the admin if the
   * id is the admin's, else an admitted peer, else a viewer; nothing for a
   * pending peer or an unknown id.
   */
  function Resolve(room: Room, targetId: Id): (c: Option<ConnId>)
    ensures c.Some? <==> targetId == room.adminId || targetId in room.peers || targetId in room.viewers
    ensures targetId == room.adminId ==> c == Some(room.admin)
    ensures targetId != room.adminId && targetId in room.peers ==> c == Some(room.peers[targetId])
    ensures targetId != room.adminId && targetId !in room.peers && targetId in room.viewers ==>
              c == Some(room.viewers[targetId])
  {
    if targetId == room.adminId then Some(room.admin)
    else if targetId in room.peers then Some(room.peers[targetId])
    else if targetId in room.viewers then Some(room.viewers[targetId])
    else None
  }

  /**
   * In a well-formed room the lookup order never matters: an id holds at most
   * one role, and a relay target resolves to the connection of that role.
   * A pending peer is never reachable through the relay.
   */
  lemma ResolveByRole(room: Room, targetId: Id)
    requires room.WellFormed()
    ensures targetId in room.peers ==> Resolve(room, targetId) == Some(room.peers[targetId])
    ensures targetId in room.viewers ==> Resolve(room, targetId) == Some(room.viewers[targetId])
    ensures targetId in room.pendingPeers ==> Resolve(room, targetId) == None
  {
  }
}
