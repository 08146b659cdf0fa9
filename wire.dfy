/**
 * The wire vocabulary shared by the signaling server and the browser client:
 * identifiers, opaque connection handles, negotiation payloads, and the tagged
 * messages each side sends.  JSON encoding is not modelled: a message is a
 * value of one of the datatypes below, one constructor per `type` tag.
 */
module Wire {

  /** Room ids, participant ids, viewer ids, names and room codes are strings. */
  type Id = string

  /** An open WebSocket, seen only through its identity. */
  type ConnId = nat

  datatype Option<T> = None | Some(value: T)

  /** The `type` field of an RTCSessionDescriptionInit. */
  datatype SdpKind = OfferKind | AnswerKind

  /** A session description; the relay never looks inside it. */
  datatype Description = Description(kind: SdpKind, sdp: string)

  /** An ICE candidate, opaque to everything modelled here. */
  type Candidate = string

  /** The three error strings the server can send back to a requester. */
  datatype JoinError =
    | LockedByAnotherAdmin  // "Room is locked by another admin"
    | RoomNotFound          // "Room not found"
    | InvalidRoomCode       // "Invalid room code"

  /**
   * Messages a client sends to the server, one constructor per `case` of the
   * server's switch.  `Other` stands for any tag the switch does not match.
   * Fields a client may leave null (its own id before it has one) are Options.
   */
  datatype ClientMsg =
    | CreateRoom(roomId: Id, name: string)
    | JoinRoom(roomId: Id, roomCode: string, name: string)
    | LockRoom(roomId: Id, adminId: Id)
    | UnlockRoom(roomId: Id, adminId: Id)
    | AcceptPeer(roomId: Id, targetId: Id)
    | RejectPeer(roomId: Id, targetId: Id)
    | Offer(roomId: Id, targetId: Id, offer: Description, sourceId: Option<Id>)
    | Answer(roomId: Id, targetId: Id, sourceId: Option<Id>, answer: Description)
    | IceCandidate(roomId: Id, targetId: Id, sourceId: Option<Id>, candidate: Candidate)
    | LeaveRoom(roomId: Id, peerId: Option<Id>)
    | JoinAsViewer(roomId: Id)
    | ViewerLeave(roomId: Id, viewerId: Id)
    | Other(tag: string)

  /**
   * Messages the server sends.  Constant fields of the JSON objects
   * (`success: true`, `isAdmin: true`) are implied by the constructor.
   */
  datatype ServerMsg =
    | RoomCreated(roomId: Id, adminId: Id, roomCode: string, name: string)
    | JoinRoomError(error: JoinError)
    | ParticipantRequest(participantId: Id, name: string)
    | RoomLockedAck
    | RoomUnlockedAck
    | JoinAccepted(peerId: Id, roomId: Id, name: string)
    | ParticipantJoined(participantId: Id, roomId: Id, name: string)
    | PeerJoined(roomId: Id, peerId: Id, name: string)
    | AcceptPeerSuccess(participantId: Id, roomId: Id, name: string)
    | JoinRejected
    | RejectPeerSuccess(participantId: Id)
    | OfferFwd(offer: Description, roomId: Id, targetId: Id, sourceId: Option<Id>)
    | AnswerFwd(answer: Description, roomId: Id, sourceId: Option<Id>, targetId: Id)
    | IceCandidateFwd(sourceId: Option<Id>, targetId: Id, candidate: Candidate)
    | RoomClosed(roomId: Id, leaverName: Option<string>)
    | ParticipantLeft(leaverId: Option<Id>, roomId: Id, leaverName: Option<string>)
    | PeerLeft(leaverId: Option<Id>, leaverName: Option<string>)
    | ViewerError(error: JoinError)
    | RoomInfo(roomId: Id, viewerId: Id, peers: seq<Id>)

  /** One message handed to one connection's `send`. */
  datatype Envelope = Envelope(to: ConnId, msg: ServerMsg)
}
