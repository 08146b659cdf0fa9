/**
 * The stream room component's negotiation state: the `peerConnections`
 * table of TrackedPC entries, the remote stream and video-element tables,
 * the `peers` list, and what the component sends on its WebSocket.  Each
 * handler is one atomic step; awaited browser calls are the Links functions.
 */
module Client {
  import opened Wire
  import opened Links

  /** A MediaStream or an HTMLVideoElement, seen only through its identity. */
  type MediaHandle = nat

  /** No id occurs twice. */
  predicate Distinct(s: seq<Id>) {
    forall i, j :: 0 <= i < j < |s| ==> s[i] != s[j]
  }

  /**
   * `[...new Set(s)]`: the first occurrence of every id, in order (the order
   * is DedupKeepsFirstOrder).
   */
  function Dedup(s: seq<Id>): (r: seq<Id>)
    ensures forall x :: x in r <==> x in s
    ensures Distinct(r)
    ensures |r| <= |s|
    decreases |s|
  {
    if s == [] then []
    else
      var d := Dedup(s[..|s| - 1]);
      var last := s[|s| - 1];
      assert forall x :: x in s <==> x in s[..|s| - 1] || x == last;
      if last in d then d else d + [last]
  }

  /** Where `x` first occurs in `s`. */
  function FirstIndex(s: seq<Id>, x: Id): (k: nat)
    requires x in s
    ensures k < |s| && s[k] == x
    ensures forall j :: 0 <= j < k ==> s[j] != x
    decreases |s|
  {
    if s[0] == x then 0 else 1 + FirstIndex(s[1..], x)
  }

  /** Extending a list does not move the first occurrence of an id already in it. */
  lemma FirstIndexPrefix(s: seq<Id>, t: seq<Id>, x: Id)
    requires x in s
    ensures x in s + t && FirstIndex(s + t, x) == FirstIndex(s, x)
  {
    assert (s + t)[FirstIndex(s, x)] == x;
  }

  /**
   * `new Set` keeps insertion order: the ids of Dedup(s) come in the order
   * of their first occurrences in `s`.
   */
  lemma {:induction false} DedupKeepsFirstOrder(s: seq<Id>)
    ensures forall i, j :: 0 <= i < j < |Dedup(s)| ==> FirstIndex(s, Dedup(s)[i]) < FirstIndex(s, Dedup(s)[j])
    decreases |s|
  {
    if s != [] {
      var init, last := s[..|s| - 1], s[|s| - 1];
      assert s == init + [last];
      DedupKeepsFirstOrder(init);
      var d := Dedup(init);
      forall x | x in init
        ensures FirstIndex(s, x) == FirstIndex(init, x) < |init|
      {
        FirstIndexPrefix(init, [last], x);
      }
      if last !in d {
        assert last !in init;
        assert FirstIndex(s, last) == |init|;
        assert Dedup(s) == d + [last];
      }
    }
  }

  /** A list without repeats is its own deduplication. */
  lemma {:induction false} DedupDistinct(s: seq<Id>)
    requires Distinct(s)
    ensures Dedup(s) == s
    decreases |s|
  {
    if s != [] {
      var init := s[..|s| - 1];
      DedupDistinct(init);
      assert s[|s| - 1] !in init;
      assert init + [s[|s| - 1]] == s;
    }
  }

  /**
   * `handleAnswer`'s update of a repeat-free `peers`: the source is added
   * at the end unless it is already listed, so no duplicate appears.
   */
  lemma AddPeerOnce(peers: seq<Id>, x: Id)
    requires Distinct(peers)
    ensures Dedup(peers + [x]) == if x in peers then peers else peers + [x]
  {
    assert (peers + [x])[..|peers|] == peers;
    DedupDistinct(peers);
  }

  /** Dropping the head of a repeat-free list leaves a repeat-free list without it. */
  lemma DistinctTail(s: seq<Id>)
    requires |s| > 0 && Distinct(s)
    ensures Distinct(s[1..]) && s[0] !in s[1..]
  {
    forall i, j | 0 <= i < j < |s[1..]|
      ensures s[1..][i] != s[1..][j]
    {
      assert s[1..][i] == s[i + 1] && s[1..][j] == s[j + 1];
    }
  }

  /**
   * `prev.filter(id => id !== participantId)`.  RemoveCounts adds that
   * every other id keeps its multiplicity, RemoveDistributes that the order
   * is kept too.
   */
  function Remove(s: seq<Id>, id: Id): (r: seq<Id>)
    ensures forall x :: x in r <==> x in s && x != id
    ensures |s| == 1 ==> r == if s[0] == id then [] else s
    ensures |r| <= |s|
    ensures id !in s ==> r == s
    ensures Distinct(s) ==> Distinct(r)
    decreases |s|
  {
    if s == [] then []
    else
      var rest := Remove(s[1..], id);
      assert forall x :: x in s <==> x == s[0] || x in s[1..];
      assert Distinct(s) ==> Distinct(s[1..]) && s[0] !in rest by {
        if Distinct(s) {
          DistinctTail(s);
        }
      }
      if s[0] == id then rest
      else
        assert id !in s ==> [s[0]] + s[1..] == s;
        [s[0]] + rest
  }

  /** The filter drops every copy of `id` and keeps every copy of the other ids. */
  lemma {:induction false} RemoveCounts(s: seq<Id>, id: Id)
    ensures multiset(Remove(s, id)) == multiset(s)[id := 0]
    decreases |s|
  {
    if s != [] {
      RemoveCounts(s[1..], id);
      assert s == [s[0]] + s[1..];
      assert multiset(s) == multiset{s[0]} + multiset(s[1..]);
      if s[0] != id {
        assert Remove(s, id) == [s[0]] + Remove(s[1..], id);
        assert multiset(Remove(s, id)) == multiset{s[0]} + multiset(Remove(s[1..], id));
      }
    }
  }

  /**
   * The filter works element by element: filtering a concatenation filters
   * each part and keeps them in order.  With Remove's one-element case this
   * fixes the result completely, order included.
   */
  lemma {:induction false} RemoveDistributes(s: seq<Id>, t: seq<Id>, id: Id)
    ensures Remove(s + t, id) == Remove(s, id) + Remove(t, id)
    decreases |s|
  {
    if s == [] {
      assert s + t == t;
    } else {
      var st := s + t;
      assert st[0] == s[0] && st[1..] == s[1..] + t;
      RemoveDistributes(s[1..], t, id);
      var a, b := Remove(s[1..], id), Remove(t, id);
      if s[0] != id {
        assert [s[0]] + (a + b) == [s[0]] + a + b;
      }
    }
  }

  /** `handleOffer`'s update: appended even when already listed, so repeats are possible. */
  lemma OfferCanRepeatPeer(peers: seq<Id>, x: Id)
    requires x in peers
    ensures !Distinct(peers + [x])
  {
    var i :| 0 <= i < |peers| && peers[i] == x;
    assert (peers + [x])[i] == (peers + [x])[|peers|];
  }

  class StreamRoom {
    /** `clientIdRef.current`. */
    var clientId: Option<Id>
    /** The `roomId` state. */
    var roomId: string
    /** `peerConnections.current`. */
    var peerConnections: map<Id, TrackedPC>
    /** `remoteStreams.current`. */
    var remoteStreams: map<Id, MediaHandle>
    /** `remoteVideoRefs.current`. */
    var remoteVideoRefs: map<Id, MediaHandle>
    /** The `peers` state. */
    var peers: seq<Id>
    /** `ws.current` is not null. */
    var socketOpen: bool
    /** Every message sent on the WebSocket, in order. */
    var sent: seq<ClientMsg>

    /** Every entry of the table keeps the buffer invariant. */
    ghost predicate Valid()
      reads this
    {
      forall id :: id in peerConnections ==> LinkInvariant(peerConnections[id])
    }

    /** The component as it mounts, with its socket being opened. */
    constructor ()
      ensures Valid()
      ensures clientId == None && roomId == "" && peers == [] && socketOpen && sent == []
      ensures peerConnections == map[] && remoteStreams == map[] && remoteVideoRefs == map[]
    {
      clientId := None;
      roomId := "";
      peerConnections := map[];
      remoteStreams := map[];
      remoteVideoRefs := map[];
      peers := [];
      socketOpen := true;
      sent := [];
    }

    /** `ws.current?.send(...)`: dropped once the socket is gone. */
    method Emit(m: ClientMsg)
      modifies this`sent
      ensures sent == old(sent) + (if socketOpen then [m] else [])
    {
      if socketOpen {
        sent := sent + [m];
      }
    }

    /** `join-accepted` and `room-created` record the id the server assigned. */
    method BindClientId(id: Id, room: string)
      modifies this`clientId, this`roomId
      ensures clientId == Some(id) && roomId == room
    {
      clientId := Some(id);
      roomId := room;
    }

    /** The table part of `createPeerConnection`: a fresh entry replaces any earlier one. */
    method CreatePeerConnection(peerId: Id)
      requires Valid()
      modifies this`peerConnections
      ensures Valid()
      ensures peerConnections == old(peerConnections)[peerId := NewLink()]
    {
      peerConnections := peerConnections[peerId := NewLink()];
    }

    /** `ontrack`: the peer's stream is recorded. */
    method OnTrack(peerId: Id, stream: MediaHandle)
      modifies this`remoteStreams
      ensures remoteStreams == old(remoteStreams)[peerId := stream]
    {
      remoteStreams := remoteStreams[peerId := stream];
    }

    /** The video element's `ref` callback registers the element under the peer id. */
    method AttachVideo(peerId: Id, element: MediaHandle)
      modifies this`remoteVideoRefs
      ensures remoteVideoRefs == old(remoteVideoRefs)[peerId := element]
    {
      remoteVideoRefs := remoteVideoRefs[peerId := element];
    }

    /**
     * `setRemoteDesc`: fails (throws) for an unknown peer or a refused
     * description, changing nothing; otherwise the entry becomes SetRemote of
     * the old one: flag set, buffer applied in order and emptied.
     */
    method SetRemoteDesc(peerId: Id, desc: Description) returns (ok: bool)
      requires Valid()
      modifies this`peerConnections
      ensures Valid()
      ensures ok <==> peerId in old(peerConnections) && SetRemote(old(peerConnections)[peerId], desc).Some?
      ensures ok ==> peerConnections == old(peerConnections)[peerId := SetRemote(old(peerConnections)[peerId], desc).value]
      ensures !ok ==> peerConnections == old(peerConnections)
    {
      if peerId !in peerConnections {
        return false;
      }
      var tracked := peerConnections[peerId];
      var pc := SetRemoteDescription(tracked.peerConnection, desc);
      if pc.None? {
        return false;
      }
      tracked := tracked.(peerConnection := pc.value);
      tracked := tracked.(remoteDescSet := true);
      var flushed := FlushCandidates(tracked.peerConnection, tracked.pendingCandidates);
      tracked := tracked.(peerConnection := flushed);
      tracked := tracked.(pendingCandidates := []);
      peerConnections := peerConnections[peerId := tracked];
      ok := true;
    }

    /**
     * Corrected `handleOffer`: a fresh entry for the source takes the offer
     * through `setRemoteDesc` (so the flag is raised) and then its own
     * answer, the answer is sent back, and the source is appended to
     * `peers`.  A refused offer leaves the fresh entry and does nothing more.
     * The code as written sets the offer directly on the connection; Links
     * shows what that leaves (AnsweredLink, AnsweringSideNeverApplies).
     */
    method HandleOffer(sourceId: Id, offer: Description, answerSdp: string, room: Id)
      requires Valid()
      modifies this`peerConnections, this`sent, this`peers
      ensures Valid()
      ensures var link := AnsweredLinkViaSetRemote(offer, Description(AnswerKind, answerSdp));
        && (link.None? ==>
              && peerConnections == old(peerConnections)[sourceId := NewLink()]
              && sent == old(sent) && peers == old(peers))
        && (link.Some? ==>
              && peerConnections == old(peerConnections)[sourceId := link.value]
              && sent == old(sent) + (if socketOpen
                                      then [Answer(room, sourceId, clientId, Description(AnswerKind, answerSdp))]
                                      else [])
              && peers == old(peers) + [sourceId])
    {
      CreatePeerConnection(sourceId);
      var ok := SetRemoteDesc(sourceId, offer);
      if !ok {
        return;
      }
      var tracked := peerConnections[sourceId];
      var answer := Description(AnswerKind, answerSdp);
      var local := SetLocalDescription(tracked.peerConnection, answer);
      tracked := tracked.(peerConnection := local.value);
      peerConnections := peerConnections[sourceId := tracked];
      Emit(Answer(room, sourceId, clientId, answer));
      peers := peers + [sourceId];
    }

    /**
     * `handleAnswer`: ignored unless addressed to this client, from a peer
     * with an entry that is waiting in `have-local-offer`; then the answer
     * goes through `setRemoteDesc` and, if that succeeds, the source is
     * added to `peers` with repeats removed.
     */
    method HandleAnswer(sourceId: Id, targetId: Id, answer: Description)
      requires Valid()
      modifies this`peerConnections, this`peers
      ensures Valid()
      ensures var waiting := clientId == Some(targetId) && sourceId in old(peerConnections)
                             && old(peerConnections)[sourceId].peerConnection.signalingState == HaveLocalOffer;
        && (waiting && SetRemote(old(peerConnections)[sourceId], answer).Some? ==>
              && peerConnections == old(peerConnections)[sourceId := SetRemote(old(peerConnections)[sourceId], answer).value]
              && peers == Dedup(old(peers) + [sourceId]))
        && (!(waiting && SetRemote(old(peerConnections)[sourceId], answer).Some?) ==>
              peerConnections == old(peerConnections) && peers == old(peers))
    {
      if clientId != Some(targetId) {
        return;
      }
      if sourceId !in peerConnections {
        return;
      }
      if peerConnections[sourceId].peerConnection.signalingState != HaveLocalOffer {
        return;
      }
      var ok := SetRemoteDesc(sourceId, answer);
      if ok {
        peers := Dedup(peers + [sourceId]);
      }
    }

    /**
     * `handleIceCandidate`: ignored unless addressed to this client from a
     * peer with an entry; then buffered or applied as ReceiveCandidate says.
     */
    method HandleIceCandidate(sourceId: Id, targetId: Id, candidate: Candidate)
      requires Valid()
      modifies this`peerConnections
      ensures Valid()
      ensures clientId == Some(targetId) && sourceId in old(peerConnections) ==>
        peerConnections == old(peerConnections)[sourceId := ReceiveCandidate(old(peerConnections)[sourceId], candidate)]
      ensures !(clientId == Some(targetId) && sourceId in old(peerConnections)) ==>
        peerConnections == old(peerConnections)
    {
      if clientId != Some(targetId) {
        return;
      }
      if sourceId !in peerConnections {
        return;
      }
      var tracked := peerConnections[sourceId];
      if !tracked.remoteDescSet {
        tracked := tracked.(pendingCandidates := tracked.pendingCandidates + [candidate]);
      } else {
        tracked := tracked.(peerConnection := AddIceCandidate(tracked.peerConnection, candidate));
      }
      peerConnections := peerConnections[sourceId := tracked];
    }

    /**
     * `handleParticipantJoined`: a fresh entry for the participant sets its
     * own offer (`have-local-offer`) and the offer is sent to it.
     */
    method HandleParticipantJoined(participantId: Id, room: Id, offerSdp: string)
      requires Valid()
      modifies this`peerConnections, this`sent
      ensures Valid()
      ensures var offer := Description(OfferKind, offerSdp);
        && peerConnections == old(peerConnections)[participantId :=
             NewLink().(peerConnection := PeerConnection(HaveLocalOffer, Some(offer), None, []))]
        && sent == old(sent) + (if socketOpen then [Offer(room, participantId, offer, clientId)] else [])
    {
      CreatePeerConnection(participantId);
      var offer := Description(OfferKind, offerSdp);
      var tracked := peerConnections[participantId];
      var local := SetLocalDescription(tracked.peerConnection, offer);
      tracked := tracked.(peerConnection := local.value);
      peerConnections := peerConnections[participantId := tracked];
      Emit(Offer(room, participantId, offer, clientId));
    }

    /**
     * `handleParticipantLeft`: that participant's entries leave the three
     * tables and `peers`; every other entry stays as it was.
     */
    method HandleParticipantLeft(participantId: Id)
      requires Valid()
      modifies this`peerConnections, this`remoteStreams, this`remoteVideoRefs, this`peers
      ensures Valid()
      ensures peerConnections == old(peerConnections) - {participantId}
      ensures remoteStreams == old(remoteStreams) - {participantId}
      ensures remoteVideoRefs == old(remoteVideoRefs) - {participantId}
      ensures peers == Remove(old(peers), participantId)
    {
      peerConnections := peerConnections - {participantId};
      remoteStreams := remoteStreams - {participantId};
      remoteVideoRefs := remoteVideoRefs - {participantId};
      peers := Remove(peers, participantId);
    }

    /**
     * `handleLeaveRoom`: tells the server, then empties the connection and
     * stream tables and `peers` and forgets the room and the client id.  The
     * video-element table is left as it is.
     */
    method HandleLeaveRoom()
      requires Valid()
      modifies this
      ensures Valid()
      ensures sent == old(sent) + (if old(socketOpen) then [LeaveRoom(old(roomId), old(clientId))] else [])
      ensures peerConnections == map[] && remoteStreams == map[] && peers == []
      ensures roomId == "" && clientId == None
      ensures remoteVideoRefs == old(remoteVideoRefs) && socketOpen == old(socketOpen)
    {
      Emit(LeaveRoom(roomId, clientId));
      remoteStreams := map[];
      peerConnections := map[];
      peers := [];
      roomId := "";
      clientId := None;
    }

    /** `cleanupConnections`: empties the three tables and drops the socket. */
    method CleanupConnections()
      requires Valid()
      modifies this`peerConnections, this`remoteStreams, this`remoteVideoRefs, this`socketOpen
      ensures Valid()
      ensures peerConnections == map[] && remoteStreams == map[] && remoteVideoRefs == map[]
      ensures !socketOpen
    {
      peerConnections := map[];
      remoteStreams := map[];
      remoteVideoRefs := map[];
      socketOpen := false;
    }
  }
}
