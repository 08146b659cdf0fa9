/**
 * The browser side of one negotiation link: the parts of an
 * RTCPeerConnection that the stream room's code reads or changes, and the
 * TrackedPC record that buffers ICE candidates until a remote description
 * has been set through `setRemoteDesc`.
 */
module Links {
  import opened Wire

  /** The signaling states the negotiation code can reach (no rollback, no provisional answers). */
  datatype SignalingState = Stable | HaveLocalOffer | HaveRemoteOffer

  /**
   * An RTCPeerConnection seen through its signaling state, its two session
   * descriptions and `applied`: every candidate handed to `addIceCandidate`,
   * in order.
   */
  datatype PeerConnection = PeerConnection(
    signalingState: SignalingState,
    localDescription: Option<Description>,
    remoteDescription: Option<Description>,
    applied: seq<Candidate>)

  /** `new RTCPeerConnection(...)`. */
  function FreshConnection(): PeerConnection {
    PeerConnection(Stable, None, None, [])
  }

  /**
   * `setRemoteDescription(d)` under the offer/answer state machine: an offer
   * is taken in `stable`, an answer in `have-local-offer`; anything else
   * makes the promise reject (None).
   */
  function SetRemoteDescription(pc: PeerConnection, d: Description): (r: Option<PeerConnection>)
    ensures r.Some? <==>
      || (d.kind == OfferKind && pc.signalingState == Stable)
      || (d.kind == AnswerKind && pc.signalingState == HaveLocalOffer)
    ensures r.Some? ==> r.value == pc.(remoteDescription := Some(d),
                                       signalingState := if d.kind == OfferKind then HaveRemoteOffer else Stable)
  {
    match d.kind
    case OfferKind =>
      if pc.signalingState == Stable then Some(pc.(remoteDescription := Some(d), signalingState := HaveRemoteOffer))
      else None
    case AnswerKind =>
      if pc.signalingState == HaveLocalOffer then Some(pc.(remoteDescription := Some(d), signalingState := Stable))
      else None
  }

  /**
   * `setLocalDescription(d)`: an offer is taken in `stable`, an answer in
   * `have-remote-offer`; anything else rejects.
   */
  function SetLocalDescription(pc: PeerConnection, d: Description): (r: Option<PeerConnection>)
    ensures r.Some? <==>
      || (d.kind == OfferKind && pc.signalingState == Stable)
      || (d.kind == AnswerKind && pc.signalingState == HaveRemoteOffer)
    ensures r.Some? ==> r.value == pc.(localDescription := Some(d),
                                       signalingState := if d.kind == OfferKind then HaveLocalOffer else Stable)
  {
    match d.kind
    case OfferKind =>
      if pc.signalingState == Stable then Some(pc.(localDescription := Some(d), signalingState := HaveLocalOffer))
      else None
    case AnswerKind =>
      if pc.signalingState == HaveRemoteOffer then Some(pc.(localDescription := Some(d), signalingState := Stable))
      else None
  }

  /**
   * A full exchange returns both sides to `stable` holding each other's
   * descriptions: the offerer sets its offer then the answer, the answerer
   * the offer then its answer.  Out of turn, each side refuses: a second
   * offer while one is outstanding, or an answer nobody asked for.  (The
   * refusal of a crossing offer holds of this state machine, which has no
   * rollback; a browser with implicit rollback would accept it.)
   */
  lemma OfferAnswerExchange(offerSdp: string, answerSdp: string)
    ensures var offer, answer := Description(OfferKind, offerSdp), Description(AnswerKind, answerSdp);
      && SetLocalDescription(FreshConnection(), offer).Some?
      && SetRemoteDescription(SetLocalDescription(FreshConnection(), offer).value, answer)
         == Some(PeerConnection(Stable, Some(offer), Some(answer), []))
      && SetRemoteDescription(FreshConnection(), offer).Some?
      && SetLocalDescription(SetRemoteDescription(FreshConnection(), offer).value, answer)
         == Some(PeerConnection(Stable, Some(answer), Some(offer), []))
      && SetRemoteDescription(SetLocalDescription(FreshConnection(), offer).value, offer).None?
      && SetRemoteDescription(FreshConnection(), answer).None?
  {
  }

  /** `addIceCandidate(c)`; rejections of malformed candidates are not modelled. */
  function AddIceCandidate(pc: PeerConnection, c: Candidate): (r: PeerConnection)
    ensures r.applied == pc.applied + [c]
    ensures r.(applied := pc.applied) == pc
  {
    pc.(applied := pc.applied + [c])
  }

  /** The `for (const c of tracked.pendingCandidates)` loop of `setRemoteDesc`. */
  method FlushCandidates(pc: PeerConnection, queue: seq<Candidate>) returns (r: PeerConnection)
    ensures r.applied == pc.applied + queue
    ensures r.(applied := pc.applied) == pc
  {
    r := pc;
    for i := 0 to |queue|
      invariant r.applied == pc.applied + queue[..i]
      invariant r.(applied := pc.applied) == pc
    {
      assert queue[..i + 1] == queue[..i] + [queue[i]];
      r := AddIceCandidate(r, queue[i]);
    }
    assert queue[..|queue|] == queue;
  }

  /** One entry of the `peerConnections` table. */
  datatype TrackedPC = TrackedPC(peerConnection: PeerConnection, pendingCandidates: seq<Candidate>, remoteDescSet: bool)

  /**
   * What every entry keeps: once the flag is set the buffer is empty and a
   * remote description exists; before that, nothing has been applied.
   */
  predicate LinkInvariant(t: TrackedPC) {
    && (t.remoteDescSet ==> t.pendingCandidates == [] && t.peerConnection.remoteDescription.Some?)
    && (!t.remoteDescSet ==> t.peerConnection.applied == [])
  }

  /** Every candidate the link has received, applied or still buffered, in arrival order. */
  function Delivered(t: TrackedPC): seq<Candidate> {
    t.peerConnection.applied + t.pendingCandidates
  }

  /** The entry `createPeerConnection` installs. */
  function NewLink(): (t: TrackedPC)
    ensures LinkInvariant(t) && Delivered(t) == [] && !t.remoteDescSet
    ensures t.peerConnection.signalingState == Stable
    ensures t.peerConnection == FreshConnection()
  {
    TrackedPC(FreshConnection(), [], false)
  }

  /**
   * An incoming candidate: buffered at the end while the flag is clear,
   * applied at once (the buffer untouched) when it is set.  Either way it is
   * delivered exactly once, after everything before it.
   */
  function ReceiveCandidate(t: TrackedPC, c: Candidate): (r: TrackedPC)
    ensures r.remoteDescSet == t.remoteDescSet
    ensures !t.remoteDescSet ==>
      r.peerConnection == t.peerConnection && r.pendingCandidates == t.pendingCandidates + [c]
    ensures t.remoteDescSet ==>
      r.pendingCandidates == t.pendingCandidates && r.peerConnection.applied == t.peerConnection.applied + [c]
    ensures t.remoteDescSet ==> r.peerConnection == AddIceCandidate(t.peerConnection, c)
    ensures LinkInvariant(t) ==> LinkInvariant(r) && Delivered(r) == Delivered(t) + [c]
  {
    if !t.remoteDescSet then t.(pendingCandidates := t.pendingCandidates + [c])
    else t.(peerConnection := AddIceCandidate(t.peerConnection, c))
  }

  /** Candidates arriving one after another. */
  function ReceiveAll(t: TrackedPC, cs: seq<Candidate>): TrackedPC
    decreases |cs|
  {
    if cs == [] then t else ReceiveAll(ReceiveCandidate(t, cs[0]), cs[1..])
  }

  /**
   * However many candidates arrive, each is delivered once and in order; the
   * flag does not move, and while it is clear nothing is applied.
   */
  lemma {:induction false} ReceiveAllDelivers(t: TrackedPC, cs: seq<Candidate>)
    requires LinkInvariant(t)
    ensures LinkInvariant(ReceiveAll(t, cs))
    ensures Delivered(ReceiveAll(t, cs)) == Delivered(t) + cs
    ensures ReceiveAll(t, cs).remoteDescSet == t.remoteDescSet
    ensures !t.remoteDescSet ==> ReceiveAll(t, cs).peerConnection == t.peerConnection
    decreases |cs|
  {
    if cs != [] {
      var t' := ReceiveCandidate(t, cs[0]);
      ReceiveAllDelivers(t', cs[1..]);
      assert Delivered(t) + cs == Delivered(t) + [cs[0]] + cs[1..];
    }
  }

  /**
   * `setRemoteDesc` on an entry: the description is set (or the call fails
   * and nothing changes), the flag is raised, every buffered candidate is
   * applied in arrival order, and the buffer is emptied.
   */
  function SetRemote(t: TrackedPC, d: Description): (r: Option<TrackedPC>)
    ensures r.Some? <==> SetRemoteDescription(t.peerConnection, d).Some?
    ensures r.Some? ==>
      && r.value.remoteDescSet && r.value.pendingCandidates == []
      && r.value.peerConnection.applied == t.peerConnection.applied + t.pendingCandidates
      && r.value.peerConnection.remoteDescription == Some(d)
      && r.value.peerConnection
         == SetRemoteDescription(t.peerConnection, d).value.(applied := r.value.peerConnection.applied)
      && Delivered(r.value) == Delivered(t)
      && LinkInvariant(r.value)
  {
    match SetRemoteDescription(t.peerConnection, d)
    case None => None
    case Some(pc) => Some(TrackedPC(pc.(applied := pc.applied + t.pendingCandidates), [], true))
  }

  /**
   * Candidates that arrived before the remote description are applied
   * exactly once each, in the order they arrived, when it is set; any that
   * arrive afterwards are applied straight away, behind them.
   */
  lemma BufferedThenApplied(offerSdp: string, answerSdp: string, early: seq<Candidate>, late: seq<Candidate>)
    ensures var offered := SetLocalDescription(FreshConnection(), Description(OfferKind, offerSdp)).value;
            var queued := ReceiveAll(TrackedPC(offered, [], false), early);
            var settled := SetRemote(queued, Description(AnswerKind, answerSdp));
      && queued.peerConnection.applied == []
      && settled.Some?
      && settled.value.peerConnection.applied == early
      && ReceiveAll(settled.value, late).peerConnection.applied == early + late
  {
    var offered := SetLocalDescription(FreshConnection(), Description(OfferKind, offerSdp)).value;
    var start := TrackedPC(offered, [], false);
    ReceiveAllDelivers(start, early);
    var queued := ReceiveAll(start, early);
    var settled := SetRemote(queued, Description(AnswerKind, answerSdp)).value;
    ReceiveAllDelivers(settled, late);
  }

  /**
   * The entry `handleOffer` leaves when it completes: a fresh link that has
   * taken the remote offer and its own answer directly on the connection,
   * so the flag is still clear.  None when the offer is refused.
   */
  function AnsweredLink(offer: Description, answer: Description): (r: Option<TrackedPC>)
    requires answer.kind == AnswerKind
    ensures r.Some? <==> offer.kind == OfferKind
    ensures r.Some? ==>
      && r.value.peerConnection == PeerConnection(Stable, Some(answer), Some(offer), [])
      && r.value.pendingCandidates == [] && !r.value.remoteDescSet
      && LinkInvariant(r.value)
  {
    match SetRemoteDescription(FreshConnection(), offer)
    case None => None
    case Some(pc) => Some(NewLink().(peerConnection := SetLocalDescription(pc, answer).value))
  }

  /**
   * As written, the answering side never applies a candidate: `handleOffer`
   * leaves the flag clear and nothing else raises it, so everything the
   * offerer sends stays buffered.
   */
  lemma AnsweringSideNeverApplies(offer: Description, answer: Description, cs: seq<Candidate>)
    requires offer.kind == OfferKind && answer.kind == AnswerKind
    ensures var t := ReceiveAll(AnsweredLink(offer, answer).value, cs);
      t.peerConnection.applied == [] && t.pendingCandidates == cs && !t.remoteDescSet
  {
    var t0 := AnsweredLink(offer, answer).value;
    ReceiveAllDelivers(t0, cs);
    var t := ReceiveAll(t0, cs);
    assert Delivered(t0) == [] && Delivered(t) == [] + cs == cs;
    assert t.peerConnection.applied == [];
    assert Delivered(t) == [] + t.pendingCandidates == t.pendingCandidates;
  }

  /**
   * Corrected `handleOffer` entry: the offer goes through `setRemoteDesc`,
   * so the flag is raised before the answer is set.
   */
  function AnsweredLinkViaSetRemote(offer: Description, answer: Description): (r: Option<TrackedPC>)
    requires answer.kind == AnswerKind
    ensures r.Some? <==> offer.kind == OfferKind
    ensures r.Some? ==>
      && r.value.peerConnection == PeerConnection(Stable, Some(answer), Some(offer), [])
      && r.value.pendingCandidates == [] && r.value.remoteDescSet
      && LinkInvariant(r.value)
  {
    match SetRemote(NewLink(), offer)
    case None => None
    case Some(t) => Some(t.(peerConnection := SetLocalDescription(t.peerConnection, answer).value))
  }

  /** With the correction, the answering side applies every candidate from the offerer, in order. */
  lemma AnsweringSideApplies(offer: Description, answer: Description, cs: seq<Candidate>)
    requires offer.kind == OfferKind && answer.kind == AnswerKind
    ensures var t := ReceiveAll(AnsweredLinkViaSetRemote(offer, answer).value, cs);
      t.peerConnection.applied == cs && t.pendingCandidates == []
  {
    var t0 := AnsweredLinkViaSetRemote(offer, answer).value;
    ReceiveAllDelivers(t0, cs);
    var t := ReceiveAll(t0, cs);
    assert Delivered(t0) == [] && Delivered(t) == [] + cs == cs;
    assert t.pendingCandidates == [];
    assert Delivered(t) == t.peerConnection.applied + [] == t.peerConnection.applied;
  }
}
