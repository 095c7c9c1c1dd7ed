/**
 The signaling messages exchanged with the relay, and the opaque handles and payloads that the
 manager passes through without inspecting them.
 */
module Signaling {

  /** A peer identifier assigned by the relay server. */
  type PeerId = string

  /** One `RTCPeerConnection`: the transport never looks inside it, so it is an opaque handle. */
  type Handle = nat

  /** A session description (offer or answer), opaque to the manager. */
  type Sdp = string

  /** An ICE candidate in its JSON form, opaque to the manager. */
  type Candidate = string

  /** A data-channel payload (string, typed array, blob or view); its content is never inspected. */
  type Payload = string

  /** Messages the relay delivers, already decoded; the relay rewrites `target` into `source`. */
  datatype SocketMsg =
    | JoinSelf(id: PeerId)
    | Join(id: PeerId, username: string)
    | InitFrom(source: PeerId, name: string)
    | IceFrom(source: PeerId, candidate: Candidate)
    | OfferFrom(source: PeerId, offer: Sdp)
    | AnswerFrom(source: PeerId, answer: Sdp)
    | Unknown

  /** Messages this side sends to the relay, addressed by `target`. */
  datatype ClientMsg =
    | InitTo(target: PeerId, name: string)
    | IceTo(target: PeerId, candidate: Candidate)
    | OfferTo(target: PeerId, offer: Sdp)
    | AnswerTo(target: PeerId, answer: Sdp)

  /** `RTCPeerConnection.connectionState`. */
  datatype TransportState =
    | StateNew | StateConnecting | StateConnected | StateDisconnected | StateFailed | StateClosed

  /** The states in which the per-record handler retires the record. */
  predicate Ends(s: TransportState) {
    s == StateDisconnected || s == StateClosed || s == StateFailed
  }
}
