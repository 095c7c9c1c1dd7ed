/**
 Client code that drives managers through concrete event sequences and checks, from the method
 contracts alone, what the registry, the effect log and the observers see.
 */
module Scenarios {
  import opened Wrappers
  import opened JsMap
  import opened Signaling
  import opened Channels
  import opened Events
  import opened Registry
  import opened Manager

  /** A Join makes this side the initiator: Init, then the offer, all addressed to the new peer. */
  method InitiatorSends(desc: ChannelDesc, offer: Sdp)
    requires DistinctKeys(desc)
  {
    var a := new RtcManager("alice", "room", desc);
    var r := a.HandleSocketMessage(JoinSelf("a"), "");
    assert a.ownId == Some("a");
    r := a.HandleSocketMessage(Join("b", "bob"), offer);
    assert a.records[0] == Connection(0, "bob", "b", DescChannels(desc), Init);
    assert a.effects == [SocketSend(InitTo("b", "alice")), SetLocalDescription(0, offer), SocketSend(OfferTo("b", offer))];
  }

  /** The answer from the peer reaches the transport of the record the Join created. */
  method InitiatorTakesAnswer(desc: ChannelDesc, offer: Sdp, answer: Sdp)
    requires DistinctKeys(desc)
  {
    var a := new RtcManager("alice", "room", desc);
    a.HandleJoin("b", "bob", offer);
    assert a.connections == [("b", 0)];
    var r := a.HandleAnswer("b", answer);
    assert r == Pass && a.effects[3] == SetRemoteDescription(0, answer);
  }

  /** Once the transport connects, the record opens, announced to `onconnection` and then to the
      registered observer. */
  method InitiatorOpens(desc: ChannelDesc)
    requires DistinctKeys(desc)
  {
    var a := new RtcManager("alice", "room", desc);
    a.OnConnection(App(7));
    var h := a.InitConn("b", "bob");
    assert a.effects == [] && a.connectionObservers == [App(7)];
    a.TransportStateChanged(0, StateConnected);
    assert a.records[0].state == Open;
    assert a.effects == Opened(NoOp, [App(7)], 0);
  }

  /** An open record held by the registry is what `get_connections` lists. */
  method OpenRecordListed(m: RtcManager, h: Handle)
    requires m.Valid() && m.connections == [("b", h)] && h in m.records && m.records[h].state == Open
  {
    var open := m.GetConnections();
    assert m.connections[..0] == [];
    assert open == [h];
  }

  /** An Init makes this side the responder: it sends nothing until the offer, which it answers. */
  method ResponderAnswers(desc: ChannelDesc, offer: Sdp, answer: Sdp)
    requires DistinctKeys(desc)
  {
    var b := new RtcManager("bob", "room", desc);
    var r := b.HandleSocketMessage(InitFrom("a", "alice"), "");
    assert b.effects == [];
    assert b.connections == [("a", 0)];
    r := b.HandleOffer("a", offer, answer);
    assert r == Pass;
    assert b.effects == [SetRemoteDescription(0, offer), SetLocalDescription(0, answer), SocketSend(AnswerTo("a", answer))];
  }

  /** The responder never subscribes an ICE listener, so its candidates are not forwarded. */
  method ResponderKeepsIce(desc: ChannelDesc)
    requires DistinctKeys(desc)
  {
    var b := new RtcManager("bob", "room", desc);
    var h := b.InitConn("a", "alice");
    b.TransportIceCandidate(0, Some("cand"));
    assert b.effects == [];
  }

  /** The initiator forwards each candidate its transport discovers to the peer, and ignores the
      end-of-gathering `null`. */
  method InitiatorForwardsIce(desc: ChannelDesc, offer: Sdp)
    requires DistinctKeys(desc)
  {
    var a := new RtcManager("alice", "room", desc);
    a.HandleJoin("b", "bob", offer);
    a.TransportIceCandidate(0, Some("cand"));
    a.TransportIceCandidate(0, None);
    assert a.effects[3..] == [SocketSend(IceTo("b", "cand"))];
  }

  /** An Offer or Answer from a peer with no record fails, creates nothing and sends nothing;
      an ICE candidate from it is dropped. */
  method UnknownPeer(desc: ChannelDesc, offer: Sdp, answer: Sdp)
    requires DistinctKeys(desc)
  {
    var m := new RtcManager("carol", "room", desc);
    var r := m.HandleSocketMessage(OfferFrom("x", offer), answer);
    assert r == Fail(InvalidId("x"));
    r := m.HandleSocketMessage(AnswerFrom("x", answer), "");
    assert r.Fail?;
    r := m.HandleSocketMessage(IceFrom("x", "cand"), "");
    assert m.effects == [] && m.connections == [] && m.records == map[];
  }

  /** A second `connected` report on an open record notifies the observers again. */
  method Renotify(m: RtcManager, h: Handle)
    requires m.Valid() && h in m.records && m.records[h].state == Open
    modifies m
  {
    ghost var before := m.effects;
    m.TransportStateChanged(h, StateConnected);
    assert m.records[h].state == Open;
    assert m.effects == before + Opened(m.onConnection, m.connectionObservers, h);
  }

  /** Closing a record deletes its id and notifies `onconnectionend`, then each observer. */
  method CloseNotifies(desc: ChannelDesc)
    requires DistinctKeys(desc)
  {
    var m := new RtcManager("dave", "room", desc);
    m.OnConnectionEnd(App(9));
    var h := m.InitConn("p", "peer");
    assert m.effects == [] && m.onConnectionEnd == NoOp && m.connectionEndObservers == [App(9)];
    m.TransportStateChanged(0, StateDisconnected);
    assert m.records[0].state == Closed && m.connections == [];
    assert m.effects == Ended(NoOp, [App(9)], 0);
    assert m.effects[0] == ConnectionEnded(NoOp, 0) && m.effects[1] == ConnectionEnded(App(9), 0);
  }

  /** After a record closes, later reports on its transport change nothing and notify no one. */
  method LateEventsIgnored(m: RtcManager, h: Handle)
    requires m.Valid() && h in m.records && m.records[h].state == Closed
    modifies m
  {
    ghost var (conns, recs, log) := (m.connections, m.records, m.effects);
    m.TransportStateChanged(h, StateConnected);
    m.TransportStateChanged(h, StateClosed);
    assert m.connections == conns && m.records == recs && m.effects == log;
  }

  /** A second Init for the same id replaces the record; when the orphaned transport then fails,
      `_disconnect` deletes the id, taking the live replacement out of the registry with it. */
  method OrphanRemovesReplacement(desc: ChannelDesc)
    requires DistinctKeys(desc)
  {
    var m := new RtcManager("erin", "room", desc);
    var h0 := m.InitConn("p", "first");
    assert m.connections == [("p", 0)];
    var h1 := m.InitConn("p", "second");
    assert m.connections == [("p", 1)];
    m.TransportStateChanged(0, StateFailed);
    assert m.connections == [];
    // The replacement is live and its handler still subscribed: it can still open, unlisted.
    assert m.records[1].state == Init && 1 in m.stateHandlers;
  }

  /** A message on a channel of an orphaned record is attributed to the record that replaced it. */
  method MessageGoesToReplacement(m: RtcManager, h0: Handle, h1: Handle, msg: Payload)
    requires m.Valid() && h0 in m.records && m.records[h0].id == "p" && m.connections == [("p", h1)]
    requires m.messageObservers == [OneChannel("chat", App(5))] && "chat" in m.records[h0].channels
    modifies m
  {
    ghost var before := m.effects;
    m.ChannelMessageReceived(h0, "chat", msg);
    assert m.effects == before + [MessageDelivered(App(5), msg, "chat", Some(h1))];
  }

  /** Broadcast goes to the open records only, on the named channel. */
  method BroadcastOnlyOpen(m: RtcManager, h0: Handle, h1: Handle, payload: Payload)
    requires m.Valid() && m.connections == [("p", h0), ("q", h1)] && "game" in DescChannels(m.chanDesc)
    requires h0 in m.records && h1 in m.records && m.records[h0].state == Init && m.records[h1].state == Open
    modifies m
  {
    ghost var before := m.effects;
    assert m.connections[..1] == [("p", h0)] && m.connections[..1][..0] == [];
    assert OpenConnections(m.connections[..1], m.records) == [];
    assert OpenConnections(m.connections, m.records) == [h1];
    m.Broadcast("game", payload);
    assert m.effects == before + [ChannelSend(h1, "game", payload)];
  }

  /** A relayed candidate changes no record and no transport state, so `get_user` answers the same
      before and after it. */
  method UserSurvivesIce(m: RtcManager, id: PeerId, source: PeerId, candidate: Candidate)
    requires m.Valid()
    modifies m
  {
    var before := m.GetUser(id);
    var r := m.HandleSocketMessage(IceFrom(source, candidate), "");
    var after := m.GetUser(id);
    assert before == after;
  }
}
