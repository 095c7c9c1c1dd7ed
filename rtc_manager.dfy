/**
 `RtcManager`: the peer registry, the signaling dispatch, the per-record connection-state handler,
 the data-channel multiplexer and the observer lists.

 The socket, the transports and the callbacks are outside the model: the socket is the
 `SocketSend` entries of the effect log, each transport is a handle, and each transport callback
 ("state became X", "candidate discovered", "message on a channel") is a method the environment
 calls. The offer or answer a transport creates is passed in as a parameter.
 */
module Manager {
  import opened Wrappers
  import opened JsMap
  import opened Signaling
  import opened Channels
  import opened Events
  import opened Registry

  /** The error `_get_conn` and `get_user` throw for an id the registry does not hold. */
  datatype Error = InvalidId(id: PeerId)

  /** What `get_user` returns: a promise already resolved with the record, or one still waiting for
      its transport to report `connected`. */
  datatype UserPromise = Resolved(conn: Handle) | Pending(conn: Handle)

  class RtcManager {
    const name: string
    const room: string
    const chanDesc: ChannelDesc

    /** `_own_id`: the identity the relay assigned to this side, if it has. */
    var ownId: Option<PeerId>
    /** `_connections`: peer id to the handle of its current record, in insertion order. */
    var connections: Entries<PeerId, Handle>
    /** Every record ever created, current or orphaned, by its transport handle. */
    var records: map<Handle, Connection>
    /** The `connectionState` each transport last reported. */
    var transportStates: map<Handle, TransportState>
    /** Transports whose `connectionstatechange` handler is still subscribed. */
    var stateHandlers: set<Handle>
    /** Transports with an `icecandidate` listener forwarding candidates to the relay. */
    var iceForwarders: set<Handle>
    /** The handle the next `new RTCPeerConnection` gets. */
    var nextHandle: Handle
    /** Everything the manager has done to the outside world, in order. */
    var effects: seq<Effect>

    var onConnection: Callback
    var onConnectionEnd: Callback
    /** `_connection_events`, `_connectionend_events` and `_msg_events`, in registration order. */
    var connectionObservers: seq<Callback>
    var connectionEndObservers: seq<Callback>
    var messageObservers: seq<MessageObserver>

    /** The registry maps `id` to a live record of that id. */
    ghost predicate Holds(id: PeerId, h: Handle)
      reads this
    {
      Live(records, id, h)
    }

    ghost predicate Valid()
      reads this
    {
      && DistinctKeys(chanDesc)
      && RegistryHolds(connections, records)
      && (forall h :: h in records ==> h < nextHandle && records[h].conn == h && records[h].channels == DescChannels(chanDesc))
      && (forall h :: h in records ==> (h in stateHandlers <==> records[h].state != Closed))
      && stateHandlers <= records.Keys
      && iceForwarders <= records.Keys
      && transportStates.Keys == records.Keys
    }

    /** The record the registry currently holds for `id`. */
    function Current(id: PeerId): (r: Option<Handle>)
      reads this
    {
      Get(connections, id)
    }

    constructor (name: string, room: string, chanDesc: ChannelDesc)
      requires DistinctKeys(chanDesc)
      ensures Valid()
      ensures this.name == name && this.room == room && this.chanDesc == chanDesc
      ensures ownId == None && connections == [] && records == map[] && effects == []
      ensures transportStates == map[] && stateHandlers == {} && iceForwarders == {} && nextHandle == 0
      ensures onConnection == NoOp && onConnectionEnd == NoOp
      ensures connectionObservers == [] && connectionEndObservers == [] && messageObservers == []
    {
      this.name, this.room, this.chanDesc := name, room, chanDesc;
      ownId := None;
      connections, records, transportStates := [], map[], map[];
      stateHandlers, iceForwarders, nextHandle := {}, {}, 0;
      effects := [];
      onConnection, onConnectionEnd := NoOp, NoOp;
      connectionObservers, connectionEndObservers, messageObservers := [], [], [];
    }

    // ---------------------------------------------------------------- observers

    /** Assigning the public `onconnection` property. */
    method SetOnConnection(cb: Callback)
      modifies this`onConnection
      ensures onConnection == cb
    {
      onConnection := cb;
    }

    /** Assigning the public `onconnectionend` property. */
    method SetOnConnectionEnd(cb: Callback)
      modifies this`onConnectionEnd
      ensures onConnectionEnd == cb
    {
      onConnectionEnd := cb;
    }

    /** `on_connection(cb)`. */
    method OnConnection(cb: Callback)
      modifies this`connectionObservers
      ensures connectionObservers == old(connectionObservers) + [cb]
    {
      connectionObservers := connectionObservers + [cb];
    }

    /** `on_connectionend(cb)`. */
    method OnConnectionEnd(cb: Callback)
      modifies this`connectionEndObservers
      ensures connectionEndObservers == old(connectionEndObservers) + [cb]
    {
      connectionEndObservers := connectionEndObservers + [cb];
    }

    /** `on_message(cb)`. */
    method OnMessage(cb: Callback)
      modifies this`messageObservers
      ensures messageObservers == old(messageObservers) + [AnyChannel(cb)]
    {
      messageObservers := messageObservers + [AnyChannel(cb)];
    }

    /** `on_channel_message(chan, cb)`: registers a wrapper that calls `cb` only for `chan`. */
    method OnChannelMessage(chan: string, cb: Callback)
      modifies this`messageObservers
      ensures messageObservers == old(messageObservers) + [OneChannel(chan, cb)]
    {
      messageObservers := messageObservers + [OneChannel(chan, cb)];
    }

    /** `_on_connection(c)`. */
    method NotifyConnection(h: Handle)
      modifies this`effects
      ensures effects == old(effects) + Opened(onConnection, connectionObservers, h)
    {
      effects := effects + [ConnectionOpened(onConnection, h)];
      for i := 0 to |connectionObservers|
        invariant effects == old(effects) + Opened(onConnection, connectionObservers[..i], h)
      {
        effects := effects + [ConnectionOpened(connectionObservers[i], h)];
      }
      assert connectionObservers[..|connectionObservers|] == connectionObservers;
    }

    /** `_on_connectionend(c)`. */
    method NotifyConnectionEnd(h: Handle)
      modifies this`effects
      ensures effects == old(effects) + Ended(onConnectionEnd, connectionEndObservers, h)
    {
      effects := effects + [ConnectionEnded(onConnectionEnd, h)];
      for i := 0 to |connectionEndObservers|
        invariant effects == old(effects) + Ended(onConnectionEnd, connectionEndObservers[..i], h)
      {
        effects := effects + [ConnectionEnded(connectionEndObservers[i], h)];
      }
      assert connectionEndObservers[..|connectionEndObservers|] == connectionEndObservers;
    }

    /** `_on_message(msg, chan, conn)`. */
    method DispatchMessage(msg: Payload, chan: string, holder: Option<Handle>)
      modifies this`effects
      ensures effects == old(effects) + Deliveries(messageObservers, msg, chan, holder)
    {
      for i := 0 to |messageObservers|
        invariant effects == old(effects) + Deliveries(messageObservers[..i], msg, chan, holder)
      {
        assert messageObservers[..i + 1][..i] == messageObservers[..i];
        var o := messageObservers[i];
        if o.AnyChannel? || o.chan == chan {
          effects := effects + [MessageDelivered(o.cb, msg, chan, holder)];
        }
      }
      assert messageObservers[..|messageObservers|] == messageObservers;
    }

    // ---------------------------------------------------------------- registry

    /** `_init_data_channels`: one pre-negotiated, ordered channel per descriptor key. */
    method InitDataChannels() returns (chans: map<string, Channel>)
      requires DistinctKeys(chanDesc)
      ensures chans == DescChannels(chanDesc)
      ensures chans.Keys == set i | 0 <= i < |chanDesc| :: chanDesc[i].0
      ensures forall i :: 0 <= i < |chanDesc| ==> chans[chanDesc[i].0] == Channel(chanDesc[i].0, chanDesc[i].1, true, true)
    {
      chans := map[];
      for i := 0 to |chanDesc|
        invariant chans == DescChannels(chanDesc[..i])
      {
        assert chanDesc[..i + 1][..i] == chanDesc[..i];
        var (k, n) := chanDesc[i];
        chans := chans[k := Channel(k, n, true, true)];
      }
      assert chanDesc[..|chanDesc|] == chanDesc;
      DescChannelsExact(chanDesc);
    }

    /** `_init_conn(id, name)`: a fresh transport and a fresh record in state `Init`, stored under
        `id` in place of any record already there, with its state handler subscribed. */
    method InitConn(id: PeerId, peerName: string) returns (h: Handle)
      requires Valid()
      modifies this`connections, this`records, this`transportStates, this`stateHandlers, this`nextHandle
      ensures Valid()
      ensures h == old(nextHandle) && h !in old(records) && nextHandle == h + 1
      ensures records == old(records)[h := Connection(h, peerName, id, DescChannels(chanDesc), Init)]
      ensures connections == Set(old(connections), id, h)
      ensures transportStates == old(transportStates)[h := StateNew]
      ensures stateHandlers == old(stateHandlers) + {h}
    {
      h := nextHandle;
      nextHandle := nextHandle + 1;
      var channels := InitDataChannels();
      var c := Connection(h, peerName, id, channels, Init);
      RegisterKeeps(connections, records, h, c);
      records := records[h := c];
      transportStates := transportStates[h := StateNew];
      connections := Set(connections, id, h);
      stateHandlers := stateHandlers + {h};
    }

    /** `_disconnect(id, c)`: marks record `h` closed, deletes whatever `id` maps to, and notifies
        the end observers with record `h`. */
    method Disconnect(id: PeerId, h: Handle)
      requires Valid() && h in records && records[h].id == id
      modifies this`records, this`connections, this`effects
      ensures records == old(records)[h := old(records)[h].(state := Closed)]
      ensures connections == Delete(old(connections), id)
      ensures effects == old(effects) + Ended(onConnectionEnd, connectionEndObservers, h)
    {
      records := records[h := records[h].(state := Closed)];
      connections := Delete(connections, id);
      NotifyConnectionEnd(h);
    }

    /** The `connected` branch of the per-record handler: the record opens and the connection
        observers fire. Nothing stops it from firing again on a later `connected`. */
    method MarkOpen(h: Handle)
      requires Valid() && h in stateHandlers
      modifies this`records, this`effects
      ensures Valid()
      ensures records == old(records)[h := old(records)[h].(state := Open)]
      ensures effects == old(effects) + Opened(onConnection, connectionObservers, h)
    {
      OpenKeeps(connections, records, h);
      records := records[h := records[h].(state := Open)];
      NotifyConnection(h);
    }

    /** The `disconnected` / `closed` / `failed` branch of the per-record handler: `_disconnect`,
        then the handler unsubscribes itself. */
    method Retire(h: Handle)
      requires Valid() && h in stateHandlers
      modifies this`records, this`connections, this`stateHandlers, this`effects
      ensures Valid()
      ensures records == old(records)[h := old(records)[h].(state := Closed)]
      ensures connections == Delete(old(connections), old(records)[h].id)
      ensures stateHandlers == old(stateHandlers) - {h}
      ensures effects == old(effects) + Ended(onConnectionEnd, connectionEndObservers, h)
    {
      RetireKeeps(connections, records, h);
      Disconnect(records[h].id, h);
      stateHandlers := stateHandlers - {h};
    }

    /** A transport reports a new `connectionState`; the record's handler reacts if still subscribed. */
    method TransportStateChanged(h: Handle, s: TransportState)
      requires Valid() && h in records
      modifies this`transportStates, this`records, this`connections, this`stateHandlers, this`effects
      ensures Valid()
      ensures transportStates == old(transportStates)[h := s]
      ensures h in records && StateStep(old(records)[h].state, records[h].state)
      ensures h !in old(stateHandlers) || (s != StateConnected && !Ends(s)) ==>
        records == old(records) && connections == old(connections) && stateHandlers == old(stateHandlers) && effects == old(effects)
      ensures h in old(stateHandlers) && s == StateConnected ==>
        && records == old(records)[h := old(records)[h].(state := Open)]
        && connections == old(connections) && stateHandlers == old(stateHandlers)
        && effects == old(effects) + Opened(onConnection, connectionObservers, h)
      ensures h in old(stateHandlers) && Ends(s) ==>
        && records == old(records)[h := old(records)[h].(state := Closed)]
        && connections == Delete(old(connections), old(records)[h].id)
        && stateHandlers == old(stateHandlers) - {h}
        && effects == old(effects) + Ended(onConnectionEnd, connectionEndObservers, h)
    {
      transportStates := transportStates[h := s];
      if h in stateHandlers {
        if s == StateConnected {
          MarkOpen(h);
        } else if Ends(s) {
          Retire(h);
        }
      }
    }

    /** A transport discovers a local ICE candidate (`null` once gathering ends). */
    method TransportIceCandidate(h: Handle, candidate: Option<Candidate>)
      requires Valid() && h in records
      modifies this`effects
      ensures effects == old(effects) + (if h in iceForwarders && candidate.Some? then [SocketSend(IceTo(records[h].id, candidate.value))] else [])
    {
      if h in iceForwarders && candidate.Some? {
        effects := effects + [SocketSend(IceTo(records[h].id, candidate.value))];
      }
    }

    /** A message arrives on channel `chan` of transport `h`: it is attributed to whichever record
        the registry holds for the id `h` was created for, if any. */
    method ChannelMessageReceived(h: Handle, chan: string, msg: Payload)
      requires Valid() && h in records && chan in records[h].channels
      modifies this`effects
      ensures effects == old(effects) + Deliveries(messageObservers, msg, chan, Current(records[h].id))
    {
      DispatchMessage(msg, chan, Get(connections, records[h].id));
    }

    // ---------------------------------------------------------------- signaling

    /** `_get_conn(id)`. */
    method GetConn(id: PeerId) returns (r: Result<Handle, Error>)
      requires Valid()
      ensures r.Failure? <==> Current(id).None?
      ensures r.Failure? ==> r.error == InvalidId(id)
      ensures r.Success? ==> Current(id) == Some(r.value) && Holds(id, r.value)
    {
      var c := Get(connections, id);
      if c.None? {
        return Failure(InvalidId(id));
      }
      r := Success(c.value);
      var i := IndexOf(connections, id);
      assert connections[i] == (id, c.value);
    }

    /** `_create_offer(id)`, with `offer` the description the transport creates. */
    method CreateOffer(id: PeerId, offer: Sdp) returns (r: Outcome<Error>)
      requires Valid()
      modifies this`effects
      ensures r.Fail? <==> Current(id).None?
      ensures r.Fail? ==> effects == old(effects)
      ensures r.Pass? ==> effects == old(effects) + [SetLocalDescription(Current(id).value, offer), SocketSend(OfferTo(id, offer))]
    {
      var conn := GetConn(id);
      if conn.Failure? {
        return Fail(conn.error);
      }
      effects := effects + [SetLocalDescription(conn.value, offer), SocketSend(OfferTo(id, offer))];
      r := Pass;
    }

    /** `_create_answer(conn, id)`, with `answer` the description the transport creates. */
    method CreateAnswer(h: Handle, id: PeerId, answer: Sdp)
      modifies this`effects
      ensures effects == old(effects) + [SetLocalDescription(h, answer), SocketSend(AnswerTo(id, answer))]
    {
      effects := effects + [SetLocalDescription(h, answer), SocketSend(AnswerTo(id, answer))];
    }

    /** `_handle_join(id, name)`: this side initiates towards `id`. */
    method HandleJoin(id: PeerId, username: string, offer: Sdp)
      requires Valid()
      modifies this`connections, this`records, this`transportStates, this`stateHandlers, this`nextHandle
      modifies this`iceForwarders, this`effects
      ensures Valid()
      ensures var h := old(nextHandle);
        && nextHandle == h + 1
        && records == old(records)[h := Connection(h, username, id, DescChannels(chanDesc), Init)]
        && connections == Set(old(connections), id, h)
        && transportStates == old(transportStates)[h := StateNew]
        && stateHandlers == old(stateHandlers) + {h}
        && iceForwarders == old(iceForwarders) + {h}
        && effects == old(effects) + [SocketSend(InitTo(id, name)), SetLocalDescription(h, offer), SocketSend(OfferTo(id, offer))]
    {
      var h := InitConn(id, username);
      effects := effects + [SocketSend(InitTo(id, name))];
      iceForwarders := iceForwarders + {h};
      GetSet(old(connections), id, h, id);
      var r := CreateOffer(id, offer);
    }

    /** `_handle_ice(id, candidate)`: handed to the current record's transport, or dropped. */
    method HandleIce(id: PeerId, candidate: Candidate)
      requires Valid()
      modifies this`effects
      ensures Current(id).None? ==> effects == old(effects)
      ensures Current(id).Some? ==> effects == old(effects) + [AddIceCandidate(Current(id).value, candidate)]
    {
      var c := Get(connections, id);
      if c.Some? {
        effects := effects + [AddIceCandidate(c.value, candidate)];
      }
    }

    /** `_handle_offer(id, descr)`, with `answer` the description the transport creates. */
    method HandleOffer(id: PeerId, descr: Sdp, answer: Sdp) returns (r: Outcome<Error>)
      requires Valid()
      modifies this`effects
      ensures r.Fail? <==> Current(id).None?
      ensures r.Fail? ==> r.error == InvalidId(id) && effects == old(effects)
      ensures r.Pass? ==> var h := Current(id).value;
        effects == old(effects) + [SetRemoteDescription(h, descr), SetLocalDescription(h, answer), SocketSend(AnswerTo(id, answer))]
    {
      var conn := GetConn(id);
      if conn.Failure? {
        return Fail(conn.error);
      }
      effects := effects + [SetRemoteDescription(conn.value, descr)];
      CreateAnswer(conn.value, id, answer);
      r := Pass;
    }

    /** `_handle_answer(id, descr)`. */
    method HandleAnswer(id: PeerId, descr: Sdp) returns (r: Outcome<Error>)
      requires Valid()
      modifies this`effects
      ensures r.Fail? <==> Current(id).None?
      ensures r.Fail? ==> r.error == InvalidId(id) && effects == old(effects)
      ensures r.Pass? ==> effects == old(effects) + [SetRemoteDescription(Current(id).value, descr)]
    {
      var conn := GetConn(id);
      if conn.Failure? {
        return Fail(conn.error);
      }
      effects := effects + [SetRemoteDescription(conn.value, descr)];
      r := Pass;
    }

    /** The socket's `message` listener, once the message is decoded: dispatch on its `ty`.
        `created` is the description the transport creates for a Join (an offer) or an Offer
        (an answer); the other messages ignore it. A failure is the rejected promise of
        `_handle_offer` or `_handle_answer`. */
    method HandleSocketMessage(msg: SocketMsg, created: Sdp) returns (r: Outcome<Error>)
      requires Valid()
      modifies this`ownId, this`connections, this`records, this`transportStates, this`stateHandlers
      modifies this`nextHandle, this`iceForwarders, this`effects
      ensures Valid()
      ensures r.Fail? <==> (msg.OfferFrom? || msg.AnswerFrom?) && old(Current(msg.source)).None?
      ensures r.Fail? ==> r.error == InvalidId(msg.source) && effects == old(effects)
      ensures ownId == if msg.JoinSelf? then Some(msg.id) else old(ownId)
      ensures nextHandle == old(nextHandle) + if msg.Join? || msg.InitFrom? then 1 else 0
      ensures transportStates == if msg.Join? || msg.InitFrom? then old(transportStates)[old(nextHandle) := StateNew] else old(transportStates)
      ensures !msg.Join? && !msg.InitFrom? ==>
        && connections == old(connections) && records == old(records)
        && stateHandlers == old(stateHandlers) && iceForwarders == old(iceForwarders)
      ensures msg.Join? || msg.InitFrom? ==> var h := old(nextHandle);
        var id := if msg.Join? then msg.id else msg.source;
        var peerName := if msg.Join? then msg.username else msg.name;
        && records == old(records)[h := Connection(h, peerName, id, DescChannels(chanDesc), Init)]
        && connections == Set(old(connections), id, h)
        && stateHandlers == old(stateHandlers) + {h}
        && iceForwarders == old(iceForwarders) + (if msg.Join? then {h} else {})
      ensures msg.Join? ==> var h := old(nextHandle);
        effects == old(effects) + [SocketSend(InitTo(msg.id, name)), SetLocalDescription(h, created), SocketSend(OfferTo(msg.id, created))]
      ensures msg.JoinSelf? || msg.InitFrom? || msg.Unknown? ==> effects == old(effects)
      ensures msg.IceFrom? ==>
        effects == old(effects) + (if old(Current(msg.source)).Some? then [AddIceCandidate(old(Current(msg.source)).value, msg.candidate)] else [])
      ensures msg.OfferFrom? && r.Pass? ==> var h := old(Current(msg.source)).value;
        effects == old(effects) + [SetRemoteDescription(h, msg.offer), SetLocalDescription(h, created), SocketSend(AnswerTo(msg.source, created))]
      ensures msg.AnswerFrom? && r.Pass? ==> effects == old(effects) + [SetRemoteDescription(old(Current(msg.source)).value, msg.answer)]
    {
      r := Pass;
      match msg
      case JoinSelf(id) =>
        ownId := Some(id);
      case Join(id, username) =>
        HandleJoin(id, username, created);
      case InitFrom(source, peerName) =>
        var _ := InitConn(source, peerName);
      case IceFrom(source, candidate) =>
        HandleIce(source, candidate);
      case OfferFrom(source, offer) =>
        r := HandleOffer(source, offer, created);
      case AnswerFrom(source, answer) =>
        r := HandleAnswer(source, answer);
      case Unknown =>
    }

    // ---------------------------------------------------------------- queries and fan-out

    /** `get_user(id)`. */
    method GetUser(id: PeerId) returns (r: Result<UserPromise, Error>)
      requires Valid()
      ensures r.Failure? <==> Current(id).None?
      ensures r.Failure? ==> r.error == InvalidId(id)
      ensures r.Success? ==> var h := Current(id).value;
        Holds(id, h) && r.value == if transportStates[h] == StateConnected then Resolved(h) else Pending(h)
    {
      var conn := GetConn(id);
      if conn.Failure? {
        return Failure(InvalidId(id));
      }
      var h := conn.value;
      if transportStates[h] == StateConnected {
        r := Success(Resolved(h));
      } else {
        r := Success(Pending(h));
      }
    }

    /** `get_connections()`: the open records, in registry order. */
    method GetConnections() returns (open: seq<Handle>)
      requires Valid()
      ensures open == OpenConnections(connections, records)
      ensures forall h :: h in open <==> (exists i :: 0 <= i < |connections| && connections[i].1 == h) && records[h].state == Open
      ensures forall i, j :: 0 <= i < j < |open| ==> open[i] != open[j]
    {
      open := [];
      for i := 0 to |connections|
        invariant open == OpenConnections(connections[..i], records)
      {
        assert connections[..i + 1][..i] == connections[..i];
        var h := connections[i].1;
        if records[h].state == Open {
          open := open + [h];
        }
      }
      assert connections[..|connections|] == connections;
      forall h ensures h in open <==> (exists i :: 0 <= i < |connections| && connections[i].1 == h) && records[h].state == Open {
        OpenConnectionsMembers(connections, records, h);
      }
      UniqueHandles();
      OpenConnectionsDistinct(connections, records);
    }

    /** Distinct ids hold distinct records. */
    lemma UniqueHandles()
      requires Valid()
      ensures forall i, j :: 0 <= i < j < |connections| ==> connections[i].1 != connections[j].1
    {
      forall i, j | 0 <= i < j < |connections|
        ensures connections[i].1 != connections[j].1
      {
        assert Holds(connections[i].0, connections[i].1) && Holds(connections[j].0, connections[j].1);
      }
    }

    /** `broadcast(chan, payload)`: one send on `chan` per open record. */
    method Broadcast(chan: string, payload: Payload)
      requires Valid() && chan in DescChannels(chanDesc)
      modifies this`effects
      ensures effects == old(effects) + BroadcastSends(OpenConnections(connections, records), chan, payload)
      ensures forall h ::
        SendCount(effects, h, chan) == SendCount(old(effects), h, chan) + (if h in OpenConnections(connections, records) then 1 else 0)
    {
      var open := GetConnections();
      for i := 0 to |open|
        invariant effects == old(effects) + BroadcastSends(open[..i], chan, payload)
      {
        effects := effects + [ChannelSend(open[i], chan, payload)];
      }
      assert open[..|open|] == open;
      forall h ensures SendCount(effects, h, chan) == SendCount(old(effects), h, chan) + if h in open then 1 else 0 {
        SendCountAppend(old(effects), BroadcastSends(open, chan, payload), h, chan);
        BroadcastOncePer(open, chan, payload, h);
      }
    }
  }
}
