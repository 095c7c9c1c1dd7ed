# RtcManager peer registry and signaling state machine, in Dafny

This project models the core of `RtcManager` (`src/main.ts`), a browser library that builds a mesh of
WebRTC peer connections among the members of a room. A WebSocket relay carries the signaling
messages. The model covers:

- the peer registry `_connections`: a JavaScript `Map` from peer id to connection record;
- the lifecycle of each record: `init`, then `open`, then `closed`;
- the dispatch of relay messages (`JoinSelf`, `Join`, `Init`, `IceCandidate`, `Offer`, `Answer`);
- the per-record `connectionstatechange` handler;
- the pre-negotiated data channels of each record;
- `get_connections`, `broadcast` and `get_user`;
- the three observer lists and their dispatch.

The model is imperative, like the source. `RtcManager` is a class (module `Manager`, file
`rtc_manager.dfy`). Its fields are the ones the source mutates: the registry, the record states,
`_own_id` and the observer arrays. Each method states the manager's whole new state.

The outside world is represented as follows:

- **Transports.** Each `RTCPeerConnection` is an opaque handle (`nat`). Record and transport are
  created together, so `records: map<Handle, Connection>` holds every record ever created, keyed by
  its handle. A record that was replaced in the registry stays there as an orphan.
- **Effect log.** `effects` records everything the manager does to the outside world, in order:
  socket sends, `setLocalDescription`, `setRemoteDescription`, `addIceCandidate`, channel sends and
  observer invocations. Observer callbacks are opaque tokens, so an invocation is a log entry.
- **Transport callbacks.** "State became X", "candidate discovered" and "message on a channel" are
  methods the environment calls: `TransportStateChanged`, `TransportIceCandidate` and
  `ChannelMessageReceived`.
- **State handlers.** `stateHandlers` is the set of transports whose `connectionstatechange`
  handler is still subscribed. `iceForwarders` is the set of transports with an `icecandidate`
  listener.
- **Created descriptions.** The offer or answer a transport creates is a parameter.

Other modules:

- `JsMap` models the `Map` semantics the registry relies on. `set` on a present key replaces the
  value and keeps the key's position. `set` on a new key appends it. `delete` removes the key.
  Iteration follows insertion order.
- `Channels` models the channel descriptor and the channels built from it.
- `Events` models the effect log, observer dispatch and broadcast sends.
- `Registry` models connection records, the registry invariant and `get_connections`'s filter.
- `Scenarios` is client code. It drives managers through concrete event sequences and checks the
  outcome from the contracts alone.

The class invariant `Valid()` states:

- each registry entry names a live (non-`closed`) record of that same id;
- every record's channel map is the one the descriptor determines;
- a record's state handler is subscribed exactly while the record is not `closed`.

`StateStep` states the allowed moves of a record's state. Each transport report moves its record by
one allowed step, and a `closed` record never moves again, as long as observer callbacks return
normally (see "## Left out").

## Behaviour worth knowing

The model follows the code in every case below.

- `JoinSelf` overwrites the own id every time it arrives (src/main.ts:144).
- `Init` always builds a fresh record and replaces any record already held for that id
  (src/main.ts:150, 207). The replaced record keeps its transport and its subscribed handler. So two non-`closed` records for one id can coexist: one in
  the registry and one orphaned (`Scenarios.OrphanRemovesReplacement`).
- `_disconnect` deletes by id (src/main.ts:223). When an orphaned transport ends, it removes the
  live replacement from the registry. That replacement can still open later, but it is then
  outside the registry.
- Nothing stops a second `connected` report from re-running the open branch. The open
  notifications then fire again (src/main.ts:209-211; `Scenarios.Renotify`).
- Channel messages are attributed to whatever record the registry currently holds for the id, or
  to none (src/main.ts:273; `Scenarios.MessageGoesToReplacement`).
- Only the initiator (the side that received `Join`) subscribes an `icecandidate` listener
  (src/main.ts:182-191). The responder never forwards its candidates. The listener is never
  removed, so candidates are forwarded even after the record closes.
- An `Offer` or `Answer` for an unknown peer throws inside an `async` function. The result is a
  rejected promise, not a synchronous error. The model returns `Fail(InvalidId(id))`, and nothing
  else happens.

## Model

| member | source | states |
|---|---|---|
| JsMap.Get | src/main.ts:169 | `Map.get` is `None` exactly when no entry has the key; in a map with distinct keys it is the value stored under the key |
| JsMap.GetSet | src/main.ts:207 | after `set(id, c)` the map still has distinct keys, `id` maps to `c`, and every other key maps to what it did before |
| JsMap.KeysSet | src/main.ts:207 | `set` on a present key keeps the iteration order; on a new key it appends the key at the end |
| JsMap.GetDelete | src/main.ts:223 | after `delete(id)` the keys stay distinct, `id` is absent and every other key is unchanged |
| JsMap.KeysDelete | src/main.ts:223 | on a map with distinct keys, the keys after `delete(k)` are the old keys with `k` filtered out (`Without`), every other key kept in its iteration order |
| Channels.DescChannelsExact | src/main.ts:266-278 | a record's channel map has exactly the descriptor's keys; the channel under key `k` is numbered with the descriptor's number for `k`, with `negotiated` and `ordered` set |
| Events.DeliveriesAppend | src/main.ts:313-315 | message dispatch over observers registered later comes after dispatch over those registered earlier |
| Events.DeliveriesFrom | src/main.ts:312-320 | every callback invocation for a message comes from an observer that accepts its channel, and carries the message, channel and record unchanged |
| Events.ChannelObserverFiltered | src/main.ts:318-320 | a callback registered only through `on_channel_message(c, cb)` is never invoked for a message on another channel |
| Events.DeliveriesAllInOrder | src/main.ts:312-316 | when all observers came from `on_message`, each is invoked once per message, in registration order |
| Events.OnMessageSeesAll | src/main.ts:312-316 | every `on_message` callback is invoked for every message |
| Events.BroadcastOncePer | src/main.ts:305-310 | over distinct connections, a broadcast sends exactly once to each of them and never to any other |
| Registry.OpenConnectionsMembers | src/main.ts:297-303 | a record is listed by `get_connections` if and only if the registry holds it and its state is `open` |
| Registry.OpenConnectionsDistinct | src/main.ts:297-303 | a registry holding each record once lists each open record once |
| Registry.RegisterKeeps | src/main.ts:204-207 | storing a fresh live record under its id keeps the registry invariant, whatever the id held before |
| Registry.RetireKeeps | src/main.ts:221-223 | closing a record and deleting its id keeps the registry invariant, even when the id held a newer record |
| Registry.OpenKeeps | src/main.ts:209-210 | opening a live record keeps the registry invariant |
| Manager.RtcManager.constructor | src/main.ts:95-104 | a new manager stores its name, room and descriptor, and starts with no own id, an empty registry, no records, no observers and nothing sent |
| Manager.RtcManager.SetOnConnection | src/main.ts:84 | assigning `onconnection` replaces the primary connection callback |
| Manager.RtcManager.SetOnConnectionEnd | src/main.ts:85 | assigning `onconnectionend` replaces the primary end callback |
| Manager.RtcManager.OnConnection | src/main.ts:116-118 | `on_connection` appends the callback to the connection observers |
| Manager.RtcManager.OnConnectionEnd | src/main.ts:124-126 | `on_connectionend` appends the callback to the end observers |
| Manager.RtcManager.OnMessage | src/main.ts:322-324 | `on_message` appends an unfiltered observer |
| Manager.RtcManager.OnChannelMessage | src/main.ts:318-320 | `on_channel_message(chan, cb)` appends an observer that passes on only messages of `chan` |
| Manager.RtcManager.NotifyConnection | src/main.ts:119-122 | `_on_connection` appends to the log `onconnection`'s invocation first, then one invocation of each `on_connection` callback in registration order, and nothing else |
| Manager.RtcManager.NotifyConnectionEnd | src/main.ts:127-130 | `_on_connectionend` appends to the log `onconnectionend`'s invocation first, then one invocation of each `on_connectionend` callback in registration order, and nothing else |
| Manager.RtcManager.DispatchMessage | src/main.ts:312-316 | `_on_message` appends exactly the invocations `Deliveries` gives for the observers in registration order |
| Manager.RtcManager.InitDataChannels | src/main.ts:266-279 | the channel map built has exactly the descriptor's keys, each channel numbered from the descriptor, negotiated and ordered |
| Manager.RtcManager.InitConn | src/main.ts:195-219 | a fresh transport and a fresh `init` record for `id` replace whatever `id` held, other ids are untouched, the record's handler is subscribed, and the invariant holds |
| Manager.RtcManager.Disconnect | src/main.ts:221-225 | `_disconnect` closes the given record, deletes the id whatever record it holds, then notifies the end observers with the closed record |
| Manager.RtcManager.MarkOpen | src/main.ts:209-211 | on `connected` a subscribed record becomes `open` and the connection observers fire, without a guard against repeats |
| Manager.RtcManager.Retire | src/main.ts:212-215 | on `disconnected`, `closed` or `failed` the record becomes `closed`, its id is deleted, the end observers fire and the handler is unsubscribed |
| Manager.RtcManager.TransportStateChanged | src/main.ts:208-217 | a report on a transport whose handler is gone, or a state other than the four handled, changes nothing and notifies no one; otherwise it opens or retires the record; the record's state only moves by an allowed step |
| Manager.RtcManager.TransportIceCandidate | src/main.ts:182-191 | a discovered candidate is sent to the record's peer only on initiator transports and only when it is not the end-of-gathering `null` |
| Manager.RtcManager.ChannelMessageReceived | src/main.ts:272-274 | a channel message is dispatched with whatever record the registry currently holds for the transport's peer id, possibly none |
| Manager.RtcManager.GetConn | src/main.ts:168-172 | `_get_conn` fails with an invalid-id error exactly when the registry has no record for the id; otherwise it yields the live record of that id |
| Manager.RtcManager.CreateOffer | src/main.ts:244-253 | with a record for the id, the offer is set as local description and then sent to the peer; without one nothing happens |
| Manager.RtcManager.CreateAnswer | src/main.ts:255-264 | the answer is set as local description and then sent to the peer |
| Manager.RtcManager.HandleJoin | src/main.ts:174-193 | Join creates a fresh record and transport for the peer, sends Init carrying this side's own name, subscribes ICE forwarding, then sets and sends the offer; nothing else changes |
| Manager.RtcManager.HandleIce | src/main.ts:227-230 | a candidate for an id with a record goes to that record's transport; for an unknown id nothing happens |
| Manager.RtcManager.HandleOffer | src/main.ts:232-237 | an Offer for an unknown id fails and sends nothing; otherwise the remote description is set and the answer is set locally and sent back |
| Manager.RtcManager.HandleAnswer | src/main.ts:239-242 | an Answer for an unknown id fails and does nothing; otherwise the remote description is set |
| Manager.RtcManager.HandleSocketMessage | src/main.ts:142-163 | dispatch by message tag, with the whole new state for each tag: JoinSelf overwrites the own id; Join and Init create a record and a fresh transport in state `new`, and no other message touches records, transports or the registry; Join sends Init and the offer, Init sends nothing; Offer and Answer fail exactly for unknown peers; unknown tags change nothing |
| Manager.RtcManager.GetUser | src/main.ts:281-285 | `get_user` fails for an unknown id; otherwise it resolves at once when the transport is connected and is pending otherwise |
| Manager.RtcManager.GetConnections | src/main.ts:297-303 | the result lists the open records of the registry in iteration order: a record is listed iff the registry holds it and it is open, and none is listed twice |
| Manager.RtcManager.UniqueHandles | src/main.ts:207 | under the class invariant no record appears twice in the registry, since each record is stored under its own id only |
| Manager.RtcManager.Broadcast | src/main.ts:305-310 | broadcast appends one send on the channel per open record, in registry order, and none for any other record |

## Left out

- WebSocket lifecycle: the constructor's `readyState` checks and `open` listener,
  `_init_connection`, JSON parsing and the binary-message branch (src/main.ts:96-114, 132-141, 164).
  These are I/O plumbing, so messages arrive already decoded as `SocketMsg` values.
- SDP and ICE internals: `createOffer`, `createAnswer`, the `RTCIceCandidate` constructor and the
  `ICE_SERVERS` configuration (src/main.ts:31-46, 199-202, 228). These are foreign WebRTC calls. The
  created descriptions are parameters. The description and candidate calls are effect-log entries.
- Promise interleaving: `_handle_offer`, `_handle_answer`, `_create_offer` and `_create_answer`
  are `async`. Other events can run between their `await`s, and a rejected description stops them
  part-way. The model runs each handler to completion, with every transport call succeeding.
- Manager.RtcManager.GetUser: only the synchronous part is modelled (the unknown-id error, and
  whether the promise is already resolved). The handler a pending promise subscribes, and its
  later resolution, are not modelled.
- Manager.RtcManager.Broadcast: every channel send is assumed to succeed. In a browser, `send` on
  a channel that is not yet open throws, which would end the loop early. That is a foreign-call
  failure.
- Manager.RtcManager.NotifyConnection, NotifyConnectionEnd, DispatchMessage, Retire and
  TransportStateChanged: every observer callback is assumed to return normally and never to call
  back into the manager. The model does not capture what the source does otherwise:
  - A callback that throws inside `_disconnect` (src/main.ts:213, 127-130) skips the unsubscribe at
    src/main.ts:214. The handler then stays subscribed. A later `disconnected`, `closed` or `failed`
    report runs `_disconnect` again: a second end notification, and a second delete of the id. A
    later `connected` report moves the closed record back to `open`. So the proved "a `closed`
    record never moves again" (`StateStep`, `Scenarios.LateEventsIgnored`) holds only for callbacks
    that return.
  - A callback that registers another observer while a dispatch runs also has that observer run in
    the same dispatch, because the `for...of` loops read the live arrays (src/main.ts:121, 129, 313).
    The model iterates over the lists as they were when the dispatch started.
- Manager.RtcManager.InitDataChannels: descriptor numbers are assumed distinct and at most 65534.
  The browser's `createDataChannel` (src/main.ts:271) throws otherwise, so `_init_conn` would stop
  before `set` (src/main.ts:207): no record would be stored, and for Join no Init would be sent. The
  manager also keeps the caller's descriptor object by reference (src/main.ts:102). The model
  treats the descriptor as never mutated after construction.
- Payload types (`TypedArray`, `Blob`, `DataView`, src/main.ts:60-71) are an opaque `Payload`,
  since the content is never inspected.
- Logging through `console.log` and `console.warn`.
- The getters `name`, `room` and `own_id` (src/main.ts:91-93) are plain field reads of the class.
- The transport object `RTCPeerConnection` is never closed by the source. An ended or orphaned
  transport simply stays in `records`.
- vite.config.ts is build configuration and is not part of this model.
