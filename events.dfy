/**
 The event bus and the log of everything the manager does to the outside world. Observer callbacks
 are opaque, so a callback is identified by a token; invoking it appends an entry to the log.
 Socket sends, transport calls and channel sends go to the same log, so their relative order is
 part of the model.
 */
module Events {
  import opened Wrappers
  import opened Signaling

  /** An observer callback: `NoOp` is `() => {}`, the value of `onconnection` and `onconnectionend`
      before the application assigns them; `App(t)` is an application callback, known by a token. */
  datatype Callback = NoOp | App(token: nat)

  /** An entry of `_msg_events`: a callback added by `on_message`, or the filtering wrapper that
      `on_channel_message(chan, cb)` registers around `cb`. */
  datatype MessageObserver = AnyChannel(cb: Callback) | OneChannel(chan: string, cb: Callback)

  /** One observable effect, in the order it happens. */
  datatype Effect =
    | SocketSend(sent: ClientMsg)
    | SetLocalDescription(transport: Handle, sdp: Sdp)
    | SetRemoteDescription(transport: Handle, sdp: Sdp)
    | AddIceCandidate(transport: Handle, candidate: Candidate)
    | ChannelSend(transport: Handle, chan: string, payload: Payload)
    | ConnectionOpened(cb: Callback, conn: Handle)
    | ConnectionEnded(cb: Callback, conn: Handle)
    | MessageDelivered(cb: Callback, payload: Payload, chan: string, holder: Option<Handle>)

  /** The invocations `_on_connection(c)` makes: `onconnection` first, then each `on_connection`
      callback in registration order. */
  function Opened(primary: Callback, observers: seq<Callback>, h: Handle): (r: seq<Effect>)
    ensures |r| == |observers| + 1 && r[0] == ConnectionOpened(primary, h)
    ensures forall i :: 0 <= i < |observers| ==> r[i + 1] == ConnectionOpened(observers[i], h)
  {
    [ConnectionOpened(primary, h)] + seq(|observers|, i requires 0 <= i < |observers| => ConnectionOpened(observers[i], h))
  }

  /** The invocations `_on_connectionend(c)` makes: `onconnectionend` first, then each
      `on_connectionend` callback in registration order. */
  function Ended(primary: Callback, observers: seq<Callback>, h: Handle): (r: seq<Effect>)
    ensures |r| == |observers| + 1 && r[0] == ConnectionEnded(primary, h)
    ensures forall i :: 0 <= i < |observers| ==> r[i + 1] == ConnectionEnded(observers[i], h)
  {
    [ConnectionEnded(primary, h)] + seq(|observers|, i requires 0 <= i < |observers| => ConnectionEnded(observers[i], h))
  }

  /** Whether an observer passes a message received on `chan` on to its callback. */
  predicate Receives(o: MessageObserver, chan: string) {
    o.AnyChannel? || o.chan == chan
  }

  /** The callback invocations one observer makes for a message. */
  function Deliver(o: MessageObserver, msg: Payload, chan: string, conn: Option<Handle>): (r: seq<Effect>) {
    if Receives(o, chan) then [MessageDelivered(o.cb, msg, chan, conn)] else []
  }

  /** The callback invocations `_on_message` makes, observer by observer in registration order. */
  function Deliveries(observers: seq<MessageObserver>, msg: Payload, chan: string, conn: Option<Handle>): (r: seq<Effect>)
  {
    if observers == [] then []
    else
      var n := |observers| - 1;
      Deliveries(observers[..n], msg, chan, conn) + Deliver(observers[n], msg, chan, conn)
  }

  /** Dispatch to two groups of observers is dispatch to the earlier-registered group first. */
  lemma {:induction false} DeliveriesAppend(a: seq<MessageObserver>, b: seq<MessageObserver>, msg: Payload, chan: string, conn: Option<Handle>)
    ensures Deliveries(a + b, msg, chan, conn) == Deliveries(a, msg, chan, conn) + Deliveries(b, msg, chan, conn)
  {
    if b != [] {
      var n := |b| - 1;
      assert (a + b)[..|a + b| - 1] == a + b[..n];
      DeliveriesAppend(a, b[..n], msg, chan, conn);
    } else {
      assert a + b == a;
    }
  }

  /** Every invocation is of an observer that accepts the channel, with the message, its channel
      and the connection unchanged. */
  lemma {:induction false} DeliveriesFrom(observers: seq<MessageObserver>, msg: Payload, chan: string, conn: Option<Handle>)
    ensures forall e :: e in Deliveries(observers, msg, chan, conn) ==>
      exists i :: 0 <= i < |observers| && Receives(observers[i], chan) && e == MessageDelivered(observers[i].cb, msg, chan, conn)
  {
    if observers != [] {
      var n := |observers| - 1;
      DeliveriesFrom(observers[..n], msg, chan, conn);
      forall e | e in Deliveries(observers, msg, chan, conn)
        ensures exists i :: 0 <= i < |observers| && Receives(observers[i], chan) && e == MessageDelivered(observers[i].cb, msg, chan, conn)
      {
        if e in Deliveries(observers[..n], msg, chan, conn) {
          var i :| 0 <= i < n && Receives(observers[..n][i], chan) && e == MessageDelivered(observers[..n][i].cb, msg, chan, conn);
          assert observers[..n][i] == observers[i];
        } else {
          assert Receives(observers[n], chan) && e == MessageDelivered(observers[n].cb, msg, chan, conn);
        }
      }
    }
  }

  /** A callback registered only through `on_channel_message(c, cb)` is never invoked for a
      message on a channel other than `c`. */
  lemma ChannelObserverFiltered(observers: seq<MessageObserver>, msg: Payload, chan: string, conn: Option<Handle>, c: string, cb: Callback)
    requires forall i :: 0 <= i < |observers| && observers[i].cb == cb ==> observers[i] == OneChannel(c, cb)
    requires chan != c
    ensures forall e :: e in Deliveries(observers, msg, chan, conn) ==> !e.MessageDelivered? || e.cb != cb
  {
    DeliveriesFrom(observers, msg, chan, conn);
  }

  /** When every observer came from `on_message`, each sees the message, in registration order. */
  lemma {:induction false} DeliveriesAllInOrder(observers: seq<MessageObserver>, msg: Payload, chan: string, conn: Option<Handle>)
    requires forall i :: 0 <= i < |observers| ==> observers[i].AnyChannel?
    ensures var r := Deliveries(observers, msg, chan, conn);
      |r| == |observers| && forall i :: 0 <= i < |observers| ==> r[i] == MessageDelivered(observers[i].cb, msg, chan, conn)
  {
    if observers != [] {
      var n := |observers| - 1;
      DeliveriesAllInOrder(observers[..n], msg, chan, conn);
    }
  }

  /** Every `on_message` callback sees every message. */
  lemma {:induction false} OnMessageSeesAll(observers: seq<MessageObserver>, msg: Payload, chan: string, conn: Option<Handle>, i: nat)
    requires i < |observers| && observers[i].AnyChannel?
    ensures MessageDelivered(observers[i].cb, msg, chan, conn) in Deliveries(observers, msg, chan, conn)
  {
    var n := |observers| - 1;
    if i < n {
      OnMessageSeesAll(observers[..n], msg, chan, conn, i);
    }
  }

  /** The sends `broadcast(chan, payload)` performs over the given connections, in order. */
  function BroadcastSends(conns: seq<Handle>, chan: string, payload: Payload): (r: seq<Effect>)
    ensures |r| == |conns|
  {
    seq(|conns|, i requires 0 <= i < |conns| => ChannelSend(conns[i], chan, payload))
  }

  /** How many sends on `chan` to transport `h` a log holds. */
  function SendCount(log: seq<Effect>, h: Handle, chan: string): (r: nat)
  {
    if log == [] then 0
    else
      var n := |log| - 1;
      SendCount(log[..n], h, chan) + (if log[n].ChannelSend? && log[n].transport == h && log[n].chan == chan then 1 else 0)
  }

  lemma {:induction false} SendCountAppend(a: seq<Effect>, b: seq<Effect>, h: Handle, chan: string)
    ensures SendCount(a + b, h, chan) == SendCount(a, h, chan) + SendCount(b, h, chan)
  {
    if b != [] {
      var n := |b| - 1;
      assert (a + b)[..|a + b| - 1] == a + b[..n];
      SendCountAppend(a, b[..n], h, chan);
    } else {
      assert a + b == a;
    }
  }

  /** Over distinct connections, a broadcast sends exactly once to each of them and to no other. */
  lemma {:induction false} BroadcastOncePer(conns: seq<Handle>, chan: string, payload: Payload, h: Handle)
    requires forall i, j :: 0 <= i < j < |conns| ==> conns[i] != conns[j]
    ensures SendCount(BroadcastSends(conns, chan, payload), h, chan) == if h in conns then 1 else 0
  {
    if conns != [] {
      var n := |conns| - 1;
      var r := BroadcastSends(conns, chan, payload);
      assert r[..n] == BroadcastSends(conns[..n], chan, payload);
      BroadcastOncePer(conns[..n], chan, payload, h);
      assert conns == conns[..n] + [conns[n]];
    }
  }
}
