/**
 The channel multiplexer: every connection record gets one pre-negotiated data channel per entry
 of the channel descriptor, a record from logical channel name to channel number that is fixed for
 the lifetime of the manager.
 */
module Channels {
  import opened JsMap

  /** The descriptor's entries in the order `for...in` visits them; keys are distinct. */
  type ChannelDesc = Entries<string, nat>

  /** The options a data channel is created with by `createDataChannel(name, options)`. */
  datatype Channel = Channel(name: string, id: nat, negotiated: bool, ordered: bool)

  /** The channel created for descriptor entry `(k, n)`: pre-negotiated, ordered, numbered `n`. */
  function ChannelFor(k: string, n: nat): (r: Channel) {
    Channel(k, n, true, true)
  }

  /** The channel map of a record built from `desc`, one entry per descriptor key. */
  function DescChannels(desc: ChannelDesc): (r: map<string, Channel>)
  {
    if desc == [] then map[]
    else
      var last := desc[|desc| - 1];
      DescChannels(desc[..|desc| - 1])[last.0 := ChannelFor(last.0, last.1)]
  }

  /** The channel map has exactly the descriptor's keys, and the channel under each key carries
      that key's number with `negotiated` and `ordered` set. */
  lemma {:induction false} DescChannelsExact(desc: ChannelDesc)
    requires DistinctKeys(desc)
    ensures DescChannels(desc).Keys == set i | 0 <= i < |desc| :: desc[i].0
    ensures forall i :: 0 <= i < |desc| ==> DescChannels(desc)[desc[i].0] == Channel(desc[i].0, desc[i].1, true, true)
  {
    if desc != [] {
      var init := desc[..|desc| - 1];
      assert DistinctKeys(init);
      DescChannelsExact(init);
      assert (set i | 0 <= i < |desc| :: desc[i].0) == (set i | 0 <= i < |init| :: init[i].0) + {desc[|desc| - 1].0};
    }
  }
}
