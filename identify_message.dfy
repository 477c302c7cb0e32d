/** The identify wire message. Its binary encoding and decoding are not part of this
    model: a received message is what the decoder yields, and the inner `identify`
    payload is what the schema reader of `packed::Identify` yields from its bytes. */
module IdentifyMessages {
  import opened Wrappers
  import opened Addresses

  /** The fields of a `packed::Identify` payload as the schema reader sees them.
      A text field is `None` when its bytes are not valid UTF-8. */
  datatype IdentifyFields = IdentifyFields(name: Option<string>, flag: bv64, clientVersion: Option<string>)

  /** `IdentifyMessage`: the listen addresses, the address the sender observes for the
      receiver, and the identify payload (`None` when its bytes do not parse). */
  datatype IdentifyMessage = IdentifyMessage(
    listenAddrs: seq<Multiaddr>,
    observedAddr: Multiaddr,
    identify: Option<IdentifyFields>)
}
