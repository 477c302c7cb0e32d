/** The collaborators the dispatch layer and the handshake call into: the peer registry
    and peer store (`NetworkState`) and the transport's control handle
    (`ServiceControl`). Only what the core reads is kept as state; what the core asks
    these collaborators to do is recorded in ghost logs, in call order. */
module Network {
  import opened Wrappers
  import opened Addresses
  import opened IdentifyMessages
  import opened Versions

  type SessionId = nat

  type ProtocolId = nat

  datatype SessionType = Inbound | Outbound

  /** The transport's description of a session. */
  datatype SessionContext = SessionContext(id: SessionId, address: Multiaddr, ty: SessionType)

  /** The part of a registry `Peer` the core touches: the protocols open on the session
      with their negotiated versions, the client version learnt by the handshake, and
      the listen addresses the peer advertised. */
  datatype Peer = Peer(
    protocols: map<ProtocolId, Version>,
    identifyInfo: Option<string>,
    listenedAddrs: seq<Multiaddr>)

  type Registry = map<SessionId, Peer>

  /** `peer.protocols.insert(proto, version)` on the peer of `session`, when there is one. */
  function RegisterProtocol(peers: Registry, session: SessionId, proto: ProtocolId, version: Version): (r: Registry)
    ensures r.Keys == peers.Keys
    ensures forall s :: s in peers && s != session ==> r[s] == peers[s]
    ensures session in peers ==>
      && r[session].protocols == peers[session].protocols[proto := version]
      && r[session].identifyInfo == peers[session].identifyInfo
      && r[session].listenedAddrs == peers[session].listenedAddrs
  {
    if session in peers then
      peers[session := peers[session].(protocols := peers[session].protocols[proto := version])]
    else peers
  }

  /** `peer.protocols.remove(proto)` on the peer of `session`, when there is one. */
  function UnregisterProtocol(peers: Registry, session: SessionId, proto: ProtocolId): (r: Registry)
    ensures r.Keys == peers.Keys
    ensures forall s :: s in peers && s != session ==> r[s] == peers[s]
    ensures session in peers ==>
      && r[session].protocols.Keys == peers[session].protocols.Keys - {proto}
      && (forall p :: p in r[session].protocols ==> r[session].protocols[p] == peers[session].protocols[p])
      && r[session].identifyInfo == peers[session].identifyInfo
      && r[session].listenedAddrs == peers[session].listenedAddrs
  {
    if session in peers then
      peers[session := peers[session].(protocols := peers[session].protocols - {proto})]
    else peers
  }

  /** `peer.identify_info = Some(PeerIdentifyInfo { client_version })` on the peer of `session`. */
  function SetIdentifyInfo(peers: Registry, session: SessionId, clientVersion: string): (r: Registry)
    ensures r.Keys == peers.Keys
    ensures forall s :: s in peers && s != session ==> r[s] == peers[s]
    ensures session in peers ==>
      r[session] == Peer(peers[session].protocols, Some(clientVersion), peers[session].listenedAddrs)
  {
    if session in peers then
      peers[session := peers[session].(identifyInfo := Some(clientVersion))]
    else peers
  }

  /** `peer.listened_addrs = addrs` on the peer of `session`. */
  function SetListenedAddrs(peers: Registry, session: SessionId, addrs: seq<Multiaddr>): (r: Registry)
    ensures r.Keys == peers.Keys
    ensures forall s :: s in peers && s != session ==> r[s] == peers[s]
    ensures session in peers ==>
      r[session] == Peer(peers[session].protocols, peers[session].identifyInfo, addrs)
  {
    if session in peers then
      peers[session := peers[session].(listenedAddrs := addrs)]
    else peers
  }

  /** A ban request: session, duration in milliseconds, reason. */
  datatype Ban = Ban(session: SessionId, durationMs: nat, reason: string)

  /** The peer registry and peer store shared by all protocols. */
  class NetworkState {
    /** The peer registry, keyed by session. */
    var peers: Registry
    /** Addresses the registry currently dials as feeler probes (`is_feeler`). */
    var feelers: set<Multiaddr>
    /** Whether the network process is running (`is_active`). */
    var active: bool
    /** The node's public addresses, in the order `public_addrs` yields them. */
    var publicAddrs: seq<Multiaddr>
    /** Addresses the peer store has banned (`is_addr_banned`). */
    var bannedAddrs: set<Multiaddr>
    /** The local node's peer identity. */
    const localPeerId: seq<byte>

    /** `ban_session` requests. */
    ghost var bans: seq<Ban>
    /** `peer_store.add_addr` calls. */
    ghost var storeAdds: seq<Multiaddr>
    /** `peer_store.add_outbound_addr` calls. */
    ghost var outboundAdds: seq<Multiaddr>
    /** Candidates passed to `add_observed_addrs`. */
    ghost var observedAdds: seq<Multiaddr>

    constructor (localPeerId: seq<byte>, publicAddrs: seq<Multiaddr>)
      ensures this.localPeerId == localPeerId && this.publicAddrs == publicAddrs
      ensures peers == map[] && feelers == {} && bannedAddrs == {} && active
      ensures bans == [] && storeAdds == [] && outboundAdds == [] && observedAdds == []
    {
      this.localPeerId := localPeerId;
      this.publicAddrs := publicAddrs;
      peers := map[];
      feelers := {};
      bannedAddrs := {};
      active := true;
      bans := [];
      storeAdds := [];
      outboundAdds := [];
      observedAdds := [];
    }

    /** `public_addrs(count)`: at most `count` public addresses, in the order `public_addrs` yields them. */
    function PublicAddrs(count: nat): (r: seq<Multiaddr>)
      reads this`publicAddrs
      ensures |r| <= count && r <= publicAddrs
      ensures |r| == if |publicAddrs| <= count then |publicAddrs| else count
    {
      if |publicAddrs| <= count then publicAddrs else publicAddrs[..count]
    }

    method BanSession(session: SessionId, durationMs: nat, reason: string)
      modifies this`bans
      ensures bans == old(bans) + [Ban(session, durationMs, reason)]
    {
      bans := bans + [Ban(session, durationMs, reason)];
    }

    method AddAddr(addr: Multiaddr)
      modifies this`storeAdds
      ensures storeAdds == old(storeAdds) + [addr]
    {
      storeAdds := storeAdds + [addr];
    }

    method AddOutboundAddr(addr: Multiaddr)
      modifies this`outboundAdds
      ensures outboundAdds == old(outboundAdds) + [addr]
    {
      outboundAdds := outboundAdds + [addr];
    }

    method AddObservedAddrs(addrs: seq<Multiaddr>)
      modifies this`observedAdds
      ensures observedAdds == old(observedAdds) + addrs
    {
      observedAdds := observedAdds + addrs;
    }
  }

  /** The protocols `open_protocols` is asked to open: exactly one protocol, or every
      protocol but one (`TargetProtocol::Filter(|id| id != excluded)`). */
  datatype TargetProtocol = Single(id: ProtocolId) | AllExcept(excluded: ProtocolId)
  {
    predicate Admits(proto: ProtocolId)
      ensures Single? ==> (Admits(proto) <==> proto == id)
      ensures AllExcept? ==> (Admits(proto) <==> proto != excluded)
    {
      match this
      case Single(id) => proto == id
      case AllExcept(excluded) => proto != excluded
    }
  }

  /** Opening one protocol and opening all but that one are complementary targets. */
  lemma TargetsComplementary(x: ProtocolId, proto: ProtocolId)
    ensures Single(x).Admits(proto) <==> !AllExcept(x).Admits(proto)
  {
  }

  /** The transport's control handle for one protocol. */
  class ServiceControl {
    /** `disconnect(session)` requests. */
    ghost var disconnects: seq<SessionId>
    /** `open_protocols` requests. */
    ghost var opens: seq<(SessionId, TargetProtocol)>
    /** Messages queued with `quick_send_message`. */
    ghost var quickSent: seq<(SessionId, IdentifyMessage)>
    /** `set_service_notify(proto, interval, token)` requests, interval in milliseconds. */
    ghost var notifyRequests: seq<(ProtocolId, nat, nat)>

    constructor ()
      ensures disconnects == [] && opens == [] && quickSent == [] && notifyRequests == []
    {
      disconnects := [];
      opens := [];
      quickSent := [];
      notifyRequests := [];
    }

    method Disconnect(session: SessionId)
      modifies this`disconnects
      ensures disconnects == old(disconnects) + [session]
    {
      disconnects := disconnects + [session];
    }

    method OpenProtocols(session: SessionId, target: TargetProtocol)
      modifies this`opens
      ensures opens == old(opens) + [(session, target)]
    {
      opens := opens + [(session, target)];
    }

    method QuickSendMessage(session: SessionId, message: IdentifyMessage)
      modifies this`quickSent
      ensures quickSent == old(quickSent) + [(session, message)]
    {
      quickSent := quickSent + [(session, message)];
    }

    method SetServiceNotify(proto: ProtocolId, intervalMs: nat, token: nat)
      modifies this`notifyRequests
      ensures notifyRequests == old(notifyRequests) + [(proto, intervalMs, token)]
    {
      notifyRequests := notifyRequests + [(proto, intervalMs, token)];
    }
  }
}
