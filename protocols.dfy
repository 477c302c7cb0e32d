/** The protocol-dispatch adapter: the descriptor a protocol is built from
    (`CKBProtocol`), and the handler (`CKBHandler`) that receives the transport's session
    events, keeps the peer registry's per-peer protocol map up to date and forwards the
    events to the protocol's own handler while the network is active. */
module Protocols {
  import opened Addresses
  import opened Versions
  import opened Network
  import SP = SupportProtocols

  const CkbPrefix: string := "/ckb/"

  /** The descriptor of one protocol. The protocol's own handler and the shared network
      state it is built with are handed over to `CKBHandler` and are not kept here. */
  datatype CKBProtocol = CKBProtocol(
    id: ProtocolId,
    protocolName: string,
    supportedVersions: seq<Version>,
    maxFrameLength: nat,
    flag: SP.BlockingFlag)

  /** What `CKBProtocol::new(name, id, versions, max_frame_length, flag)` yields: the name
      under the "/ckb/" prefix and the versions highest first. */
  ghost predicate NormalisedFrom(
    p: CKBProtocol, name: string, id: ProtocolId, versions: seq<Version>,
    maxFrameLength: nat, flag: SP.BlockingFlag)
  {
    && p.id == id
    && p.protocolName == CkbPrefix + name
    && SortedDesc(p.supportedVersions)
    && multiset(p.supportedVersions) == multiset(versions)
    && p.maxFrameLength == maxFrameLength
    && p.flag == flag
  }

  /** `CKBProtocol::new`: copies the versions into a local vector and sorts it in place,
      highest version first. */
  method New(name: string, id: ProtocolId, versions: seq<Version>, maxFrameLength: nat, flag: SP.BlockingFlag)
    returns (p: CKBProtocol)
    ensures NormalisedFrom(p, name, id, versions, maxFrameLength, flag)
  {
    var sorted := new Version[|versions|](k requires 0 <= k < |versions| => versions[k]);
    assert sorted[..] == versions;
    SortDescending(sorted);
    p := CKBProtocol(id, CkbPrefix + name, sorted[..], maxFrameLength, flag);
  }

  /** The result of `CKBProtocol::new` is determined by its arguments. */
  lemma NormalisedUnique(
    p: CKBProtocol, q: CKBProtocol, name: string, id: ProtocolId, versions: seq<Version>,
    maxFrameLength: nat, flag: SP.BlockingFlag)
    requires NormalisedFrom(p, name, id, versions, maxFrameLength, flag)
    requires NormalisedFrom(q, name, id, versions, maxFrameLength, flag)
    ensures p == q
  {
    SortedDescUnique(p.supportedVersions, q.supportedVersions);
  }

  /** `CKBProtocol::new_with_support_protocol`: every field from the descriptor table. */
  function NewWithSupportProtocol(sp: SP.SupportProtocol): (p: CKBProtocol)
    ensures p.id == SP.ProtocolId(sp) && p.protocolName == SP.Name(sp)
    ensures p.supportedVersions == SP.SupportVersions(sp)
    ensures p.maxFrameLength == SP.MaxFrameLength(sp) && p.flag == SP.Flag(sp)
    ensures p.supportedVersions != [] && SortedDesc(p.supportedVersions)
    ensures |p.protocolName| > |CkbPrefix| && p.protocolName[..|CkbPrefix|] == CkbPrefix
  {
    CKBProtocol(SP.ProtocolId(sp), SP.Name(sp), SP.SupportVersions(sp), SP.MaxFrameLength(sp), SP.Flag(sp))
  }

  /** Building from the table gives what `CKBProtocol::new` gives for the table's entries
      with the name prefix taken off: both constructors agree. */
  lemma SupportProtocolIsNormalised(sp: SP.SupportProtocol)
    ensures NormalisedFrom(
      NewWithSupportProtocol(sp), SP.Name(sp)[|CkbPrefix|..], SP.ProtocolId(sp),
      SP.SupportVersions(sp), SP.MaxFrameLength(sp), SP.Flag(sp))
  {
    var name := SP.Name(sp);
    assert name == name[..|CkbPrefix|] + name[|CkbPrefix|..];
  }

  /** `match_version`: the version is one of the supported ones. */
  function MatchVersion(p: CKBProtocol, version: Version): (r: bool)
    ensures r <==> version in p.supportedVersions
  {
    Occurs(p.supportedVersions, version)
  }

  /** A protocol built from the table accepts exactly the latest version. */
  lemma SupportProtocolMatchesLatestOnly(sp: SP.SupportProtocol, version: Version)
    ensures MatchVersion(NewWithSupportProtocol(sp), version) <==> version == SP.LatestVersion
  {
  }

  /** `connected_peers`: the sessions whose peer has protocol `proto` open. The source
      collects them in the registry's iteration order, which is unspecified; the model
      keeps the set. */
  function ConnectedPeers(peers: Registry, proto: ProtocolId): (r: set<SessionId>)
    ensures r <= peers.Keys
    ensures forall s :: s in r <==> s in peers && proto in peers[s].protocols
  {
    set s | s in peers && proto in peers[s].protocols
  }

  /** Opening `proto` on a session adds exactly that session to the peers of `proto`
      (when the registry knows it) and leaves the peers of every other protocol alone. */
  lemma ConnectedPeersAfterRegister(peers: Registry, session: SessionId, proto: ProtocolId, version: Version, other: ProtocolId)
    ensures ConnectedPeers(RegisterProtocol(peers, session, proto, version), proto)
      == ConnectedPeers(peers, proto) + (if session in peers then {session} else {})
    ensures other != proto ==>
      ConnectedPeers(RegisterProtocol(peers, session, proto, version), other) == ConnectedPeers(peers, other)
  {
  }

  /** Closing `proto` on a session removes exactly that session from the peers of `proto`
      and leaves the peers of every other protocol alone. */
  lemma ConnectedPeersAfterUnregister(peers: Registry, session: SessionId, proto: ProtocolId, other: ProtocolId)
    ensures ConnectedPeers(UnregisterProtocol(peers, session, proto), proto) == ConnectedPeers(peers, proto) - {session}
    ensures other != proto ==>
      ConnectedPeers(UnregisterProtocol(peers, session, proto), other) == ConnectedPeers(peers, other)
  {
  }

  /** A call the adapter makes on the protocol's own handler. */
  datatype HandlerEvent =
    | Init
    | Connected(peer: SessionId, version: Version)
    | Disconnected(peer: SessionId)
    | Received(peer: SessionId, data: seq<byte>)
    | Notify(token: nat)
    | Poll

  /** The adapter between the transport and one protocol's handler. The handler itself
      is represented by the calls it receives, in order. */
  class CKBHandler {
    const protoId: ProtocolId
    const networkState: NetworkState
    /** The calls forwarded to the protocol's handler. */
    ghost var forwarded: seq<HandlerEvent>

    constructor (protoId: ProtocolId, networkState: NetworkState)
      ensures this.protoId == protoId && this.networkState == networkState && forwarded == []
    {
      this.protoId := protoId;
      this.networkState := networkState;
      forwarded := [];
    }

    method Init()
      modifies this`forwarded
      ensures forwarded == old(forwarded) + [HandlerEvent.Init]
    {
      forwarded := forwarded + [HandlerEvent.Init];
    }

    /** The registry learns the negotiated version whether or not the network is
        active; the handler hears of the session only while it is. */
    method Connected(session: SessionId, version: Version)
      modifies networkState`peers, this`forwarded
      ensures networkState.peers == RegisterProtocol(old(networkState.peers), session, protoId, version)
      ensures forwarded == old(forwarded) + (if networkState.active then [HandlerEvent.Connected(session, version)] else [])
      ensures ConnectedPeers(networkState.peers, protoId)
        == old(ConnectedPeers(networkState.peers, protoId)) + (if session in old(networkState.peers) then {session} else {})
    {
      networkState.peers := RegisterProtocol(networkState.peers, session, protoId, version);
      ConnectedPeersAfterRegister(old(networkState.peers), session, protoId, version, protoId);
      if !networkState.active {
        return;
      }
      forwarded := forwarded + [HandlerEvent.Connected(session, version)];
    }

    /** The registry forgets the protocol whether or not the network is active; the
        handler hears of it only while it is. */
    method Disconnected(session: SessionId)
      modifies networkState`peers, this`forwarded
      ensures networkState.peers == UnregisterProtocol(old(networkState.peers), session, protoId)
      ensures forwarded == old(forwarded) + (if networkState.active then [HandlerEvent.Disconnected(session)] else [])
      ensures ConnectedPeers(networkState.peers, protoId) == old(ConnectedPeers(networkState.peers, protoId)) - {session}
    {
      networkState.peers := UnregisterProtocol(networkState.peers, session, protoId);
      ConnectedPeersAfterUnregister(old(networkState.peers), session, protoId, protoId);
      if !networkState.active {
        return;
      }
      forwarded := forwarded + [HandlerEvent.Disconnected(session)];
    }

    method Received(session: SessionId, data: seq<byte>)
      modifies this`forwarded
      ensures forwarded == old(forwarded) + (if networkState.active then [HandlerEvent.Received(session, data)] else [])
    {
      if !networkState.active {
        return;
      }
      forwarded := forwarded + [HandlerEvent.Received(session, data)];
    }

    method Notify(token: nat)
      modifies this`forwarded
      ensures forwarded == old(forwarded) + (if networkState.active then [HandlerEvent.Notify(token)] else [])
    {
      if !networkState.active {
        return;
      }
      forwarded := forwarded + [HandlerEvent.Notify(token)];
    }

    /** Polling is forwarded whatever the network's state. */
    method Poll()
      modifies this`forwarded
      ensures forwarded == old(forwarded) + [HandlerEvent.Poll]
    {
      forwarded := forwarded + [HandlerEvent.Poll];
    }
  }
}
