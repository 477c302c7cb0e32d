/** Network addresses as the handshake sees them. A multiaddr is a list of
    self-describing segments; only the segments the handshake inspects or rewrites
    (the TCP port and the peer-identity suffix) are told apart. The transport library's
    own address utilities are not part of this model: converting an address to a
    socket address and deciding whether an IP is publicly reachable are supplied as
    the parameter `AddrUtils`. */
module Addresses {
  import opened Wrappers

  newtype byte = x: int | 0 <= x < 256

  type Port = x: int | 0 <= x < 0x1_0000

  /** One segment of a multiaddr (`multiaddr::Protocol`). */
  datatype Segment =
    | Tcp(port: Port)
    | P2P(peerId: seq<byte>)
    | Other(code: nat, payload: seq<byte>)

  type Multiaddr = seq<Segment>

  datatype IpAddr = V4(octets: seq<byte>) | V6(octets: seq<byte>)

  datatype SocketAddr = SocketAddr(ip: IpAddr, port: Port)

  /** `multiaddr_to_socketaddr` and `is_reachable` of the transport library. */
  datatype AddrUtils = AddrUtils(toSocket: Multiaddr -> Option<SocketAddr>, isReachable: IpAddr -> bool)

  /** `extract_peer_id(addr).is_some()`: the address carries a peer-identity segment. */
  predicate HasPeerId(addr: Multiaddr)
    ensures HasPeerId(addr) ==> addr != []
    ensures addr != [] && addr[|addr| - 1].P2P? ==> HasPeerId(addr)
  {
    exists k :: 0 <= k < |addr| && addr[k].P2P?
  }

  /** The address converts to a socket address whose IP is publicly reachable. */
  predicate ReachableSocket(u: AddrUtils, addr: Multiaddr)
    ensures ReachableSocket(u, addr) ==> u.toSocket(addr).Some?
    ensures u.toSocket(addr).Some? ==> (ReachableSocket(u, addr) <==> u.isReachable(u.toSocket(addr).value.ip))
  {
    match u.toSocket(addr)
    case None => false
    case Some(sa) => u.isReachable(sa.ip)
  }
}
