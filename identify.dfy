/** The decisions of the identify handshake, as values: capability flags, verification
    of the peer's identify payload, the misbehaviour policy, the address pipelines and
    the per-session record with its timeout. The stateful protocol that applies them
    is in module IdentifyHandler. Times are in milliseconds. */
module Identify {
  import opened Wrappers
  import opened Addresses
  import opened IdentifyMessages
  import opened Network
  import SP = SupportProtocols

  const MaxReturnListenAddrs: nat := 10
  const BanOnNotSameNetMs: nat := 5 * 60 * 1000
  const CheckTimeoutToken: nat := 100
  const CheckTimeoutIntervalMs: nat := 1 * 1000
  const DefaultTimeoutMs: nat := 8 * 1000
  const MaxAddrs: nat := 10
  const NotSameNetworkReason: string := "The nodes are not on the same network"

  datatype Misbehavior =
    | DuplicateReceived
    | Timeout
    | InvalidData
    | TooManyAddresses(count: nat)

  datatype MisbehaveResult = Continue | Disconnect

  // ---------------------------------------------------------------------------
  // Capability flags

  /** `Flag::FullNode`. */
  const FullNode: bv64 := 1

  /** A 64-bit capability bitmask. */
  datatype Flags = Flags(bits: bv64)
  {
    /** `contains`: every bit of `other` is set here. */
    predicate Contains(other: Flags)
    {
      bits & other.bits == other.bits
    }
  }

  /** `x` has a bit in common with the mask `m`. */
  predicate SharesBit(x: bv64, m: bv64)
  {
    x & m != 0
  }

  /** Any bit (or set of bits) that `b` shares with a mask, a mask containing `b`
      shares as well. */
  lemma ContainedBits(a: Flags, b: Flags, m: bv64)
    requires a.Contains(b) && SharesBit(b.bits, m)
    ensures SharesBit(a.bits, m)
  {
  }

  /** When every bit of `b` that `a` lacks would be shared with `a`, there is no such
      bit: the mask of missing bits is zero. */
  lemma NoMissingBits(a: bv64, b: bv64)
    requires SharesBit(b, b & !a) ==> SharesBit(a, b & !a)
    ensures a & b == b
  {
  }

  /** The converse of `ContainedBits`: if every mask that shares a bit with `b` shares
      one with `a`, then `a` contains `b`. */
  lemma ContainsFromBits(a: Flags, b: Flags)
    requires forall m: bv64 :: SharesBit(b.bits, m) ==> SharesBit(a.bits, m)
    ensures a.Contains(b)
  {
    NoMissingBits(a.bits, b.bits);
  }

  /** `contains` in both directions: `a` contains `b` exactly when every mask that
      shares a bit with `b` shares one with `a`. */
  lemma ContainsIffSharedBits(a: Flags, b: Flags)
    ensures a.Contains(b) <==> forall m: bv64 :: SharesBit(b.bits, m) ==> SharesBit(a.bits, m)
  {
    if a.Contains(b) {
      forall m: bv64 | SharesBit(b.bits, m)
        ensures SharesBit(a.bits, m)
      {
        ContainedBits(a, b, m);
      }
    }
    if forall m: bv64 :: SharesBit(b.bits, m) ==> SharesBit(a.bits, m) {
      ContainsFromBits(a, b);
    }
  }

  /** `contains` is reflexive and everything contains the empty mask. */
  lemma ContainsReflexive(a: Flags)
    ensures a.Contains(a) && a.Contains(Flags(0))
  {
  }

  /** `contains` is a partial order on masks: transitive and antisymmetric. */
  lemma ContainsPartialOrder(a: Flags, b: Flags, c: Flags)
    ensures a.Contains(b) && b.Contains(c) ==> a.Contains(c)
    ensures a.Contains(b) && b.Contains(a) ==> a == b
  {
  }

  /** Against the shipped local flags (`FullNode`) a peer qualifies exactly when it sets
      the full-node bit. */
  lemma ContainsFullNode(remote: Flags)
    ensures remote.Contains(Flags(FullNode)) <==> remote.bits & 1 == 1
  {
  }

  // ---------------------------------------------------------------------------
  // The local identity and verification of the peer's

  /** `Identify`: the local network name, client version and capability flags. */
  datatype Identify = Identify(name: string, clientVersion: string, flags: Flags)
  {
    /** The payload fields this node sends (`encode`; the encoding itself is not modelled). */
    function Fields(): (r: IdentifyFields)
      ensures flags.bits != 0 ==> Verify(Some(r)) == Some((flags, clientVersion))
      ensures flags.bits == 0 ==> Verify(Some(r)).None?
    {
      IdentifyFields(Some(name), flags.bits, Some(clientVersion))
    }

    /** `verify`: the peer's flags and client version, or `None` when the payload does
        not parse, names another network, or carries no flag. */
    function Verify(data: Option<IdentifyFields>): (r: Option<(Flags, string)>)
      ensures data.Some? && data.value.name.Some? && data.value.name.value != name ==> r.None?
      ensures data.Some? && data.value.flag == 0 ==> r.None?
      ensures r.Some? <==>
        && data.Some?
        && data.value.name == Some(name)
        && data.value.flag != 0
        && data.value.clientVersion.Some?
      ensures r.Some? ==> r.value == (Flags(data.value.flag), data.value.clientVersion.value)
    {
      match data
      case None => None
      case Some(fields) =>
        match fields.name
        case None => None
        case Some(remoteName) =>
          if name != remoteName then None
          else if fields.flag == 0 then None
          else
            match fields.clientVersion
            case None => None
            case Some(version) => Some((Flags(fields.flag), version))
    }
  }

  /** The identity `IdentifyCallback::new` builds: the full-node flag. */
  function LocalIdentify(name: string, clientVersion: string): (r: Identify)
    ensures r.name == name && r.clientVersion == clientVersion
    ensures r.flags == Flags(FullNode) && r.flags.bits != 0
  {
    Identify(name, clientVersion, Flags(FullNode))
  }

  /** What a node advertises verifies at any node of the same network, with the
      advertised flags and version: the payload round-trips through `verify`. */
  lemma VerifyOwnAdvertisement(local: Identify, remote: Identify)
    requires remote.name == local.name && remote.flags.bits != 0
    ensures local.Verify(Some(remote.Fields())) == Some((remote.flags, remote.clientVersion))
  {
  }

  // ---------------------------------------------------------------------------
  // Misbehaviour policy and the received-identify decision

  /** `IdentifyCallback::misbehave`: zero tolerance. */
  function Misbehave(kind: Misbehavior): (r: MisbehaveResult)
    ensures r == Disconnect
  {
    Disconnect
  }

  /** What `received_identify` does: the verdict, whether the session is banned, the
      client version recorded in the registry, and the protocols it asks to open. */
  datatype IdentifyOutcome = IdentifyOutcome(
    result: MisbehaveResult,
    ban: bool,
    clientVersion: Option<string>,
    open: Option<TargetProtocol>)

  const FeelerId: ProtocolId := SP.ProtocolId(SP.Feeler)

  function IdentifyDecision(local: Identify, ty: SessionType, isFeeler: bool, data: Option<IdentifyFields>)
    : (o: IdentifyOutcome)
    // a payload that does not verify bans the session, and nothing else happens
    ensures o.ban <==> local.Verify(data).None?
    ensures o.ban ==> o.result == Disconnect && o.clientVersion.None? && o.open.None?
    // an outbound feeler probe opens the feeler protocol alone
    ensures local.Verify(data).Some? && ty.Outbound? && isFeeler ==>
      o == IdentifyOutcome(Continue, false, None, Some(Single(FeelerId)))
    // an outbound peer that has every local flag: record its version, open all but feeler
    ensures local.Verify(data).Some? && ty.Outbound? && !isFeeler && local.Verify(data).value.0.Contains(local.flags) ==>
      o == IdentifyOutcome(Continue, false, Some(local.Verify(data).value.1), Some(AllExcept(FeelerId)))
    // an outbound peer that lacks a local flag is dropped, not banned
    ensures local.Verify(data).Some? && ty.Outbound? && !isFeeler && !local.Verify(data).value.0.Contains(local.flags) ==>
      o == IdentifyOutcome(Disconnect, false, None, None)
    // an inbound peer is neither probed nor flag-gated
    ensures local.Verify(data).Some? && ty.Inbound? ==>
      o == IdentifyOutcome(Continue, false, Some(local.Verify(data).value.1), None)
  {
    match local.Verify(data)
    case None => IdentifyOutcome(Disconnect, true, None, None)
    case Some((flags, clientVersion)) =>
      if ty.Outbound? then
        if isFeeler then IdentifyOutcome(Continue, false, None, Some(Single(FeelerId)))
        else if flags.Contains(local.flags) then
          IdentifyOutcome(Continue, false, Some(clientVersion), Some(AllExcept(FeelerId)))
        else IdentifyOutcome(Disconnect, false, None, None)
      else IdentifyOutcome(Continue, false, Some(clientVersion), None)
  }

  /** Bans are reserved for payloads that fail verification; a disconnect without a ban
      happens exactly to an outbound non-feeler peer lacking a local flag. */
  lemma DisconnectWithoutBan(local: Identify, ty: SessionType, isFeeler: bool, data: Option<IdentifyFields>)
    ensures var o := IdentifyDecision(local, ty, isFeeler, data);
      (o.result == Disconnect && !o.ban) <==>
        (local.Verify(data).Some? && ty.Outbound? && !isFeeler && !local.Verify(data).value.0.Contains(local.flags))
  {
  }

  /** A payload naming another network bans the session, whatever else it carries. */
  lemma OtherNetworkIsBanned(local: Identify, ty: SessionType, isFeeler: bool, fields: IdentifyFields)
    requires fields.name.Some? && fields.name.value != local.name
    ensures IdentifyDecision(local, ty, isFeeler, Some(fields)) == IdentifyOutcome(Disconnect, true, None, None)
  {
  }

  /** A payload from the right network with no flag set is treated like one from
      another network: `verify` fails, so the session is banned. */
  lemma ZeroFlagIsBanned(local: Identify, ty: SessionType, isFeeler: bool, fields: IdentifyFields)
    requires fields.flag == 0
    ensures IdentifyDecision(local, ty, isFeeler, Some(fields)) == IdentifyOutcome(Disconnect, true, None, None)
  {
  }

  /** The protocols asked for: only the feeler protocol for a probe, every protocol but
      the feeler protocol otherwise. */
  lemma OpenedProtocols(local: Identify, ty: SessionType, isFeeler: bool, data: Option<IdentifyFields>, proto: ProtocolId)
    requires IdentifyDecision(local, ty, isFeeler, data).open.Some?
    ensures ty.Outbound?
    ensures IdentifyDecision(local, ty, isFeeler, data).open.value.Admits(proto) <==>
      (if isFeeler then proto == SP.ProtocolId(SP.Feeler) else proto != SP.ProtocolId(SP.Feeler))
  {
  }

  /** Two outbound sessions of the same network against the shipped identity: one
      whose flags contain the full-node bit opens every protocol but feeler, one
      missing it is disconnected and not banned. */
  lemma TwoOutboundSessions(name: string, clientVersion: string, remoteVersion: string)
    ensures var local := LocalIdentify(name, clientVersion);
      && IdentifyDecision(local, Outbound, false, Some(IdentifyFields(Some(name), 3, Some(remoteVersion))))
           == IdentifyOutcome(Continue, false, Some(remoteVersion), Some(AllExcept(FeelerId)))
      && IdentifyDecision(local, Outbound, false, Some(IdentifyFields(Some(name), 2, Some(remoteVersion))))
           == IdentifyOutcome(Disconnect, false, None, None)
  {
  }

  // ---------------------------------------------------------------------------
  // Address pipelines

  /** An address converts to a socket address and, under the global-IP-only policy, its
      IP is publicly reachable. */
  predicate Acceptable(u: AddrUtils, globalIpOnly: bool, addr: Multiaddr)
    ensures !globalIpOnly ==> (Acceptable(u, globalIpOnly, addr) <==> u.toSocket(addr).Some?)
    ensures globalIpOnly ==> (Acceptable(u, globalIpOnly, addr) <==> ReachableSocket(u, addr))
  {
    match u.toSocket(addr)
    case None => false
    case Some(sa) => !globalIpOnly || u.isReachable(sa.ip)
  }

  /** The order-preserving filter of `addrs` by `Acceptable`. */
  function FilterAcceptable(u: AddrUtils, globalIpOnly: bool, addrs: seq<Multiaddr>): (r: seq<Multiaddr>)
    ensures |r| <= |addrs|
    ensures forall k :: 0 <= k < |r| ==> r[k] in addrs && Acceptable(u, globalIpOnly, r[k])
    ensures forall a :: a in addrs && Acceptable(u, globalIpOnly, a) ==> a in r
  {
    if addrs == [] then []
    else
      var rest := FilterAcceptable(u, globalIpOnly, addrs[1..]);
      assert forall a :: a in addrs[1..] ==> a in addrs;
      if Acceptable(u, globalIpOnly, addrs[0]) then [addrs[0]] + rest else rest
  }

  /** The filter keeps the order of what it keeps: filtering a concatenation is the
      concatenation of the filtered parts. */
  lemma {:induction false} FilterAppend(u: AddrUtils, globalIpOnly: bool, a: seq<Multiaddr>, b: seq<Multiaddr>)
    ensures FilterAcceptable(u, globalIpOnly, a + b)
      == FilterAcceptable(u, globalIpOnly, a) + FilterAcceptable(u, globalIpOnly, b)
    decreases |a|
  {
    if a == [] {
      assert a + b == b;
    } else {
      assert (a + b)[0] == a[0] && (a + b)[1..] == a[1..] + b;
      FilterAppend(u, globalIpOnly, a[1..], b);
    }
  }

  /** The filter leaves a list alone exactly when every address in it is acceptable,
      so filtering twice is filtering once. */
  lemma {:induction false} FilterFixpoint(u: AddrUtils, globalIpOnly: bool, addrs: seq<Multiaddr>)
    ensures FilterAcceptable(u, globalIpOnly, addrs) == addrs
      <==> forall k :: 0 <= k < |addrs| ==> Acceptable(u, globalIpOnly, addrs[k])
    ensures FilterAcceptable(u, globalIpOnly, FilterAcceptable(u, globalIpOnly, addrs))
      == FilterAcceptable(u, globalIpOnly, addrs)
    decreases |addrs|
  {
    if addrs != [] {
      FilterFixpoint(u, globalIpOnly, addrs[1..]);
      assert forall k :: 1 <= k < |addrs| ==> addrs[k] == addrs[1..][k - 1];
      var r := FilterAcceptable(u, globalIpOnly, addrs);
      if !Acceptable(u, globalIpOnly, addrs[0]) {
        assert |r| < |addrs|;
      }
      var rr := FilterAcceptable(u, globalIpOnly, r);
      assert forall k :: 0 <= k < |r| ==> Acceptable(u, globalIpOnly, r[k]);
      FilterAllAcceptable(u, globalIpOnly, r);
    }
  }

  lemma {:induction false} FilterAllAcceptable(u: AddrUtils, globalIpOnly: bool, addrs: seq<Multiaddr>)
    requires forall k :: 0 <= k < |addrs| ==> Acceptable(u, globalIpOnly, addrs[k])
    ensures FilterAcceptable(u, globalIpOnly, addrs) == addrs
    decreases |addrs|
  {
    if addrs != [] {
      assert forall k :: 1 <= k < |addrs| ==> addrs[k] == addrs[1..][k - 1];
      FilterAllAcceptable(u, globalIpOnly, addrs[1..]);
    }
  }

  /** The first `n` elements (`take(n)`). */
  function Prefix<T>(s: seq<T>, n: nat): (r: seq<T>)
    ensures |r| <= n && r <= s
    ensures |s| <= n ==> r == s
    ensures |s| > n ==> |r| == n
  {
    if |s| <= n then s else s[..n]
  }

  /** The listen addresses advertised at `connected`: the local listen addresses that
      pass the reachability filter, at most `MaxAddrs` of them, in their order. */
  function AdvertisedListens(u: AddrUtils, globalIpOnly: bool, local: seq<Multiaddr>): (r: seq<Multiaddr>)
    ensures |r| <= MaxAddrs
    ensures forall k :: 0 <= k < |r| ==> r[k] in local && Acceptable(u, globalIpOnly, r[k])
    ensures r <= FilterAcceptable(u, globalIpOnly, local)
    ensures var f := FilterAcceptable(u, globalIpOnly, local);
      |r| == if |f| <= MaxAddrs then |f| else MaxAddrs
  {
    Prefix(FilterAcceptable(u, globalIpOnly, local), MaxAddrs)
  }

  /** The verdict on a received listen-address list: too many is misbehaviour. */
  function ListensResult(listens: seq<Multiaddr>): (r: MisbehaveResult)
    ensures r == Disconnect <==> |listens| > MaxAddrs
  {
    if |listens| > MaxAddrs then Misbehave(TooManyAddresses(|listens|)) else Continue
  }

  /** `Tcp(_) => Tcp(port)` on every segment. */
  function ReplaceTcpPort(addr: Multiaddr, port: Port): (r: Multiaddr)
    ensures |r| == |addr|
    ensures forall k :: 0 <= k < |addr| ==> r[k] == (if addr[k].Tcp? then Tcp(port) else addr[k])
  {
    if addr == [] then []
    else [if addr[0].Tcp? then Tcp(port) else addr[0]] + ReplaceTcpPort(addr[1..], port)
  }

  /** Replacing the port again overrides the earlier replacement; the peer identity
      suffix survives. */
  lemma ReplaceTcpPortProperties(addr: Multiaddr, p: Port, q: Port)
    ensures ReplaceTcpPort(ReplaceTcpPort(addr, p), q) == ReplaceTcpPort(addr, q)
    ensures HasPeerId(ReplaceTcpPort(addr, p)) <==> HasPeerId(addr)
  {
    var once := ReplaceTcpPort(addr, p);
    if HasPeerId(addr) {
      var k :| 0 <= k < |addr| && addr[k].P2P?;
      assert once[k].P2P?;
    }
    if HasPeerId(once) {
      var k :| 0 <= k < |once| && once[k].P2P?;
      assert addr[k].P2P?;
    }
  }

  /** Append the local peer identity when the address carries none. */
  function WithPeerId(addr: Multiaddr, localPeerId: seq<byte>): (r: Multiaddr)
    ensures HasPeerId(r)
    ensures HasPeerId(addr) ==> r == addr
    ensures !HasPeerId(addr) ==> r == addr + [P2P(localPeerId)]
  {
    if HasPeerId(addr) then addr
    else
      assert (addr + [P2P(localPeerId)])[|addr|].P2P?;
      addr + [P2P(localPeerId)]
  }

  /** `filter_map(multiaddr_to_socketaddr)` then the port: the ports of the listen
      addresses that convert to socket addresses, in order. */
  function ListenPorts(u: AddrUtils, listens: seq<Multiaddr>): (r: seq<Port>)
    ensures |r| <= |listens|
    // every port comes from a listen address that converts, and every such address contributes its port
    ensures (set p | p in r) == ConvertiblePorts(u, listens)
  {
    if listens == [] then []
    else
      var rest := ListenPorts(u, listens[1..]);
      ConvertiblePortsCons(u, listens);
      match u.toSocket(listens[0])
      case None => rest
      case Some(sa) =>
        assert (set p | p in [sa.port] + rest) == {sa.port} + (set p | p in rest);
        [sa.port] + rest
  }

  /** The ports of the listen addresses that convert to socket addresses. */
  ghost function ConvertiblePorts(u: AddrUtils, listens: seq<Multiaddr>): set<Port>
  {
    set l | l in listens && u.toSocket(l).Some? :: u.toSocket(l).value.port
  }

  lemma ConvertiblePortsCons(u: AddrUtils, listens: seq<Multiaddr>)
    requires listens != []
    ensures ConvertiblePorts(u, listens)
      == (if u.toSocket(listens[0]).Some? then {u.toSocket(listens[0]).value.port} else {})
         + ConvertiblePorts(u, listens[1..])
  {
    assert forall l :: l in listens <==> l == listens[0] || l in listens[1..];
  }

  /** The ports come in the order of the listen addresses: one per address that
      converts, none for one that does not. */
  lemma {:induction false} ListenPortsAppend(u: AddrUtils, a: seq<Multiaddr>, b: seq<Multiaddr>)
    ensures ListenPorts(u, a + b) == ListenPorts(u, a) + ListenPorts(u, b)
    decreases |a|
  {
    if a == [] {
      assert a + b == b;
    } else {
      ListenPortsAppend(u, a[1..], b);
      ListenPortsStep(u, a, b);
    }
  }

  /** The inductive step of `ListenPortsAppend`. */
  lemma ListenPortsStep(u: AddrUtils, a: seq<Multiaddr>, b: seq<Multiaddr>)
    requires a != []
    requires ListenPorts(u, a[1..] + b) == ListenPorts(u, a[1..]) + ListenPorts(u, b)
    ensures ListenPorts(u, a + b) == ListenPorts(u, a) + ListenPorts(u, b)
  {
    var c := a + b;
    assert c[0] == a[0] && c[1..] == a[1..] + b;
    ListenPortsCons(u, c);
    ListenPortsCons(u, a);
    var head := if u.toSocket(a[0]).Some? then [u.toSocket(a[0]).value.port] else [];
    ConsAssoc(head, ListenPorts(u, c), ListenPorts(u, a), ListenPorts(u, a[1..]), ListenPorts(u, b));
  }

  lemma ConsAssoc<T>(h: seq<T>, x: seq<T>, la: seq<T>, ra: seq<T>, lb: seq<T>)
    requires x == h + (ra + lb) && la == h + ra
    ensures x == la + lb
  {
  }

  /** One step of `ListenPorts`: the first address's port, if it has one, then the rest. */
  lemma ListenPortsCons(u: AddrUtils, s: seq<Multiaddr>)
    requires s != []
    ensures ListenPorts(u, s)
      == (if u.toSocket(s[0]).Some? then [u.toSocket(s[0]).value.port] else []) + ListenPorts(u, s[1..])
  {
  }

  lemma ListenPortsSingle(u: AddrUtils, l: Multiaddr)
    ensures ListenPorts(u, [l]) == if u.toSocket(l).Some? then [u.toSocket(l).value.port] else []
  {
    assert [l][1..] == [];
  }

  /** `addr` with its TCP port replaced by each of `ports` in turn. */
  function Retargeted(addr: Multiaddr, ports: seq<Port>): (r: seq<Multiaddr>)
    ensures |r| == |ports|
    ensures forall k :: 0 <= k < |ports| ==> r[k] == ReplaceTcpPort(addr, ports[k])
  {
    if ports == [] then [] else [ReplaceTcpPort(addr, ports[0])] + Retargeted(addr, ports[1..])
  }

  /** `add_observed_addr`: the candidates handed to the address-discovery pool for an
      address the peer says it observes us at. */
  function ObservedAdditions(u: AddrUtils, addr: Multiaddr, ty: SessionType, listens: seq<Multiaddr>, localPeerId: seq<byte>)
    : (r: seq<Multiaddr>)
    ensures ty.Inbound? || !ReachableSocket(u, addr) ==> r == []
    ensures ty.Outbound? && ReachableSocket(u, addr) ==>
      var source := WithPeerId(addr, localPeerId);
      && |r| == |ListenPorts(u, listens)| + 1
      && r[|r| - 1] == source && HasPeerId(source)
      && forall k :: 0 <= k < |r| - 1 ==>
           && |r[k]| == |source|
           && (forall j :: 0 <= j < |source| ==> if source[j].Tcp? then r[k][j] == Tcp(ListenPorts(u, listens)[k]) else r[k][j] == source[j])
  {
    if ty.Inbound? then []
    else if !ReachableSocket(u, addr) then []
    else
      var source := WithPeerId(addr, localPeerId);
      Retargeted(source, ListenPorts(u, listens)) + [source]
  }

  // ---------------------------------------------------------------------------
  // Per-session record and the timeout sweep

  /** `RemoteInfo`: the session, when it connected, its handshake timeout, and whether
      its identify message has arrived. */
  datatype RemoteInfo = RemoteInfo(session: SessionContext, connectedAt: nat, timeout: nat, hasReceived: bool)

  /** Still waiting for the identify message and past the deadline. */
  predicate Expired(info: RemoteInfo, now: nat)
    ensures Expired(info, now) ==> !info.hasReceived
    ensures Expired(info, now) <==> !info.hasReceived && now - info.connectedAt >= info.timeout
  {
    !info.hasReceived && info.connectedAt + info.timeout <= now
  }

  /** The sessions the sweep reports as timed out. */
  function TimedOut(infos: map<SessionId, RemoteInfo>, now: nat): (r: set<SessionId>)
    ensures r <= infos.Keys
    ensures forall id :: id in r <==> id in infos && Expired(infos[id], now)
  {
    set id | id in infos && Expired(infos[id], now)
  }

  /** A fresh session times out exactly once the default timeout has elapsed without
      its identify message, and once timed out it stays so; a session whose message
      has arrived never times out. */
  lemma TimeoutBoundary(session: SessionContext, connectedAt: nat, now: nat, later: nat)
    requires now <= later
    ensures Expired(RemoteInfo(session, connectedAt, DefaultTimeoutMs, false), now) <==> now >= connectedAt + 8000
    ensures !Expired(RemoteInfo(session, connectedAt, DefaultTimeoutMs, true), now)
    ensures forall infos: map<SessionId, RemoteInfo> :: TimedOut(infos, now) <= TimedOut(infos, later)
  {
  }

  // ---------------------------------------------------------------------------
  // The verdicts of one received message

  /** The verdict of the duplicate check. */
  function DuplicateResult(hasReceived: bool): (r: MisbehaveResult)
    ensures r == Disconnect <==> hasReceived
  {
    if hasReceived then Misbehave(DuplicateReceived) else Continue
  }

  /** The four verdicts a decoded message yields, in the order the checks run:
      duplicate, identify, listen addresses, observed address. */
  function ReceiveResults(hasReceived: bool, identify: IdentifyOutcome, listens: seq<Multiaddr>)
    : (r: seq<MisbehaveResult>)
    ensures |r| == 4
    ensures r[0] == Disconnect <==> hasReceived
    ensures r[1] == identify.result
    ensures r[2] == Disconnect <==> |listens| > MaxAddrs
    ensures r[3] == Continue
  {
    [DuplicateResult(hasReceived), identify.result, ListensResult(listens), Continue]
  }

  function CountDisconnects(results: seq<MisbehaveResult>): (n: nat)
    ensures n <= |results|
    ensures n == 0 <==> forall k :: 0 <= k < |results| ==> results[k] == Continue
  {
    if results == [] then 0
    else
      assert forall k :: 1 <= k < |results| ==> results[k] == results[1..][k - 1];
      (if results[0] == Disconnect then 1 else 0) + CountDisconnects(results[1..])
  }

  /** `n` copies of `x`. */
  function Repeat<T>(x: T, n: nat): (r: seq<T>)
    ensures |r| == n && forall k :: 0 <= k < n ==> r[k] == x
  {
    if n == 0 then [] else [x] + Repeat(x, n - 1)
  }

  lemma RepeatAppend<T>(x: T, a: nat, b: nat)
    ensures Repeat(x, a) + Repeat(x, b) == Repeat(x, a + b)
  {
    assert forall k :: 0 <= k < a + b ==> (Repeat(x, a) + Repeat(x, b))[k] == x;
  }

  /** One disconnect request per failed check: a repeated message, a rejected payload,
      an oversized address list; the observed address never adds one. */
  lemma ReceiveDisconnectCount(hasReceived: bool, identify: IdentifyOutcome, listens: seq<Multiaddr>)
    ensures CountDisconnects(ReceiveResults(hasReceived, identify, listens))
      == (if hasReceived then 1 else 0) + (if identify.result == Disconnect then 1 else 0) + (if |listens| > MaxAddrs then 1 else 0)
  {
    var r := ReceiveResults(hasReceived, identify, listens);
    assert r[1..] == [r[1], r[2], Continue] && [r[1], r[2], Continue][1..] == [r[2], Continue];
    assert [r[2], Continue][1..] == [Continue] && [Continue][1..] == [];
    assert CountDisconnects([Continue]) == 0;
    assert CountDisconnects([r[2], Continue]) == (if r[2] == Disconnect then 1 else 0);
    assert CountDisconnects([r[1], r[2], Continue])
      == (if r[1] == Disconnect then 1 else 0) + (if r[2] == Disconnect then 1 else 0);
  }
}
