/** The stateful side of the identify handshake: `IdentifyCallback`, which applies the
    handshake's decisions to the shared network state, and `IdentifyProtocol`, which
    keeps one `RemoteInfo` per session and reacts to the transport's events. The clock
    is a parameter `now` (milliseconds); the transport's address utilities are the
    callback's `utils`. */
module IdentifyHandler {
  import opened Wrappers
  import opened Addresses
  import opened IdentifyMessages
  import opened Network
  import opened Identify

  /** The registry after `received_identify`: the client version recorded on the peer
      when the decision records one. */
  function IdentifyPeers(peers: Registry, session: SessionId, o: IdentifyOutcome): (r: Registry)
    ensures r.Keys == peers.Keys
    ensures o.clientVersion.None? ==> r == peers
    ensures forall s :: s in peers && s != session ==> r[s] == peers[s]
    ensures o.clientVersion.Some? && session in peers ==>
      r[session] == peers[session].(identifyInfo := o.clientVersion)
  {
    if o.clientVersion.Some? then SetIdentifyInfo(peers, session, o.clientVersion.value) else peers
  }

  /** The listen addresses `process_listens` records: none when there are too many,
      otherwise the acceptable ones in order. */
  function RecordedListens(u: AddrUtils, globalIpOnly: bool, listens: seq<Multiaddr>): (r: seq<Multiaddr>)
    ensures |r| <= MaxAddrs
    ensures forall k :: 0 <= k < |r| ==> r[k] in listens && Acceptable(u, globalIpOnly, r[k])
    ensures |listens| > MaxAddrs ==> r == []
    ensures |listens| <= MaxAddrs ==> r == FilterAcceptable(u, globalIpOnly, listens)
  {
    if |listens| > MaxAddrs then [] else FilterAcceptable(u, globalIpOnly, listens)
  }

  /** The candidates `process_observed` hands on: none unless the observed address is
      acceptable under the session's policy. */
  function ObservedStep(
    u: AddrUtils, globalIpOnly: bool, observed: Multiaddr, ty: SessionType,
    listens: seq<Multiaddr>, localPeerId: seq<byte>): (r: seq<Multiaddr>)
    ensures !Acceptable(u, globalIpOnly, observed) || ty.Inbound? ==> r == []
    ensures r != [] ==> HasPeerId(r[|r| - 1])
    ensures Acceptable(u, globalIpOnly, observed) ==> r == ObservedAdditions(u, observed, ty, listens, localPeerId)
  {
    if Acceptable(u, globalIpOnly, observed) then ObservedAdditions(u, observed, ty, listens, localPeerId) else []
  }

  /** `IdentifyCallback`: the network state, the local identity with the full-node flag,
      and the transport's address utilities. */
  class IdentifyCallback {
    const networkState: NetworkState
    const identify: Identify
    const utils: AddrUtils

    constructor (networkState: NetworkState, name: string, clientVersion: string, utils: AddrUtils)
      ensures this.networkState == networkState && this.utils == utils
      ensures identify == LocalIdentify(name, clientVersion)
    {
      this.networkState := networkState;
      this.identify := LocalIdentify(name, clientVersion);
      this.utils := utils;
    }

    /** `listen_addrs`: the first `MaxReturnListenAddrs` of twice as many public addresses. */
    function ListenAddrs(): (r: seq<Multiaddr>)
      reads networkState`publicAddrs
      ensures |r| <= MaxReturnListenAddrs && r <= networkState.publicAddrs
      ensures |r| == if |networkState.publicAddrs| <= MaxReturnListenAddrs then |networkState.publicAddrs| else MaxReturnListenAddrs
    {
      Prefix(networkState.PublicAddrs(2 * MaxReturnListenAddrs), MaxReturnListenAddrs)
    }

    /** `register`: record the negotiated version; an outbound session's address goes to
        the peer store as a verified outbound address. */
    method Register(session: SessionContext, protoId: ProtocolId, version: string)
      modifies networkState`peers, networkState`outboundAdds
      ensures networkState.peers == RegisterProtocol(old(networkState.peers), session.id, protoId, version)
      ensures networkState.outboundAdds
        == old(networkState.outboundAdds) + (if session.ty.Outbound? then [session.address] else [])
    {
      networkState.peers := RegisterProtocol(networkState.peers, session.id, protoId, version);
      if session.ty.Outbound? {
        networkState.AddOutboundAddr(session.address);
      }
    }

    /** `unregister`: an outbound session's address is refreshed in the peer store unless
        the store has banned it. */
    method Unregister(session: SessionContext)
      modifies networkState`outboundAdds
      ensures networkState.outboundAdds == old(networkState.outboundAdds)
        + (if session.ty.Outbound? && session.address !in networkState.bannedAddrs then [session.address] else [])
    {
      if session.ty.Outbound? {
        if session.address !in networkState.bannedAddrs {
          networkState.AddOutboundAddr(session.address);
        }
      }
    }

    /** `received_identify`: applies `IdentifyDecision` to the registry, the ban list and
        the control handle. */
    method ReceivedIdentify(session: SessionContext, control: ServiceControl, data: Option<IdentifyFields>)
      returns (result: MisbehaveResult)
      modifies networkState`peers, networkState`bans, control`opens
      ensures var o := IdentifyDecision(identify, session.ty, session.address in networkState.feelers, data);
        && result == o.result
        && networkState.peers == IdentifyPeers(old(networkState.peers), session.id, o)
        && networkState.bans == old(networkState.bans)
             + (if o.ban then [Ban(session.id, BanOnNotSameNetMs, NotSameNetworkReason)] else [])
        && control.opens == old(control.opens) + (if o.open.Some? then [(session.id, o.open.value)] else [])
    {
      var verified := identify.Verify(data);
      if verified.None? {
        networkState.BanSession(session.id, BanOnNotSameNetMs, NotSameNetworkReason);
        return Disconnect;
      }
      var (flags, clientVersion) := verified.value;
      if session.ty.Outbound? {
        if session.address in networkState.feelers {
          control.OpenProtocols(session.id, Single(FeelerId));
        } else if flags.Contains(identify.flags) {
          networkState.peers := SetIdentifyInfo(networkState.peers, session.id, clientVersion);
          control.OpenProtocols(session.id, AllExcept(FeelerId));
        } else {
          return Disconnect;
        }
      } else {
        networkState.peers := SetIdentifyInfo(networkState.peers, session.id, clientVersion);
      }
      return Continue;
    }

    /** `add_remote_listen_addrs`: the peer's listen addresses replace the registry's,
        and each is offered to the peer store, in order. */
    method AddRemoteListenAddrs(session: SessionContext, addrs: seq<Multiaddr>)
      modifies networkState`peers, networkState`storeAdds
      ensures networkState.peers == SetListenedAddrs(old(networkState.peers), session.id, addrs)
      ensures networkState.storeAdds == old(networkState.storeAdds) + addrs
    {
      networkState.peers := SetListenedAddrs(networkState.peers, session.id, addrs);
      var i := 0;
      while i < |addrs|
        invariant 0 <= i <= |addrs|
        invariant networkState.peers == SetListenedAddrs(old(networkState.peers), session.id, addrs)
        invariant networkState.storeAdds == old(networkState.storeAdds) + addrs[..i]
      {
        networkState.AddAddr(addrs[i]);
        i := i + 1;
      }
      assert addrs[..i] == addrs;
    }

    /** `add_observed_addr`: hands the candidates of `ObservedAdditions` to the
        address-discovery pool; never asks for a disconnect. */
    method AddObservedAddr(addr: Multiaddr, ty: SessionType) returns (result: MisbehaveResult)
      modifies networkState`observedAdds
      ensures result == Continue
      ensures networkState.observedAdds == old(networkState.observedAdds)
        + ObservedAdditions(utils, addr, ty, ListenAddrs(), networkState.localPeerId)
    {
      if ty.Inbound? {
        return Continue;
      }
      if !ReachableSocket(utils, addr) {
        return Continue;
      }
      var source := WithPeerId(addr, networkState.localPeerId);
      networkState.AddObservedAddrs(Retargeted(source, ListenPorts(utils, ListenAddrs())) + [source]);
      return Continue;
    }
  }

  /** `IdentifyProtocol`: the callback, one `RemoteInfo` per connected session, and the
      reachability policy for addresses. */
  class IdentifyProtocol {
    const callback: IdentifyCallback
    var remoteInfos: map<SessionId, RemoteInfo>
    var globalIpOnly: bool

    /** Every record is filed under its own session and carries the default timeout. */
    ghost predicate Valid()
      reads this`remoteInfos
    {
      forall id :: id in remoteInfos ==>
        remoteInfos[id].session.id == id && remoteInfos[id].timeout == DefaultTimeoutMs
    }

    constructor (callback: IdentifyCallback)
      ensures this.callback == callback && remoteInfos == map[] && globalIpOnly
      ensures Valid()
    {
      this.callback := callback;
      remoteInfos := map[];
      globalIpOnly := true;
    }

    /** The test-only builder that relaxes the reachability policy. */
    method SetGlobalIpOnly(only: bool)
      modifies this`globalIpOnly
      ensures globalIpOnly == only
    {
      globalIpOnly := only;
    }

    /** `init`: ask for the timeout sweep every `CheckTimeoutIntervalMs`. */
    method Init(control: ServiceControl, protoId: ProtocolId)
      modifies control`notifyRequests
      ensures control.notifyRequests == old(control.notifyRequests) + [(protoId, CheckTimeoutIntervalMs, CheckTimeoutToken)]
    {
      control.SetServiceNotify(protoId, CheckTimeoutIntervalMs, CheckTimeoutToken);
    }

    /** `check_duplicate`: the first message marks the session as heard from; any later
        one is misbehaviour. */
    method CheckDuplicate(session: SessionContext) returns (result: MisbehaveResult)
      requires session.id in remoteInfos
      modifies this`remoteInfos
      ensures result == DuplicateResult(old(remoteInfos[session.id].hasReceived))
      ensures remoteInfos == old(remoteInfos)[session.id := old(remoteInfos[session.id]).(hasReceived := true)]
    {
      var info := remoteInfos[session.id];
      if info.hasReceived {
        assert remoteInfos[session.id := info.(hasReceived := true)] == remoteInfos;
        return Misbehave(DuplicateReceived);
      }
      remoteInfos := remoteInfos[session.id := info.(hasReceived := true)];
      return Continue;
    }

    /** `process_listens`: more than `MaxAddrs` addresses is misbehaviour; otherwise the
        acceptable ones are recorded. */
    method ProcessListens(session: SessionContext, listens: seq<Multiaddr>) returns (result: MisbehaveResult)
      requires session.id in remoteInfos
      modifies callback.networkState`peers, callback.networkState`storeAdds
      ensures result == ListensResult(listens)
      ensures result == Disconnect ==>
        callback.networkState.peers == old(callback.networkState.peers)
        && callback.networkState.storeAdds == old(callback.networkState.storeAdds)
      ensures result == Continue ==>
        callback.networkState.peers == SetListenedAddrs(old(callback.networkState.peers), session.id, RecordedListens(callback.utils, globalIpOnly, listens))
        && callback.networkState.storeAdds == old(callback.networkState.storeAdds) + RecordedListens(callback.utils, globalIpOnly, listens)
    {
      if |listens| > MaxAddrs {
        return Misbehave(TooManyAddresses(|listens|));
      }
      callback.AddRemoteListenAddrs(session, FilterAcceptable(callback.utils, globalIpOnly, listens));
      return Continue;
    }

    /** `process_observed`: an observed address that is not acceptable is ignored;
        otherwise it goes to `add_observed_addr` with the recorded session's direction. */
    method ProcessObserved(session: SessionContext, observed: Multiaddr) returns (result: MisbehaveResult)
      requires session.id in remoteInfos
      modifies callback.networkState`observedAdds
      ensures result == Continue
      ensures callback.networkState.observedAdds == old(callback.networkState.observedAdds)
        + ObservedStep(callback.utils, globalIpOnly, observed, remoteInfos[session.id].session.ty,
                       callback.ListenAddrs(), callback.networkState.localPeerId)
    {
      var info := remoteInfos[session.id];
      if !Acceptable(callback.utils, globalIpOnly, observed) {
        return Continue;
      }
      result := callback.AddObservedAddr(observed, info.session.ty);
    }

    /** `connected`: register the session, start its handshake clock, and send the local
        identify message (advertised listen addresses, the address the peer is seen at,
        the local identity). */
    method Connected(session: SessionContext, control: ServiceControl, protoId: ProtocolId, version: string, now: nat)
      requires Valid()
      modifies this`remoteInfos, callback.networkState`peers, callback.networkState`outboundAdds, control`quickSent
      ensures Valid()
      ensures remoteInfos == old(remoteInfos)[session.id := RemoteInfo(session, now, DefaultTimeoutMs, false)]
      ensures callback.networkState.peers == RegisterProtocol(old(callback.networkState.peers), session.id, protoId, version)
      ensures callback.networkState.outboundAdds
        == old(callback.networkState.outboundAdds) + (if session.ty.Outbound? then [session.address] else [])
      ensures control.quickSent == old(control.quickSent) + [(session.id, IdentifyMessage(
        AdvertisedListens(callback.utils, globalIpOnly, callback.ListenAddrs()),
        session.address,
        Some(callback.identify.Fields())))]
    {
      callback.Register(session, protoId, version);
      remoteInfos := remoteInfos[session.id := RemoteInfo(session, now, DefaultTimeoutMs, false)];
      var listens := AdvertisedListens(callback.utils, globalIpOnly, callback.ListenAddrs());
      control.QuickSendMessage(session.id, IdentifyMessage(listens, session.address, Some(callback.identify.Fields())));
    }

    /** `disconnected`: drop the session's record and unregister it. */
    method Disconnected(session: SessionContext)
      requires Valid() && session.id in remoteInfos
      modifies this`remoteInfos, callback.networkState`outboundAdds
      ensures Valid()
      ensures remoteInfos == old(remoteInfos) - {session.id}
      ensures callback.networkState.outboundAdds == old(callback.networkState.outboundAdds)
        + (if session.ty.Outbound? && session.address !in callback.networkState.bannedAddrs then [session.address] else [])
    {
      remoteInfos := remoteInfos - {session.id};
      callback.Unregister(session);
    }

    /** `received`: an undecodable message is misbehaviour and asks for one disconnect;
        a decoded one goes through `ReceivedMessage`. */
    method Received(session: SessionContext, control: ServiceControl, message: Option<IdentifyMessage>)
      requires Valid() && session.id in remoteInfos
      modifies this`remoteInfos, control`opens, control`disconnects
      modifies callback.networkState`peers, callback.networkState`bans
      modifies callback.networkState`storeAdds, callback.networkState`observedAdds
      ensures Valid()
      ensures message.None? ==>
        && remoteInfos == old(remoteInfos)
        && callback.networkState.peers == old(callback.networkState.peers)
        && callback.networkState.bans == old(callback.networkState.bans)
        && callback.networkState.storeAdds == old(callback.networkState.storeAdds)
        && callback.networkState.observedAdds == old(callback.networkState.observedAdds)
        && control.opens == old(control.opens)
        && control.disconnects == old(control.disconnects) + [session.id]
      ensures message.Some? ==>
        remoteInfos == old(remoteInfos)[session.id := old(remoteInfos[session.id]).(hasReceived := true)]
      ensures message.Some? ==> MessageApplied(session, control, message.value, old(remoteInfos[session.id]),
        old(callback.networkState.peers), old(callback.networkState.bans), old(callback.networkState.storeAdds),
        old(callback.networkState.observedAdds), old(control.opens), old(control.disconnects))
    {
      if message.None? {
        var verdict := Misbehave(InvalidData);
        if verdict == Disconnect {
          control.Disconnect(session.id);
        }
        return;
      }
      ReceivedMessage(session, control, message.value);
    }

    /** The state after a decoded message `m` from `session`, given the session's record
        and the logs before it arrived. */
    ghost predicate MessageApplied(
      session: SessionContext, control: ServiceControl, m: IdentifyMessage, info: RemoteInfo,
      peers: Registry, bans: seq<Ban>, storeAdds: seq<Multiaddr>, observedAdds: seq<Multiaddr>,
      opens: seq<(SessionId, TargetProtocol)>, disconnects: seq<SessionId>)
      reads this, callback.networkState, control
    {
      var o := IdentifyDecision(callback.identify, session.ty, session.address in callback.networkState.feelers, m.identify);
      var recorded := RecordedListens(callback.utils, globalIpOnly, m.listenAddrs);
      && session.id in remoteInfos
      && remoteInfos[session.id] == info.(hasReceived := true)
      && callback.networkState.peers
           == (if |m.listenAddrs| > MaxAddrs then IdentifyPeers(peers, session.id, o)
               else SetListenedAddrs(IdentifyPeers(peers, session.id, o), session.id, recorded))
      && callback.networkState.bans == bans + (if o.ban then [Ban(session.id, BanOnNotSameNetMs, NotSameNetworkReason)] else [])
      && control.opens == opens + (if o.open.Some? then [(session.id, o.open.value)] else [])
      && callback.networkState.storeAdds == storeAdds + recorded
      && callback.networkState.observedAdds == observedAdds
           + ObservedStep(callback.utils, globalIpOnly, m.observedAddr, info.session.ty,
                          callback.ListenAddrs(), callback.networkState.localPeerId)
      && control.disconnects == disconnects + Repeat(session.id, CountDisconnects(ReceiveResults(info.hasReceived, o, m.listenAddrs)))
    }

    /** A decoded message runs the four checks in order — duplicate, identify, listen
        addresses, observed address — and each check that fails asks for one
        disconnect; a failure does not stop the checks after it. */
    method ReceivedMessage(session: SessionContext, control: ServiceControl, m: IdentifyMessage)
      requires Valid() && session.id in remoteInfos
      modifies this`remoteInfos, control`opens, control`disconnects
      modifies callback.networkState`peers, callback.networkState`bans
      modifies callback.networkState`storeAdds, callback.networkState`observedAdds
      ensures Valid()
      ensures remoteInfos == old(remoteInfos)[session.id := old(remoteInfos[session.id]).(hasReceived := true)]
      ensures MessageApplied(session, control, m, old(remoteInfos[session.id]),
        old(callback.networkState.peers), old(callback.networkState.bans), old(callback.networkState.storeAdds),
        old(callback.networkState.observedAdds), old(control.opens), old(control.disconnects))
    {
      ghost var info := remoteInfos[session.id];
      ghost var d0 := control.disconnects;
      ghost var o := IdentifyDecision(callback.identify, session.ty, session.address in callback.networkState.feelers, m.identify);
      CheckSender(session, control, m);
      ghost var d1 := control.disconnects;
      CheckAddresses(session, control, m);
      ReceiveDisconnectCount(info.hasReceived, o, m.listenAddrs);
      ComposeDisconnects(session.id, d0, d1, control.disconnects,
        (if info.hasReceived then 1 else 0) + (if o.result == Disconnect then 1 else 0),
        if |m.listenAddrs| > MaxAddrs then 1 else 0,
        CountDisconnects(ReceiveResults(info.hasReceived, o, m.listenAddrs)));
    }

    static lemma ComposeDisconnects(id: SessionId, d0: seq<SessionId>, d1: seq<SessionId>, d2: seq<SessionId>, n1: nat, n2: nat, n: nat)
      requires d1 == d0 + Repeat(id, n1) && d2 == d1 + Repeat(id, n2) && n == n1 + n2
      ensures d2 == d0 + Repeat(id, n)
    {
      RepeatAppend(id, n1, n2);
      assert d2 == d0 + (Repeat(id, n1) + Repeat(id, n2));
    }

    /** The first two checks of a decoded message: duplicate, then the identify payload. */
    method CheckSender(session: SessionContext, control: ServiceControl, m: IdentifyMessage)
      requires Valid() && session.id in remoteInfos
      modifies this`remoteInfos, control`opens, control`disconnects
      modifies callback.networkState`peers, callback.networkState`bans
      ensures Valid()
      ensures remoteInfos == old(remoteInfos)[session.id := old(remoteInfos[session.id]).(hasReceived := true)]
      ensures var o := IdentifyDecision(callback.identify, session.ty, session.address in callback.networkState.feelers, m.identify);
        && callback.networkState.peers == IdentifyPeers(old(callback.networkState.peers), session.id, o)
        && callback.networkState.bans == old(callback.networkState.bans)
             + (if o.ban then [Ban(session.id, BanOnNotSameNetMs, NotSameNetworkReason)] else [])
        && control.opens == old(control.opens) + (if o.open.Some? then [(session.id, o.open.value)] else [])
        && control.disconnects == old(control.disconnects)
             + Repeat(session.id, (if old(remoteInfos[session.id].hasReceived) then 1 else 0) + (if o.result == Disconnect then 1 else 0))
    {
      ghost var d0 := control.disconnects;
      var r1 := CheckDuplicate(session);
      DisconnectOnFailure(control, session.id, r1);
      ghost var d1 := control.disconnects;
      var r2 := callback.ReceivedIdentify(session, control, m.identify);
      DisconnectOnFailure(control, session.id, r2);
      RepeatAppend(session.id, if r1 == Disconnect then 1 else 0, if r2 == Disconnect then 1 else 0);
    }

    /** The last two checks of a decoded message: the listen addresses, then the
        observed address. */
    method CheckAddresses(session: SessionContext, control: ServiceControl, m: IdentifyMessage)
      requires session.id in remoteInfos
      modifies control`disconnects
      modifies callback.networkState`peers, callback.networkState`storeAdds, callback.networkState`observedAdds
      ensures var recorded := RecordedListens(callback.utils, globalIpOnly, m.listenAddrs);
        && callback.networkState.peers
             == (if |m.listenAddrs| > MaxAddrs then old(callback.networkState.peers)
                 else SetListenedAddrs(old(callback.networkState.peers), session.id, recorded))
        && callback.networkState.storeAdds == old(callback.networkState.storeAdds) + recorded
        && callback.networkState.observedAdds == old(callback.networkState.observedAdds)
             + ObservedStep(callback.utils, globalIpOnly, m.observedAddr, remoteInfos[session.id].session.ty,
                            callback.ListenAddrs(), callback.networkState.localPeerId)
        && control.disconnects == old(control.disconnects) + Repeat(session.id, if |m.listenAddrs| > MaxAddrs then 1 else 0)
    {
      var r3 := ProcessListens(session, m.listenAddrs);
      DisconnectOnFailure(control, session.id, r3);
      ghost var d3 := control.disconnects;
      var r4 := ProcessObserved(session, m.observedAddr);
      DisconnectOnFailure(control, session.id, r4);
      assert control.disconnects == d3;
    }

    /** `if let Disconnect = result { context.disconnect(session) }`. */
    static method DisconnectOnFailure(control: ServiceControl, session: SessionId, result: MisbehaveResult)
      modifies control`disconnects
      ensures control.disconnects == old(control.disconnects) + (if result == Disconnect then [session] else [])
    {
      if result == Disconnect {
        control.Disconnect(session);
      }
    }

    /** `notify`: every session still waiting for its identify message past its deadline
        is misbehaving and asked to disconnect, once each; the order follows the map's
        iteration and is not specified. Every record carries the default timeout, so
        the sessions swept are those unheard from `DefaultTimeoutMs` after connecting. */
    method Notify(control: ServiceControl, now: nat)
      requires Valid()
      modifies control`disconnects
      ensures Valid()
      ensures remoteInfos == old(remoteInfos)
      ensures forall id :: id in TimedOut(remoteInfos, now) <==>
        id in remoteInfos && !remoteInfos[id].hasReceived && remoteInfos[id].connectedAt + DefaultTimeoutMs <= now
      ensures |control.disconnects| == |old(control.disconnects)| + |TimedOut(remoteInfos, now)|
      ensures control.disconnects[..|old(control.disconnects)|] == old(control.disconnects)
      ensures forall k :: |old(control.disconnects)| <= k < |control.disconnects| ==>
        control.disconnects[k] in TimedOut(remoteInfos, now)
      ensures forall id :: id in TimedOut(remoteInfos, now) ==>
        id in control.disconnects[|old(control.disconnects)|..]
    {
      var pending := remoteInfos.Keys;
      ghost var swept: set<SessionId> := {};
      ghost var added: seq<SessionId> := [];
      while pending != {}
        invariant pending <= remoteInfos.Keys
        invariant forall id :: id in swept <==> id in remoteInfos && id !in pending && Expired(remoteInfos[id], now)
        invariant control.disconnects == old(control.disconnects) + added
        invariant |added| == |swept|
        invariant forall k :: 0 <= k < |added| ==> added[k] in swept
        invariant forall id :: id in swept ==> id in added
        decreases |pending|
      {
        var id :| id in pending;
        var info := remoteInfos[id];
        if !info.hasReceived && info.connectedAt + info.timeout <= now {
          var verdict := Misbehave(Timeout);
          if verdict == Disconnect {
            control.Disconnect(id);
          }
          assert id !in swept;
          swept := swept + {id};
          added := added + [id];
        }
        pending := pending - {id};
      }
      assert swept == TimedOut(remoteInfos, now);
      assert control.disconnects[|old(control.disconnects)|..] == added;
    }
  }
}
