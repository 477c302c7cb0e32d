# Peer handshake and protocol dispatch of the CKB network layer, in Dafny

This project models the layer of the CKB node's network stack that sits between the
transport (tentacle sessions) and the node's protocols:

- **The identify handshake** (`network/src/protocols/identify/mod.rs`). Each side sends
  an identify message when a session opens: its listen addresses, the address it sees
  the peer at, and its identity (network name, capability flags, client version). The
  receiving side then runs four checks in order (duplicate, identity, listen addresses,
  observed address). It bans peers from another network, disconnects misbehaving or
  incapable peers, opens the node's protocols (or only the feeler protocol for a feeler
  probe), and sweeps sessions that never identify themselves within 8 seconds.
- **The dispatch adapter** (`network/src/protocols/mod.rs`). `CKBProtocol` is a
  protocol descriptor: the name gets the `/ckb/` prefix and versions are sorted highest
  first. `CKBHandler` keeps the peer registry's per-peer protocol map current and
  forwards session events to the protocol's handler only while the network is active.
  `connected_peers` lists the sessions that have a protocol open.
- **The protocol table** (`network/src/protocols/support_protocols.rs`). Each supported
  protocol's id, name, versions, maximum frame length and blocking policy.

Files and modules:

| file | module | contents |
|---|---|---|
| `wrappers.dfy` | `Wrappers` | `Option` |
| `addresses.dfy` | `Addresses` | multiaddr segments, socket addresses, the address utilities as a parameter |
| `identify_message.dfy` | `IdentifyMessages` | the decoded identify message and payload fields |
| `versions.dfy` | `Versions` | the `String` order, the in-place descending sort, membership |
| `network_state.dfy` | `Network` | sessions, the peer registry, `NetworkState` and `ServiceControl` with logs of the requests made to them |
| `support_protocols.dfy` | `SupportProtocols` | the protocol table |
| `protocols.dfy` | `Protocols` | `CKBProtocol`, `connected_peers`, `CKBHandler` |
| `identify.dfy` | `Identify` | flags, `verify`, the misbehaviour policy, the decision of `received_identify`, the address pipelines, the timeout sweep |
| `identify_handler.dfy` | `IdentifyHandler` | the classes `IdentifyCallback` and `IdentifyProtocol` |

How things are modelled:

- **Mutable state.** Objects whose fields the source updates in place are classes:
  `IdentifyProtocol` (its `remote_infos` map and `global_ip_only`) and `NetworkState`
  (the peer registry). `CKBHandler` and `IdentifyCallback` are classes too, but they
  never write their own fields: they hold the shared `NetworkState` and change the
  registry inside it. What the core asks its collaborators to do is recorded
  in ghost logs, in call order. These collaborators are the peer store, the transport's
  control handle and the wrapped protocol handler. They cover bans, store additions,
  observed-address candidates, disconnects, protocol opens, sends and notify
  registrations.
- **Time** is a natural number of milliseconds passed in as `now`.
- **Address utilities.** `multiaddr_to_socketaddr` and `is_reachable` from the
  transport library are the parameter `AddrUtils`.
- **Decoded payload.** The payload reader over molecule's `packed::Identify` is
  abstracted to the `Option<IdentifyFields>` it yields. A field that is not valid UTF-8
  is `None`.
- **Byte-oriented containers.** `Bytes` values and Rust integers are modelled only as
  far as the core inspects them. The 64-bit flag word is a `bv64`.

Two consequences of the code that a reader may not expect:

- **Zero flags.** `verify` returns `None` for a flag word of `0`
  (identify/mod.rs:564-566), and `received_identify` bans every `None` for five minutes
  (identify/mod.rs:393-401). So a peer of the same network that advertises no
  capability is banned, not merely disconnected (`ZeroFlagIsBanned`).
- **Version order.** The table's comment on `support_versions` says "smallest to
  largest". `CKBProtocol::new` sorts versions largest first. The table has one version
  per protocol, so the two never conflict. The model proves the table's lists are
  sorted highest first (`SupportVersions`).

## Model

| member | source | states |
|---|---|---|
| Versions.Le | network/src/protocols/mod.rs:172 | the lexicographic order of `String` that `cmp` uses; a prefix sorts first |
| Versions.LeReflexive | network/src/protocols/mod.rs:170-171 | the string order used by the sort is reflexive |
| Versions.LeTotal | network/src/protocols/mod.rs:170-171 | the string order is total |
| Versions.LeAntisymmetric | network/src/protocols/mod.rs:170-171 | the string order is antisymmetric, so equal-ranked versions are equal |
| Versions.LeTransitive | network/src/protocols/mod.rs:170-171 | the string order is transitive |
| Versions.SortedDescUnique | network/src/protocols/mod.rs:169-173 | two highest-first orderings of the same multiset of versions are the same list |
| Versions.SortDescending | network/src/protocols/mod.rs:170-171 | after the in-place sort the array is highest first and a permutation of what it held |
| Versions.Occurs | network/src/protocols/mod.rs:190-192 | `Vec::contains`: true exactly when some position holds the version |
| Network.RegisterProtocol | network/src/protocols/mod.rs:247-251 | inserts the version under the protocol on that peer only; other peers, other fields and the key set are unchanged; an unknown session changes nothing |
| Network.UnregisterProtocol | network/src/protocols/mod.rs:267-271 | removes the protocol from that peer only, keeping its other protocols with their versions; other peers unchanged |
| Network.SetIdentifyInfo | network/src/protocols/identify/mod.rs:404-413 | sets the client version on that peer only; everything else unchanged |
| Network.SetListenedAddrs | network/src/protocols/identify/mod.rs:457-461 | replaces that peer's listened addresses only; everything else unchanged |
| Network.NetworkState.constructor | network/src/protocols/identify/mod.rs:324-327 | a fresh network state: empty registry and logs, active |
| Network.NetworkState.PublicAddrs | network/src/protocols/identify/mod.rs:344 | the first min(`count`, number of public addresses) public addresses, in the order `public_addrs` yields them |
| Network.NetworkState.BanSession | network/src/protocols/identify/mod.rs:395-400 | appends exactly one ban request with the given session, duration and reason |
| Network.NetworkState.AddAddr | network/src/protocols/identify/mod.rs:462-467 | appends the address to the store log |
| Network.NetworkState.AddOutboundAddr | network/src/protocols/identify/mod.rs:364-366 | appends the address to the outbound log |
| Network.NetworkState.AddObservedAddrs | network/src/protocols/identify/mod.rs:506 | appends the candidates, in order |
| Network.ServiceControl.constructor | network/src/protocols/identify/mod.rs:197-207 | a control handle with empty request logs |
| Network.ServiceControl.Disconnect | network/src/protocols/identify/mod.rs:264 | appends one disconnect request for the session |
| Network.ServiceControl.OpenProtocols | network/src/protocols/identify/mod.rs:419-432 | appends one open request with its target |
| Network.ServiceControl.QuickSendMessage | network/src/protocols/identify/mod.rs:232-235 | appends the message sent to the session |
| Network.ServiceControl.SetServiceNotify | network/src/protocols/identify/mod.rs:200-204 | appends the notify registration |
| SupportProtocols.ProtocolId | network/src/protocols/support_protocols.rs:56-69 | every id is one of 0, 1, 2, 3, 4, 100, 101, 102, 110 |
| SupportProtocols.ProtocolIdInjective | network/src/protocols/support_protocols.rs:56-69 | distinct protocols have distinct ids |
| SupportProtocols.ProtocolIdsAre | network/src/protocols/support_protocols.rs:56-69 | the ids in use are exactly {0, 1, 2, 3, 4, 100, 101, 102, 110} |
| SupportProtocols.Name | network/src/protocols/support_protocols.rs:72-85 | every name starts with "/ckb/" and has a non-empty suffix |
| SupportProtocols.NameInjective | network/src/protocols/support_protocols.rs:72-85 | distinct protocols have distinct names |
| SupportProtocols.SupportVersions | network/src/protocols/support_protocols.rs:88-103 | every list is exactly ["2"], the latest version, so it is non-empty and sorted highest first |
| SupportProtocols.MaxFrameLength | network/src/protocols/support_protocols.rs:106-118 | every frame limit is between 1 KiB and 4 MiB |
| SupportProtocols.MaxFrameLengths | network/src/protocols/support_protocols.rs:106-118 | the table's values: identify 2048, sync 2 MiB, relay 4 MiB, discovery 512 KiB, alert 128 KiB, the rest 1 KiB |
| SupportProtocols.BlockingFlag.Default | network/src/protocols/support_protocols.rs:130 | `BlockingFlag::default()` has all four events blocking |
| SupportProtocols.BlockingFlag.DisableAll | network/src/protocols/support_protocols.rs:130-133 | `disable_all` leaves no event blocking |
| SupportProtocols.BlockingFlag.DisableConnected | network/src/protocols/support_protocols.rs:136 | `disable_connected` clears the connect flag and keeps the other three |
| SupportProtocols.BlockingFlag.DisableDisconnected | network/src/protocols/support_protocols.rs:137 | `disable_disconnected` clears the disconnect flag and keeps the other three |
| SupportProtocols.BlockingFlag.DisableNotify | network/src/protocols/support_protocols.rs:138 | `disable_notify` clears the notify flag and keeps the other three |
| SupportProtocols.Flag | network/src/protocols/support_protocols.rs:121-141 | no protocol blocks on connect, disconnect or notify; exactly sync and relay block on receive |
| Protocols.New | network/src/protocols/mod.rs:155-177 | the name gets the "/ckb/" prefix; the versions are a permutation of the input sorted highest first; the other fields are copied |
| Protocols.NormalisedUnique | network/src/protocols/mod.rs:155-177 | the descriptor `new` yields is determined by its arguments |
| Protocols.NewWithSupportProtocol | network/src/protocols/mod.rs:138-152 | id, frame limit, name, versions and flag copied unchanged from the table, so versions are non-empty and sorted and the name is prefixed |
| Protocols.SupportProtocolIsNormalised | network/src/protocols/mod.rs:138-177 | building from the table agrees with `new` given the table's entries |
| Protocols.MatchVersion | network/src/protocols/mod.rs:190-192 | true exactly when the version is among the supported versions |
| Protocols.SupportProtocolMatchesLatestOnly | network/src/protocols/mod.rs:190-192 | a table protocol matches exactly the latest version |
| Protocols.ConnectedPeers | network/src/protocols/mod.rs:438-452 | exactly the registered sessions whose protocol map has the protocol |
| Protocols.ConnectedPeersAfterRegister | network/src/protocols/mod.rs:246-251 | opening a protocol on a known session adds exactly that session to its peers; other protocols' peers unchanged |
| Protocols.ConnectedPeersAfterUnregister | network/src/protocols/mod.rs:266-271 | closing a protocol removes exactly that session from its peers; other protocols' peers unchanged |
| Protocols.CKBHandler.constructor | network/src/protocols/mod.rs:229-234 | a handler for one protocol over the shared network state, nothing forwarded yet |
| Protocols.CKBHandler.Init | network/src/protocols/mod.rs:237-244 | `init` is forwarded unconditionally |
| Protocols.CKBHandler.Connected | network/src/protocols/mod.rs:246-264 | the registry records the version even when inactive; the event is forwarded only when active; the protocol's peers gain the session |
| Protocols.CKBHandler.Disconnected | network/src/protocols/mod.rs:266-284 | the registry drops the protocol even when inactive; forwarded only when active; the protocol's peers lose the session |
| Protocols.CKBHandler.Received | network/src/protocols/mod.rs:286-304 | forwarded exactly when active |
| Protocols.CKBHandler.Notify | network/src/protocols/mod.rs:306-316 | forwarded exactly when active |
| Protocols.CKBHandler.Poll | network/src/protocols/mod.rs:318-329 | forwarded unconditionally |
| Identify.ContainedBits | network/src/protocols/identify/mod.rs:586-588 | a mask containing `b` shares a bit with every mask `b` shares a bit with |
| Identify.ContainsFromBits | network/src/protocols/identify/mod.rs:586-588 | the converse: a mask that shares a bit with every mask `b` shares a bit with contains `b` |
| Identify.ContainsIffSharedBits | network/src/protocols/identify/mod.rs:586-588 | `contains` in both directions: exactly when every mask sharing a bit with `b` shares one with `a` |
| Identify.ContainsReflexive | network/src/protocols/identify/mod.rs:586-588 | every flag word contains itself and contains 0 |
| Identify.ContainsPartialOrder | network/src/protocols/identify/mod.rs:586-588 | `contains` is transitive and antisymmetric |
| Identify.ContainsFullNode | network/src/protocols/identify/mod.rs:576-588 | against the full-node flag, a peer qualifies exactly when its lowest bit is set |
| Identify.Identify.Fields | network/src/protocols/identify/mod.rs:538-545 | the fields `encode` packs: `verify` on its own fields yields its flags and version when the flag word is non-zero, and `None` otherwise |
| Identify.Identify.Verify | network/src/protocols/identify/mod.rs:551-571 | `None` on an unreadable payload, a different network name, a zero flag word or an unreadable client version; otherwise the flags and client version, in both directions |
| Identify.LocalIdentify | network/src/protocols/identify/mod.rs:330-341 | the local identity keeps the given name and version, and its flag word is exactly the full-node flag 1 |
| Identify.VerifyOwnAdvertisement | network/src/protocols/identify/mod.rs:538-571 | what a node of the same network advertises verifies to its own flags and version |
| Identify.Misbehave | network/src/protocols/identify/mod.rs:511-517 | every misbehaviour is answered with Disconnect |
| Identify.IdentifyDecision | network/src/protocols/identify/mod.rs:388-444 | a ban exactly when verification fails, and then nothing else happens; an outbound feeler probe opens only the feeler protocol; a capable outbound peer has its version recorded and all but feeler opened; an incapable outbound peer is disconnected without a ban; an inbound peer has its version recorded and continues |
| Identify.DisconnectWithoutBan | network/src/protocols/identify/mod.rs:414-437 | a disconnect without a ban happens exactly to a verified outbound non-feeler peer lacking a local flag |
| Identify.OtherNetworkIsBanned | network/src/protocols/identify/mod.rs:555-562 | a payload naming another network bans and disconnects the session |
| Identify.ZeroFlagIsBanned | network/src/protocols/identify/mod.rs:564-567 | a zero flag word bans and disconnects the session |
| Network.TargetProtocol.Admits | network/src/protocols/identify/mod.rs:419-431 | `Single(id)` admits exactly `id`; the filter `id != excluded` admits every protocol but `excluded` |
| Network.TargetsComplementary | network/src/protocols/identify/mod.rs:419-431 | opening one protocol and opening all but that one admit complementary sets of protocols |
| Identify.OpenedProtocols | network/src/protocols/identify/mod.rs:414-432 | protocols are only opened on outbound sessions: only the feeler protocol for a probe, every protocol but feeler otherwise |
| Identify.TwoOutboundSessions | network/src/protocols/identify/mod.rs:414-437 | with the shipped identity an outbound peer with the full-node bit opens all but feeler, and one missing it is disconnected unbanned |
| Identify.Acceptable | network/src/protocols/identify/mod.rs:139-143 | without the global-IP-only policy an address is acceptable exactly when it converts to a socket address; with it, exactly when that socket address is reachable |
| Identify.FilterAcceptable | network/src/protocols/identify/mod.rs:138-145 | keeps exactly the acceptable addresses of the input, and no more of them |
| Identify.FilterAppend | network/src/protocols/identify/mod.rs:138-145 | the filter preserves order: it distributes over concatenation |
| Identify.FilterFixpoint | network/src/protocols/identify/mod.rs:138-145 | the filter leaves a list alone exactly when every entry is acceptable; filtering twice is filtering once |
| Identify.FilterAllAcceptable | network/src/protocols/identify/mod.rs:138-145 | a list of acceptable addresses passes the filter unchanged |
| Identify.Prefix | network/src/protocols/identify/mod.rs:227 | `take(n)`: a prefix of the list, the whole list when it has at most `n` elements and exactly `n` elements otherwise |
| Identify.AdvertisedListens | network/src/protocols/identify/mod.rs:218-229 | a prefix of the filtered local listen addresses, in the filter's order, of length min(10, number that pass the filter) |
| Identify.ListensResult | network/src/protocols/identify/mod.rs:132-134 | Disconnect exactly for more than 10 addresses |
| Identify.ReplaceTcpPort | network/src/protocols/identify/mod.rs:497-502 | same length; every TCP segment carries the new port; every other segment is unchanged |
| Identify.ReplaceTcpPortProperties | network/src/protocols/identify/mod.rs:497-502 | replacing the port twice is replacing it with the last port; the peer identity is kept |
| Addresses.HasPeerId | network/src/protocols/identify/mod.rs:485 | `extract_peer_id(..).is_some()`: only a non-empty address carries a peer identity, and one ending in a peer-identity segment does |
| Addresses.ReachableSocket | network/src/protocols/identify/mod.rs:478-480 | only an address that converts to a socket address is reachable, and such an address is reachable exactly when its IP is |
| Identify.WithPeerId | network/src/protocols/identify/mod.rs:485-489 | the result carries a peer identity; an address with one is unchanged, one without gets the local identity appended |
| Identify.ListenPorts | network/src/protocols/identify/mod.rs:495 | the ports in the list are exactly the ports of the listen addresses that convert to socket addresses |
| Identify.ListenPortsAppend | network/src/protocols/identify/mod.rs:492-495 | the ports follow the listen addresses in order: the ports of a concatenation are the concatenation of the ports |
| Identify.ListenPortsSingle | network/src/protocols/identify/mod.rs:495 | one listen address yields its port when it converts to a socket address, and nothing otherwise |
| Identify.Retargeted | network/src/protocols/identify/mod.rs:496-503 | one address per port, each the source with that port |
| Identify.ObservedAdditions | network/src/protocols/identify/mod.rs:471-509 | no candidates for an inbound session or an unreachable address; otherwise one per convertible listen address with every TCP port replaced, then the source address with the peer identity |
| Identify.Expired | network/src/protocols/identify/mod.rs:313 | a record has expired exactly when it has not been heard from and the time since connecting has reached its timeout |
| Identify.TimedOut | network/src/protocols/identify/mod.rs:311-320 | exactly the sessions not yet heard from whose deadline has passed |
| Identify.TimeoutBoundary | network/src/protocols/identify/mod.rs:311-320 | a fresh session times out exactly from 8000 ms after connecting; a session heard from never does; the timed-out set only grows with time |
| Identify.DuplicateResult | network/src/protocols/identify/mod.rs:113-119 | Disconnect exactly for a session already heard from |
| Identify.ReceiveResults | network/src/protocols/identify/mod.rs:259-293 | four verdicts in check order: Disconnect first exactly for a repeated message, then the identity verdict, then Disconnect exactly for more than 10 listen addresses, then Continue for the observed address |
| Identify.CountDisconnects | network/src/protocols/identify/mod.rs:259-293 | zero exactly when every verdict is Continue, never more than the number of checks |
| Identify.ReceiveDisconnectCount | network/src/protocols/identify/mod.rs:259-293 | one disconnect request per failed check: a repeat message, a rejected identity, an oversized address list |
| IdentifyHandler.IdentifyPeers | network/src/protocols/identify/mod.rs:404-413 | the registry is unchanged unless the decision records a client version; then that version is written to the session's peer, and every other peer and field is unchanged |
| IdentifyHandler.RecordedListens | network/src/protocols/identify/mod.rs:132-148 | nothing for more than 10 addresses; otherwise exactly the acceptable addresses of the input, in order |
| IdentifyHandler.ObservedStep | network/src/protocols/identify/mod.rs:165-175 | no candidates for a rejected observed address or an inbound session; for an acceptable observed address exactly the candidates of `ObservedAdditions`, the last carrying a peer identity |
| IdentifyHandler.IdentifyCallback.constructor | network/src/protocols/identify/mod.rs:330-341 | the callback's identity is the full-node identity with the given name and version |
| IdentifyHandler.IdentifyCallback.ListenAddrs | network/src/protocols/identify/mod.rs:343-349 | a prefix of the public addresses of length min(10, number of public addresses) |
| IdentifyHandler.IdentifyCallback.Register | network/src/protocols/identify/mod.rs:353-368 | records the version in the registry; an outbound session's address is logged as outbound |
| IdentifyHandler.IdentifyCallback.Unregister | network/src/protocols/identify/mod.rs:370-382 | an outbound session's unbanned address is logged as outbound again; nothing else |
| IdentifyHandler.IdentifyCallback.ReceivedIdentify | network/src/protocols/identify/mod.rs:388-444 | the verdict, registry, ban log and open log are exactly those of `IdentifyDecision` |
| IdentifyHandler.IdentifyCallback.AddRemoteListenAddrs | network/src/protocols/identify/mod.rs:451-469 | the peer's listened addresses are replaced and every address goes to the store, in order |
| IdentifyHandler.IdentifyCallback.AddObservedAddr | network/src/protocols/identify/mod.rs:471-509 | hands exactly the candidates of `ObservedAdditions` to the pool; always Continue |
| IdentifyHandler.IdentifyProtocol.constructor | network/src/protocols/identify/mod.rs:91-97 | no sessions, global-IP-only policy on |
| IdentifyHandler.IdentifyProtocol.SetGlobalIpOnly | network/src/protocols/identify/mod.rs:99-103 | sets the reachability policy |
| IdentifyHandler.IdentifyProtocol.Init | network/src/protocols/identify/mod.rs:198-207 | registers the sweep every 1000 ms with token 100 |
| IdentifyHandler.IdentifyProtocol.CheckDuplicate | network/src/protocols/identify/mod.rs:105-119 | marks the session as heard from; Continue the first time, Disconnect afterwards |
| IdentifyHandler.IdentifyProtocol.ProcessListens | network/src/protocols/identify/mod.rs:121-149 | more than 10 addresses: Disconnect and nothing recorded; otherwise Continue, and the filtered list is recorded on the peer and offered to the store |
| IdentifyHandler.IdentifyProtocol.ProcessObserved | network/src/protocols/identify/mod.rs:151-176 | Continue; candidates added only for an acceptable observed address, with the recorded session's direction |
| IdentifyHandler.IdentifyProtocol.Connected | network/src/protocols/identify/mod.rs:209-236 | registers the session; adds exactly one record (not heard from, 8000 ms timeout, connected now); sends one message with the advertised listens, the session address and the local identity |
| IdentifyHandler.IdentifyProtocol.Disconnected | network/src/protocols/identify/mod.rs:238-247 | removes only that session's record and unregisters it |
| IdentifyHandler.IdentifyProtocol.Received | network/src/protocols/identify/mod.rs:249-309 | an undecodable message asks for exactly one disconnect and changes nothing else; a decoded one marks only that session's record as heard from and has the effect of `ReceivedMessage` |
| IdentifyHandler.IdentifyProtocol.ReceivedMessage | network/src/protocols/identify/mod.rs:258-293 | all four checks run even after a failure; the registry, ban, open, store and observed logs combine the effects of the four checks; one disconnect request per Disconnect verdict |
| IdentifyHandler.IdentifyProtocol.CheckSender | network/src/protocols/identify/mod.rs:259-275 | the duplicate and identity checks with their disconnect requests |
| IdentifyHandler.IdentifyProtocol.CheckAddresses | network/src/protocols/identify/mod.rs:276-293 | the listen-address and observed-address checks with their disconnect requests |
| IdentifyHandler.IdentifyProtocol.DisconnectOnFailure | network/src/protocols/identify/mod.rs:259-265 | a disconnect request exactly for a Disconnect verdict |
| IdentifyHandler.IdentifyProtocol.Notify | network/src/protocols/identify/mod.rs:311-320 | one disconnect request for each session unheard from 8000 ms after connecting, and for no other; the records are unchanged |

## Left out

- The wire codecs are not modelled: `IdentifyMessage::decode`/`encode` and the molecule `packed::Identify` reader and builder. A message is its decoded form, or `None`. `Identify::encode` caches its bytes; the model sends the fields.
- The transport library's `multiaddr_to_socketaddr` and `is_reachable` are the parameter `AddrUtils`, not modelled. `extract_peer_id` is reduced to "has a peer-identity segment"; the validity of the identity bytes is not checked.
- `Instant::now()` is the parameter `now`. `Duration` values are milliseconds.
- The order in which `notify` visits `remote_infos` is unspecified (a `HashMap`). The model fixes the set of disconnect requests and that each is made once, not their order.
- The registry's iteration order in `connected_peers` is unspecified. `Protocols.ConnectedPeers` is a set.
- `BlockingFlag` is a transport-library type. The model assumes all four flags are set by default, so that `disable_*` clears each one.
- The `Callback` trait is not modelled as a trait. `IdentifyProtocol` is modelled with `IdentifyCallback`, the one callback in the source. `Callback::identify` and `local_listen_addrs` are the callback's identity fields and `ListenAddrs`.
- Lines that only log (`debug!`, `trace!`, `warn!`, `error!`) are not modelled, nor is ignoring a failed send, notify or open request. Those requests are logged unconditionally.
- These are not modelled: `CKBProtocol::build`, `From<SupportProtocols> for MetaBuilder`, `build_meta_with_service_handle`, the length-delimited codec and compression. They are builder plumbing.
- The `DefaultCKBProtocolContext` methods other than `connected_peers` are not modelled: sending, broadcasting, future tasks, reporting, banning. They are thin wrappers over the transport's control handle. The context object that `CKBHandler` builds for the handler is not modelled either.
- `BlockingFutureTask` and blocking execution are not modelled: they are scheduling only.
- Locking of the network state, and the peer store's internals, are not modelled. `add_addr`, `add_outbound_addr`, `is_addr_banned`, `is_feeler`, `ban_session` and `public_addrs` are logged calls or plain state. A failing `add_addr` is not modelled.
- A missing `RemoteInfo` panics in the source (`expect("RemoteInfo must exists")`, identify/mod.rs:110, 130, 165, 241 and 299). The model does not model the panic: `CheckDuplicate`, `ProcessListens`, `ProcessObserved`, `Disconnected` and `Received` require a record for the session, which the transport guarantees by calling `connected` first.
- `test/src/specs/tx_pool/pool_reconcile.rs` is part of a multi-node integration test and not of this layer.
