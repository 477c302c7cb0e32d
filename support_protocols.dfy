/** The static table of the protocols the node supports: numeric id, name, supported
    versions, maximum frame length and blocking policy of each. */
module SupportProtocols {
  import opened Versions

  const LatestVersion: Version := "2"

  datatype SupportProtocol =
    | Ping
    | Discovery
    | Identify
    | Feeler
    | DisconnectMessage
    | Sync
    | RelayV2
    | Time
    | Alert

  /** Which session events of a protocol run on the blocking thread pool. */
  datatype BlockingFlag = BlockingFlag(connected: bool, disconnected: bool, received: bool, notify: bool)
  {
    /** `BlockingFlag::default()`: every event blocking. */
    static function Default(): (r: BlockingFlag)
      ensures r.connected && r.disconnected && r.received && r.notify
    {
      BlockingFlag(true, true, true, true)
    }

    /** `disable_all`: no event blocking. */
    function DisableAll(): (r: BlockingFlag)
      ensures !r.connected && !r.disconnected && !r.received && !r.notify
    {
      BlockingFlag(false, false, false, false)
    }

    /** `disable_connected`: that event stops blocking; the others keep their setting. */
    function DisableConnected(): (r: BlockingFlag)
      ensures !r.connected
      ensures r.disconnected == disconnected && r.received == received && r.notify == notify
    {
      this.(connected := false)
    }

    /** `disable_disconnected`: that event stops blocking; the others keep their setting. */
    function DisableDisconnected(): (r: BlockingFlag)
      ensures !r.disconnected
      ensures r.connected == connected && r.received == received && r.notify == notify
    {
      this.(disconnected := false)
    }

    /** `disable_notify`: that event stops blocking; the others keep their setting. */
    function DisableNotify(): (r: BlockingFlag)
      ensures !r.notify
      ensures r.connected == connected && r.disconnected == disconnected && r.received == received
    {
      this.(notify := false)
    }
  }

  function ProtocolId(p: SupportProtocol): (id: nat)
    ensures id in {0, 1, 2, 3, 4, 100, 101, 102, 110}
  {
    match p
    case Ping => 0
    case Discovery => 1
    case Identify => 2
    case Feeler => 3
    case DisconnectMessage => 4
    case Sync => 100
    case RelayV2 => 101
    case Time => 102
    case Alert => 110
  }

  function Name(p: SupportProtocol): (name: string)
    ensures |name| > 5 && name[..5] == "/ckb/"
  {
    match p
    case Ping => "/ckb/ping"
    case Discovery => "/ckb/discovery"
    case Identify => "/ckb/identify"
    case Feeler => "/ckb/flr"
    case DisconnectMessage => "/ckb/disconnectmsg"
    case Sync => "/ckb/syn"
    case RelayV2 => "/ckb/relay"
    case Time => "/ckb/tim"
    case Alert => "/ckb/alt"
  }

  function SupportVersions(p: SupportProtocol): (versions: seq<Version>)
    ensures versions != [] && SortedDesc(versions)
    ensures forall k :: 0 <= k < |versions| ==> versions[k] == LatestVersion
    ensures versions == [LatestVersion]
  {
    match p
    case Ping => [LatestVersion]
    case Discovery => [LatestVersion]
    case Identify => [LatestVersion]
    case Feeler => [LatestVersion]
    case DisconnectMessage => [LatestVersion]
    case Sync => [LatestVersion]
    case Time => [LatestVersion]
    case Alert => [LatestVersion]
    case RelayV2 => [LatestVersion]
  }

  /** Maximum frame length in bytes. */
  function MaxFrameLength(p: SupportProtocol): (len: nat)
    ensures 1024 <= len <= 4 * 1024 * 1024
  {
    match p
    case Ping => 1024
    case Discovery => 512 * 1024
    case Identify => 2 * 1024
    case Feeler => 1024
    case DisconnectMessage => 1024
    case Sync => 2 * 1024 * 1024
    case RelayV2 => 4 * 1024 * 1024
    case Time => 1024
    case Alert => 128 * 1024
  }

  function Flag(p: SupportProtocol): (flag: BlockingFlag)
    ensures !flag.connected && !flag.disconnected && !flag.notify
    ensures flag.received <==> p in {Sync, RelayV2}
  {
    match p
    case Ping | Discovery | Identify | Feeler | DisconnectMessage | Time | Alert =>
      BlockingFlag.Default().DisableAll()
    case Sync | RelayV2 =>
      BlockingFlag.Default().DisableConnected().DisableDisconnected().DisableNotify()
  }

  lemma ProtocolIdInjective(p: SupportProtocol, q: SupportProtocol)
    ensures ProtocolId(p) == ProtocolId(q) ==> p == q
  {
  }

  lemma NameInjective(p: SupportProtocol, q: SupportProtocol)
    ensures Name(p) == Name(q) ==> p == q
  {
  }

  /** The ids in use, one per protocol. */
  lemma ProtocolIdsAre()
    ensures (set p: SupportProtocol :: ProtocolId(p)) == {0, 1, 2, 3, 4, 100, 101, 102, 110}
  {
    assert ProtocolId(Ping) == 0 && ProtocolId(Discovery) == 1 && ProtocolId(Identify) == 2;
    assert ProtocolId(Feeler) == 3 && ProtocolId(DisconnectMessage) == 4 && ProtocolId(Sync) == 100;
    assert ProtocolId(RelayV2) == 101 && ProtocolId(Time) == 102 && ProtocolId(Alert) == 110;
  }

  lemma MaxFrameLengths()
    ensures MaxFrameLength(Identify) == 2048
    ensures MaxFrameLength(Sync) == 2 * 1024 * 1024 && MaxFrameLength(RelayV2) == 4 * 1024 * 1024
    ensures MaxFrameLength(Discovery) == 512 * 1024 && MaxFrameLength(Alert) == 128 * 1024
    ensures forall p :: p in {Ping, Feeler, DisconnectMessage, Time} ==> MaxFrameLength(p) == 1024
  {
  }
}
