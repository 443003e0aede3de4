/**
 * The wire records of the Hive Home API: the node list returned by
 * GET .../omnia/nodes (and sent, one node at a time, as a command), and the
 * reply to a login. Every node attribute is optional; an absent attribute is
 * a nil pointer in the client and is left out of an encoded payload.
 */
module HiveResponse {
  import opened Wrappers

  // The API's enumeration strings.
  const ApiOff: string := "OFF"
  const ApiOn: string := "ON"
  const ApiBoost: string := "BOOST"
  const ApiHeat: string := "HEAT"

  type Int32 = x: int | -0x8000_0000 <= x < 0x8000_0000
  type Int64 = x: int | -0x8000_0000_0000_0000 <= x < 0x8000_0000_0000_0000

  /** A temperature in degrees Celsius. The client only copies these values, so no floating-point behaviour is modelled. */
  type Celsius = real

  /** One attribute of a node: the value the device reports and the value it is asked to reach, of the same type. */
  datatype Report<T> = Report(reported: T, target: T)

  type ReportFloat = Report<Celsius>
  type ReportBool = Report<bool>
  type ReportString = Report<string>
  type ReportInt = Report<Int32>

  /** The attributes the client reads or writes; each one may be absent. */
  datatype NodeAttributes = NodeAttributes(
    activeHeatCoolMode: Option<ReportString>,
    activeScheduleLock: Option<ReportBool>,
    scheduleLockDuration: Option<ReportInt>,
    stateHeatingRelay: Option<ReportString>,
    stateHotWaterRelay: Option<ReportString>,
    supportsHotWater: Option<ReportBool>,
    targetHeatTemperature: Option<ReportFloat>,
    temperature: Option<ReportFloat>)

  /** A node carrying no attribute at all. */
  const NoAttributes: NodeAttributes := NodeAttributes(None, None, None, None, None, None, None, None)

  datatype NodeInfo = NodeInfo(id: string, href: string, lastSeen: Int64, attributes: NodeAttributes)

  /** The body of a node listing, and of a node update. */
  datatype NodesReply = NodesReply(nodes: seq<NodeInfo>)

  datatype ErrorReply = ErrorReply(reason: string)

  /** The body of a login reply; the token travels under the wire name "ApiSession". */
  datatype LoginReply = LoginReply(token: string, error: ErrorReply)

  /** The attributes of a node, by name. */
  datatype Attr =
    | ActiveHeatCoolMode | ActiveScheduleLock | ScheduleLockDuration | StateHeatingRelay
    | StateHotWaterRelay | SupportsHotWater | TargetHeatTemperature | Temperature

  /** Whether attribute `k` of `a` is present (a non-nil pointer). */
  predicate Has(a: NodeAttributes, k: Attr)
  {
    match k
    case ActiveHeatCoolMode => a.activeHeatCoolMode.Some?
    case ActiveScheduleLock => a.activeScheduleLock.Some?
    case ScheduleLockDuration => a.scheduleLockDuration.Some?
    case StateHeatingRelay => a.stateHeatingRelay.Some?
    case StateHotWaterRelay => a.stateHotWaterRelay.Some?
    case SupportsHotWater => a.supportsHotWater.Some?
    case TargetHeatTemperature => a.targetHeatTemperature.Some?
    case Temperature => a.temperature.Some?
  }

  /**
   * The attributes an encoding of `a` carries: every attribute is "omitempty",
   * so exactly the present ones appear, and a node with none carries none.
   */
  function PresentFields(a: NodeAttributes): (keys: set<Attr>)
    ensures forall k: Attr :: k in keys <==> Has(a, k)
    ensures keys == {} <==> a == NoAttributes
  {
    var keys := set k: Attr | Has(a, k);
    assert keys == {} ==> a == NoAttributes by {
      if keys == {} {
        assert ActiveHeatCoolMode !in keys && ActiveScheduleLock !in keys;
        assert ScheduleLockDuration !in keys && StateHeatingRelay !in keys;
        assert StateHotWaterRelay !in keys && SupportsHotWater !in keys;
        assert TargetHeatTemperature !in keys && Temperature !in keys;
      }
    }
    keys
  }

  /** The four enumeration strings are pairwise distinct. */
  lemma ApiStringsDistinct()
    ensures ApiOff != ApiOn && ApiOff != ApiBoost && ApiOff != ApiHeat
    ensures ApiOn != ApiBoost && ApiOn != ApiHeat && ApiBoost != ApiHeat
  {
  }
}
