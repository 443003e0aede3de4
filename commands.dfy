/**
 * The payloads of the three commands: each is a node listing with one node
 * that carries only the attributes the command changes, addressed to the
 * fixed node URL followed by the id of the node it targets.
 */
module HiveCommands {
  import opened Wrappers
  import opened HiveResponse

  const NodesURL: string := "https://api-prod.bgchprod.info/omnia/nodes/"

  // The range the unit accepts. The commands forward a temperature as it is,
  // inside this range or not.
  const MinTemp: Celsius := 1.0
  const MaxTemp: Celsius := 32.0

  /** A time.Duration: a signed count of nanoseconds. */
  type Duration = Int64

  const Second: int := 1_000_000_000
  const Minute: int := 60 * Second

  /** int32(d.Minutes()): the whole minutes in `d`, truncated toward zero. */
  function WholeMinutes(d: Duration): (m: Int32)
    ensures 0 <= d ==> 0 <= m && m * Minute <= d < (m + 1) * Minute
    ensures d < 0 ==> m <= 0 && (m - 1) * Minute < d <= m * Minute
  {
    var ns: int := d;
    if ns >= 0 then ns / Minute else -((-ns) / Minute)
  }

  /** The URL a command for node `nodeID` is sent to. */
  function CommandURL(nodeID: string): (url: string)
    ensures NodesURL <= url && url[|NodesURL|..] == nodeID
  {
    NodesURL + nodeID
  }

  /** A listing of one node with the given attributes and every other field at its zero value. */
  function SingleNode(a: NodeAttributes): (p: NodesReply)
    ensures |p.nodes| == 1
    ensures p.nodes[0].id == "" && p.nodes[0].href == "" && p.nodes[0].lastSeen == 0
    ensures p.nodes[0].attributes == a
  {
    NodesReply([NodeInfo("", "", 0, a)])
  }

  /** SetTargetTemp's payload: only the target value of the target temperature is set. */
  function TargetTempPayload(temp: Celsius): (p: NodesReply)
    ensures |p.nodes| == 1
    ensures var a := p.nodes[0].attributes;
      PresentFields(a) == {TargetHeatTemperature} && a.targetHeatTemperature.value.target == temp
    ensures var n := p.nodes[0];
      n.id == "" && n.href == "" && n.lastSeen == 0 && n.attributes.targetHeatTemperature.value.reported == 0.0
  {
    var a := NoAttributes.(targetHeatTemperature := Some(Report(0.0, temp)));
    assert forall k :: Has(a, k) <==> k == TargetHeatTemperature;
    SingleNode(a)
  }

  /** A temperature outside the range the unit accepts is forwarded unchanged. */
  lemma TargetTempNotClamped(temp: Celsius)
    requires temp < MinTemp || MaxTemp < temp
    ensures var a := TargetTempPayload(temp).nodes[0].attributes;
      a.targetHeatTemperature.value.target == temp && !(MinTemp <= a.targetHeatTemperature.value.target <= MaxTemp)
  {
  }

  /**
   * The payload of ToggleHotWater and ToggleHeatingBoost. Switching on asks
   * for mode BOOST for the whole minutes of `duration`; switching off asks for
   * mode HEAT and releases the schedule lock. Nothing else is sent.
   */
  function BoostPayload(on: bool, duration: Duration): (p: NodesReply)
    ensures |p.nodes| == 1
    ensures var a := p.nodes[0].attributes;
      if on then
        PresentFields(a) == {ActiveHeatCoolMode, ScheduleLockDuration}
        && a.activeHeatCoolMode.value.target == ApiBoost
        && a.scheduleLockDuration.value.target == WholeMinutes(duration)
      else
        PresentFields(a) == {ActiveHeatCoolMode, ActiveScheduleLock}
        && a.activeHeatCoolMode.value.target == ApiHeat
        && !a.activeScheduleLock.value.target
    ensures var n := p.nodes[0];
      && n.id == "" && n.href == "" && n.lastSeen == 0
      && n.attributes.activeHeatCoolMode.value.reported == ""
      && (on ==> n.attributes.scheduleLockDuration.value.reported == 0)
      && (!on ==> !n.attributes.activeScheduleLock.value.reported)
  {
    var a :=
      if on then
        NoAttributes.(
          activeHeatCoolMode := Some(Report("", ApiBoost)),
          scheduleLockDuration := Some(Report(0, WholeMinutes(duration))))
      else
        NoAttributes.(
          activeHeatCoolMode := Some(Report("", ApiHeat)),
          activeScheduleLock := Some(Report(false, false)));
    assert on ==> forall k :: Has(a, k) <==> k == ActiveHeatCoolMode || k == ScheduleLockDuration;
    assert !on ==> forall k :: Has(a, k) <==> k == ActiveHeatCoolMode || k == ActiveScheduleLock;
    SingleNode(a)
  }
}
