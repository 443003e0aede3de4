/**
 * The domain snapshot of a Hive Home installation and the reducer that
 * derives it from the node list. A node's role is decided by which
 * attributes it carries: it is the heating node when it has both temperature
 * attributes, the hot-water node when it reports that it supports hot water.
 * Nodes are applied in order, so for every field the last node that writes
 * it wins.
 */
module HiveState {
  import opened Wrappers
  import opened HiveResponse

  datatype State = State(
    heating: bool,
    heatingBoosted: bool,
    currentTemp: Celsius,
    targetTemp: Celsius,
    hotWater: bool,
    hotWaterBoosted: bool)

  /** The state before any node is seen. */
  const ZeroState: State := State(false, false, 0.0, 0.0, false, false)

  predicate IsHeatingNode(a: NodeAttributes)
  {
    a.temperature.Some? && a.targetHeatTemperature.Some?
  }

  predicate IsHotWaterNode(a: NodeAttributes)
  {
    a.supportsHotWater.Some? && a.supportsHotWater.value.reported
  }

  /** A node that plays neither role. */
  predicate IsBystander(a: NodeAttributes)
  {
    !IsHeatingNode(a) && !IsHotWaterNode(a)
  }

  /** What one node writes into the state, field by field; None leaves the field as it was. */
  datatype Patch = Patch(
    heating: Option<bool>,
    heatingBoosted: Option<bool>,
    currentTemp: Option<Celsius>,
    targetTemp: Option<Celsius>,
    hotWater: Option<bool>,
    hotWaterBoosted: Option<bool>)

  /** Whether the reported value of `r` is `value`, when the role holds and the attribute is present. */
  function ReportIs(role: bool, r: Option<ReportString>, value: string): Option<bool>
  {
    if role && r.Some? then Some(r.value.reported == value) else None
  }

  /**
   * The role table: a heating node writes both temperatures (their reported
   * values), the relay flag when the relay attribute is present and the boost
   * flag when the mode attribute is present; a hot-water node writes the
   * hot-water relay flag and, from the same mode attribute, the hot-water
   * boost flag.
   */
  function NodePatch(a: NodeAttributes): Patch
  {
    var heat := IsHeatingNode(a);
    var water := IsHotWaterNode(a);
    Patch(
      heating := ReportIs(heat, a.stateHeatingRelay, ApiOn),
      heatingBoosted := ReportIs(heat, a.activeHeatCoolMode, ApiBoost),
      currentTemp := if heat then Some(a.temperature.value.reported) else None,
      targetTemp := if heat then Some(a.targetHeatTemperature.value.reported) else None,
      hotWater := ReportIs(water, a.stateHotWaterRelay, ApiOn),
      hotWaterBoosted := ReportIs(water, a.activeHeatCoolMode, ApiBoost))
  }

  function Overwrite<T>(prior: T, w: Option<T>): T
  {
    match w
    case Some(v) => v
    case None => prior
  }

  /** The state after node `n` has been applied to `s`. */
  function Step(s: State, n: NodeInfo): (t: State)
    ensures IsBystander(n.attributes) ==> t == s
    ensures !IsHeatingNode(n.attributes) ==>
      t.heating == s.heating && t.heatingBoosted == s.heatingBoosted
      && t.currentTemp == s.currentTemp && t.targetTemp == s.targetTemp
    ensures !IsHotWaterNode(n.attributes) ==> t.hotWater == s.hotWater && t.hotWaterBoosted == s.hotWaterBoosted
    ensures IsHeatingNode(n.attributes) ==>
      t.currentTemp == n.attributes.temperature.value.reported
      && t.targetTemp == n.attributes.targetHeatTemperature.value.reported
  {
    var p := NodePatch(n.attributes);
    State(
      Overwrite(s.heating, p.heating),
      Overwrite(s.heatingBoosted, p.heatingBoosted),
      Overwrite(s.currentTemp, p.currentTemp),
      Overwrite(s.targetTemp, p.targetTemp),
      Overwrite(s.hotWater, p.hotWater),
      Overwrite(s.hotWaterBoosted, p.hotWaterBoosted))
  }

  /**
   * The role table written out on the attributes: both temperatures come from
   * the reported values of a heating node; the relay and boost flags change
   * only when their node has the role and the attribute is present.
   */
  lemma StepTable(s: State, n: NodeInfo)
    ensures var a := n.attributes;
      Step(s, n) == State(
        heating := if IsHeatingNode(a) && a.stateHeatingRelay.Some? then a.stateHeatingRelay.value.reported == ApiOn else s.heating,
        heatingBoosted := if IsHeatingNode(a) && a.activeHeatCoolMode.Some? then a.activeHeatCoolMode.value.reported == ApiBoost else s.heatingBoosted,
        currentTemp := if IsHeatingNode(a) then a.temperature.value.reported else s.currentTemp,
        targetTemp := if IsHeatingNode(a) then a.targetHeatTemperature.value.reported else s.targetTemp,
        hotWater := if IsHotWaterNode(a) && a.stateHotWaterRelay.Some? then a.stateHotWaterRelay.value.reported == ApiOn else s.hotWater,
        hotWaterBoosted := if IsHotWaterNode(a) && a.activeHeatCoolMode.Some? then a.activeHeatCoolMode.value.reported == ApiBoost else s.hotWaterBoosted)
  {
  }

  /** The left fold of Step over `nodes`, starting from `s`. */
  function Fold(s: State, nodes: seq<NodeInfo>): State
    decreases |nodes|
  {
    if nodes == [] then s else Fold(Step(s, nodes[0]), nodes[1..])
  }

  /** The state a node list reduces to. */
  function Reduce(nodes: seq<NodeInfo>): (s: State)
    ensures nodes == [] ==> s == ZeroState
  {
    Fold(ZeroState, nodes)
  }

  /** Folding a concatenation folds the second part over the result of the first. */
  lemma {:induction false} FoldAppend(s: State, xs: seq<NodeInfo>, ys: seq<NodeInfo>)
    ensures Fold(s, xs + ys) == Fold(Fold(s, xs), ys)
    decreases |xs|
  {
    if xs == [] {
      assert xs + ys == ys;
    } else {
      assert (xs + ys)[0] == xs[0];
      assert (xs + ys)[1..] == xs[1..] + ys;
      FoldAppend(Step(s, xs[0]), xs[1..], ys);
    }
  }

  /** Last write wins: a node appended to the list is applied on top of the rest. */
  lemma ReduceSnoc(xs: seq<NodeInfo>, n: NodeInfo)
    ensures Reduce(xs + [n]) == Step(Reduce(xs), n)
  {
    FoldAppend(ZeroState, xs, [n]);
  }

  /** Reducing one more node of a list applies that node to the reduced prefix. */
  lemma ReducePrefix(nodes: seq<NodeInfo>, i: nat)
    requires i < |nodes|
    ensures Reduce(nodes[..i + 1]) == Step(Reduce(nodes[..i]), nodes[i])
  {
    assert nodes[..i + 1] == nodes[..i] + [nodes[i]];
    ReduceSnoc(nodes[..i], nodes[i]);
  }

  /** A node with no role may be inserted anywhere without changing the result. */
  lemma ReduceIgnoresBystander(xs: seq<NodeInfo>, n: NodeInfo, ys: seq<NodeInfo>)
    requires IsBystander(n.attributes)
    ensures Reduce(xs + [n] + ys) == Reduce(xs + ys)
  {
    FoldAppend(ZeroState, xs + [n], ys);
    FoldAppend(ZeroState, xs, [n]);
    FoldAppend(ZeroState, xs, ys);
  }

  /** A node in both roles whose mode reports BOOST, applied last, sets both boost flags. */
  lemma BoostNodeSetsBothFlags(xs: seq<NodeInfo>, n: NodeInfo)
    requires IsHeatingNode(n.attributes) && IsHotWaterNode(n.attributes)
    requires n.attributes.activeHeatCoolMode.Some? && n.attributes.activeHeatCoolMode.value.reported == ApiBoost
    ensures Reduce(xs + [n]).heatingBoosted && Reduce(xs + [n]).hotWaterBoosted
  {
    ReduceSnoc(xs, n);
  }

  /** A single thermostat reporting 18.5 degrees against a target of 21, relay on, mode HEAT. */
  lemma ThermostatScenario(n: NodeInfo)
    requires n.attributes == NoAttributes.(
      temperature := Some(Report(18.5, 0.0)),
      targetHeatTemperature := Some(Report(21.0, 0.0)),
      stateHeatingRelay := Some(Report(ApiOn, "")),
      activeHeatCoolMode := Some(Report(ApiHeat, ApiHeat)))
    ensures Reduce([n]) == State(true, false, 18.5, 21.0, false, false)
  {
    ReduceSnoc([], n);
    assert [] + [n] == [n];
  }

  /** The state fields, by name, for stating one property of all six at once. */
  datatype Field = Heating | HeatingBoosted | CurrentTemp | TargetTemp | HotWater | HotWaterBoosted

  datatype Value = Flag(flag: bool) | Degrees(degrees: Celsius)

  function Get(s: State, f: Field): Value
  {
    match f
    case Heating => Flag(s.heating)
    case HeatingBoosted => Flag(s.heatingBoosted)
    case CurrentTemp => Degrees(s.currentTemp)
    case TargetTemp => Degrees(s.targetTemp)
    case HotWater => Flag(s.hotWater)
    case HotWaterBoosted => Flag(s.hotWaterBoosted)
  }

  function Lift<T>(w: Option<T>, wrap: T -> Value): Option<Value>
  {
    match w
    case Some(v) => Some(wrap(v))
    case None => None
  }

  /** What `a` writes into field `f`. */
  function Written(a: NodeAttributes, f: Field): Option<Value>
  {
    var p := NodePatch(a);
    match f
    case Heating => Lift(p.heating, b => Flag(b))
    case HeatingBoosted => Lift(p.heatingBoosted, b => Flag(b))
    case CurrentTemp => Lift(p.currentTemp, t => Degrees(t))
    case TargetTemp => Lift(p.targetTemp, t => Degrees(t))
    case HotWater => Lift(p.hotWater, b => Flag(b))
    case HotWaterBoosted => Lift(p.hotWaterBoosted, b => Flag(b))
  }

  /** The writes the nodes make to field `f`, in order. */
  function Writes(nodes: seq<NodeInfo>, f: Field): seq<Option<Value>>
  {
    seq(|nodes|, i requires 0 <= i < |nodes| => Written(nodes[i].attributes, f))
  }

  /** The value of the last write in `ws`, or `d` when nothing is written. */
  function LastWrite<T>(ws: seq<Option<T>>, d: T): (r: T)
    ensures (forall i :: 0 <= i < |ws| ==> ws[i].None?) ==> r == d
    ensures forall i :: 0 <= i < |ws| && ws[i].Some? && (forall j :: i < j < |ws| ==> ws[j].None?) ==> r == ws[i].value
    decreases |ws|
  {
    if ws == [] then d
    else match ws[|ws| - 1]
      case Some(v) => v
      case None => LastWrite(ws[..|ws| - 1], d)
  }

  lemma StepField(s: State, n: NodeInfo, f: Field)
    ensures Get(Step(s, n), f) == Overwrite(Get(s, f), Written(n.attributes, f))
  {
  }

  lemma {:induction false} FoldIsLastWrite(s: State, nodes: seq<NodeInfo>, f: Field)
    ensures Get(Fold(s, nodes), f) == LastWrite(Writes(nodes, f), Get(s, f))
    decreases |nodes|
  {
    if nodes != [] {
      var xs, n := nodes[..|nodes| - 1], nodes[|nodes| - 1];
      assert nodes == xs + [n];
      FoldAppend(s, xs, [n]);
      FoldIsLastWrite(s, xs, f);
      StepField(Fold(s, xs), n, f);
      assert Writes(nodes, f)[..|xs|] == Writes(xs, f);
    }
  }

  /**
   * Independent reading of the reducer: every field of the result is the
   * value written by the last node that writes it, or the zero value when no
   * node does.
   */
  lemma ReduceIsLastWrite(nodes: seq<NodeInfo>, f: Field)
    ensures Get(Reduce(nodes), f) == LastWrite(Writes(nodes, f), Get(ZeroState, f))
  {
    FoldIsLastWrite(ZeroState, nodes, f);
  }

  /** The reducer as the client runs it: a loop that overwrites fields of one state record. */
  method NewStateFromNodes(nodes: seq<NodeInfo>) returns (state: State)
    ensures state == Reduce(nodes)
  {
    state := ZeroState;
    for i := 0 to |nodes|
      invariant state == Reduce(nodes[..i])
    {
      ghost var before := state;
      var attrs := nodes[i].attributes;
      StepTable(before, nodes[i]);

      if attrs.temperature.Some? && attrs.targetHeatTemperature.Some? {
        state := state.(currentTemp := attrs.temperature.value.reported,
                        targetTemp := attrs.targetHeatTemperature.value.reported);
        if attrs.stateHeatingRelay.Some? {
          state := state.(heating := attrs.stateHeatingRelay.value.reported == "ON");
        }
        if attrs.activeHeatCoolMode.Some? {
          state := state.(heatingBoosted := attrs.activeHeatCoolMode.value.reported == "BOOST");
        }
      }

      if attrs.supportsHotWater.Some? && attrs.supportsHotWater.value.reported == true {
        if attrs.stateHotWaterRelay.Some? {
          state := state.(hotWater := attrs.stateHotWaterRelay.value.reported == "ON");
        }
        if attrs.activeHeatCoolMode.Some? {
          state := state.(hotWaterBoosted := attrs.activeHeatCoolMode.value.reported == "BOOST");
        }
      }

      assert state == Step(before, nodes[i]);
      ReducePrefix(nodes, i);
    }
    assert nodes[..|nodes|] == nodes;
  }
}
