/** The example ROS 2 controller that turns laser scans into velocity
    commands: a scan callback that records the closest valid range and a
    timer callback that picks a state and publishes a command for it. */
module Robot {
  import opened Wrappers

  /** One laser range as a float: a number, an infinity or NaN. */
  datatype Reading = Num(value: real) | PosInf | NegInf | NaN

  /** A distance that may be unbounded (`float('inf')`). */
  datatype Distance = Finite(meters: real) | Infinity

  datatype State = Exploring | Avoiding | Stopped

  /** A velocity command: forward speed and turn rate. */
  datatype Twist = Twist(linearX: real, angularZ: real)

  /** Below this distance the robot stops. */
  const EmergencyDistance: real := 0.3
  const DefaultSafetyThreshold: real := 0.8

  /** `not math.isinf(r) and r > 0`: NaN fails the comparison. */
  predicate Valid(r: Reading)
  {
    r.Num? && r.value > 0.0
  }

  /** `d < bound` for a float that may be infinite. */
  predicate Below(d: Distance, bound: real)
  {
    d.Finite? && d.meters < bound
  }

  /** The smaller of two distances. */
  function MinDistance(a: Distance, b: Distance): Distance
  {
    match (a, b)
    case (Infinity, _) => b
    case (_, Infinity) => a
    case (Finite(x), Finite(y)) => if x <= y then a else b
  }

  /** The closest valid range, or infinity when there is none. */
  function Closest(ranges: seq<Reading>): Distance
  {
    if ranges == [] then Infinity
    else if Valid(ranges[0]) then MinDistance(Finite(ranges[0].value), Closest(ranges[1..]))
    else Closest(ranges[1..])
  }

  /** The closest distance is infinite exactly when no range is valid;
      otherwise it is a valid range and no valid range is shorter. */
  lemma {:induction false} ClosestIsMinimum(ranges: seq<Reading>)
    ensures Closest(ranges).Infinity? <==> forall i :: 0 <= i < |ranges| ==> !Valid(ranges[i])
    ensures Closest(ranges).Finite? ==>
      (exists i :: 0 <= i < |ranges| && ranges[i] == Num(Closest(ranges).meters) && Valid(ranges[i]))
    ensures Closest(ranges).Finite? ==>
      forall i :: 0 <= i < |ranges| && Valid(ranges[i]) ==> Closest(ranges).meters <= ranges[i].value
  {
    if ranges != [] {
      var rest := ranges[1..];
      ClosestIsMinimum(rest);
      forall i | 0 < i < |ranges| ensures ranges[i] == rest[i - 1] {
      }
      if Closest(rest).Finite? {
        var j :| 0 <= j < |rest| && rest[j] == Num(Closest(rest).meters) && Valid(rest[j]);
        assert ranges[j + 1] == rest[j];
      }
    }
  }

  /** The command the controller publishes in each state. */
  function CommandFor(state: State): Twist
  {
    match state
    case Stopped => Twist(0.0, 0.0)
    case Avoiding => Twist(0.2, 0.8)
    case Exploring => Twist(0.5, 0.0)
  }

  /** The decision for the closest obstacle. */
  function Decide(closest: Distance, safetyThreshold: real): (s: State)
    ensures s == Stopped <==> Below(closest, EmergencyDistance)
    ensures s == Avoiding <==> !Below(closest, EmergencyDistance) && Below(closest, safetyThreshold)
    ensures s == Exploring <==> !Below(closest, EmergencyDistance) && !Below(closest, safetyThreshold)
  {
    if Below(closest, EmergencyDistance) then Stopped
    else if Below(closest, safetyThreshold) then Avoiding
    else Exploring
  }

  /** A closer obstacle never makes the robot go faster, and the robot only
      turns while avoiding; with no obstacle in view it explores. */
  lemma DecideSafe(near: real, far: real, safetyThreshold: real)
    requires near <= far && EmergencyDistance <= safetyThreshold
    ensures CommandFor(Decide(Finite(near), safetyThreshold)).linearX <=
            CommandFor(Decide(Finite(far), safetyThreshold)).linearX
    ensures CommandFor(Decide(Finite(far), safetyThreshold)).linearX <=
            CommandFor(Decide(Infinity, safetyThreshold)).linearX
    ensures Decide(Infinity, safetyThreshold) == Exploring
  {
  }

  class AIBasedRobotController {
    /** The last scan received, None until the first one arrives. */
    var scanData: Option<seq<Reading>>
    var closestObstacle: Distance
    var safetyThreshold: real
    var currentState: State
    /** Every command published on `cmd_vel`, in order. */
    var published: seq<Twist>

    /** Commands are published only once a scan has arrived, the closest
        obstacle is that of the last scan, and the last command published is
        the command of the current state. */
    predicate Consistent()
      reads this
    {
      && (scanData.None? ==> published == [])
      && (scanData.Some? ==> closestObstacle == Closest(scanData.value))
      && (published != [] ==> published[|published| - 1] == CommandFor(currentState))
    }

    constructor()
      ensures scanData.None? && safetyThreshold == DefaultSafetyThreshold
      ensures currentState == Exploring && published == []
      ensures Consistent()
    {
      scanData := None;
      closestObstacle := Infinity;
      safetyThreshold := DefaultSafetyThreshold;
      currentState := Exploring;
      published := [];
    }

    /** `scan_callback` */
    method ScanCallback(ranges: seq<Reading>)
      requires Consistent()
      modifies this
      ensures scanData == Some(ranges) && closestObstacle == Closest(ranges)
      ensures safetyThreshold == old(safetyThreshold) && currentState == old(currentState)
      ensures published == old(published)
      ensures Consistent()
    {
      scanData := Some(ranges);
      closestObstacle := Closest(ranges);
    }

    /** `ai_decision_callback`: nothing happens before the first scan. */
    method AiDecisionCallback()
      requires Consistent()
      modifies this
      ensures old(scanData).None? ==> currentState == old(currentState) && published == old(published)
      ensures old(scanData).Some? ==>
        && currentState == Decide(closestObstacle, safetyThreshold)
        && published == old(published) + [CommandFor(currentState)]
      ensures scanData == old(scanData) && closestObstacle == old(closestObstacle)
      ensures safetyThreshold == old(safetyThreshold)
      ensures Consistent()
    {
      if scanData.None? {
        return;
      }
      var command: Twist;
      if Below(closestObstacle, EmergencyDistance) {
        command := Twist(0.0, 0.0);
        currentState := Stopped;
      } else if Below(closestObstacle, safetyThreshold) {
        command := Twist(0.2, 0.8);
        currentState := Avoiding;
      } else {
        command := Twist(0.5, 0.0);
        currentState := Exploring;
      }
      published := published + [command];
    }
  }
}
