/** The values that the task planner passes around: robot states, requests,
    estimates and assignments.

    Time points and durations are integers in nanoseconds, the unit of
    `rmf_traffic::Time`. Battery levels and costs are reals. */
module Domain {

  datatype Option<+T> = None | Some(value: T)

  type Time = int

  /** One second, the unit of `rmf_traffic::time::from_seconds(1.0)`. */
  const SECOND: int := 1_000_000_000

  /** `rmf_traffic::time::to_seconds` */
  function Seconds(t: int): real {
    t as real / 1000000000.0
  }

  /** The predicted state of a robot. `charger` is its dedicated charging waypoint
      and `soc` its battery state of charge. */
  datatype State = State(waypoint: nat, orientation: real, time: Time, charger: nat, soc: real)

  /** What a task model predicts: the state at the end of the task and the time at
      which the robot has to be deployed. */
  datatype Estimate = Estimate(finish: State, waitUntil: Time)

  type Positive = x: int | x >= 1 witness 1

  type NonNegative = x: real | x >= 0.0

  /** Waits and paths do not take negative time or charge, and a loop is done at least once. */
  datatype Description =
    | Delivery(pickup: nat, pickupWait: nat, dropoff: nat, dropoffWait: nat)
    | Loop(start: nat, finish: nat, loops: Positive)
    | Clean(start: nat, end: nat, pathDuration: nat, pathDrain: NonNegative)
    | ChargeBattery
    | Composed(tag: nat)

  /** A request and its booking; `priority` says whether the booking carries one. */
  datatype Request = Request(id: nat, earliestStart: Time, priority: bool, description: Description)

  datatype Assignment = Assignment(request: Request, finish: State, deployment: Time)

  predicate IsCharge(a: Assignment) {
    a.request.description.ChargeBattery?
  }

  function Last<T>(s: seq<T>): T
    requires s != []
  {
    s[|s| - 1]
  }

  function Max(x: int, y: int): int {
    if x < y then y else x
  }

  function MaxReal(x: real, y: real): real {
    if x < y then y else x
  }
}
