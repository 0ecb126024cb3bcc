/**
 * The closed enumerations of the simulation: congestion levels, vehicle
 * classes and signal states, plus the Option type used for "no route" and the
 * measure lemma shared by the search loops.
 */
module Enums {

  datatype Option<T> = None | Some(value: T)

  /** Visiting one more node of s leaves fewer of s unvisited: the measure of every search loop. */
  lemma Fewer<T>(s: set<T>, visited: set<T>, node: T)
    requires node in s && node !in visited
    ensures |s - (visited + {node})| < |s - visited|
  {
    assert s - visited == (s - (visited + {node})) + {node};
  }

  /** Congestion on a road segment; the declaration order is the level order. */
  datatype TrafficCondition = Light | Moderate | Heavy | Congested {

    /** Position of the level in LIGHT < MODERATE < HEAVY < CONGESTED. */
    function Index(): (i: nat)
      ensures i < 4
    {
      match this
      case Light => 0
      case Moderate => 1
      case Heavy => 2
      case Congested => 3
    }

    /** The enum member's name, as recorded in a trip segment. */
    function Name(): string
    {
      match this
      case Light => "LIGHT"
      case Moderate => "MODERATE"
      case Heavy => "HEAVY"
      case Congested => "CONGESTED"
    }
  }

  /** The level at a given position of the enumeration. */
  function ConditionAt(i: nat): (c: TrafficCondition)
    requires i < 4
    ensures c.Index() == i
  {
    if i == 0 then Light else if i == 1 then Moderate else if i == 2 then Heavy else Congested
  }

  datatype VehicleType = Truck | Car | Bus | Motorcycle {

    /** The enum member's name, the key of the per-class statistics. */
    function Name(): string
    {
      match this
      case Truck => "TRUCK"
      case Car => "CAR"
      case Bus => "BUS"
      case Motorcycle => "MOTORCYCLE"
    }
  }

  /** The states a signal can show. */
  datatype LightState = Red | Yellow | Green
}
