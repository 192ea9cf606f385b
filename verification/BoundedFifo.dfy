/** The queue its clients may rely on: a bounded first-in first-out sequence whose calls may
    also fail because another call is still in flight. */
module BoundedFifo {

  datatype Event<+V> = Internal | Put(value: V) | Take(value: V)

  /** The contents before and after an event. */
  ghost predicate Allowed<V>(cap: nat, before: seq<V>, e: Event<V>, after: seq<V>) {
    match e
    case Internal => after == before
    case Put(v) => |before| < cap && after == before + [v]
    case Take(v) => before != [] && v == before[0] && after == before[1..]
  }
}
