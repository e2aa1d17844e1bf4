/**
 * `TrashDetector.cs`: a trigger zone that forwards every entering trash, with no
 * eligibility check of its own. Physical collisions with it have an empty handler.
 */
module TrashDetectors {
  import opened Common
  import opened TrashLifecycle
  import opened GameEvents

  /**
   * `HandleTrashTriggerEnter`; `other` is the `Trash` component of the entering object, if
   * it has one. The result lists the events raised.
   */
  function HandleTrashTriggerEnter(detector: DetectorId, other: Option<Trash>): (raised: seq<Event>)
    ensures |raised| <= 1
    ensures raised == [] <==> other.None?
    ensures forall e :: e in raised ==> e.OnTrashEntersTrigger? && e.detector == detector && Some(e.trash) == other
  {
    match other
    case None => []
    case Some(trash) => [OnTrashEntersTrigger(detector, trash)]
  }
}

/**
 * `BoatTop.cs`: the delivery guard. Only an object carrying a `Trash` component whose body is
 * simulated (neither carried nor already delivered) raises `OnTrashHit`.
 */
module BoatTops {
  import opened Common
  import opened TrashLifecycle
  import opened GameEvents

  /** `HandleTrashCollision`; the result lists the events raised. */
  function HandleTrashCollision(boat: BoatId, other: Option<Trash>): (raised: seq<Event>)
    reads if other.Some? then {other.value} else {}
    ensures |raised| <= 1
    ensures raised == [] <==> other.None? || !other.value.simulated
    ensures forall e :: e in raised ==> e.OnTrashHit? && e.boat == boat && Some(e.trash) == other
  {
    if other.None? || !other.value.simulated then [] else [OnTrashHit(boat, other.value)]
  }
}
