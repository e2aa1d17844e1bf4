/**
 * The life of one trash instance (`Trash.cs`): free and floating, carried by the squid,
 * dropped and cooling down, or delivered into the boat. The flags are the component's own
 * fields plus the `simulated` flag of its rigid body, which the squid and the boat handler
 * write.
 */
module TrashLifecycle {
  import opened Common
  import opened Submersion

  /** A trash prefab: the coefficient sets of its `Trash` component and its body's starting values. */
  datatype Prefab = Prefab(profile: Profile, body: Coefficients)

  /** Every flag of a trash instance that gameplay changes. */
  datatype TrashState = TrashState(
    canBePickedUp: bool,
    inBoat: bool,
    inWater: bool,
    simulated: bool,
    pickUpCollider: Option<DetectorId>)

  /** A freshly instantiated trash: eligible, not delivered, in air, body simulated. */
  const Fresh: TrashState := TrashState(true, false, false, true, None)

  /** What can happen to one trash instance, whoever causes it. */
  datatype TrashEvent =
    | DetectorEnter(detector: DetectorId)  // `OnEnterTrashDetectorTrigger` naming this trash
    | BoatHit                              // `OnTrashHitBoatTop` naming this trash
    | SquidDrop                            // `OnSquidDropTrash` naming this trash
    | PickUpTimerFired                     // the `StartPickUpTimer` wait completes
    | Frame(y: real)                       // `Update` with the current height
    | CarriedBySquid                       // `PickUpTrash` freezes the body
    | ReleasedBySquid                      // `DropTrash` resumes the body

  /** A delivered trash is never eligible for pickup. */
  ghost predicate Delivered(s: TrashState) {
    s.inBoat ==> !s.canBePickedUp
  }

  /** The effect of one event on the flags of the trash it names. */
  function Step(s: TrashState, e: TrashEvent): (r: TrashState)
    ensures Delivered(s) ==> Delivered(r)
    ensures s.inBoat ==> r.inBoat
    ensures r.inBoat != s.inBoat ==> e == BoatHit
    ensures Delivered(s) && s.canBePickedUp && !r.canBePickedUp ==> e == SquidDrop || e == BoatHit
    ensures !s.canBePickedUp && r.canBePickedUp ==> e == PickUpTimerFired && !s.inBoat
    ensures r.simulated != s.simulated ==> e in {BoatHit, CarriedBySquid, ReleasedBySquid}
  {
    match e
    case DetectorEnter(d) => if s.canBePickedUp then s.(pickUpCollider := Some(d)) else s
    case BoatHit => s.(canBePickedUp := false, inBoat := true, simulated := false)
    case SquidDrop => s.(canBePickedUp := false)
    case PickUpTimerFired => s.(canBePickedUp := !s.inBoat)
    case Frame(y) => s.(inWater := InWater(y))
    case CarriedBySquid => s.(simulated := false)
    case ReleasedBySquid => s.(simulated := true)
  }

  /** The flags after a whole history of events, oldest first. */
  function Replay(s: TrashState, es: seq<TrashEvent>): TrashState
    decreases |es|
  {
    if es == [] then s else Replay(Step(s, es[0]), es[1..])
  }

  /** Delivery is terminal: whatever happens afterwards, the trash stays in the boat and ineligible. */
  lemma {:induction false} DeliveryIsFinal(s: TrashState, es: seq<TrashEvent>)
    requires s.inBoat && Delivered(s)
    ensures Replay(s, es).inBoat && !Replay(s, es).canBePickedUp
    decreases |es|
  {
    if es != [] {
      DeliveryIsFinal(Step(s, es[0]), es[1..]);
    }
  }

  /**
   * An ineligible trash (just dropped, or delivered) stays ineligible until its pickup
   * timer fires, whatever else happens to it meanwhile.
   */
  lemma {:induction false} IneligibleUntilTimer(s: TrashState, es: seq<TrashEvent>)
    requires !s.canBePickedUp
    requires PickUpTimerFired !in es
    ensures !Replay(s, es).canBePickedUp
    decreases |es|
  {
    if es != [] {
      assert es[0] in es;
      assert forall e :: e in es[1..] ==> e in es;
      IneligibleUntilTimer(Step(s, es[0]), es[1..]);
    }
  }

  /** A drop makes the trash ineligible until its pickup timer fires. */
  lemma {:induction false} DropCooldown(s: TrashState, es: seq<TrashEvent>)
    requires PickUpTimerFired !in es
    ensures !Replay(Step(s, SquidDrop), es).canBePickedUp
  {
    IneligibleUntilTimer(Step(s, SquidDrop), es);
  }

  /** A trash instance: the `Trash` component and the `simulated` flag of its body. */
  class Trash {
    /** The prefab it was instantiated from. */
    const prefab: Prefab
    /** Its configured air and water coefficient sets. */
    const profile: Profile
    /** The position `SpawnTrash` gave it; afterwards the physics engine moves it. */
    const spawnX: real
    const spawnY: real

    var canBePickedUp: bool
    var inBoat: bool
    var inWater: bool
    /** `Rigidbody2D.simulated`. */
    var simulated: bool
    /** The detector whose overlap was last handled (`_pickUpCollider`). */
    var pickUpCollider: Option<DetectorId>
    /** Gravity scale and drags last written to the body. */
    var body: Coefficients

    ghost function State(): TrashState
      reads this`canBePickedUp, this`inBoat, this`inWater, this`simulated, this`pickUpCollider
    {
      TrashState(canBePickedUp, inBoat, inWater, simulated, pickUpCollider)
    }

    /** `Instantiate` of a prefab followed by placing it. */
    constructor (prefab: Prefab, x: real, y: real)
      ensures State() == Fresh
      ensures this.prefab == prefab && profile == prefab.profile && body == prefab.body
      ensures spawnX == x && spawnY == y
    {
      this.prefab, profile, body := prefab, prefab.profile, prefab.body;
      spawnX, spawnY := x, y;
      canBePickedUp, inBoat, inWater, simulated := true, false, false, true;
      pickUpCollider := None;
    }

    /** Reacts to `TrashDetector.OnTrashEntersTrigger`; `handled` says whether it raised `OnOnTrashEntersTriggerHandled`. */
    method OnEnterTrashDetectorTrigger(detector: DetectorId, trash: Trash) returns (handled: bool)
      modifies this
      ensures trash != this ==> !handled
      ensures handled <==> trash == this && old(canBePickedUp)
      ensures !handled ==> unchanged(this)
      ensures State() == if trash == this then Step(old(State()), DetectorEnter(detector)) else old(State())
      ensures body == old(body)
    {
      if trash != this {
        return false;
      }
      if !canBePickedUp {
        return false;
      }
      pickUpCollider := Some(detector);
      handled := true;
    }

    /** Reacts to `BoatTop.OnTrashHit`. */
    method OnTrashHitBoatTop(boat: BoatId, trash: Trash)
      modifies this
      ensures trash != this ==> unchanged(this)
      ensures State() == if trash == this then Step(old(State()), BoatHit) else old(State())
      ensures body == old(body)
    {
      if trash != this {
        return;
      }
      canBePickedUp := false;
      inBoat := true;
      simulated := false;
    }

    /** Reacts to `SquidController.OnDropTrash`; `startTimer` says whether it started `StartPickUpTimer`. */
    method OnSquidDropTrash(trash: Trash) returns (startTimer: bool)
      modifies this
      ensures trash != this ==> unchanged(this) && !startTimer
      ensures startTimer <==> trash == this
      ensures State() == if trash == this then Step(old(State()), SquidDrop) else old(State())
      ensures body == old(body)
    {
      if trash != this {
        return false;
      }
      canBePickedUp := false;
      startTimer := true;
    }

    /** The remainder of `StartPickUpTimer` once its wait has elapsed. */
    method PickUpTimerElapsed()
      modifies this
      ensures State() == Step(old(State()), PickUpTimerFired)
      ensures body == old(body)
    {
      canBePickedUp := !inBoat;
    }

    /**
     * `Update`: recompute the submersion flag and the body coefficients; `ignore` is the
     * `Physics2D.IgnoreCollision` request (detector, ignore?) issued once a detector is known.
     */
    method Update(y: real) returns (ignore: Option<(DetectorId, bool)>)
      modifies this
      ensures State() == Step(old(State()), Frame(y))
      ensures inWater <==> y < 0.0
      ensures body == Select(profile, inWater)
      ensures ignore == if pickUpCollider.Some? then Some((pickUpCollider.value, !canBePickedUp)) else None
    {
      inWater := InWater(y);
      body := Select(profile, inWater);
      if pickUpCollider.Some? {
        ignore := Some((pickUpCollider.value, !canBePickedUp));
      } else {
        ignore := None;
      }
    }
  }
}
