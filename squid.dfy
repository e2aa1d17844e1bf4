/**
 * `SquidController.cs`: the thrust state machine (spam or held policy), the air/water switch,
 * and the roster of carried trash with its global pickup gate. Forces, torque and the drop
 * impulse are physics-engine calls and appear only as the fact that they were requested.
 */
module Squid {
  import opened Common
  import opened Submersion
  import opened TrashLifecycle

  /** `_isThrustQueued`, `_canThrust` and `_inWater`. */
  datatype ThrustFlags = ThrustFlags(queued: bool, canThrust: bool, inWater: bool)

  /** The input polled during one `Update`. */
  datatype FrameInput = FrameInput(
    jumpDown: bool,      // `Input.GetButtonDown("Jump")`
    jumpHeld: bool,      // `Input.GetButton("Jump")`
    verticalRaw: real,   // `Input.GetAxisRaw("Vertical")`
    dropKeyDown: bool)   // `Input.GetKeyDown(KeyCode.E)`

  /** Held policy press: jump held, or the raw vertical axis exactly 1. */
  predicate Pressed(input: FrameInput) {
    input.jumpHeld || input.verticalRaw == 1.0
  }

  /** `HandleSpamThrust`: the queue follows the press edge and the cooldown is lifted. */
  function SpamThrust(f: ThrustFlags, input: FrameInput): (r: ThrustFlags)
    ensures r.queued == input.jumpDown && r.canThrust && r.inWater == f.inWater
  {
    f.(queued := input.jumpDown, canThrust := true)
  }

  /** `HandleHeldThrust`; the second component says whether `ResetHeldThrust` was started. */
  function HeldThrust(f: ThrustFlags, input: FrameInput): (r: (ThrustFlags, bool))
    ensures r.1 <==> f.canThrust && !f.queued && f.inWater && Pressed(input)
    ensures r.1 ==> r.0 == f.(queued := true, canThrust := false)
    ensures !r.1 ==> r.0 == f
  {
    if !f.canThrust || f.queued then (f, false)
    else
      var queued := f.inWater && Pressed(input);
      if !queued then (f.(queued := queued), false)
      else (f.(queued := true, canThrust := false), true)
  }

  /**
   * The flag logic of `Update`: the policy step, then the submersion flag from this frame's
   * height, then the queue cleared when out of water. The second component says whether
   * `ResetHeldThrust` was started.
   */
  function UpdateFlags(spam: bool, f: ThrustFlags, input: FrameInput, y: real): (r: (ThrustFlags, bool))
    ensures r.0.inWater <==> y < 0.0
    ensures !r.0.inWater ==> !r.0.queued
    ensures r.1 <==> !spam && f.canThrust && !f.queued && f.inWater && Pressed(input)
    ensures r.0.queued <==>
              y < 0.0 && (f.queued || if spam then input.jumpDown else f.canThrust && f.inWater && Pressed(input))
    ensures r.0.canThrust <==> if spam then f.canThrust || !f.queued else f.canThrust && !r.1
  {
    var (g, started) :=
      if spam && !f.queued then (SpamThrust(f, input), false)
      else if !spam then HeldThrust(f, input)
      else (f, false);
    var inWater := InWater(y);
    (g.(inWater := inWater, queued := if !inWater then false else g.queued), started)
  }

  /** The flags, animator value and impulse request after one `FixedUpdate`. */
  datatype PhysicsStep = PhysicsStep(flags: ThrustFlags, thrusting: bool, impulse: bool)

  /** `FixedUpdate`: a queued thrust is applied and consumed; "Thrusting" follows the queue. */
  function FixedStep(f: ThrustFlags, thrusting: bool): (r: PhysicsStep)
    ensures r.impulse <==> f.queued
    ensures !r.flags.queued && r.flags.canThrust == f.canThrust && r.flags.inWater == f.inWater
    ensures f.queued ==> r.thrusting
    ensures !f.queued && f.canThrust ==> !r.thrusting
    ensures !f.queued && !f.canThrust ==> r.thrusting == thrusting
  {
    if f.queued then PhysicsStep(f.(queued := false), true, true)
    else if f.canThrust then PhysicsStep(f, false, false)
    else PhysicsStep(f, thrusting, false)
  }

  /** One callback of the squid's thrust logic. */
  datatype SquidTick = Frame(input: FrameInput, y: real) | Physics

  /** The flags after a run of frames and physics steps with no timer firing in between. */
  function RunFlags(spam: bool, f: ThrustFlags, ticks: seq<SquidTick>): ThrustFlags
    decreases |ticks|
  {
    if ticks == [] then f
    else
      var g := match ticks[0]
        case Frame(input, y) => UpdateFlags(spam, f, input, y).0
        case Physics => FixedStep(f, false).flags;
      RunFlags(spam, g, ticks[1..])
  }

  /** How many thrust impulses such a run applies. */
  function Impulses(spam: bool, f: ThrustFlags, ticks: seq<SquidTick>): nat
    decreases |ticks|
  {
    if ticks == [] then 0
    else match ticks[0]
      case Frame(input, y) => Impulses(spam, UpdateFlags(spam, f, input, y).0, ticks[1..])
      case Physics => (if f.queued then 1 else 0) + Impulses(spam, FixedStep(f, false).flags, ticks[1..])
  }

  /**
   * Held policy: while the `ResetHeldThrust` cooldown runs, nothing new is queued, so at most
   * the thrust already queued is applied, once.
   */
  lemma {:induction false} OneThrustPerCooldown(f: ThrustFlags, ticks: seq<SquidTick>)
    requires !f.canThrust
    ensures !RunFlags(false, f, ticks).canThrust
    ensures Impulses(false, f, ticks) <= if f.queued then 1 else 0
    decreases |ticks|
  {
    if ticks != [] {
      match ticks[0]
      case Frame(input, y) =>
        OneThrustPerCooldown(UpdateFlags(false, f, input, y).0, ticks[1..]);
      case Physics =>
        OneThrustPerCooldown(FixedStep(f, false).flags, ticks[1..]);
    }
  }

  /** The position of the first occurrence of `x` in `s`. */
  function IndexOf<T(==)>(s: seq<T>, x: T): (i: nat)
    requires x in s
    ensures i < |s| && s[i] == x && x !in s[..i]
    decreases |s|
  {
    if s[0] == x then 0
    else
      var i := 1 + IndexOf(s[1..], x);
      assert s[..i] == [s[0]] + s[1..][..i - 1];
      i
  }

  /** `List<T>.Remove`: drops the first occurrence of `x`, if any, keeping the order of the rest. */
  function RemoveFirst<T(==)>(s: seq<T>, x: T): seq<T>
    decreases |s|
  {
    if s == [] then []
    else if s[0] == x then s[1..]
    else [s[0]] + RemoveFirst(s[1..], x)
  }

  /** Without `x` the roster is unchanged; with it, exactly the first occurrence is cut out. */
  lemma {:induction false} RemoveFirstSplices<T>(s: seq<T>, x: T)
    ensures x !in s ==> RemoveFirst(s, x) == s
    ensures x in s ==> RemoveFirst(s, x) == s[..IndexOf(s, x)] + s[IndexOf(s, x) + 1..]
    decreases |s|
  {
    if s != [] && s[0] != x {
      RemoveFirstSplices(s[1..], x);
      if x in s {
        SpliceCons(s, x);
      } else {
        assert s == [s[0]] + s[1..];
      }
    }
  }

  /** The step of `RemoveFirstSplices` past a head that is not `x`. */
  lemma {:induction false} SpliceCons<T>(s: seq<T>, x: T)
    requires x in s && s[0] != x
    requires RemoveFirst(s[1..], x) == s[1..][..IndexOf(s[1..], x)] + s[1..][IndexOf(s[1..], x) + 1..]
    ensures RemoveFirst(s, x) == s[..IndexOf(s, x)] + s[IndexOf(s, x) + 1..]
  {
    var t := s[1..];
    var k := IndexOf(t, x);
    assert IndexOf(s, x) == k + 1;
    assert s[..k + 1] == [s[0]] + t[..k];
    assert s[k + 2..] == t[k + 1..];
  }

  /** Removing one occurrence takes exactly one copy of `x` out of the roster's multiset. */
  lemma {:induction false} RemoveFirstCount<T>(s: seq<T>, x: T)
    requires x in s
    ensures |RemoveFirst(s, x)| == |s| - 1
    ensures multiset(RemoveFirst(s, x)) == multiset(s) - multiset{x}
  {
    RemoveFirstSplices(s, x);
    var i := IndexOf(s, x);
    assert s == s[..i] + [x] + s[i + 1..];
    assert multiset(s) == multiset(s[..i]) + multiset{x} + multiset(s[i + 1..]);
  }

  class SquidController {
    /** `_canSpamThrust`: selects the spam or held policy. */
    const canSpamThrust: bool
    /** Its own `TrashDetector` (`_trashCollider`). */
    const trashCollider: DetectorId
    /** Its configured air and water coefficient sets. */
    const profile: Profile

    var isThrustQueued: bool
    var canThrust: bool
    var inWater: bool
    /** `_pickedUpTrash`: the roster, in pickup order. */
    var pickedUpTrash: seq<Trash>
    /** `_canPickUp`: the global pickup gate. */
    var canPickUp: bool
    /** The animator's "Thrusting" parameter. */
    var thrusting: bool
    /** Gravity scale and drags last written to the body. */
    var body: Coefficients

    ghost function Flags(): ThrustFlags
      reads this`isThrustQueued, this`canThrust, this`inWater
    {
      ThrustFlags(isThrustQueued, canThrust, inWater)
    }

    constructor (canSpamThrust: bool, trashCollider: DetectorId, profile: Profile, body: Coefficients)
      ensures this.canSpamThrust == canSpamThrust && this.trashCollider == trashCollider
      ensures this.profile == profile && this.body == body
      ensures Flags() == ThrustFlags(false, true, false)
      ensures pickedUpTrash == [] && canPickUp && !thrusting
    {
      this.canSpamThrust, this.trashCollider, this.profile, this.body := canSpamThrust, trashCollider, profile, body;
      isThrustQueued, canThrust, inWater := false, true, false;
      pickedUpTrash, canPickUp, thrusting := [], true, false;
    }

    method HandleSpamThrust(input: FrameInput)
      modifies this`isThrustQueued, this`canThrust
      ensures Flags() == SpamThrust(old(Flags()), input)
    {
      isThrustQueued := input.jumpDown;
      canThrust := true;
    }

    /** `started` says whether the `ResetHeldThrust` coroutine was started. */
    method HandleHeldThrust(input: FrameInput) returns (started: bool)
      modifies this`isThrustQueued, this`canThrust
      ensures (Flags(), started) == HeldThrust(old(Flags()), input)
    {
      if !canThrust || isThrustQueued {
        return false;
      }
      isThrustQueued := inWater && Pressed(input);
      if !isThrustQueued {
        return false;
      }
      canThrust := false;
      started := true;
    }

    /**
     * `Update` up to the drop key: the thrust policy, the medium switch and the body
     * coefficients. The drop itself reaches every trash, so the scene runs it.
     */
    method UpdateThrust(input: FrameInput, y: real) returns (started: bool)
      modifies this`isThrustQueued, this`canThrust, this`inWater, this`body
      ensures (Flags(), started) == UpdateFlags(canSpamThrust, old(Flags()), input, y)
      ensures body == Select(profile, inWater)
    {
      started := false;
      if canSpamThrust && !isThrustQueued {
        HandleSpamThrust(input);
      } else if !canSpamThrust {
        started := HandleHeldThrust(input);
      }
      inWater := InWater(y);
      if !inWater {
        isThrustQueued := false;
      }
      body := Select(profile, inWater);
    }

    /** `Thrust`: the impulse is requested and the queue is cleared. */
    method Thrust()
      modifies this`isThrustQueued
      ensures !isThrustQueued
    {
      isThrustQueued := false;
    }

    /** `FixedUpdate`; `impulse` says whether `Thrust` applied an impulse. */
    method FixedUpdate() returns (impulse: bool)
      modifies this`isThrustQueued, this`thrusting
      ensures PhysicsStep(Flags(), thrusting, impulse) == FixedStep(old(Flags()), old(thrusting))
    {
      impulse := false;
      if isThrustQueued {
        Thrust();
        impulse := true;
        thrusting := true;
      } else if canThrust && !isThrustQueued {
        thrusting := false;
      }
    }

    /** `PickUpTrash`: freeze the body and append, with no check that it is already carried. */
    method PickUpTrash(trash: Trash)
      modifies this`pickedUpTrash, trash`simulated
      ensures pickedUpTrash == old(pickedUpTrash) + [trash]
      ensures trash.State() == Step(old(trash.State()), CarriedBySquid)
    {
      trash.simulated := false;
      pickedUpTrash := pickedUpTrash + [trash];
    }

    /** Reacts to `Trash.OnOnTrashEntersTriggerHandled`: only its own detector, only with the gate open. */
    method OnTrashCollideWithSquipPickUpCollider(trash: Trash, collider: DetectorId) returns (pickedUp: bool)
      modifies this`pickedUpTrash, trash`simulated
      ensures pickedUp <==> collider == trashCollider && canPickUp
      ensures pickedUp ==> pickedUpTrash == old(pickedUpTrash) + [trash]
      ensures pickedUp ==> trash.State() == Step(old(trash.State()), CarriedBySquid)
      ensures !pickedUp ==> pickedUpTrash == old(pickedUpTrash) && trash.simulated == old(trash.simulated)
    {
      pickedUp := collider == trashCollider && canPickUp;
      if pickedUp {
        PickUpTrash(trash);
      }
    }

    /**
     * `DropTrash` up to the announcement: take the first occurrence out of the roster and
     * let the body simulate again (the exit impulse is an engine call).
     */
    method DropTrash(trash: Trash)
      modifies this`pickedUpTrash, trash`simulated
      ensures pickedUpTrash == RemoveFirst(old(pickedUpTrash), trash)
      ensures trash.State() == Step(old(trash.State()), ReleasedBySquid)
    {
      pickedUpTrash := RemoveFirst(pickedUpTrash, trash);
      trash.simulated := true;
    }

    /** The remainder of `ResetHeldThrust` once its wait has elapsed. */
    method ResetHeldThrustElapsed()
      modifies this`canThrust
      ensures canThrust
    {
      canThrust := true;
    }

    /** The remainder of `ResetPickUp` once its wait has elapsed. */
    method ResetPickUpElapsed()
      modifies this`canPickUp
      ensures canPickUp
    {
      canPickUp := true;
    }
  }
}
