/**
 * The gameplay event network as one single-threaded state machine. `Scene` plays the part of
 * the engine and of the C# static events: it owns the squid, the pollution system, the
 * spawner and every trash instance, the outstanding `WaitForSeconds` timers, and a log of
 * every event raised and every request made of the engine, in order. Each engine callback is
 * a method that runs its synchronous cascade to completion; a broadcast reaches every trash
 * instance, and each instance ignores events that name another one.
 */
module Gameplay {
  import opened Common
  import opened Submersion
  import opened TrashLifecycle
  import opened GameEvents
  import opened Pollution
  import opened TrashDetectors
  import opened BoatTops
  import opened Spawning
  import opened Squid

  ghost predicate NoDuplicates<T>(s: seq<T>) {
    forall i, j :: 0 <= i < j < |s| ==> s[i] != s[j]
  }

  /** One `OnDropTrash` per roster entry, in roster order. */
  function DropEvents(roster: seq<Trash>): (r: seq<Event>)
    ensures |r| == |roster|
    ensures forall k :: 0 <= k < |r| ==> r[k] == OnDropTrash(roster[k])
  {
    seq(|roster|, k requires 0 <= k < |roster| => OnDropTrash(roster[k]))
  }

  /** One `StartPickUpTimer` per roster entry, in roster order. */
  function PickUpTimers(roster: seq<Trash>): (r: seq<Timer>)
    ensures |r| == |roster|
    ensures forall k :: 0 <= k < |r| ==> r[k] == PickUpTimer(roster[k])
  {
    seq(|roster|, k requires 0 <= k < |roster| => PickUpTimer(roster[k]))
  }

  class Scene {
    const squid: SquidController
    const pollution: PollutionSystem
    const spawner: TrashSpawner
    /** Every trash instance, in spawn order (which is also their subscription order). */
    var trash: seq<Trash>
    /** Outstanding `WaitForSeconds`; the engine fires any of them later, none is cancelled. */
    var timers: seq<Timer>
    /** Every event raised and every engine request, in order. */
    var log: seq<Event>

    /** The flags of one trash agree with the roster and with delivery. */
    ghost predicate TrashConsistent(t: Trash)
      reads squid`pickedUpTrash, t`canBePickedUp, t`inBoat, t`inWater, t`simulated, t`pickUpCollider
    {
      && Delivered(t.State())
      && (!t.simulated <==> t in squid.pickedUpTrash || t.inBoat)
      && (t in squid.pickedUpTrash ==> !t.inBoat)
    }

    /** Every `OnTrashHit` names a trash now in the boat, and no trash is named twice. */
    ghost predicate DeliveredOnce()
      reads this`log, this`trash, trash
    {
      && (forall i :: 0 <= i < |log| && log[i].OnTrashHit? ==> log[i].trash in trash && log[i].trash.inBoat)
      && (forall i, j :: 0 <= i < j < |log| && log[i].OnTrashHit? && log[j].OnTrashHit? ==> log[i].trash != log[j].trash)
    }

    /** The trash instances: distinct, consistent with the roster, each delivered at most once. */
    ghost predicate Population()
      reads this`trash, this`log, squid`pickedUpTrash, trash
    {
      && NoDuplicates(trash)
      && (forall t :: t in squid.pickedUpTrash ==> t in trash)
      && (forall t :: t in trash ==> TrashConsistent(t))
      && DeliveredOnce()
    }

    /** The pending timers agree with the population and with the spawn loop. */
    ghost predicate Scheduled()
      reads this`timers, this`trash, spawner
    {
      && (forall tm :: tm in timers && tm.PickUpTimer? ==> tm.trash in trash)
      && spawner.Valid()
      && |trash| == spawner.spawned
      && multiset(timers)[SpawnWait] == (if spawner.running then 1 else 0)
    }

    ghost predicate Valid()
      reads this`trash, this`log, this`timers, squid`pickedUpTrash, trash, pollution, spawner
    {
      && Population()
      && Scheduled()
      && MinPollution <= pollution.pollution <= MaxPollution
    }

    /**
     * Loading the scene: every `Awake`, then `PollutionSystem.Start`. The spawner's `Awake`
     * spawns at once; whether the pollution system hears that spawn depends on whether its
     * own `Awake` (which subscribes it) ran first. Either way `Start` then writes 0.
     */
    constructor Load(trashPrefabs: seq<Prefab>, canSpamThrust: bool, detector: DetectorId,
                     squidProfile: Profile, squidBody: Coefficients, pollutionAwakeFirst: bool,
                     roll: int, x: real)
      requires IntRangeRoll(0, |trashPrefabs|, roll) && RealRangeRoll(SpawnMinX, SpawnMaxX, x)
      ensures Valid() && fresh(squid) && fresh(pollution) && fresh(spawner)
      ensures pollution.pollution == 0
      ensures squid.pickedUpTrash == [] && squid.canPickUp && squid.Flags() == ThrustFlags(false, true, false)
      ensures squid.canSpamThrust == canSpamThrust && squid.trashCollider == detector
      ensures spawner.trashPrefabs == trashPrefabs
      ensures |trashPrefabs| > 0 ==> |trash| == 1 && fresh(trash[0]) && trash[0].State() == Fresh && timers == [SpawnWait]
      ensures |trashPrefabs| > 0 ==>
                log == [OnTrashSpawned(trash[0])] + (if pollutionAwakeFirst then [OnPollutionSet(1)] else []) + [OnPollutionSet(0)]
      ensures |trashPrefabs| == 0 ==> trash == [] && timers == [] && log == [SpawnFailed, OnPollutionSet(0)]
    {
      squid := new SquidController(canSpamThrust, detector, squidProfile, squidBody);
      pollution := new PollutionSystem();
      spawner := new TrashSpawner(trashPrefabs);
      trash, timers, log := [], [], [];
      new;
      AwakeSpawner(roll, x, pollutionAwakeFirst);
      StartPollution();
    }

    /** `TrashSpawner.Awake`: the spawn loop runs up to its first wait. */
    method AwakeSpawner(roll: int, x: real, pollutionSubscribed: bool)
      requires trash == [] && timers == [] && log == [] && squid.pickedUpTrash == []
      requires spawner.Valid() && !spawner.running && pollution.pollution == 0
      requires IntRangeRoll(0, |spawner.trashPrefabs|, roll) && RealRangeRoll(SpawnMinX, SpawnMaxX, x)
      modifies this`trash, this`timers, this`log, spawner, pollution
      ensures Population()
      ensures spawner.Valid() && |trash| == spawner.spawned
      ensures multiset(timers)[SpawnWait] == (if spawner.running then 1 else 0)
      ensures MinPollution <= pollution.pollution <= MaxPollution
      ensures |spawner.trashPrefabs| > 0 ==>
                && |trash| == 1 && fresh(trash[0]) && trash[0].State() == Fresh && timers == [SpawnWait]
                && log == [OnTrashSpawned(trash[0])] + (if pollutionSubscribed then [OnPollutionSet(1)] else [])
      ensures |spawner.trashPrefabs| == 0 ==> trash == [] && timers == [] && log == [SpawnFailed]
    {
      var t, wait := spawner.StartSpawnLoop(roll, x);
      if t.Some? {
        trash := [t.value];
        log := [OnTrashSpawned(t.value)];
        if pollutionSubscribed {
          var effects := pollution.OnTrashSpawned();
          assert effects == [OnPollutionSet(1)];
          log := log + effects;
        }
        timers := [SpawnWait];
      } else {
        log := [SpawnFailed];
      }
    }

    /** `PollutionSystem.Start`. */
    method StartPollution()
      requires Population()
      modifies this`log, pollution
      ensures Population()
      ensures pollution.pollution == 0
      ensures log == old(log) + [OnPollutionSet(0)]
    {
      var effects := pollution.Start();
      log := log + effects;
    }

    /** One subscriber's share of `OnTrashEntersTrigger`: trash `u` handles the event about `t`. */
    method NotifyOnTrashEntersTrigger(u: Trash, detector: DetectorId, t: Trash)
      modifies this`log, squid`pickedUpTrash, u
      ensures u.body == old(u.body)
      ensures u != t || !old(t.canBePickedUp) ==>
                log == old(log) && unchanged(u) && squid.pickedUpTrash == old(squid.pickedUpTrash)
      ensures u == t && old(t.canBePickedUp) ==> log == old(log) + [OnOnTrashEntersTriggerHandled(t, detector)]
      ensures u == t && old(t.canBePickedUp) && detector == squid.trashCollider && squid.canPickUp ==>
                && squid.pickedUpTrash == old(squid.pickedUpTrash) + [t]
                && t.State() == Step(Step(old(t.State()), DetectorEnter(detector)), CarriedBySquid)
      ensures u == t && old(t.canBePickedUp) && !(detector == squid.trashCollider && squid.canPickUp) ==>
                && squid.pickedUpTrash == old(squid.pickedUpTrash)
                && t.State() == Step(old(t.State()), DetectorEnter(detector))
    {
      var handled := u.OnEnterTrashDetectorTrigger(detector, t);
      if handled {
        log := log + [OnOnTrashEntersTriggerHandled(u, detector)];
        var _ := squid.OnTrashCollideWithSquipPickUpCollider(u, detector);
      }
    }

    /** `TrashDetector.OnTrashEntersTrigger` reaching every trash, and the pickup it may lead to. */
    method BroadcastOnTrashEntersTrigger(detector: DetectorId, t: Trash)
      requires Valid() && t in trash
      modifies this`log, squid`pickedUpTrash, trash
      ensures Valid()
      ensures forall u :: u in trash && u != t ==> unchanged(u)
      ensures t.body == old(t.body)
      ensures !old(t.canBePickedUp) ==>
                log == old(log) && unchanged(t) && squid.pickedUpTrash == old(squid.pickedUpTrash)
      ensures old(t.canBePickedUp) ==> log == old(log) + [OnOnTrashEntersTriggerHandled(t, detector)]
      ensures old(t.canBePickedUp) && detector == squid.trashCollider && squid.canPickUp ==>
                && squid.pickedUpTrash == old(squid.pickedUpTrash) + [t]
                && t.State() == Step(Step(old(t.State()), DetectorEnter(detector)), CarriedBySquid)
      ensures old(t.canBePickedUp) && !(detector == squid.trashCollider && squid.canPickUp) ==>
                && squid.pickedUpTrash == old(squid.pickedUpTrash)
                && t.State() == Step(old(t.State()), DetectorEnter(detector))
    {
      ghost var k :| 0 <= k < |trash| && trash[k] == t;
      var i := 0;
      while i < |trash|
        invariant 0 <= i <= |trash|
        invariant forall u :: u in trash && u != t ==> unchanged(u)
        invariant t.body == old(t.body)
        invariant i <= k ==> log == old(log) && unchanged(t) && squid.pickedUpTrash == old(squid.pickedUpTrash)
        invariant k < i && !old(t.canBePickedUp) ==>
                    log == old(log) && unchanged(t) && squid.pickedUpTrash == old(squid.pickedUpTrash)
        invariant k < i && old(t.canBePickedUp) ==> log == old(log) + [OnOnTrashEntersTriggerHandled(t, detector)]
        invariant k < i && old(t.canBePickedUp) && detector == squid.trashCollider && squid.canPickUp ==>
                    && squid.pickedUpTrash == old(squid.pickedUpTrash) + [t]
                    && t.State() == Step(Step(old(t.State()), DetectorEnter(detector)), CarriedBySquid)
        invariant k < i && old(t.canBePickedUp) && !(detector == squid.trashCollider && squid.canPickUp) ==>
                    && squid.pickedUpTrash == old(squid.pickedUpTrash)
                    && t.State() == Step(old(t.State()), DetectorEnter(detector))
      {
        assert trash[i] == t <==> i == k;
        NotifyOnTrashEntersTrigger(trash[i], detector, t);
        i := i + 1;
      }
      assert forall u :: u in trash && u != t ==> TrashConsistent(u);
    }
  
    /** `SquidController.OnDropTrash` reaching every trash; the one it names starts its pickup timer. */
    method BroadcastDropTrash(t: Trash)
      requires NoDuplicates(trash) && t in trash
      modifies this`timers, trash
      ensures forall u :: u in trash && u != t ==> unchanged(u)
      ensures t.State() == Step(old(t.State()), SquidDrop) && t.body == old(t.body)
      ensures timers == old(timers) + [PickUpTimer(t)]
    {
      ghost var k :| 0 <= k < |trash| && trash[k] == t;
      var i := 0;
      while i < |trash|
        invariant 0 <= i <= |trash|
        invariant forall u :: u in trash && u != t ==> unchanged(u)
        invariant i <= k ==> unchanged(t) && timers == old(timers)
        invariant k < i ==> t.State() == Step(old(t.State()), SquidDrop) && t.body == old(t.body)
        invariant k < i ==> timers == old(timers) + [PickUpTimer(t)]
      {
        assert trash[i] == t <==> i == k;
        var startTimer := trash[i].OnSquidDropTrash(t);
        if startTimer {
          timers := timers + [PickUpTimer(trash[i])];
        }
        i := i + 1;
      }
    }

    /** `SquidController.DropTrash` for one carried trash: release it, then announce the drop. */
    method DropTrash(t: Trash)
      requires NoDuplicates(trash) && t in trash
      modifies this`log, this`timers, squid`pickedUpTrash, trash
      ensures squid.pickedUpTrash == RemoveFirst(old(squid.pickedUpTrash), t)
      ensures t.State() == Step(Step(old(t.State()), ReleasedBySquid), SquidDrop) && t.body == old(t.body)
      ensures forall u :: u in trash && u != t ==> unchanged(u)
      ensures log == old(log) + [OnDropTrash(t)]
      ensures timers == old(timers) + [PickUpTimer(t)]
    {
      squid.DropTrash(t);
      log := log + [OnDropTrash(t)];
      BroadcastDropTrash(t);
    }

    /**
     * `SquidController.DropAllTrash`: drop every carried trash in roster order, iterating over
     * a copy of the roster, then close the pickup gate until `ResetPickUp` fires.
     */
    method DropAllTrash()
      requires Valid()
      modifies this`log, this`timers, squid`pickedUpTrash, squid`canPickUp, trash
      ensures Valid()
      ensures squid.pickedUpTrash == [] && !squid.canPickUp
      ensures forall u :: u in old(squid.pickedUpTrash) ==>
                u.State() == old(u.State()).(simulated := true, canBePickedUp := false) && u.body == old(u.body)
      ensures forall u :: u in trash && u !in old(squid.pickedUpTrash) ==> unchanged(u)
      ensures log == old(log) + DropEvents(old(squid.pickedUpTrash))
      ensures timers == old(timers) + PickUpTimers(old(squid.pickedUpTrash)) + [ResetPickUp]
    {
      DropEveryCarried();
      squid.canPickUp := false;
      timers := timers + [ResetPickUp];
    }

    /** The drops of `DropAllTrash`: afterwards nothing is carried and every dropped trash simulates again. */
    method DropEveryCarried()
      requires Valid()
      modifies this`log, this`timers, squid`pickedUpTrash, trash
      ensures Valid()
      ensures squid.pickedUpTrash == []
      ensures forall u :: u in old(squid.pickedUpTrash) ==>
                u.State() == old(u.State()).(simulated := true, canBePickedUp := false) && u.body == old(u.body)
      ensures forall u :: u in trash && u !in old(squid.pickedUpTrash) ==> unchanged(u)
      ensures log == old(log) + DropEvents(old(squid.pickedUpTrash))
      ensures timers == old(timers) + PickUpTimers(old(squid.pickedUpTrash))
    {
      DropCarried();
      assert forall u :: u in trash ==> TrashConsistent(u);
      assert SpawnWait !in PickUpTimers(old(squid.pickedUpTrash));
    }

    /** The loop of `DropAllTrash`: `DropTrash` for each entry of a copy of the roster. */
    method DropCarried()
      requires NoDuplicates(trash) && forall u :: u in squid.pickedUpTrash ==> u in trash
      modifies this`log, this`timers, squid`pickedUpTrash, trash
      ensures squid.pickedUpTrash == []
      ensures forall u :: u in old(squid.pickedUpTrash) ==>
                u.State() == old(u.State()).(simulated := true, canBePickedUp := false) && u.body == old(u.body)
      ensures forall u :: u in trash && u !in old(squid.pickedUpTrash) ==> unchanged(u)
      ensures log == old(log) + DropEvents(old(squid.pickedUpTrash))
      ensures timers == old(timers) + PickUpTimers(old(squid.pickedUpTrash))
    {
      var snapshot := squid.pickedUpTrash;
      var i := 0;
      while i < |snapshot|
        invariant 0 <= i <= |snapshot|
        invariant NoDuplicates(trash) && forall u :: u in snapshot ==> u in trash
        invariant squid.pickedUpTrash == snapshot[i..]
        invariant log == old(log) + DropEvents(snapshot[..i])
        invariant timers == old(timers) + PickUpTimers(snapshot[..i])
        invariant forall u :: u in snapshot[..i] ==>
                    u.State() == old(u.State()).(simulated := true, canBePickedUp := false) && u.body == old(u.body)
        invariant forall u :: u in trash && u !in snapshot[..i] ==> unchanged(u)
      {
        var t := snapshot[i];
        assert squid.pickedUpTrash[0] == t;
        label Head:
        DropTrash(t);
        assert snapshot[..i + 1] == snapshot[..i] + [t];
        assert PickUpTimers(snapshot[..i + 1]) == PickUpTimers(snapshot[..i]) + [PickUpTimer(t)];
        assert DropEvents(snapshot[..i + 1]) == DropEvents(snapshot[..i]) + [OnDropTrash(t)];
        forall u | u in snapshot[..i + 1]
          ensures u.State() == old(u.State()).(simulated := true, canBePickedUp := false) && u.body == old(u.body)
        {
          if u != t {
            assert u in snapshot[..i] && u in trash;
            assert unchanged@Head(u);
          } else {
            ghost var o := old(u.State()).(simulated := true, canBePickedUp := false);
            ghost var h := old@Head(u.State());
            assert u.State() == Step(Step(h, ReleasedBySquid), SquidDrop);
            if u in snapshot[..i] {
              assert h == o;
            } else {
              assert h == old(u.State());
            }
          }
        }
        i := i + 1;
      }
      assert snapshot[..i] == snapshot;
    }

    /** `SquidController.Update`: the thrust rules, then `DropAllTrash` when the drop key went down. */
    method SquidUpdate(input: FrameInput, y: real)
      requires Valid()
      modifies this`log, this`timers, squid`isThrustQueued, squid`canThrust, squid`inWater, squid`body
      modifies squid`pickedUpTrash, squid`canPickUp, trash
      ensures Valid()
      ensures squid.Flags() == UpdateFlags(squid.canSpamThrust, old(squid.Flags()), input, y).0
      ensures squid.body == Select(squid.profile, squid.inWater)
      ensures var held := if UpdateFlags(squid.canSpamThrust, old(squid.Flags()), input, y).1 then [ResetHeldThrust] else [];
              timers == old(timers) + held + (if input.dropKeyDown then PickUpTimers(old(squid.pickedUpTrash)) + [ResetPickUp] else [])
      ensures input.dropKeyDown ==>
                && squid.pickedUpTrash == [] && !squid.canPickUp
                && log == old(log) + DropEvents(old(squid.pickedUpTrash))
                && (forall u :: u in old(squid.pickedUpTrash) ==> u.simulated && !u.canBePickedUp)
      ensures !input.dropKeyDown ==>
                && squid.pickedUpTrash == old(squid.pickedUpTrash) && squid.canPickUp == old(squid.canPickUp)
                && log == old(log) && (forall u :: u in trash ==> unchanged(u))
    {
      UpdateThrust(input, y);
      DropOnKey(input.dropKeyDown);
    }

    /** The last statement of `SquidController.Update`: `DropAllTrash` when the drop key went down. */
    method DropOnKey(dropKeyDown: bool)
      requires Valid()
      modifies this`log, this`timers, squid`pickedUpTrash, squid`canPickUp, trash
      ensures Valid()
      ensures timers == old(timers) + (if dropKeyDown then PickUpTimers(old(squid.pickedUpTrash)) + [ResetPickUp] else [])
      ensures dropKeyDown ==>
                && squid.pickedUpTrash == [] && !squid.canPickUp
                && log == old(log) + DropEvents(old(squid.pickedUpTrash))
                && (forall u :: u in old(squid.pickedUpTrash) ==> u.simulated && !u.canBePickedUp)
      ensures !dropKeyDown ==>
                && squid.pickedUpTrash == old(squid.pickedUpTrash) && squid.canPickUp == old(squid.canPickUp)
                && log == old(log) && (forall u :: u in trash ==> unchanged(u))
    {
      if dropKeyDown {
        DropAllTrash();
      }
    }

    /** The thrust half of `SquidController.Update`, with the `ResetHeldThrust` timer it may start. */
    method UpdateThrust(input: FrameInput, y: real)
      requires Valid()
      modifies this`timers, squid`isThrustQueued, squid`canThrust, squid`inWater, squid`body
      ensures Valid()
      ensures var (flags, started) := UpdateFlags(squid.canSpamThrust, old(squid.Flags()), input, y);
              && squid.Flags() == flags
              && timers == old(timers) + if started then [ResetHeldThrust] else []
      ensures squid.body == Select(squid.profile, squid.inWater)
    {
      var started := squid.UpdateThrust(input, y);
      if started {
        timers := timers + [ResetHeldThrust];
      }
    }

    /** `SquidController.FixedUpdate`: a queued thrust becomes one impulse. */
    method SquidFixedUpdate()
      requires Valid()
      modifies this`log, squid`isThrustQueued, squid`thrusting
      ensures Valid()
      ensures var step := FixedStep(old(squid.Flags()), old(squid.thrusting));
              && squid.Flags() == step.flags && squid.thrusting == step.thrusting
              && log == old(log) + (if step.impulse then [ThrustImpulse] else [])
    {
      var impulse := squid.FixedUpdate();
      if impulse {
        log := log + [ThrustImpulse];
      }
    }

    /** `Trash.Update` of one instance, with its `Physics2D.IgnoreCollision` request. */
    method TrashUpdate(t: Trash, y: real)
      requires Valid() && t in trash
      modifies this`log, t
      ensures Valid()
      ensures t.State() == Step(old(t.State()), TrashEvent.Frame(y))
      ensures t.body == Select(t.profile, t.inWater)
      ensures log == old(log) + if t.pickUpCollider.Some? then [IgnoreCollision(t, t.pickUpCollider.value, !t.canBePickedUp)] else []
    {
      var ignore := t.Update(y);
      if ignore.Some? {
        log := log + [IgnoreCollision(t, ignore.value.0, ignore.value.1)];
      }
      assert TrashConsistent(t);
    }

    /**
     * `TrashDetector.OnTriggerEnter2D`: a trash entering a detector is announced, and the
     * announcement may end in the squid picking it up.
     */
    method DetectorTriggerEnter(detector: DetectorId, other: Option<Trash>)
      requires Valid() && (other.Some? ==> other.value in trash)
      modifies this`log, squid`pickedUpTrash, trash
      ensures Valid()
      ensures other.None? ==>
                log == old(log) && squid.pickedUpTrash == old(squid.pickedUpTrash) && forall u :: u in trash ==> unchanged(u)
      ensures other.Some? ==>
                var t := other.value;
                var picked := old(t.canBePickedUp) && detector == squid.trashCollider && squid.canPickUp;
                && log == old(log) + [OnTrashEntersTrigger(detector, t)]
                                   + (if old(t.canBePickedUp) then [OnOnTrashEntersTriggerHandled(t, detector)] else [])
                && squid.pickedUpTrash == old(squid.pickedUpTrash) + (if picked then [t] else [])
                && t.State() == (var s := Step(old(t.State()), DetectorEnter(detector));
                                 if picked then Step(s, CarriedBySquid) else s)
                && t.body == old(t.body)
                && (forall u :: u in trash && u != t ==> unchanged(u))
    {
      var raised := HandleTrashTriggerEnter(detector, other);
      if raised != [] {
        log := log + raised;
        BroadcastOnTrashEntersTrigger(detector, other.value);
      }
    }

    /** `TrashDetector.OnCollisionEnter2D`: solid contacts with a detector do nothing. */
    method DetectorCollisionEnter(detector: DetectorId, other: Option<Trash>)
      requires Valid()
      ensures Valid()
    {
    }

    /** `BoatTop.OnTrashHit` reaching every trash; the one it names is delivered. */
    method BroadcastTrashHit(boat: BoatId, t: Trash)
      requires NoDuplicates(trash) && t in trash
      modifies trash
      ensures forall u :: u in trash && u != t ==> unchanged(u)
      ensures t.State() == Step(old(t.State()), BoatHit) && t.body == old(t.body)
    {
      ghost var k :| 0 <= k < |trash| && trash[k] == t;
      var i := 0;
      while i < |trash|
        invariant 0 <= i <= |trash|
        invariant forall u :: u in trash && u != t ==> unchanged(u)
        invariant i <= k ==> unchanged(t)
        invariant k < i ==> t.State() == Step(old(t.State()), BoatHit) && t.body == old(t.body)
      {
        assert trash[i] == t <==> i == k;
        trash[i].OnTrashHitBoatTop(boat, t);
        i := i + 1;
      }
    }

    /**
     * `BoatTop.OnCollisionEnter2D`: a simulated trash reaching the boat is announced; the
     * pollution system lowers the level and the trash marks itself delivered.
     */
    method BoatCollisionEnter(boat: BoatId, other: Option<Trash>)
      requires Valid() && (other.Some? ==> other.value in trash)
      modifies this`log, pollution, trash
      ensures Valid()
      ensures other.Some? && old(other.value.simulated) ==>
                var t := other.value;
                && pollution.pollution == Stored(old(pollution.pollution) - 1)
                && log == old(log) + [OnTrashHit(boat, t)] + WriteEffects(pollution.pollution)
                && t.State() == Step(old(t.State()), BoatHit) && t.body == old(t.body)
                && (forall u :: u in trash && u != t ==> unchanged(u))
      ensures other.None? || !old(other.value.simulated) ==>
                && pollution.pollution == old(pollution.pollution) && log == old(log)
                && forall u :: u in trash ==> unchanged(u)
    {
      var raised := HandleTrashCollision(boat, other);
      if raised != [] {
        var t := other.value;
        RecordHit(boat, t);
        var effects := pollution.OnTrashHitBoatTop();
        Announce(effects);
      }
    }

    /**
     * `OnTrashHit` raised and heard by every trash: the one it names is delivered. The pollution
     * system's handler touches nothing the trash handlers read, so its writes are logged after this.
     */
    method RecordHit(boat: BoatId, t: Trash)
      requires Population() && t in trash && t.simulated
      modifies this`log, trash
      ensures Population()
      ensures log == old(log) + [OnTrashHit(boat, t)]
      ensures t.State() == Step(old(t.State()), BoatHit) && t.body == old(t.body)
      ensures forall u :: u in trash && u != t ==> unchanged(u)
    {
      log := log + [OnTrashHit(boat, t)];
      BroadcastTrashHit(boat, t);
      assert forall u :: u in trash ==> TrashConsistent(u);
    }

    /**
     * The engine resumes the coroutine waiting on `timers[k]`. The timer leaves the pending
     * list; only the spawn loop waits again, so only it puts a new timer back.
     */
    method FireTimer(k: nat, roll: int, x: real)
      requires Valid() && k < |timers|
      requires IntRangeRoll(0, |spawner.trashPrefabs|, roll) && RealRangeRoll(SpawnMinX, SpawnMaxX, x)
      modifies this`trash, this`timers, this`log, squid`canThrust, squid`canPickUp, pollution, spawner, trash
      ensures Valid()
      ensures old(timers[k]) == ResetHeldThrust ==> squid.canThrust
      ensures old(timers[k]) == ResetPickUp ==> squid.canPickUp
      ensures old(timers[k]) != ResetHeldThrust ==> squid.canThrust == old(squid.canThrust)
      ensures old(timers[k]) != ResetPickUp ==> squid.canPickUp == old(squid.canPickUp)
      ensures old(timers[k]).PickUpTimer? ==>
                var t := old(timers[k]).trash;
                t.State() == Step(old(t.State()), PickUpTimerFired) && t.body == old(t.body)
      ensures forall u :: u in old(trash) && !(old(timers[k]).PickUpTimer? && old(timers[k]).trash == u) ==> unchanged(u)
      ensures old(timers[k]) != SpawnWait ==>
                && timers == old(timers[..k] + timers[k + 1..])
                && trash == old(trash) && log == old(log) && pollution.pollution == old(pollution.pollution)
      ensures old(timers[k]) == SpawnWait ==>
                && timers == old(timers[..k] + timers[k + 1..]) + [SpawnWait]
                && |trash| == |old(trash)| + 1 && trash[..|old(trash)|] == old(trash)
                && fresh(trash[|old(trash)|]) && trash[|old(trash)|].State() == Fresh
                && trash[|old(trash)|].prefab == spawner.trashPrefabs[roll]
                && pollution.pollution == Stored(old(pollution.pollution) + 1)
                && log == old(log) + [OnTrashSpawned(trash[|old(trash)|])] + WriteEffects(pollution.pollution)
    {
      var fired := timers[k];
      match fired
      case ResetHeldThrust =>
        FireSquidTimer(k);
      case ResetPickUp =>
        FireSquidTimer(k);
      case PickUpTimer(t) =>
        FirePickUpTimer(k);
      case SpawnWait =>
        FireSpawnWait(k, roll, x);
    }

    /** The squid's two cooldowns: `ResetHeldThrust` reopens thrust, `ResetPickUp` reopens pickup. */
    method FireSquidTimer(k: nat)
      requires Valid() && k < |timers| && (timers[k] == ResetHeldThrust || timers[k] == ResetPickUp)
      modifies this`timers, squid`canThrust, squid`canPickUp
      ensures Valid()
      ensures timers == old(timers[..k] + timers[k + 1..])
      ensures old(timers[k]) == ResetHeldThrust ==> squid.canThrust && squid.canPickUp == old(squid.canPickUp)
      ensures old(timers[k]) == ResetPickUp ==> squid.canPickUp && squid.canThrust == old(squid.canThrust)
    {
      var fired := timers[k];
      RemoveTimer(k);
      if fired == ResetHeldThrust {
        squid.ResetHeldThrustElapsed();
      } else {
        squid.ResetPickUpElapsed();
      }
    }

    /** A fired timer leaves the pending list; the others keep their order. */
    method RemoveTimer(k: nat)
      requires k < |timers|
      modifies this`timers
      ensures timers == old(timers[..k] + timers[k + 1..])
      ensures multiset(timers) == multiset(old(timers)) - multiset{old(timers[k])}
      ensures forall tm :: tm in timers ==> tm in old(timers)
    {
      assert timers == timers[..k] + [timers[k]] + timers[k + 1..];
      timers := timers[..k] + timers[k + 1..];
    }

    /** The remainder of `Trash.StartPickUpTimer` for the instance that started `timers[k]`. */
    method FirePickUpTimer(k: nat)
      requires Valid() && k < |timers| && timers[k].PickUpTimer?
      modifies this`timers, timers[k].trash
      ensures Valid()
      ensures timers == old(timers[..k] + timers[k + 1..])
      ensures var t := old(timers[k]).trash;
              t.State() == Step(old(t.State()), PickUpTimerFired) && t.body == old(t.body)
    {
      var t := timers[k].trash;
      RemoveTimer(k);
      t.PickUpTimerElapsed();
      assert TrashConsistent(t);
    }

    /** The spawn loop resumes: spawn once more, announce it, and wait again. */
    method FireSpawnWait(k: nat, roll: int, x: real)
      requires Valid() && k < |timers| && timers[k] == SpawnWait
      requires IntRangeRoll(0, |spawner.trashPrefabs|, roll) && RealRangeRoll(SpawnMinX, SpawnMaxX, x)
      modifies this`trash, this`timers, this`log, pollution, spawner
      ensures Valid()
      ensures timers == old(timers[..k] + timers[k + 1..]) + [SpawnWait]
      ensures |trash| == |old(trash)| + 1 && trash[..|old(trash)|] == old(trash)
      ensures fresh(trash[|old(trash)|]) && trash[|old(trash)|].State() == Fresh
      ensures trash[|old(trash)|].prefab == spawner.trashPrefabs[roll]
      ensures pollution.pollution == Stored(old(pollution.pollution) + 1)
      ensures log == old(log) + [OnTrashSpawned(trash[|old(trash)|])] + WriteEffects(pollution.pollution)
    {
      RemoveTimer(k);
      SpawnAgain(roll, x);
      timers := timers + [SpawnWait];
    }

    /** The body of the spawn loop after a wait: `SpawnTrash`, heard by the pollution system. */
    method SpawnAgain(roll: int, x: real)
      requires Population() && spawner.Valid() && spawner.running && |trash| == spawner.spawned
      requires MinPollution <= pollution.pollution <= MaxPollution
      requires IntRangeRoll(0, |spawner.trashPrefabs|, roll) && RealRangeRoll(SpawnMinX, SpawnMaxX, x)
      modifies this`trash, this`log, pollution, spawner
      ensures Population() && spawner.Valid() && spawner.running && |trash| == spawner.spawned
      ensures MinPollution <= pollution.pollution <= MaxPollution
      ensures |trash| == |old(trash)| + 1 && trash[..|old(trash)|] == old(trash)
      ensures fresh(trash[|old(trash)|]) && trash[|old(trash)|].State() == Fresh
      ensures trash[|old(trash)|].prefab == spawner.trashPrefabs[roll]
      ensures pollution.pollution == Stored(old(pollution.pollution) + 1)
      ensures log == old(log) + [OnTrashSpawned(trash[|old(trash)|])] + WriteEffects(pollution.pollution)
    {
      var t := spawner.WaitElapsed(roll, x);
      AddSpawned(t);
      Announce([OnTrashSpawned(t)]);
      var effects := pollution.OnTrashSpawned();
      Announce(effects);
    }

    /** A new instance joins the population: fresh, so not carried, not delivered, not yet logged. */
    method AddSpawned(t: Trash)
      requires Population() && t !in trash && t !in squid.pickedUpTrash && t.State() == Fresh
      modifies this`trash
      ensures Population() && trash == old(trash) + [t]
    {
      trash := trash + [t];
      assert forall u :: u in trash ==> TrashConsistent(u);
    }

    /** Events that deliver nothing leave the population invariant alone. */
    method Announce(events: seq<Event>)
      requires Population() && forall e :: e in events ==> !e.OnTrashHit?
      modifies this`log
      ensures Population() && log == old(log) + events
    {
      log := log + events;
    }
}
}
