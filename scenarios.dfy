/**
 * Whole-scene runs: a scene is loaded and the engine delivers a fixed sequence of callbacks.
 * Each run's results follow from the contracts of the scene's callbacks alone.
 */
module Scenarios {
  import opened Common
  import opened Submersion
  import opened TrashLifecycle
  import opened GameEvents
  import opened Pollution
  import opened Spawning
  import opened Squid
  import opened Gameplay

  const Still := Coefficients(1.0, 0.0, 0.05)
  const Floaty := Profile(Coefficients(1.0, 0.0, 0.05), Coefficients(-0.2, 3.0, 1.0))
  const SquidPickUpCollider: DetectorId := 7
  const Boat: BoatId := 1

  /** A scene with one trash prefab, whose first spawn the pollution system hears or not. */
  method LoadOnePrefab(pollutionAwakeFirst: bool) returns (scene: Scene)
    ensures fresh(scene) && fresh(scene.squid) && fresh(scene.pollution) && fresh(scene.spawner)
    ensures scene.Valid() && scene.pollution.pollution == 0 && scene.timers == [SpawnWait]
    ensures |scene.trash| == 1 && fresh(scene.trash[0]) && scene.trash[0].State() == Fresh
    ensures |scene.spawner.trashPrefabs| == 1
    ensures scene.squid.trashCollider == SquidPickUpCollider && scene.squid.canPickUp && !scene.squid.canSpamThrust
    ensures scene.squid.pickedUpTrash == []
  {
    scene := new Scene.Load([Prefab(Floaty, Still)], false, SquidPickUpCollider, Floaty, Still,
                            pollutionAwakeFirst, 0, 0.0);
  }

  /**
   * Load, then two spawn waits elapse: three trash instances exist but the level is 2,
   * because `Start` overwrote whatever the first spawn did to it.
   */
  method StartupThenTwoSpawns(pollutionAwakeFirst: bool) returns (spawned: nat, level: int)
    ensures spawned == 3 && level == 2
  {
    var scene := LoadOnePrefab(pollutionAwakeFirst);
    scene.FireTimer(0, 0, 0.0);
    scene.FireTimer(0, 0, 0.0);
    spawned, level := |scene.trash|, scene.pollution.pollution;
  }

  /** The only pending timer is the spawn wait; it fires, and the spawn loop waits again. */
  method SpawnWaitElapses(scene: Scene)
    requires scene.Valid() && scene.timers == [SpawnWait] && |scene.spawner.trashPrefabs| == 1
    modifies scene, scene.pollution, scene.spawner, scene.squid, scene.trash
    ensures scene.Valid() && scene.timers == [SpawnWait]
    ensures |scene.trash| == |old(scene.trash)| + 1 && scene.trash[..|old(scene.trash)|] == old(scene.trash)
    ensures fresh(scene.trash[|old(scene.trash)|])
    ensures scene.pollution.pollution == Stored(old(scene.pollution.pollution) + 1)
    ensures forall u :: u in old(scene.trash) ==> u.simulated == old(u.simulated)
  {
    scene.FireTimer(0, 0, 0.0);
  }

  /** Load, then two spawn waits elapse: the first trash is still floating free and the level is 2. */
  method TwoSpawnsLater() returns (scene: Scene, t: Trash)
    ensures fresh(scene) && fresh(scene.pollution) && scene.Valid()
    ensures forall i :: 0 <= i < |scene.trash| ==> fresh(scene.trash[i])
    ensures t in scene.trash && t.simulated && scene.pollution.pollution == 2
  {
    scene := LoadOnePrefab(true);
    t := scene.trash[0];
    SpawnWaitElapses(scene);
    assert scene.trash[0] == t;
    SpawnWaitElapses(scene);
    assert scene.trash[0] == t;
  }

  /**
   * Two spawns, then the same trash hits the boat twice: the first hit lowers the level,
   * the second (the body no longer simulated) changes nothing.
   */
  method DeliveryCountsOnce() returns (afterFirst: int, afterSecond: int, secondAnnounced: bool)
    ensures afterFirst == 1 && afterSecond == 1 && !secondAnnounced
  {
    var scene, t := TwoSpawnsLater();
    scene.BoatCollisionEnter(Boat, Some(t));
    afterFirst := scene.pollution.pollution;
    var logged := |scene.log|;
    scene.BoatCollisionEnter(Boat, Some(t));
    afterSecond := scene.pollution.pollution;
    secondAnnounced := |scene.log| != logged;
  }

  /** Load, then the squid's pickup collider touches the fresh trash: the squid carries it. */
  method PickUpFirst() returns (scene: Scene, t: Trash)
    ensures fresh(scene) && fresh(scene.squid) && scene.Valid()
    ensures forall i :: 0 <= i < |scene.trash| ==> fresh(scene.trash[i])
    ensures t in scene.trash && scene.squid.pickedUpTrash == [t]
    ensures scene.squid.trashCollider == SquidPickUpCollider
  {
    scene := LoadOnePrefab(true);
    t := scene.trash[0];
    scene.DetectorTriggerEnter(SquidPickUpCollider, Some(t));
  }

  /**
   * The squid's pickup collider touches a fresh trash, the drop key goes down, and the same
   * trash touches the collider again at once: it is carried, dropped, then refused.
   */
  method PickUpDropRetry() returns (carried: nat, afterDrop: nat, afterRetry: nat, eligible: bool)
    ensures carried == 1 && afterDrop == 0 && afterRetry == 0 && !eligible
  {
    var scene, t := PickUpFirst();
    carried := |scene.squid.pickedUpTrash|;
    scene.SquidUpdate(FrameInput(false, false, 0.0, true), 1.0);
    afterDrop := |scene.squid.pickedUpTrash|;
    scene.DetectorTriggerEnter(SquidPickUpCollider, Some(t));
    afterRetry := |scene.squid.pickedUpTrash|;
    eligible := t.canBePickedUp;
  }
}
