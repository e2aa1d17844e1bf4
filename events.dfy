/**
 * What the gameplay components say to each other and to the engine. The C# static events
 * are synchronous broadcasts; the model records each one, in the order it is raised, in the
 * scene's log, together with the requests the core makes of the engine.
 */
module GameEvents {
  import opened Common
  import opened TrashLifecycle

  datatype Event =
    | OnTrashSpawned(trash: Trash)                                   // `TrashSpawner.OnTrashSpawned`
    | OnPollutionSet(level: int)                                     // `PollutionSystem.OnPollutionSet`
    | LoadScene(name: string)                                      // `SceneManager.LoadScene`
    | OnTrashEntersTrigger(detector: DetectorId, trash: Trash)       // `TrashDetector.OnTrashEntersTrigger`
    | OnOnTrashEntersTriggerHandled(trash: Trash, detector: DetectorId) // `Trash.OnOnTrashEntersTriggerHandled`
    | OnDropTrash(trash: Trash)                                      // `SquidController.OnDropTrash`
    | OnTrashHit(boat: BoatId, trash: Trash)                         // `BoatTop.OnTrashHit`
    | ThrustImpulse                                                // `AddRelativeForce` in `Thrust`
    | IgnoreCollision(trash: Trash, detector: DetectorId, ignore: bool) // `Physics2D.IgnoreCollision`
    | SpawnFailed                                                  // `SpawnTrash` threw; its coroutine ends

  /** An outstanding `WaitForSeconds`: the coroutine that resumes when the engine fires it. */
  datatype Timer =
    | ResetHeldThrust          // `SquidController.ResetHeldThrust`
    | ResetPickUp              // `SquidController.ResetPickUp`
    | PickUpTimer(trash: Trash) // `Trash.StartPickUpTimer` of that instance
    | SpawnWait                // the wait inside `TrashSpawner.SpawnTrashAtRegularInterval`
}
