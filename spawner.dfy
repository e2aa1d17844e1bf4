/**
 * `TrashSpawner.cs`: a coroutine that spawns a trash, waits, and repeats forever. A spawn picks
 * a random entry of `_trashPrefabs`, instantiates it at a random x in [-50, 50] on the surface
 * (y = 0) and announces it. The single-prefab field `_trashPrefab` is never read.
 */
module Spawning {
  import opened Common
  import opened TrashLifecycle

  const SpawnMinX: real := -50.0
  const SpawnMaxX: real := 50.0
  const SpawnY: real := 0.0

  /** What `Random.Range(lo, hi)` on integers may return: a value in [lo, hi), or lo when that is empty. */
  predicate IntRangeRoll(lo: int, hi: int, r: int) {
    if lo < hi then lo <= r < hi else r == lo
  }

  /** What `Random.Range(lo, hi)` on floats may return: a value in [lo, hi], both ends included. */
  predicate RealRangeRoll(lo: real, hi: real, x: real) {
    lo <= x <= hi
  }

  /** `_trashPrefabs[Random.Range(0, _trashPrefabs.Count)]`: fails exactly when the list is empty. */
  function ChoosePrefab(prefabs: seq<Prefab>, roll: int): (r: Option<Prefab>)
    requires IntRangeRoll(0, |prefabs|, roll)
    ensures r.Some? <==> |prefabs| > 0
    ensures r.Some? ==> 0 <= roll < |prefabs| && r.value == prefabs[roll]
  {
    if 0 <= roll < |prefabs| then Some(prefabs[roll]) else None
  }

  class TrashSpawner {
    /** `_trashPrefabs`. */
    const trashPrefabs: seq<Prefab>
    /** Completed calls of `SpawnTrash`. */
    var spawned: nat
    /** Completed waits of the spawn loop. */
    var waitsDone: nat
    /** Whether the spawn coroutine is still alive (it dies only if `SpawnTrash` throws). */
    var running: bool

    /** The loop spawns first and then waits: after k waits it has spawned k + 1 times. */
    ghost predicate Valid()
      reads this
    {
      if running then spawned == waitsDone + 1 && |trashPrefabs| > 0 else spawned == 0 && waitsDone == 0
    }

    constructor (prefabs: seq<Prefab>)
      ensures Valid() && !running
      ensures trashPrefabs == prefabs
    {
      trashPrefabs := prefabs;
      spawned, waitsDone, running := 0, 0, false;
    }

    /**
     * `SpawnTrash`: `roll` and `x` are the two `Random.Range` results. The new trash is
     * returned for the scene to register and announce; `None` means the lookup threw.
     */
    method SpawnTrash(roll: int, x: real) returns (t: Option<Trash>)
      requires IntRangeRoll(0, |trashPrefabs|, roll) && RealRangeRoll(SpawnMinX, SpawnMaxX, x)
      modifies this
      ensures t.Some? <==> |trashPrefabs| > 0
      ensures t.Some? ==> fresh(t.value) && t.value.State() == Fresh
      ensures t.Some? ==> t.value.prefab == trashPrefabs[roll]
      ensures t.Some? ==> t.value.spawnY == SpawnY && SpawnMinX <= t.value.spawnX <= SpawnMaxX
      ensures spawned == old(spawned) + (if t.Some? then 1 else 0)
      ensures waitsDone == old(waitsDone) && running == old(running)
    {
      var prefab := ChoosePrefab(trashPrefabs, roll);
      if prefab.None? {
        return None;
      }
      var trash := new Trash(prefab.value, x, SpawnY);
      spawned := spawned + 1;
      t := Some(trash);
    }

    /**
     * `Awake` starting `SpawnTrashAtRegularInterval`: the loop body runs up to its first wait.
     * `wait` says whether the coroutine now waits; if the spawn threw, the coroutine is over.
     */
    method StartSpawnLoop(roll: int, x: real) returns (t: Option<Trash>, wait: bool)
      requires Valid() && !running
      requires IntRangeRoll(0, |trashPrefabs|, roll) && RealRangeRoll(SpawnMinX, SpawnMaxX, x)
      modifies this
      ensures Valid()
      ensures wait == running == t.Some? == (|trashPrefabs| > 0)
      ensures t.Some? ==> fresh(t.value) && t.value.State() == Fresh
      ensures t.Some? ==> t.value.prefab == trashPrefabs[roll]
      ensures t.Some? ==> t.value.spawnY == SpawnY && SpawnMinX <= t.value.spawnX <= SpawnMaxX
      ensures spawned == (if wait then 1 else 0)
    {
      t := SpawnTrash(roll, x);
      running := t.Some?;
      wait := running;
    }

    /** The wait completes: the loop goes round once more, spawning and waiting again. */
    method WaitElapsed(roll: int, x: real) returns (t: Trash)
      requires Valid() && running
      requires IntRangeRoll(0, |trashPrefabs|, roll) && RealRangeRoll(SpawnMinX, SpawnMaxX, x)
      modifies this
      ensures Valid() && running
      ensures fresh(t) && t.State() == Fresh
      ensures t.prefab == trashPrefabs[roll]
      ensures t.spawnY == SpawnY && SpawnMinX <= t.spawnX <= SpawnMaxX
      ensures waitsDone == old(waitsDone) + 1 && spawned == old(spawned) + 1
    {
      waitsDone := waitsDone + 1;
      var spawnedTrash := SpawnTrash(roll, x);
      t := spawnedTrash.value;
    }
  }
}
