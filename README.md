# Trash squid: the gameplay event network, modelled in Dafny

The game has a squid that swims, picks up floating trash and drops it into a boat. A spawner
keeps adding trash, and a pollution meter goes up with every spawn and down with every
delivery. The components talk through C# static events. This project models that network as
one single-threaded state machine:

- **`Gameplay.Scene`** plays the engine and the static event bus. It owns:
  - the squid, the pollution system and the spawner;
  - every trash instance, in spawn order (which is also their subscription order);
  - the outstanding `WaitForSeconds` timers;
  - a log of every event raised and every request made of the engine, in order.
- **Engine callbacks.** Each callback is a method that runs its synchronous cascade to
  completion. A broadcast visits every trash instance, and each instance ignores events that
  name another one, as the handlers in `Trash.cs` do.
- **Timers** are pending tokens. The environment fires any one of them, by position, at any
  later point. None is ever cancelled.

Every callback keeps the scene invariant `Scene.Valid()`, which says:

- the trash instances are distinct;
- every carried trash exists;
- each trash's flags agree with the roster and with delivery;
- every `OnTrashHit` names a trash now in the boat, and no trash is named twice;
- every pickup timer belongs to a live trash;
- the spawner's counters agree with the number of instances, and exactly one spawn wait is
  pending while the spawn loop runs;
- the meter lies in [0, 100].

The tweak panel (`UnityTweakGUI.cs`) contributes four things:

- the label derived from a member name;
- the group-to-params dictionary built by walking the transform hierarchy;
- the sorted array of group names;
- the attribute constructors.

Reflection is replaced by its result: a tree of transforms whose components list their
members, each with its custom attributes.

Modules, one concern each:

| file | module | models |
|---|---|---|
| common.dfy | `Common` | `Option`, `Result` (a thrown exception), identities of stateless components |
| submersion.dfy | `Submersion` | the shared in-water test and air/water coefficient choice |
| trash.dfy | `TrashLifecycle` | `Trash.cs`: the flag transition function and the `Trash` class |
| events.dfy | `GameEvents` | the events raised and the pending timers |
| pollution.dfy | `Pollution` | `PollutionSystem.cs` |
| guards.dfy | `TrashDetectors`, `BoatTops` | `TrashDetector.cs`, `BoatTop.cs` |
| spawner.dfy | `Spawning` | `TrashSpawner.cs` |
| squid.dfy | `Squid` | `SquidController.cs`: thrust flag rules, `List.Remove`, the controller class |
| scene.dfy | `Gameplay` | the scene: every engine callback and its cascade |
| scenarios.dfy | `Scenarios` | whole runs from scene load |
| paramname.dfy, paramname_examples.dfy | `ParamNames`, `ParamNameExamples` | `MemberInfoNameToParamName` |
| tweakgroups.dfy | `TweakGroups` | attributes, display name, the discovered params and their grouping |
| ordinal.dfy | `Ordinal` | the string order and the in-place sort of the group names |
| tweakgui.dfy | `TweakPanel` | the `UnityTweakGUI` class: `InitTweakableParams` and the hierarchy walk |

## Behaviour as written

The model follows the code literally, including where a reader might expect otherwise:

- `Update` clears a queued thrust when the squid is *out of* water (SquidController.cs:59).
- `DropAllTrash` closes the pickup gate even when nothing is carried. Each call starts its own
  `ResetPickUp`, and the first of them to fire reopens the gate (SquidController.cs:138-144).
- The pollution setter clamps every single write. A run of adjustments is therefore not the
  clamped sum of its deltas: from 0, a delivery then a spawn leave 1.
- Every write that lands on 100 requests the loss scene again. A spawn at 100 requests it once
  more.
- `PollutionSystem.Start` writes 0. This overwrites the spawn that `TrashSpawner.Awake` makes
  at once, so after load and n spawn waits the meter reads n, not n + 1.
- Picking a trash up does not clear its `_canBePickedUp`. Only a drop or a boat hit clears it.

## Model

| member | source | states |
|---|---|---|
| Squid.SpamThrust | Assets/Scripts/SquidController.cs:66-70 | the queue takes the jump press edge, thrust is allowed again, submersion is untouched |
| Squid.HeldThrust | Assets/Scripts/SquidController.cs:90-97 | a thrust is queued (and the cooldown started) iff thrust is allowed, nothing is queued, the squid was in water at the previous frame and jump is held or vertical is 1; it then forbids thrust; otherwise nothing changes |
| Squid.UpdateFlags | Assets/Scripts/SquidController.cs:53-64 | after a frame: in water iff y < 0; out of water nothing is queued; the cooldown starts only under the held policy's conditions; the queued and allowed flags in closed form for both policies |
| Squid.FixedStep | Assets/Scripts/SquidController.cs:72-83 | an impulse iff a thrust was queued, which it consumes; "Thrusting" is set when consuming, cleared when nothing is queued and thrust is allowed, kept otherwise |
| Squid.OneThrustPerCooldown | Assets/Scripts/SquidController.cs:90-103 | under the held policy, while the cooldown runs thrust stays forbidden and any run of frames and physics steps applies at most the one thrust already queued |
| Squid.RemoveFirst | Assets/Scripts/SquidController.cs:148 | `List.Remove` as a recursive definition on sequences; its meaning is stated by `RemoveFirstSplices` and `RemoveFirstCount` |
| Squid.RemoveFirstSplices | Assets/Scripts/SquidController.cs:148 | `List.Remove` leaves a roster without the trash unchanged, and otherwise cuts out exactly its first occurrence, keeping the rest in order |
| Squid.RemoveFirstCount | Assets/Scripts/SquidController.cs:148 | removing a carried trash shortens the roster by one and takes exactly one copy of it out |
| Squid.SquidController.constructor | Assets/Scripts/SquidController.cs:33-38 | nothing queued, thrust allowed, not in water, empty roster, pickup gate open |
| Squid.SquidController.HandleSpamThrust | Assets/Scripts/SquidController.cs:66-70 | the flags become `SpamThrust` of the old flags |
| Squid.SquidController.HandleHeldThrust | Assets/Scripts/SquidController.cs:90-97 | the flags and the started cooldown are `HeldThrust` of the old flags |
| Squid.SquidController.UpdateThrust | Assets/Scripts/SquidController.cs:53-62 | the flags and the started cooldown are `UpdateFlags` of the old flags; the body gets the water coefficients iff in water |
| Squid.SquidController.Thrust | Assets/Scripts/SquidController.cs:110-114 | the queue is cleared |
| Squid.SquidController.FixedUpdate | Assets/Scripts/SquidController.cs:72-83 | flags, "Thrusting" and the impulse are `FixedStep` of the old state |
| Squid.SquidController.PickUpTrash | Assets/Scripts/SquidController.cs:124-130 | the trash is appended at the end of the roster, with no duplicate check, and its body stops simulating |
| Squid.SquidController.OnTrashCollideWithSquipPickUpCollider | Assets/Scripts/SquidController.cs:85-88 | a pickup happens iff the event names the squid's own detector and the gate is open; otherwise roster and body are unchanged |
| Squid.SquidController.DropTrash | Assets/Scripts/SquidController.cs:146-150 | the first occurrence leaves the roster and the body simulates again |
| Squid.SquidController.ResetHeldThrustElapsed | Assets/Scripts/SquidController.cs:99-103 | thrust is allowed again |
| Squid.SquidController.ResetPickUpElapsed | Assets/Scripts/SquidController.cs:132-136 | the pickup gate is open again |
| Submersion.InWater | Assets/Scripts/Trash.cs:59 | a body is in water strictly below y = 0, so the surface counts as air; the same test as SquidController.cs:58, and `UpdateFlags` and `Trash.Update` state it as "in water iff y < 0" |
| Submersion.Select | Assets/Scripts/Trash.cs:60-62 | a body gets the water set of coefficients exactly when in water, the air set otherwise; the same choice as SquidController.cs:60-62, stated by `Trash.Update` and `SquidController.UpdateThrust` |
| TrashLifecycle.Step | Assets/Scripts/Trash.cs:35-78 | the flag transition keeps "delivered implies ineligible"; only a boat hit puts a trash in the boat and nothing takes it out; eligibility is lost only by a drop or a boat hit and regained only by the pickup timer, and then only outside the boat; only a boat hit, a pickup or a drop changes `simulated` |
| TrashLifecycle.DeliveryIsFinal | Assets/Scripts/Trash.cs:49-78 | after any history of events, a delivered trash is still in the boat and still ineligible |
| TrashLifecycle.IneligibleUntilTimer | Assets/Scripts/Trash.cs:67-78 | an ineligible trash stays ineligible through any history in which its pickup timer does not fire |
| TrashLifecycle.DropCooldown | Assets/Scripts/Trash.cs:67-78 | after a drop the trash is ineligible until its pickup timer fires |
| TrashLifecycle.Trash.constructor | Assets/Scripts/Trash.cs:19-24 | a new trash is eligible, not in the boat, in air, simulated, with no detector recorded |
| TrashLifecycle.Trash.OnEnterTrashDetectorTrigger | Assets/Scripts/Trash.cs:35-41 | the handled event is raised iff the event names this trash and it is eligible; only then is the detector recorded; otherwise nothing changes |
| TrashLifecycle.Trash.OnTrashHitBoatTop | Assets/Scripts/Trash.cs:49-55 | for this trash: ineligible, in the boat, not simulated; an event naming another trash changes nothing |
| TrashLifecycle.Trash.OnSquidDropTrash | Assets/Scripts/Trash.cs:67-72 | for this trash: ineligible and its pickup timer started; an event naming another trash changes nothing and starts nothing |
| TrashLifecycle.Trash.PickUpTimerElapsed | Assets/Scripts/Trash.cs:74-78 | eligibility becomes "not in the boat" |
| TrashLifecycle.Trash.Update | Assets/Scripts/Trash.cs:57-65 | in water iff y < 0, so the surface counts as air; the water coefficients iff in water; a collision-ignore request, with "ignore" equal to ineligibility, once a detector is recorded |
| Pollution.Clamp | Assets/Scripts/PollutionSystem.cs:16 | the result lies in the range, equals the value inside it, and equals the nearer bound outside it |
| Pollution.Stored | Assets/Scripts/PollutionSystem.cs:16 | the stored value always lies in [0, 100], and a requested value already in range is stored as it is |
| Pollution.WriteEffects | Assets/Scripts/PollutionSystem.cs:17-18 | a write first announces the stored value; the loss scene is requested iff that value is 100 |
| Pollution.Levels | Assets/Scripts/PollutionSystem.cs:11-20 | each announced level is the previous stored level plus its delta, clamped, and so lies in [0, 100] |
| Pollution.LossRequests | Assets/Scripts/PollutionSystem.cs:18 | a run requests the loss scene at most once per write, and never iff it never lands on 100 |
| Pollution.SaturatedRequestsLossEveryTime | Assets/Scripts/PollutionSystem.cs:18 | from 100, n increments announce 100 n times and request the loss scene n times |
| Pollution.LossRequestedTwiceFrom99 | Assets/Scripts/PollutionSystem.cs:18 | from 99, two spawns request the loss scene twice |
| Pollution.ClampedRunIsNotClampedSum | Assets/Scripts/PollutionSystem.cs:16 | from 0, a delivery then a spawn leave 1, while the clamped sum of the deltas is 0 |
| Pollution.PollutionSystem.constructor | Assets/Scripts/PollutionSystem.cs:9 | the meter starts at 0 |
| Pollution.PollutionSystem.SetPollution | Assets/Scripts/PollutionSystem.cs:11-20 | stores the clamped value; always announces it first; requests the loss scene iff the stored value is 100 |
| Pollution.PollutionSystem.Start | Assets/Scripts/PollutionSystem.cs:28-31 | the meter is 0 whatever it held, announced once |
| Pollution.PollutionSystem.OnTrashHitBoatTop | Assets/Scripts/PollutionSystem.cs:39-42 | one less, floored at 0, with the setter's effects |
| Pollution.PollutionSystem.OnTrashSpawned | Assets/Scripts/PollutionSystem.cs:44-47 | one more, capped at 100, with the setter's effects |
| BoatTops.HandleTrashCollision | Assets/Scripts/BoatTop.cs:14-19 | no event iff the object has no `Trash` or its body is not simulated; otherwise exactly one `OnTrashHit` carrying this boat and that trash |
| TrashDetectors.HandleTrashTriggerEnter | Assets/Scripts/TrashDetector.cs:13-18 | no event iff the object has no `Trash`; otherwise exactly one `OnTrashEntersTrigger` carrying this detector and that trash, with no eligibility check |
| Spawning.ChoosePrefab | Assets/Scripts/TrashSpawner.cs:31 | the lookup fails iff the prefab list is empty; otherwise the roll is a valid index and names the chosen prefab |
| Spawning.TrashSpawner.constructor | Assets/Scripts/TrashSpawner.cs:10-13 | nothing spawned, no wait done, loop not started |
| Spawning.TrashSpawner.SpawnTrash | Assets/Scripts/TrashSpawner.cs:29-36 | with prefabs: one new fresh trash of the rolled prefab at y = 0 and x in [-50, 50], counted once; without prefabs: nothing, the lookup throws |
| Spawning.TrashSpawner.StartSpawnLoop | Assets/Scripts/TrashSpawner.cs:15-27 | the loop spawns before any wait; it waits iff the spawn succeeded, with one spawn counted |
| Spawning.TrashSpawner.WaitElapsed | Assets/Scripts/TrashSpawner.cs:20-27 | each completed wait is followed by one more spawn, keeping spawns = waits + 1, and the loop goes on |
| Gameplay.Scene.Load | Assets/Scripts/PollutionSystem.cs:22-31 | after load the meter is 0 whichever `Awake` ran first; the first spawn is announced and one spawn wait is pending; with no prefab the spawn fails and nothing waits |
| Gameplay.Scene.AwakeSpawner | Assets/Scripts/TrashSpawner.cs:15-18 | the first spawn happens at once and is heard by the pollution system only if it subscribed first |
| Gameplay.Scene.StartPollution | Assets/Scripts/PollutionSystem.cs:28-31 | the meter is overwritten with 0 and that write is announced |
| Gameplay.Scene.NotifyOnTrashEntersTrigger | Assets/Scripts/Trash.cs:35-41 | only the named, eligible trash handles the event; the squid then picks it up iff the detector is its own and the gate is open |
| Gameplay.Scene.BroadcastOnTrashEntersTrigger | Assets/Scripts/TrashDetector.cs:17 | the event reaches every trash; only the named one can change, and the resulting log, roster and flags are as for that trash alone |
| Gameplay.Scene.BroadcastDropTrash | Assets/Scripts/SquidController.cs:154 | `OnDropTrash` reaches every trash; only the named one becomes ineligible and starts its pickup timer |
| Gameplay.Scene.DropTrash | Assets/Scripts/SquidController.cs:146-155 | one drop: out of the roster, simulating, ineligible, announced once, pickup timer pending |
| Gameplay.Scene.DropAllTrash | Assets/Scripts/SquidController.cs:138-144 | the roster is empty; every trash carried before simulates again and is ineligible; one `OnDropTrash` per roster entry in roster order; the gate closes even for an empty roster, with one `ResetPickUp` pending |
| Gameplay.Scene.DropEveryCarried | Assets/Scripts/SquidController.cs:140-141 | the drops keep the scene invariant and leave the roster empty |
| Gameplay.Scene.DropCarried | Assets/Scripts/SquidController.cs:140-141 | the loop over a snapshot drops each entry once, in order, touching no other trash |
| Gameplay.Scene.SquidUpdate | Assets/Scripts/SquidController.cs:53-64 | the thrust flags follow `UpdateFlags`; the body gets the right coefficients; drop-all runs iff the drop key went down |
| Gameplay.Scene.DropOnKey | Assets/Scripts/SquidController.cs:63 | the drop key empties the roster and closes the gate; without it nothing about trash changes |
| Gameplay.Scene.UpdateThrust | Assets/Scripts/SquidController.cs:53-62 | the flags follow `UpdateFlags`, and a `ResetHeldThrust` is pending iff the held cooldown started |
| Gameplay.Scene.SquidFixedUpdate | Assets/Scripts/SquidController.cs:72-83 | flags and "Thrusting" follow `FixedStep`; an impulse is logged iff a thrust was queued |
| Gameplay.Scene.TrashUpdate | Assets/Scripts/Trash.cs:57-65 | the trash's submersion and coefficients follow its height; the collision-ignore request is logged once a detector is recorded |
| Gameplay.Scene.DetectorTriggerEnter | Assets/Scripts/TrashDetector.cs:8-18 | a non-trash raises nothing; a trash raises one overlap event, one handled event if eligible, and is picked up iff eligible, the detector is the squid's and the gate is open |
| Gameplay.Scene.DetectorCollisionEnter | Assets/Scripts/TrashDetector.cs:20-22 | a solid contact with a detector changes nothing |
| Gameplay.Scene.BroadcastTrashHit | Assets/Scripts/BoatTop.cs:18 | `OnTrashHit` reaches every trash; only the named one is delivered |
| Gameplay.Scene.BoatCollisionEnter | Assets/Scripts/BoatTop.cs:8-19 | a simulated trash is announced once, lowers the meter by one (floored) and is delivered; anything else changes nothing |
| Gameplay.Scene.RecordHit | Assets/Scripts/BoatTop.cs:18 | a delivery keeps every `OnTrashHit` naming a distinct trash now in the boat |
| Gameplay.Scene.FireTimer | Assets/Scripts/TrashSpawner.cs:22-26 | the fired timer leaves the pending list and resumes its coroutine. The four kinds are the spawn wait (cited here), `ResetHeldThrust` (SquidController.cs:99-103), `ResetPickUp` (SquidController.cs:132-136) and a trash's pickup timer (Trash.cs:74-78). The two squid timers set their flag; the pickup timer makes the trash eligible unless it is in the boat; only the spawn wait puts a new timer back, after one more spawn that raises the meter |
| Gameplay.Scene.FireSquidTimer | Assets/Scripts/SquidController.cs:132-136 | `ResetHeldThrust` allows thrust again and `ResetPickUp` opens the gate, each touching nothing else |
| Gameplay.Scene.FirePickUpTimer | Assets/Scripts/Trash.cs:74-78 | the trash's eligibility becomes "not in the boat", keeping the scene invariant |
| Gameplay.Scene.FireSpawnWait | Assets/Scripts/TrashSpawner.cs:22-26 | after a wait: one new fresh trash of the rolled prefab, announced, the meter one higher (capped), and the loop waits again |
| Gameplay.Scene.SpawnAgain | Assets/Scripts/TrashSpawner.cs:29-36 | a spawn registers the new trash, announces it and is heard by the pollution system |
| Scenarios.StartupThenTwoSpawns | Assets/Scripts/PollutionSystem.cs:28-31 | load plus two spawn waits give three trash instances but a meter of 2 |
| Scenarios.DeliveryCountsOnce | Assets/Scripts/BoatTop.cs:17-18 | a second boat contact by a delivered trash raises nothing and leaves the meter alone |
| Scenarios.PickUpDropRetry | Assets/Scripts/SquidController.cs:138-144 | pickup, drop, then an immediate retry: carried once, then the roster is empty and the dropped trash is refused while ineligible |
| ParamNames.WordStart | Assets/Scripts/UnityTweakGUI.cs:238-241 | the regex's match condition: a capital letter that follows a small letter, or that follows a capital and is followed by a small letter |
| ParamNames.SpacedFrom | Assets/Scripts/UnityTweakGUI.cs:238-241 | the `Regex.Replace` from a position onward; it only inserts spaces (`SpacedFromOnlyAddsSpaces`), one per match (`SpacedFromLength`), and copies stretches without capitals (`NoCapitalRunCopied`) |
| ParamNames.Spaced | Assets/Scripts/UnityTweakGUI.cs:238-241 | the whole `Regex.Replace`; `TwoMatches` and `ThrustForceMagnitudeLabel` show the insertion points |
| ParamNames.TrimStart | Assets/Scripts/UnityTweakGUI.cs:242 | the leading half of `Trim`; `TrimStartRemovesLeadingSpace` states that it removes exactly the leading white-space run |
| ParamNames.TrimEnd | Assets/Scripts/UnityTweakGUI.cs:242 | the trailing half of `Trim`; `TrimEndRemovesTrailingSpace` states that it removes exactly the trailing white-space run |
| ParamNames.Trim | Assets/Scripts/UnityTweakGUI.cs:242 | `String.Trim` under .NET's white-space set; `TrimKeeps` and `SpacedIdentifierUntrimmed` state when it changes nothing |
| ParamNames.UpperFirst | Assets/Scripts/UnityTweakGUI.cs:244 | the first character upper-cased, the rest unchanged; `UpperFirstWithoutSpaces` and `ParamNameOfIdentifier` state its effect on a label |
| ParamNames.Without | Assets/Scripts/UnityTweakGUI.cs:243 | `Replace(c, "")` leaves no `c` and never lengthens the string |
| ParamNames.Upper | Assets/Scripts/UnityTweakGUI.cs:244 | upper-casing leaves no small letter, keeps letters letters and leaves every character that is not a small letter unchanged |
| ParamNames.ParamName | Assets/Scripts/UnityTweakGUI.cs:236-245 | a derived name is non-empty, contains no `_` and does not start with a small letter |
| ParamNames.TrimStartRemovesLeadingSpace | Assets/Scripts/UnityTweakGUI.cs:242 | `TrimStart` removes exactly a leading run of white space |
| ParamNames.TrimEndRemovesTrailingSpace | Assets/Scripts/UnityTweakGUI.cs:242 | `TrimEnd` removes exactly a trailing run of white space |
| ParamNames.SpacedFromOnlyAddsSpaces | Assets/Scripts/UnityTweakGUI.cs:238-241 | the replacement only inserts spaces: dropping spaces from before and after gives the same string |
| ParamNames.SpacedFromLength | Assets/Scripts/UnityTweakGUI.cs:238-241 | one space is inserted per match |
| ParamNames.SpacedFromEnds | Assets/Scripts/UnityTweakGUI.cs:238-241 | nothing is inserted before the first character or after the last |
| ParamNames.NoCapitalRunCopied | Assets/Scripts/UnityTweakGUI.cs:238-241 | a stretch without capitals is copied unchanged |
| ParamNames.FirstKeptIsOriginal | Assets/Scripts/UnityTweakGUI.cs:238-243 | past leading underscores, the first character kept is an original one, never an inserted space |
| ParamNames.WithoutAppend | Assets/Scripts/UnityTweakGUI.cs:243 | removal distributes over concatenation |
| ParamNames.WithoutCommutes | Assets/Scripts/UnityTweakGUI.cs:243 | removing two characters in either order gives the same string |
| ParamNames.WithoutEmpty | Assets/Scripts/UnityTweakGUI.cs:243 | nothing is left iff every character was the removed one |
| ParamNames.WithoutAbsent | Assets/Scripts/UnityTweakGUI.cs:243 | removing an absent character changes nothing |
| ParamNames.TrimKeeps | Assets/Scripts/UnityTweakGUI.cs:242 | a string with white space at neither end is kept by `Trim` |
| ParamNames.SpacedIdentifierUntrimmed | Assets/Scripts/UnityTweakGUI.cs:238-242 | a name without white space keeps none at either end after spacing, so `Trim` keeps it |
| ParamNames.CleanedIdentifier | Assets/Scripts/UnityTweakGUI.cs:238-243 | dropping the spaces of the spaced, underscore-free name gives the name without underscores |
| ParamNames.UpperFirstWithoutSpaces | Assets/Scripts/UnityTweakGUI.cs:244 | upper-casing the first character commutes with dropping spaces when it is no space |
| ParamNames.ParamNameOfIdentifier | Assets/Scripts/UnityTweakGUI.cs:236-245 | for a name without white space, the call throws iff the name is all underscores; otherwise, spaces aside, the label is the name without underscores with its first character upper-cased |
| ParamNames.ParamNameFromStages | Assets/Scripts/UnityTweakGUI.cs:236-245 | the label is the upper-cased first character of the trimmed, underscore-free spaced form whenever that is non-empty |
| ParamNameExamples.TwoMatches | Assets/Scripts/UnityTweakGUI.cs:238-241 | a name with exactly two capitals, both starting words, gets exactly two spaces, one before each |
| ParamNameExamples.ThrustForceMagnitudeLabel | Assets/Scripts/UnityTweakGUI.cs:236-245 | `_thrustForceMagnitude` is labelled `Thrust Force Magnitude` |
| ParamNameExamples.UnderscoreOnlyFails | Assets/Scripts/UnityTweakGUI.cs:244 | `_` leaves nothing to upper-case, so the call throws |
| TweakGroups.RangeAttr | Assets/Scripts/UnityTweakGUI.cs:330-336 | the range constructor stores its four arguments, with no display name and the default group by default |
| TweakGroups.NamedAttr | Assets/Scripts/UnityTweakGUI.cs:325-328 | the named constructor is the range constructor with [0, 100] |
| TweakGroups.DefaultAttr | Assets/Scripts/UnityTweakGUI.cs:320-323 | the default attribute has range [0, 100], no display name and group "Default" |
| TweakGroups.DisplayName | Assets/Scripts/UnityTweakGUI.cs:177-179 | the display name when non-empty, otherwise the derived name; a label is never empty |
| TweakGroups.DefaultAttrLabelsByMemberName | Assets/Scripts/UnityTweakGUI.cs:177-179 | an attribute without a display name labels the member by its derived name, and a named one by its name |
| TweakGroups.AttributeParams | Assets/Scripts/UnityTweakGUI.cs:84-101 | at most one param per attribute, each for this member and this component |
| TweakGroups.MemberParams | Assets/Scripts/UnityTweakGUI.cs:80-104 | every param found on a component belongs to that component |
| TweakGroups.InspectedParams | Assets/Scripts/UnityTweakGUI.cs:82-103 | a member contributes params for itself only, and only as a field or property |
| TweakGroups.Subtrees | Assets/Scripts/UnityTweakGUI.cs:108-111 | one list of params per child |
| TweakGroups.PerTarget | Assets/Scripts/UnityTweakGUI.cs:62-65 | one list of params per target |
| TweakGroups.Discovered | Assets/Scripts/UnityTweakGUI.cs:76-111 | the params found under a transform in traversal order: its own components' members first, then each child's hierarchy; `AddTweakableParamsForNode` adds exactly these |
| TweakGroups.AddParam | Assets/Scripts/UnityTweakGUI.cs:90-100 | one `TryGetValue`/`Add` adds exactly the param's group to the keys |
| TweakGroups.AddAll | Assets/Scripts/UnityTweakGUI.cs:89-100 | the add loop, one `AddParam` per param in order; `AddAllKeys`, `AddAllGroups` and `BuildIsGrouping` state what it builds |
| TweakGroups.InGroupMembers | Assets/Scripts/UnityTweakGUI.cs:91-100 | a group's list holds exactly the params of that group |
| TweakGroups.AddAllKeys | Assets/Scripts/UnityTweakGUI.cs:91-100 | adding params one by one adds exactly the groups they name |
| TweakGroups.AddAllGroups | Assets/Scripts/UnityTweakGUI.cs:91-100 | adding params one by one extends each group's list by that group's new params, in discovery order |
| TweakGroups.BuildIsGrouping | Assets/Scripts/UnityTweakGUI.cs:89-100 | building from an empty map gives the reference grouping: a key iff some param carries that group, holding that group's params in discovery order, never empty |
| Ordinal.Below | Assets/Scripts/UnityTweakGUI.cs:70 | the comparison the sort uses: the first differing character decides, and a proper prefix comes first; the four lemmas below prove it a total order |
| Ordinal.BelowReflexive | Assets/Scripts/UnityTweakGUI.cs:70 | every string sorts no later than itself |
| Ordinal.BelowTotal | Assets/Scripts/UnityTweakGUI.cs:70 | any two strings are comparable |
| Ordinal.BelowAntisymmetric | Assets/Scripts/UnityTweakGUI.cs:70 | two strings each sorting no later than the other are equal |
| Ordinal.BelowTransitive | Assets/Scripts/UnityTweakGUI.cs:70 | the order is transitive |
| Ordinal.AscendingSetIsStrict | Assets/Scripts/UnityTweakGUI.cs:67-70 | a sorted arrangement of a set's elements has no repeats |
| Ordinal.InsertAt | Assets/Scripts/UnityTweakGUI.cs:70 | one insertion step extends the sorted prefix by one and permutes the array |
| Ordinal.SortOrdinal | Assets/Scripts/UnityTweakGUI.cs:70 | `Array.Sort` leaves the array sorted and a permutation of its old contents |
| TweakPanel.AsTargets | Assets/Scripts/UnityTweakGUI.cs:55-59 | the scene's roots become the targets, one for one |
| TweakPanel.TweakGUI.constructor | Assets/Scripts/UnityTweakGUI.cs:14-20 | the panel starts with its inspector targets, an empty map and no groups |
| TweakPanel.TweakGUI.InitTweakableParams | Assets/Scripts/UnityTweakGUI.cs:43-71 | the map is rebuilt from scratch as the reference grouping of every param under the targets (the scene's roots when none are set); the group array is a fresh, strictly ascending permutation of the map's keys |
| TweakPanel.TweakGUI.AddTargets | Assets/Scripts/UnityTweakGUI.cs:61-65 | every target's params are added in target order |
| TweakPanel.TweakGUI.CopyKeys | Assets/Scripts/UnityTweakGUI.cs:68-69 | a fresh array holding each key exactly once, in some order |
| TweakPanel.TweakGUI.AddTweakableParamsForTransform | Assets/Scripts/UnityTweakGUI.cs:74-113 | an unassigned target adds nothing; otherwise its whole hierarchy's params are added in traversal order |
| TweakPanel.TweakGUI.AddTweakableParamsForNode | Assets/Scripts/UnityTweakGUI.cs:76-112 | a transform's own components' params, then each child's hierarchy, are added in that order |
| TweakPanel.TweakGUI.AddComponentsParams | Assets/Scripts/UnityTweakGUI.cs:78-105 | each component's params are added in component order |
| TweakPanel.TweakGUI.AddChildrenParams | Assets/Scripts/UnityTweakGUI.cs:107-111 | each child's hierarchy is added in child order |
| TweakPanel.TweakGUI.AddComponentParams | Assets/Scripts/UnityTweakGUI.cs:80-104 | each member's params are added in member order |
| TweakPanel.TweakGUI.AddMemberParams | Assets/Scripts/UnityTweakGUI.cs:82-103 | the map gains exactly the member's params, one `TryGetValue`/`Add` per tweak attribute in attribute order, each for this member and component; a member that is neither field nor property adds nothing |
| TweakPanel.ReinitIsStable | Assets/Scripts/UnityTweakGUI.cs:42-71 | re-initialising over an unchanged scene keeps the targets, the map and the group order |
| TweakPanel.StrictOrderUnique | Assets/Scripts/UnityTweakGUI.cs:67-70 | two strictly ascending arrangements of the same elements are equal, so the sorted group order is determined by the keys |

## Left out

- Forces, torque, velocities and the drop impulse are floating-point physics-engine calls
  (SquidController.cs:57, 105-122, 151-153). The model keeps only the fact that an impulse was
  requested (`ThrustImpulse` in the log) and the air/water choice of the coefficients.
- The `Physics2D.IgnoreCollision` request is logged, but its effect on collisions is not
  modelled.
- `Instantiate`, `SetParent` and transform positions are not modelled. A new trash records the
  position it was placed at; a pickup records only that the body stops simulating.
- `Input`, `Random` and the height of each body are parameters of the callbacks. `Random.Range`
  results are constrained to their documented ranges.
- `SceneManager.LoadScene` is only logged: the loss scene never actually replaces the running
  scene.
- Wall-clock time is not modelled. Each `WaitForSeconds` is a pending timer that the
  environment fires in any order.
- Static event subscription is not modelled. Every component is subscribed from load onward,
  except that the pollution system's `Awake` may run after the spawner's first spawn (both
  orders are modelled). Nothing is ever destroyed, so `OnDestroy` is not modelled.
- `Debug.Log` and the animator beyond the "Thrusting" flag are not modelled.
- `_trashPrefab` is never read by the code, and the model has no counterpart for it.
- The infinite spawn loop becomes a timer that puts itself back each time it fires. There is
  no spawn cap.
- Spawning.TrashSpawner.SpawnTrash: every prefab is assumed to carry a `Trash` component. For a
  prefab without one, `GetComponent<Trash>()` (TrashSpawner.cs:34) returns null. The code still
  announces that spawn, and the pollution system still adds 1, but the model has no such
  prefab.
- Pollution.Levels and Pollution.LossRequests are a stand-alone reference for a run of writes.
  Each `PollutionSystem` call states its own step as `Stored(old ± 1)` with `WriteEffects`. No
  lemma ties a sequence of those calls to `Levels`.
- Thrown exceptions:
  - an empty `_trashPrefabs` ends the spawn coroutine (`SpawnFailed`);
  - `Substring(0, 1)` on an empty label is `Err`.
- Character handling in the tweak panel:
  - `ToUpper` maps only ASCII letters;
  - `Array.Sort<string>` is modelled as character-code order, not the culture-aware comparison
    .NET uses by default;
  - strings are sequences of Dafny characters, not UTF-16 code units.
- Null references:
  - a null `targetObjects` array is modelled as an empty one;
  - a null `displayName` is not modelled;
  - a null `group` is not modelled. It would make `TryGetValue` throw (UnityTweakGUI.cs:91).
- The tweak panel's `OnGUI` drawing, DPI scaling, `GetMemberValue`/`SetMemberValue` and the
  slider casts are left out. `FindAllRootTransformsInScene` is a parameter (the scene's roots).
- Reflection is replaced by a tree of transforms whose components list their members and
  custom attributes in the order reflection returns them.
- Dictionary and list mutation in the tweak panel:
  - The dictionary is a `map` field of the panel, and each list is a value inside it. The
    aliasing between a list and the dictionary entry holding it is not modelled.
  - `InitTweakableParams` fills a new local array and sorts it before storing it in
    `sortedGroups`. The code sorts the stored array in place; the result is the same.
  - `Keys.CopyTo` is modelled as copying the keys in an arbitrary order, since the dictionary's
    enumeration order is unspecified.
- The recursive walk is split into helper methods: one for the components of a transform, one
  for its children, one per component and one per member. A child transform is never null,
  so the null check is not repeated for children.
- Gameplay.Scene.SquidUpdate: when the drop key went down, it states only that each trash
  carried before ends up simulating and ineligible. The full per-trash state is stated by
  `DropAllTrash`.
- Gameplay.Scene.DropOnKey: same weakening as `SquidUpdate`, for the same reason.
- Gameplay.Scene.RecordHit: in the model the pollution system's write is always logged after
  the trash handlers have run. In the code the order follows subscription order, which depends
  on `Awake` order. When the spawner's `Awake` runs first, its first `Instantiate`
  (TrashSpawner.cs:32) runs that trash's `Awake`, which subscribes it to `OnTrashHit`
  (Trash.cs:31) before the pollution system subscribes (PollutionSystem.cs:25). Later trash
  subscribes after the pollution system. The trash handlers log nothing and touch state
  disjoint from the pollution system's, so the resulting log and state are the same in every
  order.
