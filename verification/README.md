# Verified model of the fleet simulator and the release and ingestion services

Four parts of the repository are modelled, each as the state machine it is, and proved correct over
all their inputs and all their runs.

**Awareness and its graph** (`fleetgraph/fleetgraph/engine.py`, `neo4j_sync.py`, `api.py`). Every tick of a
simulation adds lidar sightings, builds the graph of delivered radio links, spreads warnings along shortest
paths from cars that saw a hazard, and commits brakes. The event log is then folded into a property graph, from
which "why did it brake?" is answered. Lidar results, the delivery relation and the modem's hop reports are
arbitrary inputs of each tick, so the theorems hold for every world and every radio; only what `OtherHazard`
says is about the sightings a lidar can give. Modules: `PathSearch` (breadth-first search), `Events`,
`Awareness` (what each step does), `Engine` (the program's object), `AwarenessInvariant`, `AwarenessTheorems`,
`TickEffects` and `TickEvents` (what one tick does and reports), `GraphStore` and `GraphTheorems` (the sync),
`EngineGraph` and `GraphContents` (both together), `Lidar` (which sightings follow from where things are),
`OtherHazard` (when the query's answer is about the right hazard).

**Motion and geometry** (`engine._advance_vehicles`, `world.py`, `grid.py`). Modules: `Plane`, `Polyline`
(arc-length), `Clip` (line of sight), `Motion`, `MotionTheorems` and `MotionEffects` (the integrator),
`RoadRuns` (runs on a straight road), `EngineMotion` (the two halves of the engine together), `GridPath` and
`GridRuns` (routes through a city grid). Numbers are exact reals. `math.dist` is a parameter constrained only to
be the non-negative root of the squared distance, and `math.sqrt` one constrained to be a non-negative root; the
triangle inequality, the homogeneity of distance and the rest of the geometry are proved from that.

**Ingestion** (`aithernet/services/ingestion/service.py`). Modules: `Replay` (request authentication and its
purged replay table), `Ingest`, `IngestTheorems` and `IngestEffects` (batches, deletions, dataset versions),
`VersionEffects` (what a version holds), `DeletionEffects` (what a deletion takes from others).

**Releases and the research archive** (`aithernet/services/control_plane`). Modules: `Manifests`, `Releases`,
`ReleaseTheorems`, `ReleaseEffects`, `PublishTheorems` (when a publish succeeds, and what a channel then
serves), `Collisions` (releases that share a directory), `Research`, `ResearchTheorems`, `ResearchEffects`, and
`Paths` (object paths). Hashing, signing, name normalisation, opening and scanning a package are arbitrary
functions.

An operation that changes state in the program is a method of a class here. It is proved to do exactly what a
specification function says (a function from the old state and the inputs to the new state), and the theorems
are about those functions, over every run. The modules named `...Effects`, `TickEvents`, `GraphContents` and
`GridRuns` say what those functions do without naming them: every answer, event, edge and row, in terms of the
inputs and the state before.

## What the code does against what is said of it

Each of these is proved twice over: a run (or an input) in which it happens, and the exact condition under
which it does.

- "a safe gap before the hazard" and "stay stopped for hazards" (`engine.py:119-120`, `334`): the stop target of a
  later decision replaces the earlier one's. A run in which a car comes to rest for one hazard and drives on for
  another: `RoadRuns.StoppedCarDrivesOn`; one in which a moving car passes its first target without slowing down:
  `CarDrivesPast`. Of several decisions about a car in one tick the last one counts
  (`MotionTheorems.LastDecides`). A car at rest drives on in a tick exactly when that one is for a target beyond
  (and the car has a cruise speed): `DrivesOnIff`. Over any run, the target of a braked car, at rest or moving,
  stays within a limit exactly as long as no tick's last decision about it is for a target beyond the limit
  (`StaysWithinIff`), and as long as it does the car does not pass the limit (`StaysWithin`); after such a
  decision, if no other one follows, a car that has a cruise speed does pass it, in a bounded number of ticks
  (`PassesInTime`).
- A car may be drawn back to a stop line (`engine.py:188`, `202`), by at most half a metre. A run in which it is:
  `RoadRuns.CarIsDrawnBack`. It is so exactly when it has not braked and a signal that catches it has its
  line behind it: `MotionTheorems.DrawnBackIff`. At the start of its path its travel may become negative
  (`CarIsDrawnBeforeStart`); it is then drawn at the start (`DrawnAtStart`).
- The answer to "why did it brake?" is a longest chain of hops that starts at a car that saw the hazard,
  but the query does not ask what the hops were about. A run of two cars in which it answers with a chain about
  another hazard, and names the braking car itself as the first to have seen it: `OtherHazard.AnswerIsOffTopic`.
  Both ticks of it have sightings that a lidar gives. Over such sightings every answer of every run on a scenario is
  about the right hazard exactly when the scenario has fewer than two hazards or fewer than two cars, or a range of
  the world (lidar, awareness, braking) is negative: `OtherHazard.OnTopicIff`.
- `position_at` with a brake time before the spawn time puts the actor behind the start of its path:
  `Polyline.FrozenBeforeSpawn`, and exactly when: `Polyline.PositionIsOnPathIff`. No caller in the repository
  passes a brake time, so this is not an input the program meets today.
- The manifest is called deterministic and fully ordered (`release_signing.py:93`). Two rows of one name make it
  depend on their order: `Manifests.SwappedRowsDiffer`. It does not depend on the order exactly when rows with the
  same name are identical: `Manifests.ManifestIgnoresRowOrderIff`.
- Two different contents uploaded under one name: the release can be signed but never published
  (`PublishTheorems.SecondUploadBlocks`, `NameReuseBlocksPublish`). A publish succeeds exactly when the release is
  signed and not empty and rows with one name agree in digest and size, when releases share no directory:
  `PublishTheorems.PublishIff`.
- Two releases may share a directory of the blob store, when a version or a channel has a slash in it
  (`Collisions.SlashesShare`), and an artifact of the one then overwrites that of the other. A run in which a channel
  serves a release whose artifact is no longer what was signed: `Collisions.PublishedIsOverwritten`. Over all runs
  that create releases of given versions and channels, what is published stays intact exactly when no two of them
  share a directory: `Collisions.PublishedIntactIff`.
- Bundles are stored under their content, so deleting a batch takes the bundle of another batch of the same
  content away (`DeletionEffects.SharedBundleIsLost`). A batch has its bundle exactly when no batch of the same
  content has been deleted since that content was last stored (`BundlesAreKept`).
- Excluding the dataset members of a deleted batch goes by record id and batch id over all tenants. A run in which
  one tenant's deletion excludes a member of another tenant's dataset: `DeletionEffects.ForeignMemberIsExcluded`;
  exactly which members: `IngestTheorems.DeletionReach`.
- Sixty crossings is the limit of a grid path. A grid in which the path stops inside: `GridPath.PathStopsInside`;
  straight on over roads more than 1.5 m apart it leaves exactly when fewer than sixty roads are ahead:
  `GridPath.StraightPathLeavesIff`.

## Model

| member | source | states |
|---|---|---|
| PathSearch.BfsCorrect | fleetgraph/fleetgraph/engine.py:394-416 | the search finds nothing exactly when no observer reaches the car; otherwise a simple path over delivered links, starting at the only observer on it, and no longer than any other |
| PathSearch.BfsPath | fleetgraph/fleetgraph/engine.py:394-416 | the deque and predecessor-map loop, stopping on discovery, returns what the specification returns: none iff unreachable, else a shortest path |
| Engine.SimEngine.Run | fleetgraph/fleetgraph/engine.py:227-345 | the trust events, then every tick in order, from the engine's initial state |
| Engine.SimEngine.Step | fleetgraph/fleetgraph/engine.py:244-345 | one tick is sensing, propagation and braking, each visiting cars and hazards in the program's order |
| Engine.SimEngine.See | fleetgraph/fleetgraph/engine.py:256-270 | a visible hazard is observed and known once; a blocked one ahead within range is reported once |
| Engine.SimEngine.BuildDeliveryGraph | fleetgraph/fleetgraph/engine.py:273-282 | car u points to the other cars that hear u in this tick, in car order |
| Engine.SimEngine.Tell | fleetgraph/fleetgraph/engine.py:287-325 | an unaware car within reach of an observer learns of the hazard along a shortest path, with its hops and relays logged once each |
| Engine.SimEngine.BrakeOrReport | fleetgraph/fleetgraph/engine.py:329-345 | an aware car brakes once and commits to stop; an unaware one closer than 10 m is reported at risk |
| AwarenessInvariant.RunKeeps | fleetgraph/fleetgraph/engine.py:227-345 | after any run: aware is observed plus radio, braked is within aware, the stopped cars are the braked ones, the log holds exactly the facts in the sets, each once, and each justified by the events before it |
| AwarenessInvariant.TickKeeps | fleetgraph/fleetgraph/engine.py:250-345 | the three steps of a tick keep all of that |
| AwarenessInvariant.WarnKeeps | fleetgraph/fleetgraph/engine.py:286-325 | so does delivering one warning, whose events precede each other properly |
| AwarenessTheorems.LogMatchesState | fleetgraph/fleetgraph/engine.py:250-345 | exactly one event per (car, hazard), hop or relay that is in the engine's sets, none for any other |
| AwarenessTheorems.RunIsJustified | fleetgraph/fleetgraph/engine.py:250-345 | per event of any run: what must have been logged before it and what must not (a brake follows awareness; radio awareness follows its source's observation and every hop; a relay never saw the hazard; no risk for an aware car) |
| AwarenessTheorems.RadioBrakeHasChain | fleetgraph/fleetgraph/engine.py:290-342 | before a radio brake the log holds the warning, every hop of its path, and the observation of its first car |
| AwarenessTheorems.WhoLearns | fleetgraph/fleetgraph/engine.py:286-294 | a car is aware after the round iff it was before, or the hazard is relevant to it and some other car that observed it reaches it |
| AwarenessTheorems.RelevantMeans | fleetgraph/fleetgraph/engine.py:247-255 | relevance is having a sighting of the hazard ahead within the horizon |
| AwarenessTheorems.WarnsSpread | fleetgraph/fleetgraph/engine.py:286-325 | what a round adds to each set, described without any order |
| AwarenessTheorems.OrderDoesNotMatter | fleetgraph/fleetgraph/engine.py:286-325 | visiting receivers and hazards in any order leaves the same aware, radio, hop and relay sets |
| AwarenessTheorems.TickGrows | fleetgraph/fleetgraph/engine.py:250-345 | the log is append-only |
| TickEffects.TickMeans | fleetgraph/fleetgraph/engine.py:247-342 | exactly what a whole tick does: who observes (a visible sighting), who is aware (was, sees it, or has it ahead within the horizon and is reached from a car that has observed it, earlier or in this tick), who brakes (aware, and ahead within braking distance) |
| TickEffects.EveryTickMeans | fleetgraph/fleetgraph/engine.py:238-342 | every tick of every run has that effect |
| TickEvents.EveryTickReports | fleetgraph/fleetgraph/engine.py:250-345 | exactly which events each tick of any run adds, with its own time and number: first sights and first blind spots with the distance of the first such sighting; awareness by sight, or along a path of the search; each new hop and relay of those paths, with the modem's report; and for a hazard near ahead, at the distance of its last sighting, the first brake of a car that knows of it, by sight or by radio, or a risk below 10 m for one that does not |
| TickEvents.NothingIsReportedTwice | fleetgraph/fleetgraph/engine.py:250-345 | with distinct cars no tick reports the same thing twice, a risk included |
| AwarenessTheorems.AllPairsMean | fleetgraph/fleetgraph/engine.py:232 | without pairs from the caller every car trusts each later one and no other |
| AwarenessTheorems.ListedInOrder | fleetgraph/fleetgraph/engine.py:273-290 | links and observers are listed in the order of the cars |
| GraphStore.GraphSync.ApplyRun | fleetgraph/fleetgraph/neo4j_sync.py:165-171 | executes the seed and event statements in order; returns how many there were |
| GraphStore.GraphSync.ResetRun | fleetgraph/fleetgraph/neo4j_sync.py:159-163 | removes the run's edges and node and nothing else |
| GraphStore.GraphSync.ApplyEvent | fleetgraph/fleetgraph/neo4j_sync.py:173-177 | executes the statements of one event |
| GraphTheorems.TrackClosed | fleetgraph/fleetgraph/neo4j_sync.py:74-130 | of all writes to an edge the first time wins (after one already there) and the last attributes win |
| GraphTheorems.ReplayGrounded | fleetgraph/fleetgraph/neo4j_sync.py:134-171 | statements whose end nodes are always there can be cut off anywhere and replayed with the same result |
| GraphTheorems.InterruptedSyncRecovers | fleetgraph/fleetgraph/neo4j_sync.py:134-171 | any prefix of the sync followed by the whole sync equals the whole sync, from any graph; so replay is idempotent |
| GraphTheorems.OtherRunsUntouched | fleetgraph/fleetgraph/neo4j_sync.py:159-171 | resetting and applying a run leaves every edge and node of other runs as it was |
| GraphTheorems.RerunStartsClean | fleetgraph/fleetgraph/neo4j_sync.py:159-171 | after a reset, a run's edges depend on its events alone |
| EngineGraph.RunIsSeeded | fleetgraph/fleetgraph/neo4j_sync.py:46-58 | every end node of every event of an engine run is seeded, so no statement is a silent no-op |
| GraphContents.SyncLosesNothing | fleetgraph/fleetgraph/neo4j_sync.py:69-130 | kind by kind, every event of a run is in the graph under its own edge, with its own time and values (a brake with its distance and source, a hop with the modem's report, ...); a trust pair in both directions, without a time |
| GraphContents.EdgeWasLogged | fleetgraph/fleetgraph/neo4j_sync.py:69-130 | an edge of the run is in the graph exactly when an event of the log says so |
| GraphContents.RiskIsStored | fleetgraph/fleetgraph/neo4j_sync.py:124-130 | a car at risk is marked with the time of the first report and the distance of the last one |
| GraphContents.RunIsNamed | fleetgraph/fleetgraph/neo4j_sync.py:48-51 | the run's node carries the scenario's name and fog |
| GraphContents.CarIsNamed | fleetgraph/fleetgraph/neo4j_sync.py:52-54 | the node of a car shows its caption, or its id when it has none; of several cars with one id the last one's |
| GraphContents.HazardIsNamed | fleetgraph/fleetgraph/neo4j_sync.py:55-57 | likewise of a hazard, with its kind |
| GraphContents.ResetMeans | fleetgraph/fleetgraph/neo4j_sync.py:159-163 | a reset takes away the run's node and the edges that carry its id, and leaves every other element as it was |
| EngineGraph.EdgeCountsAreEventCounts | fleetgraph/fleetgraph/neo4j_sync.py:74-123 | per type, as many edges of the run as events of the log |
| EngineGraph.RadioBrakeIsExplained | fleetgraph/fleetgraph/api.py:221-230 | for each radio brake the graph holds the chain of hops about that hazard from an observer to the car; the query has an answer, and every answer ends at the car, starts at a car that saw the hazard (which may be the braking car itself) and is no shorter than that chain, so never the bare car |
| EngineGraph.AnswerExists | fleetgraph/fleetgraph/api.py:223-229 | every brake in the graph has an answer: paths use each hop once, so there is a longest one |
| Lidar.SightingFacts | fleetgraph/fleetgraph/world.py:163-192 | a sighting the lidar gives is at no negative distance, is visible exactly when it has no reason, and then within the lidar's range |
| OtherHazard.OnTopicIff | fleetgraph/fleetgraph/api.py:221-230 | over sightings the lidar can give, every answer to every brake of every run on a scenario is about the hazard braked for exactly when the scenario has fewer than two hazards or fewer than two cars, or a range of the world is negative |
| OtherHazard.AnswerIsOffTopic | fleetgraph/fleetgraph/api.py:221-230 | in any other case, a two-tick run over such sightings with a radio brake whose answer is a chain about the other hazard that starts at the braking car |
| Plane.Triangle | fleetgraph/fleetgraph/world.py:17-18 | the triangle inequality, from the definition of distance alone |
| Plane.LerpDist | fleetgraph/fleetgraph/world.py:33-34 | two points at fractions f and g of a segment are the absolute difference of f and g times its length apart, also when it has length zero |
| Polyline.PosAtIsLerp | fleetgraph/fleetgraph/world.py:21-36 | the position at cum(i) + f * len(i) is the point at fraction f of segment i, at boundaries and over zero-length segments too |
| Polyline.PosAtLipschitz | fleetgraph/fleetgraph/world.py:21-36 | positions are never farther apart than their arc-lengths, beyond the ends too |
| Polyline.FootIsNearest | fleetgraph/fleetgraph/world.py:49-55 | the clamped projection is the nearest point of a segment |
| Polyline.ArclenOfPointExact | fleetgraph/fleetgraph/world.py:39-60 | no point of the polyline is nearer than the returned distance; if any is nearer than 1e18 the returned arc-length leads to a point at that distance, else the result is (0, 1e18) |
| Polyline.ArclenOfXExact | fleetgraph/fleetgraph/world.py:63-77 | none iff no segment covers x; else the least arc-length at which the path has that x |
| Polyline.PosAtArclen | fleetgraph/fleetgraph/world.py:21-36 | the accumulating loop computes the specified position |
| Polyline.NearestArclen | fleetgraph/fleetgraph/world.py:39-60 | the loop over segments computes the specified arc-length and distance |
| Polyline.FirstArclenOfX | fleetgraph/fleetgraph/world.py:63-77 | the loop over segments computes the specified arc-length |
| Polyline.PositionAt | fleetgraph/fleetgraph/world.py:80-104 | the loop over segments computes the specified position |
| Polyline.PositionMeans | fleetgraph/fleetgraph/world.py:80-104 | nowhere before the spawn time or without a path, at the start when it does not move, and else as far along as it has come since it spawned, until it braked if it has |
| Polyline.PositionIsOnPathIff | fleetgraph/fleetgraph/world.py:87-104 | a moving actor is where pos_at_arclen puts it, except exactly when its brake time precedes its spawn time and its first segment has a length |
| Polyline.FrozenBeforeSpawn | fleetgraph/fleetgraph/world.py:89-104 | an actor that is ten metres behind the start of its path |
| Clip.SegIntersectsRect | fleetgraph/fleetgraph/world.py:116-137 | true iff some point of the segment lies in the closed rectangle, for degenerate segments and rectangles too |
| Motion.Vehicles.AdvanceVehicles | fleetgraph/fleetgraph/engine.py:150-206 | every vehicle that is not parked is moved, in actor order, as specified |
| Motion.Vehicles.FindCap | fleetgraph/fleetgraph/engine.py:167-190 | the stop target of a braked vehicle, else the nearest stop line that catches it, else the end of its path |
| Motion.Vehicles.CommitToStop | fleetgraph/fleetgraph/engine.py:333-339 | adds the car to the stopped ones and sets its target six metres before the hazard, never behind the car |
| MotionTheorems.SignalCapFacts | fleetgraph/fleetgraph/engine.py:168-190 | the cap is the nearest stop line among the signals that catch the vehicle, or the end of its path; it is held iff some signal catches it |
| MotionTheorems.EasesExactly | fleetgraph/fleetgraph/engine.py:192-200 | unless it brakes at the full rate the vehicle can still stop within the room it has, and unless it accelerates at the full rate or cruises it goes no slower than that |
| MotionTheorems.TargetIsBeforeHazard | fleetgraph/fleetgraph/engine.py:125-131 | the stop target is the first point of the path six metres before the hazard along x, against the direction of the vehicle's lane (without a lane, against the way its path ends), if still ahead, else where the vehicle is |
| MotionEffects.HoldsIff | fleetgraph/fleetgraph/engine.py:133-190 | a signal holds a vehicle exactly when it requires a stop, concerns it (in a city always, on a road when it is for both directions or the vehicle's), stands near enough to its route, and the front of the vehicle is not past the point 2.5 m before it |
| MotionEffects.EveryTickDrives | fleetgraph/fleetgraph/engine.py:150-206 | in each tick of any run a car or truck drives at the speed its room asks for as far as its limit, which is its stop target, or the nearest line of a signal that holds it, or the end of its path; it waits exactly when a signal holds it and it is slower than 0.4 m/s; a parked one stays |
| MotionEffects.StopsShort | fleetgraph/fleetgraph/engine.py:333-339 | in a straight lane of either direction a car that brakes for a hazard at least six metres ahead is six metres short of it at any later time, as long as nothing it brakes for later leads it beyond |
| MotionTheorems.MoveFacts | fleetgraph/fleetgraph/engine.py:161-206 | one tick of one vehicle: bounded acceleration, speed in [0, cruise], travel within the path, never past the stop target or a line that catches it, never drawn back more than half a metre |
| MotionTheorems.DrawnBackIff | fleetgraph/fleetgraph/engine.py:170-202 | a vehicle moves back exactly when it has not braked and a signal that catches it has its stop line behind it |
| RoadRuns.CarIsDrawnBack | fleetgraph/fleetgraph/engine.py:187-202 | a run in which a car goes back a quarter of a metre when the signal turns |
| RoadRuns.CarIsDrawnBeforeStart | fleetgraph/fleetgraph/engine.py:187-202 | a run in which the travel of a car at the start of its path becomes negative |
| MotionTheorems.DrawnAtStart | fleetgraph/fleetgraph/world.py:21-36 | a vehicle with negative travel is drawn at the start of its path |
| MotionTheorems.EachMovesOnce | fleetgraph/fleetgraph/engine.py:155-206 | with unique ids each vehicle moves once per tick, from where it was at the start of the tick |
| MotionTheorems.RunKeeps | fleetgraph/fleetgraph/engine.py:150-206 | the bounds on speed, travel and stop target hold at any time of any run |
| MotionTheorems.TickOfRun | fleetgraph/fleetgraph/engine.py:150-206 | what one tick of any run may change about a vehicle |
| MotionTheorems.BrakedForGood | fleetgraph/fleetgraph/engine.py:170-171 | once braked, a vehicle stays so, never moves backward and is never past its current target |
| MotionTheorems.SignalHolds | fleetgraph/fleetgraph/engine.py:175-190 | a vehicle caught by a signal stays at or before its line while the signal requires a stop and the vehicle does not brake |
| MotionTheorems.FramesAreClose | fleetgraph/fleetgraph/engine.py:187-204 | in consecutive frames a vehicle's positions are at most max(speed * dt, 0.5) apart |
| MotionTheorems.LastDecides | fleetgraph/fleetgraph/engine.py:331-339 | of several decisions about a car in one tick the last one sets its target, whatever the others were |
| MotionTheorems.DrivesOnIff | fleetgraph/fleetgraph/engine.py:331-339 | after the decisions of a tick a car at rest at its stop target drives on exactly when the last one about it is for a target beyond and it has a cruise speed |
| MotionTheorems.StaysWithin | fleetgraph/fleetgraph/engine.py:170-202 | over any run, a braked car does not pass a limit its target is within, as long as no tick's last decision about it is for a target beyond the limit |
| MotionTheorems.StaysWithinIff | fleetgraph/fleetgraph/engine.py:333-339 | and its target stays within the limit exactly as long as there is no such decision |
| MotionTheorems.PassesInTime | fleetgraph/fleetgraph/engine.py:170-204 | after such a decision, when nothing else is decided about it, the car passes the limit: until it has, it gains a fixed distance in every tick |
| RoadRuns.CarDrivesPast | fleetgraph/fleetgraph/engine.py:337-339 | a run in which a moving car brakes for a second hazard and passes the first one's target at cruise speed |
| RoadRuns.CarStopsBeforeHazard | fleetgraph/fleetgraph/engine.py:333-339 | a run, in a lane of either direction, in which a car comes to rest six metres before the hazard it brakes for |
| RoadRuns.StoppedCarDrivesOn | fleetgraph/fleetgraph/engine.py:337-339 | a run in which a car comes to rest for one hazard and then drives on for another |
| EngineMotion.HalvesAgree | fleetgraph/fleetgraph/engine.py:331-339 | when the motion half carries out the braking decisions logged in each tick, the cars committed to a stop in it are at all times those that braked in the awareness half |
| EngineMotion.BrakeEventStops | fleetgraph/fleetgraph/engine.py:170-204 | from the tick of a vehicle's braked_for event on it never drives backwards and is never past its current target |
| GridPath.GenerateGridPath | fleetgraph/fleetgraph/grid.py:67-119 | the loop over at most sixty crossings computes the specified path |
| GridRuns.GoesStraightOn | fleetgraph/fleetgraph/grid.py:67-105 | through one crossing, from each side, straight on: the two points of the path, coordinate by coordinate |
| GridRuns.TurnsOff | fleetgraph/fleetgraph/grid.py:67-119 | likewise for a turn to either side: the entry, the corner where the two right-hand lanes meet, and the exit |
| GridPath.Turn | fleetgraph/fleetgraph/grid.py:49-54 | right and left rotate the direction of travel by a quarter turn each way; anything else leaves it |
| GridPath.LaneCoord | fleetgraph/fleetgraph/grid.py:37-46 | the lane lies to the right of the centre line for its heading |
| GridPath.NearestFacts | fleetgraph/fleetgraph/grid.py:33-34 | a road of the list, and none is nearer |
| GridPath.NextRoadFacts | fleetgraph/fleetgraph/grid.py:84-101 | the nearest road more than 1 m ahead, if any |
| GridPath.PathFollowsRoute | fleetgraph/fleetgraph/grid.py:67-119 | segment k is parallel to its axis, on the right-hand lane, for the heading that the first k turns of the route lead to, of a road of the grid (of the entry line when there is no road) |
| GridPath.PathLeavesGrid | fleetgraph/fleetgraph/grid.py:82-100 | if the route and the roads of either direction together are fewer than 60, the path ends on the exit margin its last heading points to |
| GridPath.StraightPathLeavesIff | fleetgraph/fleetgraph/grid.py:82-110 | straight on over roads more than 1.5 m apart the path is the entry and the exit point if fewer than sixty roads lie more than 1 m ahead, and the entry alone otherwise |
| GridPath.PathStopsInside | fleetgraph/fleetgraph/grid.py:82 | with sixty roads ahead the path is a single point: the bound cannot be raised |
| GridPath.PathGoesForward | fleetgraph/fleetgraph/grid.py:82-119 | when parallel roads are a lane pair apart and the first crossing is clear, no segment runs against its heading |
| Replay.Authenticator.AuthenticateRequest | aithernet/services/ingestion/service.py:117-177 | the checks in the program's order, each with its code; an accept stores the nonce with its expiry and purges the expired ones |
| Replay.AnswerIsFirstFailure | aithernet/services/ingestion/service.py:117-176 | a request is accepted exactly when all seven headers are there, tenant and credential are active and not expired, the timestamp is within the skew, the digest is the body's, the signature verifies over the request's own fields, and the nonce is not in the table; any other answer is the code of the first check that fails and leaves the table as it was |
| Replay.NeverTwice | aithernet/services/ingestion/service.py:150-176 | with retention of at least twice the skew no signed request is accepted twice, in any run with a clock that does not run backwards |
| Replay.ReplaySafeIff | aithernet/services/ingestion/service.py:150-176 | that is so exactly when the retention is at least twice the skew (or the skew is negative) |
| Replay.DefaultsAreSafe | aithernet/services/ingestion/config.py:23-24 | the shipped configuration is safe |
| Replay.NonceStays | aithernet/services/ingestion/service.py:169-175 | an accepted nonce survives every purge within its retention |
| Replay.TableHoldsRecent | aithernet/services/ingestion/service.py:162-176 | every entry was put there by an accept, and after an accept none has expired |
| Ingest.IngestionService.Ingest | aithernet/services/ingestion/service.py:181-241 | the error cases in the program's order, the earlier receipt for a known key, else one batch with its records and receipt |
| Ingest.IngestionService.RequestDeletion | aithernet/services/ingestion/service.py:265-291 | deletes the batch's rows and bundle, excludes members, records the request and returns the number of rows |
| Ingest.IngestionService.ExcludeMembers | aithernet/services/ingestion/service.py:301-313 | excludes exactly the members whose record id occurs under the batch id |
| Ingest.IngestionService.NewVersion | aithernet/services/ingestion/service.py:324-354 | the next version number and a member for each training record of the tenant that is not deleted |
| IngestEffects.IngestMeans | aithernet/services/ingestion/service.py:181-241 | the answer is the first error that applies, with its entry in the log of failures and nothing else; for a known key the earlier receipt; else the bundle is stored, field by field: one batch, one row per record in order, one receipt, the body under its path |
| IngestEffects.DeletionMeans | aithernet/services/ingestion/service.py:265-291 | a deletion marks the batch, drops its bundle and is recorded with the number of the batch's rows; nothing else changes but marks and exclusions |
| VersionEffects.VersionMeans | aithernet/services/ingestion/service.py:324-354 | a new version gets one member for each training record of the tenant that is not deleted, in their order and with their ids, and counts them; old members stay |
| VersionEffects.VersionHolds | aithernet/services/ingestion/service.py:331-353 | at any later time of any run a version has exactly one member from each row that was such a record when it was made, and none from any other |
| IngestTheorems.TablesAgree | aithernet/services/ingestion/service.py:187-241 | at any time of any run: one batch per tenant and key, as many record rows as its receipt says, and every member that is not excluded comes from a training record of the tenant that is not deleted |
| IngestTheorems.RetryGetsFirstReceipt | aithernet/services/ingestion/service.py:188-194 | a retry with the same key, at any later time and with any content that is not oversized, gets the first receipt and changes nothing (an oversized one is refused like any other) |
| IngestTheorems.VersionsAreNumbered | aithernet/services/ingestion/service.py:336-347 | the versions of a dataset are numbered 1, 2, 3, ... |
| IngestTheorems.DeletionReach | aithernet/services/ingestion/service.py:273-313 | exactly which records a deletion marks and which members it excludes |
| DeletionEffects.BundlesAreKept | aithernet/services/ingestion/service.py:213-222 | at any time of any run the bundle of a batch is in the store exactly when no batch of the same content has been deleted since that content was last stored |
| DeletionEffects.ForeignMemberIsExcluded | aithernet/services/ingestion/service.py:301-313 | a run in which one tenant's deletion excludes another tenant's dataset member, whose record is not deleted |
| DeletionEffects.SharedBundleIsLost | aithernet/services/ingestion/service.py:280-281 | a run in which a batch that is not deleted has lost its bundle |
| Manifests.LeqMeans | aithernet/services/control_plane/release_signing.py:94-105 | names are compared character by character: a prefix comes first, and else the first difference decides |
| Manifests.SortFacts | aithernet/services/control_plane/release_signing.py:94-105 | the sorted list is sorted and a permutation |
| Manifests.SortIsStable | aithernet/services/control_plane/release_signing.py:94-105 | entries of the same name keep their order |
| Manifests.ManifestIgnoresRowOrderIff | aithernet/services/control_plane/release_signing.py:87-116 | the manifest is the same for every row order exactly when rows of the same name are identical |
| Manifests.SwappedRowsDiffer | aithernet/services/control_plane/release_signing.py:94-105 | two different rows of one name make two different manifests, depending on which comes first |
| Releases.Registry.CreateRelease | aithernet/services/control_plane/service_releases.py:57-77 | a draft, unless version and channel are taken |
| Releases.Registry.AddReleaseArtifact | aithernet/services/control_plane/service_releases.py:95-129 | the checks in order before anything is written; then blob, row, and the signature withdrawn |
| Releases.Registry.SignRelease | aithernet/services/control_plane/service_releases.py:138-182 | key checks in order; digest and signature of the manifest of the current rows |
| Releases.Registry.PublishRelease | aithernet/services/control_plane/service_releases.py:186-221 | only a signed, non-empty release with every blob intact becomes its channel's current one |
| Releases.Registry.RevokeRelease | aithernet/services/control_plane/service_releases.py:225-236 | revokes, and takes the release off its channel if it is current there |
| ReleaseEffects.AddMeans | aithernet/services/control_plane/service_releases.py:95-129 | the answer is the first error that applies, changing nothing; else row, blob and path are as declared and the signature is withdrawn |
| ReleaseEffects.SignMeans | aithernet/services/control_plane/service_releases.py:138-182 | the answer is the first error that applies (an unknown key, a revoked one, no seed, ...), changing nothing; else the release is a candidate, with the digest and signature of its own manifest, under the explicit seed, else the key's, else the configured one |
| ReleaseEffects.SignatureHasSigner | aithernet/services/control_plane/service_releases.py:138-182 | after any run, a signature in the table was made by a signing operation with a key that was active then and the seed it resolved to, and it is the signature of the manifest as it is now |
| ReleaseEffects.PublishMeans | aithernet/services/control_plane/service_releases.py:186-221 | the answer is the first error that applies, of the artifacts that of the first defective one, changing nothing; else the release is published and current |
| ReleaseEffects.CreateMeans | aithernet/services/control_plane/service_releases.py:57-77 | refused exactly when version and channel are taken together; else one draft more |
| ReleaseEffects.RevokeMeans | aithernet/services/control_plane/service_releases.py:225-236 | the release is revoked, and its channel cleared exactly if it is current there |
| ReleaseTheorems.RunKeeps | aithernet/services/control_plane/service_releases.py:45-236 | over any order of operations: signatures cover the current rows, published releases are signed, non-empty and intact, object paths follow names, channels point to their own releases |
| ReleaseTheorems.PathsMeetIff | aithernet/services/control_plane/service_releases.py:113 | two artifacts share an object path exactly when they share their name and channel and version join to the same directory |
| ReleaseTheorems.DirectoriesDiffer | aithernet/services/control_plane/service_releases.py:113 | different releases never share a directory when no channel, or no version, has a slash in it |
| ReleaseTheorems.SignatureCoversRebuild | aithernet/services/control_plane/service_releases.py:306-316 | a stored digest and signature are those of the manifest rebuilt from the current rows in any order, when rows of the same name are identical |
| ReleaseTheorems.ChannelServesIntact | aithernet/services/control_plane/service_releases.py:252-261 | a channel only serves a published, signed, non-empty release of its own, every artifact of which is stored as recorded |
| PublishTheorems.ServedIff | aithernet/services/control_plane/service_releases.py:174-177 | after any run a channel serves a release exactly when the last successful publish on the channel was that of this release and it has been neither revoked nor signed again since |
| PublishTheorems.PublishIff | aithernet/services/control_plane/service_releases.py:186-209 | after any run a publish succeeds exactly when the release exists, is signed and not empty, and rows of one name agree in digest and size |
| PublishTheorems.SecondUploadBlocks | aithernet/services/control_plane/service_releases.py:113-121 | a run in which a name is used twice: signing succeeds, publishing fails |
| PublishTheorems.NameReuseBlocksPublish | aithernet/services/control_plane/service_releases.py:203-209 | two different contents under one name: no publish of that release ever succeeds again |
| Collisions.PublishedIntactIff | aithernet/services/control_plane/service_releases.py:109-116 | in every run that creates releases of given versions and channels only, whatever is published stays signed, non-empty and intact, exactly when no two of them share a directory |
| Collisions.PublishedIsOverwritten | aithernet/services/control_plane/service_releases.py:113-114 | for any two releases that share a directory, a run in which a channel serves the one with an artifact overwritten through the other |
| Research.Archive.IngestResearchPackage | aithernet/services/control_plane/service_research.py:259-344 | the outcomes in the program's order: refused, duplicate, quarantined or accepted, each with its rows |
| Research.Archive.ProcessArchiveJobs | aithernet/services/control_plane/service_research.py:580-650 | visits the selected jobs in order, stops at an unavailable Drive, notes the connection |
| ResearchTheorems.ArchiveIsConsistent | aithernet/services/control_plane/service_research.py:280-344 | one package per tenant and digest, one job per package, and a job is synced (failed) iff the ledger has exactly one archived (failed) row for its package |
| ResearchTheorems.FinishedForGood | aithernet/services/control_plane/service_research.py:602-637 | packages never change and finished jobs never change |
| ResearchTheorems.AcceptedOnce | aithernet/services/control_plane/service_research.py:280-288 | content accepted from a tenant is at any later time, from any of its nodes, answered as a duplicate of that package and changes nothing |
| ResearchTheorems.AcceptedBytesStay | aithernet/services/control_plane/service_research.py:312-316 | the bytes of an accepted package are never overwritten or lost, in any run in which no two uploads of different contents share an object reference |
| ResearchTheorems.RefsAreApart | aithernet/services/control_plane/service_research.py:312 | that is so in every run when digests tell contents apart and have no slash in them, and in every run whose tenants and nodes have none in their names |
| ResearchEffects.UploadMeans | aithernet/services/control_plane/service_research.py:259-344 | each answer is given exactly when it applies (empty, too large, known, unreadable, with a secret in it, not stored, accepted), and goes with exactly its rows and bytes |
| ResearchEffects.WorkMeans | aithernet/services/control_plane/service_research.py:602-650 | at any time of any run a worker run handles the selected jobs in order, each as its outcome says and with its ledger row, up to the first outcome that stops it, for the reason its category gives; it leaves all other jobs alone and notes the connection |
| ResearchTheorems.WorkerRun | aithernet/services/control_plane/service_research.py:602-650 | the counters count the finished jobs; after an early stop the job stopped at and all unvisited ones are still queued |

## Left out

- Floating point: numbers are exact reals, and the rounding of event payloads is dropped.
- Fog, jammers, signal-to-noise ratio, the modem and its cache: sightings, delivered links and hop reports are inputs. `Lidar` says which sightings follow from places in one tick; what hides a hazard, where it counts as ahead and how places follow from motion are free there. That a heard event was carried by the modem is not claimed; the engine does not look at that.
- The engine as one object: its awareness half and its motion half are two classes with a common set of stopped cars; `EngineMotion` relates them. Frames, summaries and the timing of signals are inputs or absent (a tick is given the signals that require a stop).
- Per-car dictionaries of sets are sets of (car, hazard) pairs, so that actor ids are taken to be unique; a second call of `run` on the same engine is not modelled.
- `heading_at`, `effective_lidar_range`, `heading_for_point` and the lane and manoeuvre paths of straight roads.
- That turn k of a grid route is taken at the k-th crossing: a left turn may use up the next order at the same crossing.
- GridPath.PathLeavesGrid: for routes with turns a sufficient condition; such a path may also leave with more roads, which it then never has ahead.
- GridPath.PathGoesForward: a sufficient condition on the layout of the grid, not a necessary one.
- Cypher itself: a MERGE is a write to a map keyed by what the MERGE names; the uniqueness constraints of the schema are taken for granted, and events of an unknown type, which produce no statement, cannot be written down.
- The other questions of the catalog, credits and the HTTP layer.
- GraphContents.SyncLosesNothing: of the risk reports, which a run repeats every tick, only that they have an edge; they share it, and what it then says is in RiskIsStored.
- Real cryptography, SQL and concurrency: digests, signatures and canonical messages are functions, tables are maps and sequences, transactions are serial, and the clock never runs backwards. A timestamp too large for a calendar date is not modelled.
- Ingest.IngestionService.RequestDeletion: when several batches of a tenant have the target id, which one the database returns first is an input.
- Tenants, nodes and credentials are enrolled by operations that are not modelled; authentication reads them from an arbitrary directory, which may change between calls.
- Roles, capability tokens, hourly rate limits, audit rows, per-package artifact rows, release notes and support cases: single guards or write-only rows.
- Release downloads, the rules that infer an artifact's kind, and blob stores that fail: the kind is an arbitrary function of the name, and a put always succeeds there.
- Staging in the blob store: the program writes a blob through a file of the same name with `.tmp` appended, so an artifact `x` uploaded after an artifact `x.tmp` removes the latter's blob; here a put changes one path only.
- ReleaseTheorems.RunKeeps: for runs in which no two releases share a directory; `Collisions` shows that it fails for any two that do.
- PublishTheorems.PublishIff: for such runs, for the same reason.
- ResearchTheorems.AcceptedBytesStay: not for runs in which two uploads of different contents share an object reference, which takes a collision of digests.
- A terminal "revoked" state: signing and publishing do not check for it, so there is none.
- The order in which the archive worker's query returns jobs is arbitrary; OAuth and the Drive client are outcomes of its writer.
