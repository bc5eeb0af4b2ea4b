// What the motion of every vehicle keeps over whole runs.
module MotionTheorems {
  import opened Basics
  import opened Plane
  import opened Polyline
  import opened Motion

  // The scenes the engine runs: actor ids are unique and nobody cruises backwards.
  ghost predicate IsScene(sc: Scene) {
    && (forall i, j :: 0 <= i < j < |sc.actors| ==> sc.actors[i].id != sc.actors[j].id)
    && (forall i :: 0 <= i < |sc.actors| && IsVehicle(sc.actors[i]) ==> sc.actors[i].speed >= 0.0)
  }

  // A car may be pulled back to a stop line that lies before the start of its path, by at most the
  // gap it keeps from the signal.
  ghost function Behind(v: Actor): real { Min(0.0, -Gap(v)) }

  ghost predicate VehicleOk(g: Geometry, st: State, v: Actor) {
    && v.id in st.travel && v.id in st.speed
    && 0.0 <= st.speed[v.id] <= v.speed
    && Behind(v) <= st.travel[v.id] <= Total(g.dist, v.path)
    && (v.id in st.permStop ==>
          v.id in st.stopTarget && 0.0 <= st.stopTarget[v.id] && st.travel[v.id] <= st.stopTarget[v.id])
  }

  ghost predicate Inv(g: Geometry, sc: Scene, st: State) {
    forall i {:trigger VehicleOk(g, st, sc.actors[i])} ::
      0 <= i < |sc.actors| && IsVehicle(sc.actors[i]) ==> VehicleOk(g, st, sc.actors[i])
  }

  // -- one vehicle, one tick --------------------------------------------------------------------

  lemma StopLineBound(g: Geometry, sc: Scene, s: Actor, v: Actor)
    requires IsGeometry(g) && SignalX(s).Some?
    ensures StopLine(g, sc, s, v) >= -Gap(v)
  {
    if |v.path| >= 2 {
      ArclenOfPointExact(g.dist, v.path, Point(SignalX(s).value, SignalY(sc, s)));
    }
  }

  lemma TotalNonNegative(g: Geometry, path: Path)
    requires IsGeometry(g)
    ensures Total(g.dist, path) >= 0.0
  {
    if path != [] {
      CumOrder(g.dist, path, 0, |path| - 1);
    }
  }

  // The nearest stop line is at most half a metre behind the car, and before every line that
  // catches it.
  lemma {:induction false} SignalCapFacts(g: Geometry, sc: Scene, stops: set<nat>, v: Actor, cur: real, n: nat)
    requires IsGeometry(g) && n <= |sc.actors| && cur <= Total(g.dist, v.path)
    ensures var c := SignalCap(g, sc, stops, v, cur, n);
      && cur - 0.5 <= c.0 <= Total(g.dist, v.path) && Behind(v) <= c.0
      && (c.1 <==> exists i :: 0 <= i < n && Catches(g, sc, stops, i, v, cur))
      && (|| c.0 == Total(g.dist, v.path)
          || exists i :: 0 <= i < n && Catches(g, sc, stops, i, v, cur) && c.0 == StopLine(g, sc, sc.actors[i], v))
      && (forall i {:trigger Catches(g, sc, stops, i, v, cur)} ::
            0 <= i < n && Catches(g, sc, stops, i, v, cur) ==> c.0 <= StopLine(g, sc, sc.actors[i], v))
  {
    TotalNonNegative(g, v.path);
    if n > 0 {
      SignalCapFacts(g, sc, stops, v, cur, n - 1);
      if Catches(g, sc, stops, n - 1, v, cur) {
        StopLineBound(g, sc, sc.actors[n - 1], v);
      }
    }
  }

  lemma NextSpeedFacts(g: Geometry, base: real, speed: real, room: real, dt: real)
    requires IsGeometry(g) && dt > 0.0 && 0.0 <= speed <= base
    ensures var s := NextSpeed(g, base, speed, room, dt);
      0.0 <= s <= base && speed - DECEL * dt <= s <= speed + ACCEL * dt
  {
    assert Rooted(g.root, 2.0 * DECEL * Max(0.0, room));
  }

  // Easing keeps the promise that the vehicle can stop within `room`: unless it brakes at the full
  // rate its speed is one it can stop from, and unless it accelerates at the full rate or cruises it
  // is no slower than that. With a thousand kilometres of room it does accelerate, or cruises.
  lemma EasesExactly(g: Geometry, base: real, speed: real, room: real, dt: real)
    requires IsGeometry(g) && dt > 0.0 && 0.0 <= speed <= base
    ensures var s, squared := NextSpeed(g, base, speed, room, dt), 7.0 * Max(0.0, room);
      && (room < 1e6 && s > speed - 3.5 * dt ==> Sqr(s) <= squared)
      && (room < 1e6 && s < speed + 2.5 * dt && s < base ==> Sqr(s) >= squared)
      && (room >= 1e6 ==> s == Min(base, speed + 2.5 * dt))
  {
    var s, limit := NextSpeed(g, base, speed, room, dt), g.root(2.0 * DECEL * Max(0.0, room));
    assert Rooted(g.root, 2.0 * DECEL * Max(0.0, room));
    NextSpeedFacts(g, base, speed, room, dt);
    SquareOrder(s, limit);
    SquareOrder(limit, s);
  }

  // r is the first arc-length at which the path has the x-coordinate x.
  ghost predicate FirstAt(g: Geometry, path: Path, r: real, x: real) {
    && 0.0 <= r <= Total(g.dist, path) && PosAt(g.dist, path, r).Some? && PosAt(g.dist, path, r).value.x == x
    && forall q :: 0.0 <= q < r ==> PosAt(g.dist, path, q).Some? && PosAt(g.dist, path, q).value.x != x
  }

  // The vehicle is headed this way along x: as its lane leads, and without a lane to the left exactly when
  // its path ends left of where it starts.
  predicate Leads(sc: Scene, v: Actor, d: int) {
    if v.lane.Some? && 0 <= v.lane.value < |sc.lanes| then d == sc.lanes[v.lane.value].direction
    else (d == 1 || d == -1) && (d == -1 <==> v.path != [] && v.path[|v.path| - 1].x < v.path[0].x)
  }

  // Where the path first has x-coordinate x, if that is beyond `here`, and else `here` itself.
  ghost predicate IsTarget(g: Geometry, path: Path, here: real, x: real, target: real) {
    && (target == here || (target > here && FirstAt(g, path, target, x)))
    && forall s :: s > here && FirstAt(g, path, s, x) ==> target == s
  }

  // The stop target of a hazard is where the path first comes within six metres before it along x, if that
  // is still ahead, and otherwise where the vehicle is (or the start of the path, if it is before it); so it
  // is when the hazard is nowhere. The vehicle counts as braked, and nothing else changes.
  lemma TargetIsBeforeHazard(g: Geometry, sc: Scene, st: State, v: Actor, hazard: Point, d: int)
    requires IsGeometry(g) && VehicleOk(g, st, v) && Leads(sc, v, d)
    ensures var here, x := Max(0.0, st.travel[v.id]), hazard.x - 6.0 * (d as real);
      var r := Commit(g, sc, st, v, Some(hazard));
      var target := Get(r.stopTarget, v.id, -1.0);
      && IsTarget(g, v.path, here, x, target)
      && r == st.(permStop := st.permStop + {v.id}, stopTarget := st.stopTarget[v.id := target])
    ensures Commit(g, sc, st, v, None) ==
      st.(permStop := st.permStop + {v.id}, stopTarget := st.stopTarget[v.id := Max(0.0, st.travel[v.id])])
  {
    var here, x := Max(0.0, st.travel[v.id]), hazard.x - 6.0 * (d as real);
    LeadsOneWay(sc, v, d);
    ArclenOfXExact(g.dist, v.path, x);
    forall r | r > here && FirstAt(g, v.path, r, x) ensures ArclenOfX(g.dist, v.path, x) == Some(r) {
      FirstIsFound(g, v.path, r, x);
    }
  }

  lemma LeadsOneWay(sc: Scene, v: Actor, d: int)
    ensures Leads(sc, v, d) <==> d == VehDir(sc, v)
  {
  }

  lemma FirstIsFound(g: Geometry, path: Path, r: real, x: real)
    requires IsGeometry(g) && r > 0.0 && FirstAt(g, path, r, x)
    ensures ArclenOfX(g.dist, path, x) == Some(r)
  {
    ArclenOfXExact(g.dist, path, x);
    var i, f := Locate(g.dist, path, 0, r);
    PosAtIsLerp(g.dist, path, i, f);
    LerpCovers(path[i], path[i + 1], f);
  }

  // One tick of one vehicle: bounded speed change, never beyond the path, the stop target or a stop
  // line that catches it, and never further back than half a metre.
  lemma MoveFacts(g: Geometry, sc: Scene, st: State, stops: set<nat>, dt: real, v: Actor)
    requires IsGeometry(g) && dt > 0.0 && v.speed >= 0.0 && VehicleOk(g, st, v)
    ensures var m := MoveOf(g, sc, st, stops, dt, v);
      var cur, speed := st.travel[v.id], st.speed[v.id];
      && 0.0 <= m.speed <= v.speed && speed - DECEL * dt <= m.speed <= speed + ACCEL * dt
      && Behind(v) <= m.travel <= Total(g.dist, v.path)
      && cur - 0.5 <= m.travel <= cur + Mul(m.speed, dt)
      && (v.id in st.permStop ==> cur <= m.travel <= st.stopTarget[v.id])
      && (v.id !in st.permStop ==> forall i {:trigger Catches(g, sc, stops, i, v, cur)} ::
            0 <= i < |sc.actors| && Catches(g, sc, stops, i, v, cur) ==> m.travel <= StopLine(g, sc, sc.actors[i], v))
      && (m.waits ==> v.id !in st.permStop && exists i :: 0 <= i < |sc.actors| && Catches(g, sc, stops, i, v, cur))
  {
    var cur, speed := st.travel[v.id], st.speed[v.id];
    var cap := Cap(g, sc, st, stops, v);
    NextSpeedFacts(g, v.speed, speed, cap.0 - cur, dt);
    ProductSign(NextSpeed(g, v.speed, speed, cap.0 - cur, dt), dt);
    TotalNonNegative(g, v.path);
    if v.id !in st.permStop {
      SignalCapFacts(g, sc, stops, v, cur, |sc.actors|);
    }
  }

  // A vehicle moves back exactly when it has not braked and a signal that stops it has its line behind
  // the vehicle (by no more than half a metre, or it would not catch it).
  lemma DrawnBackIff(g: Geometry, sc: Scene, st: State, stops: set<nat>, dt: real, v: Actor)
    requires IsGeometry(g) && dt > 0.0 && v.speed >= 0.0 && VehicleOk(g, st, v)
    ensures var cur := st.travel[v.id];
      MoveOf(g, sc, st, stops, dt, v).travel < cur <==>
        v.id !in st.permStop && exists i :: 0 <= i < |sc.actors| && Catches(g, sc, stops, i, v, cur)
                                      && StopLine(g, sc, sc.actors[i], v) < cur
  {
    var cur, speed := st.travel[v.id], st.speed[v.id];
    var cap := Cap(g, sc, st, stops, v);
    NextSpeedFacts(g, v.speed, speed, cap.0 - cur, dt);
    ProductSign(NextSpeed(g, v.speed, speed, cap.0 - cur, dt), dt);
    if v.id !in st.permStop {
      SignalCapFacts(g, sc, stops, v, cur, |sc.actors|);
    }
  }

  lemma TargetIsOnPath(g: Geometry, sc: Scene, v: Actor, hazard: Option<Point>)
    requires IsGeometry(g)
    ensures HazardTarget(g, sc, v, hazard).Some? ==>
      0.0 <= HazardTarget(g, sc, v, hazard).value <= Total(g.dist, v.path)
  {
    if hazard.Some? {
      ArclenOfXExact(g.dist, v.path, hazard.value.x - (VehDir(sc, v) as real) * 6.0);
    }
  }

  // -- all vehicles, one tick ---------------------------------------------------------------------

  // With unique ids a tick moves each vehicle once, from the state at the start of the tick.
  lemma {:induction false} EachMovesOnce(g: Geometry, sc: Scene, st: State, stops: set<nat>, dt: real, n: nat, k: nat)
    requires IsScene(sc) && n <= |sc.actors| && k < |sc.actors| && IsVehicle(sc.actors[k])
    requires sc.actors[k].id in st.travel && sc.actors[k].id in st.speed
    ensures var r := AdvanceFirst(g, sc, st, stops, dt, n);
      var v := sc.actors[k];
      && r.permStop == st.permStop && r.stopTarget == st.stopTarget
      && v.id in r.travel && v.id in r.speed
      && var moves := k < n && !Parked(v);
         var m := MoveOf(g, sc, st, stops, dt, v);
         && r.travel[v.id] == (if moves then m.travel else st.travel[v.id])
         && r.speed[v.id] == (if moves then m.speed else st.speed[v.id])
         && (v.id in r.waiting <==> moves && m.waits)
  {
    if n > 0 {
      EachMovesOnce(g, sc, st, stops, dt, n - 1, k);
      if k != n - 1 {
        assert sc.actors[k].id != sc.actors[n - 1].id;
      }
    }
  }

  lemma AdvanceKeeps(g: Geometry, sc: Scene, st: State, stops: set<nat>, dt: real)
    requires IsGeometry(g) && IsScene(sc) && dt > 0.0 && Inv(g, sc, st)
    ensures Inv(g, sc, Advance(g, sc, st, stops, dt))
  {
    var r := Advance(g, sc, st, stops, dt);
    forall k | 0 <= k < |sc.actors| && IsVehicle(sc.actors[k]) ensures VehicleOk(g, r, sc.actors[k]) {
      assert VehicleOk(g, st, sc.actors[k]);
      EachMovesOnce(g, sc, st, stops, dt, |sc.actors|, k);
      MoveFacts(g, sc, st, stops, dt, sc.actors[k]);
    }
  }

  lemma CommitKeeps(g: Geometry, sc: Scene, st: State, v: Actor, hazard: Option<Point>)
    requires IsGeometry(g) && Inv(g, sc, st)
    ensures Inv(g, sc, Commit(g, sc, st, v, hazard))
  {
    TargetIsOnPath(g, sc, v, hazard);
    var r := Commit(g, sc, st, v, hazard);
    forall k | 0 <= k < |sc.actors| && IsVehicle(sc.actors[k]) ensures VehicleOk(g, r, sc.actors[k]) {
      assert VehicleOk(g, st, sc.actors[k]);
    }
  }

  // -- runs -------------------------------------------------------------------------------------------

  // One tick of motion: the braking decisions of the tick, then the vehicles advance.
  datatype Tick = Tick(commits: seq<(Actor, Option<Point>)>, stops: set<nat>)

  ghost function Commits(g: Geometry, sc: Scene, st: State, cs: seq<(Actor, Option<Point>)>): State {
    if cs == [] then st
    else Commit(g, sc, Commits(g, sc, st, cs[..|cs| - 1]), cs[|cs| - 1].0, cs[|cs| - 1].1)
  }

  // The state after n ticks.
  ghost function After(g: Geometry, sc: Scene, dt: real, ticks: seq<Tick>, n: nat): State
    requires n <= |ticks|
    decreases n, 0
  {
    if n == 0 then Initial(sc)
    else Advance(g, sc, Decided(g, sc, dt, ticks, n - 1), ticks[n - 1].stops, dt)
  }

  // The state of tick n between its decisions and its motion.
  ghost function Decided(g: Geometry, sc: Scene, dt: real, ticks: seq<Tick>, n: nat): State
    requires n < |ticks|
    decreases n, 1
  {
    Commits(g, sc, After(g, sc, dt, ticks, n), ticks[n].commits)
  }

  lemma {:induction false} CommitsKeep(g: Geometry, sc: Scene, st: State, cs: seq<(Actor, Option<Point>)>)
    requires IsGeometry(g) && Inv(g, sc, st)
    ensures Inv(g, sc, Commits(g, sc, st, cs))
    ensures Commits(g, sc, st, cs).travel == st.travel && Commits(g, sc, st, cs).speed == st.speed
    ensures st.permStop <= Commits(g, sc, st, cs).permStop
  {
    if cs != [] {
      CommitsKeep(g, sc, st, cs[..|cs| - 1]);
      CommitKeeps(g, sc, Commits(g, sc, st, cs[..|cs| - 1]), cs[|cs| - 1].0, cs[|cs| - 1].1);
    }
  }

  lemma {:induction false} InitialValues(actors: seq<Actor>, k: nat)
    requires k < |actors| && IsVehicle(actors[k])
    requires forall i, j :: 0 <= i < j < |actors| ==> actors[i].id != actors[j].id
    ensures actors[k].id in InitialTravel(actors) && InitialTravel(actors)[actors[k].id] == 0.0
    ensures actors[k].id in InitialSpeed(actors) && InitialSpeed(actors)[actors[k].id] == actors[k].speed
  {
    if k < |actors| - 1 {
      InitialValues(actors[..|actors| - 1], k);
      assert actors[k].id != actors[|actors| - 1].id;
    }
  }

  lemma {:induction false} RunKeeps(g: Geometry, sc: Scene, dt: real, ticks: seq<Tick>, n: nat)
    requires IsGeometry(g) && IsScene(sc) && dt > 0.0 && n <= |ticks|
    ensures Inv(g, sc, After(g, sc, dt, ticks, n))
    ensures n < |ticks| ==> Inv(g, sc, Decided(g, sc, dt, ticks, n))
  {
    if n == 0 {
      forall k | 0 <= k < |sc.actors| && IsVehicle(sc.actors[k]) ensures VehicleOk(g, Initial(sc), sc.actors[k]) {
        InitialValues(sc.actors, k);
        TotalNonNegative(g, sc.actors[k].path);
      }
    } else {
      RunKeeps(g, sc, dt, ticks, n - 1);
      AdvanceKeeps(g, sc, Decided(g, sc, dt, ticks, n - 1), ticks[n - 1].stops, dt);
    }
    if n < |ticks| {
      CommitsKeep(g, sc, After(g, sc, dt, ticks, n), ticks[n].commits);
    }
  }

  // Every tick of every run: how a vehicle's speed and travel may change.
  lemma TickOfRun(g: Geometry, sc: Scene, dt: real, ticks: seq<Tick>, n: nat, k: nat)
    requires IsGeometry(g) && IsScene(sc) && dt > 0.0 && n < |ticks| && k < |sc.actors| && IsVehicle(sc.actors[k])
    ensures var v := sc.actors[k];
      var was, dec, now := After(g, sc, dt, ticks, n), Decided(g, sc, dt, ticks, n), After(g, sc, dt, ticks, n + 1);
      && VehicleOk(g, was, v) && VehicleOk(g, dec, v) && VehicleOk(g, now, v)
      && dec.travel == was.travel && dec.speed == was.speed
      && was.speed[v.id] - DECEL * dt <= now.speed[v.id] <= was.speed[v.id] + ACCEL * dt
      && was.travel[v.id] - 0.5 <= now.travel[v.id] <= was.travel[v.id] + Mul(now.speed[v.id], dt)
      && now.permStop == dec.permStop && now.stopTarget == dec.stopTarget
      && (v.id in dec.permStop ==> was.travel[v.id] <= now.travel[v.id] <= dec.stopTarget[v.id])
      && (v.id !in dec.permStop && !Parked(v) ==>
            forall i {:trigger Catches(g, sc, ticks[n].stops, i, v, was.travel[v.id])} ::
              0 <= i < |sc.actors| && Catches(g, sc, ticks[n].stops, i, v, was.travel[v.id]) ==>
                now.travel[v.id] <= StopLine(g, sc, sc.actors[i], v))
  {
    var v := sc.actors[k];
    var was, dec := After(g, sc, dt, ticks, n), Decided(g, sc, dt, ticks, n);
    RunKeeps(g, sc, dt, ticks, n);
    RunKeeps(g, sc, dt, ticks, n + 1);
    CommitsKeep(g, sc, was, ticks[n].commits);
    assert VehicleOk(g, was, v) && VehicleOk(g, dec, v) && VehicleOk(g, After(g, sc, dt, ticks, n + 1), v);
    EachMovesOnce(g, sc, dec, ticks[n].stops, dt, |sc.actors|, k);
    MoveFacts(g, sc, dec, ticks[n].stops, dt, v);
    ProductSign(was.speed[v.id], dt);
  }

  // Once braked a vehicle stays braked and only ever moves forward, never past its current target.
  lemma {:induction false} BrakedForGood(g: Geometry, sc: Scene, dt: real, ticks: seq<Tick>, n: nat, m: nat, k: nat)
    requires IsGeometry(g) && IsScene(sc) && dt > 0.0 && n <= m <= |ticks| && k < |sc.actors| && IsVehicle(sc.actors[k])
    requires sc.actors[k].id in After(g, sc, dt, ticks, n).permStop
    ensures var v := sc.actors[k];
      var was, now := After(g, sc, dt, ticks, n), After(g, sc, dt, ticks, m);
      && VehicleOk(g, was, v) && VehicleOk(g, now, v)
      && v.id in now.permStop
      && was.travel[v.id] <= now.travel[v.id] <= now.stopTarget[v.id]
  {
    RunKeeps(g, sc, dt, ticks, m);
    assert VehicleOk(g, After(g, sc, dt, ticks, m), sc.actors[k]);
    if n < m {
      BrakedForGood(g, sc, dt, ticks, n, m - 1, k);
      TickOfRun(g, sc, dt, ticks, m - 1, k);
      RunKeeps(g, sc, dt, ticks, m - 1);
      CommitsKeep(g, sc, After(g, sc, dt, ticks, m - 1), ticks[m - 1].commits);
    }
  }

  // A signal that catches a vehicle holds it at or before its stop line for as long as the signal
  // requires a stop and the vehicle does not brake for a hazard.
  lemma {:induction false} SignalHolds(g: Geometry, sc: Scene, dt: real, ticks: seq<Tick>, n: nat, m: nat, k: nat,
                                       i: nat)
    requires IsGeometry(g) && IsScene(sc) && dt > 0.0 && n < m <= |ticks|
    requires k < |sc.actors| && IsVehicle(sc.actors[k]) && !Parked(sc.actors[k]) && i < |sc.actors|
    requires var v := sc.actors[k];
      Catches(g, sc, ticks[n].stops, i, v, Get(After(g, sc, dt, ticks, n).travel, v.id, 0.0))
    requires forall j :: n <= j < m ==> i in ticks[j].stops
    requires forall j {:trigger Decided(g, sc, dt, ticks, j)} ::
      n <= j < m ==> sc.actors[k].id !in Decided(g, sc, dt, ticks, j).permStop
    ensures Get(After(g, sc, dt, ticks, m).travel, sc.actors[k].id, 0.0) <= StopLine(g, sc, sc.actors[i], sc.actors[k])
  {
    var v := sc.actors[k];
    if n < m - 1 {
      SignalHolds(g, sc, dt, ticks, n, m - 1, k, i);
    }
    TickOfRun(g, sc, dt, ticks, m - 1, k);
    var was := After(g, sc, dt, ticks, m - 1);
    assert i in ticks[m - 1].stops;
    assert Catches(g, sc, ticks[m - 1].stops, i, v, was.travel[v.id]);
  }

  // Where a vehicle is drawn.
  ghost function PositionOf(g: Geometry, st: State, v: Actor): Option<Point> {
    PosAt(g.dist, v.path, Get(st.travel, v.id, 0.0))
  }

  // With negative travel a vehicle is drawn at the start of its path.
  lemma DrawnAtStart(g: Geometry, st: State, v: Actor)
    requires IsGeometry(g) && v.path != [] && Get(st.travel, v.id, 0.0) <= 0.0
    ensures PositionOf(g, st, v) == Some(v.path[0])
  {
    if |v.path| > 1 {
      PosAtIsLerp(g.dist, v.path, 0, 0.0);
      assert Mul(0.0, Seg(g.dist, v.path, 0)) == 0.0;
    }
  }

  // In consecutive frames a vehicle's positions are at most the distance of its speed apart, or the
  // half metre it may be pulled back to a stop line.
  lemma FramesAreClose(g: Geometry, sc: Scene, dt: real, ticks: seq<Tick>, n: nat, k: nat)
    requires IsGeometry(g) && IsScene(sc) && dt > 0.0 && n < |ticks|
    requires k < |sc.actors| && IsVehicle(sc.actors[k]) && sc.actors[k].path != []
    ensures var v := sc.actors[k];
      var was, now := After(g, sc, dt, ticks, n), After(g, sc, dt, ticks, n + 1);
      g.dist(PositionOf(g, was, v).value, PositionOf(g, now, v).value) <= Max(Mul(Get(now.speed, v.id, 0.0), dt), 0.5)
  {
    var v := sc.actors[k];
    TickOfRun(g, sc, dt, ticks, n, k);
    PosAtLipschitz(g.dist, v.path, After(g, sc, dt, ticks, n).travel[v.id],
                   After(g, sc, dt, ticks, n + 1).travel[v.id]);
  }

  // -- a second hazard may release the first stop ---------------------------------------------------

  // v rests where it braked.
  ghost predicate Rests(g: Geometry, st: State, v: Actor) {
    VehicleOk(g, st, v) && v.id in st.permStop && st.speed[v.id] == 0.0 && st.travel[v.id] == st.stopTarget[v.id]
  }

  // The last of the decisions that is about the vehicle.
  function LastFor(cs: seq<(Actor, Option<Point>)>, id: Id): (last: Option<(Actor, Option<Point>)>)
    ensures last.Some? ==> last.value in cs && last.value.0.id == id
    ensures last.None? ==> forall c :: c in cs ==> c.0.id != id
  {
    if cs == [] then None
    else if cs[|cs| - 1].0.id == id then Some(cs[|cs| - 1])
    else LastFor(cs[..|cs| - 1], id)
  }

  // The last decision about v is for a hazard whose stop target lies beyond `limit`.
  ghost predicate LeadsBeyond(g: Geometry, sc: Scene, v: Actor, cs: seq<(Actor, Option<Point>)>, limit: real) {
    var last := LastFor(cs, v.id);
    last.Some? && var target := HazardTarget(g, sc, last.value.0, last.value.1); target.Some? && target.value > limit
  }

  // The decisions are about the scene's own vehicle, not another one of its id.
  ghost predicate OfScene(v: Actor, cs: seq<(Actor, Option<Point>)>) {
    forall c :: c in cs && c.0.id == v.id ==> c.0 == v
  }

  // Of several decisions about one vehicle in a tick only the last one counts.
  lemma {:induction false} LastDecides(g: Geometry, sc: Scene, st: State, cs: seq<(Actor, Option<Point>)>, id: Id)
    ensures var r, last := Commits(g, sc, st, cs), LastFor(cs, id);
      && r.travel == st.travel && r.speed == st.speed
      && (id in r.permStop <==> id in st.permStop || last.Some?)
      && (last.None? ==> (id in r.stopTarget <==> id in st.stopTarget))
      && (last.None? && id in st.stopTarget ==> r.stopTarget[id] == st.stopTarget[id])
      && (last.Some? ==>
            id in r.stopTarget && var target := HazardTarget(g, sc, last.value.0, last.value.1);
            r.stopTarget[id] == Max(Get(st.travel, id, 0.0), if target.Some? then target.value else 0.0))
  {
    if cs != [] {
      LastDecides(g, sc, st, cs[..|cs| - 1], id);
    }
  }

  // A car that has come to rest at its stop target drives on after the decisions of a tick exactly when
  // the last of those about it is for a hazard whose target lies beyond (and it has a cruise speed at all).
  lemma DrivesOnIff(g: Geometry, sc: Scene, st: State, cs: seq<(Actor, Option<Point>)>, stops: set<nat>, dt: real,
                    v: Actor)
    requires IsGeometry(g) && dt > 0.0 && v.speed >= 0.0 && Rests(g, st, v) && OfScene(v, cs)
    ensures MoveOf(g, sc, Commits(g, sc, st, cs), stops, dt, v).travel > st.stopTarget[v.id] <==>
              v.speed > 0.0 && LeadsBeyond(g, sc, v, cs, st.stopTarget[v.id])
  {
    var committed := Commits(g, sc, st, cs);
    LastDecides(g, sc, st, cs, v.id);
    if LeadsBeyond(g, sc, v, cs, st.stopTarget[v.id]) {
      TargetIsOnPath(g, sc, v, LastFor(cs, v.id).value.1);
    }
    var cur := st.travel[v.id];
    var cap := Cap(g, sc, committed, stops, v).0;
    if v.speed > 0.0 && cap > cur {
      PullsAway(g, v.speed, cap - cur, dt);
      ProductSign(NextSpeed(g, v.speed, 0.0, cap - cur, dt), dt);
    }
    assert v.speed == 0.0 ==> Mul(NextSpeed(g, v.speed, 0.0, cap - cur, dt), dt) == 0.0 by {
      NextSpeedFacts(g, v.speed, 0.0, cap - cur, dt);
    }
  }

  // With room ahead a resting vehicle accelerates.
  lemma PullsAway(g: Geometry, base: real, room: real, dt: real)
    requires IsGeometry(g) && base > 0.0 && room > 0.0 && dt > 0.0
    ensures NextSpeed(g, base, 0.0, room, dt) > 0.0 && Pace(g, base, room, dt) > 0.0
  {
    var squared := 2.0 * DECEL * room;
    assert Rooted(g.root, squared);
    SquareSign(g.root(squared));
  }

  function TravelOf(st: State, v: Actor): real { Get(st.travel, v.id, 0.0) }

  // The vehicle has braked for a target no farther than `limit`.
  ghost predicate BrakedWithin(g: Geometry, st: State, v: Actor, limit: real) {
    VehicleOk(g, st, v) && v.id in st.permStop && st.stopTarget[v.id] <= limit
  }

  lemma CommitsKeepWithinIff(g: Geometry, sc: Scene, st: State, cs: seq<(Actor, Option<Point>)>, v: Actor, limit: real)
    requires IsGeometry(g) && BrakedWithin(g, st, v, limit) && VehicleOk(g, Commits(g, sc, st, cs), v)
    ensures BrakedWithin(g, Commits(g, sc, st, cs), v, limit) <==> !LeadsBeyond(g, sc, v, cs, limit)
  {
    LastDecides(g, sc, st, cs, v.id);
  }

  lemma TickKeepsWithinIff(g: Geometry, sc: Scene, dt: real, ticks: seq<Tick>, n: nat, k: nat, limit: real)
    requires IsGeometry(g) && IsScene(sc) && dt > 0.0 && n < |ticks| && k < |sc.actors| && IsVehicle(sc.actors[k])
    requires BrakedWithin(g, After(g, sc, dt, ticks, n), sc.actors[k], limit)
    ensures var v, dec := sc.actors[k], Decided(g, sc, dt, ticks, n);
      && (BrakedWithin(g, dec, v, limit) <==> !LeadsBeyond(g, sc, v, ticks[n].commits, limit))
      && (BrakedWithin(g, dec, v, limit) ==> BrakedWithin(g, After(g, sc, dt, ticks, n + 1), v, limit))
  {
    TickOfRun(g, sc, dt, ticks, n, k);
    CommitsKeepWithinIff(g, sc, After(g, sc, dt, ticks, n), ticks[n].commits, sc.actors[k], limit);
  }

  ghost predicate NeverLedBeyond(g: Geometry, sc: Scene, v: Actor, ticks: seq<Tick>, n: nat, m: nat, limit: real)
    requires n <= m <= |ticks|
  {
    forall j :: n <= j < m ==> !LeadsBeyond(g, sc, v, ticks[j].commits, limit)
  }

  // A braked vehicle never passes a limit that its target is within, as long as no tick's last decision
  // about it is for a target beyond the limit.
  lemma {:induction false} StaysWithin(g: Geometry, sc: Scene, dt: real, ticks: seq<Tick>, n: nat, m: nat, k: nat,
                                       limit: real)
    requires IsGeometry(g) && IsScene(sc) && dt > 0.0 && n <= m <= |ticks| && k < |sc.actors| && IsVehicle(sc.actors[k])
    requires BrakedWithin(g, After(g, sc, dt, ticks, n), sc.actors[k], limit)
    requires NeverLedBeyond(g, sc, sc.actors[k], ticks, n, m, limit)
    ensures BrakedWithin(g, After(g, sc, dt, ticks, m), sc.actors[k], limit)
    ensures TravelOf(After(g, sc, dt, ticks, m), sc.actors[k]) <= limit
  {
    if n < m {
      StaysWithin(g, sc, dt, ticks, n, m - 1, k, limit);
      TickKeepsWithinIff(g, sc, dt, ticks, m - 1, k, limit);
    }
  }

  // And its target stays within the limit exactly as long as there is no such decision.
  lemma StaysWithinIff(g: Geometry, sc: Scene, dt: real, ticks: seq<Tick>, n: nat, m: nat, k: nat, limit: real)
    requires IsGeometry(g) && IsScene(sc) && dt > 0.0 && n <= m <= |ticks| && k < |sc.actors| && IsVehicle(sc.actors[k])
    requires BrakedWithin(g, After(g, sc, dt, ticks, n), sc.actors[k], limit)
    ensures (forall j :: n <= j < m ==> BrakedWithin(g, Decided(g, sc, dt, ticks, j), sc.actors[k], limit)) <==>
              NeverLedBeyond(g, sc, sc.actors[k], ticks, n, m, limit)
  {
    var v := sc.actors[k];
    if NeverLedBeyond(g, sc, v, ticks, n, m, limit) {
      forall j | n <= j < m ensures BrakedWithin(g, Decided(g, sc, dt, ticks, j), v, limit) {
        StaysWithin(g, sc, dt, ticks, n, j, k, limit);
        TickKeepsWithinIff(g, sc, dt, ticks, j, k, limit);
      }
    } else {
      var j :| n <= j < m && LeadsBeyond(g, sc, v, ticks[j].commits, limit);
      LastDecides(g, sc, After(g, sc, dt, ticks, j), ticks[j].commits, v.id);
      assert !BrakedWithin(g, Decided(g, sc, dt, ticks, j), v, limit);
    }
  }

  // The least speed after a tick of a vehicle that has at least this room to its target.
  function Pace(g: Geometry, base: real, room: real, dt: real): real {
    Min(Min(base, g.root(2.0 * DECEL * room)), ACCEL * dt)
  }

  lemma KeepsPace(g: Geometry, base: real, speed: real, least: real, room: real, dt: real)
    requires IsGeometry(g) && dt > 0.0 && 0.0 <= speed <= base && 0.0 < least <= room
    ensures NextSpeed(g, base, speed, room, dt) >= Pace(g, base, least, dt)
  {
    assert Rooted(g.root, 2.0 * DECEL * room) && Rooted(g.root, 2.0 * DECEL * least);
    SquareOrder(g.root(2.0 * DECEL * least), g.root(2.0 * DECEL * room));
  }

  lemma Farther(a: real, b: real, dt: real)
    requires a <= b && dt > 0.0
    ensures Mul(a, dt) <= Mul(b, dt)
  {
    ProductSign(b - a, dt);
    assert Mul(b, dt) - Mul(a, dt) == Mul(b - a, dt);
  }

  // Braked for a target beyond `limit` the vehicle passes the limit or keeps its pace.
  lemma MakesWay(g: Geometry, sc: Scene, st: State, stops: set<nat>, dt: real, v: Actor, target: real, limit: real)
    requires IsGeometry(g) && dt > 0.0 && v.speed > 0.0 && VehicleOk(g, st, v) && v.id in st.permStop
    requires limit < target <= Total(g.dist, v.path) && target <= st.stopTarget[v.id]
    ensures var m := MoveOf(g, sc, st, stops, dt, v).travel;
      m > limit || m >= st.travel[v.id] + Mul(Pace(g, v.speed, target - limit, dt), dt)
  {
    var cur, cap := st.travel[v.id], Cap(g, sc, st, stops, v).0;
    var speed := NextSpeed(g, v.speed, st.speed[v.id], cap - cur, dt);
    assert target <= cap <= Total(g.dist, v.path);
    if cur <= limit {
      KeepsPace(g, v.speed, st.speed[v.id], target - limit, cap - cur, dt);
      Farther(Pace(g, v.speed, target - limit, dt), speed, dt);
    } else {
      NextSpeedFacts(g, v.speed, st.speed[v.id], cap - cur, dt);
      ProductSign(speed, dt);
    }
  }

  // The vehicle has braked for a target at least this far.
  ghost predicate HeadsFor(g: Geometry, st: State, v: Actor, target: real) {
    VehicleOk(g, st, v) && v.id in st.permStop && target <= st.stopTarget[v.id]
  }

  lemma DecisionHeadsFor(g: Geometry, sc: Scene, st: State, cs: seq<(Actor, Option<Point>)>, v: Actor, limit: real)
    requires IsGeometry(g) && VehicleOk(g, st, v) && VehicleOk(g, Commits(g, sc, st, cs), v)
    requires OfScene(v, cs) && LeadsBeyond(g, sc, v, cs, limit)
    ensures var target := HazardTarget(g, sc, v, LastFor(cs, v.id).value.1).value;
      HeadsFor(g, Commits(g, sc, st, cs), v, target) && target <= Total(g.dist, v.path)
  {
    LastDecides(g, sc, st, cs, v.id);
    TargetIsOnPath(g, sc, v, LastFor(cs, v.id).value.1);
  }

  lemma {:induction false} KeepsHeading(g: Geometry, sc: Scene, dt: real, ticks: seq<Tick>, n: nat, m: nat, k: nat,
                                        target: real)
    requires IsGeometry(g) && IsScene(sc) && dt > 0.0 && n <= m < |ticks| && k < |sc.actors| && IsVehicle(sc.actors[k])
    requires HeadsFor(g, Decided(g, sc, dt, ticks, n), sc.actors[k], target)
    requires forall j :: n < j <= m ==> LastFor(ticks[j].commits, sc.actors[k].id).None?
    ensures HeadsFor(g, Decided(g, sc, dt, ticks, m), sc.actors[k], target)
  {
    if n < m {
      KeepsHeading(g, sc, dt, ticks, n, m - 1, k, target);
      TickOfRun(g, sc, dt, ticks, m - 1, k);
      TickOfRun(g, sc, dt, ticks, m, k);
      LastDecides(g, sc, After(g, sc, dt, ticks, m), ticks[m].commits, sc.actors[k].id);
    }
  }

  // One tick of that.
  lemma PassesOrGains(g: Geometry, sc: Scene, dt: real, ticks: seq<Tick>, n: nat, k: nat, target: real, limit: real)
    requires IsGeometry(g) && IsScene(sc) && dt > 0.0 && n < |ticks| && k < |sc.actors| && IsVehicle(sc.actors[k])
    requires HeadsFor(g, Decided(g, sc, dt, ticks, n), sc.actors[k], target)
    requires sc.actors[k].speed > 0.0 && limit < target <= Total(g.dist, sc.actors[k].path)
    ensures var v := sc.actors[k];
      var was, now := TravelOf(After(g, sc, dt, ticks, n), v), TravelOf(After(g, sc, dt, ticks, n + 1), v);
      now >= was && (now > limit || now >= was + Mul(Pace(g, v.speed, target - limit, dt), dt))
  {
    var v, st := sc.actors[k], Decided(g, sc, dt, ticks, n);
    TickOfRun(g, sc, dt, ticks, n, k);
    MakesWay(g, sc, st, ticks[n].stops, dt, v, target, limit);
    EachMovesOnce(g, sc, st, ticks[n].stops, dt, |sc.actors|, k);
  }

  lemma {:induction false} PassesOrKeepsPace(g: Geometry, sc: Scene, dt: real, ticks: seq<Tick>, n: nat, m: nat, k: nat,
                                             target: real, limit: real)
    requires IsGeometry(g) && IsScene(sc) && dt > 0.0 && n < m <= |ticks| && k < |sc.actors| && IsVehicle(sc.actors[k])
    requires HeadsFor(g, Decided(g, sc, dt, ticks, n), sc.actors[k], target)
    requires forall j :: n < j < m ==> LastFor(ticks[j].commits, sc.actors[k].id).None?
    requires sc.actors[k].speed > 0.0 && limit < target <= Total(g.dist, sc.actors[k].path)
    ensures var v, gain := sc.actors[k], Mul(Pace(g, sc.actors[k].speed, target - limit, dt), dt);
      var was, now := TravelOf(After(g, sc, dt, ticks, n), v), TravelOf(After(g, sc, dt, ticks, m), v);
      now > limit || now >= was + Mul((m - n) as real, gain)
  {
    KeepsHeading(g, sc, dt, ticks, n, m - 1, k, target);
    PassesOrGains(g, sc, dt, ticks, m - 1, k, target, limit);
    TimesMore(m - 1 - n, Mul(Pace(g, sc.actors[k].speed, target - limit, dt), dt));
    if n < m - 1 {
      PassesOrKeepsPace(g, sc, dt, ticks, n, m - 1, k, target, limit);
    }
  }

  lemma TimesMore(k: nat, x: real)
    ensures Mul((k + 1) as real, x) == Mul(k as real, x) + x && Mul(0 as real, x) == 0.0
  {
  }

  // A vehicle whose last decision of a tick is for a target beyond `limit`, and about which nothing is
  // decided afterwards, passes the limit: until it has, it gains a fixed distance in every tick.
  lemma PassesInTime(g: Geometry, sc: Scene, dt: real, ticks: seq<Tick>, n: nat, m: nat, k: nat, limit: real)
    requires IsGeometry(g) && IsScene(sc) && dt > 0.0 && n < m <= |ticks| && k < |sc.actors| && IsVehicle(sc.actors[k])
    requires sc.actors[k].speed > 0.0 && OfScene(sc.actors[k], ticks[n].commits)
    requires LeadsBeyond(g, sc, sc.actors[k], ticks[n].commits, limit)
    requires forall j :: n < j < m ==> LastFor(ticks[j].commits, sc.actors[k].id).None?
    ensures var v := sc.actors[k];
      var room := HazardTarget(g, sc, v, LastFor(ticks[n].commits, v.id).value.1).value - limit;
      var was, now := TravelOf(After(g, sc, dt, ticks, n), v), TravelOf(After(g, sc, dt, ticks, m), v);
      && Mul(Pace(g, v.speed, room, dt), dt) > 0.0
      && (now > limit || now >= was + Mul((m - n) as real, Mul(Pace(g, v.speed, room, dt), dt)))
  {
    var v := sc.actors[k];
    var target := HazardTarget(g, sc, v, LastFor(ticks[n].commits, v.id).value.1).value;
    TickOfRun(g, sc, dt, ticks, n, k);
    DecisionHeadsFor(g, sc, After(g, sc, dt, ticks, n), ticks[n].commits, v, limit);
    PassesOrKeepsPace(g, sc, dt, ticks, n, m, k, target, limit);
    PullsAway(g, v.speed, target - limit, dt);
    ProductSign(Pace(g, v.speed, target - limit, dt), dt);
  }
}
