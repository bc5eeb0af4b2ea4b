// The motion half of the engine: every vehicle's travel along its path is integrated tick by tick,
// easing to stop lines at signals and to the stop targets of the hazards it brakes for.
module Motion {
  import opened Basics
  import opened Plane
  import opened Polyline

  const ACCEL := 2.5
  const DECEL := 3.5

  datatype Kind = Car | Truck | Pedestrian | Obstacle | Signal

  datatype Lane = Lane(y: real, direction: int)

  datatype Actor = Actor(
    id: Id,
    kind: Kind,
    path: Path,
    speed: real,            // cruise speed
    maneuvers: bool,        // whether it has any
    length: real,
    lane: Option<int>,
    startX: Option<real>,
    startY: Option<real>,
    affectsDir: int)

  datatype Scene = Scene(actors: seq<Actor>, lanes: seq<Lane>, gridLaneWidth: Option<real>)

  // math.dist and math.sqrt.
  datatype Geometry = Geometry(dist: Metric, root: real -> real)

  ghost predicate Rooted(root: real -> real, x: real) {
    x >= 0.0 ==> root(x) >= 0.0 && Sqr(root(x)) == x
  }

  ghost predicate IsGeometry(g: Geometry) {
    IsEuclidean(g.dist) && forall x {:trigger Rooted(g.root, x)} :: Rooted(g.root, x)
  }

  predicate IsVehicle(a: Actor) { a.kind == Car || a.kind == Truck }

  // Which way a vehicle travels along x.
  function VehDir(sc: Scene, v: Actor): int {
    if v.lane.Some? && 0 <= v.lane.value < |sc.lanes| then sc.lanes[v.lane.value].direction
    else if |v.path| >= 2 then (if v.path[|v.path| - 1].x >= v.path[0].x then 1 else -1)
    else 1
  }

  function SignalX(s: Actor): Option<real> {
    if s.startX.Some? then s.startX else if s.path != [] then Some(s.path[0].x) else None
  }

  function SignalY(sc: Scene, s: Actor): real {
    if s.startY.Some? then s.startY.value
    else if s.lane.Some? && 0 <= s.lane.value < |sc.lanes| then sc.lanes[s.lane.value].y
    else if s.path != [] then s.path[0].y
    else 0.0
  }

  function Gap(v: Actor): real { 3.0 + v.length / 2.0 }

  function OnPathTolerance(sc: Scene): real {
    if sc.gridLaneWidth.Some? then sc.gridLaneWidth.value * 2.2 else 6.0
  }

  // Whether the signal controls the vehicle's route at all.
  predicate Governs(g: Geometry, sc: Scene, s: Actor, v: Actor) {
    && s.kind == Signal
    && (sc.gridLaneWidth.Some? || s.affectsDir == 0 || s.affectsDir == VehDir(sc, v))
    && SignalX(s).Some?
    && ArclenOfPoint(g.dist, v.path, Point(SignalX(s).value, SignalY(sc, s))).1 <= OnPathTolerance(sc)
  }

  // Where the vehicle must stop for the signal, as an arc-length of its path.
  function StopLine(g: Geometry, sc: Scene, s: Actor, v: Actor): real
    requires SignalX(s).Some?
  {
    ArclenOfPoint(g.dist, v.path, Point(SignalX(s).value, SignalY(sc, s))).0 - Gap(v)
  }

  // The signal requires a stop and the vehicle has not passed its line by more than half a metre.
  predicate Catches(g: Geometry, sc: Scene, stops: set<nat>, i: nat, v: Actor, cur: real)
    requires i < |sc.actors|
  {
    i in stops && Governs(g, sc, sc.actors[i], v) && cur <= StopLine(g, sc, sc.actors[i], v) + 0.5
  }

  // The nearest stop line among the first n actors, and whether any signal holds the vehicle.
  function SignalCap(g: Geometry, sc: Scene, stops: set<nat>, v: Actor, cur: real, n: nat): (real, bool)
    requires n <= |sc.actors|
  {
    if n == 0 then (Total(g.dist, v.path), false)
    else
      var c := SignalCap(g, sc, stops, v, cur, n - 1);
      if Catches(g, sc, stops, n - 1, v, cur) then (Min(c.0, StopLine(g, sc, sc.actors[n - 1], v)), true) else c
  }

  datatype State = State(
    travel: map<Id, real>,
    speed: map<Id, real>,
    permStop: set<Id>,
    stopTarget: map<Id, real>,
    waiting: set<Id>)

  function Get(m: map<Id, real>, k: Id, default: real): real { if k in m then m[k] else default }

  // The arc-length the vehicle must not pass this tick, and whether a signal holds it.
  function Cap(g: Geometry, sc: Scene, st: State, stops: set<nat>, v: Actor): (real, bool) {
    var cur := Get(st.travel, v.id, 0.0);
    if v.id in st.permStop then (Min(Total(g.dist, v.path), Get(st.stopTarget, v.id, cur)), false)
    else SignalCap(g, sc, stops, v, cur, |sc.actors|)
  }

  function NextSpeed(g: Geometry, base: real, speed: real, room: real, dt: real): real {
    var toStop := Max(0.0, room);
    var limit := if toStop < 1e6 then g.root(2.0 * DECEL * toStop) else base;
    var target := Min(base, limit);
    Max(0.0, if target > speed then Min(target, speed + ACCEL * dt) else Max(target, speed - DECEL * dt))
  }

  predicate Parked(v: Actor) { v.speed <= 0.0 && !v.maneuvers }

  datatype Move = Move(travel: real, speed: real, waits: bool)

  // What one tick does to a vehicle that is not parked.
  function MoveOf(g: Geometry, sc: Scene, st: State, stops: set<nat>, dt: real, v: Actor): Move {
    var cur := Get(st.travel, v.id, 0.0);
    var cap := Cap(g, sc, st, stops, v);
    var speed := NextSpeed(g, v.speed, Get(st.speed, v.id, v.speed), cap.0 - cur, dt);
    Move(Min(Min(cur + Mul(speed, dt), cap.0), Total(g.dist, v.path)), speed, cap.1 && speed < 0.4)
  }

  function AdvanceOne(g: Geometry, sc: Scene, st: State, stops: set<nat>, dt: real, v: Actor): State {
    if !IsVehicle(v) || Parked(v) then st
    else
      var m := MoveOf(g, sc, st, stops, dt, v);
      st.(travel := st.travel[v.id := m.travel],
          speed := st.speed[v.id := m.speed],
          waiting := if m.waits then st.waiting + {v.id} else st.waiting)
  }

  function AdvanceFirst(g: Geometry, sc: Scene, st: State, stops: set<nat>, dt: real, n: nat): State
    requires n <= |sc.actors|
  {
    if n == 0 then st.(waiting := {})
    else AdvanceOne(g, sc, AdvanceFirst(g, sc, st, stops, dt, n - 1), stops, dt, sc.actors[n - 1])
  }

  function Advance(g: Geometry, sc: Scene, st: State, stops: set<nat>, dt: real): State {
    AdvanceFirst(g, sc, st, stops, dt, |sc.actors|)
  }

  // Braking for a hazard: commit to easing to a stop six metres before it.
  function HazardTarget(g: Geometry, sc: Scene, v: Actor, hazard: Option<Point>): Option<real> {
    if hazard.None? then None else ArclenOfX(g.dist, v.path, hazard.value.x - (VehDir(sc, v) as real) * 6.0)
  }

  function Commit(g: Geometry, sc: Scene, st: State, v: Actor, hazard: Option<Point>): State {
    var target := HazardTarget(g, sc, v, hazard);
    st.(permStop := st.permStop + {v.id},
        stopTarget := st.stopTarget[v.id := Max(Get(st.travel, v.id, 0.0), if target.Some? then target.value else 0.0)])
  }

  function InitialTravel(actors: seq<Actor>): map<Id, real> {
    if actors == [] then map[]
    else
      var m, a := InitialTravel(actors[..|actors| - 1]), actors[|actors| - 1];
      if IsVehicle(a) then m[a.id := 0.0] else m
  }

  function InitialSpeed(actors: seq<Actor>): map<Id, real> {
    if actors == [] then map[]
    else
      var m, a := InitialSpeed(actors[..|actors| - 1]), actors[|actors| - 1];
      if IsVehicle(a) then m[a.id := a.speed] else m
  }

  function Initial(sc: Scene): State {
    State(InitialTravel(sc.actors), InitialSpeed(sc.actors), {}, map[], {})
  }

  // -- the program's object -------------------------------------------------------------------------

  class Vehicles {
    const g: Geometry
    const sc: Scene

    var travel: map<Id, real>
    var speed: map<Id, real>
    var permStop: set<Id>
    var stopTarget: map<Id, real>
    var waiting: set<Id>

    ghost function St(): State
      reads this
    {
      State(travel, speed, permStop, stopTarget, waiting)
    }

    constructor (g: Geometry, sc: Scene)
      ensures this.g == g && this.sc == sc && St() == Initial(sc)
    {
      this.g, this.sc := g, sc;
      permStop, stopTarget, waiting := {}, map[], {};
      travel, speed := map[], map[];
      new;
      for i := 0 to |sc.actors|
        invariant travel == InitialTravel(sc.actors[..i]) && speed == InitialSpeed(sc.actors[..i])
        invariant permStop == {} && stopTarget == map[] && waiting == {}
      {
        var a := sc.actors[i];
        assert sc.actors[..i + 1][..i] == sc.actors[..i];
        if IsVehicle(a) {
          travel, speed := travel[a.id := 0.0], speed[a.id := a.speed];
        }
      }
      assert sc.actors[..|sc.actors|] == sc.actors;
    }

    // One tick of motion; stops are the signals that require a stop now.
    method AdvanceVehicles(stops: set<nat>, dt: real)
      modifies this
      ensures St() == Advance(g, sc, old(St()), stops, dt)
    {
      waiting := {};
      for i := 0 to |sc.actors|
        invariant St() == AdvanceFirst(g, sc, old(St()), stops, dt, i)
      {
        var v := sc.actors[i];
        if !IsVehicle(v) {
          continue;
        }
        if v.speed <= 0.0 && !v.maneuvers {
          continue;
        }
        Drive(v, stops, dt);
      }
    }

    method Drive(v: Actor, stops: set<nat>, dt: real)
      requires IsVehicle(v) && !Parked(v)
      modifies this
      ensures St() == AdvanceOne(g, sc, old(St()), stops, dt, v)
    {
      var total := PathLength(g.dist, v.path);
      var cur := Get(travel, v.id, 0.0);
      var s := Get(speed, v.id, v.speed);
      var cap, hold := FindCap(v, cur, total, stops);
      s := Ease(v.speed, s, cap - cur, dt);
      travel := travel[v.id := Min(Min(cur + Mul(s, dt), cap), total)];
      speed := speed[v.id := s];
      if hold && s < 0.4 {
        waiting := waiting + {v.id};
      }
    }

    // The arc-length the vehicle must not pass this tick, and whether a signal holds it.
    method FindCap(v: Actor, cur: real, total: real, stops: set<nat>) returns (cap: real, hold: bool)
      requires total == Total(g.dist, v.path) && cur == Get(travel, v.id, 0.0)
      ensures (cap, hold) == Cap(g, sc, St(), stops, v)
    {
      cap, hold := total, false;
      if v.id in permStop {
        cap := Min(cap, Get(stopTarget, v.id, cur));
      } else {
        cap, hold := NearestStop(v, cur, total, stops);
      }
    }

    // Gradual acceleration and braking, so that the vehicle can still stop within `room`.
    method Ease(base: real, speed: real, room: real, dt: real) returns (s: real)
      ensures s == NextSpeed(g, base, speed, room, dt)
    {
      s := speed;
      var toStop := Max(0.0, room);
      var limit := if toStop < 1e6 then g.root(2.0 * DECEL * toStop) else base;
      var target := Min(base, limit);
      if target > s {
        s := Min(target, s + ACCEL * dt);
      } else {
        s := Max(target, s - DECEL * dt);
      }
      s := Max(0.0, s);
    }

    method NearestStop(v: Actor, cur: real, total: real, stops: set<nat>) returns (cap: real, hold: bool)
      requires total == Total(g.dist, v.path)
      ensures (cap, hold) == SignalCap(g, sc, stops, v, cur, |sc.actors|)
    {
      cap, hold := total, false;
      for i := 0 to |sc.actors|
        invariant (cap, hold) == SignalCap(g, sc, stops, v, cur, i)
      {
        var sig := sc.actors[i];
        if sig.kind != Signal || i !in stops {
          continue;
        }
        if sc.gridLaneWidth.None? && sig.affectsDir != 0 && sig.affectsDir != VehDir(sc, v) {
          continue;
        }
        var sx, sy := SignalX(sig), SignalY(sc, sig);
        if sx.None? {
          continue;
        }
        var at, away := NearestArclen(g.dist, v.path, Point(sx.value, sy));
        if away > OnPathTolerance(sc) {
          continue;
        }
        var stopTravel := at - Gap(v);
        if cur <= stopTravel + 0.5 {
          cap, hold := Min(cap, stopTravel), true;
        }
      }
    }

    // The motion part of a braking decision.
    method CommitToStop(v: Actor, hazard: Option<Point>)
      modifies this
      ensures St() == Commit(g, sc, old(St()), v, hazard)
    {
      permStop := permStop + {v.id};
      var target: Option<real> := None;
      if hazard.Some? {
        target := FirstArclenOfX(g.dist, v.path, hazard.value.x - (VehDir(sc, v) as real) * 6.0);
      }
      stopTarget := stopTarget[v.id := Max(Get(travel, v.id, 0.0), if target.Some? then target.value else 0.0)];
    }
  }
}
