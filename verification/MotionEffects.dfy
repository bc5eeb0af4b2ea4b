// What one tick makes of a vehicle, said from the scene alone: which signals hold it, how far it may go, how
// fast it then drives, and that it stops short of the hazard it brakes for.
module MotionEffects {
  import opened Basics
  import opened Plane
  import opened Polyline
  import opened Motion
  import opened MotionTheorems

  // -- which signals hold a vehicle -----------------------------------------------------------------

  // A signal stands where it is put; without an x, or a y, of its own at the start of its path, and on the
  // line of its lane if it has one.
  predicate StandsAt(sc: Scene, s: Actor, p: Point) {
    && (if s.startX.Some? then p.x == s.startX.value else s.path != [] && p.x == s.path[0].x)
    && (if s.startY.Some? then p.y == s.startY.value
        else if s.lane.Some? && 0 <= s.lane.value < |sc.lanes| then p.y == sc.lanes[s.lane.value].y
        else p.y == if s.path != [] then s.path[0].y else 0.0)
  }

  // It concerns the vehicle: in a city any signal does, on a road one for both directions or for the vehicle's.
  predicate Concerns(sc: Scene, s: Actor, v: Actor) {
    s.kind == Signal && (sc.gridLaneWidth.Some? || s.affectsDir == 0 || Leads(sc, v, s.affectsDir))
  }

  // The vehicle's front, half its length ahead of it, is to stop three metres before the signal.
  function FrontAt(v: Actor, cur: real): real { cur + v.length / 2.0 }

  // Standing at p the signal, which is not green, holds the vehicle: its route comes near enough to p, and the
  // vehicle is not more than half a metre beyond the place to stop.
  ghost predicate HoldsAt(g: Geometry, sc: Scene, v: Actor, cur: real, p: Point) {
    var (at, away) := ArclenOfPoint(g.dist, v.path, p);
    && away <= (if sc.gridLaneWidth.Some? then 2.2 * sc.gridLaneWidth.value else 6.0)
    && FrontAt(v, cur) <= at - 2.5
  }

  ghost predicate Holds(g: Geometry, sc: Scene, stops: set<nat>, i: int, v: Actor, cur: real) {
    && 0 <= i < |sc.actors| && i in stops && Concerns(sc, sc.actors[i], v)
    && exists p :: StandsAt(sc, sc.actors[i], p) && HoldsAt(g, sc, v, cur, p)
  }

  // Where the vehicle is when it stops for signal i.
  ghost predicate IsLine(g: Geometry, sc: Scene, i: int, v: Actor, line: real) {
    && 0 <= i < |sc.actors|
    && exists p :: StandsAt(sc, sc.actors[i], p) && FrontAt(v, line) == ArclenOfPoint(g.dist, v.path, p).0 - 3.0
  }

  lemma PlaceOf(sc: Scene, s: Actor, p: Point)
    ensures StandsAt(sc, s, p) <==> SignalX(s) == Some(p.x) && SignalY(sc, s) == p.y
  {
  }

  lemma HoldsIff(g: Geometry, sc: Scene, stops: set<nat>, i: nat, v: Actor, cur: real)
    requires i < |sc.actors|
    ensures Holds(g, sc, stops, i, v, cur) <==> Catches(g, sc, stops, i, v, cur)
    ensures Holds(g, sc, stops, i, v, cur) ==> IsLine(g, sc, i, v, StopLine(g, sc, sc.actors[i], v))
  {
    var s := sc.actors[i];
    LeadsOneWay(sc, v, s.affectsDir);
    forall p ensures StandsAt(sc, s, p) <==> SignalX(s) == Some(p.x) && SignalY(sc, s) == p.y {
      PlaceOf(sc, s, p);
    }
    if SignalX(s).Some? {
      var p := Point(SignalX(s).value, SignalY(sc, s));
      assert StandsAt(sc, s, p);
    }
  }

  lemma LineIsUnique(g: Geometry, sc: Scene, i: nat, v: Actor, line: real)
    requires i < |sc.actors| && IsLine(g, sc, i, v, line)
    ensures SignalX(sc.actors[i]).Some? && line == StopLine(g, sc, sc.actors[i], v)
  {
    var p :| StandsAt(sc, sc.actors[i], p) && FrontAt(v, line) == ArclenOfPoint(g.dist, v.path, p).0 - 3.0;
    PlaceOf(sc, sc.actors[i], p);
  }

  // -- how far a vehicle may go, and how fast it drives ---------------------------------------------------

  // The farthest point of its path that the vehicle may reach: its stop target once it has braked, and else
  // the nearest line of a signal that holds it; never beyond the end.
  ghost predicate IsLimit(g: Geometry, sc: Scene, st: State, stops: set<nat>, v: Actor, cur: real, limit: real) {
    if v.id in st.permStop then limit == Min(Get(st.stopTarget, v.id, cur), Total(g.dist, v.path))
    else
      && limit <= Total(g.dist, v.path)
      && (limit == Total(g.dist, v.path) || exists i :: Holds(g, sc, stops, i, v, cur) && IsLine(g, sc, i, v, limit))
      && forall i, line :: Holds(g, sc, stops, i, v, cur) && IsLine(g, sc, i, v, line) ==> limit <= line
  }

  // The speed after a tick with this room ahead.
  ghost predicate Eases(base: real, speed: real, room: real, dt: real, s: real) {
    && 0.0 <= s <= base && speed - 3.5 * dt <= s <= speed + 2.5 * dt
    && (room < 1e6 && s > speed - 3.5 * dt ==> Sqr(s) <= 7.0 * Max(0.0, room))
    && (room < 1e6 && s < speed + 2.5 * dt && s < base ==> Sqr(s) >= 7.0 * Max(0.0, room))
    && (room >= 1e6 ==> s == Min(base, speed + 2.5 * dt))
  }

  lemma CapIsLimit(g: Geometry, sc: Scene, st: State, stops: set<nat>, v: Actor)
    requires IsGeometry(g) && VehicleOk(g, st, v)
    ensures IsLimit(g, sc, st, stops, v, st.travel[v.id], Cap(g, sc, st, stops, v).0)
    ensures Cap(g, sc, st, stops, v).1 <==>
      v.id !in st.permStop && exists i :: Holds(g, sc, stops, i, v, st.travel[v.id])
  {
    if v.id !in st.permStop {
      var cur, cap := st.travel[v.id], Cap(g, sc, st, stops, v);
      SignalCapFacts(g, sc, stops, v, cur, |sc.actors|);
      forall i | 0 <= i < |sc.actors|
        ensures Holds(g, sc, stops, i, v, cur) <==> Catches(g, sc, stops, i, v, cur)
        ensures Holds(g, sc, stops, i, v, cur) ==> IsLine(g, sc, i, v, StopLine(g, sc, sc.actors[i], v))
      {
        HoldsIff(g, sc, stops, i, v, cur);
      }
      forall i, line | Holds(g, sc, stops, i, v, cur) && IsLine(g, sc, i, v, line) ensures cap.0 <= line {
        LineIsUnique(g, sc, i, v, line);
      }
    }
  }

  // One tick of a car or truck: it drives at the speed that the room to its limit asks for, as far as the limit,
  // and waits exactly when a signal holds it and it has all but stopped.
  ghost predicate Drives(g: Geometry, sc: Scene, was: State, stops: set<nat>, dt: real, v: Actor, now: State,
                         limit: real)
    requires v.id in was.travel && v.id in was.speed && v.id in now.travel && v.id in now.speed
  {
    var cur, s := was.travel[v.id], now.speed[v.id];
    && IsLimit(g, sc, was, stops, v, cur, limit)
    && Eases(v.speed, was.speed[v.id], limit - cur, dt, s)
    && now.travel[v.id] == Min(cur + Mul(s, dt), limit)
    && (v.id in now.waiting <==> v.id !in was.permStop && s < 0.4 && exists i :: Holds(g, sc, stops, i, v, cur))
  }

  lemma MoveDrives(g: Geometry, sc: Scene, st: State, stops: set<nat>, dt: real, v: Actor)
    requires IsGeometry(g) && dt > 0.0 && v.speed >= 0.0 && VehicleOk(g, st, v)
    ensures var m, cur, limit := MoveOf(g, sc, st, stops, dt, v), st.travel[v.id], Cap(g, sc, st, stops, v).0;
      && Eases(v.speed, st.speed[v.id], limit - cur, dt, m.speed)
      && m.travel == Min(cur + Mul(m.speed, dt), limit)
      && (m.waits <==> v.id !in st.permStop && m.speed < 0.4 && exists i :: Holds(g, sc, stops, i, v, cur))
      && IsLimit(g, sc, st, stops, v, cur, limit)
  {
    var cur, limit := st.travel[v.id], Cap(g, sc, st, stops, v).0;
    CapIsLimit(g, sc, st, stops, v);
    EasesExactly(g, v.speed, st.speed[v.id], limit - cur, dt);
    NextSpeedFacts(g, v.speed, st.speed[v.id], limit - cur, dt);
  }

  // Every tick of every run does that to each car and truck, but for the parked ones, which stay.
  lemma EveryTickDrives(g: Geometry, sc: Scene, dt: real, ticks: seq<Tick>, n: nat, k: nat) returns (limit: real)
    requires IsGeometry(g) && IsScene(sc) && dt > 0.0 && n < |ticks| && k < |sc.actors|
    requires sc.actors[k].kind == Car || sc.actors[k].kind == Truck
    ensures var v, was, now := sc.actors[k], Decided(g, sc, dt, ticks, n), After(g, sc, dt, ticks, n + 1);
      && VehicleOk(g, was, v) && VehicleOk(g, now, v)
      && if v.speed <= 0.0 && !v.maneuvers then
           now.travel[v.id] == was.travel[v.id] && now.speed[v.id] == was.speed[v.id] && v.id !in now.waiting
         else Drives(g, sc, was, ticks[n].stops, dt, v, now, limit)
  {
    TickOfRun(g, sc, dt, ticks, n, k);
    limit := TickDrives(g, sc, Decided(g, sc, dt, ticks, n), ticks[n].stops, dt, k);
  }

  lemma TickDrives(g: Geometry, sc: Scene, was: State, stops: set<nat>, dt: real, k: nat) returns (limit: real)
    requires IsGeometry(g) && IsScene(sc) && dt > 0.0 && k < |sc.actors|
    requires sc.actors[k].kind == Car || sc.actors[k].kind == Truck
    requires VehicleOk(g, was, sc.actors[k])
    ensures var v, now := sc.actors[k], Advance(g, sc, was, stops, dt);
      && v.id in now.travel && v.id in now.speed
      && if v.speed <= 0.0 && !v.maneuvers then
           now.travel[v.id] == was.travel[v.id] && now.speed[v.id] == was.speed[v.id] && v.id !in now.waiting
         else Drives(g, sc, was, stops, dt, v, now, limit)
  {
    EachMovesOnce(g, sc, was, stops, dt, |sc.actors|, k);
    MoveDrives(g, sc, was, stops, dt, sc.actors[k]);
    limit := Cap(g, sc, was, stops, sc.actors[k]).0;
  }

  // -- a straight lane ----------------------------------------------------------------------------------

  // The path is straight along x, and leads the way d.
  predicate IsStraight(path: Path, d: int) {
    && (d == 1 || d == -1) && |path| == 2 && path[0].y == path[1].y
    && (if d == 1 then path[0].x < path[1].x else path[1].x < path[0].x)
  }

  // How far x is along it.
  function Along(path: Path, d: int, x: real): real
    requires path != []
  {
    if d == 1 then x - path[0].x else path[0].x - x
  }

  lemma StraightPos(g: Geometry, path: Path, d: int, s: real)
    requires IsGeometry(g) && IsStraight(path, d) && 0.0 <= s <= Total(g.dist, path)
    ensures Total(g.dist, path) == Along(path, d, path[1].x)
    ensures PosAt(g.dist, path, s).Some? && Along(path, d, PosAt(g.dist, path, s).value.x) == s
  {
    var len := Along(path, d, path[1].x);
    DistAlongX(g.dist, path[0], path[1]);
    assert Cum(g.dist, path, 0) == 0.0 && Cum(g.dist, path, 1) == len && Seg(g.dist, path, 0) == len;
    FractionFacts(0.0, len, s);
    var f := Fraction(0.0, len, s);
    PosAtIsLerp(g.dist, path, 0, f);
    assert Mul(path[1].x - path[0].x, f) == if d == 1 then Mul(f, len) else -Mul(f, len);
  }

  // A car in a straight lane that brakes for a hazard ahead, at least six metres off, stays six metres short of
  // it for good, as long as nothing it brakes for later leads it beyond.
  lemma StopsShort(g: Geometry, sc: Scene, dt: real, ticks: seq<Tick>, n: nat, m: nat, k: nat, d: int, hazard: Point)
    requires IsGeometry(g) && IsScene(sc) && dt > 0.0 && n < m <= |ticks| && k < |sc.actors| && IsVehicle(sc.actors[k])
    requires IsStraight(sc.actors[k].path, d) && Leads(sc, sc.actors[k], d)
    requires LastFor(ticks[n].commits, sc.actors[k].id) == Some((sc.actors[k], Some(hazard)))
    requires var v := sc.actors[k];
      var limit := Along(v.path, d, hazard.x) - 6.0;
      && 0.0 <= limit <= Total(g.dist, v.path) && TravelOf(After(g, sc, dt, ticks, n), v) <= limit
      && NeverLedBeyond(g, sc, v, ticks, n + 1, m, limit)
    ensures var v := sc.actors[k];
      var at := PositionOf(g, After(g, sc, dt, ticks, m), v);
      at.Some? && Along(v.path, d, hazard.x) - Along(v.path, d, at.value.x) >= 6.0
  {
    var v := sc.actors[k];
    var limit := Along(v.path, d, hazard.x) - 6.0;
    TickOfRun(g, sc, dt, ticks, n, k);
    BrakesWithin(g, sc, After(g, sc, dt, ticks, n), ticks[n].commits, v, d, hazard);
    StaysWithin(g, sc, dt, ticks, n + 1, m, k, limit);
    DrawnShort(g, After(g, sc, dt, ticks, m), v, d, limit);
  }

  lemma BrakesWithin(g: Geometry, sc: Scene, st: State, cs: seq<(Actor, Option<Point>)>, v: Actor, d: int,
                     hazard: Point)
    requires IsGeometry(g) && VehicleOk(g, st, v) && VehicleOk(g, Commits(g, sc, st, cs), v)
    requires IsStraight(v.path, d) && Leads(sc, v, d) && LastFor(cs, v.id) == Some((v, Some(hazard)))
    requires Max(0.0, st.travel[v.id]) <= Along(v.path, d, hazard.x) - 6.0 <= Total(g.dist, v.path)
    ensures BrakedWithin(g, Commits(g, sc, st, cs), v, Along(v.path, d, hazard.x) - 6.0)
  {
    LastDecides(g, sc, st, cs, v.id);
    TargetOnStraight(g, sc, st, v, d, hazard);
  }

  lemma DrawnShort(g: Geometry, st: State, v: Actor, d: int, limit: real)
    requires IsGeometry(g) && IsStraight(v.path, d) && TravelOf(st, v) <= limit && 0.0 <= limit <= Total(g.dist, v.path)
    ensures var at := PositionOf(g, st, v); at.Some? && Along(v.path, d, at.value.x) <= limit
  {
    if TravelOf(st, v) <= 0.0 {
      DrawnAtStart(g, st, v);
    } else {
      StraightPos(g, v.path, d, TravelOf(st, v));
    }
  }

  lemma TargetOnStraight(g: Geometry, sc: Scene, st: State, v: Actor, d: int, hazard: Point)
    requires IsGeometry(g) && VehicleOk(g, st, v) && IsStraight(v.path, d) && Leads(sc, v, d)
    requires Max(0.0, st.travel[v.id]) <= Along(v.path, d, hazard.x) - 6.0 <= Total(g.dist, v.path)
    ensures Get(Commit(g, sc, st, v, Some(hazard)).stopTarget, v.id, -1.0) == Along(v.path, d, hazard.x) - 6.0
  {
    var limit, x := Along(v.path, d, hazard.x) - 6.0, hazard.x - 6.0 * (d as real);
    var target := Get(Commit(g, sc, st, v, Some(hazard)).stopTarget, v.id, -1.0);
    assert Along(v.path, d, x) == limit;
    OnlyThere(g, v.path, d, limit, x);
    TargetIsBeforeHazard(g, sc, st, v, hazard, d);
    OnlyFirst(g, v.path, Max(0.0, st.travel[v.id]), limit, target, x);
  }

  // A straight path has each x once.
  lemma OnlyThere(g: Geometry, path: Path, d: int, at: real, x: real)
    requires IsGeometry(g) && IsStraight(path, d) && 0.0 <= at <= Total(g.dist, path) && Along(path, d, x) == at
    ensures FirstAt(g, path, at, x)
  {
    forall s | 0.0 <= s <= Total(g.dist, path)
      ensures PosAt(g.dist, path, s).Some? && (PosAt(g.dist, path, s).value.x == x <==> s == at)
    {
      StraightPos(g, path, d, s);
    }
  }

  lemma OnlyFirst(g: Geometry, path: Path, here: real, at: real, target: real, x: real)
    requires FirstAt(g, path, at, x) && here <= at && IsTarget(g, path, here, x, target)
    ensures target == at
  {
  }
}
