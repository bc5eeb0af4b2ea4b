// Runs of one car on a straight road, in a lane of either direction: how it stops before a hazard, and what
// a signal or a second hazard can do to that.
module RoadRuns {
  import opened Basics
  import opened Plane
  import opened Polyline
  import opened Motion
  import opened MotionTheorems

  // Lanes lead to the right (1) or to the left (-1).
  predicate IsSide(d: int) { d == 1 || d == -1 }

  // The point at distance s along the lane.
  function On(d: int, s: real): Point { Point(if d == 1 then s else -s, 0.0) }

  // One car cruising at 10 m/s over a hundred metres, and a signal for its lane at x.
  function Sedan(d: int): Actor {
    Actor("c", Car, [On(d, 0.0), On(d, 100.0)], 10.0, false, 4.0, Some(if d == 1 then 0 else 1), None, None, 0)
  }

  function Light(d: int, x: real): Actor {
    Actor("s", Signal, [], 0.0, false, 0.0, None, Some(On(d, x).x), Some(0.0), d)
  }

  function Road(d: int, x: real): Scene { Scene([Sedan(d), Light(d, x)], [Lane(0.0, 1), Lane(0.0, -1)], None) }

  lemma RoadLength(g: Geometry, d: int)
    requires IsGeometry(g) && IsSide(d)
    ensures Total(g.dist, Sedan(d).path) == 100.0
    ensures Cum(g.dist, Sedan(d).path, 0) == 0.0 && Seg(g.dist, Sedan(d).path, 0) == 100.0
  {
    DistAlongX(g.dist, On(d, 0.0), On(d, 100.0));
    var p := Sedan(d).path;
    assert Cum(g.dist, p, 1) == Cum(g.dist, p, 0) + Seg(g.dist, p, 0);
  }

  // A hazard on the road has its stop target six metres before it.
  lemma TargetOnRoad(g: Geometry, d: int, x: real, at: real)
    requires IsGeometry(g) && IsSide(d) && 6.0 <= at <= 106.0
    ensures HazardTarget(g, Road(d, x), Sedan(d), Some(On(d, at))) == Some(at - 6.0)
  {
    RoadLength(g, d);
    var p, s := Sedan(d).path, at - 6.0;
    var target := On(d, s).x;
    assert Covers(p[0], p[1], target) && s / 100.0 == (target - p[0].x) / (p[1].x - p[0].x);
    assert Mul(s / 100.0, 100.0) == s;
    assert XScan(g.dist, p, target, 0) == Some(s);
  }

  lemma PointOnRoad(g: Geometry, d: int, s: real)
    requires IsGeometry(g) && IsSide(d) && 0.0 <= s <= 100.0
    ensures PosAt(g.dist, Sedan(d).path, s) == Some(On(d, s)) && OnPath(Sedan(d).path, On(d, s))
  {
    var path := Sedan(d).path;
    RoadLength(g, d);
    PosAtIsLerp(g.dist, path, 0, s / 100.0);
    assert Mul(s / 100.0, 100.0) == s;
    LerpOnRoad(d, s);
  }

  lemma LerpOnRoad(d: int, s: real)
    requires IsSide(d)
    ensures Lerp(On(d, 0.0), On(d, 100.0), s / 100.0) == On(d, s)
  {
    assert Mul(100.0, s / 100.0) == s && Mul(-100.0, s / 100.0) == -s && Mul(0.0, s / 100.0) == 0.0;
  }

  lemma ArclenOnRoad(g: Geometry, d: int, x: real)
    requires IsGeometry(g) && IsSide(d) && 0.0 <= x <= 100.0
    ensures ArclenOfPoint(g.dist, Sedan(d).path, On(d, x)) == (x, 0.0)
  {
    var path, p := Sedan(d).path, On(d, x);
    var s := ArclenOfPoint(g.dist, path, p).0;
    RoadLength(g, d);
    PointOnRoad(g, d, x);
    DistSign(g.dist, p, p);
    ArclenOfPointExact(g.dist, path, p);
    PointOnRoad(g, d, s);
    DistSign(g.dist, On(d, s), p);
  }

  // The signal's stop line is five metres before it.
  lemma LineOnRoad(g: Geometry, d: int, x: real)
    requires IsGeometry(g) && IsSide(d) && 0.0 <= x <= 100.0
    ensures Governs(g, Road(d, x), Light(d, x), Sedan(d)) && StopLine(g, Road(d, x), Light(d, x), Sedan(d)) == x - 5.0
  {
    ArclenOnRoad(g, d, x);
  }

  // The car is at `travel` with this speed, and has braked for a target if there is one.
  ghost predicate CarIs(st: State, travel: real, speed: real, target: Option<real>) {
    && "c" in st.travel && st.travel["c"] == travel && "c" in st.speed && st.speed["c"] == speed
    && ("c" in st.permStop <==> target.Some?)
    && (target.Some? ==> "c" in st.stopTarget && st.stopTarget["c"] == target.value)
  }

  const IDLE := Tick([], {})

  function BrakeAt(d: int, at: real): Tick { Tick([(Sedan(d), Some(On(d, at)))], {}) }

  ghost function StepOf(g: Geometry, d: int, x: real, st: State, tk: Tick): State {
    Advance(g, Road(d, x), Commits(g, Road(d, x), st, tk.commits), tk.stops, 1.0)
  }

  // One tick of the car, from the state after its decisions.
  lemma CarMoves(g: Geometry, d: int, x: real, st: State, stops: set<nat>)
    requires "c" in st.travel && "c" in st.speed
    ensures var r, m := Advance(g, Road(d, x), st, stops, 1.0), MoveOf(g, Road(d, x), st, stops, 1.0, Sedan(d));
      && "c" in r.travel && r.travel["c"] == m.travel && "c" in r.speed && r.speed["c"] == m.speed
      && r.permStop == st.permStop && r.stopTarget == st.stopTarget
  {
    EachMovesOnce(g, Road(d, x), st, stops, 1.0, 2, 0);
  }

  lemma Cruises(g: Geometry, d: int, x: real, st: State, travel: real)
    requires IsGeometry(g) && IsSide(d) && CarIs(st, travel, 10.0, None) && travel <= 80.0
    ensures CarIs(StepOf(g, d, x, st, IDLE), travel + 10.0, 10.0, None)
  {
    RoadLength(g, d);
    CarMoves(g, d, x, st, {});
    assert SignalCap(g, Road(d, x), {}, Sedan(d), travel, 1) == (100.0, false);
    assert SignalCap(g, Road(d, x), {}, Sedan(d), travel, 2) == (100.0, false);
    assert Rooted(g.root, 2.0 * DECEL * (100.0 - travel));
    SquareOrder(10.0, g.root(2.0 * DECEL * (100.0 - travel)));
    assert Mul(10.0, 1.0) == 10.0;
  }

  // At its stop target the car brakes at the full rate and stays there.
  lemma Halts(g: Geometry, d: int, x: real, st: State, speed: real)
    requires IsGeometry(g) && IsSide(d) && CarIs(st, 50.0, speed, Some(50.0)) && 0.0 <= speed <= 10.0
    ensures CarIs(Advance(g, Road(d, x), st, {}, 1.0), 50.0, Max(0.0, speed - 3.5), Some(50.0))
  {
    RoadLength(g, d);
    CarMoves(g, d, x, st, {});
    assert Rooted(g.root, 0.0);
    SquareSign(g.root(0.0));
    ProductSign(Max(0.0, speed - 3.5), 1.0);
  }

  lemma Starts(g: Geometry, d: int, x: real, st: State)
    requires IsGeometry(g) && IsSide(d) && CarIs(st, 50.0, 0.0, Some(70.0))
    ensures CarIs(Advance(g, Road(d, x), st, {}, 1.0), 52.5, 2.5, Some(70.0))
  {
    RoadLength(g, d);
    CarMoves(g, d, x, st, {});
    assert Rooted(g.root, 140.0);
    SquareOrder(2.5, g.root(140.0));
    assert Mul(2.5, 1.0) == 2.5;
  }

  lemma Brakes(g: Geometry, d: int, x: real, st: State, travel: real, speed: real, was: Option<real>, at: real)
    requires IsGeometry(g) && IsSide(d) && CarIs(st, travel, speed, was) && 0.0 <= travel <= at - 6.0 <= 100.0
    ensures CarIs(Commits(g, Road(d, x), st, BrakeAt(d, at).commits), travel, speed, Some(at - 6.0))
  {
    TargetOnRoad(g, d, x, at);
    assert BrakeAt(d, at).commits[..0] == [];
    assert Commits(g, Road(d, x), st, BrakeAt(d, at).commits) == Commit(g, Road(d, x), st, Sedan(d), Some(On(d, at)));
  }

  lemma NextOf(g: Geometry, d: int, x: real, ticks: seq<Tick>, n: nat)
    requires n < |ticks|
    ensures After(g, Road(d, x), 1.0, ticks, n + 1) == StepOf(g, d, x, After(g, Road(d, x), 1.0, ticks, n), ticks[n])
  {
  }

  lemma {:induction false} CruisesFor(g: Geometry, d: int, x: real, ticks: seq<Tick>, n: nat)
    requires IsGeometry(g) && IsSide(d) && n <= 5 && n <= |ticks| && forall i :: 0 <= i < n ==> ticks[i] == IDLE
    ensures CarIs(After(g, Road(d, x), 1.0, ticks, n), 10.0 * n as real, 10.0, None)
  {
    if n == 0 {
      InitialValues(Road(d, x).actors, 0);
    } else {
      CruisesFor(g, d, x, ticks, n - 1);
      Cruises(g, d, x, After(g, Road(d, x), 1.0, ticks, n - 1), 10.0 * (n - 1) as real);
      NextOf(g, d, x, ticks, n - 1);
    }
  }

  // A run in which a car is drawn back: it has cruised past its stop line by a quarter of a metre when the
  // signal turns.
  lemma CarIsDrawnBack(g: Geometry, d: int)
    requires IsGeometry(g) && IsSide(d)
    ensures var sc, ticks := Road(d, 14.75), [IDLE, Tick([], {1})];
      && IsScene(sc)
      && CarIs(After(g, sc, 1.0, ticks, 1), 10.0, 10.0, None)
      && Get(After(g, sc, 1.0, ticks, 2).travel, "c", 0.0) == 9.75
  {
    var ticks := [IDLE, Tick([], {1})];
    CruisesFor(g, d, 14.75, ticks, 1);
    NextOf(g, d, 14.75, ticks, 1);
    StopsAtLine(g, d, 14.75, After(g, Road(d, 14.75), 1.0, ticks, 1), 10.0);
  }

  // A run in which the travel of a car at the start of its path becomes negative.
  lemma CarIsDrawnBeforeStart(g: Geometry, d: int)
    requires IsGeometry(g) && IsSide(d)
    ensures IsScene(Road(d, 4.75)) && Get(After(g, Road(d, 4.75), 1.0, [Tick([], {1})], 1).travel, "c", 0.0) == -0.25
  {
    var ticks := [Tick([], {1})];
    CruisesFor(g, d, 4.75, ticks, 0);
    NextOf(g, d, 4.75, ticks, 0);
    StopsAtLine(g, d, 4.75, After(g, Road(d, 4.75), 1.0, ticks, 0), 0.0);
  }

  lemma StopsAtLine(g: Geometry, d: int, x: real, st: State, travel: real)
    requires IsGeometry(g) && IsSide(d) && 0.0 <= x <= 100.0 && CarIs(st, travel, 10.0, None)
    requires travel - 0.5 <= x - 5.0 <= travel <= 100.0
    ensures var r := Advance(g, Road(d, x), Commits(g, Road(d, x), st, []), {1}, 1.0);
      "c" in r.travel && r.travel["c"] == x - 5.0
  {
    CarMoves(g, d, x, st, {1});
    LineOnRoad(g, d, x);
    RoadLength(g, d);
    CapAtLine(g, d, x, travel);
    NextSpeedFacts(g, 10.0, 10.0, x - 5.0 - travel, 1.0);
    ProductSign(NextSpeed(g, 10.0, 10.0, x - 5.0 - travel, 1.0), 1.0);
  }

  lemma CapAtLine(g: Geometry, d: int, x: real, travel: real)
    requires Total(g.dist, Sedan(d).path) == 100.0 && travel - 0.5 <= x - 5.0 <= travel <= 100.0
    requires Governs(g, Road(d, x), Light(d, x), Sedan(d)) && StopLine(g, Road(d, x), Light(d, x), Sedan(d)) == x - 5.0
    ensures SignalCap(g, Road(d, x), {1}, Sedan(d), travel, 2) == (x - 5.0, true)
  {
    assert SignalCap(g, Road(d, x), {1}, Sedan(d), travel, 1) == (100.0, false);
  }

  // A run in which a car brakes for a hazard and comes to rest six metres before it.
  lemma CarStopsBeforeHazard(g: Geometry, d: int, x: real, ticks: seq<Tick>)
    requires IsGeometry(g) && IsSide(d)
    requires ticks == [IDLE, IDLE, IDLE, IDLE, IDLE, BrakeAt(d, 56.0), IDLE, IDLE]
    ensures IsScene(Road(d, x))
    ensures CarIs(After(g, Road(d, x), 1.0, ticks, 8), 50.0, 0.0, Some(50.0))
    ensures PosAt(g.dist, Sedan(d).path, 50.0) == Some(On(d, 56.0 - 6.0))
  {
    CruisesFor(g, d, x, ticks, 5);
    HaltsInThree(g, d, x, ticks);
    PointOnRoad(g, d, 50.0);
  }

  // A run in which a car comes to rest for one hazard and drives on when it brakes for another.
  lemma StoppedCarDrivesOn(g: Geometry, d: int, x: real, ticks: seq<Tick>)
    requires IsGeometry(g) && IsSide(d)
    requires ticks == [IDLE, IDLE, IDLE, IDLE, IDLE, BrakeAt(d, 56.0), IDLE, IDLE, BrakeAt(d, 76.0)]
    ensures IsScene(Road(d, x))
    ensures Rests(g, After(g, Road(d, x), 1.0, ticks, 8), Sedan(d))
    ensures CarIs(After(g, Road(d, x), 1.0, ticks, 8), 50.0, 0.0, Some(50.0))
    ensures CarIs(After(g, Road(d, x), 1.0, ticks, 9), 52.5, 2.5, Some(70.0))
  {
    CruisesFor(g, d, x, ticks, 5);
    HaltsInThree(g, d, x, ticks);
    var rest := After(g, Road(d, x), 1.0, ticks, 8);
    NextOf(g, d, x, ticks, 8);
    Brakes(g, d, x, rest, 50.0, 0.0, Some(50.0), 76.0);
    Starts(g, d, x, Commits(g, Road(d, x), rest, BrakeAt(d, 76.0).commits));
    RunKeeps(g, Road(d, x), 1.0, ticks, 8);
    assert VehicleOk(g, rest, Road(d, x).actors[0]);
  }

  lemma HaltsInThree(g: Geometry, d: int, x: real, ticks: seq<Tick>)
    requires IsGeometry(g) && IsSide(d) && |ticks| >= 8 && CarIs(After(g, Road(d, x), 1.0, ticks, 5), 50.0, 10.0, None)
    requires ticks[5] == BrakeAt(d, 56.0) && ticks[6] == ticks[7] == IDLE
    ensures CarIs(After(g, Road(d, x), 1.0, ticks, 8), 50.0, 0.0, Some(50.0))
  {
    var st5 := After(g, Road(d, x), 1.0, ticks, 5);
    Brakes(g, d, x, st5, 50.0, 10.0, None, 56.0);
    Halts(g, d, x, Commits(g, Road(d, x), st5, BrakeAt(d, 56.0).commits), 10.0);
    NextOf(g, d, x, ticks, 5);
    Halts(g, d, x, After(g, Road(d, x), 1.0, ticks, 6), 6.5);
    NextOf(g, d, x, ticks, 6);
    Halts(g, d, x, After(g, Road(d, x), 1.0, ticks, 7), 3.0);
    NextOf(g, d, x, ticks, 7);
  }

  // Far enough before its stop target the car does not slow down.
  lemma DrivesAtSpeed(g: Geometry, d: int, x: real, st: State, travel: real, target: real)
    requires IsGeometry(g) && IsSide(d) && CarIs(st, travel, 10.0, Some(target)) && travel + 15.0 <= target <= 100.0
    ensures CarIs(Advance(g, Road(d, x), st, {}, 1.0), travel + 10.0, 10.0, Some(target))
  {
    RoadLength(g, d);
    CarMoves(g, d, x, st, {});
    var squared := 2.0 * DECEL * (target - travel);
    assert Rooted(g.root, squared) && Sqr(10.0) == 100.0;
    SquareOrder(10.0, g.root(squared));
    assert Mul(10.0, 1.0) == 10.0;
  }

  // A run in which a car brakes for one hazard and, before it is there, for another: it passes the first
  // one's target at its cruise speed.
  lemma CarDrivesPast(g: Geometry, d: int, x: real, ticks: seq<Tick>)
    requires IsGeometry(g) && IsSide(d) && ticks == [IDLE, IDLE, IDLE, IDLE, BrakeAt(d, 63.0), BrakeAt(d, 78.0)]
    ensures IsScene(Road(d, x))
    ensures CarIs(After(g, Road(d, x), 1.0, ticks, 4), 40.0, 10.0, None)
    ensures CarIs(After(g, Road(d, x), 1.0, ticks, 5), 50.0, 10.0, Some(57.0))
    ensures CarIs(After(g, Road(d, x), 1.0, ticks, 6), 60.0, 10.0, Some(72.0))
  {
    CruisesFor(g, d, x, ticks, 4);
    var st4, st5 := After(g, Road(d, x), 1.0, ticks, 4), After(g, Road(d, x), 1.0, ticks, 5);
    Brakes(g, d, x, st4, 40.0, 10.0, None, 63.0);
    DrivesAtSpeed(g, d, x, Commits(g, Road(d, x), st4, BrakeAt(d, 63.0).commits), 40.0, 57.0);
    NextOf(g, d, x, ticks, 4);
    Brakes(g, d, x, st5, 50.0, 10.0, Some(57.0), 78.0);
    DrivesAtSpeed(g, d, x, Commits(g, Road(d, x), st5, BrakeAt(d, 78.0).commits), 50.0, 72.0);
    NextOf(g, d, x, ticks, 5);
  }
}
