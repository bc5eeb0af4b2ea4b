// City-grid routes: from an entry point, a heading and a list of turns to the polyline a vehicle
// drives. Screen coordinates, y down; vehicles keep to the right.
module GridPath {
  import opened Basics
  import opened Plane

  datatype Heading = East | West | North | South

  datatype Grid = Grid(hRoads: seq<real>, vRoads: seq<real>, laneWidth: real)

  datatype Course = Course(grid: Grid, route: seq<string>, width: real, height: real, lane: nat)

  // -- headings and lanes ---------------------------------------------------------------------------

  predicate Horizontal(h: Heading) { h.East? || h.West? }

  // How far `to` lies ahead of `from` for someone heading h.
  function Ahead(h: Heading, from: real, to: real): real {
    if h.East? || h.South? then to - from else from - to
  }

  function Onward(h: Heading, x: real, d: real): real {
    if h.East? || h.South? then x + d else x - d
  }

  function Along(h: Heading, p: Point): real { if Horizontal(h) then p.x else p.y }

  function Across(h: Heading, p: Point): real { if Horizontal(h) then p.y else p.x }

  function Place(h: Heading, along: real, across: real): Point {
    if Horizontal(h) then Point(along, across) else Point(across, along)
  }

  function RoadsAlong(g: Grid, h: Heading): seq<real> { if Horizontal(h) then g.hRoads else g.vRoads }

  function RoadsCrossing(g: Grid, h: Heading): seq<real> { if Horizontal(h) then g.vRoads else g.hRoads }

  function Offset(c: Course): real { Mul(c.lane as real + 0.5, c.grid.laneWidth) }

  // The unit vector of a heading.
  function Delta(h: Heading): (int, int) {
    match h case East => (1, 0) case West => (-1, 0) case South => (0, 1) case North => (0, -1)
  }

  // A quarter turn one way or the other; with y down, clockwise takes (x, y) to (-y, x).
  function Turn(h: Heading, t: string): (r: Heading)
    ensures t == "right" ==> Delta(r) == (-Delta(h).1, Delta(h).0)
    ensures t == "left" ==> Delta(r) == (Delta(h).1, -Delta(h).0)
    ensures t != "right" && t != "left" ==> r == h
  {
    if t == "right" then
      (match h case East => South case South => West case West => North case North => East)
    else if t == "left" then
      (match h case East => North case North => West case West => South case South => East)
    else h
  }

  // The lane for heading h lies off to the right of the road's centre line.
  function LaneCoord(road: real, h: Heading, off: real): (r: real)
    ensures Ahead(Turn(h, "right"), road, r) == off
  {
    if h.East? || h.North? then road + off else road - off
  }

  function Nearest(vals: seq<real>, v: real): real
    requires vals != []
  {
    var rest, a := vals[..|vals| - 1], vals[|vals| - 1];
    if rest == [] then a
    else
      var m := Nearest(rest, v);
      if Abs(a - v) < Abs(m - v) then a else m
  }

  // The nearest road more than 1 m ahead of position x.
  function NextRoad(roads: seq<real>, h: Heading, x: real): Option<real> {
    if roads == [] then None
    else
      var rest, a := roads[..|roads| - 1], roads[|roads| - 1];
      var r := NextRoad(rest, h, x);
      if Ahead(h, x, a) <= 1.0 then r
      else if r.None? || Ahead(h, x, a) < Ahead(h, x, r.value) then Some(a)
      else r
  }

  lemma {:induction false} NearestFacts(vals: seq<real>, v: real)
    requires vals != []
    ensures var r := Nearest(vals, v); r in vals && forall a :: a in vals ==> Abs(r - v) <= Abs(a - v)
  {
    assert vals == vals[..|vals| - 1] + [vals[|vals| - 1]];
    if |vals| > 1 {
      NearestFacts(vals[..|vals| - 1], v);
    }
  }

  ghost predicate IsNext(roads: seq<real>, h: Heading, x: real, r: real) {
    && r in roads && Ahead(h, x, r) > 1.0
    && forall a :: a in roads && Ahead(h, x, a) > 1.0 ==> Ahead(h, x, r) <= Ahead(h, x, a)
  }

  lemma {:induction false} NextRoadFacts(roads: seq<real>, h: Heading, x: real)
    ensures var r := NextRoad(roads, h, x);
      if r.Some? then IsNext(roads, h, x, r.value) else forall a :: a in roads ==> Ahead(h, x, a) <= 1.0
  {
    if roads != [] {
      assert roads == roads[..|roads| - 1] + [roads[|roads| - 1]];
      NextRoadFacts(roads[..|roads| - 1], h, x);
    }
  }

  // -- the drive, crossing by crossing ----------------------------------------------------------------

  datatype Trip = Trip(cur: Point, heading: Heading, taken: nat, wps: seq<Point>, out: bool)

  function EntryRoad(c: Course, start: Point, h: Heading): real {
    var roads := RoadsAlong(c.grid, h);
    if roads != [] then Nearest(roads, Across(h, start)) else Across(h, start)
  }

  function Entry(c: Course, start: Point, h: Heading): Trip {
    var p := Place(h, Along(h, start), LaneCoord(EntryRoad(c, start, h), h, Offset(c)));
    Trip(p, h, 0, [p], false)
  }

  function ExitCoord(c: Course, h: Heading): real {
    match h
    case East => c.width + 30.0
    case West => -30.0
    case South => c.height + 30.0
    case North => -30.0
  }

  function Order(c: Course, n: nat): string { if n < |c.route| then c.route[n] else "straight" }

  function Cross(c: Course, s: Trip, road: real): Trip {
    var t := Order(c, s.taken);
    if t == "straight" then
      s.(cur := Place(s.heading, Onward(s.heading, road, 0.5), Across(s.heading, s.cur)), taken := s.taken + 1)
    else
      var h := Turn(s.heading, t);
      var corner := Place(s.heading, LaneCoord(road, h, Offset(c)), Across(s.heading, s.cur));
      Trip(corner, h, s.taken + 1, s.wps + [corner], false)
  }

  function Next(c: Course, s: Trip): Option<real> {
    NextRoad(RoadsCrossing(c.grid, s.heading), s.heading, Along(s.heading, s.cur))
  }

  function Advance(c: Course, s: Trip): Trip {
    if s.out then s
    else
      var next := Next(c, s);
      if next.None? then
        s.(wps := s.wps + [Place(s.heading, ExitCoord(c, s.heading), Across(s.heading, s.cur))], out := true)
      else Cross(c, s, next.value)
  }

  function Drive(c: Course, start: Point, h: Heading, n: nat): Trip {
    if n == 0 then Entry(c, start, h) else Advance(c, Drive(c, start, h, n - 1))
  }

  const LIMIT: nat := 60

  function Path(c: Course, start: Point, h: Heading): seq<Point> { Drive(c, start, h, LIMIT).wps }

  // What holds of the entry, and is kept by every step, holds all along the drive.
  lemma {:induction false} Throughout(c: Course, start: Point, h: Heading, n: nat, good: Trip -> bool)
    requires good(Entry(c, start, h)) && forall s :: good(s) ==> good(Advance(c, s))
    ensures good(Drive(c, start, h, n))
  {
    if n > 0 {
      Throughout(c, start, h, n - 1, good);
    }
  }

  lemma {:induction false} OnceOut(c: Course, start: Point, h: Heading, m: nat, n: nat)
    requires m <= n && Drive(c, start, h, m).out
    ensures Drive(c, start, h, n) == Drive(c, start, h, m)
  {
    if m < n {
      OnceOut(c, start, h, m, n - 1);
    }
  }

  lemma CrossStep(c: Course, start: Point, h: Heading, n: nat, s: Trip, road: real)
    requires Drive(c, start, h, n) == s && !s.out && Next(c, s) == Some(road)
    ensures Drive(c, start, h, n + 1) == Cross(c, s, road)
  {
  }

  lemma ExitStep(c: Course, start: Point, h: Heading, n: nat, s: Trip, exit: Point)
    requires n < LIMIT && Drive(c, start, h, n) == s && !s.out && Next(c, s) == None
    requires exit == Place(s.heading, ExitCoord(c, s.heading), Across(s.heading, s.cur))
    ensures Path(c, start, h) == s.wps + [exit]
  {
    OnceOut(c, start, h, n + 1, LIMIT);
  }

  method GenerateGridPath(c: Course, start: Point, entry: Heading) returns (wps: seq<Point>)
    ensures wps == Path(c, start, entry)
  {
    var w := Offset(c);
    var h := entry;
    var cur: Point;
    if h.East? || h.West? {
      var y0 := if c.grid.hRoads != [] then Nearest(c.grid.hRoads, start.y) else start.y;
      cur := Point(start.x, LaneCoord(y0, h, w));
    } else {
      var x0 := if c.grid.vRoads != [] then Nearest(c.grid.vRoads, start.x) else start.x;
      cur := Point(LaneCoord(x0, h, w), start.y);
    }
    wps := [cur];
    var ri := 0;
    for i := 0 to LIMIT
      invariant Drive(c, start, entry, i) == Trip(cur, h, ri, wps, false)
    {
      ghost var s := Trip(cur, h, ri, wps, false);
      var crossing := if h.East? || h.West? then NextRoad(c.grid.vRoads, h, cur.x)
                      else NextRoad(c.grid.hRoads, h, cur.y);
      assert crossing == Next(c, s);
      if crossing.None? {
        var exit := match h
          case East => Point(c.width + 30.0, cur.y)
          case West => Point(-30.0, cur.y)
          case South => Point(cur.x, c.height + 30.0)
          case North => Point(cur.x, -30.0);
        wps := wps + [exit];
        ExitStep(c, start, entry, i, s, exit);
        break;
      }
      var nxt := crossing.value;
      CrossStep(c, start, entry, i, s, nxt);
      var t := if ri < |c.route| then c.route[ri] else "straight";
      ri := ri + 1;
      if t == "straight" {
        cur := if h.East? || h.West? then Point(Onward(h, nxt, 0.5), cur.y) else Point(cur.x, Onward(h, nxt, 0.5));
        assert Trip(cur, h, ri, wps, false) == Cross(c, s, nxt);
        continue;
      }
      var nh := Turn(h, t);
      var corner := if h.East? || h.West? then Point(LaneCoord(nxt, nh, w), cur.y)
                    else Point(cur.x, LaneCoord(nxt, nh, w));
      wps := wps + [corner];
      cur := corner;
      h := nh;
      assert Trip(cur, h, ri, wps, false) == Cross(c, s, nxt);
    }
  }

  // -- every segment keeps to its lane ----------------------------------------------------------------

  // The orders that are not "straight", in order.
  function Turns(route: seq<string>): seq<string> {
    if route == [] then []
    else
      var t := route[|route| - 1];
      Turns(route[..|route| - 1]) + (if t == "straight" then [] else [t])
  }

  function HeadingAfter(h: Heading, turns: seq<string>): Heading {
    if turns == [] then h else Turn(HeadingAfter(h, turns[..|turns| - 1]), turns[|turns| - 1])
  }

  // p is on the lane for heading h of a road of the grid, or, if there are none, beside the entry line.
  ghost predicate OnLane(c: Course, entryRoad: real, h: Heading, p: Point) {
    exists road :: (road in RoadsAlong(c.grid, h) || (RoadsAlong(c.grid, h) == [] && road == entryRoad))
      && Across(h, p) == LaneCoord(road, h, Offset(c))
  }

  // The k-th segment is driven with the heading that the first k turns lead to, on a lane for it.
  ghost predicate KeepsLane(c: Course, entryRoad: real, h: Heading, a: Point, b: Point) {
    Across(h, a) == Across(h, b) && OnLane(c, entryRoad, h, a)
  }

  // The turns among the first n orders.
  function Obeyed(c: Course, n: nat): seq<string> {
    Turns(c.route[..if n < |c.route| then n else |c.route|])
  }

  ghost predicate KeepsLanes(c: Course, entryRoad: real, h: Heading, s: Trip) {
    var ts := Obeyed(c, s.taken);
    && |s.wps| == |ts| + (if s.out then 2 else 1)
    && s.heading == HeadingAfter(h, ts)
    && KeepsLane(c, entryRoad, s.heading, s.wps[|ts|], s.cur)
    && (s.out ==> KeepsLane(c, entryRoad, s.heading, s.wps[|ts|], s.wps[|ts| + 1])
                  && Along(s.heading, s.wps[|ts| + 1]) == ExitCoord(c, s.heading))
    && forall k :: 0 <= k < |ts| ==> KeepsLane(c, entryRoad, HeadingAfter(h, ts[..k]), s.wps[k], s.wps[k + 1])
  }

  lemma ObeyOne(c: Course, n: nat)
    ensures var t, ts := Order(c, n), Obeyed(c, n);
      Obeyed(c, n + 1) == if t == "straight" then ts else ts + [t]
  {
    if n < |c.route| {
      assert c.route[..n + 1][..n] == c.route[..n];
    }
  }

  lemma CornerIsOnBoth(c: Course, entryRoad: real, s: Trip, road: real)
    requires Next(c, s) == Some(road) && Order(c, s.taken) != "straight"
    requires OnLane(c, entryRoad, s.heading, s.cur)
    ensures var r := Cross(c, s, road);
      Across(s.heading, r.cur) == Across(s.heading, s.cur) && OnLane(c, entryRoad, r.heading, r.cur)
  {
    var r := Cross(c, s, road);
    NextRoadFacts(RoadsCrossing(c.grid, s.heading), s.heading, Along(s.heading, s.cur));
    if Horizontal(r.heading) == Horizontal(s.heading) {
      assert r.heading == s.heading;
    } else {
      assert road in RoadsAlong(c.grid, r.heading) && Across(r.heading, r.cur) == LaneCoord(road, r.heading, Offset(c));
    }
  }

  lemma AdvanceKeepsLanes(c: Course, entryRoad: real, h: Heading, s: Trip)
    requires KeepsLanes(c, entryRoad, h, s)
    ensures KeepsLanes(c, entryRoad, h, Advance(c, s))
  {
    var r, ts := Advance(c, s), Obeyed(c, s.taken);
    var next := Next(c, s);
    if !s.out && next.Some? {
      ObeyOne(c, s.taken);
      var us := Obeyed(c, r.taken);
      if Order(c, s.taken) != "straight" {
        CornerIsOnBoth(c, entryRoad, s, next.value);
        assert us == ts + [Order(c, s.taken)] && us[..|us| - 1] == ts;
        forall k | 0 <= k < |us| ensures KeepsLane(c, entryRoad, HeadingAfter(h, us[..k]), r.wps[k], r.wps[k + 1]) {
          assert us[..k] == ts[..k];
        }
      }
    }
  }

  lemma EntryRoadFacts(c: Course, start: Point, h: Heading)
    ensures var roads, road := RoadsAlong(c.grid, h), EntryRoad(c, start, h);
      if roads == [] then road == Across(h, start)
      else road in roads && forall a :: a in roads ==> Abs(road - Across(h, start)) <= Abs(a - Across(h, start))
  {
    if RoadsAlong(c.grid, h) != [] {
      NearestFacts(RoadsAlong(c.grid, h), Across(h, start));
    }
  }

  lemma DriveKeepsLanes(c: Course, start: Point, h: Heading, n: nat)
    ensures KeepsLanes(c, EntryRoad(c, start, h), h, Drive(c, start, h, n))
  {
    var road := EntryRoad(c, start, h);
    EntryKeepsLanes(c, start, h);
    forall s | KeepsLanes(c, road, h, s) ensures KeepsLanes(c, road, h, Advance(c, s)) {
      AdvanceKeepsLanes(c, road, h, s);
    }
    Throughout(c, start, h, n, s => KeepsLanes(c, road, h, s));
  }

  // Every crossing takes one order.
  lemma {:induction false} OneOrderEach(c: Course, start: Point, h: Heading, n: nat)
    ensures var s := Drive(c, start, h, n); s.out || s.taken == n
  {
    if n > 0 {
      OneOrderEach(c, start, h, n - 1);
    }
  }

  lemma EntryKeepsLanes(c: Course, start: Point, h: Heading)
    ensures KeepsLanes(c, EntryRoad(c, start, h), h, Entry(c, start, h))
  {
    EntryRoadFacts(c, start, h);
    assert Across(h, Entry(c, start, h).cur) == LaneCoord(EntryRoad(c, start, h), h, Offset(c));
  }

  // The path makes the ordered turns, in order, as far as it comes: segment k runs along the heading
  // that the first k of them lead to, on the right-hand lane for that heading of a road of the grid.
  lemma PathFollowsRoute(c: Course, start: Point, h: Heading) returns (turns: seq<string>)
    ensures turns <= Turns(c.route)
    ensures var p := Path(c, start, h);
      && |turns| + 1 <= |p| <= |turns| + 2
      && forall k :: 0 <= k < |p| - 1 ==>
           KeepsLane(c, EntryRoad(c, start, h), HeadingAfter(h, turns[..k]), p[k], p[k + 1])
  {
    DriveKeepsLanes(c, start, h, LIMIT);
    var s := Drive(c, start, h, LIMIT);
    turns := Obeyed(c, s.taken);
    TurnsPrefix(c.route, if s.taken < |c.route| then s.taken else |c.route|);
    assert turns[..|turns|] == turns;
  }

  lemma {:induction false} TurnsPrefix(route: seq<string>, n: nat)
    requires n <= |route|
    ensures Turns(route[..n]) <= Turns(route)
  {
    if n < |route| {
      TurnsPrefix(route[..|route| - 1], n);
      assert route[..|route| - 1][..n] == route[..n];
    } else {
      assert route[..n] == route;
    }
  }

  // -- leaving the grid -------------------------------------------------------------------------------

  // How many roads are still more than 1 m ahead.
  function Left(roads: seq<real>, h: Heading, x: real): nat {
    if roads == [] then 0
    else Left(roads[..|roads| - 1], h, x) + (if Ahead(h, x, roads[|roads| - 1]) > 1.0 then 1 else 0)
  }

  lemma {:induction false} LeftFalls(roads: seq<real>, h: Heading, x: real, y: real)
    requires Ahead(h, x, y) >= 0.0
    ensures Left(roads, h, y) <= Left(roads, h, x) <= |roads|
    ensures (exists a :: a in roads && Ahead(h, x, a) > 1.0 && Ahead(h, y, a) <= 1.0) ==>
      Left(roads, h, y) < Left(roads, h, x)
  {
    if roads != [] {
      assert roads == roads[..|roads| - 1] + [roads[|roads| - 1]];
      LeftFalls(roads[..|roads| - 1], h, x, y);
    }
  }

  lemma {:induction false} NoneLeft(roads: seq<real>, h: Heading, x: real)
    ensures Left(roads, h, x) == 0 <==> NextRoad(roads, h, x).None?
  {
    if roads != [] {
      NoneLeft(roads[..|roads| - 1], h, x);
    }
  }

  function LeftOf(c: Course, s: Trip): nat {
    Left(RoadsCrossing(c.grid, s.heading), s.heading, Along(s.heading, s.cur))
  }

  // With no order left to obey, every crossing leaves one road fewer ahead.
  lemma StraightOn(c: Course, s: Trip)
    requires !s.out && s.taken >= |c.route|
    ensures var r := Advance(c, s); r.out || (r.heading == s.heading && LeftOf(c, r) < LeftOf(c, s))
  {
    var next := Next(c, s);
    NextRoadFacts(RoadsCrossing(c.grid, s.heading), s.heading, Along(s.heading, s.cur));
    if next.Some? {
      var r := Advance(c, s);
      assert Along(s.heading, r.cur) == Onward(s.heading, next.value, 0.5);
      LeftFalls(RoadsCrossing(c.grid, s.heading), s.heading, Along(s.heading, s.cur), Along(s.heading, r.cur));
    }
  }

  ghost predicate RunningOut(c: Course, s: Trip, k: nat) {
    s.out || k + LeftOf(c, s) <= |RoadsCrossing(c.grid, s.heading)|
  }

  lemma RunOutStep(c: Course, s: Trip, r: Trip, k: nat)
    requires RunningOut(c, s, k) && (s.out || s.taken >= |c.route|) && r == Advance(c, s)
    ensures RunningOut(c, r, k + 1)
  {
    if !s.out {
      StraightOn(c, s);
    }
  }

  lemma RunOutStart(c: Course, s: Trip)
    ensures RunningOut(c, s, 0)
  {
    LeftFalls(RoadsCrossing(c.grid, s.heading), s.heading, Along(s.heading, s.cur), Along(s.heading, s.cur));
  }

  lemma {:induction false} RunsOut(c: Course, start: Point, h: Heading, k: nat)
    ensures RunningOut(c, Drive(c, start, h, |c.route| + k), k)
  {
    if k == 0 {
      RunOutStart(c, Drive(c, start, h, |c.route|));
    } else {
      RunsOut(c, start, h, k - 1);
      OneOrderEach(c, start, h, |c.route| + k - 1);
      RunOutStep(c, Drive(c, start, h, |c.route| + k - 1), Drive(c, start, h, |c.route| + k), k - 1);
    }
  }

  // The path ends on the exit margin, at the edge that its last heading points to.
  lemma PathLeavesGrid(c: Course, start: Point, h: Heading) returns (turns: seq<string>)
    requires |c.route| + |c.grid.hRoads| < LIMIT && |c.route| + |c.grid.vRoads| < LIMIT
    ensures turns <= Turns(c.route)
    ensures var p, last := Path(c, start, h), HeadingAfter(h, turns);
      |p| == |turns| + 2 && Along(last, p[|p| - 1]) == ExitCoord(c, last)
  {
    var k := LIMIT - |c.route|;
    var s := Drive(c, start, h, |c.route| + k);
    RunsOut(c, start, h, k);
    DriveKeepsLanes(c, start, h, LIMIT);
    turns := Obeyed(c, s.taken);
    TurnsPrefix(c.route, if s.taken < |c.route| then s.taken else |c.route|);
  }

  // -- straight on, exactly -----------------------------------------------------------------------------

  ghost predicate IsStraight(route: seq<string>) { forall t :: t in route ==> t == "straight" }

  // Roads so far apart that a crossing never takes two of them at once.
  ghost predicate Apart(roads: seq<real>) {
    forall i, j :: 0 <= i < j < |roads| ==> Abs(roads[i] - roads[j]) > 1.5
  }

  // Every other road is more than 1.5 m from `next`.
  ghost predicate ApartFrom(roads: seq<real>, next: real) {
    forall i :: 0 <= i < |roads| && roads[i] != next ==> Abs(roads[i] - next) > 1.5
  }

  ghost predicate NoneNearer(roads: seq<real>, h: Heading, x: real, next: real) {
    forall i :: 0 <= i < |roads| && Ahead(h, x, roads[i]) > 1.0 ==> Ahead(h, x, next) <= Ahead(h, x, roads[i])
  }

  lemma OthersAreApart(roads: seq<real>, next: real)
    requires Apart(roads) && next in roads
    ensures ApartFrom(roads, next)
  {
    var i :| 0 <= i < |roads| && roads[i] == next;
    forall j | 0 <= j < |roads| && roads[j] != next ensures Abs(roads[j] - next) > 1.5 {
      assert if i < j then Abs(roads[i] - roads[j]) > 1.5 else Abs(roads[j] - roads[i]) > 1.5;
    }
  }

  // A crossing leaves exactly the road it crosses behind.
  lemma {:induction false} LeftFallsByOne(roads: seq<real>, h: Heading, x: real, next: real)
    requires Apart(roads) && Ahead(h, x, next) > 1.0 && ApartFrom(roads, next) && NoneNearer(roads, h, x, next)
    ensures Left(roads, h, Onward(h, next, 0.5)) == Left(roads, h, x) - (if next in roads then 1 else 0)
  {
    if roads != [] {
      var front, a := roads[..|roads| - 1], roads[|roads| - 1];
      assert roads == front + [a];
      LeftFallsByOne(front, h, x, next);
      LastIsNew(front, a);
      OneRoad(h, x, next, a);
    }
  }

  lemma LastIsNew(front: seq<real>, a: real)
    requires Apart(front + [a])
    ensures a !in front
  {
    var roads := front + [a];
    forall i | 0 <= i < |front| ensures front[i] != a {
      assert Abs(roads[i] - roads[|front|]) > 1.5;
    }
  }

  lemma OneRoad(h: Heading, x: real, next: real, a: real)
    requires Ahead(h, x, next) > 1.0 && (a != next ==> Abs(a - next) > 1.5)
    requires Ahead(h, x, a) > 1.0 ==> Ahead(h, x, next) <= Ahead(h, x, a)
    ensures Ahead(h, Onward(h, next, 0.5), a) > 1.0 <==> Ahead(h, x, a) > 1.0 && a != next
  {
  }

  // The state of a drive straight on after n crossings, from p: there are as many crossings as roads ahead.
  ghost predicate GoesStraight(c: Course, h: Heading, p: Point, s: Trip, n: nat) {
    && s.heading == h && Across(h, s.cur) == Across(h, p)
    && if n <= Left(RoadsCrossing(c.grid, h), h, Along(h, p)) then
         !s.out && s.wps == [p] && LeftOf(c, s) == Left(RoadsCrossing(c.grid, h), h, Along(h, p)) - n
       else s.out && s.wps == [p, Place(h, ExitCoord(c, h), Across(h, p))]
  }

  lemma StraightStep(c: Course, h: Heading, p: Point, s: Trip, n: nat)
    requires IsStraight(c.route) && Apart(RoadsCrossing(c.grid, h)) && GoesStraight(c, h, p, s, n)
    ensures GoesStraight(c, h, p, Advance(c, s), n + 1)
  {
    var roads, x := RoadsCrossing(c.grid, h), Along(h, s.cur);
    NoneLeft(roads, h, x);
    if !s.out && Next(c, s).Some? {
      var next := Next(c, s).value;
      NextRoadFacts(roads, h, x);
      OthersAreApart(roads, next);
      LeftFallsByOne(roads, h, x, next);
      assert s.taken < |c.route| ==> c.route[s.taken] in c.route;
    }
  }

  lemma {:induction false} StraightDrive(c: Course, start: Point, h: Heading, n: nat)
    requires IsStraight(c.route) && Apart(RoadsCrossing(c.grid, h))
    ensures GoesStraight(c, h, Entry(c, start, h).cur, Drive(c, start, h, n), n)
  {
    if n > 0 {
      StraightDrive(c, start, h, n - 1);
      StraightStep(c, h, Entry(c, start, h).cur, Drive(c, start, h, n - 1), n - 1);
    }
  }

  // Straight on over roads more than 1.5 m apart, the vehicle leaves the grid exactly when fewer than 60
  // roads lie more than 1 m ahead of its entry; otherwise its path is the entry alone.
  lemma StraightPathLeavesIff(c: Course, start: Point, h: Heading)
    requires IsStraight(c.route) && Apart(RoadsCrossing(c.grid, h))
    ensures var p := Entry(c, start, h).cur;
      Path(c, start, h) ==
        if Left(RoadsCrossing(c.grid, h), h, Along(h, p)) < LIMIT then [p, Place(h, ExitCoord(c, h), Across(h, p))]
        else [p]
  {
    StraightDrive(c, start, h, LIMIT);
  }

  function Ladder(): seq<real> { seq(LIMIT, i => 2.0 * (i as real + 1.0)) }

  lemma {:induction false} LadderIsAhead(n: nat)
    requires n <= LIMIT
    ensures Left(Ladder()[..n], East, 0.0) == n
  {
    if n > 0 {
      LadderIsAhead(n - 1);
      assert Ladder()[..n][..n - 1] == Ladder()[..n - 1];
    }
  }

  // One road too many ahead and the path stops inside the grid.
  lemma PathStopsInside(c: Course)
    requires c.route == [] && c.grid.hRoads == [] && c.grid.vRoads == Ladder()
    ensures Path(c, Point(0.0, 0.0), East) == [Point(0.0, Offset(c))]
  {
    LadderIsAhead(LIMIT);
    assert Ladder()[..LIMIT] == Ladder();
    StraightPathLeavesIff(c, Point(0.0, 0.0), East);
  }

  // -- no segment runs backwards ----------------------------------------------------------------------

  // Roads of the same direction are a lane pair apart, and inside the world.
  ghost predicate Spaced(c: Course, roads: seq<real>, extent: real) {
    && (forall r :: r in roads ==> 0.0 <= r <= extent)
    && (forall q, r :: q in roads && r in roads && q < r ==> r - q >= 2.0 * Offset(c) && r - q >= Offset(c) + 0.5)
  }

  ghost predicate WellLaid(c: Course) {
    && 0.0 <= Offset(c) <= 30.0
    && Spaced(c, c.grid.vRoads, c.width) && Spaced(c, c.grid.hRoads, c.height)
  }

  ghost predicate InWorld(c: Course, p: Point) {
    -30.0 <= p.x <= c.width + 30.0 && -30.0 <= p.y <= c.height + 30.0
  }

  // The next crossing is not so close that its near lane is already behind.
  ghost predicate Clear(c: Course, h: Heading, p: Point) {
    forall r :: r in RoadsCrossing(c.grid, h) && Ahead(h, Along(h, p), r) > 1.0 ==>
      Ahead(h, Along(h, p), r) >= Offset(c)
  }

  ghost predicate Forward(h: Heading, a: Point, b: Point) {
    Ahead(h, Along(h, a), Along(h, b)) >= 0.0
  }

  ghost predicate GoesForward(c: Course, h: Heading, s: Trip) {
    var ts := Obeyed(c, s.taken);
    && InWorld(c, s.cur) && Clear(c, s.heading, s.cur)
    && |s.wps| == |ts| + (if s.out then 2 else 1)
    && Forward(s.heading, s.wps[|ts|], s.cur)
    && (s.out ==> Forward(s.heading, s.wps[|ts|], s.wps[|ts| + 1]))
    && forall k :: 0 <= k < |ts| ==> Forward(HeadingAfter(h, ts[..k]), s.wps[k], s.wps[k + 1])
  }

  // Stepping past a crossing, or turning at it, leaves the way to the next one clear.
  lemma CrossIsClear(c: Course, entryRoad: real, s: Trip, road: real)
    requires WellLaid(c) && InWorld(c, s.cur) && Clear(c, s.heading, s.cur) && OnLane(c, entryRoad, s.heading, s.cur)
    requires Next(c, s) == Some(road)
    ensures var r := Cross(c, s, road);
      InWorld(c, r.cur) && Clear(c, r.heading, r.cur) && Forward(s.heading, s.cur, r.cur)
  {
    NextRoadFacts(RoadsCrossing(c.grid, s.heading), s.heading, Along(s.heading, s.cur));
    var r := Cross(c, s, road);
    if Horizontal(r.heading) != Horizontal(s.heading) {
      CornerIsClear(c, entryRoad, s, road);
    }
  }

  lemma CornerIsClear(c: Course, entryRoad: real, s: Trip, road: real)
    requires WellLaid(c) && InWorld(c, s.cur) && Clear(c, s.heading, s.cur) && OnLane(c, entryRoad, s.heading, s.cur)
    requires IsNext(RoadsCrossing(c.grid, s.heading), s.heading, Along(s.heading, s.cur), road)
    requires Horizontal(Cross(c, s, road).heading) != Horizontal(s.heading)
    ensures var r := Cross(c, s, road);
      InWorld(c, r.cur) && Clear(c, r.heading, r.cur) && Forward(s.heading, s.cur, r.cur)
  {
  }

  lemma AdvanceGoesForward(c: Course, entryRoad: real, h: Heading, s: Trip)
    requires WellLaid(c) && GoesForward(c, h, s) && KeepsLanes(c, entryRoad, h, s)
    ensures GoesForward(c, h, Advance(c, s))
  {
    var r, ts := Advance(c, s), Obeyed(c, s.taken);
    var next := Next(c, s);
    if !s.out && next.Some? {
      ObeyOne(c, s.taken);
      CrossIsClear(c, entryRoad, s, next.value);
      var us := Obeyed(c, r.taken);
      if Order(c, s.taken) != "straight" {
        assert us == ts + [Order(c, s.taken)] && us[..|us| - 1] == ts;
        forall k | 0 <= k < |us| ensures Forward(HeadingAfter(h, us[..k]), r.wps[k], r.wps[k + 1]) {
          assert us[..k] == ts[..k];
        }
      }
    }
  }

  ghost predicate EntersClear(c: Course, start: Point, h: Heading) {
    InWorld(c, Entry(c, start, h).cur) && Clear(c, h, Entry(c, start, h).cur)
  }

  lemma EntryGoesForward(c: Course, start: Point, h: Heading)
    requires EntersClear(c, start, h)
    ensures GoesForward(c, h, Entry(c, start, h))
  {
  }

  ghost predicate GoesWell(c: Course, entryRoad: real, h: Heading, s: Trip) {
    KeepsLanes(c, entryRoad, h, s) && GoesForward(c, h, s)
  }

  lemma DriveGoesForward(c: Course, start: Point, h: Heading, n: nat)
    requires WellLaid(c) && EntersClear(c, start, h)
    ensures GoesWell(c, EntryRoad(c, start, h), h, Drive(c, start, h, n))
  {
    var road := EntryRoad(c, start, h);
    EntryKeepsLanes(c, start, h);
    EntryGoesForward(c, start, h);
    forall s | GoesWell(c, road, h, s) ensures GoesWell(c, road, h, Advance(c, s)) {
      AdvanceKeepsLanes(c, road, h, s);
      AdvanceGoesForward(c, road, h, s);
    }
    Throughout(c, start, h, n, s => GoesWell(c, road, h, s));
  }

  // In a well-laid grid, entered in the world and clear of the first crossing, every segment of the
  // path runs the way it is headed.
  lemma PathGoesForward(c: Course, start: Point, h: Heading) returns (turns: seq<string>)
    requires WellLaid(c) && EntersClear(c, start, h)
    ensures turns <= Turns(c.route)
    ensures var p := Path(c, start, h);
      && |turns| + 1 <= |p| <= |turns| + 2
      && forall k :: 0 <= k < |p| - 1 ==> Forward(HeadingAfter(h, turns[..k]), p[k], p[k + 1])
  {
    DriveGoesForward(c, start, h, LIMIT);
    var s := Drive(c, start, h, LIMIT);
    turns := Obeyed(c, s.taken);
    TurnsPrefix(c.route, if s.taken < |c.route| then s.taken else |c.route|);
    assert turns[..|turns|] == turns;
  }
}
