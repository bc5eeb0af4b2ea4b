// One crossing, point by point: where a route from each side leads in a grid of two roads. Vehicles keep to the
// right of the centre line, which with y down is south of it going east and west of it going south.
module GridRuns {
  import opened Basics
  import opened Plane
  import opened GridPath

  // One road at height y, one at x, and a lane that lies `off` from the centre line.
  ghost predicate IsCrossing(c: Course, x: real, y: real, off: real) {
    && c.grid.hRoads == [y] && c.grid.vRoads == [x]
    && off == (c.lane as real + 0.5) * c.grid.laneWidth && off >= 0.0
  }

  // The crossing is more than a metre ahead of the start.
  predicate Approaches(start: Point, h: Heading, x: real, y: real) {
    match h
    case East => start.x < x - 1.0
    case West => start.x > x + 1.0
    case South => start.y < y - 1.0
    case North => start.y > y + 1.0
  }

  function LaneX(h: Heading, x: real, off: real): real { if h.South? then x - off else x + off }

  function LaneY(h: Heading, y: real, off: real): real { if h.East? then y + off else y - off }

  function EntryPoint(start: Point, h: Heading, x: real, y: real, off: real): Point {
    match h
    case East => Point(start.x, y + off)
    case West => Point(start.x, y - off)
    case South => Point(x - off, start.y)
    case North => Point(x + off, start.y)
  }

  // Where the two lanes meet.
  function Corner(from: Heading, to: Heading, x: real, y: real, off: real): Point {
    if from.East? || from.West? then Point(LaneX(to, x, off), LaneY(from, y, off))
    else Point(LaneX(from, x, off), LaneY(to, y, off))
  }

  // Thirty metres beyond the edge that the heading leads to.
  function ExitPoint(c: Course, h: Heading, p: Point): Point {
    match h
    case East => Point(c.width + 30.0, p.y)
    case West => Point(-30.0, p.y)
    case South => Point(p.x, c.height + 30.0)
    case North => Point(p.x, -30.0)
  }

  function RightOf(h: Heading): Heading {
    match h case East => South case South => West case West => North case North => East
  }

  lemma RightTurns(h: Heading)
    ensures Turn(h, "right") == RightOf(h) && Turn(h, "left") == RightOf(RightOf(RightOf(h)))
  {
  }

  lemma OnlyRoad(road: real, h: Heading, at: real)
    ensures NextRoad([road], h, at) == if Ahead(h, at, road) > 1.0 then Some(road) else None
    ensures Nearest([road], at) == road
  {
    assert [road][..0] == [];
  }

  lemma EntersAt(c: Course, start: Point, h: Heading, x: real, y: real, off: real)
    requires IsCrossing(c, x, y, off) && Approaches(start, h, x, y)
    ensures var p := EntryPoint(start, h, x, y, off);
      Drive(c, start, h, 0) == Trip(p, h, 0, [p], false)
    ensures Next(c, Drive(c, start, h, 0)) == Some(if Horizontal(h) then x else y)
  {
    OnlyRoad(x, h, start.x);
    OnlyRoad(y, h, start.y);
    OnlyRoad(x, h, Across(h, start));
    OnlyRoad(y, h, Across(h, start));
    assert Offset(c) == off;
  }

  // Straight on, the path leads from the entry to the exit.
  lemma GoesStraightOn(c: Course, start: Point, h: Heading, x: real, y: real, off: real)
    requires IsCrossing(c, x, y, off) && Approaches(start, h, x, y) && c.route == []
    ensures var p := EntryPoint(start, h, x, y, off); Path(c, start, h) == [p, ExitPoint(c, h, p)]
  {
    var p, road := EntryPoint(start, h, x, y, off), if Horizontal(h) then x else y;
    EntersAt(c, start, h, x, y, off);
    var s := Cross(c, Trip(p, h, 0, [p], false), road);
    CrossStep(c, start, h, 0, Trip(p, h, 0, [p], false), road);
    OnlyRoad(road, h, Along(h, s.cur));
    ExitStep(c, start, h, 1, s, ExitPoint(c, h, p));
  }

  // A turn leads round the corner: to the right on the near side of the crossing, to the left across it.
  lemma TurnsOff(c: Course, start: Point, h: Heading, right: bool, x: real, y: real, off: real)
    requires IsCrossing(c, x, y, off) && Approaches(start, h, x, y)
    requires c.route == [if right then "right" else "left"]
    ensures var p := EntryPoint(start, h, x, y, off);
      var to := if right then RightOf(h) else RightOf(RightOf(RightOf(h)));
      var q := Corner(h, to, x, y, off);
      Path(c, start, h) == [p, q, ExitPoint(c, to, q)]
  {
    var p, road := EntryPoint(start, h, x, y, off), if Horizontal(h) then x else y;
    var to := if right then RightOf(h) else RightOf(RightOf(RightOf(h)));
    var q := Corner(h, to, x, y, off);
    EntersAt(c, start, h, x, y, off);
    RightTurns(h);
    var s := Trip(q, to, 1, [p, q], false);
    CrossStep(c, start, h, 0, Trip(p, h, 0, [p], false), road);
    assert Cross(c, Trip(p, h, 0, [p], false), road) == s;
    var other := if Horizontal(to) then x else y;
    OnlyRoad(other, to, Along(to, q));
    if Next(c, s).None? {
      ExitStep(c, start, h, 1, s, ExitPoint(c, to, q));
    } else {
      PassesAgain(c, start, h, s, other);
    }
  }

  // After a left turn from a wide lane the crossing lies ahead once more, and is passed straight on.
  lemma PassesAgain(c: Course, start: Point, h: Heading, s: Trip, road: real)
    requires Drive(c, start, h, 1) == s && !s.out && s.taken == 1 && |c.route| == 1
    requires RoadsCrossing(c.grid, s.heading) == [road] && Next(c, s) == Some(road)
    ensures Path(c, start, h) == s.wps + [ExitPoint(c, s.heading, s.cur)]
  {
    var r := Cross(c, s, road);
    CrossStep(c, start, h, 1, s, road);
    OnlyRoad(road, s.heading, Along(s.heading, r.cur));
    ExitStep(c, start, h, 2, r, ExitPoint(c, s.heading, s.cur));
  }
}
