// Which sightings a tick can have: what the lidar reports follows from where the cars and hazards are, how
// far the fog lets it see, and what stands in the way.
module Lidar {
  import opened Basics
  import opened Events
  import opened Awareness
  import opened GraphStore
  import opened Plane

  // The scenario's cars and hazards, in the order the engine visits them.
  ghost function CarList(sc: Scenario): seq<Id> {
    seq(|sc.cars|, i requires 0 <= i < |sc.cars| => sc.cars[i].id)
  }

  ghost function HazardList(sc: Scenario): seq<Id> {
    seq(|sc.hazards|, i requires 0 <= i < |sc.hazards| => sc.hazards[i].id)
  }

  // Where every actor is in a tick, if it is anywhere.
  type Places = map<Id, Point>

  // The hazards that are somewhere, in order.
  ghost function Placed(hazards: seq<Id>, at: Places): seq<Id> {
    if hazards == [] then []
    else
      var h := hazards[|hazards| - 1];
      Placed(hazards[..|hazards| - 1], at) + (if h in at then [h] else [])
  }

  // A hazard at distance d is out of range, or hidden by fog beyond the range `reach` that the fog leaves, or
  // visible, or behind an occluder.
  ghost predicate MaySight(w: World, reach: real, d: real, s: Sighting) {
    && s.distance == d
    && if d > w.lidarRange then !s.visible && s.reason == Some("out_of_range")
       else if d > reach then !s.visible && s.reason == Some("fog")
       else if s.visible then s.reason == None
       else exists occluder :: s.reason == Some("occluded_by:" + occluder)
  }

  // A car that is somewhere gets one sighting of every hazard that is somewhere, in order.
  ghost predicate MaySense(dist: Metric, w: World, hazards: seq<Id>, at: Places, reach: real, car: Id,
                           ss: seq<Sighting>) {
    if car !in at then ss == []
    else
      && |ss| == |Placed(hazards, at)|
      && forall i :: 0 <= i < |ss| ==>
           && ss[i].hazard == Placed(hazards, at)[i]
           && ss[i].hazard in at
           && MaySight(w, reach, dist(at[car], at[ss[i].hazard]), ss[i])
  }

  ghost predicate AllSense(dist: Metric, w: World, sc: Scenario, tk: Tick, at: Places, reach: real) {
    reach <= w.lidarRange
    && forall c :: c in CarList(sc) ==> MaySense(dist, w, HazardList(sc), at, reach, c, SightingsOf(tk, c))
  }

  // The sightings of the tick are such as the lidar gives.
  ghost predicate IsSensed(dist: Metric, w: World, sc: Scenario, tk: Tick) {
    exists at: Places, reach: real :: AllSense(dist, w, sc, tk, at, reach)
  }

  // What that means for one sighting.
  lemma SightingFacts(dist: Metric, w: World, sc: Scenario, tk: Tick, car: Id, s: Sighting)
    requires IsEuclidean(dist) && IsSensed(dist, w, sc, tk) && car in CarList(sc) && s in SightingsOf(tk, car)
    ensures s.distance >= 0.0 && (s.visible <==> s.reason == None) && s.reason != Some("")
    ensures s.visible ==> s.distance <= w.lidarRange
  {
    var at: Places, reach: real :| AllSense(dist, w, sc, tk, at, reach);
    var ss := SightingsOf(tk, car);
    assert MaySense(dist, w, HazardList(sc), at, reach, car, ss);
    var i :| 0 <= i < |ss| && ss[i] == s;
    DistSign(dist, at[car], at[s.hazard]);
  }

  // -- a tick with given sightings ----------------------------------------------------------------------

  // All cars are at one point and all other hazards at distance d straight ahead of them.
  ghost function Lineup(sc: Scenario, d: real): Id -> Point {
    x => if x in CarList(sc) then Point(0.0, 0.0) else Point(d, 0.0)
  }

  // Car c's view of a hazard at distance d: it is seen if (c, h) is in `seen`, and else behind a truck.
  ghost function View(seen: set<(Id, Id)>, c: Id, h: Id, d: real): Sighting {
    if (c, h) in seen then Sighting(h, true, None, d, true)
    else Sighting(h, false, Some("occluded_by:" + "truck"), d, true)
  }

  ghost function ViewsOf(dist: Metric, sc: Scenario, d: real, seen: set<(Id, Id)>, c: Id): seq<Sighting> {
    var hs := HazardList(sc);
    seq(|hs|, i requires 0 <= i < |hs| => View(seen, c, hs[i], dist(Lineup(sc, d)(c), Lineup(sc, d)(hs[i]))))
  }

  lemma ViewAt(dist: Metric, sc: Scenario, d: real, seen: set<(Id, Id)>, c: Id, i: nat)
    requires i < |HazardList(sc)|
    ensures var s := ViewsOf(dist, sc, d, seen, c)[i];
      s.hazard == HazardList(sc)[i] && (s.visible <==> (c, s.hazard) in seen)
  {
    var h := HazardList(sc)[i];
    assert ViewsOf(dist, sc, d, seen, c)[i] == View(seen, c, h, dist(Lineup(sc, d)(c), Lineup(sc, d)(h)));
  }

  ghost function TickOf(dist: Metric, sc: Scenario, d: real, seen: set<(Id, Id)>, delivered: set<(Id, Id)>,
                        n: nat): Tick
  {
    Tick(n as real, n, map c | c in CarList(sc) :: ViewsOf(dist, sc, d, seen, c), delivered,
         (_, _, _) => HopReport(10.0, 1, 0, true))
  }

  lemma LineupIsNear(dist: Metric, sc: Scenario, d: real, c: Id, h: Id)
    requires IsEuclidean(dist) && d >= 0.0 && c in CarList(sc)
    ensures 0.0 <= dist(Lineup(sc, d)(c), Lineup(sc, d)(h)) <= d
  {
    DistAlongX(dist, Lineup(sc, d)(c), Lineup(sc, d)(h));
  }

  lemma {:induction false} AllPlaced(hazards: seq<Id>, at: Places)
    requires forall h :: h in hazards ==> h in at
    ensures Placed(hazards, at) == hazards
  {
    if hazards != [] {
      AllPlaced(hazards[..|hazards| - 1], at);
    }
  }

  lemma TickIsSensed(dist: Metric, w: World, sc: Scenario, d: real, seen: set<(Id, Id)>, delivered: set<(Id, Id)>,
                     n: nat)
    requires IsEuclidean(dist) && 0.0 <= d <= w.lidarRange
    ensures IsSensed(dist, w, sc, TickOf(dist, sc, d, seen, delivered, n))
  {
    var tk := TickOf(dist, sc, d, seen, delivered, n);
    var at := map x | x in CarList(sc) + HazardList(sc) :: Lineup(sc, d)(x);
    AllPlaced(HazardList(sc), at);
    forall c | c in CarList(sc)
      ensures MaySense(dist, w, HazardList(sc), at, w.lidarRange, c, SightingsOf(tk, c))
    {
      ViewsMayBe(dist, w, sc, d, seen, c, at);
    }
    assert AllSense(dist, w, sc, tk, at, w.lidarRange);
  }

  lemma ViewMayBe(w: World, seen: set<(Id, Id)>, c: Id, h: Id, d: real)
    requires d <= w.lidarRange
    ensures MaySight(w, w.lidarRange, d, View(seen, c, h, d))
  {
    assert View(seen, c, h, d).visible || View(seen, c, h, d).reason == Some("occluded_by:" + "truck");
  }

  lemma ViewsMayBe(dist: Metric, w: World, sc: Scenario, d: real, seen: set<(Id, Id)>, c: Id, at: Places)
    requires IsEuclidean(dist) && 0.0 <= d <= w.lidarRange && c in CarList(sc)
    requires Placed(HazardList(sc), at) == HazardList(sc)
    requires at == map x | x in CarList(sc) + HazardList(sc) :: Lineup(sc, d)(x)
    ensures MaySense(dist, w, HazardList(sc), at, w.lidarRange, c, ViewsOf(dist, sc, d, seen, c))
  {
    var ss := ViewsOf(dist, sc, d, seen, c);
    assert |ss| == |HazardList(sc)|;
    forall i | 0 <= i < |ss|
      ensures ss[i].hazard == HazardList(sc)[i] && ss[i].hazard in at
      ensures MaySight(w, w.lidarRange, dist(at[c], at[ss[i].hazard]), ss[i])
    {
      var h := HazardList(sc)[i];
      assert h in HazardList(sc) && at[c] == Lineup(sc, d)(c) && at[h] == Lineup(sc, d)(h);
      LineupIsNear(dist, sc, d, c, h);
      assert ss[i] == View(seen, c, h, dist(Lineup(sc, d)(c), Lineup(sc, d)(h)));
      ViewMayBe(w, seen, c, h, dist(at[c], at[h]));
    }
  }
}
