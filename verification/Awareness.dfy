// The awareness half of the simulation engine: lidar sightings, radio propagation over the live
// delivery graph, and braking decisions, tick by tick.
//
// Lidar results, the delivery relation and the modem's hop reports are inputs of each tick, so
// everything holds for every world and every radio.
module Awareness {
  import opened Basics
  import opened PathSearch
  import opened Events

  datatype World = World(lidarRange: real, brakeReaction: real, awarenessHorizon: real)

  datatype Sighting = Sighting(hazard: Id, visible: bool, reason: Option<string>, distance: real, ahead: bool)

  datatype Tick = Tick(
    t: real,
    n: nat,
    sightings: map<Id, seq<Sighting>>,
    delivered: set<(Id, Id)>,
    report: (Id, Id, Id) -> HopReport)

  // The program keeps one set of hazards per car; here they are sets of (car, hazard) pairs.
  datatype State = State(
    observed: set<(Id, Id)>,
    aware: set<(Id, Id)>,
    viaRadio: set<(Id, Id)>,
    braked: set<(Id, Id)>,
    blind: set<(Id, Id)>,
    heardHops: set<(Id, Id, Id)>,
    relayedEdges: set<(Id, Id, Id, Id)>,
    permStop: set<Id>,
    log: seq<GraphEvent>)

  const EMPTY := State({}, {}, {}, {}, {}, {}, {}, {}, [])

  function Emit(st: State, t: real, n: nat, f: Fact): State {
    st.(log := st.log + [GraphEvent(t, n, f)])
  }

  // -- insertion-ordered dictionaries of hazards ------------------------------------------------

  function Put(d: seq<(Id, real)>, h: Id, x: real): (r: seq<(Id, real)>)
    ensures forall g :: HasKey(r, g) <==> g == h || HasKey(d, g)
  {
    if d == [] then
      HasKeyCons((h, x), []);
      assert [(h, x)] + [] == [(h, x)];
      [(h, x)]
    else
      assert d == [d[0]] + d[1..];
      HasKeyCons(d[0], d[1..]);
      if d[0].0 == h then
        HasKeyCons((h, x), d[1..]);
        [(h, x)] + d[1..]
      else
        var r := Put(d[1..], h, x);
        HasKeyCons(d[0], r);
        [d[0]] + r
  }

  predicate HasKey(d: seq<(Id, real)>, h: Id) {
    exists i :: 0 <= i < |d| && d[i].0 == h
  }

  lemma HasKeyCons(e: (Id, real), d: seq<(Id, real)>)
    ensures forall g :: HasKey([e] + d, g) <==> e.0 == g || HasKey(d, g)
  {
    var l := [e] + d;
    forall g ensures HasKey(l, g) <==> e.0 == g || HasKey(d, g) {
      if e.0 == g {
        assert l[0].0 == g;
      } else if HasKey(d, g) {
        var i :| 0 <= i < |d| && d[i].0 == g;
        assert l[i + 1].0 == g;
      }
    }
  }

  // The hazards ahead of the car within `limit`, in the order they were sighted.
  function Ahead(ss: seq<Sighting>, limit: real): seq<(Id, real)> {
    if ss == [] then []
    else
      Noted(Ahead(ss[..|ss| - 1], limit), ss[|ss| - 1], limit)
  }

  function Noted(d: seq<(Id, real)>, s: Sighting, limit: real): seq<(Id, real)> {
    if s.ahead && s.distance <= limit then Put(d, s.hazard, s.distance) else d
  }

  function SightingsOf(tk: Tick, car: Id): seq<Sighting> {
    if car in tk.sightings then tk.sightings[car] else []
  }

  // -- step 1: lidar ------------------------------------------------------------------------------

  function Observe(w: World, tk: Tick, st: State, car: Id, s: Sighting): State {
    if s.visible then
      if (car, s.hazard) in st.observed then st
      else
        var st1 := Emit(st.(observed := st.observed + {(car, s.hazard)}, aware := st.aware + {(car, s.hazard)}),
                        tk.t, tk.n, Observed(car, s.hazard, s.distance));
        if (car, s.hazard) in st.aware then st1
        else Emit(st1, tk.t, tk.n, AwareOf(car, s.hazard, Lidar, [car], 0))
    else if s.ahead && s.reason.Some? && s.reason.value != "" && s.distance <= w.lidarRange
            && (car, s.hazard) !in st.blind then
      Emit(st.(blind := st.blind + {(car, s.hazard)}), tk.t, tk.n,
           BlindTo(car, s.hazard, s.reason.value, s.distance))
    else st
  }

  function Observes(w: World, tk: Tick, st: State, vs: seq<(Id, Sighting)>): State {
    if vs == [] then st
    else Observe(w, tk, Observes(w, tk, st, vs[..|vs| - 1]), vs[|vs| - 1].0, vs[|vs| - 1].1)
  }

  // -- step 2: the delivery graph ---------------------------------------------------------------

  function HeardBy(cars: seq<Id>, delivered: set<(Id, Id)>, u: Id): (r: seq<Id>)
    ensures forall v :: v in r <==> v in cars && v != u && (u, v) in delivered
  {
    if cars == [] then []
    else
      var v := cars[|cars| - 1];
      assert cars == cars[..|cars| - 1] + [v];
      HeardBy(cars[..|cars| - 1], delivered, u) + (if v != u && (u, v) in delivered then [v] else [])
  }

  function DeliveryGraph(cars: seq<Id>, delivered: set<(Id, Id)>): Adjacency {
    map u | u in cars :: HeardBy(cars, delivered, u)
  }

  // -- step 3: propagation -----------------------------------------------------------------------

  function Observers(cars: seq<Id>, observed: set<(Id, Id)>, car: Id, h: Id): (r: seq<Id>)
    ensures forall o :: o in r <==> o in cars && (o, h) in observed && o != car
  {
    if cars == [] then []
    else
      var o := cars[|cars| - 1];
      assert cars == cars[..|cars| - 1] + [o];
      Observers(cars[..|cars| - 1], observed, car, h) + (if (o, h) in observed && o != car then [o] else [])
  }

  function WarningPath(cars: seq<Id>, tk: Tick, observed: set<(Id, Id)>, car: Id, h: Id): Option<seq<Id>> {
    Bfs(DeliveryGraph(cars, tk.delivered), Observers(cars, observed, car, h), car)
  }

  function Hop(tk: Tick, st: State, path: seq<Id>, h: Id, i: nat): State
    requires i + 1 < |path|
  {
    var hop := (path[i], path[i + 1], h);
    if hop in st.heardHops then st
    else
      Emit(st.(heardHops := st.heardHops + {hop}), tk.t, tk.n,
           Heard(path[i + 1], path[i], h, tk.report(path[i], path[i + 1], h), i > 0))
  }

  // The first k hops of the path.
  function Hops(tk: Tick, st: State, path: seq<Id>, h: Id, k: nat): State
    requires k < |path|
  {
    if k == 0 then st else Hop(tk, Hops(tk, st, path, h, k - 1), path, h, k - 1)
  }

  function RelayedVia(tk: Tick, st: State, path: seq<Id>, h: Id, i: nat): State
    requires 1 <= i < |path|
  {
    var edge := (path[i], path[0], path[|path| - 1], h);
    if edge in st.relayedEdges then st
    else
      Emit(st.(relayedEdges := st.relayedEdges + {edge}), tk.t, tk.n,
           RelayedBy(path[i], h, path[0], path[|path| - 1]))
  }

  // The relays among path[1], ..., path[k - 1].
  function Relays(tk: Tick, st: State, path: seq<Id>, h: Id, k: nat): State
    requires 1 <= k <= |path|
  {
    if k == 1 then st else RelayedVia(tk, Relays(tk, st, path, h, k - 1), path, h, k - 1)
  }

  function Learn(st: State, car: Id, h: Id): State {
    st.(aware := st.aware + {(car, h)}, viaRadio := st.viaRadio + {(car, h)})
  }

  function ViaOf(path: seq<Id>): Via { if |path| == 2 then Direct else Relay }

  function Deliver(tk: Tick, st: State, car: Id, h: Id, path: seq<Id>): State
    requires |path| >= 2
  {
    Emit(Relays(tk, Hops(tk, Learn(st, car, h), path, h, |path| - 1), path, h, |path| - 1),
         tk.t, tk.n, AwareOf(car, h, ViaOf(path), path, |path| - 1))
  }

  // A path to a car that is not itself an observer has at least one hop.
  lemma WarningPathFacts(cars: seq<Id>, tk: Tick, observed: set<(Id, Id)>, car: Id, h: Id)
    requires WarningPath(cars, tk, observed, car, h).Some?
    ensures var path := WarningPath(cars, tk, observed, car, h).value;
      && |path| >= 2
      && IsShortest(DeliveryGraph(cars, tk.delivered), Observers(cars, observed, car, h), car, path)
      && (forall i :: 0 <= i < |path| ==> path[i] in cars)
  {
    var sources := Observers(cars, observed, car, h);
    BfsCorrect(DeliveryGraph(cars, tk.delivered), sources, car);
    DeliveredAmongCars(cars, tk.delivered, sources, car, WarningPath(cars, tk, observed, car, h).value);
  }

  lemma DeliveredAmongCars(cars: seq<Id>, delivered: set<(Id, Id)>, sources: seq<Id>, car: Id, path: seq<Id>)
    requires Joins(DeliveryGraph(cars, delivered), sources, car, path)
    requires car !in sources && forall o :: o in sources ==> o in cars
    ensures |path| >= 2 && forall i :: 0 <= i < |path| ==> path[i] in cars
  {
    var adj := DeliveryGraph(cars, delivered);
    forall i | 0 <= i < |path| ensures path[i] in cars {
      if i > 0 {
        assert path[i - 1 + 1] in Neighbours(adj, path[i - 1]);
      }
    }
  }

  function Warn(cars: seq<Id>, tk: Tick, st: State, car: Id, h: Id): State {
    if (car, h) in st.aware then st
    else
      var p := WarningPath(cars, tk, st.observed, car, h);
      if p.None? then st
      else
        WarningPathFacts(cars, tk, st.observed, car, h);
        Deliver(tk, st, car, h, p.value)
  }

  function Warns(cars: seq<Id>, tk: Tick, st: State, vs: seq<(Id, Id)>): State {
    if vs == [] then st
    else Warn(cars, tk, Warns(cars, tk, st, vs[..|vs| - 1]), vs[|vs| - 1].0, vs[|vs| - 1].1)
  }

  // -- step 4: braking ----------------------------------------------------------------------------

  function Brake(tk: Tick, st: State, car: Id, h: Id, dist: real): State {
    if (car, h) in st.aware then
      if (car, h) in st.braked then st
      else
        Emit(st.(braked := st.braked + {(car, h)}, permStop := st.permStop + {car}), tk.t, tk.n,
             BrakedFor(car, h, dist, if (car, h) in st.observed then BySight else ByRadio))
    else if dist < 10.0 then Emit(st, tk.t, tk.n, UnawareRisk(car, h, dist))
    else st
  }

  function Brakes(tk: Tick, st: State, vs: seq<(Id, (Id, real))>): State {
    if vs == [] then st
    else Brake(tk, Brakes(tk, st, vs[..|vs| - 1]), vs[|vs| - 1].0, vs[|vs| - 1].1.0, vs[|vs| - 1].1.1)
  }

  // -- one tick and a whole run -----------------------------------------------------------------

  // The order in which nested loops over the cars and their items visit (car, item) pairs.
  function ForCar<T>(car: Id, items: seq<T>): (r: seq<(Id, T)>)
    ensures |r| == |items| && forall i :: 0 <= i < |r| ==> r[i] == (car, items[i])
  {
    seq(|items|, i requires 0 <= i < |items| => (car, items[i]))
  }

  function Sightings(cars: seq<Id>, tk: Tick): seq<(Id, Sighting)> {
    if cars == [] then []
    else
      var c := cars[|cars| - 1];
      Sightings(cars[..|cars| - 1], tk) + ForCar(c, SightingsOf(tk, c))
  }

  function HazardIds(d: seq<(Id, real)>): (r: seq<Id>)
    ensures |r| == |d| && forall i :: 0 <= i < |d| ==> r[i] == d[i].0
  {
    seq(|d|, i requires 0 <= i < |d| => d[i].0)
  }

  function Relevant(w: World, cars: seq<Id>, tk: Tick): seq<(Id, Id)> {
    if cars == [] then []
    else
      var c := cars[|cars| - 1];
      Relevant(w, cars[..|cars| - 1], tk) + ForCar(c, HazardIds(Ahead(SightingsOf(tk, c), w.awarenessHorizon)))
  }

  function Concern(w: World, cars: seq<Id>, tk: Tick): seq<(Id, (Id, real))> {
    if cars == [] then []
    else
      var c := cars[|cars| - 1];
      Concern(w, cars[..|cars| - 1], tk) + ForCar(c, Ahead(SightingsOf(tk, c), w.brakeReaction))
  }

  function TickStep(w: World, cars: seq<Id>, st: State, tk: Tick): State {
    var seen := Observes(w, tk, st, Sightings(cars, tk));
    var warned := Warns(cars, tk, seen, Relevant(w, cars, tk));
    Brakes(tk, warned, Concern(w, cars, tk))
  }

  // The caller's trust pairs, or every pair of cars when there are none.
  function TrustPairs(cars: seq<Id>, given: seq<(Id, Id)>): seq<(Id, Id)> {
    if given != [] then given else AllPairs(cars)
  }

  function AllPairs(cars: seq<Id>): seq<(Id, Id)> {
    if cars == [] then []
    else
      var later := cars[1..];
      ForCar(cars[0], later) + AllPairs(later)
  }

  function TrustLog(pairs: seq<(Id, Id)>): (r: seq<GraphEvent>)
    ensures |r| == |pairs| && forall i :: 0 <= i < |r| ==> r[i] == GraphEvent(0.0, 0, Trusts(pairs[i].0, pairs[i].1))
  {
    seq(|pairs|, i requires 0 <= i < |pairs| => GraphEvent(0.0, 0, Trusts(pairs[i].0, pairs[i].1)))
  }

  function Run(w: World, cars: seq<Id>, trusts: seq<(Id, Id)>, ticks: seq<Tick>): State {
    if ticks == [] then EMPTY.(log := TrustLog(trusts))
    else TickStep(w, cars, Run(w, cars, trusts, ticks[..|ticks| - 1]), ticks[|ticks| - 1])
  }
}
