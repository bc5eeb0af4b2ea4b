// The two halves of the engine together: what a car's braked_for events mean for its motion.
module EngineMotion {
  import opened Basics
  import opened Events
  import A = Awareness
  import AwarenessInvariant
  import AwarenessTheorems
  import opened Plane
  import opened Motion
  import opened MotionTheorems

  // -- the decisions of a tick ------------------------------------------------------------------------

  // The (car, hazard) pairs of the braking decisions among the events, in order.
  ghost function Decisions(log: seq<GraphEvent>): seq<(Id, Id)> {
    if log == [] then []
    else
      var f := log[|log| - 1].fact;
      Decisions(log[..|log| - 1]) + (if f.BrakedFor? then [(f.car, f.hazard)] else [])
  }

  ghost function CarsIn(ds: seq<(Id, Id)>): set<Id> {
    set d | d in ds :: d.0
  }

  // The actor with this id; an inert one if there is none, which does not happen for the engine's cars.
  ghost function ActorOf(sc: Scene, id: Id): (a: Actor)
    ensures a.id == id
    ensures (exists b :: b in sc.actors && b.id == id) ==> a in sc.actors
  {
    if b :| b in sc.actors && b.id == id then b
    else Actor(id, Obstacle, [], 0.0, false, 0.0, None, None, None, 0)
  }

  // What the motion part is asked to do: brake for each of these hazards, where it is now.
  ghost function CommitsFor(sc: Scene, ds: seq<(Id, Id)>, place: Id -> Option<Point>): seq<(Actor, Option<Point>)> {
    seq(|ds|, i requires 0 <= i < |ds| => (ActorOf(sc, ds[i].0), place(ds[i].1)))
  }

  // -- one engine run ---------------------------------------------------------------------------------

  // The inputs of a run: those of its awareness half, and per tick where every hazard is and which
  // signals require a stop.
  datatype Setup = Setup(g: Geometry, sc: Scene, dt: real, w: A.World, cars: seq<Id>, trusts: seq<(Id, Id)>,
                         ticks: seq<A.Tick>, places: seq<Id -> Option<Point>>, stops: seq<set<nat>>)

  ghost predicate IsRun(e: Setup) {
    && IsGeometry(e.g) && IsScene(e.sc) && e.dt > 0.0
    && |e.places| == |e.ticks| && |e.stops| == |e.ticks|
    && forall c :: c in e.cars ==> exists a :: a in e.sc.actors && a.id == c && IsVehicle(a)
  }

  ghost function LogAfter(e: Setup, n: nat): seq<GraphEvent>
    requires n <= |e.ticks|
  {
    A.Run(e.w, e.cars, e.trusts, e.ticks[..n]).log
  }

  lemma LogGrows(e: Setup, n: nat)
    requires n < |e.ticks|
    ensures LogAfter(e, n) <= LogAfter(e, n + 1)
  {
    assert e.ticks[..n + 1][..n] == e.ticks[..n];
    AwarenessTheorems.TickGrows(e.w, e.cars, A.Run(e.w, e.cars, e.trusts, e.ticks[..n]), e.ticks[n]);
  }

  // The events of tick n.
  ghost function NewIn(e: Setup, n: nat): seq<GraphEvent>
    requires n < |e.ticks|
  {
    LogGrows(e, n);
    LogAfter(e, n + 1)[|LogAfter(e, n)|..]
  }

  // Every tick the motion half carries out the braking decisions the tick has logged, and moves on.
  ghost function Moves(e: Setup): seq<Tick>
    requires IsRun(e)
  {
    seq(|e.ticks|, n requires 0 <= n < |e.ticks| =>
      Tick(CommitsFor(e.sc, Decisions(NewIn(e, n)), e.places[n]), e.stops[n]))
  }

  // The motion half at the start of tick n, and after its decisions.
  ghost function MotionAfter(e: Setup, n: nat): State
    requires IsRun(e) && n <= |e.ticks|
  {
    After(e.g, e.sc, e.dt, Moves(e), n)
  }

  ghost function MotionDecided(e: Setup, n: nat): State
    requires IsRun(e) && n < |e.ticks|
  {
    Decided(e.g, e.sc, e.dt, Moves(e), n)
  }

  // -- the two halves agree on who has braked -----------------------------------------------------------

  lemma CarsAppend(ds: seq<(Id, Id)>, d: (Id, Id))
    ensures CarsIn(ds + [d]) == CarsIn(ds) + {d.0}
  {
    assert forall x :: x in ds + [d] <==> x in ds || x == d;
    assert d in ds + [d];
  }

  lemma {:induction false} DecisionsAppend(a: seq<GraphEvent>, b: seq<GraphEvent>)
    ensures CarsIn(Decisions(a + b)) == CarsIn(Decisions(a)) + CarsIn(Decisions(b))
  {
    if b == [] {
      assert a + b == a;
    } else {
      var front, last := b[..|b| - 1], b[|b| - 1];
      DecisionsAppend(a, front);
      OneMore(a + front, last);
      OneMore(front, last);
      assert a + b == a + front + [last] && b == front + [last];
    }
  }

  lemma OneMore(log: seq<GraphEvent>, ev: GraphEvent)
    ensures CarsIn(Decisions(log + [ev])) == CarsIn(Decisions(log)) + (if ev.fact.BrakedFor? then {ev.fact.car} else {})
  {
    if ev.fact.BrakedFor? {
      CarsAppend(Decisions(log), (ev.fact.car, ev.fact.hazard));
    }
  }

  lemma {:induction false} CommitsStop(g: Geometry, sc: Scene, st: State, ds: seq<(Id, Id)>, place: Id -> Option<Point>)
    ensures Commits(g, sc, st, CommitsFor(sc, ds, place)).permStop == st.permStop + CarsIn(ds)
  {
    if ds != [] {
      var front, last := ds[..|ds| - 1], ds[|ds| - 1];
      var cs := CommitsFor(sc, ds, place);
      assert cs[..|cs| - 1] == CommitsFor(sc, front, place);
      CommitsStop(g, sc, st, front, place);
      assert ds == front + [last];
      CarsAppend(front, last);
    }
  }

  lemma {:induction false} DecisionsMean(log: seq<GraphEvent>, c: Id)
    ensures c in CarsIn(Decisions(log)) <==> exists h :: KBraked(c, h) in KeysOf(log)
  {
    if log != [] {
      var rest, ev := log[..|log| - 1], log[|log| - 1];
      assert log == rest + [ev];
      DecisionsMean(rest, c);
      OneMore(rest, ev);
      KeysOfAppend(rest, ev);
      if ev.fact.BrakedFor? {
        assert KeyOf(ev.fact) == KBraked(ev.fact.car, ev.fact.hazard);
      }
    }
  }

  // The cars that must stay stopped are the ones with a braked_for event.
  lemma StoppedAreBraked(cars: seq<Id>, st: A.State)
    requires AwarenessInvariant.Inv(cars, st, {})
    ensures st.permStop == CarsIn(Decisions(st.log))
  {
    forall c ensures c in st.permStop <==> c in CarsIn(Decisions(st.log)) {
      DecisionsMean(st.log, c);
      StoppedHasEvent(cars, st, c);
    }
  }

  lemma StoppedHasEvent(cars: seq<Id>, st: A.State, c: Id)
    requires AwarenessInvariant.Inv(cars, st, {})
    ensures c in st.permStop <==> exists h :: KBraked(c, h) in KeysOf(st.log)
  {
    if c in st.permStop {
      var p :| p in st.braked && p.0 == c;
      AwarenessInvariant.Recorded(cars, st, {}, KBraked(c, p.1));
    }
    if h :| KBraked(c, h) in KeysOf(st.log) {
      AwarenessInvariant.Recorded(cars, st, {}, KBraked(c, h));
      assert (c, h) in st.braked;
    }
  }

  lemma StoppedAfter(e: Setup, n: nat)
    requires n <= |e.ticks|
    ensures A.Run(e.w, e.cars, e.trusts, e.ticks[..n]).permStop == CarsIn(Decisions(LogAfter(e, n)))
  {
    AwarenessInvariant.RunKeeps(e.w, e.cars, e.trusts, e.ticks[..n]);
    StoppedAreBraked(e.cars, A.Run(e.w, e.cars, e.trusts, e.ticks[..n]));
  }

  // The cars that must stay stopped in the motion half are those with a braked_for event.
  ghost predicate Agrees(e: Setup, st: State, n: nat)
    requires n <= |e.ticks|
  {
    st.permStop == CarsIn(Decisions(LogAfter(e, n)))
  }

  lemma NewSplits(e: Setup, n: nat)
    requires n < |e.ticks|
    ensures LogAfter(e, n + 1) == LogAfter(e, n) + NewIn(e, n)
  {
    LogGrows(e, n);
    Split(LogAfter(e, n), LogAfter(e, n + 1));
  }

  lemma Split(a: seq<GraphEvent>, b: seq<GraphEvent>)
    requires a <= b
    ensures b == a + b[|a|..]
  {
  }

  lemma DecisionsAgree(g: Geometry, sc: Scene, st: State, place: Id -> Option<Point>, before: seq<GraphEvent>,
                       recent: seq<GraphEvent>)
    requires st.permStop == CarsIn(Decisions(before))
    ensures Commits(g, sc, st, CommitsFor(sc, Decisions(recent), place)).permStop == CarsIn(Decisions(before + recent))
  {
    DecisionsAppend(before, recent);
    CommitsStop(g, sc, st, Decisions(recent), place);
  }

  lemma DecidedIs(e: Setup, n: nat)
    requires IsRun(e) && n < |e.ticks|
    ensures MotionDecided(e, n)
      == Commits(e.g, e.sc, MotionAfter(e, n), CommitsFor(e.sc, Decisions(NewIn(e, n)), e.places[n]))
  {
    assert Moves(e)[n].commits == CommitsFor(e.sc, Decisions(NewIn(e, n)), e.places[n]);
  }

  lemma DecideStep(e: Setup, n: nat)
    requires IsRun(e) && n < |e.ticks| && Agrees(e, MotionAfter(e, n), n)
    ensures Agrees(e, MotionDecided(e, n), n + 1)
  {
    NewSplits(e, n);
    DecidedIs(e, n);
    DecisionsAgree(e.g, e.sc, MotionAfter(e, n), e.places[n], LogAfter(e, n), NewIn(e, n));
  }

  lemma {:induction false} MotionStopsNobody(g: Geometry, sc: Scene, st: State, stops: set<nat>, dt: real, n: nat)
    requires n <= |sc.actors|
    ensures AdvanceFirst(g, sc, st, stops, dt, n).permStop == st.permStop
  {
    if n > 0 {
      MotionStopsNobody(g, sc, st, stops, dt, n - 1);
    }
  }

  lemma MoveStep(e: Setup, n: nat)
    requires IsRun(e) && n < |e.ticks|
    ensures MotionAfter(e, n + 1).permStop == MotionDecided(e, n).permStop
  {
    MotionStopsNobody(e.g, e.sc, MotionDecided(e, n), Moves(e)[n].stops, e.dt, |e.sc.actors|);
  }

  lemma NoneAtStart(e: Setup)
    ensures CarsIn(Decisions(LogAfter(e, 0))) == {}
  {
    var log := LogAfter(e, 0);
    forall c ensures c !in CarsIn(Decisions(log)) {
      DecisionsMean(log, c);
      if h :| KBraked(c, h) in KeysOf(log) {
        var i := KeyAt(log, KBraked(c, h));
      }
    }
  }

  lemma {:induction false} MotionAgrees(e: Setup, n: nat)
    requires IsRun(e) && n <= |e.ticks|
    ensures Agrees(e, MotionAfter(e, n), n)
  {
    if n == 0 {
      NoneAtStart(e);
    } else {
      MotionAgrees(e, n - 1);
      DecideStep(e, n - 1);
      MoveStep(e, n - 1);
    }
  }

  // After every tick the two halves agree on which cars have committed to a stop.
  lemma HalvesAgree(e: Setup, n: nat)
    requires IsRun(e) && n <= |e.ticks|
    ensures MotionAfter(e, n).permStop == A.Run(e.w, e.cars, e.trusts, e.ticks[..n]).permStop
  {
    MotionAgrees(e, n);
    StoppedAfter(e, n);
  }

  // -- what a braked_for event means --------------------------------------------------------------------

  lemma EventMeansStopped(e: Setup, n: nat, c: Id, h: Id)
    requires IsRun(e) && n < |e.ticks| && KBraked(c, h) in KeysOf(LogAfter(e, n + 1))
    ensures c in MotionDecided(e, n).permStop
  {
    MotionAgrees(e, n);
    DecideStep(e, n);
    DecisionsMean(LogAfter(e, n + 1), c);
  }

  // From the tick of its braked_for event on, a vehicle never drives backwards and is never beyond its
  // current stop target.
  lemma BrakeEventStops(e: Setup, n: nat, m: nat, k: nat, h: Id)
    requires IsRun(e) && n < m <= |e.ticks| && k < |e.sc.actors| && IsVehicle(e.sc.actors[k])
    requires KBraked(e.sc.actors[k].id, h) in KeysOf(LogAfter(e, n + 1))
    ensures StoppedSince(e.g, e.sc.actors[k], MotionAfter(e, n), MotionAfter(e, m))
  {
    EventMeansStopped(e, n, e.sc.actors[k].id, h);
    StoppedForGood(e.g, e.sc, e.dt, Moves(e), n, m, k);
  }

  ghost predicate StoppedSince(g: Geometry, v: Actor, was: State, now: State) {
    && VehicleOk(g, was, v) && VehicleOk(g, now, v)
    && v.id in now.permStop && was.travel[v.id] <= now.travel[v.id] <= now.stopTarget[v.id]
  }

  lemma StoppedForGood(g: Geometry, sc: Scene, dt: real, ticks: seq<Tick>, n: nat, m: nat, k: nat)
    requires IsGeometry(g) && IsScene(sc) && dt > 0.0 && n < m <= |ticks| && k < |sc.actors| && IsVehicle(sc.actors[k])
    requires sc.actors[k].id in Decided(g, sc, dt, ticks, n).permStop
    ensures StoppedSince(g, sc.actors[k], After(g, sc, dt, ticks, n), After(g, sc, dt, ticks, m))
  {
    TickOfRun(g, sc, dt, ticks, n, k);
    BrakedForGood(g, sc, dt, ticks, n + 1, m, k);
  }
}
