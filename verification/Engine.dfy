// The simulation engine as the program writes it: an object whose sets and log are updated in
// place by the loops of each tick. Every method is proved to do what Awareness specifies.
module Engine {
  import opened Basics
  import opened PathSearch
  import opened Events
  import opened Awareness

  class SimEngine {
    const world: World
    const cars: seq<Id>
    const trustPairs: seq<(Id, Id)>

    var observed: set<(Id, Id)>
    var aware: set<(Id, Id)>
    var viaRadio: set<(Id, Id)>
    var braked: set<(Id, Id)>
    var blind: set<(Id, Id)>
    var heardHops: set<(Id, Id, Id)>
    var relayedEdges: set<(Id, Id, Id, Id)>
    var permStop: set<Id>
    var log: seq<GraphEvent>

    ghost function St(): State
      reads this
    {
      State(observed, aware, viaRadio, braked, blind, heardHops, relayedEdges, permStop, log)
    }

    constructor (world: World, cars: seq<Id>, given: seq<(Id, Id)>)
      ensures this.world == world && this.cars == cars && trustPairs == TrustPairs(cars, given)
      ensures St() == EMPTY
    {
      this.world, this.cars, this.trustPairs := world, cars, TrustPairs(cars, given);
      observed, aware, viaRadio, braked, blind := {}, {}, {}, {}, {};
      heardHops, relayedEdges, permStop, log := {}, {}, {}, [];
    }

    method Emit(t: real, n: nat, f: Fact)
      modifies `log
      ensures St() == Awareness.Emit(old(St()), t, n, f)
    {
      log := log + [GraphEvent(t, n, f)];
    }

    // A whole run: trust announcements, then every tick.
    method Run(ticks: seq<Tick>)
      requires St() == EMPTY
      modifies this
      ensures St() == Awareness.Run(world, cars, trustPairs, ticks)
    {
      for i := 0 to |trustPairs|
        invariant St() == EMPTY.(log := TrustLog(trustPairs[..i]))
      {
        Emit(0.0, 0, Trusts(trustPairs[i].0, trustPairs[i].1));
        assert TrustLog(trustPairs[..i + 1])
            == TrustLog(trustPairs[..i]) + [GraphEvent(0.0, 0, Trusts(trustPairs[i].0, trustPairs[i].1))];
      }
      assert trustPairs[..|trustPairs|] == trustPairs;
      for i := 0 to |ticks|
        invariant St() == Awareness.Run(world, cars, trustPairs, ticks[..i])
      {
        Step(ticks[i]);
        assert ticks[..i + 1][..i] == ticks[..i];
      }
      assert ticks[..|ticks|] == ticks;
    }

    method Step(tk: Tick)
      modifies this
      ensures St() == TickStep(world, cars, old(St()), tk)
    {
      var relevant, concern := Sense(tk);
      var adj := BuildDeliveryGraph(tk);
      Propagate(tk, adj, relevant);
      Decide(tk, concern);
    }

    // Step 1: every car's lidar. relevant and concern hold one dictionary per car.
    method Sense(tk: Tick) returns (relevant: seq<seq<(Id, real)>>, concern: seq<seq<(Id, real)>>)
      modifies this
      ensures St() == Observes(world, tk, old(St()), Sightings(cars, tk))
      ensures |relevant| == |cars| && AreAhead(cars, tk, world.awarenessHorizon, relevant)
      ensures |concern| == |cars| && AreAhead(cars, tk, world.brakeReaction, concern)
    {
      relevant, concern := [], [];
      for i := 0 to |cars|
        invariant St() == Observes(world, tk, old(St()), Sightings(cars[..i], tk))
        invariant |relevant| == i && AreAhead(cars, tk, world.awarenessHorizon, relevant)
        invariant |concern| == i && AreAhead(cars, tk, world.brakeReaction, concern)
      {
        var near, close := SenseCar(tk, cars[i], old(St()), Sightings(cars[..i], tk));
        OneMoreSightings(cars, tk, i);
        AheadGrows(cars, tk, world.awarenessHorizon, relevant, near);
        AheadGrows(cars, tk, world.brakeReaction, concern, close);
        relevant, concern := relevant + [near], concern + [close];
      }
      assert cars[..|cars|] == cars;
    }

    method SenseCar(tk: Tick, car: Id, ghost st0: State, ghost before: seq<(Id, Sighting)>)
      returns (near: seq<(Id, real)>, close: seq<(Id, real)>)
      requires St() == Observes(world, tk, st0, before)
      modifies this
      ensures St() == Observes(world, tk, st0, before + ForCar(car, SightingsOf(tk, car)))
      ensures near == Ahead(SightingsOf(tk, car), world.awarenessHorizon)
      ensures close == Ahead(SightingsOf(tk, car), world.brakeReaction)
    {
      var ss := SightingsOf(tk, car);
      near, close := [], [];
      assert before + ForCar(car, ss[..0]) == before;
      for j := 0 to |ss|
        invariant St() == Observes(world, tk, st0, before + ForCar(car, ss[..j]))
        invariant near == Ahead(ss[..j], world.awarenessHorizon)
        invariant close == Ahead(ss[..j], world.brakeReaction)
      {
        var s := ss[j];
        near := Noted(near, s, world.awarenessHorizon);
        close := Noted(close, s, world.brakeReaction);
        See(tk, car, s);
        assert ss[..j + 1][..j] == ss[..j];
        OneMore(before, car, ss, j);
      }
      assert ss[..|ss|] == ss;
    }

    method See(tk: Tick, car: Id, s: Sighting)
      modifies this
      ensures St() == Observe(world, tk, old(St()), car, s)
    {
      if s.visible {
        if (car, s.hazard) !in observed {
          observed := observed + {(car, s.hazard)};
          var newlyAware := (car, s.hazard) !in aware;
          aware := aware + {(car, s.hazard)};
          Emit(tk.t, tk.n, Observed(car, s.hazard, s.distance));
          if newlyAware {
            Emit(tk.t, tk.n, AwareOf(car, s.hazard, Lidar, [car], 0));
          }
        }
      } else if s.ahead && s.reason.Some? && s.reason.value != "" && s.distance <= world.lidarRange {
        if (car, s.hazard) !in blind {
          blind := blind + {(car, s.hazard)};
          Emit(tk.t, tk.n, BlindTo(car, s.hazard, s.reason.value, s.distance));
        }
      }
    }

    // Step 2: who can hear whom right now.
    method BuildDeliveryGraph(tk: Tick) returns (adj: Adjacency)
      ensures adj == DeliveryGraph(cars, tk.delivered)
    {
      adj := map[];
      for i := 0 to |cars|
        invariant forall u :: u in adj <==> u in cars[..i]
        invariant forall u :: u in adj ==> adj[u] == HeardBy(cars, tk.delivered, u)
      {
        assert cars[..i + 1] == cars[..i] + [cars[i]];
        var out := Hearers(tk, cars[i]);
        adj := adj[cars[i] := out];
      }
      assert cars[..|cars|] == cars;
    }

    method Hearers(tk: Tick, u: Id) returns (out: seq<Id>)
      ensures out == HeardBy(cars, tk.delivered, u)
    {
      out := [];
      for j := 0 to |cars|
        invariant out == HeardBy(cars[..j], tk.delivered, u)
      {
        assert cars[..j + 1][..j] == cars[..j];
        if cars[j] == u {
          continue;
        }
        if (u, cars[j]) in tk.delivered {
          out := out + [cars[j]];
        }
      }
      assert cars[..|cars|] == cars;
    }

    // Step 3: warn every car of the relevant hazards ahead that it does not know about.
    method Propagate(tk: Tick, adj: Adjacency, relevant: seq<seq<(Id, real)>>)
      requires adj == DeliveryGraph(cars, tk.delivered)
      requires |relevant| == |cars| && AreAhead(cars, tk, world.awarenessHorizon, relevant)
      modifies this
      ensures St() == Warns(cars, tk, old(St()), Relevant(world, cars, tk))
    {
      for i := 0 to |cars|
        invariant St() == Warns(cars, tk, old(St()), Relevant(world, cars[..i], tk))
      {
        PropagateTo(tk, adj, cars[i], HazardIds(relevant[i]), old(St()), Relevant(world, cars[..i], tk));
        OneMoreRelevant(world, cars, tk, i);
      }
      assert cars[..|cars|] == cars;
    }

    method PropagateTo(tk: Tick, adj: Adjacency, car: Id, hs: seq<Id>, ghost st0: State, ghost before: seq<(Id, Id)>)
      requires adj == DeliveryGraph(cars, tk.delivered)
      requires St() == Warns(cars, tk, st0, before)
      modifies this
      ensures St() == Warns(cars, tk, st0, before + ForCar(car, hs))
    {
      assert before + ForCar(car, hs[..0]) == before;
      for j := 0 to |hs|
        invariant St() == Warns(cars, tk, st0, before + ForCar(car, hs[..j]))
      {
        Tell(tk, adj, car, hs[j]);
        OneMore(before, car, hs, j);
      }
      assert hs[..|hs|] == hs;
    }

    method Tell(tk: Tick, adj: Adjacency, car: Id, h: Id)
      requires adj == DeliveryGraph(cars, tk.delivered)
      modifies this
      ensures St() == Warn(cars, tk, old(St()), car, h)
    {
      if (car, h) in aware {
        return;
      }
      var found := BfsPath(adj, Observers(cars, observed, car, h), car);
      if found.Some? {
        WarningPathFacts(cars, tk, observed, car, h);
        DeliverAlong(tk, car, h, found.value);
      }
    }

    method DeliverAlong(tk: Tick, car: Id, h: Id, path: seq<Id>)
      requires |path| >= 2
      modifies this
      ensures St() == Deliver(tk, old(St()), car, h, path)
    {
      aware, viaRadio := aware + {(car, h)}, viaRadio + {(car, h)};
      RecordHops(tk, path, h);
      RecordRelays(tk, path, h);
      Emit(tk.t, tk.n, AwareOf(car, h, ViaOf(path), path, |path| - 1));
    }

    method RecordHops(tk: Tick, path: seq<Id>, h: Id)
      requires |path| >= 2
      modifies this
      ensures St() == Hops(tk, old(St()), path, h, |path| - 1)
    {
      for i := 0 to |path| - 1
        invariant St() == Hops(tk, old(St()), path, h, i)
      {
        var hop := (path[i], path[i + 1], h);
        if hop in heardHops {
          continue;
        }
        heardHops := heardHops + {hop};
        Emit(tk.t, tk.n, Heard(path[i + 1], path[i], h, tk.report(path[i], path[i + 1], h), i > 0));
      }
    }

    method RecordRelays(tk: Tick, path: seq<Id>, h: Id)
      requires |path| >= 2
      modifies this
      ensures St() == Relays(tk, old(St()), path, h, |path| - 1)
    {
      for i := 1 to |path| - 1
        invariant St() == Relays(tk, old(St()), path, h, i)
      {
        var edge := (path[i], path[0], path[|path| - 1], h);
        if edge in relayedEdges {
          continue;
        }
        relayedEdges := relayedEdges + {edge};
        Emit(tk.t, tk.n, RelayedBy(path[i], h, path[0], path[|path| - 1]));
      }
    }

    // Step 4: brake for the close hazards the car knows about, report the others.
    method Decide(tk: Tick, concern: seq<seq<(Id, real)>>)
      requires |concern| == |cars| && AreAhead(cars, tk, world.brakeReaction, concern)
      modifies this
      ensures St() == Brakes(tk, old(St()), Concern(world, cars, tk))
    {
      for i := 0 to |cars|
        invariant St() == Brakes(tk, old(St()), Concern(world, cars[..i], tk))
      {
        DecideFor(tk, cars[i], concern[i], old(St()), Concern(world, cars[..i], tk));
        OneMoreConcern(world, cars, tk, i);
      }
      assert cars[..|cars|] == cars;
    }

    method DecideFor(tk: Tick, car: Id, hs: seq<(Id, real)>, ghost st0: State, ghost before: seq<(Id, (Id, real))>)
      requires St() == Brakes(tk, st0, before)
      modifies this
      ensures St() == Brakes(tk, st0, before + ForCar(car, hs))
    {
      assert before + ForCar(car, hs[..0]) == before;
      for j := 0 to |hs|
        invariant St() == Brakes(tk, st0, before + ForCar(car, hs[..j]))
      {
        BrakeOrReport(tk, car, hs[j].0, hs[j].1);
        OneMore(before, car, hs, j);
      }
      assert hs[..|hs|] == hs;
    }

    method BrakeOrReport(tk: Tick, car: Id, h: Id, dist: real)
      modifies this
      ensures St() == Brake(tk, old(St()), car, h, dist)
    {
      if (car, h) in aware {
        if (car, h) !in braked {
          braked := braked + {(car, h)};
          permStop := permStop + {car};
          Emit(tk.t, tk.n, BrakedFor(car, h, dist, if (car, h) in observed then BySight else ByRadio));
        }
      } else if dist < 10.0 {
        Emit(tk.t, tk.n, UnawareRisk(car, h, dist));
      }
    }
  }

  // What the lidar of each car found ahead of it within a limit.
  ghost predicate AreAhead(cars: seq<Id>, tk: Tick, limit: real, ds: seq<seq<(Id, real)>>) {
    |ds| <= |cars| && forall i :: 0 <= i < |ds| ==> ds[i] == Ahead(SightingsOf(tk, cars[i]), limit)
  }

  lemma AheadGrows(cars: seq<Id>, tk: Tick, limit: real, ds: seq<seq<(Id, real)>>, d: seq<(Id, real)>)
    requires |ds| < |cars| && AreAhead(cars, tk, limit, ds) && d == Ahead(SightingsOf(tk, cars[|ds|]), limit)
    ensures AreAhead(cars, tk, limit, ds + [d])
  {
  }

  // Visiting the cars one by one.
  lemma OneMoreSightings(cars: seq<Id>, tk: Tick, i: nat)
    requires i < |cars|
    ensures Sightings(cars[..i + 1], tk) == Sightings(cars[..i], tk) + ForCar(cars[i], SightingsOf(tk, cars[i]))
  {
    assert cars[..i + 1][..i] == cars[..i];
  }

  lemma OneMoreRelevant(w: World, cars: seq<Id>, tk: Tick, i: nat)
    requires i < |cars|
    ensures Relevant(w, cars[..i + 1], tk) ==
      Relevant(w, cars[..i], tk) + ForCar(cars[i], HazardIds(Ahead(SightingsOf(tk, cars[i]), w.awarenessHorizon)))
  {
    assert cars[..i + 1][..i] == cars[..i];
  }

  lemma OneMoreConcern(w: World, cars: seq<Id>, tk: Tick, i: nat)
    requires i < |cars|
    ensures Concern(w, cars[..i + 1], tk) ==
      Concern(w, cars[..i], tk) + ForCar(cars[i], Ahead(SightingsOf(tk, cars[i]), w.brakeReaction))
  {
    assert cars[..i + 1][..i] == cars[..i];
  }

  // Visiting the items of a car one by one.
  lemma OneMore<T>(before: seq<(Id, T)>, car: Id, items: seq<T>, j: nat)
    requires j < |items|
    ensures var vs := before + ForCar(car, items[..j + 1]);
      vs != [] && vs[..|vs| - 1] == before + ForCar(car, items[..j]) && vs[|vs| - 1] == (car, items[j])
  {
  }
}
