// What one whole tick does to the engine's sets, said without loops, orders or intermediate states:
// exactly which cars observe, learn of and brake for which hazards.
module TickEffects {
  import opened Basics
  import opened PathSearch
  import opened Events
  import opened Awareness
  import opened AwarenessInvariant
  import opened AwarenessTheorems

  ghost predicate SeesHazard(tk: Tick, car: Id, h: Id) {
    exists s :: s in SightingsOf(tk, car) && s.visible && s.hazard == h
  }

  ghost predicate HasAhead(tk: Tick, car: Id, h: Id, limit: real) {
    exists s :: s in SightingsOf(tk, car) && s.hazard == h && s.ahead && s.distance <= limit
  }

  lemma ForCarMembers<T>(car: Id, items: seq<T>)
    ensures forall v :: v in ForCar(car, items) <==> v.0 == car && v.1 in items
  {
    var vs := ForCar(car, items);
    forall x | x in items ensures (car, x) in vs {
      var i :| 0 <= i < |items| && items[i] == x;
      assert vs[i] == (car, x);
    }
  }

  // -- step 1 -----------------------------------------------------------------------------------------

  ghost predicate SeenIn(vs: seq<(Id, Sighting)>, p: (Id, Id)) {
    exists v :: v in vs && v.1.visible && v.0 == p.0 && v.1.hazard == p.1
  }

  lemma {:induction false} ObservesMean(w: World, tk: Tick, st: State, vs: seq<(Id, Sighting)>)
    requires st.observed <= st.aware
    ensures var r := Observes(w, tk, st, vs);
      && (forall p :: p in r.observed <==> p in st.observed || SeenIn(vs, p))
      && (forall p :: p in r.aware <==> p in st.aware || SeenIn(vs, p))
      && r.observed <= r.aware && r.braked == st.braked && r.heardHops == st.heardHops
  {
    if vs != [] {
      var rest, v := vs[..|vs| - 1], vs[|vs| - 1];
      assert vs == rest + [v];
      ObservesMean(w, tk, st, rest);
      assert forall p :: SeenIn(vs, p) <==> SeenIn(rest, p) || (v.1.visible && p == (v.0, v.1.hazard));
    }
  }

  lemma {:induction false} SightingsMean(cars: seq<Id>, tk: Tick, car: Id, h: Id)
    ensures SeenIn(Sightings(cars, tk), (car, h)) <==> car in cars && SeesHazard(tk, car, h)
  {
    if cars != [] {
      var rest, c := cars[..|cars| - 1], cars[|cars| - 1];
      assert cars == rest + [c];
      SightingsMean(rest, tk, car, h);
      ForCarMembers(c, SightingsOf(tk, c));
      assert car == c && SeesHazard(tk, c, h) ==> SeenIn(ForCar(c, SightingsOf(tk, c)), (car, h)) by {
        if car == c && SeesHazard(tk, c, h) {
          var s :| s in SightingsOf(tk, c) && s.visible && s.hazard == h;
          assert (c, s) in ForCar(c, SightingsOf(tk, c));
        }
      }
    }
  }

  // -- step 4 -----------------------------------------------------------------------------------------

  ghost predicate DueIn(vs: seq<(Id, (Id, real))>, p: (Id, Id)) {
    exists v :: v in vs && v.0 == p.0 && v.1.0 == p.1
  }

  lemma {:induction false} BrakesMean(tk: Tick, st: State, vs: seq<(Id, (Id, real))>)
    ensures var r := Brakes(tk, st, vs);
      && r.observed == st.observed && r.aware == st.aware && r.heardHops == st.heardHops
      && (forall p :: p in r.braked <==> p in st.braked || (p in st.aware && DueIn(vs, p)))
  {
    if vs != [] {
      var rest, v := vs[..|vs| - 1], vs[|vs| - 1];
      assert vs == rest + [v];
      BrakesMean(tk, st, rest);
      assert forall p :: DueIn(vs, p) <==> DueIn(rest, p) || p == (v.0, v.1.0);
    }
  }

  lemma {:induction false} ConcernMeans(w: World, cars: seq<Id>, tk: Tick, car: Id, h: Id)
    ensures DueIn(Concern(w, cars, tk), (car, h)) <==> car in cars && HasAhead(tk, car, h, w.brakeReaction)
  {
    if cars != [] {
      var rest, c := cars[..|cars| - 1], cars[|cars| - 1];
      assert cars == rest + [c];
      ConcernMeans(w, rest, tk, car, h);
      var d := Ahead(SightingsOf(tk, c), w.brakeReaction);
      AheadMeans(SightingsOf(tk, c), w.brakeReaction, h);
      ForCarMembers(c, d);
      if HasKey(d, h) {
        var i :| 0 <= i < |d| && d[i].0 == h;
        assert (c, d[i]) in ForCar(c, d);
      }
    }
  }

  // -- the whole tick -----------------------------------------------------------------------------------

  // After the lidar step of the tick.
  ghost predicate NowObserved(cars: seq<Id>, st: State, tk: Tick, car: Id, h: Id) {
    (car, h) in st.observed || (car in cars && SeesHazard(tk, car, h))
  }

  // A car that has observed the hazard, earlier or in this tick, reaches this one over delivered links.
  ghost predicate Warned(cars: seq<Id>, st: State, tk: Tick, car: Id, h: Id) {
    exists p :: IsLinked(cars, tk, p) && |p| >= 2
      && p[|p| - 1] == car && p[0] != car && NowObserved(cars, st, tk, p[0], h)
  }

  // Each of these cars was heard by the next one in this tick.
  ghost predicate IsLinked(cars: seq<Id>, tk: Tick, p: seq<Id>) {
    && (forall i :: 0 <= i < |p| ==> p[i] in cars)
    && forall i :: 0 <= i < |p| - 1 ==> p[i] != p[i + 1] && (p[i], p[i + 1]) in tk.delivered
  }

  lemma LinkedIsWalk(cars: seq<Id>, tk: Tick, p: seq<Id>)
    requires p != []
    ensures IsLinked(cars, tk, p) <==> p[0] in cars && IsWalk(DeliveryGraph(cars, tk.delivered), p)
  {
    var adj := DeliveryGraph(cars, tk.delivered);
    if p[0] in cars && IsWalk(adj, p) {
      forall i | 0 <= i < |p| ensures p[i] in cars {
        if i > 0 {
          assert p[i - 1 + 1] in Neighbours(adj, p[i - 1]);
        }
      }
      forall i | 0 <= i < |p| - 1 ensures p[i] != p[i + 1] && (p[i], p[i + 1]) in tk.delivered {
        assert p[i + 1] in Neighbours(adj, p[i]);
      }
    }
    if IsLinked(cars, tk, p) {
      forall i | 0 <= i < |p| - 1 ensures p[i + 1] in Neighbours(adj, p[i]) {
      }
    }
  }

  // One tick, set by set: who has observed, who is aware, and who has braked for what.
  ghost predicate Effect(w: World, cars: seq<Id>, st: State, tk: Tick, r: State, car: Id, h: Id) {
    && ((car, h) in r.observed <==> NowObserved(cars, st, tk, car, h))
    && ((car, h) in r.aware <==>
          || (car, h) in st.aware
          || (car in cars && SeesHazard(tk, car, h))
          || (car in cars && HasAhead(tk, car, h, w.awarenessHorizon) && Warned(cars, st, tk, car, h)))
    && ((car, h) in r.braked <==>
          (car, h) in st.braked || ((car, h) in r.aware && car in cars && HasAhead(tk, car, h, w.brakeReaction)))
  }

  lemma TickMeans(w: World, cars: seq<Id>, st: State, tk: Tick, car: Id, h: Id)
    requires st.observed <= st.aware
    ensures Effect(w, cars, st, tk, TickStep(w, cars, st, tk), car, h)
  {
    var seen := Observes(w, tk, st, Sightings(cars, tk));
    ObservesMean(w, tk, st, Sightings(cars, tk));
    SightingsMean(cars, tk, car, h);
    var told := Warns(cars, tk, seen, Relevant(w, cars, tk));
    WarnsSpread(cars, tk, seen, Relevant(w, cars, tk));
    WhoLearns(w, cars, tk, seen, car, h);
    RelevantMeans(w, cars, tk, car, h);
    ReachedIsWarned(w, cars, st, tk, seen, car, h);
    BrakesMean(tk, told, Concern(w, cars, tk));
    ConcernMeans(w, cars, tk, car, h);
  }

  // Every tick of every run has this effect.
  lemma EveryTickMeans(w: World, cars: seq<Id>, trusts: seq<(Id, Id)>, ticks: seq<Tick>, n: nat, car: Id, h: Id)
    requires n < |ticks|
    ensures Effect(w, cars, Run(w, cars, trusts, ticks[..n]), ticks[n], Run(w, cars, trusts, ticks[..n + 1]), car, h)
  {
    var st := Run(w, cars, trusts, ticks[..n]);
    RunKeeps(w, cars, trusts, ticks[..n]);
    TickMeans(w, cars, st, ticks[n], car, h);
    NextState(w, cars, trusts, ticks, n);
  }

  lemma NextState(w: World, cars: seq<Id>, trusts: seq<(Id, Id)>, ticks: seq<Tick>, n: nat)
    requires n < |ticks|
    ensures Run(w, cars, trusts, ticks[..n + 1]) == TickStep(w, cars, Run(w, cars, trusts, ticks[..n]), ticks[n])
  {
    assert ticks[..n + 1][..n] == ticks[..n];
  }

  lemma ReachedIsWarned(w: World, cars: seq<Id>, st: State, tk: Tick, seen: State, car: Id, h: Id)
    requires st.observed <= st.aware && seen == Observes(w, tk, st, Sightings(cars, tk))
    ensures Reachable(DeliveryGraph(cars, tk.delivered), Observers(cars, seen.observed, car, h), car)
      <==> Warned(cars, st, tk, car, h)
  {
    var adj, sources := DeliveryGraph(cars, tk.delivered), Observers(cars, seen.observed, car, h);
    forall o ensures (o, h) in seen.observed <==> NowObserved(cars, st, tk, o, h) {
      ObservesMean(w, tk, st, Sightings(cars, tk));
      SightingsMean(cars, tk, o, h);
    }
    if Reachable(adj, sources, car) {
      var p :| Joins(adj, sources, car, p);
      LinkedIsWalk(cars, tk, p);
      assert |p| >= 2;
    }
    if Warned(cars, st, tk, car, h) {
      var p :| IsLinked(cars, tk, p) && |p| >= 2 && p[|p| - 1] == car
        && p[0] != car && NowObserved(cars, st, tk, p[0], h);
      LinkedIsWalk(cars, tk, p);
      assert Joins(adj, sources, car, p);
    }
  }
}
