// What every step of every run keeps: the event log and the engine's sets say the same thing, and
// every event is justified by the events before it.
module AwarenessInvariant {
  import opened Basics
  import opened PathSearch
  import opened Events
  import opened Awareness

  // A path along which a warning about h really reached car, according to the facts in ks.
  ghost predicate IsWarningChain(ks: set<Key>, car: Id, h: Id, path: seq<Id>) {
    && |path| >= 2
    && path[|path| - 1] == car
    && Distinct(path)
    && (forall i :: 0 <= i < |path| ==> (KObserved(path[i], h) in ks <==> i == 0))
    && (forall i :: 0 <= i < |path| - 1 ==> KHeard(path[i], path[i + 1], h) in ks)
    && (forall i :: 1 <= i < |path| - 1 ==> KRelayed(path[i], h, car) in ks)
  }

  // The fact f may follow the facts ks.
  ghost predicate Justified(cars: seq<Id>, ks: set<Key>, f: Fact) {
    match f
    case Trusts(_, _) => true
    case Observed(c, _, _) => c in cars
    case BlindTo(c, _, _, _) => c in cars
    case Heard(r, s, h, _, relayed) =>
      && r in cars && s in cars && r != s
      && KObserved(r, h) !in ks
      && (relayed <==> KObserved(s, h) !in ks)
    case RelayedBy(m, h, s, d) =>
      && m in cars && d in cars
      && KObserved(m, h) !in ks && KObserved(s, h) in ks
      && KAware(d, h) !in ks
    case AwareOf(c, h, via, path, hops) =>
      && c in cars
      && if via == Lidar then path == [c] && hops == 0 && KObserved(c, h) in ks
         else IsWarningChain(ks, c, h, path) && hops == |path| - 1 && (via == Direct <==> |path| == 2)
    case BrakedFor(c, h, _, cause) =>
      c in cars && KAware(c, h) in ks && (cause == BySight <==> KObserved(c, h) in ks)
    case UnawareRisk(c, h, d) =>
      c in cars && KAware(c, h) !in ks && d < 10.0
  }

  ghost predicate History(cars: seq<Id>, log: seq<GraphEvent>) {
    forall i :: 0 <= i < |log| ==> Justified(cars, KeysOf(log[..i]), log[i].fact)
  }

  ghost predicate OnceOnly(log: seq<GraphEvent>) {
    forall i, j :: 0 <= i < j < |log| && KeyOf(log[i].fact) == KeyOf(log[j].fact) ==> Repeatable(KeyOf(log[i].fact))
  }

  // What the engine's sets say about the fact k. While a warning is being delivered its receiver
  // already counts as aware, but the event that says so is still pending.
  ghost predicate Holds(st: State, pending: set<(Id, Id)>, k: Key) {
    match k
    case KTrusts(_, _) => k in KeysOf(st.log)
    case KRisk(_, _) => k in KeysOf(st.log)
    case KObserved(c, h) => (c, h) in st.observed
    case KBlind(c, h) => (c, h) in st.blind
    case KHeard(s, r, h) => (s, r, h) in st.heardHops
    case KRelayed(m, h, d) => exists s :: (m, s, d, h) in st.relayedEdges
    case KAware(c, h) => (c, h) in st.aware && (c, h) !in pending
    case KBraked(c, h) => (c, h) in st.braked
  }

  ghost function CarsOf(pairs: set<(Id, Id)>): set<Id> {
    set p | p in pairs :: p.0
  }

  ghost predicate Consistent(st: State) {
    && st.aware == st.observed + st.viaRadio
    && st.braked <= st.aware
    && st.permStop == CarsOf(st.braked)
    && (forall m, s, d, h :: (m, s, d, h) in st.relayedEdges ==> (d, h) in st.viaRadio)
    && (forall m, s, z, d, h :: (m, s, d, h) in st.relayedEdges && (m, z, d, h) in st.relayedEdges ==> s == z)
  }

  ghost predicate Inv(cars: seq<Id>, st: State, pending: set<(Id, Id)>) {
    && Consistent(st)
    && (forall k {:trigger Holds(st, pending, k)} :: k in KeysOf(st.log) <==> Holds(st, pending, k))
    && OnceOnly(st.log)
    && History(cars, st.log)
  }

  // Emitting one more justified, unrepeated event.
  lemma EmitKeeps(cars: seq<Id>, log: seq<GraphEvent>, e: GraphEvent)
    requires OnceOnly(log) && History(cars, log)
    requires Justified(cars, KeysOf(log), e.fact)
    requires Repeatable(KeyOf(e.fact)) || KeyOf(e.fact) !in KeysOf(log)
    ensures OnceOnly(log + [e]) && History(cars, log + [e])
    ensures KeysOf(log + [e]) == KeysOf(log) + {KeyOf(e.fact)}
  {
    KeysOfAppend(log, e);
    var l := log + [e];
    forall i | 0 <= i < |l| ensures Justified(cars, KeysOf(l[..i]), l[i].fact) {
      assert l[..i] == log[..i];
      if i == |log| {
        assert log[..i] == log;
      }
    }
    forall i, j | 0 <= i < j < |l| && KeyOf(l[i].fact) == KeyOf(l[j].fact)
      ensures Repeatable(KeyOf(l[i].fact))
    {
      if j == |log| {
        assert log[i] in log;
        assert KeyOf(log[i].fact) in KeysOf(log);
      }
    }
  }

  lemma StartKeeps(cars: seq<Id>, trusts: seq<(Id, Id)>)
    ensures Inv(cars, EMPTY.(log := TrustLog(trusts)), {})
  {
    var st := EMPTY.(log := TrustLog(trusts));
    forall k ensures k in KeysOf(st.log) <==> Holds(st, {}, k) {
      if k in KeysOf(st.log) {
        var i := KeyAt(st.log, k);
      }
    }
  }

  // One step that emits the event e and makes exactly the fact of e newly true.
  lemma StepKeeps(cars: seq<Id>, st: State, p: set<(Id, Id)>, r: State, q: set<(Id, Id)>, e: GraphEvent)
    requires Inv(cars, st, p) && Consistent(r)
    requires r.log == st.log + [e]
    requires Justified(cars, KeysOf(st.log), e.fact)
    requires Repeatable(KeyOf(e.fact)) || !Holds(st, p, KeyOf(e.fact))
    requires forall k {:trigger Holds(r, q, k)} :: !Repeatable(k) ==>
      (Holds(r, q, k) <==> Holds(st, p, k) || k == KeyOf(e.fact))
    ensures Inv(cars, r, q)
  {
    assert Holds(st, p, KeyOf(e.fact)) <==> KeyOf(e.fact) in KeysOf(st.log);
    EmitKeeps(cars, st.log, e);
    forall k ensures k in KeysOf(r.log) <==> Holds(r, q, k) {
      assert Holds(st, p, k) <==> k in KeysOf(st.log);
    }
  }

  // Inv tells which keys occur in the log.
  lemma Recorded(cars: seq<Id>, st: State, p: set<(Id, Id)>, k: Key)
    requires Inv(cars, st, p)
    ensures Holds(st, p, k) <==> k in KeysOf(st.log)
  {
  }

  function See(tk: Tick, st: State, car: Id, h: Id, dist: real): State {
    Emit(st.(observed := st.observed + {(car, h)}, aware := st.aware + {(car, h)}),
         tk.t, tk.n, Observed(car, h, dist))
  }

  lemma SeeKeeps(cars: seq<Id>, tk: Tick, st: State, car: Id, h: Id, dist: real)
    requires Inv(cars, st, {}) && car in cars && (car, h) !in st.observed
    ensures Inv(cars, See(tk, st, car, h, dist), if (car, h) in st.aware then {} else {(car, h)})
  {
    StepKeeps(cars, st, {}, See(tk, st, car, h, dist), if (car, h) in st.aware then {} else {(car, h)},
              GraphEvent(tk.t, tk.n, Observed(car, h, dist)));
  }

  // The event that says that a pending pair is now aware.
  lemma AnnounceKeeps(cars: seq<Id>, tk: Tick, st: State, car: Id, h: Id, f: Fact)
    requires Inv(cars, st, {(car, h)}) && (car, h) in st.aware
    requires f.AwareOf? && f.car == car && f.hazard == h && Justified(cars, KeysOf(st.log), f)
    ensures Inv(cars, Emit(st, tk.t, tk.n, f), {})
  {
    StepKeeps(cars, st, {(car, h)}, Emit(st, tk.t, tk.n, f), {}, GraphEvent(tk.t, tk.n, f));
  }

  lemma BlindKeeps(cars: seq<Id>, tk: Tick, st: State, car: Id, h: Id, reason: string, dist: real)
    requires Inv(cars, st, {}) && car in cars && (car, h) !in st.blind
    ensures Inv(cars, Emit(st.(blind := st.blind + {(car, h)}), tk.t, tk.n, BlindTo(car, h, reason, dist)), {})
  {
    StepKeeps(cars, st, {}, Emit(st.(blind := st.blind + {(car, h)}), tk.t, tk.n, BlindTo(car, h, reason, dist)),
              {}, GraphEvent(tk.t, tk.n, BlindTo(car, h, reason, dist)));
  }

  lemma ObserveKeeps(w: World, cars: seq<Id>, tk: Tick, st: State, car: Id, s: Sighting)
    requires Inv(cars, st, {}) && car in cars
    ensures Inv(cars, Observe(w, tk, st, car, s), {})
  {
    var h := s.hazard;
    if s.visible {
      if (car, h) !in st.observed {
        SeeKeeps(cars, tk, st, car, h, s.distance);
        if (car, h) !in st.aware {
          var st1 := See(tk, st, car, h, s.distance);
          Recorded(cars, st1, {(car, h)}, KObserved(car, h));
          AnnounceKeeps(cars, tk, st1, car, h, AwareOf(car, h, Lidar, [car], 0));
        }
      }
    } else if Observe(w, tk, st, car, s) != st {
      BlindKeeps(cars, tk, st, car, h, s.reason.value, s.distance);
    }
  }

  lemma BrakeKeeps(cars: seq<Id>, tk: Tick, st: State, car: Id, h: Id, dist: real)
    requires Inv(cars, st, {}) && car in cars
    ensures Inv(cars, Brake(tk, st, car, h, dist), {})
  {
    Recorded(cars, st, {}, KObserved(car, h));
    Recorded(cars, st, {}, KAware(car, h));
    if (car, h) in st.aware {
      if (car, h) !in st.braked {
        var r := Brake(tk, st, car, h, dist);
        PermStopGrows(st.braked, car, h);
        StepKeeps(cars, st, {}, r, {},
                  GraphEvent(tk.t, tk.n,
                             BrakedFor(car, h, dist, if (car, h) in st.observed then BySight else ByRadio)));
      }
    } else if dist < 10.0 {
      StepKeeps(cars, st, {}, Emit(st, tk.t, tk.n, UnawareRisk(car, h, dist)), {},
                GraphEvent(tk.t, tk.n, UnawareRisk(car, h, dist)));
    }
  }

  lemma PermStopGrows(braked: set<(Id, Id)>, car: Id, h: Id)
    ensures CarsOf(braked + {(car, h)}) == CarsOf(braked) + {car}
  {
    var more := braked + {(car, h)};
    assert (car, h) in more && (car, h).0 == car;
    forall c | c in CarsOf(braked) ensures c in CarsOf(more) {
      var p :| p in braked && p.0 == c;
      assert p in more;
    }
  }

  // -- delivering one warning ---------------------------------------------------------------------

  // The context of a delivery: path leads from the only observer on it to the still unaware car.
  ghost predicate Delivering(cars: seq<Id>, st: State, car: Id, h: Id, path: seq<Id>) {
    && |path| >= 2
    && path[|path| - 1] == car
    && Distinct(path)
    && (forall i :: 0 <= i < |path| ==> path[i] in cars)
    && (forall i :: 0 <= i < |path| ==> ((path[i], h) in st.observed <==> i == 0))
    && (car, h) in st.viaRadio
    && (forall m, s :: (m, s, car, h) in st.relayedEdges ==> s == path[0])
  }

  lemma HopKeeps(cars: seq<Id>, tk: Tick, st: State, car: Id, h: Id, path: seq<Id>, i: nat)
    requires Delivering(cars, st, car, h, path) && Inv(cars, st, {(car, h)}) && i + 1 < |path|
    ensures Inv(cars, Hop(tk, st, path, h, i), {(car, h)})
    ensures Delivering(cars, Hop(tk, st, path, h, i), car, h, path)
    ensures (path[i], path[i + 1], h) in Hop(tk, st, path, h, i).heardHops
  {
    var p := {(car, h)};
    Recorded(cars, st, p, KObserved(path[i], h));
    Recorded(cars, st, p, KObserved(path[i + 1], h));
    if (path[i], path[i + 1], h) !in st.heardHops {
      StepKeeps(cars, st, p, Hop(tk, st, path, h, i), p,
                GraphEvent(tk.t, tk.n, Heard(path[i + 1], path[i], h, tk.report(path[i], path[i + 1], h), i > 0)));
    }
  }

  lemma RelayKeeps(cars: seq<Id>, tk: Tick, st: State, car: Id, h: Id, path: seq<Id>, i: nat)
    requires Delivering(cars, st, car, h, path) && Inv(cars, st, {(car, h)}) && 1 <= i < |path| - 1
    ensures Inv(cars, RelayedVia(tk, st, path, h, i), {(car, h)})
    ensures Delivering(cars, RelayedVia(tk, st, path, h, i), car, h, path)
    ensures (path[i], path[0], car, h) in RelayedVia(tk, st, path, h, i).relayedEdges
  {
    var p, r, k := {(car, h)}, RelayedVia(tk, st, path, h, i), KRelayed(path[i], h, car);
    Recorded(cars, st, p, KObserved(path[i], h));
    Recorded(cars, st, p, KObserved(path[0], h));
    Recorded(cars, st, p, KAware(car, h));
    var edge := (path[i], path[0], car, h);
    if edge !in st.relayedEdges {
      forall l | !Repeatable(l) ensures Holds(r, p, l) <==> Holds(st, p, l) || l == k {
        if l.KRelayed? {
          RelayFacts(st, r, p, edge, l);
        }
      }
      StepKeeps(cars, st, p, r, p, GraphEvent(tk.t, tk.n, RelayedBy(path[i], h, path[0], car)));
    }
  }

  lemma RelayFacts(st: State, r: State, p: set<(Id, Id)>, edge: (Id, Id, Id, Id), l: Key)
    requires l.KRelayed? && r.relayedEdges == st.relayedEdges + {edge}
    ensures Holds(r, p, l) <==> Holds(st, p, l) || l == KRelayed(edge.0, edge.3, edge.2)
  {
    if Holds(st, p, l) {
      var s :| (l.relay, s, l.dest, l.hazard) in st.relayedEdges;
      assert (l.relay, s, l.dest, l.hazard) in r.relayedEdges;
    }
    if l == KRelayed(edge.0, edge.3, edge.2) {
      assert (l.relay, edge.1, l.dest, l.hazard) in r.relayedEdges;
    }
  }

  lemma {:induction false} HopsKeep(cars: seq<Id>, tk: Tick, st: State, car: Id, h: Id, path: seq<Id>, k: nat)
    requires Delivering(cars, st, car, h, path) && Inv(cars, st, {(car, h)}) && k < |path|
    ensures var r := Hops(tk, st, path, h, k);
      && Inv(cars, r, {(car, h)}) && Delivering(cars, r, car, h, path)
      && forall i :: 0 <= i < k ==> (path[i], path[i + 1], h) in r.heardHops
  {
    if k > 0 {
      HopsKeep(cars, tk, st, car, h, path, k - 1);
      HopKeeps(cars, tk, Hops(tk, st, path, h, k - 1), car, h, path, k - 1);
    }
  }

  lemma {:induction false} RelaysKeep(cars: seq<Id>, tk: Tick, st: State, car: Id, h: Id, path: seq<Id>, k: nat)
    requires Delivering(cars, st, car, h, path) && Inv(cars, st, {(car, h)}) && 1 <= k < |path|
    ensures var r := Relays(tk, st, path, h, k);
      && Inv(cars, r, {(car, h)}) && Delivering(cars, r, car, h, path)
      && r.heardHops == st.heardHops
      && forall i :: 1 <= i < k ==> (path[i], path[0], car, h) in r.relayedEdges
  {
    if k > 1 {
      RelaysKeep(cars, tk, st, car, h, path, k - 1);
      RelayKeeps(cars, tk, Relays(tk, st, path, h, k - 1), car, h, path, k - 1);
    }
  }

  lemma LearnKeeps(cars: seq<Id>, tk: Tick, st: State, car: Id, h: Id)
    requires Inv(cars, st, {}) && (car, h) !in st.aware
    ensures Inv(cars, Learn(st, car, h), {(car, h)})
  {
    var r := Learn(st, car, h);
    forall k ensures k in KeysOf(r.log) <==> Holds(r, {(car, h)}, k) {
      assert Holds(st, {}, k) <==> k in KeysOf(st.log);
    }
  }

  // After the hops and the relays of the path have been recorded the path is a warning chain.
  lemma ChainRecorded(cars: seq<Id>, st: State, car: Id, h: Id, path: seq<Id>)
    requires Delivering(cars, st, car, h, path) && Inv(cars, st, {(car, h)})
    requires forall i :: 0 <= i < |path| - 1 ==> (path[i], path[i + 1], h) in st.heardHops
    requires forall i :: 1 <= i < |path| - 1 ==> (path[i], path[0], car, h) in st.relayedEdges
    ensures IsWarningChain(KeysOf(st.log), car, h, path)
  {
    var p := {(car, h)};
    forall i | 0 <= i < |path| ensures KObserved(path[i], h) in KeysOf(st.log) <==> i == 0 {
      assert Holds(st, p, KObserved(path[i], h)) <==> KObserved(path[i], h) in KeysOf(st.log);
    }
    forall i | 0 <= i < |path| - 1 ensures KHeard(path[i], path[i + 1], h) in KeysOf(st.log) {
      assert Holds(st, p, KHeard(path[i], path[i + 1], h)) <==> KHeard(path[i], path[i + 1], h) in KeysOf(st.log);
    }
    forall i | 1 <= i < |path| - 1 ensures KRelayed(path[i], h, car) in KeysOf(st.log) {
      assert (path[i], path[0], car, h) in st.relayedEdges;
      assert Holds(st, p, KRelayed(path[i], h, car)) <==> KRelayed(path[i], h, car) in KeysOf(st.log);
    }
  }

  lemma WarnKeeps(cars: seq<Id>, tk: Tick, st: State, car: Id, h: Id)
    requires Inv(cars, st, {}) && car in cars
    ensures Inv(cars, Warn(cars, tk, st, car, h), {})
  {
    if (car, h) !in st.aware && WarningPath(cars, tk, st.observed, car, h).Some? {
      WarningPathFacts(cars, tk, st.observed, car, h);
      DeliverKeeps(cars, tk, st, car, h, WarningPath(cars, tk, st.observed, car, h).value);
    }
  }

  lemma DeliverKeeps(cars: seq<Id>, tk: Tick, st: State, car: Id, h: Id, path: seq<Id>)
    requires Inv(cars, st, {}) && car in cars && (car, h) !in st.aware
    requires |path| >= 2 && path[|path| - 1] == car && Distinct(path)
    requires forall i :: 0 <= i < |path| ==> path[i] in cars && ((path[i], h) in st.observed <==> i == 0)
    ensures Inv(cars, Deliver(tk, st, car, h, path), {})
  {
    var st1 := Learn(st, car, h);
    LearnKeeps(cars, tk, st, car, h);
    HopsKeep(cars, tk, st1, car, h, path, |path| - 1);
    var st2 := Hops(tk, st1, path, h, |path| - 1);
    RelaysKeep(cars, tk, st2, car, h, path, |path| - 1);
    var st3 := Relays(tk, st2, path, h, |path| - 1);
    ChainRecorded(cars, st3, car, h, path);
    AnnounceKeeps(cars, tk, st3, car, h, AwareOf(car, h, ViaOf(path), path, |path| - 1));
  }

  // -- ticks and runs --------------------------------------------------------------------------

  lemma {:induction false} ObservesKeep(w: World, cars: seq<Id>, tk: Tick, st: State, vs: seq<(Id, Sighting)>)
    requires Inv(cars, st, {}) && forall i :: 0 <= i < |vs| ==> vs[i].0 in cars
    ensures Inv(cars, Observes(w, tk, st, vs), {})
  {
    if vs != [] {
      ObservesKeep(w, cars, tk, st, vs[..|vs| - 1]);
      ObserveKeeps(w, cars, tk, Observes(w, tk, st, vs[..|vs| - 1]), vs[|vs| - 1].0, vs[|vs| - 1].1);
    }
  }

  lemma {:induction false} WarnsKeep(cars: seq<Id>, tk: Tick, st: State, vs: seq<(Id, Id)>)
    requires Inv(cars, st, {}) && forall i :: 0 <= i < |vs| ==> vs[i].0 in cars
    ensures Inv(cars, Warns(cars, tk, st, vs), {})
  {
    if vs != [] {
      WarnsKeep(cars, tk, st, vs[..|vs| - 1]);
      WarnKeeps(cars, tk, Warns(cars, tk, st, vs[..|vs| - 1]), vs[|vs| - 1].0, vs[|vs| - 1].1);
    }
  }

  lemma {:induction false} BrakesKeep(cars: seq<Id>, tk: Tick, st: State, vs: seq<(Id, (Id, real))>)
    requires Inv(cars, st, {}) && forall i :: 0 <= i < |vs| ==> vs[i].0 in cars
    ensures Inv(cars, Brakes(tk, st, vs), {})
  {
    if vs != [] {
      BrakesKeep(cars, tk, st, vs[..|vs| - 1]);
      BrakeKeeps(cars, tk, Brakes(tk, st, vs[..|vs| - 1]), vs[|vs| - 1].0, vs[|vs| - 1].1.0, vs[|vs| - 1].1.1);
    }
  }

  lemma {:induction false} VisitsAreCars(w: World, cars: seq<Id>, tk: Tick)
    ensures forall i :: 0 <= i < |Sightings(cars, tk)| ==> Sightings(cars, tk)[i].0 in cars
    ensures forall i :: 0 <= i < |Relevant(w, cars, tk)| ==> Relevant(w, cars, tk)[i].0 in cars
    ensures forall i :: 0 <= i < |Concern(w, cars, tk)| ==> Concern(w, cars, tk)[i].0 in cars
  {
    if cars != [] {
      VisitsAreCars(w, cars[..|cars| - 1], tk);
      assert cars == cars[..|cars| - 1] + [cars[|cars| - 1]];
    }
  }

  lemma TickKeeps(w: World, cars: seq<Id>, st: State, tk: Tick)
    requires Inv(cars, st, {})
    ensures Inv(cars, TickStep(w, cars, st, tk), {})
  {
    VisitsAreCars(w, cars, tk);
    var seen := Observes(w, tk, st, Sightings(cars, tk));
    ObservesKeep(w, cars, tk, st, Sightings(cars, tk));
    WarnsKeep(cars, tk, seen, Relevant(w, cars, tk));
    BrakesKeep(cars, tk, Warns(cars, tk, seen, Relevant(w, cars, tk)), Concern(w, cars, tk));
  }

  // The invariant holds after any number of ticks, whatever the lidar and the radio did.
  lemma {:induction false} RunKeeps(w: World, cars: seq<Id>, trusts: seq<(Id, Id)>, ticks: seq<Tick>)
    ensures Inv(cars, Run(w, cars, trusts, ticks), {})
  {
    if ticks == [] {
      StartKeeps(cars, trusts);
    } else {
      RunKeeps(w, cars, trusts, ticks[..|ticks| - 1]);
      TickKeeps(w, cars, Run(w, cars, trusts, ticks[..|ticks| - 1]), ticks[|ticks| - 1]);
    }
  }
}
