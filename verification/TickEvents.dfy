// Exactly which events one tick reports: said from the sightings, the delivered links and the engine's sets before
// the tick, without loops, visits or intermediate states.
module TickEvents {
  import opened Basics
  import opened PathSearch
  import opened Events
  import opened Awareness
  import opened AwarenessInvariant
  import opened AwarenessTheorems
  import opened TickEffects

  // What the log says from position n on.
  ghost function Since(log: seq<GraphEvent>, n: nat): set<Fact> {
    set i | n <= i < |log| :: log[i].fact
  }

  lemma SinceAppend(log: seq<GraphEvent>, e: GraphEvent, n: nat)
    requires n <= |log|
    ensures Since(log + [e], n) == Since(log, n) + {e.fact}
  {
    var l := log + [e];
    forall f | f in Since(log, n) + {e.fact} ensures f in Since(l, n) {
      if f in Since(log, n) {
        var i :| n <= i < |log| && log[i].fact == f;
        assert l[i].fact == f;
      } else {
        assert l[|log|].fact == f;
      }
    }
  }

  lemma EmitAdds(st: State, t: real, n: nat, f: Fact, from: nat)
    requires from <= |st.log|
    ensures Since(Emit(st, t, n, f).log, from) == Since(st.log, from) + {f}
  {
    SinceAppend(st.log, GraphEvent(t, n, f), from);
  }

  // -- sightings ----------------------------------------------------------------------------------------

  // The first, and the last, sighting of a kind.
  ghost function First(ss: seq<Sighting>, good: Sighting -> bool): Option<Sighting> {
    if ss == [] then None
    else
      var r := First(ss[..|ss| - 1], good);
      if r.Some? then r else if good(ss[|ss| - 1]) then Some(ss[|ss| - 1]) else None
  }

  ghost function Last(ss: seq<Sighting>, good: Sighting -> bool): Option<Sighting> {
    if ss == [] then None
    else if good(ss[|ss| - 1]) then Some(ss[|ss| - 1]) else Last(ss[..|ss| - 1], good)
  }

  ghost function Shows(h: Id): Sighting -> bool { (s: Sighting) => s.visible && s.hazard == h }

  ghost function Hides(w: World, h: Id): Sighting -> bool {
    (s: Sighting) =>
      !s.visible && s.hazard == h && s.ahead && s.reason.Some? && s.reason != Some("") && s.distance <= w.lidarRange
  }

  ghost function IsNear(h: Id, limit: real): Sighting -> bool {
    (s: Sighting) => s.hazard == h && s.ahead && s.distance <= limit
  }

  lemma {:induction false} FirstExists(ss: seq<Sighting>, good: Sighting -> bool)
    ensures First(ss, good).Some? <==> exists s :: s in ss && good(s)
  {
    if ss != [] {
      FirstExists(ss[..|ss| - 1], good);
      assert ss == ss[..|ss| - 1] + [ss[|ss| - 1]];
    }
  }

  // The first visit to the car with such a sighting.
  ghost function FirstVisit(vs: seq<(Id, Sighting)>, c: Id, good: Sighting -> bool): Option<Sighting> {
    if vs == [] then None
    else
      var r, v := FirstVisit(vs[..|vs| - 1], c, good), vs[|vs| - 1];
      if r.Some? then r else if v.0 == c && good(v.1) then Some(v.1) else None
  }

  lemma {:induction false} FirstVisitConcat(a: seq<(Id, Sighting)>, b: seq<(Id, Sighting)>, c: Id,
                                            good: Sighting -> bool)
    ensures FirstVisit(a + b, c, good) ==
      if FirstVisit(a, c, good).Some? then FirstVisit(a, c, good) else FirstVisit(b, c, good)
  {
    if b == [] {
      assert a + b == a;
    } else {
      assert (a + b)[..|a + b| - 1] == a + b[..|b| - 1];
      FirstVisitConcat(a, b[..|b| - 1], c, good);
    }
  }

  lemma {:induction false} FirstVisitOf(d: Id, ss: seq<Sighting>, c: Id, good: Sighting -> bool)
    ensures FirstVisit(ForCar(d, ss), c, good) == if c == d then First(ss, good) else None
  {
    if ss != [] {
      assert ForCar(d, ss)[..|ss| - 1] == ForCar(d, ss[..|ss| - 1]);
      FirstVisitOf(d, ss[..|ss| - 1], c, good);
    }
  }

  lemma {:induction false} FirstVisitMeans(cars: seq<Id>, tk: Tick, c: Id, good: Sighting -> bool)
    ensures FirstVisit(Sightings(cars, tk), c, good) == if c in cars then First(SightingsOf(tk, c), good) else None
  {
    if cars != [] {
      var front, d := cars[..|cars| - 1], cars[|cars| - 1];
      assert cars == front + [d];
      FirstVisitMeans(front, tk, c, good);
      FirstVisitConcat(Sightings(front, tk), ForCar(d, SightingsOf(tk, d)), c, good);
      FirstVisitOf(d, SightingsOf(tk, d), c, good);
    }
  }

  // -- step 1: what is seen, and what is not ---------------------------------------------------------------

  // The visit makes the engine report f.
  ghost predicate Spots(w: World, st: State, c: Id, s: Sighting, f: Fact) {
    || (s.visible && (c, s.hazard) !in st.observed
        && (f == Observed(c, s.hazard, s.distance)
            || ((c, s.hazard) !in st.aware && f == AwareOf(c, s.hazard, Lidar, [c], 0))))
    || (Hides(w, s.hazard)(s) && (c, s.hazard) !in st.blind && f == BlindTo(c, s.hazard, s.reason.value, s.distance))
  }

  lemma ObserveAdds(w: World, tk: Tick, st: State, c: Id, s: Sighting, from: nat, f: Fact)
    requires from <= |st.log|
    ensures f in Since(Observe(w, tk, st, c, s).log, from) <==> f in Since(st.log, from) || Spots(w, st, c, s, f)
  {
    var h := s.hazard;
    if s.visible && (c, h) !in st.observed {
      var seen := st.(observed := st.observed + {(c, h)}, aware := st.aware + {(c, h)});
      EmitAdds(seen, tk.t, tk.n, Observed(c, h, s.distance), from);
      EmitAdds(Emit(seen, tk.t, tk.n, Observed(c, h, s.distance)), tk.t, tk.n, AwareOf(c, h, Lidar, [c], 0), from);
    } else if Hides(w, h)(s) && (c, h) !in st.blind {
      EmitAdds(st.(blind := st.blind + {(c, h)}), tk.t, tk.n, BlindTo(c, h, s.reason.value, s.distance), from);
    }
  }

  // The sets after the visits.
  lemma {:induction false} ObservesSets(w: World, tk: Tick, st: State, vs: seq<(Id, Sighting)>, c: Id, h: Id)
    requires st.observed <= st.aware
    ensures var r := Observes(w, tk, st, vs);
      && |st.log| <= |r.log|
      && ((c, h) in r.observed <==> (c, h) in st.observed || FirstVisit(vs, c, Shows(h)).Some?)
      && ((c, h) in r.aware <==> (c, h) in st.aware || FirstVisit(vs, c, Shows(h)).Some?)
      && ((c, h) in r.blind <==> (c, h) in st.blind || FirstVisit(vs, c, Hides(w, h)).Some?)
  {
    if vs != [] {
      ObservesSets(w, tk, st, vs[..|vs| - 1], c, h);
      ObservesMean(w, tk, st, vs[..|vs| - 1]);
    }
  }

  // What the lidar step reports.
  ghost predicate Seen(w: World, st: State, vs: seq<(Id, Sighting)>, f: Fact) {
    match f
    case Observed(c, h, d) =>
      var s := FirstVisit(vs, c, Shows(h)); (c, h) !in st.observed && s.Some? && s.value.distance == d
    case AwareOf(c, h, via, path, hops) =>
      && via == Lidar && path == [c] && hops == 0
      && (c, h) !in st.aware && FirstVisit(vs, c, Shows(h)).Some?
    case BlindTo(c, h, why, d) =>
      var s := FirstVisit(vs, c, Hides(w, h));
      (c, h) !in st.blind && s.Some? && s.value.reason == Some(why) && s.value.distance == d
    case _ => false
  }

  lemma {:induction false} ObservesAdd(w: World, tk: Tick, st: State, vs: seq<(Id, Sighting)>, f: Fact)
    requires st.observed <= st.aware
    ensures f in Since(Observes(w, tk, st, vs).log, |st.log|) <==> Seen(w, st, vs, f)
  {
    if vs != [] {
      var front, v := vs[..|vs| - 1], vs[|vs| - 1];
      ObservesAdd(w, tk, st, front, f);
      ObservesSets(w, tk, st, front, v.0, v.1.hazard);
      ObserveAdds(w, tk, Observes(w, tk, st, front), v.0, v.1, |st.log|, f);
    }
  }

  // -- step 3: who is told, over which hops -----------------------------------------------------------------

  // A hop of the path, among the first k, that was not made before.
  ghost predicate HeardOn(tk: Tick, st: State, path: seq<Id>, h: Id, k: nat, f: Fact)
    requires k < |path|
  {
    exists i :: 0 <= i < k && (path[i], path[i + 1], h) !in st.heardHops
      && f == Heard(path[i + 1], path[i], h, tk.report(path[i], path[i + 1], h), i > 0)
  }

  lemma {:induction false} HopsAdd(tk: Tick, st: State, path: seq<Id>, h: Id, k: nat, from: nat, f: Fact)
    requires k < |path| && Distinct(path) && from <= |st.log|
    ensures |st.log| <= |Hops(tk, st, path, h, k).log|
    ensures f in Since(Hops(tk, st, path, h, k).log, from) <==>
      f in Since(st.log, from) || HeardOn(tk, st, path, h, k, f)
  {
    if k > 0 {
      var r, hop := Hops(tk, st, path, h, k - 1), (path[k - 1], path[k], h);
      HopsAdd(tk, st, path, h, k - 1, from, f);
      HopsSet(tk, st, path, h, k - 1);
      assert hop in r.heardHops <==> hop in st.heardHops;
      if hop !in st.heardHops {
        EmitAdds(r.(heardHops := r.heardHops + {hop}), tk.t, tk.n,
                 Heard(path[k], path[k - 1], h, tk.report(path[k - 1], path[k], h), k - 1 > 0), from);
      }
      HeardOnNext(tk, st, path, h, k, f);
    }
  }

  lemma HeardOnNext(tk: Tick, st: State, path: seq<Id>, h: Id, k: nat, f: Fact)
    requires 0 < k < |path|
    ensures HeardOn(tk, st, path, h, k, f) <==>
      || HeardOn(tk, st, path, h, k - 1, f)
      || ((path[k - 1], path[k], h) !in st.heardHops
          && f == Heard(path[k], path[k - 1], h, tk.report(path[k - 1], path[k], h), k - 1 > 0))
  {
    assert path[k - 1 + 1] == path[k];
  }

  // A relay among path[1], ..., path[k - 1] that is new.
  ghost predicate RelayedOn(st: State, path: seq<Id>, h: Id, k: nat, f: Fact)
    requires 1 <= k <= |path|
  {
    exists i :: 1 <= i < k && (path[i], path[0], path[|path| - 1], h) !in st.relayedEdges
      && f == RelayedBy(path[i], h, path[0], path[|path| - 1])
  }

  lemma {:induction false} RelaysAdd(tk: Tick, st: State, path: seq<Id>, h: Id, k: nat, from: nat, f: Fact)
    requires 1 <= k <= |path| && Distinct(path) && from <= |st.log|
    ensures |st.log| <= |Relays(tk, st, path, h, k).log|
    ensures f in Since(Relays(tk, st, path, h, k).log, from) <==>
      f in Since(st.log, from) || RelayedOn(st, path, h, k, f)
  {
    if k > 1 {
      var r, edge := Relays(tk, st, path, h, k - 1), (path[k - 1], path[0], path[|path| - 1], h);
      RelaysAdd(tk, st, path, h, k - 1, from, f);
      RelaysSet(tk, st, path, h, k - 1);
      assert edge in r.relayedEdges <==> edge in st.relayedEdges;
      if edge !in st.relayedEdges {
        EmitAdds(r.(relayedEdges := r.relayedEdges + {edge}), tk.t, tk.n,
                 RelayedBy(path[k - 1], h, path[0], path[|path| - 1]), from);
      }
    }
  }

  // What one warning reports: that the car is aware, and its new hops and relays.
  ghost predicate Tells(cars: seq<Id>, tk: Tick, st: State, p: (Id, Id), f: Fact) {
    TellsAware(cars, tk, st, p, f) || TellsHeard(cars, tk, st, p, f) || TellsRelayed(cars, tk, st, p, f)
  }

  ghost predicate TellsAware(cars: seq<Id>, tk: Tick, st: State, p: (Id, Id), f: Fact) {
    && f.AwareOf? && (f.car, f.hazard) == p && Newly(cars, tk, st, p)
    && WarningPath(cars, tk, st.observed, p.0, p.1) == Some(f.path)
    && f.hops == |f.path| - 1 && f.via == (if |f.path| == 2 then Direct else Relay)
  }

  ghost predicate TellsHeard(cars: seq<Id>, tk: Tick, st: State, p: (Id, Id), f: Fact) {
    && f.Heard? && f.hazard == p.1
    && HopOf(cars, tk, st, p, (f.sender, f.receiver, f.hazard)) && (f.sender, f.receiver, f.hazard) !in st.heardHops
    && f.report == tk.report(f.sender, f.receiver, f.hazard) && (f.relayed <==> (f.sender, f.hazard) !in st.observed)
  }

  ghost predicate TellsRelayed(cars: seq<Id>, tk: Tick, st: State, p: (Id, Id), f: Fact) {
    && f.RelayedBy? && f.hazard == p.1
    && RelayOf(cars, tk, st, p, (f.relay, f.source, f.dest, f.hazard))
    && (f.relay, f.source, f.dest, f.hazard) !in st.relayedEdges
  }

  // Of the cars on a warning path only the first has observed the hazard, but perhaps the last.
  lemma OnlyFirstObserved(cars: seq<Id>, tk: Tick, st: State, c: Id, h: Id, i: nat)
    requires Newly(cars, tk, st, (c, h)) && i < |WarningPath(cars, tk, st.observed, c, h).value| - 1
    ensures var path := WarningPath(cars, tk, st.observed, c, h).value; (path[i], h) in st.observed <==> i == 0
    ensures Distinct(WarningPath(cars, tk, st.observed, c, h).value)
  {
    var path := WarningPath(cars, tk, st.observed, c, h).value;
    WarningPathFacts(cars, tk, st.observed, c, h);
    BfsCorrect(DeliveryGraph(cars, tk.delivered), Observers(cars, st.observed, c, h), c);
    assert path[i] != path[|path| - 1];
    assert path[i] in cars;
  }

  lemma HeardOnMeans(cars: seq<Id>, tk: Tick, st: State, p: (Id, Id), f: Fact)
    requires Newly(cars, tk, st, p)
    ensures var path := WarningPath(cars, tk, st.observed, p.0, p.1).value;
      |path| >= 2 && (HeardOn(tk, st, path, p.1, |path| - 1, f) <==> TellsHeard(cars, tk, st, p, f))
  {
    var path := WarningPath(cars, tk, st.observed, p.0, p.1).value;
    WarningPathFacts(cars, tk, st.observed, p.0, p.1);
    forall i | 0 <= i < |path| - 1 ensures (path[i], p.1) in st.observed <==> i == 0 {
      OnlyFirstObserved(cars, tk, st, p.0, p.1, i);
    }
    if HeardOn(tk, st, path, p.1, |path| - 1, f) {
      var i :| 0 <= i < |path| - 1 && (path[i], path[i + 1], p.1) !in st.heardHops
        && f == Heard(path[i + 1], path[i], p.1, tk.report(path[i], path[i + 1], p.1), i > 0);
      assert (f.sender, f.receiver, f.hazard) == (path[i], path[i + 1], p.1);
    }
    if TellsHeard(cars, tk, st, p, f) {
      var i :| 0 <= i < |path| - 1 && (f.sender, f.receiver, f.hazard) == (path[i], path[i + 1], p.1);
      assert f == Heard(path[i + 1], path[i], p.1, tk.report(path[i], path[i + 1], p.1), i > 0);
    }
  }

  lemma WarnAdds(cars: seq<Id>, tk: Tick, st: State, p: (Id, Id), from: nat, f: Fact)
    requires from <= |st.log|
    ensures |st.log| <= |Warn(cars, tk, st, p.0, p.1).log|
    ensures f in Since(Warn(cars, tk, st, p.0, p.1).log, from) <==>
      f in Since(st.log, from) || Tells(cars, tk, st, p, f)
  {
    if Newly(cars, tk, st, p) {
      WarningPathFacts(cars, tk, st.observed, p.0, p.1);
      OnlyFirstObserved(cars, tk, st, p.0, p.1, 0);
      DeliverAdds(tk, st, p, WarningPath(cars, tk, st.observed, p.0, p.1).value, from, f);
      TellsByPath(cars, tk, st, p, WarningPath(cars, tk, st.observed, p.0, p.1).value, f);
    }
  }

  ghost predicate TellsOn(tk: Tick, st: State, p: (Id, Id), path: seq<Id>, f: Fact)
    requires |path| >= 2
  {
    || f == AwareOf(p.0, p.1, if |path| == 2 then Direct else Relay, path, |path| - 1)
    || HeardOn(tk, st, path, p.1, |path| - 1, f)
    || RelayedOn(st, path, p.1, |path| - 1, f)
  }

  lemma DeliverAdds(tk: Tick, st: State, p: (Id, Id), path: seq<Id>, from: nat, f: Fact)
    requires |path| >= 2 && Distinct(path) && from <= |st.log|
    ensures |st.log| <= |Deliver(tk, st, p.0, p.1, path).log|
    ensures f in Since(Deliver(tk, st, p.0, p.1, path).log, from) <==>
      f in Since(st.log, from) || TellsOn(tk, st, p, path, f)
  {
    var learned := Learn(st, p.0, p.1);
    var hopped := Hops(tk, learned, path, p.1, |path| - 1);
    HopsAdd(tk, learned, path, p.1, |path| - 1, from, f);
    HopsSet(tk, learned, path, p.1, |path| - 1);
    RelaysAdd(tk, hopped, path, p.1, |path| - 1, from, f);
    EmitAdds(Relays(tk, hopped, path, p.1, |path| - 1), tk.t, tk.n, AwareOf(p.0, p.1, ViaOf(path), path, |path| - 1),
             from);
    assert HeardOn(tk, learned, path, p.1, |path| - 1, f) <==> HeardOn(tk, st, path, p.1, |path| - 1, f);
    assert RelayedOn(hopped, path, p.1, |path| - 1, f) <==> RelayedOn(st, path, p.1, |path| - 1, f);
  }

  lemma AwareMeans(cars: seq<Id>, tk: Tick, st: State, p: (Id, Id), path: seq<Id>, f: Fact)
    requires Newly(cars, tk, st, p) && WarningPath(cars, tk, st.observed, p.0, p.1) == Some(path) && |path| >= 2
    ensures f == AwareOf(p.0, p.1, if |path| == 2 then Direct else Relay, path, |path| - 1)
      <==> TellsAware(cars, tk, st, p, f)
  {
  }

  lemma TellsByPath(cars: seq<Id>, tk: Tick, st: State, p: (Id, Id), path: seq<Id>, f: Fact)
    requires Newly(cars, tk, st, p) && WarningPath(cars, tk, st.observed, p.0, p.1) == Some(path) && |path| >= 2
    ensures TellsOn(tk, st, p, path, f) <==> Tells(cars, tk, st, p, f)
  {
    HeardOnMeans(cars, tk, st, p, f);
    RelayedOnMeans(cars, tk, st, p, path, f);
    AwareMeans(cars, tk, st, p, path, f);
    assert TellsOn(tk, st, p, path, f) <==>
      TellsAware(cars, tk, st, p, f) || TellsHeard(cars, tk, st, p, f) || TellsRelayed(cars, tk, st, p, f);
  }

  lemma RelayedOnMeans(cars: seq<Id>, tk: Tick, st: State, p: (Id, Id), path: seq<Id>, f: Fact)
    requires Newly(cars, tk, st, p) && |path| >= 2
    requires WarningPath(cars, tk, st.observed, p.0, p.1) == Some(path)
    ensures RelayedOn(st, path, p.1, |path| - 1, f) <==> TellsRelayed(cars, tk, st, p, f)
  {
    if RelayedOn(st, path, p.1, |path| - 1, f) {
      var i :| 1 <= i < |path| - 1 && (path[i], path[0], path[|path| - 1], p.1) !in st.relayedEdges
        && f == RelayedBy(path[i], p.1, path[0], path[|path| - 1]);
      assert (f.relay, f.source, f.dest, f.hazard) == (path[i], path[0], path[|path| - 1], p.1);
      assert RelayOf(cars, tk, st, p, (f.relay, f.source, f.dest, f.hazard));
    }
    if TellsRelayed(cars, tk, st, p, f) {
      var i :| 1 <= i < |path| - 1
        && (f.relay, f.source, f.dest, f.hazard) == (path[i], path[0], path[|path| - 1], p.1);
      assert f == RelayedBy(path[i], p.1, path[0], path[|path| - 1]);
    }
  }

  // What a round of warnings reports is what each of them would report by itself.
  lemma {:induction false} WarnsAdd(cars: seq<Id>, tk: Tick, st: State, vs: seq<(Id, Id)>, f: Fact)
    ensures |st.log| <= |Warns(cars, tk, st, vs).log|
    ensures f in Since(Warns(cars, tk, st, vs).log, |st.log|) <==> exists p :: p in vs && Tells(cars, tk, st, p, f)
  {
    if vs != [] {
      var us, p := vs[..|vs| - 1], vs[|vs| - 1];
      assert vs == us + [p];
      var m := Warns(cars, tk, st, us);
      WarnsAdd(cars, tk, st, us, f);
      WarnsSpread(cars, tk, st, us);
      WarnAdds(cars, tk, m, p, |st.log|, f);
      TellsNext(cars, tk, st, us, p, m, f);
    }
  }

  // After the visits us a visit to p tells what it would have told before them, but for what they told.
  lemma TellsNext(cars: seq<Id>, tk: Tick, st: State, us: seq<(Id, Id)>, p: (Id, Id), m: State, f: Fact)
    requires Spread(cars, tk, st, us, m)
    ensures (exists q :: q in us && Tells(cars, tk, st, q, f)) || Tells(cars, tk, m, p, f)
      <==> (exists q :: q in us + [p] && Tells(cars, tk, st, q, f))
  {
    TellsNoMore(cars, tk, st, us, p, m, f);
    if q :| q in us && Tells(cars, tk, st, q, f) {
      assert q in us + [p];
    } else if q :| q in us + [p] && Tells(cars, tk, st, q, f) {
      if !Tells(cars, tk, m, p, f) {
        ToldBefore(cars, tk, st, us, p, m, f);
      }
    }
    assert p in us + [p];
  }

  lemma TellsNoMore(cars: seq<Id>, tk: Tick, st: State, us: seq<(Id, Id)>, p: (Id, Id), m: State, f: Fact)
    requires Spread(cars, tk, st, us, m)
    ensures Tells(cars, tk, m, p, f) ==> Tells(cars, tk, st, p, f)
  {
    if Tells(cars, tk, m, p, f) {
      assert Newly(cars, tk, m, p);
      StillNewly(cars, tk, st, us, p, m);
    }
  }

  lemma ToldBefore(cars: seq<Id>, tk: Tick, st: State, us: seq<(Id, Id)>, p: (Id, Id), m: State, f: Fact)
    requires Spread(cars, tk, st, us, m) && p !in us && Tells(cars, tk, st, p, f) && !Tells(cars, tk, m, p, f)
    ensures exists q :: q in us && Tells(cars, tk, st, q, f)
  {
    StillNewly(cars, tk, st, us, p, m);
    if TellsHeard(cars, tk, st, p, f) {
      var q :| q in us && HopOf(cars, tk, st, q, (f.sender, f.receiver, f.hazard));
      assert TellsHeard(cars, tk, st, q, f);
      assert Tells(cars, tk, st, q, f);
    } else {
      var q :| q in us && RelayOf(cars, tk, st, q, (f.relay, f.source, f.dest, f.hazard));
      assert TellsRelayed(cars, tk, st, q, f);
      assert Tells(cars, tk, st, q, f);
    }
  }

  lemma StillNewly(cars: seq<Id>, tk: Tick, st: State, us: seq<(Id, Id)>, p: (Id, Id), m: State)
    requires Spread(cars, tk, st, us, m) && p !in us && Newly(cars, tk, st, p)
    ensures Newly(cars, tk, m, p) && m.observed == st.observed
    ensures forall x :: HopOf(cars, tk, m, p, x) <==> HopOf(cars, tk, st, p, x)
    ensures forall x :: RelayOf(cars, tk, m, p, x) <==> RelayOf(cars, tk, st, p, x)
  {
  }

  // -- step 4: who brakes, and who is at risk ---------------------------------------------------------------

  ghost predicate Keyed(d: seq<(Id, real)>) {
    forall i, j :: 0 <= i < j < |d| ==> d[i].0 != d[j].0
  }

  lemma {:induction false} PutMeans(d: seq<(Id, real)>, h: Id, x: real, g: Id, y: real)
    requires Keyed(d)
    ensures Keyed(Put(d, h, x))
    ensures (g, y) in Put(d, h, x) <==> if g == h then y == x else (g, y) in d
  {
    if d != [] {
      assert d == [d[0]] + d[1..];
      PutMeans(d[1..], h, x, g, y);
      var r := Put(d[1..], h, x);
      if d[0].0 == h {
        assert (h, y) in d[1..] ==> HasKey(d[1..], h);
      } else {
        assert Put(d, h, x) == [d[0]] + r;
        forall i | 0 <= i < |r| ensures r[i].0 != d[0].0 {
          assert HasKey(r, r[i].0);
        }
      }
    }
  }

  // A hazard is ahead, and as far off as the last of its sightings says.
  lemma {:induction false} AheadIsLast(ss: seq<Sighting>, limit: real, h: Id, y: real)
    ensures Keyed(Ahead(ss, limit))
    ensures (h, y) in Ahead(ss, limit) <==>
      Last(ss, IsNear(h, limit)).Some? && Last(ss, IsNear(h, limit)).value.distance == y
  {
    if ss != [] {
      var last := ss[|ss| - 1];
      AheadIsLast(ss[..|ss| - 1], limit, h, y);
      PutMeans(Ahead(ss[..|ss| - 1], limit), last.hazard, last.distance, h, y);
    }
  }

  lemma {:induction false} ConcernIsLast(w: World, cars: seq<Id>, tk: Tick, c: Id, h: Id, y: real)
    ensures (c, (h, y)) in Concern(w, cars, tk) <==>
      var s := Last(SightingsOf(tk, c), IsNear(h, w.brakeReaction));
      c in cars && s.Some? && s.value.distance == y
  {
    if cars != [] {
      var front, d := cars[..|cars| - 1], cars[|cars| - 1];
      assert cars == front + [d];
      ConcernIsLast(w, front, tk, c, h, y);
      AheadIsLast(SightingsOf(tk, d), w.brakeReaction, h, y);
      ForCarMembers(d, Ahead(SightingsOf(tk, d), w.brakeReaction));
    }
  }

  ghost predicate Functional(vs: seq<(Id, (Id, real))>) {
    forall c, h, x, y :: (c, (h, x)) in vs && (c, (h, y)) in vs ==> x == y
  }

  lemma ConcernIsFunctional(w: World, cars: seq<Id>, tk: Tick)
    ensures Functional(Concern(w, cars, tk))
  {
    forall c, h, x, y | (c, (h, x)) in Concern(w, cars, tk) && (c, (h, y)) in Concern(w, cars, tk) ensures x == y {
      ConcernIsLast(w, cars, tk, c, h, x);
      ConcernIsLast(w, cars, tk, c, h, y);
    }
  }

  // What the braking step reports.
  ghost predicate BrakingReports(st: State, vs: seq<(Id, (Id, real))>, f: Fact) {
    match f
    case BrakedFor(c, h, d, cause) =>
      && (c, (h, d)) in vs && (c, h) in st.aware && (c, h) !in st.braked
      && cause == if (c, h) in st.observed then BySight else ByRadio
    case UnawareRisk(c, h, d) => (c, (h, d)) in vs && (c, h) !in st.aware && d < 10.0
    case _ => false
  }

  lemma {:induction false} BrakesAdd(tk: Tick, st: State, vs: seq<(Id, (Id, real))>, f: Fact)
    requires Functional(vs)
    ensures |st.log| <= |Brakes(tk, st, vs).log|
    ensures f in Since(Brakes(tk, st, vs).log, |st.log|) <==> BrakingReports(st, vs, f)
  {
    if vs != [] {
      var us, v := vs[..|vs| - 1], vs[|vs| - 1];
      assert vs == us + [v];
      BrakesAdd(tk, st, us, f);
      BrakesMean(tk, st, us);
      var m := Brakes(tk, st, us);
      var c, h, d := v.0, v.1.0, v.1.1;
      if (c, h) in st.aware && (c, h) !in m.braked {
        EmitAdds(m.(braked := m.braked + {(c, h)}, permStop := m.permStop + {c}), tk.t, tk.n,
                 BrakedFor(c, h, d, if (c, h) in m.observed then BySight else ByRadio), |st.log|);
      } else if (c, h) !in st.aware && d < 10.0 {
        EmitAdds(m, tk.t, tk.n, UnawareRisk(c, h, d), |st.log|);
      }
      DueBefore(us, v);
    }
  }

  // A car that was due before was due for the same distance.
  lemma DueBefore(us: seq<(Id, (Id, real))>, v: (Id, (Id, real)))
    requires Functional(us + [v])
    ensures DueIn(us, (v.0, v.1.0)) <==> v in us
  {
    if DueIn(us, (v.0, v.1.0)) {
      var u :| u in us && u.0 == v.0 && u.1.0 == v.1.0;
      assert u == (v.0, (v.1.0, u.1.1)) && v == (v.0, (v.1.0, v.1.1));
      assert u in us + [v] && v in us + [v];
      SameDistance(us + [v], v.0, v.1.0, u.1.1, v.1.1);
    }
  }

  lemma SameDistance(vs: seq<(Id, (Id, real))>, c: Id, h: Id, x: real, y: real)
    requires Functional(vs) && (c, (h, x)) in vs && (c, (h, y)) in vs
    ensures x == y
  {
  }

  // -- the whole tick -----------------------------------------------------------------------------------

  // The car does not know of the hazard and does not see it, has it ahead within the horizon, and is reached
  // along this path, the one the search finds, from a car that has observed it.
  ghost predicate Learns(w: World, cars: seq<Id>, st: State, tk: Tick, now: State, c: Id, h: Id, path: seq<Id>) {
    && c in cars && (c, h) !in st.aware && !SeesHazard(tk, c, h) && HasAhead(tk, c, h, w.awarenessHorizon)
    && WarningPath(cars, tk, now.observed, c, h) == Some(path)
  }

  // The i-th hop of the path, and the i-th car as a relay on it.
  predicate IsHop(path: seq<Id>, i: int, sender: Id, receiver: Id) {
    0 <= i < |path| - 1 && path[i] == sender && path[i + 1] == receiver
  }

  predicate IsRelay(path: seq<Id>, i: int, relay: Id, source: Id) {
    1 <= i < |path| - 1 && path[i] == relay && path[0] == source
  }

  ghost predicate IsAsFar(s: Option<Sighting>, d: real) { s.Some? && s.value.distance == d }

  // The tick from st to now reports f: a first sight and a first blind spot with the distance of the first such
  // sighting; awareness by sight or along a path; the new hops and relays of the paths; and for a hazard near
  // ahead, at the distance of its last sighting, a first brake by a car that knows of it, or a risk for one
  // that does not.
  ghost predicate Reports(w: World, cars: seq<Id>, st: State, tk: Tick, now: State, f: Fact) {
    match f
    case Trusts(_, _) => false
    case Observed(c, h, d) =>
      c in cars && (c, h) !in st.observed && IsAsFar(First(SightingsOf(tk, c), Shows(h)), d)
    case BlindTo(c, h, why, d) =>
      var s := First(SightingsOf(tk, c), Hides(w, h));
      c in cars && (c, h) !in st.blind && IsAsFar(s, d) && s.value.reason == Some(why)
    case AwareOf(c, h, via, path, hops) =>
      if via == Lidar then c in cars && (c, h) !in st.aware && SeesHazard(tk, c, h) && path == [c] && hops == 0
      else Learns(w, cars, st, tk, now, c, h, path) && hops == |path| - 1 && (via == Direct <==> hops == 1)
    case Heard(rc, s, h, report, relayed) =>
      && (s, rc, h) !in st.heardHops && report == tk.report(s, rc, h) && (relayed <==> (s, h) !in now.observed)
      && exists c, path, i :: Learns(w, cars, st, tk, now, c, h, path) && IsHop(path, i, s, rc)
    case RelayedBy(m, h, s, d) =>
      && (m, s, d, h) !in st.relayedEdges
      && exists path, i :: Learns(w, cars, st, tk, now, d, h, path) && IsRelay(path, i, m, s)
    case BrakedFor(c, h, d, cause) =>
      && c in cars && (c, h) in now.aware && (c, h) !in st.braked
      && IsAsFar(Last(SightingsOf(tk, c), IsNear(h, w.brakeReaction)), d)
      && (cause == BySight <==> (c, h) in now.observed)
    case UnawareRisk(c, h, d) =>
      && c in cars && (c, h) !in now.aware && d < 10.0
      && IsAsFar(Last(SightingsOf(tk, c), IsNear(h, w.brakeReaction)), d)
  }

  lemma SinceSplit(a: seq<GraphEvent>, b: seq<GraphEvent>, n: nat)
    requires a <= b && n <= |a|
    ensures Since(b, n) == Since(a, n) + Since(b, |a|)
  {
    forall f | f in Since(a, n) ensures f in Since(b, n) {
      var i :| n <= i < |a| && a[i].fact == f;
      assert b[i].fact == f;
    }
    forall f | f in Since(b, n) ensures f in Since(a, n) + Since(b, |a|) {
      var i :| n <= i < |b| && b[i].fact == f;
      if i < |a| {
        assert a[i].fact == f;
      }
    }
  }

  lemma SeenMeans(w: World, cars: seq<Id>, st: State, tk: Tick, f: Fact)
    ensures Seen(w, st, Sightings(cars, tk), f) <==>
      (f.Observed? || f.BlindTo? || (f.AwareOf? && f.via == Lidar)) && Reports(w, cars, st, tk, st, f)
  {
    match f
    case Observed(c, h, _) => FirstVisitMeans(cars, tk, c, Shows(h));
    case BlindTo(c, h, _, _) => FirstVisitMeans(cars, tk, c, Hides(w, h));
    case AwareOf(c, h, _, _, _) =>
      FirstVisitMeans(cars, tk, c, Shows(h));
      FirstExists(SightingsOf(tk, c), Shows(h));
    case _ =>
  }

  lemma LearnsIff(w: World, cars: seq<Id>, st: State, tk: Tick, seen: State, c: Id, h: Id, path: seq<Id>)
    requires st.observed <= st.aware && seen == Observes(w, tk, st, Sightings(cars, tk))
    ensures Learns(w, cars, st, tk, seen, c, h, path) <==>
      && (c, h) in Relevant(w, cars, tk) && Newly(cars, tk, seen, (c, h))
      && WarningPath(cars, tk, seen.observed, c, h) == Some(path)
  {
    RelevantMeans(w, cars, tk, c, h);
    ObservesSets(w, tk, st, Sightings(cars, tk), c, h);
    FirstVisitMeans(cars, tk, c, Shows(h));
    FirstExists(SightingsOf(tk, c), Shows(h));
  }

  // What the lidar step leaves as it was.
  lemma {:induction false} ObservesKeeps(w: World, tk: Tick, st: State, vs: seq<(Id, Sighting)>)
    ensures var r := Observes(w, tk, st, vs);
      r.heardHops == st.heardHops && r.relayedEdges == st.relayedEdges && r.braked == st.braked
  {
    if vs != [] {
      ObservesKeeps(w, tk, st, vs[..|vs| - 1]);
    }
  }

  ghost predicate ToldIn(w: World, cars: seq<Id>, tk: Tick, seen: State, f: Fact) {
    exists p :: p in Relevant(w, cars, tk) && Tells(cars, tk, seen, p, f)
  }

  lemma ToldMeans(w: World, cars: seq<Id>, st: State, tk: Tick, seen: State, f: Fact)
    requires st.observed <= st.aware && seen == Observes(w, tk, st, Sightings(cars, tk))
    ensures ToldIn(w, cars, tk, seen, f) <==>
      (f.Heard? || f.RelayedBy? || (f.AwareOf? && f.via != Lidar)) && Reports(w, cars, st, tk, seen, f)
  {
    ObservesKeeps(w, tk, st, Sightings(cars, tk));
    match f
    case AwareOf(c, h, _, path, _) => AwareToldMeans(w, cars, st, tk, seen, f);
    case Heard(_, _, _, _, _) => HeardToldMeans(w, cars, st, tk, seen, f);
    case RelayedBy(_, _, _, _) => RelayedToldMeans(w, cars, st, tk, seen, f);
    case _ =>
  }

  lemma AwareToldMeans(w: World, cars: seq<Id>, st: State, tk: Tick, seen: State, f: Fact)
    requires st.observed <= st.aware && seen == Observes(w, tk, st, Sightings(cars, tk)) && f.AwareOf?
    ensures ToldIn(w, cars, tk, seen, f) <==> f.via != Lidar && Reports(w, cars, st, tk, seen, f)
  {
    var p := (f.car, f.hazard);
    if ToldIn(w, cars, tk, seen, f) {
      var q :| q in Relevant(w, cars, tk) && Tells(cars, tk, seen, q, f);
      assert q == p;
    } else if p in Relevant(w, cars, tk) {
      assert !Tells(cars, tk, seen, p, f);
    }
    AwareIsTold(w, cars, st, tk, seen, f);
  }

  lemma AwareIsTold(w: World, cars: seq<Id>, st: State, tk: Tick, seen: State, f: Fact)
    requires st.observed <= st.aware && seen == Observes(w, tk, st, Sightings(cars, tk)) && f.AwareOf?
    ensures (f.car, f.hazard) in Relevant(w, cars, tk) && TellsAware(cars, tk, seen, (f.car, f.hazard), f) <==>
      f.via != Lidar && Reports(w, cars, st, tk, seen, f)
  {
    var learns := Learns(w, cars, st, tk, seen, f.car, f.hazard, f.path);
    LearnsIff(w, cars, st, tk, seen, f.car, f.hazard, f.path);
    if learns {
      PathEnds(cars, tk, seen, f.car, f.hazard, f.path);
    }
    AwareReport(w, cars, st, tk, seen, f);
    TellsAwareIff(cars, tk, seen, f);
  }

  lemma AwareReport(w: World, cars: seq<Id>, st: State, tk: Tick, seen: State, f: Fact)
    requires f.AwareOf?
    ensures f.via != Lidar ==>
      (Reports(w, cars, st, tk, seen, f) <==>
         Learns(w, cars, st, tk, seen, f.car, f.hazard, f.path) && f.hops == |f.path| - 1
         && (f.via == Direct <==> f.hops == 1))
  {
  }

  lemma TellsAwareIff(cars: seq<Id>, tk: Tick, st: State, f: Fact)
    requires f.AwareOf?
    ensures TellsAware(cars, tk, st, (f.car, f.hazard), f) <==>
      && Newly(cars, tk, st, (f.car, f.hazard)) && WarningPath(cars, tk, st.observed, f.car, f.hazard) == Some(f.path)
      && f.hops == |f.path| - 1 && f.via == (if |f.path| == 2 then Direct else Relay)
  {
  }

  lemma HeardToldMeans(w: World, cars: seq<Id>, st: State, tk: Tick, seen: State, f: Fact)
    requires st.observed <= st.aware && seen == Observes(w, tk, st, Sightings(cars, tk)) && f.Heard?
    requires seen.heardHops == st.heardHops
    ensures ToldIn(w, cars, tk, seen, f) <==> Reports(w, cars, st, tk, seen, f)
  {
    if ToldIn(w, cars, tk, seen, f) {
      HopReported(w, cars, st, tk, seen, f);
    } else if Reports(w, cars, st, tk, seen, f) {
      var c, path, i :| Learns(w, cars, st, tk, seen, c, f.hazard, path) && IsHop(path, i, f.sender, f.receiver);
      HopIsTold(w, cars, st, tk, seen, c, path, i, f);
    }
  }

  lemma HopReported(w: World, cars: seq<Id>, st: State, tk: Tick, seen: State, f: Fact)
    requires st.observed <= st.aware && seen == Observes(w, tk, st, Sightings(cars, tk)) && f.Heard?
    requires seen.heardHops == st.heardHops && ToldIn(w, cars, tk, seen, f)
    ensures Reports(w, cars, st, tk, seen, f)
  {
    var p :| p in Relevant(w, cars, tk) && Tells(cars, tk, seen, p, f);
    var path, i := HopOnPath(w, cars, st, tk, seen, p, f);
  }

  lemma HopOnPath(w: World, cars: seq<Id>, st: State, tk: Tick, seen: State, p: (Id, Id), f: Fact)
    returns (path: seq<Id>, i: int)
    requires st.observed <= st.aware && seen == Observes(w, tk, st, Sightings(cars, tk)) && f.Heard?
    requires p in Relevant(w, cars, tk) && TellsHeard(cars, tk, seen, p, f)
    ensures Learns(w, cars, st, tk, seen, p.0, f.hazard, path) && IsHop(path, i, f.sender, f.receiver)
  {
    path := WarningPath(cars, tk, seen.observed, p.0, p.1).value;
    LearnsIff(w, cars, st, tk, seen, p.0, f.hazard, path);
    i :| 0 <= i < |path| - 1 && (f.sender, f.receiver, f.hazard) == (path[i], path[i + 1], p.1);
  }

  lemma HopIsTold(w: World, cars: seq<Id>, st: State, tk: Tick, seen: State, c: Id, path: seq<Id>, i: int, f: Fact)
    requires st.observed <= st.aware && seen == Observes(w, tk, st, Sightings(cars, tk)) && f.Heard?
    requires Learns(w, cars, st, tk, seen, c, f.hazard, path) && IsHop(path, i, f.sender, f.receiver)
    requires (f.sender, f.receiver, f.hazard) !in seen.heardHops
    requires f.report == tk.report(f.sender, f.receiver, f.hazard)
    requires f.relayed <==> (f.sender, f.hazard) !in seen.observed
    ensures ToldIn(w, cars, tk, seen, f)
  {
    LearnsIff(w, cars, st, tk, seen, c, f.hazard, path);
    assert (f.sender, f.receiver, f.hazard) == (path[i], path[i + 1], f.hazard);
    assert HopOf(cars, tk, seen, (c, f.hazard), (f.sender, f.receiver, f.hazard));
    assert TellsHeard(cars, tk, seen, (c, f.hazard), f);
    assert Tells(cars, tk, seen, (c, f.hazard), f);
  }

  lemma RelayedToldMeans(w: World, cars: seq<Id>, st: State, tk: Tick, seen: State, f: Fact)
    requires st.observed <= st.aware && seen == Observes(w, tk, st, Sightings(cars, tk)) && f.RelayedBy?
    requires seen.relayedEdges == st.relayedEdges
    ensures ToldIn(w, cars, tk, seen, f) <==> Reports(w, cars, st, tk, seen, f)
  {
    if ToldIn(w, cars, tk, seen, f) {
      RelayReported(w, cars, st, tk, seen, f);
    } else if Reports(w, cars, st, tk, seen, f) {
      var path, i :| Learns(w, cars, st, tk, seen, f.dest, f.hazard, path) && IsRelay(path, i, f.relay, f.source);
      RelayIsTold(w, cars, st, tk, seen, path, i, f);
    }
  }

  lemma RelayReported(w: World, cars: seq<Id>, st: State, tk: Tick, seen: State, f: Fact)
    requires st.observed <= st.aware && seen == Observes(w, tk, st, Sightings(cars, tk)) && f.RelayedBy?
    requires seen.relayedEdges == st.relayedEdges && ToldIn(w, cars, tk, seen, f)
    ensures Reports(w, cars, st, tk, seen, f)
  {
    var p :| p in Relevant(w, cars, tk) && Tells(cars, tk, seen, p, f);
    var path, i := RelayOnPath(w, cars, st, tk, seen, p, f);
  }

  lemma RelayOnPath(w: World, cars: seq<Id>, st: State, tk: Tick, seen: State, p: (Id, Id), f: Fact)
    returns (path: seq<Id>, i: int)
    requires st.observed <= st.aware && seen == Observes(w, tk, st, Sightings(cars, tk)) && f.RelayedBy?
    requires p in Relevant(w, cars, tk) && TellsRelayed(cars, tk, seen, p, f)
    ensures Learns(w, cars, st, tk, seen, f.dest, f.hazard, path) && IsRelay(path, i, f.relay, f.source)
  {
    path, i := RelayAt(cars, tk, seen, p, f.relay, f.source, f.dest, f.hazard);
    LearnsIff(w, cars, st, tk, seen, p.0, f.hazard, path);
  }

  lemma RelayAt(cars: seq<Id>, tk: Tick, st: State, p: (Id, Id), relay: Id, source: Id, dest: Id, h: Id)
    returns (path: seq<Id>, i: int)
    requires RelayOf(cars, tk, st, p, (relay, source, dest, h))
    ensures WarningPath(cars, tk, st.observed, p.0, p.1) == Some(path) && IsRelay(path, i, relay, source)
    ensures p == (dest, h)
  {
    path := WarningPath(cars, tk, st.observed, p.0, p.1).value;
    PathEnds(cars, tk, st, p.0, p.1, path);
    i := RelayIndex(path, p.1, relay, source, dest, h);
  }

  lemma RelayIndex(path: seq<Id>, g: Id, relay: Id, source: Id, dest: Id, h: Id) returns (i: int)
    requires RelayOn(path, g, (relay, source, dest, h)) && path != []
    ensures IsRelay(path, i, relay, source) && dest == path[|path| - 1] && g == h
  {
    i :| 1 <= i < |path| - 1 && (relay, source, dest, h) == (path[i], path[0], path[|path| - 1], g);
  }

  lemma PathEnds(cars: seq<Id>, tk: Tick, st: State, c: Id, h: Id, path: seq<Id>)
    requires WarningPath(cars, tk, st.observed, c, h) == Some(path)
    ensures |path| >= 2 && path[|path| - 1] == c
  {
    WarningPathFacts(cars, tk, st.observed, c, h);
  }

  lemma RelayIsTold(w: World, cars: seq<Id>, st: State, tk: Tick, seen: State, path: seq<Id>, i: int, f: Fact)
    requires st.observed <= st.aware && seen == Observes(w, tk, st, Sightings(cars, tk)) && f.RelayedBy?
    requires Learns(w, cars, st, tk, seen, f.dest, f.hazard, path) && IsRelay(path, i, f.relay, f.source)
    requires (f.relay, f.source, f.dest, f.hazard) !in seen.relayedEdges
    ensures ToldIn(w, cars, tk, seen, f)
  {
    LearnsIff(w, cars, st, tk, seen, f.dest, f.hazard, path);
    RelayIsOnPath(cars, tk, seen, path, i, f.relay, f.source, f.dest, f.hazard);
    assert TellsRelayed(cars, tk, seen, (f.dest, f.hazard), f);
    assert Tells(cars, tk, seen, (f.dest, f.hazard), f);
  }

  lemma RelayIsOnPath(cars: seq<Id>, tk: Tick, st: State, path: seq<Id>, i: int, relay: Id, source: Id, dest: Id, h: Id)
    requires Newly(cars, tk, st, (dest, h)) && WarningPath(cars, tk, st.observed, dest, h) == Some(path)
    requires IsRelay(path, i, relay, source)
    ensures RelayOf(cars, tk, st, (dest, h), (relay, source, dest, h))
  {
    PathEnds(cars, tk, st, dest, h, path);
    RelayIsOn(path, h, i);
  }

  lemma RelayIsOn(path: seq<Id>, h: Id, i: int)
    requires 1 <= i < |path| - 1
    ensures RelayOn(path, h, (path[i], path[0], path[|path| - 1], h))
  {
  }

  lemma BrakingMeans(w: World, cars: seq<Id>, st: State, tk: Tick, told: State, now: State, f: Fact)
    requires told.braked == st.braked && now.observed == told.observed && now.aware == told.aware
    ensures BrakingReports(told, Concern(w, cars, tk), f) <==>
      (f.BrakedFor? || f.UnawareRisk?) && Reports(w, cars, st, tk, now, f)
  {
    match f
    case BrakedFor(c, h, d, _) => ConcernIsLast(w, cars, tk, c, h, d);
    case UnawareRisk(c, h, d) => ConcernIsLast(w, cars, tk, c, h, d);
    case _ =>
  }

  // Reports looks at the observed and aware pairs after the tick only.
  lemma ReportsLooksAt(w: World, cars: seq<Id>, st: State, tk: Tick, a: State, b: State, f: Fact)
    requires a.observed == b.observed && (f.BrakedFor? || f.UnawareRisk? ==> a.aware == b.aware)
    ensures Reports(w, cars, st, tk, a, f) <==> Reports(w, cars, st, tk, b, f)
  {
    forall c, h, path ensures Learns(w, cars, st, tk, a, c, h, path) <==> Learns(w, cars, st, tk, b, c, h, path) {
    }
  }

  // One tick adds to the log exactly the events it reports.
  lemma TickReports(w: World, cars: seq<Id>, st: State, tk: Tick, f: Fact)
    requires st.observed <= st.aware
    ensures var now := TickStep(w, cars, st, tk);
      st.log <= now.log && (f in Since(now.log, |st.log|) <==> Reports(w, cars, st, tk, now, f))
  {
    var vs := Sightings(cars, tk);
    var seen := Observes(w, tk, st, vs);
    var told := Warns(cars, tk, seen, Relevant(w, cars, tk));
    var now := TickStep(w, cars, st, tk);
    ThreeSteps(w, cars, st, tk, f);
    ObservesKeeps(w, tk, st, vs);
    WarnsSpread(cars, tk, seen, Relevant(w, cars, tk));
    BrakesMean(tk, told, Concern(w, cars, tk));
    SeenMeans(w, cars, st, tk, f);
    ToldMeans(w, cars, st, tk, seen, f);
    BrakingMeans(w, cars, st, tk, told, now, f);
    if f.Heard? || f.RelayedBy? || f.AwareOf? {
      ReportsLooksAt(w, cars, st, tk, seen, now, f);
    }
  }

  lemma ThreeSteps(w: World, cars: seq<Id>, st: State, tk: Tick, f: Fact)
    requires st.observed <= st.aware
    ensures var seen := Observes(w, tk, st, Sightings(cars, tk));
      var told, now := Warns(cars, tk, seen, Relevant(w, cars, tk)), TickStep(w, cars, st, tk);
      && st.log <= now.log
      && (f in Since(now.log, |st.log|) <==>
            || Seen(w, st, Sightings(cars, tk), f) || ToldIn(w, cars, tk, seen, f)
            || BrakingReports(told, Concern(w, cars, tk), f))
  {
    var seen := Observes(w, tk, st, Sightings(cars, tk));
    var told, now := Warns(cars, tk, seen, Relevant(w, cars, tk)), TickStep(w, cars, st, tk);
    ObservesGrow(w, tk, st, Sightings(cars, tk));
    WarnsGrow(cars, tk, seen, Relevant(w, cars, tk));
    BrakesGrow(tk, told, Concern(w, cars, tk));
    SinceSplit(seen.log, told.log, |st.log|);
    SinceSplit(told.log, now.log, |st.log|);
    ObservesAdd(w, tk, st, Sightings(cars, tk), f);
    WarnsAdd(cars, tk, seen, Relevant(w, cars, tk), f);
    ConcernIsFunctional(w, cars, tk);
    BrakesAdd(tk, told, Concern(w, cars, tk), f);
  }

  // -- when it is reported --------------------------------------------------------------------------------

  // Everything from position n on has the time and number of the tick.
  ghost predicate Stamped(log: seq<GraphEvent>, n: nat, tk: Tick) {
    forall i :: n <= i < |log| ==> log[i].t == tk.t && log[i].tick == tk.n
  }

  lemma {:induction false} HopsStamped(tk: Tick, st: State, path: seq<Id>, h: Id, k: nat, n: nat)
    requires k < |path| && Stamped(st.log, n, tk)
    ensures Stamped(Hops(tk, st, path, h, k).log, n, tk)
  {
    if k > 0 {
      HopsStamped(tk, st, path, h, k - 1, n);
    }
  }

  lemma {:induction false} RelaysStamped(tk: Tick, st: State, path: seq<Id>, h: Id, k: nat, n: nat)
    requires 1 <= k <= |path| && Stamped(st.log, n, tk)
    ensures Stamped(Relays(tk, st, path, h, k).log, n, tk)
  {
    if k > 1 {
      RelaysStamped(tk, st, path, h, k - 1, n);
    }
  }

  lemma WarnStamped(cars: seq<Id>, tk: Tick, st: State, c: Id, h: Id, n: nat)
    requires Stamped(st.log, n, tk)
    ensures Stamped(Warn(cars, tk, st, c, h).log, n, tk)
  {
    var found := WarningPath(cars, tk, st.observed, c, h);
    if (c, h) !in st.aware && found.Some? {
      WarningPathFacts(cars, tk, st.observed, c, h);
      DeliverStamped(tk, st, c, h, found.value, n);
    }
  }

  lemma DeliverStamped(tk: Tick, st: State, c: Id, h: Id, path: seq<Id>, n: nat)
    requires Stamped(st.log, n, tk) && |path| >= 2
    ensures Stamped(Deliver(tk, st, c, h, path).log, n, tk)
  {
    HopsStamped(tk, Learn(st, c, h), path, h, |path| - 1, n);
    RelaysStamped(tk, Hops(tk, Learn(st, c, h), path, h, |path| - 1), path, h, |path| - 1, n);
  }

  lemma {:induction false} WarnsStamped(cars: seq<Id>, tk: Tick, st: State, vs: seq<(Id, Id)>, n: nat)
    requires Stamped(st.log, n, tk)
    ensures Stamped(Warns(cars, tk, st, vs).log, n, tk)
  {
    if vs != [] {
      var v := vs[|vs| - 1];
      WarnsStamped(cars, tk, st, vs[..|vs| - 1], n);
      WarnStamped(cars, tk, Warns(cars, tk, st, vs[..|vs| - 1]), v.0, v.1, n);
    }
  }

  lemma {:induction false} ObservesStamped(w: World, tk: Tick, st: State, vs: seq<(Id, Sighting)>, n: nat)
    requires Stamped(st.log, n, tk)
    ensures Stamped(Observes(w, tk, st, vs).log, n, tk)
  {
    if vs != [] {
      ObservesStamped(w, tk, st, vs[..|vs| - 1], n);
    }
  }

  lemma {:induction false} BrakesStamped(tk: Tick, st: State, vs: seq<(Id, (Id, real))>, n: nat)
    requires Stamped(st.log, n, tk)
    ensures Stamped(Brakes(tk, st, vs).log, n, tk)
  {
    if vs != [] {
      BrakesStamped(tk, st, vs[..|vs| - 1], n);
    }
  }

  lemma TickStamped(w: World, cars: seq<Id>, st: State, tk: Tick)
    ensures Stamped(TickStep(w, cars, st, tk).log, |st.log|, tk)
  {
    var seen := Observes(w, tk, st, Sightings(cars, tk));
    var told := Warns(cars, tk, seen, Relevant(w, cars, tk));
    ObservesStamped(w, tk, st, Sightings(cars, tk), |st.log|);
    WarnsStamped(cars, tk, seen, Relevant(w, cars, tk), |st.log|);
    BrakesStamped(tk, told, Concern(w, cars, tk), |st.log|);
  }

  // Every tick of every run adds to the log, with its own time and number, exactly the events it reports.
  lemma EveryTickReports(w: World, cars: seq<Id>, trusts: seq<(Id, Id)>, ticks: seq<Tick>, n: nat, f: Fact)
    requires n < |ticks|
    ensures var was, now := Run(w, cars, trusts, ticks[..n]), Run(w, cars, trusts, ticks[..n + 1]);
      && was.log <= now.log && Stamped(now.log, |was.log|, ticks[n])
      && (f in Since(now.log, |was.log|) <==> Reports(w, cars, was, ticks[n], now, f))
  {
    var was := Run(w, cars, trusts, ticks[..n]);
    RunKeeps(w, cars, trusts, ticks[..n]);
    NextState(w, cars, trusts, ticks, n);
    TickReports(w, cars, was, ticks[n], f);
    TickStamped(w, cars, was, ticks[n]);
  }

  // -- at most once -----------------------------------------------------------------------------------------

  // No car is listed twice.
  lemma {:induction false} ConcernVisitsOnce(w: World, cars: seq<Id>, tk: Tick)
    requires Distinct(cars)
    ensures VisitsOnce(Concern(w, cars, tk))
  {
    if cars != [] {
      var front, c := cars[..|cars| - 1], cars[|cars| - 1];
      ConcernVisitsOnce(w, front, tk);
      var a, b := Concern(w, front, tk), ForCar(c, Ahead(SightingsOf(tk, c), w.brakeReaction));
      AheadIsLast(SightingsOf(tk, c), w.brakeReaction, "", 0.0);
      forall i | 0 <= i < |a| ensures a[i].0 != c {
        assert (a[i].0, (a[i].1.0, a[i].1.1)) == a[i] && a[i] in a;
        ConcernIsLast(w, front, tk, a[i].0, a[i].1.0, a[i].1.1);
      }
    }
  }

  ghost predicate VisitsOnce(vs: seq<(Id, (Id, real))>) {
    forall i, j :: 0 <= i < j < |vs| ==> vs[i].0 != vs[j].0 || vs[i].1.0 != vs[j].1.0
  }

  ghost predicate RisksOnce(log: seq<GraphEvent>, n: nat) {
    forall i, j :: n <= i < j < |log| && log[i].fact.UnawareRisk? && log[j].fact.UnawareRisk? ==>
      KeyOf(log[i].fact) != KeyOf(log[j].fact)
  }

  lemma {:induction false} BrakesRiskOnce(tk: Tick, st: State, vs: seq<(Id, (Id, real))>, n: nat)
    requires VisitsOnce(vs) && Functional(vs) && RisksOnce(st.log, n) && n <= |st.log|
    requires forall i :: n <= i < |st.log| ==> !st.log[i].fact.UnawareRisk?
    ensures RisksOnce(Brakes(tk, st, vs).log, n)
  {
    if vs != [] {
      var us, v := vs[..|vs| - 1], vs[|vs| - 1];
      assert vs == us + [v];
      BrakesRiskOnce(tk, st, us, n);
      BrakesGrow(tk, st, us);
      var m := Brakes(tk, st, us);
      forall i | n <= i < |m.log| && m.log[i].fact.UnawareRisk?
        ensures KeyOf(m.log[i].fact) != KRisk(v.0, v.1.0)
      {
        RiskWasVisited(tk, st, us, n, i);
        var f := m.log[i].fact;
        var j :| 0 <= j < |us| && us[j] == (f.car, (f.hazard, f.distance));
        assert vs[j].0 != vs[|vs| - 1].0 || vs[j].1.0 != vs[|vs| - 1].1.0;
      }
    }
  }

  lemma RiskWasVisited(tk: Tick, st: State, us: seq<(Id, (Id, real))>, n: nat, i: nat)
    requires Functional(us) && st.log <= Brakes(tk, st, us).log && n <= |st.log|
    requires forall j :: n <= j < |st.log| ==> !st.log[j].fact.UnawareRisk?
    requires n <= i < |Brakes(tk, st, us).log| && Brakes(tk, st, us).log[i].fact.UnawareRisk?
    ensures var f := Brakes(tk, st, us).log[i].fact; (f.car, (f.hazard, f.distance)) in us
  {
    var r := Brakes(tk, st, us);
    assert i >= |st.log|;
    assert r.log[i].fact in Since(r.log, |st.log|);
    BrakesAdd(tk, st, us, r.log[i].fact);
  }

  // With distinct cars no tick of a run reports the same thing twice, a risk included.
  lemma NothingIsReportedTwice(w: World, cars: seq<Id>, trusts: seq<(Id, Id)>, ticks: seq<Tick>, n: nat, i: nat, j: nat)
    requires n < |ticks| && Distinct(cars)
    requires |Run(w, cars, trusts, ticks[..n]).log| <= i < j < |Run(w, cars, trusts, ticks[..n + 1]).log|
    ensures var log := Run(w, cars, trusts, ticks[..n + 1]).log; KeyOf(log[i].fact) != KeyOf(log[j].fact)
  {
    var st, now := Run(w, cars, trusts, ticks[..n]), Run(w, cars, trusts, ticks[..n + 1]);
    NextState(w, cars, trusts, ticks, n);
    RunKeeps(w, cars, trusts, ticks[..n]);
    TickRisksOnce(w, cars, st, ticks[n]);
    TickTrustsNobody(w, cars, st, ticks[n], i);
    RunKeeps(w, cars, trusts, ticks[..n + 1]);
    NoneTwice(now.log, |st.log|, i, j);
  }

  lemma TickTrustsNobody(w: World, cars: seq<Id>, st: State, tk: Tick, i: nat)
    requires st.observed <= st.aware && |st.log| <= i < |TickStep(w, cars, st, tk).log|
    ensures !TickStep(w, cars, st, tk).log[i].fact.Trusts?
  {
    var log := TickStep(w, cars, st, tk).log;
    assert log[i].fact in Since(log, |st.log|);
    TickReports(w, cars, st, tk, log[i].fact);
  }

  lemma NoneTwice(log: seq<GraphEvent>, n: nat, i: nat, j: nat)
    requires OnceOnly(log) && RisksOnce(log, n) && n <= i < j < |log| && !log[i].fact.Trusts?
    ensures KeyOf(log[i].fact) != KeyOf(log[j].fact)
  {
  }

  lemma TickRisksOnce(w: World, cars: seq<Id>, st: State, tk: Tick)
    requires st.observed <= st.aware && Distinct(cars)
    ensures RisksOnce(TickStep(w, cars, st, tk).log, |st.log|)
  {
    var seen := Observes(w, tk, st, Sightings(cars, tk));
    var told := Warns(cars, tk, seen, Relevant(w, cars, tk));
    ObservesGrow(w, tk, st, Sightings(cars, tk));
    WarnsGrow(cars, tk, seen, Relevant(w, cars, tk));
    forall i | |st.log| <= i < |told.log| ensures !told.log[i].fact.UnawareRisk? {
      NoRiskYet(w, cars, st, tk, i);
    }
    ConcernVisitsOnce(w, cars, tk);
    ConcernIsFunctional(w, cars, tk);
    BrakesRiskOnce(tk, told, Concern(w, cars, tk), |st.log|);
  }

  lemma NoRiskYet(w: World, cars: seq<Id>, st: State, tk: Tick, i: nat)
    requires st.observed <= st.aware
    requires var seen := Observes(w, tk, st, Sightings(cars, tk));
      |st.log| <= i < |Warns(cars, tk, seen, Relevant(w, cars, tk)).log|
    ensures var seen := Observes(w, tk, st, Sightings(cars, tk));
      !Warns(cars, tk, seen, Relevant(w, cars, tk)).log[i].fact.UnawareRisk?
  {
    var seen := Observes(w, tk, st, Sightings(cars, tk));
    var told := Warns(cars, tk, seen, Relevant(w, cars, tk));
    var f := told.log[i].fact;
    ObservesGrow(w, tk, st, Sightings(cars, tk));
    WarnsGrow(cars, tk, seen, Relevant(w, cars, tk));
    SinceSplit(seen.log, told.log, |st.log|);
    assert f in Since(told.log, |st.log|);
    ObservesAdd(w, tk, st, Sightings(cars, tk), f);
    WarnsAdd(cars, tk, seen, Relevant(w, cars, tk), f);
  }
}
