// The "why did it brake?" query does not ask what the hops it returns were about. Its answers are about
// the hazard braked for in every run on a scenario exactly when the scenario has fewer than two hazards
// or fewer than two cars, or the world is one in which nothing can be seen, told of or braked for.
module OtherHazard {
  import opened Basics
  import opened PathSearch
  import opened Events
  import opened Awareness
  import opened AwarenessInvariant
  import opened AwarenessTheorems
  import opened TickEffects
  import opened GraphStore
  import opened GraphTheorems
  import opened EngineGraph
  import opened Plane
  import opened Lidar

  // Every hop of the answer was about the hazard asked for.
  ghost predicate IsOnTopic(g: Graph, run: Id, h: Id, path: seq<Id>) {
    forall i :: 0 <= i < |path| - 1 ==> BeaconedEdge(run, path[i], path[i + 1], h) in g
  }

  lemma CarsAreIds(sc: Scenario)
    ensures forall c :: c in CarList(sc) <==> c in CarIds(sc)
  {
    forall c | c in CarIds(sc) ensures c in CarList(sc) {
      var spec :| spec in sc.cars && spec.id == c;
      var i :| 0 <= i < |sc.cars| && sc.cars[i] == spec;
      assert CarList(sc)[i] == c;
    }
    forall c | c in CarList(sc) ensures c in CarIds(sc) {
      var i :| 0 <= i < |sc.cars| && CarList(sc)[i] == c;
      assert sc.cars[i] in sc.cars;
    }
  }

  // One question about one run: the run, synced into the graph g, and an answer to why event i, a brake,
  // happened.
  datatype Question = Question(g: Graph, run: Id, trusts: seq<(Id, Id)>, ticks: seq<Tick>, i: nat, answer: seq<Id>)

  ghost function LogOf(w: World, sc: Scenario, q: Question): seq<GraphEvent> {
    Run(w, CarList(sc), q.trusts, q.ticks).log
  }

  ghost function GraphOf(w: World, sc: Scenario, q: Question): Graph {
    Synced(q.g, q.run, sc, LogOf(w, sc, q))
  }

  ghost predicate Arises(dist: Metric, w: World, sc: Scenario, causes: set<BrakeSource>, q: Question) {
    && RunsOn(sc, CarList(sc), q.ticks) && (forall tk :: tk in q.ticks ==> IsSensed(dist, w, sc, tk))
    && NoEdgesOf(q.g, q.run)
    && q.i < |LogOf(w, sc, q)|
    && var f := LogOf(w, sc, q)[q.i].fact;
       f.BrakedFor? && f.cause in causes && IsAnswer(GraphOf(w, sc, q), q.run, f.car, f.hazard, q.answer)
  }

  ghost predicate StaysOnTopic(dist: Metric, w: World, sc: Scenario, causes: set<BrakeSource>, q: Question) {
    Arises(dist, w, sc, causes, q) ==>
      IsOnTopic(GraphOf(w, sc, q), q.run, LogOf(w, sc, q)[q.i].fact.hazard, q.answer)
  }

  ghost predicate AlwaysOnTopic(dist: Metric, w: World, sc: Scenario, causes: set<BrakeSource>) {
    forall q :: StaysOnTopic(dist, w, sc, causes, q)
  }

  // No distance is within one of the world's ranges.
  predicate IsBlind(w: World) { w.lidarRange < 0.0 || w.awarenessHorizon < 0.0 || w.brakeReaction < 0.0 }

  // Every answer to every radio brake (and likewise to every brake) of every run on the scenario, over the
  // sightings a lidar can give, is about the hazard braked for exactly when there are not two cars and two
  // hazards, or a range of the world is negative.
  lemma OnTopicIff(dist: Metric, w: World, sc: Scenario, causes: set<BrakeSource>)
    requires IsEuclidean(dist) && ByRadio in causes
    ensures AlwaysOnTopic(dist, w, sc, causes) <==> |HazardIdsOf(sc)| < 2 || |CarIds(sc)| < 2 || IsBlind(w)
  {
    if |HazardIdsOf(sc)| < 2 || |CarIds(sc)| < 2 || IsBlind(w) {
      forall q ensures StaysOnTopic(dist, w, sc, causes, q) {
        if Arises(dist, w, sc, causes, q) {
          if IsBlind(w) {
            BlindStayOnTopic(dist, w, sc, causes, q);
          } else {
            FewStayOnTopic(dist, w, sc, causes, q);
          }
        }
      }
    } else {
      var a, b := TwoOf(CarIds(sc));
      var h1, h2 := TwoOf(HazardIdsOf(sc));
      var q := AnswerIsOffTopic(dist, w, sc, causes, a, b, h1, h2);
      assert !StaysOnTopic(dist, w, sc, causes, q);
    }
  }

  lemma TwoOf(s: set<Id>) returns (x: Id, y: Id)
    requires |s| >= 2
    ensures x in s && y in s && x != y
  {
    x :| x in s;
    assert |s - {x}| >= 1;
    y :| y in s - {x};
  }

  // -- when there are too few for another hazard ------------------------------------------------------

  // When all hops of the run are about one hazard, so is every answer.
  lemma OneHazardIsOnTopic(g: Graph, run: Id, car: Id, h: Id, answer: seq<Id>)
    requires IsAnswer(g, run, car, h, answer)
    requires forall e :: e in g && e.BeaconedEdge? && e.run == run ==> e.hazard == h
    ensures IsOnTopic(g, run, h, answer)
  {
  }

  lemma AtMostOne(s: set<Id>, x: Id, y: Id)
    requires |s| < 2 && x in s && y in s
    ensures x == y
  {
    assert |s - {x}| == 0;
    assert y == x || y in s - {x};
  }

  lemma FewStayOnTopic(dist: Metric, w: World, sc: Scenario, causes: set<BrakeSource>, q: Question)
    requires Arises(dist, w, sc, causes, q) && (|HazardIdsOf(sc)| < 2 || |CarIds(sc)| < 2)
    ensures IsOnTopic(GraphOf(w, sc, q), q.run, LogOf(w, sc, q)[q.i].fact.hazard, q.answer)
  {
    RunKeeps(w, CarList(sc), q.trusts, q.ticks);
    RunIsSeeded(sc, w, CarList(sc), q.trusts, q.ticks);
    RunAbout(HazardIdsOf(sc), w, CarList(sc), q.trusts, q.ticks);
    LogStaysOnTopic(sc, q.g, q.run, LogOf(w, sc, q), q.i, q.answer);
  }

  lemma LogStaysOnTopic(sc: Scenario, g: Graph, run: Id, log: seq<GraphEvent>, i: nat, answer: seq<Id>)
    requires History(CarList(sc), log) && OnceOnly(log) && About(HazardIdsOf(sc), log) && AllSeeded(sc, log)
    requires NoEdgesOf(g, run) && i < |log| && log[i].fact.BrakedFor?
    requires IsAnswer(Synced(g, run, sc, log), run, log[i].fact.car, log[i].fact.hazard, answer)
    requires |HazardIdsOf(sc)| < 2 || |CarIds(sc)| < 2
    ensures IsOnTopic(Synced(g, run, sc, log), run, log[i].fact.hazard, answer)
  {
    assert AboutIn(HazardIdsOf(sc), log[i].fact);
    forall e | e in Synced(g, run, sc, log) && e.BeaconedEdge? && e.run == run ensures e.hazard == log[i].fact.hazard {
      EdgeIsEvent(g, run, sc, log, KHeard(e.sender, e.receiver, e.hazard));
      var j := KeyAt(log, KHeard(e.sender, e.receiver, e.hazard));
      HopIsBetweenTwo(sc, log, j);
      AtMostOne(HazardIdsOf(sc), e.hazard, log[i].fact.hazard);
    }
    OneHazardIsOnTopic(Synced(g, run, sc, log), run, log[i].fact.car, log[i].fact.hazard, answer);
  }

  // A hop leads from one car to another and is about a hazard of the scenario.
  lemma HopIsBetweenTwo(sc: Scenario, log: seq<GraphEvent>, j: nat)
    requires History(CarList(sc), log) && About(HazardIdsOf(sc), log) && j < |log| && log[j].fact.Heard?
    ensures |CarIds(sc)| >= 2 && log[j].fact.hazard in HazardIdsOf(sc)
  {
    var f := log[j].fact;
    assert Justified(CarList(sc), KeysOf(log[..j]), f) && AboutIn(HazardIdsOf(sc), f);
    CarsAreIds(sc);
    if |CarIds(sc)| < 2 {
      AtMostOne(CarIds(sc), f.sender, f.receiver);
    }
  }

  // -- when nothing can be seen, told of or braked for -------------------------------------------------

  lemma BlindStayOnTopic(dist: Metric, w: World, sc: Scenario, causes: set<BrakeSource>, q: Question)
    requires IsEuclidean(dist) && Arises(dist, w, sc, causes, q) && IsBlind(w)
    ensures IsOnTopic(GraphOf(w, sc, q), q.run, LogOf(w, sc, q)[q.i].fact.hazard, q.answer)
  {
    var st := Run(w, CarList(sc), q.trusts, q.ticks);
    RunKeeps(w, CarList(sc), q.trusts, q.ticks);
    RunIsSeeded(sc, w, CarList(sc), q.trusts, q.ticks);
    RunIsQuiet(dist, w, sc, q.trusts, q.ticks);
    QuietStaysOnTopic(w, sc, q.g, q.run, st, q.i, q.answer);
  }

  // Nothing is observed with a negative lidar range, no hop is made with that or a negative horizon, and
  // nobody brakes with a negative reaction distance.
  ghost predicate IsQuiet(w: World, st: State) {
    && st.observed <= st.aware
    && (w.lidarRange < 0.0 ==> st.observed == {})
    && (w.lidarRange < 0.0 || w.awarenessHorizon < 0.0 ==> st.heardHops == {})
    && (w.brakeReaction < 0.0 ==> st.braked == {})
  }

  lemma QuietStaysOnTopic(w: World, sc: Scenario, g: Graph, run: Id, st: State, i: nat, answer: seq<Id>)
    requires Inv(CarList(sc), st, {}) && AllSeeded(sc, st.log) && IsQuiet(w, st) && IsBlind(w)
    requires NoEdgesOf(g, run) && i < |st.log| && st.log[i].fact.BrakedFor?
    requires IsAnswer(Synced(g, run, sc, st.log), run, st.log[i].fact.car, st.log[i].fact.hazard, answer)
    ensures IsOnTopic(Synced(g, run, sc, st.log), run, st.log[i].fact.hazard, answer)
  {
    var f, s := st.log[i].fact, Synced(g, run, sc, st.log);
    if w.brakeReaction < 0.0 {
      KeyInLog(st.log, i + 1, KBraked(f.car, f.hazard));
      Recorded(CarList(sc), st, {}, KBraked(f.car, f.hazard));
    } else {
      forall a, b, h ensures BeaconedEdge(run, a, b, h) !in s {
        EdgeHolds(CarList(sc), sc, g, run, st, KHeard(a, b, h));
      }
      OneHazardIsOnTopic(s, run, f.car, f.hazard, answer);
    }
  }

  lemma {:induction false} RunIsQuiet(dist: Metric, w: World, sc: Scenario, trusts: seq<(Id, Id)>, ticks: seq<Tick>)
    requires IsEuclidean(dist) && forall tk :: tk in ticks ==> IsSensed(dist, w, sc, tk)
    ensures IsQuiet(w, Run(w, CarList(sc), trusts, ticks))
  {
    if ticks != [] {
      var front, last := ticks[..|ticks| - 1], ticks[|ticks| - 1];
      RunIsQuiet(dist, w, sc, trusts, front);
      TickIsQuiet(dist, w, sc, Run(w, CarList(sc), trusts, front), last);
    }
  }

  lemma TickIsQuiet(dist: Metric, w: World, sc: Scenario, st: State, tk: Tick)
    requires IsEuclidean(dist) && IsSensed(dist, w, sc, tk) && IsQuiet(w, st)
    ensures IsQuiet(w, TickStep(w, CarList(sc), st, tk))
  {
    var cars := CarList(sc);
    var seen := Observes(w, tk, st, Sightings(cars, tk));
    LooksAreQuiet(dist, w, sc, st, tk);
    TalkIsQuiet(dist, w, sc, seen, tk);
    BrakesAreQuiet(dist, w, sc, Warns(cars, tk, seen, Relevant(w, cars, tk)), tk);
  }

  lemma LooksAreQuiet(dist: Metric, w: World, sc: Scenario, st: State, tk: Tick)
    requires IsEuclidean(dist) && IsSensed(dist, w, sc, tk) && IsQuiet(w, st)
    ensures IsQuiet(w, Observes(w, tk, st, Sightings(CarList(sc), tk)))
  {
    ObservesMean(w, tk, st, Sightings(CarList(sc), tk));
    if w.lidarRange < 0.0 {
      forall p ensures !SeenIn(Sightings(CarList(sc), tk), p) {
        SightingsMean(CarList(sc), tk, p.0, p.1);
        if p.0 in CarList(sc) && SeesHazard(tk, p.0, p.1) {
          var s :| s in SightingsOf(tk, p.0) && s.visible && s.hazard == p.1;
          SightingFacts(dist, w, sc, tk, p.0, s);
        }
      }
    }
  }

  // Nothing is ahead within a negative distance.
  lemma NothingAhead(dist: Metric, w: World, sc: Scenario, tk: Tick, car: Id, h: Id, limit: real)
    requires IsEuclidean(dist) && IsSensed(dist, w, sc, tk) && car in CarList(sc) && limit < 0.0
    ensures !HasAhead(tk, car, h, limit)
  {
    if s :| s in SightingsOf(tk, car) && s.hazard == h && s.ahead && s.distance <= limit {
      SightingFacts(dist, w, sc, tk, car, s);
    }
  }

  lemma TalkIsQuiet(dist: Metric, w: World, sc: Scenario, st: State, tk: Tick)
    requires IsEuclidean(dist) && IsSensed(dist, w, sc, tk) && IsQuiet(w, st)
    ensures IsQuiet(w, Warns(CarList(sc), tk, st, Relevant(w, CarList(sc), tk)))
  {
    var cars, vs := CarList(sc), Relevant(w, CarList(sc), tk);
    WarnsSpread(cars, tk, st, vs);
    if w.lidarRange < 0.0 || w.awarenessHorizon < 0.0 {
      forall p | p in vs ensures !Newly(cars, tk, st, p) {
        RelevantMeans(w, cars, tk, p.0, p.1);
        if w.awarenessHorizon < 0.0 {
          NothingAhead(dist, w, sc, tk, p.0, p.1, w.awarenessHorizon);
        } else {
          BfsCorrect(DeliveryGraph(cars, tk.delivered), Observers(cars, st.observed, p.0, p.1), p.0);
        }
      }
    }
  }

  lemma BrakesAreQuiet(dist: Metric, w: World, sc: Scenario, st: State, tk: Tick)
    requires IsEuclidean(dist) && IsSensed(dist, w, sc, tk) && IsQuiet(w, st)
    ensures IsQuiet(w, Brakes(tk, st, Concern(w, CarList(sc), tk)))
  {
    BrakesMean(tk, st, Concern(w, CarList(sc), tk));
    if w.brakeReaction < 0.0 {
      forall p ensures !DueIn(Concern(w, CarList(sc), tk), p) {
        ConcernMeans(w, CarList(sc), tk, p.0, p.1);
        if p.0 in CarList(sc) {
          NothingAhead(dist, w, sc, tk, p.0, p.1, w.brakeReaction);
        }
      }
    }
  }

  // -- two cars, two hazards, two ticks -----------------------------------------------------------------

  // The teller sees exactly the hazards `seen`, nobody else sees any, the only link leads from the teller
  // to the hearer, and the hearer has h ahead, near enough both to be told of it and to brake for it.
  ghost predicate IsTelling(w: World, cars: seq<Id>, tk: Tick, teller: Id, hearer: Id, seen: set<Id>, h: Id) {
    && teller in cars && hearer in cars && teller != hearer && tk.delivered == {(teller, hearer)} && h in seen
    && (forall c, x :: c in cars ==> (SeesHazard(tk, c, x) <==> c == teller && x in seen))
    && HasAhead(tk, hearer, h, w.awarenessHorizon) && HasAhead(tk, hearer, h, w.brakeReaction)
  }

  // With no blind range there are such ticks: all cars are side by side with the hazards straight ahead.
  lemma TickTells(dist: Metric, w: World, sc: Scenario, teller: Id, hearer: Id, seen: set<Id>, h: Id, n: nat)
    returns (tk: Tick)
    requires IsEuclidean(dist) && !IsBlind(w) && teller in CarList(sc) && hearer in CarList(sc) && teller != hearer
    requires h in seen && forall x :: x in seen ==> x in HazardList(sc)
    ensures IsSensed(dist, w, sc, tk) && IsTelling(w, CarList(sc), tk, teller, hearer, seen, h)
    ensures Sees(HazardIdsOf(sc), tk)
  {
    var d := Min(w.lidarRange, Min(w.awarenessHorizon, w.brakeReaction));
    var views := set x | x in seen :: (teller, x);
    tk := TickOf(dist, sc, d, views, {(teller, hearer)}, n);
    TickIsSensed(dist, w, sc, d, views, {(teller, hearer)}, n);
    forall c, x | c in CarList(sc) ensures SeesHazard(tk, c, x) <==> c == teller && x in seen {
      OnlyTheseSee(dist, sc, d, views, tk, c, x);
    }
    var s := SightingOf(dist, sc, d, views, tk, hearer, h);
    ViewsAreOfHazards(dist, sc, d, views, tk);
  }

  lemma OnlyTheseSee(dist: Metric, sc: Scenario, d: real, views: set<(Id, Id)>, tk: Tick, c: Id, x: Id)
    requires IsEuclidean(dist) && d >= 0.0 && c in CarList(sc) && ((c, x) in views ==> x in HazardList(sc))
    requires c in tk.sightings && tk.sightings[c] == ViewsOf(dist, sc, d, views, c)
    ensures SeesHazard(tk, c, x) <==> (c, x) in views
  {
    var ss := ViewsOf(dist, sc, d, views, c);
    if (c, x) in views {
      var s := SightingOf(dist, sc, d, views, tk, c, x);
    } else {
      forall s | s in ss && s.hazard == x ensures !s.visible {
        var i :| 0 <= i < |ss| && ss[i] == s;
        ViewAt(dist, sc, d, views, c, i);
      }
    }
  }

  lemma SightingOf(dist: Metric, sc: Scenario, d: real, views: set<(Id, Id)>, tk: Tick, c: Id, x: Id)
    returns (s: Sighting)
    requires IsEuclidean(dist) && d >= 0.0 && c in CarList(sc) && x in HazardList(sc)
    requires c in tk.sightings && tk.sightings[c] == ViewsOf(dist, sc, d, views, c)
    ensures s in SightingsOf(tk, c) && s.hazard == x && s.ahead && s.distance <= d && (s.visible <==> (c, x) in views)
  {
    var i :| 0 <= i < |HazardList(sc)| && HazardList(sc)[i] == x;
    s := ViewsOf(dist, sc, d, views, c)[i];
    LineupIsNear(dist, sc, d, c, x);
  }

  lemma ViewsAreOfHazards(dist: Metric, sc: Scenario, d: real, views: set<(Id, Id)>, tk: Tick)
    requires tk.sightings == map c | c in CarList(sc) :: ViewsOf(dist, sc, d, views, c)
    ensures Sees(HazardIdsOf(sc), tk)
  {
    forall c, s | s in SightingsOf(tk, c) ensures s.hazard in HazardIdsOf(sc) {
      var ss := ViewsOf(dist, sc, d, views, c);
      var i :| 0 <= i < |ss| && ss[i] == s;
      ViewAt(dist, sc, d, views, c, i);
      assert sc.hazards[i] in sc.hazards;
    }
  }

  // Over the one link only the hearer can be told, and only of what the teller has observed.
  lemma OneLink(cars: seq<Id>, tk: Tick, observed: set<(Id, Id)>, teller: Id, hearer: Id, car: Id, x: Id)
    requires teller in cars && hearer in cars && teller != hearer && tk.delivered == {(teller, hearer)}
    ensures WarningPath(cars, tk, observed, car, x)
      == if car == hearer && (teller, x) in observed then Some([teller, hearer]) else None
  {
    var adj, sources := DeliveryGraph(cars, tk.delivered), Observers(cars, observed, car, x);
    BfsCorrect(adj, sources, car);
    var p := WarningPath(cars, tk, observed, car, x);
    if p.Some? {
      OnlyWay(adj, sources, teller, hearer, car, p.value);
    }
    if car == hearer && (teller, x) in observed {
      assert Joins(adj, sources, hearer, [teller, hearer]);
    }
  }

  lemma NoSecondHop(adj: Adjacency, teller: Id, hearer: Id, p: seq<Id>)
    requires forall u, v :: v in Neighbours(adj, u) ==> u == teller && v == hearer
    requires |p| > 2 && forall i :: 0 <= i < |p| - 1 ==> p[i + 1] in Neighbours(adj, p[i])
    ensures teller == hearer
  {
    assert p[0 + 1] in Neighbours(adj, p[0]) && p[1 + 1] in Neighbours(adj, p[1]);
  }

  lemma OnlyWay(adj: Adjacency, sources: seq<Id>, teller: Id, hearer: Id, car: Id, p: seq<Id>)
    requires (forall u, v :: v in Neighbours(adj, u) ==> u == teller && v == hearer) && teller != hearer
    requires Joins(adj, sources, car, p) && car !in sources
    ensures p == [teller, hearer] && car == hearer
  {
    assert p[0 + 1] in Neighbours(adj, p[0]);
    if |p| > 2 {
      NoSecondHop(adj, teller, hearer, p);
    }
  }

  // What one telling does: the teller observes what it sees, and the hearer is told of h and brakes for it.
  lemma TellingMeans(w: World, cars: seq<Id>, st: State, tk: Tick, teller: Id, hearer: Id, seen: set<Id>, h: Id)
    requires IsTelling(w, cars, tk, teller, hearer, seen, h) && st.observed <= st.aware && (hearer, h) !in st.aware
    requires forall x :: x != h && ((teller, x) in st.observed || x in seen) ==> (hearer, x) in st.aware
    ensures var r := TickStep(w, cars, st, tk);
      && (forall p :: p in r.observed <==> p in st.observed || (p.0 == teller && p.1 in seen))
      && (forall p :: p in r.aware <==> p in st.aware || (p.0 == teller && p.1 in seen) || p == (hearer, h))
      && r.heardHops == st.heardHops + {(teller, hearer, h)} && (hearer, h) in r.braked && st.braked <= r.braked
  {
    var looked := Observes(w, tk, st, Sightings(cars, tk));
    TellingSeen(w, cars, st, tk, teller, hearer, seen, h);
    TellingHeard(w, cars, looked, tk, teller, hearer, seen, h);
    var told := Warns(cars, tk, looked, Relevant(w, cars, tk));
    BrakesMean(tk, told, Concern(w, cars, tk));
    ConcernMeans(w, cars, tk, hearer, h);
  }

  lemma TellingSeen(w: World, cars: seq<Id>, st: State, tk: Tick, teller: Id, hearer: Id, seen: set<Id>, h: Id)
    requires IsTelling(w, cars, tk, teller, hearer, seen, h) && st.observed <= st.aware
    ensures var r := Observes(w, tk, st, Sightings(cars, tk));
      && (forall p :: p in r.observed <==> p in st.observed || (p.0 == teller && p.1 in seen))
      && (forall p :: p in r.aware <==> p in st.aware || (p.0 == teller && p.1 in seen))
      && r.heardHops == st.heardHops && r.braked == st.braked
  {
    ObservesMean(w, tk, st, Sightings(cars, tk));
    forall p ensures SeenIn(Sightings(cars, tk), p) <==> p.0 == teller && p.1 in seen {
      SightingsMean(cars, tk, p.0, p.1);
    }
  }

  lemma TellingHeard(w: World, cars: seq<Id>, st: State, tk: Tick, teller: Id, hearer: Id, seen: set<Id>, h: Id)
    requires IsTelling(w, cars, tk, teller, hearer, seen, h) && (hearer, h) !in st.aware && (teller, h) in st.observed
    requires forall x :: x != h && (teller, x) in st.observed ==> (hearer, x) in st.aware
    ensures var r := Warns(cars, tk, st, Relevant(w, cars, tk));
      && r.observed == st.observed && r.braked == st.braked
      && (forall p :: p in r.aware <==> p in st.aware || p == (hearer, h))
      && r.heardHops == st.heardHops + {(teller, hearer, h)}
  {
    var vs := Relevant(w, cars, tk);
    RelevantMeans(w, cars, tk, hearer, h);
    WarnsSpread(cars, tk, st, vs);
    forall p ensures Newly(cars, tk, st, p) <==> p == (hearer, h) {
      OneLink(cars, tk, st.observed, teller, hearer, p.0, p.1);
    }
    OneLink(cars, tk, st.observed, teller, hearer, hearer, h);
    SpreadHop(cars, tk, st, vs, Warns(cars, tk, st, vs), teller, hearer, h);
  }

  lemma SpreadHop(cars: seq<Id>, tk: Tick, st: State, vs: seq<(Id, Id)>, r: State, teller: Id, hearer: Id, h: Id)
    requires Spread(cars, tk, st, vs, r) && (hearer, h) in vs
    requires forall p :: Newly(cars, tk, st, p) <==> p == (hearer, h)
    requires WarningPath(cars, tk, st.observed, hearer, h) == Some([teller, hearer])
    ensures r.heardHops == st.heardHops + {(teller, hearer, h)}
  {
    forall x ensures x in r.heardHops <==> x in st.heardHops || x == (teller, hearer, h) {
      forall p ensures HopOf(cars, tk, st, p, x) <==> p == (hearer, h) && x == (teller, hearer, h) {
        HopIs(cars, tk, st, teller, hearer, h, p, x);
      }
    }
  }

  lemma HopIs(cars: seq<Id>, tk: Tick, st: State, teller: Id, hearer: Id, h: Id, p: (Id, Id), x: (Id, Id, Id))
    requires Newly(cars, tk, st, p) <==> p == (hearer, h)
    requires WarningPath(cars, tk, st.observed, hearer, h) == Some([teller, hearer])
    ensures HopOf(cars, tk, st, p, x) <==> p == (hearer, h) && x == (teller, hearer, h)
  {
    var path := [teller, hearer];
    if p == (hearer, h) {
      assert path[0] == teller && path[0 + 1] == hearer;
      if HopOf(cars, tk, st, p, x) {
        var i :| 0 <= i < |path| - 1 && x == (path[i], path[i + 1], h);
        assert i == 0;
      }
    }
  }

  // -- what the run leaves behind -----------------------------------------------------------------------

  ghost predicate AfterFirst(st: State, a: Id, b: Id, h1: Id) {
    && st.observed == {(b, h1)} && st.aware == {(b, h1), (a, h1)} && (a, h1) in st.braked
    && st.heardHops == {(b, a, h1)}
  }

  ghost predicate AfterSecond(st: State, a: Id, b: Id, h1: Id, h2: Id) {
    (a, h1) in st.observed && (a, h1) in st.braked && st.heardHops == {(b, a, h1), (a, b, h2)}
  }

  lemma FirstOutcome(w: World, cars: seq<Id>, st: State, tk: Tick, a: Id, b: Id, h1: Id)
    requires IsTelling(w, cars, tk, b, a, {h1}, h1)
    requires st.observed == {} && st.aware == {} && st.heardHops == {}
    ensures AfterFirst(TickStep(w, cars, st, tk), a, b, h1)
  {
    TellingMeans(w, cars, st, tk, b, a, {h1}, h1);
    var r := TickStep(w, cars, st, tk);
    assert forall p :: p in r.observed <==> p == (b, h1);
    assert forall p :: p in r.aware <==> p == (b, h1) || p == (a, h1);
  }

  lemma SecondOutcome(w: World, cars: seq<Id>, st: State, tk: Tick, a: Id, b: Id, h1: Id, h2: Id)
    requires IsTelling(w, cars, tk, a, b, {h1, h2}, h2) && h1 != h2 && AfterFirst(st, a, b, h1)
    ensures AfterSecond(TickStep(w, cars, st, tk), a, b, h1, h2)
  {
    TellingMeans(w, cars, st, tk, a, b, {h1, h2}, h2);
  }

  lemma RunOne(w: World, cars: seq<Id>, ticks: seq<Tick>, tk: Tick)
    ensures Run(w, cars, [], ticks + [tk]) == TickStep(w, cars, Run(w, cars, [], ticks), tk)
  {
    assert (ticks + [tk])[..|ticks|] == ticks;
  }

  lemma RunTwo(w: World, cars: seq<Id>, one: Tick, two: Tick)
    ensures Run(w, cars, [], [one]) == TickStep(w, cars, Run(w, cars, [], []), one)
    ensures Run(w, cars, [], [one, two]) == TickStep(w, cars, Run(w, cars, [], [one]), two)
  {
    RunOne(w, cars, [], one);
    RunOne(w, cars, [one], two);
    assert [] + [one] == [one] && [one] + [two] == [one, two];
  }

  // The radio brake of the first tick.
  lemma BrakeStays(w: World, cars: seq<Id>, one: Tick, two: Tick, a: Id, b: Id, h1: Id) returns (i: nat)
    requires AfterFirst(Run(w, cars, [], [one]), a, b, h1) && a != b
    ensures var log := Run(w, cars, [], [one, two]).log; i < |log| && IsRadioBrake(log[i].fact, a, h1)
  {
    var st1 := Run(w, cars, [], [one]);
    RunKeeps(w, cars, [], [one]);
    i := RadioBrakeIn(cars, st1, a, h1);
    TickGrows(w, cars, st1, two);
    RunTwo(w, cars, one, two);
  }

  // -- the answer -----------------------------------------------------------------------------------------

  // The graph of the run, as far as the query looks at it.
  ghost predicate HasEdges(g: Graph, run: Id, a: Id, b: Id, h1: Id, h2: Id) {
    && BrakedForEdge(run, a, h1) in g
    && ObservedEdge(run, a, h1) in g
    && (forall s, r, h :: BeaconedEdge(run, s, r, h) in g <==> (s, r, h) in {(b, a, h1), (a, b, h2)})
  }

  lemma EdgesOfRun(cars: seq<Id>, sc: Scenario, run: Id, st: State, a: Id, b: Id, h1: Id, h2: Id)
    requires Inv(cars, st, {}) && AllSeeded(sc, st.log) && AfterSecond(st, a, b, h1, h2)
    ensures HasEdges(Synced(map[], run, sc, st.log), run, a, b, h1, h2)
  {
    EdgeHolds(cars, sc, map[], run, st, KBraked(a, h1));
    EdgeHolds(cars, sc, map[], run, st, KObserved(a, h1));
    forall s, r, h
      ensures BeaconedEdge(run, s, r, h) in Synced(map[], run, sc, st.log) <==> (s, r, h) in {(b, a, h1), (a, b, h2)}
    {
      EdgeHolds(cars, sc, map[], run, st, KHeard(s, r, h));
    }
  }

  lemma EdgeHolds(cars: seq<Id>, sc: Scenario, g: Graph, run: Id, st: State, k: Key)
    requires Inv(cars, st, {}) && AllSeeded(sc, st.log) && NoEdgesOf(g, run) && !Repeatable(k)
    ensures EdgeFor(run, k) in Synced(g, run, sc, st.log) <==> Holds(st, {}, k)
  {
    EdgeIsEvent(g, run, sc, st.log, k);
    Recorded(cars, st, {}, k);
  }

  // The longest path goes from a, who saw h1 later, round by b and back: the query names the braking car
  // itself as the first to have seen the hazard.
  lemma LongestIsOffTopic(g: Graph, run: Id, a: Id, b: Id, h1: Id, h2: Id)
    requires a != b && h1 != h2 && HasEdges(g, run, a, b, h1, h2)
    ensures IsAnswer(g, run, a, h1, [a, b, a]) && !IsOnTopic(g, run, h1, [a, b, a])
  {
    assert IsCandidate(g, run, a, h1, [a, b, a], [h2, h1]);
    forall x | x in HopsIn(g, run) ensures x in {(b, a, h1), (a, b, h2)} {
    }
    DistinctSubset(HopsIn(g, run), (b, a, h1), (a, b, h2));
    forall ns, ts | IsCandidate(g, run, a, h1, ns, ts) ensures |ns| <= 3 {
      CandidateIsShort(g, run, a, h1, ns, ts);
    }
    assert BeaconedEdge(run, [a, b, a][0], [a, b, a][1], h1) !in g;
  }

  lemma DistinctSubset(s: set<(Id, Id, Id)>, x: (Id, Id, Id), y: (Id, Id, Id))
    requires forall z :: z in s ==> z == x || z == y
    ensures |s| <= 2
  {
    var rest := s - {x} - {y};
    assert rest == {};
    assert |s| <= |s - {x}| + 1 && |s - {x}| <= |rest| + 1;
  }

  ghost predicate IsRadioBrake(f: Fact, car: Id, h: Id) {
    f.BrakedFor? && f.car == car && f.hazard == h && f.cause == ByRadio
  }

  lemma RadioBrakeIn(cars: seq<Id>, st: State, a: Id, h: Id) returns (i: nat)
    requires Inv(cars, st, {}) && (a, h) in st.braked && (a, h) !in st.observed
    ensures i < |st.log| && IsRadioBrake(st.log[i].fact, a, h)
  {
    Recorded(cars, st, {}, KBraked(a, h));
    i := KeyAt(st.log, KBraked(a, h));
    EventIsJustified(cars, st.log, i);
    if Before(st.log, i, KObserved(a, h)) {
      KeyInLog(st.log, i, KObserved(a, h));
      Recorded(cars, st, {}, KObserved(a, h));
    }
  }

  // On any other scenario, in a world that is not blind, there is a run with a radio brake whose answer is a
  // chain about the other hazard that starts at the braking car.
  lemma AnswerIsOffTopic(dist: Metric, w: World, sc: Scenario, causes: set<BrakeSource>, a: Id, b: Id, h1: Id, h2: Id)
    returns (q: Question)
    requires IsEuclidean(dist) && !IsBlind(w) && ByRadio in causes && a != b && h1 != h2
    requires a in CarIds(sc) && b in CarIds(sc) && h1 in HazardIdsOf(sc) && h2 in HazardIdsOf(sc)
    ensures Arises(dist, w, sc, causes, q) && q.answer == [a, b, a]
    ensures IsRadioBrake(LogOf(w, sc, q)[q.i].fact, a, h1) && !IsOnTopic(GraphOf(w, sc, q), q.run, h1, q.answer)
  {
    CarsAreIds(sc);
    HazardIsListed(sc, h1);
    HazardIsListed(sc, h2);
    var one := TickTells(dist, w, sc, b, a, {h1}, h1, 0);
    var two := TickTells(dist, w, sc, a, b, {h1, h2}, h2, 1);
    RunsOnBoth(dist, w, sc, one, two);
    q := TwoTicks(w, sc, one, two, a, b, h1, h2);
  }

  lemma RunsOnBoth(dist: Metric, w: World, sc: Scenario, one: Tick, two: Tick)
    requires Sees(HazardIdsOf(sc), one) && IsSensed(dist, w, sc, one)
    requires Sees(HazardIdsOf(sc), two) && IsSensed(dist, w, sc, two)
    ensures RunsOn(sc, CarList(sc), [one, two])
    ensures forall tk :: tk in [one, two] ==> IsSensed(dist, w, sc, tk)
  {
    CarsAreIds(sc);
    assert forall tk :: tk in [one, two] ==> tk == one || tk == two;
  }

  lemma TwoTicks(w: World, sc: Scenario, one: Tick, two: Tick, a: Id, b: Id, h1: Id, h2: Id) returns (q: Question)
    requires RunsOn(sc, CarList(sc), [one, two]) && a != b && h1 != h2
    requires IsTelling(w, CarList(sc), one, b, a, {h1}, h1) && IsTelling(w, CarList(sc), two, a, b, {h1, h2}, h2)
    ensures q.g == map[] && q.ticks == [one, two] && q.answer == [a, b, a] && q.i < |LogOf(w, sc, q)|
    ensures IsRadioBrake(LogOf(w, sc, q)[q.i].fact, a, h1)
    ensures IsAnswer(GraphOf(w, sc, q), q.run, a, h1, q.answer) && !IsOnTopic(GraphOf(w, sc, q), q.run, h1, q.answer)
  {
    var i := EdgesOfTicks(w, sc, one, two, a, b, h1, h2);
    q := Question(map[], "run", [], [one, two], i, [a, b, a]);
    LongestIsOffTopic(GraphOf(w, sc, q), "run", a, b, h1, h2);
  }

  lemma HazardIsListed(sc: Scenario, h: Id)
    requires h in HazardIdsOf(sc)
    ensures h in HazardList(sc)
  {
    var spec :| spec in sc.hazards && spec.id == h;
    var i :| 0 <= i < |sc.hazards| && sc.hazards[i] == spec;
    assert HazardList(sc)[i] == h;
  }

  lemma EdgesOfTicks(w: World, sc: Scenario, one: Tick, two: Tick, a: Id, b: Id, h1: Id, h2: Id) returns (i: nat)
    requires RunsOn(sc, CarList(sc), [one, two]) && h1 != h2
    requires IsTelling(w, CarList(sc), one, b, a, {h1}, h1) && IsTelling(w, CarList(sc), two, a, b, {h1, h2}, h2)
    ensures var log := Run(w, CarList(sc), [], [one, two]).log;
      && i < |log| && IsRadioBrake(log[i].fact, a, h1)
      && HasEdges(Synced(map[], "run", sc, log), "run", a, b, h1, h2)
  {
    var cars := CarList(sc);
    FirstOutcome(w, cars, Run(w, cars, [], []), one, a, b, h1);
    SecondOutcome(w, cars, TickStep(w, cars, Run(w, cars, [], []), one), two, a, b, h1, h2);
    RunTwo(w, cars, one, two);
    i := BrakeStays(w, cars, one, two, a, b, h1);
    RunKeeps(w, cars, [], [one, two]);
    RunIsSeeded(sc, w, cars, [], [one, two]);
    EdgesOfRun(cars, sc, "run", Run(w, cars, [], [one, two]), a, b, h1, h2);
  }
}
