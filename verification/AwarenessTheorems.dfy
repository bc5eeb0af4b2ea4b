// What the awareness invariant means to a reader of the log, and what one round of propagation
// computes.
module AwarenessTheorems {
  import opened Basics
  import opened PathSearch
  import opened Events
  import opened Awareness
  import opened AwarenessInvariant

  // -- the log and the state say the same thing -----------------------------------------------------

  ghost function Count(log: seq<GraphEvent>, k: Key): nat {
    if log == [] then 0
    else Count(log[..|log| - 1], k) + (if KeyOf(log[|log| - 1].fact) == k then 1 else 0)
  }

  lemma {:induction false} CountOnce(log: seq<GraphEvent>, k: Key)
    requires OnceOnly(log) && !Repeatable(k)
    ensures Count(log, k) == if k in KeysOf(log) then 1 else 0
  {
    if log != [] {
      var l, e := log[..|log| - 1], log[|log| - 1];
      assert log == l + [e];
      KeysOfAppend(l, e);
      CountOnce(l, k);
      if KeyOf(e.fact) == k && k in KeysOf(l) {
        var i := KeyAt(l, k);
      }
    }
  }

  // After any number of ticks every pair in a set has exactly one event of its kind in the log and
  // every other pair has none.
  lemma LogMatchesState(w: World, cars: seq<Id>, trusts: seq<(Id, Id)>, ticks: seq<Tick>, k: Key)
    requires !Repeatable(k)
    ensures var st := Run(w, cars, trusts, ticks);
      && Consistent(st)
      && Count(st.log, k) == if Holds(st, {}, k) then 1 else 0
  {
    var st := Run(w, cars, trusts, ticks);
    RunKeeps(w, cars, trusts, ticks);
    CountOnce(st.log, k);
    Recorded(cars, st, {}, k);
  }

  // -- why a car braked, read off the log -------------------------------------------------------

  ghost predicate Before(log: seq<GraphEvent>, i: int, k: Key) {
    exists j :: 0 <= j < i && j < |log| && KeyOf(log[j].fact) == k
  }

  lemma KeyBefore(log: seq<GraphEvent>, i: nat, k: Key)
    requires i <= |log|
    ensures k in KeysOf(log[..i]) <==> Before(log, i, k)
  {
    if k in KeysOf(log[..i]) {
      var j := KeyAt(log[..i], k);
      assert KeyOf(log[j].fact) == k;
    }
    if Before(log, i, k) {
      var j :| 0 <= j < i && KeyOf(log[j].fact) == k;
      assert log[j] in log[..i];
    }
  }

  // log[j] tells car that a warning about h travelled along path: the first car of the path had
  // seen the hazard itself, every hop had been heard, and nobody else on the path had seen it.
  ghost predicate WarnedAt(log: seq<GraphEvent>, j: int, car: Id, h: Id, path: seq<Id>) {
    && 0 <= j < |log| && |path| >= 2 && path[|path| - 1] == car && Distinct(path)
    && log[j].fact.AwareOf? && log[j].fact.car == car && log[j].fact.hazard == h && log[j].fact.path == path
    && (forall i :: 0 <= i < |path| ==> (Before(log, j, KObserved(path[i], h)) <==> i == 0))
    && (forall i :: 0 <= i < |path| - 1 ==> Before(log, j, KHeard(path[i], path[i + 1], h)))
  }

  // What the events before log[i] must and must not have said: a car is told of a hazard once, by its own
  // lidar after seeing it or by radio along a recorded chain; it brakes once, after being told; a relay
  // had not seen the hazard and is reported once per destination; a hop is reported once; a risk is never
  // reported for a car that was told.
  ghost predicate Follows(log: seq<GraphEvent>, i: nat)
    requires i < |log|
  {
    match log[i].fact
    case Trusts(_, _) => true
    case Observed(c, h, _) => !Before(log, i, KObserved(c, h))
    case BlindTo(c, h, _, _) => !Before(log, i, KBlind(c, h))
    case AwareOf(c, h, via, path, _) =>
      && !Before(log, i, KAware(c, h))
      && (via == Lidar ==> Before(log, i, KObserved(c, h)))
      && (via != Lidar ==> WarnedAt(log, i, c, h, path) && (via == Direct <==> |path| == 2))
    case RelayedBy(m, h, s, d) =>
      && !Before(log, i, KObserved(m, h)) && Before(log, i, KObserved(s, h)) && !Before(log, i, KAware(d, h))
      && !Before(log, i, KRelayed(m, h, d))
    case UnawareRisk(c, h, dist) => !Before(log, i, KAware(c, h)) && dist < 10.0
    case BrakedFor(c, h, _, cause) =>
      && Before(log, i, KAware(c, h)) && !Before(log, i, KBraked(c, h))
      && (cause == BySight <==> Before(log, i, KObserved(c, h)))
    case Heard(r, s, h, _, relayed) =>
      && !Before(log, i, KObserved(r, h)) && !Before(log, i, KHeard(s, r, h))
      && (relayed <==> !Before(log, i, KObserved(s, h)))
  }

  // What the history of a log says about one of its events.
  lemma EventIsJustified(cars: seq<Id>, log: seq<GraphEvent>, i: nat)
    requires History(cars, log) && OnceOnly(log) && i < |log|
    ensures Follows(log, i)
  {
    var f := log[i].fact;
    assert Justified(cars, KeysOf(log[..i]), f);
    FirstOfItsKey(log, i);
    match f
    case AwareOf(c, h, via, path, _) =>
      if via == Lidar {
        KeyBefore(log, i, KObserved(c, h));
      } else {
        ChainBefore(log, i, c, h, path);
      }
    case RelayedBy(m, h, s, d) =>
      KeyBefore(log, i, KObserved(m, h));
      KeyBefore(log, i, KObserved(s, h));
      KeyBefore(log, i, KAware(d, h));
    case UnawareRisk(c, h, _) => KeyBefore(log, i, KAware(c, h));
    case BrakedFor(c, h, _, _) =>
      KeyBefore(log, i, KAware(c, h));
      KeyBefore(log, i, KObserved(c, h));
    case Heard(r, s, h, _, _) =>
      KeyBefore(log, i, KObserved(r, h));
      KeyBefore(log, i, KObserved(s, h));
    case _ =>
  }

  lemma FirstOfItsKey(log: seq<GraphEvent>, i: nat)
    requires OnceOnly(log) && i < |log|
    ensures !Repeatable(KeyOf(log[i].fact)) ==> !Before(log, i, KeyOf(log[i].fact))
  {
  }

  lemma ChainBefore(log: seq<GraphEvent>, j: nat, c: Id, h: Id, path: seq<Id>)
    requires j < |log| && IsWarningChain(KeysOf(log[..j]), c, h, path)
    ensures forall i :: 0 <= i < |path| ==> (Before(log, j, KObserved(path[i], h)) <==> i == 0)
    ensures forall i :: 0 <= i < |path| - 1 ==> Before(log, j, KHeard(path[i], path[i + 1], h))
  {
    forall i | 0 <= i < |path| ensures Before(log, j, KObserved(path[i], h)) <==> i == 0 {
      KeyBefore(log, j, KObserved(path[i], h));
    }
    forall i | 0 <= i < |path| - 1 ensures Before(log, j, KHeard(path[i], path[i + 1], h)) {
      KeyBefore(log, j, KHeard(path[i], path[i + 1], h));
    }
  }

  // Every event of every run follows properly.
  lemma RunIsJustified(w: World, cars: seq<Id>, trusts: seq<(Id, Id)>, ticks: seq<Tick>, i: nat)
    requires i < |Run(w, cars, trusts, ticks).log|
    ensures Follows(Run(w, cars, trusts, ticks).log, i)
  {
    RunKeeps(w, cars, trusts, ticks);
    EventIsJustified(cars, Run(w, cars, trusts, ticks).log, i);
  }

  // Every brake on a radio warning is preceded by the warning and by every hop that carried it.
  lemma RadioBrakeHasChain(cars: seq<Id>, log: seq<GraphEvent>, i: nat) returns (j: nat, path: seq<Id>)
    requires History(cars, log) && OnceOnly(log)
    requires i < |log| && log[i].fact.BrakedFor? && log[i].fact.cause == ByRadio
    ensures j < i && WarnedAt(log, j, log[i].fact.car, log[i].fact.hazard, path)
  {
    var c, h := log[i].fact.car, log[i].fact.hazard;
    EventIsJustified(cars, log, i);
    j :| 0 <= j < i && KeyOf(log[j].fact) == KAware(c, h);
    path := log[j].fact.path;
    EventIsJustified(cars, log, j);
    BeforeGrows(log, j, i, KObserved(c, h));
  }

  lemma BeforeGrows(log: seq<GraphEvent>, j: int, i: int, k: Key)
    requires j <= i
    ensures Before(log, j, k) ==> Before(log, i, k)
  {
  }

  // -- one round of propagation -------------------------------------------------------------------

  // p = (car, hazard) is unaware in st and within reach of an observer.
  ghost predicate Newly(cars: seq<Id>, tk: Tick, st: State, p: (Id, Id)) {
    p !in st.aware && WarningPath(cars, tk, st.observed, p.0, p.1).Some?
  }

  ghost predicate HopOf(cars: seq<Id>, tk: Tick, st: State, p: (Id, Id), x: (Id, Id, Id)) {
    && Newly(cars, tk, st, p)
    && var path := WarningPath(cars, tk, st.observed, p.0, p.1).value;
       exists i :: 0 <= i < |path| - 1 && x == (path[i], path[i + 1], p.1)
  }

  ghost predicate RelayOf(cars: seq<Id>, tk: Tick, st: State, p: (Id, Id), x: (Id, Id, Id, Id)) {
    Newly(cars, tk, st, p) && RelayOn(WarningPath(cars, tk, st.observed, p.0, p.1).value, p.1, x)
  }

  ghost predicate RelayOn(path: seq<Id>, h: Id, x: (Id, Id, Id, Id)) {
    exists i :: 1 <= i < |path| - 1 && x == (path[i], path[0], path[|path| - 1], h)
  }

  // What a round of visits vs adds to the sets, said without any order.
  ghost predicate Spread(cars: seq<Id>, tk: Tick, st: State, vs: seq<(Id, Id)>, r: State) {
    && r.observed == st.observed && r.braked == st.braked && r.blind == st.blind
    && (forall p :: p in r.aware <==> p in st.aware || (p in vs && Newly(cars, tk, st, p)))
    && (forall p :: p in r.viaRadio <==> p in st.viaRadio || (p in vs && Newly(cars, tk, st, p)))
    && (forall x :: x in r.heardHops <==> x in st.heardHops || exists p :: p in vs && HopOf(cars, tk, st, p, x))
    && (forall x :: x in r.relayedEdges <==> x in st.relayedEdges || exists p :: p in vs && RelayOf(cars, tk, st, p, x))
  }

  lemma {:induction false} HopsSet(tk: Tick, st: State, path: seq<Id>, h: Id, k: nat)
    requires k < |path|
    ensures var r := Hops(tk, st, path, h, k);
      && r == st.(heardHops := r.heardHops, log := r.log)
      && forall x :: x in r.heardHops <==> x in st.heardHops || exists i :: 0 <= i < k && x == (path[i], path[i + 1], h)
  {
    if k > 0 {
      HopsSet(tk, st, path, h, k - 1);
    }
  }

  lemma {:induction false} RelaysSet(tk: Tick, st: State, path: seq<Id>, h: Id, k: nat)
    requires 1 <= k <= |path|
    ensures var r := Relays(tk, st, path, h, k);
      && r == st.(relayedEdges := r.relayedEdges, log := r.log)
      && forall x :: x in r.relayedEdges <==>
           (x in st.relayedEdges || exists i :: 1 <= i < k && x == (path[i], path[0], path[|path| - 1], h))
  {
    if k > 1 {
      RelaysSet(tk, st, path, h, k - 1);
    }
  }

  lemma WarnSpreads(cars: seq<Id>, tk: Tick, st: State, p: (Id, Id))
    ensures Spread(cars, tk, st, [p], Warn(cars, tk, st, p.0, p.1))
  {
    var r := Warn(cars, tk, st, p.0, p.1);
    if Newly(cars, tk, st, p) {
      DeliverSpreads(cars, tk, st, p);
    }
    assert p in [p];
    forall x ensures (exists q :: q in [p] && HopOf(cars, tk, st, q, x)) <==> HopOf(cars, tk, st, p, x) {
      if HopOf(cars, tk, st, p, x) {
        assert p in [p] && HopOf(cars, tk, st, p, x);
      }
    }
    forall x ensures (exists q :: q in [p] && RelayOf(cars, tk, st, q, x)) <==> RelayOf(cars, tk, st, p, x) {
      if RelayOf(cars, tk, st, p, x) {
        assert p in [p] && RelayOf(cars, tk, st, p, x);
      }
    }
  }

  lemma DeliverSpreads(cars: seq<Id>, tk: Tick, st: State, p: (Id, Id))
    requires Newly(cars, tk, st, p)
    ensures var r := Warn(cars, tk, st, p.0, p.1);
      && r.observed == st.observed && r.braked == st.braked && r.blind == st.blind
      && r.aware == st.aware + {p} && r.viaRadio == st.viaRadio + {p}
      && (forall x :: x in r.heardHops <==> x in st.heardHops || HopOf(cars, tk, st, p, x))
      && (forall x :: x in r.relayedEdges <==> x in st.relayedEdges || RelayOf(cars, tk, st, p, x))
  {
    WarningPathFacts(cars, tk, st.observed, p.0, p.1);
    var path := WarningPath(cars, tk, st.observed, p.0, p.1).value;
    var st1 := Learn(st, p.0, p.1);
    var st2 := Hops(tk, st1, path, p.1, |path| - 1);
    var st3 := Relays(tk, st2, path, p.1, |path| - 1);
    HopsSet(tk, st1, path, p.1, |path| - 1);
    RelaysSet(tk, st2, path, p.1, |path| - 1);
    var r := Warn(cars, tk, st, p.0, p.1);
    assert r.heardHops == st2.heardHops && r.relayedEdges == st3.relayedEdges;
  }

  // A whole round adds what its visits add one by one, whatever their order.
  lemma {:induction false} WarnsSpread(cars: seq<Id>, tk: Tick, st: State, vs: seq<(Id, Id)>)
    ensures Spread(cars, tk, st, vs, Warns(cars, tk, st, vs))
  {
    if vs != [] {
      var us, p := vs[..|vs| - 1], vs[|vs| - 1];
      assert vs == us + [p];
      WarnsSpread(cars, tk, st, us);
      WarnSpreads(cars, tk, Warns(cars, tk, st, us), p);
      SpreadJoins(cars, tk, st, us, p, Warns(cars, tk, st, us), Warns(cars, tk, st, vs));
    }
  }

  lemma HopsJoin(cars: seq<Id>, tk: Tick, st: State, us: seq<(Id, Id)>, p: (Id, Id), m: State, x: (Id, Id, Id))
    requires Newly(cars, tk, m, p) <==> Newly(cars, tk, st, p) && p !in us
    requires m.observed == st.observed
    ensures (exists q :: q in us + [p] && HopOf(cars, tk, st, q, x))
      <==> (exists q :: q in us && HopOf(cars, tk, st, q, x)) || (exists q :: q in [p] && HopOf(cars, tk, m, q, x))
  {
    if q :| q in us && HopOf(cars, tk, st, q, x) {
      assert q in us + [p];
    }
    if HopOf(cars, tk, m, p, x) {
      assert HopOf(cars, tk, st, p, x) && p in us + [p];
    }
    if HopOf(cars, tk, st, p, x) && p !in us {
      assert HopOf(cars, tk, m, p, x) && p in [p];
    }
  }

  lemma RelaysJoin(cars: seq<Id>, tk: Tick, st: State, us: seq<(Id, Id)>, p: (Id, Id), m: State, x: (Id, Id, Id, Id))
    requires Newly(cars, tk, m, p) <==> Newly(cars, tk, st, p) && p !in us
    requires m.observed == st.observed
    ensures (exists q :: q in us + [p] && RelayOf(cars, tk, st, q, x))
      <==> (exists q :: q in us && RelayOf(cars, tk, st, q, x)) || (exists q :: q in [p] && RelayOf(cars, tk, m, q, x))
  {
    if q :| q in us && RelayOf(cars, tk, st, q, x) {
      assert q in us + [p];
    }
    if RelayOf(cars, tk, m, p, x) {
      assert RelayOf(cars, tk, st, p, x) && p in us + [p];
    }
    if RelayOf(cars, tk, st, p, x) && p !in us {
      assert RelayOf(cars, tk, m, p, x) && p in [p];
    }
  }

  lemma SpreadJoins(cars: seq<Id>, tk: Tick, st: State, us: seq<(Id, Id)>, p: (Id, Id), m: State, r: State)
    requires Spread(cars, tk, st, us, m) && Spread(cars, tk, m, [p], r)
    ensures Spread(cars, tk, st, us + [p], r)
  {
    assert Newly(cars, tk, m, p) <==> Newly(cars, tk, st, p) && p !in us;
    forall x ensures x in r.heardHops <==> x in st.heardHops || exists q :: q in us + [p] && HopOf(cars, tk, st, q, x) {
      HopsJoin(cars, tk, st, us, p, m, x);
    }
    forall x
      ensures x in r.relayedEdges <==> x in st.relayedEdges || exists q :: q in us + [p] && RelayOf(cars, tk, st, q, x)
    {
      RelaysJoin(cars, tk, st, us, p, m, x);
    }
  }

  // Any two orders of visiting the same receivers and hazards leave the same sets behind.
  lemma OrderDoesNotMatter(cars: seq<Id>, tk: Tick, st: State, vs: seq<(Id, Id)>, us: seq<(Id, Id)>)
    requires forall p :: p in vs <==> p in us
    ensures var a, b := Warns(cars, tk, st, vs), Warns(cars, tk, st, us);
      a.aware == b.aware && a.viaRadio == b.viaRadio && a.heardHops == b.heardHops && a.relayedEdges == b.relayedEdges
  {
    WarnsSpread(cars, tk, st, vs);
    WarnsSpread(cars, tk, st, us);
  }

  // Exactly which cars learn of a hazard in a round: those that knew, and those for which the
  // hazard is relevant and some other car that observed it reaches them over delivered links.
  lemma WhoLearns(w: World, cars: seq<Id>, tk: Tick, st: State, car: Id, h: Id)
    ensures (car, h) in Warns(cars, tk, st, Relevant(w, cars, tk)).aware <==>
      || (car, h) in st.aware
      || ((car, h) in Relevant(w, cars, tk) &&
          Reachable(DeliveryGraph(cars, tk.delivered), Observers(cars, st.observed, car, h), car))
  {
    WarnsSpread(cars, tk, st, Relevant(w, cars, tk));
    BfsCorrect(DeliveryGraph(cars, tk.delivered), Observers(cars, st.observed, car, h), car);
  }

  // A hazard is relevant to a car when one of the car's sightings shows it ahead and near enough.
  lemma {:induction false} RelevantMeans(w: World, cars: seq<Id>, tk: Tick, car: Id, h: Id)
    ensures (car, h) in Relevant(w, cars, tk) <==>
      && car in cars
      && exists s :: s in SightingsOf(tk, car) && s.hazard == h && s.ahead && s.distance <= w.awarenessHorizon
  {
    if cars != [] {
      var rest, c := cars[..|cars| - 1], cars[|cars| - 1];
      assert cars == rest + [c];
      RelevantMeans(w, rest, tk, car, h);
      var d := Ahead(SightingsOf(tk, c), w.awarenessHorizon);
      var mine := ForCar(c, HazardIds(d));
      AheadMeans(SightingsOf(tk, c), w.awarenessHorizon, h);
      if HasKey(d, h) && car == c {
        var i :| 0 <= i < |d| && d[i].0 == h;
        assert mine[i] == (c, h);
      }
      if (car, h) in mine {
        var i :| 0 <= i < |mine| && mine[i] == (car, h);
        assert d[i].0 == h;
      }
    }
  }

  lemma {:induction false} AheadMeans(ss: seq<Sighting>, limit: real, h: Id)
    ensures HasKey(Ahead(ss, limit), h) <==> exists s :: s in ss && s.hazard == h && s.ahead && s.distance <= limit
  {
    if ss != [] {
      AheadMeans(ss[..|ss| - 1], limit, h);
      assert ss == ss[..|ss| - 1] + [ss[|ss| - 1]];
    }
  }

  // -- in car order -------------------------------------------------------------------------------------

  // xs is ys with some items left out.
  ghost predicate IsPartOf(xs: seq<Id>, ys: seq<Id>) {
    xs == [] || (ys != [] && var front, last := ys[..|ys| - 1], ys[|ys| - 1];
      if xs[|xs| - 1] == last && IsPartOf(xs[..|xs| - 1], front) then true else IsPartOf(xs, front))
  }

  // The links of a car, and the observers of a hazard, are listed in the order of the cars.
  lemma {:induction false} ListedInOrder(cars: seq<Id>, delivered: set<(Id, Id)>, u: Id, observed: set<(Id, Id)>, h: Id)
    ensures IsPartOf(HeardBy(cars, delivered, u), cars)
    ensures IsPartOf(Observers(cars, observed, u, h), cars)
  {
    if cars != [] {
      var front, last := cars[..|cars| - 1], cars[|cars| - 1];
      ListedInOrder(front, delivered, u, observed, h);
      OneMoreCar(HeardBy(front, delivered, u), front, last);
      OneMoreCar(Observers(front, observed, u, h), front, last);
      assert cars == front + [last];
    }
  }

  lemma OneMoreCar(xs: seq<Id>, ys: seq<Id>, y: Id)
    requires IsPartOf(xs, ys)
    ensures IsPartOf(xs, ys + [y]) && IsPartOf(xs + [y], ys + [y]) && IsPartOf(xs + [], ys + [y])
  {
    assert (ys + [y])[..|ys|] == ys && (xs + [y])[..|xs|] == xs && xs + [] == xs;
  }

  // -- who trusts whom ----------------------------------------------------------------------------------

  // b is listed after a.
  ghost predicate IsLater(cars: seq<Id>, a: Id, b: Id) {
    exists i, j :: 0 <= i < j < |cars| && cars[i] == a && cars[j] == b
  }

  // Without pairs from the caller every car trusts each later one.
  lemma {:induction false} AllPairsMean(cars: seq<Id>, a: Id, b: Id)
    ensures (a, b) in TrustPairs(cars, []) <==> IsLater(cars, a, b)
  {
    if cars != [] {
      AllPairsMean(cars[1..], a, b);
      FirstIsEarlier(cars, a, b);
      var mine := ForCar(cars[0], cars[1..]);
      if a == cars[0] && b in cars[1..] {
        var j :| 0 <= j < |cars[1..]| && cars[1..][j] == b;
        assert mine[j] == (a, b);
      }
    }
  }

  lemma FirstIsEarlier(cars: seq<Id>, a: Id, b: Id)
    requires cars != []
    ensures IsLater(cars, a, b) <==> (a == cars[0] && b in cars[1..]) || IsLater(cars[1..], a, b)
  {
    var later := cars[1..];
    if IsLater(cars, a, b) {
      var i, j :| 0 <= i < j < |cars| && cars[i] == a && cars[j] == b;
      assert later[j - 1] == b && (i > 0 ==> later[i - 1] == a);
    }
    if IsLater(later, a, b) {
      var i, j :| 0 <= i < j < |later| && later[i] == a && later[j] == b;
      assert cars[i + 1] == a && cars[j + 1] == b;
    }
    if a == cars[0] && b in later {
      var j :| 0 <= j < |later| && later[j] == b;
      assert cars[j + 1] == b;
    }
  }

  // -- the log only grows ----------------------------------------------------------------------------

  lemma {:induction false} LogsGrow(tk: Tick, st: State, path: seq<Id>, h: Id, k: nat)
    requires k < |path|
    ensures st.log <= Hops(tk, st, path, h, k).log
  {
    if k > 0 {
      LogsGrow(tk, st, path, h, k - 1);
    }
  }

  lemma {:induction false} RelayLogsGrow(tk: Tick, st: State, path: seq<Id>, h: Id, k: nat)
    requires 1 <= k <= |path|
    ensures st.log <= Relays(tk, st, path, h, k).log
  {
    if k > 1 {
      RelayLogsGrow(tk, st, path, h, k - 1);
    }
  }

  lemma {:induction false} ObservesGrow(w: World, tk: Tick, st: State, vs: seq<(Id, Sighting)>)
    ensures st.log <= Observes(w, tk, st, vs).log
  {
    if vs != [] {
      ObservesGrow(w, tk, st, vs[..|vs| - 1]);
    }
  }

  lemma WarnGrows(cars: seq<Id>, tk: Tick, st: State, car: Id, h: Id)
    ensures st.log <= Warn(cars, tk, st, car, h).log
  {
    var p := WarningPath(cars, tk, st.observed, car, h);
    if (car, h) !in st.aware && p.Some? {
      WarningPathFacts(cars, tk, st.observed, car, h);
      DeliverGrows(tk, st, car, h, p.value);
    }
  }

  lemma DeliverGrows(tk: Tick, st: State, car: Id, h: Id, path: seq<Id>)
    requires |path| >= 2
    ensures st.log <= Deliver(tk, st, car, h, path).log
  {
    LogsGrow(tk, Learn(st, car, h), path, h, |path| - 1);
    RelayLogsGrow(tk, Hops(tk, Learn(st, car, h), path, h, |path| - 1), path, h, |path| - 1);
  }

  lemma {:induction false} WarnsGrow(cars: seq<Id>, tk: Tick, st: State, vs: seq<(Id, Id)>)
    ensures st.log <= Warns(cars, tk, st, vs).log
  {
    if vs != [] {
      WarnsGrow(cars, tk, st, vs[..|vs| - 1]);
      WarnGrows(cars, tk, Warns(cars, tk, st, vs[..|vs| - 1]), vs[|vs| - 1].0, vs[|vs| - 1].1);
    }
  }

  lemma {:induction false} BrakesGrow(tk: Tick, st: State, vs: seq<(Id, (Id, real))>)
    ensures st.log <= Brakes(tk, st, vs).log
  {
    if vs != [] {
      BrakesGrow(tk, st, vs[..|vs| - 1]);
    }
  }

  // Nothing that was logged is ever changed or removed.
  lemma TickGrows(w: World, cars: seq<Id>, st: State, tk: Tick)
    ensures st.log <= TickStep(w, cars, st, tk).log
  {
    var seen := Observes(w, tk, st, Sightings(cars, tk));
    ObservesGrow(w, tk, st, Sightings(cars, tk));
    WarnsGrow(cars, tk, seen, Relevant(w, cars, tk));
    BrakesGrow(tk, Warns(cars, tk, seen, Relevant(w, cars, tk)), Concern(w, cars, tk));
  }
}
