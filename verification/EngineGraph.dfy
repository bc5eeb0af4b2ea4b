// From the engine to the graph: what a run's log becomes once it has been synced, and what the
// "why did it brake?" query can answer from it.
module EngineGraph {
  import opened Basics
  import opened Events
  import opened Awareness
  import opened AwarenessInvariant
  import opened AwarenessTheorems
  import opened GraphStore
  import opened GraphTheorems

  // -- every event of a run refers to seeded nodes --------------------------------------------------

  ghost predicate AboutIn(hazards: set<Id>, f: Fact) {
    match f
    case Trusts(_, _) => true
    case Observed(_, h, _) => h in hazards
    case BlindTo(_, h, _, _) => h in hazards
    case Heard(_, _, h, _, _) => h in hazards
    case RelayedBy(_, h, _, _) => h in hazards
    case AwareOf(_, h, _, _, _) => h in hazards
    case BrakedFor(_, h, _, _) => h in hazards
    case UnawareRisk(_, h, _) => h in hazards
  }

  ghost predicate About(hazards: set<Id>, log: seq<GraphEvent>) {
    forall i :: 0 <= i < |log| ==> AboutIn(hazards, log[i].fact)
  }

  // The lidar only reports hazards of the scenario.
  ghost predicate Sees(hazards: set<Id>, tk: Tick) {
    forall c, s :: s in SightingsOf(tk, c) ==> s.hazard in hazards
  }

  lemma {:induction false} HopsAbout(hazards: set<Id>, tk: Tick, st: State, path: seq<Id>, h: Id, k: nat)
    requires k < |path| && About(hazards, st.log) && h in hazards
    ensures About(hazards, Hops(tk, st, path, h, k).log)
  {
    if k > 0 {
      HopsAbout(hazards, tk, st, path, h, k - 1);
    }
  }

  lemma {:induction false} RelaysAbout(hazards: set<Id>, tk: Tick, st: State, path: seq<Id>, h: Id, k: nat)
    requires 1 <= k <= |path| && About(hazards, st.log) && h in hazards
    ensures About(hazards, Relays(tk, st, path, h, k).log)
  {
    if k > 1 {
      RelaysAbout(hazards, tk, st, path, h, k - 1);
    }
  }

  lemma {:induction false} ObservesAbout(hazards: set<Id>, w: World, tk: Tick, st: State, vs: seq<(Id, Sighting)>)
    requires About(hazards, st.log) && forall i :: 0 <= i < |vs| ==> vs[i].1.hazard in hazards
    ensures About(hazards, Observes(w, tk, st, vs).log)
  {
    if vs != [] {
      ObservesAbout(hazards, w, tk, st, vs[..|vs| - 1]);
    }
  }

  lemma WarnAbout(hazards: set<Id>, cars: seq<Id>, tk: Tick, st: State, c: Id, h: Id)
    requires About(hazards, st.log) && h in hazards
    ensures About(hazards, Warn(cars, tk, st, c, h).log)
  {
    if (c, h) !in st.aware && WarningPath(cars, tk, st.observed, c, h).Some? {
      WarningPathFacts(cars, tk, st.observed, c, h);
      DeliverAbout(hazards, tk, st, c, h, WarningPath(cars, tk, st.observed, c, h).value);
    }
  }

  lemma DeliverAbout(hazards: set<Id>, tk: Tick, st: State, c: Id, h: Id, path: seq<Id>)
    requires About(hazards, st.log) && h in hazards && |path| >= 2
    ensures About(hazards, Deliver(tk, st, c, h, path).log)
  {
    var st2 := Hops(tk, Learn(st, c, h), path, h, |path| - 1);
    HopsAbout(hazards, tk, Learn(st, c, h), path, h, |path| - 1);
    RelaysAbout(hazards, tk, st2, path, h, |path| - 1);
  }

  lemma {:induction false} WarnsAbout(hazards: set<Id>, cars: seq<Id>, tk: Tick, st: State, vs: seq<(Id, Id)>)
    requires About(hazards, st.log) && forall i :: 0 <= i < |vs| ==> vs[i].1 in hazards
    ensures About(hazards, Warns(cars, tk, st, vs).log)
  {
    if vs != [] {
      WarnsAbout(hazards, cars, tk, st, vs[..|vs| - 1]);
      WarnAbout(hazards, cars, tk, Warns(cars, tk, st, vs[..|vs| - 1]), vs[|vs| - 1].0, vs[|vs| - 1].1);
    }
  }

  lemma {:induction false} BrakesAbout(hazards: set<Id>, tk: Tick, st: State, vs: seq<(Id, (Id, real))>)
    requires About(hazards, st.log) && forall i :: 0 <= i < |vs| ==> vs[i].1.0 in hazards
    ensures About(hazards, Brakes(tk, st, vs).log)
  {
    if vs != [] {
      BrakesAbout(hazards, tk, st, vs[..|vs| - 1]);
    }
  }

  lemma {:induction false} VisitsAbout(hazards: set<Id>, w: World, cars: seq<Id>, tk: Tick)
    requires Sees(hazards, tk)
    ensures forall i :: 0 <= i < |Sightings(cars, tk)| ==> Sightings(cars, tk)[i].1.hazard in hazards
    ensures forall i :: 0 <= i < |Relevant(w, cars, tk)| ==> Relevant(w, cars, tk)[i].1 in hazards
    ensures forall i :: 0 <= i < |Concern(w, cars, tk)| ==> Concern(w, cars, tk)[i].1.0 in hazards
  {
    if cars != [] {
      VisitsAbout(hazards, w, cars[..|cars| - 1], tk);
      var ss := SightingsOf(tk, cars[|cars| - 1]);
      forall i | 0 <= i < |ss| ensures ss[i].hazard in hazards {
        assert ss[i] in ss;
      }
      AheadAbout(hazards, ss, w.awarenessHorizon);
      AheadAbout(hazards, ss, w.brakeReaction);
    }
  }

  lemma AheadAbout(hazards: set<Id>, ss: seq<Sighting>, limit: real)
    requires forall s :: s in ss ==> s.hazard in hazards
    ensures forall i :: 0 <= i < |Ahead(ss, limit)| ==> Ahead(ss, limit)[i].0 in hazards
  {
    var d := Ahead(ss, limit);
    forall i | 0 <= i < |d| ensures d[i].0 in hazards {
      AheadMeans(ss, limit, d[i].0);
      assert HasKey(d, d[i].0);
    }
  }

  lemma {:induction false} RunAbout(hazards: set<Id>, w: World, cars: seq<Id>, trusts: seq<(Id, Id)>, ticks: seq<Tick>)
    requires forall tk :: tk in ticks ==> Sees(hazards, tk)
    ensures About(hazards, Run(w, cars, trusts, ticks).log)
  {
    if ticks != [] {
      var tk := ticks[|ticks| - 1];
      RunAbout(hazards, w, cars, trusts, ticks[..|ticks| - 1]);
      VisitsAbout(hazards, w, cars, tk);
      var st := Run(w, cars, trusts, ticks[..|ticks| - 1]);
      var seen := Observes(w, tk, st, Sightings(cars, tk));
      ObservesAbout(hazards, w, tk, st, Sightings(cars, tk));
      WarnsAbout(hazards, cars, tk, seen, Relevant(w, cars, tk));
      BrakesAbout(hazards, tk, Warns(cars, tk, seen, Relevant(w, cars, tk)), Concern(w, cars, tk));
    }
  }

  ghost function CarIds(sc: Scenario): set<Id> { set c | c in sc.cars :: c.id }

  ghost function HazardIdsOf(sc: Scenario): set<Id> { set h | h in sc.hazards :: h.id }

  // The run was made on this scenario: its cars are the scenario's, and so are its hazards.
  ghost predicate RunsOn(sc: Scenario, cars: seq<Id>, ticks: seq<Tick>) {
    && (forall c :: c in cars ==> c in CarIds(sc))
    && (forall tk :: tk in ticks ==> Sees(HazardIdsOf(sc), tk))
  }

  lemma IdsAreSeeded(sc: Scenario, x: Id)
    ensures x in CarIds(sc) ==> CarNode(x) in SeedNodes(sc)
    ensures x in HazardIdsOf(sc) ==> HazardNode(x) in SeedNodes(sc)
  {
    if x in CarIds(sc) {
      var c :| c in sc.cars && c.id == x;
      assert CarNode(c.id) == CarNode(x);
    }
    if x in HazardIdsOf(sc) {
      var h :| h in sc.hazards && h.id == x;
      assert HazardNode(h.id) == HazardNode(x);
    }
  }

  lemma FactIsSeeded(sc: Scenario, cars: seq<Id>, ticks: seq<Tick>, ks: set<Key>, ev: GraphEvent)
    requires RunsOn(sc, cars, ticks)
    requires Justified(cars, ks, ev.fact) && AboutIn(HazardIdsOf(sc), ev.fact)
    ensures Seeded(sc, ev)
  {
    match ev.fact
    case Trusts(_, _) =>
    case Heard(r, s, _, _, _) =>
      IdsAreSeeded(sc, r);
      IdsAreSeeded(sc, s);
    case RelayedBy(m, h, _, _) =>
      IdsAreSeeded(sc, m);
      IdsAreSeeded(sc, h);
    case _ =>
      IdsAreSeeded(sc, ev.fact.car);
      IdsAreSeeded(sc, ev.fact.hazard);
  }

  lemma RunIsSeeded(sc: Scenario, w: World, cars: seq<Id>, trusts: seq<(Id, Id)>, ticks: seq<Tick>)
    requires RunsOn(sc, cars, ticks)
    ensures AllSeeded(sc, Run(w, cars, trusts, ticks).log)
  {
    var log := Run(w, cars, trusts, ticks).log;
    RunKeeps(w, cars, trusts, ticks);
    RunAbout(HazardIdsOf(sc), w, cars, trusts, ticks);
    forall i | 0 <= i < |log| ensures Seeded(sc, log[i]) {
      FactIsSeeded(sc, cars, ticks, KeysOf(log[..i]), log[i]);
    }
  }

  // -- the sync of a run loses nothing --------------------------------------------------------------

  ghost function Synced(g: Graph, run: Id, sc: Scenario, log: seq<GraphEvent>): Graph {
    Apply(g, Build(run, sc, log))
  }

  ghost predicate NoEdgesOf(g: Graph, run: Id) {
    forall e :: e in g ==> RunOf(e) != Some(run)
  }

  lemma EdgeForInjective(run: Id, k: Key, l: Key)
    requires EdgeFor(run, k) == EdgeFor(run, l)
    ensures k == l
  {
  }

  lemma UntouchedTrack(ws: seq<Write>, e: Element, p: Option<Props>)
    requires forall i :: 0 <= i < |ws| ==> ws[i].e != e
    ensures Track(ws, e, p) == p
  {
    TrackClosed(ws, e, p);
  }

  lemma {:induction false} TrackConcat(a: seq<Write>, b: seq<Write>, e: Element, p: Option<Props>)
    ensures Track(a + b, e, p) == Track(b, e, Track(a, e, p))
  {
    if b == [] {
      assert a + b == a;
    } else {
      assert (a + b)[..|a + b| - 1] == a + b[..|b| - 1];
      TrackConcat(a, b[..|b| - 1], e, p);
    }
  }

  lemma EventTrack(run: Id, ev: GraphEvent, k: Key, p: Option<Props>)
    requires !Repeatable(k)
    ensures Track(ForEvent(run, ev), EdgeFor(run, k), p) ==
      if KeyOf(ev.fact) != k then p
      else Some(Props(if p.Some? && p.value.t.Some? then p.value.t else Some(ev.t), AttrsOf(ev.fact)))
  {
    var e, ws := EdgeFor(run, k), ForEvent(run, ev);
    if KeyOf(ev.fact) != k {
      if !ev.fact.Trusts? && EdgeFor(run, KeyOf(ev.fact)) == e {
        EdgeForInjective(run, KeyOf(ev.fact), k);
      }
      UntouchedTrack(ws, e, p);
    } else {
      assert ws == [ws[0]] && ws[..0] == [];
      assert Track(ws[..0], e, p) == p;
    }
  }

  // What the writes of the events do to the edge of a fact that is reported at most once.
  lemma {:induction false} EventWrites(run: Id, evs: seq<GraphEvent>, k: Key)
    requires OnceOnly(evs) && !Repeatable(k)
    ensures k !in KeysOf(evs) ==> Track(ForEvents(run, evs), EdgeFor(run, k), None).None?
    ensures forall i :: 0 <= i < |evs| && KeyOf(evs[i].fact) == k ==>
      Track(ForEvents(run, evs), EdgeFor(run, k), None) == Some(Props(Some(evs[i].t), AttrsOf(evs[i].fact)))
  {
    if evs != [] {
      var rest, ev := evs[..|evs| - 1], evs[|evs| - 1];
      assert evs == rest + [ev];
      KeysOfAppend(rest, ev);
      EventWrites(run, rest, k);
      TrackConcat(ForEvents(run, rest), ForEvent(run, ev), EdgeFor(run, k), None);
      EventTrack(run, ev, k, Track(ForEvents(run, rest), EdgeFor(run, k), None));
      if KeyOf(ev.fact) == k && k in KeysOf(rest) {
        var i := KeyAt(rest, k);
      }
    }
  }

  lemma SeedsAreNodes(run: Id, sc: Scenario)
    ensures forall i :: 0 <= i < |Seeds(run, sc)| ==> IsNode(Seeds(run, sc)[i].e)
  {
  }

  // An edge of the run is what the writes of the events make of it.
  lemma EdgeOfRun(g: Graph, run: Id, sc: Scenario, log: seq<GraphEvent>, e: Element)
    requires AllSeeded(sc, log) && NoEdgesOf(g, run) && RunOf(e) == Some(run)
    ensures Lookup(Synced(g, run, sc, log), e) == Track(ForEvents(run, log), e, None)
  {
    BuildGrounded(g.Keys, run, sc, log);
    GroundedTracks(g, Build(run, sc, log), e);
    TrackConcat(Seeds(run, sc), ForEvents(run, log), e, None);
    SeedsAreNodes(run, sc);
    UntouchedTrack(Seeds(run, sc), e, None);
  }

  // The edge of a fact reported at most once is there exactly when the event is, and carries the
  // event's time and attributes.
  lemma EdgeIsEvent(g: Graph, run: Id, sc: Scenario, log: seq<GraphEvent>, k: Key)
    requires OnceOnly(log) && AllSeeded(sc, log) && NoEdgesOf(g, run) && !Repeatable(k)
    ensures EdgeFor(run, k) in Synced(g, run, sc, log) <==> k in KeysOf(log)
    ensures forall i :: 0 <= i < |log| && KeyOf(log[i].fact) == k ==>
      Lookup(Synced(g, run, sc, log), EdgeFor(run, k)) == Some(Props(Some(log[i].t), AttrsOf(log[i].fact)))
  {
    var e := EdgeFor(run, k);
    KeyForInverts(run, k);
    EdgeOfRun(g, run, sc, log, e);
    EventWrites(run, log, k);
    if k in KeysOf(log) {
      var i := KeyAt(log, k);
      assert Lookup(Synced(g, run, sc, log), e).Some?;
    }
  }

  lemma KeyForInverts(run: Id, k: Key)
    ensures !IsNode(EdgeFor(run, k)) && RunOf(EdgeFor(run, k)) == Some(run)
    ensures KeyFor(EdgeFor(run, k)) == k
  {
  }

  lemma EdgeForInverts(run: Id, e: Element)
    requires RunOf(e) == Some(run)
    ensures EdgeFor(run, KeyFor(e)) == e
  {
  }

  datatype Kind = TRUSTS | OBSERVED | BLIND_TO | BEACONED | RELAYED | AWARE_OF | BRAKED_FOR | AT_RISK

  function KindOf(k: Key): Kind {
    match k
    case KTrusts(_, _) => TRUSTS
    case KObserved(_, _) => OBSERVED
    case KBlind(_, _) => BLIND_TO
    case KHeard(_, _, _) => BEACONED
    case KRelayed(_, _, _) => RELAYED
    case KAware(_, _) => AWARE_OF
    case KBraked(_, _) => BRAKED_FOR
    case KRisk(_, _) => AT_RISK
  }

  // The fact an edge stands for.
  function KeyFor(e: Element): Key
    requires !IsNode(e)
  {
    match e
    case TrustsEdge(_, a, b) => KTrusts(a, b)
    case ObservedEdge(_, c, h) => KObserved(c, h)
    case BlindToEdge(_, c, h) => KBlind(c, h)
    case BeaconedEdge(_, s, r, h) => KHeard(s, r, h)
    case RelayedEdge(_, m, h, d) => KRelayed(m, h, d)
    case AwareOfEdge(_, c, h) => KAware(c, h)
    case BrakedForEdge(_, c, h) => KBraked(c, h)
    case AtRiskEdge(_, c, h) => KRisk(c, h)
  }

  ghost function EdgesOf(g: Graph, run: Id, kind: Kind): set<Element> {
    set e | e in g && RunOf(e) == Some(run) && KindOf(KeyFor(e)) == kind
  }

  ghost function EventsOf(log: seq<GraphEvent>, kind: Kind): nat {
    if log == [] then 0
    else EventsOf(log[..|log| - 1], kind) + (if KindOf(KeyOf(log[|log| - 1].fact)) == kind then 1 else 0)
  }

  ghost function KeysOfKind(log: seq<GraphEvent>, kind: Kind): set<Key> {
    set k | k in KeysOf(log) && KindOf(k) == kind
  }

  lemma FreshKey(log: seq<GraphEvent>, ev: GraphEvent)
    requires OnceOnly(log + [ev])
    ensures OnceOnly(log)
    ensures !Repeatable(KeyOf(ev.fact)) ==> KeyOf(ev.fact) !in KeysOf(log)
  {
    var l := log + [ev];
    assert forall i :: 0 <= i < |log| ==> l[i] == log[i];
    if KeyOf(ev.fact) in KeysOf(log) {
      var i := KeyAt(log, KeyOf(ev.fact));
      assert KeyOf(l[i].fact) == KeyOf(l[|log|].fact);
    }
  }

  lemma KindRepeats(k: Key)
    ensures Repeatable(k) <==> KindOf(k) == TRUSTS || KindOf(k) == AT_RISK
  {
  }

  lemma OneMoreEvent(log: seq<GraphEvent>, ev: GraphEvent, kind: Kind)
    requires OnceOnly(log + [ev]) && kind != TRUSTS && kind != AT_RISK
    ensures OnceOnly(log)
    ensures |KeysOfKind(log + [ev], kind)|
      == |KeysOfKind(log, kind)| + (if KindOf(KeyOf(ev.fact)) == kind then 1 else 0)
  {
    KeysOfKindGrow(log, ev, kind);
    FreshKey(log, ev);
    KindRepeats(KeyOf(ev.fact));
  }

  lemma {:induction false} DistinctEvents(log: seq<GraphEvent>, kind: Kind)
    requires OnceOnly(log) && kind != TRUSTS && kind != AT_RISK
    ensures |KeysOfKind(log, kind)| == EventsOf(log, kind)
  {
    if log == [] {
      assert KeysOfKind(log, kind) == {};
    } else {
      assert log == log[..|log| - 1] + [log[|log| - 1]];
      OneMoreEvent(log[..|log| - 1], log[|log| - 1], kind);
      DistinctEvents(log[..|log| - 1], kind);
    }
  }

  lemma KeysOfKindGrow(log: seq<GraphEvent>, ev: GraphEvent, kind: Kind)
    ensures KeysOfKind(log + [ev], kind) ==
      KeysOfKind(log, kind) + (if KindOf(KeyOf(ev.fact)) == kind then {KeyOf(ev.fact)} else {})
  {
    KeysOfAppend(log, ev);
  }

  // Sets in a one-to-one correspondence by EdgeFor have the same size.
  lemma {:induction false} SameSize(run: Id, ks: set<Key>, es: set<Element>)
    requires forall k :: k in ks ==> EdgeFor(run, k) in es
    requires forall e :: e in es ==> RunOf(e) == Some(run) && KeyFor(e) in ks
    ensures |ks| == |es|
    decreases |ks|
  {
    if ks == {} {
      assert es == {};
    } else {
      var k :| k in ks;
      var e := EdgeFor(run, k);
      KeyForInverts(run, k);
      forall l | l in ks - {k} ensures EdgeFor(run, l) in es - {e} {
        if EdgeFor(run, l) == e {
          KeyForInverts(run, l);
        }
      }
      forall f | f in es - {e} ensures KeyFor(f) in ks - {k} {
        EdgeForInverts(run, f);
      }
      SameSize(run, ks - {k}, es - {e});
    }
  }

  // Of every kind but trust and risk, the run has as many edges in the graph as events in its log.
  lemma EdgeCountsAreEventCounts(g: Graph, run: Id, sc: Scenario, w: World, cars: seq<Id>, trusts: seq<(Id, Id)>,
                                 ticks: seq<Tick>, kind: Kind)
    requires RunsOn(sc, cars, ticks) && NoEdgesOf(g, run) && kind != TRUSTS && kind != AT_RISK
    ensures var log := Run(w, cars, trusts, ticks).log;
      |EdgesOf(Synced(g, run, sc, log), run, kind)| == EventsOf(log, kind)
  {
    var log := Run(w, cars, trusts, ticks).log;
    RunKeeps(w, cars, trusts, ticks);
    RunIsSeeded(sc, w, cars, trusts, ticks);
    EdgesAreEvents(g, run, sc, log, kind);
  }

  lemma EdgesAreEvents(g: Graph, run: Id, sc: Scenario, log: seq<GraphEvent>, kind: Kind)
    requires OnceOnly(log) && AllSeeded(sc, log) && NoEdgesOf(g, run) && kind != TRUSTS && kind != AT_RISK
    ensures |EdgesOf(Synced(g, run, sc, log), run, kind)| == EventsOf(log, kind)
  {
    DistinctEvents(log, kind);
    var s := Synced(g, run, sc, log);
    var es, ks := EdgesOf(s, run, kind), KeysOfKind(log, kind);
    forall k | k in ks ensures EdgeFor(run, k) in es {
      EventHasEdge(g, run, sc, log, kind, k);
    }
    forall e | e in es ensures KeyFor(e) in ks {
      EdgeHasEvent(g, run, sc, log, kind, e);
    }
    SameSize(run, ks, es);
  }

  lemma EventHasEdge(g: Graph, run: Id, sc: Scenario, log: seq<GraphEvent>, kind: Kind, k: Key)
    requires OnceOnly(log) && AllSeeded(sc, log) && NoEdgesOf(g, run) && kind != TRUSTS && kind != AT_RISK
    requires k in KeysOfKind(log, kind)
    ensures EdgeFor(run, k) in EdgesOf(Synced(g, run, sc, log), run, kind)
  {
    KindRepeats(k);
    KeyForInverts(run, k);
    EdgeIsEvent(g, run, sc, log, k);
  }

  lemma EdgeHasEvent(g: Graph, run: Id, sc: Scenario, log: seq<GraphEvent>, kind: Kind, e: Element)
    requires OnceOnly(log) && AllSeeded(sc, log) && NoEdgesOf(g, run) && kind != TRUSTS && kind != AT_RISK
    requires e in EdgesOf(Synced(g, run, sc, log), run, kind)
    ensures KeyFor(e) in KeysOfKind(log, kind)
  {
    KindRepeats(KeyFor(e));
    EdgeForInverts(run, e);
    EdgeIsEvent(g, run, sc, log, KeyFor(e));
  }

  // -- why did it brake? --------------------------------------------------------------------------

  // A path the query may return: BEACONED edges of the run, none twice, from a car with an OBSERVED
  // edge to the hazard. topics[i] is the hazard the i-th hop was about; the query does not ask.
  ghost predicate IsCandidate(g: Graph, run: Id, car: Id, h: Id, nodes: seq<Id>, topics: seq<Id>) {
    && |topics| >= 1 && |nodes| == |topics| + 1
    && nodes[|nodes| - 1] == car
    && ObservedEdge(run, nodes[0], h) in g
    && (forall i :: 0 <= i < |topics| ==> BeaconedEdge(run, nodes[i], nodes[i + 1], topics[i]) in g)
    && (forall i, j :: 0 <= i < j < |topics| ==>
          (nodes[i], nodes[i + 1], topics[i]) != (nodes[j], nodes[j + 1], topics[j]))
  }

  // What the query answers for a brake of car for h: the nodes of a longest candidate path, or the
  // bare car when there is none.
  ghost predicate IsAnswer(g: Graph, run: Id, car: Id, h: Id, relayPath: seq<Id>) {
    && BrakedForEdge(run, car, h) in g
    && if exists ns, ts :: IsCandidate(g, run, car, h, ns, ts)
       then exists ts :: IsCandidate(g, run, car, h, relayPath, ts)
              && forall ns, us :: IsCandidate(g, run, car, h, ns, us) ==> |ns| <= |relayPath|
       else relayPath == [car]
  }

  // The hops of the run that the graph has BEACONED edges for.
  ghost function HopsIn(g: Graph, run: Id): set<(Id, Id, Id)> {
    set e | e in g && e.BeaconedEdge? && e.run == run :: (e.sender, e.receiver, e.hazard)
  }

  lemma {:induction false} DistinctSize(s: seq<(Id, Id, Id)>, all: set<(Id, Id, Id)>)
    requires Distinct(s) && forall x :: x in s ==> x in all
    ensures |s| <= |all|
  {
    if s != [] {
      var front, last := s[..|s| - 1], s[|s| - 1];
      assert s == front + [last];
      DistinctSize(front, all - {last});
    }
  }

  ghost function HopsOn(nodes: seq<Id>, topics: seq<Id>): seq<(Id, Id, Id)>
    requires |nodes| == |topics| + 1
  {
    seq(|topics|, i requires 0 <= i < |topics| => (nodes[i], nodes[i + 1], topics[i]))
  }

  lemma HopsAreEdges(g: Graph, run: Id, car: Id, h: Id, nodes: seq<Id>, topics: seq<Id>, x: (Id, Id, Id))
    requires IsCandidate(g, run, car, h, nodes, topics) && x in HopsOn(nodes, topics)
    ensures x in HopsIn(g, run)
  {
    var i :| 0 <= i < |topics| && HopsOn(nodes, topics)[i] == x;
    assert BeaconedEdge(run, nodes[i], nodes[i + 1], topics[i]) in g;
  }

  // No path has more hops than the run has.
  lemma CandidateIsShort(g: Graph, run: Id, car: Id, h: Id, nodes: seq<Id>, topics: seq<Id>)
    requires IsCandidate(g, run, car, h, nodes, topics)
    ensures |topics| <= |HopsIn(g, run)|
  {
    forall x | x in HopsOn(nodes, topics) ensures x in HopsIn(g, run) {
      HopsAreEdges(g, run, car, h, nodes, topics, x);
    }
    DistinctSize(HopsOn(nodes, topics), HopsIn(g, run));
  }

  lemma {:induction false} LongestFrom(g: Graph, run: Id, car: Id, h: Id, nodes: seq<Id>, topics: seq<Id>)
    returns (ns: seq<Id>, ts: seq<Id>)
    requires IsCandidate(g, run, car, h, nodes, topics)
    ensures IsCandidate(g, run, car, h, ns, ts)
    ensures forall ms, us :: IsCandidate(g, run, car, h, ms, us) ==> |ms| <= |ns|
    decreases |HopsIn(g, run)| - |topics|
  {
    if exists ms, us :: IsCandidate(g, run, car, h, ms, us) && |ms| > |nodes| {
      var ms, us :| IsCandidate(g, run, car, h, ms, us) && |ms| > |nodes|;
      CandidateIsShort(g, run, car, h, ms, us);
      ns, ts := LongestFrom(g, run, car, h, ms, us);
    } else {
      ns, ts := nodes, topics;
    }
  }

  // The query has an answer for every brake in the graph.
  lemma AnswerExists(g: Graph, run: Id, car: Id, h: Id) returns (answer: seq<Id>)
    requires BrakedForEdge(run, car, h) in g
    ensures IsAnswer(g, run, car, h, answer)
  {
    if exists ns, ts :: IsCandidate(g, run, car, h, ns, ts) {
      var ns, ts :| IsCandidate(g, run, car, h, ns, ts);
      var us;
      answer, us := LongestFrom(g, run, car, h, ns, ts);
    } else {
      answer := [car];
    }
  }

  lemma {:induction false} WrittenStays(run: Id, evs: seq<GraphEvent>, i: nat)
    requires i < |evs| && !evs[i].fact.Trusts?
    ensures EdgeFor(run, KeyOf(evs[i].fact)) in Written(ForEvents(run, evs))
  {
    WrittenLast(run, evs);
    if i < |evs| - 1 {
      WrittenStays(run, evs[..|evs| - 1], i);
    } else {
      OneWrite(run, evs[i]);
    }
  }

  lemma WrittenLast(run: Id, evs: seq<GraphEvent>)
    requires evs != []
    ensures var rest, ev := evs[..|evs| - 1], evs[|evs| - 1];
      Written(ForEvents(run, evs)) == Written(ForEvents(run, rest)) + Written(ForEvent(run, ev))
  {
    WrittenConcat(ForEvents(run, evs[..|evs| - 1]), ForEvent(run, evs[|evs| - 1]));
  }

  lemma OneWrite(run: Id, ev: GraphEvent)
    requires !ev.fact.Trusts?
    ensures Written(ForEvent(run, ev)) == {EdgeFor(run, KeyOf(ev.fact))}
  {
    assert ForEvent(run, ev) == [Write(EdgeFor(run, KeyOf(ev.fact)), Some(ev.t), Some(AttrsOf(ev.fact)))];
    WrittenConcat([], ForEvent(run, ev));
  }

  // Every event of the log has its edge in the graph, whatever was there before.
  lemma EventInGraph(g: Graph, run: Id, sc: Scenario, log: seq<GraphEvent>, k: Key)
    requires AllSeeded(sc, log) && k in KeysOf(log) && !k.KTrusts?
    ensures EdgeFor(run, k) in Synced(g, run, sc, log)
  {
    var i := KeyAt(log, k);
    WrittenStays(run, log, i);
    WrittenConcat(Seeds(run, sc), ForEvents(run, log));
    BuildGrounded(g.Keys, run, sc, log);
    GroundedKeys(g, Build(run, sc, log));
  }

  // path is a candidate all of whose hops were about h itself.
  ghost predicate IsOwnChain(g: Graph, run: Id, car: Id, h: Id, path: seq<Id>) {
    |path| >= 2 && IsCandidate(g, run, car, h, path, seq(|path| - 1, i => h))
  }

  // The chain that warned a car is a candidate, over hops about that hazard only.
  lemma ChainIsCandidate(g: Graph, run: Id, sc: Scenario, log: seq<GraphEvent>, j: nat, car: Id, h: Id, path: seq<Id>)
    requires AllSeeded(sc, log) && WarnedAt(log, j, car, h, path)
    ensures IsOwnChain(Synced(g, run, sc, log), run, car, h, path)
  {
    KeyInLog(log, j, KObserved(path[0], h));
    EventInGraph(g, run, sc, log, KObserved(path[0], h));
    forall i | 0 <= i < |path| - 1
      ensures BeaconedEdge(run, path[i], path[i + 1], h) in Synced(g, run, sc, log)
    {
      KeyInLog(log, j, KHeard(path[i], path[i + 1], h));
      EventInGraph(g, run, sc, log, KHeard(path[i], path[i + 1], h));
    }
  }

  lemma KeyInLog(log: seq<GraphEvent>, j: nat, k: Key)
    requires Before(log, j, k)
    ensures k in KeysOf(log)
  {
    var i :| 0 <= i < j && i < |log| && KeyOf(log[i].fact) == k;
    assert log[i] in log;
  }

  // The query explains the brake by a path: it has an answer, and every answer ends at the braking car,
  // starts at a car that saw the hazard (which may be the braking car itself) and is no shorter than
  // the chain that carried the warning.
  ghost predicate IsExplained(g: Graph, run: Id, car: Id, h: Id, path: seq<Id>) {
    && IsOwnChain(g, run, car, h, path)
    && BrakedForEdge(run, car, h) in g
    && (exists answer :: IsAnswer(g, run, car, h, answer))
    && forall answer :: IsAnswer(g, run, car, h, answer) ==>
         |answer| >= |path| && answer[|answer| - 1] == car && ObservedEdge(run, answer[0], h) in g
  }

  // With an own chain in the graph the query cannot fall back to the bare car.
  lemma ChainExplains(g: Graph, run: Id, car: Id, h: Id, path: seq<Id>)
    requires IsOwnChain(g, run, car, h, path) && BrakedForEdge(run, car, h) in g
    ensures IsExplained(g, run, car, h, path)
  {
    var some := AnswerExists(g, run, car, h);
    forall answer | IsAnswer(g, run, car, h, answer)
      ensures |answer| >= |path| && answer[|answer| - 1] == car && ObservedEdge(run, answer[0], h) in g
    {
      var ts :| IsCandidate(g, run, car, h, answer, ts)
        && forall ns, us :: IsCandidate(g, run, car, h, ns, us) ==> |ns| <= |answer|;
    }
  }

  // For every radio brake of every run, synced into any graph, the chain of hops that carried the
  // warning is in the graph, starts at a car that had observed the hazard and ends at the braking
  // car; so the query answers, never with the bare car, and with no less than that chain.
  lemma RadioBrakeIsExplained(g: Graph, run: Id, sc: Scenario, w: World, cars: seq<Id>, trusts: seq<(Id, Id)>,
                              ticks: seq<Tick>, i: nat)
    returns (path: seq<Id>)
    requires RunsOn(sc, cars, ticks)
    requires var log := Run(w, cars, trusts, ticks).log;
      i < |log| && log[i].fact.BrakedFor? && log[i].fact.cause == ByRadio
    ensures var log := Run(w, cars, trusts, ticks).log;
      IsExplained(Synced(g, run, sc, log), run, log[i].fact.car, log[i].fact.hazard, path)
  {
    RunIsSeeded(sc, w, cars, trusts, ticks);
    RunKeeps(w, cars, trusts, ticks);
    path := BrakeIsExplained(g, run, sc, cars, Run(w, cars, trusts, ticks).log, i);
  }

  lemma BrakeIsExplained(g: Graph, run: Id, sc: Scenario, cars: seq<Id>, log: seq<GraphEvent>, i: nat)
    returns (path: seq<Id>)
    requires AllSeeded(sc, log) && History(cars, log) && OnceOnly(log)
    requires i < |log| && log[i].fact.BrakedFor? && log[i].fact.cause == ByRadio
    ensures IsExplained(Synced(g, run, sc, log), run, log[i].fact.car, log[i].fact.hazard, path)
  {
    var car, h := log[i].fact.car, log[i].fact.hazard;
    var j;
    j, path := RadioBrakeHasChain(cars, log, i);
    ChainIsCandidate(g, run, sc, log, j, car, h, path);
    BrakeInGraph(g, run, sc, log, i);
    ChainExplains(Synced(g, run, sc, log), run, car, h, path);
  }

  lemma BrakeInGraph(g: Graph, run: Id, sc: Scenario, log: seq<GraphEvent>, i: nat)
    requires AllSeeded(sc, log) && i < |log| && log[i].fact.BrakedFor?
    ensures BrakedForEdge(run, log[i].fact.car, log[i].fact.hazard) in Synced(g, run, sc, log)
  {
    KeyInLog(log, i + 1, KBraked(log[i].fact.car, log[i].fact.hazard));
    EventInGraph(g, run, sc, log, KBraked(log[i].fact.car, log[i].fact.hazard));
  }
}
