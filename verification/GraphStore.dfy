// The property graph and the statements that fold an event stream into it.
//
// Every Cypher statement of the sync is a MERGE of nodes or of one edge, guarded by the MATCH of
// the edge's endpoints, followed by SETs: `t` keeps its first value, every other property takes the
// last one. MERGE identifies an element by the properties in its pattern, so the graph is a map.
module GraphStore {
  import opened Basics
  import opened Events

  datatype Element =
    | RunNode(id: Id)
    | CarNode(id: Id)
    | HazardNode(id: Id)
    | TrustsEdge(run: Id, a: Id, b: Id)
    | ObservedEdge(run: Id, car: Id, hazard: Id)
    | BlindToEdge(run: Id, car: Id, hazard: Id)
    | BeaconedEdge(run: Id, sender: Id, receiver: Id, hazard: Id)
    | RelayedEdge(run: Id, car: Id, hazard: Id, dest: Id)
    | AwareOfEdge(run: Id, car: Id, hazard: Id)
    | BrakedForEdge(run: Id, car: Id, hazard: Id)
    | AtRiskEdge(run: Id, car: Id, hazard: Id)

  datatype Attrs =
    | Bare
    | RunInfo(scenario: string, fog: real)
    | Label(caption: string)
    | HazardInfo(kind: string, caption: string)
    | Sighted(distance: real)
    | Unsighted(reason: string, distance: real)
    | Beacon(report: HopReport, relayed: bool)
    | RelayFrom(source: Id)
    | Knows(via: Via, hops: nat, path: seq<Id>)
    | Stopped(distance: real, cause: BrakeSource)

  datatype Props = Props(t: Option<real>, attrs: Attrs)

  type Graph = map<Element, Props>

  predicate IsNode(e: Element) { e.RunNode? || e.CarNode? || e.HazardNode? }

  // The endpoints an edge is matched or merged between.
  function Ends(e: Element): set<Element> {
    match e
    case RunNode(_) => {}
    case CarNode(_) => {}
    case HazardNode(_) => {}
    case TrustsEdge(_, a, b) => {CarNode(a), CarNode(b)}
    case BeaconedEdge(_, s, r, _) => {CarNode(s), CarNode(r)}
    case RelayedEdge(_, c, h, _) => {CarNode(c), HazardNode(h)}
    case ObservedEdge(_, c, h) => {CarNode(c), HazardNode(h)}
    case BlindToEdge(_, c, h) => {CarNode(c), HazardNode(h)}
    case AwareOfEdge(_, c, h) => {CarNode(c), HazardNode(h)}
    case BrakedForEdge(_, c, h) => {CarNode(c), HazardNode(h)}
    case AtRiskEdge(_, c, h) => {CarNode(c), HazardNode(h)}
  }

  // One MERGE with its SETs: `attrs` is None when the MERGE sets nothing.
  datatype Write = Write(e: Element, t: Option<real>, attrs: Option<Attrs>)

  function Coalesce<T>(a: Option<T>, b: Option<T>): Option<T> { if a.Some? then a else b }

  function Lookup(g: Graph, e: Element): Option<Props> { if e in g then Some(g[e]) else None }

  function Merged(prior: Option<Props>, w: Write): Props {
    var base := if prior.Some? then prior.value else Props(None, Bare);
    Props(Coalesce(base.t, w.t), if w.attrs.Some? then w.attrs.value else base.attrs)
  }

  function Put(g: Graph, w: Write): Graph {
    if Ends(w.e) <= g.Keys then g[w.e := Merged(Lookup(g, w.e), w)] else g
  }

  function Apply(g: Graph, ws: seq<Write>): Graph {
    if ws == [] then g else Put(Apply(g, ws[..|ws| - 1]), ws[|ws| - 1])
  }

  // -- the statements of a run ------------------------------------------------------------------

  datatype CarSpec = CarSpec(id: Id, caption: Option<string>)

  datatype HazardSpec = HazardSpec(id: Id, kind: string, caption: Option<string>)

  datatype Scenario = Scenario(name: string, fog: real, cars: seq<CarSpec>, hazards: seq<HazardSpec>)

  function LabelOr(caption: Option<string>, id: Id): string {
    if caption.Some? && caption.value != "" then caption.value else id
  }

  function Seeds(run: Id, sc: Scenario): seq<Write> {
    [Write(RunNode(run), None, Some(RunInfo(sc.name, sc.fog)))]
    + seq(|sc.cars|, i requires 0 <= i < |sc.cars| =>
        Write(CarNode(sc.cars[i].id), None, Some(Label(LabelOr(sc.cars[i].caption, sc.cars[i].id)))))
    + seq(|sc.hazards|, i requires 0 <= i < |sc.hazards| =>
        Write(HazardNode(sc.hazards[i].id), None,
              Some(HazardInfo(sc.hazards[i].kind, LabelOr(sc.hazards[i].caption, sc.hazards[i].id)))))
  }

  function EdgeFor(run: Id, k: Key): Element {
    match k
    case KTrusts(a, b) => TrustsEdge(run, a, b)
    case KObserved(c, h) => ObservedEdge(run, c, h)
    case KBlind(c, h) => BlindToEdge(run, c, h)
    case KHeard(s, r, h) => BeaconedEdge(run, s, r, h)
    case KRelayed(m, h, d) => RelayedEdge(run, m, h, d)
    case KAware(c, h) => AwareOfEdge(run, c, h)
    case KBraked(c, h) => BrakedForEdge(run, c, h)
    case KRisk(c, h) => AtRiskEdge(run, c, h)
  }

  function AttrsOf(f: Fact): Attrs {
    match f
    case Trusts(_, _) => Bare
    case Observed(_, _, d) => Sighted(d)
    case BlindTo(_, _, r, d) => Unsighted(r, d)
    case Heard(_, _, _, rep, relayed) => Beacon(rep, relayed)
    case RelayedBy(_, _, s, _) => RelayFrom(s)
    case AwareOf(_, _, via, path, hops) => Knows(via, hops, path)
    case BrakedFor(_, _, d, cause) => Stopped(d, cause)
    case UnawareRisk(_, _, d) => Sighted(d)
  }

  // The writes of the one statement an event becomes. Trust is mutual and creates its cars.
  function ForEvent(run: Id, ev: GraphEvent): seq<Write> {
    match ev.fact
    case Trusts(a, b) =>
      [Write(CarNode(a), None, None), Write(CarNode(b), None, None),
       Write(TrustsEdge(run, a, b), None, None), Write(TrustsEdge(run, b, a), None, None)]
    case _ => [Write(EdgeFor(run, KeyOf(ev.fact)), Some(ev.t), Some(AttrsOf(ev.fact)))]
  }

  function ForEvents(run: Id, evs: seq<GraphEvent>): seq<Write> {
    if evs == [] then [] else ForEvents(run, evs[..|evs| - 1]) + ForEvent(run, evs[|evs| - 1])
  }

  function Build(run: Id, sc: Scenario, evs: seq<GraphEvent>): seq<Write> {
    Seeds(run, sc) + ForEvents(run, evs)
  }

  // The run an edge belongs to.
  function RunOf(e: Element): Option<Id> {
    if IsNode(e) then None else Some(e.run)
  }

  function Reset(g: Graph, run: Id): Graph {
    map e | e in g && RunOf(e) != Some(run) && e != RunNode(run) :: g[e]
  }

  // -- the store as the program updates it ----------------------------------------------------------

  class GraphSync {
    var graph: Graph

    constructor ()
      ensures graph == map[]
    {
      graph := map[];
    }

    method ResetRun(run: Id)
      modifies this
      ensures graph == Reset(old(graph), run)
    {
      graph := map e | e in graph && RunOf(e) != Some(run) :: graph[e];
      graph := map e | e in graph && e != RunNode(run) :: graph[e];
    }

    // Executes the statements one by one; returns how many there were.
    method ApplyRun(run: Id, sc: Scenario, evs: seq<GraphEvent>) returns (n: nat)
      modifies this
      ensures graph == Apply(old(graph), Build(run, sc, evs))
      ensures n == 1 + |sc.cars| + |sc.hazards| + |evs|
    {
      var seeds := Seeds(run, sc);
      ApplyWrites(seeds);
      ghost var seeded := graph;
      for i := 0 to |evs|
        invariant graph == Apply(seeded, ForEvents(run, evs[..i]))
      {
        ApplyEvent(run, evs[i]);
        OneMoreEvent(seeded, run, evs, i);
      }
      assert evs[..|evs|] == evs;
      ApplyConcat(old(graph), seeds, ForEvents(run, evs));
      n := |seeds| + |evs|;
    }

    method ApplyEvent(run: Id, ev: GraphEvent)
      modifies this
      ensures graph == Apply(old(graph), ForEvent(run, ev))
    {
      ApplyWrites(ForEvent(run, ev));
    }

    method ApplyWrites(ws: seq<Write>)
      modifies this
      ensures graph == Apply(old(graph), ws)
    {
      for i := 0 to |ws|
        invariant graph == Apply(old(graph), ws[..i])
      {
        graph := Put(graph, ws[i]);
        assert ws[..i + 1][..i] == ws[..i];
      }
      assert ws[..|ws|] == ws;
    }
  }

  lemma OneMoreEvent(g: Graph, run: Id, evs: seq<GraphEvent>, i: nat)
    requires i < |evs|
    ensures Apply(g, ForEvents(run, evs[..i + 1])) == Apply(Apply(g, ForEvents(run, evs[..i])), ForEvent(run, evs[i]))
  {
    assert evs[..i + 1][..i] == evs[..i];
    ApplyConcat(g, ForEvents(run, evs[..i]), ForEvent(run, evs[i]));
  }

  lemma {:induction false} ApplyConcat(g: Graph, a: seq<Write>, b: seq<Write>)
    ensures Apply(g, a + b) == Apply(Apply(g, a), b)
  {
    if b == [] {
      assert a + b == a;
    } else {
      assert (a + b)[..|a + b| - 1] == a + b[..|b| - 1];
      ApplyConcat(g, a, b[..|b| - 1]);
    }
  }
}
