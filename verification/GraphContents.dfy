// What the graph says about a synced run, kind by kind: every event of the log with its own time and values,
// nothing that was not logged, and the scenario's names on the nodes.
module GraphContents {
  import opened Basics
  import opened Events
  import opened Awareness
  import opened AwarenessInvariant
  import opened GraphStore
  import opened GraphTheorems
  import opened EngineGraph

  // -- events that are reported once ------------------------------------------------------------------

  // The edge of the event is there, with the event's time and values.
  ghost predicate IsStored(g: Graph, run: Id, ev: GraphEvent) {
    var t := Some(ev.t);
    match ev.fact
    case Observed(c, h, d) => Lookup(g, ObservedEdge(run, c, h)) == Some(Props(t, Sighted(d)))
    case BlindTo(c, h, why, d) => Lookup(g, BlindToEdge(run, c, h)) == Some(Props(t, Unsighted(why, d)))
    case Heard(r, s, h, report, relayed) =>
      Lookup(g, BeaconedEdge(run, s, r, h)) == Some(Props(t, Beacon(report, relayed)))
    case RelayedBy(c, h, s, d) => Lookup(g, RelayedEdge(run, c, h, d)) == Some(Props(t, RelayFrom(s)))
    case AwareOf(c, h, via, path, hops) => Lookup(g, AwareOfEdge(run, c, h)) == Some(Props(t, Knows(via, hops, path)))
    case BrakedFor(c, h, d, cause) => Lookup(g, BrakedForEdge(run, c, h)) == Some(Props(t, Stopped(d, cause)))
    case Trusts(a, b) =>
      Lookup(g, TrustsEdge(run, a, b)) == Some(Props(None, Bare)) == Lookup(g, TrustsEdge(run, b, a))
    case UnawareRisk(c, h, _) => AtRiskEdge(run, c, h) in g
  }

  // The event is what the edge says, whatever else it says.
  ghost predicate Makes(f: Fact, run: Id, e: Element) {
    match e
    case RunNode(_) => false
    case CarNode(_) => false
    case HazardNode(_) => false
    case TrustsEdge(n, a, b) => n == run && (f == Trusts(a, b) || f == Trusts(b, a))
    case ObservedEdge(n, c, h) => n == run && f.Observed? && f.car == c && f.hazard == h
    case BlindToEdge(n, c, h) => n == run && f.BlindTo? && f.car == c && f.hazard == h
    case BeaconedEdge(n, s, r, h) => n == run && f.Heard? && f.sender == s && f.receiver == r && f.hazard == h
    case RelayedEdge(n, c, h, d) => n == run && f.RelayedBy? && f.relay == c && f.hazard == h && f.dest == d
    case AwareOfEdge(n, c, h) => n == run && f.AwareOf? && f.car == c && f.hazard == h
    case BrakedForEdge(n, c, h) => n == run && f.BrakedFor? && f.car == c && f.hazard == h
    case AtRiskEdge(n, c, h) => n == run && f.UnawareRisk? && f.car == c && f.hazard == h
  }

  ghost predicate MadeBy(evs: seq<GraphEvent>, run: Id, e: Element) {
    exists i :: 0 <= i < |evs| && Makes(evs[i].fact, run, e)
  }

  // -- what the events write to an edge -------------------------------------------------------------------

  lemma OneTouches(run: Id, ev: GraphEvent, e: Element)
    requires !IsNode(e)
    ensures Touches(ForEvent(run, ev), e) <==> Makes(ev.fact, run, e)
  {
    var ws := ForEvent(run, ev);
    if ev.fact.Trusts? {
      assert ws[2].e == TrustsEdge(run, ev.fact.a, ev.fact.b) && ws[3].e == TrustsEdge(run, ev.fact.b, ev.fact.a);
    } else {
      assert ws[0].e == EdgeFor(run, KeyOf(ev.fact));
    }
  }

  lemma TouchesConcat(a: seq<Write>, b: seq<Write>, e: Element)
    ensures Touches(a + b, e) <==> Touches(a, e) || Touches(b, e)
  {
    var ws := a + b;
    if Touches(a, e) {
      var i :| 0 <= i < |a| && a[i].e == e;
      assert ws[i].e == e;
    }
    if Touches(b, e) {
      var i :| 0 <= i < |b| && b[i].e == e;
      assert ws[|a| + i].e == e;
    }
  }

  lemma MadeByLast(evs: seq<GraphEvent>, run: Id, e: Element)
    requires evs != []
    ensures MadeBy(evs, run, e) <==> MadeBy(evs[..|evs| - 1], run, e) || Makes(evs[|evs| - 1].fact, run, e)
  {
    if MadeBy(evs[..|evs| - 1], run, e) {
      var i :| 0 <= i < |evs| - 1 && Makes(evs[..|evs| - 1][i].fact, run, e);
      assert Makes(evs[i].fact, run, e);
    }
    if MadeBy(evs, run, e) {
      var i :| 0 <= i < |evs| && Makes(evs[i].fact, run, e);
      assert i < |evs| - 1 ==> Makes(evs[..|evs| - 1][i].fact, run, e);
    }
  }

  lemma {:induction false} EventsTouch(run: Id, evs: seq<GraphEvent>, e: Element)
    requires !IsNode(e)
    ensures Touches(ForEvents(run, evs), e) <==> MadeBy(evs, run, e)
  {
    if evs != [] {
      var front, last := evs[..|evs| - 1], evs[|evs| - 1];
      EventsTouch(run, front, e);
      OneTouches(run, last, e);
      TouchesConcat(ForEvents(run, front), ForEvent(run, last), e);
      MadeByLast(evs, run, e);
    }
  }

  // An edge of the run is in the graph exactly when an event of the log says so.
  lemma EdgeWasLogged(g: Graph, run: Id, sc: Scenario, log: seq<GraphEvent>, e: Element)
    requires AllSeeded(sc, log) && NoEdgesOf(g, run) && RunOf(e) == Some(run)
    ensures e in Synced(g, run, sc, log) <==> MadeBy(log, run, e)
  {
    EdgeOfRun(g, run, sc, log, e);
    TrackClosed(ForEvents(run, log), e, None);
    EventsTouch(run, log, e);
  }

  // -- every event is stored --------------------------------------------------------------------------

  // Trust has no time and no values.
  lemma {:induction false} TrustIsBare(run: Id, evs: seq<GraphEvent>, a: Id, b: Id)
    ensures var p := Track(ForEvents(run, evs), TrustsEdge(run, a, b), None); p.Some? ==> p.value == Props(None, Bare)
  {
    if evs != [] {
      var e, front, last := TrustsEdge(run, a, b), evs[..|evs| - 1], evs[|evs| - 1];
      TrustIsBare(run, front, a, b);
      TrackConcat(ForEvents(run, front), ForEvent(run, last), e, None);
      OneTrustIsBare(run, last, a, b, Track(ForEvents(run, front), e, None));
    }
  }

  lemma OneTrustIsBare(run: Id, ev: GraphEvent, a: Id, b: Id, p: Option<Props>)
    requires p.Some? ==> p.value == Props(None, Bare)
    ensures var q := Track(ForEvent(run, ev), TrustsEdge(run, a, b), p); q.Some? ==> q.value == Props(None, Bare)
  {
    BlankWrites(ForEvent(run, ev), TrustsEdge(run, a, b), p);
  }

  lemma {:induction false} BlankWrites(ws: seq<Write>, e: Element, p: Option<Props>)
    requires forall i :: 0 <= i < |ws| && ws[i].e == e ==> ws[i].t.None? && ws[i].attrs.None?
    requires p.Some? ==> p.value == Props(None, Bare)
    ensures var q := Track(ws, e, p); q.Some? ==> q.value == Props(None, Bare)
  {
    if ws != [] {
      BlankWrites(ws[..|ws| - 1], e, p);
    }
  }

  // Every event of a run on the scenario is in the graph, under its own edge and with its own time and values;
  // a trust pair in both directions.
  lemma SyncLosesNothing(g: Graph, run: Id, sc: Scenario, w: World, cars: seq<Id>, trusts: seq<(Id, Id)>,
                         ticks: seq<Tick>, i: nat)
    requires RunsOn(sc, cars, ticks) && NoEdgesOf(g, run)
    requires i < |Run(w, cars, trusts, ticks).log|
    ensures var log := Run(w, cars, trusts, ticks).log; IsStored(Synced(g, run, sc, log), run, log[i])
  {
    var log := Run(w, cars, trusts, ticks).log;
    RunKeeps(w, cars, trusts, ticks);
    RunIsSeeded(sc, w, cars, trusts, ticks);
    EventIsStored(g, run, sc, log, i);
  }

  lemma EventIsStored(g: Graph, run: Id, sc: Scenario, log: seq<GraphEvent>, i: nat)
    requires OnceOnly(log) && AllSeeded(sc, log) && NoEdgesOf(g, run) && i < |log|
    ensures IsStored(Synced(g, run, sc, log), run, log[i])
  {
    var f, s := log[i].fact, Synced(g, run, sc, log);
    match f
    case Trusts(a, b) =>
      TrustIsStored(g, run, sc, log, i, a, b);
      TrustIsStored(g, run, sc, log, i, b, a);
    case UnawareRisk(c, h, _) =>
      assert Makes(f, run, AtRiskEdge(run, c, h));
      EdgeWasLogged(g, run, sc, log, AtRiskEdge(run, c, h));
    case _ => EdgeIsEvent(g, run, sc, log, KeyOf(f));
  }

  lemma TrustIsStored(g: Graph, run: Id, sc: Scenario, log: seq<GraphEvent>, i: nat, a: Id, b: Id)
    requires AllSeeded(sc, log) && NoEdgesOf(g, run)
    requires i < |log| && (log[i].fact == Trusts(a, b) || log[i].fact == Trusts(b, a))
    ensures Lookup(Synced(g, run, sc, log), TrustsEdge(run, a, b)) == Some(Props(None, Bare))
  {
    var e := TrustsEdge(run, a, b);
    assert Makes(log[i].fact, run, e);
    EdgeWasLogged(g, run, sc, log, e);
    EdgeOfRun(g, run, sc, log, e);
    TrustIsBare(run, log, a, b);
  }

  // -- risks, which repeat ----------------------------------------------------------------------------

  ghost predicate IsRisk(log: seq<GraphEvent>, i: int, c: Id, h: Id) {
    0 <= i < |log| && log[i].fact.UnawareRisk? && log[i].fact.car == c && log[i].fact.hazard == h
  }

  lemma OneRisk(run: Id, ev: GraphEvent, c: Id, h: Id, p: Option<Props>)
    ensures Track(ForEvent(run, ev), AtRiskEdge(run, c, h), p) ==
      if ev.fact.UnawareRisk? && ev.fact.car == c && ev.fact.hazard == h then
        Some(Props(if p.Some? && p.value.t.Some? then p.value.t else Some(ev.t), Sighted(ev.fact.distance)))
      else p
  {
    var ws, e := ForEvent(run, ev), AtRiskEdge(run, c, h);
    if Makes(ev.fact, run, e) {
      assert ws == [ws[0]] && ws[..0] == [];
      assert Track(ws[..0], e, p) == p;
    } else {
      OneTouches(run, ev, e);
      UntouchedTrack(ws, e, p);
    }
  }

  ghost function RiskTrack(run: Id, evs: seq<GraphEvent>, c: Id, h: Id): Option<Props> {
    Track(ForEvents(run, evs), AtRiskEdge(run, c, h), None)
  }

  lemma RiskLast(run: Id, evs: seq<GraphEvent>, c: Id, h: Id)
    requires evs != []
    ensures var p, ev := RiskTrack(run, evs[..|evs| - 1], c, h), evs[|evs| - 1];
      RiskTrack(run, evs, c, h) ==
        if IsRisk(evs, |evs| - 1, c, h) then
          Some(Props(if p.Some? && p.value.t.Some? then p.value.t else Some(ev.t), Sighted(ev.fact.distance)))
        else p
  {
    var front, ev, e := evs[..|evs| - 1], evs[|evs| - 1], AtRiskEdge(run, c, h);
    TrackConcat(ForEvents(run, front), ForEvent(run, ev), e, None);
    OneRisk(run, ev, c, h, RiskTrack(run, front, c, h));
  }

  lemma {:induction false} NoRisk(run: Id, evs: seq<GraphEvent>, c: Id, h: Id)
    requires forall i :: 0 <= i < |evs| ==> !IsRisk(evs, i, c, h)
    ensures RiskTrack(run, evs, c, h).None?
  {
    if evs != [] {
      var front := evs[..|evs| - 1];
      RiskLast(run, evs, c, h);
      forall i | 0 <= i < |front| ensures !IsRisk(front, i, c, h) {
        assert !IsRisk(evs, i, c, h);
      }
      NoRisk(run, front, c, h);
    }
  }

  lemma {:induction false} FirstRiskTimes(run: Id, evs: seq<GraphEvent>, c: Id, h: Id, i: nat)
    requires IsRisk(evs, i, c, h) && forall j :: 0 <= j < i ==> !IsRisk(evs, j, c, h)
    ensures RiskTrack(run, evs, c, h).Some? && RiskTrack(run, evs, c, h).value.t == Some(evs[i].t)
  {
    var front := evs[..|evs| - 1];
    RiskLast(run, evs, c, h);
    forall j | 0 <= j < i ensures !IsRisk(front, j, c, h) {
      assert !IsRisk(evs, j, c, h);
    }
    if i < |evs| - 1 {
      FirstRiskTimes(run, front, c, h, i);
    } else {
      NoRisk(run, front, c, h);
    }
  }

  lemma {:induction false} LastRiskTells(run: Id, evs: seq<GraphEvent>, c: Id, h: Id, i: nat)
    requires IsRisk(evs, i, c, h) && forall j :: i < j < |evs| ==> !IsRisk(evs, j, c, h)
    ensures RiskTrack(run, evs, c, h).Some? && RiskTrack(run, evs, c, h).value.attrs == Sighted(evs[i].fact.distance)
  {
    RiskLast(run, evs, c, h);
    if i < |evs| - 1 {
      var front := evs[..|evs| - 1];
      assert !IsRisk(evs, |evs| - 1, c, h);
      forall j | i < j < |front| ensures !IsRisk(front, j, c, h) {
        assert !IsRisk(evs, j, c, h);
      }
      LastRiskTells(run, front, c, h, i);
    }
  }

  // A car at risk is marked with the time of the first report and the distance of the last one.
  lemma RiskIsStored(g: Graph, run: Id, sc: Scenario, log: seq<GraphEvent>, c: Id, h: Id, first: nat, last: nat)
    requires AllSeeded(sc, log) && NoEdgesOf(g, run) && IsRisk(log, first, c, h) && IsRisk(log, last, c, h)
    requires forall j :: 0 <= j < |log| && IsRisk(log, j, c, h) ==> first <= j <= last
    ensures Lookup(Synced(g, run, sc, log), AtRiskEdge(run, c, h))
      == Some(Props(Some(log[first].t), Sighted(log[last].fact.distance)))
  {
    EdgeOfRun(g, run, sc, log, AtRiskEdge(run, c, h));
    FirstRiskTimes(run, log, c, h, first);
    LastRiskTells(run, log, c, h, last);
  }

  // -- the nodes --------------------------------------------------------------------------------------

  // The text shown for something: its caption, or its id if there is none.
  predicate IsShownAs(caption: Option<string>, id: Id, text: string) {
    if caption.None? || caption == Some("") then text == id else caption == Some(text)
  }

  // The k-th write names the element and no later one does.
  ghost predicate LastNames(ws: seq<Write>, k: nat, e: Element) {
    && k < |ws| && ws[k].e == e && ws[k].attrs.Some?
    && forall j :: k < j < |ws| && ws[j].e == e ==> ws[j].attrs.None?
  }

  lemma {:induction false} LastNameStays(ws: seq<Write>, k: nat, e: Element)
    requires LastNames(ws, k, e)
    ensures LastAttrs(ws, e) == ws[k].attrs && Touches(ws, e)
  {
    if k < |ws| - 1 {
      LastNameStays(ws[..|ws| - 1], k, e);
    }
  }

  lemma {:induction false} EventsNameNothing(run: Id, evs: seq<GraphEvent>)
    ensures forall i :: 0 <= i < |ForEvents(run, evs)| && IsNode(ForEvents(run, evs)[i].e) ==>
      ForEvents(run, evs)[i].attrs.None?
  {
    if evs != [] {
      EventsNameNothing(run, evs[..|evs| - 1]);
    }
  }

  lemma NameStays(g: Graph, run: Id, sc: Scenario, log: seq<GraphEvent>, k: nat)
    requires AllSeeded(sc, log) && k < |Seeds(run, sc)| && LastNames(Seeds(run, sc), k, Seeds(run, sc)[k].e)
    ensures var e := Seeds(run, sc)[k].e;
      e in Synced(g, run, sc, log) && Some(Synced(g, run, sc, log)[e].attrs) == Seeds(run, sc)[k].attrs
  {
    var e, ws := Seeds(run, sc)[k].e, Build(run, sc, log);
    EventsNameNothing(run, log);
    SeedsAreNodes(run, sc);
    assert ws[k] == Seeds(run, sc)[k];
    forall j | k < j < |ws| && ws[j].e == e ensures ws[j].attrs.None? {
      if j < |Seeds(run, sc)| {
        assert ws[j] == Seeds(run, sc)[j];
      } else {
        assert ws[j] == ForEvents(run, log)[j - |Seeds(run, sc)|];
      }
    }
    LastNameStays(ws, k, e);
    BuildGrounded(g.Keys, run, sc, log);
    GroundedTracks(g, ws, e);
    TrackClosed(ws, e, Lookup(g, e));
  }

  // The run, and of several cars (or hazards) with one id the last, is in the graph as the scenario has it.
  lemma RunIsNamed(g: Graph, run: Id, sc: Scenario, log: seq<GraphEvent>)
    requires AllSeeded(sc, log)
    ensures var s := Synced(g, run, sc, log); RunNode(run) in s && s[RunNode(run)].attrs == RunInfo(sc.name, sc.fog)
  {
    NameStays(g, run, sc, log, 0);
  }

  lemma CarIsNamed(g: Graph, run: Id, sc: Scenario, log: seq<GraphEvent>, i: nat, text: string)
    requires AllSeeded(sc, log) && i < |sc.cars| && IsShownAs(sc.cars[i].caption, sc.cars[i].id, text)
    requires forall j :: i < j < |sc.cars| ==> sc.cars[j].id != sc.cars[i].id
    ensures var s, e := Synced(g, run, sc, log), CarNode(sc.cars[i].id); e in s && s[e].attrs == Label(text)
  {
    NameStays(g, run, sc, log, 1 + i);
  }

  lemma HazardIsNamed(g: Graph, run: Id, sc: Scenario, log: seq<GraphEvent>, i: nat, text: string)
    requires AllSeeded(sc, log) && i < |sc.hazards| && IsShownAs(sc.hazards[i].caption, sc.hazards[i].id, text)
    requires forall j :: i < j < |sc.hazards| ==> sc.hazards[j].id != sc.hazards[i].id
    ensures var s, e := Synced(g, run, sc, log), HazardNode(sc.hazards[i].id);
      e in s && s[e].attrs == HazardInfo(sc.hazards[i].kind, text)
  {
    NameStays(g, run, sc, log, 1 + |sc.cars| + i);
  }

  // -- the reset ----------------------------------------------------------------------------------------

  // A reset takes away the run's node and the edges that carry its id, and nothing else.
  lemma ResetMeans(g: Graph, run: Id, e: Element)
    ensures Lookup(Reset(g, run), e) ==
      if e == RunNode(run) || (!e.RunNode? && !e.CarNode? && !e.HazardNode? && e.run == run) then None
      else Lookup(g, e)
  {
  }
}
