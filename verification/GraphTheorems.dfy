// What the sync guarantees: an interrupted sync can simply be run again, runs do not disturb each
// other, and a log produced by the engine loses nothing on its way into the graph.
module GraphTheorems {
  import opened Basics
  import opened Events
  import opened GraphStore

  // -- each element on its own ----------------------------------------------------------------------

  // Everything that ws does to the element e, provided every MATCH succeeds.
  ghost function Track(ws: seq<Write>, e: Element, p: Option<Props>): Option<Props> {
    if ws == [] then p
    else
      var q := Track(ws[..|ws| - 1], e, p);
      var w := ws[|ws| - 1];
      if w.e == e then Some(Merged(q, w)) else q
  }

  ghost function FirstT(ws: seq<Write>, e: Element): Option<real> {
    if ws == [] then None
    else
      var w := ws[|ws| - 1];
      Coalesce(FirstT(ws[..|ws| - 1], e), if w.e == e then w.t else None)
  }

  ghost function LastAttrs(ws: seq<Write>, e: Element): Option<Attrs> {
    if ws == [] then None
    else
      var w := ws[|ws| - 1];
      Coalesce(if w.e == e then w.attrs else None, LastAttrs(ws[..|ws| - 1], e))
  }

  ghost predicate Touches(ws: seq<Write>, e: Element) {
    exists i :: 0 <= i < |ws| && ws[i].e == e
  }

  // First write wins for t, last write wins for the rest.
  lemma {:induction false} TrackClosed(ws: seq<Write>, e: Element, p: Option<Props>)
    ensures Track(ws, e, p) ==
      if !Touches(ws, e) then p
      else
        var base := if p.Some? then p.value else Props(None, Bare);
        Some(Props(Coalesce(base.t, FirstT(ws, e)), Coalesce(LastAttrs(ws, e), Some(base.attrs)).value))
    ensures !Touches(ws, e) ==> FirstT(ws, e).None? && LastAttrs(ws, e).None?
  {
    if ws != [] {
      var us, w := ws[..|ws| - 1], ws[|ws| - 1];
      TrackClosed(us, e, p);
      if Touches(us, e) {
        var i :| 0 <= i < |us| && us[i].e == e;
        assert ws[i].e == e;
      }
      if w.e == e {
        assert ws[|ws| - 1].e == e;
      } else if Touches(ws, e) {
        var i :| 0 <= i < |ws| && ws[i].e == e;
        assert us[i].e == e;
      }
    }
  }

  lemma {:induction false} FirstTPrefix(ws: seq<Write>, k: nat, e: Element)
    requires k <= |ws|
    ensures FirstT(ws[..k], e).Some? ==> FirstT(ws, e) == FirstT(ws[..k], e)
    ensures LastAttrs(ws[..k], e).Some? ==> LastAttrs(ws, e).Some?
    ensures Touches(ws[..k], e) ==> Touches(ws, e)
  {
    if k == |ws| {
      assert ws[..k] == ws;
    } else {
      var us := ws[..|ws| - 1];
      assert us[..k] == ws[..k];
      FirstTPrefix(us, k, e);
      if Touches(us, e) {
        var i :| 0 <= i < |us| && us[i].e == e;
        assert ws[i].e == e;
      }
    }
  }

  // Running a prefix first makes no difference to any element.
  lemma TrackReplay(ws: seq<Write>, k: nat, e: Element, p: Option<Props>)
    requires k <= |ws|
    ensures Track(ws, e, Track(ws[..k], e, p)) == Track(ws, e, p)
  {
    var q := Track(ws[..k], e, p);
    TrackClosed(ws[..k], e, p);
    TrackClosed(ws, e, p);
    TrackClosed(ws, e, q);
    FirstTPrefix(ws, k, e);
  }

  // -- lists whose endpoints are always there ---------------------------------------------------

  // No MATCH of ws fails when ws is applied to a graph that has the elements of base.
  ghost predicate Grounded(base: set<Element>, ws: seq<Write>) {
    forall i :: 0 <= i < |ws| ==> Ends(ws[i].e) <= base + Written(ws[..i])
  }

  ghost function Written(ws: seq<Write>): set<Element> {
    set w | w in ws :: w.e
  }

  lemma PutFacts(g: Graph, w: Write, e: Element)
    requires Ends(w.e) <= g.Keys
    ensures Put(g, w).Keys == g.Keys + {w.e}
    ensures Lookup(Put(g, w), e) == if w.e == e then Some(Merged(Lookup(g, e), w)) else Lookup(g, e)
  {
  }

  lemma LastGrounded(base: set<Element>, ws: seq<Write>)
    requires Grounded(base, ws) && ws != []
    ensures Grounded(base, ws[..|ws| - 1])
    ensures Ends(ws[|ws| - 1].e) <= base + Written(ws[..|ws| - 1])
    ensures Written(ws) == Written(ws[..|ws| - 1]) + {ws[|ws| - 1].e}
  {
    GroundedPrefix(base, ws, |ws| - 1);
    assert ws == ws[..|ws| - 1] + [ws[|ws| - 1]];
    WrittenConcat(ws[..|ws| - 1], [ws[|ws| - 1]]);
  }

  lemma {:induction false} GroundedKeys(g: Graph, ws: seq<Write>)
    requires Grounded(g.Keys, ws)
    ensures Apply(g, ws).Keys == g.Keys + Written(ws)
  {
    if ws != [] {
      LastGrounded(g.Keys, ws);
      GroundedKeys(g, ws[..|ws| - 1]);
      PutFacts(Apply(g, ws[..|ws| - 1]), ws[|ws| - 1], RunNode(""));
    }
  }

  lemma {:induction false} GroundedTracks(g: Graph, ws: seq<Write>, e: Element)
    requires Grounded(g.Keys, ws)
    ensures Lookup(Apply(g, ws), e) == Track(ws, e, Lookup(g, e))
  {
    if ws != [] {
      LastGrounded(g.Keys, ws);
      GroundedTracks(g, ws[..|ws| - 1], e);
      GroundedKeys(g, ws[..|ws| - 1]);
      PutFacts(Apply(g, ws[..|ws| - 1]), ws[|ws| - 1], e);
    }
  }

  lemma WrittenConcat(a: seq<Write>, b: seq<Write>)
    ensures Written(a + b) == Written(a) + Written(b)
    ensures forall w :: Written([w]) == {w.e}
  {
    assert forall w :: w in a + b <==> w in a || w in b;
    forall w ensures Written([w]) == {w.e} {
      assert w in [w];
    }
  }

  lemma GroundedMore(base: set<Element>, more: set<Element>, ws: seq<Write>)
    requires Grounded(base, ws) && base <= more
    ensures Grounded(more, ws)
  {
  }

  lemma GroundedPrefix(base: set<Element>, ws: seq<Write>, k: nat)
    requires Grounded(base, ws) && k <= |ws|
    ensures Grounded(base, ws[..k])
  {
    forall i | 0 <= i < k ensures Ends(ws[..k][i].e) <= base + Written(ws[..k][..i]) {
      assert ws[..k][..i] == ws[..i];
    }
  }

  // An interrupted sync recovers: any prefix of the writes followed by all of them gives the graph
  // that all of them give at once.
  lemma ReplayGrounded(g: Graph, ws: seq<Write>, k: nat)
    requires Grounded(g.Keys, ws) && k <= |ws|
    ensures Apply(Apply(g, ws[..k]), ws) == Apply(g, ws)
  {
    GroundedPrefix(g.Keys, ws, k);
    GroundedKeys(g, ws[..k]);
    var m := Apply(g, ws[..k]);
    GroundedMore(g.Keys, m.Keys, ws);
    forall e ensures Lookup(Apply(m, ws), e) == Lookup(Apply(g, ws), e) {
      GroundedTracks(g, ws[..k], e);
      GroundedTracks(m, ws, e);
      GroundedTracks(g, ws, e);
      TrackReplay(ws, k, e, Lookup(g, e));
    }
    SameLookups(Apply(m, ws), Apply(g, ws));
  }

  lemma SameLookups(a: Graph, b: Graph)
    requires forall e :: Lookup(a, e) == Lookup(b, e)
    ensures a == b
  {
    forall e ensures e in a <==> e in b {
      assert Lookup(a, e) == Lookup(b, e);
    }
    forall e | e in a ensures a[e] == b[e] {
      assert Lookup(a, e) == Lookup(b, e);
    }
  }

  // -- the statements of a run are grounded -------------------------------------------------------

  // The scenario seeds the endpoints the event refers to. Trust events bring their own.
  ghost predicate Seeded(sc: Scenario, ev: GraphEvent) {
    ev.fact.Trusts? || Ends(EdgeFor("", KeyOf(ev.fact))) <= SeedNodes(sc)
  }

  ghost predicate AllSeeded(sc: Scenario, evs: seq<GraphEvent>) {
    forall i :: 0 <= i < |evs| ==> Seeded(sc, evs[i])
  }

  ghost function SeedNodes(sc: Scenario): set<Element> {
    (set c | c in sc.cars :: CarNode(c.id)) + (set h | h in sc.hazards :: HazardNode(h.id))
  }

  lemma SeedsWritten(run: Id, sc: Scenario)
    ensures Written(Seeds(run, sc)) == {RunNode(run)} + SeedNodes(sc)
    ensures Grounded({}, Seeds(run, sc))
  {
    var ws := Seeds(run, sc);
    forall e | e in SeedNodes(sc) + {RunNode(run)} ensures e in Written(ws) {
      if e == RunNode(run) {
        assert ws[0] in ws;
      } else if e.CarNode? {
        var c :| c in sc.cars && CarNode(c.id) == e;
        var i :| 0 <= i < |sc.cars| && sc.cars[i] == c;
        assert ws[1 + i] in ws;
      } else {
        var h :| h in sc.hazards && HazardNode(h.id) == e;
        var i :| 0 <= i < |sc.hazards| && sc.hazards[i] == h;
        assert ws[1 + |sc.cars| + i] in ws;
      }
    }
  }

  lemma GroundedConcat(base: set<Element>, a: seq<Write>, b: seq<Write>)
    requires Grounded(base, a) && Grounded(base + Written(a), b)
    ensures Grounded(base, a + b)
  {
    forall i | 0 <= i < |a + b| ensures Ends((a + b)[i].e) <= base + Written((a + b)[..i]) {
      if i < |a| {
        assert (a + b)[..i] == a[..i];
      } else {
        assert (a + b)[..i] == a + b[..i - |a|];
        WrittenConcat(a, b[..i - |a|]);
      }
    }
  }

  lemma EventGrounded(base: set<Element>, run: Id, sc: Scenario, ev: GraphEvent)
    requires SeedNodes(sc) <= base && Seeded(sc, ev)
    ensures Grounded(base, ForEvent(run, ev))
  {
    var ws := ForEvent(run, ev);
    if ev.fact.Trusts? {
      forall i | 0 <= i < |ws| ensures Ends(ws[i].e) <= base + Written(ws[..i]) {
        if i >= 2 {
          assert ws[0] in ws[..i] && ws[1] in ws[..i];
        }
      }
    } else {
      assert Ends(EdgeFor(run, KeyOf(ev.fact))) == Ends(EdgeFor("", KeyOf(ev.fact)));
    }
  }

  lemma {:induction false} EventsGrounded(base: set<Element>, run: Id, sc: Scenario, evs: seq<GraphEvent>)
    requires SeedNodes(sc) <= base && AllSeeded(sc, evs)
    ensures Grounded(base, ForEvents(run, evs))
  {
    if evs != [] {
      var rest, ev := evs[..|evs| - 1], evs[|evs| - 1];
      EventsGrounded(base, run, sc, rest);
      EventGrounded(base + Written(ForEvents(run, rest)), run, sc, ev);
      GroundedConcat(base, ForEvents(run, rest), ForEvent(run, ev));
    }
  }

  lemma BuildGrounded(base: set<Element>, run: Id, sc: Scenario, evs: seq<GraphEvent>)
    requires AllSeeded(sc, evs)
    ensures Grounded(base, Build(run, sc, evs))
  {
    SeedsWritten(run, sc);
    GroundedMore({}, base, Seeds(run, sc));
    EventsGrounded(base + Written(Seeds(run, sc)), run, sc, evs);
    GroundedConcat(base, Seeds(run, sc), ForEvents(run, evs));
  }

  // A sync of a run that stopped anywhere is completed by running it again from the start; in
  // particular a full replay changes nothing.
  lemma InterruptedSyncRecovers(g: Graph, run: Id, sc: Scenario, evs: seq<GraphEvent>, k: nat)
    requires AllSeeded(sc, evs)
    requires k <= |Build(run, sc, evs)|
    ensures var ws := Build(run, sc, evs);
      Apply(Apply(g, ws[..k]), ws) == Apply(g, ws)
  {
    BuildGrounded(g.Keys, run, sc, evs);
    ReplayGrounded(g, Build(run, sc, evs), k);
  }

  // -- runs do not disturb each other ---------------------------------------------------------------

  // Whatever the events are, the writes of a run never touch another run's edges or node.
  ghost predicate Foreign(run: Id, e: Element) {
    (RunOf(e).Some? && RunOf(e) != Some(run)) || (e.RunNode? && e.id != run)
  }

  lemma {:induction false} EventsTouchOwnRun(run: Id, evs: seq<GraphEvent>, e: Element)
    requires Foreign(run, e)
    ensures forall i :: 0 <= i < |ForEvents(run, evs)| ==> ForEvents(run, evs)[i].e != e
  {
    if evs != [] {
      EventsTouchOwnRun(run, evs[..|evs| - 1], e);
    }
  }

  lemma {:induction false} UntouchedStays(g: Graph, ws: seq<Write>, e: Element)
    requires forall i :: 0 <= i < |ws| ==> ws[i].e != e
    ensures Lookup(Apply(g, ws), e) == Lookup(g, e)
  {
    if ws != [] {
      UntouchedStays(g, ws[..|ws| - 1], e);
    }
  }

  lemma OtherRunsUntouched(g: Graph, run: Id, sc: Scenario, evs: seq<GraphEvent>, e: Element)
    requires Foreign(run, e)
    ensures Lookup(Apply(Reset(g, run), Build(run, sc, evs)), e) == Lookup(g, e)
  {
    EventsTouchOwnRun(run, evs, e);
    UntouchedStays(Reset(g, run), Build(run, sc, evs), e);
  }

  // After a reset the edges of the run depend on its events alone, whatever the graph held before.
  lemma RerunStartsClean(g1: Graph, g2: Graph, run: Id, sc: Scenario, evs: seq<GraphEvent>, e: Element)
    requires AllSeeded(sc, evs)
    requires RunOf(e) == Some(run)
    ensures Lookup(Apply(Reset(g1, run), Build(run, sc, evs)), e)
      == Lookup(Apply(Reset(g2, run), Build(run, sc, evs)), e)
  {
    var ws := Build(run, sc, evs);
    BuildGrounded(Reset(g1, run).Keys, run, sc, evs);
    BuildGrounded(Reset(g2, run).Keys, run, sc, evs);
    GroundedTracks(Reset(g1, run), ws, e);
    GroundedTracks(Reset(g2, run), ws, e);
  }
}
