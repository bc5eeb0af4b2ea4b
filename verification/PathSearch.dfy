// Shortest delivery paths: the engine's multi-source breadth-first search, which stops as soon
// as it discovers the target and rebuilds the path from the predecessor map.
module PathSearch {
  import opened Basics

  type Adjacency = map<Id, seq<Id>>

  function Neighbours(adj: Adjacency, u: Id): seq<Id> {
    if u in adj then adj[u] else []
  }

  // -- what a delivery path is ------------------------------------------------------------------

  ghost predicate IsWalk(adj: Adjacency, p: seq<Id>) {
    forall i :: 0 <= i < |p| - 1 ==> p[i + 1] in Neighbours(adj, p[i])
  }

  // p leads from one of the sources to the target along edges of the graph.
  ghost predicate Joins(adj: Adjacency, sources: seq<Id>, target: Id, p: seq<Id>) {
    |p| >= 1 && p[0] in sources && p[|p| - 1] == target && IsWalk(adj, p)
  }

  ghost predicate Reachable(adj: Adjacency, sources: seq<Id>, target: Id) {
    exists p :: Joins(adj, sources, target, p)
  }

  // -- the search, step by step -----------------------------------------------------------------

  // queue and prev are the program's; dist (the number of hops from the nearest source) is only
  // there to reason about them.
  datatype Frontier = Frontier(queue: seq<Id>, prev: map<Id, Option<Id>>, dist: map<Id, nat>)

  datatype ScanResult = ScanResult(fr: Frontier, found: bool)

  function Start(sources: seq<Id>): Frontier {
    Frontier(sources, map s | s in sources :: None, map s | s in sources :: 0)
  }

  // One turn of the inner loop at u: look at the neighbour v.
  function Look(fr: Frontier, u: Id, target: Id, v: Id): ScanResult
    requires u in fr.dist
  {
    if v in fr.prev then ScanResult(fr, false)
    else
      var seen := fr.(prev := fr.prev[v := Some(u)], dist := fr.dist[v := fr.dist[u] + 1]);
      if v == target then ScanResult(seen, true)
      else ScanResult(seen.(queue := seen.queue + [v]), false)
  }

  // The inner loop over the neighbours of u, after it has looked at all of vs.
  function Scan(fr: Frontier, u: Id, target: Id, vs: seq<Id>): (r: ScanResult)
    requires u in fr.dist
    ensures u in r.fr.dist
  {
    if vs == [] then ScanResult(fr, false)
    else
      var r := Scan(fr, u, target, vs[..|vs| - 1]);
      if r.found then r else Look(r.fr, u, target, vs[|vs| - 1])
  }

  function Pop(fr: Frontier): Frontier
    requires fr.queue != []
  {
    fr.(queue := fr.queue[1..])
  }

  function Search(adj: Adjacency, sources: seq<Id>, target: Id, fr: Frontier): Option<seq<Id>>
    requires Ready(adj, sources, target, fr)
    decreases |Undiscovered(adj, fr)| + |fr.queue|
  {
    if fr.queue == [] then None
    else
      var u := fr.queue[0];
      PopStartsScan(adj, sources, target, fr);
      ScanKeeps(adj, sources, target, Pop(fr), u, Neighbours(adj, u));
      var r := Scan(Pop(fr), u, target, Neighbours(adj, u));
      if r.found then Some(Rebuild(adj, sources, r.fr, target))
      else
        ScanEnds(adj, sources, target, r.fr, u);
        Search(adj, sources, target, r.fr)
  }

  function Bfs(adj: Adjacency, sources: seq<Id>, target: Id): Option<seq<Id>> {
    if sources == [] then None
    else if target in sources then Some([target])
    else
      StartIsReady(adj, sources, target);
      Search(adj, sources, target, Start(sources))
  }

  // Following predecessors from v back to a source.
  function Rebuild(adj: Adjacency, sources: seq<Id>, fr: Frontier, v: Id): seq<Id>
    requires Tree(adj, sources, fr) && v in fr.prev
    decreases if v in fr.dist then fr.dist[v] else 0
  {
    assert Placed(adj, sources, fr, v);
    if fr.prev[v].None? then [v] else Rebuild(adj, sources, fr, fr.prev[v].value) + [v]
  }

  // -- the search invariant -----------------------------------------------------------------------

  // v is a source at level 0, or one level beyond the neighbour it was discovered from.
  ghost predicate Placed(adj: Adjacency, sources: seq<Id>, fr: Frontier, v: Id) {
    && v in fr.prev && v in fr.dist
    && if v in sources then fr.prev[v].None? && fr.dist[v] == 0
       else
         && fr.prev[v].Some?
         && var u := fr.prev[v].value;
            u in fr.prev && u in fr.dist && fr.dist[v] == fr.dist[u] + 1 && v in Neighbours(adj, u)
  }

  // The predecessor map is a forest of graph edges whose roots are the sources.
  ghost predicate Tree(adj: Adjacency, sources: seq<Id>, fr: Frontier) {
    && fr.dist.Keys == fr.prev.Keys
    && (forall s :: s in sources ==> s in fr.prev)
    && (forall v {:trigger Placed(adj, sources, fr, v)} :: v in fr.prev ==> Placed(adj, sources, fr, v))
  }

  // The queue holds discovered vertices of levels lo and lo + 1, in order.
  ghost predicate Levelled(fr: Frontier, lo: nat) {
    && (forall x :: x in fr.queue ==> x in fr.dist && lo <= fr.dist[x] <= lo + 1)
    && (forall i, j :: 0 <= i < j < |fr.queue| ==> fr.dist[fr.queue[i]] <= fr.dist[fr.queue[j]])
  }

  ghost predicate Expanded(fr: Frontier, w: Id, vs: seq<Id>) {
    w in fr.dist && forall v :: v in vs ==> v in fr.dist && fr.dist[v] <= fr.dist[w] + 1
  }

  // Everything discovered, no longer queued and different from u has been expanded, and lies no
  // further away than level hi.
  ghost predicate Closed(adj: Adjacency, fr: Frontier, u: Option<Id>, hi: nat) {
    forall w {:trigger Expanded(fr, w, Neighbours(adj, w))} ::
      w in fr.dist && w !in fr.queue && u != Some(w) ==>
        fr.dist[w] <= hi && Expanded(fr, w, Neighbours(adj, w))
  }

  // The state in which the inner loop has looked at the neighbours vs of u.
  ghost predicate Scanning(adj: Adjacency, sources: seq<Id>, target: Id, fr: Frontier, u: Id, vs: seq<Id>) {
    && Tree(adj, sources, fr)
    && target !in fr.prev
    && u in fr.dist
    && Levelled(fr, fr.dist[u])
    && Closed(adj, fr, Some(u), fr.dist[u])
    && Expanded(fr, u, vs)
  }

  // The state between two turns of the outer loop.
  ghost predicate Ready(adj: Adjacency, sources: seq<Id>, target: Id, fr: Frontier) {
    && Tree(adj, sources, fr)
    && target !in fr.prev
    && exists lo: nat :: Levelled(fr, lo) && Closed(adj, fr, None, lo)
         && (fr.queue != [] ==> fr.queue[0] in fr.dist && fr.dist[fr.queue[0]] >= lo)
  }

  ghost function Nodes(adj: Adjacency): set<Id> {
    set u, v | u in adj && v in adj[u] :: v
  }

  ghost function Undiscovered(adj: Adjacency, fr: Frontier): set<Id> {
    Nodes(adj) - fr.prev.Keys
  }

  lemma StartIsReady(adj: Adjacency, sources: seq<Id>, target: Id)
    requires target !in sources
    ensures Ready(adj, sources, target, Start(sources))
  {
    var fr := Start(sources);
    assert Levelled(fr, 0) && Closed(adj, fr, None, 0);
  }

  lemma PopStartsScan(adj: Adjacency, sources: seq<Id>, target: Id, fr: Frontier)
    requires Ready(adj, sources, target, fr) && fr.queue != []
    ensures Scanning(adj, sources, target, Pop(fr), fr.queue[0], [])
  {
    var lo: nat :| Levelled(fr, lo) && Closed(adj, fr, None, lo) && fr.dist[fr.queue[0]] >= lo;
    var u, q, g := fr.queue[0], fr.queue[1..], Pop(fr);
    assert fr.queue == [u] + q;
    TreeOf(adj, sources, fr, g);
    assert forall i :: 0 <= i < |q| ==> q[i] == fr.queue[i + 1];
    assert Levelled(g, fr.dist[u]);
    forall w | w in g.dist && w !in q && w != u
      ensures g.dist[w] <= fr.dist[u] && Expanded(g, w, Neighbours(adj, w))
    {
      assert Expanded(fr, w, Neighbours(adj, w));
    }
  }

  // Only the predecessor map and the levels matter to Tree.
  lemma TreeOf(adj: Adjacency, sources: seq<Id>, fr: Frontier, g: Frontier)
    requires Tree(adj, sources, fr) && g.prev == fr.prev && g.dist == fr.dist
    ensures Tree(adj, sources, g)
  {
    forall v | v in g.prev ensures Placed(adj, sources, g, v) {
      assert Placed(adj, sources, fr, v);
    }
  }

  lemma ScanEnds(adj: Adjacency, sources: seq<Id>, target: Id, fr: Frontier, u: Id)
    requires Scanning(adj, sources, target, fr, u, Neighbours(adj, u))
    ensures Ready(adj, sources, target, fr)
  {
    forall w | w in fr.dist && w !in fr.queue
      ensures fr.dist[w] <= fr.dist[u] && Expanded(fr, w, Neighbours(adj, w))
    {
      if w != u {
        assert Expanded(fr, w, Neighbours(adj, w));
      }
    }
    assert Closed(adj, fr, None, fr.dist[u]);
  }

  lemma LookKeepsTree(adj: Adjacency, sources: seq<Id>, target: Id, fr: Frontier, u: Id, v: Id)
    requires Tree(adj, sources, fr) && u in fr.dist && v in Neighbours(adj, u)
    ensures Tree(adj, sources, Look(fr, u, target, v).fr)
  {
    var g := Look(fr, u, target, v).fr;
    assert Placed(adj, sources, fr, u);
    forall w | w in g.prev ensures Placed(adj, sources, g, w) {
      if w != v || v in fr.prev {
        assert Placed(adj, sources, fr, w);
      }
    }
  }

  // Looking at one more neighbour, other than the target, keeps the scan going.
  lemma LookKeeps(adj: Adjacency, sources: seq<Id>, target: Id, fr: Frontier, u: Id, vs: seq<Id>, v: Id)
    requires Scanning(adj, sources, target, fr, u, vs)
    requires v in Neighbours(adj, u) && v != target
    ensures Scanning(adj, sources, target, Look(fr, u, target, v).fr, u, vs + [v])
  {
    var g := Look(fr, u, target, v).fr;
    LookKeepsTree(adj, sources, target, fr, u, v);
    if v in fr.prev {
      LevelBound(adj, sources, fr, u, v);
    } else {
      assert g.queue == fr.queue + [v];
      forall w | w in g.dist && w !in g.queue && w != u
        ensures g.dist[w] <= g.dist[u] && Expanded(g, w, Neighbours(adj, w))
      {
        assert v in g.queue;
        assert Expanded(fr, w, Neighbours(adj, w));
      }
    }
  }

  lemma LevelBound(adj: Adjacency, sources: seq<Id>, fr: Frontier, u: Id, v: Id)
    requires u in fr.dist && v in fr.dist && Levelled(fr, fr.dist[u]) && Closed(adj, fr, Some(u), fr.dist[u])
    ensures fr.dist[v] <= fr.dist[u] + 1
  {
    if v !in fr.queue && v != u {
      assert Expanded(fr, v, Neighbours(adj, v));
    }
  }

  lemma LookMeasure(adj: Adjacency, target: Id, fr: Frontier, u: Id, v: Id)
    requires u in fr.dist && v in Neighbours(adj, u) && v != target
    ensures var g := Look(fr, u, target, v).fr;
      |Undiscovered(adj, g)| + |g.queue| == |Undiscovered(adj, fr)| + |fr.queue|
  {
    var g := Look(fr, u, target, v).fr;
    if v !in fr.prev {
      assert v in Nodes(adj);
      assert Undiscovered(adj, g) == Undiscovered(adj, fr) - {v};
    }
  }

  // g is the state in which the search at u meets the target.
  ghost predicate Hit(adj: Adjacency, sources: seq<Id>, target: Id, fr: Frontier, u: Id, g: Frontier) {
    && (exists vs :: Scanning(adj, sources, target, fr, u, vs))
    && u in fr.dist && target in Neighbours(adj, u) && target !in fr.prev
    && g == Look(fr, u, target, target).fr
  }

  lemma {:induction false} ScanKeeps(adj: Adjacency, sources: seq<Id>, target: Id, fr: Frontier, u: Id, vs: seq<Id>)
    requires Scanning(adj, sources, target, fr, u, [])
    requires forall v :: v in vs ==> v in Neighbours(adj, u)
    ensures var r := Scan(fr, u, target, vs);
      && (!r.found ==>
            && Scanning(adj, sources, target, r.fr, u, vs)
            && |Undiscovered(adj, r.fr)| + |r.fr.queue| == |Undiscovered(adj, fr)| + |fr.queue|)
      && (r.found ==> Tree(adj, sources, r.fr) && exists g :: Hit(adj, sources, target, g, u, r.fr))
  {
    if vs != [] {
      var ws, v := vs[..|vs| - 1], vs[|vs| - 1];
      assert vs == ws + [v];
      ScanKeeps(adj, sources, target, fr, u, ws);
      var r := Scan(fr, u, target, ws);
      if !r.found {
        if v == target {
          LookKeepsTree(adj, sources, target, r.fr, u, v);
          assert Hit(adj, sources, target, r.fr, u, Look(r.fr, u, target, v).fr);
        } else {
          LookKeeps(adj, sources, target, r.fr, u, ws, v);
          LookMeasure(adj, target, r.fr, u, v);
        }
      }
    }
  }

  // -- what the search returns --------------------------------------------------------------------

  // The rebuilt path climbs one level per hop, from a source to v.
  lemma {:induction false} RebuildClimbs(adj: Adjacency, sources: seq<Id>, fr: Frontier, v: Id)
    requires Tree(adj, sources, fr) && v in fr.prev
    ensures var p := Rebuild(adj, sources, fr, v);
      && |p| == fr.dist[v] + 1
      && Joins(adj, sources, v, p)
      && forall i :: 0 <= i < |p| ==> p[i] in fr.dist && fr.dist[p[i]] == i && (p[i] in sources <==> i == 0)
    decreases fr.dist[v]
  {
    assert Placed(adj, sources, fr, v);
    if fr.prev[v].Some? {
      var u := fr.prev[v].value;
      RebuildClimbs(adj, sources, fr, u);
      var p := Rebuild(adj, sources, fr, u);
      assert Rebuild(adj, sources, fr, v) == p + [v];
    }
  }

  // While the search is at u, a walk from a source can have come no further than it has hops.
  lemma {:induction false} WalkLags(adj: Adjacency, sources: seq<Id>, target: Id, fr: Frontier, u: Id, vs: seq<Id>,
                                    p: seq<Id>, i: nat)
    requires Scanning(adj, sources, target, fr, u, vs)
    requires |p| >= 1 && p[0] in sources && IsWalk(adj, p)
    requires i < |p| && i <= fr.dist[u]
    ensures p[i] in fr.dist && fr.dist[p[i]] <= i
  {
    if i == 0 {
      assert Placed(adj, sources, fr, p[0]);
    } else {
      WalkLags(adj, sources, target, fr, u, vs, p, i - 1);
      assert Expanded(fr, p[i - 1], Neighbours(adj, p[i - 1]));
    }
  }

  // Once the queue is empty no walk from a source leaves the discovered vertices.
  lemma {:induction false} WalkStaysInside(adj: Adjacency, sources: seq<Id>, target: Id, fr: Frontier, p: seq<Id>,
                                           i: nat)
    requires Ready(adj, sources, target, fr) && fr.queue == []
    requires |p| >= 1 && p[0] in sources && IsWalk(adj, p) && i < |p|
    ensures p[i] in fr.dist
  {
    if i > 0 {
      WalkStaysInside(adj, sources, target, fr, p, i - 1);
      var lo: nat :| Levelled(fr, lo) && Closed(adj, fr, None, lo);
      assert Expanded(fr, p[i - 1], Neighbours(adj, p[i - 1]));
    }
  }

  // p is a delivery path to the target: from a source, over other cars only, as short as possible.
  ghost predicate IsShortest(adj: Adjacency, sources: seq<Id>, target: Id, p: seq<Id>) {
    && Joins(adj, sources, target, p)
    && Distinct(p)
    && (forall i :: 1 <= i < |p| ==> p[i] !in sources)
    && (forall w :: Joins(adj, sources, target, w) ==> |p| <= |w|)
  }

  lemma HitIsShortest(adj: Adjacency, sources: seq<Id>, target: Id, fr: Frontier, u: Id, g: Frontier)
    requires Hit(adj, sources, target, fr, u, g) && Tree(adj, sources, g)
    ensures IsShortest(adj, sources, target, Rebuild(adj, sources, g, target))
  {
    var p := Rebuild(adj, sources, g, target);
    RebuildClimbs(adj, sources, g, target);
    var vs :| Scanning(adj, sources, target, fr, u, vs);
    forall w | Joins(adj, sources, target, w) ensures |p| <= |w| {
      if |w| < |p| {
        WalkLags(adj, sources, target, fr, u, vs, w, |w| - 1);
        assert false;
      }
    }
  }

  lemma {:induction false} SearchCorrect(adj: Adjacency, sources: seq<Id>, target: Id, fr: Frontier)
    requires Ready(adj, sources, target, fr)
    ensures match Search(adj, sources, target, fr)
      case None => !Reachable(adj, sources, target)
      case Some(p) => IsShortest(adj, sources, target, p)
    decreases |Undiscovered(adj, fr)| + |fr.queue|
  {
    if fr.queue == [] {
      forall p | Joins(adj, sources, target, p) ensures false {
        WalkStaysInside(adj, sources, target, fr, p, |p| - 1);
      }
    } else {
      var u := fr.queue[0];
      PopStartsScan(adj, sources, target, fr);
      ScanKeeps(adj, sources, target, Pop(fr), u, Neighbours(adj, u));
      var r := Scan(Pop(fr), u, target, Neighbours(adj, u));
      if r.found {
        var g :| Hit(adj, sources, target, g, u, r.fr);
        HitIsShortest(adj, sources, target, g, u, r.fr);
      } else {
        ScanEnds(adj, sources, target, r.fr, u);
        SearchCorrect(adj, sources, target, r.fr);
      }
    }
  }

  // The search fails exactly when no source reaches the target, and otherwise returns a simple
  // path of minimum length whose only source is its first car.
  lemma BfsCorrect(adj: Adjacency, sources: seq<Id>, target: Id)
    ensures Bfs(adj, sources, target).None? <==> !Reachable(adj, sources, target)
    ensures Bfs(adj, sources, target).Some? ==>
      IsShortest(adj, sources, target, Bfs(adj, sources, target).value)
  {
    if target in sources {
      assert Joins(adj, sources, target, [target]);
    } else if sources != [] {
      StartIsReady(adj, sources, target);
      SearchCorrect(adj, sources, target, Start(sources));
      var r := Search(adj, sources, target, Start(sources));
      if r.Some? {
        assert Joins(adj, sources, target, r.value);
      }
    }
  }

  // -- the program's loops ------------------------------------------------------------------------

  method BfsPath(adj: Adjacency, sources: seq<Id>, target: Id) returns (r: Option<seq<Id>>)
    ensures r == Bfs(adj, sources, target)
    ensures r.None? <==> !Reachable(adj, sources, target)
    ensures r.Some? ==> IsShortest(adj, sources, target, r.value)
  {
    BfsCorrect(adj, sources, target);
    if sources == [] {
      return None;
    }
    var q, prev, trivial := Enqueue(sources, target);
    if trivial {
      return Some([target]);
    }
    ghost var dist := Start(sources).dist;
    StartIsReady(adj, sources, target);
    while q != []
      invariant Ready(adj, sources, target, Frontier(q, prev, dist))
      invariant Bfs(adj, sources, target) == Search(adj, sources, target, Frontier(q, prev, dist))
      decreases |Undiscovered(adj, Frontier(q, prev, dist))| + |q|
    {
      ghost var fr := Frontier(q, prev, dist);
      var u := q[0];
      PopStartsScan(adj, sources, target, fr);
      ScanKeeps(adj, sources, target, Pop(fr), u, Neighbours(adj, u));
      var found;
      q, prev, dist, found := ScanNeighbours(q[1..], prev, dist, u, target, Neighbours(adj, u));
      if found {
        var path := RebuildPath(adj, sources, Frontier(q, prev, dist), prev, target);
        return Some(path);
      }
      ScanEnds(adj, sources, target, Frontier(q, prev, dist), u);
    }
    return None;
  }

  // The loop over the sources, left early when one of them is the target.
  method Enqueue(sources: seq<Id>, target: Id) returns (q: seq<Id>, prev: map<Id, Option<Id>>, trivial: bool)
    ensures trivial <==> target in sources
    ensures !trivial ==> q == Start(sources).queue && prev == Start(sources).prev
  {
    q, prev, trivial := [], map[], false;
    for i := 0 to |sources|
      invariant target !in sources[..i]
      invariant q == sources[..i]
      invariant prev == map s | s in sources[..i] :: None
    {
      if sources[i] == target {
        return q, prev, true;
      }
      q := q + [sources[i]];
      prev := prev[sources[i] := None];
    }
    assert sources[..|sources|] == sources;
  }

  // The inner loop over the neighbours of u, left early when it meets the target.
  method ScanNeighbours(q0: seq<Id>, prev0: map<Id, Option<Id>>, ghost dist0: map<Id, nat>, u: Id, target: Id,
                        vs: seq<Id>)
    returns (q: seq<Id>, prev: map<Id, Option<Id>>, ghost dist: map<Id, nat>, found: bool)
    requires u in dist0
    ensures ScanResult(Frontier(q, prev, dist), found) == Scan(Frontier(q0, prev0, dist0), u, target, vs)
    ensures found ==> target in prev
  {
    q, prev, dist := q0, prev0, dist0;
    for i := 0 to |vs|
      invariant u in dist
      invariant Scan(Frontier(q0, prev0, dist0), u, target, vs[..i]) == ScanResult(Frontier(q, prev, dist), false)
    {
      var v := vs[i];
      assert vs[..i + 1][..i] == vs[..i];
      if v in prev {
        continue;
      }
      prev := prev[v := Some(u)];
      dist := dist[v := dist[u] + 1];
      if v == target {
        ScanStops(Frontier(q0, prev0, dist0), u, target, vs, i + 1);
        return q, prev, dist, true;
      }
      q := q + [v];
    }
    assert vs[..|vs|] == vs;
    found := false;
  }

  // Once the target has been met the rest of the neighbours do not matter.
  lemma {:induction false} ScanStops(fr: Frontier, u: Id, target: Id, vs: seq<Id>, k: nat)
    requires u in fr.dist && k <= |vs| && Scan(fr, u, target, vs[..k]).found
    ensures Scan(fr, u, target, vs) == Scan(fr, u, target, vs[..k])
  {
    if k < |vs| {
      assert vs[..|vs| - 1][..k] == vs[..k];
      ScanStops(fr, u, target, vs[..|vs| - 1], k);
    } else {
      assert vs[..k] == vs;
    }
  }

  method RebuildPath(adj: Adjacency, sources: seq<Id>, ghost fr: Frontier, prev: map<Id, Option<Id>>, v: Id)
    returns (path: seq<Id>)
    requires Tree(adj, sources, fr) && prev == fr.prev && v in prev
    ensures path == Rebuild(adj, sources, fr, v)
  {
    var back := [v];
    assert Placed(adj, sources, fr, v);
    while prev[back[|back| - 1]].Some?
      invariant back != [] && back[|back| - 1] in prev
      invariant Rebuild(adj, sources, fr, v)
        == Rebuild(adj, sources, fr, back[|back| - 1]) + Reverse(back[..|back| - 1])
      invariant Placed(adj, sources, fr, back[|back| - 1])
      decreases fr.dist[back[|back| - 1]]
    {
      var w := back[|back| - 1];
      var u := prev[w].value;
      assert Placed(adj, sources, fr, u);
      assert (back + [u])[..|back|] == back;
      back := back + [u];
    }
    path := Reverse(back);
  }
}
