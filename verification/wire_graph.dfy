/**
 * `p06/src/main.rs`, wire by wire: a wire's segments are cut at the crossing points, turned
 * into a graph whose nodes are the segments' end points, and searched from the origin with
 * Dijkstra's method for the walking distance to each crossing.
 */
module WireGraphs {
  import opened Util
  import opened CrossedWires
  import opened WireCuts

  /** The points of `cuts` strictly inside `s`, in the order of `cuts`. */
  function OnSegment(s: WireSegment, cuts: seq<Point>): seq<Point>
  {
    if cuts == [] then []
    else OnSegment(s, cuts[..|cuts| - 1]) + (if IsOnSegment(s, cuts[|cuts| - 1]) then [cuts[|cuts| - 1]] else [])
  }

  /** The points kept are exactly the given points strictly inside the segment. */
  lemma {:induction false} OnSegmentMeaning(s: WireSegment, cuts: seq<Point>)
    ensures forall p :: p in OnSegment(s, cuts) <==> p in cuts && Interior(s, p)
  {
    if cuts != [] {
      var init := cuts[..|cuts| - 1];
      OnSegmentMeaning(s, init);
      assert cuts == init + [cuts[|cuts| - 1]];
    }
  }

  /** What the first loop of `Wire::cut_at` collects: each segment that holds cut points, with those points. */
  function CutPlan(segments: set<WireSegment>, cuts: seq<Point>): map<WireSegment, seq<Point>>
  {
    map s | s in segments && OnSegment(s, cuts) != [] :: OnSegment(s, cuts)
  }

  /** The entry for one segment once the points `cuts` have been looked at. */
  function PlanOf(s: WireSegment, cuts: seq<Point>): map<WireSegment, seq<Point>>
  {
    if OnSegment(s, cuts) == [] then map[] else map[s := OnSegment(s, cuts)]
  }

  /** Looking at one more point `p` of the segment `s` pushes it onto the entry of `s` when `s` holds it. */
  lemma PlanStep(plan: map<WireSegment, seq<Point>>, s: WireSegment, seen: seq<Point>, p: Point)
    requires s !in plan
    ensures var now := plan + PlanOf(s, seen);
      IsOnSegment(s, p) ==> now[s := (if s in now then now[s] else []) + [p]] == plan + PlanOf(s, seen + [p])
    ensures !IsOnSegment(s, p) ==> plan + PlanOf(s, seen) == plan + PlanOf(s, seen + [p])
  {
    assert (seen + [p])[..|seen|] == seen && (seen + [p])[|seen|] == p;
    if !IsOnSegment(s, p) {
      assert OnSegment(s, seen + [p]) == OnSegment(s, seen) + [];
      assert OnSegment(s, seen) + [] == OnSegment(s, seen);
    }
  }

  lemma PlanGrows(done: set<WireSegment>, s: WireSegment, cuts: seq<Point>)
    requires s !in done
    ensures CutPlan(done + {s}, cuts) == CutPlan(done, cuts) + PlanOf(s, cuts)
  {
  }

  /**
   * The first loop of `Wire::cut_at`: for each segment and each cut point in order, a point
   * the segment holds is pushed onto that segment's entry.
   */
  method PlanCuts(segments: set<WireSegment>, cuts: seq<Point>) returns (toCut: map<WireSegment, seq<Point>>)
    ensures toCut == CutPlan(segments, cuts)
  {
    toCut := map[];
    var remaining := segments;
    while remaining != {}
      invariant remaining <= segments
      invariant toCut == CutPlan(segments - remaining, cuts)
      decreases remaining
    {
      var seg :| seg in remaining;
      ghost var done := segments - remaining;
      for j := 0 to |cuts|
        invariant toCut == CutPlan(done, cuts) + PlanOf(seg, cuts[..j])
      {
        var p := cuts[j];
        assert cuts[..j + 1] == cuts[..j] + [p];
        PlanStep(CutPlan(done, cuts), seg, cuts[..j], p);
        if IsOnSegment(seg, p) {
          toCut := toCut[seg := (if seg in toCut then toCut[seg] else []) + [p]];
        }
      }
      assert cuts[..|cuts|] == cuts;
      PlanGrows(done, seg, cuts);
      remaining := remaining - {seg};
      assert segments - remaining == done + {seg};
    }
    assert segments - remaining == segments;
  }

  /** Every segment of `before` that the plan does not cut is still in `after`. */
  ghost predicate Kept(before: set<WireSegment>, after: set<WireSegment>, plan: map<WireSegment, seq<Point>>)
  {
    forall s :: s in before && s !in plan ==> s in after
  }

  /**
   * Every segment of `after` is a segment of `before` not yet cut (not in the plan, or still
   * `pending`), or a piece of a segment already cut.
   */
  ghost predicate Sourced(before: set<WireSegment>, after: set<WireSegment>, plan: map<WireSegment, seq<Point>>, pending: set<WireSegment>)
  {
    forall s :: s in after ==>
      (s in before && (s !in plan || s in pending)) || exists c :: c in plan && c !in pending && s in Cut(c, plan[c])
  }

  /** Every piece of a segment already cut is in `after`, unless it is a planned segment that was cut itself. */
  ghost predicate Placed(after: set<WireSegment>, plan: map<WireSegment, seq<Point>>, pending: set<WireSegment>)
  {
    forall c, q :: c in plan && c !in pending && q in Cut(c, plan[c]) ==> q in after || (q in plan && q !in pending)
  }

  /** Replacing one pending segment by its pieces keeps the three facts. */
  lemma CutStep(before: set<WireSegment>, segments: set<WireSegment>, plan: map<WireSegment, seq<Point>>, pending: set<WireSegment>, seg: WireSegment)
    requires seg in pending && pending <= segments && pending <= plan.Keys
    requires Kept(before, segments, plan) && Sourced(before, segments, plan, pending) && Placed(segments, plan, pending)
    ensures var after := (segments - {seg}) + (set q | q in Cut(seg, plan[seg]));
      Kept(before, after, plan) && Sourced(before, after, plan, pending - {seg}) && Placed(after, plan, pending - {seg})
  {
    var after := (segments - {seg}) + (set q | q in Cut(seg, plan[seg]));
    forall s | s in after
      ensures (s in before && (s !in plan || s in pending - {seg})) || exists c :: c in plan && c !in pending - {seg} && s in Cut(c, plan[c])
    {
      if s in Cut(seg, plan[seg]) {
        assert seg in plan && seg !in pending - {seg};
      }
    }
  }

  /** An edge of the graph: the length of a segment and the end point it leads to. */
  datatype WireEdge = WireEdge(length: nat, neighbor: Point)

  /** `WireGraph`: the edges leaving each end point. */
  type WireGraph = map<Point, set<WireEdge>>

  /** The segment `s` gives the edge `e` at the point `p`: from one end to the other, weighted by its length. */
  ghost predicate Joins(s: WireSegment, p: Point, e: WireEdge)
  {
    (p == s.start && e == WireEdge(Abs(s.length), End(s))) || (p == End(s) && e == WireEdge(Abs(s.length), s.start))
  }

  /** Both edges of `s` are in the graph. */
  ghost predicate HasEdges(g: WireGraph, s: WireSegment)
  {
    s.start in g && End(s) in g
    && WireEdge(Abs(s.length), End(s)) in g[s.start] && WireEdge(Abs(s.length), s.start) in g[End(s)]
  }

  /** Every edge of the graph comes from one of the segments, and no point is without edges. */
  ghost predicate Explained(g: WireGraph, segments: set<WireSegment>)
  {
    (forall p, e :: p in g && e in g[p] ==> exists s :: s in segments && Joins(s, p, e))
    && forall p :: p in g ==> g[p] != {}
  }

  /** `map.entry(p).or_default().insert(e)`. */
  function AddEdge(g: WireGraph, p: Point, e: WireEdge): (h: WireGraph)
    ensures h.Keys == g.Keys + {p} && e in h[p]
    ensures forall q, d :: q in g && d in g[q] ==> d in h[q]
    ensures forall q, d :: q in h && d in h[q] ==> (q == p && d == e) || (q in g && d in g[q])
  {
    g[p := (if p in g then g[p] else {}) + {e}]
  }

  lemma AddEdgeKeeps(g: WireGraph, segments: set<WireSegment>, s: WireSegment, p: Point, e: WireEdge)
    requires Explained(g, segments) && s in segments && Joins(s, p, e)
    ensures Explained(AddEdge(g, p, e), segments)
  {
  }

  /** `Wire`: the set of its segments, which `cut_at` changes in place. */
  class Wire {
    var segments: set<WireSegment>

    constructor (segments: set<WireSegment>)
      ensures this.segments == segments
    {
      this.segments := segments;
    }

    /**
     * `Wire::cut_at`: each segment holding cut points is removed and its pieces are added, one
     * segment after the other. Segments without a cut point stay, every piece of a cut segment
     * is in the wire unless it is itself a segment that was cut, and nothing else is.
     */
    method CutAt(cutPoints: seq<Point>)
      modifies this
      ensures Kept(old(segments), segments, CutPlan(old(segments), cutPoints))
      ensures Sourced(old(segments), segments, CutPlan(old(segments), cutPoints), {})
      ensures Placed(segments, CutPlan(old(segments), cutPoints), {})
    {
      var toCut := PlanCuts(segments, cutPoints);
      var pending := toCut.Keys;
      while pending != {}
        invariant pending <= toCut.Keys && pending <= segments
        invariant Kept(old(segments), segments, toCut)
        invariant Sourced(old(segments), segments, toCut, pending)
        invariant Placed(segments, toCut, pending)
        decreases pending
      {
        var seg :| seg in pending;
        assert seg in segments;
        var pieces := CutSegment(seg, toCut[seg]);
        CutStep(old(segments), segments, toCut, pending, seg);
        segments := (segments - {seg}) + (set q | q in pieces);
        pending := pending - {seg};
      }
    }

    /**
     * `to_graph`: every segment gives an edge from its start to its end and one back, weighted
     * by its length; the graph holds those edges and no others.
     */
    method ToGraph() returns (g: WireGraph)
      ensures forall s :: s in segments ==> HasEdges(g, s)
      ensures Explained(g, segments)
    {
      g := map[];
      var remaining := segments;
      while remaining != {}
        invariant remaining <= segments
        invariant forall s :: s in segments && s !in remaining ==> HasEdges(g, s)
        invariant Explained(g, segments)
        decreases remaining
      {
        var seg :| seg in remaining;
        var start := seg.start;
        var len := Abs(seg.length);
        var end := Reverse(seg).start;
        AddEdgeKeeps(g, segments, seg, start, WireEdge(len, end));
        g := AddEdge(g, start, WireEdge(len, end));
        AddEdgeKeeps(g, segments, seg, end, WireEdge(len, start));
        g := AddEdge(g, end, WireEdge(len, start));
        remaining := remaining - {seg};
      }
    }
  }

  /** Where a walk from the origin along the edges `w` arrives. */
  function Arrival(w: seq<WireEdge>): Point
  {
    if w == [] then ORIGIN else w[|w| - 1].neighbor
  }

  /** The total length of the edges `w`. */
  function Weight(w: seq<WireEdge>): nat
  {
    if w == [] then 0 else Weight(w[..|w| - 1]) + w[|w| - 1].length
  }

  /** `w` is a walk from the origin: each edge leaves the point the ones before it arrive at. */
  ghost predicate IsWalk(g: WireGraph, w: seq<WireEdge>)
  {
    w == [] || (IsWalk(g, w[..|w| - 1]) && Arrival(w[..|w| - 1]) in g && w[|w| - 1] in g[Arrival(w[..|w| - 1])])
  }

  /** Some walk from the origin arrives at `p` after length `d`. */
  ghost predicate Reached(g: WireGraph, p: Point, d: nat)
  {
    exists w :: IsWalk(g, w) && Arrival(w) == p && Weight(w) == d
  }

  lemma Extend(g: WireGraph, p: Point, d: nat, e: WireEdge)
    requires Reached(g, p, d) && p in g && e in g[p]
    ensures Reached(g, e.neighbor, d + e.length)
  {
    var w :| IsWalk(g, w) && Arrival(w) == p && Weight(w) == d;
    var longer := w + [e];
    assert longer[..|longer| - 1] == w;
    assert IsWalk(g, longer) && Arrival(longer) == e.neighbor && Weight(longer) == d + e.length;
  }

  lemma LeastInSet(edges: set<WireEdge>)
    requires edges != {}
    ensures exists c :: c in edges && forall d :: d in edges ==> c.length <= d.length
    decreases edges
  {
    var x :| x in edges;
    if edges != {x} {
      LeastInSet(edges - {x});
      var c :| c in edges - {x} && forall d :: d in edges - {x} ==> c.length <= d.length;
      if x.length < c.length {
        assert forall d :: d in edges ==> x.length <= d.length;
      } else {
        assert forall d :: d in edges ==> c.length <= d.length;
      }
    }
  }

  /** A multiset of candidate edges that is not empty has one of least length, the one `BinaryHeap::pop` gives. */
  lemma LeastExists(m: multiset<WireEdge>)
    requires m != multiset{}
    ensures exists c :: c in m && forall d :: d in m ==> c.length <= d.length
  {
    var x :| x in m;
    var support := set d | d in m;
    assert x in support;
    LeastInSet(support);
  }

  /** The panics of `dijkstra`, each naming the point it is about where there is one. */
  datatype GraphError = MissingTarget(point: Point) | OriginUnconnected | NoNeighbors(point: Point) | Unreached(point: Point)

  /** Each point with a distance is reached by a walk of that length. */
  ghost predicate Sound(g: WireGraph, dist: map<Point, nat>)
  {
    forall p :: p in dist ==> Reached(g, p, dist[p])
  }

  /** Each candidate edge ends a walk of its length. */
  ghost predicate SoundCandidates(g: WireGraph, candidates: multiset<WireEdge>)
  {
    forall c :: c in candidates ==> Reached(g, c.neighbor, c.length)
  }

  /** The edges of `visit`, each lengthened by `d`, end walks of their lengths when `visit` is reached after `d`. */
  lemma Offer(g: WireGraph, visit: Point, d: nat, candidates: multiset<WireEdge>, edge: WireEdge)
    requires SoundCandidates(g, candidates) && Reached(g, visit, d) && visit in g && edge in g[visit]
    ensures SoundCandidates(g, candidates + multiset{WireEdge(d + edge.length, edge.neighbor)})
  {
    Extend(g, visit, d, edge);
  }

  lemma SoundAdd(g: WireGraph, dist: map<Point, nat>, visit: Point, d: nat)
    requires Sound(g, dist) && Reached(g, visit, d)
    ensures Sound(g, dist[visit := d])
  {
  }

  /** Fixing the distance of one more node leaves fewer nodes without one. */
  lemma Fewer(nodes: set<Point>, visited: set<Point>, visit: Point)
    requires visit in nodes && visit !in visited
    ensures |nodes - (visited + {visit})| < |nodes - visited|
  {
    assert nodes - (visited + {visit}) == (nodes - visited) - {visit};
  }

  /** Some candidate leads to `q`. */
  ghost predicate Pending(candidates: multiset<WireEdge>, q: Point)
  {
    exists c :: c in candidates && c.neighbor == q
  }

  /** Every edge leaving a point with a distance leads to a point with a distance or to a candidate. */
  ghost predicate Covered(g: WireGraph, dist: map<Point, nat>, candidates: multiset<WireEdge>)
  {
    forall p, e :: p in dist && p in g && e in g[p] ==> e.neighbor in dist || Pending(candidates, e.neighbor)
  }

  /** Dropping a candidate whose point already has a distance keeps every edge covered. */
  lemma CoveredPop(g: WireGraph, dist: map<Point, nat>, candidates: multiset<WireEdge>, current: WireEdge)
    requires Covered(g, dist, candidates) && current in candidates && current.neighbor in dist
    ensures Covered(g, dist, candidates - multiset{current})
  {
    forall p, e | p in dist && p in g && e in g[p] && e.neighbor !in dist
      ensures Pending(candidates - multiset{current}, e.neighbor)
    {
      var c :| c in candidates && c.neighbor == e.neighbor;
      assert c != current && c in candidates - multiset{current};
    }
  }

  /** Fixing the distance of the popped candidate's point and offering its edges keeps every edge covered. */
  lemma CoveredVisit(g: WireGraph, dist: map<Point, nat>, candidates: multiset<WireEdge>, current: WireEdge,
                     more: multiset<WireEdge>)
    requires Covered(g, dist, candidates) && current in candidates && current.neighbor in g
    requires candidates - multiset{current} <= more
    requires forall e :: e in g[current.neighbor] ==> WireEdge(current.length + e.length, e.neighbor) in more
    ensures Covered(g, dist[current.neighbor := current.length], more)
  {
    var visit := current.neighbor;
    var dist' := dist[visit := current.length];
    forall p, e | p in dist' && p in g && e in g[p] && e.neighbor !in dist'
      ensures Pending(more, e.neighbor)
    {
      if p == visit {
        assert WireEdge(current.length + e.length, e.neighbor) in more;
      } else {
        var c :| c in candidates && c.neighbor == e.neighbor;
        assert c != current && c in candidates - multiset{current};
      }
    }
  }

  /** With no candidate left, every walk from the origin ends at a point with a distance. */
  lemma {:induction false} WalkArrives(g: WireGraph, dist: map<Point, nat>, w: seq<WireEdge>)
    requires Covered(g, dist, multiset{}) && ORIGIN in dist && IsWalk(g, w)
    ensures Arrival(w) in dist
    decreases |w|
  {
    if w != [] {
      var front := w[..|w| - 1];
      WalkArrives(g, dist, front);
      assert w[|w| - 1] in g[Arrival(front)];
      assert !Pending(multiset{}, w[|w| - 1].neighbor);
    }
  }

  /** With no candidate left, every point reachable from the origin has a distance. */
  lemma ReachedHasDistance(g: WireGraph, dist: map<Point, nat>)
    requires Covered(g, dist, multiset{}) && ORIGIN in dist
    ensures forall p, d :: Reached(g, p, d) ==> p in dist
  {
    forall p, d | Reached(g, p, d)
      ensures p in dist
    {
      var w :| IsWalk(g, w) && Arrival(w) == p && Weight(w) == d;
      WalkArrives(g, dist, w);
    }
  }

  /** The inner loop of `dijkstra`: each edge of `visit`, lengthened by `d`, joins the candidates. */
  method PushEdges(g: WireGraph, visit: Point, d: nat, candidates: multiset<WireEdge>) returns (more: multiset<WireEdge>)
    requires visit in g && Reached(g, visit, d) && SoundCandidates(g, candidates)
    ensures SoundCandidates(g, more)
    ensures candidates <= more
    ensures forall c :: c in more ==> c in candidates || exists e :: e in g[visit] && c == WireEdge(d + e.length, e.neighbor)
    ensures forall e :: e in g[visit] ==> WireEdge(d + e.length, e.neighbor) in more
  {
    more := candidates;
    var edges := g[visit];
    while edges != {}
      invariant edges <= g[visit]
      invariant SoundCandidates(g, more) && candidates <= more
      invariant forall c :: c in more ==> c in candidates || exists e :: e in g[visit] && c == WireEdge(d + e.length, e.neighbor)
      invariant Offered(g[visit] - edges, d, more)
      decreases edges
    {
      var edge :| edge in edges;
      Offer(g, visit, d, more, edge);
      OfferedAdd(g[visit] - edges, d, more, edge);
      assert (g[visit] - edges) + {edge} == g[visit] - (edges - {edge});
      more := more + multiset{WireEdge(d + edge.length, edge.neighbor)};
      edges := edges - {edge};
    }
  }

  /** Each edge of `done`, lengthened by `d`, is a candidate. */
  ghost predicate Offered(done: set<WireEdge>, d: nat, candidates: multiset<WireEdge>)
  {
    forall e :: e in done ==> WireEdge(d + e.length, e.neighbor) in candidates
  }

  lemma OfferedAdd(done: set<WireEdge>, d: nat, candidates: multiset<WireEdge>, edge: WireEdge)
    requires Offered(done, d, candidates)
    ensures Offered(done + {edge}, d, candidates + multiset{WireEdge(d + edge.length, edge.neighbor)})
  {
  }

  /** The popped candidate is the first to reach its point: the point's edges, lengthened by it, join the other candidates. */
  method Visit(g: WireGraph, dist: map<Point, nat>, candidates: multiset<WireEdge>, current: WireEdge)
    returns (more: multiset<WireEdge>)
    requires current in candidates && current.neighbor in g && Covered(g, dist, candidates)
    requires Reached(g, current.neighbor, current.length) && SoundCandidates(g, candidates - multiset{current})
    ensures SoundCandidates(g, more)
    ensures Covered(g, dist[current.neighbor := current.length], more)
  {
    more := PushEdges(g, current.neighbor, current.length, candidates - multiset{current});
    CoveredVisit(g, dist, candidates, current, more);
  }

  /**
   * One turn of the loop of `dijkstra`: the candidate of least length is popped, and when it
   * is the first to reach its point, it fixes the point's distance and the point's edges,
   * lengthened by it, join the candidates. Either one more node has its distance, or nothing
   * but the popped candidate changes.
   */
  method Step(g: WireGraph, dist: map<Point, nat>, candidates: multiset<WireEdge>)
    returns (failed: Option<GraphError>, dist': map<Point, nat>, candidates': multiset<WireEdge>)
    requires candidates != multiset{} && Sound(g, dist) && SoundCandidates(g, candidates) && dist.Keys <= g.Keys
    requires Covered(g, dist, candidates)
    ensures failed.None? ==> Sound(g, dist') && SoundCandidates(g, candidates') && dist'.Keys <= g.Keys
    ensures failed.None? ==> Covered(g, dist', candidates')
    ensures failed.None? ==> forall p :: p in dist ==> p in dist' && dist'[p] == dist[p]
    ensures failed.None? ==> |g.Keys - dist'.Keys| < |g.Keys - dist.Keys| || (dist' == dist && |candidates'| < |candidates|)
    ensures failed.Some? ==> failed.value.NoNeighbors? && failed.value.point !in g
    ensures failed.Some? ==> exists d :: Reached(g, failed.value.point, d)
  {
    LeastExists(candidates);
    var current :| current in candidates && forall c :: c in candidates ==> current.length <= c.length;
    assert Reached(g, current.neighbor, current.length);
    candidates' := candidates - multiset{current};
    dist' := dist;
    failed := None;
    var visit := current.neighbor;
    if visit !in dist {
      SoundAdd(g, dist, visit, current.length);
      dist' := dist[visit := current.length];
      if visit !in g {
        return Some(NoNeighbors(visit)), dist', candidates';
      }
      Fewer(g.Keys, dist.Keys, visit);
      candidates' := Visit(g, dist, candidates, current);
    } else {
      CoveredPop(g, dist, candidates, current);
    }
  }

  /**
   * The loop of `dijkstra`: starting from the origin's edges, turns of the loop until no
   * candidate is left; each point with a distance is reached by a walk of that length, and
   * every point a walk reaches has a distance.
   */
  method Search(g: WireGraph) returns (r: Result<map<Point, nat>, GraphError>)
    ensures r.Ok? ==> ORIGIN in r.value && r.value[ORIGIN] == 0 && Sound(g, r.value)
    ensures r.Ok? ==> forall p, d :: Reached(g, p, d) ==> p in r.value
    ensures r == Err(OriginUnconnected) <==> ORIGIN !in g
    ensures r.Err? && r.error.NoNeighbors? ==> r.error.point !in g && exists d :: Reached(g, r.error.point, d)
    ensures r.Err? ==> r.error == OriginUnconnected || r.error.NoNeighbors?
  {
    var dist: map<Point, nat> := map[ORIGIN := 0];
    if ORIGIN !in g {
      return Err(OriginUnconnected);
    }
    var candidates := multiset(g[ORIGIN]);
    assert IsWalk(g, []) && Weight([]) == 0;
    forall c | c in candidates ensures Reached(g, c.neighbor, c.length) {
      Extend(g, ORIGIN, 0, c);
    }
    forall p, e | p in dist && p in g && e in g[p] && e.neighbor !in dist
      ensures Pending(candidates, e.neighbor)
    {
      assert e in candidates;
    }
    while candidates != multiset{}
      invariant ORIGIN in dist && dist[ORIGIN] == 0 && ORIGIN in g
      invariant Sound(g, dist) && SoundCandidates(g, candidates) && dist.Keys <= g.Keys
      invariant Covered(g, dist, candidates)
      decreases |g.Keys - dist.Keys|, |candidates|
    {
      var failed;
      failed, dist, candidates := Step(g, dist, candidates);
      if failed.Some? {
        return Err(failed.value);
      }
    }
    ReachedHasDistance(g, dist);
    return Ok(dist);
  }

  /**
   * `WireGraph::dijkstra`: every target must be a node, and the result has one distance per
   * target, in the order of the targets, each the length of a walk from the origin to the
   * target, and 0 for the origin.  `Everything is connected!` fails only for a target no walk
   * reaches, and `Has to have neighbors!` only for a reachable point that has no edges.
   */
  method Dijkstra(g: WireGraph, targets: seq<Point>) returns (r: Result<seq<nat>, GraphError>)
    ensures (exists i :: 0 <= i < |targets| && targets[i] !in g) ==> r.Err? && r.error.MissingTarget?
    ensures r.Err? && r.error.MissingTarget? ==> r.error.point in targets && r.error.point !in g
    ensures r.Ok? ==> |r.value| == |targets|
    ensures r.Ok? ==> forall i :: 0 <= i < |targets| ==> targets[i] in g && Reached(g, targets[i], r.value[i])
    ensures r.Ok? ==> forall i :: 0 <= i < |targets| && targets[i] == ORIGIN ==> r.value[i] == 0
    ensures r.Err? && r.error.Unreached? ==> r.error.point in targets && forall d :: !Reached(g, r.error.point, d)
    ensures r.Err? && r.error.NoNeighbors? ==> r.error.point !in g && exists d :: Reached(g, r.error.point, d)
    ensures r.Err? && r.error == OriginUnconnected ==> ORIGIN !in g
  {
    for i := 0 to |targets|
      invariant forall k :: 0 <= k < i ==> targets[k] in g
    {
      if targets[i] !in g {
        return Err(MissingTarget(targets[i]));
      }
    }
    var dist :- Search(g);
    var dists: seq<nat> := [];
    for i := 0 to |targets|
      invariant |dists| == i
      invariant forall k :: 0 <= k < i ==> targets[k] in dist && dists[k] == dist[targets[k]]
    {
      if targets[i] !in dist {
        return Err(Unreached(targets[i]));
      }
      dists := dists + [dist[targets[i]]];
    }
    return Ok(dists);
  }
}
