/** The bounded neighbourhood of a node in the evidence graph, found by breadth-first search
    layer by layer. */
module Graph {
  import opened Seqs

  type Node = nat

  datatype Edge = Edge(src: Node, dst: Node, kind: string)

  predicate Touches(e: Edge, u: Node) { e.src == u || e.dst == u }

  /** The end of `e` opposite to `u`. */
  function Other(e: Edge, u: Node): Node { if e.src == u then e.dst else e.src }

  function Incident(u: Node): Edge -> bool { (e: Edge) => Touches(e, u) }

  // ---------------------------------------------------------------- distance

  function Across(edges: seq<Edge>, ball: set<Node>): set<Node> {
    (set e | e in edges && e.src in ball :: e.dst) + (set e | e in edges && e.dst in ball :: e.src)
  }

  /** The nodes within `k` hops of the root. */
  function Ball(edges: seq<Edge>, root: Node, k: nat): set<Node> {
    if k == 0 then {root} else Ball(edges, root, k - 1) + Across(edges, Ball(edges, root, k - 1))
  }

  lemma {:induction false} BallsGrow(edges: seq<Edge>, root: Node, k: nat, l: nat)
    requires k <= l
    ensures Ball(edges, root, k) <= Ball(edges, root, l)
    decreases l - k
  {
    if k < l { BallsGrow(edges, root, k, l - 1); }
  }

  // ---------------------------------------------------------------- what the search knows

  lemma AcrossFrom(edges: seq<Edge>, ball: set<Node>, n: Node) returns (e: Edge, u: Node)
    requires n in Across(edges, ball)
    ensures e in edges && Touches(e, u) && u in ball && n == Other(e, u)
  {
    if f :| f in edges && f.src in ball && f.dst == n {
      e, u := f, f.src;
    } else {
      e :| e in edges && e.dst in ball && e.src == n;
      u := e.dst;
    }
  }

  lemma HopExtends(edges: seq<Edge>, root: Node, k: nat, e: Edge, u: Node)
    requires e in edges && Touches(e, u) && u in Ball(edges, root, k)
    ensures Other(e, u) in Ball(edges, root, k + 1)
  {
    assert Other(e, u) in Across(edges, Ball(edges, root, k));
  }

  type Levels = map<Node, nat>

  ghost predicate ReachedAt(edges: seq<Edge>, root: Node, level: Levels, n: Node) {
    n in level && n in Ball(edges, root, level[n])
  }

  /** The root is at level zero and every node lies within its level. */
  ghost predicate Reached(edges: seq<Edge>, root: Node, level: Levels) {
    && root in level && level[root] == 0
    && forall n {:trigger ReachedAt(edges, root, level, n)} :: n in level ==> ReachedAt(edges, root, level, n)
  }

  ghost predicate ClosedAt(level: Levels, e: Edge, u: Node) {
    u in level && Other(e, u) in level && level[Other(e, u)] <= level[u] + 1
  }

  /** The neighbours of every expanded node are known, one level further at most. */
  ghost predicate Closed(edges: seq<Edge>, level: Levels, pending: set<Node>, depth: nat) {
    forall e, u {:trigger ClosedAt(level, e, u)} ::
      e in edges && Touches(e, u) && u in level && u !in pending && level[u] < depth ==> ClosedAt(level, e, u)
  }

  function Upto(level: Levels, k: nat): set<Node> { set n | n in level && level[n] <= k }

  /** While nothing nearer than `d` is pending, the levels up to `d` are the true distances. */
  lemma {:induction false} LayersAreBalls(edges: seq<Edge>, root: Node, level: Levels, pending: set<Node>, depth: nat, d: nat, k: nat)
    requires Reached(edges, root, level) && Closed(edges, level, pending, depth)
    requires (forall p :: p in pending && p in level ==> level[p] >= d) && k <= d <= depth
    ensures Ball(edges, root, k) == Upto(level, k)
  {
    if k > 0 { LayersAreBalls(edges, root, level, pending, depth, d, k - 1); }
    forall n | n in Ball(edges, root, k) ensures n in Upto(level, k) {
      if k > 0 && n in Across(edges, Ball(edges, root, k - 1)) {
        var e, u := AcrossFrom(edges, Ball(edges, root, k - 1), n);
        assert u in Upto(level, k - 1);
        assert ClosedAt(level, e, u);
      }
    }
    forall n | n in Upto(level, k) ensures n in Ball(edges, root, k) {
      assert ReachedAt(edges, root, level, n);
      BallsGrow(edges, root, level[n], k);
    }
  }

  /** An edge followed from `u` is kept, unless the node behind it found no room. */
  ghost predicate Followed(level: Levels, kept: set<Edge>, e: Edge, u: Node, maxNodes: int) {
    e in kept || (Other(e, u) !in level && |level| >= maxNodes)
  }

  /** The kept edges join known nodes, one of them near enough to be expanded, and are all there
      are from the expanded ones. */
  ghost predicate EdgesOk(edges: seq<Edge>, level: Levels, pending: set<Node>, depth: nat, kept: set<Edge>, maxNodes: int) {
    && (forall e :: e in kept ==> e in edges && e.src in level && e.dst in level && (level[e.src] < depth || level[e.dst] < depth))
    && (forall e, u {:trigger Followed(level, kept, e, u, maxNodes)} ::
         e in edges && Touches(e, u) && u in level && u !in pending && level[u] < depth ==> Followed(level, kept, e, u, maxNodes))
  }

  /** Room ran out while nodes at distance `cut` were expanded: everything up to there is known,
      nothing beyond the next layer, and some of that layer is left out. */
  ghost predicate CutAt(edges: seq<Edge>, root: Node, level: Levels, depth: nat, maxNodes: int, cut: nat) {
    && cut < depth && |level| >= maxNodes
    && (forall k :: 0 <= k <= cut ==> Ball(edges, root, k) == Upto(level, k))
    && (forall n :: n in level ==> level[n] <= cut + 1)
    && (exists n :: n in Ball(edges, root, cut + 1) && n !in level)
  }

  datatype Walk = Walk(queue: seq<(Node, nat)>, kept: set<Edge>, truncated: bool)

  function Waiting(queue: seq<(Node, nat)>): set<Node> { set q | q in queue :: q.0 }

  /** The queue lists known nodes in the order of their levels, `d` or one more. */
  ghost predicate QueueOk(level: Levels, queue: seq<(Node, nat)>, d: nat) {
    && (forall i :: 0 <= i < |queue| ==> queue[i].0 in level && level[queue[i].0] == queue[i].1 && d <= queue[i].1 <= d + 1)
    && (forall i, j :: 0 <= i < j < |queue| ==> queue[i].1 <= queue[j].1 && queue[i].0 != queue[j].0)
    && (forall n :: n in level ==> level[n] <= d + 1)
  }

  ghost predicate SearchOk(edges: seq<Edge>, root: Node, depth: nat, maxNodes: int, level: Levels, pending: set<Node>, w: Walk, cut: nat) {
    && Reached(edges, root, level)
    && (|level| == 1 || |level| <= maxNodes)
    && EdgesOk(edges, level, pending, depth, w.kept, maxNodes)
    && if w.truncated then CutAt(edges, root, level, depth, maxNodes, cut) else Closed(edges, level, pending, depth)
  }

  lemma DiscoverKeepsQueue(level: Levels, queue: seq<(Node, nat)>, d: nat, other: Node)
    requires QueueOk(level, queue, d) && other !in level
    ensures QueueOk(level[other := d + 1], queue + [(other, d + 1)], d)
    ensures Waiting(queue + [(other, d + 1)]) == Waiting(queue) + {other}
  {
    var next := queue + [(other, d + 1)];
    assert (other, d + 1) in next && forall q :: q in queue ==> q in next;
  }

  lemma DiscoverKeepsEdges(edges: seq<Edge>, depth: nat, maxNodes: int, level: Levels, pending: set<Node>, kept: set<Edge>, e: Edge, d: nat, current: Node)
    requires EdgesOk(edges, level, pending, depth, kept, maxNodes) && Closed(edges, level, pending, depth)
    requires e in edges && Touches(e, current) && current in level && level[current] == d < depth
    requires Other(e, current) !in level && |level| < maxNodes
    ensures var more := level[Other(e, current) := d + 1];
            EdgesOk(edges, more, pending + {Other(e, current)}, depth, kept + {e}, maxNodes)
            && Closed(edges, more, pending + {Other(e, current)}, depth)
  {
    var other := Other(e, current);
    var more := level[other := d + 1];
    forall f, u | f in edges && Touches(f, u) && u in more && u !in pending + {other} && more[u] < depth
      ensures ClosedAt(more, f, u) && Followed(more, kept + {e}, f, u, maxNodes)
    {
      assert ClosedAt(level, f, u) && Followed(level, kept, f, u, maxNodes);
    }
  }

  /** An unknown node for which there is room is queued one level further. */
  lemma DiscoverKeepsSearch(edges: seq<Edge>, root: Node, depth: nat, maxNodes: int, level: Levels, pending: set<Node>,
                            w: Walk, current: Node, d: nat, e: Edge, cut: nat)
    requires SearchOk(edges, root, depth, maxNodes, level, pending, w, cut) && !w.truncated
    requires current in level && level[current] == d < depth && e in edges && Touches(e, current)
    requires Other(e, current) !in level && |level| < maxNodes
    ensures var other := Other(e, current);
            SearchOk(edges, root, depth, maxNodes, level[other := d + 1], pending + {other},
                     Walk(w.queue + [(other, d + 1)], w.kept + {e}, false), cut)
  {
    DiscoverKeepsReached(edges, root, level, e, current, d);
    DiscoverKeepsEdges(edges, depth, maxNodes, level, pending, w.kept, e, d, current);
    OneMoreLevel(level, Other(e, current), d + 1);
  }

  lemma DiscoverKeepsReached(edges: seq<Edge>, root: Node, level: Levels, e: Edge, current: Node, d: nat)
    requires Reached(edges, root, level) && e in edges && Touches(e, current)
    requires current in level && level[current] == d && Other(e, current) !in level
    ensures Reached(edges, root, level[Other(e, current) := d + 1])
  {
    var more := level[Other(e, current) := d + 1];
    assert ReachedAt(edges, root, level, current);
    HopExtends(edges, root, d, e, current);
    forall n | n in more ensures ReachedAt(edges, root, more, n) {
      if n in level { assert ReachedAt(edges, root, level, n); }
    }
  }

  lemma OneMoreLevel(level: Levels, n: Node, d: nat)
    requires n !in level
    ensures |level[n := d]| == |level| + 1
  {
    assert level[n := d].Keys == level.Keys + {n};
    assert |level[n := d]| == |level[n := d].Keys| && |level| == |level.Keys|;
  }

  /** An edge to a known node is kept. */
  lemma KeepKeepsSearch(edges: seq<Edge>, root: Node, depth: nat, maxNodes: int, level: Levels, pending: set<Node>,
                        w: Walk, current: Node, e: Edge, cut: nat)
    requires SearchOk(edges, root, depth, maxNodes, level, pending, w, cut)
    requires current in level && level[current] < depth && e in edges && Touches(e, current) && Other(e, current) in level
    ensures SearchOk(edges, root, depth, maxNodes, level, pending, w.(kept := w.kept + {e}), cut)
  {
    forall f, u | f in edges && Touches(f, u) && u in level && u !in pending && level[u] < depth
      ensures Followed(level, w.kept + {e}, f, u, maxNodes)
    {
      assert Followed(level, w.kept, f, u, maxNodes);
    }
  }

  /** The first node without room fixes the layer that is cut. */
  lemma TruncateKeepsSearch(edges: seq<Edge>, root: Node, depth: nat, maxNodes: int, level: Levels, pending: set<Node>,
                            w: Walk, current: Node, d: nat, e: Edge, cut: nat)
    requires SearchOk(edges, root, depth, maxNodes, level, pending, w, cut)
    requires (forall p :: p in pending && p in level ==> level[p] >= d) && (forall n :: n in level ==> level[n] <= d + 1)
    requires current in level && level[current] == d < depth && e in edges && Touches(e, current)
    requires Other(e, current) !in level && |level| >= maxNodes
    ensures SearchOk(edges, root, depth, maxNodes, level, pending, w.(truncated := true), if w.truncated then cut else d)
  {
    if !w.truncated {
      assert ReachedAt(edges, root, level, current);
      HopExtends(edges, root, d, e, current);
      forall k | 0 <= k <= d ensures Ball(edges, root, k) == Upto(level, k) { LayersAreBalls(edges, root, level, pending, depth, d, k); }
    }
  }

  /** A node whose edges were all followed is done. */
  lemma ExpandedKeepsSearch(edges: seq<Edge>, root: Node, depth: nat, maxNodes: int, level: Levels, pending: set<Node>,
                            w: Walk, current: Node, cut: nat)
    requires SearchOk(edges, root, depth, maxNodes, level, pending, w, cut) && current in level
    requires forall e :: e in edges && Touches(e, current) && level[current] < depth ==>
               Followed(level, w.kept, e, current, maxNodes) && (!w.truncated ==> ClosedAt(level, e, current))
    ensures SearchOk(edges, root, depth, maxNodes, level, pending - {current}, w, cut)
  {
  }

  // ---------------------------------------------------------------- the search

  /** The first `i` edges at the current node are dealt with. */
  ghost predicate Dealt(incident: seq<Edge>, i: nat, level: Levels, w: Walk, current: Node, maxNodes: int)
    requires i <= |incident|
  {
    forall j {:trigger incident[j]} :: 0 <= j < i ==>
      Followed(level, w.kept, incident[j], current, maxNodes) && (!w.truncated ==> ClosedAt(level, incident[j], current))
  }

  ghost predicate Grown(before: Levels, after: Levels) { forall n :: n in before ==> n in after && after[n] == before[n] }

  /** The search while the edges of `current`, at level `d`, are followed. */
  ghost predicate Expanding(edges: seq<Edge>, root: Node, depth: nat, maxNodes: int, level: Levels, w: Walk, current: Node, d: nat, cut: nat) {
    && SearchOk(edges, root, depth, maxNodes, level, Waiting(w.queue) + {current}, w, cut) && QueueOk(level, w.queue, d)
    && current in level && level[current] == d && d < depth && current !in Waiting(w.queue)
  }

  function Discovered(w: Walk, e: Edge, current: Node, d: nat): Walk {
    Walk(w.queue + [(Other(e, current), d + 1)], w.kept + {e}, false)
  }

  lemma DiscoverStep(edges: seq<Edge>, root: Node, depth: nat, maxNodes: int, level: Levels, w: Walk, current: Node, d: nat, cut: nat, e: Edge)
    requires Expanding(edges, root, depth, maxNodes, level, w, current, d, cut) && e in edges && Touches(e, current)
    requires Other(e, current) !in level && |level| < maxNodes
    ensures Expanding(edges, root, depth, maxNodes, level[Other(e, current) := d + 1], Discovered(w, e, current, d), current, d, cut)
    ensures !w.truncated
  {
    var other := Other(e, current);
    DiscoverKeepsSearch(edges, root, depth, maxNodes, level, Waiting(w.queue) + {current}, w, current, d, e, cut);
    DiscoverKeepsQueue(level, w.queue, d, other);
    assert Waiting(w.queue) + {current} + {other} == Waiting(w.queue + [(other, d + 1)]) + {current};
  }

  lemma KeepStep(edges: seq<Edge>, root: Node, depth: nat, maxNodes: int, level: Levels, w: Walk, current: Node, d: nat, cut: nat, e: Edge)
    requires Expanding(edges, root, depth, maxNodes, level, w, current, d, cut) && e in edges && Touches(e, current)
    requires Other(e, current) in level
    ensures Expanding(edges, root, depth, maxNodes, level, w.(kept := w.kept + {e}), current, d, cut) && ClosedAt(level, e, current)
  {
    KeepKeepsSearch(edges, root, depth, maxNodes, level, Waiting(w.queue) + {current}, w, current, e, cut);
    QueueIsNear(level, w.queue, d, current);
  }

  lemma TruncateStep(edges: seq<Edge>, root: Node, depth: nat, maxNodes: int, level: Levels, w: Walk, current: Node, d: nat, cut: nat, e: Edge)
    requires Expanding(edges, root, depth, maxNodes, level, w, current, d, cut) && e in edges && Touches(e, current)
    requires Other(e, current) !in level && |level| >= maxNodes
    ensures Expanding(edges, root, depth, maxNodes, level, w.(truncated := true), current, d, if w.truncated then cut else d)
  {
    QueueIsNear(level, w.queue, d, current);
    TruncateKeepsSearch(edges, root, depth, maxNodes, level, Waiting(w.queue) + {current}, w, current, d, e, cut);
  }

  /** Follows one edge of the current node. */
  method Follow(edges: seq<Edge>, nodes: set<Node>, root: Node, depth: nat, maxNodes: int, e: Edge, current: Node, d: nat,
                w0: Walk, seen0: set<Node>, ghost level0: Levels, ghost cut0: nat)
    returns (w: Walk, seen: set<Node>, ghost level: Levels, ghost cut: nat)
    requires Expanding(edges, root, depth, maxNodes, level0, w0, current, d, cut0) && e in edges && Touches(e, current)
    requires seen0 == level0.Keys && seen0 <= nodes && e.src in nodes && e.dst in nodes
    ensures Expanding(edges, root, depth, maxNodes, level, w, current, d, cut)
    ensures seen == level.Keys && seen <= nodes && Grown(level0, level) && |seen| - |w.queue| == |seen0| - |w0.queue|
    ensures Followed(level, w.kept, e, current, maxNodes) && (!w.truncated ==> ClosedAt(level, e, current))
    ensures w0.kept <= w.kept && (w0.truncated ==> w.truncated) && (level == level0 || |level0| < maxNodes)
  {
    w, seen, level, cut := w0, seen0, level0, cut0;
    var other := Other(e, current);
    assert |level| == |level.Keys|;
    if other !in seen && |seen| >= maxNodes {
      TruncateStep(edges, root, depth, maxNodes, level, w, current, d, cut, e);
      cut := if w.truncated then cut else d;
      w := w.(truncated := true);
    } else if other !in seen {
      DiscoverStep(edges, root, depth, maxNodes, level, w, current, d, cut, e);
      seen, level, w := seen + {other}, level[other := d + 1], Discovered(w, e, current, d);
    } else {
      KeepStep(edges, root, depth, maxNodes, level, w, current, d, cut, e);
      w := w.(kept := w.kept + {e});
    }
  }

  lemma QueueIsNear(level: Levels, queue: seq<(Node, nat)>, d: nat, current: Node)
    requires QueueOk(level, queue, d) && current in level && level[current] == d
    ensures forall p :: p in Waiting(queue) + {current} && p in level ==> level[p] >= d
    ensures forall n :: n in level ==> level[n] <= d + 1
  {
  }

  /** What was dealt with stays so while the walk goes on. */
  lemma DealtStays(incident: seq<Edge>, i: nat, before: Levels, w0: Walk, after: Levels, w: Walk, current: Node, maxNodes: int)
    requires i <= |incident| && Dealt(incident, i, before, w0, current, maxNodes)
    requires Grown(before, after) && w0.kept <= w.kept && (w0.truncated ==> w.truncated) && (after == before || |before| < maxNodes)
    ensures Dealt(incident, i, after, w, current, maxNodes)
  {
    forall j | 0 <= j < i
      ensures Followed(after, w.kept, incident[j], current, maxNodes) && (!w.truncated ==> ClosedAt(after, incident[j], current))
    {
      assert Followed(before, w0.kept, incident[j], current, maxNodes);
    }
  }

  lemma DealtNext(incident: seq<Edge>, i: nat, before: Levels, w0: Walk, after: Levels, w: Walk, current: Node, maxNodes: int)
    requires i < |incident| && Dealt(incident, i, before, w0, current, maxNodes)
    requires Grown(before, after) && w0.kept <= w.kept && (w0.truncated ==> w.truncated) && (after == before || |before| < maxNodes)
    requires Followed(after, w.kept, incident[i], current, maxNodes) && (!w.truncated ==> ClosedAt(after, incident[i], current))
    ensures Dealt(incident, i + 1, after, w, current, maxNodes)
  {
    DealtStays(incident, i, before, w0, after, w, current, maxNodes);
  }

  lemma ExpandedStep(edges: seq<Edge>, root: Node, depth: nat, maxNodes: int, level: Levels, w: Walk, current: Node, d: nat, cut: nat)
    requires Expanding(edges, root, depth, maxNodes, level, w, current, d, cut)
    requires Dealt(Filter(edges, Incident(current)), |Filter(edges, Incident(current))|, level, w, current, maxNodes)
    ensures SearchOk(edges, root, depth, maxNodes, level, Waiting(w.queue), w, cut)
  {
    var incident := Filter(edges, Incident(current));
    forall e | e in edges && Touches(e, current)
      ensures Followed(level, w.kept, e, current, maxNodes) && (!w.truncated ==> ClosedAt(level, e, current))
    {
      assert e in incident;
      var j :| 0 <= j < |incident| && incident[j] == e;
    }
    ExpandedKeepsSearch(edges, root, depth, maxNodes, level, Waiting(w.queue) + {current}, w, current, cut);
    assert Waiting(w.queue) + {current} - {current} == Waiting(w.queue);
  }

  /** Follows every edge of the current node. */
  method Expand(edges: seq<Edge>, nodes: set<Node>, root: Node, depth: nat, maxNodes: int, current: Node, d: nat,
                w0: Walk, seen0: set<Node>, ghost level0: Levels, ghost cut0: nat)
    returns (w: Walk, seen: set<Node>, ghost level: Levels, ghost cut: nat)
    requires forall e :: e in edges ==> e.src in nodes && e.dst in nodes
    requires Expanding(edges, root, depth, maxNodes, level0, w0, current, d, cut0) && seen0 == level0.Keys && seen0 <= nodes
    ensures seen == level.Keys && seen <= nodes
    ensures SearchOk(edges, root, depth, maxNodes, level, Waiting(w.queue), w, cut) && QueueOk(level, w.queue, d)
    ensures |seen| - |w.queue| == |seen0| - |w0.queue|
  {
    w, seen, level, cut := w0, seen0, level0, cut0;
    var incident := Filter(edges, Incident(current));
    for i := 0 to |incident|
      invariant Expanding(edges, root, depth, maxNodes, level, w, current, d, cut)
      invariant seen == level.Keys && seen <= nodes && |seen| - |w.queue| == |seen0| - |w0.queue|
      invariant Dealt(incident, i, level, w, current, maxNodes)
    {
      ghost var was, before := w, level;
      assert incident[i] in incident;
      w, seen, level, cut := Follow(edges, nodes, root, depth, maxNodes, incident[i], current, d, w, seen, level, cut);
      DealtNext(incident, i, before, was, level, w, current, maxNodes);
    }
    ExpandedStep(edges, root, depth, maxNodes, level, w, current, d, cut);
  }

  lemma LevelsAreHops(edges: seq<Edge>, root: Node, level: Levels, k: nat)
    requires Reached(edges, root, level)
    ensures Upto(level, k) <= Ball(edges, root, k)
  {
    forall n | n in Upto(level, k) ensures n in Ball(edges, root, k) {
      assert ReachedAt(edges, root, level, n);
      BallsGrow(edges, root, level[n], k);
    }
  }

  lemma UptoAll(level: Levels, k: nat)
    requires forall n :: n in level ==> level[n] <= k
    ensures Upto(level, k) == level.Keys
  {
  }

  /** The known nodes within `k` hops, when the levels up to `c` are distances and no level is
      above `c + 1`. */
  lemma KnownWithin(edges: seq<Edge>, root: Node, level: Levels, c: nat, k: nat)
    requires Ball(edges, root, c) == Upto(level, c) && (forall n :: n in level ==> level[n] <= c + 1) && c <= k
    requires level.Keys <= Ball(edges, root, c + 1)
    ensures Upto(level, k) == Ball(edges, root, k) * level.Keys
  {
    if k > c {
      UptoAll(level, k);
      BallsGrow(edges, root, c + 1, k);
    }
  }

  lemma CutSearch(edges: seq<Edge>, root: Node, depth: nat, maxNodes: int, level: Levels, cut: nat)
    requires CutAt(edges, root, level, depth, maxNodes, cut) && Upto(level, cut + 1) <= Ball(edges, root, cut + 1)
    ensures CutLayer(edges, root, depth, level.Keys, cut)
    ensures depth > 0 && Upto(level, depth - 1) == Ball(edges, root, depth - 1) * level.Keys
  {
    assert Ball(edges, root, cut) == Upto(level, cut);
    UptoAll(level, cut + 1);
    KnownWithin(edges, root, level, cut, depth - 1);
  }

  lemma WholeSearch(edges: seq<Edge>, root: Node, depth: nat, level: Levels, k: nat)
    requires Reached(edges, root, level) && Closed(edges, level, {}, depth) && k <= depth
    ensures Upto(level, k) == Ball(edges, root, k)
  {
    LayersAreBalls(edges, root, level, {}, depth, depth, k);
  }

  lemma WholeNeighborhood(edges: seq<Edge>, root: Node, depth: nat, level: Levels)
    requires Reached(edges, root, level) && Closed(edges, level, {}, depth) && forall n :: n in level ==> level[n] <= depth
    ensures level.Keys == Ball(edges, root, depth)
  {
    UptoAll(level, depth);
    WholeSearch(edges, root, depth, level, depth);
  }

  lemma WholeExpanded(edges: seq<Edge>, root: Node, depth: nat, expanded: set<Node>, known: set<Node>)
    requires depth > 0 && expanded == Ball(edges, root, depth - 1) && known == Ball(edges, root, depth)
    ensures expanded == Ball(edges, root, depth - 1) * known
  {
    BallsGrow(edges, root, depth - 1, depth);
    PartOf(expanded, known);
  }

  lemma PartOf(part: set<Node>, whole: set<Node>)
    requires part <= whole
    ensures part * whole == part
  {
  }

  lemma CutNeighborhood(edges: seq<Edge>, root: Node, depth: nat, maxNodes: int, level: Levels, cut: nat)
    requires Reached(edges, root, level) && CutAt(edges, root, level, depth, maxNodes, cut)
    ensures CutLayer(edges, root, depth, level.Keys, cut)
    ensures depth > 0 && Upto(level, depth - 1) == Ball(edges, root, depth - 1) * level.Keys
  {
    LevelsAreHops(edges, root, level, cut + 1);
    CutSearch(edges, root, depth, maxNodes, level, cut);
  }

  lemma FinishedWhole(edges: seq<Edge>, root: Node, depth: nat, level: Levels)
    requires Reached(edges, root, level) && Closed(edges, level, {}, depth) && forall n :: n in level ==> level[n] <= depth
    ensures level.Keys == Ball(edges, root, depth)
    ensures depth > 0 ==> Upto(level, depth - 1) == Ball(edges, root, depth - 1) * level.Keys
  {
    WholeNeighborhood(edges, root, depth, level);
    if depth > 0 {
      WholeSearch(edges, root, depth, level, depth - 1);
      WholeExpanded(edges, root, depth, Upto(level, depth - 1), level.Keys);
    }
  }

  /** What a finished search knows, in hops. */
  lemma FinishedSearch(edges: seq<Edge>, root: Node, depth: nat, maxNodes: int, level: Levels, w: Walk, cut: nat)
    requires SearchOk(edges, root, depth, maxNodes, level, {}, w, cut) && forall n :: n in level ==> level[n] <= depth
    ensures if w.truncated then CutLayer(edges, root, depth, level.Keys, cut) else level.Keys == Ball(edges, root, depth)
    ensures depth > 0 ==> Upto(level, depth - 1) == Ball(edges, root, depth - 1) * level.Keys
  {
    if w.truncated { CutNeighborhood(edges, root, depth, maxNodes, level, cut); } else { FinishedWhole(edges, root, depth, level); }
  }

  /** A whole ball, part of the next layer and not all of it. */
  ghost predicate CutLayer(edges: seq<Edge>, root: Node, depth: nat, kept: set<Node>, cut: nat) {
    cut < depth && Ball(edges, root, cut) <= kept < Ball(edges, root, cut + 1)
  }

  /** What is kept lies within the depth. */
  lemma CutIsWithinDepth(edges: seq<Edge>, root: Node, depth: nat, kept: set<Node>, cut: nat)
    requires CutLayer(edges, root, depth, kept, cut)
    ensures kept <= Ball(edges, root, depth)
  {
    BallsGrow(edges, root, cut + 1, depth);
  }

  /** When a search was cut, no node left out is nearer than one kept. */
  lemma NoNearerNodeOmitted(edges: seq<Edge>, root: Node, depth: nat, kept: set<Node>, cut: nat, n: Node, m: Node, k: nat)
    requires CutLayer(edges, root, depth, kept, cut) && n in kept && m !in kept && m in Ball(edges, root, k)
    ensures n in Ball(edges, root, k)
  {
    if k <= cut { BallsGrow(edges, root, k, cut); } else { BallsGrow(edges, root, cut + 1, k); }
  }

  /** An edge of the neighbourhood: both ends kept, one of them expanded. */
  ghost predicate Inside(edges: seq<Edge>, root: Node, depth: nat, kept: set<Node>, e: Edge) {
    && e in edges && e.src in kept && e.dst in kept
    && depth > 0 && (e.src in Ball(edges, root, depth - 1) || e.dst in Ball(edges, root, depth - 1))
  }

  lemma FinishedEdges(edges: seq<Edge>, root: Node, depth: nat, maxNodes: int, level: Levels, w: Walk, cut: nat, e: Edge)
    requires SearchOk(edges, root, depth, maxNodes, level, {}, w, cut) && forall n :: n in level ==> level[n] <= depth
    ensures e in w.kept <==> Inside(edges, root, depth, level.Keys, e)
  {
    FinishedSearch(edges, root, depth, maxNodes, level, w, cut);
    if e in w.kept {
      assert e.src in Upto(level, depth - 1) || e.dst in Upto(level, depth - 1);
    }
    if Inside(edges, root, depth, level.Keys, e) {
      var u := if e.src in Ball(edges, root, depth - 1) then e.src else e.dst;
      assert u in Upto(level, depth - 1) && Touches(e, u) && Other(e, u) in level;
      assert Followed(level, w.kept, e, u, maxNodes);
    }
  }

  lemma Popped(level: Levels, queue: seq<(Node, nat)>, d: nat)
    requires QueueOk(level, queue, d) && queue != []
    ensures queue[0].0 in level && level[queue[0].0] == queue[0].1
    ensures QueueOk(level, queue[1..], queue[0].1) && queue[0].0 !in Waiting(queue[1..])
    ensures Waiting(queue) == Waiting(queue[1..]) + {queue[0].0}
  {
    assert queue == [queue[0]] + queue[1..];
    forall q | q in queue[1..] ensures q.0 != queue[0].0 {
      var i :| 0 <= i < |queue[1..]| && queue[1..][i] == q;
      assert queue[i + 1] == q;
    }
  }

  /** A node at the depth limit is not expanded. */
  lemma Skipped(edges: seq<Edge>, root: Node, depth: nat, maxNodes: int, level: Levels, w: Walk, current: Node, cut: nat)
    requires SearchOk(edges, root, depth, maxNodes, level, Waiting(w.queue) + {current}, w, cut)
    requires current in level && level[current] >= depth && current !in Waiting(w.queue)
    ensures SearchOk(edges, root, depth, maxNodes, level, Waiting(w.queue), w, cut)
  {
    ExpandedKeepsSearch(edges, root, depth, maxNodes, level, Waiting(w.queue) + {current}, w, current, cut);
    assert Waiting(w.queue) + {current} - {current} == Waiting(w.queue);
  }

  lemma SearchStarts(edges: seq<Edge>, root: Node, depth: nat, maxNodes: int)
    ensures var level: Levels, w := map[root := 0], Walk([(root, 0)], {}, false);
            SearchOk(edges, root, depth, maxNodes, level, Waiting(w.queue), w, 0) && QueueOk(level, w.queue, 0)
  {
    var level: Levels, w := map[root := 0], Walk([(root, 0)], {}, false);
    assert ReachedAt(edges, root, level, root);
    assert (root, 0) in w.queue && root in Waiting(w.queue);
  }

  /** The search between two nodes: the queue holds what is still to be expanded. */
  ghost predicate Between(edges: seq<Edge>, root: Node, depth: nat, maxNodes: int, level: Levels, w: Walk, d: nat, cut: nat) {
    && SearchOk(edges, root, depth, maxNodes, level, Waiting(w.queue), w, cut) && QueueOk(level, w.queue, d)
    && forall n :: n in level ==> level[n] <= depth
  }

  lemma BeginExpanding(edges: seq<Edge>, root: Node, depth: nat, maxNodes: int, level: Levels, w: Walk, d: nat, cut: nat)
    requires Between(edges, root, depth, maxNodes, level, w, d, cut) && w.queue != []
    ensures var (current, at) := w.queue[0];
            if at < depth then Expanding(edges, root, depth, maxNodes, level, w.(queue := w.queue[1..]), current, at, cut)
            else Between(edges, root, depth, maxNodes, level, w.(queue := w.queue[1..]), at, cut)
  {
    Popped(level, w.queue, d);
    if w.queue[0].1 >= depth { Skipped(edges, root, depth, maxNodes, level, w.(queue := w.queue[1..]), w.queue[0].0, cut); }
  }

  lemma AfterExpanding(edges: seq<Edge>, root: Node, depth: nat, maxNodes: int, level: Levels, w: Walk, d: nat, cut: nat)
    requires SearchOk(edges, root, depth, maxNodes, level, Waiting(w.queue), w, cut) && QueueOk(level, w.queue, d) && d < depth
    ensures Between(edges, root, depth, maxNodes, level, w, d, cut)
  {
  }

  /** What the search returns, in terms of hops alone. */
  ghost predicate IsNeighborhood(edges: seq<Edge>, root: Node, depth: nat, maxNodes: int, kept: set<Node>, inside: set<Edge>, truncated: bool) {
    && root in kept && (|kept| <= maxNodes || kept == {root})
    && (if truncated then |kept| >= maxNodes && exists cut :: CutLayer(edges, root, depth, kept, cut)
        else kept == Ball(edges, root, depth))
    && forall e :: e in inside <==> Inside(edges, root, depth, kept, e)
  }

  lemma FinishedIsNeighborhood(edges: seq<Edge>, root: Node, depth: nat, maxNodes: int, level: Levels, w: Walk, d: nat, cut: nat)
    requires Between(edges, root, depth, maxNodes, level, w, d, cut) && w.queue == []
    ensures IsNeighborhood(edges, root, depth, maxNodes, level.Keys, w.kept, w.truncated)
  {
    assert Waiting(w.queue) == {};
    FinishedSearch(edges, root, depth, maxNodes, level, w, cut);
    forall e ensures e in w.kept <==> Inside(edges, root, depth, level.Keys, e) { FinishedEdges(edges, root, depth, maxNodes, level, w, cut, e); }
    assert |level| == |level.Keys|;
    if |level| == 1 { OnlyRoot(level.Keys, root); }
  }

  lemma OnlyRoot(kept: set<Node>, root: Node)
    requires root in kept && |kept| == 1
    ensures kept == {root}
  {
    assert |kept - {root}| == 0;
  }

  /** `neighborhood`. Edge ends are nodes, as in every graph that is built. */
  method Neighborhood(nodes: set<Node>, edges: seq<Edge>, root: Node, depth: nat, maxNodes: int)
    returns (kept: set<Node>, inside: set<Edge>, truncated: bool)
    requires forall e :: e in edges ==> e.src in nodes && e.dst in nodes
    ensures kept <= nodes
    ensures if root in nodes then IsNeighborhood(edges, root, depth, maxNodes, kept, inside, truncated)
            else kept == {} && inside == {} && !truncated
  {
    if root !in nodes { return {}, {}, false; }
    var seen, w := {root}, Walk([(root, 0)], {}, false);
    ghost var level: Levels, cut: nat, d: nat := map[root := 0], 0, 0;
    SearchStarts(edges, root, depth, maxNodes);
    while w.queue != []
      invariant seen == level.Keys && seen <= nodes && Between(edges, root, depth, maxNodes, level, w, d, cut)
      decreases |nodes| - |seen| + |w.queue|
    {
      var (current, at) := w.queue[0];
      BeginExpanding(edges, root, depth, maxNodes, level, w, d, cut);
      SubsetIsSmaller(seen, nodes);
      w, d := w.(queue := w.queue[1..]), at;
      if at < depth {
        w, seen, level, cut := Expand(edges, nodes, root, depth, maxNodes, current, at, w, seen, level, cut);
        SubsetIsSmaller(seen, nodes);
        AfterExpanding(edges, root, depth, maxNodes, level, w, d, cut);
      }
    }
    FinishedIsNeighborhood(edges, root, depth, maxNodes, level, w, d, cut);
    return seen, w.kept, w.truncated;
  }
}
