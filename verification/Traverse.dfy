/** Bounded, scoped breadth-first search over the edges of abstract nodes. */
module Traverse {
  import opened Domain
  import opened StoreModel

  type Graph = map<nat, StoredGraphEdges>

  datatype GraphTraversalHit = GraphTraversalHit(nodeId: nat, depth: nat, viaPredicate: Option<string>)

  type Hits = seq<GraphTraversalHit>

  /** What a search may follow: the session scope and the allowed predicates, if restricted. */
  datatype Search = Search(start: nat, scope: Option<nat>, filters: Option<set<string>>)

  predicate InScope(graph: Graph, search: Search, n: nat) {
    n in graph && (search.scope.Some? ==> graph[n].sessionId == search.scope)
  }

  predicate Allowed(search: Search, e: GraphEdge) {
    search.filters.Some? ==> e.predicateName in search.filters.value
  }

  predicate HasEdge(graph: Graph, search: Search, a: nat, b: nat) {
    a in graph && exists e :: e in graph[a].edges && Allowed(search, e) && e.to == b
  }

  /** An in-scope path from the start over allowed edges. */
  ghost predicate Path(graph: Graph, search: Search, p: seq<nat>) {
    && p != [] && p[0] == search.start
    && (forall i | 0 <= i < |p| :: InScope(graph, search, p[i]))
    && (forall i | 0 < i < |p| :: HasEdge(graph, search, p[i - 1], p[i]))
  }

  ghost predicate PathTo(graph: Graph, search: Search, p: seq<nat>, n: nat, d: nat) {
    Path(graph, search, p) && |p| == d + 1 && p[d] == n
  }

  ghost predicate AtDistance(graph: Graph, search: Search, n: nat, d: nat) {
    exists p :: PathTo(graph, search, p, n, d)
  }

  // ---------------------------------------------------------------- results

  ghost predicate Found(output: Hits, n: nat, d: nat) {
    exists i :: 0 <= i < |output| && output[i].nodeId == n && output[i].depth == d
  }

  ghost predicate FoundWithin(output: Hits, n: nat, d: nat) {
    exists k: nat :: k <= d && Found(output, n, k)
  }

  /** The hit at `i` is the start, or was reached by an allowed edge, named in the hit, from an earlier
      hit one level up. */
  ghost predicate Explained(graph: Graph, search: Search, output: Hits, i: nat)
    requires i < |output|
  {
    var h := output[i];
    || (h.depth == 0 && h.nodeId == search.start && h.viaPredicate == None)
    || (h.depth > 0 && h.viaPredicate.Some?
        && exists j :: 0 <= j < i && output[j].depth == h.depth - 1 && output[j].nodeId in graph
                    && GraphEdge(h.nodeId, h.viaPredicate.value) in graph[output[j].nodeId].edges
                    && Allowed(search, GraphEdge(h.nodeId, h.viaPredicate.value)))
  }

  /** Distinct in-scope nodes in order of depth, each at the end of a real path of that length. */
  ghost predicate Sound(graph: Graph, search: Search, maxDepth: nat, output: Hits) {
    && (forall i, j | 0 <= i < j < |output| :: output[i].nodeId != output[j].nodeId && output[i].depth <= output[j].depth)
    && (forall i | 0 <= i < |output| :: InScope(graph, search, output[i].nodeId) && output[i].depth <= maxDepth)
    && (forall i | 0 <= i < |output| :: Explained(graph, search, output, i))
    && (forall i | 0 <= i < |output| :: AtDistance(graph, search, output[i].nodeId, output[i].depth))
  }

  /** Every node at the end of an allowed path of at most `maxDepth` edges was hit no later than that. */
  ghost predicate Complete(graph: Graph, search: Search, maxDepth: nat, output: Hits) {
    forall n: nat, d: nat | AtDistance(graph, search, n, d) && d <= maxDepth :: FoundWithin(output, n, d)
  }

  /** A sound and complete result lists exactly the nodes reachable within the depth bound, each once,
      at its shortest distance. */
  lemma ExactlyShortest(graph: Graph, search: Search, maxDepth: nat, output: Hits, n: nat)
    requires Sound(graph, search, maxDepth, output) && Complete(graph, search, maxDepth, output)
    ensures (exists i :: 0 <= i < |output| && output[i].nodeId == n) <==> exists d: nat :: AtDistance(graph, search, n, d) && d <= maxDepth
    ensures forall i, d: nat | 0 <= i < |output| && output[i].nodeId == n && AtDistance(graph, search, n, d) && d <= maxDepth ::
              output[i].depth <= d
  {
    hide AtDistance, Explained;
    forall i, d: nat | 0 <= i < |output| && output[i].nodeId == n && AtDistance(graph, search, n, d) && d <= maxDepth
      ensures output[i].depth <= d
    {
      var k: nat :| k <= d && Found(output, n, k);
      var j :| 0 <= j < |output| && output[j].nodeId == n && output[j].depth == k;
      assert i == j;
    }
    if d: nat :| AtDistance(graph, search, n, d) && d <= maxDepth {
      var k: nat :| k <= d && Found(output, n, k);
    }
  }

  // ---------------------------------------------------------------- counting edges

  ghost function EdgeCount(graph: Graph): nat
    decreases |graph|
  {
    if graph == map[] then 0
    else
      var k :| k in graph;
      |graph[k].edges| + EdgeCount(graph - {k})
  }

  lemma {:induction false} EdgeCountWithout(graph: Graph, k: nat)
    requires k in graph
    ensures EdgeCount(graph) == |graph[k].edges| + EdgeCount(graph - {k})
    decreases |graph|
  {
    var j :| j in graph && EdgeCount(graph) == |graph[j].edges| + EdgeCount(graph - {j});
    if j != k {
      EdgeCountWithout(graph - {j}, k);
      EdgeCountWithout(graph - {k}, j);
      assert graph - {j} - {k} == graph - {k} - {j};
    }
  }

  // ---------------------------------------------------------------- the search

  datatype Entry = Entry(node: nat, depth: nat, viaPredicate: Option<string>)

  /** The entries an expansion offers to the queue. */
  function Offers(search: Search, edges: seq<GraphEdge>, depth: nat): (r: seq<Entry>)
    ensures |r| <= |edges|
    ensures forall e | e in edges && Allowed(search, e) :: Entry(e.to, depth, Some(e.predicateName)) in r
    ensures forall x | x in r :: x.depth == depth && x.viaPredicate.Some?
                              && GraphEdge(x.node, x.viaPredicate.value) in edges && Allowed(search, GraphEdge(x.node, x.viaPredicate.value))
  {
    if edges == [] then []
    else
      assert edges == [edges[0]] + edges[1..];
      (if Allowed(search, edges[0]) then [Entry(edges[0].to, depth, Some(edges[0].predicateName))] else [])
      + Offers(search, edges[1..], depth)
  }

  function Take<T>(limit: int, xs: seq<T>): seq<T> {
    if limit <= 0 then [] else if |xs| > limit then xs[..limit] else xs
  }

  /** `q` is `queue` with as many of the allowed edges' targets behind it as the bound has room for. */
  ghost predicate Extended(search: Search, edges: seq<GraphEdge>, depth: nat, queue: seq<Entry>, hits: nat, bound: nat, q: seq<Entry>) {
    q == queue + Take(bound - hits - |queue|, Offers(search, edges, depth))
  }

  /** The inner loop: push while output and queue together stay below the bound. */
  method PushEdges(search: Search, edges: seq<GraphEdge>, depth: nat, queue: seq<Entry>, hits: nat, bound: nat)
    returns (q: seq<Entry>)
    ensures Extended(search, edges, depth, queue, hits, bound, q)
  {
    hide Offers;
    q := queue;
    ghost var room := bound - hits - |queue|;
    assert edges[..0] == [];
    NoOffers(search, depth);
    for i := 0 to |edges|
      invariant q == queue + Take(room, Offers(search, edges[..i], depth))
    {
      OffersSnoc(search, edges[..i], edges[i], depth);
      assert edges[..i + 1] == edges[..i] + [edges[i]];
      if Allowed(search, edges[i]) {
        var x := Entry(edges[i].to, depth, Some(edges[i].predicateName));
        TakeOneMore(room, Offers(search, edges[..i], depth), x);
        if hits + |q| < bound {
          q := q + [x];
        }
      }
    }
    assert edges[..|edges|] == edges;
  }

  lemma {:induction false} NoOffers(search: Search, depth: nat)
    ensures Offers(search, [], depth) == []
  {
  }

  lemma {:induction false} OffersSnoc(search: Search, edges: seq<GraphEdge>, e: GraphEdge, depth: nat)
    ensures Offers(search, edges + [e], depth)
         == Offers(search, edges, depth) + if Allowed(search, e) then [Entry(e.to, depth, Some(e.predicateName))] else []
    decreases |edges|
  {
    hide Allowed;
    var more := edges + [e];
    if edges == [] {
      assert more[1..] == [];
      NoOffers(search, depth);
    } else {
      assert more[0] == edges[0] && more[1..] == edges[1..] + [e];
      OffersSnoc(search, edges[1..], e, depth);
    }
  }

  lemma TakeOneMore<T>(room: int, xs: seq<T>, x: T)
    ensures Take(room, xs + [x]) == if |Take(room, xs)| < room then Take(room, xs) + [x] else Take(room, xs)
  {
  }

  /** Queue entries come from the start or from an edge of a hit one level up. */
  ghost predicate Justified(graph: Graph, search: Search, output: Hits, x: Entry) {
    || (x.depth == 0 && x.node == search.start && x.viaPredicate == None)
    || (x.depth > 0 && x.viaPredicate.Some?
        && exists j :: 0 <= j < |output| && output[j].depth == x.depth - 1 && output[j].nodeId in graph
                    && GraphEdge(x.node, x.viaPredicate.value) in graph[output[j].nodeId].edges
                    && Allowed(search, GraphEdge(x.node, x.viaPredicate.value)))
  }

  /** Depths in the queue ascend and span at most two levels; nothing output is deeper. */
  ghost predicate Layered(output: Hits, queue: seq<Entry>, floor: nat) {
    && (forall i | 0 <= i < |queue| :: floor <= queue[i].depth <= floor + 1)
    && (forall i, j | 0 <= i < j < |queue| :: queue[i].depth <= queue[j].depth)
    && (forall i | 0 <= i < |output| :: output[i].depth <= floor)
  }

  /** What has been visited in scope is exactly what has been output. */
  ghost predicate Tracked(graph: Graph, search: Search, output: Hits, visited: set<nat>) {
    && (forall i | 0 <= i < |output| :: output[i].nodeId in visited)
    && (forall n | n in visited && InScope(graph, search, n) :: exists i :: 0 <= i < |output| && output[i].nodeId == n)
  }

  ghost predicate Queued(queue: seq<Entry>, n: nat, d: nat) {
    exists x :: x in queue && x.node == n && x.depth == d
  }

  /** While nothing was cut: every neighbour of a hit was found in time or is still queued. */
  ghost predicate Pursued(graph: Graph, search: Search, maxDepth: nat, output: Hits, queue: seq<Entry>) {
    forall i, n | 0 <= i < |output| && output[i].depth + 1 <= maxDepth && InScope(graph, search, n)
                  && HasEdge(graph, search, output[i].nodeId, n) ::
      FoundWithin(output, n, output[i].depth + 1) || Queued(queue, n, output[i].depth + 1)
  }

  ghost predicate StartPursued(graph: Graph, search: Search, output: Hits, queue: seq<Entry>) {
    InScope(graph, search, search.start) ==> Found(output, search.start, 0) || Queued(queue, search.start, 0)
  }

  function HitOf(x: Entry): GraphTraversalHit {
    GraphTraversalHit(x.node, x.depth, x.viaPredicate)
  }

  lemma Initially(graph: Graph, search: Search, maxDepth: nat, x: Entry)
    requires x == Entry(search.start, 0, None)
    ensures Sound(graph, search, maxDepth, []) && Layered([], [x], 0) && Tracked(graph, search, [], {})
    ensures Justified(graph, search, [], x) && graph - {} == graph
    ensures Pursued(graph, search, maxDepth, [], [x]) && StartPursued(graph, search, [], [x])
  {
    assert x in [x];
  }

  lemma Popped(output: Hits, queue: seq<Entry>, floor: nat)
    requires queue != [] && Layered(output, queue, floor)
    ensures Layered(output, queue[1..], queue[0].depth)
  {
  }

  /** A hit cannot be deeper than what is queued, so an entry for a visited node adds nothing. */
  lemma DropStale(graph: Graph, search: Search, maxDepth: nat, output: Hits, queue: seq<Entry>, visited: set<nat>, floor: nat)
    requires queue != [] && Layered(output, queue, floor) && Tracked(graph, search, output, visited)
    requires queue[0].depth > maxDepth || queue[0].node in visited
    requires Pursued(graph, search, maxDepth, output, queue) && StartPursued(graph, search, output, queue)
    ensures Pursued(graph, search, maxDepth, output, queue[1..]) && StartPursued(graph, search, output, queue[1..])
  {
    hide HasEdge;
    forall i, n | 0 <= i < |output| && output[i].depth + 1 <= maxDepth && InScope(graph, search, n)
                  && HasEdge(graph, search, output[i].nodeId, n)
      ensures FoundWithin(output, n, output[i].depth + 1) || Queued(queue[1..], n, output[i].depth + 1)
    {
      StaleIsFound(graph, search, maxDepth, output, queue, visited, floor, n, output[i].depth + 1);
    }
    if InScope(graph, search, search.start) && Queued(queue, search.start, 0) {
      StaleIsFound(graph, search, maxDepth, output, queue, visited, floor, search.start, 0);
    }
  }

  lemma StaleIsFound(graph: Graph, search: Search, maxDepth: nat, output: Hits, queue: seq<Entry>, visited: set<nat>, floor: nat, n: nat, d: nat)
    requires queue != [] && Layered(output, queue, floor) && Tracked(graph, search, output, visited)
    requires queue[0].depth > maxDepth || queue[0].node in visited
    requires InScope(graph, search, n) && d <= maxDepth
    ensures Queued(queue, n, d) ==> FoundWithin(output, n, d) || Queued(queue[1..], n, d)
  {
    if x :| x in queue && x.node == n && x.depth == d {
      assert queue == [queue[0]] + queue[1..];
      if x == queue[0] {
        var i :| 0 <= i < |output| && output[i].nodeId == n;
        assert Found(output, n, output[i].depth);
      }
    }
  }

  lemma DropOutOfScope(graph: Graph, search: Search, maxDepth: nat, output: Hits, queue: seq<Entry>)
    requires queue != [] && !InScope(graph, search, queue[0].node)
    requires Pursued(graph, search, maxDepth, output, queue) && StartPursued(graph, search, output, queue)
    ensures Pursued(graph, search, maxDepth, output, queue[1..]) && StartPursued(graph, search, output, queue[1..])
  {
    hide HasEdge, FoundWithin;
    forall n, d | InScope(graph, search, n) && Queued(queue, n, d)
      ensures Queued(queue[1..], n, d)
    {
      var x :| x in queue && x.node == n && x.depth == d;
      assert queue == [queue[0]] + queue[1..];
    }
  }

  lemma TrackOutOfScope(graph: Graph, search: Search, output: Hits, visited: set<nat>, n: nat)
    requires Tracked(graph, search, output, visited) && !InScope(graph, search, n)
    ensures Tracked(graph, search, output, visited + {n})
  {
  }

  lemma VisitCounts(graph: Graph, visited: set<nat>, n: nat)
    requires n !in visited
    ensures n in graph ==>
              EdgeCount(graph - visited) == |graph[n].edges| + EdgeCount(graph - (visited + {n}))
    ensures n !in graph ==> graph - (visited + {n}) == graph - visited
  {
    if n in graph {
      EdgeCountWithout(graph - visited, n);
      assert graph - visited - {n} == graph - (visited + {n});
    }
  }

  function Unvisited(graph: Graph, visited: set<nat>): nat {
    |graph.Keys - visited|
  }

  /** A visit uses up a node of the graph. */
  lemma VisitShrinks(graph: Graph, visited: set<nat>, n: nat)
    requires n !in visited
    ensures n in graph ==> Unvisited(graph, visited + {n}) < Unvisited(graph, visited)
    ensures n !in graph ==> Unvisited(graph, visited + {n}) == Unvisited(graph, visited)
  {
    if n in graph {
      assert graph.Keys - visited == (graph.Keys - (visited + {n})) + {n};
    } else {
      assert graph.Keys - (visited + {n}) == graph.Keys - visited;
    }
  }

  /** The new hit ends a real path one edge longer than that of the hit it came from. */
  lemma {:induction false} HitHasPath(graph: Graph, search: Search, maxDepth: nat, output: Hits, x: Entry)
    requires Sound(graph, search, maxDepth, output) && Justified(graph, search, output, x) && InScope(graph, search, x.node)
    ensures AtDistance(graph, search, x.node, x.depth)
  {
    if x.depth == 0 {
      assert PathTo(graph, search, [search.start], search.start, 0);
    } else {
      var j :| 0 <= j < |output| && output[j].depth == x.depth - 1 && output[j].nodeId in graph
               && GraphEdge(x.node, x.viaPredicate.value) in graph[output[j].nodeId].edges
               && Allowed(search, GraphEdge(x.node, x.viaPredicate.value));
      var p :| PathTo(graph, search, p, output[j].nodeId, output[j].depth);
      assert HasEdge(graph, search, p[|p| - 1], x.node);
      assert PathTo(graph, search, p + [x.node], x.node, x.depth);
    }
  }

  lemma ExplainedLater(graph: Graph, search: Search, output: Hits, h: GraphTraversalHit, i: nat)
    requires i < |output| && Explained(graph, search, output, i)
    ensures Explained(graph, search, output + [h], i)
  {
    var more := output + [h];
    assert forall j | 0 <= j < |output| :: more[j] == output[j];
  }

  lemma JustifiedExplains(graph: Graph, search: Search, output: Hits, x: Entry)
    requires Justified(graph, search, output, x)
    ensures Explained(graph, search, output + [HitOf(x)], |output|)
  {
    var more := output + [HitOf(x)];
    assert forall j | 0 <= j < |output| :: more[j] == output[j];
  }

  lemma HitIsTracked(graph: Graph, search: Search, output: Hits, x: Entry, visited: set<nat>)
    requires Tracked(graph, search, output, visited)
    ensures Tracked(graph, search, output + [HitOf(x)], visited + {x.node})
  {
    hide InScope;
    var more := output + [HitOf(x)];
    forall n | n in visited + {x.node} && InScope(graph, search, n)
      ensures exists i :: 0 <= i < |more| && more[i].nodeId == n
    {
      if n == x.node {
        assert more[|output|].nodeId == n;
      } else {
        var i :| 0 <= i < |output| && output[i].nodeId == n;
        assert more[i].nodeId == n;
      }
    }
  }

  lemma HitIsSound(graph: Graph, search: Search, maxDepth: nat, output: Hits, queue: seq<Entry>, visited: set<nat>, floor: nat)
    requires queue != [] && Sound(graph, search, maxDepth, output) && Layered(output, queue, floor) && Tracked(graph, search, output, visited)
    requires Justified(graph, search, output, queue[0]) && queue[0].node !in visited && InScope(graph, search, queue[0].node)
    requires queue[0].depth <= maxDepth
    ensures Sound(graph, search, maxDepth, output + [HitOf(queue[0])])
    ensures Tracked(graph, search, output + [HitOf(queue[0])], visited + {queue[0].node})
  {
    hide Explained, Justified, AtDistance, InScope;
    var x := queue[0];
    var more := output + [HitOf(x)];
    HitHasPath(graph, search, maxDepth, output, x);
    JustifiedExplains(graph, search, output, x);
    HitIsTracked(graph, search, output, x, visited);
    forall i, j | 0 <= i < j < |more|
      ensures more[i].nodeId != more[j].nodeId && more[i].depth <= more[j].depth
    {
      assert more[i] == output[i];
      if j < |output| {
        assert more[j] == output[j];
      } else {
        assert more[j] == HitOf(x) && output[i].nodeId in visited && floor <= x.depth;
      }
    }
    forall i | 0 <= i < |more|
      ensures Explained(graph, search, more, i)
      ensures InScope(graph, search, more[i].nodeId) && more[i].depth <= maxDepth
      ensures AtDistance(graph, search, more[i].nodeId, more[i].depth)
    {
      if i < |output| {
        assert more[i] == output[i];
        ExplainedLater(graph, search, output, HitOf(x), i);
      } else {
        assert i == |output| && more[i] == HitOf(x);
      }
    }
  }

  lemma JustifiedLater(graph: Graph, search: Search, output: Hits, h: GraphTraversalHit, x: Entry)
    requires Justified(graph, search, output, x)
    ensures Justified(graph, search, output + [h], x)
  {
    var more := output + [h];
    assert forall j | 0 <= j < |output| :: more[j] == output[j];
  }

  lemma {:induction false} OffersJustified(graph: Graph, search: Search, output: Hits, x: Entry, y: Entry)
    requires x.node in graph && y in Offers(search, graph[x.node].edges, x.depth + 1)
    ensures Justified(graph, search, output + [HitOf(x)], y)
  {
    var more := output + [HitOf(x)];
    assert more[|output|] == HitOf(x);
  }

  lemma TakeIn<T>(limit: int, xs: seq<T>)
    ensures forall x | x in Take(limit, xs) :: x in xs
    ensures |Take(limit, xs)| <= |xs|
  {
  }

  /** After an expansion the queue is still layered and every entry accounted for. */
  lemma Expanded(graph: Graph, search: Search, output: Hits, queue: seq<Entry>, floor: nat, room: int)
    requires queue != [] && queue[0].node in graph && Layered(output, queue, floor)
    requires forall x | x in queue :: Justified(graph, search, output, x)
    ensures var x := queue[0];
            var next := queue[1..] + Take(room, Offers(search, graph[x.node].edges, x.depth + 1));
            && Layered(output + [HitOf(x)], next, x.depth)
            && (forall y | y in next :: Justified(graph, search, output + [HitOf(x)], y))
            && |next| <= |queue| - 1 + |graph[x.node].edges|
  {
    hide Justified, Layered, Offers;
    var x := queue[0];
    var offers := Offers(search, graph[x.node].edges, x.depth + 1);
    var pushed := Take(room, offers);
    var next := queue[1..] + pushed;
    TakeIn(room, offers);
    forall y | y in next
      ensures Justified(graph, search, output + [HitOf(x)], y)
    {
      if y in pushed {
        OffersJustified(graph, search, output, x, y);
      } else {
        JustifiedLater(graph, search, output, HitOf(x), y);
      }
    }
    LayeredAgain(output, queue, floor, pushed);
  }

  lemma LayeredAgain(output: Hits, queue: seq<Entry>, floor: nat, pushed: seq<Entry>)
    requires queue != [] && Layered(output, queue, floor) && forall y | y in pushed :: y.depth == queue[0].depth + 1
    ensures Layered(output + [HitOf(queue[0])], queue[1..] + pushed, queue[0].depth)
  {
    assert forall k | 0 <= k < |pushed| :: pushed[k] in pushed;
  }

  lemma FoundLater(output: Hits, h: GraphTraversalHit, n: nat, d: nat)
    requires FoundWithin(output, n, d)
    ensures FoundWithin(output + [h], n, d)
  {
    var k: nat :| k <= d && Found(output, n, k);
    var i :| 0 <= i < |output| && output[i].nodeId == n && output[i].depth == k;
    assert (output + [h])[i] == output[i];
    assert Found(output + [h], n, k);
  }

  lemma QueuedLater(output: Hits, queue: seq<Entry>, offers: seq<Entry>, n: nat, d: nat)
    requires queue != [] && Queued(queue, n, d)
    ensures FoundWithin(output + [HitOf(queue[0])], n, d) || Queued(queue[1..] + offers, n, d)
  {
    var x :| x in queue && x.node == n && x.depth == d;
    assert queue == [queue[0]] + queue[1..];
    if x == queue[0] {
      assert (output + [HitOf(x)])[|output|] == HitOf(x);
      assert Found(output + [HitOf(x)], n, d);
    } else {
      assert x in queue[1..] + offers;
    }
  }

  lemma {:induction false} OffersPursue(graph: Graph, search: Search, queue: seq<Entry>, a: nat, n: nat, d: nat)
    requires HasEdge(graph, search, a, n)
    ensures Queued(queue + Offers(search, graph[a].edges, d), n, d)
  {
    var e :| e in graph[a].edges && Allowed(search, e) && e.to == n;
    var x := Entry(e.to, d, Some(e.predicateName));
    assert x in Offers(search, graph[a].edges, d);
    assert x in queue + Offers(search, graph[a].edges, d);
  }

  lemma {:induction false} StillPursued(graph: Graph, search: Search, maxDepth: nat, output: Hits, queue: seq<Entry>)
    requires queue != [] && queue[0].node in graph
    requires Pursued(graph, search, maxDepth, output, queue) && StartPursued(graph, search, output, queue)
    ensures var x := queue[0];
            var next := queue[1..] + Offers(search, graph[x.node].edges, x.depth + 1);
            && Pursued(graph, search, maxDepth, output + [HitOf(x)], next)
            && StartPursued(graph, search, output + [HitOf(x)], next)
  {
    hide FoundWithin, Queued, HasEdge;
    var x := queue[0];
    var offers := Offers(search, graph[x.node].edges, x.depth + 1);
    var more := output + [HitOf(x)];
    forall i, n | 0 <= i < |more| && more[i].depth + 1 <= maxDepth && InScope(graph, search, n)
                  && HasEdge(graph, search, more[i].nodeId, n)
      ensures FoundWithin(more, n, more[i].depth + 1) || Queued(queue[1..] + offers, n, more[i].depth + 1)
    {
      if i < |output| {
        assert more[i] == output[i];
        if FoundWithin(output, n, output[i].depth + 1) {
          FoundLater(output, HitOf(x), n, output[i].depth + 1);
        } else {
          QueuedLater(output, queue, offers, n, output[i].depth + 1);
        }
      } else {
        OffersPursue(graph, search, queue[1..], x.node, n, x.depth + 1);
      }
    }
    StartStays(graph, search, output, queue, offers);
  }

  lemma StartStays(graph: Graph, search: Search, output: Hits, queue: seq<Entry>, offers: seq<Entry>)
    requires queue != [] && StartPursued(graph, search, output, queue)
    ensures StartPursued(graph, search, output + [HitOf(queue[0])], queue[1..] + offers)
  {
    if InScope(graph, search, search.start) {
      if Found(output, search.start, 0) {
        var i :| 0 <= i < |output| && output[i].nodeId == search.start && output[i].depth == 0;
        assert (output + [HitOf(queue[0])])[i] == output[i];
      } else {
        QueuedLater(output, queue, offers, search.start, 0);
      }
    }
  }

  /** With the queue empty, what was pursued was found. */
  lemma {:induction false} FoundAtDistance(graph: Graph, search: Search, maxDepth: nat, output: Hits, p: seq<nat>, n: nat, d: nat)
    requires Pursued(graph, search, maxDepth, output, []) && StartPursued(graph, search, output, [])
    requires PathTo(graph, search, p, n, d) && d <= maxDepth
    ensures FoundWithin(output, n, d)
    decreases d
  {
    if d == 0 {
      assert Found(output, n, 0);
    } else {
      var m := p[d - 1];
      assert PathTo(graph, search, p[..d], m, d - 1);
      FoundAtDistance(graph, search, maxDepth, output, p[..d], m, d - 1);
      var k: nat :| k <= d - 1 && Found(output, m, k);
      var i :| 0 <= i < |output| && output[i].nodeId == m && output[i].depth == k;
      assert HasEdge(graph, search, output[i].nodeId, n);
      var found: nat :| found <= k + 1 && Found(output, n, found);
    }
  }

  lemma NothingLeft(graph: Graph, search: Search, maxDepth: nat, output: Hits)
    requires Pursued(graph, search, maxDepth, output, []) && StartPursued(graph, search, output, [])
    ensures Complete(graph, search, maxDepth, output)
  {
    hide FoundWithin, Pursued, StartPursued, PathTo;
    forall n: nat, d: nat | AtDistance(graph, search, n, d) && d <= maxDepth
      ensures FoundWithin(output, n, d)
    {
      var p :| PathTo(graph, search, p, n, d);
      FoundAtDistance(graph, search, maxDepth, output, p, n, d);
    }
  }

  // ---------------------------------------------------------------- the search as a function

  /** What an expansion puts into the queue: everything, or as much as the bound has room for. */
  function Pushed(bound: Option<nat>, hits: nat, queue: seq<Entry>, offers: seq<Entry>): seq<Entry> {
    if bound.None? then offers else Take(bound.value - hits - |queue|, offers)
  }

  /** The breadth-first search from a queue, with or without a bound on its hits. */
  function Bfs(graph: Graph, search: Search, maxDepth: nat, bound: Option<nat>, queue: seq<Entry>, visited: set<nat>, output: Hits): Hits
    decreases Unvisited(graph, visited), |queue|
  {
    if queue == [] then output
    else
      var x, rest := queue[0], queue[1..];
      if x.depth > maxDepth || x.node in visited then Bfs(graph, search, maxDepth, bound, rest, visited, output)
      else
        VisitShrinks(graph, visited, x.node);
        if !InScope(graph, search, x.node) then Bfs(graph, search, maxDepth, bound, rest, visited + {x.node}, output)
        else
          var more := output + [HitOf(x)];
          if bound.Some? && |more| >= bound.value then more
          else
            var offers := Offers(search, graph[x.node].edges, x.depth + 1);
            Bfs(graph, search, maxDepth, bound, rest + Pushed(bound, |more|, rest, offers), visited + {x.node}, more)
  }

  /** The whole search, cut at `bound` hits or not at all. */
  function SearchFrom(graph: Graph, search: Search, maxDepth: nat, bound: Option<nat>): Hits {
    Bfs(graph, search, maxDepth, bound, [Entry(search.start, 0, None)], {}, [])
  }

  lemma {:induction false} StaleStep(graph: Graph, search: Search, maxDepth: nat, bound: Option<nat>, queue: seq<Entry>, visited: set<nat>, output: Hits)
    requires queue != [] && (queue[0].depth > maxDepth || queue[0].node in visited)
    ensures Bfs(graph, search, maxDepth, bound, queue, visited, output) == Bfs(graph, search, maxDepth, bound, queue[1..], visited, output)
  {
  }

  lemma {:induction false} OutOfScopeStep(graph: Graph, search: Search, maxDepth: nat, bound: Option<nat>, queue: seq<Entry>, visited: set<nat>, output: Hits)
    requires queue != [] && queue[0].depth <= maxDepth && queue[0].node !in visited && !InScope(graph, search, queue[0].node)
    ensures Bfs(graph, search, maxDepth, bound, queue, visited, output)
         == Bfs(graph, search, maxDepth, bound, queue[1..], visited + {queue[0].node}, output)
  {
    hide InScope, EdgeCount;
  }

  /** The search after its next entry was a hit. */
  function AfterHit(graph: Graph, search: Search, maxDepth: nat, bound: Option<nat>, queue: seq<Entry>, visited: set<nat>, output: Hits): Hits
    requires queue != [] && queue[0].node in graph
  {
    var x, more := queue[0], output + [HitOf(queue[0])];
    if bound.Some? && |more| >= bound.value then more
    else
      var offers := Offers(search, graph[x.node].edges, x.depth + 1);
      Bfs(graph, search, maxDepth, bound, queue[1..] + Pushed(bound, |more|, queue[1..], offers), visited + {x.node}, more)
  }

  lemma {:induction false} HitStep(graph: Graph, search: Search, maxDepth: nat, bound: Option<nat>, queue: seq<Entry>, visited: set<nat>, output: Hits)
    requires queue != [] && queue[0].depth <= maxDepth && queue[0].node !in visited && InScope(graph, search, queue[0].node)
    ensures Bfs(graph, search, maxDepth, bound, queue, visited, output) == AfterHit(graph, search, maxDepth, bound, queue, visited, output)
  {
    hide EdgeCount, Offers, Pushed;
  }

  predicate StartsWith(whole: Hits, part: Hits) {
    part <= whole
  }

  lemma StartsWithShorter(whole: Hits, part: Hits, h: GraphTraversalHit)
    ensures StartsWith(part, part) && StartsWith(part + [h], part)
    ensures StartsWith(whole, part + [h]) ==> StartsWith(whole, part)
  {
  }

  /** A search only adds to what it has found. */
  lemma {:induction false} BfsExtends(graph: Graph, search: Search, maxDepth: nat, bound: Option<nat>, queue: seq<Entry>, visited: set<nat>, output: Hits)
    ensures StartsWith(Bfs(graph, search, maxDepth, bound, queue, visited, output), output)
    decreases Unvisited(graph, visited), |queue|, 1
  {
    hide Bfs, Offers, Pushed, InScope, EdgeCount, StartsWith, AfterHit;
    StartsWithShorter(output, output, GraphTraversalHit(0, 0, None));
    if queue == [] {
      NothingQueued(graph, search, maxDepth, bound, visited, output);
    } else {
      var x, rest := queue[0], queue[1..];
      if x.depth > maxDepth || x.node in visited {
        StaleStep(graph, search, maxDepth, bound, queue, visited, output);
        BfsExtends(graph, search, maxDepth, bound, rest, visited, output);
      } else if !InScope(graph, search, x.node) {
        VisitShrinks(graph, visited, x.node);
        OutOfScopeStep(graph, search, maxDepth, bound, queue, visited, output);
        BfsExtends(graph, search, maxDepth, bound, rest, visited + {x.node}, output);
      } else {
        HitStep(graph, search, maxDepth, bound, queue, visited, output);
        HitExtends(graph, search, maxDepth, bound, queue, visited, output);
      }
    }
  }

  lemma {:induction false} HitExtends(graph: Graph, search: Search, maxDepth: nat, bound: Option<nat>, queue: seq<Entry>, visited: set<nat>, output: Hits)
    requires queue != [] && queue[0].node !in visited && InScope(graph, search, queue[0].node)
    ensures StartsWith(AfterHit(graph, search, maxDepth, bound, queue, visited, output), output)
    decreases Unvisited(graph, visited), |queue|, 0
  {
    hide Bfs, Offers, Pushed, EdgeCount, StartsWith;
    var x, more := queue[0], output + [HitOf(queue[0])];
    VisitShrinks(graph, visited, x.node);
    var offers := Offers(search, graph[x.node].edges, x.depth + 1);
    if !(bound.Some? && |more| >= bound.value) {
      BfsExtends(graph, search, maxDepth, bound, queue[1..] + Pushed(bound, |more|, queue[1..], offers), visited + {x.node}, more);
    }
    StartsWithShorter(AfterHit(graph, search, maxDepth, bound, queue, visited, output), output, HitOf(x));
    StartsWithShorter(more, more, HitOf(x));
  }

  lemma {:induction false} NothingQueued(graph: Graph, search: Search, maxDepth: nat, bound: Option<nat>, visited: set<nat>, output: Hits)
    ensures Bfs(graph, search, maxDepth, bound, [], visited, output) == output
  {
  }

  lemma InScopeStored(graph: Graph, search: Search, n: nat)
    requires InScope(graph, search, n)
    ensures n in graph
  {
  }

  /** A bound that is never reached changes nothing. */
  lemma {:induction false} AmpleBound(graph: Graph, search: Search, maxDepth: nat, bound: nat, queue: seq<Entry>, visited: set<nat>, output: Hits)
    requires |output| + |queue| + EdgeCount(graph - visited) < bound
    ensures Bfs(graph, search, maxDepth, Some(bound), queue, visited, output) == Bfs(graph, search, maxDepth, None, queue, visited, output)
    decreases Unvisited(graph, visited), |queue|
  {
    hide Offers, InScope, EdgeCount;
    if queue != [] {
      var x, rest := queue[0], queue[1..];
      if x.depth > maxDepth || x.node in visited {
        AmpleBound(graph, search, maxDepth, bound, rest, visited, output);
      } else {
        VisitCounts(graph, visited, x.node);
        VisitShrinks(graph, visited, x.node);
        if !InScope(graph, search, x.node) {
          AmpleBound(graph, search, maxDepth, bound, rest, visited + {x.node}, output);
        } else {
          InScopeStored(graph, search, x.node);
          var offers := Offers(search, graph[x.node].edges, x.depth + 1);
          AmpleBound(graph, search, maxDepth, bound, rest + offers, visited + {x.node}, output + [HitOf(x)]);
        }
      }
    }
  }

  // ---------------------------------------------------------------- cut searches

  /** After an entry was refused for lack of room, the bounded search drops one that was queued: its node
      was visited already or is out of scope. That makes room again, for entries behind the refused one. */
  predicate Disturbed(graph: Graph, search: Search, maxDepth: nat, bound: nat, queue: seq<Entry>, visited: set<nat>, output: Hits, refused: bool)
    decreases Unvisited(graph, visited), |queue|
  {
    if queue == [] || queue[0].depth > maxDepth then false
    else
      var x, rest := queue[0], queue[1..];
      if x.node in visited then refused || Disturbed(graph, search, maxDepth, bound, rest, visited, output, refused)
      else
        VisitShrinks(graph, visited, x.node);
        if !InScope(graph, search, x.node) then
          refused || Disturbed(graph, search, maxDepth, bound, rest, visited + {x.node}, output, refused)
        else
          var more := output + [HitOf(x)];
          if |more| >= bound then false
          else
            var offers := Offers(search, graph[x.node].edges, x.depth + 1);
            var pushed := Pushed(Some(bound), |more|, rest, offers);
            Disturbed(graph, search, maxDepth, bound, rest + pushed, visited + {x.node}, more, refused || |pushed| < |offers|)
  }

  lemma {:induction false} AllTooDeep(graph: Graph, search: Search, maxDepth: nat, bound: Option<nat>, queue: seq<Entry>, visited: set<nat>, output: Hits)
    requires forall i | 0 <= i < |queue| :: queue[i].depth > maxDepth
    ensures Bfs(graph, search, maxDepth, bound, queue, visited, output) == output
    decreases |queue|
  {
    if queue != [] {
      AllTooDeep(graph, search, maxDepth, bound, queue[1..], visited, output);
    }
  }

  lemma NextQueues(bound: nat, output: Hits, qb: seq<Entry>, qu: seq<Entry>, offers: seq<Entry>, refused: bool)
    requires qb != [] && qb <= qu && |output| + 1 < bound && |output| + |qb| <= bound
    requires if refused then |output| + |qb| == bound else qb == qu
    ensures var pushed := Pushed(Some(bound), |output| + 1, qb[1..], offers);
            var nb, nu := qb[1..] + pushed, qu[1..] + offers;
            && nb <= nu && |output| + 1 + |nb| <= bound
            && pushed == Take(bound - (|output| + 1) - |qb[1..]|, offers)
            && if refused || |pushed| < |offers| then |output| + 1 + |nb| == bound else nb == nu
  {
  }

  /** As long as it is not disturbed, a bounded search finds a prefix of what the unbounded one finds. */
  lemma {:induction false} CutStaysPrefix(graph: Graph, search: Search, maxDepth: nat, bound: nat, qb: seq<Entry>, qu: seq<Entry>,
                                          visited: set<nat>, output: Hits, floor: nat, refused: bool)
    requires qb <= qu && |output| < bound && |output| + |qb| <= bound && Layered(output, qb, floor)
    requires if refused then |output| + |qb| == bound else qb == qu
    requires !Disturbed(graph, search, maxDepth, bound, qb, visited, output, refused)
    ensures Bfs(graph, search, maxDepth, Some(bound), qb, visited, output) <= Bfs(graph, search, maxDepth, None, qu, visited, output)
    decreases Unvisited(graph, visited), |qb|
  {
    hide Offers, InScope, EdgeCount, Pushed;
    BfsExtends(graph, search, maxDepth, None, qu, visited, output);
    if qb != [] {
      var x, rest := qb[0], qb[1..];
      Popped(output, qb, floor);
      if x.depth > maxDepth {
        AllTooDeep(graph, search, maxDepth, Some(bound), qb, visited, output);
      } else if x.node in visited {
        CutStaysPrefix(graph, search, maxDepth, bound, rest, qu[1..], visited, output, x.depth, refused);
      } else {
        VisitShrinks(graph, visited, x.node);
        if !InScope(graph, search, x.node) {
          CutStaysPrefix(graph, search, maxDepth, bound, rest, qu[1..], visited + {x.node}, output, x.depth, refused);
        } else {
          InScopeStored(graph, search, x.node);
          CutHit(graph, search, maxDepth, bound, qb, qu, visited, output, floor, refused);
        }
      }
    }
  }

  lemma {:induction false} CutHit(graph: Graph, search: Search, maxDepth: nat, bound: nat, qb: seq<Entry>, qu: seq<Entry>,
                                  visited: set<nat>, output: Hits, floor: nat, refused: bool)
    requires qb != [] && qb <= qu && |output| < bound && |output| + |qb| <= bound && Layered(output, qb, floor)
    requires if refused then |output| + |qb| == bound else qb == qu
    requires !Disturbed(graph, search, maxDepth, bound, qb, visited, output, refused)
    requires qb[0].depth <= maxDepth && qb[0].node !in visited && InScope(graph, search, qb[0].node)
    ensures Bfs(graph, search, maxDepth, Some(bound), qb, visited, output) <= Bfs(graph, search, maxDepth, None, qu, visited, output)
    decreases Unvisited(graph, visited), |qb|, 0
  {
    hide Offers, EdgeCount, Pushed, Layered;
    var x, rest := qb[0], qb[1..];
    VisitShrinks(graph, visited, x.node);
    var more := output + [HitOf(x)];
    var offers := Offers(search, graph[x.node].edges, x.depth + 1);
    BfsExtends(graph, search, maxDepth, None, qu[1..] + offers, visited + {x.node}, more);
    assert Pushed(None, |more|, qu[1..], offers) == offers by { UnboundedPush(|more|, qu[1..], offers); }
    if |more| < bound {
      NextQueues(bound, output, qb, qu, offers, refused);
      var pushed := Pushed(Some(bound), |more|, rest, offers);
      TakeIn(bound - |more| - |rest|, offers);
      LayeredAgain(output, qb, floor, pushed);
      CutStaysPrefix(graph, search, maxDepth, bound, rest + pushed, qu[1..] + offers, visited + {x.node}, more, x.depth, refused || |pushed| < |offers|);
    }
  }

  lemma UnboundedPush(hits: nat, queue: seq<Entry>, offers: seq<Entry>)
    ensures Pushed(None, hits, queue, offers) == offers
  {
  }

  /** What a cut search returns: unless it is disturbed, a prefix of the uncut search. */
  lemma {:induction false} CutSearchIsPrefix(graph: Graph, search: Search, maxDepth: nat, bound: nat)
    requires bound > 0 && !Disturbed(graph, search, maxDepth, bound, [Entry(search.start, 0, None)], {}, [], false)
    ensures SearchFrom(graph, search, maxDepth, Some(bound)) <= SearchFrom(graph, search, maxDepth, None)
  {
    var queue := [Entry(search.start, 0, None)];
    CutStaysPrefix(graph, search, maxDepth, bound, queue, queue, {}, [], 0, false);
  }

  /** The uncut search is the bounded one for any bound beyond one plus the number of edges. */
  lemma {:induction false} UncutSearch(graph: Graph, search: Search, maxDepth: nat, bound: nat)
    requires bound > 1 + EdgeCount(graph)
    ensures SearchFrom(graph, search, maxDepth, Some(bound)) == SearchFrom(graph, search, maxDepth, None)
  {
    assert graph - {} == graph;
    AmpleBound(graph, search, maxDepth, bound, [Entry(search.start, 0, None)], {}, []);
  }

  // ---------------------------------------------------------------- what a search finds

  /** What holds between two steps of a bounded search; `ample` says that the bound exceeds one plus the
      number of edges. */
  ghost predicate Underway(graph: Graph, search: Search, maxDepth: nat, bound: nat, ample: bool,
                           queue: seq<Entry>, visited: set<nat>, output: Hits, floor: nat)
  {
    && |output| < bound && (ample ==> bound > 1 + EdgeCount(graph))
    && Sound(graph, search, maxDepth, output) && Layered(output, queue, floor) && Tracked(graph, search, output, visited)
    && (forall x | x in queue :: Justified(graph, search, output, x))
    && |output| + |queue| + EdgeCount(graph - visited) <= 1 + EdgeCount(graph)
    && (ample ==> Pursued(graph, search, maxDepth, output, queue) && StartPursued(graph, search, output, queue))
  }

  ghost predicate Answers(graph: Graph, search: Search, maxDepth: nat, bound: nat, ample: bool, output: Hits) {
    Sound(graph, search, maxDepth, output) && |output| <= bound && (ample ==> Complete(graph, search, maxDepth, output))
  }

  lemma StaleUnderway(graph: Graph, search: Search, maxDepth: nat, bound: nat, ample: bool, queue: seq<Entry>, visited: set<nat>, output: Hits, floor: nat)
    requires queue != [] && Underway(graph, search, maxDepth, bound, ample, queue, visited, output, floor)
    requires queue[0].depth > maxDepth || queue[0].node in visited
    ensures Underway(graph, search, maxDepth, bound, ample, queue[1..], visited, output, queue[0].depth)
  {
    hide Sound, Layered, Tracked, Pursued, StartPursued, Justified, EdgeCount;
    assert forall x | x in queue[1..] :: x in queue;
    Popped(output, queue, floor);
    if ample { DropStale(graph, search, maxDepth, output, queue, visited, floor); }
  }

  lemma OutOfScopeUnderway(graph: Graph, search: Search, maxDepth: nat, bound: nat, ample: bool, queue: seq<Entry>, visited: set<nat>, output: Hits, floor: nat)
    requires queue != [] && Underway(graph, search, maxDepth, bound, ample, queue, visited, output, floor)
    requires queue[0].node !in visited && !InScope(graph, search, queue[0].node)
    ensures Underway(graph, search, maxDepth, bound, ample, queue[1..], visited + {queue[0].node}, output, queue[0].depth)
  {
    hide Sound, Layered, Tracked, Pursued, StartPursued, Justified, EdgeCount, InScope;
    assert forall x | x in queue[1..] :: x in queue;
    Popped(output, queue, floor);
    VisitCounts(graph, visited, queue[0].node);
    TrackOutOfScope(graph, search, output, visited, queue[0].node);
    if ample { DropOutOfScope(graph, search, maxDepth, output, queue); }
  }

  lemma {:induction false} HitUnderway(graph: Graph, search: Search, maxDepth: nat, bound: nat, ample: bool, queue: seq<Entry>, visited: set<nat>, output: Hits, floor: nat)
    requires queue != [] && Underway(graph, search, maxDepth, bound, ample, queue, visited, output, floor) && |output| + 1 < bound
    requires queue[0].depth <= maxDepth && queue[0].node !in visited && InScope(graph, search, queue[0].node)
    ensures var x, more := queue[0], output + [HitOf(queue[0])];
            var offers := Offers(search, graph[x.node].edges, x.depth + 1);
            Underway(graph, search, maxDepth, bound, ample, queue[1..] + Pushed(Some(bound), |more|, queue[1..], offers), visited + {x.node}, more, x.depth)
  {
    hide Sound, Layered, Tracked, Pursued, StartPursued, Justified, EdgeCount, Offers;
    var x := queue[0];
    VisitCounts(graph, visited, x.node);
    HitIsSound(graph, search, maxDepth, output, queue, visited, floor);
    var room := bound - (|output| + 1) - |queue[1..]|;
    Expanded(graph, search, output, queue, floor, room);
    if ample {
      WithinRoom(search, graph[x.node].edges, x.depth + 1, room);
      StillPursued(graph, search, maxDepth, output, queue);
    }
  }

  /** A bounded search from any point of its run finds what it should. */
  lemma {:induction false} BfsAnswers(graph: Graph, search: Search, maxDepth: nat, bound: nat, ample: bool, queue: seq<Entry>, visited: set<nat>, output: Hits,
                                      floor: nat)
    requires Underway(graph, search, maxDepth, bound, ample, queue, visited, output, floor)
    ensures Answers(graph, search, maxDepth, bound, ample, Bfs(graph, search, maxDepth, Some(bound), queue, visited, output))
    decreases Unvisited(graph, visited), |queue|, 1
  {
    hide Bfs, Underway, Answers, Offers, Pushed, InScope, EdgeCount, AfterHit;
    if queue == [] {
      NothingQueued(graph, search, maxDepth, Some(bound), visited, output);
      EmptyAnswers(graph, search, maxDepth, bound, ample, visited, output, floor);
    } else {
      var x, rest := queue[0], queue[1..];
      if x.depth > maxDepth || x.node in visited {
        StaleStep(graph, search, maxDepth, Some(bound), queue, visited, output);
        StaleUnderway(graph, search, maxDepth, bound, ample, queue, visited, output, floor);
        BfsAnswers(graph, search, maxDepth, bound, ample, rest, visited, output, x.depth);
      } else if !InScope(graph, search, x.node) {
        VisitShrinks(graph, visited, x.node);
        OutOfScopeStep(graph, search, maxDepth, Some(bound), queue, visited, output);
        OutOfScopeUnderway(graph, search, maxDepth, bound, ample, queue, visited, output, floor);
        BfsAnswers(graph, search, maxDepth, bound, ample, rest, visited + {x.node}, output, x.depth);
      } else {
        HitStep(graph, search, maxDepth, Some(bound), queue, visited, output);
        HitAnswers(graph, search, maxDepth, bound, ample, queue, visited, output, floor);
      }
    }
  }

  lemma {:induction false} HitAnswers(graph: Graph, search: Search, maxDepth: nat, bound: nat, ample: bool, queue: seq<Entry>, visited: set<nat>, output: Hits,
                                      floor: nat)
    requires queue != [] && Underway(graph, search, maxDepth, bound, ample, queue, visited, output, floor)
    requires queue[0].depth <= maxDepth && queue[0].node !in visited && InScope(graph, search, queue[0].node)
    ensures Answers(graph, search, maxDepth, bound, ample, AfterHit(graph, search, maxDepth, Some(bound), queue, visited, output))
    decreases Unvisited(graph, visited), |queue|, 0
  {
    hide Bfs, Underway, Answers, Offers, Pushed, EdgeCount;
    var x, more := queue[0], output + [HitOf(queue[0])];
    VisitShrinks(graph, visited, x.node);
    if |more| < bound {
      HitUnderway(graph, search, maxDepth, bound, ample, queue, visited, output, floor);
      var offers := Offers(search, graph[x.node].edges, x.depth + 1);
      BfsAnswers(graph, search, maxDepth, bound, ample, queue[1..] + Pushed(Some(bound), |more|, queue[1..], offers), visited + {x.node}, more, x.depth);
    } else {
      FullAnswers(graph, search, maxDepth, bound, ample, queue, visited, output, floor);
    }
  }

  /** A full result is sound; an ample bound is never filled. */
  lemma FullAnswers(graph: Graph, search: Search, maxDepth: nat, bound: nat, ample: bool, queue: seq<Entry>, visited: set<nat>, output: Hits, floor: nat)
    requires queue != [] && Underway(graph, search, maxDepth, bound, ample, queue, visited, output, floor) && |output| + 1 >= bound
    requires queue[0].depth <= maxDepth && queue[0].node !in visited && InScope(graph, search, queue[0].node)
    ensures Answers(graph, search, maxDepth, bound, ample, output + [HitOf(queue[0])])
  {
    hide Sound, Layered, Tracked, Pursued, StartPursued, Justified, EdgeCount;
    HitIsSound(graph, search, maxDepth, output, queue, visited, floor);
  }

  lemma EmptyAnswers(graph: Graph, search: Search, maxDepth: nat, bound: nat, ample: bool, visited: set<nat>, output: Hits, floor: nat)
    requires Underway(graph, search, maxDepth, bound, ample, [], visited, output, floor)
    ensures Answers(graph, search, maxDepth, bound, ample, output)
  {
    hide Sound, Layered, Tracked, Pursued, StartPursued, Justified, EdgeCount, Complete;
    if ample { NothingLeft(graph, search, maxDepth, output); }
  }

  /** A bounded search: distinct in-scope hits in order of depth along real paths, at most `bound` of them,
      and all that can be reached if the bound exceeds one plus the number of edges. */
  lemma {:induction false} SearchAnswers(graph: Graph, search: Search, maxDepth: nat, bound: nat)
    requires bound > 0
    ensures var output := SearchFrom(graph, search, maxDepth, Some(bound));
            && Sound(graph, search, maxDepth, output) && |output| <= bound
            && (bound > 1 + EdgeCount(graph) ==> Complete(graph, search, maxDepth, output))
  {
    hide Sound, Layered, Tracked, Pursued, StartPursued, Justified, EdgeCount, Complete, Bfs;
    var x := Entry(search.start, 0, None);
    Initially(graph, search, maxDepth, x);
    BfsAnswers(graph, search, maxDepth, bound, bound > 1 + EdgeCount(graph), [x], {}, [], 0);
  }

  lemma {:induction false} StartSearch(graph: Graph, search: Search, maxDepth: nat, bound: nat)
    ensures SearchFrom(graph, search, maxDepth, Some(bound)) == Bfs(graph, search, maxDepth, Some(bound), [Entry(search.start, 0, None)], {}, [])
  {
  }

  lemma {:induction false} FullStep(graph: Graph, search: Search, maxDepth: nat, bound: nat, queue: seq<Entry>, visited: set<nat>, output: Hits, more: Hits)
    requires queue != [] && queue[0].depth <= maxDepth && queue[0].node !in visited && InScope(graph, search, queue[0].node)
    requires more == output + [HitOf(queue[0])] && |more| >= bound
    ensures Bfs(graph, search, maxDepth, Some(bound), queue, visited, output) == more
  {
    hide Bfs;
    HitStep(graph, search, maxDepth, Some(bound), queue, visited, output);
  }

  lemma {:induction false} PushStep(graph: Graph, search: Search, maxDepth: nat, bound: nat, queue: seq<Entry>, visited: set<nat>, output: Hits, more: Hits,
                 next: seq<Entry>, seen: set<nat>)
    requires queue != [] && queue[0].depth <= maxDepth && queue[0].node !in visited && InScope(graph, search, queue[0].node)
    requires more == output + [HitOf(queue[0])] && |more| < bound && seen == visited + {queue[0].node}
    requires Extended(search, graph[queue[0].node].edges, queue[0].depth + 1, queue[1..], |more|, bound, next)
    ensures Bfs(graph, search, maxDepth, Some(bound), queue, visited, output) == Bfs(graph, search, maxDepth, Some(bound), next, seen, more)
  {
    hide Bfs, Offers, Take;
    HitStep(graph, search, maxDepth, Some(bound), queue, visited, output);
  }

  /** Read off the stored records: every hit has a record, of the asked session if one is asked for, and was
      reached by an asked predicate if any are asked for. */
  ghost predicate StaysInside(graph: Graph, search: Search, maxDepth: nat, output: Hits) {
    forall h | h in output ::
      && h.depth <= maxDepth && h.nodeId in graph
      && (search.scope.Some? ==> graph[h.nodeId].sessionId == search.scope)
      && (search.filters.Some? && h.viaPredicate.Some? ==> h.viaPredicate.value in search.filters.value)
  }

  /** Nothing the search may follow is left out: every stored edge of a hit above the depth bound, if its
      predicate is asked for and its target has a record in scope, leads to a hit no deeper than one level
      further down. */
  ghost predicate LeavesNothingOut(graph: Graph, search: Search, maxDepth: nat, output: Hits) {
    forall h, e | h in output && h.depth < maxDepth && h.nodeId in graph && e in graph[h.nodeId].edges
                  && (search.filters.Some? ==> e.predicateName in search.filters.value)
                  && e.to in graph && (search.scope.Some? ==> graph[e.to].sessionId == search.scope) ::
      FoundWithin(output, e.to, h.depth + 1)
  }

  lemma SoundStaysInside(graph: Graph, search: Search, maxDepth: nat, output: Hits)
    requires Sound(graph, search, maxDepth, output)
    ensures StaysInside(graph, search, maxDepth, output)
  {
    hide AtDistance;
    forall h | h in output
      ensures h.depth <= maxDepth && h.nodeId in graph
      ensures search.scope.Some? ==> graph[h.nodeId].sessionId == search.scope
      ensures search.filters.Some? && h.viaPredicate.Some? ==> h.viaPredicate.value in search.filters.value
    {
      var i :| 0 <= i < |output| && output[i] == h;
      assert InScope(graph, search, h.nodeId) && Explained(graph, search, output, i);
    }
  }

  lemma CompleteLeavesNothingOut(graph: Graph, search: Search, maxDepth: nat, output: Hits)
    requires Sound(graph, search, maxDepth, output) && Complete(graph, search, maxDepth, output)
    ensures LeavesNothingOut(graph, search, maxDepth, output)
  {
    hide Explained, FoundWithin;
    forall h, e | h in output && h.depth < maxDepth && h.nodeId in graph && e in graph[h.nodeId].edges
                  && (search.filters.Some? ==> e.predicateName in search.filters.value)
                  && e.to in graph && (search.scope.Some? ==> graph[e.to].sessionId == search.scope)
      ensures FoundWithin(output, e.to, h.depth + 1)
    {
      var i :| 0 <= i < |output| && output[i] == h;
      assert AtDistance(graph, search, h.nodeId, h.depth);
      var p :| PathTo(graph, search, p, h.nodeId, h.depth);
      assert Allowed(search, e) && HasEdge(graph, search, h.nodeId, e.to);
      assert PathTo(graph, search, p + [e.to], e.to, h.depth + 1);
    }
  }

  /** A start with a record in scope is the first hit. */
  lemma {:induction false} StartIsFirst(graph: Graph, search: Search, maxDepth: nat, bound: nat)
    requires bound > 0 && search.start in graph && (search.scope.Some? ==> graph[search.start].sessionId == search.scope)
    ensures StartsWith(SearchFrom(graph, search, maxDepth, Some(bound)), [GraphTraversalHit(search.start, 0, None)])
  {
    hide Bfs, Offers, Pushed;
    var x := Entry(search.start, 0, None);
    var first := [GraphTraversalHit(search.start, 0, None)];
    assert [] + [HitOf(x)] == first;
    HitStep(graph, search, maxDepth, Some(bound), [x], {}, []);
    StartsWithShorter(first, first, first[0]);
    if bound > 1 {
      var offers := Offers(search, graph[x.node].edges, 1);
      BfsExtends(graph, search, maxDepth, Some(bound), [x][1..] + Pushed(Some(bound), 1, [x][1..], offers), {} + {x.node}, first);
    }
  }

  /** `traverse`: the same loop over the stored edge files and over the in-memory adjacency map. */
  method TraverseGraph(graph: Graph, search: Search, maxDepth: nat, maxHits: nat) returns (output: Hits)
    ensures output == SearchFrom(graph, search, maxDepth, Some(if maxHits > 1 then maxHits else 1))
    ensures Sound(graph, search, maxDepth, output)
    ensures |output| <= if maxHits > 1 then maxHits else 1
    ensures maxHits > 1 + EdgeCount(graph) ==> Complete(graph, search, maxDepth, output)
    ensures StaysInside(graph, search, maxDepth, output)
    ensures maxHits > 1 + EdgeCount(graph) ==> LeavesNothingOut(graph, search, maxDepth, output)
    ensures search.start in graph && (search.scope.Some? ==> graph[search.start].sessionId == search.scope) ==>
              output != [] && output[0] == GraphTraversalHit(search.start, 0, None)
  {
    hide StaysInside, LeavesNothingOut, EdgeCount, Sound, Complete, InScope, Bfs, SearchFrom, Extended, Unvisited;
    var bound := if maxHits > 1 then maxHits else 1;
    SearchAnswers(graph, search, maxDepth, bound);
    StartSearch(graph, search, maxDepth, bound);
    SoundStaysInside(graph, search, maxDepth, SearchFrom(graph, search, maxDepth, Some(bound)));
    if maxHits > 1 + EdgeCount(graph) {
      CompleteLeavesNothingOut(graph, search, maxDepth, SearchFrom(graph, search, maxDepth, Some(bound)));
    }
    if search.start in graph && (search.scope.Some? ==> graph[search.start].sessionId == search.scope) {
      StartIsFirst(graph, search, maxDepth, bound);
    }
    ghost var answer := SearchFrom(graph, search, maxDepth, Some(bound));
    var visited: set<nat> := {};
    var queue := [Entry(search.start, 0, None)];
    output := [];
    while queue != []
      invariant Bfs(graph, search, maxDepth, Some(bound), queue, visited, output) == answer
      decreases Unvisited(graph, visited), |queue|
    {
      var entry := queue[0];
      ghost var before, seen, hits := queue, visited, output;
      queue := queue[1..];
      if entry.depth > maxDepth || entry.node in visited {
        StaleStep(graph, search, maxDepth, Some(bound), before, visited, output);
        continue;
      }
      VisitShrinks(graph, visited, entry.node);
      visited := visited + {entry.node};
      if !InScope(graph, search, entry.node) {
        OutOfScopeStep(graph, search, maxDepth, Some(bound), before, seen, output);
        continue;
      }
      InScopeStored(graph, search, entry.node);
      var record := graph[entry.node];
      output := output + [HitOf(entry)];
      if |output| >= bound {
        FullStep(graph, search, maxDepth, bound, before, seen, hits, output);
        return;
      }
      queue := PushEdges(search, record.edges, entry.depth + 1, queue, |output|, bound);
      PushStep(graph, search, maxDepth, bound, before, seen, hits, output, queue, visited);
    }
    NothingQueued(graph, search, maxDepth, Some(bound), visited, output);
  }

  lemma {:induction false} WithinRoom(search: Search, edges: seq<GraphEdge>, depth: nat, room: int)
    requires |edges| <= room
    ensures Take(room, Offers(search, edges, depth)) == Offers(search, edges, depth)
  {
  }
}
