/** A concrete graph on which a search cut by `max_hits` is not the beginning of the uncut one. */
module TraverseExamples {
  import opened Domain
  import opened StoreModel
  import opened Traverse

  /** Node 0 refers to itself, 1 and 2; node 1 refers to 3. */
  function Fan(): Graph {
    map[
      0 := StoredGraphEdges(0, None, [GraphEdge(0, "reference"), GraphEdge(1, "reference"), GraphEdge(2, "reference")]),
      1 := StoredGraphEdges(1, None, [GraphEdge(3, "reference")]),
      2 := StoredGraphEdges(2, None, []),
      3 := StoredGraphEdges(3, None, [])
    ]
  }

  /** A cut search is not a prefix of the uncut one in general: cut at three hits, the search of `Fan` refuses
      node 2, drops the reference of node 0 to itself, and so has room for node 3. */
  lemma CutSearchCanSkip()
    ensures var search := Search(0, None, None);
            !(SearchFrom(Fan(), search, 5, Some(3)) <= SearchFrom(Fan(), search, 5, None))
  {
    var search, r := Search(0, None, None), Some("reference");
    hide SearchFrom, Fan;
    CutFan(search, r);
    UncutFan(search, r);
    var cut, uncut := SearchFrom(Fan(), search, 5, Some(3)), SearchFrom(Fan(), search, 5, None);
    assert cut[2].nodeId == 3;
    assert uncut[2].nodeId == 2;
  }

  lemma FanInScope(search: Search)
    requires search.scope.None?
    ensures forall n | n in {0, 1, 2, 3} :: n in Fan() && InScope(Fan(), search, n)
  {
  }

  lemma {:induction false} ReferenceOffers(search: Search, edges: seq<GraphEdge>, to: nat, depth: nat)
    requires search.filters.None?
    ensures Offers(search, edges + [GraphEdge(to, "reference")], depth) == Offers(search, edges, depth) + [Entry(to, depth, Some("reference"))]
  {
    OffersSnoc(search, edges, GraphEdge(to, "reference"), depth);
  }

  lemma {:induction false} FanEdges(search: Search, depth: nat)
    requires search.filters.None?
    ensures 0 in Fan() && 1 in Fan() && 2 in Fan()
    ensures Offers(search, Fan()[0].edges, depth)
         == [Entry(0, depth, Some("reference")), Entry(1, depth, Some("reference")), Entry(2, depth, Some("reference"))]
    ensures Offers(search, Fan()[1].edges, depth) == [Entry(3, depth, Some("reference"))]
  {
    hide Offers;
    NoOffers(search, depth);
    ReferenceOffers(search, [], 0, depth);
    ReferenceOffers(search, [] + [GraphEdge(0, "reference")], 1, depth);
    ReferenceOffers(search, [] + [GraphEdge(0, "reference")] + [GraphEdge(1, "reference")], 2, depth);
    ReferenceOffers(search, [], 3, depth);
    assert Fan()[0].edges == [] + [GraphEdge(0, "reference")] + [GraphEdge(1, "reference")] + [GraphEdge(2, "reference")];
    assert Fan()[1].edges == [] + [GraphEdge(3, "reference")];
  }

  lemma CutFan(search: Search, r: Option<string>)
    requires search == Search(0, None, None) && r == Some("reference")
    ensures SearchFrom(Fan(), search, 5, Some(3)) == [GraphTraversalHit(0, 0, None), GraphTraversalHit(1, 1, r), GraphTraversalHit(3, 2, r)]
  {
    hide Bfs, Offers, InScope, Fan;
    FanInScope(search);
    FanEdges(search, 1);
    FanEdges(search, 2);
    var start, h0 := [Entry(0, 0, None)], [GraphTraversalHit(0, 0, None)];
    HitStep(Fan(), search, 5, Some(3), start, {}, []);
    var q1 := [Entry(0, 1, r), Entry(1, 1, r)];
    assert [] + [HitOf(start[0])] == h0;
    assert start[1..] + Pushed(Some(3), 1, start[1..], Offers(search, Fan()[0].edges, 1)) == q1;
    StaleStep(Fan(), search, 5, Some(3), q1, {0}, h0);
    var q2 := [Entry(1, 1, r)];
    assert q1[1..] == q2 && {} + {0} == {0};
    HitStep(Fan(), search, 5, Some(3), q2, {0}, h0);
    var h1, q3 := h0 + [GraphTraversalHit(1, 1, r)], [Entry(3, 2, r)];
    assert q2[1..] + Pushed(Some(3), 2, q2[1..], Offers(search, Fan()[1].edges, 2)) == q3;
    HitStep(Fan(), search, 5, Some(3), q3, {0} + {1}, h1);
  }

  lemma UncutFan(search: Search, r: Option<string>)
    requires search == Search(0, None, None) && r == Some("reference")
    ensures [GraphTraversalHit(0, 0, None), GraphTraversalHit(1, 1, r), GraphTraversalHit(2, 1, r)] <= SearchFrom(Fan(), search, 5, None)
  {
    hide Bfs, Offers, InScope, Fan;
    FanInScope(search);
    FanEdges(search, 1);
    FanEdges(search, 2);
    var start, h0 := [Entry(0, 0, None)], [GraphTraversalHit(0, 0, None)];
    HitStep(Fan(), search, 5, None, start, {}, []);
    var q1 := [Entry(0, 1, r), Entry(1, 1, r), Entry(2, 1, r)];
    assert [] + [HitOf(start[0])] == h0;
    assert start[1..] + Pushed(None, 1, start[1..], Offers(search, Fan()[0].edges, 1)) == q1;
    StaleStep(Fan(), search, 5, None, q1, {0}, h0);
    var q2 := [Entry(1, 1, r), Entry(2, 1, r)];
    assert q1[1..] == q2 && {} + {0} == {0};
    HitStep(Fan(), search, 5, None, q2, {0}, h0);
    var h1, q3 := h0 + [GraphTraversalHit(1, 1, r)], [Entry(2, 1, r), Entry(3, 2, r)];
    assert q2[1..] + Pushed(None, 2, q2[1..], Offers(search, Fan()[1].edges, 2)) == q3;
    HitStep(Fan(), search, 5, None, q3, {0} + {1}, h1);
    var h2 := h1 + [GraphTraversalHit(2, 1, r)];
    BfsExtends(Fan(), search, 5, None, q3[1..] + Offers(search, Fan()[2].edges, 2), {0} + {1} + {2}, h2);
  }
}
