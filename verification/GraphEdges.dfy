/** The edge list an abstract node is stored with: exactly its references and its parseable relations,
    each once, in the order every reader relies on. */
module GraphEdges {
  import opened Domain
  import opened StoreModel
  import opened TextOrder

  ghost predicate EdgesSorted(edges: seq<GraphEdge>) {
    forall i, j | 0 <= i < j < |edges| :: EdgeBefore(edges[i], edges[j])
  }

  lemma EdgesTransitive(a: GraphEdge, b: GraphEdge, c: GraphEdge)
    requires EdgeBefore(a, b) && EdgeBefore(b, c)
    ensures EdgeBefore(a, c)
  {
    if StringBefore(a.predicateName, b.predicateName) && StringBefore(b.predicateName, c.predicateName) {
      StringsTransitive(a.predicateName, b.predicateName, c.predicateName);
    }
  }

  lemma {:induction false} AddEdgeSorted(edges: seq<GraphEdge>, e: GraphEdge)
    requires EdgesSorted(edges)
    ensures EdgesSorted(AddEdge(edges, e))
    decreases |edges|
  {
    if edges != [] && edges[0] != e {
      var head, rest := edges[0], edges[1..];
      StringsOrdered(e.predicateName, head.predicateName);
      assert EdgesSorted(rest);
      if EdgeBefore(e, head) {
        forall i | 0 <= i < |edges|
          ensures EdgeBefore(e, edges[i])
        {
          if i > 0 { EdgesTransitive(e, head, edges[i]); }
        }
      } else {
        assert EdgeBefore(head, e);
        AddEdgeSorted(rest, e);
        HeadFirst(head, rest, e);
      }
    }
  }

  lemma {:induction false} HeadFirst(head: GraphEdge, rest: seq<GraphEdge>, e: GraphEdge)
    requires EdgesSorted([head] + rest) && EdgesSorted(AddEdge(rest, e)) && EdgeBefore(head, e)
    ensures EdgesSorted([head] + AddEdge(rest, e))
  {
    var added := AddEdge(rest, e);
    forall x | x in added
      ensures EdgeBefore(head, x)
    {
      if x in rest {
        var i :| 0 <= i < |rest| && rest[i] == x;
        var all := [head] + rest;
        assert all[i + 1] == x && EdgeBefore(all[0], all[i + 1]);
      }
    }
    assert forall i | 0 <= i < |added| :: added[i] in added;
  }

  ghost predicate IsReference(ids: seq<nat>, e: GraphEdge) {
    e.predicateName == "reference" && e.to in ids
  }

  ghost predicate IsRelation(relations: seq<Relation>, e: GraphEdge) {
    exists r :: r in relations && PARSE_ABSTRACT_ID(r.target) == Some(e.to) && r.predicateName == e.predicateName
  }

  lemma {:induction false} ReferenceEdgesAre(ids: seq<nat>, edges: seq<GraphEdge>, e: GraphEdge)
    requires EdgesSorted(edges)
    ensures EdgesSorted(ReferenceEdges(ids, edges))
    ensures e in ReferenceEdges(ids, edges) <==> e in edges || IsReference(ids, e)
    decreases |ids|
  {
    if ids != [] {
      AddEdgeSorted(edges, GraphEdge(ids[0], "reference"));
      ReferenceEdgesAre(ids[1..], AddEdge(edges, GraphEdge(ids[0], "reference")), e);
      assert ids == [ids[0]] + ids[1..];
    }
  }

  lemma {:induction false} RelationEdgesAre(relations: seq<Relation>, edges: seq<GraphEdge>, e: GraphEdge)
    requires EdgesSorted(edges)
    ensures EdgesSorted(RelationEdges(relations, edges))
    ensures e in RelationEdges(relations, edges) <==> e in edges || IsRelation(relations, e)
    decreases |relations|
  {
    if relations != [] {
      var r, rest := relations[0], relations[1..];
      var to := PARSE_ABSTRACT_ID(r.target);
      var next := if to.Some? then AddEdge(edges, GraphEdge(to.value, r.predicateName)) else edges;
      if to.Some? { AddEdgeSorted(edges, GraphEdge(to.value, r.predicateName)); }
      RelationEdgesAre(rest, next, e);
      assert relations == [r] + rest;
      assert IsRelation(relations, e) <==> (to == Some(e.to) && r.predicateName == e.predicateName) || IsRelation(rest, e);
    }
  }

  /** `edges_for_abstract`: no reference or parseable relation is lost, none is invented, none is listed
      twice, and the order is by predicate and target. */
  lemma EdgesForAbstractAre(node: AbstractNode, e: GraphEdge)
    ensures EdgesSorted(EdgesForAbstract(node))
    ensures e in EdgesForAbstract(node) <==> IsReference(node.abstractReferences, e) || IsRelation(node.relations, e)
  {
    ReferenceEdgesAre(node.abstractReferences, [], e);
    RelationEdgesAre(node.relations, ReferenceEdges(node.abstractReferences, []), e);
  }
}
