/** GenerateGraph: topology source, direction assignment, validation; and what it does to a
    directory tree. */
module GraphGeneration {
  import opened Wrappers
  import opened Paths
  import opened Graphs
  import opened AssignDirections
  import opened EdgeLists
  import opened InsertHubs
  import opened HubTheorems
  import opened HubTrees
  import opened HubDegrees

  datatype Topology = Topology(nodes: seq<RawNode>, edges: seq<RawEdge>, start: string)

  datatype GenerateError =
    | SourceFailed(message: string)
    | AssignFailed(assign: AssignError)
    | Invalid(validation: GraphError)

  ghost predicate Generates(t: Topology) {
    && DistinctIds(t.nodes) && t.start in Ids(t.nodes)
    && FitsSixSlots(BfsTree(t.edges, t.start))
    && forall v :: v in Ids(t.nodes) ==> Reaches(RawLinks(t.edges), t.start, v)
  }

  lemma LinksAreRaw(es: seq<Edge>)
    ensures Links(es) == RawLinks(RawEdges(es))
  {
  }

  /** A graph that is the search tree of its topology can only be rejected for unreachable nodes. */
  lemma AssignedIsValid(t: Topology, es: seq<Edge>)
    requires DistinctIds(t.nodes) && t.start in Ids(t.nodes) && FindsListedNodes(t.nodes, t.edges, t.start)
    requires SlotsUnique(es) && RawEdges(es) == BfsTree(t.edges, t.start)
    ensures forall v :: Reaches(Links(es), t.start, v) <==> Reaches(RawLinks(t.edges), t.start, v)
    ensures forall v, d: nat :: DistanceIs(Links(es), t.start, v, d) <==> DistanceIs(RawLinks(t.edges), t.start, v, d)
    ensures forall i :: 0 <= i < |es| ==> EdgeSound(Ids(t.nodes), es[i])
    ensures forall v :: DegreeOf(es, v) <= 6
  {
    BfsTreeSpans(t.edges, t.start);
    LinksAreRaw(es);
    forall i | 0 <= i < |es| ensures EdgeSound(Ids(t.nodes), es[i]) {
      var e := RawEdges(es)[i];
      assert e in BfsTree(t.edges, t.start);
      TreeIsReached(t.edges, t.start);
    }
    forall v ensures DegreeOf(es, v) <= 6 {
      DegreeAtMostSix(es, v);
    }
  }

  method GenerateGraph(source: Result<Topology, string>) returns (r: Result<Graph, GenerateError>)
    requires source.Ok? ==> FindsListedNodes(source.value.nodes, source.value.edges, source.value.start)
    ensures r.Ok? <==> source.Ok? && Generates(source.value)
    ensures r.Ok? ==>
      && fresh(r.value) && r.value.Built() && r.value.Start == source.value.start
      && r.value.Nodes.Keys == Ids(source.value.nodes)
      && ValidGraph(r.value.Nodes.Keys, r.value.Edges, r.value.Start)
      && RawEdges(r.value.Edges) == BfsTree(source.value.edges, source.value.start)
      && (forall v, d: nat :: DistanceIs(Links(r.value.Edges), r.value.Start, v, d)
                         <==> DistanceIs(RawLinks(source.value.edges), source.value.start, v, d))
    ensures r.Err? && r.error.Invalid? ==> r.error.validation.Unreachable?
  {
    if source.Err? {
      return Err(SourceFailed(source.error));
    }
    hide Reaches, DistanceIs, RawDegree, DegreeOf, SlotsUnique, Growth, BfsTree, FitsSixSlots;
    var t := source.value;
    var assignment := AssignDirections.AssignDirections(t.nodes, t.edges, t.start);
    if assignment.Err? {
      assert !Generates(t);
      return Err(AssignFailed(assignment.error));
    }
    var g := assignment.value;
    AssignedIsValid(t, g.Edges);
    var err := g.Validate();
    if err.Some? {
      return Err(Invalid(err.value));
    }
    return Ok(g);
  }

  // ---------- Directory trees ----------

  /** In a tree the search crosses every edge from parent to child. */
  lemma {:induction false} TreeEdgeKeepsItsDirection(nodes: seq<RawNode>, es: seq<RawEdge>, root: string,
                                                     t: seq<RawEdge>, e: RawEdge, d: nat)
    requires IsTree(nodes, es, root) && SpanningTree(t, es, root)
    requires e in t && DistanceIs(RawLinks(es), root, e.from, d)
    ensures e in es
    decreases d
  {
    hide IsWalk, Linked;
    var ls := RawLinks(es);
    var back := RawEdge(e.to, e.from, e.kind);
    assert Joined(es, e.from, e.to, e.kind);
    if e !in es {
      assert back in es;
      assert e.from in Ends(es);
      var d': nat :| DistanceIs(ls, root, e.from, d') && DistanceIs(ls, root, e.to, d' + 1);
      DistanceUnique(ls, root, e.from, d, d');
      KeepMembers(es, ToIs(e.from));
      assert back in Keep(es, ToIs(e.from));
      assert e.from != root;
      assert Reaches(ls, root, e.from);
      var f :| f in t && f.to == e.from;
      var c: nat :| DistanceIs(ls, root, f.from, c) && DistanceIs(ls, root, f.to, c + 1);
      DistanceUnique(ls, root, e.from, d, c + 1);
      TreeEdgeKeepsItsDirection(nodes, es, root, t, f, c);
      UniqueInEdge(es, e.from, back, f);
    }
  }

  lemma {:induction false} DistinctCount(s: seq<RawEdge>, x: RawEdge)
    requires forall i, j :: 0 <= i < j < |s| ==> s[i] != s[j]
    ensures multiset(s)[x] == if x in s then 1 else 0
  {
    if s != [] {
      var m := |s| - 1;
      DistinctCount(s[..m], x);
      assert s == s[..m] + [s[m]];
    }
  }

  lemma InDegreeDistinct(es: seq<RawEdge>, i: nat, j: nat)
    requires i < j < |es| && es[i] == es[j]
    ensures 2 <= InDegree(es, es[j].to)
  {
    var f := ToIs(es[j].to);
    assert es[..j + 1] == es[..j] + [es[j]] && es == es[..j + 1] + es[j + 1..];
    assert es[..j][i] == es[i];
    KeepMembers(es[..j], f);
    assert es[i] in Keep(es[..j], f);
    KeepMembers([es[j]], f);
    assert es[j] in Keep([es[j]], f);
    KeepConcat(es[..j], [es[j]], f);
    KeepConcat(es[..j + 1], es[j + 1..], f);
  }

  /** The search tree of a tree is the tree itself, edge for edge. */
  lemma TreeIsItsSearchTree(nodes: seq<RawNode>, es: seq<RawEdge>, root: string)
    requires IsTree(nodes, es, root)
    ensures multiset(BfsTree(es, root)) == multiset(es)
  {
    hide IsWalk, Linked, BfsTree, Keep, DistanceIs, RawLinks;
    var t := BfsTree(es, root);
    BfsTreeSpans(es, root);
    forall e | e in t ensures e in es {
      var d: nat :| DistanceIs(RawLinks(es), root, e.from, d) && DistanceIs(RawLinks(es), root, e.to, d + 1);
      TreeEdgeKeepsItsDirection(nodes, es, root, t, e, d);
    }
    forall e | e in es ensures e in t {
      assert e.to in Ends(es);
      KeepMembers(es, ToIs(e.to));
      assert e in Keep(es, ToIs(e.to));
      var f :| f in t && f.to == e.to;
      UniqueInEdge(es, e.to, e, f);
    }
    forall i, j | 0 <= i < j < |es| ensures es[i] != es[j] {
      if es[i] == es[j] {
        assert es[j].to in Ends(es);
        InDegreeDistinct(es, i, j);
      }
    }
    forall x ensures multiset(t)[x] == multiset(es)[x] {
      DistinctCount(t, x);
      DistinctCount(es, x);
    }
  }

  lemma TreeFits(nodes: seq<RawNode>, es: seq<RawEdge>, root: string)
    requires IsTree(nodes, es, root)
    ensures FitsSixSlots(BfsTree(es, root)) <==> FitsSixSlots(es)
  {
    var t := BfsTree(es, root);
    TreeIsItsSearchTree(nodes, es, root);
    forall v ensures RawDegree(t, v) == RawDegree(es, v) {
      assert forall e :: e in t ==> e in multiset(t);
      assert forall e :: e in multiset(es) ==> e in es;
      DegreeSplits(t, v);
      DegreeSplits(es, v);
      KeepPermuted(t, es, FromIs(v));
      KeepPermuted(t, es, ToIs(v));
    }
  }

  /** The back half of TreeSource.Generate followed by GenerateGraph: a walked directory tree
      becomes a graph exactly when no directory has more than nine subdirectories and no
      directory already bears the id of a hub that has to be inserted. */
  method GenerateFromTree(nodes: seq<RawNode>, edges: seq<RawEdge>, root: string)
      returns (r: Result<Graph, GenerateError>)
    requires IsTree(nodes, edges, root)
    ensures r.Ok? <==> FansFit(edges) && !HubClash(nodes, edges)
    ensures r.Ok? ==> r.value.Built() && ValidGraph(r.value.Nodes.Keys, r.value.Edges, r.value.Start)
    ensures r.Ok? ==> r.value.Start == root && Ids(nodes) <= r.value.Nodes.Keys
    // Merging the hubs of the graph gives back the directory tree.
    ensures r.Ok? ==> multiset(Contract(edges, RawEdges(r.value.Edges))) == multiset(edges)
    // Hubs close no way: where all subdirectories are open, so is every edge.
    ensures r.Ok? && (forall e :: e in edges ==> e.kind == "open") ==> forall e :: e in r.value.Edges ==> e.kind == "open"
  {
    hide IsTree, HubClash, BfsTree, HubbedEdges, HubbedNodes, RawDegree, FitsSixSlots, Reaches, DistanceIs, Contract;
    var allNodes, finalEdges;
    allNodes, finalEdges := InsertHubs.InsertHubs(nodes, edges);
    ghost var order :| Hubbed(nodes, edges, order, allNodes, finalEdges);
    var t := Topology(allNodes, finalEdges, root);
    TreeFacts(nodes, edges, root);
    HubbedIdsDistinct(nodes, edges, order);
    if !HubClash(nodes, edges) {
      HubbedTree(nodes, edges, order, root);
      TreeFacts(allNodes, finalEdges, root);
      TreeFits(allNodes, finalEdges, root);
      HubbedDegrees(nodes, edges, order, root);
    }
    r := GenerateGraph(Ok(t));
    if r.Ok? {
      TreePlain(nodes, edges, root);
      ContractionRestores(edges, order);
      TreeIsItsSearchTree(allNodes, finalEdges, root);
      ContractPermuted(edges, RawEdges(r.value.Edges), finalEdges);
      if forall e :: e in edges ==> e.kind == "open" {
        HubbedStaysOpen(edges, order, r.value.Edges);
      }
      forall x | x in Ids(nodes) ensures x in r.value.Nodes.Keys {
        HubbedIds(nodes, edges, order, x);
      }
    }
  }

  lemma HubbedStaysOpen(es: seq<RawEdge>, order: seq<string>, g: seq<Edge>)
    requires WideOrder(es, order) && Plain(es, es) && multiset(RawEdges(g)) == multiset(HubbedEdges(es, order))
    requires forall e :: e in es ==> e.kind == "open"
    ensures forall e :: e in g ==> e.kind == "open"
  {
    hide HubbedEdges, WideOrder, Plain, HubbedEdge;
    forall e | e in g ensures e.kind == "open" {
      var i :| 0 <= i < |g| && g[i] == e;
      assert RawEdges(g)[i] == Raw(e) && Raw(e) in multiset(RawEdges(g));
      HubbedMembers(es, order, Raw(e));
      HubbedKind(es, Raw(e));
    }
  }

  lemma HubbedKind(es: seq<RawEdge>, e: RawEdge)
    requires HubbedEdge(es, e) && forall o :: o in es ==> o.kind == "open"
    ensures e.kind == "open"
  {
  }

  lemma TreeFacts(nodes: seq<RawNode>, es: seq<RawEdge>, root: string)
    requires IsTree(nodes, es, root)
    ensures DistinctIds(nodes) && root in Ids(nodes)
    ensures forall v :: Reaches(RawLinks(es), root, v) <==> v in Ids(nodes)
  {
    forall v | Reaches(RawLinks(es), root, v) ensures v in Ids(nodes) {
      BfsTreeSpans(es, root);
      if v != root {
        var e :| e in BfsTree(es, root) && e.to == v;
        JoinedEnds(es, e.from, e.to, e.kind);
      }
    }
  }

  lemma ContractMiddle(es: seq<RawEdge>, x: seq<RawEdge>, e: RawEdge, y: seq<RawEdge>)
    ensures multiset(Contract(es, x + [e] + y)) == multiset(Contract(es, x + y)) + multiset(Contract(es, [e]))
  {
    ContractConcat(es, x + [e], y);
    ContractConcat(es, x, [e]);
    ContractConcat(es, x, y);
  }

  lemma {:induction false} ContractPermuted(es: seq<RawEdge>, a: seq<RawEdge>, b: seq<RawEdge>)
    requires multiset(a) == multiset(b)
    ensures multiset(Contract(es, a)) == multiset(Contract(es, b))
  {
    hide Contract;
    if a == [] {
      assert |multiset(b)| == 0;
      assert a == b;
    } else {
      var a', e := a[..|a| - 1], a[|a| - 1];
      assert a == a' + [e] && multiset(a) == multiset(a') + multiset{e};
      var x, y := Occurrence(b, e);
      CancelOne(multiset(a'), multiset(x + y), e);
      ContractPermuted(es, a', x + y);
      ContractMiddle(es, x, e, y);
      ContractMiddle(es, a', e, []);
      assert a' + [e] + [] == a && a' + [] == a';
    }
  }
}
