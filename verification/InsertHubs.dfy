/** insertHubs: a parent with more than five children keeps the first four and hands the
    rest, five at a time, to a chain of synthetic hub nodes. */
module InsertHubs {
  import opened Decimals
  import opened AssignDirections
  import opened EdgeLists

  const MAX_CHILDREN: nat := 5

  // ---------- The hub chain of one parent ----------

  function HubId(p: string, k: nat): string { Numbered(p + "_hub", k) }

  /** The node the k-th batch hangs from: the parent itself, then its hubs. */
  function Anchor(p: string, k: nat): string { if k == 0 then p else HubId(p, k) }

  function Attach(hub: string, batch: seq<RawEdge>): seq<RawEdge> {
    seq(|batch|, i requires 0 <= i < |batch| => RawEdge(hub, batch[i].to, batch[i].kind))
  }

  function Batch(n: nat): nat { if n < MAX_CHILDREN then n else MAX_CHILDREN }

  /** Hubs k+1, k+2, ... for the remaining children. */
  function Chain(p: string, kids: seq<RawEdge>, k: nat): seq<RawEdge>
    decreases |kids|
  {
    if kids == [] then []
    else
      var n := Batch(|kids|);
      [RawEdge(Anchor(p, k), HubId(p, k + 1), "open")]
      + Attach(HubId(p, k + 1), kids[..n])
      + Chain(p, kids[n..], k + 1)
  }

  function HubNode(p: string, name: string, k: nat): RawNode {
    RawNode(HubId(p, k), map["name" := name + " Corridor " + Decimal(k), "hub" := "true"])
  }

  function HubNodes(p: string, name: string, kids: seq<RawEdge>, k: nat): seq<RawNode>
    decreases |kids|
  {
    if kids == [] then []
    else [HubNode(p, name, k + 1)] + HubNodes(p, name, kids[Batch(|kids|)..], k + 1)
  }

  /** How many hubs a chain of `n` remaining children takes. */
  function HubsFor(n: nat): nat { (n + MAX_CHILDREN - 1) / MAX_CHILDREN }

  predicate Wide(kids: seq<RawEdge>) { MAX_CHILDREN < |kids| }

  function Split(p: string, kids: seq<RawEdge>): seq<RawEdge>
    requires Wide(kids)
  {
    Attach(p, kids[..MAX_CHILDREN - 1]) + Chain(p, kids[MAX_CHILDREN - 1..], 0)
  }

  /** The "name" of the first node with id `p`, or `p` itself. */
  function ParentName(nodes: seq<RawNode>, p: string): string {
    if nodes == [] then p
    else if nodes[0].id == p then (if "name" in nodes[0].meta then nodes[0].meta["name"] else p)
    else ParentName(nodes[1..], p)
  }

  // ---------- All wide parents, in the order the map iteration yields them ----------

  ghost predicate WideOrder(es: seq<RawEdge>, order: seq<string>) {
    && (forall i, j :: 0 <= i < j < |order| ==> order[i] != order[j])
    && (forall p :: p in order <==> Wide(Children(es, p)))
  }

  function Members(order: seq<string>): set<string> { set p | p in order }

  ghost function SplitAll(es: seq<RawEdge>, order: seq<string>): seq<RawEdge>
    requires forall p :: p in order ==> Wide(Children(es, p))
  {
    if order == [] then []
    else
      var p := order[|order| - 1];
      assert p in order && Wide(Children(es, p));
      SplitAll(es, order[..|order| - 1]) + Split(p, Children(es, p))
  }

  ghost function HubsAll(nodes: seq<RawNode>, es: seq<RawEdge>, order: seq<string>): seq<RawNode>
    requires forall p :: p in order ==> Wide(Children(es, p))
  {
    if order == [] then []
    else
      var p := order[|order| - 1];
      assert p in order && Wide(Children(es, p));
      HubsAll(nodes, es, order[..|order| - 1])
      + HubNodes(p, ParentName(nodes, p), Children(es, p)[MAX_CHILDREN - 1..], 0)
  }

  ghost function HubbedEdges(es: seq<RawEdge>, order: seq<string>): seq<RawEdge>
    requires WideOrder(es, order)
  {
    Keep(es, FromOutside(Members(order))) + SplitAll(es, order)
  }

  ghost function HubbedNodes(nodes: seq<RawNode>, es: seq<RawEdge>, order: seq<string>): seq<RawNode>
    requires WideOrder(es, order)
  {
    nodes + HubsAll(nodes, es, order)
  }

  // ---------- The program ----------

  predicate InRange(es: seq<RawEdge>, idxs: seq<nat>) {
    forall j :: 0 <= j < |idxs| ==> idxs[j] < |es|
  }

  function ChildIndices(es: seq<RawEdge>, p: string): (r: seq<nat>)
    ensures InRange(es, r)
  {
    if es == [] then []
    else ChildIndices(es[..|es| - 1], p) + if es[|es| - 1].from == p then [|es| - 1] else []
  }

  function At(es: seq<RawEdge>, idxs: seq<nat>): seq<RawEdge>
    requires InRange(es, idxs)
  {
    seq(|idxs|, j requires 0 <= j < |idxs| => es[idxs[j]])
  }

  /** The child indices of `p` are ascending, so sorting them changes nothing, and they
      select exactly the edges that leave `p`. */
  lemma {:induction false} ChildIndicesMeaning(es: seq<RawEdge>, p: string)
    ensures forall i: nat :: i in ChildIndices(es, p) <==> i < |es| && es[i].from == p
    ensures At(es, ChildIndices(es, p)) == Children(es, p)
    ensures forall i, j :: 0 <= i < j < |ChildIndices(es, p)| ==> ChildIndices(es, p)[i] < ChildIndices(es, p)[j]
  {
    ChildIndicesAscend(es, p);
    ChildIndicesSelect(es, p);
  }

  lemma {:induction false} ChildIndicesAscend(es: seq<RawEdge>, p: string)
    ensures forall i: nat :: i in ChildIndices(es, p) <==> i < |es| && es[i].from == p
    ensures forall i, j :: 0 <= i < j < |ChildIndices(es, p)| ==> ChildIndices(es, p)[i] < ChildIndices(es, p)[j]
  {
    if es != [] {
      ChildIndicesAscend(es[..|es| - 1], p);
    }
  }

  lemma {:induction false} ChildIndicesSelect(es: seq<RawEdge>, p: string)
    ensures At(es, ChildIndices(es, p)) == Children(es, p)
  {
    if es != [] {
      var k := |es| - 1;
      ChildIndicesSelect(es[..k], p);
      var before := ChildIndices(es[..k], p);
      assert At(es, before) == At(es[..k], before);
      if es[k].from == p {
        assert At(es, before + [k]) == At(es, before) + [es[k]];
      }
    }
  }

  function Indices(children: map<string, seq<nat>>, p: string): seq<nat> {
    if p in children then children[p] else []
  }

  method GroupChildren(es: seq<RawEdge>) returns (children: map<string, seq<nat>>)
    ensures forall p :: Indices(children, p) == ChildIndices(es, p)
  {
    children := map[];
    for i := 0 to |es|
      invariant forall p :: Indices(children, p) == ChildIndices(es[..i], p)
    {
      assert es[..i + 1][..i] == es[..i];
      children := children[es[i].from := Indices(children, es[i].from) + [i]];
    }
    assert es[..|es|] == es;
  }

  method FindName(nodes: seq<RawNode>, p: string) returns (name: string)
    ensures name == ParentName(nodes, p)
  {
    name := p;
    assert nodes[0..] == nodes;
    for i := 0 to |nodes|
      invariant name == p && ParentName(nodes, p) == ParentName(nodes[i..], p)
    {
      if nodes[i].id == p {
        if "name" in nodes[i].meta {
          name := nodes[i].meta["name"];
        }
        return;
      }
      assert nodes[i..][1..] == nodes[i + 1..];
    }
    assert nodes[|nodes|..] == [];
  }

  method AttachBatch(hub: string, es: seq<RawEdge>, batch: seq<nat>) returns (links: seq<RawEdge>)
    requires InRange(es, batch)
    ensures links == Attach(hub, At(es, batch))
  {
    links := [];
    for j := 0 to |batch|
      invariant links == Attach(hub, At(es, batch))[..j]
    {
      links := links + [RawEdge(hub, es[batch[j]].to, es[batch[j]].kind)];
    }
  }

  lemma Shift(a: seq<RawEdge>, b: seq<RawEdge>, c: seq<RawEdge>, d: seq<RawEdge>)
    ensures ((a + b) + c) + d == a + (b + c + d)
  {
  }

  /** The inner loop: batch after batch of `p`'s children. */
  method SplitParent(nodes: seq<RawNode>, es: seq<RawEdge>, p: string, idxs: seq<nat>)
      returns (hubs: seq<RawNode>, links: seq<RawEdge>)
    requires InRange(es, idxs)
    requires MAX_CHILDREN < |idxs|
    ensures links == Split(p, At(es, idxs))
    ensures hubs == HubNodes(p, ParentName(nodes, p), At(es, idxs)[MAX_CHILDREN - 1..], 0)
  {
    hide Chain, Attach, HubId, HubNodes;
    ghost var kids := At(es, idxs);
    ghost var name := ParentName(nodes, p);
    hubs, links := [], [];
    var hubNum, pos := 0, 0;
    while pos < |idxs|
      invariant 0 <= pos <= |idxs|
      invariant pos == 0 ==> hubNum == 0 && hubs == [] && links == []
      invariant 0 < pos ==> links + Chain(p, kids[pos..], hubNum) == Split(p, kids)
      invariant 0 < pos ==> hubs + HubNodes(p, name, kids[pos..], hubNum) == HubNodes(p, name, kids[MAX_CHILDREN - 1..], 0)
    {
      var batchSize := if pos == 0 then MAX_CHILDREN - 1 else MAX_CHILDREN;
      var end := if pos + batchSize > |idxs| then |idxs| else pos + batchSize;
      var batch := idxs[pos..end];
      ghost var linksBefore, hubsBefore, hubBefore := links, hubs, hubNum;
      var hubId;
      if pos == 0 {
        hubId := p;
      } else {
        hubNum := hubNum + 1;
        hubId := HubId(p, hubNum);
        var parentName := FindName(nodes, p);
        hubs := hubs + [HubNode(p, parentName, hubNum)];
        var prevHub := if hubNum == 1 then p else HubId(p, hubNum - 1);
        links := links + [RawEdge(prevHub, hubId, "open")];
      }
      var attached := AttachBatch(hubId, es, batch);
      links := links + attached;
      assert At(es, batch) == kids[pos..end];
      if pos > 0 {
        ChainUnfolds(p, name, kids, pos, end, hubBefore);
        Shift(linksBefore, [RawEdge(Anchor(p, hubBefore), hubId, "open")], attached, Chain(p, kids[end..], hubNum));
        assert hubs == hubsBefore + [HubNode(p, name, hubNum)];
      } else {
        assert kids[pos..end] == kids[..end];
      }
      pos := end;
    }
    assert kids[pos..] == [];
    ChainEnds(p, name, hubNum);
    assert links + [] == links && hubs + [] == hubs;
  }

  lemma ChainEnds(p: string, name: string, k: nat)
    ensures Chain(p, [], k) == [] && HubNodes(p, name, [], k) == []
  {
  }

  lemma ChainUnfolds(p: string, name: string, kids: seq<RawEdge>, pos: nat, end: nat, k: nat)
    requires pos < end <= |kids| && end == pos + Batch(|kids| - pos)
    ensures Chain(p, kids[pos..], k)
         == [RawEdge(Anchor(p, k), HubId(p, k + 1), "open")] + Attach(HubId(p, k + 1), kids[pos..end]) + Chain(p, kids[end..], k + 1)
    ensures HubNodes(p, name, kids[pos..], k) == [HubNode(p, name, k + 1)] + HubNodes(p, name, kids[end..], k + 1)
  {
    assert kids[pos..][..end - pos] == kids[pos..end];
    assert kids[pos..][end - pos..] == kids[end..];
  }

  lemma OneMoreSplit(nodes: seq<RawNode>, es: seq<RawEdge>, order: seq<string>, p: string)
    requires forall q :: q in order ==> Wide(Children(es, q))
    requires Wide(Children(es, p))
    ensures SplitAll(es, order + [p]) == SplitAll(es, order) + Split(p, Children(es, p))
    ensures HubsAll(nodes, es, order + [p])
         == HubsAll(nodes, es, order) + HubNodes(p, ParentName(nodes, p), Children(es, p)[MAX_CHILDREN - 1..], 0)
  {
    assert (order + [p])[..|order|] == order;
  }

  /** `allNodes` and `finalEdges` are what comes of splitting the wide parents in that order. */
  ghost predicate Hubbed(nodes: seq<RawNode>, es: seq<RawEdge>, order: seq<string>,
                         allNodes: seq<RawNode>, finalEdges: seq<RawEdge>)
  {
    WideOrder(es, order) && allNodes == HubbedNodes(nodes, es, order) && finalEdges == HubbedEdges(es, order)
  }

  /** Hands every wide parent's children to its hub chain, in whatever order the map of children
      happens to be visited. */
  method InsertHubs(nodes: seq<RawNode>, edges: seq<RawEdge>) returns (allNodes: seq<RawNode>, finalEdges: seq<RawEdge>)
    ensures exists order :: Hubbed(nodes, edges, order, allNodes, finalEdges)
  {
    hide ChildIndices, Split, HubNodes, Keep, ParentName, HubId;
    var children := GroupChildren(edges);
    var newNodes, newEdges := [], [];
    var replaced: set<nat> := {};
    var todo := children.Keys;
    ghost var order: seq<string> := [];
    while todo != {}
      invariant todo <= children.Keys
      invariant forall i, j :: 0 <= i < j < |order| ==> order[i] != order[j]
      invariant forall p :: p in order <==> p in children.Keys - todo && Wide(Children(edges, p))
      invariant newEdges == SplitAll(edges, order)
      invariant newNodes == HubsAll(nodes, edges, order)
      invariant forall i: nat :: i in replaced <==> i < |edges| && edges[i].from in order
    {
      hide SplitAll, HubsAll;
      var p :| p in todo;
      todo := todo - {p};
      var idxs := Indices(children, p);
      ChildIndicesMeaning(edges, p);
      assert |idxs| == |At(edges, idxs)| == |Children(edges, p)|;
      if |idxs| <= MAX_CHILDREN {
        continue;
      }
      replaced := replaced + set i | i in idxs;
      var hubs, links := SplitParent(nodes, edges, p, idxs);
      OneMoreSplit(nodes, edges, order, p);
      order := order + [p];
      newEdges := newEdges + links;
      newNodes := newNodes + hubs;
    }
    forall p ensures p in order <==> Wide(Children(edges, p)) {
      ChildIndicesMeaning(edges, p);
    }
    finalEdges := KeepUnreplaced(edges, replaced, Members(order));
    finalEdges := finalEdges + newEdges;
    allNodes := nodes + newNodes;
    assert Hubbed(nodes, edges, order, allNodes, finalEdges);
  }

  /** The last loop: the edges that were not replaced. */
  method KeepUnreplaced(edges: seq<RawEdge>, replaced: set<nat>, ghost wide: set<string>) returns (kept: seq<RawEdge>)
    requires forall i: nat :: i < |edges| ==> (i in replaced <==> edges[i].from in wide)
    ensures kept == Keep(edges, FromOutside(wide))
  {
    kept := [];
    assert edges[..0] == [];
    KeepNone(edges[..0], FromOutside(wide));
    for i := 0 to |edges|
      invariant kept == Keep(edges[..i], FromOutside(wide))
    {
      hide Keep;
      if i !in replaced {
        kept := kept + [edges[i]];
      }
      KeepSnoc(edges, i, FromOutside(wide));
    }
    assert edges[..|edges|] == edges;
  }

  lemma KeepSnoc(es: seq<RawEdge>, i: nat, f: RawEdge -> bool)
    requires i < |es|
    ensures Keep(es[..i + 1], f) == Keep(es[..i], f) + if f(es[i]) then [es[i]] else []
  {
    assert es[..i + 1][..i] == es[..i];
  }
}
