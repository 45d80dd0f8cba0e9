/** assignDirections: a breadth-first search over the raw edges that gives every tree edge
    a pair of opposite direction slots. */
module AssignDirections {
  import opened Wrappers
  import opened Paths
  import opened Graphs

  datatype RawNode = RawNode(id: string, meta: map<string, string>)

  datatype RawEdge = RawEdge(from: string, to: string, kind: string)

  datatype AdjEntry = AdjEntry(to: string, kind: string)

  datatype AssignError =
    | Rejected(err: GraphError)
    | StartNotFound
    | NoDirection(from: string, to: string)

  function RawLinks(es: seq<RawEdge>): seq<Link> {
    seq(|es|, i requires 0 <= i < |es| => (es[i].from, es[i].to))
  }

  function Ids(ns: seq<RawNode>): set<string> {
    set n | n in ns :: n.id
  }

  ghost predicate DistinctIds(ns: seq<RawNode>) {
    forall i, j :: 0 <= i < j < |ns| ==> ns[i].id != ns[j].id
  }

  function RawDegree(es: seq<RawEdge>, id: string): nat {
    if es == [] then 0
    else RawDegree(es[..|es| - 1], id)
         + if es[|es| - 1].from == id || es[|es| - 1].to == id then 1 else 0
  }

  /** The raw edge an edge of the graph stands for. */
  function Raw(e: Edge): RawEdge { RawEdge(e.from, e.to, e.kind) }

  function RawEdges(es: seq<Edge>): seq<RawEdge> {
    seq(|es|, i requires 0 <= i < |es| => Raw(es[i]))
  }

  /** The adjacency list of `u`, in the order the raw edges put it together. */
  function Adjacent(es: seq<RawEdge>, u: string): seq<AdjEntry> {
    if es == [] then []
    else
      var e := es[|es| - 1];
      Adjacent(es[..|es| - 1], u)
      + (if e.from == u then [AdjEntry(e.to, e.kind)] else [])
      + (if e.to == u then [AdjEntry(e.from, e.kind)] else [])
  }

  predicate Joined(es: seq<RawEdge>, u: string, v: string, kind: string) {
    RawEdge(u, v, kind) in es || RawEdge(v, u, kind) in es
  }

  lemma {:induction false} AdjacentMeaning(es: seq<RawEdge>, u: string)
    ensures forall a :: a in Adjacent(es, u) <==> Joined(es, u, a.to, a.kind)
  {
    if es != [] {
      AdjacentMeaning(es[..|es| - 1], u);
      assert es == es[..|es| - 1] + [es[|es| - 1]];
    }
  }

  lemma JoinedLinked(es: seq<RawEdge>, u: string, v: string)
    ensures Linked(RawLinks(es), u, v) <==> exists k :: Joined(es, u, v, k)
  {
    if Linked(RawLinks(es), u, v) {
      var i :| 0 <= i < |es| && (RawLinks(es)[i] == (u, v) || RawLinks(es)[i] == (v, u));
      assert Joined(es, u, v, es[i].kind);
    }
    forall k | Joined(es, u, v, k) ensures Linked(RawLinks(es), u, v) {
      var i :| 0 <= i < |es| && (es[i] == RawEdge(u, v, k) || es[i] == RawEdge(v, u, k));
      assert RawLinks(es)[i] in RawLinks(es);
    }
  }

  function Ends(es: seq<RawEdge>): set<string> {
    (set e | e in es :: e.from) + (set e | e in es :: e.to)
  }

  ghost predicate Listed(es: seq<RawEdge>, pending: seq<AdjEntry>, u: string) {
    forall a :: a in pending ==> Joined(es, u, a.to, a.kind)
  }

  /** The edges that the breadth-first search still adds when it is about to scan `pending`,
      the rest of the adjacency list of `curr`. */
  ghost function Growth(es: seq<RawEdge>, curr: string, pending: seq<AdjEntry>,
                        queue: seq<string>, visited: set<string>): seq<RawEdge>
    requires Listed(es, pending, curr)
    decreases |Ends(es) - visited|, |queue|, |pending|
  {
    if pending == [] then
      if queue == [] then []
      else
        AdjacentMeaning(es, queue[0]);
        Growth(es, queue[0], Adjacent(es, queue[0]), queue[1..], visited)
    else
      var a := pending[0];
      if a.to in visited then Growth(es, curr, pending[1..], queue, visited)
      else
        EndsShrink(es, curr, a.to, a.kind, visited);
        [RawEdge(curr, a.to, a.kind)] + Growth(es, curr, pending[1..], queue + [a.to], visited + {a.to})
  }

  /** The breadth-first search tree of the raw edges, parents before children. */
  ghost function BfsTree(es: seq<RawEdge>, start: string): seq<RawEdge> {
    Growth(es, start, [], [start], {start})
  }

  // ---------- The search tree is a shortest-path spanning tree ----------

  /** Every non-start node found so far is the `to` of exactly one tree edge. */
  ghost predicate TreeShape(es: seq<RawEdge>, s: string, found: set<string>, t: seq<RawEdge>) {
    && s in found
    && (forall e :: e in t ==>
          && Joined(es, e.from, e.to, e.kind)
          && e.from in found && e.to in found && e.to != s && e.from != e.to)
    && (forall i, j :: 0 <= i < j < |t| ==> t[i].to != t[j].to)
    && (forall v :: v in found && v != s ==> exists e :: e in t && e.to == v)
  }

  /** Inside the tree every node is as close to the start as `depth` records. */
  ghost predicate TreeWalks(s: string, depth: map<string, nat>, t: seq<RawEdge>) {
    && (forall e :: e in t ==> e.from in depth && e.to in depth && depth[e.to] == depth[e.from] + 1)
    && forall v :: v in depth ==> exists p :: IsWalk(RawLinks(t), p, s, v) && |p| == depth[v] + 1
  }

  ghost predicate TreeSoFar(es: seq<RawEdge>, s: string, depth: map<string, nat>, t: seq<RawEdge>) {
    TreeShape(es, s, depth.Keys, t) && TreeWalks(s, depth, t)
  }

  lemma WalkStays(ls: seq<Link>, ms: seq<Link>, p: seq<string>, s: string, v: string)
    requires IsWalk(ls, p, s, v)
    requires forall u, w :: Linked(ls, u, w) ==> Linked(ms, u, w)
    ensures IsWalk(ms, p, s, v)
  {
  }

  function Tos(pending: seq<AdjEntry>): seq<string> {
    seq(|pending|, i requires 0 <= i < |pending| => pending[i].to)
  }

  lemma TreeShapeGrows(es: seq<RawEdge>, s: string, found: set<string>, t: seq<RawEdge>, e: RawEdge)
    requires TreeShape(es, s, found, t)
    requires e.from in found && e.to !in found && Joined(es, e.from, e.to, e.kind)
    ensures TreeShape(es, s, found + {e.to}, t + [e])
  {
    hide Joined;
    forall v | v in found + {e.to} && v != s ensures exists f :: f in t + [e] && f.to == v {
      if v == e.to {
        assert e in t + [e];
      } else {
        var f :| f in t && f.to == v;
        assert f in t + [e];
      }
    }
    forall i, j | 0 <= i < j < |t + [e]| ensures (t + [e])[i].to != (t + [e])[j].to {
      assert t[i] in t;
    }
  }

  lemma TreeWalksGrow(s: string, depth: map<string, nat>, t: seq<RawEdge>, e: RawEdge)
    requires TreeWalks(s, depth, t)
    requires e.from in depth && e.to !in depth
    ensures TreeWalks(s, depth[e.to := depth[e.from] + 1], t + [e])
  {
    var ls, ls' := RawLinks(t), RawLinks(t + [e]);
    assert ls' == ls + [(e.from, e.to)];
    forall v | v in depth ensures exists p :: IsWalk(ls', p, s, v) && |p| == depth[v] + 1 {
      var p :| IsWalk(ls, p, s, v) && |p| == depth[v] + 1;
      WalkStays(ls, ls', p, s, v);
    }
    var p :| IsWalk(ls', p, s, e.from) && |p| == depth[e.from] + 1;
    assert (e.from, e.to) in ls';
    ExtendWalk(ls', p, s, e.from, e.to);
  }

  lemma TreeGrows(es: seq<RawEdge>, s: string, depth: map<string, nat>, t: seq<RawEdge>, e: RawEdge)
    requires TreeSoFar(es, s, depth, t)
    requires e.from in depth && e.to !in depth && Joined(es, e.from, e.to, e.kind)
    ensures TreeSoFar(es, s, depth[e.to := depth[e.from] + 1], t + [e])
  {
    TreeShapeGrows(es, s, depth.Keys, t, e);
    TreeWalksGrow(s, depth, t, e);
    assert depth[e.to := depth[e.from] + 1].Keys == depth.Keys + {e.to};
  }

  lemma NeighboursListed(es: seq<RawEdge>, u: string)
    ensures forall w :: Linked(RawLinks(es), u, w) ==> w in Tos(Adjacent(es, u))
  {
    var nbrs := Adjacent(es, u);
    AdjacentMeaning(es, u);
    forall w | Linked(RawLinks(es), u, w) ensures w in Tos(nbrs) {
      JoinedLinked(es, u, w);
      var k :| Joined(es, u, w, k);
      assert AdjEntry(w, k) in nbrs;
      var i :| 0 <= i < |nbrs| && nbrs[i] == AdjEntry(w, k);
      assert Tos(nbrs)[i] == w;
    }
  }

  lemma JoinedEnds(es: seq<RawEdge>, u: string, v: string, k: string)
    requires Joined(es, u, v, k)
    ensures u in Ends(es) && v in Ends(es)
  {
  }

  lemma EndsShrink(es: seq<RawEdge>, u: string, v: string, k: string, visited: set<string>)
    requires Joined(es, u, v, k) && v !in visited
    ensures |Ends(es) - (visited + {v})| < |Ends(es) - visited|
  {
    assert v in Ends(es);
    assert Ends(es) - (visited + {v}) == (Ends(es) - visited) - {v};
  }

  lemma {:induction false} GrowthSpans(es: seq<RawEdge>, s: string, depth: map<string, nat>, curr: string,
                                       pending: seq<AdjEntry>, queue: seq<string>, t: seq<RawEdge>)
      returns (final: map<string, nat>, last: string)
    requires Listed(es, pending, curr)
    requires Searching(RawLinks(es), s, depth, curr, Tos(pending), queue)
    requires TreeSoFar(es, s, depth, t)
    ensures Searching(RawLinks(es), s, final, last, [], [])
    ensures TreeSoFar(es, s, final, t + Growth(es, curr, pending, queue, depth.Keys))
    decreases |Ends(es) - depth.Keys|, |queue|, |pending|, 1
  {
    hide Searching, TreeSoFar, Linked, Joined, Unfound, Ends, RawLinks;
    var ls := RawLinks(es);
    if pending == [] {
      assert Tos(pending) == [];
      if queue == [] {
        assert t + [] == t;
        return depth, curr;
      }
      var nbrs := Adjacent(es, queue[0]);
      AdjacentMeaning(es, queue[0]);
      NeighboursListed(es, queue[0]);
      SearchPop(ls, s, depth, curr, queue, Tos(nbrs));
      assert Tos(nbrs)[0..] == Tos(nbrs);
      final, last := GrowthSpans(es, s, depth, queue[0], nbrs, queue[1..], t);
    } else {
      var a := pending[0];
      assert a in pending && Tos(pending)[0..] == Tos(pending);
      assert Tos(pending)[1..] == Tos(pending[1..]);
      if a.to in depth {
        SearchSkip(ls, s, depth, curr, Tos(pending), 0, queue);
        final, last := GrowthSpans(es, s, depth, curr, pending[1..], queue, t);
      } else {
        final, last := GrowthSpansDiscover(es, s, depth, curr, pending, queue, t);
      }
    }
  }

  lemma GrowthDiscovers(es: seq<RawEdge>, curr: string, pending: seq<AdjEntry>, queue: seq<string>,
      visited: set<string>)
    requires Listed(es, pending, curr) && pending != [] && pending[0].to !in visited
    ensures Listed(es, pending[1..], curr)
    ensures var a := pending[0];
            Growth(es, curr, pending, queue, visited)
            == [RawEdge(curr, a.to, a.kind)] + Growth(es, curr, pending[1..], queue + [a.to], visited + {a.to})
  {
  }

  lemma {:induction false} GrowthSpansDiscover(es: seq<RawEdge>, s: string, depth: map<string, nat>, curr: string,
                                               pending: seq<AdjEntry>, queue: seq<string>, t: seq<RawEdge>)
      returns (final: map<string, nat>, last: string)
    requires Listed(es, pending, curr) && pending != [] && pending[0].to !in depth
    requires Searching(RawLinks(es), s, depth, curr, Tos(pending), queue)
    requires TreeSoFar(es, s, depth, t)
    ensures Searching(RawLinks(es), s, final, last, [], [])
    ensures TreeSoFar(es, s, final, t + Growth(es, curr, pending, queue, depth.Keys))
    decreases |Ends(es) - depth.Keys|, |queue|, |pending|, 0
  {
    hide Searching, TreeSoFar, Linked, Joined, Unfound, Ends, RawLinks, Growth;
    var a := pending[0];
    var e := RawEdge(curr, a.to, a.kind);
    assert a in pending;
    JoinedLinked(es, curr, a.to);
    assert Tos(pending)[0..] == Tos(pending);
    assert Tos(pending)[1..] == Tos(pending[1..]);
    SearchDiscover(RawLinks(es), s, depth, curr, Tos(pending), 0, queue);
    TreeGrows(es, s, depth, t, e);
    var depth' := depth[a.to := depth[curr] + 1];
    assert depth'.Keys == depth.Keys + {a.to};
    EndsShrink(es, curr, a.to, a.kind, depth.Keys);
    final, last := GrowthSpans(es, s, depth', curr, pending[1..], queue + [a.to], t + [e]);
    GrowthDiscovers(es, curr, pending, queue, depth.Keys);
    var rest := Growth(es, curr, pending[1..], queue + [a.to], depth'.Keys);
    assert t + ([e] + rest) == (t + [e]) + rest;
  }

  /** `t` is a tree over everything reachable from `s` along `es`, and no tree walk from
      `s` is longer than the shortest raw walk to the same node. */
  ghost predicate SpanningTree(t: seq<RawEdge>, es: seq<RawEdge>, s: string) {
    && (forall e :: e in t ==> Joined(es, e.from, e.to, e.kind) && e.to != s && e.from != e.to)
    && (forall e :: e in t ==> exists d: nat :: DistanceIs(RawLinks(es), s, e.from, d) && DistanceIs(RawLinks(es), s, e.to, d + 1))
    && (forall i, j :: 0 <= i < j < |t| ==> t[i].to != t[j].to)
    && (forall v :: Reaches(RawLinks(es), s, v) <==> v == s || exists e :: e in t && e.to == v)
    && (forall v, d: nat :: DistanceIs(RawLinks(es), s, v, d) <==> DistanceIs(RawLinks(t), s, v, d))
    && (forall v :: Reaches(RawLinks(es), s, v) <==> Reaches(RawLinks(t), s, v))
  }

  lemma SubLinked(es: seq<RawEdge>, t: seq<RawEdge>, u: string, w: string)
    requires forall e :: e in t ==> Joined(es, e.from, e.to, e.kind)
    requires Linked(RawLinks(t), u, w)
    ensures Linked(RawLinks(es), u, w)
  {
    var i :| 0 <= i < |t| && (RawLinks(t)[i] == (u, w) || RawLinks(t)[i] == (w, u));
    JoinedLinked(es, t[i].from, t[i].to);
    JoinedLinked(es, u, w);
    assert Joined(es, u, w, t[i].kind);
  }

  lemma TreeDistances(es: seq<RawEdge>, s: string, depth: map<string, nat>, t: seq<RawEdge>, v: string)
    requires TreeSoFar(es, s, depth, t)
    requires v in depth && DistanceIs(RawLinks(es), s, v, depth[v])
    ensures DistanceIs(RawLinks(t), s, v, depth[v])
  {
    forall p | IsWalk(RawLinks(t), p, s, v) ensures depth[v] + 1 <= |p| {
      forall u, w | Linked(RawLinks(t), u, w) ensures Linked(RawLinks(es), u, w) {
        SubLinked(es, t, u, w);
      }
      WalkStays(RawLinks(t), RawLinks(es), p, s, v);
    }
  }

  lemma TreeReaches(es: seq<RawEdge>, s: string, t: seq<RawEdge>, v: string)
    requires forall e :: e in t ==> Joined(es, e.from, e.to, e.kind)
    requires Reaches(RawLinks(t), s, v)
    ensures Reaches(RawLinks(es), s, v)
  {
    var p :| IsWalk(RawLinks(t), p, s, v);
    forall u, w | Linked(RawLinks(t), u, w) ensures Linked(RawLinks(es), u, w) {
      SubLinked(es, t, u, w);
    }
    WalkStays(RawLinks(t), RawLinks(es), p, s, v);
  }

  /** What the search leaves behind is the whole statement about the tree. */
  lemma TreeSpans(es: seq<RawEdge>, s: string, depth: map<string, nat>, t: seq<RawEdge>)
    requires TreeSoFar(es, s, depth, t)
    requires forall v :: v in depth <==> Reaches(RawLinks(es), s, v)
    requires forall v, d: nat :: DistanceIs(RawLinks(es), s, v, d) <==> v in depth && depth[v] == d
    ensures SpanningTree(t, es, s)
  {
    hide Linked, Joined, IsWalk, DistanceIs, RawLinks;
    var ls, ts := RawLinks(es), RawLinks(t);
    forall e | e in t ensures exists d: nat :: DistanceIs(ls, s, e.from, d) && DistanceIs(ls, s, e.to, d + 1) {
      assert DistanceIs(ls, s, e.from, depth[e.from]) && DistanceIs(ls, s, e.to, depth[e.from] + 1);
    }
    forall v | v in depth ensures DistanceIs(ts, s, v, depth[v]) && Reaches(ts, s, v) {
      TreeDistances(es, s, depth, t, v);
      DistanceReaches(ts, s, v, depth[v]);
    }
    forall v | Reaches(ts, s, v) ensures v in depth {
      TreeReaches(es, s, t, v);
    }
    forall v, d: nat | DistanceIs(ts, s, v, d) ensures DistanceIs(ls, s, v, d) {
      DistanceReaches(ts, s, v, d);
      DistanceUnique(ts, s, v, d, depth[v]);
    }
  }

  lemma DistanceReaches(ls: seq<Link>, s: string, v: string, d: nat)
    requires DistanceIs(ls, s, v, d)
    ensures Reaches(ls, s, v)
  {}

  lemma BfsTreeSpans(es: seq<RawEdge>, s: string)
    ensures SpanningTree(BfsTree(es, s), es, s)
  {
    hide Searching, DistanceIs, Reaches, SpanningTree, Growth;
    var t := BfsTree(es, s);
    var depth: map<string, nat>, last: string;
    SearchStart(RawLinks(es), s);
    assert Tos([]) == [];
    assert TreeSoFar(es, s, map[s := 0], []) by {
      assert IsWalk(RawLinks([]), [s], s, s);
    }
    hide TreeSoFar;
    depth, last := GrowthSpans(es, s, map[s := 0], s, [], [s], []);
    assert map[s := 0].Keys == {s};
    assert [] + t == t;
    SearchDone(RawLinks(es), s, depth, last);
    TreeSpans(es, s, depth, t);
  }

  // ---------- Handing out direction slots ----------

  lemma {:induction false} RawDegreeConcat(a: seq<RawEdge>, b: seq<RawEdge>, id: string)
    ensures RawDegree(a + b, id) == RawDegree(a, id) + RawDegree(b, id)
  {
    if b == [] {
      assert a + b == a;
    } else {
      var k := |b| - 1;
      RawDegreeConcat(a, b[..k], id);
      assert (a + b)[..|a + b| - 1] == a + b[..k];
    }
  }

  lemma {:induction false} DegreeIsRaw(es: seq<Edge>, id: string)
    ensures DegreeOf(es, id) == RawDegree(RawEdges(es), id)
  {
    if es != [] {
      DegreeIsRaw(es[..|es| - 1], id);
      assert RawEdges(es)[..|es| - 1] == RawEdges(es[..|es| - 1]);
    }
  }

  /** `used` holds exactly the slots the edges occupy, and only visited nodes have any. */
  ghost predicate SlotsTracked(es: seq<Edge>, used: map<string, set<Direction>>, visited: set<string>) {
    && SlotsUnique(es)
    && (forall id :: id in used ==> used[id] == UsedSlots(es, id))
    && (forall e :: e in es ==> e.from in visited && e.to in visited && e.from != e.to)
  }

  lemma UnvisitedSlots(es: seq<Edge>, used: map<string, set<Direction>>, visited: set<string>, w: string)
    requires SlotsTracked(es, used, visited) && w !in visited
    ensures UsedSlots(es, w) == {}
    ensures w in used ==> used[w] == {}
  {
  }

  /** An edge into an unvisited node only needs a free slot at the near end, so AddEdge accepts it. */
  lemma SlotsAssigned(es: seq<Edge>, used: map<string, set<Direction>>, visited: set<string>, e: Edge)
    requires SlotsTracked(es, used, visited)
    requires e.from in visited && e.to !in visited && e.from in used && e.to in used
    requires e.fromDir.Valid() && e.toDir == e.fromDir.Opposite() && e.fromDir !in used[e.from]
    ensures SlotFree(es, e.from, e.fromDir) && SlotFree(es, e.to, e.toDir)
    ensures SlotsTracked(es + [e], used[e.from := used[e.from] + {e.fromDir}][e.to := used[e.to] + {e.toDir}], visited + {e.to})
  {
    hide SlotsUnique, UsedSlots, SlotFree;
    UnvisitedSlots(es, used, visited, e.to);
    UsedSlotsFree(es, e.from, e.fromDir);
    UsedSlotsFree(es, e.to, e.toDir);
    SlotsUniqueExtend(es, e);
    forall id | id in used ensures UsedSlots(es + [e], id) == UsedSlots(es, id) + SlotsOf(e, id) {
      UsedSlotsSnoc(es, e, id);
    }
  }

  lemma FullNode(es: seq<Edge>, used: map<string, set<Direction>>, visited: set<string>, id: string)
    requires SlotsTracked(es, used, visited) && id in used
    requires SIX <= used[id]
    ensures RawDegree(RawEdges(es), id) == 6
  {
    hide SlotsUnique, UsedSlots, RawDegree, DegreeOf;
    DegreeCountsSlots(es, id);
    UsedSlotsBounded(es, id);
    SubsetSize(SIX, used[id]);
    DegreeIsRaw(es, id);
  }

  function Entries(adj: map<string, seq<AdjEntry>>, u: string): seq<AdjEntry> {
    if u in adj then adj[u] else []
  }

  lemma AdjacentSnoc(es: seq<RawEdge>, i: nat, u: string)
    requires i < |es|
    ensures Adjacent(es[..i + 1], u) == Adjacent(es[..i], u)
                                        + (if es[i].from == u then [AdjEntry(es[i].to, es[i].kind)] else [])
                                        + (if es[i].to == u then [AdjEntry(es[i].from, es[i].kind)] else [])
  {
    assert es[..i + 1][..i] == es[..i];
  }

  method AdjacencyLists(es: seq<RawEdge>) returns (adj: map<string, seq<AdjEntry>>)
    ensures forall u :: Entries(adj, u) == Adjacent(es, u)
  {
    adj := map[];
    assert es[..0] == [];
    for i := 0 to |es|
      invariant forall u :: Entries(adj, u) == Adjacent(es[..i], u)
    {
      hide Adjacent;
      var e := es[i];
      ghost var before := adj;
      adj := adj[e.from := Entries(adj, e.from) + [AdjEntry(e.to, e.kind)]];
      adj := adj[e.to := Entries(adj, e.to) + [AdjEntry(e.from, e.kind)]];
      forall u ensures Entries(adj, u) == Adjacent(es[..i + 1], u) {
        AdjacentSnoc(es, i, u);
        assert Entries(before, u) == Adjacent(es[..i], u);
      }
    }
    assert es[..|es|] == es;
  }

  const PREFERRED: seq<Direction> := [North, East, South, West, Up, Down]

  /** The first preferred direction, from place `k` on, that is not used. */
  function FirstFree(used: set<Direction>, k: nat): Direction
    requires k <= |PREFERRED|
    decreases |PREFERRED| - k
  {
    if k == |PREFERRED| then Other("")
    else if PREFERRED[k] !in used then PREFERRED[k]
    else FirstFree(used, k + 1)
  }

  /** Every edge leaves its parent in the first preferred direction that the edges before it left free. */
  ghost predicate Greedy(es: seq<Edge>) {
    es == [] ||
    var before, e := es[..|es| - 1], es[|es| - 1];
    Greedy(before) && e.fromDir == FirstFree(UsedSlots(before, e.from), 0) && e.toDir == e.fromDir.Opposite()
  }

  lemma GreedySnoc(es: seq<Edge>, e: Edge)
    ensures Greedy(es + [e]) <==>
      Greedy(es) && e.fromDir == FirstFree(UsedSlots(es, e.from), 0) && e.toDir == e.fromDir.Opposite()
  {
    assert (es + [e])[..|es|] == es;
  }

  /** Horizontal first: an edge goes north if its parent has that free, else east, south, west, and up or
      down only where all four are taken. */
  lemma {:induction false} HorizontalFirst(es: seq<Edge>, k: nat)
    requires Greedy(es) && k < |es| && es[k].fromDir.Valid()
    ensures var e := es[k];
            var taken := (d: Direction) => !SlotFree(es[..k], e.from, d);
            && !taken(e.fromDir)
            && (e.fromDir != North ==> taken(North))
            && (e.fromDir in {South, West, Up, Down} ==> taken(East))
            && (e.fromDir in {West, Up, Down} ==> taken(South))
            && (e.fromDir in {Up, Down} ==> taken(West))
            && (e.fromDir == Down ==> taken(Up))
    decreases |es|
  {
    var m := |es| - 1;
    if k < m {
      HorizontalFirst(es[..m], k);
      assert es[..m][..k] == es[..k];
    } else {
      var before, e := es[..m], es[m];
      FirstFreeIs(UsedSlots(before, e.from));
      forall d: Direction ensures d in UsedSlots(before, e.from) <==> !SlotFree(before, e.from, d) {
        UsedSlotsFree(before, e.from, d);
      }
    }
  }

  lemma FirstFreeIs(used: set<Direction>)
    ensures FirstFree(used, 0)
         == if North !in used then North else if East !in used then East else if South !in used then South
            else if West !in used then West else if Up !in used then Up else if Down !in used then Down else Other("")
  {
    assert FirstFree(used, 3) == if West !in used then West else FirstFree(used, 4);
    assert FirstFree(used, 4) == if Up !in used then Up else if Down !in used then Down else Other("");
  }

  lemma TrackedSlots(es: seq<Edge>, used: map<string, set<Direction>>, visited: set<string>, id: string)
    requires SlotsTracked(es, used, visited) && id in used
    ensures used[id] == UsedSlots(es, id)
  {
  }

  /** The search tree and the greedy choice leave no freedom: they determine the graph's edges. */
  lemma {:induction false} GreedyDetermines(es: seq<Edge>, fs: seq<Edge>)
    requires Greedy(es) && Greedy(fs) && RawEdges(es) == RawEdges(fs)
    ensures es == fs
  {
    RawLast(es);
    RawLast(fs);
    if es != [] {
      hide UsedSlots, FirstFree, RawEdges;
      GreedyDetermines(es[..|es| - 1], fs[..|fs| - 1]);
      SameByLast(es, fs);
    }
  }

  lemma RawLast(es: seq<Edge>)
    ensures |RawEdges(es)| == |es|
    ensures es != [] ==> RawEdges(es)[..|es| - 1] == RawEdges(es[..|es| - 1]) && RawEdges(es)[|es| - 1] == Raw(es[|es| - 1])
  {
  }

  lemma SameByLast(es: seq<Edge>, fs: seq<Edge>)
    requires es != [] && |es| == |fs| && es[..|es| - 1] == fs[..|es| - 1] && es[|es| - 1] == fs[|es| - 1]
    ensures es == fs
  {
    assert es == es[..|es| - 1] + [es[|es| - 1]];
    assert fs == fs[..|es| - 1] + [fs[|es| - 1]];
  }

  /** The search tree gives no node more than six incident edges. */
  ghost predicate FitsSixSlots(t: seq<RawEdge>) {
    forall v :: RawDegree(t, v) <= 6
  }

  method AddNodes(g: Graph, rawNodes: seq<RawNode>) returns (err: Option<GraphError>)
    requires g.Nodes == map[] && g.Edges == []
    modifies g`Nodes
    ensures err.None? <==> DistinctIds(rawNodes)
    ensures err.None? ==> g.Nodes.Keys == Ids(rawNodes) && g.Built()
    ensures err.None? ==> forall n :: n in rawNodes ==> g.Nodes[n.id] == Node(n.id, n.meta)
    ensures err.Some? ==> exists i, j :: 0 <= i < j < |rawNodes| && rawNodes[i].id == rawNodes[j].id && err.value == DuplicateNode(rawNodes[j].id)
  {
    for i := 0 to |rawNodes|
      invariant DistinctIds(rawNodes[..i])
      invariant g.Nodes.Keys == Ids(rawNodes[..i]) && g.Built()
      invariant forall n :: n in rawNodes[..i] ==> g.Nodes[n.id] == Node(n.id, n.meta)
    {
      assert rawNodes[..i + 1] == rawNodes[..i] + [rawNodes[i]];
      err := g.AddNode(rawNodes[i].id, rawNodes[i].meta);
      if err.Some? {
        var n :| n in rawNodes[..i] && n.id == rawNodes[i].id;
        return;
      }
    }
    assert rawNodes[..|rawNodes|] == rawNodes;
    err := None;
  }

  lemma GrowthPops(es: seq<RawEdge>, last: string, queue: seq<string>, visited: set<string>)
    requires queue != []
    ensures Listed(es, Adjacent(es, queue[0]), queue[0])
    ensures Growth(es, last, [], queue, visited) == Growth(es, queue[0], Adjacent(es, queue[0]), queue[1..], visited)
  {
    AdjacentMeaning(es, queue[0]);
  }

  lemma GrowthSkips(es: seq<RawEdge>, curr: string, pending: seq<AdjEntry>, queue: seq<string>, visited: set<string>)
    requires Listed(es, pending, curr) && pending != [] && pending[0].to in visited
    ensures Listed(es, pending[1..], curr)
    ensures Growth(es, curr, pending, queue, visited) == Growth(es, curr, pending[1..], queue, visited)
  {
  }

  lemma GrowthEnds(es: seq<RawEdge>, last: string, visited: set<string>)
    ensures Growth(es, last, [], [], visited) == []
  {
  }

  lemma TooManyChildren(t: seq<RawEdge>, done: seq<RawEdge>, e: RawEdge, rest: seq<RawEdge>)
    requires t == done + ([e] + rest)
    requires RawDegree(done, e.from) == 6
    ensures 6 < RawDegree(t, e.from)
  {
    RawDegreeConcat(done, [e] + rest, e.from);
    RawDegreeConcat([e], rest, e.from);
  }

  lemma TrackedFits(es: seq<Edge>, used: map<string, set<Direction>>, visited: set<string>)
    requires SlotsTracked(es, used, visited)
    ensures SlotsUnique(es) && FitsSixSlots(RawEdges(es))
  {
    forall v ensures RawDegree(RawEdges(es), v) <= 6 {
      DegreeAtMostSix(es, v);
      DegreeIsRaw(es, v);
    }
  }

  /** Tries the directions in order and takes the first pair of slots free at both ends.
      AddEdge never rejects the pair. */
  method TakeSlots(g: Graph, used: map<string, set<Direction>>, curr: string, a: AdjEntry, ghost visited: set<string>)
      returns (found: bool, used': map<string, set<Direction>>)
    requires SlotsTracked(g.Edges, used, visited)
    requires curr in visited && a.to !in visited && curr in used && a.to in used
    modifies g`Edges
    ensures found <==> !(SIX <= used[curr])
    ensures !found ==> g.Edges == old(g.Edges) && used' == used
    ensures found ==>
      && |g.Edges| == |old(g.Edges)| + 1 && g.Edges[..|old(g.Edges)|] == old(g.Edges)
      && Raw(g.Edges[|old(g.Edges)|]) == RawEdge(curr, a.to, a.kind)
      && (Greedy(old(g.Edges)) ==> Greedy(g.Edges))
      && SlotsTracked(g.Edges, used', visited + {a.to}) && used'.Keys == used.Keys
  {
    hide SlotsTracked, SlotsUnique, UsedSlots, SlotFree, Greedy, LeadsBack, FirstConflict;
    UnvisitedSlots(g.Edges, used, visited, a.to);
    TrackedSlots(g.Edges, used, visited, curr);
    for i := 0 to |PREFERRED|
      invariant g.Edges == old(g.Edges)
      invariant FirstFree(used[curr], 0) == FirstFree(used[curr], i)
      invariant forall j :: 0 <= j < i ==> PREFERRED[j] in used[curr]
    {
      var dir := PREFERRED[i];
      var opp := dir.Opposite();
      if dir in used[curr] || opp in used[a.to] {
        continue;
      }
      used' := used[curr := used[curr] + {dir}][a.to := used[a.to] + {opp}];
      SlotsAssigned(g.Edges, used, visited, Edge(curr, a.to, dir, opp, a.kind));
      GreedySnoc(g.Edges, Edge(curr, a.to, dir, opp, a.kind));
      var err := g.AddEdge(curr, a.to, dir, a.kind);
      assert err.None?;
      return true, used';
    }
    assert PREFERRED[0] == North && PREFERRED[1] == East && PREFERRED[2] == South;
    assert PREFERRED[3] == West && PREFERRED[4] == Up && PREFERRED[5] == Down;
    return false, used;
  }

  /** Where the search starts: nothing assigned, the whole tree still to come. */
  lemma SearchBegins(es: seq<RawEdge>, start: string, used: map<string, set<Direction>>)
    requires forall id :: id in used ==> used[id] == {}
    ensures SlotsTracked([], used, {start}) && Greedy([])
    ensures BfsTree(es, start) == Growth(es, start, [], [start], {start})
  {
  }

  lemma SubsetSameSize<T>(a: set<T>, b: set<T>)
    requires a <= b && |a| == |b|
    ensures a == b
  {
    if x :| x in b && x !in a {
      SubsetSize(a, b - {x});
    }
  }

  /** One turn of the outer loop: every unvisited neighbour of `curr` gets a tree edge and
      joins the queue, or the search fails at the first one that finds no free slot. */
  method Expand(g: Graph, rawEdges: seq<RawEdge>, curr: string, nbrs: seq<AdjEntry>,
                used: map<string, set<Direction>>, visited: set<string>, queue: seq<string>,
                ghost tree: seq<RawEdge>)
      returns (failed: Option<string>, used': map<string, set<Direction>>, visited': set<string>, queue': seq<string>)
    requires SlotsTracked(g.Edges, used, visited) && Greedy(g.Edges)
    requires forall e :: e in tree ==> e.to in used
    requires curr in visited && visited <= used.Keys
    requires forall q :: q in queue ==> q in visited
    requires Listed(rawEdges, nbrs, curr)
    requires tree == RawEdges(g.Edges) + Growth(rawEdges, curr, nbrs, queue, visited)
    modifies g`Edges
    ensures failed.Some? ==> 6 < RawDegree(tree, curr)
    ensures failed.None? ==>
      && SlotsTracked(g.Edges, used', visited') && Greedy(g.Edges) && used'.Keys == used.Keys
      && visited <= visited' <= used.Keys
      && (visited' == visited ==> queue' == queue)
      && (forall q :: q in queue' ==> q in visited')
      && tree == RawEdges(g.Edges) + Growth(rawEdges, curr, [], queue', visited')
  {
    hide SlotsTracked, SlotsUnique, UsedSlots, Growth, SlotFree, RawDegree, Joined, Ends, Greedy;
    used', visited', queue' := used, visited, queue;
    assert nbrs[0..] == nbrs;
    for k := 0 to |nbrs|
      invariant SlotsTracked(g.Edges, used', visited') && Greedy(g.Edges) && used'.Keys == used.Keys
      invariant visited <= visited' && visited' <= used.Keys
      invariant visited' == visited ==> queue' == queue
      invariant forall q :: q in queue' ==> q in visited'
      invariant Listed(rawEdges, nbrs[k..], curr)
      invariant tree == RawEdges(g.Edges) + Growth(rawEdges, curr, nbrs[k..], queue', visited')
    {
      var neighbor := nbrs[k];
      assert nbrs[k..] == [neighbor] + nbrs[k + 1..];
      if neighbor.to in visited' {
        GrowthSkips(rawEdges, curr, nbrs[k..], queue', visited');
        continue;
      }
      GrowthDiscovers(rawEdges, curr, nbrs[k..], queue', visited');
      ghost var before := g.Edges;
      ghost var e := RawEdge(curr, neighbor.to, neighbor.kind);
      ghost var rest := Growth(rawEdges, curr, nbrs[k + 1..], queue' + [neighbor.to], visited' + {neighbor.to});
      assert e in RawEdges(g.Edges) + ([e] + rest);
      var found;
      found, used' := TakeSlots(g, used', curr, neighbor, visited');
      if !found {
        FullNode(g.Edges, used', visited', curr);
        TooManyChildren(tree, RawEdges(g.Edges), e, rest);
        return Some(neighbor.to), used', visited', queue';
      }
      visited' := visited' + {neighbor.to};
      queue' := queue' + [neighbor.to];
      assert RawEdges(g.Edges) == RawEdges(before) + [e];
      assert tree == RawEdges(g.Edges) + rest;
    }
    assert nbrs[|nbrs|..] == [];
    failed := None;
  }

  /** Once ids and start are sound, every node the search finds is a listed one: the program
      has a slot entry for these alone. */
  ghost predicate FindsListedNodes(nodes: seq<RawNode>, es: seq<RawEdge>, start: string) {
    DistinctIds(nodes) && start in Ids(nodes) ==> forall v :: Reaches(RawLinks(es), start, v) ==> v in Ids(nodes)
  }

  lemma TreeIsReached(es: seq<RawEdge>, start: string)
    ensures forall e :: e in BfsTree(es, start) ==> Reaches(RawLinks(es), start, e.from) && Reaches(RawLinks(es), start, e.to)
  {
    BfsTreeSpans(es, start);
    hide BfsTree, RawLinks;
    forall e | e in BfsTree(es, start)
      ensures Reaches(RawLinks(es), start, e.from) && Reaches(RawLinks(es), start, e.to)
    {
      var d: nat :| DistanceIs(RawLinks(es), start, e.from, d) && DistanceIs(RawLinks(es), start, e.to, d + 1);
    }
  }

  /** Succeeds exactly when the ids are distinct, the start is among them and the search tree
      fits the six slots; the graph then is that tree. */
  method AssignDirections(rawNodes: seq<RawNode>, rawEdges: seq<RawEdge>, start: string)
      returns (r: Result<Graph, AssignError>)
    requires FindsListedNodes(rawNodes, rawEdges, start)
    ensures r.Ok? <==>
      DistinctIds(rawNodes) && start in Ids(rawNodes) && FitsSixSlots(BfsTree(rawEdges, start))
    ensures r.Ok? ==> fresh(r.value) && r.value.Built() && r.value.Start == start
    ensures r.Ok? ==> r.value.Nodes.Keys == Ids(rawNodes)
    ensures r.Ok? ==> forall n :: n in rawNodes ==> r.value.Nodes[n.id] == Node(n.id, n.meta)
    ensures r.Ok? ==> RawEdges(r.value.Edges) == BfsTree(rawEdges, start) && Greedy(r.value.Edges)
    ensures r.Ok? ==> SlotsUnique(r.value.Edges) && forall e :: e in r.value.Edges ==> LeadsBack(e)
    // AddEdge is never asked for an occupied slot.
    ensures r.Err? && r.error.Rejected? ==> r.error.err.DuplicateNode? && !DistinctIds(rawNodes)
    ensures r.Err? && r.error.StartNotFound? ==> start !in Ids(rawNodes)
    ensures r.Err? && r.error.NoDirection? ==> 6 < RawDegree(BfsTree(rawEdges, start), r.error.from)
  {
    hide SlotsTracked, SlotsUnique, UsedSlots, Growth, DistinctIds, SlotFree, RawDegree, Joined, Reaches, BfsTree,
         Greedy;
    var g := new Graph(start);
    var dup := AddNodes(g, rawNodes);
    if dup.Some? {
      assert !DistinctIds(rawNodes);
      return Err(Rejected(dup.value));
    }
    if start !in g.Nodes {
      return Err(StartNotFound);
    }
    var adj := AdjacencyLists(rawEdges);
    var failed := Search(g, rawEdges, adj, Ids(rawNodes), start);
    if failed.Some? {
      return Err(NoDirection(failed.value.0, failed.value.1));
    }
    SlotsLeadBack(g.Edges);
    return Ok(g);
  }

  /** The outer loop of the search: on success the edges are the search tree, otherwise it
      names the edge that found no slot. */
  method Search(g: Graph, rawEdges: seq<RawEdge>, adj: map<string, seq<AdjEntry>>, ids: set<string>, start: string)
      returns (failed: Option<(string, string)>)
    requires g.Edges == [] && start in ids
    requires forall v :: Reaches(RawLinks(rawEdges), start, v) ==> v in ids
    requires forall u :: Entries(adj, u) == Adjacent(rawEdges, u)
    modifies g`Edges
    ensures failed.None? <==> FitsSixSlots(BfsTree(rawEdges, start))
    ensures failed.None? ==> SlotsUnique(g.Edges) && Greedy(g.Edges) && RawEdges(g.Edges) == BfsTree(rawEdges, start)
    ensures failed.Some? ==> 6 < RawDegree(BfsTree(rawEdges, start), failed.value.0)
  {
    hide SlotsTracked, SlotsUnique, UsedSlots, Growth, SlotFree, RawDegree, Joined, Reaches, BfsTree, Greedy;
    var visited := {start};
    var queue := [start];
    var used: map<string, set<Direction>> := map id | id in ids :: {};
    ghost var tree := BfsTree(rawEdges, start);
    ghost var last := start;
    SearchBegins(rawEdges, start, used);
    TreeIsReached(rawEdges, start);
    assert RawEdges(g.Edges) == [];
    while queue != []
      invariant used.Keys == ids
      invariant SlotsTracked(g.Edges, used, visited) && Greedy(g.Edges)
      invariant visited <= ids && forall q :: q in queue ==> q in visited
      invariant tree == RawEdges(g.Edges) + Growth(rawEdges, last, [], queue, visited)
      decreases |ids - visited|, |queue|
    {
      var curr := queue[0];
      GrowthPops(rawEdges, last, queue, visited);
      ghost var unvisited := ids - visited;
      var stuck;
      stuck, used, visited, queue := Expand(g, rawEdges, curr, Entries(adj, curr), used, visited, queue[1..], tree);
      if stuck.Some? {
        return Some((curr, stuck.value));
      }
      SubsetSize(ids - visited, unvisited);
      if |ids - visited| == |unvisited| {
        SubsetSameSize(ids - visited, unvisited);
      }
      last := curr;
    }
    GrowthEnds(rawEdges, last, visited);
    assert tree == RawEdges(g.Edges);
    TrackedFits(g.Edges, used, visited);
    return None;
  }
}
