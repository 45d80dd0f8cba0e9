/** The scenario graph: six direction slots per node, guarded by AddEdge, and the
    breadth-first queries Distance, MaxDistance and Validate. */
module Graphs {
  import opened Wrappers
  import opened Paths

  /** `Other` stands for a string that is none of the six directions. */
  datatype Direction = North | South | East | West | Up | Down | Other(name: string) {
    predicate Valid() { !Other? }

    function Opposite(): Direction {
      match this
      case North => South
      case South => North
      case East => West
      case West => East
      case Up => Down
      case Down => Up
      case Other(_) => Other("")
    }
  }

  // ---------- The compass ----------

  /** How far east, north and up one step leads. */
  datatype Offset = Offset(east: int, north: int, up: int) {
    function Plus(o: Offset): Offset { Offset(east + o.east, north + o.north, up + o.up) }
  }

  const HERE: Offset := Offset(0, 0, 0)

  function Displacement(d: Direction): Offset {
    if d == North then Offset(0, 1, 0)
    else if d == South then Offset(0, -1, 0)
    else if d == East then Offset(1, 0, 0)
    else if d == West then Offset(-1, 0, 0)
    else if d == Up then Offset(0, 0, 1)
    else if d == Down then Offset(0, 0, -1)
    else HERE
  }

  /** A step in a direction and one in its opposite lead back to where they began, and no other
      second step does. */
  lemma OppositeLeadsBack(d: Direction, e: Direction)
    requires d.Valid()
    ensures Displacement(d).Plus(Displacement(e)) == HERE <==> e == d.Opposite()
  {
    hide Displacement;
    OppositeDisplacement(d);
    if Displacement(d).Plus(Displacement(e)) == HERE {
      DisplacementTells(d.Opposite(), e);
    }
  }

  lemma OppositeDisplacement(d: Direction)
    requires d.Valid()
    ensures d.Opposite().Valid()
    ensures var there, back := Displacement(d), Displacement(d.Opposite());
            there.east + back.east == 0 && there.north + back.north == 0 && there.up + back.up == 0
  {
  }

  lemma DisplacementTells(d: Direction, e: Direction)
    requires d.Valid() && Displacement(d) == Displacement(e)
    ensures d == e
  {
  }

  /** Going through the edge and coming back ends where it began. */
  predicate LeadsBack(e: Edge) {
    e.fromDir.Valid() && Displacement(e.fromDir).Plus(Displacement(e.toDir)) == HERE
  }

  lemma NewEdgeLeadsBack(e: Edge)
    requires e.fromDir.Valid() && e.toDir == e.fromDir.Opposite()
    ensures LeadsBack(e)
  {
    OppositeLeadsBack(e.fromDir, e.toDir);
  }

  /** Where a sequence of steps leads. */
  function Displaced(dirs: seq<Direction>): Offset {
    if dirs == [] then HERE else Displacement(dirs[0]).Plus(Displaced(dirs[1..]))
  }

  lemma {:induction false} DisplacedConcat(a: seq<Direction>, b: seq<Direction>)
    ensures Displaced(a + b) == Displaced(a).Plus(Displaced(b))
  {
    hide Displacement;
    if a == [] {
      assert a + b == b;
    } else {
      assert (a + b)[1..] == a[1..] + b;
      DisplacedConcat(a[1..], b);
    }
  }

  const SIX: set<Direction> := {North, South, East, West, Up, Down}

  lemma OppositeInvolution(d: Direction)
    requires d.Valid()
    ensures d.Opposite().Valid() && d.Opposite() != d && d.Opposite().Opposite() == d
  {
  }

  datatype Node = Node(id: string, meta: map<string, string>)

  datatype Edge = Edge(from: string, to: string, fromDir: Direction, toDir: Direction, kind: string)

  datatype GraphError =
    | DuplicateNode(id: string)
    | InvalidDirection(dir: Direction)
    | DirectionOccupied(node: string, dir: Direction)
    | StartMissing
    | FromMissing(index: nat)
    | ToMissing(index: nat)
    | NotOpposite(index: nat)
    | DegreeTooHigh(id: string)
    | Unreachable(id: string)

  function LinkOf(e: Edge): Link { (e.from, e.to) }

  function Links(es: seq<Edge>): seq<Link> {
    seq(|es|, i requires 0 <= i < |es| => LinkOf(es[i]))
  }

  /** Edge `e` ends at node `n` in direction `d`. */
  predicate Fills(e: Edge, n: string, d: Direction) {
    (e.from == n && e.fromDir == d) || (e.to == n && e.toDir == d)
  }

  predicate SlotFree(es: seq<Edge>, n: string, d: Direction) {
    forall i :: 0 <= i < |es| ==> !Fills(es[i], n, d)
  }

  /** Every edge runs in a recognised direction and returns in the opposite one, and no
      (node, direction) slot is the end of two different edges. */
  ghost predicate SlotsUnique(es: seq<Edge>) {
    && (forall i :: 0 <= i < |es| ==> es[i].fromDir.Valid() && es[i].toDir == es[i].fromDir.Opposite())
    && (forall i, j, n, d :: 0 <= i < |es| && 0 <= j < |es| && Fills(es[i], n, d) && Fills(es[j], n, d) ==> i == j)
  }

  lemma SlotsLeadBack(es: seq<Edge>)
    requires SlotsUnique(es)
    ensures forall e :: e in es ==> LeadsBack(e)
  {
    forall e | e in es ensures LeadsBack(e) {
      var i :| 0 <= i < |es| && es[i] == e;
      OppositeLeadsBack(e.fromDir, e.toDir);
    }
  }

  function DegreeOf(es: seq<Edge>, id: string): nat {
    if es == [] then 0
    else DegreeOf(es[..|es| - 1], id)
         + if es[|es| - 1].from == id || es[|es| - 1].to == id then 1 else 0
  }

  /** The direction slots of `id` that some edge ends in. */
  function UsedSlots(es: seq<Edge>, id: string): set<Direction> {
    (set e | e in es && e.from == id :: e.fromDir) + (set e | e in es && e.to == id :: e.toDir)
  }

  lemma UsedSlotsFree(es: seq<Edge>, n: string, d: Direction)
    ensures d in UsedSlots(es, n) <==> !SlotFree(es, n, d)
  {
    if d in UsedSlots(es, n) {
      var e :| e in es && Fills(e, n, d);
    }
  }

  lemma SlotsUniqueExtend(es: seq<Edge>, e: Edge)
    requires SlotsUnique(es) && e.fromDir.Valid() && e.toDir == e.fromDir.Opposite()
    requires SlotFree(es, e.from, e.fromDir) && SlotFree(es, e.to, e.toDir)
    ensures SlotsUnique(es + [e])
  {
  }

  lemma SlotsUniquePrefix(es: seq<Edge>, k: nat)
    requires SlotsUnique(es) && k <= |es|
    ensures SlotsUnique(es[..k])
  {
  }

  /** The slots of `id` that edge `e` alone ends in. */
  function SlotsOf(e: Edge, id: string): set<Direction> {
    (if e.from == id then {e.fromDir} else {}) + (if e.to == id then {e.toDir} else {})
  }

  lemma UsedSlotsSnoc(es: seq<Edge>, e: Edge, id: string)
    ensures UsedSlots(es + [e], id) == UsedSlots(es, id) + SlotsOf(e, id)
  {
  }

  lemma LastSlotsAreNew(es: seq<Edge>, k: nat, id: string)
    requires SlotsUnique(es) && k < |es|
    ensures UsedSlots(es[..k], id) !! SlotsOf(es[k], id)
  {
    forall d | d in UsedSlots(es[..k], id) && d in SlotsOf(es[k], id) ensures false {
      UsedSlotsFree(es[..k], id, d);
      var i :| 0 <= i < k && Fills(es[..k][i], id, d);
      assert Fills(es[i], id, d) && Fills(es[k], id, d);
    }
  }

  lemma UsedSlotsBounded(es: seq<Edge>, id: string)
    requires SlotsUnique(es)
    ensures |UsedSlots(es, id)| <= 6
  {
    forall d | d in UsedSlots(es, id) ensures d in SIX {
      var e :| e in es && Fills(e, id, d);
    }
    SubsetSize(UsedSlots(es, id), SIX);
  }

  /** The last edge takes a slot of each of its ends, two where both are `id`. */
  lemma NewSlotCounts(es: seq<Edge>, k: nat, id: string)
    requires SlotsUnique(es) && k < |es|
    ensures |SlotsOf(es[k], id)| >= if es[k].from == id || es[k].to == id then 1 else 0
    ensures es[k].from != es[k].to ==> |SlotsOf(es[k], id)| == if es[k].from == id || es[k].to == id then 1 else 0
  {
    assert es[k].fromDir != es[k].toDir;
  }

  lemma {:induction false} DegreeCountsSlots(es: seq<Edge>, id: string)
    requires SlotsUnique(es)
    ensures DegreeOf(es, id) <= |UsedSlots(es, id)|
    ensures (forall e :: e in es ==> e.from != e.to) ==> DegreeOf(es, id) == |UsedSlots(es, id)|
  {
    if es == [] {
      assert UsedSlots(es, id) == {};
    } else {
      hide SlotsUnique, UsedSlots;
      var k := |es| - 1;
      SlotsUniquePrefix(es, k);
      DegreeCountsSlots(es[..k], id);
      assert es == es[..k] + [es[k]];
      UsedSlotsSnoc(es[..k], es[k], id);
      LastSlotsAreNew(es, k, id);
      NewSlotCounts(es, k, id);
    }
  }

  /** Pigeonhole: each incident edge takes a slot of its own, and there are six. */
  lemma DegreeAtMostSix(es: seq<Edge>, id: string)
    requires SlotsUnique(es)
    ensures DegreeOf(es, id) <= 6
  {
    DegreeCountsSlots(es, id);
    UsedSlotsBounded(es, id);
  }

  lemma SubsetSize<T>(a: set<T>, b: set<T>)
    requires a <= b
    ensures |a| <= |b|
  {
    assert b == a + (b - a);
  }

  function Neighbours(adj: map<string, seq<string>>, u: string): seq<string> {
    if u in adj then adj[u] else []
  }

  /** What Validate demands of a graph. */
  ghost predicate EdgeSound(nodes: set<string>, e: Edge) {
    e.from in nodes && e.to in nodes && e.toDir == e.fromDir.Opposite()
  }

  ghost predicate ValidGraph(nodes: set<string>, es: seq<Edge>, start: string) {
    && start in nodes
    && (forall i :: 0 <= i < |es| ==> EdgeSound(nodes, es[i]))
    && (forall id :: id in nodes ==> DegreeOf(es, id) <= 6)
    && (forall id :: id in nodes ==> Reaches(Links(es), start, id))
  }

  /** Edge `i` is the first to end at `u` in direction `d` or at `v` in direction `e`. */
  predicate FirstConflict(es: seq<Edge>, i: int, u: string, d: Direction, v: string, e: Direction) {
    && 0 <= i < |es| && (Fills(es[i], u, d) || Fills(es[i], v, e))
    && SlotFree(es[..i], u, d) && SlotFree(es[..i], v, e)
  }

  /** The neighbours of `u` in the order its edges were added. */
  function Adjoining(es: seq<Edge>, u: string): seq<string> {
    if es == [] then []
    else
      var e := es[|es| - 1];
      Adjoining(es[..|es| - 1], u) + (if e.from == u then [e.to] else []) + (if e.to == u then [e.from] else [])
  }

  lemma NeighbourAdded(adj: map<string, seq<string>>, u: string, w: string, v: string)
    ensures Neighbours(adj[u := Neighbours(adj, u) + [w]], v) == Neighbours(adj, v) + if u == v then [w] else []
  {
  }

  lemma AdjoiningSnoc(es: seq<Edge>, e: Edge, u: string)
    ensures Adjoining([], u) == []
    ensures Adjoining(es + [e], u)
         == Adjoining(es, u) + (if e.from == u then [e.to] else []) + (if e.to == u then [e.from] else [])
  {
    assert (es + [e])[..|es|] == es;
  }

  lemma {:induction false} AdjoiningLinked(es: seq<Edge>, u: string)
    ensures forall w :: w in Adjoining(es, u) <==> Linked(Links(es), u, w)
  {
    if es == [] {
      assert Links(es) == [];
    } else {
      var init, e := es[..|es| - 1], es[|es| - 1];
      AdjoiningLinked(init, u);
      assert Links(es) == Links(init) + [LinkOf(e)];
      forall w ensures w in Adjoining(es, u) <==> Linked(Links(es), u, w) {
        LinkedSnoc(Links(init), LinkOf(e), u, w);
      }
    }
  }

  /** What each error of Validate says about the graph it rejects: the fault it names, and that
      the checks made before are passed. */
  ghost predicate Explains(err: GraphError, nodes: set<string>, es: seq<Edge>, start: string) {
    match err
    case StartMissing => start !in nodes
    case FromMissing(i) => start in nodes && i < |es| && EdgesSound(nodes, es[..i]) && es[i].from !in nodes
    case ToMissing(i) =>
      start in nodes && i < |es| && EdgesSound(nodes, es[..i]) && es[i].from in nodes && es[i].to !in nodes
    case NotOpposite(i) =>
      && start in nodes && i < |es| && EdgesSound(nodes, es[..i]) && es[i].from in nodes && es[i].to in nodes
      && es[i].toDir != es[i].fromDir.Opposite()
    case DegreeTooHigh(id) => start in nodes && EdgesSound(nodes, es) && id in nodes && 6 < DegreeOf(es, id)
    case Unreachable(id) =>
      && start in nodes && EdgesSound(nodes, es) && (forall n :: n in nodes ==> DegreeOf(es, n) <= 6)
      && id in nodes && !Reaches(Links(es), start, id)
    case _ => false
  }

  ghost predicate EdgesSound(nodes: set<string>, es: seq<Edge>) {
    forall i :: 0 <= i < |es| ==> EdgeSound(nodes, es[i])
  }

  class Graph {
    var Nodes: map<string, Node>
    var Edges: seq<Edge>
    var Start: string

    /** Holds of every graph built through the constructor, AddNode and AddEdge. */
    ghost predicate Built()
      reads this
    {
      && SlotsUnique(Edges)
      && forall id :: id in Nodes ==> Nodes[id].id == id
    }

    constructor (start: string)
      ensures Nodes == map[] && Edges == [] && Start == start
      ensures Built()
    {
      Nodes, Edges, Start := map[], [], start;
    }

    method AddNode(id: string, meta: map<string, string>) returns (err: Option<GraphError>)
      modifies this`Nodes
      ensures err == if id in old(Nodes) then Some(DuplicateNode(id)) else None
      ensures Nodes == if err.None? then old(Nodes)[id := Node(id, meta)] else old(Nodes)
      ensures old(Built()) ==> Built()
    {
      if id in Nodes {
        return Some(DuplicateNode(id));
      }
      Nodes := Nodes[id := Node(id, meta)];
      return None;
    }

    method AddEdge(from: string, to: string, fromDir: Direction, kind: string) returns (err: Option<GraphError>)
      modifies this`Edges
      ensures err.None? <==>
        fromDir.Valid() && SlotFree(old(Edges), from, fromDir) && SlotFree(old(Edges), to, fromDir.Opposite())
      ensures Edges == old(Edges) + if err.None? then [Edge(from, to, fromDir, fromDir.Opposite(), kind)] else []
      ensures err.None? ==> LeadsBack(Edges[|old(Edges)|])
      ensures !fromDir.Valid() ==> err == Some(InvalidDirection(fromDir))
      ensures fromDir.Valid() && err.Some? ==>
        exists i :: FirstConflict(Edges, i, from, fromDir, to, fromDir.Opposite())
          && err.value == if Fills(Edges[i], from, fromDir) then DirectionOccupied(from, fromDir)
                          else DirectionOccupied(to, fromDir.Opposite())
      ensures old(Built()) ==> Built()
    {
      hide LeadsBack, Displacement;
      if !fromDir.Valid() {
        return Some(InvalidDirection(fromDir));
      }
      var toDir := fromDir.Opposite();
      for i := 0 to |Edges|
        invariant SlotFree(Edges[..i], from, fromDir) && SlotFree(Edges[..i], to, toDir)
      {
        var e := Edges[i];
        assert FirstConflict(Edges, i, from, fromDir, to, toDir) <==> Fills(e, from, fromDir) || Fills(e, to, toDir);
        if e.from == from && e.fromDir == fromDir {
          return Some(DirectionOccupied(from, fromDir));
        }
        if e.to == from && e.toDir == fromDir {
          return Some(DirectionOccupied(from, fromDir));
        }
        if e.from == to && e.fromDir == toDir {
          return Some(DirectionOccupied(to, toDir));
        }
        if e.to == to && e.toDir == toDir {
          return Some(DirectionOccupied(to, toDir));
        }
        assert Edges[..i + 1] == Edges[..i] + [e];
      }
      assert Edges[..|Edges|] == Edges;
      ghost var before := Edges;
      Edges := Edges + [Edge(from, to, fromDir, toDir, kind)];
      if SlotsUnique(before) {
        SlotsUniqueExtend(before, Edges[|before|]);
      }
      NewEdgeLeadsBack(Edges[|before|]);
      return None;
    }

    method Degree(id: string) returns (count: nat)
      ensures count == DegreeOf(Edges, id)
      ensures SlotsUnique(Edges) ==> count <= 6
    {
      count := 0;
      for i := 0 to |Edges|
        invariant count == DegreeOf(Edges[..i], id)
      {
        if Edges[i].from == id || Edges[i].to == id {
          count := count + 1;
        }
        assert Edges[..i + 1][..i] == Edges[..i];
      }
      assert Edges[..|Edges|] == Edges;
      if SlotsUnique(Edges) {
        DegreeAtMostSix(Edges, id);
      }
    }

    method AdjacencyMap() returns (adj: map<string, seq<string>>)
      ensures forall u :: Neighbours(adj, u) == Adjoining(Edges, u)
      ensures forall u, w :: w in Neighbours(adj, u) <==> Linked(Links(Edges), u, w)
    {
      hide Adjoining, Linked, Links;
      adj := map[];
      forall u ensures Neighbours(adj, u) == Adjoining(Edges[..0], u) {
        assert Neighbours(adj, u) == [];
        AdjoiningSnoc([], Edge("", "", North, South, ""), u);
      }
      for i := 0 to |Edges|
        invariant forall u :: Neighbours(adj, u) == Adjoining(Edges[..i], u)
      {
        hide Neighbours;
        var e := Edges[i];
        ghost var before := adj;
        adj := adj[e.from := Neighbours(adj, e.from) + [e.to]];
        ghost var between := adj;
        adj := adj[e.to := Neighbours(adj, e.to) + [e.from]];
        forall u ensures Neighbours(adj, u) == Adjoining(Edges[..i + 1], u) {
          NeighbourAdded(before, e.from, e.to, u);
          NeighbourAdded(between, e.to, e.from, u);
          AdjoiningSnoc(Edges[..i], e, u);
          assert Edges[..i + 1] == Edges[..i] + [e];
        }
      }
      assert Edges[..|Edges|] == Edges;
      forall u ensures forall w :: w in Neighbours(adj, u) <==> Linked(Links(Edges), u, w) {
        AdjoiningLinked(Edges, u);
      }
    }

    /** -1 exactly for a node no walk from Start reaches, and the shortest distance otherwise. */
    method Distance(id: string) returns (d: int)
      ensures -1 <= d
      ensures 0 <= d ==> DistanceIs(Links(Edges), Start, id, d)
      ensures d == -1 <==> !Reaches(Links(Edges), Start, id)
    {
      hide Searching, Linked, DistanceIs, Unfound, Neighbours, Adjoining, Links;
      ghost var ls := Links(Edges);
      StartDistance(ls, Start);
      if Start == id {
        return 0;
      }
      var adj := AdjacencyMap();
      var queue := [Start];
      var depth: map<string, nat> := map[Start := 0];
      ghost var last := Start;
      SearchStart(ls, Start);
      while queue != []
        invariant Searching(ls, Start, depth, last, [], queue)
        invariant id !in depth
        decreases Unfound(ls, Start, depth), |queue|
      {
        var curr := queue[0];
        var nbrs := Neighbours(adj, curr);
        ghost var tail, unfound := queue[1..], Unfound(ls, Start, depth);
        SearchPop(ls, Start, depth, last, queue, nbrs);
        queue := queue[1..];
        for k := 0 to |nbrs|
          invariant Searching(ls, Start, depth, curr, nbrs[k..], queue)
          invariant id !in depth && curr in depth
          invariant Unfound(ls, Start, depth) < unfound || (Unfound(ls, Start, depth) == unfound && queue == tail)
        {
          var neighbor := nbrs[k];
          assert neighbor in Neighbours(adj, curr);
          if neighbor in depth {
            SearchSkip(ls, Start, depth, curr, nbrs, k, queue);
          } else {
            SearchDiscover(ls, Start, depth, curr, nbrs, k, queue);
            depth := depth[neighbor := depth[curr] + 1];
            if neighbor == id {
              return depth[neighbor];
            }
            queue := queue + [neighbor];
          }
        }
        assert nbrs[|nbrs|..] == [];
        last := curr;
      }
      SearchDone(ls, Start, depth, last);
      return -1;
    }

    /** The largest distance from Start of any node a walk reaches. */
    method MaxDistance() returns (maxD: nat)
      ensures exists id :: DistanceIs(Links(Edges), Start, id, maxD)
      ensures forall id, d: nat :: DistanceIs(Links(Edges), Start, id, d) ==> d <= maxD
    {
      hide Searching, Linked, DistanceIs, Unfound, Neighbours, Adjoining, Links;
      ghost var ls := Links(Edges);
      var adj := AdjacencyMap();
      var queue := [Start];
      var depth: map<string, nat> := map[Start := 0];
      maxD := 0;
      ghost var last, deepest := Start, Start;
      SearchStart(ls, Start);
      while queue != []
        invariant Searching(ls, Start, depth, last, [], queue)
        invariant deepest in depth && depth[deepest] == maxD
        invariant forall v :: v in depth ==> depth[v] <= maxD
        decreases Unfound(ls, Start, depth), |queue|
      {
        var curr := queue[0];
        var nbrs := Neighbours(adj, curr);
        ghost var tail, unfound := queue[1..], Unfound(ls, Start, depth);
        SearchPop(ls, Start, depth, last, queue, nbrs);
        queue := queue[1..];
        for k := 0 to |nbrs|
          invariant Searching(ls, Start, depth, curr, nbrs[k..], queue)
          invariant Unfound(ls, Start, depth) < unfound || (Unfound(ls, Start, depth) == unfound && queue == tail)
          invariant deepest in depth && depth[deepest] == maxD
          invariant forall v :: v in depth ==> depth[v] <= maxD
        {
          var neighbor := nbrs[k];
          assert neighbor in Neighbours(adj, curr);
          if neighbor in depth {
            SearchSkip(ls, Start, depth, curr, nbrs, k, queue);
          } else {
            SearchDiscover(ls, Start, depth, curr, nbrs, k, queue);
            depth := depth[neighbor := depth[curr] + 1];
            if depth[neighbor] > maxD {
              maxD := depth[neighbor];
              deepest := neighbor;
            }
            queue := queue + [neighbor];
          }
        }
        assert nbrs[|nbrs|..] == [];
        last := curr;
      }
      SearchDone(ls, Start, depth, last);
      assert DistanceIs(ls, Start, deepest, maxD);
    }

    method Validate() returns (err: Option<GraphError>)
      ensures err.None? <==> ValidGraph(Nodes.Keys, Edges, Start)
      ensures err.Some? ==> Explains(err.value, Nodes.Keys, Edges, Start)
      // A graph built through AddEdge can only fail for its nodes, never for its slots.
      ensures Built() && err.Some? ==> err.value.StartMissing? || err.value.FromMissing? || err.value.ToMissing? || err.value.Unreachable?
    {
      if Start !in Nodes {
        return Some(StartMissing);
      }
      for i := 0 to |Edges|
        invariant forall j :: 0 <= j < i ==> EdgeSound(Nodes.Keys, Edges[j])
      {
        var e := Edges[i];
        if e.from !in Nodes {
          assert !EdgeSound(Nodes.Keys, Edges[i]);
          return Some(FromMissing(i));
        }
        if e.to !in Nodes {
          assert !EdgeSound(Nodes.Keys, Edges[i]);
          return Some(ToMissing(i));
        }
        if e.toDir != e.fromDir.Opposite() {
          assert !EdgeSound(Nodes.Keys, Edges[i]);
          return Some(NotOpposite(i));
        }
      }
      var ids := Nodes.Keys;
      while ids != {}
        invariant ids <= Nodes.Keys
        invariant forall id :: id in Nodes.Keys - ids ==> DegreeOf(Edges, id) <= 6
      {
        var id :| id in ids;
        var degree := Degree(id);
        if degree > 6 {
          assert EdgesSound(Nodes.Keys, Edges);
          return Some(DegreeTooHigh(id));
        }
        ids := ids - {id};
      }
      var visited := Visited();
      ids := Nodes.Keys;
      while ids != {}
        invariant ids <= Nodes.Keys
        invariant forall id :: id in Nodes.Keys - ids ==> Reaches(Links(Edges), Start, id)
      {
        var id :| id in ids;
        if id !in visited {
          return Some(Unreachable(id));
        }
        ids := ids - {id};
      }
      return None;
    }

    /** The reachability search at the end of Validate. */
    method Visited() returns (visited: set<string>)
      ensures forall id :: id in visited <==> Reaches(Links(Edges), Start, id)
    {
      hide Searching, Linked, DistanceIs, Unfound, Neighbours, Adjoining, Links;
      ghost var ls := Links(Edges);
      var adj := AdjacencyMap();
      var queue := [Start];
      visited := {Start};
      ghost var depth: map<string, nat> := map[Start := 0];
      ghost var last := Start;
      SearchStart(ls, Start);
      while queue != []
        invariant Searching(ls, Start, depth, last, [], queue)
        invariant visited == depth.Keys
        decreases Unfound(ls, Start, depth), |queue|
      {
        var curr := queue[0];
        var nbrs := Neighbours(adj, curr);
        ghost var tail, unfound := queue[1..], Unfound(ls, Start, depth);
        SearchPop(ls, Start, depth, last, queue, nbrs);
        queue := queue[1..];
        for k := 0 to |nbrs|
          invariant Searching(ls, Start, depth, curr, nbrs[k..], queue)
          invariant visited == depth.Keys && curr in depth
          invariant Unfound(ls, Start, depth) < unfound || (Unfound(ls, Start, depth) == unfound && queue == tail)
        {
          var neighbor := nbrs[k];
          assert neighbor in Neighbours(adj, curr);
          if neighbor in visited {
            SearchSkip(ls, Start, depth, curr, nbrs, k, queue);
          } else {
            SearchDiscover(ls, Start, depth, curr, nbrs, k, queue);
            depth := depth[neighbor := depth[curr] + 1];
            visited := visited + {neighbor};
            queue := queue + [neighbor];
          }
        }
        assert nbrs[|nbrs|..] == [];
        last := curr;
      }
      SearchDone(ls, Start, depth, last);
    }
  }
}
