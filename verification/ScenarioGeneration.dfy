/** Generate, end to end: from a raw topology to a scenario the player can walk through. */
module ScenarioGeneration {
  import opened Wrappers
  import opened Paths
  import opened Graphs
  import opened AssignDirections
  import opened EdgeLists
  import opened GraphGeneration
  import opened Scenarios
  import opened Export
  import opened GameStates
  import opened Moving
  import opened Compass

  datatype Options = Options(title: string, death: string)

  datatype ScenarioError =
    | GraphFailed(err: GenerateError)
    | VisitorFailed(message: string)

  /** The search tree joins `room` to the start by open edges and stairways alone. */
  ghost predicate OpenPath(t: Topology, room: string) {
    Reaches(OpenLinks(BfsTree(t.edges, t.start)), t.start, room)
  }

  // ---------- Open parts of the search tree ----------

  /** `p` follows tree edges from parent to child. */
  ghost predicate Descends(t: seq<RawEdge>, p: seq<string>, s: string, v: string) {
    && 0 < |p| && p[0] == s && p[|p| - 1] == v
    && forall i :: 0 <= i < |p| - 1 ==> Below(t, p[i], p[i + 1])
  }

  ghost predicate Below(t: seq<RawEdge>, u: string, v: string) {
    exists e :: e in t && e.from == u && e.to == v
  }

  lemma BelowIsLinked(t: seq<RawEdge>, u: string, v: string)
    ensures Linked(RawLinks(t), u, v) <==> Below(t, u, v) || Below(t, v, u)
  {
    JoinedLinked(t, u, v);
    if Below(t, u, v) {
      var e :| e in t && e.from == u && e.to == v;
      assert Joined(t, u, v, e.kind);
    }
    if Below(t, v, u) {
      var e :| e in t && e.from == v && e.to == u;
      assert Joined(t, u, v, e.kind);
    }
  }

  /** A walk over some edges of a tree can be straightened so that it never climbs. */
  lemma {:induction false} WalkStraightens(t: seq<RawEdge>, es: seq<RawEdge>, s: string,
                                           open: seq<RawEdge>, p: seq<string>, v: string) returns (q: seq<string>)
    requires SpanningTree(t, es, s) && (forall e :: e in open ==> e in t) && IsWalk(RawLinks(open), p, s, v)
    ensures Descends(open, q, s, v)
    decreases |p|
  {
    hide DistanceIs, Reaches, Below;
    if |p| == 1 {
      q := [s];
    } else {
      var u := p[|p| - 2];
      assert Linked(RawLinks(open), u, v);
      assert IsWalk(RawLinks(open), p[..|p| - 1], s, u);
      q := WalkStraightens(t, es, s, open, p[..|p| - 1], u);
      BelowIsLinked(open, u, v);
      if Below(open, u, v) {
        q := q + [v];
      } else {
        ParentIsUnique(t, es, s, open, v, u);
        assert |q| >= 2 && Below(open, q[|q| - 2], q[|q| - 1]);
        q := q[..|q| - 1];
      }
    }
  }

  lemma ParentIsUnique(t: seq<RawEdge>, es: seq<RawEdge>, s: string, open: seq<RawEdge>, u: string, v: string)
    requires SpanningTree(t, es, s) && (forall e :: e in open ==> e in t) && Below(open, u, v)
    ensures v != s && forall w :: Below(open, w, v) ==> w == u
  {
    hide DistanceIs, Reaches;
    var e :| e in open && e.from == u && e.to == v;
    forall w | Below(open, w, v) ensures w == u {
      var f :| f in open && f.from == w && f.to == v;
      var i :| 0 <= i < |t| && t[i] == e;
      var j :| 0 <= j < |t| && t[j] == f;
    }
  }

  /** Descending, every step goes one further from the start. */
  lemma {:induction false} DescentIsShortest(t: seq<RawEdge>, es: seq<RawEdge>, s: string, open: seq<RawEdge>,
                                             q: seq<string>, v: string)
    requires SpanningTree(t, es, s) && (forall e :: e in open ==> e in t) && Descends(open, q, s, v)
    ensures DistanceIs(RawLinks(es), s, v, |q| - 1) && IsWalk(RawLinks(open), q, s, v)
    decreases |q|
  {
    hide DistanceIs, Reaches, RawLinks;
    if |q| == 1 {
      StartDistance(RawLinks(es), s);
    } else {
      var u := q[|q| - 2];
      DescentIsShortest(t, es, s, open, q[..|q| - 1], u);
      assert Below(open, u, v);
      var e :| e in open && e.from == u && e.to == v;
      var d: nat :| DistanceIs(RawLinks(es), s, u, d) && DistanceIs(RawLinks(es), s, v, d + 1);
      DistanceUnique(RawLinks(es), s, u, d, |q| - 2);
      BelowIsLinked(open, u, v);
    }
  }

  /** Where some edges of the search tree lead, they lead as directly as all raw edges do. */
  lemma OpenDistance(t: seq<RawEdge>, es: seq<RawEdge>, s: string, open: seq<RawEdge>, v: string, d: nat)
    requires SpanningTree(t, es, s) && forall e :: e in open ==> e in t
    ensures DistanceIs(RawLinks(open), s, v, d) <==> Reaches(RawLinks(open), s, v) && DistanceIs(RawLinks(es), s, v, d)
  {
    hide SpanningTree, Descends, RawLinks;
    if Reaches(RawLinks(open), s, v) {
      var p :| IsWalk(RawLinks(open), p, s, v);
      var q := WalkStraightens(t, es, s, open, p, v);
      DescentIsShortest(t, es, s, open, q, v);
      forall r | IsWalk(RawLinks(open), r, s, v) ensures |q| <= |r| {
        SubWalk(t, es, s, open, r, v);
      }
      assert DistanceIs(RawLinks(open), s, v, |q| - 1);
    }
  }

  lemma SubWalk(t: seq<RawEdge>, es: seq<RawEdge>, s: string, open: seq<RawEdge>, r: seq<string>, v: string)
    requires SpanningTree(t, es, s) && forall e :: e in open ==> e in t
    requires IsWalk(RawLinks(open), r, s, v)
    ensures IsWalk(RawLinks(es), r, s, v)
  {
    hide DistanceIs, Reaches;
    forall i | 0 <= i < |r| - 1 ensures Linked(RawLinks(es), r[i], r[i + 1]) {
      assert Linked(RawLinks(open), r[i], r[i + 1]);
      SubLinked(es, open, r[i], r[i + 1]);
    }
  }

  /** The open part of the search tree reaches every node exactly when it is the whole tree. */
  lemma EveryRoomHasAnOpenPath(t: Topology)
    ensures (forall v :: Reaches(RawLinks(t.edges), t.start, v) ==> OpenPath(t, v))
       <==> (forall e :: e in BfsTree(t.edges, t.start) ==> IsOpen()(e))
  {
    hide BfsTree, SpanningTree, DistanceIs, Reaches;
    var es, s := t.edges, t.start;
    var tree := BfsTree(es, s);
    var open := Keep(tree, IsOpen());
    BfsTreeSpans(es, s);
    KeepMembers(tree, IsOpen());
    if forall e :: e in tree ==> IsOpen()(e) {
      KeepAll(tree, IsOpen());
      SpanningReaches(tree, es, s);
    } else {
      var e :| e in tree && !IsOpen()(e);
      SpanningReaches(tree, es, s);
      assert Reaches(RawLinks(es), s, e.to);
      if OpenPath(t, e.to) {
        EnteredByItsEdge(tree, es, s, open, e);
      }
    }
  }

  lemma SpanningReaches(t: seq<RawEdge>, es: seq<RawEdge>, s: string)
    requires SpanningTree(t, es, s)
    ensures forall v :: Reaches(RawLinks(es), s, v) <==> Reaches(RawLinks(t), s, v)
    ensures forall e :: e in t ==> Reaches(RawLinks(es), s, e.to)
  {
  }

  lemma EnteredByItsEdge(t: seq<RawEdge>, es: seq<RawEdge>, s: string, open: seq<RawEdge>, e: RawEdge)
    requires SpanningTree(t, es, s) && (forall f :: f in open ==> f in t) && e in t
    requires Reaches(RawLinks(open), s, e.to)
    ensures e in open
  {
    hide DistanceIs;
    var p :| IsWalk(RawLinks(open), p, s, e.to);
    var q := WalkStraightens(t, es, s, open, p, e.to);
    assert Below(open, q[|q| - 2], q[|q| - 1]);
    var f :| f in open && f.from == q[|q| - 2] && f.to == e.to;
    var i :| 0 <= i < |t| && t[i] == e;
    var j :| 0 <= j < |t| && t[j] == f;
  }

  // ---------- The generated scenario ----------

  lemma GraphExported(spec: Spec, es: seq<Edge>, start: string)
    requires SlotsUnique(es) && ValidGraph(spec.rooms.Keys, es, start)
    requires forall id :: id in spec.rooms ==> spec.rooms[id].connections == Exits(es, id)
    ensures Exported(spec, es)
  {
    hide SlotsUnique, Exits;
    forall e | e in es ensures e.from in spec.rooms && e.to in spec.rooms {
      var i :| 0 <= i < |es| && es[i] == e;
      assert EdgeSound(spec.rooms.Keys, es[i]);
    }
  }

  /** The rooms a new game can get to are those on open paths of the search tree. It gets there
      in as many moves as the raw distance, and back by the reversed opposite moves; and whichever
      way it gets to a room, the room lies equally far east, north and up. */
  ghost predicate PlaysLike(spec: Spec, t: Topology, who: Character, room: string) {
    && (InReach(spec, who, room) <==> OpenPath(t, room))
    && (forall n: nat :: FewestMoves(spec, who, room, n) <==> OpenPath(t, room) && DistanceIs(RawLinks(t.edges), t.start, room, n))
    && (forall dirs :: LeadTo(spec, who, room, dirs) ==>
          RoundTrip(spec, who, room, dirs) && Displaced(dirs + Back(dirs)) == HERE)
    && forall a, b :: LeadTo(spec, who, room, a) && LeadTo(spec, who, room, b) ==> Displaced(a) == Displaced(b)
  }

  lemma GeneratedPlays(spec: Spec, t: Topology, es: seq<Edge>, who: Character, room: string)
    requires Exported(spec, es) && spec.startingRoom == t.start && RawEdges(es) == BfsTree(t.edges, t.start)
    ensures PlaysLike(spec, t, who, room)
  {
    hide Exported, DistanceIs, Reaches, BfsTree, SpanningTree, InReach, FewestMoves, LeadTo, RoundTrip, Displaced;
    var tree := BfsTree(t.edges, t.start);
    RoomsInReach(spec, es, who, room);
    BfsTreeSpans(t.edges, t.start);
    KeepMembers(tree, IsOpen());
    forall n: nat ensures FewestMoves(spec, who, room, n) <==> OpenPath(t, room) && DistanceIs(RawLinks(t.edges), t.start, room, n) {
      OpenDistance(tree, t.edges, t.start, Keep(tree, IsOpen()), room, n);
    }
    forall a, b | LeadTo(spec, who, room, a) && LeadTo(spec, who, room, b)
      ensures Displaced(a) == Displaced(b) && Displaced(a + Back(a)) == HERE
    {
      RoomsHavePlaces(spec, es, t.edges, who, room, a, b);
    }
  }

  function InitialContent(opts: Options): Content {
    Content(opts.title, if opts.death == "" then "respawn" else opts.death, map[], map[], map[], map[])
  }

  /** What the visitors begin with: a titled scenario that says what death means and has nothing in it. */
  predicate StartsFrom(content: Content, opts: Options) {
    && content.title == opts.title && content.death != "" && (opts.death != "" ==> content.death == opts.death)
    && (opts.death == "" ==> content.death == "respawn")
    && content.rooms == map[] && content.items == map[] && content.enemies == map[] && content.spells == map[]
  }

  /** `visit` stands for running the visitors over the graph; it fails with the first failing one. */
  method Generate(source: Result<Topology, string>, opts: Options,
                  visit: (map<string, Node>, seq<Edge>, Content) -> Result<Content, string>)
      returns (r: Result<Spec, ScenarioError>, ghost content: Result<Content, string>)
    requires source.Ok? ==> FindsListedNodes(source.value.nodes, source.value.edges, source.value.start)
    ensures r.Ok? <==> source.Ok? && Generates(source.value) && content.Ok?
    ensures source.Ok? && Generates(source.value) ==>
      exists nodes, es, first :: RawEdges(es) == BfsTree(source.value.edges, source.value.start)
        && StartsFrom(first, opts) && content == visit(nodes, es, first)
    ensures r.Ok? ==> r.value.rooms.Keys == Ids(source.value.nodes) && r.value.startingRoom == source.value.start
    ensures r.Ok? ==> r.value.title == content.value.title && r.value.death == content.value.death
    // Which rooms can be walked to, in how many moves, and back again.
    ensures r.Ok? ==> forall who, room :: PlaysLike(r.value, source.value, who, room)
    // With non-empty ids and known enemies the result passes the room checks.
    ensures r.Ok? && "" !in r.value.rooms ==> (RoomChecks(r.value) <==> EnemiesKnown(r.value.rooms.Keys, content.value))
  {
    hide Generates, BfsTree, DistanceIs, SlotsUnique, Exported, PlaysLike, Exits, RoomChecks, Reaches, DegreeOf,
         FindsListedNodes;
    hide EnemiesKnown;
    content := Err("");
    var g := GenerateGraph(source);
    if g.Err? {
      return Err(GraphFailed(g.error)), content;
    }
    var t, graph := source.value, g.value;
    var visited := visit(graph.Nodes, graph.Edges, InitialContent(opts));
    content := visited;
    if visited.Err? {
      return Err(VisitorFailed(visited.error)), content;
    }
    assert SlotsUnique(graph.Edges);
    forall i | 0 <= i < |graph.Edges| ensures graph.Edges[i].from in graph.Nodes && graph.Edges[i].to in graph.Nodes {
      assert EdgeSound(graph.Nodes.Keys, graph.Edges[i]);
    }
    var s := ToScenario(graph, visited.value);
    GraphExported(s, graph.Edges, t.start);
    forall who, room ensures PlaysLike(s, t, who, room) {
      GeneratedPlays(s, t, graph.Edges, who, room);
    }
    if "" !in s.rooms {
      ExportPassesRoomChecks(graph.Nodes.Keys, graph.Edges, graph.Start, visited.value, s);
    }
    return Ok(s), content;
  }
}
