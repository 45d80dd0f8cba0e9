/** Compass directions over whole routes: going back cancels a route, and in a generated scenario
    every room has its place on the map. */
module Compass {
  import opened Paths
  import opened Graphs
  import opened AssignDirections
  import opened Scenarios
  import opened Export
  import opened GameStates
  import opened Moving

  /** A route and its way back end where they began. */
  lemma {:induction false} BackCancels(dirs: seq<Direction>)
    requires forall d :: d in dirs ==> d.Valid()
    ensures Displaced(dirs + Back(dirs)) == HERE
  {
    hide Displacement, Displaced;
    if dirs == [] {
      DisplacedStep(North, []);
      assert dirs + Back(dirs) == [];
    } else {
      var d, rest := dirs[0], dirs[1..];
      assert d in dirs;
      BackCancels(rest);
      assert dirs + Back(dirs) == [d] + ((rest + Back(rest)) + [d.Opposite()]);
      hide Back;
      AroundDisplaces(d, rest + Back(rest));
    }
  }

  lemma AroundDisplaces(d: Direction, mid: seq<Direction>)
    requires d.Valid() && Displaced(mid) == HERE
    ensures Displaced([d] + (mid + [d.Opposite()])) == HERE
  {
    hide Displacement, Displaced;
    OppositeLeadsBack(d, d.Opposite());
    DisplacedStep(d, mid + [d.Opposite()]);
    DisplacedConcat(mid, [d.Opposite()]);
    DisplacedStep(d.Opposite(), []);
    assert [d.Opposite()] + [] == [d.Opposite()];
  }

  lemma DisplacedStep(d: Direction, rest: seq<Direction>)
    ensures Displaced([]) == HERE && Displaced([d] + rest) == Displacement(d).Plus(Displaced(rest))
  {
    hide Displacement;
    assert ([d] + rest)[1..] == rest;
  }

  /** Every move that succeeds is in one of the six directions. */
  lemma {:induction false} RouteIsValid(spec: Spec, es: seq<Edge>, w: World, dirs: seq<Direction>)
    requires Exported(spec, es) && Walked(spec, w, dirs).Some?
    ensures forall d :: d in dirs ==> d.Valid()
    decreases |dirs|
  {
    hide Exported, Moved, Destination;
    if dirs != [] {
      MoveIsLink(spec, es, w.currentRoom, dirs[0]);
      RouteIsValid(spec, es, Moved(spec, w, dirs[0]), dirs[1..]);
    }
  }

  // ---------- The map ----------

  /** Where `v`, `d` edges below the start, lies: the edges down to it, added up. */
  ghost function Position(es: seq<Edge>, v: string, d: nat): Offset
    decreases d
  {
    if d > 0 && exists e :: e in es && e.to == v then
      var e :| e in es && e.to == v;
      Position(es, e.from, d - 1).Plus(Displacement(e.fromDir))
    else HERE
  }

  lemma ChildPosition(es: seq<Edge>, raw: seq<RawEdge>, s: string, e: Edge, d: nat)
    requires SpanningTree(RawEdges(es), raw, s) && e in es
    ensures Position(es, e.to, d + 1) == Position(es, e.from, d).Plus(Displacement(e.fromDir))
  {
    hide Displacement, DistanceIs, Reaches;
    forall f | f in es && f.to == e.to ensures f == e {
      var i :| 0 <= i < |es| && es[i] == e;
      var j :| 0 <= j < |es| && es[j] == f;
      assert RawEdges(es)[i].to == RawEdges(es)[j].to;
    }
  }

  lemma EdgeDepths(es: seq<Edge>, raw: seq<RawEdge>, s: string, e: Edge) returns (d: nat)
    requires SpanningTree(RawEdges(es), raw, s) && e in es
    ensures DistanceIs(RawLinks(raw), s, e.from, d) && DistanceIs(RawLinks(raw), s, e.to, d + 1)
  {
    hide DistanceIs, Reaches, RawLinks;
    var i :| 0 <= i < |es| && es[i] == e;
    assert RawEdges(es)[i] == Raw(e) && Raw(e) in RawEdges(es);
    d :| DistanceIs(RawLinks(raw), s, e.from, d) && DistanceIs(RawLinks(raw), s, e.to, d + 1);
  }

  /** Crossing an edge from either end changes the place on the map by its direction there. */
  lemma CrossingDisplaces(es: seq<Edge>, raw: seq<RawEdge>, s: string, e: Edge, u: string, d: nat, dir: Direction, v: string)
      returns (d': nat)
    requires SpanningTree(RawEdges(es), raw, s) && e in es && LeadsBack(e)
    requires (u == e.from && dir == e.fromDir && v == e.to) || (u == e.to && dir == e.toDir && v == e.from)
    requires DistanceIs(RawLinks(raw), s, u, d)
    ensures DistanceIs(RawLinks(raw), s, v, d')
    ensures Position(es, u, d).Plus(Displacement(dir)) == Position(es, v, d')
  {
    hide SpanningTree, DistanceIs, Displacement, Position, RawLinks;
    var k := EdgeDepths(es, raw, s, e);
    ChildPosition(es, raw, s, e, k);
    if u == e.from && dir == e.fromDir && v == e.to {
      DistanceUnique(RawLinks(raw), s, u, d, k);
      d' := k + 1;
    } else {
      DistanceUnique(RawLinks(raw), s, u, d, k + 1);
      d' := k;
    }
  }

  /** One move changes the place on the map by its direction. */
  lemma MoveDisplaces(spec: Spec, es: seq<Edge>, raw: seq<RawEdge>, s: string, u: string, dir: Direction, d: nat)
      returns (d': nat)
    requires Exported(spec, es) && SpanningTree(RawEdges(es), raw, s)
    requires Destination(spec, u, dir).Ok? && DistanceIs(RawLinks(raw), s, u, d)
    ensures var v := Destination(spec, u, dir).value;
            && DistanceIs(RawLinks(raw), s, v, d')
            && Position(es, u, d).Plus(Displacement(dir)) == Position(es, v, d')
  {
    hide Exits, SlotsUnique, SpanningTree, DistanceIs, Displacement, Position, RawLinks, LeadsBack, RawEdges;
    var c := spec.rooms[u].connections[dir];
    ExitsAreEdgeEnds(es, u, dir, c);
    var e :| e in es && Leads(e, u, dir, c);
    SlotsLeadBack(es);
    d' := CrossingDisplaces(es, raw, s, e, u, d, dir, c.room);
  }

  lemma {:induction false} RouteDisplaces(spec: Spec, es: seq<Edge>, raw: seq<RawEdge>, s: string, w: World,
      dirs: seq<Direction>, d: nat) returns (d': nat)
    requires Exported(spec, es) && SpanningTree(RawEdges(es), raw, s)
    requires Walked(spec, w, dirs).Some? && DistanceIs(RawLinks(raw), s, w.currentRoom, d)
    ensures var v := Walked(spec, w, dirs).value.currentRoom;
            && DistanceIs(RawLinks(raw), s, v, d')
            && Position(es, w.currentRoom, d).Plus(Displaced(dirs)) == Position(es, v, d')
    decreases |dirs|
  {
    hide Exported, SpanningTree, DistanceIs, Displacement, Position, Moved, Destination;
    if dirs == [] {
      d' := d;
    } else {
      var k := MoveDisplaces(spec, es, raw, s, w.currentRoom, dirs[0], d);
      MovedRoom(spec, w, dirs[0]);
      d' := RouteDisplaces(spec, es, raw, s, Moved(spec, w, dirs[0]), dirs[1..], k);
    }
  }

  /** On a search tree the map is consistent: all routes from a new game to the same room lead
      equally far east, north and up. */
  lemma RoomsHavePlaces(spec: Spec, es: seq<Edge>, raw: seq<RawEdge>, who: Character, room: string,
                        a: seq<Direction>, b: seq<Direction>)
    requires Exported(spec, es) && SpanningTree(RawEdges(es), raw, spec.startingRoom)
    requires LeadTo(spec, who, room, a) && LeadTo(spec, who, room, b)
    ensures Displaced(a) == Displaced(b) && Displaced(a + Back(a)) == HERE
  {
    hide Exported, SpanningTree, DistanceIs, Displaced, Displacement, Walked;
    var s, w := spec.startingRoom, NewWorld(spec, who);
    StartDistance(RawLinks(raw), s);
    var i := RouteDisplaces(spec, es, raw, s, w, a, 0);
    var j := RouteDisplaces(spec, es, raw, s, w, b, 0);
    DistanceUnique(RawLinks(raw), s, room, i, j);
    RouteIsValid(spec, es, w, a);
    BackCancels(a);
  }
}
