/** toScenario and buildConnectionMap: two exports of the same edge list. */
module Export {
  import opened Graphs
  import opened Scenarios

  datatype RoomContent = RoomContent(name: string, descriptionSeed: string, items: seq<string>, enemies: seq<string>)

  datatype Content = Content(title: string, death: string, rooms: map<string, RoomContent>, items: map<string, ItemDef>,
                             enemies: map<string, EnemyTemplate>, spells: map<string, SpellTemplate>)

  /** The exits of node `id` after edge `e` has been entered at both its ends. */
  function Enter(m: map<Direction, Connection>, e: Edge, id: string): map<Direction, Connection> {
    var m' := if e.from == id then m[e.fromDir := Connection(e.to, e.kind)] else m;
    if e.to == id then m'[e.toDir := Connection(e.from, e.kind)] else m'
  }

  /** The exits of node `id`, each edge written over the ones before it. */
  function Exits(es: seq<Edge>, id: string): map<Direction, Connection> {
    if es == [] then map[] else Enter(Exits(es[..|es| - 1], id), es[|es| - 1], id)
  }

  function EmptyRoom(content: Content, id: string): Room {
    if id in content.rooms then
      var rc := content.rooms[id];
      Room(if rc.name == "" then id else rc.name, rc.descriptionSeed, map[], rc.items, rc.enemies)
    else Room(id, "", map[], [], [])
  }

  method EnterEdge(rooms: map<string, Room>, e: Edge) returns (rooms': map<string, Room>)
    requires e.from in rooms && e.to in rooms
    ensures rooms'.Keys == rooms.Keys
    ensures forall id :: id in rooms ==> rooms'[id] == rooms[id].(connections := Enter(rooms[id].connections, e, id))
  {
    rooms' := rooms[e.from := rooms[e.from].(connections := rooms[e.from].connections[e.fromDir := Connection(e.to, e.kind)])];
    rooms' := rooms'[e.to := rooms'[e.to].(connections := rooms'[e.to].connections[e.toDir := Connection(e.from, e.kind)])];
  }

  lemma EmptyRoomHasNoExits(content: Content, g: Graph)
    ensures forall id :: id in g.Nodes ==> EmptyRoom(content, id) == EmptyRoom(content, id).(connections := Exits(g.Edges[..0], id))
  {
  }

  lemma RoomContentIsKept(content: Content, id: string)
    requires id in content.rooms
    ensures var room, given := EmptyRoom(content, id), content.rooms[id];
            && room.items == given.items && room.enemies == given.enemies && room.descriptionSeed == given.descriptionSeed
            && room.name == if given.name != "" then given.name else id
  {
  }

  method ToScenario(g: Graph, content: Content) returns (s: Spec)
    requires forall i :: 0 <= i < |g.Edges| ==> g.Edges[i].from in g.Nodes && g.Edges[i].to in g.Nodes
    ensures s.rooms.Keys == g.Nodes.Keys && s.startingRoom == g.Start
    ensures forall id :: id in g.Nodes ==> s.rooms[id] == EmptyRoom(content, id).(connections := Exits(g.Edges, id))
    ensures forall id :: id in g.Nodes && id in content.rooms ==>
      && s.rooms[id].items == content.rooms[id].items && s.rooms[id].enemies == content.rooms[id].enemies
      && s.rooms[id].descriptionSeed == content.rooms[id].descriptionSeed
      && s.rooms[id].name == if content.rooms[id].name != "" then content.rooms[id].name else id
    ensures s.title == content.title && s.death == content.death
    ensures s.items == content.items && s.enemies == content.enemies && s.spells == content.spells
  {
    hide EmptyRoom;
    var rooms: map<string, Room> := map[];
    var ids := g.Nodes.Keys;
    while ids != {}
      invariant ids <= g.Nodes.Keys && rooms.Keys == g.Nodes.Keys - ids
      invariant forall id :: id in rooms ==> rooms[id] == EmptyRoom(content, id)
    {
      var id :| id in ids;
      rooms := rooms[id := EmptyRoom(content, id)];
      ids := ids - {id};
    }
    EmptyRoomHasNoExits(content, g);
    for i := 0 to |g.Edges|
      invariant rooms.Keys == g.Nodes.Keys
      invariant forall id :: id in rooms ==> rooms[id] == EmptyRoom(content, id).(connections := Exits(g.Edges[..i], id))
    {
      assert g.Edges[..i + 1][..i] == g.Edges[..i];
      rooms := EnterEdge(rooms, g.Edges[i]);
    }
    assert g.Edges[..|g.Edges|] == g.Edges;
    forall id | id in g.Nodes && id in content.rooms
      ensures var room, given := EmptyRoom(content, id), content.rooms[id];
              && room.items == given.items && room.enemies == given.enemies && room.descriptionSeed == given.descriptionSeed
              && room.name == if given.name != "" then given.name else id
    {
      RoomContentIsKept(content, id);
    }
    s := Spec("", content.title, g.Start, content.death, rooms, content.items, content.enemies, content.spells);
  }

  function ExitsIn(conns: map<string, map<Direction, Connection>>, id: string): map<Direction, Connection> {
    if id in conns then conns[id] else map[]
  }

  method BuildConnectionMap(g: Graph) returns (conns: map<string, map<Direction, Connection>>)
    ensures forall id :: ExitsIn(conns, id) == Exits(g.Edges, id)
    ensures forall id :: id in conns <==> DegreeOf(g.Edges, id) > 0
  {
    conns := map[];
    for i := 0 to |g.Edges|
      invariant forall id :: ExitsIn(conns, id) == Exits(g.Edges[..i], id)
      invariant forall id :: id in conns <==> DegreeOf(g.Edges[..i], id) > 0
    {
      var e := g.Edges[i];
      assert g.Edges[..i + 1][..i] == g.Edges[..i];
      conns := conns[e.from := ExitsIn(conns, e.from)[e.fromDir := Connection(e.to, e.kind)]];
      conns := conns[e.to := ExitsIn(conns, e.to)[e.toDir := Connection(e.from, e.kind)]];
    }
    assert g.Edges[..|g.Edges|] == g.Edges;
  }

  // ---------- Regions ----------

  /** The region a node is written to: its "region" entry unless that is missing or empty. */
  function RegionOf(n: Node): string {
    if "region" in n.meta && n.meta["region"] != "" then n.meta["region"] else "default"
  }

  function Group(regions: map<string, seq<string>>, r: string): seq<string> {
    if r in regions then regions[r] else []
  }

  /** How often `id` belongs in region `r`. */
  function Times(nodes: map<string, Node>, ids: set<string>, r: string, id: string): nat
    requires ids <= nodes.Keys
  {
    if id in ids && RegionOf(nodes[id]) == r then 1 else 0
  }

  /** Of the nodes `ids` every one is listed once, in its own region and no other; no region is empty. */
  ghost predicate Grouped(regions: map<string, seq<string>>, nodes: map<string, Node>, ids: set<string>)
    requires ids <= nodes.Keys
  {
    && (forall r, id :: multiset(Group(regions, r))[id] == Times(nodes, ids, r, id))
    && (forall r :: r in regions ==> regions[r] != [])
  }

  lemma GroupedOneMore(regions: map<string, seq<string>>, nodes: map<string, Node>, ids: set<string>, id: string)
    requires ids <= nodes.Keys && id in nodes && id !in ids && Grouped(regions, nodes, ids)
    ensures var region := RegionOf(nodes[id]);
            Grouped(regions[region := Group(regions, region) + [id]], nodes, ids + {id})
  {
    var region := RegionOf(nodes[id]);
    var regions' := regions[region := Group(regions, region) + [id]];
    forall r, x ensures multiset(Group(regions', r))[x] == Times(nodes, ids + {id}, r, x) {
      assert multiset(Group(regions, r))[x] == Times(nodes, ids, r, x);
      if r == region {
        assert multiset(Group(regions', r)) == multiset(Group(regions, r)) + multiset{id};
      }
    }
  }

  lemma GroupedMembers(regions: map<string, seq<string>>, nodes: map<string, Node>)
    requires Grouped(regions, nodes, nodes.Keys)
    ensures forall r, id :: id in Group(regions, r) <==>
      id in nodes && r == if "region" in nodes[id].meta && nodes[id].meta["region"] != "" then nodes[id].meta["region"] else "default"
  {
    forall r, id ensures id in Group(regions, r) <==> Times(nodes, nodes.Keys, r, id) == 1 {
      assert multiset(Group(regions, r))[id] == Times(nodes, nodes.Keys, r, id);
    }
  }

  method GroupByRegion(g: Graph) returns (regions: map<string, seq<string>>)
    ensures Grouped(regions, g.Nodes, g.Nodes.Keys)
    ensures forall r, id :: id in Group(regions, r) <==>
      id in g.Nodes && r == if "region" in g.Nodes[id].meta && g.Nodes[id].meta["region"] != "" then g.Nodes[id].meta["region"] else "default"
  {
    regions := map[];
    var ids := g.Nodes.Keys;
    ghost var done: set<string> := {};
    while ids != {}
      invariant ids <= g.Nodes.Keys && done == g.Nodes.Keys - ids
      invariant Grouped(regions, g.Nodes, done)
    {
      hide Grouped;
      var id :| id in ids;
      var region := "default";
      if "region" in g.Nodes[id].meta && g.Nodes[id].meta["region"] != "" {
        region := g.Nodes[id].meta["region"];
      }
      GroupedOneMore(regions, g.Nodes, done, id);
      regions := regions[region := Group(regions, region) + [id]];
      ids := ids - {id};
      done := done + {id};
    }
    assert done == g.Nodes.Keys;
    GroupedMembers(regions, g.Nodes);
  }

  // ---------- What the exits say about the edges ----------

  /** Edge `e` leads from `id` in direction `d` to the connection `c`. */
  predicate Leads(e: Edge, id: string, d: Direction, c: Connection) {
    || (e.from == id && e.fromDir == d && c == Connection(e.to, e.kind))
    || (e.to == id && e.toDir == d && c == Connection(e.from, e.kind))
  }

  lemma EnterElsewhere(m: map<Direction, Connection>, e: Edge, id: string, d: Direction)
    requires !Fills(e, id, d)
    ensures d in Enter(m, e, id) <==> d in m
    ensures d in m ==> Enter(m, e, id)[d] == m[d]
  {}

  lemma EnterHere(m: map<Direction, Connection>, e: Edge, id: string, d: Direction, c: Connection)
    requires Fills(e, id, d) && e.fromDir != e.toDir
    ensures d in Enter(m, e, id) && (Enter(m, e, id)[d] == c <==> Leads(e, id, d, c))
  {}

  lemma LeadsFills(e: Edge, id: string, d: Direction, c: Connection)
    requires Leads(e, id, d, c)
    ensures Fills(e, id, d)
  {}

  /** No edge overwrites another: the exits are exactly the edge ends. */
  lemma {:induction false} ExitsAreEdgeEnds(es: seq<Edge>, id: string, d: Direction, c: Connection)
    requires SlotsUnique(es)
    ensures d in Exits(es, id) <==> !SlotFree(es, id, d)
    ensures (d in Exits(es, id) && Exits(es, id)[d] == c) <==> exists e :: e in es && Leads(e, id, d, c)
  {
    hide Enter, Leads;
    if es != [] {
      var m := |es| - 1;
      SlotsUniquePrefix(es, m);
      ExitsAreEdgeEnds(es[..m], id, d, c);
      assert es == es[..m] + [es[m]];
      assert forall e :: e in es <==> e in es[..m] || e == es[m];
      if Fills(es[m], id, d) {
        OppositeInvolution(es[m].fromDir);
        EnterHere(Exits(es[..m], id), es[m], id, d, c);
        forall e | e in es[..m] ensures !Leads(e, id, d, c) {
          var i :| 0 <= i < m && es[i] == e;
          if Leads(e, id, d, c) {
            LeadsFills(e, id, d, c);
          }
        }
      } else {
        EnterElsewhere(Exits(es[..m], id), es[m], id, d);
        if Leads(es[m], id, d, c) {
          LeadsFills(es[m], id, d, c);
        }
      }
    }
  }

  /** If A's exit d leads to B, then B's exit opposite(d) leads back to A with the same kind. */
  lemma ExitsSymmetric(es: seq<Edge>, a: string, d: Direction)
    requires SlotsUnique(es) && d in Exits(es, a)
    ensures var c := Exits(es, a)[d];
            && d.Valid() && d.Opposite() in Exits(es, c.room)
            && Exits(es, c.room)[d.Opposite()] == Connection(a, c.kind)
  {
    hide Exits;
    var c := Exits(es, a)[d];
    ExitsAreEdgeEnds(es, a, d, c);
    var e :| e in es && Leads(e, a, d, c);
    ExitsAreEdgeEnds(es, c.room, d.Opposite(), Connection(a, c.kind));
    assert Leads(e, c.room, d.Opposite(), Connection(a, c.kind));
  }

  /** The same edge seen from its other end. */
  function Flip(e: Edge): Edge { Edge(e.to, e.from, e.toDir, e.fromDir, e.kind) }

  /** Every edge together with its flip. */
  ghost function Undirected(es: seq<Edge>): set<Edge> {
    (set e | e in es) + (set e | e in es :: Flip(e))
  }

  /** The exits determine the undirected edges: two edge lists that export alike agree up to
      order and to the end each edge is written from. */
  lemma ExitsDetermineEdges(es: seq<Edge>, fs: seq<Edge>)
    requires SlotsUnique(es) && SlotsUnique(fs)
    requires forall id :: Exits(es, id) == Exits(fs, id)
    ensures Undirected(es) == Undirected(fs) && |es| == |fs|
  {
    hide SlotsUnique, Exits;
    forall e: Edge ensures e in Undirected(es) <==> e in Undirected(fs) {
      if e in Undirected(es) {
        UndirectedEdgeFound(es, fs, e);
      }
      if e in Undirected(fs) {
        UndirectedEdgeFound(fs, es, e);
      }
    }
    UndirectedSize(es);
    UndirectedSize(fs);
  }

  lemma FlipTwice(es: seq<Edge>, e: Edge)
    ensures e in Undirected(es) <==> e in es || Flip(e) in es
  {
    assert Flip(Flip(e)) == e;
  }

  lemma UndirectedEdgeFound(es: seq<Edge>, fs: seq<Edge>, e: Edge)
    requires SlotsUnique(es) && SlotsUnique(fs)
    requires forall id :: Exits(es, id) == Exits(fs, id)
    requires e in Undirected(es)
    ensures e in Undirected(fs)
  {
    hide Exits, Undirected;
    FlipTwice(es, e);
    FlipTwice(fs, e);
    var o := if e in es then e else Flip(e);
    var c := Connection(o.to, o.kind);
    ExitsAreEdgeEnds(es, o.from, o.fromDir, c);
    assert Leads(o, o.from, o.fromDir, c);
    ExitsAreEdgeEnds(fs, o.from, o.fromDir, c);
    var f :| f in fs && Leads(f, o.from, o.fromDir, c);
    var i :| 0 <= i < |es| && es[i] == o;
    var j :| 0 <= j < |fs| && fs[j] == f;
    OppositeInvolution(o.fromDir);
    assert Flip(Flip(e)) == e;
  }

  lemma LastEdgeIsNew(es: seq<Edge>, m: nat)
    requires SlotsUnique(es) && m < |es|
    ensures es[m] !in Undirected(es[..m]) && Flip(es[m]) !in Undirected(es[..m]) && es[m] != Flip(es[m])
  {
    hide Undirected;
    var e := es[m];
    FlipTwice(es[..m], e);
    FlipTwice(es[..m], Flip(e));
    assert Fills(es[m], e.from, e.fromDir);
    forall f | f in es[..m] ensures f != e && f != Flip(e) {
      var i :| 0 <= i < m && es[i] == f;
    }
    assert e.fromDir != e.toDir;
  }

  lemma {:induction false} UndirectedSize(es: seq<Edge>)
    requires SlotsUnique(es)
    ensures |Undirected(es)| == 2 * |es|
  {
    hide SlotsUnique, Undirected, Flip;
    if es == [] {
      UndirectedSnoc([], Edge("", "", North, South, ""));
    } else {
      var m := |es| - 1;
      SlotsUniquePrefix(es, m);
      UndirectedSize(es[..m]);
      LastEdgeIsNew(es, m);
      assert es == es[..m] + [es[m]];
      UndirectedSnoc(es[..m], es[m]);
    }
  }

  lemma UndirectedSnoc(es: seq<Edge>, e: Edge)
    ensures Undirected([]) == {}
    ensures Undirected(es + [e]) == Undirected(es) + {e, Flip(e)}
  {
  }

  /** The visitors placed only enemies they also registered. */
  predicate EnemiesKnown(nodes: set<string>, content: Content) {
    forall id, i :: id in nodes && id in content.rooms && 0 <= i < |content.rooms[id].enemies| ==>
      content.rooms[id].enemies[i] in content.enemies
  }

  /** A valid graph with non-empty ids and known enemies exports to a specification that
      passes the room checks. */
  lemma ExportPassesRoomChecks(nodes: set<string>, es: seq<Edge>, start: string, content: Content, s: Spec)
    requires SlotsUnique(es) && ValidGraph(nodes, es, start) && "" !in nodes
    requires s.rooms.Keys == nodes && s.startingRoom == start && s.enemies == content.enemies
    requires forall id :: id in nodes ==> s.rooms[id] == EmptyRoom(content, id).(connections := Exits(es, id))
    ensures RoomChecks(s) <==> EnemiesKnown(nodes, content)
  {
    hide Exits, SlotsUnique;
    assert forall id :: id in nodes ==> s.rooms[id].name != "";
    forall id, d | id in nodes && d in Exits(es, id) ensures Exits(es, id)[d].room in nodes {
      ExitInNodes(nodes, es, start, id, d);
    }
    forall id | id in nodes ensures s.rooms[id].enemies == if id in content.rooms then content.rooms[id].enemies else [] {
    }
    if RoomChecks(s) {
      forall id, i | id in nodes && id in content.rooms && 0 <= i < |content.rooms[id].enemies|
        ensures content.rooms[id].enemies[i] in content.enemies
      {
        assert RoomSound(s, s.rooms[id]);
      }
    }
  }

  lemma ExitInNodes(nodes: set<string>, es: seq<Edge>, start: string, id: string, d: Direction)
    requires SlotsUnique(es) && ValidGraph(nodes, es, start) && d in Exits(es, id)
    ensures Exits(es, id)[d].room in nodes
  {
    hide SlotsUnique;
    ExitsAreEdgeEnds(es, id, d, Exits(es, id)[d]);
    var e :| e in es && Leads(e, id, d, Exits(es, id)[d]);
    var i :| 0 <= i < |es| && es[i] == e;
    assert EdgeSound(nodes, es[i]);
  }
}
