/** Engine.Move, and which rooms of an exported graph the player can walk to and back. */
module Moving {
  import opened Wrappers
  import opened Paths
  import opened Graphs
  import opened AssignDirections
  import opened EdgeLists
  import opened Scenarios
  import opened Export
  import opened GameStates

  /** Where a move from `room` in direction `dir` leads, or why it does not. */
  function Destination(spec: Spec, room: string, dir: Direction): Result<string, EngineError> {
    if room !in spec.rooms then Err(RoomNotFound(room))
    else if dir !in spec.rooms[room].connections then Err(NoExit(dir))
    else
      var conn := spec.rooms[room].connections[dir];
      if conn.kind == "locked" then Err(Locked(dir, conn.room))
      else if conn.kind == "hidden" then Err(NoExit(dir))
      else if conn.kind != "open" && conn.kind != "stairway" then Err(UnknownConnection(conn.kind))
      else if conn.room !in spec.rooms then Err(RoomNotFound(conn.room))
      else Ok(conn.room)
  }

  function AppendUnique(s: seq<string>, x: string): seq<string> {
    if x in s then s else s + [x]
  }

  /** The world after a move; a failed move changes nothing. */
  function Moved(spec: Spec, w: World, dir: Direction): World {
    match Destination(spec, w.currentRoom, dir)
    case Err(_) => w
    case Ok(room) =>
      Ensured(spec, w.(currentRoom := room, visitedRooms := AppendUnique(w.visitedRooms, room)), room)
  }

  method Move(spec: Spec, state: GameState, dir: Direction) returns (r: Result<string, EngineError>)
    modifies state`currentRoom, state`visitedRooms, state`roomState
    ensures r == Destination(spec, old(state.currentRoom), dir)
    ensures state.Snap() == Moved(spec, old(state.Snap()), dir)
  {
    if state.currentRoom !in spec.rooms {
      return Err(RoomNotFound(state.currentRoom));
    }
    var room := spec.rooms[state.currentRoom];
    if dir !in room.connections {
      return Err(NoExit(dir));
    }
    var conn := room.connections[dir];
    if conn.kind == "locked" {
      return Err(Locked(dir, conn.room));
    } else if conn.kind == "hidden" {
      return Err(NoExit(dir));
    } else if conn.kind != "open" && conn.kind != "stairway" {
      return Err(UnknownConnection(conn.kind));
    }
    if conn.room !in spec.rooms {
      return Err(RoomNotFound(conn.room));
    }
    state.currentRoom := conn.room;
    var seen := false;
    for i := 0 to |state.visitedRooms|
      invariant seen <==> conn.room in state.visitedRooms[..i]
    {
      seen := seen || state.visitedRooms[i] == conn.room;
    }
    assert state.visitedRooms[..|state.visitedRooms|] == state.visitedRooms;
    if !seen {
      state.visitedRooms := state.visitedRooms + [conn.room];
    }
    var rs := EnsureRoomState(spec, state, conn.room);
    return Ok(conn.room);
  }

  // ---------- Walking a generated scenario ----------

  /** The world after a sequence of moves, none of which may fail. */
  function Walked(spec: Spec, w: World, dirs: seq<Direction>): Option<World>
    decreases |dirs|
  {
    if dirs == [] then Some(w)
    else if Destination(spec, w.currentRoom, dirs[0]).Err? then None
    else Walked(spec, Moved(spec, w, dirs[0]), dirs[1..])
  }

  /** The moves that undo `dirs`: last first, each in the opposite direction. */
  function Back(dirs: seq<Direction>): seq<Direction> {
    if dirs == [] then [] else Back(dirs[1..]) + [dirs[0].Opposite()]
  }

  /** `spec` is the export of the edges, whatever their kinds, between known rooms. */
  ghost predicate Exported(spec: Spec, es: seq<Edge>) {
    && SlotsUnique(es)
    && (forall e :: e in es ==> e.from in spec.rooms && e.to in spec.rooms)
    && (forall id :: id in spec.rooms ==> spec.rooms[id].connections == Exits(es, id))
  }

  /** The kinds of connection a player can pass. */
  function IsOpen(): RawEdge -> bool { (e: RawEdge) => e.kind == "open" || e.kind == "stairway" }

  function OpenLinks(es: seq<RawEdge>): seq<Link> { RawLinks(Keep(es, IsOpen())) }

  lemma {:induction false} WalkedConcat(spec: Spec, w: World, a: seq<Direction>, b: seq<Direction>)
    ensures Walked(spec, w, a + b) == match Walked(spec, w, a) case None => None case Some(v) => Walked(spec, v, b)
    decreases |a|
  {
    if a == [] {
      assert a + b == b;
    } else {
      assert (a + b)[1..] == a[1..] + b;
      if Destination(spec, w.currentRoom, a[0]).Ok? {
        WalkedConcat(spec, Moved(spec, w, a[0]), a[1..], b);
      }
    }
  }

  lemma OpenLinked(es: seq<Edge>, u: string, v: string)
    ensures Linked(OpenLinks(RawEdges(es)), u, v)
       <==> exists e :: e in es && IsOpen()(Raw(e)) && ((e.from == u && e.to == v) || (e.from == v && e.to == u))
  {
    var raw := RawEdges(es);
    KeepMembers(raw, IsOpen());
    JoinedLinked(Keep(raw, IsOpen()), u, v);
    if Linked(OpenLinks(raw), u, v) {
      var k :| Joined(Keep(raw, IsOpen()), u, v, k);
      var i :| 0 <= i < |es| && IsOpen()(raw[i]) && (raw[i] == RawEdge(u, v, k) || raw[i] == RawEdge(v, u, k));
      assert es[i] in es && Raw(es[i]) == raw[i];
    }
    forall e | e in es && IsOpen()(Raw(e)) && ((e.from == u && e.to == v) || (e.from == v && e.to == u))
      ensures Linked(OpenLinks(raw), u, v)
    {
      var i :| 0 <= i < |es| && es[i] == e;
      assert raw[i] == Raw(e) && raw[i] in raw;
      assert Joined(Keep(raw, IsOpen()), u, v, e.kind);
    }
  }

  /** Every open link is a move. */
  lemma LinkIsMove(spec: Spec, es: seq<Edge>, u: string, v: string) returns (d: Direction)
    requires Exported(spec, es) && Linked(OpenLinks(RawEdges(es)), u, v)
    ensures Destination(spec, u, d) == Ok(v)
  {
    hide Exits, SlotsUnique, OpenLinks;
    OpenLinked(es, u, v);
    var e :| e in es && IsOpen()(Raw(e)) && ((e.from == u && e.to == v) || (e.from == v && e.to == u));
    d := if e.from == u && e.to == v then e.fromDir else e.toDir;
    assert Leads(e, u, d, Connection(v, e.kind));
    ExitsAreEdgeEnds(es, u, d, Connection(v, e.kind));
  }

  /** Every move is an open link, and the opposite direction leads back. */
  lemma MoveIsLink(spec: Spec, es: seq<Edge>, u: string, d: Direction)
    requires Exported(spec, es) && Destination(spec, u, d).Ok?
    ensures d.Valid()
    ensures Linked(OpenLinks(RawEdges(es)), u, Destination(spec, u, d).value)
    ensures Destination(spec, Destination(spec, u, d).value, d.Opposite()) == Ok(u)
  {
    hide Exits, SlotsUnique, OpenLinks;
    var c := spec.rooms[u].connections[d];
    ExitsAreEdgeEnds(es, u, d, c);
    var e :| e in es && Leads(e, u, d, c);
    OpenLinked(es, u, c.room);
    ExitsSymmetric(es, u, d);
  }

  lemma MovedRoom(spec: Spec, w: World, d: Direction)
    ensures Destination(spec, w.currentRoom, d).Ok? ==>
      Moved(spec, w, d).currentRoom == Destination(spec, w.currentRoom, d).value
  {
  }

  /** Along a walk of open links the player can move, room by room. */
  lemma {:induction false} WalkIsRoute(spec: Spec, es: seq<Edge>, p: seq<string>, s: string, v: string, w: World)
      returns (dirs: seq<Direction>)
    requires Exported(spec, es) && IsWalk(OpenLinks(RawEdges(es)), p, s, v) && w.currentRoom == s
    ensures |dirs| == |p| - 1
    ensures Walked(spec, w, dirs).Some? && Walked(spec, w, dirs).value.currentRoom == v
    decreases |p|
  {
    hide Exported, Moved, OpenLinks;
    if |p| == 1 {
      dirs := [];
    } else {
      assert Linked(OpenLinks(RawEdges(es)), p[0], p[1]);
      var d := LinkIsMove(spec, es, s, p[1]);
      MovedRoom(spec, w, d);
      assert IsWalk(OpenLinks(RawEdges(es)), p[1..], p[1], v);
      var rest := WalkIsRoute(spec, es, p[1..], p[1], v, Moved(spec, w, d));
      dirs := [d] + rest;
      assert dirs[1..] == rest;
    }
  }

  /** Every sequence of moves follows a walk of open links, and its reversed opposite moves undo it. */
  lemma {:induction false} RouteIsWalk(spec: Spec, es: seq<Edge>, w: World,
      dirs: seq<Direction>) returns (p: seq<string>)
    requires Exported(spec, es) && Walked(spec, w, dirs).Some?
    ensures |p| == |dirs| + 1
    ensures IsWalk(OpenLinks(RawEdges(es)), p, w.currentRoom, Walked(spec, w, dirs).value.currentRoom)
    ensures forall w': World :: w'.currentRoom == Walked(spec, w, dirs).value.currentRoom ==>
      Walked(spec, w', Back(dirs)).Some? && Walked(spec, w', Back(dirs)).value.currentRoom == w.currentRoom
    decreases |dirs|
  {
    hide Exported, Moved, OpenLinks;
    if dirs == [] {
      p := [w.currentRoom];
    } else {
      var d, rest := dirs[0], dirs[1..];
      MoveIsLink(spec, es, w.currentRoom, d);
      MovedRoom(spec, w, d);
      var q := RouteIsWalk(spec, es, Moved(spec, w, d), rest);
      p := [w.currentRoom] + q;
      var end := Walked(spec, w, dirs).value.currentRoom;
      assert p[1..] == q;
      PrependWalk(OpenLinks(RawEdges(es)), w.currentRoom, q, Moved(spec, w, d).currentRoom, end);
      forall w': World | w'.currentRoom == end
        ensures Walked(spec, w', Back(dirs)).Some? && Walked(spec, w', Back(dirs)).value.currentRoom == w.currentRoom
      {
        var mid := Walked(spec, w', Back(rest)).value;
        WalkedConcat(spec, w', Back(rest), [d.Opposite()]);
        MovedRoom(spec, mid, d.Opposite());
        assert [d.Opposite()][1..] == [];
      }
    }
  }

  lemma PrependWalk(ls: seq<Link>, u: string, p: seq<string>, s: string, v: string)
    requires Linked(ls, u, s) && IsWalk(ls, p, s, v)
    ensures IsWalk(ls, [u] + p, u, v)
  {
  }

  /** `dirs` takes a new game to `room`. */
  ghost predicate LeadTo(spec: Spec, who: Character, room: string, dirs: seq<Direction>) {
    var end := Walked(spec, NewWorld(spec, who), dirs);
    end.Some? && end.value.currentRoom == room
  }

  /** `dirs` takes a new game to `room`, and the reversed opposite moves take it back. */
  ghost predicate RoundTrip(spec: Spec, who: Character, room: string, dirs: seq<Direction>) {
    && LeadTo(spec, who, room, dirs)
    && var back := Walked(spec, Walked(spec, NewWorld(spec, who), dirs).value, Back(dirs));
       back.Some? && back.value.currentRoom == spec.startingRoom
  }

  ghost predicate InReach(spec: Spec, who: Character, room: string) {
    exists dirs :: LeadTo(spec, who, room, dirs)
  }

  /** A new game needs `n` moves to get to `room`, and no fewer. */
  ghost predicate FewestMoves(spec: Spec, who: Character, room: string, n: nat) {
    && (exists dirs :: LeadTo(spec, who, room, dirs) && |dirs| == n)
    && forall dirs :: LeadTo(spec, who, room, dirs) ==> n <= |dirs|
  }

  /** The player can get exactly to the rooms that open edges join to the start, in exactly their
      distance along such edges, and back from each by the reversed opposite moves. */
  lemma RoomsInReach(spec: Spec, es: seq<Edge>, who: Character, room: string)
    requires Exported(spec, es)
    ensures InReach(spec, who, room) <==> Reaches(OpenLinks(RawEdges(es)), spec.startingRoom, room)
    ensures forall n: nat :: FewestMoves(spec, who, room, n) <==> DistanceIs(OpenLinks(RawEdges(es)), spec.startingRoom, room, n)
    ensures forall dirs :: LeadTo(spec, who, room, dirs) ==> RoundTrip(spec, who, room, dirs)
  {
    hide Exported, OpenLinks, IsWalk;
    var ls, s, w := OpenLinks(RawEdges(es)), spec.startingRoom, NewWorld(spec, who);
    forall dirs | LeadTo(spec, who, room, dirs)
      ensures RoundTrip(spec, who, room, dirs) && exists p :: IsWalk(ls, p, s, room) && |p| == |dirs| + 1
    {
      var p := RouteIsWalk(spec, es, w, dirs);
    }
    forall p | IsWalk(ls, p, s, room)
      ensures |p| > 0 && exists dirs :: LeadTo(spec, who, room, dirs) && |dirs| == |p| - 1
    {
      WalkStarts(ls, p, s, room);
      var dirs := WalkIsRoute(spec, es, p, s, room, w);
      assert LeadTo(spec, who, room, dirs);
    }
  }

  lemma WalkStarts(ls: seq<Link>, p: seq<string>, s: string, v: string)
    requires IsWalk(ls, p, s, v)
    ensures |p| > 0
  {
  }

  // ---------- What is remembered of a walk ----------

  /** The rooms entered along the way. */
  function RoomsAlong(spec: Spec, room: string, dirs: seq<Direction>): seq<string>
    decreases |dirs|
  {
    if dirs == [] || Destination(spec, room, dirs[0]).Err? then []
    else
      var next := Destination(spec, room, dirs[0]).value;
      [next] + RoomsAlong(spec, next, dirs[1..])
  }

  /** The visited rooms are those there were and those entered since, each listed once, the earlier
      first; and every room entered has its state. */
  lemma {:induction false} WalkedVisits(spec: Spec, w: World, dirs: seq<Direction>)
    requires Walked(spec, w, dirs).Some?
    ensures var end, along := Walked(spec, w, dirs).value, RoomsAlong(spec, w.currentRoom, dirs);
            && |along| == |dirs| && end.currentRoom == (if along == [] then w.currentRoom else along[|along| - 1])
            && w.visitedRooms <= end.visitedRooms
            && (forall r :: r in end.visitedRooms <==> r in w.visitedRooms || r in along)
            && ((forall i, j :: 0 <= i < j < |w.visitedRooms| ==> w.visitedRooms[i] != w.visitedRooms[j]) ==>
                  forall i, j :: 0 <= i < j < |end.visitedRooms| ==> end.visitedRooms[i] != end.visitedRooms[j])
            && (forall r :: r in w.roomState || r in along ==> r in end.roomState)
            && end.hero == w.hero && end.combat == w.combat
    decreases |dirs|
  {
    hide Destination;
    if dirs != [] {
      var w' := Moved(spec, w, dirs[0]);
      WalkedVisits(spec, w', dirs[1..]);
    }
  }
}
