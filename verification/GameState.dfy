/** The state of one game: the hero, the rooms visited and the fight in progress. */
module GameStates {
  import opened Graphs
  import opened Scenarios

  /** The floor the rules put under every dice result and every level's hit points. */
  function AtLeastOne(n: int): (r: int)
    ensures r >= 1 && r >= n && (n >= 1 ==> r == n)
  {
    if n < 1 then 1 else n
  }

  const HERO: string := "hero"

  /** The place of the first `id`, or -1. */
  function PlaceOf(ids: seq<string>, id: string): (r: int)
    ensures -1 <= r < |ids|
    ensures r >= 0 ==> ids[r] == id && id !in ids[..r]
    ensures r < 0 <==> id !in ids
  {
    if ids == [] then -1
    else if ids[0] == id then 0
    else
      var r := PlaceOf(ids[1..], id);
      assert ids == [ids[0]] + ids[1..] && (r >= 0 ==> ids[..r + 1] == [ids[0]] + ids[1..][..r]);
      if r < 0 then -1 else r + 1
  }

  datatype Stats = Stats(str: int, intel: int, dex: int, con: int, wis: int, cha: int)

  /** An item instance carries the definition it was created from. */
  datatype Item = Item(id: string, def: ItemDef)

  datatype Slot = WeaponSlot | ArmorSlot | RingSlot | AmuletSlot

  /** "" marks an empty slot. */
  datatype Equipment = Equipment(weapon: string, armor: string, ring: string, amulet: string)

  datatype Character = Character(name: string, class_: string, level: int, hp: int, mp: int, maxHP: int, maxMP: int,
                                 xp: int, stats: Stats, inventory: seq<Item>, equipped: Equipment)

  datatype Enemy = Enemy(id: string, templateID: string, name: string, hp: int, maxHP: int, attack: string, ai: string)

  datatype CombatState = CombatState(active: bool, enemies: seq<Enemy>, turnOrder: seq<string>, currentTurn: int,
                                     round: int, heroDefending: bool)

  const NO_COMBAT: CombatState := CombatState(false, [], [], 0, 0, false)

  datatype RoomState = RoomState(cleared: bool, items: seq<string>)

  /** A snapshot of a game. */
  datatype World = World(hero: Character, currentRoom: string, visitedRooms: seq<string>,
                         roomState: map<string, RoomState>, combat: CombatState)

  datatype EngineError =
    | NoExit(dir: Direction)
    | Locked(dir: Direction, room: string)
    | UnknownConnection(kind: string)
    | RoomNotFound(room: string)
    | ItemNotInRoom(item: string)
    | ItemNotInInventory(item: string)
    | ItemNotDefined(item: string)
    | TooHeavy(item: string)
    | NotEquippable(item: string)
    | SlotOccupied(occupant: string)
    | SlotEmpty
    | NotConsumable(item: string)
    | BadConsumable(item: string)
    | NotInCombat
    | NotHeroTurn
    | InvalidTarget(target: string)
    | HeroDead
    | AlreadyInCombat
    | NoEnemies
    | TemplateNotFound(template: string)
    | UnknownSpell(spell: string)
    | NotCaster
    | InsufficientMP
    | BadSpell(spell: string)

  class GameState {
    var hero: Character
    var currentRoom: string
    var visitedRooms: seq<string>
    var roomState: map<string, RoomState>
    var combat: CombatState

    ghost function Snap(): World
      reads this
    {
      World(hero, currentRoom, visitedRooms, roomState, combat)
    }

    constructor (hero: Character, currentRoom: string, visitedRooms: seq<string>, roomState: map<string, RoomState>,
                 combat: CombatState)
      ensures Snap() == World(hero, currentRoom, visitedRooms, roomState, combat)
    {
      this.hero, this.currentRoom, this.visitedRooms := hero, currentRoom, visitedRooms;
      this.roomState, this.combat := roomState, combat;
    }
  }

  // ---------- Room state ----------

  function ScenarioItems(spec: Spec, room: string): seq<string> {
    if room in spec.rooms then spec.rooms[room].items else []
  }

  function RoomStateOf(spec: Spec, w: World, room: string): RoomState {
    if room in w.roomState then w.roomState[room] else RoomState(false, ScenarioItems(spec, room))
  }

  /** The world after a look at `room`'s state, which a missing entry is seeded for. */
  function Ensured(spec: Spec, w: World, room: string): World {
    w.(roomState := w.roomState[room := RoomStateOf(spec, w, room)])
  }

  method EnsureRoomState(spec: Spec, state: GameState, room: string) returns (rs: RoomState)
    modifies state`roomState
    ensures rs == RoomStateOf(spec, old(state.Snap()), room)
    ensures state.Snap() == Ensured(spec, old(state.Snap()), room)
  {
    if room in state.roomState {
      assert state.roomState[room := state.roomState[room]] == state.roomState;
      return state.roomState[room];
    }
    rs := RoomState(false, []);
    if room in spec.rooms && |spec.rooms[room].items| > 0 {
      rs := rs.(items := spec.rooms[room].items);
    }
    state.roomState := state.roomState[room := rs];
  }

  /** The world after Look: the current room's state is seeded, if the scenario has that room. */
  function Looked(spec: Spec, w: World): World {
    if w.currentRoom in spec.rooms then Ensured(spec, w, w.currentRoom) else w
  }

  method Look(spec: Spec, state: GameState)
    modifies state`roomState
    ensures state.Snap() == Looked(spec, old(state.Snap()))
  {
    if state.currentRoom in spec.rooms {
      var rs := EnsureRoomState(spec, state, state.currentRoom);
    }
  }

  // ---------- Starting a game ----------

  /** The room states a new game is seeded with. */
  function Seeded(spec: Spec): map<string, RoomState> {
    map id | id in spec.rooms :: RoomState(false, spec.rooms[id].items)
  }

  function NewWorld(spec: Spec, who: Character): World {
    World(who, spec.startingRoom, [spec.startingRoom], Seeded(spec), NO_COMBAT)
  }

  method NewGame(spec: Spec, who: Character) returns (state: GameState)
    ensures fresh(state) && state.Snap() == NewWorld(spec, who)
    ensures state.hero == who && state.currentRoom == spec.startingRoom && !state.combat.active
    ensures forall id :: id in spec.rooms ==> id in state.roomState && state.roomState[id] == RoomState(false, spec.rooms[id].items)
  {
    var roomState: map<string, RoomState> := map[];
    var ids := spec.rooms.Keys;
    while ids != {}
      invariant ids <= spec.rooms.Keys && roomState.Keys == spec.rooms.Keys - ids
      invariant forall id :: id in roomState ==> roomState[id] == RoomState(false, spec.rooms[id].items)
    {
      var id :| id in ids;
      roomState := roomState[id := RoomState(false, spec.rooms[id].items)];
      ids := ids - {id};
    }
    assert roomState == Seeded(spec);
    state := new GameState(who, spec.startingRoom, [spec.startingRoom], roomState, NO_COMBAT);
  }
}
