/** The scenario specification and its validation. */
module Scenarios {
  import opened Wrappers
  import opened Graphs

  /** A room's exits are keyed by direction; `Other(s)` stands for a text that is no direction. */
  datatype Connection = Connection(room: string, kind: string)

  datatype Room = Room(name: string, descriptionSeed: string, connections: map<Direction, Connection>,
                       items: seq<string>, enemies: seq<string>)

  datatype ItemDef = ItemDef(name: string, kind: string, damage: string, defense: int, power: string,
                             effect: string, weight: real, value: int, description: string)

  datatype EnemyTemplate = EnemyTemplate(name: string, hp: int, attack: string, ai: string)

  datatype SpellTemplate = SpellTemplate(name: string, mp: int, effect: string, power: string, classes: seq<string>)

  datatype Spec = Spec(id: string, title: string, startingRoom: string, death: string, rooms: map<string, Room>,
                       items: map<string, ItemDef>, enemies: map<string, EnemyTemplate>,
                       spells: map<string, SpellTemplate>)

  datatype SpecError =
    | MissingStart
    | UnknownStart(room: string)
    | MissingName(room: string)
    | BrokenRoomRef(room: string, dir: Direction, target: string)
    | UnknownEnemy(room: string, enemy: string)
    | InvalidAttack(enemy: string, attack: string)
    | InvalidDamage(item: string, damage: string)

  predicate RoomSound(s: Spec, r: Room) {
    && r.name != ""
    && (forall d :: d in r.connections ==> r.connections[d].room in s.rooms)
    && (forall i :: 0 <= i < |r.enemies| ==> r.enemies[i] in s.enemies)
  }

  /** The checks on the starting room and on every room. */
  predicate RoomChecks(s: Spec) {
    && s.startingRoom != "" && s.startingRoom in s.rooms
    && (forall id :: id in s.rooms ==> RoomSound(s, s.rooms[id]))
  }

  predicate AttacksParse(s: Spec, parses: string -> bool) {
    forall id :: id in s.enemies && s.enemies[id].attack != "" ==> parses(s.enemies[id].attack)
  }

  predicate DiceChecks(s: Spec, parses: string -> bool) {
    && AttacksParse(s, parses)
    && (forall id :: id in s.items && s.items[id].damage != "" ==> parses(s.items[id].damage))
  }

  /** What each error says about the specification it rejects. */
  predicate Explains(err: SpecError, s: Spec, parses: string -> bool) {
    match err
    case MissingStart => s.startingRoom == ""
    case UnknownStart(id) => id == s.startingRoom && id !in s.rooms
    case MissingName(id) => id in s.rooms && s.rooms[id].name == ""
    case BrokenRoomRef(id, d, target) =>
      id in s.rooms && d in s.rooms[id].connections && s.rooms[id].connections[d].room == target && target !in s.rooms
    case UnknownEnemy(id, e) => id in s.rooms && e in s.rooms[id].enemies && e !in s.enemies
    case InvalidAttack(id, v) => id in s.enemies && s.enemies[id].attack == v && v != "" && !parses(v)
    case InvalidDamage(id, v) => id in s.items && s.items[id].damage == v && v != "" && !parses(v)
  }

  method CheckRoom(s: Spec, id: string) returns (err: Option<SpecError>)
    requires id in s.rooms
    ensures err.None? <==> RoomSound(s, s.rooms[id])
    ensures err.Some? ==> !err.value.InvalidAttack? && !err.value.InvalidDamage? && forall parses :: Explains(err.value, s, parses)
  {
    var room := s.rooms[id];
    if room.name == "" {
      return Some(MissingName(id));
    }
    var dirs := room.connections.Keys;
    while dirs != {}
      invariant dirs <= room.connections.Keys
      invariant forall d :: d in room.connections.Keys - dirs ==> room.connections[d].room in s.rooms
    {
      var d :| d in dirs;
      if room.connections[d].room !in s.rooms {
        return Some(BrokenRoomRef(id, d, room.connections[d].room));
      }
      dirs := dirs - {d};
    }
    for i := 0 to |room.enemies|
      invariant forall j :: 0 <= j < i ==> room.enemies[j] in s.enemies
    {
      if room.enemies[i] !in s.enemies {
        return Some(UnknownEnemy(id, room.enemies[i]));
      }
    }
    return None;
  }

  /** `parses` stands for the dice notation parser. */
  method Validate(s: Spec, parses: string -> bool) returns (err: Option<SpecError>)
    ensures err.None? <==> RoomChecks(s) && DiceChecks(s, parses)
    ensures err.Some? ==> Explains(err.value, s, parses)
    // Dice texts are only looked at when the rooms are sound, those of items after those of enemies.
    ensures err.Some? && (err.value.InvalidAttack? || err.value.InvalidDamage?) ==> RoomChecks(s)
    ensures err.Some? && err.value.InvalidDamage? ==> AttacksParse(s, parses)
  {
    if s.startingRoom == "" {
      return Some(MissingStart);
    }
    if s.startingRoom !in s.rooms {
      return Some(UnknownStart(s.startingRoom));
    }
    var ids := s.rooms.Keys;
    while ids != {}
      invariant ids <= s.rooms.Keys
      invariant forall id :: id in s.rooms.Keys - ids ==> RoomSound(s, s.rooms[id])
    {
      var id :| id in ids;
      err := CheckRoom(s, id);
      if err.Some? {
        assert !RoomSound(s, s.rooms[id]);
        return;
      }
      ids := ids - {id};
    }
    ids := s.enemies.Keys;
    while ids != {}
      invariant ids <= s.enemies.Keys
      invariant forall id :: id in s.enemies.Keys - ids && s.enemies[id].attack != "" ==> parses(s.enemies[id].attack)
    {
      var id :| id in ids;
      if s.enemies[id].attack != "" && !parses(s.enemies[id].attack) {
        return Some(InvalidAttack(id, s.enemies[id].attack));
      }
      ids := ids - {id};
    }
    ids := s.items.Keys;
    while ids != {}
      invariant ids <= s.items.Keys
      invariant forall id :: id in s.items.Keys - ids && s.items[id].damage != "" ==> parses(s.items[id].damage)
    {
      var id :| id in ids;
      if s.items[id].damage != "" && !parses(s.items[id].damage) {
        return Some(InvalidDamage(id, s.items[id].damage));
      }
      ids := ids - {id};
    }
    return None;
  }
}
