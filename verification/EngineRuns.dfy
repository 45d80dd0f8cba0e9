/** Arbitrary runs of engine operations from a new game: the combat invariant, conservation of
    items and the carrying limit. */
module EngineRuns {
  import opened Wrappers
  import opened Graphs
  import opened Scenarios
  import opened GameStates
  import opened Moving
  import opened Leveling
  import opened Combat
  import opened Spells
  import opened CombatInvariant
  import opened Inventory
  import opened Conservation

  /** One engine call with its dice. */
  datatype Action =
    | Go(dir: Direction)
    | Look(room: string)
    | Take(item: string)
    | Leave(item: string)
    | PutOn(item: string)
    | TakeOff(slot: Option<Slot>)
    | Use(item: string, power: Option<int>)
    | Fight(rolls: nat -> int)
    | Hit(target: string, roll: int)
    | Guard
    | RunFrom(roll: int)
    | Chant(spell: string, target: string, power: Option<int>)
    | EnemyTurn(roll: int)
    | LevelCheck

  function Applied(spec: Spec, w: World, a: Action): World
    requires WellIndexed(w.combat) && (w.combat.active ==> w.combat.turnOrder != [])
    requires -1 <= w.hero.level
  {
    match a
    case Go(dir) => Moved(spec, w, dir)
    case Look(room) => Ensured(spec, w, room)
    case Take(id) => PickedUp(spec, w, id).0
    case Leave(id) => Dropped(spec, w, id).0
    case PutOn(id) => EquippedWith(w, id).0
    case TakeOff(slot) => UnequippedFrom(spec, w, slot).0
    case Use(id, power) => Consumed(w, id, power).0
    case Fight(rolls) => CombatStarted(spec, w, rolls).0
    case Hit(target, roll) => Attacked(spec, w, target, roll).0
    case Guard => Defended(w).0
    case RunFrom(roll) => Fled(w, roll).0
    case Chant(spell, target, power) => Cast(spec, w, spell, target, power).0
    case EnemyTurn(roll) => EnemyActed(spec, w, roll).0
    case LevelCheck => w.(hero := Leveled(w.hero))
  }

  // ---------- The combat invariant over every run ----------

  /** The operations can be called: the turn pointer is in range and the level indexes the thresholds. */
  ghost predicate Callable(w: World) {
    && WellIndexed(w.combat) && (w.combat.active ==> w.combat.turnOrder != [])
    && -1 <= w.hero.level
  }

  lemma Ready(w: World)
    requires WorldOK(w) && -1 <= w.hero.level
    ensures Callable(w)
  {
  }

  lemma AppliedLevel(spec: Spec, w: World, a: Action)
    requires Callable(w)
    ensures -1 <= Applied(spec, w, a).hero.level
  {
    hide Advanced, Mitigated, CarryWeight, Instances, Opening;
  }

  lemma AppliedOK(spec: Spec, w: World, a: Action)
    requires WorldOK(w) && TemplatesAlive(spec) && Callable(w)
    ensures WorldOK(Applied(spec, w, a)) && -1 <= Applied(spec, w, a).hero.level
  {
    hide CombatOK, Attacked, Defended, Fled, Cast, EnemyActed, CombatStarted, Leveled;
    AppliedLevel(spec, w, a);
    match a
    case Hit(target, roll) => AttackedOK(spec, w, target, roll);
    case Guard => DefendedOK(w);
    case RunFrom(roll) => FledOK(w, roll);
    case Chant(spell, target, power) => CastOK(spec, w, spell, target, power);
    case EnemyTurn(roll) => EnemyActedOK(spec, w, roll);
    case Fight(rolls) => CombatStartedOK(spec, w, rolls);
    case _ =>
  }

  /** The world after a run. Whatever the calls and the dice, the invariant holds at the end,
      and so at every step, of every run. */
  ghost function Ran(spec: Spec, w: World, actions: seq<Action>): (end: World)
    requires WorldOK(w) && TemplatesAlive(spec) && -1 <= w.hero.level
    ensures WorldOK(end) && -1 <= end.hero.level
    decreases |actions|
  {
    if actions == [] then w
    else
      Ready(w);
      AppliedOK(spec, w, actions[0]);
      Ran(spec, Applied(spec, w, actions[0]), actions[1..])
  }

  // ---------- Items over every run ----------

  /** `w'` holds the same items as `w`, carried by the same hero. */
  ghost predicate SameItems(spec: Spec, w: World, w': World) {
    && AllItems(w') == AllItems(w) && (RoomsSeeded(spec, w) ==> RoomsSeeded(spec, w'))
    && w'.hero.inventory == w.hero.inventory && w'.hero.equipped == w.hero.equipped
  }

  lemma RoomsUntouched(spec: Spec, w: World, w': World)
    requires w'.roomState == w.roomState && w'.hero.inventory == w.hero.inventory && w'.hero.equipped == w.hero.equipped
    ensures SameItems(spec, w, w')
  {
  }

  lemma MovedItems(spec: Spec, w: World, dir: Direction)
    requires RoomsSeeded(spec, w)
    ensures SameItems(spec, w, Moved(spec, w, dir))
  {
    match Destination(spec, w.currentRoom, dir)
    case Err(_) =>
    case Ok(room) =>
      EnsuredConserves(spec, w.(currentRoom := room, visitedRooms := AppendUnique(w.visitedRooms, room)), room);
  }

  lemma StartedItems(spec: Spec, w: World, rolls: nat -> int)
    requires RoomsSeeded(spec, w)
    ensures SameItems(spec, w, CombatStarted(spec, w, rolls).0)
  {
    hide Opening, Instances, AllItems, TemplatesKnown, RoomsSeeded;
    var seen, w' := Ensured(spec, w, w.currentRoom), CombatStarted(spec, w, rolls).0;
    EnsuredConserves(spec, w, w.currentRoom);
    if w'.roomState == seen.roomState {
      RoomsUntouched(spec, seen, w');
    }
  }

  lemma VictoryEnds(spec: Spec, w: World)
    ensures var w' := Victory(spec, w);
            w'.combat == NO_COMBAT && w'.hero == w.hero && w'.currentRoom == w.currentRoom
  {
  }

  lemma StruckItems(spec: Spec, w: World, i: nat, damage: int)
    requires RoomsSeeded(spec, w) && i < |w.combat.enemies| && WellIndexed(w.combat)
    ensures SameItems(spec, w, Struck(spec, w, i, damage))
  {
    hide Advanced, RoomItems, EquippedIds, Victory;
    var e := Hurt(w.combat.enemies[i], damage);
    var h := if e.hp <= 0 then w.hero.(xp := w.hero.xp + e.maxHP) else w.hero;
    VictoryConserves(spec, w.(hero := h));
    VictoryEnds(spec, w.(hero := h));
  }

  lemma AttackedItems(spec: Spec, w: World, target: string, roll: int)
    requires RoomsSeeded(spec, w) && WellIndexed(w.combat)
    ensures SameItems(spec, w, Attacked(spec, w, target, roll).0)
  {
    hide Struck, SameItems;
    RoomsUntouched(spec, w, w);
    var i := FindEnemy(w.combat.enemies, target);
    if i >= 0 {
      StruckItems(spec, w, i, AtLeastOne(roll));
    }
  }

  lemma DamageTarget(w: World, target: string)
    requires w.combat.active && DamageBarred(w, target).None?
    ensures 0 <= FindEnemy(w.combat.enemies, target)
  {}

  lemma PaidItems(spec: Spec, w: World, w': World, mp: int)
    requires SameItems(spec, w, w')
    ensures SameItems(spec, w, PayMP(w', mp))
  {}

  lemma CastItems(spec: Spec, w: World, spell: string, target: string, power: Option<int>)
    requires RoomsSeeded(spec, w) && WellIndexed(w.combat)
    ensures SameItems(spec, w, Cast(spec, w, spell, target, power).0)
  {
    hide Struck, Advanced, SameItems, Aim, DamageBarred;
    var w' := Cast(spec, w, spell, target, power).0;
    RoomsUntouched(spec, w, w);
    if CastBarred(spec, w, spell, power).None? {
      var t := Aim(w, target);
      var strength := AtLeastOne(power.value);
      if w.combat.active && DamageBarred(w, t).None? {
        DamageTarget(w, t);
        var struck := Struck(spec, w, FindEnemy(w.combat.enemies, t), strength);
        StruckItems(spec, w, FindEnemy(w.combat.enemies, t), strength);
        PaidItems(spec, w, struck, spec.spells[spell].mp);
      }
      RoomsUntouched(spec, w, PayMP(HealedWorld(w, strength), spec.spells[spell].mp));
    }
  }

  lemma EnemyActedItems(spec: Spec, w: World, roll: int)
    requires RoomsSeeded(spec, w) && Callable(w)
    ensures SameItems(spec, w, EnemyActed(spec, w, roll).0)
  {
    hide Advanced, RoomItems, EquippedIds, Mitigated;
    var c := w.combat;
    if c.active && !HeroTurn(c) {
      var i := FindEnemy(c.enemies, c.turnOrder[c.currentTurn]);
      if i >= 0 && c.enemies[i].hp > 0 && RunsAway(c.enemies[i]) {
        VictoryConserves(spec, w.(combat := Advanced(c.(enemies := c.enemies[i := c.enemies[i].(hp := 0)]))));
      }
    }
  }

  lemma {:induction false} LeveledCarries(h: Character)
    requires -1 <= h.level
    ensures Leveled(h).inventory == h.inventory && Leveled(h).equipped == h.equipped
    decreases MAX_LEVEL - h.level
  {
    if CanLevel(h) {
      LeveledCarries(LevelOnce(h));
    }
  }

  /** The item an action uses up, if any. */
  ghost function UsedUp(w: World, a: Action): multiset<string> {
    if a.Use? && Consumed(w, a.item, a.power).1.Ok? then multiset{a.item} else multiset{}
  }

  /** The item an action makes vanish: a nameless one that is put on. */
  ghost function LostBy(w: World, a: Action): multiset<string> {
    if a.PutOn? && a.item == "" && EquippedWith(w, a.item).1.Ok? then multiset{""} else multiset{}
  }

  lemma SameItemsSame(spec: Spec, w: World, w': World)
    requires SameItems(spec, w, w') && RoomsSeeded(spec, w)
    ensures AllItems(w) == AllItems(w') && RoomsSeeded(spec, w')
    ensures PackOK(spec, w.hero) ==> PackOK(spec, w'.hero)
  {
  }

  /** One action: items are conserved up to what is used up or lost, and the backpack stays
      within bounds. */
  lemma AppliedItems(spec: Spec, w: World, a: Action)
    requires Callable(w) && RoomsSeeded(spec, w)
    ensures var w' := Applied(spec, w, a);
            && AllItems(w) == AllItems(w') + UsedUp(w, a) + LostBy(w, a)
            && RoomsSeeded(spec, w')
            && (PackOK(spec, w.hero) && ItemsSound(spec) ==> PackOK(spec, w'.hero))
  {
    hide AllItems, PackOK, SameItems, ItemsSound, Attacked, Cast, EnemyActed, CombatStarted, Leveled;
    hide Moved, Consumed, PickedUp, Dropped, EquippedWith, UnequippedFrom, Ensured;
    var w' := Applied(spec, w, a);
    var sound := PackOK(spec, w.hero) && ItemsSound(spec);
    match a {
      case Take(id) =>
        PickedUpConserves(spec, w, id);
        if sound { PickedUpPack(spec, w, id); }
      case Leave(id) =>
        DroppedConserves(spec, w, id);
        if sound { DroppedPack(spec, w, id); }
      case PutOn(id) =>
        EquippedConserves(spec, w, id);
        if sound { EquippedPack(spec, w, id); }
      case TakeOff(slot) => UnequippedConserves(spec, w, slot);
      case Use(id, power) => ConsumedConserves(spec, w, id, power);
      case Go(dir) => MovedItems(spec, w, dir); SameItemsSame(spec, w, w');
      case Look(room) => LookItems(spec, w, room); SameItemsSame(spec, w, w');
      case Fight(rolls) => StartedItems(spec, w, rolls); SameItemsSame(spec, w, w');
      case Hit(target, roll) => AttackedItems(spec, w, target, roll); SameItemsSame(spec, w, w');
      case Chant(spell, target, power) => CastItems(spec, w, spell, target, power); SameItemsSame(spec, w, w');
      case EnemyTurn(roll) => EnemyActedItems(spec, w, roll); SameItemsSame(spec, w, w');
      case Guard => RoomsUntouched(spec, w, w'); SameItemsSame(spec, w, w');
      case RunFrom(roll) => RoomsUntouched(spec, w, w'); SameItemsSame(spec, w, w');
      case LevelCheck => LeveledCarries(w.hero); RoomsUntouched(spec, w, w'); SameItemsSame(spec, w, w');
    }
  }

  lemma LookItems(spec: Spec, w: World, room: string)
    requires RoomsSeeded(spec, w)
    ensures SameItems(spec, w, Ensured(spec, w, room))
  {
    EnsuredConserves(spec, w, room);
  }

  /** The items used up along a run. */
  ghost function AllUsedUp(spec: Spec, w: World, actions: seq<Action>): multiset<string>
    requires WorldOK(w) && TemplatesAlive(spec) && -1 <= w.hero.level
    decreases |actions|
  {
    if actions == [] then multiset{}
    else
      Ready(w);
      AppliedOK(spec, w, actions[0]);
      UsedUp(w, actions[0]) + AllUsedUp(spec, Applied(spec, w, actions[0]), actions[1..])
  }

  /** The items lost along a run. */
  ghost function AllLost(spec: Spec, w: World, actions: seq<Action>): multiset<string>
    requires WorldOK(w) && TemplatesAlive(spec) && -1 <= w.hero.level
    decreases |actions|
  {
    if actions == [] then multiset{}
    else
      Ready(w);
      AppliedOK(spec, w, actions[0]);
      LostBy(w, actions[0]) + AllLost(spec, Applied(spec, w, actions[0]), actions[1..])
  }

  /** Over any run, whatever the scenario: what there was is what there is, what was used up and
      what was lost, and in a scenario without nameless items nothing is lost. */
  lemma {:induction false} RanItems(spec: Spec, w: World, actions: seq<Action>)
    requires WorldOK(w) && TemplatesAlive(spec) && -1 <= w.hero.level && RoomsSeeded(spec, w)
    ensures var end := Ran(spec, w, actions);
            && AllItems(w) == AllItems(end) + AllUsedUp(spec, w, actions) + AllLost(spec, w, actions)
            && RoomsSeeded(spec, end)
            && (PackOK(spec, w.hero) && ItemsSound(spec) ==> PackOK(spec, end.hero))
            && (PackOK(spec, w.hero) && ItemsSound(spec) && "" !in spec.items ==> AllLost(spec, w, actions) == multiset{})
    decreases |actions|
  {
    hide AllItems, PackOK, RoomsSeeded, ItemsSound, WorldOK, TemplatesAlive, Applied, LostBy;
    if actions != [] {
      Ready(w);
      AppliedOK(spec, w, actions[0]);
      AppliedItems(spec, w, actions[0]);
      NamedIsKept(spec, w, actions[0]);
      RanItems(spec, Applied(spec, w, actions[0]), actions[1..]);
    }
  }

  lemma NamedIsKept(spec: Spec, w: World, a: Action)
    ensures PackOK(spec, w.hero) && "" !in spec.items ==> LostBy(w, a) == multiset{}
  {
    var i := IndexOf(w.hero.inventory, "");
    assert PackOK(spec, w.hero) && i >= 0 ==> w.hero.inventory[i].id in spec.items;
  }

  /** From a new game with empty hands, over any run: the items of the scenario are all
      accounted for, carried ones match their definitions and weigh at most fifty, and the
      combat invariant holds. Items are conserved up to those used exactly if none was lost. */
  lemma EveryRun(spec: Spec, who: Character, actions: seq<Action>)
    requires TemplatesAlive(spec) && ItemsSound(spec) && 1 <= who.level
    requires who.inventory == [] && who.equipped == Equipment("", "", "", "")
    ensures WorldOK(NewWorld(spec, who))
    ensures var w := NewWorld(spec, who);
            var end := Ran(spec, w, actions);
            && WorldOK(end)
            && RoomItems(Seeded(spec)) == AllItems(end) + AllUsedUp(spec, w, actions) + AllLost(spec, w, actions)
            && (RoomItems(Seeded(spec)) == AllItems(end) + AllUsedUp(spec, w, actions) <==> AllLost(spec, w, actions) == multiset{})
            && ("" !in spec.items ==> AllLost(spec, w, actions) == multiset{})
            && PackKnown(spec, end.hero) && CarryWeight(spec, end.hero) <= MAX_CARRY_WEIGHT
  {
    var w := NewWorld(spec, who);
    EmptyHands(spec, who);
    hide AllItems, RoomItems, CarryWeight, RoomsSeeded, PackKnown, Ran, AllUsedUp, AllLost, WorldOK, NewWorld;
    RanItems(spec, w, actions);
    NothingAdded(AllItems(Ran(spec, w, actions)) + AllUsedUp(spec, w, actions), AllLost(spec, w, actions));
  }

  lemma EmptyHands(spec: Spec, who: Character)
    requires who.inventory == [] && who.equipped == Equipment("", "", "", "")
    ensures var w := NewWorld(spec, who);
            && WorldOK(w) && RoomsSeeded(spec, w) && PackOK(spec, w.hero) && w.hero == who
            && AllItems(w) == RoomItems(Seeded(spec))
  {
    assert CarryWeight(spec, who) == 0.0;
    assert multiset(Ids(who.inventory)) == multiset{} && EquippedIds(who.equipped) == [];
  }

  lemma NothingAdded(a: multiset<string>, b: multiset<string>)
    ensures a + b == a <==> b == multiset{}
  {
    if a + b == a {
      forall x ensures b[x] == 0 {
        assert (a + b)[x] == a[x] + b[x];
      }
    }
  }

  // ---------- A scenario with a nameless item ----------

  const RING: ItemDef := ItemDef("Plain Ring", "ring", "", 0, "", "", 1.0, 0, "")

  const CELL: Spec := Spec("cell", "Cell", "cell", "respawn", map["cell" := Room("Cell", "", map[], [""], [])],
                           map["" := RING], map[], map[])

  const BEGINNER: Character := Character("Ann", "thief", 1, 20, 0, 20, 0, 0, Stats(18, 10, 10, 10, 10, 10), [],
                                         Equipment("", "", "", ""))

  /** It happens in a game: the scenario passes validation, the hero picks up its nameless ring
      and puts it on, and the ring is nowhere any more. */
  lemma NamelessItemIsLost()
    ensures RoomChecks(CELL) && (forall parses :: DiceChecks(CELL, parses)) && TemplatesAlive(CELL) && ItemsSound(CELL)
    ensures var w := NewWorld(CELL, BEGINNER);
            && WorldOK(w) && AllItems(w) == multiset{""}
            && AllItems(Ran(CELL, w, [Take(""), PutOn("")])) == multiset{}
            && AllUsedUp(CELL, w, [Take(""), PutOn("")]) == multiset{}
  {
    CellIsSound();
    CellItems([""], []);
    CellItems([], []);
    InTheCell();
    assert UsedUp(NewWorld(CELL, BEGINNER), Take("")) == UsedUp(Cell([], [Item("", RING)]), PutOn("")) == multiset{};
    hide Applied, Cell, AllItems, UsedUp, NewWorld, TemplatesAlive, RoomChecks, DiceChecks, ItemsSound;
    TwoActions(CELL, NewWorld(CELL, BEGINNER), Take(""), PutOn(""));
  }

  lemma CellIsSound()
    ensures RoomChecks(CELL) && (forall parses :: DiceChecks(CELL, parses)) && TemplatesAlive(CELL) && ItemsSound(CELL)
    ensures WorldOK(NewWorld(CELL, BEGINNER)) && Inventory.Ids([]) == []
  {
  }

  lemma TwoActions(spec: Spec, w: World, a: Action, b: Action)
    requires WorldOK(w) && TemplatesAlive(spec) && -1 <= w.hero.level
    ensures Callable(w)
    ensures var mid := Applied(spec, w, a);
            && Callable(mid)
            && Ran(spec, w, [a, b]) == Applied(spec, mid, b)
            && AllUsedUp(spec, w, [a, b]) == UsedUp(w, a) + UsedUp(mid, b)
  {
    hide Applied, UsedUp, WorldOK, TemplatesAlive;
    Ready(w);
    AppliedOK(spec, w, a);
    var mid := Applied(spec, w, a);
    Ready(mid);
    AppliedOK(spec, mid, b);
    assert [a, b][1..] == [b] && [b][1..] == [];
    assert Ran(spec, mid, [b]) == Applied(spec, mid, b);
    assert AllUsedUp(spec, mid, [b]) == UsedUp(mid, b);
  }

  lemma CellItems(floor: seq<string>, backpack: seq<Item>)
    ensures AllItems(Cell(floor, backpack)) == multiset(floor) + multiset(Inventory.Ids(backpack))
  {
    OneRoom("cell", RoomState(false, floor));
  }

  /** The cell with the ring on the floor, in the backpack, and gone. */
  function Cell(floor: seq<string>, backpack: seq<Item>): World {
    World(BEGINNER.(inventory := backpack), "cell", ["cell"], map["cell" := RoomState(false, floor)], NO_COMBAT)
  }

  lemma InTheCell()
    ensures NewWorld(CELL, BEGINNER) == Cell([""], [])
    ensures Applied(CELL, Cell([""], []), Take("")) == Cell([], [Item("", RING)])
    ensures Applied(CELL, Cell([], [Item("", RING)]), PutOn("")) == Cell([], [])
  {
    assert Seeded(CELL) == map["cell" := RoomState(false, [""])];
    assert CarryWeight(CELL, BEGINNER) == 0.0;
    assert RemoveFirst([""], "") == [""][1..] == [];
    assert map["cell" := RoomState(false, [""])]["cell" := RoomState(false, [])] == map["cell" := RoomState(false, [])];
    assert [Item("", RING)][..0] + [Item("", RING)][1..] == [];
  }

  lemma OneRoom(r: string, rs: RoomState)
    ensures RoomItems(map[r := rs]) == multiset(rs.items)
  {
    var rooms := map[r := rs];
    RoomItemsAt(rooms, r);
    assert rooms - {r} == map[];
  }
}
