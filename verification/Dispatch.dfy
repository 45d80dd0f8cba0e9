/** The daemon's command dispatcher, reduced to its effect on the game: whenever a command has
    been dealt with and a fight is on, it is the hero's turn. */
module Dispatch {
  import opened Wrappers
  import opened Graphs
  import opened Scenarios
  import opened GameStates
  import opened Moving
  import opened Leveling
  import opened Combat
  import opened Spells
  import opened Inventory
  import opened CombatInvariant
  import opened EngineRuns
  import opened EnemyTurns

  /** The dice one command may need: initiative, the hero's own roll, a dice text's result if
      it parses, and one roll per enemy turn. */
  datatype Dice = Dice(initiative: nat -> int, hero: int, power: Option<int>, enemies: nat -> int)

  /** `ok` says whether the save file could be written or read back. */
  datatype Command =
    | Malformed
    | MoveTo(dir: Direction)
    | LookAround
    | TakeItem(item: string)
    | DropItem(item: string)
    | EquipItem(item: string)
    | UnequipSlot(slot: Option<Slot>)
    | ExamineItem(item: string)
    | ListInventory
    | AttackFoe(target: string)
    | DefendSelf
    | FleeFight
    | CastAt(spell: string, target: string)
    | UseUp(item: string)
    | Context
    | SaveTo(file: string, ok: bool)
    | LoadFrom(file: string, ok: bool)
    | Help
    | Quit

  /** A game and the save files it can load. */
  datatype Host = Host(world: World, saves: map<string, World>)

  function SlotName(slot: string): string { if slot == "" then "quicksave" else slot }

  /** A boundary state: sound, and if a fight is on, the hero is to act. */
  ghost predicate AtRest(w: World) {
    WorldOK(w) && Settled(w) && -1 <= w.hero.level
  }

  ghost predicate HostOK(h: Host) {
    AtRest(h.world) && forall s :: s in h.saves ==> AtRest(h.saves[s])
  }

  /** Actions the rules block during a fight. */
  predicate BlockedInCombat(c: Command) {
    c.MoveTo? || c.TakeItem? || c.DropItem? || c.EquipItem? || c.UnequipSlot? || c.ExamineItem?
  }

  lemma RestingCallable(w: World)
    requires WorldOK(w) && -1 <= w.hero.level
    ensures EngineRuns.Callable(w)
  {
    Ready(w);
  }

  /** Examine looks at the room last, which seeds its state; items at hand are found before. */
  function Examined(spec: Spec, w: World, id: string): (World, Result<Item, EngineError>) {
    var i := IndexOf(w.hero.inventory, id);
    if i >= 0 then (w, Ok(w.hero.inventory[i]))
    else if id in EquippedIds(w.hero.equipped) then (w, ItemByID(spec, id))
    else (Ensured(spec, w, w.currentRoom),
          if id in RoomStateOf(spec, w, w.currentRoom).items then ItemByID(spec, id) else Err(ItemNotInRoom(id)))
  }

  function ItemByID(spec: Spec, id: string): Result<Item, EngineError> {
    if id in spec.items then Ok(Item(id, spec.items[id])) else Err(ItemNotDefined(id))
  }

  /** What can be examined: an item that is carried, worn or lying here, unless it is only named
      and not defined. */
  lemma ExaminedMeaning(spec: Spec, w: World, id: string)
    ensures var r := Examined(spec, w, id).1;
      && (r.Ok? ==> r.value.id == id)
      && (r.Err? ==> r.error == ItemNotInRoom(id) || r.error == ItemNotDefined(id))
      && (r == Err(ItemNotInRoom(id)) <==> id !in ItemsAtHand(spec, w))
      && (r == Err(ItemNotDefined(id)) <==> id in ItemsAtHand(spec, w) && id !in spec.items && id !in Inventory.Ids(w.hero.inventory))
  {
  }

  function ItemsAtHand(spec: Spec, w: World): set<string> {
    (set id | id in Inventory.Ids(w.hero.inventory)) + (set id | id in EquippedIds(w.hero.equipped))
    + (set id | id in RoomStateOf(spec, w, w.currentRoom).items)
  }

  method Examine(spec: Spec, state: GameState, id: string) returns (r: Result<Item, EngineError>)
    modifies state`roomState
    ensures (state.Snap(), r) == Examined(spec, old(state.Snap()), id)
  {
    var i := FindItem(state.hero.inventory, id);
    if i >= 0 {
      return Ok(state.hero.inventory[i]);
    }
    var worn := ContainsItem(EquippedIds(state.hero.equipped), id);
    if worn {
      return ItemByID(spec, id);
    }
    var rs := EnsureRoomState(spec, state, state.currentRoom);
    var here := ContainsItem(rs.items, id);
    if here {
      return ItemByID(spec, id);
    }
    return Err(ItemNotInRoom(id));
  }

  // ---------- The daemon's dispatcher ----------

  ghost function Answered(spec: Spec, w: World, dice: nat -> int): World
    requires WorldOK(w)
  {
    EnemyPhase(spec, w, dice, 0).world
  }

  function LeveledWorld(w: World): World
    requires -1 <= w.hero.level
  {
    w.(hero := Leveled(w.hero))
  }

  ghost function DaemonMoved(spec: Spec, w: World, dir: Direction, dice: Dice): World
    requires AtRest(w) && TemplatesAlive(spec)
  {
    if dir == Other("") || Destination(spec, w.currentRoom, dir).Err? then w
    else
      var there := Moved(spec, w, dir);
      RestingCallable(w);
      AppliedOK(spec, w, Go(dir));
      var (w', r) := CombatStarted(spec, there, dice.initiative);
      CombatStartedOK(spec, there, dice.initiative);
      if r.Ok? then Answered(spec, w', dice.enemies) else w'
  }

  ghost function DaemonAttacked(spec: Spec, w: World, target: string, dice: Dice): World
    requires AtRest(w)
  {
    var t := Aim(w, target);
    if !w.combat.active || t == "" then w
    else
      RestingCallable(w);
      AttackedOK(spec, w, t, dice.hero);
      var (w', r) := Attacked(spec, w, t, dice.hero);
      AttackedLevel(spec, w, t, dice.hero);
      if r.Err? then w' else if r.value.combatOver then LeveledWorld(w') else Answered(spec, w', dice.enemies)
  }

  lemma AttackedLevel(spec: Spec, w: World, target: string, roll: int)
    requires WellIndexed(w.combat)
    ensures Attacked(spec, w, target, roll).0.hero.level == w.hero.level
  {
    hide Advanced;
  }

  lemma CastLevel(spec: Spec, w: World, spell: string, target: string, power: Option<int>)
    requires WellIndexed(w.combat)
    ensures Cast(spec, w, spell, target, power).0.hero.level == w.hero.level
  {
    hide Advanced;
  }

  ghost function DaemonCast(spec: Spec, w: World, spell: string, target: string, dice: Dice): World
    requires AtRest(w)
  {
    RestingCallable(w);
    var t := if w.combat.active then Aim(w, target) else target;
    CastOK(spec, w, spell, t, dice.power);
    CastLevel(spec, w, spell, t, dice.power);
    var (w', r) := Cast(spec, w, spell, t, dice.power);
    if spell == "" || r.Err? then w
    else if w'.combat.active then Answered(spec, w', dice.enemies)
    else if r.value.effect == "damage" then LeveledWorld(w')
    else w'
  }

  /** The effect of one tool call on the game and its saves. */
  ghost function DaemonStep(spec: Spec, h: Host, c: Command, dice: Dice): Host
    requires HostOK(h) && TemplatesAlive(spec)
  {
    var w := h.world;
    RestingCallable(w);
    if w.combat.active && BlockedInCombat(c) then h
    else
      match c
      case MoveTo(dir) => h.(world := DaemonMoved(spec, w, dir, dice))
      case LookAround => h.(world := Looked(spec, w))
      case Context => h.(world := Looked(spec, w))
      case TakeItem(id) => h.(world := if id == "" then w else PickedUp(spec, w, id).0)
      case DropItem(id) => h.(world := if id == "" then w else Dropped(spec, w, id).0)
      case EquipItem(id) => h.(world := if id == "" then w else EquippedWith(w, id).0)
      case UnequipSlot(slot) => h.(world := UnequippedFrom(spec, w, slot).0)
      case ExamineItem(id) => h.(world := if id == "" then w else Examined(spec, w, id).0)
      case UseUp(id) => h.(world := if id == "" then w else Consumed(w, id, dice.power).0)
      case AttackFoe(target) => h.(world := DaemonAttacked(spec, w, target, dice))
      case DefendSelf =>
        DefendedOK(w);
        h.(world := if w.combat.active then Answered(spec, Defended(w).0, dice.enemies) else w)
      case FleeFight =>
        FledOK(w, dice.hero);
        h.(world := if w.combat.active then Answered(spec, Fled(w, dice.hero).0, dice.enemies) else w)
      case CastAt(spell, target) => h.(world := DaemonCast(spec, w, spell, target, dice))
      case SaveTo(slot, ok) => if ok then h.(saves := h.saves[SlotName(slot) := w]) else h
      case LoadFrom(slot, ok) => if ok && SlotName(slot) in h.saves then h.(world := Looked(spec, h.saves[SlotName(slot)])) else h
      case _ => h
  }

  // ---------- The daemon's boundaries ----------

  lemma AnsweredRests(spec: Spec, w: World, dice: nat -> int)
    requires WorldOK(w) && -1 <= w.hero.level
    ensures AtRest(Answered(spec, w, dice))
  {
    EnemyPhaseSettles(spec, w, dice, 0);
  }

  lemma DaemonMovedRests(spec: Spec, w: World, dir: Direction, dice: Dice)
    requires AtRest(w) && TemplatesAlive(spec) && !w.combat.active
    ensures AtRest(DaemonMoved(spec, w, dir, dice))
  {
    hide CombatOK, Opening, Instances, TemplatesKnown, EnemyPhase;
    if dir != Other("") && Destination(spec, w.currentRoom, dir).Ok? {
      RestingCallable(w);
      AppliedOK(spec, w, Go(dir));
      var there := Moved(spec, w, dir);
      var w' := CombatStarted(spec, there, dice.initiative).0;
      CombatStartedOK(spec, there, dice.initiative);
      AnsweredRests(spec, w', dice.enemies);
    }
  }

  lemma DaemonAttackedRests(spec: Spec, w: World, target: string, dice: Dice)
    requires AtRest(w)
    ensures AtRest(DaemonAttacked(spec, w, target, dice))
  {
    hide CombatOK, EnemyPhase, Advanced;
    var t := Aim(w, target);
    if w.combat.active && t != "" {
      RestingCallable(w);
      AttackedOK(spec, w, t, dice.hero);
      AttackedLevel(spec, w, t, dice.hero);
      AnsweredRests(spec, Attacked(spec, w, t, dice.hero).0, dice.enemies);
    }
  }

  lemma DaemonCastRests(spec: Spec, w: World, spell: string, target: string, dice: Dice)
    requires AtRest(w)
    ensures AtRest(DaemonCast(spec, w, spell, target, dice))
  {
    hide CombatOK, EnemyPhase, Cast;
    RestingCallable(w);
    var t := if w.combat.active then Aim(w, target) else target;
    CastOK(spec, w, spell, t, dice.power);
    CastLevel(spec, w, spell, t, dice.power);
    AnsweredRests(spec, Cast(spec, w, spell, t, dice.power).0, dice.enemies);
  }

  /** Commands that only touch items, rooms or hit points leave the fight as it is. */
  lemma CombatUntouched(w: World, w': World)
    requires AtRest(w) && w'.combat == w.combat && w'.hero.level == w.hero.level
    ensures AtRest(w')
  {
  }

  /** The boundary condition survives every command, whatever its arguments and dice. */
  lemma DaemonStepRests(spec: Spec, h: Host, c: Command, dice: Dice)
    requires HostOK(h) && TemplatesAlive(spec)
    ensures HostOK(DaemonStep(spec, h, c, dice))
  {
    hide AtRest, WorldOK, Settled, DaemonMoved, DaemonAttacked, DaemonCast, EnemyPhase, Advanced;
    var w := h.world;
    RestingCallable(w) by { RestFacts(w); }
    RestFacts(w);
    var w' := DaemonStep(spec, h, c, dice).world;
    if w.combat.active && BlockedInCombat(c) {
      return;
    }
    match c {
      case MoveTo(dir) => DaemonMovedRests(spec, w, dir, dice);
      case AttackFoe(target) => DaemonAttackedRests(spec, w, target, dice);
      case CastAt(spell, target) => DaemonCastRests(spec, w, spell, target, dice);
      case DefendSelf => DefendedOK(w); AnsweredRests(spec, Defended(w).0, dice.enemies);
      case FleeFight => FledOK(w, dice.hero); AnsweredRests(spec, Fled(w, dice.hero).0, dice.enemies);
      case LoadFrom(slot, ok) =>
        if ok && SlotName(slot) in h.saves {
          CombatUntouched(h.saves[SlotName(slot)], w');
        }
      case SaveTo(slot, ok) =>
      case _ => CombatUntouched(w, w');
    }
  }

  lemma RestFacts(w: World)
    requires AtRest(w)
    ensures WorldOK(w) && Settled(w) && -1 <= w.hero.level
  {
  }

  /** A whole run of the daemon's game goroutine. At its end, and so at every boundary on the
      way, an active fight means that it is the hero's turn. */
  ghost function DaemonRun(spec: Spec, h: Host, calls: seq<(Command, Dice)>): (end: Host)
    requires HostOK(h) && TemplatesAlive(spec)
    ensures HostOK(end)
    ensures end.world.combat.active ==> HeroTurn(end.world.combat)
    decreases |calls|
  {
    if calls == [] then h
    else
      DaemonStepRests(spec, h, calls[0].0, calls[0].1);
      DaemonRun(spec, DaemonStep(spec, h, calls[0].0, calls[0].1), calls[1..])
  }

  lemma {:induction false} DaemonRunSnoc(spec: Spec, h: Host, calls: seq<(Command, Dice)>, last: Option<(Command, Dice)>)
    requires HostOK(h) && TemplatesAlive(spec)
    ensures DaemonRun(spec, h, []) == h
    ensures last.Some? ==>
      DaemonRun(spec, h, calls + [last.value]) == DaemonStep(spec, DaemonRun(spec, h, calls), last.value.0, last.value.1)
    decreases |calls|
  {
    hide HostOK, TemplatesAlive, DaemonStep;
    if last.Some? {
      var all := calls + [last.value];
      if calls == [] {
        DaemonStepRests(spec, h, all[0].0, all[0].1);
        assert all[1..] == [];
      } else {
        DaemonStepRests(spec, h, calls[0].0, calls[0].1);
        assert all[0] == calls[0] && all[1..] == calls[1..] + [last.value];
        DaemonRunSnoc(spec, DaemonStep(spec, h, calls[0].0, calls[0].1), calls[1..], last);
      }
    }
  }

  lemma NewGameRests(spec: Spec, who: Character)
    requires 1 <= who.level
    ensures HostOK(Host(NewWorld(spec, who), map[]))
  {
  }

  // ---------- The daemon's program ----------

  method DaemonMove(spec: Spec, state: GameState, dir: Direction, dice: Dice)
    requires AtRest(state.Snap()) && TemplatesAlive(spec) && !state.combat.active
    modifies state
    ensures state.Snap() == DaemonMoved(spec, old(state.Snap()), dir, dice)
  {
    hide CombatOK, Opening, Instances, TemplatesKnown, EnemyPhase, Destination, TemplatesAlive;
    ghost var w := state.Snap();
    if dir == Other("") {
      return;
    }
    RestingCallable(w);
    AppliedOK(spec, w, Go(dir));
    var r := Move(spec, state, dir);
    if r.Err? {
      return;
    }
    CombatStartedOK(spec, state.Snap(), dice.initiative);
    var started := StartCombat(spec, state, dice.initiative);
    if started.Ok? {
      if state.combat.active && !HeroTurn(state.combat) {
        var turns := DaemonEnemyTurns(spec, state, dice.enemies);
      } else {
        NothingToAnswer(spec, state.Snap(), dice.enemies);
      }
    }
  }

  lemma NothingToAnswer(spec: Spec, w: World, dice: nat -> int)
    requires WorldOK(w) && Settled(w)
    ensures Answered(spec, w, dice) == w
  {
  }

  method DaemonAttack(spec: Spec, state: GameState, target: string, dice: Dice)
    requires AtRest(state.Snap())
    modifies state
    ensures state.Snap() == DaemonAttacked(spec, old(state.Snap()), target, dice)
  {
    hide CombatOK, EnemyPhase, Attacked, Leveled;
    ghost var w := state.Snap();
    RestingCallable(w);
    if !state.combat.active {
      return;
    }
    var t := target;
    if t == "" {
      t := FirstAliveEnemy(state);
      if t == "" {
        return;
      }
    }
    AttackedOK(spec, w, t, dice.hero);
    AttackedLevel(spec, w, t, dice.hero);
    var r := Attack(spec, state, t, dice.hero);
    if r.Err? {
      return;
    }
    if r.value.combatOver {
      var up := CheckLevelUp(state);
    } else if state.combat.active && !HeroTurn(state.combat) {
      var turns := DaemonEnemyTurns(spec, state, dice.enemies);
    } else {
      NothingToAnswer(spec, state.Snap(), dice.enemies);
    }
  }

  method DaemonCastSpell(spec: Spec, state: GameState, spell: string, target: string, dice: Dice)
    requires AtRest(state.Snap())
    modifies state
    ensures state.Snap() == DaemonCast(spec, old(state.Snap()), spell, target, dice)
  {
    hide CombatOK, EnemyPhase, Cast, Leveled;
    ghost var w := state.Snap();
    RestingCallable(w);
    if spell == "" {
      return;
    }
    var t := target;
    if t == "" && state.combat.active {
      t := FirstAliveEnemy(state);
    }
    CastOK(spec, w, spell, t, dice.power);
    CastLevel(spec, w, spell, t, dice.power);
    FailedCastChangesNothing(spec, w, spell, t, dice.power);
    var r := CastSpell(spec, state, spell, t, dice.power);
    if r.Err? {
      return;
    }
    if state.combat.active && !HeroTurn(state.combat) {
      var turns := DaemonEnemyTurns(spec, state, dice.enemies);
    } else if r.value.effect == "damage" && !state.combat.active {
      var up := CheckLevelUp(state);
    } else {
      NothingToAnswer(spec, state.Snap(), dice.enemies);
    }
  }

  lemma FailedCastChangesNothing(spec: Spec, w: World, spell: string, target: string, power: Option<int>)
    requires WellIndexed(w.combat)
    ensures Cast(spec, w, spell, target, power).1.Err? ==> Cast(spec, w, spell, target, power).0 == w
  {
    hide Struck, Advanced;
  }

  method DaemonDefendOrFlee(spec: Spec, state: GameState, flee: bool, dice: Dice)
    requires AtRest(state.Snap())
    modifies state
    ensures var w := old(state.Snap());
      && WellIndexed(w.combat) && WorldOK(Defended(w).0) && WorldOK(Fled(w, dice.hero).0)
      && state.Snap() == if !w.combat.active then w
                         else Answered(spec, if flee then Fled(w, dice.hero).0 else Defended(w).0, dice.enemies)
  {
    hide CombatOK, EnemyPhase, Defended, Fled;
    ghost var w := state.Snap();
    RestingCallable(w);
    DefendedOK(w);
    FledOK(w, dice.hero);
    if !state.combat.active {
      return;
    }
    if flee {
      var r := Flee(state, dice.hero);
    } else {
      var err := Defend(state);
    }
    if state.combat.active && !HeroTurn(state.combat) {
      var turns := DaemonEnemyTurns(spec, state, dice.enemies);
    } else {
      NothingToAnswer(spec, state.Snap(), dice.enemies);
    }
  }

  /** daemon.dispatch: one tool call against the game. */
  method DaemonDispatch(spec: Spec, state: GameState, saves: map<string, World>, c: Command, dice: Dice)
      returns (saves': map<string, World>)
    requires HostOK(Host(state.Snap(), saves)) && TemplatesAlive(spec)
    modifies state
    ensures Host(state.Snap(), saves') == DaemonStep(spec, old(Host(state.Snap(), saves)), c, dice)
    ensures HostOK(Host(state.Snap(), saves'))
  {
    hide AtRest, TemplatesAlive, EnemyPhase, Defended, Fled, DaemonMoved, DaemonAttacked, DaemonCast;
    hide PickedUp, Dropped, EquippedWith, UnequippedFrom, Consumed, Examined, Looked;
    saves' := saves;
    DaemonStepRests(spec, Host(state.Snap(), saves), c, dice);
    RestFacts(state.Snap());
    if state.combat.active && BlockedInCombat(c) {
      return;
    }
    match c {
      case Malformed => return;
      case MoveTo(dir) => DaemonMove(spec, state, dir, dice);
      case LookAround => GameStates.Look(spec, state);
      case Context => GameStates.Look(spec, state);
      case TakeItem(id) =>
        if id != "" {
          var r := PickUp(spec, state, id);
        }
      case DropItem(id) =>
        if id != "" {
          var r := Drop(spec, state, id);
        }
      case EquipItem(id) =>
        if id != "" {
          var r := Equip(state, id);
        }
      case UnequipSlot(slot) => var r := Unequip(spec, state, slot);
      case ExamineItem(id) =>
        if id != "" {
          var r := Examine(spec, state, id);
        }
      case ListInventory => return;
      case UseUp(id) =>
        if id != "" {
          var r := UseItem(state, id, dice.power);
        }
      case AttackFoe(target) => DaemonAttack(spec, state, target, dice);
      case DefendSelf => DaemonDefendOrFlee(spec, state, false, dice);
      case FleeFight => DaemonDefendOrFlee(spec, state, true, dice);
      case CastAt(spell, target) => DaemonCastSpell(spec, state, spell, target, dice);
      case SaveTo(file, ok) =>
        if ok {
          saves' := saves[SlotName(file) := World(state.hero, state.currentRoom, state.visitedRooms, state.roomState, state.combat)];
        }
      case LoadFrom(file, ok) =>
        if ok && SlotName(file) in saves {
          Restore(state, saves[SlotName(file)]);
          GameStates.Look(spec, state);
        }
      case Help => return;
      case Quit => return;
    }
  }

  /** Replaces the whole state by a loaded one. */
  method Restore(state: GameState, w: World)
    modifies state
    ensures state.Snap() == w
  {
    state.hero, state.currentRoom, state.visitedRooms := w.hero, w.currentRoom, w.visitedRooms;
    state.roomState, state.combat := w.roomState, w.combat;
  }
}
