/** What follows for the two dispatchers: victories are checked for a level-up, both agree while the
    hero lives, a played game is a run of engine calls, and saved games come back. */
module GameRuns {
  import opened Graphs
  import opened Scenarios
  import opened GameStates
  import opened Moving
  import opened Leveling
  import opened Combat
  import opened Spells
  import opened Inventory
  import opened Conservation
  import opened CombatInvariant
  import opened EngineRuns
  import opened EnemyTurns
  import opened HeroAccounts
  import opened ItemMoves
  import opened Dispatch
  import opened DispatchRuns

  // ---------- One command ----------

  /** Whoever wins by his own blow is checked for a level-up at once, by either dispatcher: he then
      has no level left to rise. */
  lemma VictoryIsChecked(spec: Spec, h: Host, c: Command, dice: Dice)
    requires HostOK(h) && TemplatesAlive(spec) && (c.AttackFoe? || c.CastAt?) && Named(h.world, c)
    requires EndedByBlow(h.world, Mid(spec, h.world, c, dice), c)
    ensures var mid := Mid(spec, h.world, c, dice);
            var d, l := DaemonStep(spec, h, c, dice).world, LoopDispatch.LoopStep(spec, h, c, dice).0.world;
            && d.hero == l.hero == Leveled(mid.hero) && !d.combat.active && !l.combat.active
            && -1 <= d.hero.level && !CanLevel(d.hero)
  {
    hide TemplatesAlive, DaemonStep, LoopDispatch.LoopReply, Looked, Leveled, HeroPart, Ran;
    var mid := Mid(spec, h.world, c, dice);
    DaemonStepDoes(spec, h, c, dice);
    LoopReplyDoes(spec, h, c, dice);
    LeveledIsDone(mid.hero);
    var r := LoopDispatch.LoopReply(spec, h, c, dice);
    LookedTwice(spec, r.world);
    LookedTwice(spec, mid.(hero := Leveled(mid.hero)));
  }

  /** The last blow, spelled out: the one living enemy is struck for all the hit points it has left. */
  lemma LastBlow(spec: Spec, h: Host, target: string, dice: Dice, i: nat)
    requires HostOK(h) && TemplatesAlive(spec) && h.world.combat.active && h.world.hero.hp > 0
    requires Aim(h.world, target) != "" && LivesAt(h.world.combat.enemies, i, Aim(h.world, target))
    requires h.world.combat.enemies[i].hp <= (if dice.hero < 1 then 1 else dice.hero)
    requires forall j :: 0 <= j < |h.world.combat.enemies| && j != i ==> h.world.combat.enemies[j].hp <= 0
    ensures var w := h.world;
            var paid := w.hero.(xp := w.hero.xp + w.combat.enemies[i].maxHP);
            var d, l := DaemonStep(spec, h, AttackFoe(target), dice).world, LoopDispatch.LoopStep(spec, h, AttackFoe(target), dice).0.world;
            && d.hero == l.hero == Leveled(paid) && !CanLevel(Leveled(paid)) && !d.combat.active && !l.combat.active
  {
    hide TemplatesAlive, DaemonStep, LoopDispatch.LoopReply, LoopDispatch.LoopStep, Looked, Leveled, Attacked, CombatOK;
    var w, c := h.world, AttackFoe(target);
    RestingCallable(w);
    RanOne(spec, w, Action.Hit(Aim(w, target), dice.hero));
    AttackReports(spec, w, Aim(w, target), dice.hero);
    VictoryIsChecked(spec, h, c, dice);
  }

  /** The last enemy ran away in the answer to the command. */
  ghost predicate LastRanOff(spec: Spec, h: Host, c: Command, dice: Dice)
    requires HostOK(h) && TemplatesAlive(spec)
  {
    !c.LoadFrom? && Mid(spec, h.world, c, dice).combat.active && !DaemonStep(spec, h, c, dice).world.combat.active
  }

  /** A command with no name left empty has the same effect through either dispatcher if the hero
      survives it: the same world, but that the loop also checks for a level-up when the last enemy
      has run away, and looks around after each command. */
  lemma DispatchersAgree(spec: Spec, h: Host, c: Command, dice: Dice)
    requires HostOK(h) && TemplatesAlive(spec) && Named(h.world, c)
    requires DaemonStep(spec, h, c, dice).world.hero.hp > 0
    ensures var d, r := DaemonStep(spec, h, c, dice).world, LoopDispatch.LoopReply(spec, h, c, dice);
            && -1 <= d.hero.level
            && Looked(spec, r.world) == Looked(spec, if LastRanOff(spec, h, c, dice) then d.(hero := Leveled(d.hero)) else d)
            && (r.flow.Finish? <==> c.Quit?)
    ensures LoopDispatch.LoopStep(spec, h, c, dice).0.saves == DaemonStep(spec, h, c, dice).saves
  {
    hide TemplatesAlive, AtRest, LoopPhase, EnemyPhase, Leveled, Looked, Ran, HeroPart, Named;
    SameSaves(spec, h, c, dice);
    if c.LoadFrom? {
      LoadsAgree(spec, h, c, dice);
    } else {
      hide DaemonStep, LoopDispatch.LoopReply, LoopDispatch.LoopStep;
      var mid := Mid(spec, h.world, c, dice);
      DaemonStepDoes(spec, h, c, dice);
      LoopReplyDoes(spec, h, c, dice);
      DaemonStepRests(spec, h, c, dice);
      RestFacts(DaemonStep(spec, h, c, dice).world);
      var r := LoopDispatch.LoopReply(spec, h, c, dice);
      LookedTwice(spec, r.world);
      if EndedByBlow(h.world, mid, c) {
        LookedTwice(spec, mid.(hero := Leveled(mid.hero)));
      } else {
        DriversAgree(spec, mid, dice.enemies, 0);
        LookedTwice(spec, LoopPhase(spec, mid, dice.enemies, 0).world);
        LeveledWithinMaxima(EnemyPhase(spec, mid, dice.enemies, 0).world.hero);
      }
    }
  }

  lemma SameSaves(spec: Spec, h: Host, c: Command, dice: Dice)
    requires HostOK(h) && TemplatesAlive(spec)
    ensures LoopDispatch.LoopStep(spec, h, c, dice).0.saves == DaemonStep(spec, h, c, dice).saves
  {
    hide TemplatesAlive, AtRest, DaemonMoved, DaemonAttacked, DaemonCast, EnemyPhase, Defended, Fled, LoopDispatch.LoopReply;
    RestFacts(h.world);
  }

  lemma LoadsAgree(spec: Spec, h: Host, c: Command, dice: Dice)
    requires HostOK(h) && TemplatesAlive(spec) && c.LoadFrom?
    ensures var d, r := DaemonStep(spec, h, c, dice).world, LoopDispatch.LoopReply(spec, h, c, dice);
            -1 <= d.hero.level && Looked(spec, r.world) == Looked(spec, d) && r.flow.GoOn?
  {
    hide TemplatesAlive;
    if c.ok && SlotName(c.file) in h.saves {
      LookedTwice(spec, h.saves[SlotName(c.file)]);
    }
  }

  // ---------- What a fight forbids, and what ends the loop ----------

  /** During a fight moving, taking, dropping, equipping, unequipping and examining do nothing at all,
      through either dispatcher; potions and saves work as ever. */
  lemma FightsForbid(spec: Spec, h: Host, c: Command, dice: Dice)
    requires HostOK(h) && TemplatesAlive(spec) && h.world.combat.active
    ensures c.MoveTo? || c.TakeItem? || c.DropItem? || c.EquipItem? || c.UnequipSlot? || c.ExamineItem? ==>
              DaemonStep(spec, h, c, dice) == h && LoopDispatch.LoopReply(spec, h, c, dice) == LoopDispatch.Reply(h.world, LoopDispatch.GoOn)
    ensures c.UseUp? && c.item != "" ==> DaemonStep(spec, h, c, dice).world == Consumed(h.world, c.item, dice.power).0
    ensures c.SaveTo? && c.ok ==> DaemonStep(spec, h, c, dice).saves == h.saves[SlotName(c.file) := h.world]
  {
    hide TemplatesAlive, AtRest, DaemonMoved, DaemonAttacked, DaemonCast, EnemyPhase, Defended, Fled, Consumed;
    RestFacts(h.world);
  }

  /** The exit in that direction leads nowhere the program knows how to go. */
  predicate BrokenExit(spec: Spec, room: string, dir: Direction) {
    || room !in spec.rooms
    || (dir in spec.rooms[room].connections
        && var conn := spec.rooms[room].connections[dir];
           || conn.kind !in {"locked", "hidden", "open", "stairway"}
           || (conn.kind in {"open", "stairway"} && conn.room !in spec.rooms))
  }

  /** Enemies wait in the room, and one of them is none the scenario defines. */
  predicate BrokenRoster(spec: Spec, w: World, room: string) {
    && (room in w.roomState ==> !w.roomState[room].cleared) && room in spec.rooms
    && exists i :: 0 <= i < |spec.rooms[room].enemies| && spec.rooms[room].enemies[i] !in spec.enemies
  }

  /** What makes a command an internal error: it always is a flaw of the scenario or of its dice. */
  ghost predicate Flawed(spec: Spec, w: World, c: Command, dice: Dice) {
    !(w.combat.active && BlockedInCombat(c)) &&
    match c
    case MoveTo(dir) =>
      || BrokenExit(spec, w.currentRoom, dir)
      || (dir in spec.rooms[w.currentRoom].connections
          && var conn := spec.rooms[w.currentRoom].connections[dir];
             conn.kind in {"open", "stairway"} && BrokenRoster(spec, w, conn.room))
    case TakeItem(id) => id in Lying(spec, w, w.currentRoom) && id !in spec.items
    case UnequipSlot(slot) => slot.Some? && GetSlot(w.hero.equipped, slot.value) != "" && GetSlot(w.hero.equipped, slot.value) !in spec.items
    case ExamineItem(id) =>
      && id !in Inventory.Ids(w.hero.inventory) && id !in spec.items
      && (id in EquippedIds(w.hero.equipped) || id in Lying(spec, w, w.currentRoom))
    case UseUp(id) =>
      exists i :: FirstItem(w.hero.inventory, i, id) && w.hero.inventory[i].def.kind == "consumable"
                  && (!IsPotion(w.hero.inventory[i]) || dice.power.None?)
    case CastAt(spell, _) =>
      && w.hero.hp > 0 && spell in spec.spells && w.hero.class_ in spec.spells[spell].classes
      && spec.spells[spell].mp <= w.hero.mp
      && (dice.power.None? || spec.spells[spell].effect !in {"damage", "heal"})
    case _ => false
  }

  /** The loop breaks off with an error exactly on such a flaw. */
  lemma LoopAborts(spec: Spec, h: Host, c: Command, dice: Dice)
    requires HostOK(h) && TemplatesAlive(spec)
    ensures LoopDispatch.LoopReply(spec, h, c, dice).flow.Abort? <==> Flawed(spec, h.world, c, dice)
  {
    var w := h.world;
    RestFacts(w);
    RestingCallable(w);
    hide TemplatesAlive, AtRest;
    if w.combat.active && BlockedInCombat(c) {
    } else if c.MoveTo? {
      MoveAborts(spec, w, c.dir, dice);
    } else if c.AttackFoe? || c.DefendSelf? || c.FleeFight? || c.CastAt? {
      hide Flawed;
      FightAborts(spec, h, c, dice);
    } else {
      hide Flawed;
      ItemAborts(spec, h, c, dice);
    }
  }

  lemma FightAborts(spec: Spec, h: Host, c: Command, dice: Dice)
    requires HostOK(h) && TemplatesAlive(spec) && (c.AttackFoe? || c.DefendSelf? || c.FleeFight? || c.CastAt?)
    ensures LoopDispatch.LoopReply(spec, h, c, dice).flow.Abort? <==> Flawed(spec, h.world, c, dice)
  {
    hide TemplatesAlive, AtRest, LoopPhase, Leveled, Struck, Advanced;
    RestFacts(h.world);
  }

  lemma ItemAborts(spec: Spec, h: Host, c: Command, dice: Dice)
    requires HostOK(h) && TemplatesAlive(spec) && !(h.world.combat.active && BlockedInCombat(c))
    requires !(c.MoveTo? || c.AttackFoe? || c.DefendSelf? || c.FleeFight? || c.CastAt?)
    ensures LoopDispatch.LoopReply(spec, h, c, dice).flow.Abort? <==> Flawed(spec, h.world, c, dice)
  {
    hide TemplatesAlive, AtRest, CarryWeight, EquippedIds, Without, RemoveFirst, SetSlot;
    RestFacts(h.world);
    if c.UseUp? {
      var i := IndexOf(h.world.hero.inventory, c.item);
      assert i >= 0 ==> FirstItem(h.world.hero.inventory, i, c.item);
    }
  }

  lemma MoveAborts(spec: Spec, w: World, dir: Direction, dice: Dice)
    requires AtRest(w) && TemplatesAlive(spec) && !w.combat.active
    ensures LoopDispatch.LoopMoved(spec, w, dir, dice).flow.Abort? <==> Flawed(spec, w, MoveTo(dir), dice)
  {
    hide TemplatesAlive, AtRest, LoopPhase, Opening, Instances;
    RestFacts(w);
    RestingCallable(w);
    if Destination(spec, w.currentRoom, dir).Ok? {
      AppliedOK(spec, w, Go(dir));
      CombatStartedOK(spec, Moved(spec, w, dir), dice.initiative);
    }
  }

  // ---------- Whole runs ----------

  function EnemyTurnsOf(dice: nat -> int, i: nat, n: nat): seq<Action>
    decreases n
  {
    if n == 0 then [] else [EnemyTurn(dice(i))] + EnemyTurnsOf(dice, i + 1, n - 1)
  }

  /** The enemies' turns are that many engine calls. */
  lemma {:induction false} PhaseIsRun(spec: Spec, w: World, dice: nat -> int, i: nat)
    requires WorldOK(w) && TemplatesAlive(spec) && -1 <= w.hero.level
    ensures var p := EnemyPhase(spec, w, dice, i);
            p.world == Ran(spec, w, EnemyTurnsOf(dice, i, |p.acted|))
    decreases Remaining(w)
  {
    hide WorldOK, TemplatesAlive, EnemyPhase, Remaining, EnemyActed;
    EnemyPhaseUnfolds(spec, w, dice, i);
    if Settled(w) {
      RanOne(spec, w, LevelCheck);
    } else {
      var turns := EnemyTurnsOf(dice, i, |EnemyPhase(spec, w, dice, i).acted|);
      Ready(w);
      AppliedOK(spec, w, turns[0]);
      PhaseIsRun(spec, EnemyActed(spec, w, dice(i)).0, dice, i + 1);
      assert turns[1..] == EnemyTurnsOf(dice, i + 1, |EnemyPhase(spec, EnemyActed(spec, w, dice(i)).0, dice, i + 1).acted|);
    }
  }

  lemma {:induction false} RanConcat(spec: Spec, w: World, a: seq<Action>, b: seq<Action>)
    requires WorldOK(w) && TemplatesAlive(spec) && -1 <= w.hero.level
    ensures Ran(spec, w, a + b) == Ran(spec, Ran(spec, w, a), b)
    decreases |a|
  {
    hide WorldOK, TemplatesAlive, Applied;
    if a == [] {
      RanOne(spec, w, LevelCheck);
      assert a + b == b;
    } else {
      Ready(w);
      AppliedOK(spec, w, a[0]);
      assert (a + b)[0] == a[0] && (a + b)[1..] == a[1..] + b;
      RanConcat(spec, Applied(spec, w, a[0]), a[1..], b);
    }
  }

  lemma StepIsRun(spec: Spec, h: Host, c: Command, dice: Dice) returns (actions: seq<Action>)
    requires HostOK(h) && TemplatesAlive(spec) && !c.LoadFrom?
    ensures WorldOK(h.world) && -1 <= h.world.hero.level
    ensures DaemonStep(spec, h, c, dice).world == Ran(spec, h.world, actions)
  {
    hide TemplatesAlive, AtRest, DaemonStep, Ran, HeroPart, Named, EnemyPhase;
    var w := h.world;
    RestFacts(w);
    DaemonStepDoes(spec, h, c, dice);
    if !Named(w, c) {
      actions := [];
      RanOne(spec, w, LevelCheck);
    } else {
      var calls, mid := HeroPart(spec, w, c, dice), Mid(spec, w, c, dice);
      if EndedByBlow(w, mid, c) {
        actions := calls + [LevelCheck];
        RanOne(spec, mid, LevelCheck);
        RanConcat(spec, w, calls, [LevelCheck]);
      } else {
        var turns := EnemyTurnsOf(dice.enemies, 0, |EnemyPhase(spec, mid, dice.enemies, 0).acted|);
        actions := calls + turns;
        PhaseIsRun(spec, mid, dice.enemies, 0);
        RanConcat(spec, w, calls, turns);
      }
    }
  }

  /** A game played through the daemon without loading is a run of engine calls, so that everything
      proved of these holds of it. */
  lemma {:induction false} DaemonRunIsEngineRun(spec: Spec, h: Host, calls: seq<(Command, Dice)>) returns (actions: seq<Action>)
    requires HostOK(h) && TemplatesAlive(spec) && forall i :: 0 <= i < |calls| ==> !calls[i].0.LoadFrom?
    ensures WorldOK(h.world) && -1 <= h.world.hero.level
    ensures DaemonRun(spec, h, calls).world == Ran(spec, h.world, actions)
    decreases |calls|
  {
    hide TemplatesAlive, AtRest, DaemonStep, Ran;
    RestFacts(h.world);
    if calls == [] {
      actions := [];
      RanOne(spec, h.world, LevelCheck);
    } else {
      var h' := DaemonStep(spec, h, calls[0].0, calls[0].1);
      DaemonStepRests(spec, h, calls[0].0, calls[0].1);
      var first := StepIsRun(spec, h, calls[0].0, calls[0].1);
      var rest := DaemonRunIsEngineRun(spec, h', calls[1..]);
      actions := first + rest;
      RanConcat(spec, h.world, first, rest);
    }
  }

  /** A new daemon game with empty hands, played without loading: its items are all accounted for, and
      what the hero lost and gained is what the calls have reported. */
  lemma DaemonGameAccounts(spec: Spec, who: Character, calls: seq<(Command, Dice)>) returns (actions: seq<Action>)
    requires TemplatesAlive(spec) && ItemsSound(spec) && 1 <= who.level
    requires who.inventory == [] && who.equipped == Equipment("", "", "", "")
    requires forall i :: 0 <= i < |calls| ==> !calls[i].0.LoadFrom?
    ensures var start := NewWorld(spec, who);
            && HostOK(Host(start, map[])) && WorldOK(start) && start.hero == who
            && var end := DaemonRun(spec, Host(start, map[]), calls).world;
            && end == Ran(spec, start, actions)
            && RoomItems(Seeded(spec)) == AllItems(end) + AllUsedUp(spec, start, actions) + AllLost(spec, start, actions)
            && CarryWeight(spec, end.hero) <= MAX_CARRY_WEIGHT
            && end.hero.hp == who.hp + HPTotal(spec, start, actions) && end.hero.mp == who.mp + MPTotal(spec, start, actions)
  {
    NewGameRests(spec, who);
    EmptyHands(spec, who);
    hide TemplatesAlive, ItemsSound, HostOK, DaemonRun, Ran, NewWorld, WorldOK, AllItems, RoomItems, CarryWeight, HPTotal, MPTotal,
         AllUsedUp, AllLost;
    actions := DaemonRunIsEngineRun(spec, Host(NewWorld(spec, who), map[]), calls);
    EveryRun(spec, who, actions);
    RanAccounts(spec, NewWorld(spec, who), actions);
  }

  // ---------- Saving, loading, quitting ----------

  /** A saved game comes back: whatever is done after saving, loading the slot restores the world as it
      was, unless the slot was saved to again. */
  lemma {:induction false} SavedIsLoaded(spec: Spec, h: Host, calls: seq<(Command, Dice)>, slot: string, again: string,
      saved: World, dice: Dice)
    requires HostOK(h) && TemplatesAlive(spec) && SlotName(slot) == SlotName(again)
    requires SlotName(slot) in h.saves && h.saves[SlotName(slot)] == saved
    requires forall i :: 0 <= i < |calls| && calls[i].0.SaveTo? && calls[i].0.ok ==> SlotName(calls[i].0.file) != SlotName(slot)
    ensures DaemonRun(spec, h, calls + [(LoadFrom(again, true), dice)]).world == Looked(spec, saved)
    decreases |calls|
  {
    hide TemplatesAlive, AtRest, Looked, DaemonStep;
    var load := (LoadFrom(again, true), dice);
    var all := calls + [load];
    DaemonStepRests(spec, h, all[0].0, all[0].1);
    DaemonSaves(spec, h, all[0].0, all[0].1);
    if calls == [] {
      assert all[1..] == [];
    } else {
      assert all[0] == calls[0] && all[1..] == calls[1..] + [load];
      SavedIsLoaded(spec, DaemonStep(spec, h, calls[0].0, calls[0].1), calls[1..], slot, again, saved, dice);
    }
  }

  /** Only a successful save writes a slot, and it writes the world as it is; a load brings it back. */
  lemma DaemonSaves(spec: Spec, h: Host, c: Command, dice: Dice)
    requires HostOK(h) && TemplatesAlive(spec)
    ensures var h' := DaemonStep(spec, h, c, dice);
            && (if c.SaveTo? && c.ok then h'.saves == h.saves[SlotName(c.file) := h.world] && h'.world == h.world
                else h'.saves == h.saves)
            && (c.LoadFrom? ==> h'.world == if c.ok && SlotName(c.file) in h.saves then Looked(spec, h.saves[SlotName(c.file)]) else h.world)
  {
    hide TemplatesAlive, AtRest, Looked, DaemonMoved, DaemonAttacked, DaemonCast, EnemyPhase, Defended, Fled;
    RestFacts(h.world);
  }

  /** Quitting ends the loop after one more look; nothing sent later is dealt with. */
  lemma QuitEnds(spec: Spec, h: Host, dice: Dice, later: seq<(Command, Dice)>)
    requires HostOK(h) && TemplatesAlive(spec)
    ensures LoopDispatch.LoopFrom(spec, h, [(Quit, dice)] + later) == (h.(world := Looked(spec, h.world)), LoopDispatch.Finish)
  {
    hide TemplatesAlive, AtRest, Looked;
    var calls := [(Quit, dice)] + later;
    assert calls[0] == (Quit, dice);
  }
}
