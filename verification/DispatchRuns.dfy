/** What the two dispatchers make of a command, told by the engine's own calls: the hero's calls, then
    a level check if his blow ended the fight, or else the enemies' turns. */
module DispatchRuns {
  import opened Wrappers
  import opened Graphs
  import opened Scenarios
  import opened GameStates
  import opened Moving
  import opened Leveling
  import opened Combat
  import opened Spells
  import opened Inventory
  import opened CombatInvariant
  import opened EngineRuns
  import opened EnemyTurns
  import opened HeroAccounts
  import opened Dispatch
  import LoopDispatch

  /** The engine calls a command stands for, before anybody answers. */
  function HeroPart(spec: Spec, w: World, c: Command, dice: Dice): seq<Action> {
    var look := if w.currentRoom in spec.rooms then [Look(w.currentRoom)] else [];
    if w.combat.active && BlockedInCombat(c) then []
    else
      match c
      case MoveTo(dir) => if Destination(spec, w.currentRoom, dir).Ok? then [Go(dir), Fight(dice.initiative)] else []
      case LookAround => look
      case Context => look
      case TakeItem(id) => [Take(id)]
      case DropItem(id) => [Leave(id)]
      case EquipItem(id) => [PutOn(id)]
      case UnequipSlot(slot) => [TakeOff(slot)]
      case ExamineItem(id) =>
        if id in Inventory.Ids(w.hero.inventory) || id in EquippedIds(w.hero.equipped) then [] else [Look(w.currentRoom)]
      case UseUp(id) => [Use(id, dice.power)]
      case AttackFoe(target) => [Action.Hit(Aim(w, target), dice.hero)]
      case DefendSelf => [Guard]
      case FleeFight => [RunFrom(dice.hero)]
      case CastAt(spell, target) => [Chant(spell, target, dice.power)]
      case _ => []
  }

  /** Nothing a tool call needs is left empty. */
  predicate Named(w: World, c: Command) {
    && (c.MoveTo? ==> c.dir != Other(""))
    && (c.TakeItem? || c.DropItem? || c.EquipItem? || c.ExamineItem? || c.UseUp? ==> c.item != "")
    && (c.CastAt? ==> c.spell != "")
    && (c.AttackFoe? ==> Aim(w, c.target) != "")
  }

  /** The world between the hero's calls and the answer to them. */
  ghost function Mid(spec: Spec, w: World, c: Command, dice: Dice): (mid: World)
    requires AtRest(w) && TemplatesAlive(spec)
    ensures WorldOK(mid) && -1 <= mid.hero.level
  {
    Ran(spec, w, HeroPart(spec, w, c, dice))
  }

  /** The fight that was on is over, and not by running from it. */
  predicate EndedByBlow(w: World, mid: World, c: Command) {
    w.combat.active && !mid.combat.active && !c.FleeFight?
  }

  lemma RanOne(spec: Spec, w: World, a: Action)
    requires WorldOK(w) && TemplatesAlive(spec) && -1 <= w.hero.level
    ensures Ran(spec, w, []) == w
    ensures Callable(w) && Ran(spec, w, [a]) == Applied(spec, w, a)
  {
    hide Applied, WorldOK, TemplatesAlive;
    Ready(w);
    AppliedOK(spec, w, a);
    assert [a][1..] == [];
    assert Ran(spec, Applied(spec, w, a), []) == Applied(spec, w, a);
  }

  /** Calls that leave the fight alone are not answered. */
  lemma NoAnswer(spec: Spec, w: World, mid: World, c: Command, dice: nat -> int)
    requires AtRest(w) && mid.combat == w.combat && WorldOK(mid)
    ensures Answered(spec, mid, dice) == mid && !EndedByBlow(w, mid, c)
  {
    NothingToAnswer(spec, mid, dice);
  }

  // ---------- The daemon ----------

  ghost predicate DaemonDoes(spec: Spec, w: World, c: Command, dice: Dice, w': World)
    requires AtRest(w) && TemplatesAlive(spec)
  {
    var mid := Mid(spec, w, c, dice);
    w' == if !Named(w, c) then w
          else if EndedByBlow(w, mid, c) then mid.(hero := Leveled(mid.hero))
          else EnemyPhase(spec, mid, dice.enemies, 0).world
  }

  lemma DaemonMoveDoes(spec: Spec, w: World, dir: Direction, dice: Dice)
    requires AtRest(w) && TemplatesAlive(spec) && !w.combat.active
    ensures DaemonDoes(spec, w, MoveTo(dir), dice, DaemonMoved(spec, w, dir, dice))
  {
    hide CombatOK, EnemyPhase, TemplatesAlive;
    RanOne(spec, w, Go(dir));
    if dir != Other("") && Destination(spec, w.currentRoom, dir).Ok? {
      TwoActions(spec, w, Go(dir), Fight(dice.initiative));
      var (w', r) := CombatStarted(spec, Moved(spec, w, dir), dice.initiative);
      if r.Err? {
        StartRefused(spec, Moved(spec, w, dir), dice.initiative);
        NothingToAnswer(spec, w', dice.enemies);
      }
    } else {
      NothingToAnswer(spec, w, dice.enemies);
    }
  }

  lemma StartRefused(spec: Spec, w: World, rolls: nat -> int)
    ensures CombatStarted(spec, w, rolls).1.Err? ==> CombatStarted(spec, w, rolls).0.combat == w.combat
  {
  }

  lemma DaemonAttackDoes(spec: Spec, w: World, target: string, dice: Dice)
    requires AtRest(w) && TemplatesAlive(spec)
    ensures DaemonDoes(spec, w, AttackFoe(target), dice, DaemonAttacked(spec, w, target, dice))
  {
    hide CombatOK, EnemyPhase, TemplatesAlive, Attacked, BlowFalls, LivesAt, Leveled;
    var t := Aim(w, target);
    RanOne(spec, w, Action.Hit(t, dice.hero));
    var (mid, r) := Attacked(spec, w, t, dice.hero);
    AttackReports(spec, w, t, dice.hero);
    if r.Err? {
      NoAnswer(spec, w, mid, AttackFoe(target), dice.enemies);
    }
  }

  lemma DaemonCastDoes(spec: Spec, w: World, spell: string, target: string, dice: Dice)
    requires AtRest(w) && TemplatesAlive(spec)
    ensures DaemonDoes(spec, w, CastAt(spell, target), dice, DaemonCast(spec, w, spell, target, dice))
  {
    hide CombatOK, EnemyPhase, TemplatesAlive, BlowFalls, LivesAt, Leveled, Cast;
    RanOne(spec, w, Chant(spell, target, dice.power));
    AimTwice(spec, w, spell, target, dice.power);
    CastReports(spec, w, spell, target, dice.power);
    CastEnds(spec, w, spell, target, dice.power);
    var (mid, r) := Cast(spec, w, spell, target, dice.power);
    if !w.combat.active || r.Err? {
      NoAnswer(spec, w, mid, CastAt(spell, target), dice.enemies);
    }
  }

  lemma AimTwice(spec: Spec, w: World, spell: string, target: string, power: Option<int>)
    requires WellIndexed(w.combat)
    ensures Cast(spec, w, spell, Aim(w, target), power) == Cast(spec, w, spell, target, power)
  {
    hide Struck;
  }

  /** Only a damage spell in a fight can end it. */
  lemma CastEnds(spec: Spec, w: World, spell: string, target: string, power: Option<int>)
    requires WorldOK(w) && Callable(w)
    ensures var (w', r) := Cast(spec, w, spell, target, power);
            && (r.Ok? ==> r.value.effect == spec.spells[spell].effect)
            && (r.Ok? && r.value.effect == "damage" ==> w.combat.active)
            && (r.Err? || (r.value.effect != "damage" && !w.combat.active) ==> w'.combat == w.combat)
  {
    hide Struck, Roster, Pointed, Advanced;
  }

  lemma DaemonDefendDoes(spec: Spec, w: World, dice: Dice)
    requires AtRest(w) && TemplatesAlive(spec)
    ensures WellIndexed(w.combat) && WorldOK(Defended(w).0)
    ensures DaemonDoes(spec, w, DefendSelf, dice, if w.combat.active then Answered(spec, Defended(w).0, dice.enemies) else w)
  {
    hide CombatOK, EnemyPhase, TemplatesAlive, Advanced;
    RanOne(spec, w, Guard);
    DefendedOK(w);
    if !w.combat.active {
      NothingToAnswer(spec, w, dice.enemies);
    } else {
      StillOn(w);
    }
  }

  lemma DaemonFleeDoes(spec: Spec, w: World, dice: Dice)
    requires AtRest(w) && TemplatesAlive(spec)
    ensures WellIndexed(w.combat) && WorldOK(Fled(w, dice.hero).0)
    ensures DaemonDoes(spec, w, FleeFight, dice, if w.combat.active then Answered(spec, Fled(w, dice.hero).0, dice.enemies) else w)
  {
    hide CombatOK, EnemyPhase, TemplatesAlive, Advanced;
    RanOne(spec, w, RunFrom(dice.hero));
    FledOK(w, dice.hero);
    if !w.combat.active {
      NothingToAnswer(spec, w, dice.enemies);
    }
  }

  lemma StillOn(w: World)
    requires WorldOK(w) && w.combat.active && WellIndexed(w.combat)
    ensures Defended(w).0.combat.active
  {
    hide Roster, Pointed, Steps;
    PointedRange(w.combat);
  }

  /** Commands that are not answered: blocked ones, and those that have nothing to do with fights. */
  predicate Quiet(w: World, c: Command) {
    || (w.combat.active && BlockedInCombat(c))
    || !(c.MoveTo? || c.AttackFoe? || c.CastAt? || c.DefendSelf? || c.FleeFight? || c.LoadFrom?)
  }

  /** What the other commands do is what their one engine call does. */
  ghost predicate QuietEffect(spec: Spec, w: World, c: Command, dice: Dice, w': World)
    requires WellIndexed(w.combat) && (w.combat.active ==> w.combat.turnOrder != []) && -1 <= w.hero.level
  {
    var calls := HeroPart(spec, w, c, dice);
    |calls| <= 1 && w' == if calls == [] || !Named(w, c) then w else Applied(spec, w, calls[0])
  }

  lemma DaemonQuiet(spec: Spec, w: World, c: Command, dice: Dice, w': World)
    requires AtRest(w) && TemplatesAlive(spec) && Callable(w) && QuietEffect(spec, w, c, dice, w')
    requires w'.combat == w.combat
    ensures DaemonDoes(spec, w, c, dice, w')
  {
    hide AtRest, TemplatesAlive, HeroPart, Applied, Named;
    RestFacts(w);
    var calls := HeroPart(spec, w, c, dice);
    if calls == [] {
      RanOne(spec, w, LevelCheck);
    } else {
      assert calls == [calls[0]];
      RanOne(spec, w, calls[0]);
    }
    if Named(w, c) {
      NoAnswer(spec, w, w', c, dice.enemies);
    }
  }

  lemma DaemonQuietDoes(spec: Spec, h: Host, c: Command, dice: Dice)
    requires HostOK(h) && TemplatesAlive(spec) && Quiet(h.world, c)
    ensures Callable(h.world)
    ensures QuietEffect(spec, h.world, c, dice, DaemonStep(spec, h, c, dice).world)
    ensures DaemonStep(spec, h, c, dice).world.combat == h.world.combat
  {
    hide AtRest, TemplatesAlive;
    hide PickedUp, Dropped, EquippedWith, UnequippedFrom, Consumed, Ensured, WorldOK, Settled;
    var w := h.world;
    RestFacts(w);
    RestingCallable(w);
    assert Callable(w);
    QuietCallKeepsCombat(spec, w, c, dice);
  }

  lemma QuietCallKeepsCombat(spec: Spec, w: World, c: Command, dice: Dice)
    requires Callable(w) && Quiet(w, c)
    ensures var calls := HeroPart(spec, w, c, dice);
            |calls| <= 1 && (calls != [] ==> Applied(spec, w, calls[0]).combat == w.combat)
  {
    hide CarryWeight;
  }

  /** Every tool call but a load is these engine calls and no others; one that leaves a name empty is
      none at all. */
  lemma DaemonStepDoes(spec: Spec, h: Host, c: Command, dice: Dice)
    requires HostOK(h) && TemplatesAlive(spec) && !c.LoadFrom?
    ensures DaemonDoes(spec, h.world, c, dice, DaemonStep(spec, h, c, dice).world)
  {
    hide TemplatesAlive, DaemonMoved, DaemonAttacked, DaemonCast, DaemonDoes, AtRest, QuietEffect, EnemyPhase, Defended, Fled;
    hide PickedUp, Dropped, EquippedWith, UnequippedFrom, Consumed, Examined, Looked;
    var w := h.world;
    if Quiet(w, c) {
      DaemonQuietDoes(spec, h, c, dice);
      DaemonQuiet(spec, w, c, dice, DaemonStep(spec, h, c, dice).world);
    } else {
      match c
      case MoveTo(dir) => DaemonMoveDoes(spec, w, dir, dice);
      case AttackFoe(target) => DaemonAttackDoes(spec, w, target, dice);
      case CastAt(spell, target) => DaemonCastDoes(spec, w, spell, target, dice);
      case DefendSelf => DaemonDefendDoes(spec, w, dice);
      case FleeFight => DaemonFleeDoes(spec, w, dice);
    }
  }

  // ---------- The game loop ----------

  /** The loop does the same, names left empty or not, with its own driver of the enemies' turns; it
      stops exactly when told to or when the hero is dead. The display look that follows is ignored. */
  ghost predicate LoopDoes(spec: Spec, w: World, c: Command, dice: Dice, r: LoopDispatch.Reply)
    requires AtRest(w) && TemplatesAlive(spec)
  {
    var mid := Mid(spec, w, c, dice);
    var answer := LoopPhase(spec, mid, dice.enemies, 0);
    && Looked(spec, r.world) == Looked(spec, if EndedByBlow(w, mid, c) then mid.(hero := Leveled(mid.hero)) else answer.world)
    && (!EndedByBlow(w, mid, c) && answer.heroDied ==> r.flow.Finish?)
    && (r.flow.Finish? ==> c.Quit? || r.world.hero.hp <= 0)
    && (c.Quit? ==> r == LoopDispatch.Reply(w, LoopDispatch.Finish))
  }

  lemma LookedTwice(spec: Spec, w: World)
    ensures Looked(spec, Looked(spec, w)) == Looked(spec, w)
    ensures Looked(spec, w).hero == w.hero && Looked(spec, w).combat == w.combat
  {
  }

  lemma LoopQuietPhase(spec: Spec, w: World, mid: World, c: Command, dice: nat -> int)
    requires AtRest(w) && mid.combat == w.combat && WorldOK(mid) && -1 <= mid.hero.level
    ensures LoopPhase(spec, mid, dice, 0) == Phase(mid, [], false) && !EndedByBlow(w, mid, c)
  {
  }

  lemma DeadHeroStays(spec: Spec, w: World, dice: nat -> int)
    requires WorldOK(w) && -1 <= w.hero.level
    ensures LoopPhase(spec, w, dice, 0).heroDied ==> LoopPhase(spec, w, dice, 0).world.hero.hp <= 0
  {
    LoopPhaseSettles(spec, w, dice, 0);
  }

  lemma LoopMoveDoes(spec: Spec, w: World, dir: Direction, dice: Dice)
    requires AtRest(w) && TemplatesAlive(spec) && !w.combat.active
    ensures LoopDoes(spec, w, MoveTo(dir), dice, LoopDispatch.LoopMoved(spec, w, dir, dice))
  {
    hide CombatOK, LoopPhase, TemplatesAlive, Looked;
    RanOne(spec, w, Go(dir));
    var mid := Mid(spec, w, MoveTo(dir), dice);
    if Destination(spec, w.currentRoom, dir).Ok? {
      TwoActions(spec, w, Go(dir), Fight(dice.initiative));
      StartRefused(spec, Moved(spec, w, dir), dice.initiative);
      DeadHeroStays(spec, mid, dice.enemies);
      if CombatStarted(spec, Moved(spec, w, dir), dice.initiative).1.Err? {
        LoopQuietPhase(spec, w, mid, MoveTo(dir), dice.enemies);
      }
    } else {
      LoopQuietPhase(spec, w, w, MoveTo(dir), dice.enemies);
    }
  }

  lemma LoopAttackDoes(spec: Spec, w: World, target: string, dice: Dice)
    requires AtRest(w) && TemplatesAlive(spec)
    ensures LoopDoes(spec, w, AttackFoe(target), dice, LoopDispatch.LoopAttacked(spec, w, target, dice))
  {
    hide CombatOK, LoopPhase, TemplatesAlive, Attacked, BlowFalls, LivesAt, Leveled, Looked;
    var t := Aim(w, target);
    RanOne(spec, w, Action.Hit(t, dice.hero));
    var (mid, r) := Attacked(spec, w, t, dice.hero);
    AttackReports(spec, w, t, dice.hero);
    AttackRefused(spec, w, t, dice.hero);
    DeadHeroStays(spec, mid, dice.enemies);
    if r.Err? {
      LoopQuietPhase(spec, w, mid, AttackFoe(target), dice.enemies);
    }
  }

  lemma AttackRefused(spec: Spec, w: World, target: string, roll: int)
    requires WellIndexed(w.combat)
    ensures var r := Attacked(spec, w, target, roll).1; r.Err? && r.error.HeroDead? ==> w.hero.hp <= 0
  {
  }

  lemma LoopCastDoes(spec: Spec, w: World, spell: string, target: string, dice: Dice)
    requires AtRest(w) && TemplatesAlive(spec)
    ensures LoopDoes(spec, w, CastAt(spell, target), dice, LoopDispatch.LoopCast(spec, w, spell, target, dice))
  {
    hide CombatOK, LoopPhase, TemplatesAlive, BlowFalls, LivesAt, Leveled, Cast, Looked;
    RanOne(spec, w, Chant(spell, target, dice.power));
    AimTwice(spec, w, spell, target, dice.power);
    CastReports(spec, w, spell, target, dice.power);
    CastEnds(spec, w, spell, target, dice.power);
    CastRefused(spec, w, spell, target, dice.power);
    var (mid, r) := Cast(spec, w, spell, target, dice.power);
    DeadHeroStays(spec, mid, dice.enemies);
    if !w.combat.active || r.Err? {
      LoopQuietPhase(spec, w, mid, CastAt(spell, target), dice.enemies);
    }
  }

  lemma CastRefused(spec: Spec, w: World, spell: string, target: string, power: Option<int>)
    requires WellIndexed(w.combat)
    ensures var r := Cast(spec, w, spell, target, power).1; r.Err? && r.error.HeroDead? ==> w.hero.hp <= 0
  {
  }

  lemma LoopDefendDoes(spec: Spec, w: World, dice: Dice)
    requires AtRest(w) && TemplatesAlive(spec)
    ensures LoopDoes(spec, w, DefendSelf, dice, LoopDispatch.LoopDefended(spec, w, dice))
  {
    hide CombatOK, LoopPhase, TemplatesAlive, Advanced, Looked;
    RanOne(spec, w, Guard);
    if !w.combat.active || w.hero.hp <= 0 {
      LoopQuietPhase(spec, w, w, DefendSelf, dice.enemies);
    } else {
      StillOn(w);
      DefendedOK(w);
      DeadHeroStays(spec, Defended(w).0, dice.enemies);
    }
  }

  lemma LoopFleeDoes(spec: Spec, w: World, dice: Dice)
    requires AtRest(w) && TemplatesAlive(spec)
    ensures LoopDoes(spec, w, FleeFight, dice, LoopDispatch.LoopFled(spec, w, dice))
  {
    hide CombatOK, LoopPhase, TemplatesAlive, Advanced, Looked;
    RanOne(spec, w, RunFrom(dice.hero));
    if !w.combat.active || w.hero.hp <= 0 {
      LoopQuietPhase(spec, w, w, FleeFight, dice.enemies);
    } else {
      var (mid, r) := Fled(w, dice.hero);
      FledOK(w, dice.hero);
      DeadHeroStays(spec, mid, dice.enemies);
      if r == Ok(true) {
        FightOver(mid);
        LoopPhaseUnfolds(spec, mid, dice.enemies, 0);
      }
    }
  }

  lemma LoopQuietDoes(spec: Spec, h: Host, c: Command, dice: Dice)
    requires HostOK(h) && TemplatesAlive(spec) && Quiet(h.world, c)
    ensures LoopDoes(spec, h.world, c, dice, LoopDispatch.LoopReply(spec, h, c, dice))
  {
    hide AtRest, TemplatesAlive, LoopPhase, WorldOK, Settled, Applied;
    var w := h.world;
    RestFacts(w);
    RestingCallable(w);
    LoopQuietEffect(spec, h, c, dice);
    QuietCallKeepsCombat(spec, w, c, dice);
    var calls := HeroPart(spec, w, c, dice);
    if calls == [] {
      RanOne(spec, w, LevelCheck);
    } else {
      assert calls == [calls[0]];
      RanOne(spec, w, calls[0]);
    }
    LoopQuietPhase(spec, w, Mid(spec, w, c, dice), c, dice.enemies);
  }

  lemma LoopQuietEffect(spec: Spec, h: Host, c: Command, dice: Dice)
    requires HostOK(h) && TemplatesAlive(spec) && Quiet(h.world, c)
    ensures Callable(h.world)
    ensures var calls, r := HeroPart(spec, h.world, c, dice), LoopDispatch.LoopReply(spec, h, c, dice);
            && Looked(spec, r.world) == Looked(spec, if calls == [] then h.world else Applied(spec, h.world, calls[0]))
            && (r.flow.Finish? <==> c.Quit?) && (c.Quit? ==> r.world == h.world)
  {
    hide AtRest, TemplatesAlive, WorldOK, Settled;
    hide PickedUp, Dropped, EquippedWith, UnequippedFrom, Consumed;
    RestFacts(h.world);
    RestingCallable(h.world);
    LookedTwice(spec, h.world);
  }

  /** Every command but a load is the same engine calls in the loop, up to the look that the loop adds
      for its display. */
  lemma LoopReplyDoes(spec: Spec, h: Host, c: Command, dice: Dice)
    requires HostOK(h) && TemplatesAlive(spec) && !c.LoadFrom?
    ensures LoopDoes(spec, h.world, c, dice, LoopDispatch.LoopReply(spec, h, c, dice))
  {
    hide TemplatesAlive, LoopDispatch.LoopMoved, LoopDispatch.LoopAttacked, LoopDispatch.LoopCast, LoopDispatch.LoopDefended,
         LoopDispatch.LoopFled, LoopDoes, AtRest;
    hide PickedUp, Dropped, EquippedWith, UnequippedFrom, Consumed, Examined, Looked;
    var w := h.world;
    if Quiet(w, c) {
      LoopQuietDoes(spec, h, c, dice);
    } else {
      match c
      case MoveTo(dir) => LoopMoveDoes(spec, w, dir, dice);
      case AttackFoe(target) => LoopAttackDoes(spec, w, target, dice);
      case CastAt(spell, target) => LoopCastDoes(spec, w, spell, target, dice);
      case DefendSelf => LoopDefendDoes(spec, w, dice);
      case FleeFight => LoopFleeDoes(spec, w, dice);
    }
  }
}
