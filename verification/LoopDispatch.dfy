/** Loop.Run and its dispatcher, reduced to their effect on the game and to whether the loop
    goes on: it stops on quit, on the hero's death and on an internal error. */
module LoopDispatch {
  import opened Wrappers
  import opened Graphs
  import opened Scenarios
  import opened GameStates
  import opened Moving
  import opened Leveling
  import opened Combat
  import opened Spells
  import opened Inventory
  import opened CombatInvariant
  import opened EngineRuns
  import opened EnemyTurns
  import opened Dispatch

  /** Run goes on, returns after the display has been refreshed, or returns an error at once. */
  datatype Flow = GoOn | Finish | Abort

  datatype Reply = Reply(world: World, flow: Flow)

  function FinishIf(b: bool): Flow { if b then Finish else GoOn }

  function AbortIf(b: bool): Flow { if b then Abort else GoOn }

  /** Errors the dispatcher turns into an event; any other one ends the loop. */
  predicate Expected(e: EngineError) {
    e.ItemNotInRoom? || e.ItemNotInInventory? || e.TooHeavy? || e.NotEquippable? || e.SlotOccupied? || e.SlotEmpty?
  }

  function ItemReply<T>(r: (World, Result<T, EngineError>)): Reply {
    Reply(r.0, AbortIf(r.1.Err? && !Expected(r.1.error)))
  }

  /** After the hero's action the enemies answer; the hero's death stops the loop. */
  ghost function Answered(spec: Spec, w: World, dice: nat -> int): Reply
    requires WorldOK(w) && -1 <= w.hero.level
  {
    var p := LoopPhase(spec, w, dice, 0);
    Reply(p.world, FinishIf(p.heroDied))
  }

  ghost function LoopMoved(spec: Spec, w: World, dir: Direction, dice: Dice): Reply
    requires AtRest(w) && TemplatesAlive(spec)
  {
    match Destination(spec, w.currentRoom, dir)
    case Err(e) => Reply(w, AbortIf(!e.Locked? && !e.NoExit?))
    case Ok(_) =>
      var there := Moved(spec, w, dir);
      RestingCallable(w);
      AppliedOK(spec, w, Go(dir));
      CombatStartedOK(spec, there, dice.initiative);
      var (w', r) := CombatStarted(spec, there, dice.initiative);
      if r.Ok? then Answered(spec, w', dice.enemies)
      else Reply(w', AbortIf(!r.error.NoEnemies? && !r.error.AlreadyInCombat?))
  }

  ghost function LoopAttacked(spec: Spec, w: World, target: string, dice: Dice): Reply
    requires AtRest(w)
  {
    if !w.combat.active then Reply(w, GoOn)
    else
      var t := Aim(w, target);
      RestingCallable(w);
      AttackedOK(spec, w, t, dice.hero);
      AttackedLevel(spec, w, t, dice.hero);
      var (w', r) := Attacked(spec, w, t, dice.hero);
      if r.Err? then Reply(w', FinishIf(r.error.HeroDead?))
      else if r.value.combatOver then Reply(LeveledWorld(w'), GoOn)
      else Answered(spec, w', dice.enemies)
  }

  ghost function LoopDefended(spec: Spec, w: World, dice: Dice): Reply
    requires AtRest(w)
  {
    if !w.combat.active then Reply(w, GoOn)
    else
      RestingCallable(w);
      DefendedOK(w);
      if Defended(w).1.Some? then Reply(w, FinishIf(Defended(w).1.value.HeroDead?))
      else Answered(spec, Defended(w).0, dice.enemies)
  }

  ghost function LoopFled(spec: Spec, w: World, dice: Dice): Reply
    requires AtRest(w)
  {
    if !w.combat.active then Reply(w, GoOn)
    else
      RestingCallable(w);
      FledOK(w, dice.hero);
      var (w', r) := Fled(w, dice.hero);
      if r.Err? then Reply(w', FinishIf(r.error.HeroDead?))
      else if r.value then Reply(w', GoOn)
      else Answered(spec, w', dice.enemies)
  }

  ghost function LoopCast(spec: Spec, w: World, spell: string, target: string, dice: Dice): Reply
    requires AtRest(w)
  {
    RestingCallable(w);
    var t := if w.combat.active then Aim(w, target) else target;
    CastOK(spec, w, spell, t, dice.power);
    CastLevel(spec, w, spell, t, dice.power);
    var (w', r) := Cast(spec, w, spell, t, dice.power);
    if r.Err? then Reply(w', if r.error.BadSpell? then Abort else FinishIf(r.error.HeroDead?))
    else if r.value.effect == "damage" && !w'.combat.active then Reply(LeveledWorld(w'), GoOn)
    else Answered(spec, w', dice.enemies)
  }

  /** The dispatcher proper. */
  ghost function LoopReply(spec: Spec, h: Host, c: Command, dice: Dice): Reply
    requires HostOK(h) && TemplatesAlive(spec)
  {
    var w := h.world;
    RestingCallable(w);
    if w.combat.active && BlockedInCombat(c) then Reply(w, GoOn)
    else
      match c
      case MoveTo(dir) => LoopMoved(spec, w, dir, dice)
      case LookAround => Reply(Looked(spec, w), GoOn)
      case TakeItem(id) => ItemReply(PickedUp(spec, w, id))
      case DropItem(id) => ItemReply(Dropped(spec, w, id))
      case EquipItem(id) => ItemReply(EquippedWith(w, id))
      case UnequipSlot(slot) => ItemReply(UnequippedFrom(spec, w, slot))
      case ExamineItem(id) => ItemReply(Examined(spec, w, id))
      case UseUp(id) =>
        var (w', r) := Consumed(w, id, dice.power);
        Reply(w', AbortIf(r.Err? && r.error.BadConsumable?))
      case AttackFoe(target) => LoopAttacked(spec, w, target, dice)
      case DefendSelf => LoopDefended(spec, w, dice)
      case FleeFight => LoopFled(spec, w, dice)
      case CastAt(spell, target) => LoopCast(spec, w, spell, target, dice)
      case LoadFrom(slot, ok) => Reply(if ok && SlotName(slot) in h.saves then h.saves[SlotName(slot)] else w, GoOn)
      case Quit => Reply(w, Finish)
      case _ => Reply(w, GoOn)
  }

  /** One turn of Run: dispatch, then the look that refreshes the display. */
  ghost function LoopStep(spec: Spec, h: Host, c: Command, dice: Dice): (Host, Flow)
    requires HostOK(h) && TemplatesAlive(spec)
  {
    var r := LoopReply(spec, h, c, dice);
    var saves := if c.SaveTo? && c.ok then h.saves[SlotName(c.file) := h.world] else h.saves;
    (Host(if r.flow.Abort? then r.world else Looked(spec, r.world), saves), r.flow)
  }

  // ---------- Boundaries ----------

  lemma AnsweredRests(spec: Spec, w: World, dice: nat -> int)
    requires WorldOK(w) && -1 <= w.hero.level
    ensures Answered(spec, w, dice).flow.GoOn? ==> AtRest(Answered(spec, w, dice).world)
  {
    LoopPhaseSettles(spec, w, dice, 0);
  }

  lemma LoopMovedRests(spec: Spec, w: World, dir: Direction, dice: Dice)
    requires AtRest(w) && TemplatesAlive(spec) && !w.combat.active
    ensures LoopMoved(spec, w, dir, dice).flow.GoOn? ==> AtRest(LoopMoved(spec, w, dir, dice).world)
  {
    hide CombatOK, Opening, Instances, TemplatesKnown, LoopPhase;
    if Destination(spec, w.currentRoom, dir).Ok? {
      RestingCallable(w);
      AppliedOK(spec, w, Go(dir));
      var there := Moved(spec, w, dir);
      CombatStartedOK(spec, there, dice.initiative);
      AnsweredRests(spec, CombatStarted(spec, there, dice.initiative).0, dice.enemies);
    }
  }

  lemma LoopAttackedRests(spec: Spec, w: World, target: string, dice: Dice)
    requires AtRest(w)
    ensures LoopAttacked(spec, w, target, dice).flow.GoOn? ==> AtRest(LoopAttacked(spec, w, target, dice).world)
  {
    hide CombatOK, LoopPhase, Advanced;
    if w.combat.active {
      var t := Aim(w, target);
      RestingCallable(w);
      AttackedOK(spec, w, t, dice.hero);
      AttackedLevel(spec, w, t, dice.hero);
      AnsweredRests(spec, Attacked(spec, w, t, dice.hero).0, dice.enemies);
    }
  }

  lemma LoopDefendedRests(spec: Spec, w: World, dice: Dice)
    requires AtRest(w)
    ensures LoopDefended(spec, w, dice).flow.GoOn? ==> AtRest(LoopDefended(spec, w, dice).world)
    ensures LoopFled(spec, w, dice).flow.GoOn? ==> AtRest(LoopFled(spec, w, dice).world)
  {
    hide CombatOK, LoopPhase, Advanced;
    if w.combat.active {
      RestingCallable(w);
      DefendedOK(w);
      FledOK(w, dice.hero);
      AnsweredRests(spec, Defended(w).0, dice.enemies);
      AnsweredRests(spec, Fled(w, dice.hero).0, dice.enemies);
    }
  }

  lemma LoopCastRests(spec: Spec, w: World, spell: string, target: string, dice: Dice)
    requires AtRest(w)
    ensures LoopCast(spec, w, spell, target, dice).flow.GoOn? ==> AtRest(LoopCast(spec, w, spell, target, dice).world)
  {
    hide CombatOK, LoopPhase, Cast;
    RestingCallable(w);
    var t := if w.combat.active then Aim(w, target) else target;
    CastOK(spec, w, spell, t, dice.power);
    CastLevel(spec, w, spell, t, dice.power);
    FailedCastChangesNothing(spec, w, spell, t, dice.power);
    AnsweredRests(spec, Cast(spec, w, spell, t, dice.power).0, dice.enemies);
  }

  lemma LoopReplyRests(spec: Spec, h: Host, c: Command, dice: Dice)
    requires HostOK(h) && TemplatesAlive(spec)
    ensures LoopReply(spec, h, c, dice).flow.GoOn? ==> AtRest(LoopReply(spec, h, c, dice).world)
  {
    hide AtRest, WorldOK, Settled, LoopMoved, LoopAttacked, LoopDefended, LoopFled, LoopCast;
    var w := h.world;
    RestFacts(w);
    RestingCallable(w);
    var r := LoopReply(spec, h, c, dice);
    if w.combat.active && BlockedInCombat(c) {
      return;
    }
    match c {
      case MoveTo(dir) => LoopMovedRests(spec, w, dir, dice);
      case AttackFoe(target) => LoopAttackedRests(spec, w, target, dice);
      case CastAt(spell, target) => LoopCastRests(spec, w, spell, target, dice);
      case DefendSelf => LoopDefendedRests(spec, w, dice);
      case FleeFight => LoopDefendedRests(spec, w, dice);
      case LoadFrom(slot, ok) =>
      case _ => CombatUntouched(w, r.world);
    }
  }

  /** As long as Run does not return, every command leaves a boundary state. */
  lemma LoopStepRests(spec: Spec, h: Host, c: Command, dice: Dice)
    requires HostOK(h) && TemplatesAlive(spec)
    ensures LoopStep(spec, h, c, dice).1.GoOn? ==> HostOK(LoopStep(spec, h, c, dice).0)
  {
    hide AtRest, LoopReply;
    LoopReplyRests(spec, h, c, dice);
    var r := LoopReply(spec, h, c, dice);
    if r.flow.GoOn? {
      CombatUntouched(r.world, Looked(spec, r.world));
    }
  }

  /** The loop over the commands it is sent, up to the one that ends it. */
  ghost function LoopFrom(spec: Spec, h: Host, calls: seq<(Command, Dice)>): (end: (Host, Flow))
    requires HostOK(h) && TemplatesAlive(spec)
    ensures end.1.GoOn? ==> HostOK(end.0) && (end.0.world.combat.active ==> HeroTurn(end.0.world.combat))
    decreases |calls|
  {
    if calls == [] then (h, GoOn)
    else
      LoopStepRests(spec, h, calls[0].0, calls[0].1);
      var (h', flow) := LoopStep(spec, h, calls[0].0, calls[0].1);
      if flow.GoOn? then LoopFrom(spec, h', calls[1..]) else (h', flow)
  }

  /** A whole call of Run: the opening look, then the commands. */
  ghost function LoopRun(spec: Spec, h: Host, calls: seq<(Command, Dice)>): (end: (Host, Flow))
    requires HostOK(h) && TemplatesAlive(spec)
    ensures end.1.GoOn? ==> HostOK(end.0) && (end.0.world.combat.active ==> HeroTurn(end.0.world.combat))
  {
    CombatUntouched(h.world, Looked(spec, h.world));
    LoopFrom(spec, h.(world := Looked(spec, h.world)), calls)
  }

  // ---------- The program ----------

  method AnswerIfNeeded(spec: Spec, state: GameState, dice: nat -> int) returns (flow: Flow)
    requires WorldOK(state.Snap()) && -1 <= state.hero.level
    modifies state
    ensures Reply(state.Snap(), flow) == Answered(spec, old(state.Snap()), dice)
  {
    var acted, heroDied := LoopEnemyTurns(spec, state, dice);
    flow := FinishIf(heroDied);
  }

  method LoopMove(spec: Spec, state: GameState, dir: Direction, dice: Dice) returns (flow: Flow)
    requires AtRest(state.Snap()) && TemplatesAlive(spec) && !state.combat.active
    modifies state
    ensures Reply(state.Snap(), flow) == LoopMoved(spec, old(state.Snap()), dir, dice)
  {
    hide CombatOK, Opening, Instances, TemplatesKnown, LoopPhase, Destination, TemplatesAlive;
    RestingCallable(state.Snap());
    AppliedOK(spec, state.Snap(), Go(dir));
    var r := Move(spec, state, dir);
    if r.Err? {
      return AbortIf(!r.error.Locked? && !r.error.NoExit?);
    }
    CombatStartedOK(spec, state.Snap(), dice.initiative);
    var started := StartCombat(spec, state, dice.initiative);
    if started.Err? {
      return AbortIf(!started.error.NoEnemies? && !started.error.AlreadyInCombat?);
    }
    flow := AnswerIfNeeded(spec, state, dice.enemies);
  }

  method LoopAttack(spec: Spec, state: GameState, target: string, dice: Dice) returns (flow: Flow)
    requires AtRest(state.Snap())
    modifies state
    ensures Reply(state.Snap(), flow) == LoopAttacked(spec, old(state.Snap()), target, dice)
  {
    hide CombatOK, LoopPhase, Attacked, Leveled;
    RestingCallable(state.Snap());
    if !state.combat.active {
      return GoOn;
    }
    var t := target;
    if t == "" {
      t := FirstAliveEnemy(state);
    }
    AttackedOK(spec, state.Snap(), t, dice.hero);
    AttackedLevel(spec, state.Snap(), t, dice.hero);
    var r := Attack(spec, state, t, dice.hero);
    if r.Err? {
      return FinishIf(r.error.HeroDead?);
    }
    if r.value.combatOver {
      var up := CheckLevelUp(state);
      return GoOn;
    }
    flow := AnswerIfNeeded(spec, state, dice.enemies);
  }

  method LoopDefend(spec: Spec, state: GameState, dice: Dice) returns (flow: Flow)
    requires AtRest(state.Snap())
    modifies state
    ensures Reply(state.Snap(), flow) == LoopDefended(spec, old(state.Snap()), dice)
  {
    hide CombatOK, LoopPhase, Advanced;
    RestingCallable(state.Snap());
    DefendedOK(state.Snap());
    if !state.combat.active {
      return GoOn;
    }
    var err := Defend(state);
    if err.Some? {
      return FinishIf(err.value.HeroDead?);
    }
    flow := AnswerIfNeeded(spec, state, dice.enemies);
  }

  method LoopFlee(spec: Spec, state: GameState, dice: Dice) returns (flow: Flow)
    requires AtRest(state.Snap())
    modifies state
    ensures Reply(state.Snap(), flow) == LoopFled(spec, old(state.Snap()), dice)
  {
    hide CombatOK, LoopPhase, Advanced;
    RestingCallable(state.Snap());
    FledOK(state.Snap(), dice.hero);
    if !state.combat.active {
      return GoOn;
    }
    var r := Flee(state, dice.hero);
    if r.Err? {
      return FinishIf(r.error.HeroDead?);
    }
    if r.value {
      return GoOn;
    }
    flow := AnswerIfNeeded(spec, state, dice.enemies);
  }

  method LoopCastSpell(spec: Spec, state: GameState, spell: string, target: string, dice: Dice) returns (flow: Flow)
    requires AtRest(state.Snap())
    modifies state
    ensures Reply(state.Snap(), flow) == LoopCast(spec, old(state.Snap()), spell, target, dice)
  {
    hide CombatOK, LoopPhase, Cast, Leveled;
    ghost var w := state.Snap();
    RestingCallable(w);
    var t := target;
    if t == "" && state.combat.active {
      t := FirstAliveEnemy(state);
    }
    CastOK(spec, w, spell, t, dice.power);
    CastLevel(spec, w, spell, t, dice.power);
    var r := CastSpell(spec, state, spell, t, dice.power);
    if r.Err? {
      return if r.error.BadSpell? then Abort else FinishIf(r.error.HeroDead?);
    }
    if r.value.effect == "damage" {
      if !state.combat.active {
        var up := CheckLevelUp(state);
        return GoOn;
      }
      flow := AnswerIfNeeded(spec, state, dice.enemies);
    } else if state.combat.active && !HeroTurn(state.combat) {
      flow := AnswerIfNeeded(spec, state, dice.enemies);
    } else {
      NobodyToAnswer(spec, state.Snap(), dice.enemies);
      return GoOn;
    }
  }

  lemma NobodyToAnswer(spec: Spec, w: World, dice: nat -> int)
    requires WorldOK(w) && Settled(w) && -1 <= w.hero.level
    ensures Answered(spec, w, dice) == Reply(w, GoOn)
  {
  }

  /** One iteration of Loop.Run: dispatch, then refresh the display. */
  method LoopTurn(spec: Spec, state: GameState, saves: map<string, World>, c: Command, dice: Dice)
      returns (saves': map<string, World>, flow: Flow)
    requires HostOK(Host(state.Snap(), saves)) && TemplatesAlive(spec)
    modifies state
    ensures (Host(state.Snap(), saves'), flow) == LoopStep(spec, old(Host(state.Snap(), saves)), c, dice)
    ensures flow.GoOn? ==> HostOK(Host(state.Snap(), saves'))
  {
    hide AtRest, TemplatesAlive, LoopMoved, LoopAttacked, LoopDefended, LoopFled, LoopCast;
    hide PickedUp, Dropped, EquippedWith, UnequippedFrom, Consumed, Examined, Looked;
    saves' := saves;
    LoopStepRests(spec, Host(state.Snap(), saves), c, dice);
    RestFacts(state.Snap());
    flow := GoOn;
    if !(state.combat.active && BlockedInCombat(c)) {
      match c {
        case MoveTo(dir) => flow := LoopMove(spec, state, dir, dice);
        case LookAround => GameStates.Look(spec, state);
        case TakeItem(id) =>
          var r := PickUp(spec, state, id);
          flow := AbortIf(r.Err? && !Expected(r.error));
        case DropItem(id) =>
          var r := Drop(spec, state, id);
          flow := AbortIf(r.Err? && !Expected(r.error));
        case EquipItem(id) =>
          var r := Equip(state, id);
          flow := AbortIf(r.Err? && !Expected(r.error));
        case UnequipSlot(slot) =>
          var r := Unequip(spec, state, slot);
          flow := AbortIf(r.Err? && !Expected(r.error));
        case ExamineItem(id) =>
          var r := Examine(spec, state, id);
          flow := AbortIf(r.Err? && !Expected(r.error));
        case UseUp(id) =>
          var r := UseItem(state, id, dice.power);
          flow := AbortIf(r.Err? && r.error.BadConsumable?);
        case AttackFoe(target) => flow := LoopAttack(spec, state, target, dice);
        case DefendSelf => flow := LoopDefend(spec, state, dice);
        case FleeFight => flow := LoopFlee(spec, state, dice);
        case CastAt(spell, target) => flow := LoopCastSpell(spec, state, spell, target, dice);
        case SaveTo(file, ok) =>
          if ok {
            saves' := saves[SlotName(file) := World(state.hero, state.currentRoom, state.visitedRooms, state.roomState, state.combat)];
          }
        case LoadFrom(file, ok) =>
          if ok && SlotName(file) in saves {
            Restore(state, saves[SlotName(file)]);
          }
        case Quit => flow := Finish;
        case Malformed =>
        case ListInventory =>
        case Context =>
        case Help =>
      }
    }
    if !flow.Abort? {
      GameStates.Look(spec, state);
    }
  }

  /** Loop.Run over the events its renderer sends until it is closed. */
  method Run(spec: Spec, state: GameState, saves: map<string, World>, calls: seq<(Command, Dice)>)
      returns (saves': map<string, World>, flow: Flow)
    requires HostOK(Host(state.Snap(), saves)) && TemplatesAlive(spec)
    modifies state
    ensures (Host(state.Snap(), saves'), flow) == LoopRun(spec, old(Host(state.Snap(), saves)), calls)
  {
    hide HostOK, TemplatesAlive, LoopStep, Looked;
    LookedRests(spec, Host(state.Snap(), saves));
    ghost var run := LoopRun(spec, Host(state.Snap(), saves), calls);
    saves', flow := saves, GoOn;
    GameStates.Look(spec, state);
    assert calls[0..] == calls;
    for i := 0 to |calls|
      invariant flow.GoOn? && HostOK(Host(state.Snap(), saves'))
      invariant run == LoopFrom(spec, Host(state.Snap(), saves'), calls[i..])
    {
      assert calls[i..][1..] == calls[i + 1..];
      LoopStepRests(spec, Host(state.Snap(), saves'), calls[i].0, calls[i].1);
      saves', flow := LoopTurn(spec, state, saves', calls[i].0, calls[i].1);
      if !flow.GoOn? {
        return;
      }
    }
    assert calls[|calls|..] == [];
  }

  lemma LookedRests(spec: Spec, h: Host)
    requires HostOK(h)
    ensures HostOK(h.(world := Looked(spec, h.world)))
  {
    CombatUntouched(h.world, Looked(spec, h.world));
  }
}
